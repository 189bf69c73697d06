/** One run of the sync job (`update` in app.js): refresh the source tokens, fetch today's
    measurement groups, stop when there are none, otherwise parse the first group, refresh
    the destination tokens, post weight and then body fat, and send one notification that
    classifies the outcome. Every call into a collaborator is recorded in `calls` and
    every notification in `notifications`; the collaborators' results are inputs. */
module Sync {
  import opened Js
  import Measurement
  import Tokens

  const Title := "Withings2Fitbit"
  /** The status of a created log entry at the destination. */
  const Created := 201

  const NoMeasureBody := TypeError("Cannot read properties of undefined (reading 'measuregrps')")
  const NoPostResponse := TypeError("Cannot read properties of undefined (reading 'status')")
  /** `DEBUG` is not declared in app.js. */
  const DebugUndeclared := ReferenceError("DEBUG is not defined")

  /** What `fetchWithingsData` resolves to: undefined after a failed request, or the reply
      body, whose `measuregrps` may be missing. */
  datatype MeasureReply = Undefined | Body(measuregrps: Option<seq<Measurement.Group>>)

  /** A call into a collaborator, with the arguments that matter. The posts carry the parsed
      value (None for undefined) and the epoch their date and time are formatted from. */
  datatype Call =
    | RequestSourceTokens
    | FetchMeasurements(lastUpdate: int)
    | RequestDestinationTokens
    | PostWeight(weight: Option<string>, stamp: int)
    | PostFat(fat: Option<string>, stamp: int)

  datatype Message =
    | Synced(fat: Option<string>, weight: Option<string>, stamp: int)
    | PostsRejected(weightStatus: int, fatStatus: int)
    | PostsThrew(error: Exception)

  datatype Notification = Notification(title: string, message: Message)

  predicate IsError(n: Notification) {
    !n.message.Synced?
  }

  function CountSuccesses(ns: seq<Notification>): nat {
    if ns == [] then 0 else (if ns[0].message.Synced? then 1 else 0) + CountSuccesses(ns[1..])
  }

  function CountErrors(ns: seq<Notification>): nat {
    if ns == [] then 0 else (if IsError(ns[0]) then 1 else 0) + CountErrors(ns[1..])
  }

  lemma {:induction false} CountsAppend(ns: seq<Notification>, n: Notification)
    ensures CountSuccesses(ns + [n]) == CountSuccesses(ns) + (if n.message.Synced? then 1 else 0)
    ensures CountErrors(ns + [n]) == CountErrors(ns) + (if IsError(n) then 1 else 0)
  {
    if ns != [] {
      assert (ns + [n])[1..] == ns[1..] + [n];
      CountsAppend(ns[1..], n);
    }
  }

  /** `withingsData.measuregrps && withingsData.measuregrps.length > 0`, for a defined body. */
  predicate HasGroups(reply: MeasureReply)
    requires reply.Body?
  {
    reply.measuregrps.Some? && |reply.measuregrps.value| > 0
  }

  /** The notification after both posts, following the evaluation order of app.js:142-164.
      A post that failed resolves to undefined (None); reading its `status` throws and the
      catch block reports the exception. */
  function Classify(input: Measurement.Parsed, weightResponse: Option<int>, fatResponse: Option<int>): (r: Message)
    ensures r.Synced? <==> weightResponse == Some(Created) && fatResponse == Some(Created)
    ensures r.Synced? ==> r == Synced(input.fat, input.weight, input.stamp)
    ensures r.PostsRejected? <==>
      weightResponse.Some? && fatResponse.Some? && !(weightResponse.value == Created && fatResponse.value == Created)
    ensures r.PostsRejected? ==> r == PostsRejected(weightResponse.value, fatResponse.value)
    ensures r.PostsThrew? <==> weightResponse.None? || fatResponse.None?
    ensures r.PostsThrew? ==> r.error == NoPostResponse
  {
    if weightResponse.None? then PostsThrew(NoPostResponse)
    else if weightResponse.value == Created && fatResponse.None? then PostsThrew(NoPostResponse)
    else if weightResponse.value == Created && fatResponse.value == Created then
      Synced(input.fat, input.weight, input.stamp)
    else if fatResponse.None? then PostsThrew(NoPostResponse)
    else PostsRejected(weightResponse.value, fatResponse.value)
  }

  class Runner {
    var calls: seq<Call>
    var notifications: seq<Notification>

    constructor ()
      ensures calls == [] && notifications == []
    {
      calls := [];
      notifications := [];
    }

    /** `update()`. `startDay` is the epoch of the local midnight; the other parameters
        are what the collaborators resolve to, in the order they are awaited. */
    method Update(startDay: int, sourceTokens: Outcome<Tokens.TokenResult>, reply: MeasureReply,
                  destinationTokens: Outcome<Tokens.TokenResult>,
                  weightResponse: Option<int>, fatResponse: Option<int>) returns (r: Outcome<()>)
      modifies this
      // The source token request fails: nothing else happens.
      ensures sourceTokens.Thrown? ==>
        && r == Thrown(sourceTokens.exception)
        && calls == old(calls) + [RequestSourceTokens]
        && notifications == old(notifications)
      // The fetch resolves to undefined: reading `measuregrps` throws.
      ensures sourceTokens.Returned? && reply.Undefined? ==>
        && r == Thrown(NoMeasureBody)
        && calls == old(calls) + [RequestSourceTokens, FetchMeasurements(startDay)]
        && notifications == old(notifications)
      // No data today: no destination tokens, no posts, no notification; the undeclared
      // `DEBUG` then throws.
      ensures sourceTokens.Returned? && reply.Body? && !HasGroups(reply) ==>
        && r == Thrown(DebugUndeclared)
        && calls == old(calls) + [RequestSourceTokens, FetchMeasurements(startDay)]
        && notifications == old(notifications)
      // The destination token request fails: no posts and no notification.
      ensures sourceTokens.Returned? && reply.Body? && HasGroups(reply) && destinationTokens.Thrown? ==>
        && r == Thrown(destinationTokens.exception)
        && calls == old(calls) + [RequestSourceTokens, FetchMeasurements(startDay), RequestDestinationTokens]
        && notifications == old(notifications)
      // Data and tokens: weight is posted before fat, and exactly one notification follows.
      ensures sourceTokens.Returned? && reply.Body? && HasGroups(reply) && destinationTokens.Returned? ==>
        var input := Measurement.Parse(reply.measuregrps.value);
        && r == Returned(())
        && calls == old(calls) + [RequestSourceTokens, FetchMeasurements(startDay), RequestDestinationTokens,
                                  PostWeight(input.weight, input.stamp), PostFat(input.fat, input.stamp)]
        && notifications == old(notifications) + [Notification(Title, Classify(input, weightResponse, fatResponse))]
    {
      calls := calls + [RequestSourceTokens];
      if sourceTokens.Thrown? {
        return Thrown(sourceTokens.exception);
      }
      calls := calls + [FetchMeasurements(startDay)];
      if reply.Undefined? {
        return Thrown(NoMeasureBody);
      }
      if HasGroups(reply) {
        var input := Measurement.Parse(reply.measuregrps.value);
        calls := calls + [RequestDestinationTokens];
        if destinationTokens.Thrown? {
          return Thrown(destinationTokens.exception);
        }
        calls := calls + [PostWeight(input.weight, input.stamp)];
        calls := calls + [PostFat(input.fat, input.stamp)];
        notifications := notifications + [Notification(Title, Classify(input, weightResponse, fatResponse))];
        r := Returned(());
      } else {
        r := Thrown(DebugUndeclared);
      }
    }
  }

  /** On a run with data and tokens, the one notification is a success exactly when both
      posts were created, and an error otherwise. */
  lemma ExactlyOneNotification(before: seq<Notification>, input: Measurement.Parsed,
                               weightResponse: Option<int>, fatResponse: Option<int>)
    ensures var after := before + [Notification(Title, Classify(input, weightResponse, fatResponse))];
      var created := weightResponse == Some(Created) && fatResponse == Some(Created);
      && CountSuccesses(after) == CountSuccesses(before) + (if created then 1 else 0)
      && CountErrors(after) == CountErrors(before) + (if created then 0 else 1)
  {
    CountsAppend(before, Notification(Title, Classify(input, weightResponse, fatResponse)));
  }
}
