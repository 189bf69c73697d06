# withings2fitbit: a Dafny model of the token lifecycle, the measurement transform and one sync run

withings2fitbit copies the day's weight and body-fat readings from a smart scale
account (Withings) to a fitness tracker account (Fitbit) on a schedule, refreshing each
provider's OAuth tokens on every run and reporting the outcome as a push notification.
This project models the three pieces of sequential logic in it and proves what they
guarantee:

- `measurement.dfy` (module `Measurement`): `parseWithingsData` in app.js. It picks the
  first weight measure (type 1) and the first body-fat measure (type 6) of the first
  measurement group. It turns each scaled integer into decimal text by putting a point
  `-unit` characters from the right. It is a set of functions, with lemmas for where
  the point lands, the round trip, the number of fractional digits and the number the
  text denotes.
- `tokens.dfy` (module `Tokens`): `returnWithingsTokens` and `returnFitbitTokens` in
  tokenHandling.js, as a class `TokenStore`. The class holds both cache files (a map from
  path to token object), the environment and a log of the refresh exchanges started. Each
  provider's token endpoint reply is a method parameter.
- `sync.dfy` (module `Sync`): `update` in app.js, as a class `Runner`. It records every
  call into a collaborator in `calls` and every push notification in `notifications`.
  What each collaborator resolves to is a method parameter.
- `js.dfy` (module `Js`): the JavaScript semantics the others need. It has undefined
  values (`Option`), calls that return or throw (`Outcome`), `String.prototype.slice`
  with its negative and out-of-range indices, and the template literal `${n}` of an
  integer.

Where the code does something other than what a reader would expect, the model follows
the code:

- The failure branches of both token functions (tokenHandling.js:111, 142) call
  `utils.sendPushoverMessage`. util.js does not export that, so the call throws a
  `TypeError`. The `{status: "error", ...}` records on the following lines are therefore
  never returned. The model's token methods throw `NotifierMissing` there, and the cache
  stays unchanged.
- On the no-data path `update` reads `DEBUG` (app.js:168), which app.js never declares.
  The run throws a `ReferenceError` after the check has already skipped the destination
  token request and both posts. It sends no notification.
- A failed post resolves to undefined. Reading its `status` throws inside the `try`, so
  that run produces the catch-block notification, which carries the exception and no
  status codes.
- The decimal insertion has no special case for `-unit` greater than the digit count, or
  for a positive `unit`. The model applies JavaScript's slice rules there too. The result
  is still the digit string with one point inserted, but it no longer denotes
  value × 10^unit (`OutOfRangeExamples`). No zero padding is done.

## Model

| member | source | states |
|---|---|---|
| `Js.NumberToString` | app.js:34 | `${value}` of an integer is non-empty, contains no point, and is all digits except a leading minus sign, which is there exactly when the value is negative |
| `Js.NumberToStringDenotes` | app.js:34 | `${value}` spells the value: for a non-negative value its digits read back as the value, and for a negative one a minus sign is followed by digits that read back as its magnitude |
| `Js.Slice` | app.js:36 | `slice(start, end)` agrees with the plain substring whenever 0 <= start <= end <= length |
| `Js.SliceFrom` | app.js:36 | `slice(start)` agrees with the plain suffix whenever 0 <= start <= length |
| `Measurement.FixedPoint` | app.js:33-36 | the decimal text is one character longer than `${value}` and contains a point, for every exponent |
| `Measurement.PointIndex` | app.js:33-36 | within 0 <= -unit <= digit count the point lands at digit count + unit, and it always lands inside the digit string |
| `Measurement.PointInserted` | app.js:33-36 | for every exponent the decimal text is the digit string of the value with a single point inserted at `PointIndex` |
| `Measurement.FractionDigits` | app.js:33-36 | for 0 <= -unit <= digit count the text is `s[..len+unit] + "." + s[len+unit..]`, and the part after the point has exactly -unit characters |
| `Measurement.RemovingPointRestoresDigits` | app.js:34-36 | round trip: deleting the points from the decimal text gives back `${value}`, for every exponent |
| `Measurement.SinglePoint` | app.js:36 | the decimal text contains exactly one point, for every exponent |
| `Measurement.FixedPointDenotes` | app.js:33-36 | for a non-negative value within range, integer part × 10^(-unit) + fractional part = value, with exactly -unit fractional digits: the text is value × 10^unit |
| `Measurement.Examples` | app.js:33-36 | 700 with unit -1 gives "70.0", 1955 with -2 gives "19.55", 19550 with -3 gives "19.550" |
| `Measurement.OutOfRangeExamples` | app.js:33-36 | out of range the insertion does not denote the value: 5 with unit -2 gives ".5", 7 with unit 1 gives "7." |
| `Measurement.FirstIndexOfKind` | app.js:31 | the index found holds the first measure of the requested type; no index means no measure has that type |
| `Measurement.FindByKind` | app.js:31 | `find` by type returns nothing exactly when no measure has the type, else the measure at the first index of that type |
| `Measurement.DecodeKind` | app.js:31-37 | a measure list yields no text exactly when no measure has the requested type, else the decimal text of the first measure of that type |
| `Measurement.Parse` | app.js:26-52 | the date comes from the first group. `weight` is set iff some measure of the first group has type 1, and is then the decimal text of the first such measure. `fat` follows the same rule with type 6 |
| `Measurement.OnlyFirstGroupRead` | app.js:28-49 | two payloads with the same first group parse alike: later groups are never read |
| `Measurement.FindByKindCons` | app.js:31 | `find` returns the first measure when it has the type, and otherwise the result of searching the rest |
| `Measurement.FindByKindSkipsInserted` | app.js:31 | inserting a measure of another type at any position leaves the result of `find` unchanged |
| `Measurement.OtherKindsIgnored` | app.js:31-44 | a measure of any type other than 1 and 6, inserted at any position of the first group, changes neither field nor the date |
| `Tokens.LoadCheck` | tokenHandling.js:7-14 | loading the module succeeds iff all four client IDs and secrets are set, and otherwise throws "Missing required environment variables" |
| `Tokens.ReadJsonFile` | tokenHandling.js:26-34 | reading gives null exactly when there is no usable file at the path, and otherwise one of the stored objects |
| `Tokens.ReadDependsOnlyOnPath` | tokenHandling.js:26-34 | two caches whose entries at a path agree (the same object, or absent from both) read the same at that path |
| `Tokens.WriteJsonFile` | tokenHandling.js:16-24 | after writing a cache file, reading it gives the written object, and every other file reads as before |
| `Tokens.ResolveRefreshToken` | tokenHandling.js:94-102 | a cached non-empty refresh token is always chosen, even when the environment token is set. The environment token is used only when the cache lacks one. There is no token exactly when neither exists |
| `Tokens.TokenStore.constructor` | tokenHandling.js:7-14 | a store exists only for an environment that passes the load check; it starts with the given files and no exchanges |
| `Tokens.TokenStore.ReturnWithingsTokens` | tokenHandling.js:88-118 | with no token it throws before any exchange is started. Otherwise it starts one exchange with the resolved token. The acceptance test of line 107 is stated case by case: on a defined reply with status 0 it overwrites the Withings cache with the body and returns `{status: "success", msg: "", data: body}`. On any other outcome the cache is unchanged and the missing notifier throws. The Fitbit cache is never touched |
| `Tokens.TokenStore.ReturnFitbitTokens` | tokenHandling.js:120-148 | with no token it throws before any exchange is started. Otherwise it starts one exchange with the resolved token. It caches any defined reply as-is and returns it as `data`. An undefined reply leaves the cache unchanged and the missing notifier throws. The Withings cache is never touched |
| `Tokens.RotatedTokenUsedNext` | tokenHandling.js:94-108 | after an accepted refresh writes a rotated refresh token, the next resolution for that provider chooses it over the environment seed |
| `Sync.Classify` | app.js:142-164 | success iff both posts resolved with status 201, carrying fat, weight and stamp. Both defined but not both 201 gives a status report with both codes. Either undefined gives the catch-block report |
| `Sync.CountsAppend` | app.js:142-164 | appending one notification adds one to the success count or to the error count, never both |
| `Sync.ExactlyOneNotification` | app.js:142-164 | a run with data gets one success notification and no error notification when both posts return 201, and otherwise exactly one error notification and no success |
| `Sync.Runner.Update` | app.js:118-177 | it records the calls in order: source tokens, the fetch from the start of the day, destination tokens, the weight post and then the fat post. With no measurement groups (the test of line 127: `measuregrps` missing or empty) there is no destination token request, no post and no notification. A failure before the posts stops the run there. A run with data appends exactly one notification, as classified by `Classify` |

## Left out

- HTTP: `fetchWithingsData`, `postFitbitWeight`, `postFitbitBodyFat`, `getWithingsAccessToken` and `getFitbitAccessToken` are not modelled. What they resolve to is a parameter. That includes undefined, which they return after catching a request error.
- The refresh exchange sends the chosen refresh token, but the model does not link the reply to that token. `requests` records only which token would be sent.
- Time zones and date formatting (`moment-timezone`, app.js:47, 49, 119) are not modelled. `startDay` is a parameter. The parsed record keeps the group's epoch, from which the source formats both `date` and `time`.
- Push notification delivery (`pusher.send`) and the rethrow in its asynchronous callback are not modelled. A notification is an entry appended to a log.
- Scheduling (`node-schedule`, app.js:179-181), `dotenv` loading and the console logging in util.js are left out. They carry no logic.
- File I/O: JSON serialisation and the asynchronous, unchecked `fs.writeFile` are not modelled. A write is an immediate overwrite of one map entry. A missing or unparsable cache file is a path with no entry.
- Token objects keep only `access_token` and `refresh_token`. An absent or otherwise falsy field is "". The other fields of the providers' replies are not modelled.
- `update` passes `.access_token` of the `{status, msg, data}` record to the fetch and the posts (app.js:124, 136). That value is always undefined, but the model treats the token results only as returned or thrown.
- Measure values are integers of magnitude at most 2^53, for which `${n}` is the exact digit string. Above that JavaScript prints a rounded, zero-padded shortest form (and from 10^21 on an exponent), which the model does not. Non-integer values and JavaScript's loose equality on `status` are not modelled.
- Measurement.Parse: requires a non-empty group list. app.js:127 checks this before the call, and the source would throw on an empty one. A group whose `measures` field is missing, which makes `find` throw, is not modelled.
- Measurement.FixedPointDenotes: stated for non-negative values only. For a negative value the minus sign is part of the sliced text.
- Serialising runs that overlap is not modelled. The code has no such guard and the model covers a single run.

Four consequences of the code as written, each of which the model keeps:
- When -unit exceeds the digit count, no zeros are padded in before the digits.
- A source refresh that fails throws out of `update` before the fetch, and no notification is sent.
- The no-data path ends in a `ReferenceError` thrown from the undeclared `DEBUG`.
- A post that resolved to undefined is reported with the exception text, not both status codes.
