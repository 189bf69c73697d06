/** The refresh-token lifecycle of tokenHandling.js: one JSON cache file per provider,
    a seed refresh token per provider in the environment, a refresh exchange whose reply
    is an input, and a cache that only an accepted reply overwrites. */
module Tokens {
  import opened Js

  const WithingsCacheFile := "withings-cache.json"
  const FitbitCacheFile := "fitbit-cache.json"
  const WithingsRefreshTokenVar := "WITHINGS_REFRESH_TOKEN"
  const FitbitRefreshTokenVar := "FITBIT_REFRESH_TOKEN"

  /** The client credentials the module checks when it is loaded. */
  const CredentialVars := ["WITHINGS_CLIENT_ID", "WITHINGS_CLIENT_SECRET", "FITBIT_CLIENT_ID", "FITBIT_CLIENT_SECRET"]

  const MissingCredentials := Error("Missing required environment variables")
  const NoWithingsToken := Error("No Withings refresh token found")
  const NoFitbitToken := Error("No Fitbit refresh token found")
  /** The failure branches call `utils.sendPushoverMessage`, which util.js does not export. */
  const NotifierMissing := TypeError("utils.sendPushoverMessage is not a function")

  /** The token fields of a cached or returned token object; "" stands for a field that is
      absent (or otherwise falsy). Other fields of the provider's reply are not modelled. */
  datatype TokenRecord = TokenRecord(accessToken: string, refreshToken: string)

  /** A reply of the source provider's token endpoint: `status` 0 means success. */
  datatype WithingsReply = WithingsReply(status: int, body: TokenRecord)

  datatype Provider = Withings | Fitbit

  /** A refresh exchange the module started, with the refresh token it sent. */
  datatype RefreshRequest = RefreshRequest(provider: Provider, refreshToken: string)

  /** The `{status, msg, data}` record the two token functions return. */
  datatype TokenResult = TokenResult(status: string, msg: string, data: TokenRecord)

  /** `process.env[name]`, with "" for an unset variable. */
  function EnvValue(env: map<string, string>, name: string): string {
    if name in env then env[name] else ""
  }

  /** The check run when tokenHandling.js is loaded (lines 12-14). */
  function LoadCheck(env: map<string, string>): (r: Outcome<()>)
    ensures r.Returned? <==> forall i :: 0 <= i < |CredentialVars| ==> EnvValue(env, CredentialVars[i]) != ""
    ensures r.Thrown? ==> r.exception == MissingCredentials
  {
    if EnvValue(env, CredentialVars[0]) == "" || EnvValue(env, CredentialVars[1]) == ""
       || EnvValue(env, CredentialVars[2]) == "" || EnvValue(env, CredentialVars[3]) == ""
    then Thrown(MissingCredentials)
    else Returned(())
  }

  /** `readJsonFile(path)`: null when the file is missing or cannot be parsed, both of
      which the model represents as a path without an entry. */
  function ReadJsonFile(files: map<string, TokenRecord>, path: string): (r: Option<TokenRecord>)
    ensures r.None? <==> path !in files
    ensures r.Some? ==> r.value in files.Values
  {
    if path in files then Some(files[path]) else None
  }

  /** What is read at a path depends on that path's entry alone. */
  lemma ReadDependsOnlyOnPath(f1: map<string, TokenRecord>, f2: map<string, TokenRecord>, p: string)
    requires (p in f1 <==> p in f2) && (p in f1 ==> f1[p] == f2[p])
    ensures ReadJsonFile(f1, p) == ReadJsonFile(f2, p)
  {
  }

  /** `writeToJsonFile(path, data)`, taken to complete at once. */
  function WriteJsonFile(files: map<string, TokenRecord>, path: string, data: TokenRecord): (r: map<string, TokenRecord>)
    ensures ReadJsonFile(r, path) == Some(data)
    ensures forall p :: p != path ==> ReadJsonFile(r, p) == ReadJsonFile(files, p)
  {
    files[path := data]
  }

  /** The cached object exists and has a (truthy) `refresh_token`. */
  predicate HasCachedToken(cached: Option<TokenRecord>) {
    cached.Some? && cached.value.refreshToken != ""
  }

  /** The refresh token chosen before the exchange: the cached one, else the seed from
      the environment, else none (and the function throws). */
  function ResolveRefreshToken(cached: Option<TokenRecord>, seed: string): (r: Option<string>)
    ensures r.Some? ==> r.value != ""
    ensures HasCachedToken(cached) ==> r == Some(cached.value.refreshToken)
    ensures r.Some? && r.value != seed ==> HasCachedToken(cached)
    ensures !HasCachedToken(cached) ==> r == if seed == "" then None else Some(seed)
    ensures r.None? <==> !HasCachedToken(cached) && seed == ""
  {
    if HasCachedToken(cached) then Some(cached.value.refreshToken)
    else if seed != "" then Some(seed)
    else None
  }

  /** `withingsTokenResponse && withingsTokenResponse.status == 0`. */
  predicate WithingsAccepted(reply: Option<WithingsReply>) {
    reply.Some? && reply.value.status == 0
  }

  /** The token module: both cache files, the environment and the refresh exchanges started. */
  class TokenStore {
    const env: map<string, string>
    var files: map<string, TokenRecord>
    var requests: seq<RefreshRequest>

    /** Loading the module succeeds only when all four client credentials are set. */
    constructor (env: map<string, string>, files: map<string, TokenRecord>)
      requires LoadCheck(env).Returned?
      ensures this.env == env && this.files == files && requests == []
    {
      this.env := env;
      this.files := files;
      requests := [];
    }

    function WithingsToken(cache: map<string, TokenRecord>): Option<string> {
      ResolveRefreshToken(ReadJsonFile(cache, WithingsCacheFile), EnvValue(env, WithingsRefreshTokenVar))
    }

    function FitbitToken(cache: map<string, TokenRecord>): Option<string> {
      ResolveRefreshToken(ReadJsonFile(cache, FitbitCacheFile), EnvValue(env, FitbitRefreshTokenVar))
    }

    /** `returnWithingsTokens`, with `reply` standing for what `getWithingsAccessToken`
        resolves to (None for undefined, after a transport error). */
    method ReturnWithingsTokens(reply: Option<WithingsReply>) returns (r: Outcome<TokenResult>)
      modifies this
      ensures forall p :: p != WithingsCacheFile ==> ReadJsonFile(files, p) == ReadJsonFile(old(files), p)
      ensures WithingsToken(old(files)).None? ==>
        r == Thrown(NoWithingsToken) && files == old(files) && requests == old(requests)
      ensures WithingsToken(old(files)).Some? ==>
        requests == old(requests) + [RefreshRequest(Withings, WithingsToken(old(files)).value)]
      ensures WithingsToken(old(files)).Some? && WithingsAccepted(reply) ==>
        && files == WriteJsonFile(old(files), WithingsCacheFile, reply.value.body)
        && r == Returned(TokenResult("success", "", reply.value.body))
      ensures WithingsToken(old(files)).Some? && !WithingsAccepted(reply) ==>
        files == old(files) && r == Thrown(NotifierMissing)
    {
      var cached := ReadJsonFile(files, WithingsCacheFile);
      var refreshToken: string;
      if cached.Some? && cached.value.refreshToken != "" {
        refreshToken := cached.value.refreshToken;
      } else if EnvValue(env, WithingsRefreshTokenVar) != "" {
        refreshToken := EnvValue(env, WithingsRefreshTokenVar);
      } else {
        return Thrown(NoWithingsToken);
      }
      requests := requests + [RefreshRequest(Withings, refreshToken)];
      if WithingsAccepted(reply) {
        files := WriteJsonFile(files, WithingsCacheFile, reply.value.body);
        r := Returned(TokenResult("success", "", reply.value.body));
      } else {
        // The notification call throws before the error record is returned.
        r := Thrown(NotifierMissing);
      }
    }

    /** `returnFitbitTokens`, with `reply` standing for what `getFitbitAccessToken`
        resolves to (None for undefined, after a transport error). */
    method ReturnFitbitTokens(reply: Option<TokenRecord>) returns (r: Outcome<TokenResult>)
      modifies this
      ensures forall p :: p != FitbitCacheFile ==> ReadJsonFile(files, p) == ReadJsonFile(old(files), p)
      ensures FitbitToken(old(files)).None? ==>
        r == Thrown(NoFitbitToken) && files == old(files) && requests == old(requests)
      ensures FitbitToken(old(files)).Some? ==>
        requests == old(requests) + [RefreshRequest(Fitbit, FitbitToken(old(files)).value)]
      ensures FitbitToken(old(files)).Some? && reply.Some? ==>
        && files == WriteJsonFile(old(files), FitbitCacheFile, reply.value)
        && r == Returned(TokenResult("success", "", reply.value))
      ensures FitbitToken(old(files)).Some? && reply.None? ==>
        files == old(files) && r == Thrown(NotifierMissing)
    {
      var cached := ReadJsonFile(files, FitbitCacheFile);
      var refreshToken: string;
      if cached.Some? && cached.value.refreshToken != "" {
        refreshToken := cached.value.refreshToken;
      } else if EnvValue(env, FitbitRefreshTokenVar) != "" {
        refreshToken := EnvValue(env, FitbitRefreshTokenVar);
      } else {
        return Thrown(NoFitbitToken);
      }
      requests := requests + [RefreshRequest(Fitbit, refreshToken)];
      if reply.Some? {
        files := WriteJsonFile(files, FitbitCacheFile, reply.value);
        r := Returned(TokenResult("success", "", reply.value));
      } else {
        // The notification call throws before the error record is returned.
        r := Thrown(NotifierMissing);
      }
    }
  }

  /** A refresh whose reply rotates the refresh token leaves the new one in the cache,
      so the next run of the same provider sends it instead of the old one. */
  lemma RotatedTokenUsedNext(files: map<string, TokenRecord>, seed: string, body: TokenRecord)
    requires body.refreshToken != ""
    ensures ResolveRefreshToken(ReadJsonFile(WriteJsonFile(files, WithingsCacheFile, body), WithingsCacheFile), seed)
      == Some(body.refreshToken)
    ensures ResolveRefreshToken(ReadJsonFile(WriteJsonFile(files, FitbitCacheFile, body), FitbitCacheFile), seed)
      == Some(body.refreshToken)
  {
  }
}
