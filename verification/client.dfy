/**
 * The `DymoAPI` client object: its configuration, the time-gated token-validation
 * cache it keeps in two fields, the guards in front of the private endpoints, and
 * the renaming of the `ip.as` / `ip.class` fields in a data-verifier response.
 * The clock is the `now` parameter (seconds) and the reply of the token-validation
 * endpoint is the `reply` parameter, the decoded JSON of the response.
 */
module DymoClient {

  import opened Wrappers
  import opened PhpValues
  import opened Errors
  import PrivateBranch

  const DefaultBaseUrl := "https://api.tpeoficial.com"
  const LocalBaseUrl := "http://localhost:3050"

  /** Seconds during which a successful token validation is reused. */
  const TokenTtl := 300

  const InvalidRootToken := "Invalid root token."
  const InvalidPrivateToken := "Invalid private token."
  const TokenValidationError := "Token validation error: "
  const EmailConfigMissing := "You must configure the email client settings."

  /** `setBaseUrl`: a truthy `local` flag selects the development server. */
  function BaseUrlFor(local: Value): (url: string)
    ensures url == LocalBaseUrl <==> Truthy(local)
    ensures url == DefaultBaseUrl <==> !Truthy(local)
  {
    if Truthy(local) then LocalBaseUrl else DefaultBaseUrl
  }

  /** The tokens sent for validation: a bearer token for each configured (truthy) key. */
  function TokenMap(rootApiKey: Value, apiKey: Value): (tokens: map<string, string>)
    ensures "root" in tokens <==> Truthy(rootApiKey)
    ensures "private" in tokens <==> Truthy(apiKey)
    ensures tokens.Keys <= {"root", "private"}
    ensures "root" in tokens ==> tokens["root"] == "Bearer " + ToPhpString(rootApiKey)
    ensures "private" in tokens ==> tokens["private"] == "Bearer " + ToPhpString(apiKey)
  {
    var root: map<string, string> := if Truthy(rootApiKey) then map["root" := "Bearer " + ToPhpString(rootApiKey)] else map[];
    if Truthy(apiKey) then root["private" := "Bearer " + ToPhpString(apiKey)] else root
  }

  /** With no key configured there is nothing to validate. */
  lemma TokenMapEmpty(rootApiKey: Value, apiKey: Value)
    ensures TokenMap(rootApiKey, apiKey) == map[] <==> !Truthy(rootApiKey) && !Truthy(apiKey)
  {
    var tokens := TokenMap(rootApiKey, apiKey);
    if Truthy(rootApiKey) { assert "root" in tokens; }
    if Truthy(apiKey) { assert "private" in tokens; }
  }

  /** The cache may be used: a validation reply is stored and it is less than `TokenTtl` seconds old. */
  predicate IsFresh(tokensResponse: Value, lastFetchTime: Option<int>, now: int) {
    Truthy(tokensResponse) && lastFetchTime.Some? && now - lastFetchTime.value < TokenTtl
  }

  /** The `catch (Exception $e)` around the validation: any error comes out as an
      AuthenticationError whose text ends with the caught error's message. */
  function Rethrown(e: DymoError): (r: DymoError)
    ensures r.kind == AuthenticationError
    ensures r.message == Prefix + TokenValidationError + e.message
  {
    Authentication(TokenValidationError + e.message)
  }

  /** The two checks on the validation reply: a configured key needs its entry in the
      reply to be set (any non-null value, `false` included). */
  function TokenCheck(rootApiKey: Value, apiKey: Value, reply: Value): (err: Option<DymoError>)
    ensures err.None? <==> (Truthy(rootApiKey) ==> Get(reply, "root") != Null)
                           && (Truthy(apiKey) ==> Get(reply, "private") != Null)
    ensures err.Some? ==> err.value.kind == AuthenticationError
  {
    if Truthy(rootApiKey) && Get(reply, "root") == Null then Some(Rethrown(Authentication(InvalidRootToken)))
    else if Truthy(apiKey) && Get(reply, "private") == Null then Some(Rethrown(Authentication(InvalidPrivateToken)))
    else None
  }

  /** The error for a rejected root key carries the product prefix twice: once from the
      inner error, once from the rethrown one. The root key is checked first. */
  lemma RootRejectionMessage(rootApiKey: Value, apiKey: Value, reply: Value)
    requires Truthy(rootApiKey) && Get(reply, "root") == Null
    ensures TokenCheck(rootApiKey, apiKey, reply)
            == Some(DymoError(AuthenticationError, Prefix + TokenValidationError + Prefix + InvalidRootToken))
  {
    assert Prefix + TokenValidationError + (Prefix + InvalidRootToken) == Prefix + TokenValidationError + Prefix + InvalidRootToken;
  }

  lemma PrivateRejectionMessage(rootApiKey: Value, apiKey: Value, reply: Value)
    requires !Truthy(rootApiKey) || Get(reply, "root") != Null
    requires Truthy(apiKey) && Get(reply, "private") == Null
    ensures TokenCheck(rootApiKey, apiKey, reply)
            == Some(DymoError(AuthenticationError, Prefix + TokenValidationError + Prefix + InvalidPrivateToken))
  {
    assert Prefix + TokenValidationError + (Prefix + InvalidPrivateToken) == Prefix + TokenValidationError + Prefix + InvalidPrivateToken;
  }

  /** A reply that sets the entry to `false` still passes: only presence is checked. */
  lemma FalseEntryPasses(rootApiKey: Value)
    ensures TokenCheck(rootApiKey, Null, Dict(map["root" := Bool(false)])).None?
  {
  }

  /** A reply that passes the checks for at least one configured key is a non-empty
      array, so storing it makes the cache usable. */
  lemma AcceptedReplyIsTruthy(rootApiKey: Value, apiKey: Value, reply: Value)
    requires TokenMap(rootApiKey, apiKey) != map[]
    requires TokenCheck(rootApiKey, apiKey, reply).None?
    ensures Truthy(reply)
  {
    TokenMapEmpty(rootApiKey, apiKey);
    var k := if Truthy(rootApiKey) then "root" else "private";
    assert Get(reply, k) != Null;
    assert k in reply.fields.Keys;
  }

  /** After a successful validation at `fetched`, a call at `now` reuses it exactly
      when fewer than `TokenTtl` seconds have passed; at `fetched + 300` it validates again. */
  lemma RefreshWindow(rootApiKey: Value, apiKey: Value, reply: Value, fetched: int, now: int)
    requires TokenMap(rootApiKey, apiKey) != map[]
    requires TokenCheck(rootApiKey, apiKey, reply).None?
    ensures IsFresh(reply, Some(fetched), now) <==> now < fetched + TokenTtl
  {
    AcceptedReplyIsTruthy(rootApiKey, apiKey, reply);
  }

  /** `isset($response["ip"]["as"])` */
  predicate HasIpAs(response: Value) {
    Get(Get(response, "ip"), "as") != Null
  }

  /**
   * The renaming in `isValidData`: when `ip.as` is set, `ip.as` and `ip.class` move
   * to `ip._as` and `ip._class` (a missing `class` reads as null); every other key,
   * inside and outside `ip`, keeps its value. Otherwise the response is untouched.
   */
  function RenameIpFields(response: Value): (r: Value)
    ensures !HasIpAs(response) ==> r == response
    ensures HasIpAs(response) ==>
              var ip := response.fields["ip"].fields;
              && r.Dict? && r.fields.Keys == response.fields.Keys
              && (forall k :: k in response.fields && k != "ip" ==> r.fields[k] == response.fields[k])
              && r.fields["ip"].Dict?
              && r.fields["ip"].fields.Keys == ip.Keys - {"as", "class"} + {"_as", "_class"}
              && r.fields["ip"].fields["_as"] == ip["as"]
              && r.fields["ip"].fields["_class"] == Get(Dict(ip), "class")
              && (forall k :: k in ip && k != "as" && k != "class" && k != "_as" && k != "_class"
                    ==> r.fields["ip"].fields[k] == ip[k])
    ensures !HasIpAs(r)
  {
    if !HasIpAs(response) then response
    else
      var ip := response.fields["ip"].fields;
      var renamed := (ip - {"as", "class"})["_as" := ip["as"]]["_class" := Get(Dict(ip), "class")];
      Dict(response.fields["ip" := Dict(renamed)])
  }

  /** Renaming twice is renaming once. */
  lemma RenameIpFieldsIdempotent(response: Value)
    ensures RenameIpFields(RenameIpFields(response)) == RenameIpFields(response)
  {
  }

  /** The outcome of a call into a private endpoint function. */
  datatype PrivateCall =
    | Returned(body: map<string, Value>)
    | Raised(error: DymoError)
    | ArgumentCountError(callee: string)

  /** The string-keyed entries `isset` sees in a value; a non-array has none. */
  function AsArray(v: Value): map<string, Value> {
    if v.Dict? then v.fields else map[]
  }

  /** Calling `send_email($token, $data)` with the given arguments: PHP raises
      ArgumentCountError when a declared parameter gets no argument. */
  function CallSendEmail(args: seq<Value>): (c: PrivateCall)
    ensures |args| < 2 ==> c == ArgumentCountError("send_email")
    ensures |args| >= 2 && args[1].Dict? ==>
              (c.Returned? <==> PrivateBranch.SendEmail(args[1].fields).Ok?)
              && (c.Returned? ==> c.body == args[1].fields)
  {
    if |args| < 2 then ArgumentCountError("send_email")
    else
      match PrivateBranch.SendEmail(AsArray(args[1]))
      case Ok(body) => Returned(body)
      case Err(e) => Raised(e)
  }

  class Client {
    var organization: Value
    var rootApiKey: Value
    var apiKey: Value
    var serverEmailConfig: Value
    var tokensResponse: Value
    var lastFetchTime: Option<int>
    var local: Value
    var baseUrl: string

    /** The constructor's field set-up: each setting is read with `?? null` (`?? false` for `local`). */
    constructor (config: map<string, Value>)
      ensures organization == Coalesce(config, "organization", Null)
      ensures rootApiKey == Coalesce(config, "root_api_key", Null)
      ensures apiKey == Coalesce(config, "api_key", Null)
      ensures serverEmailConfig == Coalesce(config, "server_email_config", Null)
      ensures tokensResponse == Null && lastFetchTime == None
      ensures local == Coalesce(config, "local", Bool(false))
      ensures baseUrl == BaseUrlFor(local)
    {
      organization := Coalesce(config, "organization", Null);
      rootApiKey := Coalesce(config, "root_api_key", Null);
      apiKey := Coalesce(config, "api_key", Null);
      serverEmailConfig := Coalesce(config, "server_email_config", Null);
      tokensResponse := Null;
      lastFetchTime := None;
      local := Coalesce(config, "local", Bool(false));
      baseUrl := DefaultBaseUrl;
      new;
      SetBaseUrl(local);
    }

    method SetBaseUrl(local: Value)
      modifies this`baseUrl
      ensures baseUrl == BaseUrlFor(local)
    {
      baseUrl := if Truthy(local) then LocalBaseUrl else DefaultBaseUrl;
    }

    /** `getFunction`'s guard: the private module needs an API key that is not null. */
    function GetFunction(moduleName: string, functionName: string): (r: Result<string>)
      reads this
      ensures r.Err? <==> moduleName == "private" && apiKey == Null
      ensures r.Err? ==> r.error == Authentication(InvalidPrivateToken)
      ensures r.Ok? ==> r.value == functionName
    {
      if moduleName == "private" && apiKey == Null then Err(Authentication(InvalidPrivateToken))
      else Ok(functionName)
    }

    /**
     * `initializeTokens` at time `now`. Returns the tokens it posts for validation
     * (None when it makes no request) and the error it raises. It makes no request
     * while the cache is fresh or when no key is configured; otherwise it checks the
     * reply and, only when the reply passes, stores it together with `now`.
     */
    method InitializeTokens(now: int, reply: Value) returns (request: Option<map<string, string>>, err: Option<DymoError>)
      modifies this`tokensResponse, this`lastFetchTime
      ensures IsFresh(old(tokensResponse), old(lastFetchTime), now) ==> request.None?
      ensures (!IsFresh(old(tokensResponse), old(lastFetchTime), now) && TokenMap(rootApiKey, apiKey) != map[])
                ==> request == Some(TokenMap(rootApiKey, apiKey))
      ensures TokenMap(rootApiKey, apiKey) == map[] ==> request.None?
      ensures request.None? ==> err.None?
      ensures request.Some? ==> err == TokenCheck(rootApiKey, apiKey, reply)
      ensures request.Some? && err.None? ==> tokensResponse == reply && lastFetchTime == Some(now)
      ensures request.Some? && err.None? ==> IsFresh(tokensResponse, lastFetchTime, now)
      ensures (request.None? || err.Some?) ==>
                tokensResponse == old(tokensResponse) && lastFetchTime == old(lastFetchTime)
    {
      if IsFresh(tokensResponse, lastFetchTime, now) {
        return None, None;
      }
      var tokens := TokenMap(rootApiKey, apiKey);
      if tokens == map[] {
        return None, None;
      }
      request := Some(tokens);
      err := TokenCheck(rootApiKey, apiKey, reply);
      if err.None? {
        AcceptedReplyIsTruthy(rootApiKey, apiKey, reply);
        tokensResponse := reply;
        lastFetchTime := Some(now);
      }
    }

    /** `sendEmail` as written: after its guards it calls `send_email` with the merged
        data as its only argument, while `send_email` takes the token and the data. */
    function SendEmailAsWritten(data: map<string, Value>): (r: PrivateCall)
      reads this
      ensures !Truthy(serverEmailConfig) ==> r == Raised(Authentication(EmailConfigMissing))
      ensures Truthy(serverEmailConfig) && apiKey == Null ==> r == Raised(Authentication(InvalidPrivateToken))
      ensures Truthy(serverEmailConfig) && apiKey != Null ==> r == ArgumentCountError("send_email")
    {
      if !Truthy(serverEmailConfig) then Raised(Authentication(EmailConfigMissing))
      else
        match GetFunction("private", "send_email")
        case Err(e) => Raised(e)
        case Ok(_) => CallSendEmail([Dict(data["serverEmailConfig" := serverEmailConfig])])
    }

    /**
     * `sendEmail` with the call it evidently intends, `send_email($token, $data)`:
     * the email configuration and the API key are required first, then the email
     * fields; the body is the caller's data with `serverEmailConfig` set to the
     * configured value.
     */
    function SendEmail(data: map<string, Value>): (r: PrivateCall)
      reads this
      ensures !Truthy(serverEmailConfig) ==> r == Raised(Authentication(EmailConfigMissing))
      ensures Truthy(serverEmailConfig) && apiKey == Null ==> r == Raised(Authentication(InvalidPrivateToken))
      ensures r.Returned? <==> Truthy(serverEmailConfig) && apiKey != Null && PrivateBranch.SendEmail(data).Ok?
      ensures r.Returned? ==> r.body == data["serverEmailConfig" := serverEmailConfig]
      ensures !r.ArgumentCountError?
    {
      if !Truthy(serverEmailConfig) then Raised(Authentication(EmailConfigMissing))
      else
        match GetFunction("private", "send_email")
        case Err(e) => Raised(e)
        case Ok(_) =>
          var merged := data["serverEmailConfig" := serverEmailConfig];
          assert forall i :: 0 <= i < |PrivateBranch.EmailFields| ==>
                   (IsSet(merged, PrivateBranch.EmailFields[i].0) <==> IsSet(data, PrivateBranch.EmailFields[i].0));
          CallSendEmail([apiKey, Dict(merged)])
    }
  }

  /** The as-written `sendEmail` never reaches the endpoint, whatever the data. */
  lemma SendEmailAsWrittenNeverSends(c: Client, data: map<string, Value>)
    ensures !c.SendEmailAsWritten(data).Returned?
  {
  }

  /** An empty-string API key passes the private-module guard (it is not null), yet is
      never sent for validation (it is falsy). */
  lemma EmptyApiKeyPassesGuardUnvalidated(c: Client, functionName: string)
    requires c.apiKey == Str("")
    ensures c.GetFunction("private", functionName).Ok?
    ensures "private" !in TokenMap(c.rootApiKey, c.apiKey)
  {
  }

  /**
   * `new DymoAPI($config)`: sets the fields, then validates the tokens when an API
   * key is configured; when the validation fails the constructor throws. The cache
   * of a fresh client is empty, so the validation always posts the tokens. Since
   * `initializeTokens` is private and the constructor is its only caller, the
   * class as written never finds its cache fresh.
   */
  method NewClient(config: map<string, Value>, now: int, reply: Value)
    returns (c: Client, request: Option<map<string, string>>, err: Option<DymoError>)
    ensures fresh(c)
    ensures c.rootApiKey == Coalesce(config, "root_api_key", Null)
    ensures c.apiKey == Coalesce(config, "api_key", Null)
    ensures c.serverEmailConfig == Coalesce(config, "server_email_config", Null)
    ensures c.baseUrl == BaseUrlFor(Coalesce(config, "local", Bool(false)))
    ensures !Truthy(c.apiKey) ==> err.None? && c.tokensResponse == Null && c.lastFetchTime == None
    ensures Truthy(c.apiKey) ==> err == TokenCheck(c.rootApiKey, c.apiKey, reply)
    ensures err.None? && Truthy(c.apiKey) ==> c.tokensResponse == reply && c.lastFetchTime == Some(now)
    ensures err.Some? ==> c.tokensResponse == Null && c.lastFetchTime == None
    ensures Truthy(c.apiKey) ==> request == Some(TokenMap(c.rootApiKey, c.apiKey))
    ensures !Truthy(c.apiKey) ==> request.None?
  {
    c := new Client(config);
    request, err := None, None;
    if Truthy(c.apiKey) {
      request, err := c.InitializeTokens(now, reply);
    }
  }

  /** Two validations at `first` and then `second`, less than `TokenTtl` apart: when the
      first raises nothing, at most one of the two posts a request. The class itself
      never makes this second call (see `NewClient`); this is what the cache would
      give a second caller of `initializeTokens`. */
  method ValidateTwice(c: Client, first: int, second: int, reply1: Value, reply2: Value)
    returns (request1: Option<map<string, string>>, request2: Option<map<string, string>>, err1: Option<DymoError>)
    requires first <= second < first + TokenTtl
    modifies c
    ensures err1.None? ==> request1.None? || request2.None?
  {
    request1, err1 := c.InitializeTokens(first, reply1);
    var err2;
    request2, err2 := c.InitializeTokens(second, reply2);
  }
}
