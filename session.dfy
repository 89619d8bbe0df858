/**
 * The state machine of the IDN client object (src/Api.php), written as pure transition
 * functions over a record of the object's fields. Each function gives the new field values
 * and the outcome (an envelope, or the exception thrown) of one method of the PHP class;
 * the class `Api` in module IdnClient implements the same methods step by step and is
 * proved to agree with these functions.
 *
 * The network is replaced by a server oracle: the reply to the n-th request of the object,
 * which may depend on the request. Hook handlers are identified by number; firing a hook
 * appends one invocation record per registered handler to the event log.
 */
module Session {
  import opened Envelopes

  /** A POST form field: PHP null, a string, or a file attachment (a `CurlFile` of the
      file's real path). */
  datatype Value = Null | Text(text: string) | Attachment(realPath: string)

  type Fields = map<string, Value>

  /** A request as it goes over the wire. The verb that `curl` receives is not part of
      it: the transport is configured with CURLOPT_POST on every call. */
  datatype Request = Request(url: string, headers: seq<string>, fields: Fields, userAgent: string)

  /** The body as `curl` judges it. `json_decode($result, TRUE)` gave a non-empty array,
      read as an envelope: a JSON object, or a non-empty JSON list, whose keys the envelope
      reads as absent. Or it gave something `curl` rejects: not an array (invalid JSON, a
      scalar, null) or an empty one, kept as the raw text. */
  datatype Body = Json(envelope: Envelope) | Rejected(raw: string)

  /** A reply: the transport error number (`curl_errno`) and the body. */
  datatype Reply = Reply(errno: int, body: Body)

  /** The reply to the n-th request the object sends. */
  type Server = (nat, Request) -> Reply

  /** The four hook lists of src/Api.php:103-109. */
  datatype Hook = OnCurlCall | OnCurlFinished | OnCurlFailed | OnInvalidToken

  type HandlerId = nat

  datatype Hooks = Hooks(
    onCurlCall: seq<HandlerId>,
    onCurlFinished: seq<HandlerId>,
    onCurlFailed: seq<HandlerId>,
    onInvalidToken: seq<HandlerId>)
  {
    function Of(hook: Hook): seq<HandlerId> {
      match hook
      case OnCurlCall => onCurlCall
      case OnCurlFinished => onCurlFinished
      case OnCurlFailed => onCurlFailed
      case OnInvalidToken => onInvalidToken
    }
  }

  /** `$api->onX[] = $handler`: the handler is added at the end of one list. */
  function Register(hooks: Hooks, hook: Hook, handler: HandlerId): (r: Hooks)
    ensures r.Of(hook) == hooks.Of(hook) + [handler]
    ensures forall other: Hook | other != hook :: r.Of(other) == hooks.Of(other)
  {
    match hook
    case OnCurlCall => hooks.(onCurlCall := hooks.onCurlCall + [handler])
    case OnCurlFinished => hooks.(onCurlFinished := hooks.onCurlFinished + [handler])
    case OnCurlFailed => hooks.(onCurlFailed := hooks.onCurlFailed + [handler])
    case OnInvalidToken => hooks.(onInvalidToken := hooks.onInvalidToken + [handler])
  }

  /** The arguments a hook's handlers receive. */
  datatype Payload =
    | CallArgs(path: string, verb: string, fields: Fields)  // onCurlCall: curl's own arguments
    | Decoded(body: Body)                                 // onCurlFinished: the decoded body
    | RawBody(raw: string)                                // onCurlFailed: the raw body
    | NoArgs                                              // onInvalidToken

  /** One call of one handler. */
  datatype Invocation = Invocation(hook: Hook, handler: HandlerId, payload: Payload)

  /** Firing `hook`: each handler of the list called once with the payload, in
      registration order. */
  function Invocations(hook: Hook, handlers: seq<HandlerId>, payload: Payload): (r: seq<Invocation>)
    ensures |r| == |handlers|
  {
    if handlers == [] then []
    else
      Invocations(hook, handlers[..|handlers| - 1], payload)
      + [Invocation(hook, handlers[|handlers| - 1], payload)]
  }

  /** The i-th invocation of a firing is the i-th handler's, with the payload. */
  lemma {:induction false} InvocationsInOrder(hook: Hook, handlers: seq<HandlerId>, payload: Payload)
    ensures forall i | 0 <= i < |handlers| ::
      Invocations(hook, handlers, payload)[i] == Invocation(hook, handlers[i], payload)
    decreases |handlers|
  {
    if handlers != [] {
      var init := handlers[..|handlers| - 1];
      InvocationsInOrder(hook, init, payload);
      forall i | 0 <= i < |handlers|
        ensures Invocations(hook, handlers, payload)[i] == Invocation(hook, handlers[i], payload)
      {
        if i < |init| {
          assert handlers[i] == init[i];
        }
      }
    }
  }

  /** The fields of the PHP object. `sent` and `events` are not fields of the source: they
      record what the object sent and which handlers it called. */
  datatype ClientState = ClientState(
    apiUrl: string,
    imageUrl: string,
    appId: string,
    appSecret: string,
    username: Option<string>,
    password: Option<string>,
    client: Option<string>,
    token: Option<string>,
    debug: bool,
    hooks: Hooks,
    lastErrorCode: Option<int>,
    maxUploadSize: Option<int>,
    sent: seq<Request>,
    events: seq<Invocation>)

  /** The result of one method: the new fields and what the method returned or threw. */
  datatype Step<T> = Step(state: ClientState, result: Result<T>)

  const UserAgent := "IdnClient/1.0 (PHP)"

  /** The object right after `new Api($appId, $appSecret)`. An image URL was never set, so
      reading it gives null, which concatenates as "". */
  function Initial(appId: string, appSecret: string): ClientState {
    ClientState("", "", appId, appSecret, None, None, None, None, false,
                Hooks([], [], [], []), None, None, [], [])
  }

  /** `$this->onX(...)`  (the dispatch of `__call`, src/Api.php:176-195). */
  function Fire(s: ClientState, hook: Hook, payload: Payload): ClientState {
    s.(events := s.events + Invocations(hook, s.hooks.Of(hook), payload))
  }

  /** The fields that only the session-changing methods (login, authentication, the upload
      size cache) write: everything but the request and event logs and `lastErrorCode`. */
  predicate SameSettings(s: ClientState, t: ClientState) {
    && s.apiUrl == t.apiUrl && s.imageUrl == t.imageUrl
    && s.appId == t.appId && s.appSecret == t.appSecret
    && s.username == t.username && s.password == t.password
    && s.client == t.client && s.token == t.token && s.debug == t.debug
    && s.hooks == t.hooks && s.maxUploadSize == t.maxUploadSize
  }

  // ---------------------------------------------------------------------------
  // curl (src/Api.php:254-290)

  /** The header list `curl` builds: a Token header when the token is not empty, then an
      AuthClient header when the client is not empty. */
  function HeaderLines(token: Option<string>, client: Option<string>): seq<string> {
    (if Filled(token) then ["Token: " + token.value] else [])
    + (if Filled(client) then ["AuthClient: " + client.value] else [])
  }

  function RequestTo(s: ClientState, path: string, fields: Fields): Request {
    Request(s.apiUrl + "/" + path, HeaderLines(s.token, s.client), fields, UserAgent)
  }

  const InvalidResponseError := ApiError(InvalidResponse, "Received invalid response from server.", 0)

  /** The events one `curl` call fires for a reply body. */
  function CurlEvents(s: ClientState, path: string, verb: string, fields: Fields, body: Body): seq<Invocation> {
    Invocations(OnCurlCall, s.hooks.onCurlCall, CallArgs(path, verb, fields)) + FinishEvents(s.hooks, body)
  }

  /** The events fired once the body is decoded: onCurlFinished, then onCurlFailed when
      the body is not a non-empty array. */
  function FinishEvents(hooks: Hooks, body: Body): seq<Invocation> {
    Invocations(OnCurlFinished, hooks.onCurlFinished, Decoded(body))
    + (if body.Rejected? then Invocations(OnCurlFailed, hooks.onCurlFailed, RawBody(body.raw)) else [])
  }

  function Curl(s: ClientState, server: Server, path: string, verb: string, fields: Fields): Step<Envelope> {
    var called := Fire(s, OnCurlCall, CallArgs(path, verb, fields));
    var request := RequestTo(called, path, fields);
    var reply := server(|called.sent|, request);
    CurlFinish(Record(called, request, reply), reply.body)
  }

  /** The request is logged and `lastErrorCode` takes the transport's error number. */
  function Record(s: ClientState, request: Request, reply: Reply): ClientState {
    s.(sent := s.sent + [request], lastErrorCode := Some(reply.errno))
  }

  /** After the transfer: onCurlFinished, then onCurlFailed and InvalidResponse when the
      body is not a non-empty array. */
  function CurlFinish(s: ClientState, body: Body): Step<Envelope> {
    var finished := Fire(s, OnCurlFinished, Decoded(body));
    match body
    case Rejected(raw) => Step(Fire(finished, OnCurlFailed, RawBody(raw)), Err(InvalidResponseError))
    case Json(envelope) => Step(finished, Ok(envelope))
  }

  // ---------------------------------------------------------------------------
  // authenticate, callApi, loginUser, loginClient (src/Api.php:156-173, 293-321)

  function OptionalText(v: Option<string>): Value {
    if v.Some? then Text(v.value) else Null
  }

  function LoginFields(s: ClientState): Fields {
    map["appId" := Text(s.appId), "appSecret" := Text(s.appSecret),
        "username" := OptionalText(s.username), "password" := OptionalText(s.password)]
  }

  const LoginPath := "auth/login"

  function LoginRequest(s: ClientState): Request {
    RequestTo(s, LoginPath, LoginFields(s))
  }

  const LoginRefused := ApiError(OperationFail, "Wrong username, password or client.", 403)

  function Authenticate(s: ClientState, server: Server): Step<()> {
    var login := Curl(s, server, LoginPath, "POST", LoginFields(s));
    match login.result
    case Err(e) => Step(login.state, Err(e))
    case Ok(envelope) =>
      if envelope.status != Some("connected") then Step(login.state, Err(LoginRefused))
      else Step(login.state.(token := envelope.token), Ok(()))
  }

  function CallApi(s: ClientState, server: Server, path: string, verb: string, fields: Fields): Step<Envelope> {
    if s.token.None? then
      var auth := Authenticate(s, server);
      match auth.result
      case Err(e) => Step(auth.state, Err(e))
      case Ok(_) => Curl(auth.state, server, path, verb, fields)
    else
      Curl(s, server, path, verb, fields)
  }

  function LoginUser(s: ClientState, server: Server, username: string, password: string, lazy: bool): Step<()> {
    var stored := s.(username := Some(username), password := Some(password), token := None);
    if lazy then Step(stored, Ok(())) else Authenticate(stored, server)
  }

  // ---------------------------------------------------------------------------
  // throwGenericResponseError and the wrappers' status check (src/Api.php:216-229, 324-338)

  function RaiseGenericError(s: ClientState, response: Envelope): Step<Envelope> {
    Step(if TokenRejected(response) then Fire(s, OnInvalidToken, NoArgs) else s,
         Err(GenericError(response)))
  }

  /** The shape of every endpoint wrapper: `callApi`, then the status check. */
  function Endpoint(s: ClientState, server: Server, path: string, verb: string, fields: Fields): Step<Envelope> {
    var call := CallApi(s, server, path, verb, fields);
    if call.result.Ok? && !IsSuccess(call.result.value) then RaiseGenericError(call.state, call.result.value)
    else call
  }

  function CreateUserFields(username: string, email: string, password: string): Fields {
    map["username" := Text(username), "email" := Text(email), "password" := Text(password)]
  }

  function DeleteFields(directory: string, fileName: string): Fields {
    map["directory" := Text(directory), "file" := Text(fileName)]
  }

  // ---------------------------------------------------------------------------
  // getMaxUploadSize and uploadArchive (src/Api.php:477-515, 637-657)

  /** PHP truthiness of the cached limit: null and 0 are false. */
  predicate Truthy(v: Option<int>) {
    v.Some? && v.value != 0
  }

  function GetMaxUploadSize(s: ClientState, server: Server): Step<Option<int>> {
    if Truthy(s.maxUploadSize) then Step(s, Ok(s.maxUploadSize))
    else
      var fetch := Endpoint(s, server, "setup/max-upload-size", "POST", map[]);
      match fetch.result
      case Err(e) => Step(fetch.state, Err(e))
      case Ok(envelope) => Step(fetch.state.(maxUploadSize := envelope.maxFileSize), Ok(envelope.maxFileSize))
  }

  /** The local file as the filesystem reports it: `is_file`, `filesize`, `realpath`. */
  datatype LocalFile = LocalFile(path: string, isFile: bool, size: nat, realPath: string)

  /** `filesize($file) > $max`. When the limit is null PHP compares both sides as booleans,
      so the test is `size != 0`, which is `size > 0`. */
  predicate TooLarge(size: nat, max: Option<int>) {
    if max.Some? then size > max.value else size > 0
  }

  const FileTooLargeError := ApiError(FileTooLarge, "File is too large", 413)

  function FileNotFoundError(path: string): ApiError {
    ApiError(FileNotFound, path + " is not valid file", 404)
  }

  /** `getCurlFile`: an empty real path is reported as FileNotFound with PHP's default
      code 0. */
  const NoRealPathError := ApiError(FileNotFound, "File not found", 0)

  function UploadFields(directory: string, file: LocalFile): Fields {
    map["directory" := Text(directory), "content" := Attachment(file.realPath)]
  }

  /** `uploadArchive` AS WRITTEN: line 502 assigns 413 to `lastErrorCode` instead of
      comparing, so every InvalidResponseException of the upload becomes FileTooLarge. */
  function UploadArchive(s: ClientState, server: Server, directory: string, file: LocalFile): Step<Envelope> {
    var max := GetMaxUploadSize(s, server);
    if max.result.Err? then Step(max.state, Err(max.result.error))
    else if !file.isFile then Step(max.state, Err(FileNotFoundError(file.path)))
    else if TooLarge(file.size, max.result.value) then Step(max.state, Err(FileTooLargeError))
    else if !Filled(Some(file.realPath)) then Step(max.state, Err(NoRealPathError))
    else
      var upload := CallApi(max.state, server, "file/upload-archive", "POST", UploadFields(directory, file));
      if upload.result.Err? && upload.result.error.kind == InvalidResponse then
        Step(upload.state.(lastErrorCode := Some(413)), Err(FileTooLargeError))
      else if upload.result.Ok? && !IsSuccess(upload.result.value) then
        RaiseGenericError(upload.state, upload.result.value)
      else upload
  }

  /** The evident intent of line 502, a comparison: an InvalidResponseException of the
      upload becomes FileTooLarge only when `lastErrorCode` already is 413, and is rethrown
      otherwise. Labelled as the intended reading; the client model uses `UploadArchive`. */
  function IntendedUploadArchive(s: ClientState, server: Server, directory: string, file: LocalFile): Step<Envelope> {
    var max := GetMaxUploadSize(s, server);
    if max.result.Err? then Step(max.state, Err(max.result.error))
    else if !file.isFile then Step(max.state, Err(FileNotFoundError(file.path)))
    else if TooLarge(file.size, max.result.value) then Step(max.state, Err(FileTooLargeError))
    else if !Filled(Some(file.realPath)) then Step(max.state, Err(NoRealPathError))
    else
      var upload := CallApi(max.state, server, "file/upload-archive", "POST", UploadFields(directory, file));
      if upload.result.Err? && upload.result.error.kind == InvalidResponse then
        if upload.state.lastErrorCode == Some(413) then Step(upload.state, Err(FileTooLargeError)) else upload
      else if upload.result.Ok? && !IsSuccess(upload.result.value) then
        RaiseGenericError(upload.state, upload.result.value)
      else upload
  }

  // ---------------------------------------------------------------------------
  // Properties of curl.

  /** Firing a hook changes only the event log. */
  lemma FireKeepsSettings(s: ClientState, hook: Hook, payload: Payload)
    ensures var t := Fire(s, hook, payload);
      SameSettings(s, t) && t.sent == s.sent && t.lastErrorCode == s.lastErrorCode
  {
  }

  /** The request depends on the settings only. */
  lemma RequestOfSettings(s: ClientState, t: ClientState, path: string, fields: Fields)
    requires SameSettings(s, t)
    ensures RequestTo(s, path, fields) == RequestTo(t, path, fields)
  {
  }

  /** The last stage of `curl` changes neither the settings nor the request log. */
  lemma CurlFinishBehaviour(s: ClientState, body: Body)
    ensures var f := CurlFinish(s, body);
      && SameSettings(s, f.state) && f.state.sent == s.sent && f.state.lastErrorCode == s.lastErrorCode
      && f.state.events == s.events + FinishEvents(s.hooks, body)
      && (f.result.Err? <==> body.Rejected?)
      && (f.result.Err? ==> f.result.error == InvalidResponseError)
      && (f.result.Ok? ==> f.result.value == body.envelope)
  {
    var finished := Fire(s, OnCurlFinished, Decoded(body));
    var b := Invocations(OnCurlFinished, s.hooks.onCurlFinished, Decoded(body));
    assert finished.events == s.events + b;
    if body.Rejected? {
      var f := Invocations(OnCurlFailed, s.hooks.onCurlFailed, RawBody(body.raw));
      assert CurlFinish(s, body).state.events == (s.events + b) + f;
      assert FinishEvents(s.hooks, body) == b + f;
    } else {
      assert FinishEvents(s.hooks, body) == b + [];
      assert b + [] == b;
    }
  }

  /** The first two stages of `curl`, seen from the outside. */
  lemma CurlStages(s: ClientState, server: Server, path: string, verb: string, fields: Fields)
    ensures var called := Fire(s, OnCurlCall, CallArgs(path, verb, fields));
      var request := RequestTo(s, path, fields);
      var reply := server(|s.sent|, request);
      var recorded := Record(called, request, reply);
      && Curl(s, server, path, verb, fields) == CurlFinish(recorded, reply.body)
      && SameSettings(s, recorded)
      && recorded.sent == s.sent + [request]
      && recorded.lastErrorCode == Some(reply.errno)
      && recorded.events == s.events + Invocations(OnCurlCall, s.hooks.onCurlCall, CallArgs(path, verb, fields))
  {
    var called := Fire(s, OnCurlCall, CallArgs(path, verb, fields));
    FireKeepsSettings(s, OnCurlCall, CallArgs(path, verb, fields));
    RequestOfSettings(called, s, path, fields);
  }

  /** `curl` sends one request, to `apiUrl/path`, records the transport error number and
      changes no setting. */
  lemma CurlSends(s: ClientState, server: Server, path: string, verb: string, fields: Fields)
    ensures var c := Curl(s, server, path, verb, fields);
      && c.state.sent == s.sent + [RequestTo(s, path, fields)]
      && RequestTo(s, path, fields).url == s.apiUrl + "/" + path
      && SameSettings(s, c.state)
      && c.state.lastErrorCode == Some(server(|s.sent|, RequestTo(s, path, fields)).errno)
  {
    var called := Fire(s, OnCurlCall, CallArgs(path, verb, fields));
    var request := RequestTo(s, path, fields);
    var reply := server(|s.sent|, request);
    CurlStages(s, server, path, verb, fields);
    CurlFinishBehaviour(Record(called, request, reply), reply.body);
  }

  /** The events of `curl`: onCurlCall, then onCurlFinished (also for a body that is not
      a non-empty array), then onCurlFailed exactly when the body is not a non-empty array. */
  lemma CurlFires(s: ClientState, server: Server, path: string, verb: string, fields: Fields)
    ensures var c := Curl(s, server, path, verb, fields);
      c.state.events == s.events + CurlEvents(s, path, verb, fields, server(|s.sent|, RequestTo(s, path, fields)).body)
  {
    var called := Fire(s, OnCurlCall, CallArgs(path, verb, fields));
    var request := RequestTo(s, path, fields);
    var reply := server(|s.sent|, request);
    var recorded := Record(called, request, reply);
    CurlStages(s, server, path, verb, fields);
    CurlFinishBehaviour(recorded, reply.body);
    var a := Invocations(OnCurlCall, s.hooks.onCurlCall, CallArgs(path, verb, fields));
    var f := FinishEvents(s.hooks, reply.body);
    assert recorded.hooks == s.hooks;
    assert Curl(s, server, path, verb, fields).state.events == (s.events + a) + f;
  }

  /** `curl` throws exactly when the body is not a non-empty array, and then InvalidResponse;
      otherwise it returns the decoded envelope. */
  lemma CurlAnswers(s: ClientState, server: Server, path: string, verb: string, fields: Fields)
    ensures var c := Curl(s, server, path, verb, fields);
      var reply := server(|s.sent|, RequestTo(s, path, fields));
      && (c.result.Err? <==> reply.body.Rejected?)
      && (c.result.Err? ==> c.result.error == InvalidResponseError)
      && (c.result.Ok? ==> c.result.value == reply.body.envelope)
  {
    var called := Fire(s, OnCurlCall, CallArgs(path, verb, fields));
    var request := RequestTo(s, path, fields);
    var reply := server(|s.sent|, request);
    CurlStages(s, server, path, verb, fields);
    CurlFinishBehaviour(Record(called, request, reply), reply.body);
  }

  /** The three facts about `curl` together. */
  lemma CurlBehaviour(s: ClientState, server: Server, path: string, verb: string, fields: Fields)
    ensures var c := Curl(s, server, path, verb, fields);
      var reply := server(|s.sent|, RequestTo(s, path, fields));
      && c.state.sent == s.sent + [RequestTo(s, path, fields)]
      && SameSettings(s, c.state)
      && c.state.lastErrorCode == Some(reply.errno)
      && c.state.events == s.events + CurlEvents(s, path, verb, fields, reply.body)
      && (c.result.Err? <==> reply.body.Rejected?)
      && (c.result.Err? ==> c.result.error == InvalidResponseError)
      && (c.result.Ok? ==> c.result.value == reply.body.envelope)
  {
    CurlSends(s, server, path, verb, fields);
    CurlFires(s, server, path, verb, fields);
    CurlAnswers(s, server, path, verb, fields);
  }

  /** The headers carry a Token line exactly when the token is not empty, and an
      AuthClient line exactly when the client is not empty, the Token line first. */
  lemma HeaderLinesSpec(token: Option<string>, client: Option<string>)
    ensures var h := HeaderLines(token, client);
      && |h| == (if Filled(token) then 1 else 0) + (if Filled(client) then 1 else 0)
      && (Filled(token) <==> |h| > 0 && h[0] == "Token: " + TextOf(token))
      && (Filled(client) <==> |h| > 0 && h[|h| - 1] == "AuthClient: " + TextOf(client))
  {
    var h := HeaderLines(token, client);
    if !Filled(token) && Filled(client) {
      assert h[0][0] == 'A';
      assert ("Token: " + TextOf(token))[0] == 'T';
    }
    if Filled(token) && !Filled(client) {
      assert h[0][0] == 'T';
      assert ("AuthClient: " + TextOf(client))[0] == 'A';
    }
  }

  /** Handlers of one hook run in registration order, each exactly once. */
  lemma FireInOrder(s: ClientState, hook: Hook, payload: Payload)
    ensures var t := Fire(s, hook, payload);
      && SameSettings(s, t) && t.sent == s.sent
      && |t.events| == |s.events| + |s.hooks.Of(hook)|
      && t.events[..|s.events|] == s.events
      && forall i | 0 <= i < |s.hooks.Of(hook)| ::
           t.events[|s.events| + i] == Invocation(hook, s.hooks.Of(hook)[i], payload)
  {
    InvocationsInOrder(hook, s.hooks.Of(hook), payload);
  }

  // ---------------------------------------------------------------------------
  // Properties of authentication.

  /** A login reply that is a non-empty JSON list, such as `[1]`, passes `curl`'s check,
      but has no "connected" status: `authenticate` refuses it with code 403, keeps the
      token, and fires onCurlFinished but not onCurlFailed. */
  lemma ListReplyRefusesLogin(s: ClientState, server: Server)
    requires server(|s.sent|, LoginRequest(s)).body == Json(ListEnvelope)
    ensures var a := Authenticate(s, server);
      && a.result == Err(LoginRefused)
      && a.state.token == s.token
      && a.state.events == s.events
           + Invocations(OnCurlCall, s.hooks.onCurlCall, CallArgs(LoginPath, "POST", LoginFields(s)))
           + Invocations(OnCurlFinished, s.hooks.onCurlFinished, Decoded(Json(ListEnvelope)))
  {
    AuthenticateBehaviour(s, server);
    CurlFires(s, server, LoginPath, "POST", LoginFields(s));
  }

  /** `authenticate` posts the credentials to auth/login. It stores the returned token
      exactly when the reply is an envelope whose status is "connected"; otherwise the
      token is unchanged and it throws InvalidResponse, or OperationFail with code 403. */
  lemma AuthenticateBehaviour(s: ClientState, server: Server)
    ensures var a := Authenticate(s, server);
      var reply := server(|s.sent|, LoginRequest(s));
      var connected := reply.body.Json? && reply.body.envelope.status == Some("connected");
      && a.state.sent == s.sent + [LoginRequest(s)]
      && LoginRequest(s).url == s.apiUrl + "/auth/login"
      && (a.result.Ok? <==> connected)
      && (connected ==> a.state.token == reply.body.envelope.token)
      && (!connected ==> a.state.token == s.token)
      && (reply.body.Rejected? ==> a.result == Err(InvalidResponseError))
      && (reply.body.Json? && !connected ==> a.result == Err(LoginRefused))
  {
    CurlBehaviour(s, server, LoginPath, "POST", LoginFields(s));
  }

  /** `callApi` authenticates exactly when the token is null: with a token it is one plain
      `curl`; without one, the first request it sends is the login request. */
  lemma CallApiAuthenticatesIffNoToken(s: ClientState, server: Server, path: string, verb: string, fields: Fields)
    ensures s.token.Some? ==> CallApi(s, server, path, verb, fields) == Curl(s, server, path, verb, fields)
    ensures s.token.None? ==>
      var c := CallApi(s, server, path, verb, fields);
      |c.state.sent| > |s.sent| && c.state.sent[|s.sent|] == LoginRequest(s)
  {
    if s.token.None? {
      var auth := Authenticate(s, server);
      AuthenticateBehaviour(s, server);
      if auth.result.Ok? {
        CurlBehaviour(auth.state, server, path, verb, fields);
      }
    }
  }

  /** `callApi` always sends at least its own request or the login request. */
  lemma CallApiSends(s: ClientState, server: Server, path: string, verb: string, fields: Fields)
    ensures |CallApi(s, server, path, verb, fields).state.sent| > |s.sent|
  {
    CallApiAuthenticatesIffNoToken(s, server, path, verb, fields);
    if s.token.Some? {
      CurlSends(s, server, path, verb, fields);
    }
  }

  /** A call of the API made by a caller that catches its failures. */
  datatype Call = Call(path: string, verb: string, fields: Fields)

  /** Several `callApi` calls in a row. */
  function CallSeries(s: ClientState, server: Server, calls: seq<Call>): ClientState
    decreases |calls|
  {
    if calls == [] then s
    else CallSeries(CallApi(s, server, calls[0].path, calls[0].verb, calls[0].fields).state, server, calls[1..])
  }

  /** The requests of a series made with the settings of `s`, one per call. */
  function RequestsOf(s: ClientState, calls: seq<Call>): (r: seq<Request>)
    ensures |r| == |calls|
    ensures forall i | 0 <= i < |calls| :: r[i].url == s.apiUrl + "/" + calls[i].path
  {
    if calls == [] then [] else [RequestTo(s, calls[0].path, calls[0].fields)] + RequestsOf(s, calls[1..])
  }

  /** Once a token is cached, no call of a series authenticates again: each call sends
      exactly its own request, with the cached token's headers, and the token stays. */
  lemma {:induction false} TokenCachedAcrossCalls(s: ClientState, server: Server, calls: seq<Call>)
    requires s.token.Some?
    ensures var t := CallSeries(s, server, calls);
      t.sent == s.sent + RequestsOf(s, calls) && SameSettings(s, t)
    decreases |calls|
  {
    if calls != [] {
      var c := calls[0];
      CallApiAuthenticatesIffNoToken(s, server, c.path, c.verb, c.fields);
      CurlBehaviour(s, server, c.path, c.verb, c.fields);
      var next := CallApi(s, server, c.path, c.verb, c.fields).state;
      TokenCachedAcrossCalls(next, server, calls[1..]);
      assert RequestTo(next, c.path, c.fields) == RequestTo(s, c.path, c.fields);
      assert RequestsOf(next, calls[1..]) == RequestsOf(s, calls[1..]) by {
        RequestsOfSettings(next, s, calls[1..]);
      }
    }
  }

  lemma {:induction false} RequestsOfSettings(s: ClientState, t: ClientState, calls: seq<Call>)
    requires SameSettings(s, t)
    ensures RequestsOf(s, calls) == RequestsOf(t, calls)
    decreases |calls|
  {
    if calls != [] {
      RequestsOfSettings(s, t, calls[1..]);
    }
  }

  /** A "connected" login reply without a token key leaves the token null, so the next
      call authenticates again. */
  lemma ConnectedWithoutTokenReauthenticates(s: ClientState, server: Server, path: string, verb: string, fields: Fields)
    requires var reply := server(|s.sent|, LoginRequest(s));
      reply.body.Json? && reply.body.envelope.status == Some("connected") && reply.body.envelope.token.None?
    ensures var a := Authenticate(s, server);
      var c := CallApi(a.state, server, path, verb, fields);
      a.result.Ok? && a.state.token.None? &&
      |c.state.sent| > |a.state.sent| && c.state.sent[|a.state.sent|] == LoginRequest(a.state)
  {
    AuthenticateBehaviour(s, server);
    CallApiAuthenticatesIffNoToken(Authenticate(s, server).state, server, path, verb, fields);
  }

  /** `loginUser` stores the credentials and clears the token. Lazily it sends nothing and
      the next call logs in with the new credentials; eagerly it authenticates at once. */
  lemma LoginUserBehaviour(s: ClientState, server: Server, username: string, password: string,
                           path: string, verb: string, fields: Fields)
    ensures var l := LoginUser(s, server, username, password, true);
      && l == Step(s.(username := Some(username), password := Some(password), token := None), Ok(()))
      && l.state.sent == s.sent
      && var c := CallApi(l.state, server, path, verb, fields);
         c.state.sent[|s.sent|] == LoginRequest(l.state)
         && LoginFields(l.state)["username"] == Text(username)
         && LoginFields(l.state)["password"] == Text(password)
    ensures var e := LoginUser(s, server, username, password, false);
      var stored := s.(username := Some(username), password := Some(password), token := None);
      e == Authenticate(stored, server) && e.state.sent == s.sent + [LoginRequest(stored)]
  {
    var stored := s.(username := Some(username), password := Some(password), token := None);
    CallApiAuthenticatesIffNoToken(stored, server, path, verb, fields);
    AuthenticateBehaviour(stored, server);
  }

  // ---------------------------------------------------------------------------
  // Properties of the status check.

  /** `throwGenericResponseError` never returns normally. It fires onInvalidToken once
      (each handler once) and throws InvalidToken with code 403 exactly when the code is
      403; otherwise it fires nothing and, as written, throws "Unknown error". */
  lemma RaiseGenericErrorBehaviour(s: ClientState, response: Envelope)
    ensures var r := RaiseGenericError(s, response);
      && r.result.Err?
      && r.result.error == GenericError(response)
      && (r.result.error.kind == InvalidToken <==> TokenRejected(response))
      && (!TokenRejected(response) ==> r.result.error == UnknownError && r.state == s)
      && (TokenRejected(response) ==>
            r.state.events == s.events + Invocations(OnInvalidToken, s.hooks.onInvalidToken, NoArgs)
            && r.result.error.code == 403)
      && SameSettings(s, r.state) && r.state.sent == s.sent
  {
  }

  /** An endpoint wrapper returns the envelope unchanged when its status is "success",
      and otherwise always fails: with the error of `callApi`, or with the generic error. */
  lemma EndpointBehaviour(s: ClientState, server: Server, path: string, verb: string, fields: Fields)
    ensures var call := CallApi(s, server, path, verb, fields);
      var w := Endpoint(s, server, path, verb, fields);
      && (w.result.Ok? <==> call.result.Ok? && IsSuccess(call.result.value))
      && (w.result.Ok? ==> w == call)
      && (call.result.Err? ==> w == call)
      && (call.result.Ok? ==> w.result == CheckStatus(call.result.value))
      && w.state.sent == call.state.sent
  {
  }

  // ---------------------------------------------------------------------------
  // Properties of the upload-size cache and of uploadArchive.

  /** A truthy cached limit is returned without a request. Otherwise the limit is fetched
      from setup/max-upload-size: on a "success" reply its `max_file_size` is returned and
      cached, so a truthy fetched value is never fetched again; any other reply ends in the
      generic error, and a failed call in its own error. */
  lemma MaxUploadSizeCached(s: ClientState, server: Server)
    ensures Truthy(s.maxUploadSize) ==> GetMaxUploadSize(s, server) == Step(s, Ok(s.maxUploadSize))
    ensures var g := GetMaxUploadSize(s, server);
      var call := CallApi(s, server, "setup/max-upload-size", "POST", map[]);
      !Truthy(s.maxUploadSize) ==>
        && (g.result.Ok? <==> call.result.Ok? && IsSuccess(call.result.value))
        && (g.result.Ok? ==> g.result.value == call.result.value.maxFileSize)
        && (call.result.Ok? && !IsSuccess(call.result.value) ==> g.result == Err(GenericError(call.result.value)))
        && (call.result.Err? ==> g == Step(call.state, Err(call.result.error)))
    ensures var g := GetMaxUploadSize(s, server);
      !Truthy(s.maxUploadSize) && g.result.Ok? ==>
        g.state.maxUploadSize == g.result.value
        && |g.state.sent| > |s.sent|
        && (Truthy(g.result.value) ==> GetMaxUploadSize(g.state, server) == Step(g.state, g.result))
  {
    if !Truthy(s.maxUploadSize) {
      var call := CallApi(s, server, "setup/max-upload-size", "POST", map[]);
      if s.token.Some? {
        CurlBehaviour(s, server, "setup/max-upload-size", "POST", map[]);
      } else {
        CallApiAuthenticatesIffNoToken(s, server, "setup/max-upload-size", "POST", map[]);
      }
    }
  }

  /** `uploadArchive` checks in order: fetch the limit, then FileNotFound (404) if the
      path is not a file, then FileTooLarge (413) when the size exceeds the limit (a size
      equal to the limit passes); a local rejection sends no upload request. */
  lemma UploadArchiveChecksInOrder(s: ClientState, server: Server, directory: string, file: LocalFile)
    ensures var max := GetMaxUploadSize(s, server);
      var u := UploadArchive(s, server, directory, file);
      && (max.result.Err? ==> u == Step(max.state, Err(max.result.error)))
      && (max.result.Ok? && !file.isFile ==> u == Step(max.state, Err(FileNotFoundError(file.path))))
      && (max.result.Ok? && file.isFile && TooLarge(file.size, max.result.value) ==>
            u == Step(max.state, Err(FileTooLargeError)))
      && (max.result.Ok? && file.isFile && !TooLarge(file.size, max.result.value) && !Filled(Some(file.realPath)) ==>
            u == Step(max.state, Err(NoRealPathError)))
      && (max.result.Ok? && file.isFile && !TooLarge(file.size, max.result.value) && Filled(Some(file.realPath)) ==>
            |u.state.sent| > |max.state.sent|)
  {
    var max := GetMaxUploadSize(s, server);
    if max.result.Ok? && file.isFile && !TooLarge(file.size, max.result.value) && Filled(Some(file.realPath)) {
      UploadArchiveSendsUpload(s, server, directory, file);
      CallApiSends(max.state, server, "file/upload-archive", "POST", UploadFields(directory, file));
    }
  }

  /** Once every local check passes, `uploadArchive` calls file/upload-archive with the
      directory and the file attached. A reply with status "success" is returned unchanged,
      any other status ends in the generic error, and a failed call other than
      InvalidResponse fails with its own error. */
  lemma UploadArchiveSendsUpload(s: ClientState, server: Server, directory: string, file: LocalFile)
    requires var max := GetMaxUploadSize(s, server);
      max.result.Ok? && file.isFile && !TooLarge(file.size, max.result.value) && Filled(Some(file.realPath))
    ensures UploadFields(directory, file)["content"] == Attachment(file.realPath)
    ensures UploadFields(directory, file)["directory"] == Text(directory)
    ensures var u := UploadArchive(s, server, directory, file);
      var up := CallApi(GetMaxUploadSize(s, server).state, server, "file/upload-archive", "POST", UploadFields(directory, file));
      && (up.result.Ok? ==> u.result == CheckStatus(up.result.value))
      && (up.result.Ok? && IsSuccess(up.result.value) ==> u == up)
      && (up.result.Err? && up.result.error.kind != InvalidResponse ==> u == up)
      && u.state.sent == up.state.sent
  {
  }

  /** The written and the intended line 502 differ exactly when every local check passes,
      the upload fails with InvalidResponse, and `lastErrorCode` is not 413: as written the
      client then throws FileTooLarge and sets `lastErrorCode` to 413; as intended it
      rethrows the InvalidResponse and leaves `lastErrorCode` as `curl` set it. */
  lemma WrittenAndIntendedUploadDiffer(s: ClientState, server: Server, directory: string, file: LocalFile)
    ensures var max := GetMaxUploadSize(s, server);
      var up := CallApi(max.state, server, "file/upload-archive", "POST", UploadFields(directory, file));
      UploadArchive(s, server, directory, file) != IntendedUploadArchive(s, server, directory, file) <==>
        && max.result.Ok? && file.isFile && !TooLarge(file.size, max.result.value) && Filled(Some(file.realPath))
        && up.result.Err? && up.result.error.kind == InvalidResponse
        && up.state.lastErrorCode != Some(413)
  {
  }

  /** The only InvalidResponseException `callApi` can throw is the one of `curl`. */
  lemma CallApiErrors(s: ClientState, server: Server, path: string, verb: string, fields: Fields)
    ensures var c := CallApi(s, server, path, verb, fields);
      c.result.Err? && c.result.error.kind == InvalidResponse ==> c.result.error == InvalidResponseError
  {
    CurlAnswers(s, server, path, verb, fields);
    if s.token.None? {
      var auth := Authenticate(s, server);
      AuthenticateBehaviour(s, server);
      if auth.result.Ok? {
        CurlAnswers(auth.state, server, path, verb, fields);
      }
    }
  }

  /** As intended, an InvalidResponse of the upload is FileTooLarge exactly when
      `lastErrorCode` is 413, and otherwise is rethrown with the state of the call. */
  lemma IntendedUploadRethrows(s: ClientState, server: Server, directory: string, file: LocalFile)
    requires var max := GetMaxUploadSize(s, server);
      && max.result.Ok? && file.isFile && !TooLarge(file.size, max.result.value) && Filled(Some(file.realPath))
      && var up := CallApi(max.state, server, "file/upload-archive", "POST", UploadFields(directory, file));
         up.result.Err? && up.result.error.kind == InvalidResponse
    ensures var up := CallApi(GetMaxUploadSize(s, server).state, server, "file/upload-archive", "POST", UploadFields(directory, file));
      var u := IntendedUploadArchive(s, server, directory, file);
      && u.state == up.state
      && (u.result == Err(FileTooLargeError) <==> up.state.lastErrorCode == Some(413))
      && (up.state.lastErrorCode != Some(413) ==> u.result == Err(InvalidResponseError))
  {
    CallApiErrors(GetMaxUploadSize(s, server).state, server, "file/upload-archive", "POST", UploadFields(directory, file));
  }

  /** A file of exactly the limit is not too large; one byte more is. */
  lemma SizeEqualToLimitPasses(max: int)
    requires max >= 0
    ensures !TooLarge(max, Some(max)) && TooLarge(max + 1, Some(max))
  {
  }

  /** With a truthy cached limit, a file over it fails with FileTooLarge (413) and the
      object is left exactly as it was: no request is made. */
  lemma TooLargeFileSendsNothing(s: ClientState, server: Server, directory: string, file: LocalFile)
    requires Truthy(s.maxUploadSize) && file.isFile && file.size > s.maxUploadSize.value
    ensures UploadArchive(s, server, directory, file) == Step(s, Err(FileTooLargeError))
  {
  }

  /** As written, any InvalidResponse during the upload, whatever the transport error
      number, is rethrown as FileTooLarge (413), and `lastErrorCode` is left at 413. */
  lemma UploadInvalidResponseIsTooLarge(s: ClientState, server: Server, directory: string, file: LocalFile)
    requires var max := GetMaxUploadSize(s, server);
      && max.result.Ok? && file.isFile && !TooLarge(file.size, max.result.value) && Filled(Some(file.realPath))
      && var upload := CallApi(max.state, server, "file/upload-archive", "POST", UploadFields(directory, file));
         upload.result.Err? && upload.result.error.kind == InvalidResponse
    ensures var u := UploadArchive(s, server, directory, file);
      u.result == Err(FileTooLargeError) && u.state.lastErrorCode == Some(413)
  {
  }
}
