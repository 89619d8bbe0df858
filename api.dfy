/**
 * The IDN client object of src/Api.php as a class. Its fields are the fields of the PHP
 * object, the four public hook arrays included, plus the log of requests sent and of
 * handler calls made. Every method updates the fields step by step, as the PHP method does,
 * and is proved to compute exactly the transition of the same name in module Session,
 * where the properties of the client are proved.
 */
module IdnClient {
  import opened Envelopes
  import opened Paths
  import opened Images
  import opened Session

  class Api {
    var apiUrl: string
    var imageUrl: string
    var appId: string
    var appSecret: string
    var username: Option<string>
    var password: Option<string>
    var client: Option<string>
    var token: Option<string>
    var debug: bool
    var onCurlCall: seq<HandlerId>
    var onCurlFinished: seq<HandlerId>
    var onCurlFailed: seq<HandlerId>
    var onInvalidToken: seq<HandlerId>
    var lastErrorCode: Option<int>
    var maxUploadSize: Option<int>
    /** The requests sent, oldest first. */
    var sent: seq<Request>
    /** The handler calls made, oldest first. */
    var events: seq<Invocation>
    /** The server the transport talks to. */
    const server: Server

    function State(): ClientState
      reads this
    {
      ClientState(apiUrl, imageUrl, appId, appSecret, username, password, client, token, debug,
                  Hooks(onCurlCall, onCurlFinished, onCurlFailed, onInvalidToken),
                  lastErrorCode, maxUploadSize, sent, events)
    }

    /** `new Api($appId, $appSecret)`. */
    constructor (appId: string, appSecret: string, server: Server)
      ensures State() == Initial(appId, appSecret) && this.server == server
    {
      this.apiUrl := "";
      this.imageUrl := "";
      this.appId := appId;
      this.appSecret := appSecret;
      this.username := None;
      this.password := None;
      this.client := None;
      this.token := None;
      this.debug := false;
      this.onCurlCall := [];
      this.onCurlFinished := [];
      this.onCurlFailed := [];
      this.onInvalidToken := [];
      this.lastErrorCode := None;
      this.maxUploadSize := None;
      this.sent := [];
      this.events := [];
      this.server := server;
    }

    method SetApiUrl(url: string)
      modifies this
      ensures State() == old(State()).(apiUrl := url)
    {
      apiUrl := url;
    }

    method SetImageUrl(url: string)
      modifies this
      ensures State() == old(State()).(imageUrl := url)
    {
      imageUrl := url;
    }

    /** `$api->onX[] = $handler`. */
    method AddHandler(hook: Hook, handler: HandlerId)
      modifies this
      ensures State() == old(State()).(hooks := Register(old(State()).hooks, hook, handler))
    {
      match hook
      case OnCurlCall => onCurlCall := onCurlCall + [handler];
      case OnCurlFinished => onCurlFinished := onCurlFinished + [handler];
      case OnCurlFailed => onCurlFailed := onCurlFailed + [handler];
      case OnInvalidToken => onInvalidToken := onInvalidToken + [handler];
    }

    /** `$this->onX($args)`: the `foreach` of `__call` over the handlers of one hook. */
    method Fire(hook: Hook, payload: Payload)
      modifies this
      ensures State() == Session.Fire(old(State()), hook, payload)
    {
      var handlers := State().hooks.Of(hook);
      var log := events;
      var i := 0;
      while i < |handlers|
        invariant 0 <= i <= |handlers|
        invariant log == events + Invocations(hook, handlers[..i], payload)
      {
        assert handlers[..i + 1][..i] == handlers[..i];
        log := log + [Invocation(hook, handlers[i], payload)];
        i := i + 1;
      }
      assert handlers[..i] == handlers;
      assert log == events + Invocations(hook, old(State()).hooks.Of(hook), payload);
      events := log;
    }

    /** `curl`: fire onCurlCall, build the headers, send, record the error number, fire
        onCurlFinished, and fail with onCurlFailed when the body is not a non-empty array. The verb
        defaults to "GET" and the fields to none, as in the PHP signature. */
    method Curl(path: string, verb: string := "GET", fields: Fields := map[]) returns (r: Result<Envelope>)
      modifies this
      ensures Step(State(), r) == Session.Curl(old(State()), server, path, verb, fields)
    {
      Fire(OnCurlCall, CallArgs(path, verb, fields));
      var url := apiUrl + "/" + path;
      var header: seq<string> := [];
      if Filled(token) {
        header := header + ["Token: " + token.value];
      }
      if Filled(client) {
        header := header + ["AuthClient: " + client.value];
      }
      var request := Request(url, header, fields, UserAgent);
      assert request == RequestTo(State(), path, fields);
      var reply := server(|sent|, request);
      sent := sent + [request];
      lastErrorCode := Some(reply.errno);
      Fire(OnCurlFinished, Decoded(reply.body));
      match reply.body {
        case Rejected(raw) =>
          Fire(OnCurlFailed, RawBody(raw));
          r := Err(InvalidResponseError);
        case Json(envelope) =>
          r := Ok(envelope);
      }
    }

    /** `authenticate`: post the credentials and keep the token of a "connected" reply. */
    method Authenticate() returns (r: Result<()>)
      modifies this
      ensures Step(State(), r) == Session.Authenticate(old(State()), server)
    {
      var authData := map["appId" := Text(appId), "appSecret" := Text(appSecret)];
      authData := authData["username" := OptionalText(username)];
      authData := authData["password" := OptionalText(password)];
      assert authData == LoginFields(State());
      var result := Curl(LoginPath, "POST", authData);
      if result.Err? {
        return Err(result.error);
      }
      if result.value.status != Some("connected") {
        return Err(LoginRefused);
      }
      token := result.value.token;
      r := Ok(());
    }

    /** `callApi`: authenticate first when there is no token. The defaults are those of
        the PHP signature. */
    method CallApi(path: string, verb: string := "GET", fields: Fields := map[]) returns (r: Result<Envelope>)
      modifies this
      ensures Step(State(), r) == Session.CallApi(old(State()), server, path, verb, fields)
    {
      if token.None? {
        var auth := Authenticate();
        if auth.Err? {
          return Err(auth.error);
        }
      }
      r := Curl(path, verb, fields);
    }

    /** `loginUser`, eager unless asked to be lazy. */
    method LoginUser(username: string, password: string, lazy: bool := false) returns (r: Result<()>)
      modifies this
      ensures Step(State(), r) == Session.LoginUser(old(State()), server, username, password, lazy)
    {
      this.username := Some(username);
      this.password := Some(password);
      token := None;
      if !lazy {
        r := Authenticate();
        return;
      }
      r := Ok(());
    }

    /** `loginClient`. */
    method LoginClient(client: string)
      modifies this
      ensures State() == old(State()).(client := Some(client))
    {
      this.client := Some(client);
    }

    /** `throwGenericResponseError`, which always throws. */
    method ThrowGenericResponseError(response: Envelope) returns (r: Result<Envelope>)
      modifies this
      ensures Step(State(), r) == RaiseGenericError(old(State()), response)
    {
      if TokenRejected(response) {
        Fire(OnInvalidToken, NoArgs);
        return Err(ApiError(InvalidToken, TextOf(response.message), 403));
      }
      r := Err(UnknownError);
    }

    /** `createUser`: a representative endpoint wrapper. */
    method CreateUser(username: string, email: string, password: string) returns (r: Result<Envelope>)
      modifies this
      ensures Step(State(), r)
        == Endpoint(old(State()), server, "user/create", "POST", CreateUserFields(username, email, password))
    {
      r := CallApi("user/create", "POST",
                   map["username" := Text(username), "email" := Text(email), "password" := Text(password)]);
      if r.Ok? && !IsSuccess(r.value) {
        r := ThrowGenericResponseError(r.value);
      }
    }

    /** `delete`: the wrapper that passes the verb "DELETE", which only onCurlCall sees. */
    method Delete(directory: string, fileName: string) returns (r: Result<Envelope>)
      modifies this
      ensures Step(State(), r)
        == Endpoint(old(State()), server, "file/delete", "DELETE", DeleteFields(directory, fileName))
    {
      r := CallApi("file/delete", "DELETE", map["directory" := Text(directory), "file" := Text(fileName)]);
      if r.Ok? && !IsSuccess(r.value) {
        r := ThrowGenericResponseError(r.value);
      }
    }

    /** `getMaxUploadSize`: the cached limit when truthy, otherwise fetched and cached. */
    method GetMaxUploadSize() returns (r: Result<Option<int>>)
      modifies this
      ensures Step(State(), r) == Session.GetMaxUploadSize(old(State()), server)
    {
      if Truthy(maxUploadSize) {
        return Ok(maxUploadSize);
      }
      var result := CallApi("setup/max-upload-size", "POST", map[]);
      if result.Ok? && !IsSuccess(result.value) {
        result := ThrowGenericResponseError(result.value);
      }
      if result.Err? {
        return Err(result.error);
      }
      maxUploadSize := result.value.maxFileSize;
      r := Ok(result.value.maxFileSize);
    }

    /** `uploadArchive`, with line 502 as written. */
    method UploadArchive(directory: string, file: LocalFile) returns (r: Result<Envelope>)
      modifies this
      ensures Step(State(), r) == Session.UploadArchive(old(State()), server, directory, file)
    {
      var max := GetMaxUploadSize();
      if max.Err? {
        return Err(max.error);
      }
      if !file.isFile {
        return Err(FileNotFoundError(file.path));
      }
      if TooLarge(file.size, max.value) {
        return Err(FileTooLargeError);
      }
      if !Filled(Some(file.realPath)) {
        return Err(NoRealPathError);
      }
      r := CallApi("file/upload-archive", "POST",
                   map["directory" := Text(directory), "content" := Attachment(file.realPath)]);
      if r.Err? && r.error.kind == InvalidResponse {
        lastErrorCode := Some(413);
        return Err(FileTooLargeError);
      }
      if r.Ok? && !IsSuccess(r.value) {
        r := ThrowGenericResponseError(r.value);
      }
    }

    /** `image`: the image base URL followed by the cleaned path; it reads the object and
        changes nothing. The size defaults to "full" and the transformation to FIT. */
    function Image(path: string, fileName: string, size: string := FullSize, transformation: string := Fit): (url: string)
      reads this
      ensures url == imageUrl + Join(ImageSegments(TextOf(client), size, transformation, path, fileName))
      ensures var c := url[|imageUrl|..]; NoDoubleSlash(c) && !StartsWithSlash(c) && !EndsWithSlash(c)
    {
      CleanImagePath(TextOf(client), size, transformation, path, fileName);
      imageUrl + CleanPath(RawImagePath(TextOf(client), size, transformation, path, fileName))
    }
  }
}
