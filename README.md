# IDN client: a Dafny model

This project models the core of the PHP client of the IDN file-hosting and image-transformation
service, the class `Pagewiser\Idn\Client\Api` of `src/Api.php`. It covers:

- **Path normalisation and image URLs.** `cleanPathString` collapses runs of `/` and trims them
  from both ends. `image` glues the image base URL to the cleaned string
  `"/client/size transformation/path/fileName"` (module `Paths`, module `Images`).
- **The response envelope and its classification.** This is `throwGenericResponseError` with the
  `status != 'success'` check that every endpoint wrapper applies (module `Envelopes`).
- **The client object** (module `Session` and module `IdnClient`):
  - lazy authentication with a cached token (`loginUser`, `callApi`, `authenticate`);
  - the request that `curl` builds, with its `Token` and `AuthClient` headers;
  - the four hook lists and their dispatch through `__call`;
  - the cached upload limit (`getMaxUploadSize`) and the ordered checks of `uploadArchive`.

The client is a class, `IdnClient.Api`, with the fields of the PHP object. Every method updates
those fields step by step, as the PHP method does. Its `ensures` states that the new fields and
the outcome are exactly those of a transition function of the same name in module `Session`.
The client's properties are lemmas about those transition functions.

Two things stand in for the network and for the handlers:

- **The server** is a function from (request number, request) to a reply: a transport error
  number and a body. The body is either an `Envelope` or `Rejected`. An `Envelope` is what
  `json_decode` gave as a non-empty array: a JSON object, or a non-empty JSON list, whose keys
  the model reads as absent. `Rejected` is anything that decodes to something other than an
  array, or to an empty array.
- **Hook handlers** are numbers. Firing a hook appends one `Invocation` per registered handler to
  an event log, and every request is appended to a request log.

The file system is reduced to `LocalFile`, whose fields are the answers of `is_file`, `filesize`
and `realpath`. Exceptions are the `Err` case of `Result`, carrying the exception class, message
and code.

## Where the code departs from its evident intent

The model follows the code in each case.

- **The `error` field of an envelope is never read.** Line 223 of `throwGenericResponseError`
  tests `$result['error']`, but `$result` is not defined in that function. Every failure other
  than code 403 is therefore `OperationFail("Unknown error")`, even when the server named an
  error.
  - `Envelopes.GenericError` is this behaviour.
  - `Envelopes.IntendedGenericError` is the evident intent, labelled as such and used nowhere
    else. `Envelopes.WrittenAndIntendedDiffer` and `Envelopes.DeadErrorBranchExample` state
    where the two differ.
- **Every `InvalidResponseException` of an upload becomes FileTooLarge.** Line 502 of
  `uploadArchive` is the assignment `$this->lastErrorCode = 413`, which is always true; it is not
  a comparison. So any InvalidResponse during the upload is rethrown as
  FileTooLarge("File is too large", 413), whatever the transport said, and `lastErrorCode` is
  left at 413.
  - `Session.UploadArchive` is this behaviour, and `Session.UploadInvalidResponseIsTooLarge`
    states it.
  - `Session.IntendedUploadArchive` is the evident intent, a comparison, labelled as such and
    used nowhere else. `Session.IntendedUploadRethrows` states its behaviour, and
    `Session.WrittenAndIntendedUploadDiffer` states exactly where the two differ.
  - Even the comparison would not detect an HTTP 413. `lastErrorCode` holds `curl_errno`
    (line 276), which is a cURL error number and not an HTTP status.
- **`uploadArchive` may send requests before its checks.** It checks the file only after
  `getMaxUploadSize`, which sends a request, and possibly a login before it, when no truthy limit
  is cached. Only with a cached limit does a file over the limit fail without any request.
- **The image URL has no `/` after the base URL.** The string handed to `cleanPathString` starts
  with `/`, and that `/` is trimmed, so `image` yields `imageUrl + "client/size/..."`.
  Transformation codes are concatenated as strings: PAD and EXACT_BACKGROUND are the integers 8
  and 16, which read as "8" and "16". They are not combined by bitwise OR.
- **The image base URL is a dynamic property.** `setImageUrl` writes `imageUrl`, while the
  declared field is `imgUrl`. Before the setter is called, `image` reads an unset property,
  which is null and concatenates as "".
- **Every request is a POST.** `curl` sets `CURLOPT_POST` on every call. The verb argument
  ("POST", "DELETE") reaches only the `onCurlCall` handlers.

## Model

| member | source | states |
|---|---|---|
| Paths.CleanPath | src/Api.php:141-144 | `cleanPathString` itself: collapse, then trim on the left and on the right; its properties are the CleanPath lemmas below |
| Paths.CollapseSlashes | src/Api.php:141-144 | the `preg_replace('#/+#', '/', …)` step: the result has no "//", is no longer than the input, keeps its first character, and ends with '/' exactly when the input does |
| Paths.TrimLeft | src/Api.php:141-144 | the left half of `trim(…, '/')`: a suffix of the input that does not start with '/', and everything cut off is '/' |
| Paths.TrimRight | src/Api.php:141-144 | the right half of `trim(…, '/')`: a prefix of the input that does not end with '/', and everything cut off is '/' |
| Paths.Split | src/Api.php:141-144 | the reference explosion on '/' has at least one piece |
| Paths.NonEmpty | src/Api.php:141-144 | keeping the non-empty pieces never lengthens the list |
| Paths.JoinSplit | src/Api.php:141-144 | imploding the explosion of a string gives the string back |
| Paths.SplitConcat | src/Api.php:141-144 | exploding `a + "/" + b` is exploding a, then b |
| Paths.SegmentsConcat | src/Api.php:141-144 | the segments of `a + "/" + b` are those of a followed by those of b |
| Paths.SplitSlashFree | src/Api.php:141-144 | a string without '/' is a single piece, and a single segment unless empty |
| Paths.CanonicalIsJoinOfSegments | src/Api.php:141-144 | a string without "//" or an edge '/' is the implosion of its segments |
| Paths.CollapseKeepsSegments | src/Api.php:141-144 | collapsing runs of '/' keeps the first piece and exactly the segments |
| Paths.TrimLeftKeepsSegments | src/Api.php:141-144 | trimming leading '/' keeps exactly the segments |
| Paths.TrimRightKeepsSegments | src/Api.php:141-144 | trimming trailing '/' keeps exactly the segments |
| Paths.CleanPathIsCanonical | src/Api.php:141-144 | `cleanPathString` output has no "//" and neither starts nor ends with '/' |
| Paths.CleanPathKeepsSegments | src/Api.php:141-144 | `cleanPathString` keeps exactly the non-empty '/'-separated segments of its input, in order |
| Paths.CleanPathIsJoinOfSegments | src/Api.php:141-144 | `cleanPathString` equals the reference: explode, drop empty pieces, implode; it is empty exactly when there is no segment, and exploding a non-empty result gives back the segments |
| Paths.CleanPathIdempotent | src/Api.php:141-144 | cleaning twice is cleaning once |
| Paths.CleanPathExampleShape | src/Api.php:141-144 | "a//b///c/" is cleaned to "a/b/c" for any non-empty names free of '/' |
| Paths.CleanPathExample | src/Api.php:141-144 | "a//b///c/" is cleaned to "a/b/c" |
| Images.RawImagePath | src/Api.php:684 | the string handed to `cleanPathString`: "/" + client + "/" + size + transformation + "/" + path + "/" + fileName |
| Images.CleanImagePath | src/Api.php:682-685 | the cleaned image path is the segments of client, size plus transformation, directory and file name, joined by single slashes; it is canonical |
| Images.FitKeepsSize | src/Api.php:11 | with FIT, the empty code, the size segment is the size alone |
| Images.ImageExampleShape | src/Api.php:682-685 | for non-empty slash-free names, a directory "/dir/" loses its slashes and the path is "client/size/dir/file" |
| Images.ImageExample | src/Api.php:682-685 | image("/dir/", "pic.png", "200x200", FIT) for client "c" cleans to "c/200x200/dir/pic.png" |
| IdnClient.Api.Image | src/Api.php:682-685 | `image` is the image base URL followed by the joined image segments, with no "//" and no edge '/' in the part after the base URL; it reads the object and changes nothing; the size defaults to "full" and the transformation to FIT, as in the PHP signature |
| Envelopes.Filled | src/Api.php:261-268 | PHP's `!empty()` on a string-or-null value: false for null, "" and "0" |
| Envelopes.GenericError | src/Api.php:216-229 | as written: InvalidToken exactly when the code is 403, then with code 403 and the envelope's message (a missing message reads as "", through the helper `TextOf`); otherwise "Unknown error" with code 0 |
| Envelopes.IntendedGenericError | src/Api.php:221-226 | the intended reading of line 223: a filled `error` becomes an OperationFail with that message; otherwise the same as written |
| Envelopes.CheckStatus | src/Api.php:332-337 | the status check: the envelope itself exactly when the status is "success", otherwise the generic error |
| Envelopes.GenericErrorIgnoresErrorField | src/Api.php:223 | as written, the outcome never depends on the `error` field |
| Envelopes.GenericErrorsOtherThan403AreUnknown | src/Api.php:216-229 | all failures without code 403 give the same "Unknown error" |
| Envelopes.WrittenAndIntendedDiffer | src/Api.php:223 | the written and the intended classification differ exactly when the code is not 403 and the `error` field is filled with a text other than "Unknown error" |
| Envelopes.DeadErrorBranchExample | src/Api.php:223 | an envelope with code 500 and error "Quota exceeded" gives "Unknown error" as written |
| Envelopes.ListEnvelopeIsUnknownError | src/Api.php:216-229 | a non-empty JSON list such as `[1]` has no status, so the wrappers' check fails on it with "Unknown error" |
| Envelopes.InvalidTokenExample | src/Api.php:218-222 | `{"status":"error","code":403,"message":"x"}` fails with InvalidToken("x", 403) |
| Session.Initial | src/Api.php:48-138 | the fields after the constructor: the credentials, the PHP defaults (empty API URL, debug off, empty hook arrays) and null for the rest |
| Session.Fire | src/Api.php:176-195 | firing a hook appends one invocation per handler of its list to the event log; its properties are FireInOrder and FireKeepsSettings |
| Session.Curl | src/Api.php:254-290 | `curl` as a transition: fire onCurlCall, send the request built from the settings, record the error number, then the finishing stage; its properties are the Curl lemmas |
| Session.Authenticate | src/Api.php:304-321 | `authenticate` as a transition; its properties are AuthenticateBehaviour and ConnectedWithoutTokenReauthenticates |
| Session.CallApi | src/Api.php:293-301 | `callApi` as a transition: authenticate when the token is null, stop on its error, then `curl`; its properties are CallApiAuthenticatesIffNoToken, CallApiSends and TokenCachedAcrossCalls |
| Session.LoginUser | src/Api.php:156-167 | `loginUser` as a transition; its properties are LoginUserBehaviour |
| Session.RaiseGenericError | src/Api.php:216-229 | `throwGenericResponseError` as a transition; its properties are RaiseGenericErrorBehaviour |
| Session.Endpoint | src/Api.php:324-338 | the call-then-check shape of every wrapper; its properties are EndpointBehaviour |
| Session.Truthy | src/Api.php:639 | PHP truthiness of the cached limit: false for null and 0 |
| Session.GetMaxUploadSize | src/Api.php:637-657 | `getMaxUploadSize` as a transition; its properties are MaxUploadSizeCached |
| Session.TooLarge | src/Api.php:486 | `filesize($file) > $max`: against an integer a plain comparison; against null PHP compares booleans, so the test is size > 0 |
| Session.UploadArchive | src/Api.php:477-515 | `uploadArchive` as written, with the empty-real-path check of `getCurlFile`; its properties are UploadArchiveChecksInOrder, TooLargeFileSendsNothing and UploadInvalidResponseIsTooLarge |
| Session.Register | src/Api.php:103-109 | registering a handler appends it to the list of its hook and leaves the other lists alone |
| Session.Invocations | src/Api.php:182-186 | a firing has one invocation per handler |
| Session.InvocationsInOrder | src/Api.php:182-186 | the i-th invocation of a firing is the i-th registered handler's, with the firing's arguments |
| Session.FireInOrder | src/Api.php:176-195 | firing a hook changes only the event log, appending each handler of the hook once, in registration order |
| Session.FireKeepsSettings | src/Api.php:176-195 | firing a hook changes no setting, no request and not `lastErrorCode` |
| Session.HeaderLines | src/Api.php:260-268 | the header list of `curl`: a Token line for a non-empty token, then an AuthClient line for a non-empty client; its properties are HeaderLinesSpec |
| Session.HeaderLinesSpec | src/Api.php:260-268 | there is a Token header exactly when the token is not empty and an AuthClient header exactly when the client is not empty, the Token header first |
| Session.CurlFinishBehaviour | src/Api.php:283-289 | after the transfer: onCurlFinished, then onCurlFailed and InvalidResponse exactly when the body is not a non-empty array; otherwise the envelope |
| Session.CurlStages | src/Api.php:256-281 | before decoding, `curl` fires onCurlCall, sends one request built from the settings and records the transport error number |
| Session.CurlSends | src/Api.php:256-281 | `curl` sends exactly one request, to `apiUrl + "/" + path`, sets `lastErrorCode` to the transport error number and changes no setting |
| Session.CurlFires | src/Api.php:256-289 | the events of `curl`: onCurlCall, onCurlFinished (even for a body that is not a non-empty array), then onCurlFailed exactly when the body is not a non-empty array |
| Session.CurlAnswers | src/Api.php:283-289 | `curl` throws exactly when the body is not a non-empty array, then InvalidResponse; otherwise it returns the decoded envelope |
| Session.CurlBehaviour | src/Api.php:254-290 | the request, state and outcome facts of `curl` together |
| Session.AuthenticateBehaviour | src/Api.php:304-321 | `authenticate` posts the credentials to auth/login; it stores the returned token exactly when the reply's status is "connected"; otherwise the token is unchanged and it throws InvalidResponse, or OperationFail with code 403 |
| Session.CallApiAuthenticatesIffNoToken | src/Api.php:293-301 | with a token, `callApi` is one plain `curl`; without one, its first request is the login request |
| Session.ListReplyRefusesLogin | src/Api.php:283-317 | a login reply that is a non-empty JSON list such as `[1]` passes `curl`'s check: onCurlFinished fires and onCurlFailed does not, and `authenticate` refuses it with code 403, keeping the token |
| Session.CallApiSends | src/Api.php:293-301 | `callApi` always sends a request |
| Session.RequestsOf | src/Api.php:259 | the requests of a series go one per call, each to `apiUrl + "/" + path` |
| Session.TokenCachedAcrossCalls | src/Api.php:293-301 | once a token is cached, a series of calls sends exactly one request per call, its own, and no login; the token and the settings stay |
| Session.RequestsOfSettings | src/Api.php:258-268 | the requests of a series depend only on the settings |
| Session.RequestOfSettings | src/Api.php:258-268 | a request depends only on the settings |
| Session.ConnectedWithoutTokenReauthenticates | src/Api.php:320 | a "connected" reply without a token leaves the token null, so the next call logs in again |
| Session.LoginUserBehaviour | src/Api.php:156-167 | `loginUser` stores the credentials and clears the token; lazily it sends nothing and the next call logs in with the new credentials; eagerly it authenticates at once |
| Session.RaiseGenericErrorBehaviour | src/Api.php:216-229 | `throwGenericResponseError` never returns; with code 403 it fires onInvalidToken once, each handler once, and throws InvalidToken(403); otherwise it fires nothing and throws "Unknown error" |
| Session.EndpointBehaviour | src/Api.php:324-338 | a wrapper returns the envelope of `callApi` unchanged exactly when its status is "success"; otherwise it fails with the error of `callApi` or the generic error |
| Session.MaxUploadSizeCached | src/Api.php:637-657 | a truthy cached limit is returned without a request; otherwise setup/max-upload-size is called: the result is Ok exactly when that reply's status is "success", and is then its `max_file_size`, which is cached, so a truthy fetched value is not fetched again; any other status ends in the generic error, and a failed call in its own error |
| Session.UploadArchiveChecksInOrder | src/Api.php:477-515 | `uploadArchive` fetches the limit; then FileNotFound(404) for a non-file; then FileTooLarge(413) when the size exceeds the limit; then FileNotFound for an empty real path; only after these does it send a request |
| Session.UploadArchiveSendsUpload | src/Api.php:492-514 | once every local check passes, `uploadArchive` calls file/upload-archive with the directory and the file attached; a reply with status "success" is returned unchanged, any other status ends in the generic error, and a failed call other than InvalidResponse fails with its own error |
| Session.SizeEqualToLimitPasses | src/Api.php:486 | a file of exactly the limit is not too large; one byte more is |
| Session.TooLargeFileSendsNothing | src/Api.php:479-489 | with a truthy cached limit, a file over it fails with FileTooLarge(413) and the object is left exactly as it was |
| Session.IntendedUploadArchive | src/Api.php:477-515 | the labelled intended reading of line 502, a comparison: an InvalidResponse of the upload becomes FileTooLarge only when `lastErrorCode` already is 413; its properties are IntendedUploadRethrows and WrittenAndIntendedUploadDiffer |
| Session.IntendedUploadRethrows | src/Api.php:499-506 | as intended, an InvalidResponse of the upload is FileTooLarge exactly when `lastErrorCode` is 413, and is otherwise rethrown with the state of the call |
| Session.WrittenAndIntendedUploadDiffer | src/Api.php:499-506 | the written and the intended line 502 differ exactly when every local check passes, the upload fails with InvalidResponse and `lastErrorCode` is not 413 |
| Session.CallApiErrors | src/Api.php:283-287 | the only InvalidResponseException `callApi` throws is the one of `curl` |
| Session.UploadInvalidResponseIsTooLarge | src/Api.php:491-508 | as written, any InvalidResponse of the upload is rethrown as FileTooLarge(413) and leaves `lastErrorCode` at 413 |
| IdnClient.Api.constructor | src/Api.php:134-138 | a new client holds the application credentials, no user, client or token, and empty hook lists and logs |
| IdnClient.Api.SetApiUrl | src/Api.php:198-201 | only the API URL changes |
| IdnClient.Api.SetImageUrl | src/Api.php:204-207 | only the image URL changes |
| IdnClient.Api.AddHandler | src/Api.php:103-109 | appending to a public hook array changes only that list |
| IdnClient.Api.Fire | src/Api.php:176-195 | the `foreach` over a hook's handlers appends `Session.Fire`'s invocations and changes nothing else |
| IdnClient.Api.Curl | src/Api.php:254-290 | builds the headers by appends and computes exactly `Session.Curl`; the verb defaults to "GET" and the fields to none |
| IdnClient.Api.Authenticate | src/Api.php:304-321 | computes exactly `Session.Authenticate` |
| IdnClient.Api.CallApi | src/Api.php:293-301 | computes exactly `Session.CallApi`; the verb defaults to "GET" and the fields to none |
| IdnClient.Api.LoginUser | src/Api.php:156-167 | computes exactly `Session.LoginUser`; the login is eager by default |
| IdnClient.Api.LoginClient | src/Api.php:170-173 | only the client changes |
| IdnClient.Api.ThrowGenericResponseError | src/Api.php:216-229 | computes exactly `Session.RaiseGenericError` |
| IdnClient.Api.CreateUser | src/Api.php:324-338 | the call-then-check wrapper on user/create |
| IdnClient.Api.Delete | src/Api.php:552-566 | the call-then-check wrapper on file/delete with the verb "DELETE" |
| IdnClient.Api.GetMaxUploadSize | src/Api.php:637-657 | computes exactly `Session.GetMaxUploadSize` |
| IdnClient.Api.UploadArchive | src/Api.php:477-515 | computes exactly `Session.UploadArchive`, with line 502 as written |

## Left out

- The cURL transport and `json_decode` are a server function from request to reply. The reply
  is a transport error number and a body that is an envelope or not a non-empty array.
- Timeouts, redirects and TLS are part of the transport and are not modelled.
- `onCurlFinished` handlers receive the decoded body in the model. For a body that is not a
  non-empty array, PHP passes the result of `json_decode`, which may be null, a scalar or an empty array;
  the model passes the raw text instead.
- Envelope fields are modelled as strings (status, error, message, token) and integers (code,
  max_file_size). PHP's loose `!=` and `==` on other JSON types are not modelled, for example a
  status of `0` or `true`, or a code of `"403"`.
- `realpath`, `is_file` and `filesize` are the fields of `LocalFile`. Nothing is read from a
  disk.
- The PHP-version branch of `getCurlFile` is not modelled; the attachment is the real path. That
  branch chooses between a `CurlFile` and the string `'@' . path`.
- `clean` and `purge` are not modelled. They pass an array where `callApi` expects a path.
- Only the dispatch of `__call` is modelled: firing the handlers of one hook, in order, with
  each hook list an array of handlers. The hook properties are public, so a caller can replace
  a list with something else, and the model's lists are always arrays. What is not modelled:
  - the method-name lookup;
  - the `InvalidArgumentException` of line 190 for a hook property that is neither an array
    nor null (its message reads the undefined `$class` and `$_this`);
  - the fall-through to the `BadMethodCallException` of line 194 when a hook property is null.
    That line skips the `foreach`; its message reads `$name`, which is defined. With a null
    `onCurlCall` or `onCurlFinished`, every request therefore throws BadMethodCallException.
- Hook handlers are numbers. What a handler does is not modelled: its side effects, its return
  value, and the exceptions it could throw into the client.
- `enableDebug`, `getToken` and `setToken` are simple accessors and are not modelled. The
  `debug` field is kept; it is never read in the modelled code.
- Only two endpoint wrappers are modelled, `createUser` and `delete`. The other wrappers repeat
  the same call-then-check shape, which `Session.Endpoint` and `Session.EndpointBehaviour`
  state once.
