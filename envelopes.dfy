/**
 * The JSON envelope the IDN server answers with, the client's exception kinds, and the
 * classification of a failed envelope (`throwGenericResponseError`, src/Api.php:216-229)
 * together with the `status != 'success'` check that every endpoint wrapper applies.
 */
module Envelopes {

  datatype Option<+T> = None | Some(value: T)

  /** A decoded, non-empty PHP array: a JSON object, or a non-empty JSON list (whose
      keys are numbers, so every key the client reads is absent). Each field is `None`
      when its key is absent; only the keys the client reads are represented. */
  datatype Envelope = Envelope(
    status: Option<string>,
    code: Option<int>,
    error: Option<string>,
    message: Option<string>,
    token: Option<string>,
    maxFileSize: Option<int>)

  /** A non-empty JSON list such as `[1]`: a non-empty array none of whose keys the client
      reads is present. */
  const ListEnvelope := Envelope(None, None, None, None, None, None)

  /** The exception classes of src/Api.php:690-702 that the client throws. */
  datatype Kind = InvalidResponse | OperationFail | InvalidToken | FileNotFound | FileTooLarge

  /** A thrown exception: its class, message and code (PHP's default code is 0). */
  datatype ApiError = ApiError(kind: Kind, message: string, code: int)

  datatype Result<+T> = Ok(value: T) | Err(error: ApiError)

  /** PHP's `!empty($v)` for a string-or-null value: null, "" and "0" are empty. */
  predicate Filled(v: Option<string>) {
    v.Some? && v.value != "" && v.value != "0"
  }

  /** A string-or-null value used as a string: null reads as "". */
  function TextOf(v: Option<string>): string {
    if v.Some? then v.value else ""
  }

  /** `$result['status'] != 'success'` is false. */
  predicate IsSuccess(e: Envelope) {
    e.status == Some("success")
  }

  /** `array_key_exists('code', $response) && $response['code'] == 403`. */
  predicate TokenRejected(e: Envelope) {
    e.code == Some(403)
  }

  const UnknownError := ApiError(OperationFail, "Unknown error", 0)

  /** The exception `throwGenericResponseError` throws, AS WRITTEN. The test of line 223
      reads `$result`, a variable that is not defined in that function, so the `error`
      field of the envelope is never consulted. */
  function GenericError(e: Envelope): (r: ApiError)
    ensures r.kind == InvalidToken <==> TokenRejected(e)
    ensures TokenRejected(e) ==> r.code == 403 && r.message == TextOf(e.message)
    ensures !TokenRejected(e) ==> r == UnknownError
  {
    if TokenRejected(e) then ApiError(InvalidToken, TextOf(e.message), 403)
    else UnknownError
  }

  /** The INTENDED reading of `throwGenericResponseError`, with line 223 reading the
      envelope: a non-empty `error` field becomes the message of the failure. It is not
      used by the client model, which follows the code as written. */
  function IntendedGenericError(e: Envelope): (r: ApiError)
    ensures r.kind == InvalidToken <==> TokenRejected(e)
    ensures TokenRejected(e) ==> r == GenericError(e)
    ensures !TokenRejected(e) && Filled(e.error) ==> r == ApiError(OperationFail, e.error.value, 0)
    ensures !TokenRejected(e) && !Filled(e.error) ==> r == UnknownError
  {
    if TokenRejected(e) then ApiError(InvalidToken, TextOf(e.message), 403)
    else if Filled(e.error) then ApiError(OperationFail, e.error.value, 0)
    else UnknownError
  }

  /** What an endpoint wrapper makes of a decoded envelope: the envelope itself on
      success, the generic error otherwise. */
  function CheckStatus(e: Envelope): (r: Result<Envelope>)
    ensures r.Ok? <==> IsSuccess(e)
    ensures r.Ok? ==> r.value == e
    ensures r.Err? ==> r.error == GenericError(e)
  {
    if IsSuccess(e) then Ok(e) else Err(GenericError(e))
  }

  /** As written, the outcome never depends on the `error` field. */
  lemma GenericErrorIgnoresErrorField(e: Envelope, error: Option<string>)
    ensures GenericError(e.(error := error)) == GenericError(e)
  {
  }

  /** Every failure other than a rejected token is "Unknown error" with code 0, whatever
      the server said. */
  lemma GenericErrorsOtherThan403AreUnknown(e: Envelope, f: Envelope)
    requires !TokenRejected(e) && !TokenRejected(f)
    ensures GenericError(e) == GenericError(f) == UnknownError
  {
  }

  /** The written and the intended classification differ exactly on envelopes whose code
      is not 403 and whose `error` field is filled with something else than "Unknown error". */
  lemma WrittenAndIntendedDiffer(e: Envelope)
    ensures GenericError(e) != IntendedGenericError(e) <==>
      !TokenRejected(e) && Filled(e.error) && e.error.value != "Unknown error"
  {
  }

  /** An input that shows the dead branch: a server error message is lost. */
  lemma DeadErrorBranchExample()
    ensures var e := Envelope(Some("error"), Some(500), Some("Quota exceeded"), None, None, None);
      GenericError(e) == UnknownError &&
      IntendedGenericError(e) == ApiError(OperationFail, "Quota exceeded", 0)
  {
  }

  /** Example: a non-empty JSON list such as `[1]` has no status, so a wrapper fails on it
      with "Unknown error". */
  lemma ListEnvelopeIsUnknownError()
    ensures CheckStatus(ListEnvelope) == Err(UnknownError)
  {
  }

  /** Example: `{"status":"error","code":403,"message":"x"}` fails with InvalidToken("x", 403). */
  lemma InvalidTokenExample()
    ensures CheckStatus(Envelope(Some("error"), Some(403), None, Some("x"), None, None))
      == Err(ApiError(InvalidToken, "x", 403))
  {
  }
}
