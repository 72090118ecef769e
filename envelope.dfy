/**
 * The JSON envelope every handler of the control plane answers with
 * (`ResponseAPI` in app.py) and the helper that builds it.
 */
module Envelope {

  datatype Option<+T> = None | Some(value: T)

  /** `status`, `http_code`, and the optional `message` and `data` fields.
      `data` is typed `Any` in the source; the only payload a handler of the
      stream registry ever puts there is the list of active camera ids. */
  datatype Response = Response(
    status: string,
    httpCode: int,
    message: Option<string>,
    data: Option<seq<string>>)

  /** `get_response_format`: only the HTTP code is mandatory; `message` and
      `data` default to absent and `status` defaults to "success". */
  function GetResponseFormat(
    httpCode: int,
    message: Option<string> := None,
    status: string := "success",
    data: Option<seq<string>> := None): Response
  {
    Response(status, httpCode, message, data)
  }

  /** Leaving out every optional argument gives a bare success envelope. */
  lemma ResponseDefaults(httpCode: int)
    ensures GetResponseFormat(httpCode).status == "success"
    ensures GetResponseFormat(httpCode).httpCode == httpCode
    ensures GetResponseFormat(httpCode).message == None
    ensures GetResponseFormat(httpCode).data == None
  {
  }

  /** Every supplied argument can be read back, unchanged, from its field:
      two envelopes are equal exactly when they were built from equal arguments. */
  lemma ResponseCopiesThrough(
    httpCode: int, message: Option<string>, status: string, data: Option<seq<string>>,
    httpCode': int, message': Option<string>, status': string, data': Option<seq<string>>)
    ensures GetResponseFormat(httpCode, message, status, data).httpCode == httpCode
    ensures GetResponseFormat(httpCode, message, status, data).message == message
    ensures GetResponseFormat(httpCode, message, status, data).status == status
    ensures GetResponseFormat(httpCode, message, status, data).data == data
    ensures GetResponseFormat(httpCode, message, status, data) == GetResponseFormat(httpCode', message', status', data')
            <==> httpCode == httpCode' && message == message' && status == status' && data == data'
  {
  }
}
