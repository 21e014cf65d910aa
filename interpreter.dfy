// What the client reports about an unsuccessful HTTP response
// (`__handle_bad_http_response`): the server's reason, the
// unexpected-shape error and the impersonation hint. The log lines themselves
// are not modelled; the report is what they carry.

module Interpreter {
  import opened Wire

  /** The reason logged as "Server error": a field of the JSON body, or the raw text. */
  datatype Reason = FieldValue(value: JValue) | RawText(text: string)

  /** Derive the server's reason: the `error` field, else the `status` field,
      else the raw text; the raw text also when the body is not JSON. */
  function ServerError(r: Response): (reason: Reason)
    ensures reason.RawText? <==> r.body.NotJson? || ("error" !in r.body.obj && "status" !in r.body.obj)
    ensures reason.RawText? ==> reason.text == r.text
    ensures r.body.Parsed? && "error" in r.body.obj ==> reason == FieldValue(r.body.obj["error"])
    ensures reason.FieldValue? ==> r.body.Parsed? && reason.value in r.body.obj.Values
  {
    match r.body
    case NotJson => RawText(r.text)
    case Parsed(obj) =>
      if "error" in obj then FieldValue(obj["error"])
      else if "status" in obj then FieldValue(obj["status"])
      else RawText(r.text)
  }

  /** Everything `__handle_bad_http_response` logs, as data. */
  datatype Report = Report(
    code: int,            // "HTTP Status: %d"
    showUrl: bool,        // whether ", URL: ..." is appended
    reason: Reason,       // "Server error: %s"
    unexpectedShape: bool, // JSON body with neither `error` nor `status`
    permissionHint: bool  // the 403-while-impersonating hint
  )

  function BadResponse(r: Response, showUrl: bool, targetUser: JValue): (report: Report)
    ensures report.code == r.code && report.showUrl == showUrl
    ensures report.reason == ServerError(r)
    ensures report.unexpectedShape <==> r.body.Parsed? && report.reason.RawText?
    ensures report.permissionHint <==> r.code == 403 && Truthy(targetUser)
  {
    var reason := ServerError(r);
    Report(r.code, showUrl, reason, r.body.Parsed? && reason.RawText?, r.code == 403 && Truthy(targetUser))
  }

  /** The `status` field is the fallback when there is no `error` field. */
  lemma StatusFieldFallback(r: Response)
    requires r.body.Parsed? && "error" !in r.body.obj && "status" in r.body.obj
    ensures ServerError(r) == FieldValue(r.body.obj["status"])
  {
  }

  /** Impersonating with a falsy user id (None, "", 0) gives no hint on a 403. */
  lemma NoHintWithoutTargetUser(r: Response, showUrl: bool)
    requires r.code == 403
    ensures !BadResponse(r, showUrl, JNull).permissionHint
    ensures !BadResponse(r, showUrl, JString("")).permissionHint
    ensures !BadResponse(r, showUrl, JInt(0)).permissionHint
    ensures BadResponse(r, showUrl, JString("42")).permissionHint
  {
  }
}
