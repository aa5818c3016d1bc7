/**
 * `ReportButton`: a user reports another user with an optional reason.  The POST
 * is an input: `None` stands for a `fetch` that throws, a reply whose body is
 * `None` for a `res.json()` that throws.
 */
module ReportButton {
  import opened Wrappers
  import opened Json
  import JsString
  import ReportsRoute

  const NetworkError: string := "Ошибка сети"
  const GenericError: string := "Ошибка"

  /** The request body: the reported id, and the trimmed reason unless it is empty. */
  function RequestBody(reportedId: string, reason: string): (r: Json)
    ensures Get(r, "reported_id") == Some(JString(reportedId))
    ensures Get(r, "reason") == if JsString.Trim(reason) == "" then None else Some(JString(JsString.Trim(reason)))
    ensures Get(r, "target_type") == None
  {
    var trimmed := JsString.Trim(reason);
    var props := [("reported_id", Some(JString(reportedId))),
                  ("reason", if trimmed == "" then None else Some(JString(trimmed)))];
    GetObjectOf(props, "reported_id");
    LastValueOfDistinct(props, 0, 2);
    GetObjectOf(props, "reason");
    LastValueOfDistinct(props, 1, 2);
    GetObjectOf(props, "target_type");
    LastValueOfAbsent(props, "target_type", 2);
    ObjectOf(props)
  }

  /**
   * Whether the report counts as sent and which message is shown: a 409 (already
   * reported) counts as sent without reading the body, and an OK reply counts once its
   * body parses; an error reply whose body is not JSON or is `null` throws when its
   * `error` is read.
   */
  function SubmitResult(reply: Option<HttpReply>): (r: (bool, Option<string>))
    ensures r.0 <==> reply.Some? && (reply.value.status == 409 || (reply.value.body.Some? && IsOkStatus(reply.value.status)))
    ensures r.0 <==> r.1.None?
    ensures reply.None? || (reply.value.status != 409 && reply.value.body.None?) ==> r.1 == Some(NetworkError)
    ensures reply.Some? && reply.value.status != 409 && !IsOkStatus(reply.value.status) && ReadThrows(reply.value.body) ==>
      r.1 == Some(NetworkError)
    ensures reply.Some? && reply.value.status != 409 && !IsOkStatus(reply.value.status) && !ReadThrows(reply.value.body) ==>
      r.1 == ErrorText(reply.value.body, GenericError)
  {
    if reply.None? then (false, Some(NetworkError))
    else if reply.value.status == 409 then (true, None)
    else if reply.value.body.None? then (false, Some(NetworkError))
    else if !IsOkStatus(reply.value.status) then
      var text := ErrorText(reply.value.body, GenericError);
      (false, if text.Some? then text else Some(NetworkError))
    else (true, None)
  }

  class ReportDialog {
    const reportedId: string
    var reason: string
    var loading: bool
    var done: bool
    var error: Option<string>

    constructor(reportedId: string)
      ensures this.reportedId == reportedId && reason == "" && !loading && !done && error == None
    {
      this.reportedId := reportedId;
      reason := "";
      loading := false;
      done := false;
      error := None;
    }

    /** The textarea's `onChange`: the typed text replaces the reason and nothing else. */
    method SetReason(text: string)
      modifies this
      ensures reason == text
      ensures loading == old(loading) && done == old(done) && error == old(error)
    {
      reason := text;
    }

    /** `handleSubmit` up to the request: loading, no message, and the body to send. */
    method BeginSubmit() returns (body: Json)
      modifies this
      ensures loading && error == None && done == old(done) && reason == old(reason)
      ensures body == RequestBody(reportedId, reason)
    {
      loading := true;
      error := None;
      body := RequestBody(reportedId, reason);
    }

    /** `handleSubmit` after the POST answered (or threw); loading always ends. */
    method CompleteSubmit(reply: Option<HttpReply>)
      modifies this
      ensures !loading && reason == old(reason)
      ensures done == (old(done) || SubmitResult(reply).0)
      ensures error == if SubmitResult(reply).1.Some? then SubmitResult(reply).1 else old(error)
    {
      if reply.None? {
        error := Some(NetworkError);
      } else if reply.value.status == 409 {
        done := true;
      } else if reply.value.body.None? {
        error := Some(NetworkError);
      } else if !IsOkStatus(reply.value.status) {
        var text := ErrorText(reply.value.body, GenericError);
        error := if text.Some? then text else Some(NetworkError);
      } else {
        done := true;
      }
      loading := false;
    }
  }

  /** A whole submission: the message left is the one the result carries. */
  method Submit(dialog: ReportDialog, reply: Option<HttpReply>) returns (body: Json)
    modifies dialog
    ensures !dialog.loading && dialog.done == (old(dialog.done) || SubmitResult(reply).0)
    ensures dialog.error == SubmitResult(reply).1
    ensures body == RequestBody(dialog.reportedId, dialog.reason)
  {
    body := dialog.BeginSubmit();
    dialog.CompleteSubmit(reply);
  }

  /**
   * The route accepts what the button sends about someone else: the target type
   * defaults to "user", and the reason stored is the trimmed text (cut at 500 code
   * units) or none when it is blank.
   */
  lemma {:induction false} SentReportIsFiled(reportedId: string, reason: string, env: ReportsRoute.PostEnv)
    requires env.user.Some? && reportedId != "" && reportedId != env.user.value
    requires env.body == Ok(RequestBody(reportedId, reason))
    ensures ReportsRoute.Post(env).attempted.Some?
    ensures var row := ReportsRoute.Post(env).attempted.value;
      row.reportedId == reportedId && row.reporterId == env.user.value && row.targetType == "user" &&
      row.reason == if JsString.Trim(reason) == "" then None
                    else Some(JsString.Utf16Slice(JsString.Trim(reason), ReportsRoute.MaxReason))
  {
    ReportsRoute.PostInsertsOnlyValid(env);
  }

  /** How the button reads the route's answers: a filed or duplicate report is sent, any other refusal shows the route's message. */
  lemma RouteAnswersRead(env: ReportsRoute.PostEnv)
    ensures var resp := ReportsRoute.Post(env).response;
      var result := SubmitResult(Some(HttpReply(resp.status, Some(resp.body))));
      (ReportsRoute.Post(env).attempted.Some? && env.insert.Ok? ==> result == (true, None)) &&
      (ReportsRoute.Post(env).attempted.Some? && env.insert.Err? && env.insert.error.code == ReportsRoute.UniqueViolation ==>
        result == (true, None)) &&
      (ReportsRoute.Post(env).attempted.None? ==> !result.0)
  {
    ReportsRoute.PostGuards(env);
    if ReportsRoute.Post(env).attempted.Some? && env.insert.Err? {
      ReportsRoute.PostInsertErrors(env);
    }
  }
}
