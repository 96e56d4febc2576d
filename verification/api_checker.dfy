/**
 * `check_backend_health`: the single-target variant of the health check,
 * probing the URL in `BACKEND_URL`.
 */
module ApiChecker {
  import opened Wrappers
  import opened Text
  import opened Http

  const BackendUrlVar: string := "BACKEND_URL"

  /*
   * Longer fixed texts are written as concatenations of short literals only
   * so that the verifier can look inside them.
   */

  /** Used as the request URL when `BACKEND_URL` is unset. */
  const MissingUrlHint: string :=
    "The backend URL" + " couldn't be found in the environment variables." + " Please set the BACKEND_URL variable."

  /** The four replies the checker can give. */
  datatype BackendVerdict =
    | Running
    | BadStatusField(status: string)
    | InvalidJson
    | BadHttpStatus(statusText: string)

  const Subject: string := "Backend is "

  const Down: string := Subject + "NOT running" + " ❌ — "

  const StatusLabel: string := "status: "

  const HttpStatusLabel: string := "HTTP status: "

  const RunningText: string := Subject + "running ✅"

  const InvalidJsonText: string := Down + "invalid JSON"

  /** The reply text for a verdict; each reply reads back as the verdict it renders. */
  function Render(v: BackendVerdict): (t: string)
    ensures ParseVerdict(t) == Some(v)
  {
    match v
    case Running => RunningText
    case InvalidJson =>
      assert InvalidJsonText[|Subject|] == 'N' != RunningText[|Subject|];
      InvalidJsonText
    case BadStatusField(status) =>
      var t := Down + (StatusLabel + status);
      assert t[|Subject|] == 'N' != RunningText[|Subject|];
      assert t[|Down|] == 's' != InvalidJsonText[|Down|];
      assert t[..|Down + StatusLabel|] == Down + StatusLabel;
      assert t[|Down + StatusLabel|..] == status;
      t
    case BadHttpStatus(text) =>
      var t := Down + (HttpStatusLabel + text);
      assert t[|Subject|] == 'N' != RunningText[|Subject|];
      assert t[|Down|] == 'H' != InvalidJsonText[|Down|];
      assert t[|Down|] != (Down + StatusLabel)[|Down|];
      assert t[..|Down + HttpStatusLabel|] == Down + HttpStatusLabel;
      assert t[|Down + HttpStatusLabel|..] == text;
      t
  }

  /** Reads a reply back into the verdict it renders. */
  function ParseVerdict(t: string): Option<BackendVerdict> {
    if t == RunningText then Some(Running)
    else if t == InvalidJsonText then Some(InvalidJson)
    else if StartsWith(t, Down + StatusLabel) then Some(BadStatusField(t[|Down + StatusLabel|..]))
    else if StartsWith(t, Down + HttpStatusLabel) then Some(BadHttpStatus(t[|Down + HttpStatusLabel|..]))
    else None
  }

  /** A text that reads back as a verdict is exactly that verdict's reply. */
  lemma ParseVerdictInverse(t: string)
    ensures ParseVerdict(t).Some? ==> t == Render(ParseVerdict(t).value)
  {
    if t != RunningText && t != InvalidJsonText {
      if StartsWith(t, Down + StatusLabel) {
        PrefixThenRest(t, Down + StatusLabel);
      } else if StartsWith(t, Down + HttpStatusLabel) {
        PrefixThenRest(t, Down + HttpStatusLabel);
      }
    }
  }

  /** The verdict for a response, or the transport error. */
  function Classify(response: HttpOutcome<string>): (r: Result<BackendVerdict, RequestError>)
    ensures r.Err? <==> response.TransportFailed?
    ensures r == Ok(Running) <==> response.Received? && IsSuccess(response.code)
                                  && response.decoded.Some? && IsOk(response.decoded.value)
    ensures r.Ok? && r.value.BadStatusField? ==>
              IsSuccess(response.code) && response.decoded == Some(r.value.status) && !IsOk(r.value.status)
    ensures response.Received? && IsSuccess(response.code) && response.decoded.Some? && !IsOk(response.decoded.value) ==>
              r == Ok(BadStatusField(response.decoded.value))
    ensures r == Ok(InvalidJson) <==> response.Received? && IsSuccess(response.code) && response.decoded.None?
    ensures r.Ok? && !IsSuccess(response.code) ==>
              r.value == BadHttpStatus(StatusText(response.code, response.reason))
  {
    match response
    case TransportFailed => Err(Transport)
    case Received(code, reason, decoded) =>
      if IsSuccess(code) then
        match decoded
        case Some(status) => if IsOk(status) then Ok(Running) else Ok(BadStatusField(status))
        case None => Ok(InvalidJson)
      else Ok(BadHttpStatus(StatusText(code, reason)))
  }

  /**
   * `check_backend_health`: `env` stands for the process environment and
   * `web(url)` for the outcome of a GET on `url`.
   */
  function CheckBackendHealth(env: map<string, string>, web: string -> HttpOutcome<string>): (run: ProbeRun)
    ensures run.requested == Some(if BackendUrlVar in env then env[BackendUrlVar] else MissingUrlHint)
    ensures run.reply.Err? <==> web(run.requested.value).TransportFailed?
    ensures run.reply.Ok? ==> ParseVerdict(run.reply.value) == Some(Classify(web(run.requested.value)).value)
  {
    var url := if BackendUrlVar in env then env[BackendUrlVar] else MissingUrlHint;
    var reply := (
      match Classify(web(url))
      case Ok(verdict) => Ok(Render(verdict))
      case Err(e) => Err(e));
    ProbeRun(Some(url), reply)
  }

  /** The hint sentence is only ever a URL, never a reply. */
  lemma HintIsNeverAReply(env: map<string, string>, web: string -> HttpOutcome<string>)
    ensures CheckBackendHealth(env, web).reply != Ok(MissingUrlHint)
  {
    var reply := CheckBackendHealth(env, web).reply;
    if reply.Ok? {
      assert reply.value[0] == 'B';
      assert MissingUrlHint[0] == 'T';
    }
  }
}
