/**
 * The `!health` command: parse "<word> <service> <environment>", look up
 * `<SERVICE>_<ENVIRONMENT>_URL`, GET it, and render what came back.
 */
module HealthChecker {
  import opened Wrappers
  import opened Text
  import opened Http

  /** The canned replies `send_funny` picks from. */
  const FunnyMessages: seq<string> := [
      "এই মেসেজ কেডায় দিসে? 🤬",
      "আর কাম কাজ নাই? 🥴",
      "পুৎ কইরা দিমু 😈",
      "স্বজন হারানোর বেদনা আমিও বুঝি 😭",
      "আহো ভাতিজা আহো 😈",
      "আমি জুনায়েদ 😇",
      "সাগর, তুমি ভালো হয়ে যাও, মাসুদ হয়নি, তুমি হউ। 🥸",
      "ইংরেজিতে যেহেতু বুইলছেন, ঠিকই হবে! 🤓",
      "চ্যালেঞ্জিং টাইমস! 😎",
      "১০% নিয়া গেলো লন্ডনের ই বাসে রে, মরার কোকিলে! 🐦‍⬛"
    ]

  const NotFoundMessage: string := "এই এন্ডপয়েন্টের কোন হদিস পাইলাম না! 😅"

  const InvalidJsonMessage: string := "Invalid JSON response from the endpoint"

  datatype ParsedData = ParsedData(service: string, environment: string)

  predicate IsKnownService(service: string) {
    service == "backend" || service == "frontend"
  }

  /** `send_funny`, with the random index drawn by the caller. */
  function SendFunny(pick: nat): (r: string)
    requires pick < |FunnyMessages|
    ensures r in FunnyMessages
    ensures |r| > 0
  {
    FunnyMessages[pick]
  }

  /** `parse_message`; `pick` is the index `send_funny` would draw. */
  function ParseMessage(message: string, pick: nat): (r: Result<ParsedData, string>)
    requires pick < |FunnyMessages|
    ensures r.Err? ==> r.error == FunnyMessages[pick]
    ensures r.Ok? ==> IsKnownService(r.value.service) && IsWord(r.value.environment)
  {
    var parts := SplitWhitespace(message);
    if |parts| != 3 then Err(SendFunny(pick))
    else if parts[1] != "backend" && parts[1] != "frontend" then Err(SendFunny(pick))
    else Ok(ParsedData(parts[1], parts[2]))
  }

  /** Parsing succeeds exactly on three words whose middle one names a service. */
  lemma ParseMessageAccepts(message: string, pick: nat)
    requires pick < |FunnyMessages|
    ensures var parts := SplitWhitespace(message);
            ParseMessage(message, pick).Ok? <==> |parts| == 3 && parts[1] in {"backend", "frontend"}
    ensures var parts := SplitWhitespace(message);
            ParseMessage(message, pick).Ok? ==>
              ParseMessage(message, pick).value == ParsedData(parts[1], parts[2])
  {
  }

  /** The first word is never inspected. */
  lemma ParseIgnoresCommandWord(w1: string, w2: string, rest: string, pick: nat)
    requires pick < |FunnyMessages|
    requires IsWord(w1) && IsWord(w2)
    requires |rest| == 0 || IsWhitespace(rest[0])
    ensures ParseMessage(w1 + rest, pick) == ParseMessage(w2 + rest, pick)
  {
    SplitWordThen(w1, rest);
    SplitWordThen(w2, rest);
  }

  /** A command written as three space-separated words parses back to its parts. */
  lemma ParseJoined(command: string, service: string, environment: string, pick: nat)
    requires pick < |FunnyMessages|
    requires IsWord(command) && IsKnownService(service) && IsWord(environment)
    ensures ParseMessage(command + " " + service + " " + environment, pick)
            == Ok(ParsedData(service, environment))
  {
    var words := [command, service, environment];
    assert words[1..][1..] == [environment];
    assert Join(words[1..], " ") == service + " " + environment;
    assert Join(words, " ") == command + " " + service + " " + environment;
  }

  /**
   * The environment variable naming the endpoint of a service in an
   * environment: upper case throughout, five characters longer than its two
   * parts, ending in "_URL".
   */
  function UrlKey(service: string, environment: string): (key: string)
    ensures |key| == |service| + |environment| + 5
    ensures EndsWith(key, "_URL")
    ensures forall i :: 0 <= i < |key| ==> !('a' <= key[i] <= 'z')
  {
    var key := Upper(service) + "_" + Upper(environment) + "_URL";
    assert key[|key| - 4..] == "_URL";
    key
  }

  lemma UrlKeyExample()
    ensures UrlKey("backend", "dev") == "BACKEND_DEV_URL"
  {
  }

  predicate NoUnderscore(s: string) {
    forall i :: 0 <= i < |s| ==> s[i] != '_'
  }

  /**
   * For service names without '_' (both known services qualify) the key
   * determines the upper-cased service and environment.
   */
  lemma UrlKeyDetermines(s1: string, e1: string, s2: string, e2: string)
    requires NoUnderscore(s1) && NoUnderscore(s2)
    requires UrlKey(s1, e1) == UrlKey(s2, e2)
    ensures Upper(s1) == Upper(s2) && Upper(e1) == Upper(e2)
  {
    var k := UrlKey(s1, e1);
    assert k[|s1|] == '_';
    assert k[|s2|] == '_';
    assert forall i :: 0 <= i < |s1| ==> k[i] == UpperChar(s1[i]) != '_';
    assert forall i :: 0 <= i < |s2| ==> k[i] == UpperChar(s2[i]) != '_';
    assert |s1| == |s2|;
    assert Upper(s1) == k[..|s1|] == Upper(s2);
    assert Upper(e1) == k[|s1| + 1..|k| - 4] == Upper(e2);
  }

  /*
   * Pieces of the report `format_response` renders, split where its format
   * string has holes. Longer fixed texts are written as concatenations of
   * short literals only so that the verifier can look inside them.
   */

  function Banner(healthy: bool): string {
    if healthy then "🚀" + " | " + "Service Healthy" else "⚠️" + " | " + "Service Down"
  }

  function Header(healthy: bool): string {
    "```" + "\n" + Banner(healthy) + "\n\n"
  }

  const CheckedLine: string := " has been checked" + "\n\n" + "Environment" + "          " + "Status" + "\n"

  const ColumnGap: string := "                 "

  function Verdict(healthy: bool): string {
    if healthy then "✅" + " " + "Healthy" else "❌" + " " + "Unhealthy"
  }

  function Footer(healthy: bool): string {
    "\n\n" + "Health Check" + "\n" + Verdict(healthy) + "\n" + "```"
  }

  /**
   * `format_response`. For whitespace-free service and environment names
   * (every name `parse_message` yields) the report reads back as healthy
   * exactly when the status is "ok" in any case, naming the service, the
   * environment and the upper-cased status; `ReportDeterminesText` shows
   * that nothing else reads back the same.
   */
  function FormatResponse(service: string, environment: string, status: string): (r: string)
    ensures NoWhitespace(service) && NoWhitespace(environment) ==>
              ParseReport(r) == Some(Report(IsOk(status), service, environment, Upper(status)))
  {
    var healthy := IsOk(status);
    ReportRoundTrip(healthy, service, environment, Upper(status));
    Header(healthy) + ReportBody(healthy, service, environment, Upper(status))
  }

  /** What follows the header: the two words, the shown status and the footer. */
  function ReportBody(healthy: bool, service: string, environment: string, shown: string): string {
    service + (CheckedLine + (environment + (ColumnGap + (shown + Footer(healthy)))))
  }

  /** What a reader can recover from a report. */
  datatype Report = Report(healthy: bool, service: string, environment: string, shownStatus: string)

  /** Reads a whitespace-free word and then the literal `sep`, returning the word and the rest. */
  function ReadWordThen(t: string, sep: string): Option<(string, string)> {
    var n := WordLength(t);
    if StartsWith(t[n..], sep) then Some((t[..n], t[n + |sep|..])) else None
  }

  lemma ReadWordThenConcat(w: string, sep: string, rest: string)
    requires NoWhitespace(w) && |sep| > 0 && IsWhitespace(sep[0])
    ensures ReadWordThen(w + (sep + rest), sep) == Some((w, rest))
  {
    var t := w + (sep + rest);
    WordLengthOfWord(w, sep + rest);
    assert t[|w|..] == sep + rest;
    assert t[..|w|] == w;
    assert t[|w| + |sep|..] == rest;
  }

  /** Reads a report back; None when the text is not a report. */
  function ParseReport(t: string): Option<Report> {
    if StartsWith(t, Header(true)) then ParseReportBody(true, t[|Header(true)|..])
    else if StartsWith(t, Header(false)) then ParseReportBody(false, t[|Header(false)|..])
    else None
  }

  /** Reads what follows the header of a report. */
  function ParseReportBody(healthy: bool, r0: string): Option<Report> {
    match ReadWordThen(r0, CheckedLine)
    case None => None
    case Some((service, r1)) =>
      match ReadWordThen(r1, ColumnGap)
      case None => None
      case Some((environment, r2)) =>
        var footer := Footer(healthy);
        if EndsWith(r2, footer) then
          Some(Report(healthy, service, environment, r2[..|r2| - |footer|]))
        else None
  }

  /** The header tells which way the report went. */
  lemma HeaderSelects(healthy: bool, rest: string)
    ensures StartsWith(Header(healthy) + rest, Header(true)) == healthy
    ensures StartsWith(Header(healthy) + rest, Header(healthy))
  {
    var t := Header(healthy) + rest;
    assert t[..|Header(healthy)|] == Header(healthy);
    if !healthy {
      assert t[4] == '⚠';
      assert Header(true)[4] == '🚀';
    }
  }

  lemma ReportBodyRoundTrip(healthy: bool, service: string, environment: string, shown: string)
    requires NoWhitespace(service) && NoWhitespace(environment)
    ensures ParseReportBody(healthy, ReportBody(healthy, service, environment, shown))
            == Some(Report(healthy, service, environment, shown))
  {
    var footer := Footer(healthy);
    var r2 := shown + footer;
    var r1 := environment + (ColumnGap + r2);
    assert CheckedLine[0] == ' ';
    ReadWordThenConcat(service, CheckedLine, r1);
    assert ColumnGap[0] == ' ';
    ReadWordThenConcat(environment, ColumnGap, r2);
    assert r2[|r2| - |footer|..] == footer;
    assert r2[..|r2| - |footer|] == shown;
  }

  /** A report built from its pieces reads back as those pieces. */
  lemma ReportRoundTrip(healthy: bool, service: string, environment: string, shown: string)
    ensures NoWhitespace(service) && NoWhitespace(environment) ==>
              ParseReport(Header(healthy) + ReportBody(healthy, service, environment, shown))
              == Some(Report(healthy, service, environment, shown))
  {
    if NoWhitespace(service) && NoWhitespace(environment) {
      var h := Header(healthy);
      var body := ReportBody(healthy, service, environment, shown);
      var t := h + body;
      HeaderSelects(healthy, body);
      assert t[|h|..] == body;
      assert ParseReport(t) == ParseReportBody(healthy, body);
      ReportBodyRoundTrip(healthy, service, environment, shown);
    }
  }

  /** What `ReadWordThen` reads is the word, the separator and the rest, in order. */
  lemma ReadWordThenInverse(t: string, sep: string)
    ensures var read := ReadWordThen(t, sep);
            read.Some? ==> t == read.value.0 + (sep + read.value.1)
  {
    var n := WordLength(t);
    if StartsWith(t[n..], sep) {
      assert t[n..] == t[n..][..|sep|] + t[n..][|sep|..];
      assert t[n..][|sep|..] == t[n + |sep|..];
      assert t == t[..n] + t[n..];
    }
  }

  /** A body that reads back is exactly the body built from what was read. */
  lemma ParseReportBodyInverse(healthy: bool, r0: string)
    ensures var read := ParseReportBody(healthy, r0);
            read.Some? ==>
              r0 == ReportBody(healthy, read.value.service, read.value.environment, read.value.shownStatus)
  {
    var read := ParseReportBody(healthy, r0);
    if read.Some? {
      ReadWordThenInverse(r0, CheckedLine);
      var r1 := ReadWordThen(r0, CheckedLine).value.1;
      ReadWordThenInverse(r1, ColumnGap);
      var r2 := ReadWordThen(r1, ColumnGap).value.1;
      var footer := Footer(healthy);
      assert r2 == r2[..|r2| - |footer|] + r2[|r2| - |footer|..];
    }
  }

  /** A text that reads back as a report is exactly that report's text. */
  lemma ParseReportInverse(t: string)
    ensures var read := ParseReport(t);
            read.Some? ==>
              t == Header(read.value.healthy)
                   + ReportBody(read.value.healthy, read.value.service, read.value.environment, read.value.shownStatus)
  {
    var read := ParseReport(t);
    if read.Some? {
      var healthy := StartsWith(t, Header(true));
      var h := Header(healthy);
      var r0 := t[|h|..];
      assert StartsWith(t, h) && read == ParseReportBody(healthy, r0);
      ParseReportBodyInverse(healthy, r0);
      PrefixThenRest(t, h);
    }
  }

  /**
   * Only `format_response`'s own text reads back as its report: the reader
   * pins the reply down character for character.
   */
  lemma ReportDeterminesText(t: string, service: string, environment: string, status: string)
    ensures ParseReport(t) == Some(Report(IsOk(status), service, environment, Upper(status))) ==>
              t == FormatResponse(service, environment, status)
  {
    ParseReportInverse(t);
  }

  /** What follows a word and its separator is a suffix of the input. */
  lemma ReadWordThenSuffix(t: string, sep: string)
    requires ReadWordThen(t, sep).Some?
    ensures var rest := ReadWordThen(t, sep).value.1;
            |rest| <= |t| && rest == t[|t| - |rest|..]
  {
  }

  /** Every report ends in a code fence. */
  lemma ReportEndsInFence(t: string)
    requires ParseReport(t).Some?
    ensures |t| > 0 && t[|t| - 1] == '`'
  {
    var healthy := StartsWith(t, Header(true));
    var r0 := t[|Header(healthy)|..];
    assert ParseReport(t) == ParseReportBody(healthy, r0);
    ReadWordThenSuffix(r0, CheckedLine);
    var r1 := ReadWordThen(r0, CheckedLine).value.1;
    ReadWordThenSuffix(r1, ColumnGap);
    var r2 := ReadWordThen(r1, ColumnGap).value.1;
    var footer := Footer(healthy);
    assert EndsWith(r2, footer);
    assert footer[|footer| - 1] == '`';
    assert r2[|r2| - 1] == '`';
    assert r1[|r1| - 1] == '`';
    assert r0[|r0| - 1] == '`';
  }

  /** Replies that are not reports never read as one, healthy or not. */
  lemma OtherRepliesAreNotReports(pick: nat)
    requires pick < |FunnyMessages|
    ensures ParseReport(FunnyMessages[pick]) == None
    ensures ParseReport(NotFoundMessage) == None
    ensures ParseReport(InvalidJsonMessage) == None
  {
    var t := FunnyMessages[pick];
    assert t[|t| - 1] != '`' by {
      if pick == 0 {} else if pick == 1 {} else if pick == 2 {} else if pick == 3 {} else if pick == 4 {}
      else if pick == 5 {} else if pick == 6 {} else if pick == 7 {} else if pick == 8 {} else {}
    }
    NotReportWithoutFence(t);
    NotReportWithoutFence(NotFoundMessage);
    NotReportWithoutFence(InvalidJsonMessage);
  }

  lemma NotReportWithoutFence(t: string)
    requires |t| == 0 || t[|t| - 1] != '`'
    ensures ParseReport(t) == None
  {
    if ParseReport(t).Some? {
      ReportEndsInFence(t);
    }
  }

  /**
   * `check_health`: `env` stands for the process environment and `web(url)`
   * for the outcome of a GET on `url`, decoded as `{"status": ...}`.
   */
  function CheckHealth(message: string, pick: nat, env: map<string, string>,
                       web: string -> HttpOutcome<string>): (run: ProbeRun)
    requires pick < |FunnyMessages|
    ensures run.reply.Err? <==> run.requested.Some? && web(run.requested.value).TransportFailed?
    ensures run.reply.Err? ==> run.reply.error == Transport
    ensures run.requested.Some? <==>
              var p := ParseMessage(message, pick);
              p.Ok? && UrlKey(p.value.service, p.value.environment) in env
    ensures run.requested.Some? ==>
              var p := ParseMessage(message, pick).value;
              run.requested.value == env[UrlKey(p.service, p.environment)]
  {
    match ParseMessage(message, pick)
    case Err(funny) => ProbeRun(None, Ok(funny))
    case Ok(parsed) =>
      var key := UrlKey(parsed.service, parsed.environment);
      if key !in env then ProbeRun(None, Ok(NotFoundMessage))
      else
        var url := env[key];
        var reply :=
          match web(url)
          case TransportFailed => Err(Transport)
          case Received(code, reason, decoded) =>
            if IsSuccess(code) then
              (match decoded
               case Some(status) => Ok(FormatResponse(parsed.service, parsed.environment, status))
               case None => Ok(InvalidJsonMessage))
            else Ok(FormatResponse(parsed.service, parsed.environment, StatusText(code, reason)));
        ProbeRun(Some(url), reply)
  }

  /** A malformed command gets a canned reply and no lookup or request. */
  lemma MalformedCommandReply(message: string, pick: nat, env: map<string, string>,
                              web: string -> HttpOutcome<string>)
    requires pick < |FunnyMessages|
    requires ParseMessage(message, pick).Err?
    ensures CheckHealth(message, pick, env, web) == ProbeRun(None, Ok(FunnyMessages[pick]))
  {
  }

  /** A missing URL variable gets the "not found" reply and no request. */
  lemma MissingKeyReply(message: string, pick: nat, env: map<string, string>,
                        web: string -> HttpOutcome<string>)
    requires pick < |FunnyMessages|
    requires ParseMessage(message, pick).Ok?
    requires var p := ParseMessage(message, pick).value; UrlKey(p.service, p.environment) !in env
    ensures CheckHealth(message, pick, env, web) == ProbeRun(None, Ok(NotFoundMessage))
  {
  }

  /** A decoded status is reported, healthy exactly when it is "ok". */
  lemma DecodedStatusReply(message: string, pick: nat, env: map<string, string>,
                           web: string -> HttpOutcome<string>, code: StatusCode, reason: string, status: string)
    requires pick < |FunnyMessages|
    requires ParseMessage(message, pick).Ok?
    requires var p := ParseMessage(message, pick).value;
             var key := UrlKey(p.service, p.environment);
             key in env && web(env[key]) == Received(code, reason, Some(status))
    requires IsSuccess(code)
    ensures var p := ParseMessage(message, pick).value;
            var reply := CheckHealth(message, pick, env, web).reply;
            reply.Ok? && ParseReport(reply.value) == Some(Report(IsOk(status), p.service, p.environment, Upper(status)))
  {
  }

  /** A success response without a decodable status gets the invalid-JSON reply. */
  lemma UndecodableReply(message: string, pick: nat, env: map<string, string>,
                         web: string -> HttpOutcome<string>, code: StatusCode, reason: string)
    requires pick < |FunnyMessages|
    requires ParseMessage(message, pick).Ok?
    requires var p := ParseMessage(message, pick).value;
             var key := UrlKey(p.service, p.environment);
             key in env && web(env[key]) == Received(code, reason, None)
    requires IsSuccess(code)
    ensures CheckHealth(message, pick, env, web).reply == Ok(InvalidJsonMessage)
  {
  }

  /** A non-success status is always reported as down, showing the status text. */
  lemma ErrorStatusReply(message: string, pick: nat, env: map<string, string>,
                            web: string -> HttpOutcome<string>, code: StatusCode, reason: string,
                            decoded: Option<string>)
    requires pick < |FunnyMessages|
    requires ParseMessage(message, pick).Ok?
    requires var p := ParseMessage(message, pick).value;
             var key := UrlKey(p.service, p.environment);
             key in env && web(env[key]) == Received(code, reason, decoded)
    requires !IsSuccess(code)
    ensures var p := ParseMessage(message, pick).value;
            var reply := CheckHealth(message, pick, env, web).reply;
            reply.Ok? &&
            ParseReport(reply.value) == Some(Report(false, p.service, p.environment, Upper(StatusText(code, reason))))
  {
  }

  /** `!health backend dev` against a healthy endpoint bound to `BACKEND_DEV_URL`. */
  lemma HealthyEndToEnd(url: string, pick: nat, web: string -> HttpOutcome<string>)
    requires pick < |FunnyMessages|
    requires web(url) == Received(200, "OK", Some("ok"))
    ensures var run := CheckHealth("!health backend dev", pick, map["BACKEND_DEV_URL" := url], web);
            run.requested == Some(url) &&
            run.reply.Ok? && ParseReport(run.reply.value) == Some(Report(true, "backend", "dev", "OK"))
  {
    var env := map["BACKEND_DEV_URL" := url];
    ParseBackendDev(pick);
    UrlKeyExample();
    assert UrlKey("backend", "dev") in env;
    DecodedStatusReply("!health backend dev", pick, env, web, 200, "OK", "ok");
    OkUpper();
  }

  lemma OkUpper()
    ensures IsOk("ok") && Upper("ok") == "OK"
  {
  }

  lemma ParseBackendDev(pick: nat)
    requires pick < |FunnyMessages|
    ensures ParseMessage("!health backend dev", pick) == Ok(ParsedData("backend", "dev"))
  {
    assert "!health backend dev" == "!health" + " " + "backend" + " " + "dev";
    ParseJoined("!health", "backend", "dev", pick);
  }
}
