/**
 * The slice of an HTTP exchange the bot looks at. A GET either fails at the
 * transport level (DNS, connect, TLS) or yields a status code and, when the
 * body could be read and deserialized into the expected shape, the decoded
 * value. JSON decoding itself is not modelled: `decoded` is its outcome.
 */
module Http {
  import opened Wrappers
  import opened Text

  /** The `http` crate's `StatusCode`: a three-digit code. */
  type StatusCode = c: int | 100 <= c <= 999 witness 200

  /** `StatusCode::is_success`. */
  predicate IsSuccess(code: StatusCode) {
    200 <= code <= 299
  }

  /** The statuses `Response::error_for_status` turns into an error. */
  predicate IsClientOrServerError(code: StatusCode) {
    400 <= code <= 599
  }

  /**
   * `reason` is the canonical reason phrase the `http` crate's table gives
   * for `code` ("Internal Server Error" for 500, "<unknown status code>" for
   * a code outside the table), not the phrase the server sent: the crate's
   * `Display` ignores the latter.
   */
  datatype HttpOutcome<T> =
    | TransportFailed
    | Received(code: StatusCode, reason: string, decoded: Option<T>)

  /** The `reqwest::Error` cases the bot can meet. */
  datatype RequestError =
    | Transport
    | BadStatus(code: StatusCode)
    | Undecodable

  /**
   * A probe of one endpoint: the URL it requested (None when the handler
   * returned before any request) and its result.
   */
  datatype ProbeRun = ProbeRun(requested: Option<string>, reply: Result<string, RequestError>)

  function DigitChar(d: int): char
    requires 0 <= d <= 9
  {
    "0123456789"[d]
  }

  function DigitValue(c: char): int {
    c as int - '0' as int
  }

  /** The decimal rendering of a status code. */
  function CodeDigits(code: StatusCode): (r: string)
    ensures |r| == 3
    ensures forall i :: 0 <= i < 3 ==> '0' <= r[i] <= '9'
  {
    var hundreds := code / 100;
    var tens := (code - 100 * hundreds) / 10;
    [DigitChar(hundreds), DigitChar(tens), DigitChar(code - 100 * hundreds - 10 * tens)]
  }

  lemma DigitRoundTrip(d: int)
    requires 0 <= d <= 9
    ensures DigitValue(DigitChar(d)) == d
  {
  }

  /** Reading the three digits back gives the code. */
  lemma CodeDigitsRoundTrip(code: StatusCode)
    ensures var r := CodeDigits(code);
            100 * DigitValue(r[0]) + 10 * DigitValue(r[1]) + DigitValue(r[2]) == code
  {
    var hundreds := code / 100;
    var tens := (code - 100 * hundreds) / 10;
    DigitRoundTrip(hundreds);
    DigitRoundTrip(tens);
    var units := code - 100 * hundreds - 10 * tens;
    DigitRoundTrip(units);
    assert CodeDigits(code) == [DigitChar(hundreds), DigitChar(tens), DigitChar(units)];
  }

  /**
   * `StatusCode`'s `Display`: the code, a space, then the canonical reason.
   * The code reads back from the first three characters, and the text never
   * lower-cases to "ok", so the health checkers never take it for a healthy
   * status.
   */
  function StatusText(code: StatusCode, reason: string): (r: string)
    ensures |r| == 4 + |reason| && r[3] == ' '
    ensures 100 * DigitValue(r[0]) + 10 * DigitValue(r[1]) + DigitValue(r[2]) == code
    ensures !IsOk(r)
  {
    CodeDigitsRoundTrip(code);
    var r := CodeDigits(code) + " " + reason;
    assert |Lower(r)| > 2;
    r
  }
}
