/**
 * The catch block of `callChatGPT` (src/App.tsx:44-55): a failed exchange
 * becomes the single line of text shown in the error banner. Three cases,
 * tested in order: the server answered, a request left but nothing came
 * back, or the request could not be made at all.
 */
module Errors {
  import opened Wrappers
  import opened Text

  /** `error.response`: the status line and, when the body carries one,
      `data.error.message`. */
  datatype HttpResponse = HttpResponse(status: nat, statusText: string, errorMessage: Option<string>)

  /** The caught value: `response` when the server answered, `requestSent`
      when `error.request` is set, and `message` (always present). */
  datatype Failure = Failure(response: Option<HttpResponse>, requestSent: bool, message: string)

  const NoResponseMessage: string := "Error: No response received from the server."

  /** The reason shown after the status code: the server's own error message,
      unless it is absent or empty (falsy), in which case the status text. */
  function Reason(resp: HttpResponse): string
  {
    match resp.errorMessage
    case Some(m) => if m != "" then m else resp.statusText
    case None => resp.statusText
  }

  /** The banner text for a failure. Whatever failed, the banner is non-empty
      (so it is displayed), and only a server answer produces a `Status:`
      line. Without an answer, a request that left gives the fixed
      no-response text whatever the failure's own message, and a request that
      could not be made gives `Error: ` followed by that message. */
  function Describe(f: Failure): (msg: string)
    ensures |msg| >= 7
    ensures f.response.None? ==> msg[..7] == "Error: "
    ensures f.response.Some? ==> |msg| >= 8 && msg[..8] == "Status: "
    ensures f.response.None? && f.requestSent ==> msg == NoResponseMessage
    ensures f.response.None? && !f.requestSent ==> msg == "Error: " + f.message
  {
    match f.response
    case Some(resp) => "Status: " + Decimal(resp.status) + " - " + Reason(resp)
    case None =>
      if f.requestSent then
        assert NoResponseMessage == "Error: " + NoResponseMessage[7..];
        NoResponseMessage
      else "Error: " + f.message
  }

  /** What a `Status:` banner says: the status code and the reason shown. */
  datatype ServerReport = ServerReport(status: nat, reason: string)

  /** Reads a banner of the form `Status: <digits> - <reason>` back; the
      digits are a decimal rendering, so a leading zero is refused. */
  function ParseServerError(msg: string): Option<ServerReport>
  {
    if |msg| < 8 || msg[..8] != "Status: " then None
    else
      var rest := msg[8..];
      var n := LeadingDigits(rest);
      if n == 0 || (n > 1 && rest[0] == '0') || |rest| < n + 3 || rest[n..n + 3] != " - " then None
      else Some(ServerReport(DigitsValue(rest[..n]), rest[n + 3..]))
  }

  /** The banner determines whether the server answered, and if it did, the
      status code and the reason it gave: the server's own message unless it
      is absent or empty (falsy for `||`), otherwise the status text. */
  lemma DescribeRoundTrip(f: Failure)
    ensures f.response.None? ==> ParseServerError(Describe(f)) == None
    ensures f.response.Some? ==>
      var r := f.response.value;
      ParseServerError(Describe(f)) == Some(ServerReport(r.status,
        if r.errorMessage.Some? && r.errorMessage.value != "" then r.errorMessage.value else r.statusText))
  {
    if f.response.Some? {
      var resp := f.response.value;
      var d := Decimal(resp.status);
      var msg := Describe(f);
      var rest := msg[8..];
      assert rest == d + (" - " + Reason(resp));
      LeadingDigitsOfPrefix(d, " - " + Reason(resp));
      assert rest[..|d|] == d;
      assert rest[0] == d[0];
      assert rest[|d|..|d| + 3] == " - ";
      assert rest[|d| + 3..] == Reason(resp);
      DecimalRoundTrip(resp.status);
    } else {
      assert Describe(f)[0] == 'E';
    }
  }
}
