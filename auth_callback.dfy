/** The sign-in callback component (`app/auth/callback/CallbackClient.tsx`):
    where it sends the browser after the identity provider returns.  No page
    of the application mounts it; the page served at `/auth/callback` is a
    separate component that ignores `next`.  The
    `next` parameter is accepted as the destination only when it is a path;
    the session is then established by the first flow that applies (a
    `code` to exchange, a session in the URL, an existing session), and any
    failure lands on the admin login page with the error in the query.

    The identity provider's answers are parameters; `encodeURIComponent`
    is written out over UTF-8. */
module AuthCallback {
  import opened Wrappers
  import opened JsText
  import opened JsErrors

  const DefaultNext: string := "/referidos/app"
  const LoginErrorPrefix: string := "/admin/login?error="
  const MissingCode: string := "/admin/login?error=missing_code"
  const UnexpectedMessage: string := "unexpected"

  // ---------------------------------------------------------------------------
  // encodeURIComponent

  predicate IsAsciiLetter(c: char) {
    ('a' <= c <= 'z') || ('A' <= c <= 'Z')
  }

  /** The characters `encodeURIComponent` leaves as they are. */
  predicate Unreserved(c: char) {
    IsAsciiLetter(c) || IsDigit(c) || c in "-_.!~*'()"
  }

  /** An upper-case hexadecimal digit. */
  function HexDigit(d: nat): (c: char)
    requires d < 16
    ensures Unreserved(c)
  {
    if d < 10 then ('0' as int + d) as char else ('A' as int + d - 10) as char
  }

  /** The UTF-8 encoding of one character. */
  function Utf8(c: char): (bytes: seq<nat>)
    ensures 1 <= |bytes| <= 4
    ensures forall i :: 0 <= i < |bytes| ==> bytes[i] < 256
    ensures |bytes| == 1 <==> (c as int) < 0x80
  {
    var n := c as int;
    if n < 0x80 then [n]
    else if n < 0x800 then [0xC0 + n / 64, 0x80 + n % 64]
    else if n < 0x10000 then [0xE0 + n / 4096, 0x80 + (n / 64) % 64, 0x80 + n % 64]
    else [0xF0 + n / 0x40000, 0x80 + (n / 4096) % 64, 0x80 + (n / 64) % 64, 0x80 + n % 64]
  }

  /** `%XY` for each byte. */
  function PercentBytes(bytes: seq<nat>): (r: string)
    requires forall i :: 0 <= i < |bytes| ==> bytes[i] < 256
    ensures |r| == 3 * |bytes|
    ensures forall i :: 0 <= i < |r| ==> Unreserved(r[i]) || r[i] == '%'
    decreases |bytes|
  {
    if bytes == [] then []
    else ['%', HexDigit(bytes[0] / 16), HexDigit(bytes[0] % 16)] + PercentBytes(bytes[1..])
  }

  /** `encodeURIComponent(s)`: unreserved characters stay, every other one
      becomes the percent-escapes of its UTF-8 bytes, so the result is
      made of unreserved characters and '%' alone, and a string that needs
      no escaping comes back unchanged. */
  function EncodeComponent(s: string): (r: string)
    ensures forall i :: 0 <= i < |r| ==> Unreserved(r[i]) || r[i] == '%'
    ensures (forall i :: 0 <= i < |s| ==> Unreserved(s[i])) ==> r == s
    ensures |r| >= |s|
    decreases |s|
  {
    if s == [] then []
    else if Unreserved(s[0]) then [s[0]] + EncodeComponent(s[1..])
    else PercentBytes(Utf8(s[0])) + EncodeComponent(s[1..])
  }

  /** An '@' becomes its percent-escape. */
  lemma EncodeAt(s: string)
    requires s == "@"
    ensures EncodeComponent(s) == "%40"
  {
    assert !Unreserved(s[0]) && s[1..] == [];
    assert Utf8(s[0]) == [64];
    assert PercentBytes([64]) == ['%', HexDigit(4), HexDigit(0)] + PercentBytes([]);
  }

  // ---------------------------------------------------------------------------
  // safeNext

  /** `s` without the tab and newline characters the URL parser drops. */
  function DropTabNewline(s: string): (r: string)
    ensures |r| <= |s|
    decreases |s|
  {
    if s == [] then []
    else if s[0] in "\t\n\r" then DropTabNewline(s[1..])
    else [s[0]] + DropTabNewline(s[1..])
  }

  /** A string whose first two characters are neither tabs nor newlines
      keeps them in front. */
  lemma HeadsKept(s: string)
    requires |s| >= 2 && s[0] !in "\t\n\r" && s[1] !in "\t\n\r"
    ensures var u := DropTabNewline(s); |u| >= 2 && u[0] == s[0] && u[1] == s[1]
  {
    assert s[1..][1..] == s[2..];
    assert DropTabNewline(s) == [s[0]] + ([s[1]] + DropTabNewline(s[2..]));
  }

  /** A destination the browser resolves against another host: after the
      URL parser drops tabs and newlines it starts with two slashes, either
      way round (backslashes count as slashes in web URLs). */
  predicate LeavesOrigin(target: string) {
    var u := DropTabNewline(target);
    |u| >= 2 && u[0] in "/\\" && u[1] in "/\\"
  }

  /** `safeNext` as written: any `next` that starts with '/' is taken,
      otherwise the portal. */
  function SafeNextAsWritten(next: Option<string>): (r: string)
    ensures StartsWith(r, "/")
    ensures next.Some? && StartsWith(next.value, "/") ==> r == next.value
    ensures !(next.Some? && StartsWith(next.value, "/")) ==> r == DefaultNext
  {
    if next.Some? && next.value != "" && StartsWith(next.value, "/") then next.value else DefaultNext
  }

  /** A protocol-relative `next` passes the check and sends the browser to
      another site. */
  lemma SafeNextOpenRedirect(next: string)
    requires next == "//evil.example"
    ensures SafeNextAsWritten(Some(next)) == next
    ensures LeavesOrigin(SafeNextAsWritten(Some(next)))
  {
    HeadsKept(next);
  }

  /** `safeNext` with the missing check: a path that the browser would read
      as another host falls back to the portal as well. */
  function SafeNext(next: Option<string>): (r: string)
    ensures StartsWith(r, "/") && !LeavesOrigin(r)
    ensures next.Some? && StartsWith(next.value, "/") && !LeavesOrigin(next.value) ==> r == next.value
    ensures (next.Some? && r == next.value) || r == DefaultNext
    ensures next.None? ==> r == DefaultNext
  {
    HeadsKept(DefaultNext);
    if next.Some? && StartsWith(next.value, "/") && !LeavesOrigin(next.value) then next.value else DefaultNext
  }

  /** The two agree on every destination that stays on the site. */
  lemma SafeNextAgrees(next: Option<string>)
    requires !LeavesOrigin(SafeNextAsWritten(next))
    ensures SafeNext(next) == SafeNextAsWritten(next)
  {
  }

  // ---------------------------------------------------------------------------
  // run

  /** How an awaited call ended. */
  datatype Call<T> = Done(value: T) | Raised(thrown: Thrown)

  /** `getSessionFromUrl`'s answer: its error message, if any, and whether
      it found a session. */
  datatype UrlSession = UrlSession(error: Option<string>, hasSession: bool)

  /** The identity provider's answers: the code exchange (its error message,
      if any), `getSessionFromUrl` (`None` when the client has no such
      function) and `getSession` (whether a session exists). */
  datatype Answers = Answers(exchange: Call<Option<string>>, fromUrl: Option<Call<UrlSession>>, existing: Call<bool>)

  /** `e instanceof Error ? e.message : "unexpected"`. */
  function ThrownMessage(t: Thrown): string {
    MessageOr(t, UnexpectedMessage)
  }

  /** `/admin/login?error=${encodeURIComponent(msg)}`. */
  function LoginError(msg: string): (r: string)
    ensures StartsWith(r, LoginErrorPrefix)
  {
    LoginErrorPrefix + EncodeComponent(msg)
  }

  /** The fallbacks tried when there is no code: the session in the URL,
      then an existing session. */
  function Fallbacks(next: string, a: Answers): string {
    var existing :=
      match a.existing
      case Raised(t) => LoginError(ThrownMessage(t))
      case Done(has) => if has then next else MissingCode;
    match a.fromUrl
    case None => existing
    case Some(Raised(t)) => LoginError(ThrownMessage(t))
    case Some(Done(u)) =>
      if u.error.Some? then LoginError(u.error.value)
      else if u.hasSession then next
      else existing
  }

  /** Where `run` sends the browser, for the `code` parameter and the
      destination `next`. */
  function Run(code: Option<string>, next: string, a: Answers): (target: string)
    ensures target == next || StartsWith(target, LoginErrorPrefix)
  {
    if code.Some? && code.value != "" then
      match a.exchange
      case Raised(t) => LoginError(ThrownMessage(t))
      case Done(err) => if err.Some? then LoginError(err.value) else next
    else Fallbacks(next, a)
  }

  /** With a code, only the exchange decides: an error goes to the login
      page with its message, success to `next`, and nothing after it is
      consulted. */
  lemma CodeDecides(code: string, next: string, a: Answers, b: Answers)
    requires code != "" && a.exchange == b.exchange
    ensures Run(Some(code), next, a) == Run(Some(code), next, b)
    ensures a.exchange == Done(None) ==> Run(Some(code), next, a) == next
    ensures a.exchange.Done? && a.exchange.value.Some? ==> Run(Some(code), next, a) == LoginError(a.exchange.value.value)
    ensures a.exchange.Raised? ==> Run(Some(code), next, a) == LoginError(ThrownMessage(a.exchange.thrown))
  {
  }

  /** Without a code the flows run in order: a session in the URL, then an
      existing one; with neither, the login page reports the missing code.
      The exchange is never consulted. */
  lemma NoCodeOrder(code: Option<string>, next: string, a: Answers)
    requires code.None? || code.value == ""
    ensures a.fromUrl == Some(Done(UrlSession(None, true))) ==> Run(code, next, a) == next
    ensures a.fromUrl.Some? && a.fromUrl.value.Done? && a.fromUrl.value.value.error.Some? ==>
      Run(code, next, a) == LoginError(a.fromUrl.value.value.error.value)
    ensures (a.fromUrl.None? || a.fromUrl == Some(Done(UrlSession(None, false)))) ==>
      Run(code, next, a) == (match a.existing case Raised(t) => LoginError(ThrownMessage(t)) case Done(has) => if has then next else MissingCode)
  {
  }

  /** The page always lands on this site: on the corrected `next`, or on
      the login page. */
  lemma CallbackStaysOnSite(code: Option<string>, nextParam: Option<string>, a: Answers)
    ensures !LeavesOrigin(Run(code, SafeNext(nextParam), a))
  {
    var t := Run(code, SafeNext(nextParam), a);
    if t != SafeNext(nextParam) {
      LoginPageStays(t);
    }
  }

  /** Nothing under the login page's path leaves the site. */
  lemma LoginPageStays(t: string)
    requires StartsWith(t, LoginErrorPrefix)
    ensures !LeavesOrigin(t)
  {
    assert t[..|LoginErrorPrefix|] == LoginErrorPrefix;
    assert t[0] == '/' && t[1] == 'a';
    HeadsKept(t);
  }

  /** With the check as written, wherever `CallbackClient` is mounted, a
      successful code exchange carrying `next=//evil.example` ends on
      another site. */
  lemma CallbackOpenRedirect(code: string, a: Answers)
    requires code != "" && a.exchange == Done(None)
    ensures Run(Some(code), SafeNextAsWritten(Some("//evil.example")), a) == "//evil.example"
    ensures LeavesOrigin(Run(Some(code), SafeNextAsWritten(Some("//evil.example")), a))
  {
    SafeNextOpenRedirect("//evil.example");
  }
}
