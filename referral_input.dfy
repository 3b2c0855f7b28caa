/** The input normalisers and validators of the referral-creation route
    (`app/api/referrals/create/route.ts`): e-mail, Peruvian mobile number,
    Peruvian DNI and campaign-tracking fields.  All are total. */
module ReferralInput {
  import opened Wrappers
  import opened JsText
  import opened JsValue

  /** `normalizeEmail`: `String(v ?? "")`, trimmed and lower-cased; "" becomes null. */
  function NormalizeEmail(v: Value): (r: Option<string>)
    ensures r.None? <==> IsBlank(StringOrEmpty(v))
    ensures r.Some? ==> r.value == Lower(Trim(StringOrEmpty(v))) && r.value != ""
  {
    var t := Lower(Trim(StringOrEmpty(v)));
    if t == "" then None else Some(t)
  }

  /** A normalised e-mail normalises to itself. */
  lemma NormalizeEmailIdempotent(v: Value)
    requires NormalizeEmail(v).Some?
    ensures NormalizeEmail(Str(NormalizeEmail(v).value)) == NormalizeEmail(v)
  {
    var t := Trim(StringOrEmpty(v));
    var e := Lower(t);
    assert NormalizeEmail(v).value == e;
    LowerKeepsNoEdge(t);
    TrimNoEdge(e);
    LowerIdempotent(t);
    assert Lower(Trim(StringOrEmpty(Str(e)))) == e;
  }

  // ---------------------------------------------------------------------------
  // isEmail: the length and ".." checks, then
  //   /^[a-z0-9.!#$%&'*+/=?^_`{|}~-]+@[a-z0-9-]+(?:\.[a-z0-9-]+)*\.[a-z]{2,}$/i

  predicate IsAsciiLetter(c: char) {
    ('a' <= c <= 'z') || ('A' <= c <= 'Z')
  }

  predicate IsLocalChar(c: char) {
    IsAsciiLetter(c) || IsDigit(c) || c in ".!#$%&'*+/=?^_`{|}~-"
  }

  predicate IsLabelChar(c: char) {
    IsAsciiLetter(c) || IsDigit(c) || c == '-'
  }

  /** `[a-z0-9.!#$%&'*+/=?^_`{|}~-]+` */
  predicate LocalPart(s: string) {
    s != [] && forall i :: 0 <= i < |s| ==> IsLocalChar(s[i])
  }

  /** `[a-z0-9-]+(?:\.[a-z0-9-]+)*`: non-empty labels separated by single dots. */
  predicate DottedLabels(s: string) {
    && s != [] && s[0] != '.' && s[|s| - 1] != '.'
    && (forall i :: 0 <= i < |s| ==> IsLabelChar(s[i]) || s[i] == '.')
    && (forall i :: 0 <= i < |s| - 1 && s[i] == '.' ==> s[i + 1] != '.')
  }

  /** `[a-z]{2,}` */
  predicate TopLevel(s: string) {
    |s| >= 2 && forall i :: 0 <= i < |s| ==> IsAsciiLetter(s[i])
  }

  /** The domain: dotted labels, a dot, and a top-level segment. */
  predicate DomainPart(d: string) {
    exists p :: 0 < p < |d| && d[p] == '.' && DottedLabels(d[..p]) && TopLevel(d[p + 1..])
  }

  /** The whole regular expression of `isEmail`. */
  predicate EmailPattern(s: string) {
    exists at :: 0 <= at < |s| && s[at] == '@' && LocalPart(s[..at]) && DomainPart(s[at + 1..])
  }

  /** `isEmail(val)`. */
  predicate IsEmail(v: string) {
    if v == "" then false
    else if |v| > 254 then false
    else if Contains(v, "..") then false
    else EmailPattern(v)
  }

  /** What `isEmail` rejects before it tries the pattern. */
  lemma IsEmailRejects(v: string)
    ensures v == "" ==> !IsEmail(v)
    ensures |v| > 254 ==> !IsEmail(v)
    ensures Contains(v, "..") ==> !IsEmail(v)
  {
  }

  /** An address `isEmail` accepts has exactly one '@'. */
  lemma EmailSingleAt(v: string, i: nat, j: nat)
    requires IsEmail(v)
    requires i < |v| && j < |v| && v[i] == '@' && v[j] == '@'
    ensures i == j
  {
    var at :| 0 <= at < |v| && v[at] == '@' && LocalPart(v[..at]) && DomainPart(v[at + 1..]);
    NoAtOutside(v, at, i);
    NoAtOutside(v, at, j);
  }

  lemma NoAtOutside(v: string, at: nat, i: nat)
    requires at < |v| && LocalPart(v[..at]) && DomainPart(v[at + 1..])
    requires i < |v| && v[i] == '@'
    ensures i == at
  {
  }

  /** An ordinary address passes the check. */
  lemma EmailAccepted(v: string)
    requires v == "ana.lopez" + "@" + "example.com"
    ensures IsEmail(v)
  {
    ExampleNoDoubleDot(v);
    ExamplePattern(v);
  }

  lemma ExampleNoDoubleDot(v: string)
    requires v == "ana.lopez" + "@" + "example.com"
    ensures !Contains(v, "..")
  {
    forall i | 0 <= i < |v| - 1
      ensures !(v[i] == '.' && v[i + 1] == '.')
    {
    }
    NoDoubleDotIn(v);
  }

  lemma ExamplePattern(v: string)
    requires v == "ana.lopez" + "@" + "example.com"
    ensures EmailPattern(v)
  {
    ExampleLocal();
    ExampleDomain();
    PatternOfParts("ana.lopez", "example.com");
  }

  lemma ExampleLocal()
    ensures LocalPart("ana.lopez")
  {
  }

  lemma ExampleDomain()
    ensures DomainPart("example.com")
  {
    assert DottedLabels("example");
    assert TopLevel("com");
    DomainOfParts("example", "com");
    assert "example" + "." + "com" == "example.com";
  }

  /** A local part, '@' and a domain make an address of the pattern. */
  lemma PatternOfParts(local: string, domain: string)
    requires LocalPart(local) && DomainPart(domain)
    ensures EmailPattern(local + "@" + domain)
  {
    var s := local + "@" + domain;
    var at := |local|;
    assert s[at] == '@' && s[..at] == local && s[at + 1..] == domain;
  }

  /** Dotted labels, a dot and a top-level segment make a domain. */
  lemma DomainOfParts(labels: string, top: string)
    requires DottedLabels(labels) && TopLevel(top)
    ensures DomainPart(labels + "." + top)
  {
    var d := labels + "." + top;
    var p := |labels|;
    assert d[p] == '.' && d[..p] == labels && d[p + 1..] == top;
  }

  /** A one-letter top-level segment fails the pattern. */
  lemma ShortTopLevelRejected()
    ensures !IsEmail("a@b.c")
  {
    var s := "a@b.c";
    forall at | 0 <= at < |s| && s[at] == '@' && LocalPart(s[..at])
      ensures !DomainPart(s[at + 1..])
    {
      assert at == 1;
      var d := s[2..];
      assert d == "b.c";
      forall p | 0 < p < |d| && d[p] == '.'
        ensures !TopLevel(d[p + 1..])
      {
        assert p == 1;
        assert |d[p + 1..]| == 1;
      }
    }
  }

  /** Two consecutive dots fail the check even where the pattern would allow them. */
  lemma DoubleDotRejected()
    ensures !IsEmail("ana..lopez@example.com")
  {
    ContainsAt("ana..lopez@example.com", "..", 3);
  }

  /** A string with no two adjacent dots does not contain "..". */
  lemma {:induction false} NoDoubleDotIn(s: string)
    requires forall i :: 0 <= i < |s| - 1 ==> !(s[i] == '.' && s[i + 1] == '.')
    ensures !Contains(s, "..")
    decreases |s|
  {
    if |s| > 0 {
      assert !StartsWith(s, "..") by {
        if |s| >= 2 {
          assert !(s[0] == '.' && s[1] == '.');
        }
      }
      NoDoubleDotIn(s[1..]);
    }
  }

  // ---------------------------------------------------------------------------
  // Phone and DNI

  /** `/^\d{n}$/` */
  predicate ExactDigits(s: string, n: nat) {
    |s| == n && AllDigits(s)
  }

  /** `normalizePhone`: digits only, at most nine of them. */
  function NormalizePhone(s: string): (r: string)
    ensures AllDigits(r) && |r| <= 9
  {
    Take(Digits(s), 9)
  }

  /** `isPeMobile9`. */
  predicate IsPeMobile9(s: string) {
    ExactDigits(NormalizePhone(s), 9)
  }

  lemma NormalizePhoneIdempotent(s: string)
    ensures NormalizePhone(NormalizePhone(s)) == NormalizePhone(s)
  {
    DigitsOfDigits(NormalizePhone(s));
  }

  /** A number is a valid mobile exactly when it normalises to nine digits,
      which happens exactly when it has at least nine digits. */
  lemma IsPeMobile9Iff(s: string)
    ensures IsPeMobile9(s) <==> |NormalizePhone(s)| == 9
    ensures IsPeMobile9(s) <==> |Digits(s)| >= 9
    ensures IsPeMobile9(NormalizePhone(s)) <==> IsPeMobile9(s)
  {
    NormalizePhoneIdempotent(s);
  }

  /** `normalizeDni`: `String(v ?? "")`, digits only, at most eight of them. */
  function NormalizeDni(v: Value): (r: string)
    ensures AllDigits(r) && |r| <= 8
  {
    Take(Digits(StringOrEmpty(v)), 8)
  }

  /** `isPeDni8`. */
  predicate IsPeDni8(s: string) {
    ExactDigits(NormalizeDni(Str(s)), 8)
  }

  lemma NormalizeDniIdempotent(v: Value)
    ensures NormalizeDni(Str(NormalizeDni(v))) == NormalizeDni(v)
  {
    DigitsOfDigits(NormalizeDni(v));
  }

  lemma IsPeDni8Iff(s: string)
    ensures IsPeDni8(s) <==> |NormalizeDni(Str(s))| == 8
    ensures IsPeDni8(s) <==> |Digits(s)| >= 8
  {
  }

  // ---------------------------------------------------------------------------
  // Tracking fields

  /** `cleanTrack(val, max)`: only a non-blank string survives, trimmed and cut
      to `max` characters. */
  function CleanTrack(v: Value, max: nat): (r: Option<string>)
    ensures r.None? <==> !v.Str? || IsBlank(v.s)
    ensures r.Some? ==> |r.value| == (if |Trim(v.s)| <= max then |Trim(v.s)| else max)
    ensures r.Some? ==> StartsWith(Trim(v.s), r.value)
    ensures r.Some? && max > 0 ==> r.value != ""
    ensures r.Some? && |Trim(v.s)| <= max ==> r.value == Trim(v.s)
  {
    if !v.Str? then None
    else
      var t := Trim(v.s);
      if t == "" then None else Some(Take(t, max))
  }
}
