/** The text helpers of the admin page (`app/admin/page.tsx`) that turn a
    row into the words the table and the CSV export show: the status label,
    the yes/no column and the referrer's display name. */
module AdminFormat {
  import opened Wrappers
  import opened JsText

  const Dash: string := "—"
  const Yes: string := "Sí"
  const No: string := "No"

  /** `STATUS_LABEL[status]`; a status outside the record reads as
      `undefined`, which the CSV writes as "". */
  function StatusLabel(status: string): string {
    if status == "registered" then "Registrado"
    else if status == "contacted" then "Contactado"
    else if status == "quoted" then "Cotización"
    else if status == "contracted" then "Contratado"
    else ""
  }

  /** `formatYesNo`: a dash unless the value is a boolean. */
  function FormatYesNo(v: Option<bool>): (r: string)
    ensures r == Dash <==> v.None?
    ensures v == Some(true) <==> r == Yes
    ensures v == Some(false) <==> r == No
  {
    match v
    case None => Dash
    case Some(b) => if b then Yes else No
  }

  // ---------------------------------------------------------------------------
  // Collapsing runs: `replace(/[._-]+/g, " ")` and `replace(/\s+/g, " ")`

  /** The two character classes whose runs `prettyNameFallback` collapses. */
  datatype RunClass = Separators | Spaces

  predicate InRun(k: RunClass, c: char) {
    match k
    case Separators => c == '.' || c == '_' || c == '-'
    case Spaces => IsSpace(c)
  }

  /** `s` without its leading run of class `k`. */
  function SkipRun(s: string, k: RunClass): (r: string)
    ensures |r| <= |s|
    ensures r != [] ==> !InRun(k, r[0])
    ensures forall c :: c in r ==> c in s
    decreases |s|
  {
    if s != [] && InRun(k, s[0]) then SkipRun(s[1..], k) else s
  }

  /** Every maximal run of class `k` replaced by one space. */
  function Collapse(s: string, k: RunClass): (r: string)
    ensures r == [] <==> s == []
    ensures r != [] ==> r[0] == if InRun(k, s[0]) then ' ' else s[0]
    decreases |s|
  {
    if s == [] then []
    else if InRun(k, s[0]) then " " + Collapse(SkipRun(s[1..], k), k)
    else [s[0]] + Collapse(s[1..], k)
  }

  /** After collapsing, a character of the class is a space, two of them
      never stand side by side, and every other character came from `s`. */
  lemma {:induction false} CollapseShape(s: string, k: RunClass)
    ensures var r := Collapse(s, k);
      && (forall i :: 0 <= i < |r| && InRun(k, r[i]) ==> r[i] == ' ')
      && (forall i :: 0 <= i < |r| - 1 ==> !(InRun(k, r[i]) && InRun(k, r[i + 1])))
      && (forall c :: c in r ==> c == ' ' || (c in s && !InRun(k, c)))
    decreases |s|
  {
    if s != [] {
      var r := Collapse(s, k);
      var t := if InRun(k, s[0]) then SkipRun(s[1..], k) else s[1..];
      CollapseShape(t, k);
      var rt := Collapse(t, k);
      assert r == [r[0]] + rt;
      if InRun(k, s[0]) {
        assert rt != [] ==> !InRun(k, rt[0]);
      } else {
        assert rt != [] ==> rt[0] == s[1] || rt[0] == ' ';
        forall i | 0 <= i < |r| - 1
          ensures !(InRun(k, r[i]) && InRun(k, r[i + 1]))
        {
          if i > 0 {
            assert r[i] == rt[i - 1] && r[i + 1] == rt[i];
          }
        }
      }
      forall c | c in r
        ensures c == ' ' || (c in s && !InRun(k, c))
      {
        if c != r[0] {
          assert c in rt;
        }
      }
    }
  }

  /** The regular expression read one character at a time: a character of
      the class right after another one is dropped, the first of a run
      becomes a space, and every other character is kept.  `inRun` says
      whether the previous character was of the class. */
  function Scan(s: string, k: RunClass, inRun: bool): string
    decreases |s|
  {
    if s == [] then []
    else if InRun(k, s[0]) then (if inRun then "" else " ") + Scan(s[1..], k, true)
    else [s[0]] + Scan(s[1..], k, false)
  }

  /** After a character of the class, the rest of its run adds nothing. */
  lemma {:induction false} ScanSkip(s: string, k: RunClass)
    ensures Scan(s, k, true) == Scan(SkipRun(s, k), k, false)
    decreases |s|
  {
    if s != [] && InRun(k, s[0]) {
      ScanSkip(s[1..], k);
    }
  }

  /** `Collapse` is the left-to-right reading of `replace(/[._-]+/g, " ")`
      and `replace(/\s+/g, " ")`: every maximal run becomes exactly one
      space, and every character outside a run is kept in place. */
  lemma {:induction false} CollapseIsScan(s: string, k: RunClass)
    ensures Collapse(s, k) == Scan(s, k, false)
    decreases |s|
  {
    if s != [] {
      if InRun(k, s[0]) {
        CollapseIsScan(SkipRun(s[1..], k), k);
        ScanSkip(s[1..], k);
      } else {
        CollapseIsScan(s[1..], k);
      }
    }
  }

  /** `s` without the characters of the class and without spaces. */
  function Strip(s: string, k: RunClass): string
    decreases |s|
  {
    if s == [] then []
    else (if InRun(k, s[0]) || s[0] == ' ' then "" else [s[0]]) + Strip(s[1..], k)
  }

  lemma {:induction false} StripSkip(s: string, k: RunClass)
    ensures Strip(SkipRun(s, k), k) == Strip(s, k)
    decreases |s|
  {
    if s != [] && InRun(k, s[0]) {
      StripSkip(s[1..], k);
    }
  }

  /** Collapsing changes nothing but the runs and the spaces: the other
      characters are kept, in order. */
  lemma {:induction false} CollapseKeepsText(s: string, k: RunClass)
    ensures Strip(Collapse(s, k), k) == Strip(s, k)
    decreases |s|
  {
    if s != [] {
      var r := Collapse(s, k);
      if InRun(k, s[0]) {
        var t := SkipRun(s[1..], k);
        CollapseKeepsText(t, k);
        StripSkip(s[1..], k);
        assert r == " " + Collapse(t, k);
        assert r[1..] == Collapse(t, k);
      } else {
        CollapseKeepsText(s[1..], k);
        assert r[1..] == Collapse(s[1..], k);
      }
    }
  }

  /** Only plain spaces, never two in a row. */
  predicate PlainSpaces(s: string) {
    && (forall i :: 0 <= i < |s| && IsSpace(s[i]) ==> s[i] == ' ')
    && (forall i :: 0 <= i < |s| - 1 ==> !(s[i] == ' ' && s[i + 1] == ' '))
  }

  /** The spacing of a cleaned name: no space at the ends, only plain spaces
      inside and never two in a row. */
  predicate WellSpaced(s: string) {
    NoEdgeSpace(s) && PlainSpaces(s)
  }

  /** A piece of a plainly spaced string is plainly spaced. */
  lemma PlainSpacesSlice(s: string, lo: nat, hi: nat)
    requires lo <= hi <= |s| && PlainSpaces(s)
    ensures PlainSpaces(s[lo..hi])
    ensures forall c :: c in s[lo..hi] ==> c in s
  {
    var t := s[lo..hi];
    forall i | 0 <= i < |t| - 1
      ensures !(t[i] == ' ' && t[i + 1] == ' ')
    {
      assert t[i] == s[lo + i] && t[i + 1] == s[lo + i + 1];
    }
    forall c | c in t
      ensures c in s
    {
      var i :| 0 <= i < |t| && t[i] == c;
      assert s[lo + i] == c;
    }
  }

  /** The trimmed string is a piece of the untrimmed one. */
  lemma TrimIsSlice(s: string) returns (lo: nat)
    ensures lo + |Trim(s)| <= |s| && Trim(s) == s[lo..lo + |Trim(s)|]
  {
    var front, back := TrimSplit(s);
    lo := |front|;
    assert s == front + Trim(s) + back;
    assert s[lo..lo + |Trim(s)|] == Trim(s);
  }

  /** `local.replace(/[._-]+/g, " ").replace(/\s+/g, " ").trim()`. */
  function Clean(local: string): string {
    Trim(Collapse(Collapse(local, Separators), Spaces))
  }

  /** The cleaned local part is well spaced, has no separator and keeps only
      characters of `local` besides spaces. */
  lemma CleanShape(local: string)
    ensures var r := Clean(local);
      && WellSpaced(r)
      && (forall c :: c in r ==> c == ' ' || (c in local && !InRun(Separators, c)))
  {
    var a := Collapse(local, Separators);
    var b := Collapse(a, Spaces);
    CollapseShape(local, Separators);
    CollapseShape(a, Spaces);
    assert PlainSpaces(b);
    var lo := TrimIsSlice(b);
    PlainSpacesSlice(b, lo, lo + |Trim(b)|);
  }

  // ---------------------------------------------------------------------------
  // Light title case: `split(" ").map(w => w ? w[0].toUpperCase() + w.slice(1) : w).join(" ")`

  function Capitalize(w: string): (r: string)
    ensures |r| == |w|
  {
    if w == [] then w else [UpperChar(w[0])] + w[1..]
  }

  function CapitalizeAll(ws: seq<string>): (r: seq<string>)
    ensures |r| == |ws|
    decreases |ws|
  {
    if ws == [] then [] else [Capitalize(ws[0])] + CapitalizeAll(ws[1..])
  }

  function CapitalizeWords(s: string): string {
    Join(CapitalizeAll(Split(s, ' ')), " ")
  }

  /** Title case leaves every character where it was and upper-cases the
      first one and each one that follows a space. */
  lemma {:induction false} CapitalizeWordsPointwise(s: string)
    ensures var r := CapitalizeWords(s);
      && |r| == |s|
      && forall j :: 0 <= j < |s| ==> r[j] == if j == 0 || s[j - 1] == ' ' then UpperChar(s[j]) else s[j]
    decreases |s|
  {
    var i := IndexOf(s, ' ');
    var r := CapitalizeWords(s);
    if i == |s| {
      assert Split(s, ' ') == [s];
      assert r == Capitalize(s);
    } else {
      var w, t := s[..i], s[i + 1..];
      assert Split(s, ' ') == [w] + Split(t, ' ');
      var rest := CapitalizeAll(Split(t, ' '));
      assert CapitalizeAll(Split(s, ' ')) == [Capitalize(w)] + rest;
      assert r == Capitalize(w) + " " + Join(rest, " ");
      CapitalizeWordsPointwise(t);
      var rt := CapitalizeWords(t);
      assert r == Capitalize(w) + " " + rt;
      forall j | 0 <= j < |s|
        ensures r[j] == if j == 0 || s[j - 1] == ' ' then UpperChar(s[j]) else s[j]
      {
        if j > i {
          assert r[j] == rt[j - i - 1];
          assert j - i - 1 == 0 || s[j - 1] == t[j - i - 2];
        }
      }
    }
  }

  /** Each character is kept, or is a lower-case letter made upper-case. */
  lemma CapitalizeChars(s: string)
    ensures var r := CapitalizeWords(s);
      && |r| == |s|
      && forall i :: 0 <= i < |s| ==> r[i] == s[i] || ('a' <= s[i] <= 'z' && r[i] == UpperChar(s[i]))
  {
    CapitalizeWordsPointwise(s);
    var r := CapitalizeWords(s);
    forall i | 0 <= i < |s|
      ensures r[i] == s[i] || ('a' <= s[i] <= 'z' && r[i] == UpperChar(s[i]))
    {
      assert r[i] == if i == 0 || s[i - 1] == ' ' then UpperChar(s[i]) else s[i];
    }
  }

  lemma LowerOfUpper(c: char)
    ensures LowerChar(UpperChar(c)) == LowerChar(c)
  {
  }

  /** Ignoring case, title case changes nothing. */
  lemma CapitalizeWordsCase(s: string)
    ensures Lower(CapitalizeWords(s)) == Lower(s)
  {
    CapitalizeChars(s);
    var r := CapitalizeWords(s);
    forall j | 0 <= j < |s|
      ensures LowerChar(r[j]) == LowerChar(s[j])
    {
      LowerOfUpper(s[j]);
    }
  }

  /** Title case keeps a well-spaced string well spaced, and adds no
      character but upper-case letters. */
  lemma CapitalizeKeepsSpacing(s: string)
    requires WellSpaced(s)
    ensures var r := CapitalizeWords(s);
      && WellSpaced(r) && |r| == |s|
      && forall c :: c in r ==> c in s || 'A' <= c <= 'Z'
  {
    CapitalizeChars(s);
    var r := CapitalizeWords(s);
    forall i | 0 <= i < |r|
      ensures IsSpace(r[i]) ==> r[i] == s[i]
      ensures r[i] == ' ' ==> s[i] == ' '
    {
    }
    forall c | c in r
      ensures c in s || 'A' <= c <= 'Z'
    {
      var i :| 0 <= i < |r| && r[i] == c;
      assert s[i] in s;
    }
  }

  // ---------------------------------------------------------------------------
  // prettyNameFallback

  /** `prettyNameFallback(fullName, email)`: the trimmed full name, else a
      name made from the e-mail's local part, else the trimmed e-mail, else
      a dash. */
  function PrettyNameFallback(fullName: Option<string>, email: Option<string>): string {
    var name := Trim(fullName.GetOr(""));
    if name != [] then name
    else
      var e := Trim(email.GetOr(""));
      if e == [] then Dash
      else
        var local := Split(e, '@')[0];
        if local == [] then e
        else
          var cleaned := Clean(local);
          if cleaned == [] then e else CapitalizeWords(cleaned)
  }

  /** The full name wins when it is not blank; both blank give the dash; the
      result is never empty. */
  lemma PrettyNameCases(fullName: Option<string>, email: Option<string>)
    ensures var r := PrettyNameFallback(fullName, email);
      && r != []
      && (Trim(fullName.GetOr("")) != [] ==> r == Trim(fullName.GetOr("")))
      && (Trim(fullName.GetOr("")) == [] && Trim(email.GetOr("")) == [] ==> r == Dash)
  {
    var e := Trim(email.GetOr(""));
    if Trim(fullName.GetOr("")) == [] && e != [] {
      var local := Split(e, '@')[0];
      if local != [] && Clean(local) != [] {
        CapitalizeWordsPointwise(Clean(local));
      }
    }
  }

  /** Without a full name, the name comes from the e-mail: either the trimmed
      e-mail itself, or a well-spaced title-cased name with no separator and
      no `@`. */
  lemma PrettyNameFromEmail(fullName: Option<string>, email: Option<string>)
    requires Trim(fullName.GetOr("")) == [] && Trim(email.GetOr("")) != []
    ensures var r := PrettyNameFallback(fullName, email); var e := Trim(email.GetOr(""));
      || r == e
      || (&& WellSpaced(r) && r != []
          && (forall c :: c in r ==> !InRun(Separators, c) && c != '@')
          && Lower(r) == Lower(Clean(Split(e, '@')[0])))
  {
    var e := Trim(email.GetOr(""));
    var local := Split(e, '@')[0];
    LocalPartHasNoAt(e);
    if local != [] && Clean(local) != [] {
      var cleaned := Clean(local);
      CleanShape(local);
      CapitalizeKeepsSpacing(cleaned);
      CapitalizeWordsCase(cleaned);
    }
  }

  /** The first piece of a split on `@` holds no `@`. */
  lemma LocalPartHasNoAt(e: string)
    ensures '@' !in Split(e, '@')[0]
  {
    var i := IndexOf(e, '@');
    assert Split(e, '@')[0] == e[..i];
  }
}
