/** `escapeHtml` of the referral-creation route: five successive
    `replaceAll` calls that make a plain string safe to embed in the HTML
    of the notification e-mails. */
module HtmlEscape {
  import opened JsText

  /** `escapeHtml(input)`, in the source's order: `&` first, so that the
      ampersands the later replacements introduce are not escaped again. */
  function EscapeHtml(s: string): string {
    var a := ReplaceAll(s, '&', "&amp;");
    var b := ReplaceAll(a, '<', "&lt;");
    var c := ReplaceAll(b, '>', "&gt;");
    var d := ReplaceAll(c, '"', "&quot;");
    ReplaceAll(d, '\'', "&#039;")
  }

  /** The entity a single character turns into. */
  function EscapeChar(c: char): string {
    if c == '&' then "&amp;"
    else if c == '<' then "&lt;"
    else if c == '>' then "&gt;"
    else if c == '"' then "&quot;"
    else if c == '\'' then "&#039;"
    else [c]
  }

  /** Every character escaped on its own, independently of the others. */
  function EscapeEach(s: string): string
    decreases |s|
  {
    if s == [] then [] else EscapeChar(s[0]) + EscapeEach(s[1..])
  }

  lemma EscapeHtmlAppend(a: string, b: string)
    ensures EscapeHtml(a + b) == EscapeHtml(a) + EscapeHtml(b)
  {
    var a1, b1 := ReplaceAll(a, '&', "&amp;"), ReplaceAll(b, '&', "&amp;");
    ReplaceAllAppend(a, b, '&', "&amp;");
    var a2, b2 := ReplaceAll(a1, '<', "&lt;"), ReplaceAll(b1, '<', "&lt;");
    ReplaceAllAppend(a1, b1, '<', "&lt;");
    var a3, b3 := ReplaceAll(a2, '>', "&gt;"), ReplaceAll(b2, '>', "&gt;");
    ReplaceAllAppend(a2, b2, '>', "&gt;");
    var a4, b4 := ReplaceAll(a3, '"', "&quot;"), ReplaceAll(b3, '"', "&quot;");
    ReplaceAllAppend(a3, b3, '"', "&quot;");
    ReplaceAllAppend(a4, b4, '\'', "&#039;");
  }

  lemma ReplaceAllSingle(x: char, c: char, rep: string)
    ensures ReplaceAll([x], c, rep) == if x == c then rep else [x]
  {
    assert [x][1..] == [];
  }

  /** Text the later replacements have nothing to do in passes through them. */
  lemma LaterPasses(a: string)
    requires '<' !in a && '>' !in a && '"' !in a && '\'' !in a
    ensures ReplaceAll(ReplaceAll(ReplaceAll(ReplaceAll(a, '<', "&lt;"), '>', "&gt;"), '"', "&quot;"), '\'', "&#039;") == a
  {
  }

  lemma EscapeHtmlChar(c: char)
    ensures EscapeHtml([c]) == EscapeChar(c)
  {
    var a := ReplaceAll([c], '&', "&amp;");
    ReplaceAllSingle(c, '&', "&amp;");
    if c == '&' {
      LaterPasses(a);
    } else {
      var b := ReplaceAll(a, '<', "&lt;");
      ReplaceAllSingle(c, '<', "&lt;");
      if c == '<' {
        LaterPasses2(b);
      } else {
        var d := ReplaceAll(b, '>', "&gt;");
        ReplaceAllSingle(c, '>', "&gt;");
        if c == '>' {
          LaterPasses3(d);
        } else {
          var e := ReplaceAll(d, '"', "&quot;");
          ReplaceAllSingle(c, '"', "&quot;");
          ReplaceAllSingle(c, '\'', "&#039;");
          if c == '"' {
            assert ReplaceAll(e, '\'', "&#039;") == e;
          }
        }
      }
    }
  }

  lemma LaterPasses2(b: string)
    requires '>' !in b && '"' !in b && '\'' !in b
    ensures ReplaceAll(ReplaceAll(ReplaceAll(b, '>', "&gt;"), '"', "&quot;"), '\'', "&#039;") == b
  {
  }

  lemma LaterPasses3(d: string)
    requires '"' !in d && '\'' !in d
    ensures ReplaceAll(ReplaceAll(d, '"', "&quot;"), '\'', "&#039;") == d
  {
  }

  /** The chain of five replacements escapes each character on its own:
      no replacement re-escapes what an earlier one produced. */
  lemma {:induction false} EscapeHtmlIsEach(s: string)
    ensures EscapeHtml(s) == EscapeEach(s)
    decreases |s|
  {
    if s == [] {
    } else {
      assert s == [s[0]] + s[1..];
      EscapeHtmlAppend([s[0]], s[1..]);
      EscapeHtmlChar(s[0]);
      EscapeHtmlIsEach(s[1..]);
    }
  }

  /** The escaped text holds none of the four markup-significant characters. */
  lemma {:induction false} EscapeEachSafe(s: string)
    ensures '<' !in EscapeEach(s) && '>' !in EscapeEach(s)
    ensures '"' !in EscapeEach(s) && '\'' !in EscapeEach(s)
    decreases |s|
  {
    if s != [] {
      EscapeEachSafe(s[1..]);
      EscapeCharSafe(s[0]);
      var h, t := EscapeChar(s[0]), EscapeEach(s[1..]);
      assert EscapeEach(s) == h + t;
      NotInAppend('<', h, t);
      NotInAppend('>', h, t);
      NotInAppend('"', h, t);
      NotInAppend('\'', h, t);
    }
  }

  /** No single character escapes to one of the four. */
  lemma EscapeCharSafe(c: char)
    ensures var e := EscapeChar(c); '<' !in e && '>' !in e && '"' !in e && '\'' !in e
  {
  }

  lemma NotInAppend(c: char, a: string, b: string)
    requires c !in a && c !in b
    ensures c !in a + b
  {
  }

  lemma EscapeHtmlSafe(s: string)
    ensures '<' !in EscapeHtml(s) && '>' !in EscapeHtml(s)
    ensures '"' !in EscapeHtml(s) && '\'' !in EscapeHtml(s)
  {
    EscapeHtmlIsEach(s);
    EscapeEachSafe(s);
  }

  /** Text without any of the five special characters is left as it is. */
  lemma PlainTextUnchanged(s: string)
    requires '&' !in s && '<' !in s && '>' !in s && '"' !in s && '\'' !in s
    ensures EscapeHtml(s) == s
  {
  }

  /** What an HTML reader decodes the five entities back to. */
  function Unescape(s: string): string
    decreases |s|
  {
    if s == [] then []
    else if |s| >= 5 && s[..5] == "&amp;" then "&" + Unescape(s[5..])
    else if |s| >= 4 && s[..4] == "&lt;" then "<" + Unescape(s[4..])
    else if |s| >= 4 && s[..4] == "&gt;" then ">" + Unescape(s[4..])
    else if |s| >= 6 && s[..6] == "&quot;" then "\"" + Unescape(s[6..])
    else if |s| >= 6 && s[..6] == "&#039;" then "'" + Unescape(s[6..])
    else [s[0]] + Unescape(s[1..])
  }

  lemma UnescapeStep(c: char, t: string)
    ensures Unescape(EscapeChar(c) + t) == [c] + Unescape(t)
  {
    var e := EscapeChar(c) + t;
    if c == '&' {
      UnescapeAmp(e, t);
    } else if c == '<' {
      UnescapeLt(e, t);
    } else if c == '>' {
      UnescapeGt(e, t);
    } else if c == '"' {
      UnescapeQuot(e, t);
    } else if c == '\'' {
      UnescapeApos(e, t);
    } else {
      UnescapePlain(c, e, t);
    }
  }

  lemma UnescapeAmp(e: string, t: string)
    requires e == "&amp;" + t
    ensures Unescape(e) == "&" + Unescape(t)
  {
    assert e[..5] == "&amp;" && e[5..] == t;
  }

  /** Every entity starts with `&`, so any other character decodes as itself. */
  lemma UnescapePlain(c: char, e: string, t: string)
    requires c != '&' && e == [c] + t
    ensures Unescape(e) == [c] + Unescape(t)
  {
    assert e[0] == c && e[1..] == t;
    assert |e| >= 4 ==> e[..4][0] == c;
    assert |e| >= 5 ==> e[..5][0] == c;
    assert |e| >= 6 ==> e[..6][0] == c;
  }

  lemma UnescapeLt(e: string, t: string)
    requires e == "&lt;" + t
    ensures Unescape(e) == "<" + Unescape(t)
  {
    assert e[1] == 'l';
    assert |e| >= 5 ==> e[..5][1] == 'l';
    assert e[..4] == "&lt;" && e[4..] == t;
  }

  lemma UnescapeGt(e: string, t: string)
    requires e == "&gt;" + t
    ensures Unescape(e) == ">" + Unescape(t)
  {
    assert e[1] == 'g';
    assert (|e| >= 5 ==> e[..5][1] == 'g') && e[..4][1] == 'g';
    assert e[..4] == "&gt;" && e[4..] == t;
  }

  lemma UnescapeQuot(e: string, t: string)
    requires e == "&quot;" + t
    ensures Unescape(e) == "\"" + Unescape(t)
  {
    assert e[1] == 'q';
    assert e[..5][1] == 'q' && e[..4][1] == 'q';
    assert e[..6] == "&quot;" && e[6..] == t;
  }

  lemma UnescapeApos(e: string, t: string)
    requires e == "&#039;" + t
    ensures Unescape(e) == "'" + Unescape(t)
  {
    assert e[1] == '#';
    assert e[..5][1] == '#' && e[..4][1] == '#' && e[..6][1] == '#';
    assert e[..6] == "&#039;" && e[6..] == t;
  }

  lemma {:induction false} UnescapeEach(s: string)
    ensures Unescape(EscapeEach(s)) == s
    decreases |s|
  {
    if s != [] {
      UnescapeStep(s[0], EscapeEach(s[1..]));
      UnescapeEach(s[1..]);
    }
  }

  /** Escaping loses nothing: decoding the entities gives back the input. */
  lemma EscapeHtmlRoundTrip(s: string)
    ensures Unescape(EscapeHtml(s)) == s
  {
    EscapeHtmlIsEach(s);
    UnescapeEach(s);
  }
}
