/** The CSV export of the admin page (`app/admin/page.tsx`): `csvEscape`
    quotes every field and doubles the quotes inside it, `buildCsv` writes a
    header line and one line per row, joined by newlines, after a byte order
    mark.  A reader of the writer's output (`ParseRecords`: quoted fields
    with doubled quotes, records separated by LF) gets back exactly the
    fields that were written. */
module Csv {
  import opened Wrappers
  import opened JsText
  import opened ReferralsDb
  import opened AdminFormat
  import opened RowCode

  const Quote: char := '"'
  const Bom: char := '\U{FEFF}'

  /** The twelve column titles. */
  const Headers: seq<string> := [
    "Fecha registro", "Estado", "Código", "Referidor", "Correo referidor", "¿Tiene Verisure?",
    "Referido", "Teléfono referido", "Correo referido", "Campaña", "Landing", "Notas"]

  // ---------------------------------------------------------------------------
  // Writing

  /** `csvEscape`: the field in quotes, each quote inside doubled. */
  function CsvEscape(s: string): (r: string)
    ensures |r| >= 2 && r[0] == Quote && r[|r| - 1] == Quote
  {
    [Quote] + ReplaceAll(s, Quote, [Quote, Quote]) + [Quote]
  }

  function EscapeAll(fields: seq<string>): (r: seq<string>)
    ensures |r| == |fields|
    decreases |fields|
  {
    if fields == [] then [] else [CsvEscape(fields[0])] + EscapeAll(fields[1..])
  }

  /** `row.map(csvEscape).join(",")`. */
  function Line(fields: seq<string>): string {
    Join(EscapeAll(fields), ",")
  }

  /** The fields of the line of one row.  The rows the list route returns
      carry no `referrer_profile`, so the name falls back on the e-mail and
      the yes/no column is a dash.  `fmt` is the locale date formatting. */
  function RowFields(r: Referral, fmt: int -> string): (f: seq<string>)
    ensures |f| == |Headers|
  {
    [ fmt(r.createdAt), StatusLabel(r.status), Code15(r.id),
      PrettyNameFallback(None, r.referrerEmail), r.referrerEmail.GetOr(""), FormatYesNo(None),
      r.referredName, r.referredPhone, r.referredEmail.GetOr(""),
      r.tracking.camp.GetOr(""), r.tracking.landingPath.GetOr(""), r.notes.GetOr("") ]
  }

  /** The records of the rows, in order. */
  function RowRecords(data: seq<Referral>, fmt: int -> string): (recs: seq<seq<string>>)
    ensures |recs| == |data|
    decreases |data|
  {
    if data == [] then [] else RowRecords(data[..|data| - 1], fmt) + [RowFields(data[|data| - 1], fmt)]
  }

  /** The record of row `i` is its fields. */
  lemma {:induction false} RowRecordsAt(data: seq<Referral>, fmt: int -> string, i: nat)
    requires i < |data|
    ensures Records(data, fmt)[i + 1] == RowFields(data[i], fmt)
    decreases |data|
  {
    if i < |data| - 1 {
      RowRecordsAt(data[..|data| - 1], fmt, i);
      assert data[..|data| - 1][i] == data[i];
    }
  }

  /** The records of the export: the header, then one per row. */
  function Records(data: seq<Referral>, fmt: int -> string): (recs: seq<seq<string>>)
    ensures |recs| == |data| + 1 && recs[0] == Headers
  {
    [Headers] + RowRecords(data, fmt)
  }

  function Lines(recs: seq<seq<string>>): (ls: seq<string>)
    ensures |ls| == |recs|
    decreases |recs|
  {
    if recs == [] then [] else [Line(recs[0])] + Lines(recs[1..])
  }

  /** What `buildCsv` returns. */
  function CsvDocument(data: seq<Referral>, fmt: int -> string): string {
    [Bom] + Join(Lines(Records(data, fmt)), "\n")
  }

  /** `buildCsv`, line by line as the source pushes them. */
  method BuildCsv(data: seq<Referral>, fmt: int -> string) returns (csv: string)
    ensures csv == CsvDocument(data, fmt)
  {
    // the header line: `Records` of no rows is just the header
    var lines := Lines(Records(data[..0], fmt));
    for k := 0 to |data|
      invariant lines == Lines(Records(data[..k], fmt))
    {
      LinesSnoc(Records(data[..k], fmt), RowFields(data[k], fmt));
      RecordsSnoc(data, k, fmt);
      lines := lines + [Line(RowFields(data[k], fmt))];
    }
    assert data[..|data|] == data;
    csv := [Bom] + Join(lines, "\n");
  }

  lemma HeaderRecord(data: seq<Referral>, fmt: int -> string)
    ensures Lines(Records(data[..0], fmt)) == [Line(Headers)]
  {
    assert Records(data[..0], fmt) == [Headers];
  }

  /** Every record of the export has one field per column. */
  lemma {:induction false} RecordsWidth(data: seq<Referral>, fmt: int -> string)
    ensures forall i :: 0 <= i < |data| + 1 ==> |Records(data, fmt)[i]| == |Headers|
    decreases |data|
  {
    if data != [] {
      RecordsWidth(data[..|data| - 1], fmt);
      assert Records(data, fmt) == Records(data[..|data| - 1], fmt) + [RowFields(data[|data| - 1], fmt)];
    }
  }

  lemma RecordsSnoc(data: seq<Referral>, k: nat, fmt: int -> string)
    requires k < |data|
    ensures Records(data[..k + 1], fmt) == Records(data[..k], fmt) + [RowFields(data[k], fmt)]
  {
    assert data[..k + 1][..k] == data[..k];
  }

  lemma {:induction false} LinesSnoc(recs: seq<seq<string>>, rec: seq<string>)
    ensures Lines(recs + [rec]) == Lines(recs) + [Line(rec)]
    decreases |recs|
  {
    if recs == [] {
      assert recs + [rec] == [rec];
    } else {
      assert (recs + [rec])[1..] == recs[1..] + [rec];
      LinesSnoc(recs[1..], rec);
    }
  }

  // ---------------------------------------------------------------------------
  // Reading

  /** The body of a quoted field up to its closing quote, reading `""` as
      one quote; the field and what follows the closing quote. */
  function ReadBody(u: string): (r: Option<(string, string)>)
    ensures r.Some? ==> |r.value.1| < |u|
    decreases |u|
  {
    if u == [] then None
    else if u[0] == Quote then
      if |u| >= 2 && u[1] == Quote then
        match ReadBody(u[2..])
        case None => None
        case Some((f, rest)) => Some(([Quote] + f, rest))
      else Some(([], u[1..]))
    else
      match ReadBody(u[1..])
      case None => None
      case Some((f, rest)) => Some(([u[0]] + f, rest))
  }

  /** A file of quoted fields: fields separated by commas, records by
      newlines. */
  function ParseRecords(t: string): (r: Option<seq<seq<string>>>)
    ensures r.Some? ==> |r.value| >= 1
    decreases |t|
  {
    if t == [] || t[0] != Quote then None
    else
      match ReadBody(t[1..])
      case None => None
      case Some((f, rest)) =>
        if rest == [] then Some([[f]])
        else if rest[0] == ',' then
          match ParseRecords(rest[1..])
          case None => None
          case Some(recs) => Some([[f] + recs[0]] + recs[1..])
        else if rest[0] == '\n' then
          match ParseRecords(rest[1..])
          case None => None
          case Some(recs) => Some([[f]] + recs)
        else None
  }

  // ---------------------------------------------------------------------------
  // Round trip

  /** The escaped body of a field reads back as the field. */
  lemma {:induction false} ReadEscaped(s: string, rest: string)
    requires rest == [] || rest[0] != Quote
    ensures ReadBody(ReplaceAll(s, Quote, [Quote, Quote]) + [Quote] + rest) == Some((s, rest))
    decreases |s|
  {
    if s == [] {
      var u := ReplaceAll(s, Quote, [Quote, Quote]) + [Quote] + rest;
      assert u == [Quote] + rest;
      assert u[1..] == rest;
    } else {
      ReadEscaped(s[1..], rest);
      ReadEscapedCons(s[0], s[1..], rest);
      assert [s[0]] + s[1..] == s;
    }
  }

  /** One more character in front of an escaped field that reads back. */
  lemma ReadEscapedCons(c: char, t: string, rest: string)
    requires ReadBody(ReplaceAll(t, Quote, [Quote, Quote]) + [Quote] + rest) == Some((t, rest))
    ensures ReadBody(ReplaceAll([c] + t, Quote, [Quote, Quote]) + [Quote] + rest) == Some(([c] + t, rest))
  {
    var e' := ReplaceAll(t, Quote, [Quote, Quote]);
    var u' := e' + [Quote] + rest;
    assert ([c] + t)[1..] == t;
    if c == Quote {
      assert ReplaceAll([c] + t, Quote, [Quote, Quote]) + [Quote] + rest == [Quote, Quote] + u';
      ReadPairStep(u', t, rest);
    } else {
      assert ReplaceAll([c] + t, Quote, [Quote, Quote]) + [Quote] + rest == [c] + u';
      ReadPlainStep(c, u', t, rest);
    }
  }

  /** A doubled quote in front of a readable body reads as one quote. */
  lemma ReadPairStep(u: string, f: string, rest: string)
    requires ReadBody(u) == Some((f, rest))
    ensures ReadBody([Quote, Quote] + u) == Some(([Quote] + f, rest))
  {
    var v := [Quote, Quote] + u;
    assert v[0] == Quote && v[1] == Quote && v[2..] == u;
  }

  /** Any other character in front of a readable body is kept. */
  lemma ReadPlainStep(c: char, u: string, f: string, rest: string)
    requires c != Quote && ReadBody(u) == Some((f, rest))
    ensures ReadBody([c] + u) == Some(([c] + f, rest))
  {
    var v := [c] + u;
    assert v[0] == c && v[1..] == u;
  }

  /** An escaped field followed by `t` reads as the field, then `t`. */
  lemma FieldThen(f: string, t: string)
    requires t == [] || t[0] != Quote
    ensures var u := CsvEscape(f) + t;
      u != [] && u[0] == Quote && ReadBody(u[1..]) == Some((f, t))
  {
    var u := CsvEscape(f) + t;
    assert u[1..] == ReplaceAll(f, Quote, [Quote, Quote]) + [Quote] + t;
    ReadEscaped(f, t);
  }

  lemma EscapeAllTail(fields: seq<string>)
    requires |fields| >= 2
    ensures Line(fields) == CsvEscape(fields[0]) + "," + Line(fields[1..])
  {
    assert EscapeAll(fields)[1..] == EscapeAll(fields[1..]);
  }

  /** What the reader makes of an escaped field followed by `t`. */
  lemma ParseStep(f: string, t: string)
    requires t == [] || t[0] != Quote
    ensures t == [] ==> ParseRecords(CsvEscape(f) + t) == Some([[f]])
    ensures t != [] && t[0] == ',' && ParseRecords(t[1..]).Some? ==>
      var recs := ParseRecords(t[1..]).value;
      ParseRecords(CsvEscape(f) + t) == Some([[f] + recs[0]] + recs[1..])
    ensures t != [] && t[0] == '\n' && ParseRecords(t[1..]).Some? ==>
      ParseRecords(CsvEscape(f) + t) == Some([[f]] + ParseRecords(t[1..]).value)
  {
    FieldThen(f, t);
  }

  /** A line followed by a newline and a readable rest reads as its record,
      then the rest's records. */
  lemma {:induction false} LineThen(rec: seq<string>, t: string, recs: seq<seq<string>>)
    requires rec != [] && ParseRecords(t) == Some(recs)
    ensures ParseRecords(Line(rec) + "\n" + t) == Some([rec] + recs)
    decreases |rec|
  {
    if |rec| == 1 {
      LastFieldThen(rec, t, recs);
    } else {
      LineThen(rec[1..], t, recs);
      FieldBeforeLine(rec, Line(rec[1..]) + "\n" + t, [rec[1..]] + recs);
      assert Line(rec) + "\n" + t == CsvEscape(rec[0]) + "," + (Line(rec[1..]) + "\n" + t);
    }
  }

  /** The last field of a line, then a newline and a readable rest. */
  lemma LastFieldThen(rec: seq<string>, t: string, recs: seq<seq<string>>)
    requires |rec| == 1 && ParseRecords(t) == Some(recs)
    ensures ParseRecords(Line(rec) + "\n" + t) == Some([rec] + recs)
  {
    var f := rec[0];
    assert rec == [f];
    assert Line(rec) == CsvEscape(f);
    var nt := "\n" + t;
    assert Line(rec) + "\n" + t == CsvEscape(f) + nt;
    assert nt[1..] == t;
    ParseStep(f, nt);
  }

  /** A field and a comma before text that reads as records. */
  lemma FieldBeforeLine(rec: seq<string>, tail: string, rs: seq<seq<string>>)
    requires |rec| >= 2 && ParseRecords(tail) == Some(rs) && rs != [] && rs[0] == rec[1..]
    ensures ParseRecords(CsvEscape(rec[0]) + "," + tail) == Some([rec] + rs[1..])
    ensures Line(rec) == CsvEscape(rec[0]) + "," + Line(rec[1..])
  {
    var f := rec[0];
    EscapeAllTail(rec);
    var ct := "," + tail;
    assert CsvEscape(f) + "," + tail == CsvEscape(f) + ct;
    assert ct[1..] == tail;
    ParseStep(f, ct);
    assert rec == [f] + rec[1..];
  }

  /** A line on its own reads as its record. */
  lemma {:induction false} LineAlone(rec: seq<string>)
    requires rec != []
    ensures ParseRecords(Line(rec)) == Some([rec])
    decreases |rec|
  {
    var f := rec[0];
    if |rec| == 1 {
      assert rec == [f];
      assert Line(rec) == CsvEscape(f) + "";
      ParseStep(f, "");
    } else {
      EscapeAllTail(rec);
      var tail := Line(rec[1..]);
      LineAlone(rec[1..]);
      var ct := "," + tail;
      assert Line(rec) == CsvEscape(f) + ct;
      assert ct[1..] == tail;
      ParseStep(f, ct);
      var rs := [rec[1..]];
      assert rec == [f] + rec[1..];
      assert [rec] == [[f] + rs[0]] + rs[1..];
    }
  }

  /** Reading the joined lines of non-empty records gives the records back. */
  lemma {:induction false} RecordsRoundTrip(recs: seq<seq<string>>)
    requires recs != [] && forall i :: 0 <= i < |recs| ==> recs[i] != []
    ensures ParseRecords(Join(Lines(recs), "\n")) == Some(recs)
    decreases |recs|
  {
    if |recs| == 1 {
      LineAlone(recs[0]);
      assert Lines(recs) == [Line(recs[0])];
      assert recs == [recs[0]];
    } else {
      RecordsRoundTrip(recs[1..]);
      assert Lines(recs)[1..] == Lines(recs[1..]);
      assert Join(Lines(recs), "\n") == Line(recs[0]) + "\n" + Join(Lines(recs[1..]), "\n");
      LineThen(recs[0], Join(Lines(recs[1..]), "\n"), recs[1..]);
      assert recs == [recs[0]] + recs[1..];
    }
  }

  /** The export is a byte order mark followed by a file that reads back as
      the header and one record of twelve fields per row, in order. */
  lemma ExportReadsBack(data: seq<Referral>, fmt: int -> string)
    ensures var doc := CsvDocument(data, fmt);
      && doc[0] == Bom
      && ParseRecords(doc[1..]) == Some(Records(data, fmt))
      && forall i :: 0 <= i < |data| + 1 ==> |Records(data, fmt)[i]| == |Headers|
  {
    RecordsWidth(data, fmt);
    RecordsNonEmpty(data, fmt);
    RecordsRoundTrip(Records(data, fmt));
    DocumentBody(data, fmt);
  }

  lemma RecordsNonEmpty(data: seq<Referral>, fmt: int -> string)
    ensures forall i :: 0 <= i < |Records(data, fmt)| ==> Records(data, fmt)[i] != []
  {
    RecordsWidth(data, fmt);
    assert |Headers| == 12;
  }

  /** The document is the byte order mark, then the joined lines. */
  lemma DocumentBody(data: seq<Referral>, fmt: int -> string)
    ensures var doc := CsvDocument(data, fmt);
      doc[0] == Bom && doc[1..] == Join(Lines(Records(data, fmt)), "\n")
  {
    var body := Join(Lines(Records(data, fmt)), "\n");
    assert ([Bom] + body)[1..] == body;
  }
}
