/** `GET /api/admin/referrals/list` (`app/api/admin/referrals/list/route.ts`):
    behind the admin gate, the referrals filtered by status and by a search
    text, newest first, one page of them and the filtered total. */
module AdminList {
  import opened Wrappers
  import opened JsText
  import opened ReferralsDb
  import opened AdminAuth

  const DefaultLimit: int := 50
  const MaxLimit: int := 100

  const MsgLoadFailed: string := "Error cargando referidos."

  /** The query-string parameters; `limit` and `offset` are `None` when
      absent or empty, and otherwise the integer they spell. */
  datatype ListParams = ListParams(q: Option<string>, status: Option<string>, limit: Option<int>, offset: Option<int>)

  datatype ListResponse = ListOk(page: seq<Referral>, total: nat) | ListFail(status: int, message: string)

  /** `Math.min(100, Math.max(1, Number(limit || 50)))`. */
  function ClampLimit(l: Option<int>): (r: int)
    ensures 1 <= r <= MaxLimit
    ensures l.None? ==> r == DefaultLimit
    ensures l.Some? && 1 <= l.value <= MaxLimit ==> r == l.value
  {
    var n := l.GetOr(DefaultLimit);
    var atLeastOne := if n < 1 then 1 else n;
    if atLeastOne > MaxLimit then MaxLimit else atLeastOne
  }

  /** `Math.max(0, Number(offset || 0))`. */
  function ClampOffset(o: Option<int>): (r: nat)
    ensures o.Some? && o.value >= 0 ==> r == o.value
    ensures o.None? || o.value <= 0 ==> r == 0
  {
    var n := o.GetOr(0);
    if n < 0 then 0 else n
  }

  // ---------------------------------------------------------------------------
  // The search: `ilike.%q%` over four columns

  /** `s` contains `t`, ignoring ASCII case: what the search means. */
  predicate ContainsNoCase(s: string, t: string) {
    Contains(Lower(s), Lower(t))
  }

  /** The four searched columns; a null column matches nothing. */
  function SearchedColumns(r: Referral): seq<Option<string>> {
    [Some(r.referredName), r.referredEmail, Some(r.referredPhone), r.referrerEmail]
  }

  /** A row the search text selects: one of the searched columns contains it. */
  predicate MatchesQuery(r: Referral, q: string) {
    exists i :: 0 <= i < 4 && SearchedColumns(r)[i].Some? && ContainsNoCase(SearchedColumns(r)[i].value, q)
  }

  /** A row the two filters keep; an empty filter keeps everything. */
  predicate Keeps(r: Referral, status: string, q: string) {
    && (status != "" ==> r.status == status)
    && (q != "" ==> MatchesQuery(r, q))
  }

  function Filter(rows: seq<Referral>, status: string, q: string): (r: seq<Referral>)
    ensures |r| <= |rows|
    ensures forall x :: x in r <==> x in rows && Keeps(x, status, q)
    decreases |rows|
  {
    if rows == [] then []
    else (if Keeps(rows[0], status, q) then [rows[0]] else []) + Filter(rows[1..], status, q)
  }

  // ---------------------------------------------------------------------------
  // `order("created_at", { ascending: false })`

  predicate NewestFirst(rows: seq<Referral>) {
    forall i, j :: 0 <= i < j < |rows| ==> rows[i].createdAt >= rows[j].createdAt
  }

  /** `x` placed before the first row older than it. */
  function Insert(x: Referral, rows: seq<Referral>): (r: seq<Referral>)
    requires NewestFirst(rows)
    ensures NewestFirst(r)
    ensures multiset(r) == multiset(rows) + multiset{x}
    ensures |r| == |rows| + 1 && (r[0] == x || (rows != [] && r[0] == rows[0]))
    decreases |rows|
  {
    if rows == [] || x.createdAt >= rows[0].createdAt then
      ConsNewestFirst(x, rows);
      [x] + rows
    else
      var rest := Insert(x, rows[1..]);
      assert rows == [rows[0]] + rows[1..];
      ConsNewestFirst(rows[0], rest);
      [rows[0]] + rest
  }

  /** A row no older than the first of a newest-first list may go in front. */
  lemma ConsNewestFirst(h: Referral, rest: seq<Referral>)
    requires NewestFirst(rest)
    requires rest == [] || h.createdAt >= rest[0].createdAt
    ensures NewestFirst([h] + rest)
  {
    var r := [h] + rest;
    forall i, j | 0 <= i < j < |r|
      ensures r[i].createdAt >= r[j].createdAt
    {
      if i > 0 {
        assert r[i] == rest[i - 1] && r[j] == rest[j - 1];
      } else {
        assert r[j] == rest[j - 1];
      }
    }
  }

  /** The rows newest first; rows created at the same instant keep their
      table order. */
  function SortNewestFirst(rows: seq<Referral>): (r: seq<Referral>)
    ensures NewestFirst(r)
    ensures multiset(r) == multiset(rows)
    decreases |rows|
  {
    if rows == [] then []
    else
      assert rows == [rows[0]] + rows[1..];
      Insert(rows[0], SortNewestFirst(rows[1..]))
  }

  /** `range(offset, offset + limit - 1)`: the rows at positions
      `offset .. offset + limit - 1` that exist. */
  function Range(rows: seq<Referral>, offset: nat, limit: nat): (r: seq<Referral>)
    ensures |r| <= limit
    ensures offset <= |rows| ==> r == rows[offset..if offset + limit <= |rows| then offset + limit else |rows|]
    ensures offset >= |rows| ==> r == []
  {
    if offset >= |rows| then []
    else if offset + limit <= |rows| then rows[offset..offset + limit]
    else rows[offset..]
  }

  // ---------------------------------------------------------------------------
  // `select("id, created_at, status, referrer_email, ...")`

  const NoTracking: Tracking := Tracking(None, None, None, None, None, None, None, None)

  /** A row as the route's `select` returns it: the eight selected columns,
      with `notes` and the campaign columns absent. */
  function Selected(r: Referral): Referral {
    r.(notes := None, tracking := NoTracking)
  }

  function Columns(rows: seq<Referral>): (r: seq<Referral>)
    ensures |r| == |rows|
    ensures forall i :: 0 <= i < |rows| ==> r[i] == Selected(rows[i])
  {
    seq(|rows|, i requires 0 <= i < |rows| => Selected(rows[i]))
  }

  /** Selecting columns commutes with the filters, which read only selected
      columns. */
  lemma {:induction false} FilterColumns(rows: seq<Referral>, status: string, q: string)
    ensures Filter(Columns(rows), status, q) == Columns(Filter(rows, status, q))
    decreases |rows|
  {
    if rows != [] {
      var cols := Columns(rows);
      var tail := Filter(rows[1..], status, q);
      FilterColumns(rows[1..], status, q);
      assert cols[1..] == Columns(rows[1..]);
      KeepsSelected(rows[0], status, q);
      var head := if Keeps(rows[0], status, q) then [rows[0]] else [];
      assert Filter(cols, status, q) == Columns(head) + Columns(tail);
      ColumnsAppend(head, tail);
    }
  }

  /** The filters read only selected columns. */
  lemma KeepsSelected(r: Referral, status: string, q: string)
    ensures Keeps(Selected(r), status, q) == Keeps(r, status, q)
  {
    assert SearchedColumns(Selected(r)) == SearchedColumns(r);
  }

  lemma ColumnsAppend(a: seq<Referral>, b: seq<Referral>)
    ensures Columns(a + b) == Columns(a) + Columns(b)
  {
  }

  /** A selected row stands for a table row with the same selected columns. */
  lemma InColumns(rows: seq<Referral>, x: Referral)
    requires x in Columns(rows)
    ensures exists i :: 0 <= i < |rows| && x == Selected(rows[i])
    ensures x.notes.None? && x.tracking == NoTracking
  {
    var i :| 0 <= i < |Columns(rows)| && Columns(rows)[i] == x;
    assert x == Selected(rows[i]);
  }

  /** The whole listing the filters select, newest first, as selected. */
  function Listing(rows: seq<Referral>, status: string, q: string): seq<Referral> {
    SortNewestFirst(Filter(Columns(rows), status, q))
  }

  /** The route: the admin gate, then the filtered, ordered page and the
      filtered count; `queryFails` is the database reporting an error. */
  function List(rows: seq<Referral>, header: Option<string>, be: AdminBackend, p: ListParams, queryFails: bool): (r: ListResponse)
    ensures AdminGate(header, be).Denied? ==> r == ListFail(AdminGate(header, be).status, AdminGate(header, be).message)
    ensures AdminGate(header, be).Admin? && queryFails ==> r == ListFail(500, MsgLoadFailed)
    ensures r.ListOk? ==> r.total == |Filter(rows, Trim(p.status.GetOr("")), Trim(p.q.GetOr("")))|
    ensures r.ListOk? ==> |r.page| <= ClampLimit(p.limit)
  {
    FilterColumns(rows, Trim(p.status.GetOr("")), Trim(p.q.GetOr("")));
    var q := Trim(p.q.GetOr(""));
    var status := Trim(p.status.GetOr(""));
    var limit := ClampLimit(p.limit);
    var offset := ClampOffset(p.offset);
    match AdminGate(header, be)
    case Denied(code, msg) => ListFail(code, msg)
    case Admin(_) =>
      if queryFails then ListFail(500, MsgLoadFailed)
      else
        var filtered := Filter(Columns(rows), status, q);
        ListOk(Range(SortNewestFirst(filtered), offset, limit), |filtered|)
  }

  // ---------------------------------------------------------------------------
  // Properties

  /** Every row on a page is a table row that passes both filters, with
      the selected columns only. */
  lemma PageRowsKept(rows: seq<Referral>, header: Option<string>, be: AdminBackend, p: ListParams, queryFails: bool)
    requires List(rows, header, be, p, queryFails).ListOk?
    ensures forall x :: x in List(rows, header, be, p, queryFails).page ==>
      && Keeps(x, Trim(p.status.GetOr("")), Trim(p.q.GetOr("")))
      && (exists i :: 0 <= i < |rows| && x == Selected(rows[i]))
      && x.notes.None? && x.tracking == NoTracking
  {
    var q := Trim(p.q.GetOr(""));
    var status := Trim(p.status.GetOr(""));
    var l := Listing(rows, status, q);
    PageIsSlice(rows, header, be, p, queryFails);
    forall x | x in Range(l, ClampOffset(p.offset), ClampLimit(p.limit))
      ensures Keeps(x, status, q) && (exists i :: 0 <= i < |rows| && x == Selected(rows[i]))
      ensures x.notes.None? && x.tracking == NoTracking
    {
      InRange(l, ClampOffset(p.offset), ClampLimit(p.limit), x);
      assert x in multiset(l);
      InColumns(rows, x);
    }
  }

  lemma InRange(l: seq<Referral>, offset: nat, limit: nat, x: Referral)
    requires x in Range(l, offset, limit)
    ensures x in l
  {
    var r := Range(l, offset, limit);
    var i :| 0 <= i < |r| && r[i] == x;
    assert r[i] == l[offset + i];
  }

  /** A page is the listing from the clamped offset on, newest first. */
  lemma PageIsSlice(rows: seq<Referral>, header: Option<string>, be: AdminBackend, p: ListParams, queryFails: bool)
    requires List(rows, header, be, p, queryFails).ListOk?
    ensures var page := List(rows, header, be, p, queryFails).page;
      page == Range(Listing(rows, Trim(p.status.GetOr("")), Trim(p.q.GetOr(""))), ClampOffset(p.offset), ClampLimit(p.limit))
      && NewestFirst(page)
  {
    var l := Listing(rows, Trim(p.status.GetOr("")), Trim(p.q.GetOr("")));
    RangeKeepsOrder(l, ClampOffset(p.offset), ClampLimit(p.limit));
  }

  lemma RangeKeepsOrder(l: seq<Referral>, offset: nat, limit: nat)
    requires NewestFirst(l)
    ensures NewestFirst(Range(l, offset, limit))
  {
    var page := Range(l, offset, limit);
    forall i, j | 0 <= i < j < |page|
      ensures page[i].createdAt >= page[j].createdAt
    {
      assert page[i] == l[offset + i] && page[j] == l[offset + j];
    }
  }

  /** The total does not depend on the page asked for. */
  lemma TotalIgnoresPaging(rows: seq<Referral>, header: Option<string>, be: AdminBackend, p: ListParams, p2: ListParams, queryFails: bool)
    requires p2.q == p.q && p2.status == p.status
    requires List(rows, header, be, p, queryFails).ListOk?
    ensures List(rows, header, be, p2, queryFails).ListOk?
    ensures List(rows, header, be, p2, queryFails).total == List(rows, header, be, p, queryFails).total
  {
  }

  /** Consecutive pages of one size together make up a prefix of the
      listing: the page at `k * n` continues where the one before ended. */
  lemma {:induction false} PagesConcatenate(l: seq<Referral>, n: nat, k: nat)
    requires n >= 1
    ensures PagesUpTo(l, n, k) == l[..if k * n <= |l| then k * n else |l|]
    decreases k
  {
    if k > 0 {
      PagesConcatenate(l, n, k - 1);
      var a := if (k - 1) * n <= |l| then (k - 1) * n else |l|;
      var b := if k * n <= |l| then k * n else |l|;
      assert k * n == (k - 1) * n + n;
      assert l[..b] == l[..a] + l[a..b];
    }
  }

  /** The first `k` pages of size `n`, one after the other. */
  function PagesUpTo(l: seq<Referral>, n: nat, k: nat): seq<Referral>
    decreases k
  {
    if k == 0 then [] else PagesUpTo(l, n, k - 1) + Range(l, (k - 1) * n, n)
  }

  /** Filtering happens before the range, so without filters the total is
      the table size. */
  lemma {:induction false} NoFilterKeepsAll(rows: seq<Referral>)
    ensures Filter(rows, "", "") == rows
    decreases |rows|
  {
    if rows != [] {
      NoFilterKeepsAll(rows[1..]);
    }
  }

  // ---------------------------------------------------------------------------
  // The search as the route writes it: `ilike.%${safe}%`, where `safe` is
  // `q` with each `%` escaped.  `_` stays a `LIKE` wildcard, and PostgREST
  // reads every `*` of an `ilike` value as `%`.

  /** One element of a `LIKE` pattern. */
  datatype LikeTok = Lit(c: char) | AnyOne | AnyRun

  /** A `LIKE` pattern read with `\` as its escape character.  A trailing
      lone `\` is read as itself; the patterns the route builds end in `%`
      and never leave one. */
  function LikeTokens(p: string): seq<LikeTok>
    decreases |p|
  {
    if p == [] then []
    else if p[0] == '\\' && |p| >= 2 then [Lit(p[1])] + LikeTokens(p[2..])
    else if p[0] == '%' then [AnyRun] + LikeTokens(p[1..])
    else if p[0] == '_' then [AnyOne] + LikeTokens(p[1..])
    else [Lit(p[0])] + LikeTokens(p[1..])
  }

  /** `s ILIKE pattern`: literals compared without ASCII case, `_` one
      character, `%` any run. */
  predicate ILike(t: seq<LikeTok>, s: string)
    decreases |t|, |s|
  {
    if t == [] then s == []
    else match t[0]
      case Lit(c) => s != [] && LowerChar(s[0]) == LowerChar(c) && ILike(t[1..], s[1..])
      case AnyOne => s != [] && ILike(t[1..], s[1..])
      case AnyRun => ILike(t[1..], s) || (s != [] && ILike(t, s[1..]))
  }

  /** `%${q.replace(/%/g, "\\%")}%` */
  function SearchPattern(q: string): string {
    "%" + ReplaceAll(q, '%', "\\%") + "%"
  }

  /** The pattern the database receives: PostgREST turns each `*` of the
      `ilike` value into `%`. */
  function SentPattern(q: string): string {
    ReplaceAll(SearchPattern(q), '*', "%")
  }

  /** The search as written: one of the columns is `ILIKE` the pattern. */
  predicate MatchesQueryAsWritten(r: Referral, q: string) {
    exists i :: 0 <= i < 4 && SearchedColumns(r)[i].Some? && ILike(LikeTokens(SentPattern(q)), SearchedColumns(r)[i].value)
  }

  /** `_` in the search text matches any character: "a_c" finds "abc",
      which does not contain "a_c". */
  lemma UnderscoreIsWildcard()
    ensures ILike(LikeTokens(SentPattern("a_c")), "abc")
    ensures !ContainsNoCase("abc", "a_c")
  {
    SentOfUnderscore();
    UnderscoreTokens();
    OneThenLit([AnyRun, Lit('a'), AnyOne, Lit('c'), AnyRun], "abc");
    LacksChar("abc", "a_c", 1);
  }

  lemma UnderscoreTokens()
    ensures LikeTokens("%a_c%") == [AnyRun, Lit('a'), AnyOne, Lit('c'), AnyRun]
  {
    TokensOfPlain("%a_c%");
  }

  lemma OneThenLit(t: seq<LikeTok>, s: string)
    requires t == [AnyRun, Lit('a'), AnyOne, Lit('c'), AnyRun] && s == "abc"
    ensures ILike(t, s)
  {
    assert ILike(t[4..], []);
    assert ILike(t[3..], "c") by {
      assert "c"[1..] == [];
    }
    assert ILike(t[2..], "bc") by {
      assert "bc"[1..] == "c";
    }
    assert ILike(t[1..], "abc") by {
      assert "abc"[1..] == "bc";
    }
  }

  /** `*` in the search text matches any run, as PostgREST reads it as `%`:
      "a*c" finds "abbc", which does not contain "a*c". */
  lemma StarIsWildcard()
    ensures ILike(LikeTokens(SentPattern("a*c")), "abbc")
    ensures !ContainsNoCase("abbc", "a*c")
  {
    SentOfStar();
    StarTokens();
    RunThenLit([AnyRun, Lit('a'), AnyRun, Lit('c'), AnyRun], "abbc");
    LacksChar("abbc", "a*c", 1);
  }

  lemma StarTokens()
    ensures LikeTokens("%a%c%") == [AnyRun, Lit('a'), AnyRun, Lit('c'), AnyRun]
  {
    TokensOfPlain("%a%c%");
  }

  lemma RunThenLit(t: seq<LikeTok>, s: string)
    requires t == [AnyRun, Lit('a'), AnyRun, Lit('c'), AnyRun] && s == "abbc"
    ensures ILike(t, s)
  {
    assert ILike(t[4..], []);
    assert ILike(t[3..], "c") by {
      assert "c"[1..] == [];
    }
    assert ILike(t[2..], "c");
    assert ILike(t[2..], "bc") by {
      assert "bc"[1..] == "c";
    }
    assert ILike(t[2..], "bbc") by {
      assert "bbc"[1..] == "bc";
    }
    assert ILike(t[1..], "abbc") by {
      assert "abbc"[1..] == "bbc";
    }
  }

  /** Text missing a character of `q`, in either case, does not contain `q`. */
  lemma LacksChar(s: string, q: string, k: nat)
    requires k < |q| && forall j :: 0 <= j < |s| ==> LowerChar(s[j]) != LowerChar(q[k])
    ensures !ContainsNoCase(s, q)
  {
    var ls, lq := Lower(s), Lower(q);
    if Contains(ls, lq) {
      ContainsHasChar(ls, lq, k);
    }
  }

  lemma ContainsHasChar(s: string, t: string, k: nat)
    requires Contains(s, t) && k < |t|
    ensures exists j :: 0 <= j < |s| && s[j] == t[k]
  {
    var i := ContainsWitness(s, t);
    assert s[i..i + |t|][k] == s[i + k];
  }

  lemma SentOfUnderscore()
    ensures SentPattern("a_c") == "%a_c%"
  {
    SearchOfPlain();
    assert '*' !in "%a_c%";
  }

  lemma SearchOfPlain()
    ensures SearchPattern("a_c") == "%a_c%"
    ensures SearchPattern("a*c") == "%a*c%"
  {
    assert ReplaceAll("a_c", '%', "\\%") == "a_c";
    assert ReplaceAll("a*c", '%', "\\%") == "a*c";
  }

  lemma StarReplaced()
    ensures ReplaceAll("%a*c%", '*', "%") == "%a%c%"
  {
  }

  lemma SentOfStar()
    ensures SentPattern("a*c") == "%a%c%"
  {
    SearchOfPlain();
    StarReplaced();
  }

  /** The token a character stands for when no `\` escapes it. */
  function PlainTok(c: char): LikeTok {
    if c == '%' then AnyRun else if c == '_' then AnyOne else Lit(c)
  }

  /** A pattern without `\` is read one character at a time. */
  lemma {:induction false} TokensOfPlain(p: string)
    requires '\\' !in p
    ensures LikeTokens(p) == seq(|p|, i requires 0 <= i < |p| => PlainTok(p[i]))
    decreases |p|
  {
    if p != [] {
      assert p[0] in p;
      assert forall c :: c in p[1..] ==> c in p;
      TokensOfPlain(p[1..]);
    }
  }

  /** `q` as a pattern of literals. */
  function Lits(q: string): (t: seq<LikeTok>)
    ensures |t| == |q|
  {
    seq(|q|, i requires 0 <= i < |q| => Lit(q[i]))
  }

  /** Without `_` or `\` in the search text, escaping `%` leaves pure
      literals between the two wildcards. */
  lemma {:induction false} TokensOfEscaped(q: string)
    requires '_' !in q && '\\' !in q
    ensures LikeTokens(ReplaceAll(q, '%', "\\%") + "%") == Lits(q) + [AnyRun]
    decreases |q|
  {
    var e := ReplaceAll(q, '%', "\\%");
    if q == [] {
      assert e + "%" == "%";
    } else {
      var rest := ReplaceAll(q[1..], '%', "\\%") + "%";
      TokensOfEscaped(q[1..]);
      assert Lits(q) == [Lit(q[0])] + Lits(q[1..]);
      assert q[0] in q;
      if q[0] == '%' {
        assert e + "%" == "\\%" + rest;
        assert ("\\%" + rest)[2..] == rest;
      } else {
        assert e + "%" == [q[0]] + rest;
        assert ([q[0]] + rest)[1..] == rest;
      }
    }
  }

  lemma {:induction false} RunMatchesAll(s: string)
    ensures ILike([AnyRun], s)
    decreases |s|
  {
    assert [AnyRun][1..] == [];
    if s != [] {
      RunMatchesAll(s[1..]);
    }
  }

  /** Literals followed by `%` match exactly the strings that start with them. */
  lemma {:induction false} LitsThenRun(q: string, s: string)
    ensures ILike(Lits(q) + [AnyRun], s) <==> StartsWith(Lower(s), Lower(q))
    decreases |q|
  {
    if q == [] {
      assert Lits(q) + [AnyRun] == [AnyRun];
      RunMatchesAll(s);
    } else {
      var t := Lits(q) + [AnyRun];
      assert t[0] == Lit(q[0]);
      assert t[1..] == Lits(q[1..]) + [AnyRun];
      if s != [] {
        LitsThenRun(q[1..], s[1..]);
        StartsWithLower(s, q);
      }
    }
  }

  lemma StartsWithLower(s: string, q: string)
    requires s != [] && q != []
    ensures StartsWith(Lower(s), Lower(q)) <==>
      LowerChar(s[0]) == LowerChar(q[0]) && StartsWith(Lower(s[1..]), Lower(q[1..]))
  {
    var ls, lq := Lower(s), Lower(q);
    assert Lower(s[1..]) == ls[1..];
    assert Lower(q[1..]) == lq[1..];
    if |q| <= |s| {
      assert ls[..|q|] == [ls[0]] + ls[1..][..|q| - 1];
      assert lq == [lq[0]] + lq[1..];
    }
  }

  /** A leading `%` lets the rest of the pattern start anywhere. */
  lemma {:induction false} RunThen(t: seq<LikeTok>, s: string)
    ensures ILike([AnyRun] + t, s) <==> exists i :: 0 <= i <= |s| && ILike(t, s[i..])
    decreases |s|
  {
    var u := [AnyRun] + t;
    assert u[0] == AnyRun && u[1..] == t;
    assert s[0..] == s;
    if s != [] {
      RunThen(t, s[1..]);
      forall i | 1 <= i <= |s|
        ensures s[1..][i - 1..] == s[i..]
      {
      }
      if exists i :: 0 <= i <= |s| && ILike(t, s[i..]) {
        var i :| 0 <= i <= |s| && ILike(t, s[i..]);
        if i > 0 {
          assert ILike(t, s[1..][i - 1..]);
        }
      }
    }
  }

  /** Containment, read position by position. */
  lemma {:induction false} ContainsNoCaseAt(s: string, q: string)
    ensures ContainsNoCase(s, q) <==> exists i :: 0 <= i <= |s| && StartsWith(Lower(s[i..]), Lower(q))
    decreases |s|
  {
    assert s[0..] == s;
    if s != [] {
      ContainsNoCaseAt(s[1..], q);
      assert Lower(s)[1..] == Lower(s[1..]);
      forall i | 1 <= i <= |s|
        ensures s[1..][i - 1..] == s[i..]
      {
      }
      if exists i :: 0 <= i <= |s| && StartsWith(Lower(s[i..]), Lower(q)) {
        var i :| 0 <= i <= |s| && StartsWith(Lower(s[i..]), Lower(q));
        if i > 0 {
          assert StartsWith(Lower(s[1..][i - 1..]), Lower(q));
        }
      }
    }
  }

  /** Without `_`, `*` or `\` in the search text, the search as written is
      the case-insensitive containment it is meant to be. */
  lemma SearchAgrees(q: string, s: string)
    requires '_' !in q && '*' !in q && '\\' !in q
    ensures ILike(LikeTokens(SentPattern(q)), s) <==> ContainsNoCase(s, q)
  {
    var e := ReplaceAll(q, '%', "\\%");
    ReplaceAllKeeps(q, '%', "\\%", '*');
    assert SearchPattern(q) == "%" + (e + "%");
    assert '*' !in SearchPattern(q);
    assert SentPattern(q) == SearchPattern(q);
    assert ("%" + (e + "%"))[1..] == e + "%";
    TokensOfEscaped(q);
    var t := Lits(q) + [AnyRun];
    assert LikeTokens(SearchPattern(q)) == [AnyRun] + t;
    RunThen(t, s);
    ContainsNoCaseAt(s, q);
    forall i | 0 <= i <= |s|
      ensures ILike(t, s[i..]) <==> StartsWith(Lower(s[i..]), Lower(q))
    {
      LitsThenRun(q, s[i..]);
    }
  }

  /** The rows the written search keeps are those the intended one keeps,
      whenever the search text has no `_`, `*` or `\`. */
  lemma QueryAgrees(r: Referral, q: string)
    requires '_' !in q && '*' !in q && '\\' !in q
    ensures MatchesQueryAsWritten(r, q) <==> MatchesQuery(r, q)
  {
    forall i | 0 <= i < 4 && SearchedColumns(r)[i].Some?
      ensures ILike(LikeTokens(SentPattern(q)), SearchedColumns(r)[i].value) <==> ContainsNoCase(SearchedColumns(r)[i].value, q)
    {
      SearchAgrees(q, SearchedColumns(r)[i].value);
    }
  }
}
