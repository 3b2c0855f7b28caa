/** The admin dashboard (`app/admin/page.tsx`): the access check on mount,
    the paged table, the optimistic status change and the CSV export.  The
    page talks to the two admin routes; here it calls their models directly,
    with the table state and the database's failures as parameters. */
module AdminPage {
  import opened Wrappers
  import opened JsText
  import opened JsValue
  import opened ReferralsDb
  import opened AdminAuth
  import opened AdminList
  import opened AdminUpdateStatus
  import opened Csv

  const PageSize: nat := 10
  /** The `limit` the export asks for on each request. */
  const ExportChunk: nat := 500
  const MsgFetchFailed: string := "No pudimos cargar los referidos."
  const MsgExportPrepareFailed: string := "No pudimos preparar la exportación."
  const MsgExportFailed: string := "Error exportando los referidos."

  // ---------------------------------------------------------------------------
  // Paging

  /** `Math.max(1, Math.ceil(total / pageSize))`. */
  function TotalPages(total: nat): (n: nat)
    ensures n >= 1
    ensures total <= n * PageSize
    ensures total > 0 ==> (n - 1) * PageSize < total
  {
    if total == 0 then 1 else (total + PageSize - 1) / PageSize
  }

  /** The "previous" button: `Math.max(0, p - 1)`. */
  function PrevPage(p: nat): (r: nat)
    ensures r <= p && (p > 0 ==> r == p - 1)
  {
    if p == 0 then 0 else p - 1
  }

  /** The "next" button: `Math.min(totalPages - 1, p + 1)`. */
  function NextPage(p: nat, total: nat): (r: nat)
    ensures r < TotalPages(total)
    ensures p + 1 < TotalPages(total) ==> r == p + 1
    ensures p + 1 >= TotalPages(total) ==> r == TotalPages(total) - 1
  {
    var last := TotalPages(total) - 1;
    if p + 1 < last then p + 1 else last
  }

  /** The buttons never leave the range of pages. */
  lemma ButtonsStayInRange(p: nat, total: nat)
    requires p < TotalPages(total)
    ensures PrevPage(p) < TotalPages(total) && NextPage(p, total) < TotalPages(total)
    ensures NextPage(p, total) >= p
  {
  }

  /** Every row of a listing sits on one of the pages the buttons reach: the
      pages `0 .. TotalPages - 1` together are the listing. */
  lemma PagesShowAll(l: seq<Referral>)
    ensures PagesUpTo(l, PageSize, TotalPages(|l|)) == l
  {
    PagesConcatenate(l, PageSize, TotalPages(|l|));
  }

  /** Each reachable page of a non-empty listing holds at least one row. */
  lemma NoEmptyPage(l: seq<Referral>, p: nat)
    requires |l| > 0 && p < TotalPages(|l|)
    ensures Range(l, p * PageSize, PageSize) != []
  {
    assert p * PageSize <= (TotalPages(|l|) - 1) * PageSize;
  }

  // ---------------------------------------------------------------------------
  // Requests

  /** `accessToken ? { Authorization: "Bearer " + token } : {}`. */
  function AuthHeader(token: Option<string>): (h: Option<string>)
    ensures h.Some? <==> token.Some? && token.value != ""
    ensures h.Some? ==> BearerToken(h) == token.value
  {
    if token.Some? && token.value != "" then
      BearerTokenOfHeader(token.value);
      Some(BearerPrefix + token.value)
    else None
  }

  /** The search box and the status filter as query parameters: each is set
      only when non-empty, the search trimmed. */
  function Params(q: string, status: string, limit: nat, offset: nat): ListParams {
    ListParams(if Trim(q) != [] then Some(Trim(q)) else None,
               if status != [] then Some(status) else None,
               Some(limit), Some(offset))
  }

  /** What the list route filters on, for the page's search and status. */
  lemma ParamsFilters(q: string, status: string, limit: nat, offset: nat)
    ensures var p := Params(q, status, limit, offset);
      && Trim(p.q.GetOr("")) == Trim(q)
      && Trim(p.status.GetOr("")) == Trim(status)
      && ClampOffset(p.offset) == offset
  {
    TrimIdempotent(q);
  }

  /** The probe's answer: the fetch threw, or a status and the body's `ok`. */
  datatype Probe = ProbeThrew | ProbeReplied(status: int, jsonOk: bool)

  /** The list route's answer as the page receives it. */
  function ProbeOf(r: ListResponse): Probe {
    match r
    case ListOk(_, _) => ProbeReplied(200, true)
    case ListFail(s, _) => ProbeReplied(s, false)
  }

  datatype Access = Checking | NoSession | NoAdmin | AdminAccess

  /** The mount effect's verdict: no session token, a 403, another failure
      (401 meaning the session is gone), success, or a fetch that threw. */
  function AccessAfterProbe(session: Option<string>, probe: Probe): Access {
    if session.None? || session.value == "" then NoSession
    else match probe
      case ProbeThrew => NoAdmin
      case ProbeReplied(status, jsonOk) =>
        if status == 403 then NoAdmin
        else if !(200 <= status < 300 && jsonOk) then (if status == 401 then NoSession else NoAdmin)
        else AdminAccess
  }

  /** The token the page keeps: dropped with the session, kept otherwise. */
  function TokenAfterProbe(session: Option<string>, probe: Probe): Option<string> {
    if AccessAfterProbe(session, probe) == NoSession then None else session
  }

  /** The probe asks the list route for one row with the session's token, so
      the page shows the dashboard exactly when the route's admin gate lets
      the token through (and the query works), and treats the session as
      gone exactly when no user has that token. */
  lemma AccessMatchesGate(table: seq<Referral>, be: AdminBackend, t: string, queryFails: bool)
    requires t != ""
    ensures var h := Some(BearerPrefix + t);
      var a := AccessAfterProbe(Some(t), ProbeOf(List(table, h, be, ListParams(None, None, Some(1), Some(0)), queryFails)));
      && (a == AdminAccess <==> AdminGate(h, be).Admin? && !queryFails)
      && (a == NoSession <==> be.getUser(t).None?)
  {
    BearerTokenOfHeader(t);
  }

  // ---------------------------------------------------------------------------
  // Export

  /** The pages the export loop asks for: `k` requests of `size` rows at
      offsets `0, step, 2 * step, ...`. */
  function Chunks(l: seq<Referral>, step: nat, size: nat, k: nat): (r: seq<Referral>)
    ensures |r| <= k * size
    decreases k
  {
    if k == 0 then []
    else
      assert (k - 1) * size + size == k * size;
      Chunks(l, step, size, k - 1) + Range(l, (k - 1) * step, size)
  }

  /** The number of requests `for (offset = 0; offset < total; offset += step)` makes. */
  function Requests(total: nat, step: nat): (k: nat)
    requires step >= 1
    ensures k * step >= total
    ensures k > 0 ==> (k - 1) * step < total
  {
    (total + step - 1) / step
  }

  /** The rows the export gathers from a listing, asking for `chunk` rows at
      a time from a route that serves at most `MaxLimit`. */
  function ExportedRows(l: seq<Referral>, chunk: nat): seq<Referral>
    requires chunk >= 1
  {
    Chunks(l, chunk, ClampLimit(Some(chunk)), Requests(|l|, chunk))
  }

  /** Asking for pages of the size the route serves walks the listing. */
  lemma {:induction false} ChunksOfServedSize(l: seq<Referral>, n: nat, k: nat)
    ensures Chunks(l, n, n, k) == PagesUpTo(l, n, k)
    decreases k
  {
    if k > 0 {
      ChunksOfServedSize(l, n, k - 1);
    }
  }

  /** As written, the export asks for 500 rows per request and the route
      serves 100, so any listing of more than 100 rows loses rows. */
  lemma ExportLosesRows(l: seq<Referral>)
    requires |l| > MaxLimit
    ensures |ExportedRows(l, ExportChunk)| < |l|
  {
    var t := |l|;
    var k := Requests(t, ExportChunk);
    assert ClampLimit(Some(ExportChunk)) == MaxLimit;
    assert |ExportedRows(l, ExportChunk)| <= k * 100;
    if t <= 500 {
      assert k == 1;
    } else {
      assert (k - 1) * 500 < t;
      assert k * 100 < t;
    }
  }

  /** Asking for `MaxLimit` rows per request gathers the whole listing. */
  lemma ExportCorrectedIsComplete(l: seq<Referral>)
    ensures ExportedRows(l, MaxLimit) == l
  {
    var k := Requests(|l|, MaxLimit);
    ChunksOfServedSize(l, MaxLimit, k);
    PagesConcatenate(l, MaxLimit, k);
  }

  /** The table sorted and filtered has as many rows as the filter keeps. */
  lemma ListingSize(rows: seq<Referral>, status: string, q: string)
    ensures |Listing(rows, status, q)| == |Filter(rows, status, q)|
  {
    FilterColumns(rows, status, q);
    assert |multiset(Listing(rows, status, q))| == |multiset(Filter(Columns(rows), status, q))|;
  }

  /** The list route selects neither `notes` nor the campaign columns, so
      every row line of the export has empty "Campaña", "Landing" and
      "Notas" fields, whatever the table holds. */
  lemma ExportedColumnsBlank(table: seq<Referral>, status: string, q: string, chunk: nat, fmt: int -> string)
    requires chunk >= 1
    ensures var recs := Records(ExportedRows(Listing(table, status, q), chunk), fmt);
      forall i :: 1 <= i < |recs| ==>
        |recs[i]| == |Headers| && recs[i][9] == "" && recs[i][10] == "" && recs[i][11] == ""
  {
    var l := Listing(table, status, q);
    var data := ExportedRows(l, chunk);
    forall x | x in data
      ensures x.notes.None? && x.tracking == NoTracking
    {
      ChunksFrom(l, chunk, ClampLimit(Some(chunk)), Requests(|l|, chunk), x);
      assert x in multiset(Filter(Columns(table), status, q));
      InColumns(table, x);
    }
    RecordsBlank(data, fmt);
  }

  /** Rows without notes and campaign columns give lines whose last three
      fields are empty. */
  lemma RecordsBlank(data: seq<Referral>, fmt: int -> string)
    requires forall x :: x in data ==> x.notes.None? && x.tracking == NoTracking
    ensures var recs := Records(data, fmt);
      forall i :: 1 <= i < |recs| ==>
        |recs[i]| == |Headers| && recs[i][9] == "" && recs[i][10] == "" && recs[i][11] == ""
  {
    forall i | 1 <= i < |data| + 1
      ensures var rec := Records(data, fmt)[i]; |rec| == |Headers| && rec[9] == "" && rec[10] == "" && rec[11] == ""
    {
      RowRecordsAt(data, fmt, i - 1);
      assert data[i - 1] in data;
    }
  }

  /** The export gathers rows of the listing only. */
  lemma {:induction false} ChunksFrom(l: seq<Referral>, step: nat, size: nat, k: nat, x: Referral)
    requires x in Chunks(l, step, size, k)
    ensures x in l
    decreases k
  {
    if k > 0 {
      var before := Chunks(l, step, size, k - 1);
      var last := Range(l, (k - 1) * step, size);
      assert Chunks(l, step, size, k) == before + last;
      if x in before {
        ChunksFrom(l, step, size, k - 1, x);
      } else {
        InRange(l, (k - 1) * step, size, x);
      }
    }
  }

  // ---------------------------------------------------------------------------
  // The page's state

  class AdminView {
    var rows: seq<Referral>
    var total: nat
    var page: nat
    var error: string
    var access: Access
    var token: Option<string>

    constructor ()
      ensures rows == [] && total == 0 && page == 0 && error == ""
      ensures access == Checking && token == None
    {
      rows, total, page, error := [], 0, 0, "";
      access, token := Checking, None;
    }

    /** The mount effect: read the session, probe the list route, decide. */
    method CheckAccess(session: Option<string>, probe: Probe)
      modifies this
      ensures access == AccessAfterProbe(session, probe)
      ensures token == TokenAfterProbe(session, probe)
      ensures error == "" && rows == old(rows) && total == old(total) && page == old(page)
    {
      access := Checking;
      error := "";
      if session.None? || session.value == "" {
        token := None;
        access := NoSession;
        return;
      }
      token := session;
      match probe {
        case ProbeThrew =>
          access := NoAdmin;
        case ProbeReplied(status, jsonOk) =>
          if status == 403 {
            access := NoAdmin;
          } else if !(200 <= status < 300 && jsonOk) {
            if status == 401 {
              token := None;
              access := NoSession;
            } else {
              access := NoAdmin;
            }
          } else {
            access := AdminAccess;
          }
      }
    }

    /** `fetchRows`: ask for the current page (or the first) and show it, or
        show the error and an empty table. */
    method FetchRows(table: seq<Referral>, be: AdminBackend, q: string, status: string, resetPage: bool, queryFails: bool)
      modifies this
      ensures page == if resetPage then 0 else old(page)
      ensures var resp := List(table, AuthHeader(token), be, Params(q, status, PageSize, page * PageSize), queryFails);
        && (resp.ListOk? ==> rows == resp.page && total == resp.total && error == "")
        && (resp.ListFail? ==> rows == [] && total == 0 && error == NonEmpty(resp.message, MsgFetchFailed))
      ensures token == old(token) && access == old(access)
    {
      var current := if resetPage then 0 else page;
      var resp := List(table, AuthHeader(token), be, Params(q, status, PageSize, current * PageSize), queryFails);
      page := current;
      if resp.ListOk? {
        rows, total, error := resp.page, resp.total, "";
      } else {
        rows, total, error := [], 0, NonEmpty(resp.message, MsgFetchFailed);
      }
    }

    method GoPrev()
      modifies this
      ensures page == PrevPage(old(page))
      ensures rows == old(rows) && total == old(total) && error == old(error)
    {
      page := PrevPage(page);
    }

    method GoNext()
      modifies this
      ensures page == NextPage(old(page), total)
      ensures rows == old(rows) && total == old(total) && error == old(error)
    {
      page := NextPage(page, total);
    }

    /** `updateStatus`: change the row on screen at once, send the update,
        and put the old rows back if it fails. */
    method UpdateStatus(db: ReferralTable, be: AdminBackend, id: string, next: string, updateFails: bool)
      returns (resp: StatusResponse)
      modifies this, db
      ensures var body := map["id" := Str(id), "status" := Str(next)];
        (resp, db.rows) == AdminUpdateStatus.UpdateStatus(old(db.rows), AuthHeader(token), be, Some(body), updateFails)
      ensures resp.Updated? ==> rows == SetStatusRows(old(rows), id, next) && error == ""
      ensures resp.StatusFail? ==> rows == old(rows) && error == NonEmpty(resp.message, MsgUpdateFailed) && db.rows == old(db.rows)
      ensures token == old(token) && total == old(total) && page == old(page)
    {
      error := "";
      var prev := rows;
      rows := SetStatusRows(rows, id, next);
      var body := map["id" := Str(id), "status" := Str(next)];
      resp := Patch(db, AuthHeader(token), be, Some(body), updateFails);
      if resp.StatusFail? {
        rows := prev;
        error := NonEmpty(resp.message, MsgUpdateFailed);
      }
    }

    /** `handleExport`: a first request for the total, then the chunks, then
        the CSV of what arrived.  `fails(k)` is the database failing the
        `k`-th request.  Nothing happens without a token. */
    method Export(table: seq<Referral>, be: AdminBackend, q: string, status: string, chunk: nat,
                  fails: nat -> bool, fmt: int -> string)
      returns (csv: Option<string>)
      requires chunk >= 1
      modifies this
      ensures (token.None? || token.value == "") ==> csv.None? && error == old(error)
      ensures csv.Some? ==>
        && AdminGate(AuthHeader(token), be).Admin?
        && csv.value == CsvDocument(ExportedRows(Listing(table, Trim(status), Trim(q)), chunk), fmt)
        && error == ""
      ensures csv.None? && token.Some? && token.value != "" ==> error != ""
      ensures csv.None? && token.Some? && token.value != "" ==>
        || AdminGate(AuthHeader(token), be).Denied?
        || exists j :: 0 <= j <= Requests(|Listing(table, Trim(status), Trim(q))|, chunk) && fails(j)
      ensures rows == old(rows) && token == old(token) && total == old(total) && page == old(page)
    {
      if token.None? || token.value == "" {
        return None;
      }
      var message;
      csv, message := ExportCsv(table, AuthHeader(token), be, q, status, chunk, fails, fmt);
      error := message;
    }
  }

  /** The requests of `handleExport` once a token is there: the CSV, or the
      message the page shows. */
  method ExportCsv(table: seq<Referral>, header: Option<string>, be: AdminBackend, q: string, status: string,
                   chunk: nat, fails: nat -> bool, fmt: int -> string)
    returns (csv: Option<string>, message: string)
    requires chunk >= 1
    ensures csv.Some? ==>
      && AdminGate(header, be).Admin?
      && csv.value == CsvDocument(ExportedRows(Listing(table, Trim(status), Trim(q)), chunk), fmt)
      && message == ""
    ensures csv.None? ==> message != ""
    ensures csv.None? ==>
      || AdminGate(header, be).Denied?
      || exists j :: 0 <= j <= Requests(|Listing(table, Trim(status), Trim(q))|, chunk) && fails(j)
  {
    var first := List(table, header, be, Params(q, status, 1, 0), fails(0));
    if first.ListFail? {
      ListFailCause(table, header, be, Params(q, status, 1, 0), fails(0));
      assert AdminGate(header, be).Denied? || (0 <= 0 <= Requests(|Listing(table, Trim(status), Trim(q))|, chunk) && fails(0));
      return None, NonEmpty(first.message, MsgExportPrepareFailed);
    }
    FirstGivesTotal(table, header, be, q, status, fails(0));
    var all, m := FetchChunks(table, header, be, q, status, chunk, first.total, fails);
    if all.None? {
      return None, m;
    }
    csv, message := Some(CsvDocument(all.value, fmt)), "";
  }

  /** The loop of `handleExport`: ask for `chunk` rows at offsets `0, chunk,
      2 * chunk, ...` below `total` and gather what arrives, or stop at the
      first failed request with its message. */
  method FetchChunks(table: seq<Referral>, header: Option<string>, be: AdminBackend, q: string, status: string,
                     chunk: nat, total: nat, fails: nat -> bool)
    returns (all: Option<seq<Referral>>, message: string)
    requires chunk >= 1
    ensures all.Some? ==>
      all.value == Chunks(Listing(table, Trim(status), Trim(q)), chunk, ClampLimit(Some(chunk)), Requests(total, chunk))
    ensures all.None? ==>
      && message != ""
      && (AdminGate(header, be).Denied? || exists j :: 1 <= j <= Requests(total, chunk) && fails(j))
  {
    ghost var l := Listing(table, Trim(status), Trim(q));
    var gathered: seq<Referral> := [];
    var offset: nat := 0;
    var k: nat := 0;
    while offset < total
      invariant offset == k * chunk
      invariant k > 0 ==> (k - 1) * chunk < total
      invariant gathered == Chunks(l, chunk, ClampLimit(Some(chunk)), k)
      decreases total - offset
    {
      var resp := List(table, header, be, Params(q, status, chunk, offset), fails(k + 1));
      if resp.ListFail? {
        ListFailCause(table, header, be, Params(q, status, chunk, offset), fails(k + 1));
        RequestsUnique(total, chunk, k + 1);
        return None, NonEmpty(resp.message, MsgExportFailed);
      }
      ChunkIsRange(table, header, be, q, status, chunk, offset, fails(k + 1));
      gathered := gathered + resp.page;
      MulSucc(k, chunk);
      offset := offset + chunk;
      k := k + 1;
    }
    RequestsUnique(total, chunk, k);
    all, message := Some(gathered), "";
  }

  /** The first request's total is the size of the listing. */
  lemma FirstGivesTotal(table: seq<Referral>, header: Option<string>, be: AdminBackend, q: string, status: string, f: bool)
    requires List(table, header, be, Params(q, status, 1, 0), f).ListOk?
    ensures AdminGate(header, be).Admin?
    ensures List(table, header, be, Params(q, status, 1, 0), f).total == |Listing(table, Trim(status), Trim(q))|
  {
    ParamsFilters(q, status, 1, 0);
    ListingSize(table, Trim(status), Trim(q));
  }

  /** A chunk request answers with the listing's range at that offset. */
  lemma ChunkIsRange(table: seq<Referral>, header: Option<string>, be: AdminBackend, q: string, status: string,
                     chunk: nat, offset: nat, f: bool)
    requires List(table, header, be, Params(q, status, chunk, offset), f).ListOk?
    ensures List(table, header, be, Params(q, status, chunk, offset), f).page
      == Range(Listing(table, Trim(status), Trim(q)), offset, ClampLimit(Some(chunk)))
  {
    ParamsFilters(q, status, chunk, offset);
    PageIsSlice(table, header, be, Params(q, status, chunk, offset), f);
  }

  /** The loop's count of requests is the ceiling `Requests` names: the
      `k`-th request happens when `(k - 1) * step < total`. */
  lemma RequestsUnique(total: nat, step: nat, k: nat)
    requires step >= 1 && (k > 0 ==> (k - 1) * step < total)
    ensures k * step >= total ==> k == Requests(total, step)
    ensures k <= Requests(total, step)
  {
    var n: int := Requests(total, step);
    MulLe(k, n - 1, step);
    MulLe(n, k - 1, step);
  }

  lemma MulSucc(k: nat, step: nat)
    ensures (k + 1) * step == k * step + step
  {
  }

  /** A listing request fails only at the admin gate or on a database error. */
  lemma ListFailCause(table: seq<Referral>, header: Option<string>, be: AdminBackend, p: ListParams, f: bool)
    requires List(table, header, be, p, f).ListFail?
    ensures AdminGate(header, be).Denied? || f
  {
  }

  lemma MulLe(a: int, b: int, c: nat)
    ensures a <= b ==> a * c <= b * c
  {
  }

  /** The rows a successful fetch shows are the listing's slice for the
      current page, newest first, and the total is the listing's size. */
  lemma FetchedPage(table: seq<Referral>, be: AdminBackend, token: Option<string>, q: string, status: string,
                    page: nat, queryFails: bool)
    requires List(table, AuthHeader(token), be, Params(q, status, PageSize, page * PageSize), queryFails).ListOk?
    ensures var resp := List(table, AuthHeader(token), be, Params(q, status, PageSize, page * PageSize), queryFails);
      && resp.page == Range(Listing(table, Trim(status), Trim(q)), page * PageSize, PageSize)
      && resp.total == |Listing(table, Trim(status), Trim(q))|
  {
    var p := Params(q, status, PageSize, page * PageSize);
    ParamsFilters(q, status, PageSize, page * PageSize);
    PageIsSlice(table, AuthHeader(token), be, p, queryFails);
    ListingSize(table, Trim(status), Trim(q));
  }

  /** `message || fallback`: the message unless it is empty. */
  function NonEmpty(message: string, fallback: string): (r: string)
    ensures message != [] ==> r == message
    ensures message == [] ==> r == fallback
    ensures r != [] || fallback == []
  {
    if message != [] then message else fallback
  }
}
