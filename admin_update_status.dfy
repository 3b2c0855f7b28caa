/** `PATCH /api/admin/referrals/update-status`
    (`app/api/admin/referrals/update-status/route.ts`): behind the admin gate,
    set the status of one referral to one of the four allowed values. */
module AdminUpdateStatus {
  import opened Wrappers
  import opened JsText
  import opened JsValue
  import opened ReferralsDb
  import opened AdminAuth

  const MsgIdRequired: string := "ID requerido."
  const MsgBadStatus: string := "Estado inválido."
  const MsgUpdateFailed: string := "No pudimos actualizar el estado."

  /** `ALLOWED`: the pipeline of a referral. */
  predicate Allowed(status: string) {
    status == "registered" || status == "contacted" || status == "quoted" || status == "contracted"
  }

  datatype StatusResponse = Updated(row: Referral) | StatusFail(status: int, message: string)

  /** `String(body?.id || "").trim()`; a body that is not JSON reads as `{}`. */
  function BodyText(body: Option<Body>, key: string): string {
    var b := body.GetOr(map[]);
    Trim(StringOrEmptyIfFalsy(Field(b, key)))
  }

  /** The row carrying `id`, if any. */
  function FindRow(rows: seq<Referral>, id: string): (r: Option<Referral>)
    ensures r.Some? <==> HasId(rows, id)
    ensures r.Some? ==> r.value.id == id && r.value in rows
    decreases |rows|
  {
    if rows == [] then None
    else if rows[0].id == id then Some(rows[0])
    else
      var r := FindRow(rows[1..], id);
      assert HasId(rows, id) <==> HasId(rows[1..], id) by {
        if HasId(rows, id) {
          var i :| 0 <= i < |rows| && rows[i].id == id;
          assert rows[1..][i - 1].id == id;
        }
        if HasId(rows[1..], id) {
          var i :| 0 <= i < |rows[1..]| && rows[1..][i].id == id;
          assert rows[i + 1].id == id;
        }
      }
      r
  }

  /** The route's effect: the response and the table afterwards.
      `updateFails` is the database reporting an error on the update; an
      update that matches no row also fails, as `.single()` finds no row. */
  function UpdateStatus(rows: seq<Referral>, header: Option<string>, be: AdminBackend, body: Option<Body>, updateFails: bool)
    : (r: (StatusResponse, seq<Referral>))
  {
    var gate := AdminGate(header, be);
    if gate.Denied? then (StatusFail(gate.status, gate.message), rows)
    else
      var id := BodyText(body, "id");
      var status := BodyText(body, "status");
      if id == "" then (StatusFail(400, MsgIdRequired), rows)
      else if !Allowed(status) then (StatusFail(400, MsgBadStatus), rows)
      else if updateFails || !HasId(rows, id) then (StatusFail(500, MsgUpdateFailed), rows)
      else
        var after := SetStatusRows(rows, id, status);
        SetStatusKeepsIds(rows, id, status);
        (Updated(FindRow(after, id).value), after)
  }

  /** `PATCH`, step by step, on the table. */
  method Patch(db: ReferralTable, header: Option<string>, be: AdminBackend, body: Option<Body>, updateFails: bool)
    returns (resp: StatusResponse)
    modifies db
    ensures (resp, db.rows) == UpdateStatus(old(db.rows), header, be, body, updateFails)
  {
    var gate := AdminGate(header, be);
    if gate.Denied? {
      return StatusFail(gate.status, gate.message);
    }
    var id := BodyText(body, "id");
    var status := BodyText(body, "status");
    if id == "" {
      return StatusFail(400, MsgIdRequired);
    }
    if !Allowed(status) {
      return StatusFail(400, MsgBadStatus);
    }
    if updateFails || !HasId(db.rows, id) {
      return StatusFail(500, MsgUpdateFailed);
    }
    db.SetStatus(id, status);
    SetStatusKeepsIds(old(db.rows), id, status);
    resp := Updated(FindRow(db.rows, id).value);
  }

  /** The update keeps the id, and every row carrying it has the new status. */
  lemma SetStatusKeepsIds(rows: seq<Referral>, id: string, status: string)
    requires HasId(rows, id)
    ensures HasId(SetStatusRows(rows, id, status), id)
    ensures forall x :: x in SetStatusRows(rows, id, status) && x.id == id ==> x.status == status
  {
    var i :| 0 <= i < |rows| && rows[i].id == id;
    assert SetStatusRows(rows, id, status)[i].id == id;
  }

  // ---------------------------------------------------------------------------
  // Properties

  /** The admin gate decides first: a refused request gets the gate's status
      and message whatever its body, and the table is left alone. */
  lemma GateFirst(rows: seq<Referral>, header: Option<string>, be: AdminBackend, body: Option<Body>, updateFails: bool)
    requires AdminGate(header, be).Denied?
    ensures UpdateStatus(rows, header, be, body, updateFails)
      == (StatusFail(AdminGate(header, be).status, AdminGate(header, be).message), rows)
  {
  }

  /** A blank id is refused before the status is looked at. */
  lemma EmptyIdRefused(rows: seq<Referral>, header: Option<string>, be: AdminBackend, body: Option<Body>, updateFails: bool)
    requires AdminGate(header, be).Admin? && BodyText(body, "id") == ""
    ensures UpdateStatus(rows, header, be, body, updateFails) == (StatusFail(400, MsgIdRequired), rows)
  {
  }

  /** A status outside the four allowed ones is refused, whatever the row. */
  lemma BadStatusRefused(rows: seq<Referral>, header: Option<string>, be: AdminBackend, body: Option<Body>, updateFails: bool)
    requires AdminGate(header, be).Admin? && BodyText(body, "id") != ""
    requires !Allowed(BodyText(body, "status"))
    ensures UpdateStatus(rows, header, be, body, updateFails) == (StatusFail(400, MsgBadStatus), rows)
  {
  }

  /** The route changes the table only when it answers with the updated row,
      and then only the status of the rows carrying the requested id, to the
      requested status; the row it answers with is the one it updated. */
  lemma UpdateEffect(rows: seq<Referral>, header: Option<string>, be: AdminBackend, body: Option<Body>, updateFails: bool)
    ensures var (resp, after) := UpdateStatus(rows, header, be, body, updateFails);
      && (resp.StatusFail? ==> after == rows)
      && (resp.Updated? ==>
            && AdminGate(header, be).Admin? && !updateFails
            && resp.row.status == BodyText(body, "status") && Allowed(resp.row.status)
            && resp.row.id == BodyText(body, "id") && resp.row in after
            && after == SetStatusRows(rows, BodyText(body, "id"), BodyText(body, "status")))
  {
    var (resp, after) := UpdateStatus(rows, header, be, body, updateFails);
    if resp.Updated? {
      var id, status := BodyText(body, "id"), BodyText(body, "status");
      SetStatusKeepsIds(rows, id, status);
    }
  }

  /** An admitted request with an id, an allowed status and a row carrying
      that id is answered with the updated row exactly when the database
      reports no error. */
  lemma UpdateSucceeds(rows: seq<Referral>, header: Option<string>, be: AdminBackend, body: Option<Body>, updateFails: bool)
    requires AdminGate(header, be).Admin? && BodyText(body, "id") != ""
    requires Allowed(BodyText(body, "status")) && HasId(rows, BodyText(body, "id"))
    ensures var resp := UpdateStatus(rows, header, be, body, updateFails).0;
      && (resp.Updated? <==> !updateFails)
      && (resp.StatusFail? ==> resp == StatusFail(500, MsgUpdateFailed))
      && (resp.Updated? ==> resp.row.id == BodyText(body, "id") && resp.row.status == BodyText(body, "status"))
  {
    SetStatusKeepsIds(rows, BodyText(body, "id"), BodyText(body, "status"));
  }

  /** A request for an id no row carries fails with a 500, as `.single()`
      finds nothing, and the table is left alone. */
  lemma MissingRowFails(rows: seq<Referral>, header: Option<string>, be: AdminBackend, body: Option<Body>, updateFails: bool)
    requires AdminGate(header, be).Admin? && BodyText(body, "id") != ""
    requires Allowed(BodyText(body, "status")) && !HasId(rows, BodyText(body, "id"))
    ensures UpdateStatus(rows, header, be, body, updateFails) == (StatusFail(500, MsgUpdateFailed), rows)
  {
  }

  /** Sending the same update twice leaves the table as sending it once. */
  lemma UpdateIdempotent(rows: seq<Referral>, header: Option<string>, be: AdminBackend, body: Option<Body>)
    ensures var after := UpdateStatus(rows, header, be, body, false).1;
      UpdateStatus(after, header, be, body, false).1 == after
  {
    var after := UpdateStatus(rows, header, be, body, false).1;
    var id, status := BodyText(body, "id"), BodyText(body, "status");
    if AdminGate(header, be).Admin? && id != "" && Allowed(status) && HasId(rows, id) {
      SetStatusKeepsIds(rows, id, status);
      SetStatusIdempotent(rows, id, status);
    }
  }

  /** A row carrying any other id is left exactly as it was. */
  lemma OnlyThatRow(rows: seq<Referral>, header: Option<string>, be: AdminBackend, body: Option<Body>, updateFails: bool, j: nat)
    requires j < |rows| && rows[j].id != BodyText(body, "id")
    ensures var after := UpdateStatus(rows, header, be, body, updateFails).1;
      |after| == |rows| && after[j] == rows[j]
  {
    SetStatusEffect(rows, BodyText(body, "id"), BodyText(body, "status"), j);
  }
}
