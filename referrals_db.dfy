/** The `referrals` table as the route handlers see it: an in-memory sequence
    of rows, with the two in-place updates the handlers issue (the claim of
    anonymous rows and the status change) besides the insert. */
module ReferralsDb {
  import opened Wrappers

  /** The campaign columns, each `null` or a cleaned string. */
  datatype Tracking = Tracking(
    camp: Option<string>,
    utmSource: Option<string>,
    utmMedium: Option<string>,
    utmCampaign: Option<string>,
    utmTerm: Option<string>,
    utmContent: Option<string>,
    landingPath: Option<string>,
    referer: Option<string>)

  /** One row of `referrals`.  `createdAt` is milliseconds since the epoch. */
  datatype Referral = Referral(
    id: string,
    createdAt: int,
    referrerUserId: Option<string>,
    referrerEmail: Option<string>,
    referredName: string,
    referredEmail: Option<string>,
    referredPhone: string,
    consent: bool,
    status: string,
    notes: Option<string>,
    tracking: Tracking)

  predicate IdsDistinct(rows: seq<Referral>) {
    forall i, j :: 0 <= i < j < |rows| ==> rows[i].id != rows[j].id
  }

  predicate HasId(rows: seq<Referral>, id: string) {
    exists i :: 0 <= i < |rows| && rows[i].id == id
  }

  // ---------------------------------------------------------------------------
  // Claim: `update({ referrer_user_id }).is("referrer_user_id", null).eq("referrer_email", email)`

  /** A row the claim update matches. */
  predicate Claimable(r: Referral, email: string) {
    r.referrerUserId.None? && r.referrerEmail == Some(email)
  }

  function ClaimOne(r: Referral, uid: string, email: string): Referral {
    if Claimable(r, email) then r.(referrerUserId := Some(uid)) else r
  }

  /** The table after the claim update. */
  function ClaimRows(rows: seq<Referral>, uid: string, email: string): seq<Referral> {
    seq(|rows|, i requires 0 <= i < |rows| => ClaimOne(rows[i], uid, email))
  }

  /** The number of rows the claim update matches, counted front to back. */
  function CountClaimable(rows: seq<Referral>, email: string): (n: nat)
    ensures n <= |rows|
    decreases |rows|
  {
    if rows == [] then 0
    else CountClaimable(rows[..|rows| - 1], email) + (if Claimable(rows[|rows| - 1], email) then 1 else 0)
  }

  /** The number of positions at which two equally long tables differ. */
  function ChangedCount(a: seq<Referral>, b: seq<Referral>): nat
    requires |a| == |b|
    decreases |a|
  {
    if a == [] then 0
    else ChangedCount(a[..|a| - 1], b[..|b| - 1]) + (if a[|a| - 1] != b[|b| - 1] then 1 else 0)
  }

  /** The claim touches exactly the matched rows: each of them gets the user id
      and nothing else, every other row stays as it was. */
  lemma ClaimRowsEffect(rows: seq<Referral>, uid: string, email: string, i: nat)
    requires i < |rows|
    ensures |ClaimRows(rows, uid, email)| == |rows|
    ensures Claimable(rows[i], email) ==> ClaimRows(rows, uid, email)[i] == rows[i].(referrerUserId := Some(uid))
    ensures !Claimable(rows[i], email) ==> ClaimRows(rows, uid, email)[i] == rows[i]
    ensures ClaimRows(rows, uid, email)[i].referrerEmail == rows[i].referrerEmail
  {
  }

  /** The reported count is the number of rows that changed. */
  lemma {:induction false} ClaimCountIsChanged(rows: seq<Referral>, uid: string, email: string)
    ensures ChangedCount(rows, ClaimRows(rows, uid, email)) == CountClaimable(rows, email)
    decreases |rows|
  {
    if rows != [] {
      var n := |rows| - 1;
      assert ClaimRows(rows, uid, email)[..n] == ClaimRows(rows[..n], uid, email);
      ClaimCountIsChanged(rows[..n], uid, email);
      assert Claimable(rows[n], email) ==> rows[n].referrerUserId != Some(uid);
    }
  }

  /** After a claim no row is claimable any more, so a second claim reports 0. */
  lemma {:induction false} ClaimLeavesNothing(rows: seq<Referral>, uid: string, email: string)
    ensures CountClaimable(ClaimRows(rows, uid, email), email) == 0
    decreases |rows|
  {
    if rows != [] {
      var n := |rows| - 1;
      assert ClaimRows(rows, uid, email)[..n] == ClaimRows(rows[..n], uid, email);
      ClaimLeavesNothing(rows[..n], uid, email);
    }
  }

  /** Claiming twice is claiming once. */
  lemma ClaimIdempotent(rows: seq<Referral>, uid: string, email: string)
    ensures ClaimRows(ClaimRows(rows, uid, email), uid, email) == ClaimRows(rows, uid, email)
  {
  }

  // ---------------------------------------------------------------------------
  // Status change: `update({ status }).eq("id", id)`

  /** The table with the status of every row carrying `id` replaced. */
  function SetStatusRows(rows: seq<Referral>, id: string, status: string): seq<Referral> {
    seq(|rows|, i requires 0 <= i < |rows| => if rows[i].id == id then rows[i].(status := status) else rows[i])
  }

  /** Only the status of the row with that id changes. */
  lemma SetStatusEffect(rows: seq<Referral>, id: string, status: string, i: nat)
    requires i < |rows|
    ensures |SetStatusRows(rows, id, status)| == |rows|
    ensures rows[i].id == id ==> SetStatusRows(rows, id, status)[i] == rows[i].(status := status)
    ensures rows[i].id != id ==> SetStatusRows(rows, id, status)[i] == rows[i]
  {
  }

  lemma SetStatusIdempotent(rows: seq<Referral>, id: string, status: string)
    ensures SetStatusRows(SetStatusRows(rows, id, status), id, status) == SetStatusRows(rows, id, status)
  {
  }

  /** The table: its rows, changed in place by the handlers. */
  class ReferralTable {
    var rows: seq<Referral>

    constructor (initial: seq<Referral>)
      ensures rows == initial
    {
      rows := initial;
    }

    /** `insert(row)`. */
    method Append(row: Referral)
      modifies this
      ensures rows == old(rows) + [row]
    {
      rows := rows + [row];
    }

    /** The claim update; returns how many rows it matched (the rows the
        update hands back). */
    method Claim(uid: string, email: string) returns (claimed: nat)
      modifies this
      ensures rows == ClaimRows(old(rows), uid, email)
      ensures claimed == CountClaimable(old(rows), email)
    {
      claimed := CountClaimable(rows, email);
      rows := ClaimRows(rows, uid, email);
    }

    /** The status update of every row carrying `id`. */
    method SetStatus(id: string, status: string)
      modifies this
      ensures rows == SetStatusRows(old(rows), id, status)
    {
      rows := SetStatusRows(rows, id, status);
    }
  }
}
