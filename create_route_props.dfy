/** What the referral-creation handler guarantees, stated over `Handle`. */
module CreateRouteProps {
  import opened Wrappers
  import opened JsText
  import opened JsValue
  import opened ReferralInput
  import opened HtmlEscape
  import opened ReferralsDb
  import opened CreateRoute

  /** A registration request (not the claim action) with a JSON body. */
  predicate IsRegistration(b: Body) {
    Field(b, "action") != Str("claim")
  }

  // ---------------------------------------------------------------------------
  // Gate order

  /** The consent gate: whatever the referrer, the table or the database
      would do, a body whose name, e-mail and phone pass but whose `consent`
      is not exactly `true` gets a 400, and the table is untouched. */
  lemma ConsentRequired(rows: seq<Referral>, b: Body, env: Env)
    requires IsRegistration(b)
    requires NonEmptyString(Field(b, "referredName")).Some?
    requires NormalizeEmail(Field(b, "referredEmail")).Some? ==> IsEmail(NormalizeEmail(Field(b, "referredEmail")).value)
    requires NonEmptyString(Field(b, "referredPhone")).Some? && |PhoneNorm(b)| == 9
    requires Field(b, "consent") != Bool(true)
    ensures Handle(rows, Some(b), env) == Outcome(Fail(400, MsgNoConsent), rows, [])
  {
    IsPeMobile9Iff(PhoneNorm(b));
    NormalizePhoneIdempotent(StringOrEmptyIfFalsy(Field(b, "referredPhone")));
  }

  /** The name gate comes first: a missing or non-string name is reported
      before anything else is looked at. */
  lemma NameFirst(rows: seq<Referral>, b: Body, env: Env)
    requires IsRegistration(b)
    requires NonEmptyString(Field(b, "referredName")).None?
    ensures Handle(rows, Some(b), env) == Outcome(Fail(400, MsgNameRequired), rows, [])
  {
  }

  /** The referred e-mail is optional: an absent or blank one never fails the
      e-mail gate. */
  lemma ReferredEmailOptional(b: Body)
    requires IsBlank(StringOrEmpty(Field(b, "referredEmail")))
    requires NonEmptyString(Field(b, "referredName")).Some?
    ensures FieldGate(b) != Some(Fail(400, MsgBadReferredEmail))
  {
  }

  /** Once the field gates pass, a request without a usable session is judged
      on its typed referrer e-mail alone: it fails with 400 exactly when that
      e-mail is missing or malformed. */
  lemma AnonymousNeedsReferrerEmail(rows: seq<Referral>, b: Body, env: Env)
    requires IsRegistration(b) && FieldGate(b).None?
    requires SessionUser(b, env).None?
    ensures Handle(rows, Some(b), env).resp == Fail(400, MsgBadReferrerEmail) <==>
      NormalizeEmail(Field(b, "referrerEmail")).None? || !IsEmail(NormalizeEmail(Field(b, "referrerEmail")).value)
  {
    var o := Handle(rows, Some(b), env);
    if ResolveReferrer(b, env).Some? {
      var ref := ResolveReferrer(b, env).value;
      RegisterNeverBadReferrer(rows, FormOf(b), ref, env);
    }
  }

  /** Nothing after the referrer gate answers with the referrer message. */
  lemma RegisterNeverBadReferrer(rows: seq<Referral>, f: Form, ref: Referrer, env: Env)
    ensures Register(rows, f, ref, env).resp != Fail(400, MsgBadReferrerEmail)
  {
    var o := Register(rows, f, ref, env);
    if env.insertError.Some? && !IsUniqueViolation(env.insertError.value) {
      assert o.resp.Fail? ==> o.resp.message == MsgInsertFailed || o.resp.status != 400;
    }
  }

  /** An access token the identity provider rejects counts for nothing: the
      request is handled exactly as if it carried no token. */
  lemma RejectedTokenIsNoToken(rows: seq<Referral>, b: Body, env: Env)
    requires IsRegistration(b)
    requires SessionUser(b, env).None?
    ensures Handle(rows, Some(b), env) == Handle(rows, Some(b["accessToken" := Undefined]), env)
  {
    var b2 := b["accessToken" := Undefined];
    assert forall k :: k != "accessToken" ==> Field(b2, k) == Field(b, k);
    assert SessionUser(b2, env).None?;
    SameGate(b, b2);
    SameReferrer(b, b2, env);
    if FieldGate(b).None? && ResolveReferrer(b, env).Some? {
      SameRegistration(b, b2);
    }
  }

  /** The field checks do not look at the token. */
  lemma SameGate(b: Body, b2: Body)
    requires forall k :: k != "accessToken" ==> Field(b2, k) == Field(b, k)
    ensures Field(b2, "action") == Field(b, "action")
    ensures FieldGate(b2) == FieldGate(b)
  {
    assert Field(b2, "action") == Field(b, "action");
    assert Field(b2, "referredName") == Field(b, "referredName");
    assert Field(b2, "referredEmail") == Field(b, "referredEmail");
    assert Field(b2, "referredPhone") == Field(b, "referredPhone");
    assert Field(b2, "consent") == Field(b, "consent");
    assert PhoneNorm(b2) == PhoneNorm(b);
  }

  /** Without a session on either body, the referrer comes from the same field. */
  lemma SameReferrer(b: Body, b2: Body, env: Env)
    requires forall k :: k != "accessToken" ==> Field(b2, k) == Field(b, k)
    requires SessionUser(b, env).None? && SessionUser(b2, env).None?
    ensures ResolveReferrer(b2, env) == ResolveReferrer(b, env)
  {
    assert Field(b2, "referrerEmail") == Field(b, "referrerEmail");
  }

  /** Two bodies that agree on every registration field register alike. */
  lemma SameRegistration(b: Body, b2: Body)
    requires forall k :: k != "accessToken" ==> Field(b2, k) == Field(b, k)
    ensures FormOf(b2) == FormOf(b)
  {
    assert Field(b2, "referredName") == Field(b, "referredName");
    assert Field(b2, "referredEmail") == Field(b, "referredEmail");
    assert PhoneNorm(b2) == PhoneNorm(b) by {
      assert Field(b2, "referredPhone") == Field(b, "referredPhone");
    }
    assert TrackingOf(b2) == TrackingOf(b) by {
      assert Field(b2, "camp") == Field(b, "camp");
      assert Field(b2, "utm_source") == Field(b, "utm_source");
      assert Field(b2, "utm_medium") == Field(b, "utm_medium");
      assert Field(b2, "utm_campaign") == Field(b, "utm_campaign");
      assert Field(b2, "utm_term") == Field(b, "utm_term");
      assert Field(b2, "utm_content") == Field(b, "utm_content");
      assert Field(b2, "landing_path") == Field(b, "landing_path");
      assert Field(b2, "referer") == Field(b, "referer");
    }
  }

  // ---------------------------------------------------------------------------
  // Cooldown and duplicates

  /** A row registered by the same referrer within the last five minutes
      blocks the request with a 429, before any duplicate check or insert. */
  lemma CooldownBlocks(rows: seq<Referral>, b: Body, env: Env, i: nat)
    requires IsRegistration(b) && FieldGate(b).None?
    requires ResolveReferrer(b, env).Some?
    requires RecentCheck !in env.failing
    requires i < |rows| && RecentBy(rows[i], ResolveReferrer(b, env).value, env.now)
    ensures Handle(rows, Some(b), env) == Outcome(Fail(429, MsgCooldown), rows, [])
  {
  }

  /** When both the referred e-mail and the phone are already registered, the
      e-mail is reported. */
  lemma EmailDuplicateFirst(rows: seq<Referral>, email: string, phone: string, failing: set<Query>, i: nat, j: nat)
    requires DupEmailCheck !in failing && DupPhoneCheck !in failing
    requires i < |rows| && rows[i].referredEmail == Some(email)
    requires j < |rows| && rows[j].referredPhone == phone
    ensures DuplicateGate(rows, Some(email), phone, failing) == Some(Fail(409, MsgEmailTaken))
  {
  }

  /** A registered referral, as the insert writes it. */
  predicate WellFormedNewRow(row: Referral) {
    && row.status == "registered" && row.consent
    && NoEdgeSpace(row.referredName)
    && |row.referredPhone| == 9 && AllDigits(row.referredPhone)
    && (row.referredEmail.Some? ==> IsEmail(row.referredEmail.value))
    && (NoUserId(row.referrerUserId) ==> row.referrerEmail.Some? && IsEmail(row.referrerEmail.value))
    && row.notes.None?
  }

  // ---------------------------------------------------------------------------
  // The shape of each stage

  /** A registration request ends at the first gate it fails, or in `Register`. */
  lemma RegistrationStages(rows: seq<Referral>, b: Body, env: Env)
    requires IsRegistration(b)
    ensures FieldGate(b).Some? ==> Handle(rows, Some(b), env) == Outcome(FieldGate(b).value, rows, [])
    ensures FieldGate(b).None? && ResolveReferrer(b, env).None? ==>
      Handle(rows, Some(b), env) == Outcome(Fail(400, MsgBadReferrerEmail), rows, [])
    ensures FieldGate(b).None? && ResolveReferrer(b, env).Some? ==>
      Handle(rows, Some(b), env) == Register(rows, FormOf(b), ResolveReferrer(b, env).value, env)
  {
  }

  /** `Register` either refuses and changes nothing, or passed every check
      and appends the new row and sends its mails. */
  lemma RegisterShape(rows: seq<Referral>, f: Form, ref: Referrer, env: Env)
    ensures var o := Register(rows, f, ref, env);
      && !o.resp.Claimed?
      && (o.resp.Fail? ==> o.rows == rows && o.mails == [])
      && (o.resp.Created? ==>
            && RecentCheck !in env.failing && !HasRecent(rows, ref, env.now)
            && DuplicateGate(rows, f.email, f.phone, env.failing).None? && env.insertError.None?
            && o.rows == rows + [NewRow(f, ref, env)] && o.mails == MailsFor(NewRow(f, ref, env), env)
            && o.resp == Created(f.email.Some? && env.referredMailOk, env.internalTo != "" && env.internalMailOk))
  {
  }

  /** The claim either refuses and changes nothing, or attaches the session
      user's id to the rows left under the user's e-mail. */
  lemma ClaimShape(rows: seq<Referral>, b: Body, env: Env)
    requires !IsRegistration(b)
    ensures var o := Handle(rows, Some(b), env);
      && !o.resp.Created? && o.mails == []
      && (o.resp.Fail? ==> o.rows == rows)
      && (o.resp.Claimed? ==>
            && SessionUser(b, env).Some? && ClaimUpdate !in env.failing
            && var u := SessionUser(b, env).value;
            && u.email.Some? && u.email.value != ""
            && o.rows == ClaimRows(rows, u.id, u.email.value)
            && o.resp.claimed == CountClaimable(rows, u.email.value))
  {
  }

  /** The row a registration writes satisfies the field gates and names a
      usable referrer. */
  lemma NewRowWellFormed(b: Body, ref: Referrer, env: Env)
    requires FieldGate(b).None? && ResolveReferrer(b, env) == Some(ref)
    ensures WellFormedNewRow(NewRow(FormOf(b), ref, env))
  {
  }

  /** Every request either leaves the table as it was, or (claim) only
      attaches user ids, or appends exactly one well-formed row. */
  lemma HandleEffect(rows: seq<Referral>, body: Option<Body>, env: Env)
    ensures var o := Handle(rows, body, env);
      && (o.resp.Fail? ==> o.rows == rows && o.mails == [])
      && (o.resp.Created? ==> |o.rows| == |rows| + 1 && o.rows[..|rows|] == rows && WellFormedNewRow(o.rows[|rows|]))
      && (o.resp.Claimed? ==> o.mails == [] && exists uid, email :: o.rows == ClaimRows(rows, uid, email))
  {
    if body.Some? {
      var b := body.value;
      var o := Handle(rows, body, env);
      if !IsRegistration(b) {
        ClaimShape(rows, b, env);
        if o.resp.Claimed? {
          var u := SessionUser(b, env).value;
          assert o.rows == ClaimRows(rows, u.id, u.email.value);
        }
      } else {
        RegistrationStages(rows, b, env);
        if FieldGate(b).None? && ResolveReferrer(b, env).Some? {
          var ref := ResolveReferrer(b, env).value;
          RegisterShape(rows, FormOf(b), ref, env);
          if o.resp.Created? {
            NewRowWellFormed(b, ref, env);
            assert o.rows[..|rows|] == rows;
          }
        }
      }
    }
  }

  /** A registration that succeeds appends `NewRow` for its body and referrer. */
  lemma CreatedRow(rows: seq<Referral>, b: Body, env: Env)
    requires Handle(rows, Some(b), env).resp.Created?
    ensures IsRegistration(b) && FieldGate(b).None? && ResolveReferrer(b, env).Some?
    ensures var o := Handle(rows, Some(b), env); var row := NewRow(FormOf(b), ResolveReferrer(b, env).value, env);
      && o.rows == rows + [row] && o.mails == MailsFor(row, env)
      && !PhoneTaken(rows, row.referredPhone)
      && (row.referredEmail.Some? ==> !EmailTaken(rows, row.referredEmail.value))
      && o.resp.emailSent == (row.referredEmail.Some? && env.referredMailOk)
  {
    if !IsRegistration(b) {
      ClaimShape(rows, b, env);
    } else {
      RegistrationStages(rows, b, env);
      RegisterShape(rows, FormOf(b), ResolveReferrer(b, env).value, env);
    }
  }

  /** `email_sent` is only ever true for a referral that left an e-mail. */
  lemma EmailSentNeedsAddress(rows: seq<Referral>, b: Body, env: Env)
    requires Handle(rows, Some(b), env).resp.Created? && Handle(rows, Some(b), env).resp.emailSent
    ensures NormalizeEmail(Field(b, "referredEmail")).Some?
    ensures |Handle(rows, Some(b), env).rows| == |rows| + 1 && Handle(rows, Some(b), env).rows[|rows|].referredEmail.Some?
    ensures |Handle(rows, Some(b), env).mails| >= 1
  {
    CreatedRow(rows, b, env);
  }

  /** A whitespace-only name passes the name gate and is stored empty. */
  lemma BlankNameStoredEmpty(rows: seq<Referral>, b: Body, env: Env)
    requires Handle(rows, Some(b), env).resp.Created?
    requires IsBlank(Field(b, "referredName").s)
    ensures Field(b, "referredName").s != ""
    ensures |Handle(rows, Some(b), env).rows| == |rows| + 1 && Handle(rows, Some(b), env).rows[|rows|].referredName == ""
  {
    CreatedRow(rows, b, env);
    var row := NewRow(FormOf(b), ResolveReferrer(b, env).value, env);
    assert Handle(rows, Some(b), env).rows[|rows|] == row;
    assert row.referredName == Trim(Field(b, "referredName").s);
  }

  /** Right after a registration, the same request again within five minutes
      is refused with 429: the row just written is the recent one. */
  lemma CooldownAfterRegister(rows: seq<Referral>, b: Body, env1: Env, env2: Env)
    requires IsRegistration(b)
    requires Handle(rows, Some(b), env1).resp.Created?
    requires SessionUser(b, env2) == SessionUser(b, env1)
    requires env1.now <= env2.now <= env1.now + RegisterCooldownMs
    requires RecentCheck !in env2.failing
    ensures Handle(Handle(rows, Some(b), env1).rows, Some(b), env2).resp == Fail(429, MsgCooldown)
  {
    CreatedRow(rows, b, env1);
    var ref := ResolveReferrer(b, env1).value;
    assert ResolveReferrer(b, env2) == Some(ref);
    var rows1 := Handle(rows, Some(b), env1).rows;
    assert RecentBy(rows1[|rows|], ref, env2.now);
    RegistrationStages(rows1, b, env2);
  }

  /** Once a phone is registered, any later registration of the same phone
      that reaches the duplicate checks is refused with 409 (or with the
      cooldown's 429). */
  lemma DuplicateAfterRegister(rows: seq<Referral>, b: Body, env1: Env, b2: Body, env2: Env)
    requires IsRegistration(b) && IsRegistration(b2)
    requires Handle(rows, Some(b), env1).resp.Created?
    requires FieldGate(b2).None? && ResolveReferrer(b2, env2).Some?
    requires RecentCheck !in env2.failing && DupEmailCheck !in env2.failing && DupPhoneCheck !in env2.failing
    requires PhoneNorm(b2) == PhoneNorm(b)
    ensures Handle(Handle(rows, Some(b), env1).rows, Some(b2), env2).resp.Fail?
    ensures Handle(Handle(rows, Some(b), env1).rows, Some(b2), env2).resp.status in {409, 429}
  {
    CreatedRow(rows, b, env1);
    var rows1 := Handle(rows, Some(b), env1).rows;
    assert rows1[|rows|].referredPhone == PhoneNorm(b2);
    assert PhoneTaken(rows1, PhoneNorm(b2));
    RegistrationStages(rows1, b2, env2);
    TakenPhoneRefused(rows1, FormOf(b2), ResolveReferrer(b2, env2).value, env2);
  }

  /** A phone already in the table is refused by the cooldown or the
      duplicate check, whichever comes first. */
  lemma TakenPhoneRefused(rows: seq<Referral>, f: Form, ref: Referrer, env: Env)
    requires PhoneTaken(rows, f.phone)
    requires RecentCheck !in env.failing && DupEmailCheck !in env.failing && DupPhoneCheck !in env.failing
    ensures Register(rows, f, ref, env).resp.Fail?
    ensures Register(rows, f, ref, env).resp.status in {409, 429}
  {
  }

  // ---------------------------------------------------------------------------
  // Table invariants

  /** No two rows share a referred phone, nor a referred e-mail: what the
      unique indexes on those columns enforce. */
  predicate UniqueContacts(rows: seq<Referral>) {
    forall i, j :: 0 <= i < j < |rows| ==>
      rows[i].referredPhone != rows[j].referredPhone &&
      (rows[i].referredEmail.Some? ==> rows[i].referredEmail != rows[j].referredEmail)
  }

  /** The duplicate checks keep the table free of repeated contacts. */
  lemma HandleKeepsUniqueContacts(rows: seq<Referral>, body: Option<Body>, env: Env)
    requires UniqueContacts(rows)
    ensures UniqueContacts(Handle(rows, body, env).rows)
  {
    if body.Some? && IsRegistration(body.value) {
      if Handle(rows, body, env).resp.Created? {
        CreatedKeepsUniqueContacts(rows, body.value, env);
      } else {
        RefusedKeepsRows(rows, body.value, env);
      }
    } else if body.Some? {
      ClaimedKeepsUniqueContacts(rows, body.value, env);
    }
  }

  /** A registration that is refused leaves the table as it was. */
  lemma RefusedKeepsRows(rows: seq<Referral>, b: Body, env: Env)
    requires IsRegistration(b) && !Handle(rows, Some(b), env).resp.Created?
    ensures Handle(rows, Some(b), env).rows == rows
  {
    RegistrationStages(rows, b, env);
    if FieldGate(b).None? && ResolveReferrer(b, env).Some? {
      RegisterShape(rows, FormOf(b), ResolveReferrer(b, env).value, env);
    }
  }

  lemma CreatedKeepsUniqueContacts(rows: seq<Referral>, b: Body, env: Env)
    requires UniqueContacts(rows)
    requires Handle(rows, Some(b), env).resp.Created?
    ensures UniqueContacts(Handle(rows, Some(b), env).rows)
  {
    CreatedRow(rows, b, env);
    AppendKeepsUniqueContacts(rows, NewRow(FormOf(b), ResolveReferrer(b, env).value, env));
  }

  /** A row whose phone and e-mail are not yet taken keeps the contacts unique. */
  lemma AppendKeepsUniqueContacts(rows: seq<Referral>, row: Referral)
    requires UniqueContacts(rows)
    requires !PhoneTaken(rows, row.referredPhone)
    requires row.referredEmail.Some? ==> !EmailTaken(rows, row.referredEmail.value)
    ensures UniqueContacts(rows + [row])
  {
    var r := rows + [row];
    forall i, j | 0 <= i < j < |r|
      ensures r[i].referredPhone != r[j].referredPhone
      ensures r[i].referredEmail.Some? ==> r[i].referredEmail != r[j].referredEmail
    {
      assert r[i] == rows[i];
    }
  }

  lemma ClaimedKeepsUniqueContacts(rows: seq<Referral>, b: Body, env: Env)
    requires UniqueContacts(rows)
    requires !IsRegistration(b)
    ensures UniqueContacts(Handle(rows, Some(b), env).rows)
  {
    ClaimShape(rows, b, env);
    if Handle(rows, Some(b), env).resp.Claimed? {
      var u := SessionUser(b, env).value;
      ClaimKeepsUniqueContacts(rows, u.id, u.email.value);
    }
  }

  lemma ClaimKeepsUniqueContacts(rows: seq<Referral>, uid: string, email: string)
    requires UniqueContacts(rows)
    ensures UniqueContacts(ClaimRows(rows, uid, email))
  {
    var c := ClaimRows(rows, uid, email);
    forall i, j | 0 <= i < j < |c|
      ensures c[i].referredPhone != c[j].referredPhone
      ensures c[i].referredEmail.Some? ==> c[i].referredEmail != c[j].referredEmail
    {
      ClaimRowsEffect(rows, uid, email, i);
      ClaimRowsEffect(rows, uid, email, j);
    }
  }

  /** With a fresh id from the database, ids stay distinct. */
  lemma HandleKeepsIdsDistinct(rows: seq<Referral>, body: Option<Body>, env: Env)
    requires IdsDistinct(rows) && !HasId(rows, env.newId)
    ensures IdsDistinct(Handle(rows, body, env).rows)
  {
    if body.Some? && IsRegistration(body.value) {
      if Handle(rows, body, env).resp.Created? {
        CreatedKeepsIdsDistinct(rows, body.value, env);
      } else {
        RefusedKeepsRows(rows, body.value, env);
      }
    } else if body.Some? {
      ClaimedKeepsIdsDistinct(rows, body.value, env);
    }
  }

  lemma CreatedKeepsIdsDistinct(rows: seq<Referral>, b: Body, env: Env)
    requires IdsDistinct(rows) && !HasId(rows, env.newId)
    requires Handle(rows, Some(b), env).resp.Created?
    ensures IdsDistinct(Handle(rows, Some(b), env).rows)
  {
    CreatedRow(rows, b, env);
    AppendKeepsIdsDistinct(rows, NewRow(FormOf(b), ResolveReferrer(b, env).value, env));
  }

  /** A row with an id not yet used keeps the ids distinct. */
  lemma AppendKeepsIdsDistinct(rows: seq<Referral>, row: Referral)
    requires IdsDistinct(rows) && !HasId(rows, row.id)
    ensures IdsDistinct(rows + [row])
  {
    var r := rows + [row];
    forall i, j | 0 <= i < j < |r|
      ensures r[i].id != r[j].id
    {
      assert r[i] == rows[i];
    }
  }

  lemma ClaimedKeepsIdsDistinct(rows: seq<Referral>, b: Body, env: Env)
    requires IdsDistinct(rows)
    requires !IsRegistration(b)
    ensures IdsDistinct(Handle(rows, Some(b), env).rows)
  {
    ClaimShape(rows, b, env);
    if Handle(rows, Some(b), env).resp.Claimed? {
      var u := SessionUser(b, env).value;
      ClaimKeepsIdsDistinct(rows, u.id, u.email.value);
    }
  }

  lemma ClaimKeepsIdsDistinct(rows: seq<Referral>, uid: string, email: string)
    requires IdsDistinct(rows)
    ensures IdsDistinct(ClaimRows(rows, uid, email))
  {
    var c := ClaimRows(rows, uid, email);
    forall i, j | 0 <= i < j < |c|
      ensures c[i].id != c[j].id
    {
      ClaimRowsEffect(rows, uid, email, i);
      ClaimRowsEffect(rows, uid, email, j);
    }
  }


  // ---------------------------------------------------------------------------
  // Claim

  /** A claim reports exactly the number of rows it changed, and running it
      again with the same session claims nothing. */
  lemma ClaimReportsChanges(rows: seq<Referral>, b: Body, env: Env)
    requires !IsRegistration(b)
    requires Handle(rows, Some(b), env).resp.Claimed?
    ensures var o := Handle(rows, Some(b), env);
      && ChangedCount(rows, o.rows) == o.resp.claimed
      && Handle(o.rows, Some(b), env).resp == Claimed(0)
  {
    ClaimShape(rows, b, env);
    var u := SessionUser(b, env).value;
    ClaimCountIsChanged(rows, u.id, u.email.value);
    ClaimLeavesNothing(rows, u.id, u.email.value);
  }

  // ---------------------------------------------------------------------------
  // Mails

  predicate MarkupFree(s: string) {
    '<' !in s && '>' !in s && '"' !in s && '\'' !in s
  }

  lemma {:induction false} EscapeAllSafe(vals: seq<string>)
    ensures forall v :: v in EscapeAll(vals) ==> MarkupFree(v)
    decreases |vals|
  {
    if vals != [] {
      EscapeHtmlSafe(vals[0]);
      EscapeAllSafe(vals[1..]);
    }
  }

  /** Every value the mail templates interpolate has been escaped, so none of
      them can open a tag or close an attribute. */
  lemma MailsAreEscaped(rows: seq<Referral>, body: Option<Body>, env: Env)
    ensures forall m, v :: m in Handle(rows, body, env).mails && v in m.escaped ==> MarkupFree(v)
  {
    var o := Handle(rows, body, env);
    HandleEffect(rows, body, env);
    if body.Some? && o.resp.Created? {
      CreatedRow(rows, body.value, env);
      MailsForEscaped(NewRow(FormOf(body.value), ResolveReferrer(body.value, env).value, env), env);
    }
  }

  /** Both mail templates interpolate escaped values only. */
  lemma MailsForEscaped(row: Referral, env: Env)
    ensures forall m, v :: m in MailsFor(row, env) && v in m.escaped ==> MarkupFree(v)
  {
    var t := row.tracking;
    EscapeAllSafe([OrDash(Some(row.id)), env.createdAtText, row.referredName,
                   OrDash(row.referredEmail), row.referredPhone, OrDash(row.referrerEmail),
                   OrDash(t.camp), OrDash(t.utmSource), OrDash(t.utmMedium),
                   OrDash(t.utmCampaign), OrDash(t.utmTerm), OrDash(t.utmContent),
                   OrDash(t.landingPath), OrDash(t.referer)]);
    if row.referredEmail.Some? {
      EscapeAllSafe([row.referredName, row.referrerEmail.GetOr("una persona")]);
    }
  }
}
