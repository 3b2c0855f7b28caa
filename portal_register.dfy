/** The registration form of the referrer portal (`app/referidos/app/page.tsx`):
    the client-side normalisers and validators, `validateRegisterFields`,
    which fills an error record by successive assignments, and the submit
    step, which needs a session token before it posts the form together with
    the tracking payload to the create route. */
module PortalRegister {
  import opened Wrappers
  import opened JsText
  import opened JsValue
  import opened ReferralInput
  import opened ReferralsDb
  import opened TrackingStore
  import CreateRoute

  const MsgNameRequired: string := "El nombre es obligatorio."
  const MsgEmailRequired: string := "El correo es obligatorio."
  const MsgEmailInvalid: string := "Ingresa un correo válido."
  const MsgEmailTaken: string := "Este correo ya fue registrado."
  const MsgPhoneTaken: string := "Este teléfono ya fue registrado."
  const MsgPhoneRequired: string := "El teléfono es obligatorio."
  const MsgPhoneInvalid: string := "Ingresa un teléfono válido (9 dígitos, solo números)."
  const MsgConsentRequired: string := "Debes confirmar la autorización."
  const MsgSessionExpired: string := "Tu sesión expiró. Vuelve a ingresar desde la landing."
  const MsgRegisterFailed: string := "No pudimos registrar el referido."

  /** The four inputs of the form. */
  datatype RegisterForm = RegisterForm(name: string, email: string, phone: string, consent: bool)

  /** The `errors` record: one optional message per field. */
  datatype FieldErrors = FieldErrors(name: Option<string>, email: Option<string>, phone: Option<string>, consent: Option<string>)

  const NoErrors: FieldErrors := FieldErrors(None, None, None, None)

  // ---------------------------------------------------------------------------
  // Normalisers

  /** The page's `normalizeEmail`: trimmed and lower-cased. */
  function NormalizeEmailText(val: string): (r: string)
    ensures NoEdgeSpace(r)
    ensures r == "" <==> IsBlank(val)
  {
    var t := Trim(val);
    LowerKeepsNoEdge(t);
    Lower(t)
  }

  lemma NormalizeEmailTextIdempotent(val: string)
    ensures NormalizeEmailText(NormalizeEmailText(val)) == NormalizeEmailText(val)
  {
    var e := NormalizeEmailText(val);
    TrimNoEdge(e);
    LowerIdempotent(Trim(val));
  }

  /** The page's `isEmail`: it normalises first, then applies the length,
      ".." and pattern checks. */
  predicate ClientIsEmail(val: string) {
    var v := Lower(Trim(val));
    if |v| > 254 then false
    else if Contains(v, "..") then false
    else EmailPattern(v)
  }

  /** The page's `isEmail` is the route's `isEmail` on the normalised text:
      the route's explicit empty check changes nothing, since the pattern
      needs an '@'. */
  lemma ClientIsEmailIsServer(val: string)
    ensures ClientIsEmail(val) <==> IsEmail(NormalizeEmailText(val))
  {
  }

  /** The server's normaliser gives back a client-normalised address unchanged. */
  lemma ServerKeepsClientEmail(val: string)
    requires !IsBlank(val)
    ensures NormalizeEmail(Str(NormalizeEmailText(val))) == Some(NormalizeEmailText(val))
  {
    NormalizeEmailTextIdempotent(val);
  }

  // ---------------------------------------------------------------------------
  // Duplicates against the rows already loaded

  /** A loaded row whose e-mail, normalised, is `e`.  Rows without an e-mail
      never match: this is the null-safe version of the page's test. */
  predicate EmailRegistered(rows: seq<Referral>, e: string) {
    exists i :: 0 <= i < |rows| && rows[i].referredEmail.Some? && NormalizeEmailText(rows[i].referredEmail.value) == e
  }

  /** A loaded row whose phone, normalised, is `p`. */
  predicate PhoneRegistered(rows: seq<Referral>, p: string) {
    exists i :: 0 <= i < |rows| && NormalizePhone(rows[i].referredPhone) == p
  }

  /** `rows.some((r) => normalizeEmail(r.referred_email) === e)` as written:
      it visits the rows in order and stops at the first match, and
      `normalizeEmail` calls `trim` on the row's e-mail, which throws a
      `TypeError` on a row whose `referred_email` is null.  `None` is that
      exception. */
  function SomeEmailAsWritten(rows: seq<Referral>, e: string): Option<bool>
    decreases |rows|
  {
    if rows == [] then Some(false)
    else if rows[0].referredEmail.None? then None
    else if NormalizeEmailText(rows[0].referredEmail.value) == e then Some(true)
    else SomeEmailAsWritten(rows[1..], e)
  }

  /** `EmailRegistered` on a non-empty sequence: the first row, or the rest. */
  lemma EmailRegisteredCons(rows: seq<Referral>, e: string)
    requires rows != []
    ensures EmailRegistered(rows, e) <==>
      (rows[0].referredEmail.Some? && NormalizeEmailText(rows[0].referredEmail.value) == e) || EmailRegistered(rows[1..], e)
  {
    if EmailRegistered(rows[1..], e) {
      var k :| 0 <= k < |rows[1..]| && rows[1..][k].referredEmail.Some? && NormalizeEmailText(rows[1..][k].referredEmail.value) == e;
      assert rows[k + 1] == rows[1..][k];
    }
    if EmailRegistered(rows, e) {
      var k :| 0 <= k < |rows| && rows[k].referredEmail.Some? && NormalizeEmailText(rows[k].referredEmail.value) == e;
      if k > 0 {
        assert rows[1..][k - 1] == rows[k];
      }
    }
  }

  /** While every loaded row has an e-mail the page's test is the null-safe one. */
  lemma {:induction false} SomeEmailAsWrittenSafe(rows: seq<Referral>, e: string)
    requires forall i :: 0 <= i < |rows| ==> rows[i].referredEmail.Some?
    ensures SomeEmailAsWritten(rows, e) == Some(EmailRegistered(rows, e))
    decreases |rows|
  {
    if rows != [] {
      assert rows[0].referredEmail.Some?;
      assert forall i :: 0 <= i < |rows[1..]| ==> rows[1..][i] == rows[i + 1];
      SomeEmailAsWrittenSafe(rows[1..], e);
      EmailRegisteredCons(rows, e);
    }
  }

  /** One loaded row without an e-mail is enough: for every address that is
      not a duplicate, that is for every genuinely new referral, the page's
      test throws. */
  lemma {:induction false} SomeEmailAsWrittenThrows(rows: seq<Referral>, e: string, i: nat)
    requires i < |rows| && rows[i].referredEmail.None?
    requires !EmailRegistered(rows, e)
    ensures SomeEmailAsWritten(rows, e).None?
    decreases |rows|
  {
    EmailRegisteredCons(rows, e);
    if i > 0 && rows[0].referredEmail.Some? {
      assert rows[1..][i - 1] == rows[i];
      SomeEmailAsWrittenThrows(rows[1..], e, i - 1);
    }
  }

  /** A referral registered without an e-mail, as the create route stores a
      blank one, makes the page's duplicate test throw for any address typed
      into the form, where the null-safe test finds no duplicate. */
  lemma RowWithoutEmailThrows(row: Referral, e: string)
    requires row.referredEmail.None?
    ensures SomeEmailAsWritten([row], e).None?
    ensures !EmailRegistered([row], e)
  {
  }

  // ---------------------------------------------------------------------------
  // validateRegisterFields

  /** The errors of a form, field by field, in order of precedence: on the
      e-mail a duplicate outranks a malformed address; on the phone a
      missing or short number outranks a duplicate. */
  function RegisterErrors(f: RegisterForm, rows: seq<Referral>): FieldErrors {
    var e := NormalizeEmailText(f.email);
    var p := NormalizePhone(f.phone);
    FieldErrors(
      if IsBlank(f.name) then Some(MsgNameRequired) else None,
      if e == "" then Some(MsgEmailRequired)
      else if EmailRegistered(rows, e) then Some(MsgEmailTaken)
      else if !ClientIsEmail(e) then Some(MsgEmailInvalid)
      else None,
      if p == "" then Some(MsgPhoneRequired)
      else if |p| != 9 then Some(MsgPhoneInvalid)
      else if PhoneRegistered(rows, p) then Some(MsgPhoneTaken)
      else None,
      if !f.consent then Some(MsgConsentRequired) else None)
  }

  /** `validateRegisterFields`: each check assigns its field's message,
      later checks overwriting earlier ones; the form is valid when no
      message was set. */
  method ValidateRegisterFields(f: RegisterForm, rows: seq<Referral>) returns (errors: FieldErrors, ok: bool)
    ensures errors == RegisterErrors(f, rows)
    ensures ok <==> errors == NoErrors
  {
    errors := NoErrors;
    if Trim(f.name) == "" {
      errors := errors.(name := Some(MsgNameRequired));
    }

    var emailNorm := NormalizeEmailText(f.email);
    if emailNorm == "" {
      errors := errors.(email := Some(MsgEmailRequired));
    } else if !ClientIsEmail(emailNorm) {
      errors := errors.(email := Some(MsgEmailInvalid));
    }
    if emailNorm != "" && EmailRegistered(rows, emailNorm) {
      errors := errors.(email := Some(MsgEmailTaken));
    }

    var phoneNormForDup := NormalizePhone(f.phone);
    if phoneNormForDup != "" && PhoneRegistered(rows, phoneNormForDup) {
      errors := errors.(phone := Some(MsgPhoneTaken));
    }

    var phone := Trim(f.phone);
    var phoneNorm := NormalizePhone(phone);
    DigitsOfTrim(f.phone);
    if phoneNorm == "" {
      errors := errors.(phone := Some(MsgPhoneRequired));
    } else if !ExactDigits(phoneNorm, 9) {
      errors := errors.(phone := Some(MsgPhoneInvalid));
    }

    if !f.consent {
      errors := errors.(consent := Some(MsgConsentRequired));
    }

    ok := errors.name.None? && errors.email.None? && errors.phone.None? && errors.consent.None?;
  }

  /** A form passes exactly when the name is not blank, the e-mail is a
      valid address not among the loaded rows, the phone has at least nine
      digits and its nine are not among the loaded rows, and consent is
      given. */
  lemma RegisterErrorsNone(f: RegisterForm, rows: seq<Referral>)
    ensures RegisterErrors(f, rows) == NoErrors <==>
      && !IsBlank(f.name)
      && IsEmail(NormalizeEmailText(f.email)) && !EmailRegistered(rows, NormalizeEmailText(f.email))
      && |Digits(f.phone)| >= 9 && !PhoneRegistered(rows, NormalizePhone(f.phone))
      && f.consent
  {
    var e := NormalizeEmailText(f.email);
    NormalizeEmailTextIdempotent(f.email);
    ClientIsEmailIsServer(e);
    IsPeMobile9Iff(f.phone);
    IsEmailRejects(e);
  }

  // ---------------------------------------------------------------------------
  // submitRegister

  /** The request body: the trimmed name, the normalised e-mail and phone,
      consent, the token, and the tracking payload's members (no name is
      both a form field and a payload member, so the order of the spread
      does not matter). */
  function SubmitBody(f: RegisterForm, token: string, p: Payload): (b: Body)
    ensures "referredName" in b && b["referredName"] == Str(Trim(f.name))
    ensures "referredEmail" in b && b["referredEmail"] == Str(NormalizeEmailText(f.email))
    ensures "referredPhone" in b && b["referredPhone"] == Str(NormalizePhone(f.phone))
    ensures "consent" in b && b["consent"] == Bool(f.consent)
    ensures "accessToken" in b && b["accessToken"] == Str(token)
  {
    PayloadBody(p) + FormMembers(f, token)
  }

  /** The form's own members of the request body. */
  function FormMembers(f: RegisterForm, token: string): Body {
    map[
      "referredName" := Str(Trim(f.name)),
      "referredEmail" := Str(NormalizeEmailText(f.email)),
      "referredPhone" := Str(NormalizePhone(f.phone)),
      "consent" := Bool(f.consent),
      "accessToken" := Str(token)]
  }

  /** A form the page accepts passes the create route's field checks: the
      page demands more (an e-mail at all, no duplicate among the loaded
      rows), never less. */
  lemma AcceptedFormPassesServer(f: RegisterForm, rows: seq<Referral>, token: string, p: Payload)
    requires RegisterErrors(f, rows) == NoErrors
    ensures CreateRoute.FieldGate(SubmitBody(f, token, p)).None?
  {
    var b := SubmitBody(f, token, p);
    RegisterErrorsNone(f, rows);
    FieldGateOfForm(b, f);
  }

  /** The route's field checks on a body carrying an accepted form's fields. */
  lemma FieldGateOfForm(b: Body, f: RegisterForm)
    requires !IsBlank(f.name) && IsEmail(NormalizeEmailText(f.email)) && |Digits(f.phone)| >= 9 && f.consent
    requires "referredName" in b && b["referredName"] == Str(Trim(f.name))
    requires "referredEmail" in b && b["referredEmail"] == Str(NormalizeEmailText(f.email))
    requires "referredPhone" in b && b["referredPhone"] == Str(NormalizePhone(f.phone))
    requires "consent" in b && b["consent"] == Bool(f.consent)
    ensures CreateRoute.FieldGate(b).None?
  {
    assert NonEmptyString(Field(b, "referredName")).Some?;
    var e := NormalizeEmailText(f.email);
    assert NormalizeEmail(Field(b, "referredEmail")) == Some(e) by {
      ServerKeepsClientEmail(f.email);
    }
    var ph := NormalizePhone(f.phone);
    assert |ph| == 9 by {
      IsPeMobile9Iff(f.phone);
    }
    assert NonEmptyString(Field(b, "referredPhone")).Some?;
    assert CreateRoute.PhoneNorm(b) == ph by {
      NormalizePhoneIdempotent(f.phone);
    }
  }

  /** The form state after a submit. */
  datatype SubmitState = Idle | Loading | Success | Failed

  /** How the create request ended: a reply with the HTTP status flag, the
      body's `ok` and its `message` ("" when absent), or an exception (the
      network, or a body that is not JSON) with its message. */
  datatype Reply = Replied(httpOk: bool, jsonOk: bool, message: string) | Threw(message: string)

  /** Where a submit leaves the form: its state, the message shown, and the
      request sent, if one was. */
  datatype Submission = Submission(state: SubmitState, message: string, request: Option<Body>)

  /** `!accessToken`. */
  predicate HasToken(token: Option<string>) {
    token.Some? && token.value != ""
  }

  /** `submitRegister`, given the session token and how the request ends. */
  function Submit(f: RegisterForm, rows: seq<Referral>, token: Option<string>, p: Payload, reply: Reply): (s: Submission)
    ensures s.request.Some? <==> RegisterErrors(f, rows) == NoErrors && HasToken(token)
    ensures s.request.Some? ==> s.request.value == SubmitBody(f, token.value, p)
    ensures RegisterErrors(f, rows) != NoErrors ==> s == Submission(Failed, "", None)
    ensures RegisterErrors(f, rows) == NoErrors && !HasToken(token) ==> s == Submission(Failed, MsgSessionExpired, None)
    ensures s.state == Success <==> s.request.Some? && reply.Replied? && reply.httpOk && reply.jsonOk
    ensures s.state != Success ==> s.state == Failed
    ensures s.state == Failed && s.request.Some? && reply.Replied? ==> s.message != ""
  {
    if RegisterErrors(f, rows) != NoErrors then Submission(Failed, "", None)
    else if !HasToken(token) then Submission(Failed, MsgSessionExpired, None)
    else
      var body := SubmitBody(f, token.value, p);
      match reply
      case Threw(m) => Submission(Failed, m, Some(body))
      case Replied(httpOk, jsonOk, m) =>
        if !httpOk || !jsonOk then Submission(Failed, if m != "" then m else MsgRegisterFailed, Some(body))
        else Submission(Success, "", Some(body))
  }

  /** The tracking columns the create route stores for a submitted form
      come from the payload: the campaign values cleaned, the landing path
      the current page's. */
  lemma SubmittedTracking(f: RegisterForm, token: string, p: Payload)
    ensures var t := CreateRoute.TrackingOf(SubmitBody(f, token, p));
      && t.camp == CleanTrack(Nullable(p.campaign.camp), 80)
      && t.utmSource == CleanTrack(Nullable(p.campaign.utmSource), 80)
      && t.landingPath == CleanTrack(Str(p.landingPath), 200)
      && t.referer == CleanTrack(Str(p.referer), 300)
  {
    var b := SubmitBody(f, token, p);
    PayloadCampaignMembers(p);
    PayloadMemberKept(f, token, p, "camp");
    PayloadMemberKept(f, token, p, "utm_source");
    PayloadMemberKept(f, token, p, "landing_path");
    PayloadMemberKept(f, token, p, "referer");
    TrackingOfFields(b);
  }

  /** The first two campaign members of the payload body. */
  lemma PayloadCampaignMembers(p: Payload)
    ensures var pb := PayloadBody(p);
      "camp" in pb && pb["camp"] == Nullable(p.campaign.camp)
      && "utm_source" in pb && pb["utm_source"] == Nullable(p.campaign.utmSource)
  {
  }

  /** A payload member that is not a form field reaches the body unchanged. */
  lemma PayloadMemberKept(f: RegisterForm, token: string, p: Payload, k: string)
    requires k in PayloadBody(p)
    requires k != "referredName" && k != "referredEmail" && k != "referredPhone" && k != "consent" && k != "accessToken"
    ensures Field(SubmitBody(f, token, p), k) == PayloadBody(p)[k]
  {
    assert k !in FormMembers(f, token);
  }

  /** The route reads each tracking column from the body member of that name. */
  lemma TrackingOfFields(b: Body)
    ensures var t := CreateRoute.TrackingOf(b);
      && t.camp == CleanTrack(Field(b, "camp"), 80)
      && t.utmSource == CleanTrack(Field(b, "utm_source"), 80)
      && t.landingPath == CleanTrack(Field(b, "landing_path"), 200)
      && t.referer == CleanTrack(Field(b, "referer"), 300)
  {
  }
}
