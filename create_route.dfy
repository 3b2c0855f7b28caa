/** `POST /api/referrals/create` (`app/api/referrals/create/route.ts`): the
    claim action, and the ordered gate pipeline that ends in one insert into
    the `referrals` table followed by the notification e-mails.

    The database is a `ReferralTable`; everything the handler learns from the
    outside world comes in an `Env`: the clock, the identity provider (a
    function from access token to user), which queries fail, the error the
    insert reports, the id and creation text the database assigns, the mail
    configuration and whether each send succeeds. */
module CreateRoute {
  import opened Wrappers
  import opened JsText
  import opened JsValue
  import opened ReferralInput
  import opened HtmlEscape
  import opened ReferralsDb

  /** `REGISTER_COOLDOWN_MS`: five minutes. */
  const RegisterCooldownMs: int := 5 * 60 * 1000

  const DefaultFrom: string := "onboarding@resend.dev"
  const ReferredSubject: string := "Te han referido a Verisure"

  // Response messages, as the handler writes them.
  const MsgUnexpected: string := "Error inesperado."
  const MsgTokenRequired: string := "Access token requerido."
  const MsgBadSession: string := "Sesión inválida."
  const MsgNoUserEmail: string := "Tu usuario no tiene email."
  const MsgClaimFailed: string := "No se pudo asociar tus referidos."
  const MsgNameRequired: string := "Nombre del referido requerido."
  const MsgBadReferredEmail: string := "Correo del referido inválido."
  const MsgBadPhone: string := "Teléfono del referido inválido (9 dígitos, solo números)."
  const MsgNoConsent: string := "Debes confirmar la autorización del referido."
  const MsgBadReferrerEmail: string := "Ingresa tu correo (referidor) válido."
  const MsgCooldownFailed: string := "No pudimos validar seguridad del registro. Intenta nuevamente."
  const MsgCooldown: string := "Por seguridad, espera 5 minutos antes de registrar otro referido."
  const MsgDupEmailFailed: string := "Error validando duplicados (correo)."
  const MsgDupPhoneFailed: string := "Error validando duplicados (teléfono)."
  const MsgEmailTaken: string := "Este correo ya fue registrado."
  const MsgPhoneTaken: string := "Este teléfono ya fue registrado."
  const MsgReferralTaken: string := "Este referido ya fue registrado."
  const MsgInsertFailed: string := "Error guardando el referido."

  /** What `auth.getUser(token)` yields on success. */
  datatype User = User(id: string, email: Option<string>)

  /** The reads the handler issues, any of which may come back with an error. */
  datatype Query = RecentCheck | DupEmailCheck | DupPhoneCheck | ClaimUpdate

  /** The error object of a failed insert: its `code` and `message`. */
  datatype DbError = DbError(code: Option<string>, message: string)

  datatype Env = Env(
    now: int,
    getUser: string -> Option<User>,
    failing: set<Query>,
    insertError: Option<DbError>,
    newId: string,
    createdAtText: string,
    emailFrom: string,
    internalTo: string,
    referredMailOk: bool,
    internalMailOk: bool)

  /** The JSON response: `{ ok: false, message }` with a status, the claim's
      `{ ok: true, claimed }`, or the insert's `{ ok: true, email_sent,
      internal_email_sent }`. */
  datatype Response =
    | Fail(status: int, message: string)
    | Claimed(claimed: nat)
    | Created(emailSent: bool, internalEmailSent: bool)

  /** An e-mail handed to the mail service: sender, recipient, subject and the
      values the HTML template interpolates, each already passed through
      `escapeHtml`. */
  datatype Mail = Mail(from: string, to: string, subject: string, escaped: seq<string>)

  /** A request's whole effect: the response, the table afterwards, the mails sent. */
  datatype Outcome = Outcome(resp: Response, rows: seq<Referral>, mails: seq<Mail>)

  /** Who registers the referral: the session user's id and the referrer e-mail. */
  datatype Referrer = Referrer(userId: Option<string>, email: Option<string>)

  // ---------------------------------------------------------------------------
  // The pieces of the pipeline

  /** `normalizePhone(referredPhone)`. */
  function PhoneNorm(body: Body): (p: string)
    ensures AllDigits(p) && |p| <= 9
  {
    NormalizePhone(StringOrEmptyIfFalsy(Field(body, "referredPhone")))
  }

  /** The tracking columns, each cleaned and cut to its cap. */
  function TrackingOf(body: Body): (t: Tracking)
    ensures t.camp.Some? ==> 0 < |t.camp.value| <= 80
    ensures t.utmSource.Some? ==> 0 < |t.utmSource.value| <= 80
    ensures t.utmMedium.Some? ==> 0 < |t.utmMedium.value| <= 80
    ensures t.utmCampaign.Some? ==> 0 < |t.utmCampaign.value| <= 120
    ensures t.utmTerm.Some? ==> 0 < |t.utmTerm.value| <= 120
    ensures t.utmContent.Some? ==> 0 < |t.utmContent.value| <= 120
    ensures t.landingPath.Some? ==> 0 < |t.landingPath.value| <= 200
    ensures t.referer.Some? ==> 0 < |t.referer.value| <= 300
  {
    Tracking(
      CleanTrack(Field(body, "camp"), 80),
      CleanTrack(Field(body, "utm_source"), 80),
      CleanTrack(Field(body, "utm_medium"), 80),
      CleanTrack(Field(body, "utm_campaign"), 120),
      CleanTrack(Field(body, "utm_term"), 120),
      CleanTrack(Field(body, "utm_content"), 120),
      CleanTrack(Field(body, "landing_path"), 200),
      CleanTrack(Field(body, "referer"), 300))
  }

  /** The four field gates, in the handler's order; `None` when all pass. */
  function FieldGate(body: Body): (r: Option<Response>)
    ensures r.Some? ==> r.value.Fail? && r.value.status == 400
    ensures r.None? <==>
      && NonEmptyString(Field(body, "referredName")).Some?
      && (NormalizeEmail(Field(body, "referredEmail")).Some? ==> IsEmail(NormalizeEmail(Field(body, "referredEmail")).value))
      && NonEmptyString(Field(body, "referredPhone")).Some?
      && |PhoneNorm(body)| == 9
      && Field(body, "consent") == Bool(true)
  {
    var emailNorm := NormalizeEmail(Field(body, "referredEmail"));
    IsPeMobile9Iff(PhoneNorm(body));
    NormalizePhoneIdempotent(StringOrEmptyIfFalsy(Field(body, "referredPhone")));
    if NonEmptyString(Field(body, "referredName")).None? then Some(Fail(400, MsgNameRequired))
    else if emailNorm.Some? && !IsEmail(emailNorm.value) then Some(Fail(400, MsgBadReferredEmail))
    else if NonEmptyString(Field(body, "referredPhone")).None? || !IsPeMobile9(PhoneNorm(body)) then Some(Fail(400, MsgBadPhone))
    else if Field(body, "consent") != Bool(true) then Some(Fail(400, MsgNoConsent))
    else None
  }

  /** The user behind the request's access token, if it is a non-empty string
      the identity provider accepts. */
  function SessionUser(body: Body, env: Env): Option<User> {
    match NonEmptyString(Field(body, "accessToken"))
    case None => None
    case Some(token) => env.getUser(token)
  }

  /** `!referrer_user_id`. */
  predicate NoUserId(uid: Option<string>) {
    uid.None? || uid.value == ""
  }

  /** The referrer the row is registered to: the session user, or else the
      `referrerEmail` the body carries; `None` when neither is usable (the
      400 response). */
  function ResolveReferrer(body: Body, env: Env): (r: Option<Referrer>)
    ensures r.Some? && NoUserId(r.value.userId) ==>
      r.value.email.Some? && IsEmail(r.value.email.value) && r.value.email == NormalizeEmail(Field(body, "referrerEmail"))
    ensures r.Some? && !NoUserId(r.value.userId) ==>
      SessionUser(body, env).Some? && r.value == Referrer(Some(SessionUser(body, env).value.id), SessionUser(body, env).value.email)
    ensures r.None? <==>
      (SessionUser(body, env).None? || SessionUser(body, env).value.id == "") &&
      (NormalizeEmail(Field(body, "referrerEmail")).None? || !IsEmail(NormalizeEmail(Field(body, "referrerEmail")).value))
  {
    var user := SessionUser(body, env);
    var uid := if user.Some? then Some(user.value.id) else None;
    var email := if user.Some? then user.value.email else None;
    if !NoUserId(uid) then Some(Referrer(uid, email))
    else
      var typed := NormalizeEmail(Field(body, "referrerEmail"));
      if typed.None? || !IsEmail(typed.value) then None
      else Some(Referrer(uid, typed))
  }

  /** A row that the cooldown query finds: registered by the same referrer
      (by user id when there is one, else by e-mail) no earlier than five
      minutes before `now`. */
  predicate RecentBy(r: Referral, ref: Referrer, now: int) {
    && r.createdAt >= now - RegisterCooldownMs
    && (if !NoUserId(ref.userId) then r.referrerUserId == ref.userId else r.referrerEmail == ref.email)
  }

  predicate HasRecent(rows: seq<Referral>, ref: Referrer, now: int) {
    exists i :: 0 <= i < |rows| && RecentBy(rows[i], ref, now)
  }

  predicate EmailTaken(rows: seq<Referral>, email: string) {
    exists i :: 0 <= i < |rows| && rows[i].referredEmail == Some(email)
  }

  predicate PhoneTaken(rows: seq<Referral>, phone: string) {
    exists i :: 0 <= i < |rows| && rows[i].referredPhone == phone
  }

  /** The duplicate checks: both query errors first (e-mail, then phone), then
      both duplicates (e-mail, then phone).  The e-mail query is not issued
      when there is no referred e-mail, so it cannot fail then. */
  function DuplicateGate(rows: seq<Referral>, email: Option<string>, phone: string, failing: set<Query>): (r: Option<Response>)
    ensures r.None? <==>
      && (email.Some? ==> DupEmailCheck !in failing && !EmailTaken(rows, email.value))
      && DupPhoneCheck !in failing && !PhoneTaken(rows, phone)
    ensures r.Some? ==> r.value.Fail? && r.value.status in {409, 500}
  {
    if email.Some? && DupEmailCheck in failing then Some(Fail(500, MsgDupEmailFailed))
    else if DupPhoneCheck in failing then Some(Fail(500, MsgDupPhoneFailed))
    else if email.Some? && EmailTaken(rows, email.value) then Some(Fail(409, MsgEmailTaken))
    else if PhoneTaken(rows, phone) then Some(Fail(409, MsgPhoneTaken))
    else None
  }

  /** A unique-index violation: code 23505, or "duplicate key" in the message. */
  predicate IsUniqueViolation(e: DbError) {
    e.code == Some("23505") || Contains(Lower(e.message), "duplicate key")
  }

  /** The message's mention of the phone index (the handler's three tests all
      contain "referred_phone"). */
  predicate NamesPhone(e: DbError) {
    var lower := Lower(e.message);
    Contains(lower, "referred_phone") || Contains(lower, "referred_phone_uq") || Contains(lower, "referred_phone_unique")
  }

  predicate NamesEmail(e: DbError) {
    var lower := Lower(e.message);
    Contains(lower, "referrals_referred_email_uq") || Contains(lower, "referred_email")
  }

  /** The response for an insert error: a unique violation is reported as a
      409 on the phone, else on the e-mail, else on the referral; any other
      error is a 400. */
  function ClassifyInsertError(e: DbError): (r: Response)
    ensures r.Fail?
    ensures r.status == 409 <==> IsUniqueViolation(e)
    ensures !IsUniqueViolation(e) ==> r == Fail(400, MsgInsertFailed)
    ensures IsUniqueViolation(e) && NamesPhone(e) ==> r.message == MsgPhoneTaken
    ensures IsUniqueViolation(e) && !NamesPhone(e) && NamesEmail(e) ==> r.message == MsgEmailTaken
    ensures IsUniqueViolation(e) && !NamesPhone(e) && !NamesEmail(e) ==> r.message == MsgReferralTaken
  {
    if IsUniqueViolation(e) then
      Fail(409, if NamesPhone(e) then MsgPhoneTaken else if NamesEmail(e) then MsgEmailTaken else MsgReferralTaken)
    else Fail(400, MsgInsertFailed)
  }

  /** The phone tests reduce to the first one: the other two patterns both
      contain "referred_phone". */
  lemma NamesPhoneIff(e: DbError)
    ensures NamesPhone(e) <==> Contains(Lower(e.message), "referred_phone")
  {
    var lower := Lower(e.message);
    if Contains(lower, "referred_phone_uq") {
      assert "referred_phone_uq" == "referred_phone" + "_uq";
      ContainsPrefix(lower, "referred_phone", "_uq");
    }
    if Contains(lower, "referred_phone_unique") {
      assert "referred_phone_unique" == "referred_phone" + "_unique";
      ContainsPrefix(lower, "referred_phone", "_unique");
    }
  }

  /** The normalised request fields the insert writes: the trimmed name,
      the normalised e-mail and phone, and the cleaned tracking columns. */
  datatype Form = Form(name: string, email: Option<string>, phone: string, tracking: Tracking)

  /** The handler's `referred_email_norm`, `referred_phone_norm`, trimmed
      name and tracking values for a body. */
  function FormOf(body: Body): (f: Form)
    ensures f.email == NormalizeEmail(Field(body, "referredEmail")) && f.phone == PhoneNorm(body)
    ensures NoEdgeSpace(f.name)
  {
    var name := Trim(StringOrEmpty(Field(body, "referredName")));
    Form(name, NormalizeEmail(Field(body, "referredEmail")), PhoneNorm(body), TrackingOf(body))
  }

  /** The row the insert adds. */
  function NewRow(f: Form, ref: Referrer, env: Env): (row: Referral)
    ensures row.status == "registered" && row.consent && row.notes.None?
    ensures row.referrerUserId == ref.userId && row.referrerEmail == ref.email
    ensures row.id == env.newId && row.createdAt == env.now
    ensures row.referredEmail == f.email && row.referredPhone == f.phone
  {
    Referral(env.newId, env.now, ref.userId, ref.email, f.name, f.email, f.phone, true, "registered", None, f.tracking)
  }

  /** `value || "—"`. */
  function OrDash(v: Option<string>): (r: string)
    ensures r != ""
  {
    if v.Some? && v.value != "" then v.value else "—"
  }

  function SenderOf(env: Env): string {
    if env.emailFrom != "" then env.emailFrom else DefaultFrom
  }

  /** `escapeHtml` applied to each interpolated value. */
  function EscapeAll(vals: seq<string>): (r: seq<string>)
    ensures |r| == |vals|
    decreases |vals|
  {
    if vals == [] then [] else [EscapeHtml(vals[0])] + EscapeAll(vals[1..])
  }

  /** The informative mail to the referred person: greeting name and referrer. */
  function ReferredMail(row: Referral, env: Env): Mail
    requires row.referredEmail.Some?
  {
    Mail(SenderOf(env), row.referredEmail.value, ReferredSubject,
         EscapeAll([row.referredName, row.referrerEmail.GetOr("una persona")]))
  }

  /** The internal notification: the row's fields, "—" for each empty one. */
  function InternalMail(row: Referral, env: Env): Mail {
    var t := row.tracking;
    Mail(SenderOf(env), env.internalTo, "Nuevo referido: " + row.referredName + " (" + row.referredPhone + ")",
         EscapeAll([OrDash(Some(row.id)), env.createdAtText, row.referredName,
                    OrDash(row.referredEmail), row.referredPhone, OrDash(row.referrerEmail),
                    OrDash(t.camp), OrDash(t.utmSource), OrDash(t.utmMedium),
                    OrDash(t.utmCampaign), OrDash(t.utmTerm), OrDash(t.utmContent),
                    OrDash(t.landingPath), OrDash(t.referer)]))
  }

  /** The mails sent after a successful insert: the referred person's only
      when a referred e-mail was given, the internal one only when a
      recipient is configured. */
  function MailsFor(row: Referral, env: Env): (ms: seq<Mail>)
    ensures |ms| == (if row.referredEmail.Some? then 1 else 0) + (if env.internalTo != "" then 1 else 0)
  {
    (if row.referredEmail.Some? then [ReferredMail(row, env)] else [])
    + (if env.internalTo != "" then [InternalMail(row, env)] else [])
  }

  // ---------------------------------------------------------------------------
  // The handler as a whole

  /** The claim branch. */
  function HandleClaim(rows: seq<Referral>, body: Body, env: Env): Outcome {
    match NonEmptyString(Field(body, "accessToken"))
    case None => Outcome(Fail(400, MsgTokenRequired), rows, [])
    case Some(token) =>
      match env.getUser(token)
      case None => Outcome(Fail(401, MsgBadSession), rows, [])
      case Some(user) =>
        if user.email.None? || user.email.value == "" then Outcome(Fail(400, MsgNoUserEmail), rows, [])
        else if ClaimUpdate in env.failing then Outcome(Fail(500, MsgClaimFailed), rows, [])
        else Outcome(Claimed(CountClaimable(rows, user.email.value)), ClaimRows(rows, user.id, user.email.value), [])
  }

  /** The effect of one request on a table holding `rows`; `body` is `None`
      when the request body is not JSON. */
  function Handle(rows: seq<Referral>, body: Option<Body>, env: Env): Outcome {
    if body.None? then Outcome(Fail(500, MsgUnexpected), rows, [])
    else if Field(body.value, "action") == Str("claim") then HandleClaim(rows, body.value, env)
    else HandleCreate(rows, body.value, env)
  }

  /** The registration path: field gates, referrer, then `Register`. */
  function HandleCreate(rows: seq<Referral>, b: Body, env: Env): Outcome {
    if FieldGate(b).Some? then Outcome(FieldGate(b).value, rows, [])
    else match ResolveReferrer(b, env)
      case None => Outcome(Fail(400, MsgBadReferrerEmail), rows, [])
      case Some(ref) => Register(rows, FormOf(b), ref, env)
  }

  /** The cooldown, the duplicate checks and the insert, for a body that passed
      the field gates and a resolved referrer. */
  function Register(rows: seq<Referral>, f: Form, ref: Referrer, env: Env): Outcome {
    if RecentCheck in env.failing then Outcome(Fail(500, MsgCooldownFailed), rows, [])
    else if HasRecent(rows, ref, env.now) then Outcome(Fail(429, MsgCooldown), rows, [])
    else
      var dup := DuplicateGate(rows, f.email, f.phone, env.failing);
      if dup.Some? then Outcome(dup.value, rows, [])
      else if env.insertError.Some? then Outcome(ClassifyInsertError(env.insertError.value), rows, [])
      else
        var row := NewRow(f, ref, env);
        Outcome(Created(f.email.Some? && env.referredMailOk, env.internalTo != "" && env.internalMailOk),
                rows + [row], MailsFor(row, env))
  }

  /** `POST`, step by step as the handler runs. */
  method Post(db: ReferralTable, body: Option<Body>, env: Env) returns (resp: Response, mails: seq<Mail>)
    modifies db
    ensures Handle(old(db.rows), body, env) == Outcome(resp, db.rows, mails)
  {
    if body.None? {
      return Fail(500, MsgUnexpected), [];
    }
    var b := body.value;
    if Field(b, "action") == Str("claim") {
      resp := PostClaim(db, b, env);
      mails := [];
      return;
    }
    var gate := FieldGate(b);
    if gate.Some? {
      return gate.value, [];
    }
    var ref := ReferrerStep(b, env);
    if ref.None? {
      return Fail(400, MsgBadReferrerEmail), [];
    }
    resp, mails := PostRegister(db, FormOf(b), ref.value, env);
  }

  /** The two-stage assignment of `referrer_user_id` and
      `final_referrer_email`: first from the session, then, when there is no
      user id, from the typed e-mail. */
  method ReferrerStep(b: Body, env: Env) returns (ref: Option<Referrer>)
    ensures ref == ResolveReferrer(b, env)
  {
    var referrerUserId: Option<string> := None;
    var finalReferrerEmail: Option<string> := None;
    var token := NonEmptyString(Field(b, "accessToken"));
    if token.Some? {
      var user := env.getUser(token.value);
      if user.Some? {
        referrerUserId := Some(user.value.id);
        finalReferrerEmail := user.value.email;
      }
    }
    if NoUserId(referrerUserId) {
      var referrerEmailNorm := NormalizeEmail(Field(b, "referrerEmail"));
      if referrerEmailNorm.None? || !IsEmail(referrerEmailNorm.value) {
        return None;
      }
      finalReferrerEmail := referrerEmailNorm;
    }
    ref := Some(Referrer(referrerUserId, finalReferrerEmail));
  }

  /** The cooldown and duplicate checks with early returns, the insert, and
      the two mails. */
  method PostRegister(db: ReferralTable, f: Form, ref: Referrer, env: Env) returns (resp: Response, mails: seq<Mail>)
    modifies db
    ensures Register(old(db.rows), f, ref, env) == Outcome(resp, db.rows, mails)
  {
    mails := [];
    if RecentCheck in env.failing {
      return Fail(500, MsgCooldownFailed), [];
    }
    if HasRecent(db.rows, ref, env.now) {
      return Fail(429, MsgCooldown), [];
    }
    var dup := DuplicateGate(db.rows, f.email, f.phone, env.failing);
    if dup.Some? {
      return dup.value, [];
    }
    if env.insertError.Some? {
      return ClassifyInsertError(env.insertError.value), [];
    }
    var row := NewRow(f, ref, env);
    db.Append(row);

    var emailSent, internalEmailSent;
    mails, emailSent, internalEmailSent := SendMails(row, env);
    resp := Created(emailSent, internalEmailSent);
  }

  /** The two sends, each only when it has a recipient; a failed send is
      caught and reported as not sent. */
  method SendMails(row: Referral, env: Env) returns (mails: seq<Mail>, emailSent: bool, internalEmailSent: bool)
    ensures mails == MailsFor(row, env)
    ensures emailSent == (row.referredEmail.Some? && env.referredMailOk)
    ensures internalEmailSent == (env.internalTo != "" && env.internalMailOk)
  {
    var toReferred: seq<Mail> := [];
    var toInternal: seq<Mail> := [];
    emailSent := false;
    internalEmailSent := false;
    if row.referredEmail.Some? {
      toReferred := [ReferredMail(row, env)];
      emailSent := env.referredMailOk;
    }
    if env.internalTo != "" {
      toInternal := [InternalMail(row, env)];
      internalEmailSent := env.internalMailOk;
    }
    mails := toReferred + toInternal;
  }

  /** The claim branch of `POST`. */
  method PostClaim(db: ReferralTable, body: Body, env: Env) returns (resp: Response)
    modifies db
    ensures HandleClaim(old(db.rows), body, env) == Outcome(resp, db.rows, [])
  {
    var token := NonEmptyString(Field(body, "accessToken"));
    if token.None? {
      return Fail(400, MsgTokenRequired);
    }
    var user := env.getUser(token.value);
    if user.None? {
      return Fail(401, MsgBadSession);
    }
    var userEmail := user.value.email;
    if userEmail.None? || userEmail.value == "" {
      return Fail(400, MsgNoUserEmail);
    }
    if ClaimUpdate in env.failing {
      return Fail(500, MsgClaimFailed);
    }
    var claimed := db.Claim(user.value.id, userEmail.value);
    resp := Claimed(claimed);
  }
}
