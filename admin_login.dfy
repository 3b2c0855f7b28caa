/** The admin login page (`app/admin/login/page.tsx`): a form with a `mode`
    switched between signing in and asking for a password-reset link, the
    `error` and `loading` fields its submit handler sets in sequence, and a
    mount effect that skips the form for a session that can already read
    the admin list.  The identity provider's answers are parameters; the
    calls the page makes are recorded in order. */
module AdminLogin {
  import opened Wrappers
  import opened JsText
  import opened JsErrors
  import AdminPage

  const MsgEmailRequired: string := "Ingresa tu correo."
  const MsgPasswordRequired: string := "Ingresa tu contraseña."
  const MsgActionFailed: string := "No pudimos completar la acción."
  const MsgResetSent: string := "Si el correo existe, te llegará un enlace para recuperar tu contraseña."
  const AdminHome: string := "/admin"
  const ResetPath: string := "/admin/reset-password"

  datatype Mode = LoginMode | ForgotMode

  /** A call to the identity provider. */
  datatype AuthCall = ResetRequest(email: string, redirectTo: string) | SignIn(email: string, password: string)

  /** The page's fields, as one value. */
  datatype LoginState = LoginState(
    email: string,
    password: string,
    mode: Mode,
    loading: bool,
    error: string,
    location: Option<string>,
    alerts: seq<string>,
    calls: seq<AuthCall>)

  /** `email.trim().toLowerCase()`. */
  function NormalizedEmail(email: string): (e: string)
    ensures e == "" <==> IsBlank(email)
  {
    Lower(Trim(email))
  }

  /** `onSubmit` from state `s`, at page origin `origin`, with the answer the
      identity provider gives to the call it makes. */
  function AfterSubmit(s: LoginState, origin: string, answer: Answer): LoginState {
    var e := NormalizedEmail(s.email);
    if e == "" then s.(error := MsgEmailRequired)
    else if s.mode == ForgotMode then
      var called := s.(calls := s.calls + [ResetRequest(e, origin + ResetPath)], loading := false);
      match answer
      case Failed(t) => called.(error := MessageOr(t, MsgActionFailed))
      case Succeeded => called.(error := "", alerts := s.alerts + [MsgResetSent], mode := LoginMode)
    else if s.password == "" then s.(error := MsgPasswordRequired, loading := false)
    else
      var called := s.(calls := s.calls + [SignIn(e, s.password)], loading := false, error := "");
      match answer
      case Failed(t) => called.(error := MessageOr(t, MsgActionFailed))
      case Succeeded => called.(location := Some(AdminHome))
  }

  /** A blank e-mail stops the submit with an error before any call, and
      changes nothing else. */
  lemma BlankEmailStops(s: LoginState, origin: string, answer: Answer)
    requires IsBlank(s.email)
    ensures AfterSubmit(s, origin, answer) == s.(error := MsgEmailRequired)
  {
  }

  /** Asking for a link needs no password: one reset request with the
      normalised address and the reset page as its return address, and on
      success the form is back in login mode with the error cleared. */
  lemma ForgotNeedsNoPassword(s: LoginState, origin: string, answer: Answer)
    requires !IsBlank(s.email) && s.mode == ForgotMode
    ensures var t := AfterSubmit(s, origin, answer);
      && t.calls == s.calls + [ResetRequest(NormalizedEmail(s.email), origin + ResetPath)]
      && !t.loading && t.location == s.location
      && (answer.Succeeded? ==> t.mode == LoginMode && t.error == "" && t.alerts == s.alerts + [MsgResetSent])
      && (answer.Failed? ==> t.mode == ForgotMode && t.alerts == s.alerts)
  {
  }

  /** In login mode an empty password stops the submit with its error, and
      no sign-in is attempted. */
  lemma LoginNeedsPassword(s: LoginState, origin: string, answer: Answer)
    requires !IsBlank(s.email) && s.mode == LoginMode && s.password == ""
    ensures var t := AfterSubmit(s, origin, answer);
      t.calls == s.calls && t.error == MsgPasswordRequired && t.location == s.location && !t.loading
  {
  }

  /** A sign-in happens only in login mode, with a non-blank address and a
      password, and the page leaves for the admin area only after one
      succeeded. */
  lemma SignInOnlyWhenComplete(s: LoginState, origin: string, answer: Answer)
    ensures var t := AfterSubmit(s, origin, answer);
      && (t.calls != s.calls && t.calls[|t.calls| - 1].SignIn? ==>
            s.mode == LoginMode && !IsBlank(s.email) && s.password != ""
            && t.calls == s.calls + [SignIn(NormalizedEmail(s.email), s.password)])
      && (t.location != s.location ==> s.mode == LoginMode && answer.Succeeded? && t.location == Some(AdminHome))
      && (t.calls == s.calls || |t.calls| == |s.calls| + 1)
  {
  }

  /** Every submit that got past the e-mail check ends with `loading` false. */
  lemma LoadingCleared(s: LoginState, origin: string, answer: Answer)
    requires !IsBlank(s.email)
    ensures !AfterSubmit(s, origin, answer).loading
  {
  }

  /** The mount effect moves to the admin area only for a non-empty token
      whose list probe answered 2xx with `ok`. */
  predicate MountRedirects(token: Option<string>, probe: AdminPage.Probe) {
    token.Some? && token.value != "" && probe.ProbeReplied? && 200 <= probe.status < 300 && probe.jsonOk
  }

  /** The login page forwards exactly the sessions the admin page admits,
      so neither page sends a session back to the other. */
  lemma MountAgreesWithAdminPage(token: Option<string>, probe: AdminPage.Probe)
    ensures MountRedirects(token, probe) <==> AdminPage.AccessAfterProbe(token, probe) == AdminPage.AdminAccess
  {
  }

  class LoginPage {
    var email: string
    var password: string
    var mode: Mode
    var loading: bool
    var error: string
    var location: Option<string>
    var alerts: seq<string>
    var calls: seq<AuthCall>

    function State(): LoginState
      reads this
    {
      LoginState(email, password, mode, loading, error, location, alerts, calls)
    }

    constructor()
      ensures State() == LoginState("", "", LoginMode, false, "", None, [], [])
    {
      email, password, mode, loading, error := "", "", LoginMode, false, "";
      location, alerts, calls := None, [], [];
    }

    /** The e-mail and password inputs. */
    method Type(newEmail: string, newPassword: string)
      modifies this
      ensures State() == old(State()).(email := newEmail, password := newPassword)
    {
      email, password := newEmail, newPassword;
    }

    /** "¿Olvidaste tu contraseña?" */
    method ShowForgot()
      modifies this
      ensures State() == old(State()).(mode := ForgotMode, error := "")
    {
      mode := ForgotMode;
      error := "";
    }

    /** "Volver a login" */
    method ShowLogin()
      modifies this
      ensures State() == old(State()).(mode := LoginMode, error := "")
    {
      mode := LoginMode;
      error := "";
    }

    /** The mount effect, given the session's token and how the probe ended. */
    method Mount(token: Option<string>, probe: AdminPage.Probe)
      modifies this
      ensures State() == old(State()).(location := if MountRedirects(token, probe) then Some(AdminHome) else old(location))
    {
      if token.None? || token.value == "" {
        return;
      }
      if probe.ProbeReplied? && 200 <= probe.status < 300 && probe.jsonOk {
        location := Some(AdminHome);
      }
    }

    /** `onSubmit`. */
    method Submit(origin: string, answer: Answer)
      modifies this
      ensures State() == AfterSubmit(old(State()), origin, answer)
    {
      error := "";
      var eNorm := NormalizedEmail(email);
      if eNorm == "" {
        error := MsgEmailRequired;
        return;
      }
      loading := true;
      if mode == ForgotMode {
        calls := calls + [ResetRequest(eNorm, origin + ResetPath)];
        match answer {
          case Failed(t) =>
            error := MessageOr(t, MsgActionFailed);
          case Succeeded =>
            error := "";
            alerts := alerts + [MsgResetSent];
            mode := LoginMode;
        }
      } else if password == "" {
        error := MsgPasswordRequired;
      } else {
        calls := calls + [SignIn(eNorm, password)];
        match answer {
          case Failed(t) =>
            error := MessageOr(t, MsgActionFailed);
          case Succeeded =>
            location := Some(AdminHome);
        }
      }
      loading := false;
    }
  }
}
