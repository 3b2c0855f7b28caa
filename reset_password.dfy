/** The password-reset page (`app/admin/reset-password/page.tsx`), reached
    from the recovery link: it learns on mount whether the link opened a
    session, and its submit handler sets `error`, `info` and `loading`
    behind three ordered gates before it changes the password, signs out
    and schedules the move to the login page.  The identity provider's
    answers are parameters; the calls are recorded in order. */
module ResetPassword {
  import opened Wrappers
  import opened JsErrors

  const MsgLinkInvalid: string := "El enlace no es válido o expiró. Vuelve a pedir recuperación."
  const MsgTooShort: string := "La contraseña debe tener al menos 8 caracteres."
  const MsgMismatch: string := "Las contraseñas no coinciden."
  const MsgUpdateFailed: string := "No pudimos actualizar la contraseña."
  const MsgUpdated: string := "Contraseña actualizada. Redirigiendo a login..."
  const LoginPath: string := "/admin/login"
  const MinLength: nat := 8

  /** A call to the identity provider. */
  datatype ResetCall = UpdatePassword(password: string) | SignOut

  /** The page's fields, as one value; `redirect` is the navigation the
      page has scheduled. */
  datatype ResetState = ResetState(
    ready: bool,
    hasSession: bool,
    password: string,
    password2: string,
    loading: bool,
    error: string,
    info: string,
    calls: seq<ResetCall>,
    redirect: Option<string>)

  /** The first gate that fails, in the handler's order. */
  function GateError(s: ResetState): (m: Option<string>)
    ensures m.None? <==> s.hasSession && |s.password| >= MinLength && s.password == s.password2
  {
    if !s.hasSession then Some(MsgLinkInvalid)
    else if s.password == "" || |s.password| < MinLength then Some(MsgTooShort)
    else if s.password != s.password2 then Some(MsgMismatch)
    else None
  }

  /** `onSubmit` from state `s`, with the answer to the password update. */
  function AfterSubmit(s: ResetState, answer: Answer): ResetState {
    var cleared := s.(error := "", info := "");
    match GateError(s)
    case Some(m) => cleared.(error := m)
    case None =>
      var tried := cleared.(calls := s.calls + [UpdatePassword(s.password)], loading := false);
      match answer
      case Failed(t) => tried.(error := MessageOr(t, MsgUpdateFailed))
      case Succeeded =>
        tried.(info := MsgUpdated, calls := tried.calls + [SignOut], redirect := Some(LoginPath))
  }

  /** The gates in order: without a session the passwords are not even
      looked at; a short password is reported before a mismatch.  The first
      failing gate's message is the only change, and nothing is called. */
  lemma GateOrder(s: ResetState, answer: Answer)
    ensures !s.hasSession ==> AfterSubmit(s, answer) == s.(error := MsgLinkInvalid, info := "")
    ensures s.hasSession && |s.password| < MinLength ==> AfterSubmit(s, answer) == s.(error := MsgTooShort, info := "")
    ensures s.hasSession && |s.password| >= MinLength && s.password != s.password2 ==>
      AfterSubmit(s, answer) == s.(error := MsgMismatch, info := "")
  {
  }

  /** The password is changed only with a session, a password of at least
      eight characters and a matching confirmation; `loading` is false again
      after every such attempt. */
  lemma UpdateOnlyPastGates(s: ResetState, answer: Answer)
    ensures var t := AfterSubmit(s, answer);
      && (t.calls != s.calls <==> s.hasSession && |s.password| >= MinLength && s.password == s.password2)
      && (t.calls != s.calls ==> t.calls[|s.calls|] == UpdatePassword(s.password) && !t.loading)
      && (t.calls == s.calls ==> t.loading == s.loading)
  {
  }

  /** After a successful update the page signs out before it moves to the
      login page: the sign-out is the call recorded right after the update,
      and the scheduled navigation is set with it; a failed update neither
      signs out nor navigates. */
  lemma SignOutBeforeRedirect(s: ResetState, answer: Answer)
    ensures var t := AfterSubmit(s, answer);
      && (t.redirect != s.redirect ==>
            answer.Succeeded? && t.redirect == Some(LoginPath) && t.info == MsgUpdated
            && t.calls == s.calls + [UpdatePassword(s.password), SignOut])
      && (answer.Failed? ==> t.redirect == s.redirect && SignOut !in t.calls[|s.calls|..])
  {
  }

  class ResetPage {
    var ready: bool
    var hasSession: bool
    var password: string
    var password2: string
    var loading: bool
    var error: string
    var info: string
    var calls: seq<ResetCall>
    var redirect: Option<string>

    function State(): ResetState
      reads this
    {
      ResetState(ready, hasSession, password, password2, loading, error, info, calls, redirect)
    }

    constructor()
      ensures State() == ResetState(false, false, "", "", false, "", "", [], None)
    {
      ready, hasSession, password, password2, loading := false, false, "", "", false;
      error, info, calls, redirect := "", "", [], None;
    }

    /** The mount effect: whether the recovery link opened a session. */
    method Mount(session: bool)
      modifies this
      ensures State() == old(State()).(hasSession := session, ready := true)
    {
      hasSession := session;
      ready := true;
    }

    /** The two password inputs. */
    method Type(newPassword: string, newPassword2: string)
      modifies this
      ensures State() == old(State()).(password := newPassword, password2 := newPassword2)
    {
      password, password2 := newPassword, newPassword2;
    }

    /** `onSubmit`. */
    method Submit(answer: Answer)
      modifies this
      ensures State() == AfterSubmit(old(State()), answer)
    {
      error := "";
      info := "";
      if !hasSession {
        error := MsgLinkInvalid;
        return;
      }
      if password == "" || |password| < MinLength {
        error := MsgTooShort;
        return;
      }
      if password != password2 {
        error := MsgMismatch;
        return;
      }
      loading := true;
      calls := calls + [UpdatePassword(password)];
      match answer {
        case Failed(t) =>
          error := MessageOr(t, MsgUpdateFailed);
        case Succeeded =>
          info := MsgUpdated;
          calls := calls + [SignOut];
          redirect := Some(LoginPath);
      }
      loading := false;
    }
  }
}
