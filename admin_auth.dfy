/** The admin gate the two admin routes (`list` and `update-status`) run
    before anything else: a bearer token, a user for it, and a `profiles` row
    whose role is `admin`. */
module AdminAuth {
  import opened Wrappers
  import opened JsText

  const BearerPrefix: string := "Bearer "

  const MsgUnauthorized: string := "No autorizado."
  const MsgPermissionCheckFailed: string := "Error validando permisos."
  const MsgNotAdmin: string := "Sin permisos de admin."

  /** What `profiles.select("role").eq("id", uid).maybeSingle()` yields: an
      error, no row, or a row with its `role` (which may be null). */
  datatype ProfileLookup = ProfileError | NoProfile | ProfileRow(role: Option<string>)

  /** The identity provider (token to user id) and the `profiles` table. */
  datatype AdminBackend = AdminBackend(getUser: string -> Option<string>, profile: string -> ProfileLookup)

  /** The gate's verdict: the admin's user id, or the refusal. */
  datatype Gate = Admin(userId: string) | Denied(status: int, message: string)

  /** `auth.startsWith("Bearer ") ? auth.slice(7) : ""` over the
      `authorization` header, read as "" when absent. */
  function BearerToken(header: Option<string>): (token: string)
    ensures token != "" ==> header.Some? && header.value == BearerPrefix + token
    ensures header.Some? && StartsWith(header.value, BearerPrefix) ==> BearerPrefix + token == header.value
  {
    var auth := header.GetOr("");
    if StartsWith(auth, BearerPrefix) then
      assert auth == auth[..7] + auth[7..];
      auth[7..]
    else ""
  }

  /** The gate, in the routes' order: no token, a token without a user, a
      failed profile lookup, a profile that is missing or not `admin`. */
  function AdminGate(header: Option<string>, be: AdminBackend): (g: Gate)
    ensures g.Admin? <==>
      && BearerToken(header) != ""
      && be.getUser(BearerToken(header)).Some?
      && be.profile(be.getUser(BearerToken(header)).value) == ProfileRow(Some("admin"))
    ensures g.Admin? ==> g.userId == be.getUser(BearerToken(header)).value
    ensures g.Denied? ==> g.status in {401, 403, 500}
  {
    var token := BearerToken(header);
    if token == "" then Denied(401, MsgUnauthorized)
    else match be.getUser(token)
      case None => Denied(401, MsgUnauthorized)
      case Some(uid) =>
        match be.profile(uid)
        case ProfileError => Denied(500, MsgPermissionCheckFailed)
        case NoProfile => Denied(403, MsgNotAdmin)
        case ProfileRow(role) => if role == Some("admin") then Admin(uid) else Denied(403, MsgNotAdmin)
  }

  /** Each refusal, given the checks before it passed. */
  lemma GateOrder(header: Option<string>, be: AdminBackend)
    ensures BearerToken(header) == "" ==> AdminGate(header, be) == Denied(401, MsgUnauthorized)
    ensures header.Some? && !StartsWith(header.value, BearerPrefix) ==> AdminGate(header, be) == Denied(401, MsgUnauthorized)
    ensures BearerToken(header) != "" && be.getUser(BearerToken(header)).None? ==>
      AdminGate(header, be) == Denied(401, MsgUnauthorized)
    ensures BearerToken(header) != "" && be.getUser(BearerToken(header)).Some? ==>
      var p := be.profile(be.getUser(BearerToken(header)).value);
      && (p.ProfileError? ==> AdminGate(header, be) == Denied(500, MsgPermissionCheckFailed))
      && (p.NoProfile? ==> AdminGate(header, be) == Denied(403, MsgNotAdmin))
      && (p.ProfileRow? && p.role != Some("admin") ==> AdminGate(header, be) == Denied(403, MsgNotAdmin))
  {
  }

  /** A token is the header minus its prefix, so two headers that carry the
      same token pass or fail the gate alike. */
  lemma GateDependsOnTokenOnly(h1: Option<string>, h2: Option<string>, be: AdminBackend)
    requires BearerToken(h1) == BearerToken(h2)
    ensures AdminGate(h1, be) == AdminGate(h2, be)
  {
  }

  /** An ordinary bearer header yields the token after the prefix. */
  lemma BearerTokenOfHeader(token: string)
    ensures BearerToken(Some(BearerPrefix + token)) == token
  {
    var h := BearerPrefix + token;
    assert h[..7] == BearerPrefix;
  }
}
