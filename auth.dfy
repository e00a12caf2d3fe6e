/**
 * Role middleware: the fixed role set, guards built by `requireRole`, the four
 * role helpers and the header handling of `verifyToken`.  Verifying a Firebase
 * ID token is a call into code that is not modelled; it is a parameter
 * `verifyIdToken` that yields the decoded user or nothing (the call threw).
 */
module Auth {
  import opened Strings
  import opened Wrappers

  /** `AUTH_ENABLED` as the backend ships it; every operation below takes the
      switch as a parameter so that both settings can be stated. */
  const AuthEnabled: bool := false

  const Roles: seq<string> := ["student", "committee", "admin", "super_admin"]

  /** `req.user`: a decoded token, with the custom `role` claim if it has one. */
  datatype User = User(uid: string, role: Option<string>)

  /** The user every request is given while authentication is switched off. */
  const DemoUser: User := User("demo-user", Some("super_admin"))

  /** The middleware `requireRole(...allowedRoles)` returns. */
  datatype Guard = Guard(allowedRoles: seq<string>)

  /** Whether a middleware calls `next()` or ends the request with a status. */
  datatype Verdict = Next | Reject(code: int, error: string)

  /** `allowedRoles.filter(r => !ROLES.includes(r))` */
  function UnknownRoles(roles: seq<string>): (r: seq<string>)
    ensures forall x :: x in r <==> x in roles && x !in Roles
  {
    if |roles| == 0 then []
    else (if roles[0] in Roles then [] else [roles[0]]) + UnknownRoles(roles[1..])
  }

  /** `requireRole(...allowedRoles)`: throws at construction when a role is unknown. */
  function RequireRole(allowedRoles: seq<string>): (r: Result<Guard, string>)
    ensures r.Success? <==> forall x :: x in allowedRoles ==> x in Roles
    ensures r.Success? ==> r.value.allowedRoles == allowedRoles
    ensures r.Failure? ==> StartsWith(r.error, "[Auth] Unknown role(s): ")
  {
    var unknown := UnknownRoles(allowedRoles);
    if |unknown| > 0 then
      assert unknown[0] in allowedRoles && unknown[0] !in Roles;
      Failure("[Auth] Unknown role(s): " + Join(unknown, ", "))
    else
      Success(Guard(allowedRoles))
  }

  const IsStudent: Guard := RequireRole(["student", "committee", "admin", "super_admin"]).value
  const IsCommittee: Guard := RequireRole(["committee", "admin", "super_admin"]).value
  const IsAdmin: Guard := RequireRole(["admin", "super_admin"]).value
  const IsSuperAdmin: Guard := RequireRole(["super_admin"]).value

  /** `req.user && req.user.role`, when truthy. */
  function RoleOf(user: Option<User>): (r: Option<string>)
    ensures r.Some? <==> user.Some? && user.value.role.Some? && user.value.role.value != ""
    ensures r.Some? ==> r == user.value.role
  {
    if user.Some? && user.value.role.Some? && user.value.role.value != "" then user.value.role else None
  }

  /** Running a guard on a request whose `req.user` is `user`. */
  function Admit(g: Guard, authEnabled: bool, user: Option<User>): (v: Verdict)
    ensures v.Next? <==> !authEnabled || (RoleOf(user).Some? && RoleOf(user).value in g.allowedRoles)
    ensures authEnabled && RoleOf(user).None? ==> v == Reject(403, "Forbidden: No role assigned.")
    ensures v.Reject? ==> v.code == 403
  {
    if !authEnabled then Next
    else if RoleOf(user).None? then Reject(403, "Forbidden: No role assigned.")
    else if RoleOf(user).value !in g.allowedRoles then
      Reject(403, "Forbidden: Requires role " + Join(g.allowedRoles, ", "))
    else Next
  }

  /** The four helpers are nested: each lets through everyone the stricter one
      lets through, whatever the switch and the user. */
  lemma HelpersNested(authEnabled: bool, user: Option<User>)
    ensures Admit(IsSuperAdmin, authEnabled, user).Next? ==> Admit(IsAdmin, authEnabled, user).Next?
    ensures Admit(IsAdmin, authEnabled, user).Next? ==> Admit(IsCommittee, authEnabled, user).Next?
    ensures Admit(IsCommittee, authEnabled, user).Next? ==> Admit(IsStudent, authEnabled, user).Next?
    ensures Admit(IsStudent, authEnabled, user).Next? ==> RoleOf(user).None? || RoleOf(user).value in Roles || !authEnabled
  {
  }

  /** With authentication on, the nesting is strict: a user with role `r` passes
      exactly the helpers from the least privileged one up to its own level. */
  lemma HelpersStrict(uid: string)
    ensures Admit(IsStudent, true, Some(User(uid, Some("student")))).Next?
    ensures Admit(IsCommittee, true, Some(User(uid, Some("student")))).Reject?
    ensures Admit(IsCommittee, true, Some(User(uid, Some("committee")))).Next?
    ensures Admit(IsAdmin, true, Some(User(uid, Some("committee")))).Reject?
    ensures Admit(IsAdmin, true, Some(User(uid, Some("admin")))).Next?
    ensures Admit(IsSuperAdmin, true, Some(User(uid, Some("admin")))).Reject?
    ensures Admit(IsSuperAdmin, true, Some(User(uid, Some("super_admin")))).Next?
  {
  }

  /** With authentication off every guard lets every request through. */
  lemma DisabledAdmitsAll(g: Guard, user: Option<User>)
    ensures Admit(g, false, user) == Next
  {
  }

  /** The token in an `Authorization` header: present exactly when the header
      starts with "Bearer ", and then `authHeader.split('Bearer ')[1]`. */
  function BearerToken(header: Option<string>): (t: Option<string>)
    ensures t.Some? <==> header.Some? && StartsWith(header.value, "Bearer ")
    ensures t.Some? ==> StartsWith(header.value, "Bearer " + t.value)
    ensures t.Some? ==> t.value == header.value[7..] || StartsWith(header.value[7 + |t.value|..], "Bearer ")
    ensures t.Some? ==> forall i :: 7 <= i < 7 + |t.value| ==> !StartsWith(header.value[i..], "Bearer ")
    ensures t.Some? && !Contains(header.value[7..], "Bearer ") ==> header.value == "Bearer " + t.value
  {
    if header.Some? && header.value != "" && StartsWith(header.value, "Bearer ") then
      var h := header.value;
      var t := TextBefore(h[7..], "Bearer ");
      assert h == "Bearer " + h[7..];
      assert StartsWith(h, "Bearer " + t) by {
        assert h[7..][..|t|] == t;
        assert h[..7 + |t|] == "Bearer " + t;
      }
      assert h[7..][|t|..] == h[7 + |t|..];
      assert forall i :: 7 <= i < 7 + |t| ==> h[7..][i - 7..] == h[i..];
      TextBeforeWithoutSeparator(h[7..], "Bearer ");
      Some(t)
    else None
  }

  /** The request object; `verifyToken` sets its `user`. */
  class Request {
    const authorization: Option<string>
    var user: Option<User>

    constructor (authorization: Option<string>)
      ensures this.authorization == authorization && user == None
    {
      this.authorization := authorization;
      user := None;
    }
  }

  /** `verifyToken`: with the switch off, install the demo user; otherwise
      refuse a request without a bearer token (401) or with a token the
      verifier rejects (403), and install the decoded user of a good one. */
  method VerifyToken(req: Request, authEnabled: bool, verifyIdToken: string -> Option<User>) returns (v: Verdict)
    modifies req
    ensures !authEnabled ==> v == Next && req.user == Some(DemoUser)
    ensures authEnabled && BearerToken(req.authorization).None? ==>
      v == Reject(401, "Unauthorized: No token provided.") && req.user == old(req.user)
    ensures authEnabled && BearerToken(req.authorization).Some? ==>
      var decoded := verifyIdToken(BearerToken(req.authorization).value);
      && (decoded.Some? ==> v == Next && req.user == decoded)
      && (decoded.None? ==> v == Reject(403, "Forbidden: Invalid or expired token.") && req.user == old(req.user))
  {
    if !authEnabled {
      req.user := Some(DemoUser);
      return Next;
    }
    var token := BearerToken(req.authorization);
    if token.None? {
      return Reject(401, "Unauthorized: No token provided.");
    }
    var decoded := verifyIdToken(token.value);
    if decoded.None? {
      return Reject(403, "Forbidden: Invalid or expired token.");
    }
    req.user := decoded;
    v := Next;
  }

  /** What a guarded request gets with authentication on: 401 without a bearer
      token, 403 when the verifier rejects it, and otherwise the role helper's
      verdict on the decoded user. */
  function GuardVerdict(g: Guard, authorization: Option<string>, verifyIdToken: string -> Option<User>): (v: Verdict)
    ensures BearerToken(authorization).None? ==> v == Reject(401, "Unauthorized: No token provided.")
    ensures BearerToken(authorization).Some? && verifyIdToken(BearerToken(authorization).value).None? ==>
      v == Reject(403, "Forbidden: Invalid or expired token.")
    ensures v.Next? <==>
      && BearerToken(authorization).Some?
      && var decoded := verifyIdToken(BearerToken(authorization).value);
      && decoded.Some? && RoleOf(decoded).Some? && RoleOf(decoded).value in g.allowedRoles
    ensures v.Reject? && BearerToken(authorization).Some? && verifyIdToken(BearerToken(authorization).value).Some? ==>
      v.code == 403
  {
    match BearerToken(authorization)
    case None => Reject(401, "Unauthorized: No token provided.")
    case Some(token) =>
      match verifyIdToken(token)
      case None => Reject(403, "Forbidden: Invalid or expired token.")
      case Some(user) => Admit(g, true, Some(user))
  }

  /** As shipped, authentication is off and every guard admits every request. */
  lemma ShippedSettingAdmitsAll(g: Guard, user: Option<User>)
    ensures !AuthEnabled && Admit(g, AuthEnabled, user) == Next
  {
    DisabledAdmitsAll(g, user);
  }

  /** A route guarded by `verifyToken` and then a role helper, as the admin and
      super-admin routes are: with the switch off every request gets through. */
  method Guarded(req: Request, g: Guard, authEnabled: bool, verifyIdToken: string -> Option<User>) returns (v: Verdict)
    modifies req
    ensures !authEnabled ==> v == Next && req.user == Some(DemoUser)
    ensures v.Next? ==> Admit(g, authEnabled, req.user).Next?
    ensures authEnabled ==> v == GuardVerdict(g, req.authorization, verifyIdToken)
    ensures authEnabled ==>
      (v.Next? <==> BearerToken(req.authorization).Some?
                    && verifyIdToken(BearerToken(req.authorization).value).Some?
                    && Admit(g, true, verifyIdToken(BearerToken(req.authorization).value)).Next?)
    ensures authEnabled && BearerToken(req.authorization).Some? && verifyIdToken(BearerToken(req.authorization).value).Some? ==>
      req.user == verifyIdToken(BearerToken(req.authorization).value)
    ensures authEnabled && (BearerToken(req.authorization).None? || verifyIdToken(BearerToken(req.authorization).value).None?) ==>
      req.user == old(req.user)
  {
    v := VerifyToken(req, authEnabled, verifyIdToken);
    if v.Next? {
      v := Admit(g, authEnabled, req.user);
    }
  }
}
