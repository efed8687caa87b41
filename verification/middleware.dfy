/**
 * The authorization middleware (backend/src/middleware/auth.js) and the
 * role-or-scope gate the device and tracking routes put in front of their
 * handlers.
 *
 * JWT verification is a parameter `verifyToken`: it yields the signed claims
 * of a token that has a valid signature and has not expired, and None
 * otherwise.
 */
module Middleware {
  import opened Common
  import opened Strings
  import opened Schema

  const BearerPrefix: string := "Bearer "

  /** The payload of a session token: `{ id, email, role, tenant_id, scopes? }`;
      only tenant users carry `scopes`. */
  datatype Claims = Claims(id: nat, email: string, role: Role, tenantId: Option<int>, scopes: Option<string>)

  /** `header.startsWith('Bearer ') ? header.slice(7) : null`, where a missing
      header counts as "". */
  function BearerToken(header: Option<string>): (t: Option<string>)
    ensures t.Some? <==> header.Some? && StartsWith(header.value, BearerPrefix)
    ensures t.Some? ==> header.value == BearerPrefix + t.value
  {
    var h := if header.Some? then header.value else "";
    if StartsWith(h, BearerPrefix) then
      assert h == h[..|BearerPrefix|] + h[|BearerPrefix|..];
      Some(h[|BearerPrefix|..])
    else None
  }

  /** `authRequired`: the claims of the bearer token, or the 401 answer. */
  function AuthRequired(header: Option<string>, verifyToken: string -> Option<Claims>): (r: Result<Claims>)
    ensures r.Ok? || r == Err(Unauthorized) || r == Err(InvalidToken)
    ensures r == Err(Unauthorized) <==> !Given(BearerToken(header))
    ensures r == Err(InvalidToken) <==>
              Given(BearerToken(header)) && verifyToken(BearerToken(header).value).None?
    ensures r.Err? ==> r.error.Status() == 401
    ensures r.Err? ==> r.error.Message() in {"Unauthorized", "Invalid token"}
    ensures r.Ok? ==>
              && header.Some?
              && |header.value| > |BearerPrefix|
              && header.value == BearerPrefix + header.value[|BearerPrefix|..]
              && verifyToken(header.value[|BearerPrefix|..]) == Some(r.value)
  {
    var token := BearerToken(header);
    if !Given(token) then Err(Unauthorized)
    else
      match verifyToken(token.value)
      case None => Err(InvalidToken)
      case Some(claims) => Ok(claims)
  }

  /** `requireRole(...roles)`. */
  function RequireRole(user: Option<Claims>, roles: seq<Role>): (r: Result<Claims>)
    ensures user.None? ==> r == Err(Unauthorized)
    ensures user.Some? ==> (r == Ok(user.value) <==> user.value.role in roles)
    ensures user.Some? && r.Err? ==> r.error == Forbidden
    ensures r.Err? ==> r.error.Status() == (if user.None? then 401 else 403)
  {
    match user
    case None => Err(Unauthorized)
    case Some(u) => if u.role in roles then Ok(u) else Err(Forbidden)
  }

  /** The entries `requireScope` compares against:
      `(scopes || '').split(',').map(s => s.trim())`. */
  function ScopeList(scopes: Option<string>): seq<string>
  {
    var raw := if scopes.Some? then scopes.value else "";
    var parts := Split(raw, ',');
    seq(|parts|, i requires 0 <= i < |parts| => Trim(parts[i]))
  }

  predicate HasScope(scopes: Option<string>, scope: string)
  {
    scope in ScopeList(scopes)
  }

  /** `requireScope(scope)`: every role but `tenant_user` passes; a tenant
      user passes iff the scope is one of its trimmed comma-separated entries. */
  function RequireScope(user: Option<Claims>, scope: string): (r: Result<Claims>)
    ensures user.None? ==> r == Err(Unauthorized)
    ensures user.Some? && user.value.role != TenantUser ==> r == Ok(user.value)
    ensures user.Some? && user.value.role == TenantUser ==>
              (r == Ok(user.value) <==> HasScope(user.value.scopes, scope))
    ensures user.Some? && r.Err? ==> r.error == MissingScope
    ensures user.Some? && r.Err? ==> r.error.Status() == 403 && r.error.Message() == "Forbidden: missing scope"
  {
    match user
    case None => Err(Unauthorized)
    case Some(u) =>
      if u.role == TenantUser && !HasScope(u.scopes, scope) then Err(MissingScope) else Ok(u)
  }

  /** The gate of device registration, device listing and tracking listing:
      a tenant user needs `scope`, every other principal must be a sub admin
      or the super admin. */
  function AdminOrScope(header: Option<string>, verifyToken: string -> Option<Claims>, scope: string): (r: Result<Claims>)
    ensures AuthRequired(header, verifyToken).Err? ==> r == AuthRequired(header, verifyToken)
    ensures r.Ok? <==>
              && AuthRequired(header, verifyToken).Ok?
              && var u := AuthRequired(header, verifyToken).value;
                 if u.role == TenantUser then HasScope(u.scopes, scope) else u.role in [SubAdmin, SuperAdmin]
    ensures r.Ok? ==> r == AuthRequired(header, verifyToken)
    ensures r.Err? && AuthRequired(header, verifyToken).Ok? ==> r == Err(MissingScope)
  {
    match AuthRequired(header, verifyToken)
    case Err(e) => Err(e)
    case Ok(user) =>
      if user.role == TenantUser then RequireScope(Some(user), scope)
      else RequireRole(Some(user), [SubAdmin, SuperAdmin])
  }

  /** `authRequired` followed by `requireRole(...roles)`, the guard of the
      account-provisioning routes. */
  function Authenticated(header: Option<string>, verifyToken: string -> Option<Claims>, roles: seq<Role>): (r: Result<Claims>)
    ensures AuthRequired(header, verifyToken).Err? ==> r == AuthRequired(header, verifyToken)
    ensures r.Ok? <==> AuthRequired(header, verifyToken).Ok? && AuthRequired(header, verifyToken).value.role in roles
    ensures r.Ok? ==> r == AuthRequired(header, verifyToken)
    ensures r.Err? && AuthRequired(header, verifyToken).Ok? ==> r == Err(Forbidden)
  {
    match AuthRequired(header, verifyToken)
    case Err(e) => Err(e)
    case Ok(user) => RequireRole(Some(user), roles)
  }

  /** The tenant a list route reads: the caller's own, unless the caller is
      the super admin and the query string carries `tenant_id` (a non-empty
      query string, so even "0" overrides). */
  function QueryTenant(user: Claims, requested: Option<int>): (t: Option<int>)
    ensures user.role != SuperAdmin ==> t == user.tenantId
    ensures user.role == SuperAdmin && requested.Some? ==> t == requested
    ensures requested.None? ==> t == user.tenantId
  {
    if user.role == SuperAdmin && requested.Some? then requested else user.tenantId
  }

  // ---- Scope strings -------------------------------------------------------

  /** A missing or empty scopes string grants nothing but the empty scope. */
  lemma EmptyScopesGrantNothing(scopes: Option<string>, scope: string)
    requires scopes.None? || scopes == Some("")
    requires scope != ""
    ensures !HasScope(scopes, scope)
  {
    var raw := if scopes.Some? then scopes.value else "";
    assert raw == "";
    assert Split(raw, ',') == [""];
    assert Trim("") == "";
    var list := ScopeList(scopes);
    assert |list| == 1 && list[0] == "";
  }

  /** A scopes string built by joining clean names with ',' grants exactly
      those names: the round trip of the tenant-user creation route's
      `scopes.join(',')` through `requireScope`'s split and trim. */
  lemma {:induction false} JoinedScopesGrant(names: seq<string>, scope: string)
    requires |names| >= 1
    requires forall i | 0 <= i < |names| :: ',' !in names[i] && Trimmed(names[i])
    ensures HasScope(Some(Join(names, ',')), scope) <==> scope in names
  {
    SplitJoin(names, ',');
    var list := ScopeList(Some(Join(names, ',')));
    forall i | 0 <= i < |names|
      ensures list[i] == names[i]
    {
      TrimOfTrimmed(names[i]);
    }
    assert list == names;
  }

  /** Surrounding white space in a scopes entry is ignored: an entry that
      is the scope padded with white space grants it. */
  lemma PaddedScopeGrants(scopes: string, i: nat, pad1: string, scope: string, pad2: string)
    requires i < |Split(scopes, ',')|
    requires Split(scopes, ',')[i] == pad1 + scope + pad2
    requires forall k | 0 <= k < |pad1| :: IsSpace(pad1[k])
    requires forall k | 0 <= k < |pad2| :: IsSpace(pad2[k])
    requires Trimmed(scope)
    ensures HasScope(Some(scopes), scope)
  {
    TrimPadded(pad1, scope, pad2);
    assert ScopeList(Some(scopes))[i] == scope;
  }

  /** Trim removes exactly the white-space padding around a trimmed core. */
  lemma {:induction false} TrimPadded(a: string, core: string, b: string)
    requires forall k | 0 <= k < |a| :: IsSpace(a[k])
    requires forall k | 0 <= k < |b| :: IsSpace(b[k])
    requires Trimmed(core)
    ensures Trim(a + core + b) == core
  {
    assert a + core + b == a + (core + b);
    if |core| == 0 {
      assert a + core + b == (a + b) + "";
      forall k | 0 <= k < |a + b|
        ensures IsSpace((a + b)[k])
      {
        if k >= |a| {
          assert (a + b)[k] == b[k - |a|];
        }
      }
      TrimStartPadded(a + b, "");
    } else {
      TrimStartPadded(a, core + b);
      TrimEndPadded(core, b);
    }
  }

  lemma {:induction false} TrimStartPadded(a: string, rest: string)
    requires forall k | 0 <= k < |a| :: IsSpace(a[k])
    requires |rest| == 0 || !IsSpace(rest[0])
    ensures TrimStart(a + rest) == rest
    decreases |a|
  {
    if |a| > 0 {
      assert (a + rest)[1..] == a[1..] + rest;
      TrimStartPadded(a[1..], rest);
    } else {
      assert a + rest == rest;
    }
  }

  lemma {:induction false} TrimEndPadded(core: string, b: string)
    requires forall k | 0 <= k < |b| :: IsSpace(b[k])
    requires |core| == 0 || !IsSpace(core[|core| - 1])
    ensures TrimEnd(core + b) == core
    decreases |b|
  {
    if |b| > 0 {
      var s := core + b;
      assert s[..|s| - 1] == core + b[..|b| - 1];
      TrimEndPadded(core, b[..|b| - 1]);
    } else {
      assert core + b == core;
    }
  }
}
