/**
 * The account routes (backend/src/routes/auth.js): login across the two
 * user tables, the super admin's sub-admin provisioning transaction and the
 * sub admin's tenant-user creation.
 *
 * bcrypt is a parameter: `verifyPassword(password, hash)` stands for
 * `bcrypt.compareSync`, and the digest `bcrypt.hashSync` produces for a new
 * account is passed in as `digest`. A successful login is modelled by the
 * claims it signs; the token itself is the JWT library's business.
 */
module Accounts {
  import opened Common
  import opened Strings
  import opened Schema
  import opened Middleware

  const MissingEmailOrPassword: string := "Missing email or password"
  const MissingSubAdminFields: string := "Missing email, password, or tenantName"
  const MissingScopes: string := "Missing scopes"
  const EmailExists: string := "Email already exists"
  /** SQLite's message when a tenant user would get a NULL tenant. */
  const NullTenantUserTenant: string := "NOT NULL constraint failed: tenant_users.tenant_id"

  // ---- Login -----------------------------------------------------------------

  datatype LoginRequest = LoginRequest(email: Option<string>, password: Option<string>)

  /** The claims signed for a platform user: no `scopes`. */
  function UserClaims(users: seq<User>, i: nat): Claims
    requires i < |users|
  {
    Claims(IdOf(i), users[i].email, users[i].role, users[i].tenantId, None)
  }

  /** The claims signed for a tenant user: role `tenant_user` and its scopes. */
  function TenantUserClaims(rows: seq<TenantUserRow>, j: nat): Claims
    requires j < |rows|
  {
    Claims(IdOf(j), rows[j].email, TenantUser, Some(rows[j].tenantId), Some(rows[j].scopes))
  }

  /** `POST /login`: read only. The `users` table is tried first; only when
      it has no row with this email, or the password does not match it, is
      `tenant_users` tried. */
  function Login(s: Store, req: LoginRequest, verifyPassword: (string, string) -> bool): (r: Result<Claims>)
    ensures !Given(req.email) || !Given(req.password) ==> r == Err(BadRequest(MissingEmailOrPassword))
    ensures r.Ok? || r == Err(InvalidCredentials) || r == Err(BadRequest(MissingEmailOrPassword))
    // the platform account wins whenever it matches
    ensures Valid(s) && Given(req.email) && Given(req.password) ==>
              forall i | 0 <= i < |s.users|
                         && s.users[i].email == req.email.value
                         && verifyPassword(req.password.value, s.users[i].passwordHash) ::
                r == Ok(UserClaims(s.users, i))
    // otherwise a matching tenant user logs in
    ensures Valid(s) && Given(req.email) && Given(req.password)
            && (forall i | 0 <= i < |s.users| && s.users[i].email == req.email.value ::
                  !verifyPassword(req.password.value, s.users[i].passwordHash)) ==>
              forall j | 0 <= j < |s.tenantUsers|
                         && s.tenantUsers[j].email == req.email.value
                         && verifyPassword(req.password.value, s.tenantUsers[j].passwordHash) ::
                r == Ok(TenantUserClaims(s.tenantUsers, j))
    // a login only succeeds through a matching account
    ensures r.Ok? ==>
              && Given(req.email) && Given(req.password)
              && ((exists i | 0 <= i < |s.users| ::
                     && r.value == UserClaims(s.users, i)
                     && s.users[i].email == req.email.value
                     && verifyPassword(req.password.value, s.users[i].passwordHash))
                  || (exists j | 0 <= j < |s.tenantUsers| ::
                     && r.value == TenantUserClaims(s.tenantUsers, j)
                     && s.tenantUsers[j].email == req.email.value
                     && verifyPassword(req.password.value, s.tenantUsers[j].passwordHash)))
    ensures Given(req.email) && Given(req.password)
            && (forall i | 0 <= i < |s.users| && s.users[i].email == req.email.value ::
                  !verifyPassword(req.password.value, s.users[i].passwordHash))
            && (forall j | 0 <= j < |s.tenantUsers| && s.tenantUsers[j].email == req.email.value ::
                  !verifyPassword(req.password.value, s.tenantUsers[j].passwordHash)) ==>
              r == Err(InvalidCredentials)
  {
    if !Given(req.email) || !Given(req.password) then Err(BadRequest(MissingEmailOrPassword))
    else
      var email := req.email.value;
      var password := req.password.value;
      var row := UserByEmail(s.users, email);
      if row.Some? && verifyPassword(password, s.users[row.value].passwordHash) then
        Ok(UserClaims(s.users, row.value))
      else
        var tuser := TenantUserByEmail(s.tenantUsers, email);
        if tuser.Some? && verifyPassword(password, s.tenantUsers[tuser.value].passwordHash) then
          Ok(TenantUserClaims(s.tenantUsers, tuser.value))
        else
          Err(InvalidCredentials)
  }

  // ---- Sub-admin provisioning ------------------------------------------------

  datatype SubAdminRequest = SubAdminRequest(email: Option<string>, password: Option<string>, tenantName: Option<string>)

  /** The transaction of `POST /subadmins`: reuse or create the tenant, refuse
      a taken email, insert the sub admin. A refusal rolls the whole
      transaction back, including a tenant it created. */
  function SubAdminTx(s: Store, email: string, tenantName: string, digest: string): (out: Reply<(nat, nat)>)
    requires Valid(s)
    ensures Valid(out.store)
    ensures out.result.Err? ==> out == Reply(Err(BadRequest(EmailExists)), s)
    ensures out.result.Err? <==> exists i | 0 <= i < |s.users| :: s.users[i].email == email
    ensures out.result.Ok? ==>
              var (userId, tenantId) := out.result.value;
              && userId == IdOf(|s.users|)
              && out.store.users == s.users + [User(Some(tenantId), email, digest, SubAdmin)]
              && 1 <= tenantId <= |out.store.tenants|
              && out.store.tenants[tenantId - 1].name == tenantName
              && ((exists i | 0 <= i < |s.tenants| :: s.tenants[i].name == tenantName) ==> out.store.tenants == s.tenants)
              && ((forall i | 0 <= i < |s.tenants| :: s.tenants[i].name != tenantName) ==>
                    out.store.tenants == s.tenants + [Tenant(tenantName)])
              && out.store.(tenants := s.tenants, users := s.users) == s
  {
    var (tenantId, tenants) := TenantByNameOrCreate(s.tenants, tenantName);
    if UserByEmail(s.users, email).Some? then Reply(Err(BadRequest(EmailExists)), s)
    else
      var user := User(Some(tenantId), email, digest, SubAdmin);
      Reply(Ok((IdOf(|s.users|), tenantId)), s.(tenants := tenants, users := s.users + [user]))
  }

  /** `POST /subadmins`: super admin only. */
  function CreateSubAdmin(s: Store, header: Option<string>, verifyToken: string -> Option<Claims>,
                          req: SubAdminRequest, digest: string): (out: Reply<(nat, nat)>)
    requires Valid(s)
    ensures Valid(out.store)
    ensures out.result.Err? ==> out.store == s
    ensures Authenticated(header, verifyToken, [SuperAdmin]).Err? ==>
              out.result == Err(Authenticated(header, verifyToken, [SuperAdmin]).error)
    ensures Authenticated(header, verifyToken, [SuperAdmin]).Ok? && out.result.Err? ==> out.result.error.Status() == 400
    ensures Authenticated(header, verifyToken, [SuperAdmin]).Ok? ==>
              if !Given(req.email) || !Given(req.password) || !Given(req.tenantName) then
                out.result == Err(BadRequest(MissingSubAdminFields))
              else
                out == SubAdminTx(s, req.email.value, req.tenantName.value, digest)
  {
    match Authenticated(header, verifyToken, [SuperAdmin])
    case Err(e) => Reply(Err(e), s)
    case Ok(_) =>
      if !Given(req.email) || !Given(req.password) || !Given(req.tenantName) then
        Reply(Err(BadRequest(MissingSubAdminFields)), s)
      else
        SubAdminTx(s, req.email.value, req.tenantName.value, digest)
  }

  /** A duplicate email leaves no trace, not even a tenant the call would
      have created. */
  lemma SubAdminDuplicateIsAtomic(s: Store, email: string, tenantName: string, digest: string, i: nat)
    requires Valid(s)
    requires i < |s.users| && s.users[i].email == email
    requires forall k | 0 <= k < |s.tenants| :: s.tenants[k].name != tenantName
    ensures SubAdminTx(s, email, tenantName, digest).store == s
    ensures |SubAdminTx(s, email, tenantName, digest).store.tenants| == |s.tenants|
  {
  }

  // ---- Tenant-user creation --------------------------------------------------

  /** The `scopes` field of `POST /tenant-users`: an array or anything else. */
  datatype ScopesField = ScopeArray(names: seq<string>) | ScopeText(text: Option<string>)

  /** `Array.isArray(scopes) ? scopes.join(',') : (scopes || '')`. */
  function ScopesString(f: ScopesField): (s: string)
    // an array is joined: requireScope's split gives back its separator-free names
    ensures f.ScopeArray? && |f.names| >= 1 && (forall i | 0 <= i < |f.names| :: ',' !in f.names[i]) ==>
              Split(s, ',') == f.names
    // the route refuses it (`Missing scopes`) exactly for [] and [""]
    ensures f.ScopeArray? ==> (s == "" <==> |f.names| == 0 || (|f.names| == 1 && f.names[0] == ""))
    // anything else is taken as it is, a falsy value as ""
    ensures f.ScopeText? ==> (s == "" <==> !Given(f.text)) && (Given(f.text) ==> s == f.text.value)
  {
    match f
    case ScopeArray(names) =>
      var joined := Join(names, ',');
      assert |names| >= 1 && (forall i | 0 <= i < |names| :: ',' !in names[i]) ==> Split(joined, ',') == names by {
        if |names| >= 1 && forall i | 0 <= i < |names| :: ',' !in names[i] {
          SplitJoin(names, ',');
        }
      }
      joined
    case ScopeText(t) => if t.Some? then t.value else ""
  }

  datatype TenantUserRequest = TenantUserRequest(email: Option<string>, password: Option<string>, scopes: ScopesField)

  /** `POST /tenant-users` (the top-level route): sub admin only; the new
      user joins the creator's tenant. The email is checked against
      `tenant_users` alone, and scope names are not checked. */
  function CreateTenantUser(s: Store, header: Option<string>, verifyToken: string -> Option<Claims>,
                            req: TenantUserRequest, digest: string): (out: Reply<nat>)
    requires Valid(s)
    ensures Valid(out.store)
    ensures out.result.Err? ==> out.store == s
    ensures out.store.(tenantUsers := s.tenantUsers) == s
    ensures Authenticated(header, verifyToken, [SubAdmin]).Err? ==>
              out.result == Err(Authenticated(header, verifyToken, [SubAdmin]).error)
    ensures Authenticated(header, verifyToken, [SubAdmin]).Ok? && out.result.Err? ==> out.result.error.Status() == 400
    ensures Authenticated(header, verifyToken, [SubAdmin]).Ok? ==>
              var creator := Authenticated(header, verifyToken, [SubAdmin]).value;
              if !Given(req.email) || !Given(req.password) then
                out.result == Err(BadRequest(MissingEmailOrPassword))
              else if ScopesString(req.scopes) == "" then
                out.result == Err(BadRequest(MissingScopes))
              else if exists j | 0 <= j < |s.tenantUsers| :: s.tenantUsers[j].email == req.email.value then
                out.result == Err(BadRequest(EmailExists))
              else if creator.tenantId.None? then
                out.result == Err(Constraint(NullTenantUserTenant))
              else if !TenantExists(s.tenants, creator.tenantId.value) then
                out.result == Err(Constraint(ForeignKeyFailed))
              else
                && out.result == Ok(IdOf(|s.tenantUsers|))
                && out.store.tenantUsers == s.tenantUsers
                     + [TenantUserRow(creator.tenantId.value, req.email.value, digest, ScopesString(req.scopes))]
  {
    match Authenticated(header, verifyToken, [SubAdmin])
    case Err(e) => Reply(Err(e), s)
    case Ok(creator) =>
      if !Given(req.email) || !Given(req.password) then Reply(Err(BadRequest(MissingEmailOrPassword)), s)
      else
        var scopes := ScopesString(req.scopes);
        if scopes == "" then Reply(Err(BadRequest(MissingScopes)), s)
        else if TenantUserByEmail(s.tenantUsers, req.email.value).Some? then Reply(Err(BadRequest(EmailExists)), s)
        else if creator.tenantId.None? then Reply(Err(Constraint(NullTenantUserTenant)), s)
        else if !TenantExists(s.tenants, creator.tenantId.value) then Reply(Err(Constraint(ForeignKeyFailed)), s)
        else
          var row := TenantUserRow(creator.tenantId.value, req.email.value, digest, scopes);
          Reply(Ok(IdOf(|s.tenantUsers|)), s.(tenantUsers := s.tenantUsers + [row]))
  }

  /** A tenant user created with a list of clean scope names, who then logs
      in with the password behind the stored digest (and is not shadowed by
      a platform account), holds exactly the capabilities named in the list. */
  lemma {:induction false} CreatedScopesGrantExactly(
      s: Store, header: Option<string>, verifyToken: string -> Option<Claims>,
      email: string, password: string, names: seq<string>, digest: string,
      verifyPassword: (string, string) -> bool, scope: string)
    requires Valid(s)
    requires Authenticated(header, verifyToken, [SubAdmin]).Ok?
    requires Authenticated(header, verifyToken, [SubAdmin]).value.tenantId.Some?
    requires TenantExists(s.tenants, Authenticated(header, verifyToken, [SubAdmin]).value.tenantId.value)
    requires email != "" && password != ""
    requires |names| >= 1 && forall i | 0 <= i < |names| :: ',' !in names[i] && Trimmed(names[i]) && names[i] != ""
    requires forall j | 0 <= j < |s.tenantUsers| :: s.tenantUsers[j].email != email
    requires verifyPassword(password, digest)
    requires forall i | 0 <= i < |s.users| && s.users[i].email == email :: !verifyPassword(password, s.users[i].passwordHash)
    ensures var created := CreateTenantUser(s, header, verifyToken,
                             TenantUserRequest(Some(email), Some(password), ScopeArray(names)), digest);
            && created.result.Ok?
            && var session := Login(created.store, LoginRequest(Some(email), Some(password)), verifyPassword);
               && session.Ok?
               && session.value.role == TenantUser
               && (RequireScope(Some(session.value), scope).Ok? <==> scope in names)
  {
    var req := TenantUserRequest(Some(email), Some(password), ScopeArray(names));
    var joined := Join(names, ',');
    assert joined != "" by {
      if |names| == 1 {
        assert joined == names[0];
      } else {
        assert joined == names[0] + [','] + Join(names[1..], ',');
      }
    }
    var created := CreateTenantUser(s, header, verifyToken, req, digest);
    var j := |s.tenantUsers|;
    assert created.store.tenantUsers[j].email == email;
    var session := Login(created.store, LoginRequest(Some(email), Some(password)), verifyPassword);
    assert created.store.users == s.users;
    assert session == Ok(TenantUserClaims(created.store.tenantUsers, j));
    JoinedScopesGrant(names, scope);
  }
}
