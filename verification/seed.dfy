/**
 * The seed script (backend/src/seed.js): make sure a super admin exists.
 *
 * `ADMIN_EMAIL` and the bcrypt digest of `ADMIN_PASSWORD` are parameters.
 * The script's statements do not run inside a transaction: when the user
 * insert fails, a `Global` tenant it has just created stays.
 */
module Seed {
  import opened Common
  import opened Schema

  const GlobalTenant: string := "Global"
  /** SQLite's message when the admin email already belongs to a sub admin. */
  const DuplicateUserEmail: string := "UNIQUE constraint failed: users.email"

  predicate IsSuperAdmin(u: User) { u.role == SuperAdmin }

  /** `ensureSuperAdmin()`: the id of the first super admin, creating one in
      the `Global` tenant when there is none. */
  function EnsureSuperAdmin(s: Store, adminEmail: string, digest: string): (out: Reply<nat>)
    requires Valid(s)
    ensures Valid(out.store)
    ensures out.store.(tenants := s.tenants, users := s.users) == s
    // the answer is the first super admin of the resulting store
    ensures out.result.Ok? ==>
              && 1 <= out.result.value <= |out.store.users|
              && out.store.users[out.result.value - 1].role == SuperAdmin
              && forall k | 0 <= k < out.result.value - 1 :: out.store.users[k].role != SuperAdmin
    // an existing super admin: nothing is created
    ensures (exists i | 0 <= i < |s.users| :: s.users[i].role == SuperAdmin) ==>
              out.result.Ok? && out.store == s
    // none yet: exactly one is inserted, in the Global tenant (reused or created)
    ensures (forall i | 0 <= i < |s.users| :: s.users[i].role != SuperAdmin)
            && (forall i | 0 <= i < |s.users| :: s.users[i].email != adminEmail) ==>
              && out.result == Ok(IdOf(|s.users|))
              && |out.store.users| == |s.users| + 1
              && out.store.users[..|s.users|] == s.users
              && var admin := out.store.users[|s.users|];
                 && admin.email == adminEmail && admin.passwordHash == digest && admin.role == SuperAdmin
                 && admin.tenantId.Some?
                 && 1 <= admin.tenantId.value <= |out.store.tenants|
                 && out.store.tenants[admin.tenantId.value - 1].name == GlobalTenant
    // the admin email is taken by a sub admin: the insert fails, the Global tenant stays
    ensures (forall i | 0 <= i < |s.users| :: s.users[i].role != SuperAdmin)
            && (exists i | 0 <= i < |s.users| :: s.users[i].email == adminEmail) ==>
              && out.result == Err(Constraint(DuplicateUserEmail))
              && out.store.users == s.users
              && exists g | 0 <= g < |out.store.tenants| :: out.store.tenants[g].name == GlobalTenant
    ensures (forall i | 0 <= i < |s.users| :: s.users[i].role != SuperAdmin) ==>
              |s.tenants| <= |out.store.tenants| <= |s.tenants| + 1 && out.store.tenants[..|s.tenants|] == s.tenants
    // an existing Global tenant is reused, not duplicated
    ensures (exists g | 0 <= g < |s.tenants| :: s.tenants[g].name == GlobalTenant) ==> out.store.tenants == s.tenants
  {
    match FindFirst(s.users, IsSuperAdmin)
    case Some(i) => Reply(Ok(IdOf(i)), s)
    case None =>
      var (tenantId, tenants) := TenantByNameOrCreate(s.tenants, GlobalTenant);
      var withTenant := s.(tenants := tenants);
      TenantRefsGrow(s, tenants);
      if UserByEmail(s.users, adminEmail).Some? then
        Reply(Err(Constraint(DuplicateUserEmail)), withTenant)
      else
        var admin := User(Some(tenantId), adminEmail, digest, SuperAdmin);
        Reply(Ok(IdOf(|s.users|)), withTenant.(users := s.users + [admin]))
  }

  /** After a successful first run, a second run changes nothing and answers
      the same id. */
  lemma SeedIdempotent(s: Store, adminEmail: string, digest: string)
    requires Valid(s)
    requires EnsureSuperAdmin(s, adminEmail, digest).result.Ok?
    ensures var first := EnsureSuperAdmin(s, adminEmail, digest);
            EnsureSuperAdmin(first.store, adminEmail, digest) == first
  {
    var first := EnsureSuperAdmin(s, adminEmail, digest);
    var id := first.result.value;
    assert IsSuperAdmin(first.store.users[id - 1]);
  }

  /** When no super admin existed, a successful run leaves exactly one. */
  lemma SeedCreatesExactlyOne(s: Store, adminEmail: string, digest: string)
    requires Valid(s)
    requires forall i | 0 <= i < |s.users| :: s.users[i].role != SuperAdmin
    requires EnsureSuperAdmin(s, adminEmail, digest).result.Ok?
    ensures var after := EnsureSuperAdmin(s, adminEmail, digest).store;
            forall i | 0 <= i < |after.users| && after.users[i].role == SuperAdmin :: i == |s.users|
  {
    var after := EnsureSuperAdmin(s, adminEmail, digest).store;
    assert after.users == s.users + [after.users[|s.users|]];
  }
}
