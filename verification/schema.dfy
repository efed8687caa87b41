/**
 * The SQLite store of the backend (backend/src/db.js) as one immutable value.
 *
 * Every table is a sequence in rowid order: the row at index i has id i + 1.
 * The tables use AUTOINCREMENT, nothing is ever deleted, and a rolled-back
 * transaction also rolls back the id counter, so ids are exactly 1..|table|.
 *
 * NOT NULL columns are plain fields, nullable columns are `Option`s and the
 * CHECK enumerations are datatypes; the UNIQUE and FOREIGN KEY constraints
 * are `Valid`. The better-sqlite3 driver builds SQLite with foreign keys
 * enforced, so a write naming a missing parent row fails.
 */
module Schema {
  import opened Common

  /** Roles a principal can carry; the `users` table only holds the first two. */
  datatype Role = SuperAdmin | SubAdmin | TenantUser

  datatype DeviceType = Room | Person

  datatype Tenant = Tenant(name: string)

  /** A platform user; `tenant_id` is nullable. */
  datatype User = User(tenantId: Option<int>, email: string, passwordHash: string, role: Role)

  /** `last_seen` is nullable in the schema, but every writer stores an
      integer (0 on insert), so it is an `int` here; `online` is the stored
      0/1 flag, which no reader trusts. */
  datatype Device = Device(
    tenantId: int,
    uid: string,
    name: Option<string>,
    kind: DeviceType,
    lastSeen: int,
    online: bool)

  /** One proximity observation. `room_device_id` is nullable; `rssi` is
      nullable in the schema but always written (0 when the report has none). */
  datatype TrackingRow = TrackingRow(
    tenantId: int,
    personId: nat,
    roomId: Option<nat>,
    rssi: int,
    ts: int)

  datatype TenantUserRow = TenantUserRow(tenantId: int, email: string, passwordHash: string, scopes: string)

  datatype Store = Store(
    tenants: seq<Tenant>,
    users: seq<User>,
    devices: seq<Device>,
    tracking: seq<TrackingRow>,
    tenantUsers: seq<TenantUserRow>)

  /** What a handler answers and the store it leaves behind. */
  datatype Reply<+T> = Reply(result: Result<T>, store: Store)

  /** The id of the row at index i. */
  function IdOf(i: nat): nat { i + 1 }

  // ---- The schema's constraints -------------------------------------------

  /** `tenants.name` is UNIQUE. */
  predicate UniqueTenantNames(tenants: seq<Tenant>)
  {
    forall i, j | 0 <= i < j < |tenants| :: tenants[i].name != tenants[j].name
  }

  /** `users.email` is UNIQUE. */
  predicate UniqueUserEmails(users: seq<User>)
  {
    forall i, j | 0 <= i < j < |users| :: users[i].email != users[j].email
  }

  /** `users.role` is CHECKed to be 'super_admin' or 'sub_admin'. */
  predicate PlatformRoles(users: seq<User>)
  {
    forall i | 0 <= i < |users| :: users[i].role != TenantUser
  }

  /** `devices.device_uid` is UNIQUE across all tenants. */
  predicate UniqueDeviceUids(devices: seq<Device>)
  {
    forall i, j | 0 <= i < j < |devices| :: devices[i].uid != devices[j].uid
  }

  /** `tenant_users.email` is UNIQUE within that table only. */
  predicate UniqueTenantUserEmails(rows: seq<TenantUserRow>)
  {
    forall i, j | 0 <= i < j < |rows| :: rows[i].email != rows[j].email
  }

  /** The message SQLite fails a write with when a foreign key names no row. */
  const ForeignKeyFailed: string := "FOREIGN KEY constraint failed"

  /** `id` names a row of the tenants table. */
  predicate TenantExists(tenants: seq<Tenant>, id: int)
  {
    1 <= id <= |tenants|
  }

  /** The `tenant_id` foreign keys of `users` (when not NULL), `devices`,
      `tracking` and `tenant_users` name existing tenants. */
  predicate TenantRefs(s: Store)
  {
    && (forall i | 0 <= i < |s.users| && s.users[i].tenantId.Some? :: TenantExists(s.tenants, s.users[i].tenantId.value))
    && (forall i | 0 <= i < |s.devices| :: TenantExists(s.tenants, s.devices[i].tenantId))
    && (forall k | 0 <= k < |s.tracking| :: TenantExists(s.tenants, s.tracking[k].tenantId))
    && (forall j | 0 <= j < |s.tenantUsers| :: TenantExists(s.tenants, s.tenantUsers[j].tenantId))
  }

  /** The device foreign keys of `tracking`: every row names an existing
      device as its person, and an existing device as its room when it names one. */
  predicate TrackingRefs(tracking: seq<TrackingRow>, deviceCount: nat)
  {
    forall k | 0 <= k < |tracking| ::
      && 1 <= tracking[k].personId <= deviceCount
      && (tracking[k].roomId.Some? ==> 1 <= tracking[k].roomId.value <= deviceCount)
  }

  predicate Valid(s: Store)
  {
    && UniqueTenantNames(s.tenants)
    && UniqueUserEmails(s.users)
    && PlatformRoles(s.users)
    && UniqueDeviceUids(s.devices)
    && UniqueTenantUserEmails(s.tenantUsers)
    && TrackingRefs(s.tracking, |s.devices|)
    && TenantRefs(s)
  }

  /** Tenants are never deleted: appending tenants keeps every reference valid. */
  lemma TenantRefsGrow(s: Store, tenants: seq<Tenant>)
    requires TenantRefs(s)
    requires |s.tenants| <= |tenants| && tenants[..|s.tenants|] == s.tenants
    ensures TenantRefs(s.(tenants := tenants))
  {
  }

  // ---- Lookups: `SELECT ... WHERE <column> = ?` followed by `.get()` --------

  /** Index of the first row satisfying `p`, as `.get()` returns the first match. */
  function FindFirst<T>(rows: seq<T>, p: T -> bool): (r: Option<nat>)
    ensures r.Some? ==> r.value < |rows| && p(rows[r.value])
    ensures r.Some? ==> forall k | 0 <= k < r.value :: !p(rows[k])
    ensures r.None? ==> forall k | 0 <= k < |rows| :: !p(rows[k])
    decreases |rows|
  {
    if |rows| == 0 then None
    else if p(rows[0]) then Some(0)
    else
      match FindFirst(rows[1..], p)
      case None => None
      case Some(k) => Some(k + 1)
  }

  function DeviceByUid(devices: seq<Device>, uid: string): Option<nat>
  {
    FindFirst(devices, (d: Device) => d.uid == uid)
  }

  function UserByEmail(users: seq<User>, email: string): Option<nat>
  {
    FindFirst(users, (u: User) => u.email == email)
  }

  function TenantUserByEmail(rows: seq<TenantUserRow>, email: string): Option<nat>
  {
    FindFirst(rows, (t: TenantUserRow) => t.email == email)
  }

  function TenantByName(tenants: seq<Tenant>, name: string): Option<nat>
  {
    FindFirst(tenants, (t: Tenant) => t.name == name)
  }

  /** "Select the tenant by name, insert it if absent" as used by the
      sub-admin provisioning transaction and by the seed script. The tenant
      id is returned together with the new tenants table. */
  function TenantByNameOrCreate(tenants: seq<Tenant>, name: string): (r: (nat, seq<Tenant>))
    requires UniqueTenantNames(tenants)
    ensures UniqueTenantNames(r.1)
    ensures 1 <= r.0 <= |r.1| && r.1[r.0 - 1].name == name
    ensures (exists i | 0 <= i < |tenants| :: tenants[i].name == name) ==> r.1 == tenants
    ensures (forall i | 0 <= i < |tenants| :: tenants[i].name != name) ==>
              r.1 == tenants + [Tenant(name)]
  {
    match TenantByName(tenants, name)
    case Some(i) => (IdOf(i), tenants)
    case None => (IdOf(|tenants|), tenants + [Tenant(name)])
  }
}
