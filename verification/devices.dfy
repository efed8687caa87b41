/**
 * The device registry routes (backend/src/routes/devices.js): registration
 * as an upsert keyed by the globally unique `device_uid`, the firmware's
 * config lookup, the heartbeat, and the tenant-filtered device list with
 * online status derived at read time.
 *
 * The clock `now` (seconds) and the offline threshold `OFFLINE_AFTER_SEC`
 * are parameters.
 */
module Devices {
  import opened Common
  import opened Schema
  import opened Middleware
  import opened Presence

  const ConfigScope: string := "config"
  const HeartbeatIntervalSec: int := 60
  const TrackingIntervalSec: int := 300

  const InvalidPayload: string := "Invalid payload"
  const MissingDeviceId: string := "Missing deviceId"
  const NotRegistered: string := "Not registered"
  const MissingDeviceUid: string := "Missing device_uid"
  const DeviceNotFound: string := "Device not found"
  /** SQLite's message when an upsert would store a NULL tenant. */
  const NullDeviceTenant: string := "NOT NULL constraint failed: devices.tenant_id"

  // ---- Registration ----------------------------------------------------------

  /** The body of `POST /register`; `tenantId` is only honoured for the super admin. */
  datatype RegisterRequest = RegisterRequest(
    uid: Option<string>,
    name: Option<string>,
    kind: Option<string>,
    tenantId: Option<int>)

  function ParseType(kind: Option<string>): Option<DeviceType>
  {
    if kind == Some("room") then Some(Room)
    else if kind == Some("person") then Some(Person)
    else None
  }

  /** `name || null`: an empty name counts as no name. */
  function NameOrNull(name: Option<string>): Option<string>
  {
    if Given(name) then name else None
  }

  /** The tenant a registration targets: the caller's own, unless the caller
      is the super admin and the body carries a truthy `tenant_id`. */
  function RegisterTenant(user: Claims, requested: Option<int>): (t: Option<int>)
    ensures user.role != SuperAdmin ==> t == user.tenantId
    ensures user.role == SuperAdmin && GivenNumber(requested) ==> t == requested
    ensures !GivenNumber(requested) ==> t == user.tenantId
  {
    if user.role == SuperAdmin && GivenNumber(requested) then requested else user.tenantId
  }

  /** The registration transaction: update the device with this uid, or
      insert a new one. Only the devices table is touched. A tenant that is
      NULL, or that names no tenant, fails the write and rolls it back. */
  function Upsert(s: Store, uid: string, name: Option<string>, kind: DeviceType, tenant: Option<int>): (out: Reply<nat>)
    requires Valid(s)
    ensures Valid(out.store)
    ensures out.store.(devices := s.devices) == s
    ensures tenant.None? ==> out == Reply(Err(Constraint(NullDeviceTenant)), s)
    ensures tenant.Some? && !TenantExists(s.tenants, tenant.value) ==>
              out == Reply(Err(Constraint(ForeignKeyFailed)), s)
    ensures out.result.Ok? <==> tenant.Some? && TenantExists(s.tenants, tenant.value)
    // an existing uid keeps its row and id; type and tenant are overwritten,
    // the name only by a non-empty one, presence fields are kept
    ensures forall i | 0 <= i < |s.devices| && s.devices[i].uid == uid
                       && tenant.Some? && TenantExists(s.tenants, tenant.value) ::
              && out.result == Ok(IdOf(i))
              && out.store.devices == s.devices[i := Device(
                   tenant.value, uid,
                   if Given(name) then name else s.devices[i].name,
                   kind, s.devices[i].lastSeen, s.devices[i].online)]
    // a new uid gets a fresh row at the end, never seen and offline
    ensures (forall i | 0 <= i < |s.devices| :: s.devices[i].uid != uid)
            && tenant.Some? && TenantExists(s.tenants, tenant.value) ==>
              && out.result == Ok(IdOf(|s.devices|))
              && out.store.devices == s.devices + [Device(tenant.value, uid, NameOrNull(name), kind, 0, false)]
  {
    if tenant.None? then Reply(Err(Constraint(NullDeviceTenant)), s)
    else if !TenantExists(s.tenants, tenant.value) then Reply(Err(Constraint(ForeignKeyFailed)), s)
    else
      match DeviceByUid(s.devices, uid)
      case Some(i) =>
        var prev := s.devices[i];
        var updated := prev.(name := if Given(name) then name else prev.name, kind := kind, tenantId := tenant.value);
        Reply(Ok(IdOf(i)), s.(devices := s.devices[i := updated]))
      case None =>
        var added := Device(tenant.value, uid, NameOrNull(name), kind, 0, false);
        Reply(Ok(IdOf(|s.devices|)), s.(devices := s.devices + [added]))
  }

  /** `POST /register`: gate, payload validation, tenant resolution, upsert. */
  function Register(s: Store, header: Option<string>, verifyToken: string -> Option<Claims>, req: RegisterRequest): (out: Reply<nat>)
    requires Valid(s)
    ensures Valid(out.store)
    ensures out.result.Err? ==> out.store == s
    ensures out.store.(devices := s.devices) == s
    ensures AdminOrScope(header, verifyToken, ConfigScope).Err? ==>
              out.result == Err(AdminOrScope(header, verifyToken, ConfigScope).error)
    ensures AdminOrScope(header, verifyToken, ConfigScope).Ok? ==>
              (out.result == Err(BadRequest(InvalidPayload)) <==>
                 !Given(req.uid) || (req.kind != Some("room") && req.kind != Some("person")))
    ensures out.result.Ok? ==>
              && AdminOrScope(header, verifyToken, ConfigScope).Ok?
              && Given(req.uid)
              && 1 <= out.result.value <= |out.store.devices|
              && var d := out.store.devices[out.result.value - 1];
                 var user := AdminOrScope(header, verifyToken, ConfigScope).value;
                 && d.uid == req.uid.value
                 && Some(d.kind) == ParseType(req.kind)
                 && Some(d.tenantId) == RegisterTenant(user, req.tenantId)
                 && |out.store.devices| <= |s.devices| + 1
    // past the gate, every refusal is a 400
    ensures AdminOrScope(header, verifyToken, ConfigScope).Ok? && out.result.Err? ==> out.result.error.Status() == 400
    // a valid payload from an admitted caller is exactly the upsert's outcome
    ensures AdminOrScope(header, verifyToken, ConfigScope).Ok? && Given(req.uid) && ParseType(req.kind).Some? ==>
              out == Upsert(s, req.uid.value, req.name, ParseType(req.kind).value,
                            RegisterTenant(AdminOrScope(header, verifyToken, ConfigScope).value, req.tenantId))
  {
    match AdminOrScope(header, verifyToken, ConfigScope)
    case Err(e) => Reply(Err(e), s)
    case Ok(user) =>
      if !Given(req.uid) || ParseType(req.kind).None? then Reply(Err(BadRequest(InvalidPayload)), s)
      else Upsert(s, req.uid.value, req.name, ParseType(req.kind).value, RegisterTenant(user, req.tenantId))
  }

  /** A caller other than the super admin always registers into its own
      token's tenant, whatever `tenant_id` the body names. */
  lemma RegisterPinsTenant(s: Store, header: Option<string>, verifyToken: string -> Option<Claims>, req: RegisterRequest)
    requires Valid(s)
    requires AdminOrScope(header, verifyToken, ConfigScope).Ok?
    requires AdminOrScope(header, verifyToken, ConfigScope).value.role != SuperAdmin
    requires Register(s, header, verifyToken, req).result.Ok?
    ensures var out := Register(s, header, verifyToken, req);
            Some(out.store.devices[out.result.value - 1].tenantId) == AdminOrScope(header, verifyToken, ConfigScope).value.tenantId
  {
  }

  /** Registering the same uid again returns the same id and adds no row. */
  lemma ReRegisterSameId(s: Store, header: Option<string>, verifyToken: string -> Option<Claims>, req: RegisterRequest, req2: RegisterRequest)
    requires Valid(s)
    requires Register(s, header, verifyToken, req).result.Ok?
    requires req2.uid == req.uid
    requires Register(Register(s, header, verifyToken, req).store, header, verifyToken, req2).result.Ok?
    ensures var first := Register(s, header, verifyToken, req);
            var second := Register(first.store, header, verifyToken, req2);
            && second.result == first.result
            && |second.store.devices| == |first.store.devices|
  {
    var first := Register(s, header, verifyToken, req);
    var i := first.result.value - 1;
    assert first.store.devices[i].uid == req.uid.value;
  }

  /** Re-registration moves a device into the caller's tenant: a sub admin
      or tenant user of any other existing tenant who knows a device's uid
      takes the device over (its row, id and tracking history stay). */
  lemma ReRegisterTakesOver(s: Store, header: Option<string>, verifyToken: string -> Option<Claims>,
                            req: RegisterRequest, i: nat, t: int)
    requires Valid(s)
    requires i < |s.devices|
    requires req.uid == Some(s.devices[i].uid) && Given(req.uid)
    requires ParseType(req.kind).Some?
    requires AdminOrScope(header, verifyToken, ConfigScope).Ok?
    requires AdminOrScope(header, verifyToken, ConfigScope).value.role != SuperAdmin
    requires AdminOrScope(header, verifyToken, ConfigScope).value.tenantId == Some(t)
    requires t != s.devices[i].tenantId && TenantExists(s.tenants, t)
    ensures var out := Register(s, header, verifyToken, req);
            && out.result == Ok(IdOf(i))
            && out.store.devices[i].tenantId == t
            && out.store.tracking == s.tracking
  {
  }

  // ---- Config lookup ---------------------------------------------------------

  datatype DeviceConfig = DeviceConfig(
    id: nat,
    tenantId: int,
    uid: string,
    name: Option<string>,
    kind: DeviceType,
    heartbeatIntervalSec: int,
    trackingIntervalSec: int)

  /** `GET /config?deviceId=...`: unauthenticated; read only. */
  function Config(s: Store, deviceId: Option<string>): (r: Result<DeviceConfig>)
    ensures !Given(deviceId) ==> r == Err(BadRequest(MissingDeviceId))
    ensures Given(deviceId) && (forall i | 0 <= i < |s.devices| :: s.devices[i].uid != deviceId.value) ==>
              r == Err(NotFound(NotRegistered))
    ensures r.Ok? ==>
              && Given(deviceId)
              && 1 <= r.value.id <= |s.devices|
              && var d := s.devices[r.value.id - 1];
                 r.value == DeviceConfig(r.value.id, d.tenantId, deviceId.value, d.name, d.kind, 60, 300)
    ensures Valid(s) && Given(deviceId) ==>
              forall i | 0 <= i < |s.devices| && s.devices[i].uid == deviceId.value :: r.Ok? && r.value.id == IdOf(i)
  {
    if !Given(deviceId) then Err(BadRequest(MissingDeviceId))
    else
      match DeviceByUid(s.devices, deviceId.value)
      case None => Err(NotFound(NotRegistered))
      case Some(i) =>
        var d := s.devices[i];
        Ok(DeviceConfig(IdOf(i), d.tenantId, d.uid, d.name, d.kind, HeartbeatIntervalSec, TrackingIntervalSec))
  }

  /** After a successful registration the firmware's config lookup by the
      same uid finds the registered row, with its resolved tenant and type. */
  lemma RegisterThenConfig(s: Store, header: Option<string>, verifyToken: string -> Option<Claims>, req: RegisterRequest)
    requires Valid(s)
    requires Register(s, header, verifyToken, req).result.Ok?
    ensures var out := Register(s, header, verifyToken, req);
            var cfg := Config(out.store, req.uid);
            && cfg.Ok?
            && cfg.value.id == out.result.value
            && Some(cfg.value.kind) == ParseType(req.kind)
            && Some(cfg.value.tenantId) == RegisterTenant(AdminOrScope(header, verifyToken, ConfigScope).value, req.tenantId)
  {
    var out := Register(s, header, verifyToken, req);
    assert out.store.devices[out.result.value - 1].uid == req.uid.value;
  }

  // ---- Heartbeat -------------------------------------------------------------

  /** The device rows after `UPDATE devices SET last_seen = now, online = 1
      WHERE device_uid = uid`. */
  function Touch(devices: seq<Device>, uid: string, now: int): (r: seq<Device>)
  {
    seq(|devices|, i requires 0 <= i < |devices| =>
      if devices[i].uid == uid then devices[i].(lastSeen := now, online := true) else devices[i])
  }

  /** `POST /heartbeat`: unauthenticated. Marks the device with this uid as
      seen now; an unknown uid is 404 and is never created. */
  function Heartbeat(s: Store, uid: Option<string>, now: int): (out: Reply<int>)
    ensures Valid(s) ==> Valid(out.store)
    ensures out.store.(devices := s.devices) == s
    ensures !Given(uid) ==> out == Reply(Err(BadRequest(MissingDeviceUid)), s)
    ensures Given(uid) && (forall i | 0 <= i < |s.devices| :: s.devices[i].uid != uid.value) ==>
              out == Reply(Err(NotFound(DeviceNotFound)), s)
    ensures Given(uid) && (exists i | 0 <= i < |s.devices| :: s.devices[i].uid == uid.value) ==>
              out.result == Ok(now)
    ensures out.result.Ok? ==>
              && out.result.value == now
              && Given(uid)
              && (exists i | 0 <= i < |s.devices| :: s.devices[i].uid == uid.value)
    ensures out.result.Ok? ==>
              && |out.store.devices| == |s.devices|
              && forall i | 0 <= i < |s.devices| ::
                   if s.devices[i].uid == uid.value
                   then out.store.devices[i] == s.devices[i].(lastSeen := now, online := true)
                   else out.store.devices[i] == s.devices[i]
  {
    if !Given(uid) then Reply(Err(BadRequest(MissingDeviceUid)), s)
    else if DeviceByUid(s.devices, uid.value).None? then Reply(Err(NotFound(DeviceNotFound)), s)
    else Reply(Ok(now), s.(devices := Touch(s.devices, uid.value, now)))
  }

  // ---- Listing ---------------------------------------------------------------

  /** One entry of `GET /`: the stored columns, with `online` recomputed. */
  datatype DeviceView = DeviceView(id: nat, uid: string, name: Option<string>, kind: DeviceType, lastSeen: int, online: bool)

  function IdsOf(views: seq<DeviceView>): set<nat>
  {
    set k | 0 <= k < |views| :: views[k].id
  }

  /** The entry for the device at index i. */
  function ViewOf(i: nat, d: Device, now: int, offlineAfter: int): DeviceView
  {
    DeviceView(IdOf(i), d.uid, d.name, d.kind, d.lastSeen, IsOnline(d.lastSeen, now, offlineAfter))
  }

  /** `v` is the entry of a device of `tenant`. */
  predicate ViewOfTenant(v: DeviceView, devices: seq<Device>, tenant: Option<int>, now: int, offlineAfter: int)
  {
    && 1 <= v.id <= |devices|
    && tenant == Some(devices[v.id - 1].tenantId)
    && v == ViewOf(v.id - 1, devices[v.id - 1], now, offlineAfter)
  }

  /** `views` lists exactly the devices of `tenant` (none when the tenant is
      NULL), in id order, each with its stored columns and its presence. */
  predicate ListsTenant(views: seq<DeviceView>, devices: seq<Device>, tenant: Option<int>, now: int, offlineAfter: int)
  {
    && (forall k | 0 <= k < |views| :: ViewOfTenant(views[k], devices, tenant, now, offlineAfter))
    && (forall k, l | 0 <= k < l < |views| :: views[k].id < views[l].id)
    && (forall i | 0 <= i < |devices| && tenant == Some(devices[i].tenantId) :: IdOf(i) in IdsOf(views))
  }

  /** `SELECT ... FROM devices WHERE tenant_id = ?` in rowid order, mapped
      through the presence rule. */
  method TenantDevices(devices: seq<Device>, tenant: Option<int>, now: int, offlineAfter: int) returns (views: seq<DeviceView>)
    ensures ListsTenant(views, devices, tenant, now, offlineAfter)
  {
    views := [];
    var n := 0;
    while n < |devices|
      invariant 0 <= n <= |devices|
      invariant forall k | 0 <= k < |views| :: ViewOfTenant(views[k], devices, tenant, now, offlineAfter)
      invariant forall k | 0 <= k < |views| :: views[k].id <= n
      invariant forall k, l | 0 <= k < l < |views| :: views[k].id < views[l].id
      invariant forall i | 0 <= i < n && tenant == Some(devices[i].tenantId) :: IdOf(i) in IdsOf(views)
    {
      var d := devices[n];
      if tenant == Some(d.tenantId) {
        var v := ViewOf(n, d, now, offlineAfter);
        assert ViewOfTenant(v, devices, tenant, now, offlineAfter);
        assert IdsOf(views + [v]) == IdsOf(views) + {v.id} by {
          assert forall k | 0 <= k < |views| :: (views + [v])[k] == views[k];
          assert (views + [v])[|views|] == v;
        }
        views := views + [v];
      }
      n := n + 1;
    }
  }

  /** `GET /`: the gate, tenant resolution, then the tenant's devices. */
  method ListDevices(s: Store, header: Option<string>, verifyToken: string -> Option<Claims>,
                     requestedTenant: Option<int>, now: int, offlineAfter: int)
    returns (r: Result<seq<DeviceView>>)
    ensures AdminOrScope(header, verifyToken, ConfigScope).Err? ==>
              r == Err(AdminOrScope(header, verifyToken, ConfigScope).error)
    ensures AdminOrScope(header, verifyToken, ConfigScope).Ok? ==>
              && r.Ok?
              && ListsTenant(r.value, s.devices,
                   QueryTenant(AdminOrScope(header, verifyToken, ConfigScope).value, requestedTenant), now, offlineAfter)
  {
    match AdminOrScope(header, verifyToken, ConfigScope)
    case Err(e) =>
      r := Err(e);
    case Ok(user) =>
      var views := TenantDevices(s.devices, QueryTenant(user, requestedTenant), now, offlineAfter);
      r := Ok(views);
  }

  /** A device that has just sent a heartbeat is listed as online at that
      moment, for any non-negative threshold and a non-zero clock. */
  lemma HeartbeatShowsOnline(s: Store, uid: string, now: int, offlineAfter: int, i: nat, views: seq<DeviceView>)
    requires i < |s.devices| && s.devices[i].uid == uid && uid != ""
    requires now != 0 && offlineAfter >= 0
    requires ListsTenant(views, Heartbeat(s, Some(uid), now).store.devices, Some(s.devices[i].tenantId), now, offlineAfter)
    ensures exists k | 0 <= k < |views| :: views[k].id == IdOf(i) && views[k].online
  {
    HeartbeatTouches(s, uid, now, i);
    TouchShowsOnline(s.devices, uid, now, offlineAfter, i, views);
  }

  /** A heartbeat for a known uid leaves exactly the touched device rows. */
  lemma HeartbeatTouches(s: Store, uid: string, now: int, i: nat)
    requires i < |s.devices| && s.devices[i].uid == uid && uid != ""
    ensures Heartbeat(s, Some(uid), now).store.devices == Touch(s.devices, uid, now)
  {
    assert DeviceByUid(s.devices, uid).Some?;
  }

  lemma TouchShowsOnline(devices: seq<Device>, uid: string, now: int, offlineAfter: int, i: nat, views: seq<DeviceView>)
    requires i < |devices| && devices[i].uid == uid
    requires now != 0 && offlineAfter >= 0
    requires ListsTenant(views, Touch(devices, uid, now), Some(devices[i].tenantId), now, offlineAfter)
    ensures exists k | 0 <= k < |views| :: views[k].id == IdOf(i) && views[k].online
  {
    var touched := Touch(devices, uid, now);
    assert touched[i].lastSeen == now && touched[i].tenantId == devices[i].tenantId;
    assert IdOf(i) in IdsOf(views);
    var k :| 0 <= k < |views| && views[k].id == IdOf(i);
    assert ViewOfTenant(views[k], touched, Some(devices[i].tenantId), now, offlineAfter);
  }
}
