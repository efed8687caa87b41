/**
 * The proximity tracking routes (backend/src/routes/tracking.js): ingestion
 * of one person-to-room observation, and the windowed "latest observation
 * per person" list.
 *
 * The clock `now` (seconds), `TRACKING_STALE_SEC` and `OFFLINE_AFTER_SEC`
 * are parameters.
 */
module Tracking {
  import opened Common
  import opened Schema
  import opened Middleware
  import opened Presence

  const TrackingScope: string := "tracking"
  const MissingDeviceUids: string := "Missing device uids"
  const WrongDevice: string := "Device not found or wrong type"
  const CrossTenant: string := "Cross-tenant not allowed"

  // ---- Ingestion -------------------------------------------------------------

  /** The body of `POST /update`; `ts` is in milliseconds. */
  datatype UpdateRequest = UpdateRequest(
    personUid: Option<string>,
    roomUid: Option<string>,
    rssi: Option<int>,
    ts: Option<int>)

  /** The observation time in seconds: `ts ? Math.floor(ts / 1000) : now`.
      For the positive divisor 1000, Dafny's `/` rounds down like `Math.floor`. */
  function ObservedAt(ts: Option<int>, now: int): (t: int)
    ensures GivenNumber(ts) ==> t * 1000 <= ts.value < t * 1000 + 1000
    ensures !GivenNumber(ts) ==> t == now
  {
    if GivenNumber(ts) then ts.value / 1000 else now
  }

  /** `rssi || 0`. */
  function RssiOrZero(rssi: Option<int>): int
  {
    if rssi.Some? then rssi.value else 0
  }

  /** `SELECT id, tenant_id FROM devices WHERE device_uid = ? AND type = ?`. */
  function DeviceOfType(devices: seq<Device>, uid: string, kind: DeviceType): Option<nat>
  {
    FindFirst(devices, (d: Device) => d.uid == uid && d.kind == kind)
  }

  /** `POST /update`: unauthenticated. Validates the two uids, then appends
      one observation and refreshes the person's presence in one transaction. */
  function Update(s: Store, req: UpdateRequest, now: int): (out: Reply<()>)
    requires Valid(s)
    ensures Valid(out.store)
    ensures out.result.Err? ==> out.store == s
    ensures out.store.(devices := s.devices, tracking := s.tracking) == s
    ensures !Given(req.personUid) || !Given(req.roomUid) ==>
              out.result == Err(BadRequest(MissingDeviceUids))
    ensures Given(req.personUid) && Given(req.roomUid) ==>
              ((forall p | 0 <= p < |s.devices| :: !(s.devices[p].uid == req.personUid.value && s.devices[p].kind == Person))
               || (forall q | 0 <= q < |s.devices| :: !(s.devices[q].uid == req.roomUid.value && s.devices[q].kind == Room)))
              ==> out.result == Err(NotFound(WrongDevice))
    // with both devices found, the tenants decide; on success exactly one row
    // is appended and only the person device's presence changes
    ensures Given(req.personUid) && Given(req.roomUid) ==>
              forall p, q | 0 <= p < |s.devices| && 0 <= q < |s.devices|
                            && s.devices[p].uid == req.personUid.value && s.devices[p].kind == Person
                            && s.devices[q].uid == req.roomUid.value && s.devices[q].kind == Room ::
                if s.devices[p].tenantId != s.devices[q].tenantId then
                  out.result == Err(BadRequest(CrossTenant))
                else
                  var t := ObservedAt(req.ts, now);
                  && out.result == Ok(())
                  && out.store.tracking == s.tracking + [TrackingRow(s.devices[p].tenantId, IdOf(p), Some(IdOf(q)), RssiOrZero(req.rssi), t)]
                  && out.store.devices == s.devices[p := s.devices[p].(lastSeen := t, online := true)]
    ensures out.result.Ok? ==> |out.store.tracking| == |s.tracking| + 1
    ensures out.result.Err? ==> out.result.error.Status() in {400, 404}
  {
    if !Given(req.personUid) || !Given(req.roomUid) then Reply(Err(BadRequest(MissingDeviceUids)), s)
    else
      var person := DeviceOfType(s.devices, req.personUid.value, Person);
      var room := DeviceOfType(s.devices, req.roomUid.value, Room);
      if person.None? || room.None? then Reply(Err(NotFound(WrongDevice)), s)
      else
        var p := person.value;
        var q := room.value;
        if s.devices[p].tenantId != s.devices[q].tenantId then Reply(Err(BadRequest(CrossTenant)), s)
        else
          var t := ObservedAt(req.ts, now);
          var row := TrackingRow(s.devices[p].tenantId, IdOf(p), Some(IdOf(q)), RssiOrZero(req.rssi), t);
          Reply(Ok(()), s.(tracking := s.tracking + [row],
                           devices := s.devices[p := s.devices[p].(lastSeen := t, online := true)]))
  }

  // ---- The latest observation per person ------------------------------------

  /** `WHERE t.tenant_id = ? AND t.ts >= ?`, with the inner join on the person
      device (a NULL tenant matches nothing). */
  predicate InWindow(row: TrackingRow, deviceCount: nat, tenant: Option<int>, cutoff: int)
  {
    tenant == Some(row.tenantId) && row.ts >= cutoff && 1 <= row.personId <= deviceCount
  }

  function Window(rows: seq<TrackingRow>, deviceCount: nat, tenant: Option<int>, cutoff: int): (w: seq<TrackingRow>)
    ensures forall x :: x in w <==> x in rows && InWindow(x, deviceCount, tenant, cutoff)
    decreases |rows|
  {
    if |rows| == 0 then []
    else
      assert forall x :: x in rows <==> x == rows[0] || x in rows[1..];
      (if InWindow(rows[0], deviceCount, tenant, cutoff) then [rows[0]] else [])
        + Window(rows[1..], deviceCount, tenant, cutoff)
  }

  predicate SortedByTsDesc(rows: seq<TrackingRow>)
  {
    forall i, j | 0 <= i < j < |rows| :: rows[i].ts >= rows[j].ts
  }

  /** Inserts a row into a list ordered by `ts` descending, before the rows
      with an equal `ts`. */
  function InsertByTs(x: TrackingRow, rows: seq<TrackingRow>): (r: seq<TrackingRow>)
    requires SortedByTsDesc(rows)
    ensures SortedByTsDesc(r)
    ensures multiset(r) == multiset(rows) + multiset{x}
    decreases |rows|
  {
    if |rows| == 0 then [x]
    else if x.ts >= rows[0].ts then [x] + rows
    else
      var rest := InsertByTs(x, rows[1..]);
      assert rows == [rows[0]] + rows[1..];
      assert forall k | 0 <= k < |rest| :: rest[k].ts <= rows[0].ts by {
        forall k | 0 <= k < |rest|
          ensures rest[k].ts <= rows[0].ts
        {
          assert rest[k] in multiset(rest);
          assert rest[k] == x || rest[k] in multiset(rows[1..]);
        }
      }
      [rows[0]] + rest
  }

  /** `ORDER BY t.ts DESC`. Rows with equal `ts` keep their log order, so of
      two observations with the same time the earlier-logged one comes
      first; the SQL leaves that order open. */
  function SortByTsDesc(rows: seq<TrackingRow>): (r: seq<TrackingRow>)
    ensures SortedByTsDesc(r)
    ensures multiset(r) == multiset(rows)
    decreases |rows|
  {
    if |rows| == 0 then []
    else
      assert rows == [rows[0]] + rows[1..];
      InsertByTs(rows[0], SortByTsDesc(rows[1..]))
  }

  /** The person ids occurring in a list of rows. */
  function Persons(rows: seq<TrackingRow>): set<nat>
  {
    set k | 0 <= k < |rows| :: rows[k].personId
  }

  /** Persons of a non-empty list: the head's and the tail's. */
  lemma PersonsCons(rows: seq<TrackingRow>)
    requires |rows| > 0
    ensures Persons(rows) == {rows[0].personId} + Persons(rows[1..])
  {
    var tail := rows[1..];
    forall pid | pid in Persons(rows)
      ensures pid in {rows[0].personId} + Persons(tail)
    {
      var m :| 0 <= m < |rows| && rows[m].personId == pid;
      if m > 0 { assert tail[m - 1].personId == pid; }
    }
    forall pid | pid in Persons(tail)
      ensures pid in Persons(rows)
    {
      var m :| 0 <= m < |tail| && tail[m].personId == pid;
      assert rows[m + 1].personId == pid;
    }
  }

  /** The deduplication loop: keep the first row of each person not yet seen. */
  function FirstPerPerson(rows: seq<TrackingRow>, seen: set<nat>): (r: seq<TrackingRow>)
    ensures forall k | 0 <= k < |r| :: r[k] in rows && r[k].personId !in seen
    ensures forall k, l | 0 <= k < l < |r| :: r[k].personId != r[l].personId
    decreases |rows|
  {
    if |rows| == 0 then []
    else if rows[0].personId in seen then
      FirstPerPerson(rows[1..], seen)
    else
      var rest := FirstPerPerson(rows[1..], seen + {rows[0].personId});
      assert forall k | 1 <= k < |[rows[0]] + rest| :: ([rows[0]] + rest)[k] == rest[k - 1];
      [rows[0]] + rest
  }

  /** Every person with a row, and not yet seen, gets an entry. */
  lemma {:induction false} FirstPerPersonCovers(rows: seq<TrackingRow>, seen: set<nat>)
    ensures Persons(FirstPerPerson(rows, seen)) == Persons(rows) - seen
    decreases |rows|
  {
    if |rows| > 0 {
      PersonsCons(rows);
      var head := rows[0];
      if head.personId in seen {
        FirstPerPersonCovers(rows[1..], seen);
      } else {
        FirstPerPersonCovers(rows[1..], seen + {head.personId});
        var rest := FirstPerPerson(rows[1..], seen + {head.personId});
        assert FirstPerPerson(rows, seen) == [head] + rest;
        PersonsCons([head] + rest);
        assert ([head] + rest)[1..] == rest;
      }
    }
  }

  /** No row of `rows` is later than the entry of its person. */
  predicate EntriesAreLatest(entries: seq<TrackingRow>, rows: seq<TrackingRow>)
  {
    forall k, m | 0 <= k < |entries| && 0 <= m < |rows| && rows[m].personId == entries[k].personId ::
      rows[m].ts <= entries[k].ts
  }

  /** Deduplicating a list ordered by `ts` descending keeps it ordered, and
      the entry of each person has that person's greatest `ts`. */
  lemma {:induction false} FirstPerPersonIsLatest(rows: seq<TrackingRow>, seen: set<nat>)
    requires SortedByTsDesc(rows)
    ensures SortedByTsDesc(FirstPerPerson(rows, seen))
    ensures EntriesAreLatest(FirstPerPerson(rows, seen), rows)
    decreases |rows|
  {
    if |rows| > 0 {
      var head := rows[0];
      var tail := rows[1..];
      assert SortedByTsDesc(tail);
      assert forall m | 1 <= m < |rows| :: rows[m] == tail[m - 1];
      if head.personId in seen {
        FirstPerPersonIsLatest(tail, seen);
        var r := FirstPerPerson(tail, seen);
        assert FirstPerPerson(rows, seen) == r;
        forall k, m | 0 <= k < |r| && 0 <= m < |rows| && rows[m].personId == r[k].personId
          ensures rows[m].ts <= r[k].ts
        {
          assert r[k].personId !in seen;
          assert m != 0;
          assert rows[m] == tail[m - 1];
          assert tail[m - 1].personId == r[k].personId;
        }
      } else {
        FirstPerPersonIsLatest(tail, seen + {head.personId});
        var rest := FirstPerPerson(tail, seen + {head.personId});
        var r := [head] + rest;
        assert FirstPerPerson(rows, seen) == r;
        assert forall k | 1 <= k < |r| :: r[k] == rest[k - 1];
        forall k | 0 <= k < |rest|
          ensures rest[k].ts <= head.ts
        {
          assert rest[k] in tail;
        }
      }
    }
  }

  /** `latest` holds, for every person with a row in `rows`, exactly one of
      that person's rows with the greatest `ts`, ordered by `ts` descending. */
  predicate LatestPerPerson(latest: seq<TrackingRow>, rows: seq<TrackingRow>)
  {
    && (forall k | 0 <= k < |latest| :: latest[k] in rows)
    && (forall k, l | 0 <= k < l < |latest| :: latest[k].personId != latest[l].personId)
    && EntriesAreLatest(latest, rows)
    && Persons(latest) == Persons(rows)
    && SortedByTsDesc(latest)
  }

  /** Sort by `ts` descending, then keep the first row per person. */
  function Latest(rows: seq<TrackingRow>): (latest: seq<TrackingRow>)
    ensures LatestPerPerson(latest, rows)
  {
    var sorted := SortByTsDesc(rows);
    var r := FirstPerPerson(sorted, {});
    FirstPerPersonCovers(sorted, {});
    FirstPerPersonIsLatest(sorted, {});
    assert forall x :: x in sorted <==> x in rows by {
      forall x
        ensures x in sorted <==> x in rows
      {
        assert x in sorted <==> x in multiset(sorted);
        assert x in rows <==> x in multiset(rows);
      }
    }
    assert Persons(sorted) == Persons(rows) by {
      forall pid | pid in Persons(rows)
        ensures pid in Persons(sorted)
      {
        var m :| 0 <= m < |rows| && rows[m].personId == pid;
        assert rows[m] in sorted;
        var k :| 0 <= k < |sorted| && sorted[k] == rows[m];
      }
      forall pid | pid in Persons(sorted)
        ensures pid in Persons(rows)
      {
        var m :| 0 <= m < |sorted| && sorted[m].personId == pid;
        assert sorted[m] in rows;
        var k :| 0 <= k < |rows| && rows[k] == sorted[m];
      }
    }
    forall k, m | 0 <= k < |r| && 0 <= m < |rows| && rows[m].personId == r[k].personId
      ensures rows[m].ts <= r[k].ts
    {
      assert rows[m] in sorted;
      var j :| 0 <= j < |sorted| && sorted[j] == rows[m];
    }
    r
  }

  /** `{ id, name, device_uid }` of a device. */
  datatype DeviceRef = DeviceRef(id: nat, name: Option<string>, uid: string)

  /** One entry of `GET /list`. */
  datatype Item = Item(person: DeviceRef, room: Option<DeviceRef>, rssi: int, ts: int, online: bool)

  function RefOf(devices: seq<Device>, id: nat): DeviceRef
    requires 1 <= id <= |devices|
  {
    DeviceRef(id, devices[id - 1].name, devices[id - 1].uid)
  }

  /** The list entry of one observation: the joined person and room, with the
      person device's own presence, not the observation's age. A room
      reference that is NULL (or joins no device) gives `room: null`. */
  function ToItem(devices: seq<Device>, row: TrackingRow, now: int, offlineAfter: int): (it: Item)
    requires 1 <= row.personId <= |devices|
    ensures it.person.id == row.personId && it.rssi == row.rssi && it.ts == row.ts
    ensures it.person.uid == devices[row.personId - 1].uid && it.person.name == devices[row.personId - 1].name
    // the left join: a room only when the row names an existing device
    ensures it.room.Some? <==> row.roomId.Some? && 1 <= row.roomId.value <= |devices|
    ensures it.room.Some? ==>
              && it.room.value.id == row.roomId.value
              && it.room.value.uid == devices[row.roomId.value - 1].uid
              && it.room.value.name == devices[row.roomId.value - 1].name
    // presence is the person device's, not the observation's age
    ensures it.online <==> IsOnline(devices[row.personId - 1].lastSeen, now, offlineAfter)
  {
    Item(RefOf(devices, row.personId),
         if row.roomId.Some? && 1 <= row.roomId.value <= |devices| then Some(RefOf(devices, row.roomId.value)) else None,
         row.rssi,
         row.ts,
         IsOnline(devices[row.personId - 1].lastSeen, now, offlineAfter))
  }

  /** The window of `GET /list` for a resolved tenant. */
  function ListWindow(s: Store, tenant: Option<int>, now: int, staleSec: int): seq<TrackingRow>
  {
    Window(s.tracking, |s.devices|, tenant, now - staleSec)
  }

  /** `GET /list`: the gate, tenant resolution, the window, the latest row per
      person and each person's presence. */
  function List(s: Store, header: Option<string>, verifyToken: string -> Option<Claims>,
                requestedTenant: Option<int>, now: int, staleSec: int, offlineAfter: int): (r: Result<seq<Item>>)
    ensures AdminOrScope(header, verifyToken, TrackingScope).Err? ==>
              r == Err(AdminOrScope(header, verifyToken, TrackingScope).error)
    ensures AdminOrScope(header, verifyToken, TrackingScope).Ok? ==>
              && r.Ok?
              && var w := ListWindow(s, QueryTenant(AdminOrScope(header, verifyToken, TrackingScope).value, requestedTenant), now, staleSec);
                 exists latest: seq<TrackingRow> ::
                   && LatestPerPerson(latest, w)
                   && |latest| == |r.value|
                   && forall k | 0 <= k < |latest| ::
                        1 <= latest[k].personId <= |s.devices| && r.value[k] == ToItem(s.devices, latest[k], now, offlineAfter)
  {
    match AdminOrScope(header, verifyToken, TrackingScope)
    case Err(e) => Err(e)
    case Ok(user) =>
      var w := ListWindow(s, QueryTenant(user, requestedTenant), now, staleSec);
      var latest := Latest(w);
      assert forall k | 0 <= k < |latest| :: 1 <= latest[k].personId <= |s.devices| by {
        forall k | 0 <= k < |latest|
          ensures 1 <= latest[k].personId <= |s.devices|
        {
          assert latest[k] in w;
        }
      }
      var items := seq(|latest|, k requires 0 <= k < |latest| => ToItem(s.devices, latest[k], now, offlineAfter));
      assert LatestPerPerson(latest, w);
      Ok(items)
  }

  // ---- Properties across calls ---------------------------------------------

  /** After a successful report, the person's tenant lists that person with
      an observation at least as recent as the report (while the report is
      inside the window), and the entry's presence is computed from the
      report's time, which is now the person's `last_seen`. */
  lemma UpdateThenListed(s: Store, req: UpdateRequest, now: int, p: nat, q: nat,
                         cutoff: int, latest: seq<TrackingRow>, listNow: int, offlineAfter: int)
    requires Valid(s)
    requires Given(req.personUid) && Given(req.roomUid)
    requires p < |s.devices| && s.devices[p].uid == req.personUid.value && s.devices[p].kind == Person
    requires q < |s.devices| && s.devices[q].uid == req.roomUid.value && s.devices[q].kind == Room
    requires s.devices[p].tenantId == s.devices[q].tenantId
    requires cutoff <= ObservedAt(req.ts, now)
    requires var after := Update(s, req, now).store;
             LatestPerPerson(latest, Window(after.tracking, |after.devices|, Some(s.devices[p].tenantId), cutoff))
    ensures var after := Update(s, req, now).store;
            exists k | 0 <= k < |latest| ::
              && latest[k].personId == IdOf(p)
              && latest[k].ts >= ObservedAt(req.ts, now)
              && ToItem(after.devices, latest[k], listNow, offlineAfter).online
                   == IsOnline(ObservedAt(req.ts, now), listNow, offlineAfter)
  {
    var after := Update(s, req, now).store;
    var t := ObservedAt(req.ts, now);
    var row := TrackingRow(s.devices[p].tenantId, IdOf(p), Some(IdOf(q)), RssiOrZero(req.rssi), t);
    assert after.tracking == s.tracking + [row];
    var w := Window(after.tracking, |after.devices|, Some(s.devices[p].tenantId), cutoff);
    assert after.tracking[|s.tracking|] == row;
    assert row in w;
    var m :| 0 <= m < |w| && w[m] == row;
    assert IdOf(p) in Persons(w);
    var k :| 0 <= k < |latest| && latest[k].personId == IdOf(p);
    assert w[m].personId == latest[k].personId;
    assert latest[k] in w;
  }

  /** An observation with a later observation of the same person in the
      window is never listed. */
  lemma SupersededNotListed(latest: seq<TrackingRow>, rows: seq<TrackingRow>, older: TrackingRow, newer: TrackingRow)
    requires LatestPerPerson(latest, rows)
    requires older in rows && newer in rows
    requires older.personId == newer.personId && older.ts < newer.ts
    ensures older !in latest
  {
  }

  /** A report whose person and room belong to different tenants writes
      nothing: neither a log row nor a presence update. */
  lemma CrossTenantWritesNothing(s: Store, req: UpdateRequest, now: int, p: nat, q: nat)
    requires Valid(s)
    requires Given(req.personUid) && Given(req.roomUid)
    requires p < |s.devices| && s.devices[p].uid == req.personUid.value && s.devices[p].kind == Person
    requires q < |s.devices| && s.devices[q].uid == req.roomUid.value && s.devices[q].kind == Room
    requires s.devices[p].tenantId != s.devices[q].tenantId
    ensures Update(s, req, now) == Reply(Err(BadRequest(CrossTenant)), s)
  {
  }
}
