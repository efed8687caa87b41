# Person tracking backend — a Dafny model of its core

The backend of the person tracking system keeps five SQLite tables:
- tenants;
- platform users (the super admin and sub admins);
- ESP32 devices (rooms and persons);
- an append-only log of person-to-room proximity observations;
- tenant users, whose capabilities come from a comma-separated `scopes` string.

This project models that core as pure Dafny functions over an immutable `Store`:
- the schema and its UNIQUE, CHECK and FOREIGN KEY constraints (`Schema.Valid`);
- the JWT and role/scope middleware;
- device registration (an upsert keyed by the globally unique `device_uid`), the firmware config lookup, the heartbeat and the device list;
- tracking ingestion and the "latest observation per person" list;
- login over both account tables;
- sub-admin and tenant-user provisioning;
- the seed script that guarantees a super admin.

Each handler returns the HTTP answer (an `Ok` value or an `Error` with its status and message) together with the store after the call. A transaction that fails leaves the store exactly as it was.

Modules, one file each:
- `Common` (`common.dfy`): `Option`, `Result`, the error answers and JavaScript truthiness of request fields.
- `Strings` (`strings.dfy`): `split(',')`, `join(',')` and `trim()` with the ECMAScript white-space set.
- `Schema` (`schema.dfy`): rows, tables, constraints, first-match lookups.
- `Presence` (`presence.dfy`): the online/offline rule.
- `Middleware` (`middleware.dfy`): `authRequired`, `requireRole`, `requireScope` and the admin-or-scope gate of the device and tracking routes.
- `Devices` (`devices.dfy`), `Tracking` (`tracking.dfy`), `Accounts` (`accounts.dfy`), `Seed` (`seed.dfy`): the routes and the seed script.

Modelling choices:
- A table is a sequence in rowid order, and row `i` has id `i + 1`. AUTOINCREMENT ids are dense because nothing is ever deleted, and a rolled-back insert also rolls back the counter.
- The following are parameters:
  - the clock (`now`, in seconds);
  - the settings `OFFLINE_AFTER_SEC` and `TRACKING_STALE_SEC` (both 360 seconds when unset) and `ADMIN_EMAIL`;
  - JWT verification (`verifyToken`), which yields the claims of a well-signed, unexpired token;
  - `bcrypt.compareSync` (`verifyPassword`);
  - the digest `bcrypt.hashSync` produces (`digest`).
- A string field counts as given when it is present and non-empty. A number field counts as given when it is present and non-zero. This follows the `!x` and `x || y` tests of the source.
- The better-sqlite3 driver builds SQLite with foreign keys enforced, so the `FOREIGN KEY` clauses of the schema hold. `Schema.Valid` includes every row's tenant reference and the tracking log's device references. A registration or tenant-user creation that names a missing tenant fails with `FOREIGN KEY constraint failed` (400) and changes nothing.

## Model

| member | source | states |
|---|---|---|
| Schema.TenantByNameOrCreate | backend/src/routes/auth.js:54-58 | Returns the id of the tenant with this name. Existing name: the table is unchanged. New name: exactly one tenant is appended. Names stay unique either way. |
| Schema.FindFirst | backend/src/routes/devices.js:21 | A lookup answers the first matching row, or none exactly when no row matches. |
| Strings.Split | backend/src/middleware/auth.js:30 | `split` yields at least one piece, and no piece contains the separator. |
| Strings.JoinSplit | backend/src/middleware/auth.js:30 | Joining the pieces of a split with the same separator restores the string. |
| Strings.Join | backend/src/routes/auth.js:79 | `join(',')` gives the empty string exactly for no pieces or a single empty piece. |
| Strings.SplitJoin | backend/src/routes/auth.js:79 | Splitting a join of separator-free pieces restores the pieces. |
| Strings.TrimIsSlice | backend/src/middleware/auth.js:30 | `trim` keeps one contiguous slice, drops only white space around it, and leaves no white space at either end. |
| Strings.TrimIdempotent | backend/src/middleware/auth.js:30 | Trimming twice is trimming once. |
| Presence.IsOnline | backend/src/routes/devices.js:70 | A device is online exactly when it has been seen (`last_seen` not 0) no more than the threshold before now. The tracking list applies the same rule at tracking.js:62. |
| Presence.ThresholdBoundary | backend/src/routes/devices.js:70 | A device seen exactly the threshold ago is online. One second more is offline. A device never seen (`last_seen` 0) is offline at any time. |
| Common.Error.Status | backend/src/middleware/auth.js:8-31 | 401 exactly for a missing or rejected credential (including bad login credentials). 403 exactly for a wrong role or a missing scope. 404 only for an unknown device. 400 for validation and database failures. |
| Middleware.BearerToken | backend/src/middleware/auth.js:6-7 | A token exists exactly when the header starts with `Bearer `, and the header is that prefix followed by the token. |
| Middleware.AuthRequired | backend/src/middleware/auth.js:5-16 | 401 `Unauthorized` exactly when there is no non-empty bearer token. 401 `Invalid token` exactly when verification fails. Every refusal is a 401 with one of those two texts. Otherwise the answer is the verified claims of the header's token. |
| Middleware.RequireRole | backend/src/middleware/auth.js:18-24 | No user gives 401. A user passes exactly when their role is listed, and otherwise gets 403 `Forbidden`. |
| Middleware.RequireScope | backend/src/middleware/auth.js:26-35 | No user gives 401. Platform roles always pass. A tenant user passes exactly when a trimmed comma-separated entry equals the scope, and otherwise gets 403 `Forbidden: missing scope`. |
| Middleware.AdminOrScope | backend/src/routes/devices.js:8-11 | Authentication errors pass through. A tenant user is admitted exactly when they hold the scope. Any other principal is admitted exactly when they are a sub admin or the super admin. |
| Middleware.Authenticated | backend/src/routes/auth.js:49 | `authRequired` then `requireRole`: authentication errors pass through, and a verified caller whose role is not listed gets 403. |
| Middleware.QueryTenant | backend/src/routes/devices.js:65 | A caller other than the super admin always reads its own tenant. The super admin reads the queried tenant when the query names one, and its own otherwise. The tracking list does the same at tracking.js:36. |
| Middleware.EmptyScopesGrantNothing | backend/src/middleware/auth.js:30-31 | A missing or empty scopes string grants no non-empty scope. |
| Middleware.JoinedScopesGrant | backend/src/middleware/auth.js:30-31 | A scopes string joined from clean names grants a scope exactly when it is one of the names. |
| Middleware.PaddedScopeGrants | backend/src/middleware/auth.js:30-31 | An entry that is the scope padded with white space on either side grants it. |
| Devices.RegisterTenant | backend/src/routes/devices.js:17-18 | A caller other than the super admin targets its own tenant. The super admin targets the body's `tenant_id` when it is a non-zero number, and its own tenant otherwise. |
| Devices.Upsert | backend/src/routes/devices.js:20-38 | Succeeds exactly when the tenant is not NULL and names an existing tenant. Known uid: the same row and id; type and tenant overwritten; the name overwritten only by a non-empty one; presence kept. New uid: one new row at the end, never seen and offline. NULL tenant: the NOT NULL error. Missing tenant: the FOREIGN KEY error. Either failure changes nothing. Only the devices table changes, and the constraints keep holding. |
| Devices.Register | backend/src/routes/devices.js:8-39 | Gate errors pass through. 400 `Invalid payload` exactly when the uid is missing or the type is neither room nor person. A valid payload from an admitted caller has exactly the upsert's outcome for the resolved tenant. On success the answered id is a row carrying the request's uid and type and the resolved tenant, with at most one row added. Past the gate every refusal is a 400, and a failure changes nothing. |
| Devices.RegisterPinsTenant | backend/src/routes/devices.js:17-18 | A caller other than the super admin always registers into its own tenant, whatever `tenant_id` the body names. |
| Devices.ReRegisterSameId | backend/src/routes/devices.js:21-25 | Registering the same uid again answers the same id and adds no row. |
| Devices.ReRegisterTakesOver | backend/src/routes/devices.js:21-25 | A caller of any other existing tenant who knows a device's uid moves the device into their tenant. The id stays and the tracking log is untouched. |
| Devices.RegisterThenConfig | backend/src/routes/devices.js:42-48 | After a successful registration, the config lookup by that uid finds the registered id, type and tenant. |
| Devices.Config | backend/src/routes/devices.js:42-48 | 400 without a `deviceId`. 404 `Not registered` for an unknown uid. Otherwise the row's id, tenant, uid, name and type, with intervals 60 and 300. |
| Devices.Heartbeat | backend/src/routes/devices.js:51-58 | 400 without a uid. 404 for an unknown uid, with nothing created. A known uid always succeeds and answers `now`. Only the rows with that uid get `last_seen = now` and `online = 1`. |
| Devices.HeartbeatShowsOnline | backend/src/routes/devices.js:51-72 | A device listed right after its heartbeat is online. |
| Devices.TenantDevices | backend/src/routes/devices.js:69-72 | Lists exactly the devices of the tenant, in id order, each with its stored columns and its presence recomputed at read time. |
| Devices.ListDevices | backend/src/routes/devices.js:61-74 | Gate errors pass through. Otherwise lists exactly the devices of the caller's tenant, or of the queried tenant for the super admin. |
| Tracking.ObservedAt | backend/src/routes/tracking.js:15 | A truthy `ts` in milliseconds becomes the second that contains it. Otherwise the observation time is the server clock. |
| Tracking.Update | backend/src/routes/tracking.js:8-29 | 400 if a uid is missing. 404 if no person device or no room device has the uid. 400 across tenants. Otherwise exactly one observation row is appended, in the person's tenant, and only the person device is marked seen at the observation time. Failures change nothing and are 400 or 404. |
| Tracking.CrossTenantWritesNothing | backend/src/routes/tracking.js:14 | A person and a room of different tenants give 400 and leave the store unchanged. |
| Tracking.Window | backend/src/routes/tracking.js:39-48 | The window holds exactly the log rows of the tenant whose person joins a device and whose time is at or after the cutoff. |
| Tracking.InsertByTs | backend/src/routes/tracking.js:47 | Inserting into a list sorted by time descending keeps it sorted and adds exactly the one row. |
| Tracking.SortByTsDesc | backend/src/routes/tracking.js:47 | `ORDER BY t.ts DESC`: the result is sorted by time descending and is a permutation of the input. |
| Tracking.FirstPerPerson | backend/src/routes/tracking.js:50-54 | Keeps rows of persons not yet seen, at most one per person, all taken from the input. |
| Tracking.FirstPerPersonCovers | backend/src/routes/tracking.js:50-54 | Every person of the input who was not already seen gets an entry. |
| Tracking.FirstPerPersonIsLatest | backend/src/routes/tracking.js:50-54 | On a list sorted by time descending, the kept row of a person has that person's greatest time, and the kept rows stay sorted. |
| Tracking.ToItem | backend/src/routes/tracking.js:60-69 | An entry carries the row's person id, rssi and time, and the person's uid and name. It has a room exactly when the row names an existing room device, with that device's id, uid and name. Its presence is the person device's, not the observation's age. |
| Tracking.Latest | backend/src/routes/tracking.js:47-54 | One row per person present, each with that person's greatest time, ordered by time descending. |
| Tracking.SupersededNotListed | backend/src/routes/tracking.js:50-54 | An observation with a later one of the same person is never listed. |
| Tracking.List | backend/src/routes/tracking.js:32-73 | Gate errors pass through. Otherwise one entry per person of the tenant's window, taken from that person's latest observation. Each entry joins person and room and carries the person device's presence. |
| Tracking.UpdateThenListed | backend/src/routes/tracking.js:8-73 | After a successful report inside the window, the person is listed with an observation at least that recent, and its presence is computed from the report's time. |
| Accounts.Login | backend/src/routes/auth.js:9-46 | 400 without email or password. A matching platform account always wins. Otherwise a matching tenant user logs in with role `tenant_user` and its scopes. A success always comes from a matching account. With no match, 401 `Invalid credentials`. |
| Accounts.SubAdminTx | backend/src/routes/auth.js:53-65 | Fails exactly when the email is taken, and then the store is unchanged, including a tenant the call would have created. Otherwise the new sub admin is appended in the tenant with that name, reused or created. |
| Accounts.CreateSubAdmin | backend/src/routes/auth.js:49-73 | Super admin only. 400 when email, password or tenantName is missing. Otherwise the transaction's outcome. Past the gate every refusal is a 400. |
| Accounts.SubAdminDuplicateIsAtomic | backend/src/routes/auth.js:53-60 | A duplicate email leaves no tenant behind. |
| Accounts.ScopesString | backend/src/routes/auth.js:79 | An array is joined with ','. Splitting the result at ',' gives back its separator-free names, and it is empty exactly for `[]` and `[""]`. Any other value is used as it is, and a falsy one becomes "". |
| Accounts.CreateTenantUser | backend/src/routes/auth.js:76-92 | Sub admin only. In order: 400 without email or password; 400 when the scopes string is empty; 400 when the email is already a tenant user's (platform emails are not checked); the NOT NULL error for a creator without a tenant; the FOREIGN KEY error when the creator's tenant does not exist. Otherwise one row is appended in the creator's tenant with the scopes string. Only `tenant_users` changes. |
| Accounts.CreatedScopesGrantExactly | backend/src/routes/auth.js:76-92 | Create a tenant user with clean scope names, then log in: the session holds a scope exactly when it was in the list. |
| Seed.EnsureSuperAdmin | backend/src/seed.js:8-24 | If a super admin exists: the first one's id, with nothing changed. If not: exactly one super admin is appended in the `Global` tenant (reused or created). An existing `Global` tenant is reused and the tenants table is unchanged. If the email is taken: the UNIQUE error, with a created `Global` tenant left in place. |
| Seed.SeedIdempotent | backend/src/seed.js:8-13 | A second run after a successful one changes nothing and answers the same id. |
| Seed.SeedCreatesExactlyOne | backend/src/seed.js:14-23 | Starting without a super admin, a successful run leaves exactly one, the new row. |

## Left out

- HTTP plumbing (Express routing, JSON parsing, CORS, the server entry point) is left out. Each handler takes the request fields it reads as parameters.
- Database setup (the file path, WAL journal mode, `CREATE TABLE IF NOT EXISTS`) is left out. The schema appears as row datatypes and the `Schema.Valid` constraints.
- bcrypt, JWT signing and verification, `process.env` and `Date.now()` are parameters, not models. Token expiry (7 days) belongs to `verifyToken`.
- The second `POST /tenant-users` handler at backend/src/routes/auth.js:13-30 is left out. It is registered inside the login handler on every login and never answers a request before the top-level route does. The top-level route at lines 76-92 is modelled.
- Request fields of unexpected JSON types (numbers as uids, objects as names) are left out. A field is a string, a number or absent.
- Numeric fields (`ts`, `rssi`, `tenant_id`) are unbounded integers. This stands for the integers within JavaScript's safe range. Fractional values (a fractional `rssi` would be stored as REAL) and integers beyond 2^53 are not represented.
- The list routes read the query `tenant_id` through `Number()`. The model takes the already-parsed integer, and a non-numeric query string (NaN, which matches no row) is not modelled.
- `Tracking.List`: the list handler reads the clock twice (for the cutoff and for presence). The model uses one `now` for both.
- `Tracking.List`: SQLite does not fix the order of rows with equal `ts`. The model keeps log order among them, so for a person with two observations in the same second the contract only says that an observation with the greatest time is listed.
- `Devices.TenantDevices`: the device list has no `ORDER BY`. The model lists in rowid order, which is what a table scan of the device table yields.
- Stored NULLs in `last_seen` and `rssi` are not represented. No handler writes them: register inserts 0 and tracking writes `rssi || 0`.
- Concurrency between requests is left out. better-sqlite3 runs each handler to completion, so every handler is a single state transition.
- The frontend, the firmware and the deployment scripts are not part of this model.
