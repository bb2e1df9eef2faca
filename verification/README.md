# POI backends: a Dafny model of the request handlers

This project models the request-handling layer of the map-POI service's two
backends, the Express server (`map-poi-backend/server.js`) and the FastAPI
server (`map-poi-backend-py/main.py`). Both sit in front of one PostGIS table,
`pois`, whose rows hold a name, a description and a point geometry.

The table is modelled as an immutable map from id to record (`Store.Table`),
with a serial counter `nextId` standing for the id sequence. Each HTTP handler
is a transition `(Table, request, Health) -> (Table, Response)`: it
validates, issues one SQL statement, and maps the statement's outcome to a
status. The create, get-one, update and delete handlers are pure functions. The
two list handlers are methods, because they leave the row order to a
nondeterministic choice. `Health` is the database's behaviour for that statement:
`Healthy`, or `Failing(message)` for any fault. A failing statement changes nothing.

The one real hazard is axis order. The wire speaks `(lat, lng)`, while the
geometry stores `(x = lng, y = lat)`. Both `INSERT`/`UPDATE` statements are
modelled down to their positional placeholders: Express binds
`[name, description, lat, lng]` and calls `ST_MakePoint($4, $3)`, FastAPI binds
`(name, description, lng, lat)` into `ST_MakePoint(%s, %s)`. The reads
project `ST_Y` as `lat` and `ST_X` as `lng`. So what the verifier checks is the
order inside the SQL text, against the `Geometry.Encode`/`DecodeLat`/`DecodeLng`
contract.

Modules:
- `Json`: request-body values, with JavaScript truthiness and `== null`.
- `Geometry`: `ST_MakePoint`, `ST_X`, `ST_Y`, and the lat/lng encode/decode pair.
- `Store`: the table, its serial-id invariant, and the five SQL statements.
- `Http`: status code plus body shapes.
- `NodeServer` and `NodeProperties`: the five Express routes, and what they promise together.
- `PyMain` and `PyProperties`: the `POI` model and the three FastAPI routes, and what they promise together.
- `Variants`: the two backends compared over the same table.

The two backends differ in these places, and the model keeps each difference visible:
- Delete of a missing id: Express answers 204, FastAPI answers 404.
- An empty name or description: Express rejects it as missing (400), the `POI` model accepts it (201).
- An empty-string lat or lng goes the other way. It passes the Express guard, and the insert then
  fails when PostgreSQL casts it to a float (500). The `POI` model refuses it (422).
  The model does not derive that failure. The cast error is one of the faults `Health` stands for.
- Refused bodies: Express answers 400, FastAPI's model answers 422.
- Fault bodies: Express catches every fault and answers a JSON `{success: false, ...}` body.
  FastAPI catches nothing, so the framework answers a plain-text 500.
- Routes: FastAPI has no get-one and no update route.

What the code does that a reader might not expect:
- Create does not return the new id. Both backends answer `{success: true}` only.
- Update does not validate its body. A missing field is bound as SQL NULL, and a
  value PostgreSQL cannot cast is a database fault (500), not a validation error.
- A second FastAPI delete of the same id answers 404, not 204. The table is left as the first delete left it.
- An update that leaves out one coordinate stores a NULL point, because `ST_MakePoint` and `ST_SetSRID`
  are strict. Both coordinates then read back as null.
- Delete's 500 body in Express carries the driver's error message (`error: err.message`).
  It is not the static message the other routes use.
- The FastAPI backend catches nothing. A database fault is the framework's plain-text
  500 "Internal Server Error", not a `{success: false}` body.

## Model

| member | source | states |
|---|---|---|
| Geometry.RoundTrip | map-poi-backend/server.js:21-27 | reading y as lat and x as lng gives back the pair that was encoded as (x = lng, y = lat) |
| Geometry.EncodeDecode | map-poi-backend-py/main.py:38-40 | every stored point is the encoding of the pair it decodes to, so reading loses nothing |
| Geometry.NeverSwapped | map-poi-backend/server.js:43-46 | a pair with distinct components is never read back with lat and lng exchanged |
| Store.SqlPoint | map-poi-backend/server.js:90 | a NULL coordinate makes the whole point NULL, so both projections read null; otherwise x and y read back as given |
| Store.Insert | map-poi-backend/server.js:43-47 | an insert adds exactly one record under a fresh id and keeps every other record; a fault changes nothing and carries the driver's message |
| Store.SelectWhereId | map-poi-backend/server.js:60-66 | the select by id yields at most one row; it yields none exactly when the id is absent, else that record's projection |
| Store.UpdateWhereId | map-poi-backend/server.js:85-95 | the affected-row count is 0 exactly when the id is absent; only that id's record is replaced, keys and sequence unchanged |
| Store.DeleteWhereId | map-poi-backend-py/main.py:67-68 | the affected-row count is 0 exactly when the id is absent; only that id leaves the table, other records unchanged |
| Store.InsertedIsListed | map-poi-backend-py/main.py:38-51 | a record inserted under a fresh id appears, as its projection, in every listing of the new table, which has one row more |
| Store.RunGrows | map-poi-backend/server.js:43-47 | if every request only adds fresh ids, then along any sequence of requests the id sequence never goes back and every new id is fresh |
| Store.AbsentStaysAbsent | map-poi-backend/server.js:111 | an id handed out and since removed is absent after any later sequence of such requests |
| Store.FaultsChangeNothing | map-poi-backend/server.js:49-52 | if a failing statement changes nothing, a sequence of requests all met by faults leaves the table as it was |
| Store.SelectAll | map-poi-backend-py/main.py:38-42 | the unordered select returns one row per record, each its record's projection, no id twice, as many rows as records |
| NodeServer.ListPois | map-poi-backend/server.js:19-32 | list leaves the table unchanged and answers 200 with a full listing, or 500 "Database error" exactly on a fault |
| NodeServer.CreatePoi | map-poi-backend/server.js:35-53 | 400 exactly when name or description is falsy or lat or lng is null/undefined, with no change; otherwise 201 `{success:true}` with one new record whose point decodes to the submitted lat and lng, or 500 with no change on a fault |
| NodeServer.GetPoi | map-poi-backend/server.js:56-77 | never changes the table; 404 exactly when the id is absent, 200 with exactly that record, 500 exactly on a fault |
| NodeServer.UpdatePoi | map-poi-backend/server.js:80-106 | only 200, 404 or 500; 404 exactly when the id is absent, with no change; 200 replaces that id's fields and point and nothing else; the point decodes to the submitted lat and lng when both are present, and to null in both coordinates when either is absent or null |
| NodeServer.DeletePoi | map-poi-backend/server.js:109-117 | 204 with the id removed whether or not it was present; on a fault 500 with the driver's message and no change |
| NodeProperties.CreateThenGet | map-poi-backend/server.js:43-72 | reading the id a create assigned returns the submitted name, description, lat and lng |
| NodeProperties.ListedAfterCreate | map-poi-backend/server.js:21-48 | any listing after a create has one more row, and one row carries the submitted fields unswapped |
| NodeProperties.CreateGuardUsesTruthiness | map-poi-backend/server.js:38-40 | the create guard counts a zero or empty name, a false description and an undefined or null lat or lng as missing, but a lat or lng of 0, false or "" as present |
| NodeProperties.UpdateThenGet | map-poi-backend/server.js:85-101 | after a successful update the same id reads back the new fields: an absent name or description as null, and both coordinates as null when either was absent or null |
| NodeProperties.MissingLatNullsPoint | map-poi-backend/server.js:85-95 | an update without lat answers 200, and the record then reads back with both lat and lng null |
| NodeProperties.WriteLocationEncodes | map-poi-backend/server.js:90-94 | the point built by `ST_MakePoint($4, $3)` over `[name, description, lat, lng]` is the (x = lng, y = lat) encoding when both are present, else the NULL point |
| NodeProperties.UpdateIdempotent | map-poi-backend/server.js:85-101 | applying one update twice leaves the table as applying it once, and both calls answer alike (200 or 404) |
| NodeProperties.UpdateDoesNotValidate | map-poi-backend/server.js:82-95 | an update with an empty body still answers 200 and stores nulls |
| NodeProperties.DeleteIdempotent | map-poi-backend/server.js:109-112 | deleting twice answers 204 both times, the second changes nothing, and a read then answers 404 |
| NodeProperties.CafeWalkThrough | map-poi-backend/server.js:35-112 | create, read, update, read, delete, read on a fresh table give 201, the record, 200, the new record, 204, 404; unknown-id update is 404, create without lat is 400 with no change |
| NodeProperties.Step | map-poi-backend/server.js:19-117 | every route only adds fresh ids, and on a fault leaves the table unchanged |
| NodeProperties.DeletedNeverReturns | map-poi-backend/server.js:109-112 | once deleted, an id is absent after any later sequence of requests |
| NodeProperties.FaultsChangeNothing | map-poi-backend/server.js:28-31 | any sequence of requests that all meet faults leaves the table unchanged |
| PyMain.ParsePoi | map-poi-backend-py/main.py:28-32 | the body is accepted exactly when name and description are strings and lat and lng are numbers, and the accepted fields are the body's |
| PyMain.GetPois | map-poi-backend-py/main.py:35-51 | list leaves the table unchanged and answers 200 with one entry per record (lat from ST_Y, lng from ST_X), or 500 exactly on a fault |
| PyMain.CreatePoi | map-poi-backend-py/main.py:54-61 | 422 with no change exactly when the model refuses the body; otherwise 201 with one new record whose point decodes to the submitted lat and lng, or 500 with no change on a fault |
| PyMain.DeletePoi | map-poi-backend-py/main.py:64-69 | 204 exactly when the id was present, which it removes alone; 404 with no change exactly when absent; 500 with no change on a fault |
| PyProperties.ListedAfterCreate | map-poi-backend-py/main.py:38-60 | any listing after a create has one more row, and one row carries the submitted fields unswapped |
| PyProperties.InsertLocationEncodes | map-poi-backend-py/main.py:59-60 | the point built by `ST_MakePoint(%s, %s)` over `(name, description, lng, lat)` is the (x = lng, y = lat) encoding of the model's pair |
| PyProperties.RefusedBodyCreatesNothing | map-poi-backend-py/main.py:28-32 | a missing lat, a null description or a numeric name is refused with 422 and creates nothing, whatever the database does |
| PyProperties.SecondDeleteIsNotFound | map-poi-backend-py/main.py:67-69 | deleting a present id twice answers 204 then 404, and the second call changes nothing |
| PyProperties.Step | map-poi-backend-py/main.py:35-69 | every route only adds fresh ids, and on a fault leaves the table unchanged |
| PyProperties.FaultsChangeNothing | map-poi-backend-py/main.py:56-60 | any sequence of requests that all meet faults leaves the table unchanged, though nothing is caught |
| PyProperties.DeletedNeverReturns | map-poi-backend-py/main.py:64-67 | once deleted, an id is absent after any later sequence of requests |
| Variants.DeleteVariants | map-poi-backend-py/main.py:67-69 | the two deletes leave the same table, and answer alike exactly when the id was present |
| Variants.CreateVariantsAgree | map-poi-backend-py/main.py:57-60 | for a body both guards accept, the two inserts (lat, lng against lng, lat binding) store the same record and answer alike |
| Variants.EmptyNameVariants | map-poi-backend/server.js:38 | an empty name is 400 in Express and 201 in FastAPI |
| Variants.EmptyCoordinateVariants | map-poi-backend-py/main.py:31 | an empty-string lat passes the Express guard, so its insert fault answers 500 with no change, while FastAPI refuses it with 422 whatever the database does |

## Left out

- The React/Leaflet front end: view code, not part of this model.
- Express and FastAPI bootstrapping, CORS, JSON body parsing and `app.listen`: plumbing. A body that is not a JSON object is not modelled.
- The connection configuration (`Pool`, `psycopg2.connect`, autocommit). The database is the `Table` value, and each statement is atomic.
- Real SQL and PostGIS execution, SRID 4326 and `RETURNING id`. `ST_MakePoint`, `ST_X` and `ST_Y` are a pair constructor and its projections.
- Database-assigned ids: modelled as a serial counter, so a new id is always fresh. The code itself does not promise this; it relies on the table's sequence.
- The id sequence on a failed insert: PostgreSQL does not roll back `nextval`, so an INSERT that fails after its serial default was drawn uses up an id. The model leaves the counter unchanged on every fault. Rows are unaffected either way.
- PostgreSQL's casting of bound parameters to column types. The table keeps each value as bound. A cast that fails, such as a non-numeric latitude, is one of the faults `Health` stands for. So is a NOT NULL constraint, which the model does not assume.
- Floating point: coordinates are opaque values compared for equality. The code enforces no latitude or longitude range, and neither does the model.
- `parseInt` of path ids, the raw string id that Express passes to DELETE, and FastAPI's `id: int` path parsing: the id is an `int` input.
- PyMain.ParsePoi: pydantic's lax coercions (a numeric string for a float, and so on) are not modelled. Only JSON strings and numbers are accepted. The JSON shape of the 422 error list is left abstract.
- Logging, and concurrency between requests. Last writer wins is the database's doing, not this code's.
- Store.SelectAll: the row order is chosen nondeterministically. The code sets no ORDER BY, so no order is promised.
