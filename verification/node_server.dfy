/** The Express backend: five route handlers over the `pois` table. Each
    handler is one transition from a table and a request to a table and a
    response; the database's behaviour for the one statement it issues is
    the `Health` argument. */
module NodeServer {
  import opened Json
  import opened Geometry
  import opened Store
  import opened Http

  /** node-postgres sends `undefined` as SQL NULL and every other value as is. */
  function Bind(v: Value): Value {
    if v.Undefined? then Null else v
  }

  /** The parameter array `[name, description, lat, lng]` both writes bind. */
  function WriteParams(body: PoiBody): (ps: seq<Value>)
    ensures |ps| == 4
  {
    [Bind(body.name), Bind(body.description), Bind(body.lat), Bind(body.lng)]
  }

  /** `ST_SetSRID(ST_MakePoint($4, $3), 4326)` over the write parameters. */
  function WriteLocation(ps: seq<Value>): Point<Value>
    requires |ps| == 4
  {
    SqlPoint(Param(ps, 4), Param(ps, 3))
  }

  /** The create guard: a falsy name or description, or a lat or lng that is
      loosely equal to null, is a missing field. */
  predicate MissingRequired(body: PoiBody) {
    !Truthy(body.name) || !Truthy(body.description) || LooselyNull(body.lat) || LooselyNull(body.lng)
  }

  /** GET /api/pois. */
  method ListPois(t: Table, h: Health) returns (t': Table, resp: Response)
    ensures t' == t
    ensures resp.status == 200 || resp.status == 500
    ensures resp.status == 500 <==> h.Failing?
    ensures resp.status == 500 ==> resp.body == FlagMessage(false, "Database error")
    ensures resp.status == 200 ==> resp.body.RowList? && Lists(t, resp.body.rows)
  {
    var r := SelectAll(t, h);
    t' := t;
    match r
    case Failed(_) => resp := Response(500, FlagMessage(false, "Database error"));
    case Done(rows) => resp := Response(200, RowList(rows));
  }

  /** POST /api/pois. A valid body is inserted with x = lng and y = lat; the
      response does not carry the new id. */
  function CreatePoi(t: Table, body: PoiBody, h: Health): (out: (Table, Response))
    ensures out.1.status in {201, 400, 500}
    ensures out.1.status == 400 <==> MissingRequired(body)
    ensures out.1.status == 400 ==> out.0 == t && out.1.body == FlagMessage(false, "Missing required fields")
    ensures out.1.status == 500 <==> !MissingRequired(body) && h.Failing?
    ensures out.1.status == 500 ==> out.0 == t && out.1.body == FlagMessage(false, "Database insert error")
    ensures out.1.status == 201 ==>
      && out.1.body == Flag(true)
      && Grows(t, out.0)
      && t.nextId !in t.pois
      && out.0.pois.Keys == t.pois.Keys + {t.nextId}
      && (forall id :: id in t.pois ==> out.0.pois[id] == t.pois[id])
      && out.0.pois[t.nextId].name == body.name
      && out.0.pois[t.nextId].description == body.description
      && DecodeLat(out.0.pois[t.nextId].location) == body.lat
      && DecodeLng(out.0.pois[t.nextId].location) == body.lng
  {
    if MissingRequired(body) then
      (t, Response(400, FlagMessage(false, "Missing required fields")))
    else
      var ps := WriteParams(body);
      match Insert(t, h, Param(ps, 1), Param(ps, 2), WriteLocation(ps))
      case Failed(_) => (t, Response(500, FlagMessage(false, "Database insert error")))
      case Done(t') => (t', Response(201, Flag(true)))
  }

  /** GET /api/pois/:id, with the id already parsed. */
  function GetPoi(t: Table, id: int, h: Health): (out: (Table, Response))
    ensures out.0 == t
    ensures out.1.status in {200, 404, 500}
    ensures out.1.status == 500 <==> h.Failing?
    ensures out.1.status == 500 ==> out.1.body == FlagMessage(false, "Internal error")
    ensures out.1.status == 404 <==> h.Healthy? && id !in t.pois
    ensures out.1.status == 404 ==> out.1.body == FlagMessage(false, "POI not found")
    ensures out.1.status == 200 ==> id in t.pois && out.1.body == RowObject(Project(id, t.pois[id]))
  {
    match SelectWhereId(t, h, id)
    case Failed(_) => (t, Response(500, FlagMessage(false, "Internal error")))
    case Done(rows) =>
      if |rows| == 0 then (t, Response(404, FlagMessage(false, "POI not found")))
      else (t, Response(200, RowObject(rows[0])))
  }

  /** PUT /api/pois/:id. No field is checked: whatever the body holds is
      bound (absent fields as NULL), and only the affected-row count decides
      between 200 and 404. A missing coordinate makes the whole point NULL. */
  function UpdatePoi(t: Table, id: int, body: PoiBody, h: Health): (out: (Table, Response))
    ensures out.1.status in {200, 404, 500}
    ensures out.1.status == 500 <==> h.Failing?
    ensures out.1.status == 500 ==> out.0 == t && out.1.body == FlagMessage(false, "Internal server error")
    ensures out.1.status == 404 <==> h.Healthy? && id !in t.pois
    ensures out.1.status == 404 ==> out.0 == t && out.1.body == FlagMessage(false, "POI not found")
    ensures out.1.status == 200 ==>
      && out.1.body == FlagMessage(true, "POI updated successfully")
      && out.0.nextId == t.nextId
      && out.0.pois.Keys == t.pois.Keys
      && (forall k :: k in t.pois && k != id ==> out.0.pois[k] == t.pois[k])
      && out.0.pois[id].name == Bind(body.name)
      && out.0.pois[id].description == Bind(body.description)
      && (LooselyNull(body.lat) || LooselyNull(body.lng) ==>
            DecodeLat(out.0.pois[id].location) == Null && DecodeLng(out.0.pois[id].location) == Null)
      && (!LooselyNull(body.lat) && !LooselyNull(body.lng) ==>
            DecodeLat(out.0.pois[id].location) == body.lat && DecodeLng(out.0.pois[id].location) == body.lng)
  {
    var ps := WriteParams(body);
    match UpdateWhereId(t, h, id, Param(ps, 1), Param(ps, 2), WriteLocation(ps))
    case Failed(_) => (t, Response(500, FlagMessage(false, "Internal server error")))
    case Done((t', rowCount)) =>
      if rowCount == 0 then (t, Response(404, FlagMessage(false, "POI not found")))
      else (t', Response(200, FlagMessage(true, "POI updated successfully")))
  }

  /** DELETE /api/pois/:id. The affected-row count is ignored: 204 whether or
      not a record was removed; a fault's own message goes into the body. */
  function DeletePoi(t: Table, id: int, h: Health): (out: (Table, Response))
    ensures out.1.status == 204 || out.1.status == 500
    ensures out.1.status == 204 <==> h.Healthy?
    ensures out.1.status == 204 ==>
      && out.1.body == NoContent
      && out.0.nextId == t.nextId
      && out.0.pois.Keys == t.pois.Keys - {id}
      && forall k :: k in out.0.pois ==> out.0.pois[k] == t.pois[k]
    ensures out.1.status == 500 ==> out.0 == t && out.1.body == FlagError(false, h.message)
  {
    match DeleteWhereId(t, h, id)
    case Failed(m) => (t, Response(500, FlagError(false, m)))
    case Done((t', _)) => (t', Response(204, NoContent))
  }
}

/** What the Express handlers promise in combination: round trips through
    the table, idempotence, and that ids never come back. */
module NodeProperties {
  import opened Json
  import opened Geometry
  import opened Store
  import opened Http
  import opened NodeServer

  /** A create followed by a read of the id the table assigned returns the
      four submitted fields, latitude and longitude in their own places. */
  lemma CreateThenGet(t: Table, body: PoiBody)
    requires CreatePoi(t, body, Healthy).1.status == 201
    ensures GetPoi(CreatePoi(t, body, Healthy).0, t.nextId, Healthy).1
      == Response(200, RowObject(Row(t.nextId, body.name, body.description, body.lat, body.lng)))
  {
  }

  /** The record a create adds shows up in any listing of the new table,
      with the submitted latitude and longitude unswapped. */
  lemma {:induction false} ListedAfterCreate(t: Table, body: PoiBody, rows: seq<Row>)
    requires CreatePoi(t, body, Healthy).1.status == 201
    requires Lists(CreatePoi(t, body, Healthy).0, rows)
    ensures |rows| == |t.pois| + 1
    ensures exists i :: 0 <= i < |rows| && rows[i] == Row(t.nextId, body.name, body.description, body.lat, body.lng)
  {
    var t' := CreatePoi(t, body, Healthy).0;
    InsertedIsListed(t, t', t.nextId, t'.pois[t.nextId], rows);
  }

  /** JavaScript truthiness in the create guard (which `CreatePoi` answers
      with 400): a zero or empty name is missing, as is an undefined or null
      coordinate, while a zero, false or empty-string coordinate is present. */
  lemma CreateGuardUsesTruthiness()
    ensures MissingRequired(PoiBody(Num(0.0), Str("d"), Num(1.0), Num(2.0)))
    ensures MissingRequired(PoiBody(Str(""), Str("d"), Num(1.0), Num(2.0)))
    ensures MissingRequired(PoiBody(Str("n"), Bool(false), Num(1.0), Num(2.0)))
    ensures MissingRequired(PoiBody(Str("n"), Str("d"), Undefined, Num(2.0)))
    ensures MissingRequired(PoiBody(Str("n"), Str("d"), Num(1.0), Null))
    ensures !MissingRequired(PoiBody(Str("n"), Str("d"), Num(0.0), Num(0.0)))
    ensures !MissingRequired(PoiBody(Num(1.0), Obj, Bool(false), Str("")))
  {
  }

  /** After an update that succeeded, a read returns the new fields under the
      same id: an absent name or description as null, and both coordinates as
      null when either one was absent or null. */
  lemma UpdateThenGet(t: Table, id: int, body: PoiBody)
    requires UpdatePoi(t, id, body, Healthy).1.status == 200
    ensures var nullPoint := LooselyNull(body.lat) || LooselyNull(body.lng);
            GetPoi(UpdatePoi(t, id, body, Healthy).0, id, Healthy).1
              == Response(200, RowObject(Row(id, Bind(body.name), Bind(body.description),
                                             if nullPoint then Null else body.lat,
                                             if nullPoint then Null else body.lng)))
  {
  }

  /** An update that leaves out only the latitude stores a NULL point: the
      next read answers null for the longitude too. */
  lemma MissingLatNullsPoint(t: Table, id: int)
    requires id in t.pois
    ensures var (t', r) := UpdatePoi(t, id, PoiBody(Str("n"), Str("d"), Undefined, Num(2.0)), Healthy);
            r.status == 200 && GetPoi(t', id, Healthy).1.body == RowObject(Row(id, Str("n"), Str("d"), Null, Null))
  {
  }

  /** The point both writes build is the axis-order encoding of the submitted
      pair when both coordinates are present, and the NULL point otherwise. */
  lemma WriteLocationEncodes(body: PoiBody)
    ensures !LooselyNull(body.lat) && !LooselyNull(body.lng) ==>
      WriteLocation(WriteParams(body)) == Encode(body.lat, body.lng)
    ensures LooselyNull(body.lat) || LooselyNull(body.lng) ==>
      WriteLocation(WriteParams(body)) == Point(Null, Null)
  {
  }

  /** Applying the same update twice leaves the table as once, and both
      calls report the same status. */
  lemma UpdateIdempotent(t: Table, id: int, body: PoiBody)
    ensures var (t1, r1) := UpdatePoi(t, id, body, Healthy);
            var (t2, r2) := UpdatePoi(t1, id, body, Healthy);
            t2 == t1 && r2 == r1 && r1.status in {200, 404}
  {
  }

  /** Update never answers 400, even for an empty body, and an empty body
      stores nulls. */
  lemma UpdateDoesNotValidate(t: Table, id: int)
    requires id in t.pois
    ensures var (t', r) := UpdatePoi(t, id, PoiBody(Undefined, Undefined, Undefined, Undefined), Healthy);
            r.status == 200 && t'.pois[id] == Poi(Null, Null, Point(Null, Null))
  {
  }

  /** Deleting twice answers 204 both times, and the id then reads as 404. */
  lemma DeleteIdempotent(t: Table, id: int)
    ensures var (t1, r1) := DeletePoi(t, id, Healthy);
            var (t2, r2) := DeletePoi(t1, id, Healthy);
            && r1 == Response(204, NoContent) && r2 == r1 && t2 == t1
            && GetPoi(t2, id, Healthy).1.status == 404
  {
  }

  /** The create, update, delete walk-through on a fresh table: the record
      reads back as written, then as updated under the same id, then not at
      all; an update of an unknown id and a create without a latitude are
      refused. */
  lemma CafeWalkThrough()
    ensures var cafe := PoiBody(Str("Cafe"), Str("Coffee shop"), Num(12.9716), Num(77.5946));
            var moved := PoiBody(Str("Cafe 2"), Str("Moved"), Num(13.0), Num(77.6));
            var (t1, r1) := CreatePoi(Empty, cafe, Healthy);
            var (t2, r2) := UpdatePoi(t1, 1, moved, Healthy);
            var (t3, r3) := DeletePoi(t2, 1, Healthy);
            && r1.status == 201
            && GetPoi(t1, 1, Healthy).1.body == RowObject(Row(1, Str("Cafe"), Str("Coffee shop"), Num(12.9716), Num(77.5946)))
            && r2.status == 200
            && GetPoi(t2, 1, Healthy).1.body == RowObject(Row(1, Str("Cafe 2"), Str("Moved"), Num(13.0), Num(77.6)))
            && r3.status == 204
            && GetPoi(t3, 1, Healthy).1.status == 404
            && UpdatePoi(t3, 999999, moved, Healthy).1.status == 404
            && CreatePoi(t3, PoiBody(Str("Cafe"), Str("Coffee shop"), Undefined, Num(77.5946)), Healthy) == (t3, Response(400, FlagMessage(false, "Missing required fields")))
  {
  }

  /** One request to the Express backend. */
  datatype Request =
    | ListAll
    | Create(body: PoiBody)
    | GetOne(id: int)
    | Update(id: int, body: PoiBody)
    | Delete(id: int)

  /** The table after one request; the two reads leave it as it was. */
  function Step(t: Table, req: Request, h: Health): (t': Table)
    ensures Grows(t, t')
    ensures h.Failing? ==> t' == t
  {
    match req
    case ListAll => t
    case Create(body) => CreatePoi(t, body, h).0
    case GetOne(id) => GetPoi(t, id, h).0
    case Update(id, body) => UpdatePoi(t, id, body, h).0
    case Delete(id) => DeletePoi(t, id, h).0
  }

  /** A deleted id is never handed out again: no sequence of later requests
      brings it back. */
  lemma DeletedNeverReturns(t: Table, id: int, calls: seq<(Request, Health)>)
    requires id in t.pois
    ensures id !in Run(DeletePoi(t, id, Healthy).0, calls, Step).pois
  {
    AbsentStaysAbsent(DeletePoi(t, id, Healthy).0, id, calls, Step);
  }

  /** A sequence of requests all met by faults leaves the table untouched. */
  lemma FaultsChangeNothing(t: Table, calls: seq<(Request, Health)>)
    requires forall i :: 0 <= i < |calls| ==> calls[i].1.Failing?
    ensures Run(t, calls, Step) == t
  {
    Store.FaultsChangeNothing(t, calls, Step);
  }
}
