/** The FastAPI backend: the `POI` request model and three handlers over the
    `pois` table. It catches nothing: a database fault becomes the
    framework's plain 500. */
module PyMain {
  import opened Json
  import opened Geometry
  import opened Store
  import opened Http

  /** A body the `POI` model accepted. */
  datatype PoiModel = PoiModel(name: string, description: string, lat: real, lng: real)

  datatype Validation = Valid(poi: PoiModel) | Invalid

  /** The `POI` model: name and description must be JSON strings (empty ones
      included), lat and lng JSON numbers; any other body is refused before
      the handler runs. */
  function ParsePoi(body: PoiBody): (v: Validation)
    ensures v.Valid? <==> body.name.Str? && body.description.Str? && body.lat.Num? && body.lng.Num?
    ensures v.Valid? ==>
      && Str(v.poi.name) == body.name && Str(v.poi.description) == body.description
      && Num(v.poi.lat) == body.lat && Num(v.poi.lng) == body.lng
  {
    match (body.name, body.description, body.lat, body.lng)
    case (Str(n), Str(d), Num(la), Num(lo)) => Valid(PoiModel(n, d, la, lo))
    case _ => Invalid
  }

  /** The parameter tuple `(name, description, lng, lat)` of the insert. */
  function InsertParams(poi: PoiModel): (ps: seq<Value>)
    ensures |ps| == 4
  {
    [Str(poi.name), Str(poi.description), Num(poi.lng), Num(poi.lat)]
  }

  /** `ST_SetSRID(ST_MakePoint(%s, %s), 4326)` takes the third and fourth
      parameters, in order. */
  function InsertLocation(ps: seq<Value>): Point<Value>
    requires |ps| == 4
  {
    SqlPoint(Param(ps, 3), Param(ps, 4))
  }

  /** The framework's answer to an exception the handler does not catch. */
  const ServerError := Response(500, PlainText("Internal Server Error"))

  /** GET /api/pois: one entry per row, lat from ST_Y and lng from ST_X. */
  method GetPois(t: Table, h: Health) returns (t': Table, resp: Response)
    ensures t' == t
    ensures resp.status == 200 || resp.status == 500
    ensures resp.status == 500 <==> h.Failing?
    ensures resp.status == 500 ==> resp == ServerError
    ensures resp.status == 200 ==> resp.body.RowList? && Lists(t, resp.body.rows)
  {
    var r := SelectAll(t, h);
    t' := t;
    match r
    case Failed(_) => resp := ServerError;
    case Done(rows) => resp := Response(200, RowList(rows));
  }

  /** POST /api/pois: a body the model accepts is inserted with x = lng and
      y = lat; one the model refuses never reaches the table. */
  function CreatePoi(t: Table, body: PoiBody, h: Health): (out: (Table, Response))
    ensures out.1.status in {201, 422, 500}
    ensures out.1.status == 422 <==> ParsePoi(body).Invalid?
    ensures out.1.status == 422 ==> out.0 == t && out.1.body == ValidationErrors
    ensures out.1.status == 500 <==> ParsePoi(body).Valid? && h.Failing?
    ensures out.1.status == 500 ==> out.0 == t && out.1 == ServerError
    ensures out.1.status == 201 ==>
      && out.1.body == Flag(true)
      && Grows(t, out.0)
      && t.nextId !in t.pois
      && out.0.pois.Keys == t.pois.Keys + {t.nextId}
      && (forall id :: id in t.pois ==> out.0.pois[id] == t.pois[id])
      && out.0.pois[t.nextId].name == body.name
      && out.0.pois[t.nextId].description == body.description
      && DecodeLat(out.0.pois[t.nextId].location) == body.lat
      && DecodeLng(out.0.pois[t.nextId].location) == body.lng
  {
    match ParsePoi(body)
    case Invalid => (t, Response(422, ValidationErrors))
    case Valid(poi) =>
      var ps := InsertParams(poi);
      match Insert(t, h, Param(ps, 1), Param(ps, 2), InsertLocation(ps))
      case Failed(_) => (t, ServerError)
      case Done(t') => (t', Response(201, Flag(true)))
  }

  /** DELETE /api/pois/{id}: 204 when a row went, 404 when none matched. */
  function DeletePoi(t: Table, id: int, h: Health): (out: (Table, Response))
    ensures out.1.status in {204, 404, 500}
    ensures out.1.status == 500 <==> h.Failing?
    ensures out.1.status == 500 ==> out.0 == t && out.1 == ServerError
    ensures out.1.status == 404 <==> h.Healthy? && id !in t.pois
    ensures out.1.status == 404 ==> out.0 == t && out.1.body == Detail("POI not found")
    ensures out.1.status == 204 ==>
      && id in t.pois
      && out.1.body == NoContent
      && out.0.nextId == t.nextId
      && out.0.pois.Keys == t.pois.Keys - {id}
      && forall k :: k in out.0.pois ==> out.0.pois[k] == t.pois[k]
  {
    match DeleteWhereId(t, h, id)
    case Failed(_) => (t, ServerError)
    case Done((t', rowCount)) =>
      if rowCount == 0 then (t', Response(404, Detail("POI not found")))
      else (t', Response(204, NoContent))
  }
}

/** What the FastAPI handlers promise in combination. */
module PyProperties {
  import opened Json
  import opened Geometry
  import opened Store
  import opened Http
  import opened PyMain

  /** A created record shows up in any listing of the new table with the
      submitted fields, latitude and longitude unswapped. */
  lemma {:induction false} ListedAfterCreate(t: Table, body: PoiBody, rows: seq<Row>)
    requires CreatePoi(t, body, Healthy).1.status == 201
    requires Lists(CreatePoi(t, body, Healthy).0, rows)
    ensures |rows| == |t.pois| + 1
    ensures exists i :: 0 <= i < |rows| && rows[i] == Row(t.nextId, body.name, body.description, body.lat, body.lng)
  {
    var t' := CreatePoi(t, body, Healthy).0;
    InsertedIsListed(t, t', t.nextId, t'.pois[t.nextId], rows);
  }

  /** The point the insert builds from the `(name, description, lng, lat)`
      tuple is the axis-order encoding of the model's (lat, lng). */
  lemma InsertLocationEncodes(poi: PoiModel)
    ensures InsertLocation(InsertParams(poi)) == Encode(Num(poi.lat), Num(poi.lng))
  {
  }

  /** A missing or mistyped field never creates a record. */
  lemma RefusedBodyCreatesNothing(t: Table, h: Health)
    ensures CreatePoi(t, PoiBody(Str("n"), Str("d"), Undefined, Num(2.0)), h) == (t, Response(422, ValidationErrors))
    ensures CreatePoi(t, PoiBody(Str("n"), Null, Num(1.0), Num(2.0)), h) == (t, Response(422, ValidationErrors))
    ensures CreatePoi(t, PoiBody(Num(1.0), Str("d"), Num(1.0), Num(2.0)), h) == (t, Response(422, ValidationErrors))
  {
  }

  /** A second delete of the same id answers 404, unlike the Express
      backend, and leaves the table as the first delete left it. */
  lemma SecondDeleteIsNotFound(t: Table, id: int)
    requires id in t.pois
    ensures var (t1, r1) := DeletePoi(t, id, Healthy);
            var (t2, r2) := DeletePoi(t1, id, Healthy);
            r1 == Response(204, NoContent) && r2 == Response(404, Detail("POI not found")) && t2 == t1
  {
  }

  /** One request to the FastAPI backend. */
  datatype Request =
    | ListAll
    | Create(body: PoiBody)
    | Delete(id: int)

  /** The table after one request. */
  function Step(t: Table, req: Request, h: Health): (t': Table)
    ensures Grows(t, t')
    ensures h.Failing? ==> t' == t
  {
    match req
    case ListAll => t
    case Create(body) => CreatePoi(t, body, h).0
    case Delete(id) => DeletePoi(t, id, h).0
  }

  /** A deleted id is never handed out again. */
  lemma DeletedNeverReturns(t: Table, id: int, calls: seq<(Request, Health)>)
    requires id in t.pois
    ensures id !in Run(DeletePoi(t, id, Healthy).0, calls, Step).pois
  {
    AbsentStaysAbsent(DeletePoi(t, id, Healthy).0, id, calls, Step);
  }

  /** A sequence of requests all met by faults leaves the table untouched:
      nothing is caught, but the failing statement changed nothing. */
  lemma FaultsChangeNothing(t: Table, calls: seq<(Request, Health)>)
    requires forall i :: 0 <= i < |calls| ==> calls[i].1.Failing?
    ensures Run(t, calls, Step) == t
  {
    Store.FaultsChangeNothing(t, calls, Step);
  }
}
