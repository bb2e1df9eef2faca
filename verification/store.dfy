/** The `pois` table as the two backends use it: a map from id to record,
    with the statements the handlers issue (INSERT, SELECT, UPDATE ... WHERE
    id, DELETE ... WHERE id). Each statement is atomic: it either fails and
    changes nothing, or runs to completion. */
module Store {
  import opened Json
  import opened Geometry

  /** One stored row: the bound parameter values and the point built from them. */
  datatype Poi = Poi(name: Value, description: Value, location: Point<Value>)

  /** One row of `SELECT id, name, description, ST_Y(location), ST_X(location)`. */
  datatype Row = Row(id: int, name: Value, description: Value, lat: Value, lng: Value)

  /** Whether the database answers a statement or raises. The fault's text is
      what the driver reports as the error message. */
  datatype Health = Healthy | Failing(message: string)

  /** What a statement yields: its result, or the fault it raised. */
  datatype Exec<+T> = Done(value: T) | Failed(message: string)

  datatype Db = Db(pois: map<int, Poi>, nextId: int)

  /** The serial id column: every id in use lies below the next one the
      sequence will hand out. */
  predicate Sound(d: Db) {
    forall id :: id in d.pois ==> id < d.nextId
  }

  type Table = d: Db | Sound(d) witness Db(map[], 1)

  /** A fresh table; the serial sequence starts at 1. */
  const Empty: Table := Db(map[], 1)

  /** The projection both backends select: y is read as the latitude, x as
      the longitude. */
  function Project(id: int, p: Poi): Row {
    Row(id, p.name, p.description, StY(p.location), StX(p.location))
  }

  /** The value bound to placeholder number `n` (`$n`, or the n-th `%s`),
      counted from 1. */
  function Param(params: seq<Value>, n: nat): Value
    requires 1 <= n <= |params|
  {
    params[n - 1]
  }

  /** `ST_SetSRID(ST_MakePoint(x, y), 4326)` as SQL evaluates it. Both
      functions are strict: a NULL argument gives a NULL geometry, whose
      `ST_X` and `ST_Y` are NULL as well. The NULL geometry is represented
      by the point with two NULL components. */
  function SqlPoint(x: Value, y: Value): (p: Point<Value>)
    ensures x.Null? || y.Null? ==> StX(p).Null? && StY(p).Null?
    ensures !x.Null? && !y.Null? ==> StX(p) == x && StY(p) == y
  {
    if x.Null? || y.Null? then MakePoint(Null, Null) else MakePoint(x, y)
  }

  /** Ids only ever appear fresh: the sequence never goes back, and any id
      present in `after` but not in `before` was never handed out before. */
  predicate Grows(before: Table, after: Table) {
    && before.nextId <= after.nextId
    && forall id :: id in after.pois && id !in before.pois ==> before.nextId <= id
  }

  lemma GrowsTransitive(a: Table, b: Table, c: Table)
    requires Grows(a, b) && Grows(b, c)
    ensures Grows(a, c)
  {
  }

  /** `INSERT INTO pois (name, description, location) VALUES (...)`: the
      database assigns the next serial id. */
  function Insert(t: Table, h: Health, name: Value, description: Value, location: Point<Value>): (r: Exec<Table>)
    ensures r.Failed? <==> h.Failing?
    ensures r.Failed? ==> r.message == h.message
    ensures r.Done? ==> Grows(t, r.value)
    ensures r.Done? ==>
      && t.nextId !in t.pois
      && r.value.pois.Keys == t.pois.Keys + {t.nextId}
      && |r.value.pois| == |t.pois| + 1
      && r.value.pois[t.nextId] == Poi(name, description, location)
      && forall id :: id in t.pois ==> r.value.pois[id] == t.pois[id]
  {
    match h
    case Failing(m) => Failed(m)
    case Healthy =>
      Done(Db(t.pois[t.nextId := Poi(name, description, location)], t.nextId + 1))
  }

  /** `SELECT ... FROM pois WHERE id = $1`: the id column is unique, so at
      most one row. */
  function SelectWhereId(t: Table, h: Health, id: int): (r: Exec<seq<Row>>)
    ensures r.Failed? <==> h.Failing?
    ensures r.Done? ==> |r.value| <= 1
    ensures r.Done? ==> (|r.value| == 0 <==> id !in t.pois)
    ensures r.Done? && id in t.pois ==> r.value[0] == Project(id, t.pois[id])
  {
    match h
    case Failing(m) => Failed(m)
    case Healthy =>
      if id in t.pois then Done([Project(id, t.pois[id])]) else Done([])
  }

  /** `UPDATE pois SET name, description, location WHERE id = ...`, with the
      affected-row count the driver reports. */
  function UpdateWhereId(t: Table, h: Health, id: int, name: Value, description: Value, location: Point<Value>): (r: Exec<(Table, nat)>)
    ensures r.Failed? <==> h.Failing?
    ensures r.Done? ==> (r.value.1 == 0 <==> id !in t.pois) && r.value.1 <= 1
    ensures r.Done? ==> Grows(t, r.value.0) && r.value.0.nextId == t.nextId
    ensures r.Done? ==> r.value.0.pois.Keys == t.pois.Keys
    ensures r.Done? ==> forall k :: k in t.pois && k != id ==> r.value.0.pois[k] == t.pois[k]
    ensures r.Done? && id in t.pois ==> r.value.0.pois[id] == Poi(name, description, location)
  {
    match h
    case Failing(m) => Failed(m)
    case Healthy =>
      if id in t.pois then
        Done((Db(t.pois[id := Poi(name, description, location)], t.nextId), 1))
      else
        Done((t, 0))
  }

  /** `DELETE FROM pois WHERE id = ...`, with the affected-row count. */
  function DeleteWhereId(t: Table, h: Health, id: int): (r: Exec<(Table, nat)>)
    ensures r.Failed? <==> h.Failing?
    ensures r.Failed? ==> r.message == h.message
    ensures r.Done? ==> (r.value.1 == 0 <==> id !in t.pois) && r.value.1 <= 1
    ensures r.Done? ==> Grows(t, r.value.0) && r.value.0.nextId == t.nextId
    ensures r.Done? ==> r.value.0.pois.Keys == t.pois.Keys - {id}
    ensures r.Done? ==> forall k :: k in r.value.0.pois ==> r.value.0.pois[k] == t.pois[k]
  {
    match h
    case Failing(m) => Failed(m)
    case Healthy =>
      if id in t.pois then Done((Db(t.pois - {id}, t.nextId), 1)) else Done((t, 0))
  }

  /** A non-empty id set has a member to visit next. */
  lemma HasMember(s: set<int>)
    requires s != {}
    ensures exists k :: k in s
  {
    if forall k :: k !in s {
      assert false;
    }
  }

  /** `rows` lists the table: one row per stored record, each the projection
      of its record, no id twice. The order is whatever the database picks. */
  predicate Lists(t: Table, rows: seq<Row>) {
    && |rows| == |t.pois|
    && (forall i :: 0 <= i < |rows| ==> rows[i].id in t.pois && rows[i] == Project(rows[i].id, t.pois[rows[i].id]))
    && (forall i, j :: 0 <= i < j < |rows| ==> rows[i].id != rows[j].id)
    && (forall id :: id in t.pois ==> exists i :: 0 <= i < |rows| && rows[i].id == id)
  }

  /** A record an insert added under a fresh id shows up in every listing of
      the new table, which has one row more than the old one. */
  lemma {:induction false} InsertedIsListed(t: Table, t': Table, id: int, p: Poi, rows: seq<Row>)
    requires id !in t.pois && t'.pois.Keys == t.pois.Keys + {id} && t'.pois[id] == p
    requires Lists(t', rows)
    ensures |rows| == |t.pois| + 1
    ensures exists i :: 0 <= i < |rows| && rows[i] == Project(id, p)
  {
    assert |t'.pois.Keys| == |t.pois.Keys| + 1;
    assert id in t'.pois;
    var i :| 0 <= i < |rows| && rows[i].id == id;
    assert rows[i] == Project(id, t'.pois[id]);
  }

  /** The table after a sequence of requests, each handled by `step` and met
      by the given database behaviour. */
  function Run<R>(t: Table, calls: seq<(R, Health)>, step: (Table, R, Health) -> Table): Table
    decreases |calls|
  {
    if |calls| == 0 then t else Run(step(t, calls[0].0, calls[0].1), calls[1..], step)
  }

  /** When every request only adds fresh ids, so does any sequence of them. */
  lemma {:induction false} RunGrows<R>(t: Table, calls: seq<(R, Health)>, step: (Table, R, Health) -> Table)
    requires forall u: Table, r: R, h: Health :: Grows(u, step(u, r, h))
    ensures Grows(t, Run(t, calls, step))
    decreases |calls|
  {
    if |calls| > 0 {
      var t1 := step(t, calls[0].0, calls[0].1);
      RunGrows(t1, calls[1..], step);
      GrowsTransitive(t, t1, Run(t1, calls[1..], step));
    }
  }

  /** An id that was handed out and is gone stays gone: no later sequence of
      requests that only adds fresh ids brings it back. */
  lemma AbsentStaysAbsent<R>(t: Table, id: int, calls: seq<(R, Health)>, step: (Table, R, Health) -> Table)
    requires forall u: Table, r: R, h: Health :: Grows(u, step(u, r, h))
    requires id !in t.pois && id < t.nextId
    ensures id !in Run(t, calls, step).pois
  {
    RunGrows(t, calls, step);
  }

  /** When a failing statement changes nothing, a sequence of requests all met
      by faults leaves the table as it was. */
  lemma {:induction false} FaultsChangeNothing<R>(t: Table, calls: seq<(R, Health)>, step: (Table, R, Health) -> Table)
    requires forall u: Table, r: R, m: string :: step(u, r, Failing(m)) == u
    requires forall i :: 0 <= i < |calls| ==> calls[i].1.Failing?
    ensures Run(t, calls, step) == t
    decreases |calls|
  {
    if |calls| > 0 {
      assert step(t, calls[0].0, calls[0].1) == t;
      FaultsChangeNothing(t, calls[1..], step);
    }
  }

  /** `SELECT id, name, description, ST_Y(location), ST_X(location) FROM pois`
      without ORDER BY: the rows come back in an order the caller cannot rely
      on, which the nondeterministic choice of the next id stands for. */
  method SelectAll(t: Table, h: Health) returns (r: Exec<seq<Row>>)
    ensures r.Failed? <==> h.Failing?
    ensures r.Done? ==> Lists(t, r.value)
  {
    if h.Failing? {
      return Failed(h.message);
    }
    var rows: seq<Row> := [];
    var left := t.pois.Keys;
    while left != {}
      invariant left <= t.pois.Keys
      invariant |rows| + |left| == |t.pois|
      invariant forall i :: 0 <= i < |rows| ==> rows[i].id in t.pois && rows[i].id !in left && rows[i] == Project(rows[i].id, t.pois[rows[i].id])
      invariant forall i, j :: 0 <= i < j < |rows| ==> rows[i].id != rows[j].id
      invariant forall id :: id in t.pois && id !in left ==> exists i :: 0 <= i < |rows| && rows[i].id == id
      decreases |left|
    {
      HasMember(left);
      var id :| id in left;
      ghost var before := rows;
      rows := rows + [Project(id, t.pois[id])];
      left := left - {id};
      assert rows[|rows| - 1].id == id;
      assert forall i :: 0 <= i < |before| ==> rows[i] == before[i];
    }
    return Done(rows);
  }
}
