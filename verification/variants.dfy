/** The two backends side by side, over the same table. */
module Variants {
  import opened Json
  import opened Store
  import opened Http
  import NodeServer
  import PyMain

  /** Both deletes leave the same table; they answer alike exactly when the
      id was present (204), and differ (204 against 404) when it was not. */
  lemma DeleteVariants(t: Table, id: int)
    ensures NodeServer.DeletePoi(t, id, Healthy).0 == PyMain.DeletePoi(t, id, Healthy).0
    ensures NodeServer.DeletePoi(t, id, Healthy).1 == PyMain.DeletePoi(t, id, Healthy).1 <==> id in t.pois
  {
  }

  /** A body both guards accept (non-empty strings and numbers) is stored
      identically by the two inserts, though one binds `lat, lng` and the
      other `lng, lat`. */
  lemma CreateVariantsAgree(t: Table, body: PoiBody)
    requires body.name.Str? && |body.name.s| > 0
    requires body.description.Str? && |body.description.s| > 0
    requires body.lat.Num? && body.lng.Num?
    ensures NodeServer.CreatePoi(t, body, Healthy) == PyMain.CreatePoi(t, body, Healthy)
  {
  }

  /** The guards differ on an empty name or description: the Express
      backend treats it as missing, the `POI` model accepts it. */
  lemma EmptyNameVariants(t: Table)
    ensures NodeServer.CreatePoi(t, PoiBody(Str(""), Str("d"), Num(1.0), Num(2.0)), Healthy).1.status == 400
    ensures PyMain.CreatePoi(t, PoiBody(Str(""), Str("d"), Num(1.0), Num(2.0)), Healthy).1.status == 201
  {
  }

  /** On an empty-string coordinate they differ the other way round. It passes
      the Express guard, so the insert is attempted. The model does not derive
      that the insert fails: if PostgreSQL's cast of '' to a float raises, as
      it does, that fault is the `Failing` argument, and the answer is 500 with
      no change. The `POI` model refuses the body (422) whatever the database
      does. */
  lemma EmptyCoordinateVariants(t: Table, m: string, h: Health)
    ensures !NodeServer.MissingRequired(PoiBody(Str("n"), Str("d"), Str(""), Num(2.0)))
    ensures NodeServer.CreatePoi(t, PoiBody(Str("n"), Str("d"), Str(""), Num(2.0)), Failing(m))
      == (t, Response(500, FlagMessage(false, "Database insert error")))
    ensures PyMain.CreatePoi(t, PoiBody(Str("n"), Str("d"), Str(""), Num(2.0)), h)
      == (t, Response(422, ValidationErrors))
  {
  }
}
