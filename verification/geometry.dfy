/** The PostGIS point constructor and accessors, and the axis-order contract
    built on them: the wire speaks (latitude, longitude), the geometry stores
    (x = longitude, y = latitude). */
module Geometry {

  /** A two-component geometry point, components in storage order. */
  datatype Point<C> = Point(x: C, y: C)

  /** `ST_MakePoint(x, y)`: the first argument becomes x. */
  function MakePoint<C>(x: C, y: C): Point<C> {
    Point(x, y)
  }

  /** `ST_X(p)`. */
  function StX<C>(p: Point<C>): C {
    p.x
  }

  /** `ST_Y(p)`. */
  function StY<C>(p: Point<C>): C {
    p.y
  }

  /** The intended encoding of a wire pair into a stored point. */
  function Encode<C>(lat: C, lng: C): Point<C> {
    MakePoint(lng, lat)
  }

  /** Reading the latitude back: the y axis. */
  function DecodeLat<C>(p: Point<C>): C {
    StY(p)
  }

  /** Reading the longitude back: the x axis. */
  function DecodeLng<C>(p: Point<C>): C {
    StX(p)
  }

  /** Decoding an encoded pair gives back the same pair. */
  lemma RoundTrip<C>(lat: C, lng: C)
    ensures DecodeLat(Encode(lat, lng)) == lat
    ensures DecodeLng(Encode(lat, lng)) == lng
  {
  }

  /** Every stored point is the encoding of its decoded pair, so decoding
      loses nothing. */
  lemma EncodeDecode<C>(p: Point<C>)
    ensures Encode(DecodeLat(p), DecodeLng(p)) == p
  {
  }

  /** A pair whose components differ is never read back swapped. */
  lemma NeverSwapped<C>(lat: C, lng: C)
    requires lat != lng
    ensures DecodeLat(Encode(lat, lng)) != lng
    ensures DecodeLng(Encode(lat, lng)) != lat
  {
  }
}
