/** The coordinate projector and the zoom control of the map feature. */
module Projection {
  import opened FleetModel

  /** A point of the display plane, in percent of the map's height and width. */
  datatype Pos = Pos(top: real, left: real)

  /** Clamps a display coordinate into [0, 100]. */
  function Clamp(y: real): (r: real)
    ensures 0.0 <= r <= 100.0
    ensures 0.0 <= y <= 100.0 ==> r == y
    ensures y < 0.0 ==> r == 0.0
    ensures y > 100.0 ==> r == 100.0
  {
    if y > 100.0 then 100.0 else if y < 0.0 then 0.0 else y
  }

  /** Unclamped projection: north edge at top 0, west edge at left 0. */
  function RawTop(lat: real): real {
    (MaxLat - lat) / (MaxLat - MinLat) * 100.0
  }

  function RawLeft(lng: real): real {
    (lng - MinLng) / (MaxLng - MinLng) * 100.0
  }

  /** Maps a geographic point into the 0..100 display plane, clamped at the box edges. */
  function GetPos(lat: real, lng: real): (p: Pos)
    ensures 0.0 <= p.top <= 100.0 && 0.0 <= p.left <= 100.0
    ensures lat >= MaxLat ==> p.top == 0.0
    ensures lat <= MinLat ==> p.top == 100.0
    ensures lng <= MinLng ==> p.left == 0.0
    ensures lng >= MaxLng ==> p.left == 100.0
  {
    Pos(Clamp(RawTop(lat)), Clamp(RawLeft(lng)))
  }

  /** Inverse of the projection on the display plane. */
  function Unproject(p: Pos): (real, real) {
    (MaxLat - p.top / 100.0 * (MaxLat - MinLat), MinLng + p.left / 100.0 * (MaxLng - MinLng))
  }

  /** Inside the bounding box no clamping happens, so the projection is invertible. */
  lemma ProjectionRoundTrip(lat: real, lng: real)
    requires MinLat <= lat <= MaxLat && MinLng <= lng <= MaxLng
    ensures Unproject(GetPos(lat, lng)) == (lat, lng)
  {
    assert 0.0 <= RawTop(lat) <= 100.0;
    assert 0.0 <= RawLeft(lng) <= 100.0;
  }

  /** Every display point comes from exactly one point of the box. */
  lemma UnprojectRoundTrip(p: Pos)
    requires 0.0 <= p.top <= 100.0 && 0.0 <= p.left <= 100.0
    ensures var (lat, lng) := Unproject(p);
            MinLat <= lat <= MaxLat && MinLng <= lng <= MaxLng && GetPos(lat, lng) == p
  {
    var (lat, lng) := Unproject(p);
    assert RawTop(lat) == p.top;
    assert RawLeft(lng) == p.left;
  }

  /** The north-west and south-east corners of the box project to (0, 0) and
      (100, 100), and its centre to (50, 50). */
  lemma ProjectionCorners()
    ensures GetPos(13.50, 100.80) == Pos(0.0, 0.0)
    ensures GetPos(12.80, 101.20) == Pos(100.0, 100.0)
    ensures GetPos(13.15, 101.00) == Pos(50.0, 50.0)
  {
  }

  /** Moving north never moves a marker down, moving east never moves it left. */
  lemma ProjectionMonotone(lat1: real, lng1: real, lat2: real, lng2: real)
    requires lat1 <= lat2 && lng1 <= lng2
    ensures GetPos(lat1, lng1).top >= GetPos(lat2, lng2).top
    ensures GetPos(lat1, lng1).left <= GetPos(lat2, lng2).left
  {
  }

  datatype ZoomDir = In | Out

  const MinZoom: real := 1.0
  const MaxZoom: real := 4.0
  const ZoomStep: real := 0.4

  /** The zoom buttons: one step in or out, clamped to [1, 4]. */
  function HandleZoom(prev: real, dir: ZoomDir): (z: real)
    ensures MinZoom <= z <= MaxZoom
    ensures dir == In && prev + ZoomStep <= MaxZoom ==> z >= prev
    ensures dir == Out && prev - ZoomStep >= MinZoom ==> z <= prev
    ensures var next := if dir == In then prev + ZoomStep else prev - ZoomStep;
            MinZoom <= next <= MaxZoom ==> z == next
    ensures prev + ZoomStep >= MaxZoom && dir == In ==> z == MaxZoom
    ensures prev - ZoomStep <= MinZoom && dir == Out ==> z == MinZoom
  {
    var next := if dir == In then prev + ZoomStep else prev - ZoomStep;
    if next > MaxZoom then MaxZoom else if next < MinZoom then MinZoom else next
  }

  /** Zooming in and back out is the identity wherever neither step is clamped. */
  lemma ZoomInOutRoundTrip(z: real)
    requires MinZoom <= z <= MaxZoom - ZoomStep
    ensures HandleZoom(HandleZoom(z, In), Out) == z
  {
  }
}
