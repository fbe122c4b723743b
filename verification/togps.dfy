/** Correction of GCJ-02 (obfuscated) coordinates back to WGS-84 (World
    Geodetic System 1984).  The trigonometric drift of the obfuscation is not
    expressible here, so it is a parameter: `drift(x, y)` gives the
    (longitude, latitude) offset, in degrees, that the obfuscation adds at the
    point whose shifted coordinates are x = lon - 105 and y = lat - 35. */
module ToGps {
  import opened Records

  type Drift = (real, real) -> (real, real)

  /** The territory box of the obfuscation, boundaries included. */
  predicate InTerritory(lon: real, lat: real) {
    72.004 <= lon <= 137.8347 && 0.8293 <= lat <= 55.8271
  }

  /** The bounding-box guard: longitude checked first, then latitude. */
  function OutOfChina(lon: real, lat: real): (r: bool)
    ensures r <==> !InTerritory(lon, lat)
  {
    if lon < 72.004 || lon > 137.8347 then true
    else if lat < 0.8293 || lat > 55.8271 then true
    else false
  }

  /** One-step inverse of the obfuscation: estimate the offset at the given
      point and take it away, written as 2*x - (x + delta). */
  function Gcj02ToWgs84(drift: Drift, lon: real, lat: real): (r: (real, real))
    ensures !InTerritory(lon, lat) ==> r == (lon, lat)
    ensures InTerritory(lon, lat) ==>
      r == (lon - drift(lon - 105.0, lat - 35.0).0, lat - drift(lon - 105.0, lat - 35.0).1)
  {
    if OutOfChina(lon, lat) then (lon, lat)
    else
      var (dLon, dLat) := drift(lon - 105.0, lat - 35.0);
      var mgLat := lat + dLat;
      var mgLon := lon + dLon;
      (lon * 2.0 - mgLon, lat * 2.0 - mgLat)
  }

  /** The forward obfuscation (WGS-84 to GCJ-02) the correction undoes: add
      the drift inside the territory, leave the point alone outside. */
  ghost function Wgs84ToGcj02(drift: Drift, lon: real, lat: real): (real, real) {
    if !InTerritory(lon, lat) then (lon, lat)
    else (lon + drift(lon - 105.0, lat - 35.0).0, lat + drift(lon - 105.0, lat - 35.0).1)
  }

  /** The correction is an exact inverse wherever the drift does not change
      between the obfuscated point and its correction (and the corrected
      point is still inside the territory); otherwise it is an approximation. */
  lemma CorrectionInvertsObfuscation(drift: Drift, lon: real, lat: real)
    requires InTerritory(lon, lat)
    requires var (cLon, cLat) := Gcj02ToWgs84(drift, lon, lat);
      InTerritory(cLon, cLat) && drift(cLon - 105.0, cLat - 35.0) == drift(lon - 105.0, lat - 35.0)
    ensures Wgs84ToGcj02(drift, Gcj02ToWgs84(drift, lon, lat).0, Gcj02ToWgs84(drift, lon, lat).1) == (lon, lat)
  {
    var (cLon, cLat) := Gcj02ToWgs84(drift, lon, lat);
    var d := drift(lon - 105.0, lat - 35.0);
    assert (cLon, cLat) == (lon - d.0, lat - d.1);
  }

  /** Outside the territory the correction is the identity, for every drift. */
  lemma OutsideIsFixed(drift: Drift)
    ensures Gcj02ToWgs84(drift, 200.0, 60.0) == (200.0, 60.0)
    ensures Wgs84ToGcj02(drift, 200.0, 60.0) == (200.0, 60.0)
  {
  }

  /** The corners of the box belong to the territory. */
  lemma BoundaryIsInside()
    ensures !OutOfChina(72.004, 0.8293) && !OutOfChina(137.8347, 55.8271)
    ensures OutOfChina(72.0039, 30.0) && OutOfChina(100.0, 55.8272)
  {
  }

  datatype FormatError = InvalidCoordFormat

  /** One element of a batch: with latitude first, swap into (lon, lat),
      convert, and swap back. */
  function ConvertPair(drift: Drift, p: (real, real), latFirst: bool): (real, real) {
    if latFirst then
      var (lon, lat) := Gcj02ToWgs84(drift, p.1, p.0);
      (lat, lon)
    else Gcj02ToWgs84(drift, p.0, p.1)
  }

  function ConvertAll(drift: Drift, coords: seq<(real, real)>, latFirst: bool): (r: seq<(real, real)>)
    ensures |r| == |coords|
    ensures forall i | 0 <= i < |coords| :: r[i] == ConvertPair(drift, coords[i], latFirst)
  {
    if coords == [] then []
    else [ConvertPair(drift, coords[0], latFirst)] + ConvertAll(drift, coords[1..], latFirst)
  }

  /** Batch conversion; the declared element order is "lon_lat" or "lat_lon"
      and is kept on output; any other declaration is an error. */
  function BatchGcj02ToWgs84(drift: Drift, coords: seq<(real, real)>, coordFormat: string)
    : (r: Result<seq<(real, real)>, FormatError>)
    ensures r.Err? <==> coordFormat != "lon_lat" && coordFormat != "lat_lon"
    ensures r.Ok? ==> |r.value| == |coords|
    ensures coordFormat == "lon_lat" ==>
      forall i | 0 <= i < |coords| :: r.value[i] == Gcj02ToWgs84(drift, coords[i].0, coords[i].1)
    ensures coordFormat == "lat_lon" ==>
      forall i | 0 <= i < |coords| ::
        r.value[i] == (Gcj02ToWgs84(drift, coords[i].1, coords[i].0).1, Gcj02ToWgs84(drift, coords[i].1, coords[i].0).0)
  {
    if coordFormat == "lon_lat" then Ok(ConvertAll(drift, coords, false))
    else if coordFormat == "lat_lon" then Ok(ConvertAll(drift, coords, true))
    else Err(InvalidCoordFormat)
  }

  function Swap(p: (real, real)): (real, real) { (p.1, p.0) }

  function SwapAll(coords: seq<(real, real)>): (r: seq<(real, real)>)
    ensures |r| == |coords| && forall i | 0 <= i < |coords| :: r[i] == Swap(coords[i])
  {
    seq(|coords|, i requires 0 <= i < |coords| => Swap(coords[i]))
  }

  /** The two orders agree: converting latitude-first input is converting the
      swapped input longitude-first and swapping the results back. */
  lemma LatLonIsSwappedLonLat(drift: Drift, coords: seq<(real, real)>)
    ensures BatchGcj02ToWgs84(drift, coords, "lat_lon").Ok?
    ensures BatchGcj02ToWgs84(drift, SwapAll(coords), "lon_lat").Ok?
    ensures BatchGcj02ToWgs84(drift, coords, "lat_lon").value
         == SwapAll(BatchGcj02ToWgs84(drift, SwapAll(coords), "lon_lat").value)
  {
    var a := BatchGcj02ToWgs84(drift, coords, "lat_lon").value;
    var b := SwapAll(BatchGcj02ToWgs84(drift, SwapAll(coords), "lon_lat").value);
    assert |a| == |b|;
    forall i | 0 <= i < |a| ensures a[i] == b[i] {
      assert SwapAll(coords)[i] == (coords[i].1, coords[i].0);
    }
  }
}
