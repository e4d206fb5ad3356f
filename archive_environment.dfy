/** The earlier coastline environment of ARCHIVE-simulation/environment.py:
    a bounds rectangle of `margin_miles` around the centre at 69 miles per
    degree of latitude, and a collision test against coastline points.

    The coastlines that `load_coastlines` fetches over the network are passed
    to the constructor. */
module ArchiveEnvironment {
  import opened GeoBounds

  /** Miles per degree of latitude. */
  const MilesPerDegree: real := 69.0

  /** `calculate_bounds`: the rectangle of `margin` miles about the centre,
      `lat ± margin / 69` and `lon ± margin / (69 · cos lat)`. */
  function CalculateBounds(lat: real, lon: real, margin: real, cosLat: real): (b: Bounds)
    requires 0.0 < cosLat <= 1.0
    ensures b.minLat + b.maxLat == 2.0 * lat && b.minLon + b.maxLon == 2.0 * lon
    ensures (b.maxLat - b.minLat) * MilesPerDegree == 2.0 * margin
    ensures (b.maxLon - b.minLon) * MilesPerDegree * cosLat == 2.0 * margin
  {
    Around(lat, lon, margin, MilesPerDegree, cosLat)
  }

  /** With a positive margin the centre lies strictly inside the bounds, and
      the bounds widen as the margin grows. */
  lemma CentreInsideArchiveBounds(lat: real, lon: real, m1: real, m2: real, cosLat: real)
    requires 0.0 < cosLat <= 1.0 && 0.0 < m1 < m2
    ensures Interior(CalculateBounds(lat, lon, m1, cosLat), lat, lon)
    ensures var b1 := CalculateBounds(lat, lon, m1, cosLat);
      var b2 := CalculateBounds(lat, lon, m2, cosLat);
      b2.minLat < b1.minLat && b1.maxLat < b2.maxLat && b2.minLon < b1.minLon && b1.maxLon < b2.maxLon
  {
    CentreInside(lat, lon, m1, MilesPerDegree, cosLat);
    GrowsWithMargin(lat, lon, m1, m2, MilesPerDegree, cosLat);
  }

  function Abs(v: real): real
  {
    if v < 0.0 then -v else v
  }

  /** The point (x, y) lies in the open 10 × 10 box around the coastline
      point `p`: strictly less than 5 units away on both axes. */
  predicate Near(x: real, y: real, p: (real, real))
  {
    Abs(x - p.0) < 5.0 && Abs(y - p.1) < 5.0
  }

  /** A point exactly 5 units away on either axis is outside the box. */
  lemma FiveUnitsIsClear(x: real, y: real, p: (real, real))
    requires Abs(x - p.0) == 5.0 || Abs(y - p.1) == 5.0
    ensures !Near(x, y, p)
  {
  }

  class Environment {
    const width: int
    const height: int
    const marginMiles: real
    const bounds: Bounds
    var coastlines: seq<seq<(real, real)>>

    /** `__init__`: stores the size and margin, computes the bounds and keeps
        the coastlines loaded for them. */
    constructor (lat: real, lon: real, width: int, height: int, cosLat: real,
                 coastlines: seq<seq<(real, real)>>, marginMiles: real := 5.0)
      requires 0.0 < cosLat <= 1.0
      ensures this.width == width && this.height == height && this.marginMiles == marginMiles
      ensures bounds == CalculateBounds(lat, lon, marginMiles, cosLat)
      ensures this.coastlines == coastlines
    {
      this.width := width;
      this.height := height;
      this.marginMiles := marginMiles;
      bounds := CalculateBounds(lat, lon, marginMiles, cosLat);
      this.coastlines := coastlines;
    }

    /** `is_collision`: scans the segments and their points in order and
        stops at the first point whose box holds (x, y). With no coastline
        points there is no collision. */
    method IsCollision(x: real, y: real) returns (hit: bool)
      ensures hit <==> exists i, j :: 0 <= i < |coastlines| && 0 <= j < |coastlines[i]|
                                      && Near(x, y, coastlines[i][j])
    {
      var i := 0;
      while i < |coastlines|
        invariant 0 <= i <= |coastlines|
        invariant forall k, j :: 0 <= k < i && 0 <= j < |coastlines[k]| ==> !Near(x, y, coastlines[k][j])
      {
        var segment := coastlines[i];
        var j := 0;
        while j < |segment|
          invariant 0 <= j <= |segment|
          invariant forall m :: 0 <= m < j ==> !Near(x, y, segment[m])
        {
          var (sx, sy) := segment[j];
          if Abs(x - sx) < 5.0 && Abs(y - sy) < 5.0 {
            return true;
          }
          j := j + 1;
        }
        i := i + 1;
      }
      return false;
    }
  }
}
