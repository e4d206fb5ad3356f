/** The latitude/longitude rectangle drawn around a centre point, shared by
    simulation/Environment.py (`_calculate_bounds`) and
    ARCHIVE-simulation/environment.py (`calculate_bounds`).

    Angles are real numbers; `cosLat` is the cosine of the centre latitude,
    which the caller supplies. */
module GeoBounds {

  /** The tuple `(min_lat, max_lat, min_lon, max_lon)`. */
  datatype Bounds = Bounds(minLat: real, maxLat: real, minLon: real, maxLon: real)

  /** `lat ± margin / factor` and `lon ± margin / (factor · cos lat)`, where
      `factor` converts the margin's distance unit into degrees of latitude. */
  function Around(lat: real, lon: real, margin: real, factor: real, cosLat: real): (b: Bounds)
    requires factor != 0.0 && 0.0 < cosLat <= 1.0
    ensures b.minLat + b.maxLat == 2.0 * lat && b.minLon + b.maxLon == 2.0 * lon
    ensures (b.maxLat - b.minLat) * factor == 2.0 * margin
    ensures (b.maxLon - b.minLon) * factor * cosLat == 2.0 * margin
  {
    var latMargin := margin / factor;
    var lonMargin := margin / (factor * cosLat);
    Bounds(lat - latMargin, lat + latMargin, lon - lonMargin, lon + lonMargin)
  }

  /** The closed rectangle: edges belong to it. */
  predicate Contains(b: Bounds, lat: real, lon: real)
  {
    b.minLat <= lat <= b.maxLat && b.minLon <= lon <= b.maxLon
  }

  /** Strictly inside the rectangle, off every edge. */
  predicate Interior(b: Bounds, lat: real, lon: real)
  {
    b.minLat < lat < b.maxLat && b.minLon < lon < b.maxLon
  }

  /** With a positive margin and factor the centre lies strictly inside, and
      the longitude half-width is at least the latitude half-width, widened by
      1 / cos(lat). */
  lemma CentreInside(lat: real, lon: real, margin: real, factor: real, cosLat: real)
    requires factor > 0.0 && 0.0 < cosLat <= 1.0 && margin > 0.0
    ensures Interior(Around(lat, lon, margin, factor, cosLat), lat, lon)
    ensures var b := Around(lat, lon, margin, factor, cosLat);
      b.maxLon - b.minLon >= b.maxLat - b.minLat
  {
    var b := Around(lat, lon, margin, factor, cosLat);
    HalfWidthsOrdered(margin, factor, cosLat);
  }

  lemma HalfWidthsOrdered(margin: real, factor: real, cosLat: real)
    requires factor > 0.0 && 0.0 < cosLat <= 1.0 && margin > 0.0
    ensures 0.0 < margin / factor <= margin / (factor * cosLat)
  {
    var x := margin / factor;
    var y := margin / (factor * cosLat);
    assert x * factor == margin;
    assert y * (factor * cosLat) == margin;
    assert (y * cosLat) * factor == x * factor;
    assert y * cosLat == x;
    assert y > 0.0;
    assert y * cosLat <= y * 1.0;
  }

  /** A larger margin gives a rectangle that strictly contains the smaller
      one's on every side. */
  lemma GrowsWithMargin(lat: real, lon: real, m1: real, m2: real, factor: real, cosLat: real)
    requires factor > 0.0 && 0.0 < cosLat <= 1.0 && m1 < m2
    ensures var b1 := Around(lat, lon, m1, factor, cosLat);
      var b2 := Around(lat, lon, m2, factor, cosLat);
      b2.minLat < b1.minLat && b1.maxLat < b2.maxLat
      && b2.minLon < b1.minLon && b1.maxLon < b2.maxLon
  {
    var b1 := Around(lat, lon, m1, factor, cosLat);
    var b2 := Around(lat, lon, m2, factor, cosLat);
    assert (b2.maxLat - b2.minLat - (b1.maxLat - b1.minLat)) * factor == 2.0 * (m2 - m1);
    assert (b2.maxLon - b2.minLon - (b1.maxLon - b1.minLon)) * (factor * cosLat) == 2.0 * (m2 - m1);
  }
}
