/** Grounding and shoreline logic of tests/LocalGebco.py over a GEBCO
    elevation grid.

    The elevation grid is indexed `[row, column]` (`[y, x]`), as numpy indexes
    `elevation_data`; a pygame surface is indexed `[x, y]`, with
    `Length0` its width and `Length1` its height. A cell is dry for a draft
    when its elevation is at least `-draft`. */
module LocalGebco {

  datatype Color = Rgb(red: int, green: int, blue: int)

  /** The colours `create_surface` gives water and land. */
  const Water: Color := Rgb(0, 128, 255)
  const Land: Color := Rgb(240, 226, 182)

  /** The elevation at column `x`, row `y` is at least `-draft`: too shallow
      for the ship. */
  predicate Dry(elev: array2<int>, x: int, y: int, draft: real)
    reads elev
    requires 0 <= y < elev.Length0 && 0 <= x < elev.Length1
  {
    elev[y, x] as real >= -draft
  }

  /** `check_collision` as written: the column guard is `0 <= x`, but the row
      guard is `0 < y`, so row 0 is never examined. */
  function CheckCollision(x: int, y: int, elev: array2<int>, draft: real): (grounded: bool)
    reads elev
    ensures grounded <==> 0 <= x < elev.Length1 && 0 < y < elev.Length0 && Dry(elev, x, y, draft)
  {
    if 0 <= x < elev.Length1 && 0 < y < elev.Length0 then elev[y, x] as real >= -draft
    else false
  }

  /** `check_collision` with the row guard the column guard suggests: every
      cell of the grid is examined. */
  function CheckGrounding(x: int, y: int, elev: array2<int>, draft: real): (grounded: bool)
    reads elev
    ensures grounded <==> 0 <= x < elev.Length1 && 0 <= y < elev.Length0 && Dry(elev, x, y, draft)
  {
    if 0 <= x < elev.Length1 && 0 <= y < elev.Length0 then elev[y, x] as real >= -draft
    else false
  }

  /** A dry cell in row 0 is missed by `check_collision` as written and
      reported by the corrected check. */
  lemma RowZeroMissed(x: int, elev: array2<int>, draft: real)
    requires 0 <= x < elev.Length1 && 0 < elev.Length0 && Dry(elev, x, 0, draft)
    ensures !CheckCollision(x, 0, elev, draft)
    ensures CheckGrounding(x, 0, elev, draft)
  {
  }

  /** Off row 0 the two checks agree. */
  lemma ChecksAgreeOffRowZero(x: int, y: int, elev: array2<int>, draft: real)
    requires y != 0
    ensures CheckCollision(x, y, elev, draft) == CheckGrounding(x, y, elev, draft)
  {
  }

  /** Grounding is monotone in the draft, for the check as written and the
      corrected one: a ship grounded at one draft is grounded at every deeper
      draft. */
  lemma GroundingMonotone(x: int, y: int, elev: array2<int>, d1: real, d2: real)
    requires d1 <= d2
    ensures CheckCollision(x, y, elev, d1) ==> CheckCollision(x, y, elev, d2)
    ensures CheckGrounding(x, y, elev, d1) ==> CheckGrounding(x, y, elev, d2)
  {
  }

  /** Pixel (x, y) of a `width` × `height` surface lies on the safety line:
      it is dry, and one of its four neighbours inside the surface is not. */
  predicate OnSafetyLine(elev: array2<int>, width: int, height: int, x: int, y: int, draft: real)
    reads elev
    requires width <= elev.Length1 && height <= elev.Length0
    requires 0 <= x < width && 0 <= y < height
  {
    Dry(elev, x, y, draft) && WetNeighbour(elev, width, height, x, y, draft)
  }

  /** One of the four neighbours of (x, y) that lie inside the surface is
      deep enough for the ship. */
  predicate WetNeighbour(elev: array2<int>, width: int, height: int, x: int, y: int, draft: real)
    reads elev
    requires width <= elev.Length1 && height <= elev.Length0
    requires 0 <= x < width && 0 <= y < height
  {
    || (0 < x && !Dry(elev, x - 1, y, draft))
    || (x + 1 < width && !Dry(elev, x + 1, y, draft))
    || (0 < y && !Dry(elev, x, y - 1, draft))
    || (y + 1 < height && !Dry(elev, x, y + 1, draft))
  }

  /** The inner neighbour loop of `draw_nav_draft`: tries the neighbours in
      the order left, right, up, down and reports whether one inside the
      surface is wet. */
  method HasWetNeighbour(elev: array2<int>, width: int, height: int, x: int, y: int, draft: real)
    returns (found: bool)
    requires width <= elev.Length1 && height <= elev.Length0
    requires 0 <= x < width && 0 <= y < height
    ensures found <==> WetNeighbour(elev, width, height, x, y, draft)
  {
    var neighbours := [(x - 1, y), (x + 1, y), (x, y - 1), (x, y + 1)];
    var i := 0;
    found := false;
    while i < 4
      invariant 0 <= i <= 4
      invariant !found
      invariant forall j :: 0 <= j < i ==>
        !(0 <= neighbours[j].0 < width && 0 <= neighbours[j].1 < height
          && !Dry(elev, neighbours[j].0, neighbours[j].1, draft))
    {
      var (nx, ny) := neighbours[i];
      if 0 <= nx < width && 0 <= ny < height {
        if elev[ny, nx] as real < -draft {
          found := true;
          return;
        }
      }
      i := i + 1;
    }
    assert forall j :: 0 <= j < 4 ==>
      !(0 <= neighbours[j].0 < width && 0 <= neighbours[j].1 < height
        && !Dry(elev, neighbours[j].0, neighbours[j].1, draft));
    assert neighbours[0] == (x - 1, y) && neighbours[1] == (x + 1, y);
    assert neighbours[2] == (x, y - 1) && neighbours[3] == (x, y + 1);
  }

  /** `draw_nav_draft`: paints `color` on exactly the surface pixels on the
      safety line and leaves every other pixel as it was. The elevation grid
      must cover the surface, as numpy would otherwise raise an IndexError. */
  method DrawNavDraft(surface: array2<Color>, elev: array2<int>, draft: real, color: Color)
    requires surface.Length0 <= elev.Length1 && surface.Length1 <= elev.Length0
    modifies surface
    ensures forall x, y :: 0 <= x < surface.Length0 && 0 <= y < surface.Length1 ==>
      surface[x, y] == if OnSafetyLine(elev, surface.Length0, surface.Length1, x, y, draft)
                       then color else old(surface[x, y])
  {
    var width, height := surface.Length0, surface.Length1;
    var x := 0;
    while x < width
      invariant 0 <= x <= width
      invariant forall i, j :: 0 <= i < x && 0 <= j < height ==>
        surface[i, j] == if OnSafetyLine(elev, width, height, i, j, draft) then color else old(surface[i, j])
      invariant forall i, j :: x <= i < width && 0 <= j < height ==> surface[i, j] == old(surface[i, j])
    {
      var y := 0;
      while y < height
        invariant 0 <= y <= height
        invariant forall i, j :: 0 <= i < x && 0 <= j < height ==>
          surface[i, j] == if OnSafetyLine(elev, width, height, i, j, draft) then color else old(surface[i, j])
        invariant forall j :: 0 <= j < y ==>
          surface[x, j] == if OnSafetyLine(elev, width, height, x, j, draft) then color else old(surface[x, j])
        invariant forall i, j :: (x < i < width && 0 <= j < height) || (i == x && y <= j < height) ==>
          surface[i, j] == old(surface[i, j])
      {
        if elev[y, x] as real >= -draft {
          var wet := HasWetNeighbour(elev, width, height, x, y, draft);
          if wet {
            surface[x, y] := color;
          }
        }
        y := y + 1;
      }
      x := x + 1;
    }
  }

  /** `create_surface`: a new surface shaped like the transposed grid, each
      pixel water where the transposed elevation is at most 0 and land
      elsewhere. */
  method CreateSurface(data: array2<int>) returns (surface: array2<Color>)
    ensures fresh(surface)
    ensures surface.Length0 == data.Length1 && surface.Length1 == data.Length0
    ensures forall i, j :: 0 <= i < surface.Length0 && 0 <= j < surface.Length1 ==>
      surface[i, j] == if data[j, i] <= 0 then Water else Land
  {
    surface := new Color[data.Length1, data.Length0];
    forall i, j | 0 <= i < data.Length1 && 0 <= j < data.Length0 {
      surface[i, j] := if data[j, i] <= 0 then Water else Land;
    }
  }
}
