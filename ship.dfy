/** The ship of ARCHIVE-simulation/ship.py: a position, a heading in whole
    degrees and a speed. */
module ArchiveShip {

  /** `(heading + angle) % 360` with Python's `%`, which for the positive
      divisor 360 is never negative: the heading in [0, 360) that points the
      same way as `heading + angle`. */
  function Turned(heading: int, angle: int): (r: int)
    ensures 0 <= r < 360
    ensures (heading + angle - r) % 360 == 0
  {
    (heading + angle) % 360
  }

  /** Two headings in [0, 360) that differ by a multiple of 360 are equal. */
  lemma SameDirection(a: int, b: int, k: int)
    requires 0 <= a < 360 && 0 <= b < 360 && a - b == 360 * k
    ensures a == b
  {
  }

  /** The value of `Turned` is the one heading in [0, 360) congruent to
      `heading + angle`. */
  lemma TurnedUnique(heading: int, angle: int, r: int, k: int)
    requires 0 <= r < 360 && heading + angle == r + 360 * k
    ensures Turned(heading, angle) == r
  {
    var t := Turned(heading, angle);
    var q := (heading + angle) / 360;
    assert heading + angle == 360 * q + t;
    SameDirection(t, r, k - q);
  }

  /** Turning by `a` then by `-a` restores a normalised heading. */
  lemma TurnUndo(heading: int, angle: int)
    requires 0 <= heading < 360
    ensures Turned(Turned(heading, angle), -angle) == heading
  {
    var t := Turned(heading, angle);
    var q := (heading + angle) / 360;
    assert heading + angle == 360 * q + t;
    TurnedUnique(t, -angle, heading, -q);
  }

  /** Two turns add up: turning by `a` then `b` equals turning by `a + b`. */
  lemma TurnCompose(heading: int, a: int, b: int)
    ensures Turned(Turned(heading, a), b) == Turned(heading, a + b)
  {
    var t := Turned(heading, a);
    var q := (heading + a) / 360;
    assert heading + a == 360 * q + t;
    var u := Turned(heading, a + b);
    var p := (heading + a + b) / 360;
    assert heading + a + b == 360 * p + u;
    TurnedUnique(t, b, u, p - q);
  }

  class Ship {
    var x: real
    var y: real
    var heading: int
    var speed: real

    /** Stores the heading as given, so it may lie outside [0, 360) until the
        first turn. */
    constructor (x: real, y: real, heading: int := 0, speed: real := 0.0)
      ensures this.x == x && this.y == y && this.heading == heading && this.speed == speed
    {
      this.x := x;
      this.y := y;
      this.heading := heading;
      this.speed := speed;
    }

    /** `turn(angle)`: the heading becomes the normalised sum; position and
        speed stay as they were. */
    method Turn(angle: int)
      modifies this`heading
      ensures heading == Turned(old(heading), angle)
      ensures 0 <= heading < 360
    {
      heading := (heading + angle) % 360;
    }

    /** `set_speed(speed)`: overwrites the speed and nothing else. */
    method SetSpeed(speed: real)
      modifies this`speed
      ensures this.speed == speed
    {
      this.speed := speed;
    }
  }
}
