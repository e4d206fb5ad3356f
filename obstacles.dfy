/** The obstacle test environment of simulation/environment.py: a grid size
    and an append-only list of obstacle cells. */
module ObstacleWorld {

  /** `(x, y) in obstacles`: some recorded obstacle sits exactly at (x, y). */
  predicate Collides(obstacles: seq<(int, int)>, x: int, y: int)
  {
    (x, y) in obstacles
  }

  /** Appending an obstacle adds exactly its cell to the colliding cells. */
  lemma {:induction false} AppendAddsCell(obstacles: seq<(int, int)>, x: int, y: int, p: int, q: int)
    ensures Collides(obstacles + [(x, y)], p, q) <==> Collides(obstacles, p, q) || (p, q) == (x, y)
  {
    var extended := obstacles + [(x, y)];
    if Collides(extended, p, q) && (p, q) != (x, y) {
      var i :| 0 <= i < |extended| && extended[i] == (p, q);
      assert i < |obstacles|;
      assert obstacles[i] == (p, q);
    }
    if Collides(obstacles, p, q) {
      var i :| 0 <= i < |obstacles| && obstacles[i] == (p, q);
      assert extended[i] == (p, q);
    }
    assert extended[|obstacles|] == (x, y);
  }

  class Environment {
    var width: int
    var height: int
    var obstacles: seq<(int, int)>

    /** A new environment has no obstacles, so no cell collides. */
    constructor (width: int, height: int)
      ensures this.width == width && this.height == height
      ensures obstacles == []
      ensures forall x, y :: !IsCollision(x, y)
    {
      this.width := width;
      this.height := height;
      obstacles := [];
    }

    /** `is_collision`: exact coordinate equality with a recorded obstacle;
        reads the obstacle list and nothing else. */
    predicate IsCollision(x: int, y: int)
      reads this`obstacles
      ensures IsCollision(x, y) <==> exists i :: 0 <= i < |obstacles| && obstacles[i] == (x, y)
    {
      Collides(obstacles, x, y)
    }

    /** `add_obstacle`: appends (x, y) at the end, duplicates included; the
        grid size and the earlier obstacles stay as they were, and the
        colliding cells grow by exactly (x, y). */
    method AddObstacle(x: int, y: int)
      modifies this`obstacles
      ensures obstacles == old(obstacles) + [(x, y)]
      ensures IsCollision(x, y)
      ensures forall p, q :: IsCollision(p, q) <==> old(IsCollision(p, q)) || (p, q) == (x, y)
    {
      obstacles := obstacles + [(x, y)];
      forall p, q
        ensures IsCollision(p, q) <==> old(IsCollision(p, q)) || (p, q) == (x, y)
      {
        AppendAddsCell(old(obstacles), x, y, p, q);
      }
    }
  }
}
