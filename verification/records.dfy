/** The four flat record shapes the game utilities work on. The source keeps
    them as dictionaries; here each is a datatype with one field per key. */
module Records {

  /** A player: `name`, `level`, `health`, `mana` and `score`. */
  datatype Player = Player(name: string, level: int, health: int, mana: int, score: int)

  /** A point on the game map. Positions in the sample data are whole numbers. */
  datatype Point = Point(x: int, y: int)

  /** A game entity: `id`, `type` (here `kind`: "enemy", "npc" or "item"),
      its position and whether it is `active`. */
  datatype Entity = Entity(id: string, kind: string, pos: Point, active: bool)

  /** An inventory item: `name`, `type` (here `kind`: "weapon", "armor" or
      "consumable"), `value` in gold, `rarity` name and `equipped` flag. */
  datatype Item = Item(name: string, kind: string, value: int, rarity: string, equipped: bool)

  /** A derived metric paired with the name of the record it was computed
      from, as the per-player transformations produce it. */
  datatype Named<V> = Named(name: string, value: V)

  /** Squared Euclidean distance between two points. The source compares the
      square root of this quantity with a bound; comparing the square with the
      squared bound decides the same question without leaving the integers. */
  function SqDist(a: Point, b: Point): (d: int)
    ensures d >= 0
    ensures d == 0 <==> a == b
  {
    Square(a.x - b.x) + Square(a.y - b.y)
  }

  /** `n * n`: never negative, and zero only for zero. */
  function Square(n: int): (r: int)
    ensures r >= 0
    ensures r == 0 <==> n == 0
  {
    n * n
  }

  /** Distance is symmetric, as the source's formula is. */
  lemma SqDistSymmetric(a: Point, b: Point)
    ensures SqDist(a, b) == SqDist(b, a)
  {
    assert Square(a.x - b.x) == Square(b.x - a.x);
    assert Square(a.y - b.y) == Square(b.y - a.y);
  }

  /** Squaring is strictly increasing on the non-negative reals. */
  lemma SquareStrictlyIncreasing(u: real, v: real)
    requires 0.0 <= u < v
    ensures u * u < v * v
  {
    var w := v - u;
    assert w > 0.0;
    assert v * v == (u + w) * (u + w) == u * u + 2.0 * u * w + w * w;
    assert u * w >= 0.0 && w * w > 0.0;
  }

  /** The square-root comparison of the source agrees with the squared one:
      for the distance `r` (the non-negative root of `d2`) and a
      non-negative bound `b`, `r < b` exactly when `d2 < b*b`, and `r <= b`
      exactly when `d2 <= b*b`. */
  lemma RootBoundBySquares(r: real, d2: int, b: int)
    requires r >= 0.0 && r * r == d2 as real
    requires b >= 0
    ensures r < b as real <==> d2 < b * b
    ensures r <= b as real <==> d2 <= b * b
  {
    var rb := b as real;
    assert (b * b) as real == rb * rb;
    if r < rb {
      SquareStrictlyIncreasing(r, rb);
    } else if rb < r {
      SquareStrictlyIncreasing(rb, r);
    }
  }
}
