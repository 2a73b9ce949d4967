/** The game-mechanic formulas of `demonstrate_game_calculations`: the
    segments of a path of coordinates, pairwise damage between players and
    movement speed. */
module GameCalculations {
  import opened Records
  import opened Fixtures
  import opened Sequences

  /** The squared length of every segment between consecutive coordinates:
      `n - 1` of them for `n` points, none for fewer than two. */
  function SegmentSquares(cs: seq<Point>): (r: seq<int>)
    ensures |r| == if |cs| == 0 then 0 else |cs| - 1
    ensures forall i :: 0 <= i < |r| ==> r[i] == SqDist(cs[i], cs[i + 1]) && r[i] >= 0
  {
    if |cs| < 2 then [] else seq(|cs| - 1, i requires 0 <= i < |cs| - 1 => SqDist(cs[i], cs[i + 1]))
  }

  /** A path walked backwards has the same segments, in reverse order. */
  lemma SegmentSquaresReversed(cs: seq<Point>)
    ensures SegmentSquares(Reverse(cs)) == Reverse(SegmentSquares(cs))
  {
    var a, b := SegmentSquares(cs), SegmentSquares(Reverse(cs));
    var ra := Reverse(a);
    assert |b| == |ra|;
    forall i | 0 <= i < |b|
      ensures b[i] == ra[i]
    {
      ReversedSegmentAt(cs, i);
    }
  }

  /** The `i`-th segment backwards is the `i`-th from the end forwards. */
  lemma ReversedSegmentAt(cs: seq<Point>, i: int)
    requires 0 <= i < |cs| - 1
    ensures SegmentSquares(Reverse(cs))[i] == SegmentSquares(cs)[|cs| - 2 - i]
  {
    var rev := Reverse(cs);
    var j := |cs| - 2 - i;
    assert rev[i] == cs[j + 1] && rev[i + 1] == cs[j];
    SqDistSymmetric(cs[j], cs[j + 1]);
  }

  /** The unclamped damage `attacker.level*5 + attacker.mana*0.2 -
      defender.level*2`. Scaled by 5 it is an integer comparison: the
      attacker does damage exactly when `25*level + mana` exceeds ten times
      the defender's level. */
  function RawDamage(attacker: Player, defender: Player): (r: real)
    ensures r > 0.0 <==> 25 * attacker.level + attacker.mana > 10 * defender.level
    ensures r == 0.0 <==> 25 * attacker.level + attacker.mana == 10 * defender.level
  {
    attacker.level as real * 5.0 + attacker.mana as real * 0.2 - defender.level as real * 2.0
  }

  /** `calculate_damage`: the raw damage clamped below at 0. */
  function Damage(attacker: Player, defender: Player): (r: real)
    ensures r >= 0.0 && r >= RawDamage(attacker, defender)
    ensures r == 0.0 || r == RawDamage(attacker, defender)
  {
    var raw := RawDamage(attacker, defender);
    if raw > 0.0 then raw else 0.0
  }

  /** A stronger defender never takes more damage. */
  lemma DamageAntitoneInDefenderLevel(attacker: Player, d1: Player, d2: Player)
    requires d1.level <= d2.level
    ensures Damage(attacker, d2) <= Damage(attacker, d1)
  {
  }

  /** One evaluation of the damage formula: attacker and defender indices
      into the player list, and the damage. */
  datatype Strike = Strike(attacker: nat, defender: nat, damage: real)

  /** The strike is between two different players of `ps` and carries the
      damage the first would deal to the second. */
  predicate ValidStrike(ps: seq<Player>, s: Strike) {
    && s.attacker < |ps| && s.defender < |ps|
    && s.attacker != s.defender
    && s.damage == Damage(ps[s.attacker], ps[s.defender])
  }

  /** Row-major order on (attacker, defender) pairs. */
  predicate Precedes(a: Strike, b: Strike) {
    a.attacker < b.attacker || (a.attacker == b.attacker && a.defender < b.defender)
  }

  /** The nested loop over `i` and `j` with `i != j`: every ordered pair of
      different players once, in row-major order, `n*(n-1)` evaluations. */
  method PairwiseDamage(ps: seq<Player>) returns (strikes: seq<Strike>)
    ensures |strikes| == |ps| * (|ps| - 1)
    ensures forall k :: 0 <= k < |strikes| ==> ValidStrike(ps, strikes[k])
    ensures forall k :: 0 < k < |strikes| ==> Precedes(strikes[k - 1], strikes[k])
  {
    var n := |ps|;
    strikes := [];
    var i := 0;
    while i < n
      invariant 0 <= i <= n
      invariant |strikes| == i * (n - 1)
      invariant forall k :: 0 <= k < |strikes| ==> ValidStrike(ps, strikes[k]) && strikes[k].attacker < i
      invariant forall k :: 0 < k < |strikes| ==> Precedes(strikes[k - 1], strikes[k])
    {
      var row := DamageRow(ps, i);
      var done := strikes;
      strikes := done + row;
      forall k | 0 < k < |strikes|
        ensures Precedes(strikes[k - 1], strikes[k])
      {
        if k > |done| {
          assert strikes[k - 1] == row[k - 1 - |done|] && strikes[k] == row[k - |done|];
        } else if k == |done| {
          assert strikes[k] == row[0];
        }
      }
      NextMultiple(i, n - 1);
      i := i + 1;
    }
  }

  /** One row of the nested loop: attacker `i` against every other player,
      in defender order. */
  method DamageRow(ps: seq<Player>, i: int) returns (row: seq<Strike>)
    requires 0 <= i < |ps|
    ensures |row| == |ps| - 1
    ensures forall k :: 0 <= k < |row| ==> ValidStrike(ps, row[k]) && row[k].attacker == i
    ensures forall k :: 0 < k < |row| ==> row[k - 1].defender < row[k].defender
  {
    row := [];
    var j := 0;
    while j < |ps|
      invariant 0 <= j <= |ps|
      invariant |row| == if i < j then j - 1 else j
      invariant forall k :: 0 <= k < |row| ==>
        ValidStrike(ps, row[k]) && row[k].attacker == i && row[k].defender < j
      invariant forall k :: 0 < k < |row| ==> row[k - 1].defender < row[k].defender
    {
      if i != j {
        row := row + [Strike(i, j, Damage(ps[i], ps[j]))];
      }
      j := j + 1;
    }
  }

  /** `(i + 1) * m` is `m` past `i * m`. */
  lemma NextMultiple(i: int, m: int)
    ensures (i + 1) * m == i * m + m
  {
  }

  /** `calculate_speed`: `5 + level*0.5 - health*0.01`. A player moves at
      least at the base speed 5 exactly when it has at most 50 health per
      level, and exactly at it when it has 50 health per level. */
  function Speed(p: Player): (r: real)
    ensures r >= 5.0 <==> p.health <= 50 * p.level
    ensures r == 5.0 <==> p.health == 50 * p.level
  {
    5.0 + p.level as real * 0.5 - p.health as real * 0.01
  }

  /** Speed rises with level and falls with health: a player of at least
      the level and at most the health of another is at least as fast. */
  lemma SpeedMonotone(p: Player, q: Player)
    requires p.level <= q.level && p.health >= q.health
    ensures Speed(p) <= Speed(q)
  {
  }

  /** Each level is worth exactly fifty points of health in speed. */
  lemma SpeedTradeOff(p: Player)
    ensures Speed(p.(level := p.level + 1, health := p.health + 50)) == Speed(p)
  {
  }

  /** The sample path has four segments, the first of squared length 3200. */
  lemma SampleSegments()
    ensures |SegmentSquares(SampleCoordinates())| == 4
    ensures SegmentSquares(SampleCoordinates())[0] == 3200
  {
  }
}
