/** The "random" branch of make_game: a potential tensor drawn at random, and
    one utility tensor per player built from it by a prefix recurrence along
    that player's axis, so that the game is an exact potential game. The
    potential is kept in exact integer units of 1/100000 (randint's draw before
    the division), so the +0.25 constant is 25000 units. */
module GameMaker {
  import opened Tensor

  /** rand.randint(-12500, 12501, shape) draws from [Low, High]. */
  const Low: int := -12500
  const High: int := 12500
  /** The constant 0.25 added to every utility, in units of 1/100000. */
  const Offset: int := 25000

  /** Distance in flat positions between neighbouring strategies of player p
      in a tensor of shape [n]*k (row-major, the last player fastest). */
  function Stride(n: nat, k: nat, p: nat): (s: nat)
    requires n >= 1 && p < k
    ensures s >= 1
  {
    PowPositive(n, k - 1 - p);
    Pow(n, k - 1 - p)
  }

  /** The strategy of the player with stride s at flat position f. */
  function Coord(f: nat, s: nat, n: nat): (c: nat)
    requires s >= 1 && n >= 1
    ensures c < n && (c >= 1 ==> f >= s) && c * s <= f
  {
    CoordBelow(f, s, n);
    (f / s) % n
  }

  lemma CoordBelow(f: nat, s: nat, n: nat)
    requires s >= 1 && n >= 1
    ensures (f / s) % n * s <= f
  {
    var q := f / s;
    assert q * s <= f by { DivSplit(f, s); }
    assert q % n <= q by { DivSplit(q, n); }
    MulMonotone(q % n, q, s);
  }

  /** Flat position f with that player's strategy set to 0. */
  function Base(f: nat, s: nat, n: nat): (b: nat)
    requires s >= 1 && n >= 1
    ensures b <= f
  {
    f - Coord(f, s, n) * s
  }

  /** Player p's utility before the offset: the potential at f less the
      potential where p plays strategy 0. */
  function Raw(phi: seq<int>, s: nat, n: nat, f: nat): int
    requires s >= 1 && n >= 1 && f < |phi|
  {
    phi[f] - phi[Base(f, s, n)]
  }

  /** Player p's utility at flat position f, offset included. */
  function Utility(phi: seq<int>, n: nat, k: nat, p: nat, f: nat): (u: int)
    requires n >= 1 && p < k && f < |phi|
    ensures Coord(f, Stride(n, k, p), n) == 0 ==> u == Offset
  {
    Raw(phi, Stride(n, k, p), n, f) + Offset
  }

  // ---------------------------------------------------------------------
  // Arithmetic on strided positions

  /** Stepping one strategy down along the player's axis: the coordinate
      drops by one and the base cell stays the same. */
  lemma ShiftDown(f: nat, s: nat, n: nat)
    requires s >= 1 && n >= 1 && Coord(f, s, n) >= 1
    ensures f >= s && Coord(f - s, s, n) == Coord(f, s, n) - 1
    ensures Base(f - s, s, n) == Base(f, s, n)
  {
    var q, r := f / s, f % s;
    var c := q % n;
    assert f == q * s + r by { DivSplit(f, s); }
    assert q == (q / n) * n + c by { DivSplit(q, n); }
    assert f - s == (q - 1) * s + r by { assert (q - 1) * s == q * s - s; }
    assert (f - s) / s == q - 1 by { DivMod(q - 1, r, s); }
    assert (q - 1) % n == c - 1 by { DivMod(q / n, c - 1, n); }
    assert (c - 1) * s == c * s - s;
  }

  lemma {:induction false} FlattenConcat(x: seq<nat>, y: seq<nat>, n: nat)
    ensures Flatten(x + y, n) == Flatten(x, n) * Pow(n, |y|) + Flatten(y, n)
  {
    if |y| == 0 {
      assert x + y == x;
    } else {
      var init, last := y[..|y| - 1], y[|y| - 1];
      assert (x + y)[..|x + y| - 1] == x + init;
      assert Flatten(x + y, n) == Flatten(x + init, n) * n + last;
      FlattenConcat(x, init, n);
      assert Pow(n, |y|) == n * Pow(n, |init|);
      MulAddDistrib(Flatten(x, n), Pow(n, |init|), Flatten(init, n), n);
    }
  }

  lemma MulAddDistrib(a: int, b: int, c: int, n: int)
    ensures (a * b + c) * n == a * (n * b) + c * n
  {
  }

  /** Flatten(a) split around player p's coordinate. */
  lemma ActionSplit(a: seq<nat>, p: nat, n: nat)
    requires p < |a|
    ensures Flatten(a, n) == (Flatten(a[..p], n) * n + a[p]) * Pow(n, |a| - 1 - p) + Flatten(a[p + 1..], n)
  {
    assert a == (a[..p] + [a[p]]) + a[p + 1..];
    FlattenConcat(a[..p] + [a[p]], a[p + 1..], n);
    FlattenSnoc(a[..p], a[p], n);
  }

  /** In a joint action a, player p's coordinate of Flatten(a) is a[p], and
      its base is the flat position of a with a[p] replaced by 0. */
  lemma ActionCoord(a: seq<nat>, p: nat, n: nat)
    requires n >= 1 && InGrid(a, n) && p < |a|
    ensures Coord(Flatten(a, n), Stride(n, |a|, p), n) == a[p]
    ensures Base(Flatten(a, n), Stride(n, |a|, p), n) == Flatten(a[p := 0], n)
  {
    var s := Stride(n, |a|, p);
    var z := a[p := 0];
    var fx, fy := Flatten(a[..p], n), Flatten(a[p + 1..], n);
    assert fy < s by {
      assert InGrid(a[p + 1..], n);
    }
    ActionSplit(a, p, n);
    ActionSplit(z, p, n);
    assert z[..p] == a[..p] && z[p + 1..] == a[p + 1..];
    assert Flatten(z, n) == (fx * n + 0) * s + fy;
    StridedSplit(fx, a[p], fy, s, n);
  }

  /** A position written as (x * n + c) * s + y with c < n and y < s has
      coordinate c, and base (x * n) * s + y. */
  lemma StridedSplit(x: nat, c: nat, y: nat, s: nat, n: nat)
    requires n >= 1 && s >= 1 && c < n && y < s
    ensures Coord((x * n + c) * s + y, s, n) == c
    ensures Base((x * n + c) * s + y, s, n) == (x * n + 0) * s + y
  {
    var h := x * n + c;
    var f := h * s + y;
    assert f / s == h by { DivMod(h, y, s); }
    assert h % n == c by { DivMod(x, c, n); }
    assert h * s == (x * n) * s + c * s by { AddMulDistrib(x * n, c, s); }
  }

  lemma AddMulDistrib(x: int, y: int, s: int)
    ensures (x + y) * s == x * s + y * s
  {
  }

  // ---------------------------------------------------------------------
  // Properties of the utilities

  /** Closed form: u_p(a) = Phi(a) - Phi(a with p on strategy 0) + 0.25. */
  lemma UtilityClosedForm(phi: seq<int>, n: nat, a: seq<nat>, p: nat)
    requires n >= 1 && InGrid(a, n) && p < |a| && |phi| == Pow(n, |a|)
    ensures Flatten(a, n) < |phi| && Flatten(a[p := 0], n) < |phi|
    ensures Utility(phi, n, |a|, p, Flatten(a, n)) == phi[Flatten(a, n)] - phi[Flatten(a[p := 0], n)] + Offset
  {
    ActionCoord(a, p, n);
  }

  /** Before the offset, a player's utility is 0 wherever it plays strategy 0. */
  lemma RawZeroAtOrigin(phi: seq<int>, n: nat, a: seq<nat>, p: nat)
    requires n >= 1 && InGrid(a, n) && p < |a| && |phi| == Pow(n, |a|) && a[p] == 0
    ensures Flatten(a, n) < |phi|
    ensures Utility(phi, n, |a|, p, Flatten(a, n)) == Offset
  {
    UtilityClosedForm(phi, n, a, p);
    assert a[p := 0] == a;
  }

  /** The recurrence of lines 27-32: one strategy up along player p's axis,
      the utility grows by exactly what the potential grows. */
  lemma UtilityRecurrence(phi: seq<int>, n: nat, k: nat, p: nat, f: nat)
    requires n >= 1 && p < k && f < |phi| && Coord(f, Stride(n, k, p), n) >= 1
    ensures f >= Stride(n, k, p)
    ensures Utility(phi, n, k, p, f) - Utility(phi, n, k, p, f - Stride(n, k, p))
      == phi[f] - phi[f - Stride(n, k, p)]
  {
    ShiftDown(f, Stride(n, k, p), n);
  }

  /** The defining identity of an exact potential game (Monderer and Shapley,
      1996): when two joint actions differ only in player p's strategy, p's
      utilities differ by exactly the difference of the potential. */
  lemma PotentialIdentity(phi: seq<int>, n: nat, a: seq<nat>, b: seq<nat>, p: nat)
    requires n >= 1 && InGrid(a, n) && InGrid(b, n) && |a| == |b| && p < |a|
    requires |phi| == Pow(n, |a|)
    requires forall q :: 0 <= q < |a| && q != p ==> a[q] == b[q]
    ensures Flatten(a, n) < |phi| && Flatten(b, n) < |phi|
    ensures Utility(phi, n, |a|, p, Flatten(a, n)) - Utility(phi, n, |a|, p, Flatten(b, n))
      == phi[Flatten(a, n)] - phi[Flatten(b, n)]
  {
    UtilityClosedForm(phi, n, a, p);
    UtilityClosedForm(phi, n, b, p);
    assert a[p := 0] == b[p := 0];
  }

  /** With every potential entry in [-0.125, 0.125], every utility lies in
      [0, 0.5]. */
  lemma UtilityRange(phi: seq<int>, n: nat, k: nat, p: nat, f: nat)
    requires n >= 1 && p < k && f < |phi|
    requires forall i :: 0 <= i < |phi| ==> Low <= phi[i] <= High
    ensures 0 <= Utility(phi, n, k, p, f) <= 2 * Offset
  {
    var b := Base(f, Stride(n, k, p), n);
    assert Low <= phi[b] <= High;
  }

  // ---------------------------------------------------------------------
  // The construction, in place

  /** Line 31 for one slice: every cell where player p plays strategy i takes
      the value of the cell one strategy below plus the potential step. The
      right-hand side reads slice i - 1 only, so the order of cells is immaterial. */
  method AssignSlice(u: array2<int>, phi: array<int>, n: nat, s: nat, p: nat, i: nat)
    requires p < u.Length0 && u.Length1 == phi.Length && n >= 1 && s >= 1 && 1 <= i < n
    modifies u
    ensures forall q, f :: 0 <= q < u.Length0 && 0 <= f < u.Length1 ==>
      u[q, f] == if q == p && Coord(f, s, n) == i then old(u[p, f - s]) + phi[f] - phi[f - s] else old(u[q, f])
  {
    for f := 0 to u.Length1
      invariant forall q, g :: 0 <= q < u.Length0 && 0 <= g < u.Length1 ==>
        u[q, g] == if q == p && g < f && Coord(g, s, n) == i then old(u[p, g - s]) + phi[g] - phi[g - s] else old(u[q, g])
    {
      if Coord(f, s, n) == i {
        ShiftDown(f, s, n);
        u[p, f] := u[p, f - s] + phi[f] - phi[f - s];
      }
    }
  }

  /** Lines 27-32 for player p: slices 1 .. n-1 in turn, starting from zeros. */
  method FillPlayer(u: array2<int>, phi: array<int>, n: nat, s: nat, p: nat)
    requires p < u.Length0 && u.Length1 == phi.Length && n >= 1 && s >= 1
    requires forall f :: 0 <= f < u.Length1 ==> u[p, f] == 0
    modifies u
    ensures forall q, f :: 0 <= q < u.Length0 && 0 <= f < u.Length1 ==>
      u[q, f] == if q == p then Raw(phi[..], s, n, f) else old(u[q, f])
  {
    for i := 1 to n
      invariant forall q, f :: 0 <= q < u.Length0 && 0 <= f < u.Length1 ==>
        u[q, f] == if q == p then (if Coord(f, s, n) < i then Raw(phi[..], s, n, f) else 0) else old(u[q, f])
    {
      AssignSlice(u, phi, n, s, p, i);
      forall f | 0 <= f < u.Length1 && Coord(f, s, n) == i
        ensures u[p, f] == Raw(phi[..], s, n, f)
      {
        ShiftDown(f, s, n);
      }
    }
  }

  /** Line 36 for player p: the constant 0.25 added to every cell. */
  method AddOffset(u: array2<int>, p: nat)
    requires p < u.Length0
    modifies u
    ensures forall q, f :: 0 <= q < u.Length0 && 0 <= f < u.Length1 ==>
      u[q, f] == if q == p then old(u[q, f]) + Offset else old(u[q, f])
  {
    for f := 0 to u.Length1
      invariant forall q, g :: 0 <= q < u.Length0 && 0 <= g < u.Length1 ==>
        u[q, g] == if q == p && g < f then old(u[q, g]) + Offset else old(u[q, g])
    {
      u[p, f] := u[p, f] + Offset;
    }
  }

  /** The "random" branch of make_game (lines 17-38); draws is randint's tensor. */
  method MakeRandomGame(n: nat, k: nat, draws: seq<int>) returns (potential: array<int>, utilities: array2<int>)
    requires n >= 1 && |draws| == Pow(n, k)
    requires forall i :: 0 <= i < |draws| ==> Low <= draws[i] <= High
    ensures fresh(potential) && fresh(utilities)
    ensures potential[..] == draws
    ensures forall i :: 0 <= i < potential.Length ==> Low <= potential[i] <= High
    ensures utilities.Length0 == k && utilities.Length1 == Pow(n, k)
    ensures forall p, f :: 0 <= p < k && 0 <= f < Pow(n, k) ==> utilities[p, f] == Utility(draws, n, k, p, f)
    ensures forall p, f :: 0 <= p < k && 0 <= f < Pow(n, k) ==> 0 <= utilities[p, f] <= 2 * Offset
  {
    potential := new int[|draws|](i requires 0 <= i < |draws| => draws[i]);
    utilities := new int[k, |draws|]((p, f) => 0);
    for p := 0 to k
      invariant potential[..] == draws
      invariant forall q, f :: 0 <= q < k && 0 <= f < |draws| ==>
        utilities[q, f] == if q < p then Raw(draws, Stride(n, k, q), n, f) else 0
    {
      FillPlayer(utilities, potential, n, Stride(n, k, p), p);
    }
    for p := 0 to k
      invariant potential[..] == draws
      invariant forall q, f :: 0 <= q < k && 0 <= f < |draws| ==>
        utilities[q, f] == if q < p then Utility(draws, n, k, q, f) else Raw(draws, Stride(n, k, q), n, f)
    {
      AddOffset(utilities, p);
    }
    forall p, f | 0 <= p < k && 0 <= f < Pow(n, k)
      ensures 0 <= Utility(draws, n, k, p, f) <= 2 * Offset
    {
      UtilityRange(draws, n, k, p, f);
    }
  }

  // ---------------------------------------------------------------------
  // make_game

  /** What make_game returns: the random game's potential and utilities, or
      the congestion game's facility count, agent count and mean vectors. */
  datatype Game =
    | Random(potential: array<int>, utilities: array2<int>)
    | Congestion(facilities: nat, agents: nat, means: seq<seq<real>>)

  /** make_game (lines 4-46). means stands for the n vectors of k draws of
      np.random.uniform(0, 1); any other type string returns nothing. */
  method MakeGame(gameType: string, n: nat, k: nat, draws: seq<int>, means: seq<seq<real>>) returns (r: Option<Game>)
    requires gameType == "random" ==> n >= 1 && |draws| == Pow(n, k)
    requires gameType == "random" ==> forall i :: 0 <= i < |draws| ==> Low <= draws[i] <= High
    requires gameType == "congestion" ==> |means| == n && forall i :: 0 <= i < n ==> |means[i]| == k
    ensures gameType == "random" ==>
      && r.Some? && r.value.Random?
      && fresh(r.value.potential) && fresh(r.value.utilities)
      && r.value.potential[..] == draws
      && (forall i :: 0 <= i < r.value.potential.Length ==> Low <= r.value.potential[i] <= High)
      && r.value.utilities.Length0 == k && r.value.utilities.Length1 == Pow(n, k)
      && (forall p, f :: 0 <= p < k && 0 <= f < Pow(n, k) ==> r.value.utilities[p, f] == Utility(draws, n, k, p, f))
      && (forall p, f :: 0 <= p < k && 0 <= f < Pow(n, k) ==> 0 <= r.value.utilities[p, f] <= 2 * Offset)
    ensures gameType == "congestion" ==> r == Some(Congestion(n, k, means))
    ensures gameType != "random" && gameType != "congestion" ==> r == None
  {
    if gameType == "random" {
      var potential, utilities := MakeRandomGame(n, k, draws);
      return Some(Random(potential, utilities));
    }
    if gameType == "congestion" {
      return Some(Congestion(n, k, means));
    }
    return None;
  }
}
