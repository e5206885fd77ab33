/** The next-sample selection strategies of utils/sample_strategy.py.

    A strategy reads the optimistic and pessimistic bound tensors OptPhi and
    PesPhi, the mask of cells of player 0's known-utility tensor that have been
    observed (the source marks unobserved cells NaN), and the game's Values
    tensor, and either picks one joint action (a one-hot probability tensor)
    or builds a mixed probability tensor and draws from it. Every random draw
    is a parameter. */
module Strategy {
  import opened Tensor

  /** The small positive value prob_active and prob_active_2 give masked cells. */
  const FloorActive: real := 0.00000001
  /** The small positive value prob_active_4 gives masked cells. */
  const FloorActive4: real := 0.000000000000001
  /** prob_active_4 mixes only when its uniform draw is below this. */
  const MixThreshold: real := 0.1
  /** descending_active_2 scans only this many of the largest OptPhi cells. */
  const TopCount: nat := 100

  /** The part of the game a strategy reads. All tensors have shape [n]*k and
      are stored flat in row-major order; known[c] is false exactly where the
      source's KnownUs[0] (KnownU1 in the 2-player code) holds NaN. */
  datatype Estimates = Estimates(
    n: nat, k: nat,
    optPhi: seq<real>, pesPhi: seq<real>,
    known: seq<bool>, values: seq<real>)
  {
    function Cells(): nat
    {
      Pow(n, k)
    }

    predicate Valid()
    {
      && n >= 1 && Cells() >= 1
      && |optPhi| == Cells() && |pesPhi| == Cells()
      && |known| == Cells() && |values| == Cells()
    }

    /** The 2-player n-by-n games the strategies of lines 30-157 are written for. */
    predicate Grid()
    {
      Valid() && k == 2 && Cells() == n * n
    }
  }

  /** How numpy ends a strategy that cannot complete. */
  datatype Failure =
    | IndexOutOfRange        // an IndexError
    | InvalidProbabilities   // np.random.choice rejects p (NaN from a zero total, or a negative entry)
    | NotOneDimensional      // np.random.choice given a 2-D array
    | NotModelled            // prob_active_3, which this model leaves out

  /** The result of a strategy: a joint action with its probability tensor, the
      source's implicit None, or an exception. */
  datatype Outcome =
    | Chosen(action: seq<nat>, prob: seq<real>)
    | Nothing
    | Fails(failure: Failure)

  /** What every selection promises: a joint action of the game and a
      probability tensor of the game's shape that gives that action positive mass. */
  ghost predicate Sound(g: Estimates, o: Outcome)
    requires g.Valid()
  {
    o.Chosen? ==>
      && |o.action| == g.k && InGrid(o.action, g.n)
      && |o.prob| == g.Cells() && IsDistribution(o.prob)
      && Flatten(o.action, g.n) < |o.prob| && o.prob[Flatten(o.action, g.n)] > 0.0
  }

  /** A selection, if any, is a cell not observed yet. */
  ghost predicate PicksUnknown(g: Estimates, o: Outcome)
    requires g.Valid()
  {
    o.Chosen? ==>
      |o.action| == g.k && Flatten(o.action, g.n) < g.Cells() && !g.known[Flatten(o.action, g.n)]
  }

  /** o selects flat cell c of the n-by-n grid, i.e. row c // n and column c % n, one-hot. */
  ghost predicate PicksCell(g: Estimates, o: Outcome, c: nat)
    requires g.Grid()
  {
    c < g.Cells() && o == Chosen([c / g.n, c % g.n], OneHot(g.Cells(), c))
  }

  // ---------------------------------------------------------------------
  // ind_to_prob_matrix_one_zero

  /** ind_to_prob_matrix_one_zero(sample_tuple, n, k) as its signature intends:
      the tuple and a tensor of shape [n]*k holding 1 at the tuple and 0 elsewhere. */
  function Select(tuple: seq<nat>, n: nat, k: nat): (o: Outcome)
    requires n >= 1 && |tuple| == k && InGrid(tuple, n)
    ensures o.Chosen? && o.action == tuple && |o.prob| == Pow(n, k)
    ensures Flatten(tuple, n) < Pow(n, k) && o.prob[Flatten(tuple, n)] == 1.0
    ensures forall c :: 0 <= c < |o.prob| && c != Flatten(tuple, n) ==> o.prob[c] == 0.0
    ensures IsDistribution(o.prob)
  {
    OneHotIsDistribution(Pow(n, k), Flatten(tuple, n));
    Chosen(tuple, OneHot(Pow(n, k), Flatten(tuple, n)))
  }

  /** The helper itself: a zero tensor written with a single 1. */
  method IndToProbMatrixOneZero(sampleTuple: seq<nat>, n: nat, k: nat) returns (tuple: seq<nat>, prob: seq<real>)
    requires n >= 1 && |sampleTuple| == k && InGrid(sampleTuple, n)
    ensures Chosen(tuple, prob) == Select(sampleTuple, n, k)
  {
    var matrix := new real[Pow(n, k)](_ => 0.0);
    matrix[Flatten(sampleTuple, n)] := 1.0;
    tuple, prob := sampleTuple, matrix[..];
  }

  /** The one-hot selection of flat cell c, decoded with unravel_index. */
  function SelectFlat(g: Estimates, c: nat): (o: Outcome)
    requires g.Valid() && c < g.Cells()
    ensures o.Chosen? && Flatten(o.action, g.n) == c && o.prob == OneHot(g.Cells(), c)
    ensures g.Grid() ==> PicksCell(g, o, c)
    ensures Sound(g, o)
  {
    FlattenUnravel(c, g.n, g.k);
    if g.Grid() then GridCoordinates(c, g.n); Select(Unravel(c, g.n, g.k), g.n, g.k)
    else Select(Unravel(c, g.n, g.k), g.n, g.k)
  }

  /** What ind_to_prob_matrix_one_zero(row, col, n) computes when called the way
      the 2-player strategies call it: sample_tuple is bound to the row, n to
      the column and k to the grid size, so it builds np.zeros([col] * n) and
      `prob_matrix[row] = 1` fills the whole sub-tensor at index row of the
      first axis, or raises an IndexError when row >= col. */
  datatype AsCalled = AsCalledResult(sample: nat, prob: seq<real>) | AsCalledIndexError

  function OneHotAsCalled(row: nat, col: nat, n: nat): (r: AsCalled)
    requires n >= 1
    ensures r.AsCalledIndexError? <==> row >= col
    ensures r.AsCalledResult? ==> r.sample == row && |r.prob| == Pow(col, n)
    ensures r.AsCalledResult? ==> forall f :: 0 <= f < |r.prob| ==> r.prob[f] == (if f / Pow(col, n - 1) == row then 1.0 else 0.0)
  {
    if row >= col then AsCalledIndexError
    else
      PowPositive(col, n - 1);
      var block := Pow(col, n - 1);
      AsCalledResult(row, seq(Pow(col, n), f requires 0 <= f < Pow(col, n) => if f / block == row then 1.0 else 0.0))
  }

  /** On a 2-by-2 grid no cell gets the intended 2-by-2 one-hot tensor: the call
      either raises or returns a tensor with a single cell. */
  lemma OneHotAsCalledOnTwoByTwo()
    ensures forall row: nat, col: nat :: row < 2 && col < 2 ==>
      OneHotAsCalled(row, col, 2).AsCalledIndexError? || |OneHotAsCalled(row, col, 2).prob| == 1
    ensures OneHotAsCalled(0, 1, 2) == AsCalledResult(0, [1.0])
    ensures Select([0, 1], 2, 2).prob == [0.0, 1.0, 0.0, 0.0]
  {
    assert Pow(1, 2) == 1 by { assert Pow(1, 1) == 1; }
    assert Pow(1, 1) == 1;
    var t := OneHotAsCalled(0, 1, 2);
    assert t.prob == [1.0];
    assert Flatten([0, 1], 2) == 1 by {
      assert [0, 1][..1] == [0];
      assert [0][..0] == [];
    }
    PowTwo(2);
  }

  // ---------------------------------------------------------------------
  // The shared fallback and the deterministic 2-player strategies

  /** Lines 41-44 (and their copies): the first unobserved cell in row-major
      order, or nothing when every cell is known. */
  function Fallback(g: Estimates): (o: Outcome)
    requires g.Grid()
    ensures o.Nothing? <==> AllKnown(g.known)
    ensures FirstUnknown(g.known).Some? ==> PicksCell(g, o, FirstUnknown(g.known).value)
    ensures Sound(g, o) && PicksUnknown(g, o)
  {
    match FirstUnknown(g.known)
    case Some(c) => SelectFlat(g, c)
    case None => Nothing
  }

  /** descending_active: its scan returns only a cell whose OptPhi is NaN, which
      a bound never is, so the result is always the fallback. */
  function DescendingActive(g: Estimates): (o: Outcome)
    requires g.Grid()
    ensures o.Nothing? <==> AllKnown(g.known)
    ensures FirstUnknown(g.known).Some? ==> PicksCell(g, o, FirstUnknown(g.known).value)
    ensures Sound(g, o) && PicksUnknown(g, o)
  {
    Fallback(g)
  }

  /** random_index: despite its name, the first unobserved cell. */
  function RandomIndex(g: Estimates): (o: Outcome)
    requires g.Grid()
    ensures o.Nothing? <==> AllKnown(g.known)
    ensures FirstUnknown(g.known).Some? ==> PicksCell(g, o, FirstUnknown(g.known).value)
    ensures Sound(g, o) && PicksUnknown(g, o)
  {
    if !AllKnown(g.known) then Fallback(g) else Nothing
  }

  /** opt_then_random: the first OptPhi maximum if it is unobserved, else the fallback. */
  function OptThenRandom(g: Estimates): (o: Outcome)
    requires g.Grid()
    ensures !g.known[ArgMax(g.optPhi)] ==> PicksCell(g, o, ArgMax(g.optPhi))
    ensures g.known[ArgMax(g.optPhi)] ==> o == Fallback(g)
    ensures o.Nothing? <==> AllKnown(g.known)
    ensures Sound(g, o) && PicksUnknown(g, o)
  {
    var c := ArgMax(g.optPhi);
    if !g.known[c] then SelectFlat(g, c) else Fallback(g)
  }

  /** pes_then_random: the first PesPhi maximum if it is unobserved, else the fallback. */
  function PesThenRandom(g: Estimates): (o: Outcome)
    requires g.Grid()
    ensures !g.known[ArgMax(g.pesPhi)] ==> PicksCell(g, o, ArgMax(g.pesPhi))
    ensures g.known[ArgMax(g.pesPhi)] ==> o == Fallback(g)
    ensures o.Nothing? <==> AllKnown(g.known)
    ensures Sound(g, o) && PicksUnknown(g, o)
  {
    var c := ArgMax(g.pesPhi);
    if !g.known[c] then SelectFlat(g, c) else Fallback(g)
  }

  /** low_then_random: the first PesPhi maximum if it is unobserved, and no fallback. */
  function LowThenRandom(g: Estimates): (o: Outcome)
    requires g.Grid()
    ensures !g.known[ArgMax(g.pesPhi)] ==> PicksCell(g, o, ArgMax(g.pesPhi))
    ensures g.known[ArgMax(g.pesPhi)] ==> o.Nothing?
    ensures Sound(g, o) && PicksUnknown(g, o)
  {
    var c := ArgMax(g.pesPhi);
    if !g.known[c] then SelectFlat(g, c) else Nothing
  }

  // ---------------------------------------------------------------------
  // nearby_then_random

  /** A probed position: the cell when it is inside the grid, else nothing. */
  function ProbeAt(inside: bool, cell: int): Option<nat>
    requires inside ==> cell >= 0
  {
    if inside then Some(cell) else None
  }

  /** The positions nearby_then_random probes around cell c, in its order:
      left, right, the next row, the previous row, each only inside the grid.
      Every probed cell is inside the grid and next to c. */
  function Neighbours(n: nat, c: nat): (probes: seq<Option<nat>>)
    requires n >= 1 && c < n * n
    ensures |probes| == 4
    ensures forall j :: 0 <= j < 4 && probes[j].Some? ==> probes[j].value < n * n && Adjacent(n, c, probes[j].value)
  {
    NeighboursInGrid(n, c);
    assert c / n < n by { DivBelow(c, n, n); }
    ProbeLeft(n, c);
    ProbeRight(n, c);
    ProbeBelow(n, c);
    ProbeAbove(n, c);
    [ProbeAt(c % n >= 1, c - 1), ProbeAt(c % n + 1 < n, c + 1), ProbeAt(c / n + 1 < n, c + n), ProbeAt(c / n >= 1, c - n)]
  }

  /** The first of the probed cells that is unobserved. */
  function FirstUnknownOf(known: seq<bool>, probes: seq<Option<nat>>): (r: Option<nat>)
  {
    if |probes| == 0 then None
    else if probes[0].Some? && probes[0].value < |known| && !known[probes[0].value] then probes[0]
    else FirstUnknownOf(known, probes[1..])
  }

  /** Cells d and c of the n-by-n grid are next to each other in a row or a column. */
  predicate Adjacent(n: nat, c: nat, d: nat)
    requires n >= 1
  {
    || (d / n == c / n && (d % n + 1 == c % n || d % n == c % n + 1))
    || (d % n == c % n && (d / n + 1 == c / n || d / n == c / n + 1))
  }

  lemma ProbeLeft(n: nat, c: nat)
    requires n >= 1 && c < n * n && c / n < n
    ensures c % n >= 1 ==> c - 1 < n * n && Adjacent(n, c, c - 1)
  {
    if c % n >= 1 { assert 0 * n == 0; StepAdjacent(n, c, c - 1, 0, -1); }
  }

  lemma ProbeRight(n: nat, c: nat)
    requires n >= 1 && c < n * n && c / n < n
    ensures c % n + 1 < n ==> c + 1 < n * n && Adjacent(n, c, c + 1)
  {
    if c % n + 1 < n { assert 0 * n == 0; StepAdjacent(n, c, c + 1, 0, 1); }
  }

  lemma ProbeBelow(n: nat, c: nat)
    requires n >= 1 && c < n * n && c / n < n
    ensures c / n + 1 < n ==> c + n < n * n && Adjacent(n, c, c + n)
  {
    if c / n + 1 < n { assert 1 * n == n; StepAdjacent(n, c, c + n, 1, 0); }
  }

  lemma ProbeAbove(n: nat, c: nat)
    requires n >= 1 && c < n * n && c / n < n
    ensures c / n >= 1 ==> 0 <= c - n < n * n && Adjacent(n, c, c - n)
  {
    if c / n >= 1 { assert -1 * (n as int) == -(n as int); StepAdjacent(n, c, c - n, -1, 0); }
  }

  /** One step along a row or a column stays next to the starting cell. */
  lemma StepAdjacent(n: nat, c: nat, d: int, di: int, dj: int)
    requires n >= 1 && c < n * n && 0 <= c / n + di < n && 0 <= c % n + dj < n
    requires d == c + di * n + dj
    requires (di == 0 && (dj == 1 || dj == -1)) || (dj == 0 && (di == 1 || di == -1))
    ensures 0 <= d < n * n && Adjacent(n, c, d)
  {
    ShiftedCell(n, c, d, di, dj);
  }

  /** The probe of nearby_then_random's four neighbours of flat cell c. */
  function ProbeNeighbours(known: seq<bool>, n: nat, c: nat): (r: Option<nat>)
    requires n >= 1 && |known| == n * n && c < n * n
    ensures r.Some? ==> r.value < |known| && !known[r.value]
  {
    NeighboursInGrid(n, c);
    if c % n >= 1 && !known[c - 1] then Some(c - 1)
    else if c % n + 1 < n && !known[c + 1] then Some(c + 1)
    else if c / n + 1 < n && !known[c + n] then Some(c + n)
    else if c / n >= 1 && !known[c - n] then Some(c - n)
    else None
  }

  /** The flat cell nearby_then_random (lines 76-102) selects: the first OptPhi
      maximum if unobserved, else the first unobserved neighbour, else the
      fallback's cell. */
  function NearbyCell(g: Estimates): (r: Option<nat>)
    requires g.Grid()
    ensures r.Some? ==> r.value < g.Cells() && !g.known[r.value]
    ensures r.None? <==> AllKnown(g.known)
  {
    var c := ArgMax(g.optPhi);
    if !g.known[c] then Some(c)
    else
      match ProbeNeighbours(g.known, g.n, c)
      case Some(d) => Some(d)
      case None => FirstUnknown(g.known)
  }

  /** nearby_then_random: the one-hot selection of its cell. */
  function NearbyThenRandom(g: Estimates): (o: Outcome)
    requires g.Grid()
    ensures o.Nothing? <==> AllKnown(g.known)
    ensures Sound(g, o) && PicksUnknown(g, o)
  {
    match NearbyCell(g)
    case Some(c) => SelectFlat(g, c)
    case None => Nothing
  }

  /** Four probes in a row find the first of them that is an unobserved cell. */
  lemma {:induction false} FirstUnknownOfFour(known: seq<bool>, p1: Option<nat>, p2: Option<nat>, p3: Option<nat>, p4: Option<nat>)
    ensures FirstUnknownOf(known, [p1, p2, p3, p4]) ==
      if p1.Some? && p1.value < |known| && !known[p1.value] then p1
      else if p2.Some? && p2.value < |known| && !known[p2.value] then p2
      else if p3.Some? && p3.value < |known| && !known[p3.value] then p3
      else if p4.Some? && p4.value < |known| && !known[p4.value] then p4
      else None
  {
    var hit := (p: Option<nat>) => p.Some? && p.value < |known| && !known[p.value];
    assert [p4][1..] == [];
    assert FirstUnknownOf(known, [p4]) == if hit(p4) then p4 else None;
    assert [p3, p4][1..] == [p4];
    assert FirstUnknownOf(known, [p3, p4]) == if hit(p3) then p3 else FirstUnknownOf(known, [p4]);
    assert [p2, p3, p4][1..] == [p3, p4];
    assert FirstUnknownOf(known, [p2, p3, p4]) == if hit(p2) then p2 else FirstUnknownOf(known, [p3, p4]);
    assert [p1, p2, p3, p4][1..] == [p2, p3, p4];
  }

  /** The probe agrees with the reference definition: the first unobserved
      cell among the probed neighbours. */
  lemma ProbeNeighboursSpec(known: seq<bool>, n: nat, c: nat)
    requires n >= 1 && |known| == n * n && c < n * n
    ensures ProbeNeighbours(known, n, c) == FirstUnknownOf(known, Neighbours(n, c))
  {
    NeighboursInGrid(n, c);
    FirstUnknownOfFour(known, ProbeAt(c % n >= 1, c - 1), ProbeAt(c % n + 1 < n, c + 1), ProbeAt(c / n + 1 < n, c + n), ProbeAt(c / n >= 1, c - n));
  }

  /** nearby_then_random's cell, against the reference definitions: the first
      OptPhi maximum if unobserved; else the first unobserved of its four
      neighbours, probed in order; else the first unobserved cell. */
  lemma NearbyCellSpec(g: Estimates)
    requires g.Grid()
    ensures var c := ArgMax(g.optPhi);
      !g.known[c] ==> NearbyCell(g) == Some(c)
    ensures var c := ArgMax(g.optPhi);
      g.known[c] && FirstUnknownOf(g.known, Neighbours(g.n, c)).Some? ==>
        NearbyCell(g) == FirstUnknownOf(g.known, Neighbours(g.n, c))
    ensures var c := ArgMax(g.optPhi);
      g.known[c] && FirstUnknownOf(g.known, Neighbours(g.n, c)).None? ==>
        NearbyCell(g) == FirstUnknown(g.known)
  {
    ProbeNeighboursSpec(g.known, g.n, ArgMax(g.optPhi));
  }

  /** nearby_then_random selects the one-hot tensor of its cell: the OptPhi
      maximum when that is unobserved, otherwise the cell the probe finds. */
  lemma NearbyThenRandomSelects(g: Estimates)
    requires g.Grid()
    ensures NearbyCell(g).Some? ==> PicksCell(g, NearbyThenRandom(g), NearbyCell(g).value)
    ensures var c := ArgMax(g.optPhi);
      !g.known[c] ==> PicksCell(g, NearbyThenRandom(g), c)
  {
    NearbyCellSpec(g);
  }

  // ---------------------------------------------------------------------
  // random_active

  /** c is a cell random_active collects: OptPhi reaches max(PesPhi) there and
      it is still unobserved. */
  predicate IsActiveUnknown(g: Estimates, c: nat)
    requires g.Valid() && c < g.Cells()
  {
    g.optPhi[c] >= Max(g.pesPhi) && !g.known[c]
  }

  /** The cells among the first `upto` (row-major) that random_active collects, in order. */
  function ActiveUnknown(g: Estimates, upto: nat): (cells: seq<nat>)
    requires g.Valid() && upto <= g.Cells()
    ensures forall d :: d in cells ==> d < upto && IsActiveUnknown(g, d)
    ensures forall d :: 0 <= d < upto && IsActiveUnknown(g, d) ==> d in cells
    ensures forall a, b :: 0 <= a < b < |cells| ==> cells[a] < cells[b]
  {
    if upto == 0 then []
    else
      var earlier := ActiveUnknown(g, upto - 1);
      assert forall a :: 0 <= a < |earlier| ==> earlier[a] in earlier;
      earlier + (if IsActiveUnknown(g, upto - 1) then [upto - 1] else [])
  }

  /** The collecting loop of random_active (lines 58-62). */
  method CollectActive(g: Estimates) returns (candidates: seq<nat>)
    requires g.Valid()
    ensures candidates == ActiveUnknown(g, g.Cells())
  {
    var maxPes := Max(g.pesPhi);
    candidates := [];
    for c := 0 to g.Cells()
      invariant candidates == ActiveUnknown(g, c)
    {
      if g.optPhi[c] >= maxPes && !g.known[c] {
        candidates := candidates + [c];
      }
    }
  }

  /** What random_active returns when np.random.choice draws index pick of
      the collected cells: the OptPhi maximum if it is unobserved; else, with
      more than one collected cell, the one drawn; else the fallback. */
  ghost predicate RandomActiveSpec(g: Estimates, pick: nat, o: Outcome)
    requires g.Grid()
    requires |ActiveUnknown(g, g.Cells())| > 1 ==> pick < |ActiveUnknown(g, g.Cells())|
  {
    && (!g.known[ArgMax(g.optPhi)] ==> PicksCell(g, o, ArgMax(g.optPhi)))
    && (g.known[ArgMax(g.optPhi)] && |ActiveUnknown(g, g.Cells())| > 1 ==>
          PicksCell(g, o, ActiveUnknown(g, g.Cells())[pick]))
    && (g.known[ArgMax(g.optPhi)] && |ActiveUnknown(g, g.Cells())| <= 1 ==> o == Fallback(g))
    && (o.Nothing? <==> AllKnown(g.known))
    && Sound(g, o) && PicksUnknown(g, o)
  }

  /** random_active (lines 45-75). pick is the index np.random.choice draws
      from the list of collected cells. */
  method RandomActive(g: Estimates, pick: nat) returns (o: Outcome)
    requires g.Grid()
    requires |ActiveUnknown(g, g.Cells())| > 1 ==> pick < |ActiveUnknown(g, g.Cells())|
    ensures RandomActiveSpec(g, pick, o)
  {
    var top := ArgMax(g.optPhi);
    if !g.known[top] {
      return SelectFlat(g, top);
    }
    var candidates := CollectActive(g);
    if |candidates| > 1 {
      assert candidates[pick] in candidates;
      return SelectFlat(g, candidates[pick]);
    }
    return Fallback(g);
  }

  // ---------------------------------------------------------------------
  // prob_match

  /** The weight prob_match adds to cell c of the n-by-n grid, over n^2, when
      `top` is the first OptPhi maximum: (n-1)^2 + 2(n-1) at top itself, 3 off
      its row and column, and 2(n-1) + 1 on its row or column. */
  function MatchBonus(n: nat, top: nat, c: nat): nat
    requires n >= 1
  {
    var a, b, r0, c0 := c / n, c % n, top / n, top % n;
    if a == r0 && b == c0 then (n - 1) * (n - 1) + 2 * (n - 1)
    else if a != r0 && b != c0 then 3
    else 2 * (n - 1) + 1
  }

  /** The unnormalised weight of cell c: 1 plus its bonus over n^2. */
  function MatchWeight(n: nat, top: nat, c: nat): real
    requires n >= 1
  {
    1.0 + MatchBonus(n, top, c) as real / (n * n) as real
  }

  function MatchWeights(g: Estimates): (w: seq<real>)
    requires g.Grid()
  {
    seq(g.Cells(), c requires 0 <= c < g.Cells() => MatchWeight(g.n, ArgMax(g.optPhi), c))
  }

  /** c is on the row or on the column of cell top, but is not top. */
  predicate OnCross(n: nat, top: nat, c: nat)
    requires n >= 1
  {
    (c / n == top / n) != (c % n == top % n)
  }

  /** c shares neither the row nor the column of cell top. */
  predicate OffCross(n: nat, top: nat, c: nat)
    requires n >= 1
  {
    c / n != top / n && c % n != top % n
  }

  lemma RealDivMonotone(x: real, y: real, d: real)
    requires d > 0.0 && x <= y
    ensures x / d <= y / d
  {
  }

  /** The bonuses are ordered top >= row-or-column >= elsewhere, and all equal 3
      on a 2-by-2 grid. */
  lemma MatchBonusOrder(n: nat, top: nat, c: nat)
    requires n >= 1 && top < n * n && c < n * n
    ensures MatchBonus(n, top, c) <= MatchBonus(n, top, top)
    ensures OnCross(n, top, c) ==> 3 <= MatchBonus(n, top, c)
    ensures OffCross(n, top, c) ==> MatchBonus(n, top, c) == 3
    ensures n == 2 ==> MatchBonus(n, top, c) == 3
  {
    if n == 1 {
      assert c == 0 && top == 0;
    } else {
      MulMonotone(1, n - 1, n - 1);
    }
  }

  /** prob_match's weights: every weight is positive; the OptPhi maximum weighs
      at least as much as any cell, a cell on its row or column at least as
      much as any cell off both; on a 2-by-2 grid all weights are equal. */
  lemma {:induction false} MatchWeightsOrdered(g: Estimates)
    requires g.Grid()
    ensures forall c :: 0 <= c < g.Cells() ==> MatchWeights(g)[c] > 0.0
    ensures forall c :: 0 <= c < g.Cells() ==> MatchWeights(g)[c] <= MatchWeights(g)[ArgMax(g.optPhi)]
    ensures forall c, d ::
      (0 <= c < g.Cells() && 0 <= d < g.Cells() &&
       OnCross(g.n, ArgMax(g.optPhi), c) && OffCross(g.n, ArgMax(g.optPhi), d)) ==>
      MatchWeights(g)[d] <= MatchWeights(g)[c]
    ensures g.n == 2 ==> forall c :: 0 <= c < g.Cells() ==> MatchWeights(g)[c] == MatchWeights(g)[ArgMax(g.optPhi)]
  {
    var n, top, w := g.n, ArgMax(g.optPhi), MatchWeights(g);
    var nn := (n * n) as real;
    forall c | 0 <= c < g.Cells()
      ensures w[c] > 0.0 && w[c] <= w[top]
      ensures n == 2 ==> w[c] == w[top]
    {
      MatchBonusOrder(n, top, c);
      MatchBonusOrder(n, top, top);
      RealDivMonotone(0.0, MatchBonus(n, top, c) as real, nn);
      RealDivMonotone(MatchBonus(n, top, c) as real, MatchBonus(n, top, top) as real, nn);
    }
    forall c, d | 0 <= c < g.Cells() && 0 <= d < g.Cells() && OnCross(n, top, c) && OffCross(n, top, d)
      ensures w[d] <= w[c]
    {
      MatchBonusOrder(n, top, c);
      MatchBonusOrder(n, top, d);
      RealDivMonotone(MatchBonus(n, top, d) as real, MatchBonus(n, top, c) as real, nn);
    }
  }

  /** The probability tensor prob_match returns. */
  function MatchDistribution(g: Estimates): (p: seq<real>)
    requires g.Grid()
    ensures |p| == g.Cells() && IsDistribution(p)
  {
    MatchWeightsOrdered(g);
    SumNonNegative(MatchWeights(g));
    NormalizedSumsToOne(MatchWeights(g));
    Normalized(MatchWeights(g))
  }

  /** After normalising, prob_match's tensor is a probability distribution with
      every entry positive, and the order of the weights is kept. */
  lemma {:induction false} MatchDistributionSpec(g: Estimates)
    requires g.Grid()
    ensures |MatchDistribution(g)| == g.Cells() && IsDistribution(MatchDistribution(g))
    ensures forall c :: 0 <= c < g.Cells() ==> MatchDistribution(g)[c] > 0.0
    ensures forall c :: 0 <= c < g.Cells() ==> MatchDistribution(g)[c] <= MatchDistribution(g)[ArgMax(g.optPhi)]
    ensures forall c, d ::
      (0 <= c < g.Cells() && 0 <= d < g.Cells() &&
       OnCross(g.n, ArgMax(g.optPhi), c) && OffCross(g.n, ArgMax(g.optPhi), d)) ==>
      MatchDistribution(g)[d] <= MatchDistribution(g)[c]
    ensures g.n == 2 ==> forall c :: 0 <= c < g.Cells() ==> MatchDistribution(g)[c] == MatchDistribution(g)[ArgMax(g.optPhi)]
  {
    var w, top := MatchWeights(g), ArgMax(g.optPhi);
    MatchWeightsOrdered(g);
    SumNonNegative(w);
    var t := Sum(w);
    NormalizedSumsToOne(w);
    var p := MatchDistribution(g);
    forall c | 0 <= c < g.Cells()
      ensures p[c] > 0.0 && p[c] <= p[top]
    {
      RealDivMonotone(0.0, w[c], t);
      RealDivMonotone(w[c], w[top], t);
    }
    forall c, d | 0 <= c < g.Cells() && 0 <= d < g.Cells() && OnCross(g.n, top, c) && OffCross(g.n, top, d)
      ensures p[d] <= p[c]
    {
      RealDivMonotone(w[d], w[c], t);
    }
  }

  /** Cell (a, b)'s update in prob_match's double loop, added to its initial
      value, gives its weight. */
  lemma MatchUpdate(n: nat, top: nat, a: nat, b: nat)
    requires n >= 1 && top < n * n && a < n && b < n
    ensures a * n + b < n * n
    ensures (a == top / n && b == top % n) <==> a * n + b == top
    ensures var nn := (n * n) as real;
      && (a == top / n && b == top % n ==>
            1.0 + ((n - 1) * (n - 1) + 2 * (n - 1)) as real / nn == MatchWeight(n, top, a * n + b))
      && (a != top / n && b != top % n ==>
            1.0 + 3.0 * (1.0 / nn) == MatchWeight(n, top, a * n + b))
      && ((a == top / n) != (b == top % n) ==>
            1.0 + ((2 * (n - 1)) as real / nn + 1.0 / nn) == MatchWeight(n, top, a * n + b))
  {
    CellOf(a, b, n);
    DivSplit(top, n);
    var nn := (n * n) as real;
    assert nn > 0.0;
    assert 3.0 * (1.0 / nn) == 3.0 / nn;
    assert (2 * (n - 1)) as real / nn + 1.0 / nn == (2 * (n - 1) + 1) as real / nn;
  }

  /** The entry of prob_match's matrix before the double loop: its weight at
      the OptPhi maximum, whose bonus is added first, and 1 elsewhere. */
  function MatchStart(n: nat, top: nat, c: nat): real
    requires n >= 1
  {
    if c == top then MatchWeight(n, top, c) else 1.0
  }

  /** One pass of the inner loop of prob_match (lines 141-147): adds the
      bonus of every cell of row a in place, leaving the other rows alone. */
  method AddRowBonus(matrix: array<real>, n: nat, top: nat, a: nat)
    requires n >= 1 && top < n * n && a < n && matrix.Length == n * n
    modifies matrix
    ensures forall c :: 0 <= c < matrix.Length ==>
      matrix[c] == if a * n <= c < a * n + n then old(matrix[c]) + (MatchWeight(n, top, c) - MatchStart(n, top, c)) else old(matrix[c])
  {
    var ind1, ind2 := top / n, top % n;
    var nn := (n * n) as real;
    ghost var before := matrix[..];
    for b := 0 to n
      invariant forall c :: 0 <= c < matrix.Length ==>
        matrix[c] == if a * n <= c < a * n + b then before[c] + (MatchWeight(n, top, c) - MatchStart(n, top, c)) else before[c]
    {
      MatchUpdate(n, top, a, b);
      if a != ind1 && b != ind2 {
        matrix[a * n + b] := matrix[a * n + b] + 3.0 * (1.0 / nn);
      } else if a == ind1 && b != ind2 {
        matrix[a * n + b] := matrix[a * n + b] + ((2 * (n - 1)) as real / nn + 1.0 / nn);
      } else if b == ind2 && a != ind1 {
        matrix[a * n + b] := matrix[a * n + b] + ((2 * (n - 1)) as real / nn + 1.0 / nn);
      }
    }
  }

  /** prob_match's matrix before its double loop (lines 136-138), kept flat. */
  method MatchStartMatrix(n: nat, top: nat) returns (matrix: array<real>)
    requires n >= 1 && top < n * n
    ensures fresh(matrix) && matrix.Length == n * n
    ensures forall c :: 0 <= c < n * n ==> matrix[c] == MatchStart(n, top, c)
  {
    var ind1, ind2 := top / n, top % n;
    assert ind1 * n + ind2 == top by { DivSplit(top, n); }
    var nn := (n * n) as real;
    assert MatchWeight(n, top, top) == 1.0 + ((n - 1) * (n - 1) + 2 * (n - 1)) as real / nn by {
      assert MatchBonus(n, top, top) == (n - 1) * (n - 1) + 2 * (n - 1);
    }
    matrix := new real[n * n](_ => 1.0);
    matrix[ind1 * n + ind2] := matrix[ind1 * n + ind2] + ((n - 1) * (n - 1) + 2 * (n - 1)) as real / nn;
  }

  /** The unnormalised matrix of prob_match (lines 136-147), kept flat. */
  method MatchMatrix(n: nat, top: nat) returns (matrix: array<real>)
    requires n >= 1 && top < n * n
    ensures fresh(matrix) && matrix.Length == n * n
    ensures forall c :: 0 <= c < n * n ==> matrix[c] == MatchWeight(n, top, c)
  {
    matrix := MatchStartMatrix(n, top);
    for a := 0 to n
      invariant forall c :: 0 <= c < n * n ==>
        matrix[c] == if c < a * n then MatchWeight(n, top, c) else MatchStart(n, top, c)
    {
      ghost var before := matrix[..];
      AddRowBonus(matrix, n, top, a);
      assert a * n + n == (a + 1) * n;
      forall c | 0 <= c < n * n
        ensures matrix[c] == if c < (a + 1) * n then MatchWeight(n, top, c) else MatchStart(n, top, c)
      {
        if a * n <= c < a * n + n {
          assert before[c] == MatchStart(n, top, c);
        }
      }
    }
  }

  /** prob_match (lines 133-157): the weights are added in place over the
      n-by-n matrix, normalised, and `choice`, drawn by np.random.choice, is
      decoded as (choice // n, choice % n). */
  method ProbMatch(g: Estimates, choice: nat) returns (o: Outcome)
    requires g.Grid() && choice < g.Cells()
    ensures o == Chosen([choice / g.n, choice % g.n], MatchDistribution(g))
    ensures Flatten(o.action, g.n) == choice && InGrid(o.action, g.n)
    ensures Sound(g, o)
  {
    var n := g.n;
    var matrix := MatchMatrix(n, ArgMax(g.optPhi));
    assert matrix[..] == MatchWeights(g);
    MatchDistributionSpec(g);
    assert Sum(matrix[..]) > 0.0 by {
      MatchWeightsOrdered(g);
      SumNonNegative(matrix[..]);
    }
    var total := Sum(matrix[..]);
    DivideAll(matrix, total);
    GridCoordinates(choice, n);
    o := Chosen([choice / n, choice % n], matrix[..]);
  }

  // ---------------------------------------------------------------------
  // The probability strategies over [n]*k

  /** np.random.choice can draw from p = w / sum(w) only when the total is not
      zero and no entry of p is negative. */
  predicate CanDraw(w: seq<real>)
  {
    Sum(w) != 0.0 && NonNegative(Normalized(w))
  }

  /** choice is a draw np.random.choice can make from w / sum(w): a cell with
      positive probability. */
  predicate Drawable(w: seq<real>, choice: nat)
  {
    CanDraw(w) ==> choice < |w| && Normalized(w)[choice] > 0.0
  }

  /** Normalising w, drawing `choice` from it and decoding it with unravel_index. */
  function Drawn(g: Estimates, w: seq<real>, choice: nat): (o: Outcome)
    requires g.Valid() && |w| == g.Cells() && Drawable(w, choice)
    ensures o.Chosen? || o == Fails(InvalidProbabilities)
    ensures Sound(g, o)
  {
    if CanDraw(w) then
      NormalizedSumsToOne(w);
      FlattenUnravel(choice, g.n, g.k);
      Chosen(Unravel(choice, g.n, g.k), Normalized(w))
    else Fails(InvalidProbabilities)
  }

  /** What prob_active divides by its total: OptPhi with every cell below
      max(PesPhi) set to the floor value. */
  function ActiveWeights(g: Estimates): (w: seq<real>)
    requires g.Valid()
    ensures |w| == g.Cells()
    ensures forall c :: 0 <= c < g.Cells() ==>
      w[c] == if g.optPhi[c] < Max(g.pesPhi) then FloorActive else g.optPhi[c]
    ensures Max(g.pesPhi) >= 0.0 ==> NonNegative(w)
    ensures Max(g.pesPhi) > 0.0 ==> forall c :: 0 <= c < g.Cells() ==> w[c] > 0.0
  {
    Where(g.optPhi, Below(g.optPhi, Max(g.pesPhi)), FloorActive)
  }

  /** When some pessimistic bound is positive, every weight of prob_active is
      positive, so np.random.choice accepts its tensor. */
  lemma ActiveWeightsDrawable(g: Estimates)
    requires g.Valid()
    ensures Max(g.pesPhi) > 0.0 ==> CanDraw(ActiveWeights(g)) && IsDistribution(Normalized(ActiveWeights(g)))
  {
    var w := ActiveWeights(g);
    if Max(g.pesPhi) > 0.0 {
      assert w[0] > 0.0;
      SumNonNegative(w);
      NormalizedSumsToOne(w);
    }
  }

  /** A copy of OptPhi, held in memory. */
  method CopyOptPhi(g: Estimates) returns (phi: array<real>)
    requires g.Valid()
    ensures fresh(phi) && phi[..] == g.optPhi
  {
    phi := new real[g.Cells()](i requires 0 <= i < g.Cells() => g.optPhi[i]);
  }

  /** phi /= sum(phi) followed by the draw, on a tensor held in memory. */
  method NormaliseAndDraw(g: Estimates, phi: array<real>, choice: nat) returns (o: Outcome)
    requires g.Valid() && phi.Length == g.Cells() && Drawable(phi[..], choice)
    modifies phi
    ensures o == Drawn(g, old(phi[..]), choice)
    ensures Sum(old(phi[..])) != 0.0 ==> phi[..] == Normalized(old(phi[..]))
    ensures o.Chosen? ==> o.prob == phi[..]
  {
    ghost var w := phi[..];
    var total := Sum(phi[..]);
    if total == 0.0 {
      return Fails(InvalidProbabilities);
    }
    DivideAll(phi, total);
    if !NonNegative(phi[..]) {
      return Fails(InvalidProbabilities);
    }
    o := Chosen(Unravel(choice, g.n, g.k), phi[..]);
  }

  /** prob_active (lines 158-171): masks a copy of OptPhi, normalises it and
      draws `choice` from it. OptPhi itself is a value and cannot change. */
  method ProbActive(g: Estimates, choice: nat) returns (o: Outcome)
    requires g.Valid() && Drawable(ActiveWeights(g), choice)
    ensures o == Drawn(g, ActiveWeights(g), choice)
    ensures Sound(g, o)
  {
    var phi := CopyOptPhi(g);
    var mask := Below(phi[..], Max(g.pesPhi));
    SetWhere(phi, mask, FloorActive);
    o := NormaliseAndDraw(g, phi, choice);
  }

  /** What prob_active_2 divides by its total: OptPhi shifted by its minimum,
      with the cells where the shifted value is below max(PesPhi) - min(OptPhi)
      set to the floor value. */
  function ShiftedWeights(g: Estimates): (w: seq<real>)
    requires g.Valid()
    ensures |w| == g.Cells() && NonNegative(w)
  {
    var shifted := Shift(g.optPhi, Min(g.optPhi));
    Where(shifted, Below(shifted, Max(g.pesPhi) - Min(g.optPhi)), FloorActive)
  }

  /** prob_active_2's mask selects the same cells as prob_active's (OptPhi below
      max(PesPhi)), every entry it divides is non-negative, and so the draw fails
      only when the total is zero. */
  lemma {:induction false} ShiftedWeightsSpec(g: Estimates)
    requires g.Valid()
    ensures |ShiftedWeights(g)| == g.Cells()
    ensures forall c :: 0 <= c < g.Cells() ==>
      ShiftedWeights(g)[c] == if g.optPhi[c] < Max(g.pesPhi) then FloorActive else g.optPhi[c] - Min(g.optPhi)
    ensures NonNegative(ShiftedWeights(g))
    ensures CanDraw(ShiftedWeights(g)) <==> Sum(ShiftedWeights(g)) != 0.0
  {
    var w := ShiftedWeights(g);
    assert NonNegative(w);
    if Sum(w) != 0.0 {
      NormalizedSumsToOne(w);
    }
  }

  /** prob_active_2 (lines 173-191). */
  method ProbActive2(g: Estimates, choice: nat) returns (o: Outcome)
    requires g.Valid() && Drawable(ShiftedWeights(g), choice)
    ensures o == Drawn(g, ShiftedWeights(g), choice)
    ensures Sound(g, o)
  {
    var minOpt := Min(g.optPhi);
    var phi := CopyOptPhi(g);
    SubtractAll(phi, minOpt);
    var mask := Below(phi[..], Max(g.pesPhi) - minOpt);
    SetWhere(phi, mask, FloorActive);
    o := NormaliseAndDraw(g, phi, choice);
  }

  /** The tensor prob_active_4 normalises when it mixes, step by step as the
      source computes it (lines 236-247). */
  function Active4Weights(g: Estimates): (w: seq<real>)
    requires g.Valid()
    ensures |w| == g.Cells() && NonNegative(w)
  {
    var maxPes, minOpt := Max(g.pesPhi), Min(g.optPhi);
    var negative := Below(g.values, 0.0);
    var kept := Where(Where(g.optPhi, Below(g.optPhi, maxPes), 0.0), negative, 0.0);
    var shifted := Shift(kept, minOpt);
    Where(Where(shifted, Below(shifted, maxPes - minOpt), FloorActive4), negative, FloorActive4)
  }

  /** Cell by cell, prob_active_4's tensor is the floor where Values is negative;
      OptPhi - min(OptPhi) where OptPhi reaches max(PesPhi); elsewhere the floor
      when max(PesPhi) > 0 and -min(OptPhi) otherwise. No entry is negative. */
  lemma {:induction false} Active4WeightsSpec(g: Estimates)
    requires g.Valid()
    ensures |Active4Weights(g)| == g.Cells()
    ensures forall c :: 0 <= c < g.Cells() ==>
      Active4Weights(g)[c] == (
        if g.values[c] < 0.0 then FloorActive4
        else if g.optPhi[c] >= Max(g.pesPhi) then g.optPhi[c] - Min(g.optPhi)
        else if Max(g.pesPhi) > 0.0 then FloorActive4
        else -Min(g.optPhi))
    ensures NonNegative(Active4Weights(g))
  {
    var w := Active4Weights(g);
    forall c | 0 <= c < g.Cells()
      ensures w[c] >= 0.0
    {
      assert Min(g.optPhi) <= g.optPhi[c];
    }
  }

  /** The tensor prob_active_4 draws from: one-hot at the first OptPhi maximum,
      unless that cell is known and the uniform draw u is below 0.1. */
  function Active4Candidate(g: Estimates, u: real): (w: seq<real>)
    requires g.Valid()
    ensures |w| == g.Cells() && NonNegative(w)
    ensures CanDraw(w) <==> Sum(w) != 0.0
    ensures !g.known[ArgMax(g.optPhi)] || u >= MixThreshold ==> IsDistribution(w) && CanDraw(w)
  {
    var top := ArgMax(g.optPhi);
    if g.known[top] && u < MixThreshold then
      var w := Active4Weights(g);
      if Sum(w) != 0.0 then NormalizedSumsToOne(w); w else w
    else
      OneHotIsDistribution(g.Cells(), top);
      NormalizedSumsToOne(OneHot(g.Cells(), top));
      OneHot(g.Cells(), top)
  }

  /** The in-place masking and shifting of prob_active_4 (lines 236-247). */
  method Active4Tensor(g: Estimates) returns (phi: array<real>)
    requires g.Valid()
    ensures fresh(phi) && phi[..] == Active4Weights(g)
  {
    var maxPes, minOpt := Max(g.pesPhi), Min(g.optPhi);
    phi := CopyOptPhi(g);
    SetWhere(phi, Below(phi[..], maxPes), 0.0);
    var negative := Below(g.values, 0.0);
    SetWhere(phi, negative, 0.0);
    SubtractAll(phi, minOpt);
    SetWhere(phi, Below(phi[..], maxPes - minOpt), FloorActive4);
    SetWhere(phi, negative, FloorActive4);
  }

  /** prob_active_4 (lines 233-275); u is np.random.rand's draw and choice
      np.random.choice's. */
  method ProbActive4(g: Estimates, u: real, choice: nat) returns (o: Outcome)
    requires g.Valid() && Drawable(Active4Candidate(g, u), choice)
    ensures !g.known[ArgMax(g.optPhi)] || u >= MixThreshold ==> o == SelectFlat(g, ArgMax(g.optPhi))
    ensures g.known[ArgMax(g.optPhi)] && u < MixThreshold ==> o == Drawn(g, Active4Weights(g), choice)
    ensures Sound(g, o)
  {
    var phi := Active4Tensor(g);
    var top := ArgMax(g.optPhi);
    if g.known[top] && u < MixThreshold {
      o := NormaliseAndDraw(g, phi, choice);
    } else {
      var phi2 := new real[g.Cells()](_ => 0.0);
      phi2[top] := 1.0;
      assert phi2[..] == OneHot(g.Cells(), top);
      OneHotIsDistribution(g.Cells(), top);
      FlattenUnravel(top, g.n, g.k);
      o := Chosen(Unravel(choice, g.n, g.k), phi2[..]);
    }
  }

  // ---------------------------------------------------------------------
  // The sort-based strategies

  /** order is some result np.argsort may give for s: every cell exactly once,
      by non-decreasing value. The default sort is not stable, so ties may come
      in any order. */
  ghost predicate IsArgsort(s: seq<real>, order: seq<nat>)
  {
    && |order| == |s|
    && (forall i :: 0 <= i < |order| ==> order[i] < |s|)
    && (forall c :: 0 <= c < |s| ==> c in order)
    && (forall i, j :: 0 <= i < j < |order| ==> order[i] != order[j])
    && (forall i, j :: 0 <= i < j < |order| ==> s[order[i]] <= s[order[j]])
  }

  function Reversed(s: seq<nat>): (r: seq<nat>)
    ensures |r| == |s| && forall i :: 0 <= i < |s| ==> r[i] == s[|s| - 1 - i]
  {
    if |s| == 0 then [] else [s[|s| - 1]] + Reversed(s[..|s| - 1])
  }

  /** argsort(...)[-100:] reversed: the (at most) 100 largest cells, largest first. */
  function TopCells(order: seq<nat>, m: nat): (top: seq<nat>)
    requires forall i :: 0 <= i < |order| ==> order[i] < m
    ensures |top| == if |order| < TopCount then |order| else TopCount
    ensures forall i :: 0 <= i < |top| ==> top[i] == order[|order| - 1 - i]
    ensures forall i :: 0 <= i < |top| ==> top[i] < m
  {
    var count := if |order| < TopCount then |order| else TopCount;
    Reversed(order[|order| - count..])
  }

  /** The scanned cells come in non-increasing OptPhi order and the first one holds the maximum. */
  lemma {:induction false} TopCellsDescending(s: seq<real>, order: seq<nat>)
    requires IsArgsort(s, order)
    ensures forall i, j :: 0 <= i < j < |TopCells(order, |s|)| ==> s[TopCells(order, |s|)[j]] <= s[TopCells(order, |s|)[i]]
    ensures |s| > 0 ==> forall c :: 0 <= c < |s| ==> s[c] <= s[TopCells(order, |s|)[0]]
  {
    var top := TopCells(order, |s|);
    forall i, j | 0 <= i < j < |top|
      ensures s[top[j]] <= s[top[i]]
    {
      assert top[j] == order[|order| - 1 - j] && top[i] == order[|order| - 1 - i];
    }
    if |s| > 0 {
      forall c | 0 <= c < |s|
        ensures s[c] <= s[top[0]]
      {
        assert c in order;
        var j :| 0 <= j < |order| && order[j] == c;
        if j < |order| - 1 {
          assert s[order[j]] <= s[order[|order| - 1]];
        }
      }
    }
  }

  /** descending_active_3 (lines 346-352): the last cell of the argsort. */
  function DescendingActive3(g: Estimates, order: seq<nat>): (o: Outcome)
    requires g.Valid() && IsArgsort(g.optPhi, order)
    ensures o.Chosen? && Flatten(o.action, g.n) < g.Cells()
    ensures forall c :: 0 <= c < g.Cells() ==> g.optPhi[c] <= g.optPhi[Flatten(o.action, g.n)]
    ensures Sound(g, o)
  {
    TopCellsDescending(g.optPhi, order);
    SelectFlat(g, order[|order| - 1])
  }

  /** A cell descending_active_2 accepts in its scan: unobserved, with OptPhi
      strictly above max(PesPhi). */
  predicate Promising(g: Estimates, c: nat)
    requires g.Valid() && c < g.Cells()
  {
    !g.known[c] && g.optPhi[c] > Max(g.pesPhi)
  }

  /** Position j of the scanned cells is the first Promising one. */
  predicate IsFirstPromising(g: Estimates, cells: seq<nat>, j: nat)
    requires g.Valid() && forall i :: 0 <= i < |cells| ==> cells[i] < g.Cells()
  {
    && j < |cells| && Promising(g, cells[j])
    && forall i :: 0 <= i < j ==> !Promising(g, cells[i])
  }

  /** The scan loop of descending_active_2 (lines 338-340): the position of the
      first Promising cell, if any. */
  method ScanPromising(g: Estimates, cells: seq<nat>) returns (r: Option<nat>)
    requires g.Valid() && forall i :: 0 <= i < |cells| ==> cells[i] < g.Cells()
    ensures r.Some? ==> IsFirstPromising(g, cells, r.value)
    ensures r.None? <==> forall j :: 0 <= j < |cells| ==> !Promising(g, cells[j])
  {
    var maxPes := Max(g.pesPhi);
    var i := 0;
    while i < |cells|
      invariant 0 <= i <= |cells|
      invariant forall j :: 0 <= j < i ==> !Promising(g, cells[j])
    {
      var ind := cells[i];
      if !g.known[ind] && g.optPhi[ind] > maxPes {
        return Some(i);
      }
      i := i + 1;
    }
    return None;
  }

  /** At most one position is the first Promising one. */
  lemma FirstPromisingUnique(g: Estimates, cells: seq<nat>, j: nat, k: nat)
    requires g.Valid() && forall i :: 0 <= i < |cells| ==> cells[i] < g.Cells()
    requires IsFirstPromising(g, cells, j) && IsFirstPromising(g, cells, k)
    ensures j == k
  {
    if j < k { assert false; }
    if k < j { assert false; }
  }

  /** What descending_active_2 returns for the argsort order: IndexError with
      fewer than two cells; the top cell when the second's OptPhi is below
      max(PesPhi); else the first Promising scanned cell; else the failure of
      np.random.choice on a 2-D array. */
  ghost predicate DescendingActive2Spec(g: Estimates, order: seq<nat>, o: Outcome)
    requires g.Valid() && IsArgsort(g.optPhi, order)
  {
    && (|order| < 2 ==> o == Fails(IndexOutOfRange))
    && (|order| >= 2 && g.optPhi[TopCells(order, g.Cells())[1]] < Max(g.pesPhi) ==> o == SelectFlat(g, TopCells(order, g.Cells())[0]))
    && (|order| >= 2 && g.optPhi[TopCells(order, g.Cells())[1]] >= Max(g.pesPhi) ==>
          && (forall j: nat :: IsFirstPromising(g, TopCells(order, g.Cells()), j) ==> o == SelectFlat(g, TopCells(order, g.Cells())[j]))
          && ((forall j :: 0 <= j < |TopCells(order, g.Cells())| ==> !Promising(g, TopCells(order, g.Cells())[j])) ==> o == Fails(NotOneDimensional)))
    && Sound(g, o)
  }

  /** descending_active_2 (lines 327-344). Its last branch hands a 2-D array to
      np.random.choice, which raises. */
  method DescendingActive2(g: Estimates, order: seq<nat>) returns (o: Outcome)
    requires g.Valid() && IsArgsort(g.optPhi, order)
    ensures DescendingActive2Spec(g, order, o)
  {
    var sorted := TopCells(order, g.Cells());
    if |sorted| < 2 {
      return Fails(IndexOutOfRange);
    }
    if g.optPhi[sorted[1]] < Max(g.pesPhi) {
      return SelectFlat(g, sorted[0]);
    }
    var found := ScanPromising(g, sorted);
    match found
    case Some(k) =>
      o := SelectFlat(g, sorted[k]);
      forall j: nat | IsFirstPromising(g, sorted, j)
        ensures o == SelectFlat(g, sorted[j])
      {
        FirstPromisingUnique(g, sorted, j, k);
      }
    case None =>
      o := Fails(NotOneDimensional);
  }

  // ---------------------------------------------------------------------
  // sample_index

  /** The strategy codes sample_index understands, named after their strings. */
  datatype Code = D | RA | NR | R | OR | LR | PR | PM | PA | DA | DA2 | PA3 | PA4

  function Spelling(c: Code): string
  {
    match c
    case D => "d"      case RA => "ra"    case NR => "nr"   case R => "r"
    case OR => "or"    case LR => "lr"    case PR => "pr"   case PM => "pm"
    case PA => "pa"    case DA => "da"    case DA2 => "da2" case PA3 => "pa3"
    case PA4 => "pa4"
  }

  /** The code string comparisons of sample_index, lines 4-29. */
  function CodeOf(s: string): (r: Option<Code>)
    ensures r.Some? ==> Spelling(r.value) == s
    ensures forall c :: Spelling(c) == s ==> r == Some(c)
  {
    if s == "d" then Some(D)
    else if s == "ra" then Some(RA)
    else if s == "nr" then Some(NR)
    else if s == "r" then Some(R)
    else if s == "or" then Some(OR)
    else if s == "lr" then Some(LR)
    else if s == "pr" then Some(PR)
    else if s == "pm" then Some(PM)
    else if s == "pa" then Some(PA)
    else if s == "da" then Some(DA)
    else if s == "da2" then Some(DA2)
    else if s == "pa3" then Some(PA3)
    else if s == "pa4" then Some(PA4)
    else None
  }

  /** The codes whose strategies are written for an n-by-n grid. */
  predicate IsGridCode(c: Code)
  {
    c == D || c == RA || c == NR || c == R || c == OR || c == LR || c == PR || c == PM
  }

  /** The random draws any strategy may use. */
  datatype Draws = Draws(pick: nat, choice: nat, u: real, order: seq<nat>)

  /** What the strategy of code c needs: the n-by-n grid for the 2-player
      strategies, and draws that np.random.choice and np.argsort can produce. */
  ghost predicate CanDispatch(g: Estimates, c: Code, d: Draws)
  {
    && g.Valid()
    && (IsGridCode(c) ==> g.Grid())
    && (c == RA ==> g.Grid() && (|ActiveUnknown(g, g.Cells())| > 1 ==> d.pick < |ActiveUnknown(g, g.Cells())|))
    && (c == PM ==> d.choice < g.Cells())
    && (c == PA ==> Drawable(ActiveWeights(g), d.choice))
    && (c == PA4 ==> Drawable(Active4Candidate(g, d.u), d.choice))
    && (c == DA || c == DA2 ==> IsArgsort(g.optPhi, d.order))
  }

  /** The outcome of the strategy that code c names. */
  ghost predicate StrategyOutcome(g: Estimates, c: Code, d: Draws, o: Outcome)
    requires CanDispatch(g, c, d)
  {
    match c
    case D => o == DescendingActive(g)
    case RA => RandomActiveSpec(g, d.pick, o)
    case NR => o == NearbyThenRandom(g)
    case R => o == RandomIndex(g)
    case OR => o == OptThenRandom(g)
    case LR => o == LowThenRandom(g)
    case PR => o == PesThenRandom(g)
    case PM => o == Chosen([d.choice / g.n, d.choice % g.n], MatchDistribution(g))
    case PA => o == Drawn(g, ActiveWeights(g), d.choice)
    case DA => DescendingActive2Spec(g, d.order, o)
    case DA2 => o == DescendingActive3(g, d.order)
    case PA3 => o == Fails(NotModelled)
    case PA4 =>
      if !g.known[ArgMax(g.optPhi)] || d.u >= MixThreshold then o == SelectFlat(g, ArgMax(g.optPhi))
      else o == Drawn(g, Active4Weights(g), d.choice)
  }

  /** The outcome of code c is the outcome of the strategy it names. Every
      selection is sound, and the 2-player strategies other than prob_match
      select only unobserved cells. */
  ghost predicate Dispatched(g: Estimates, c: Code, d: Draws, o: Outcome)
    requires CanDispatch(g, c, d)
  {
    && StrategyOutcome(g, c, d, o)
    && (IsGridCode(c) && c != PM ==> PicksUnknown(g, o))
    && Sound(g, o)
  }

  /** The body of sample_index once the code is known. */
  method Dispatch(g: Estimates, c: Code, d: Draws) returns (o: Outcome)
    requires CanDispatch(g, c, d)
    ensures Dispatched(g, c, d, o)
  {
    if IsGridCode(c) {
      o := DispatchGrid(g, c, d);
    } else {
      o := DispatchTensor(g, c, d);
    }
  }

  /** The branches of sample_index for the 2-player strategies. */
  method DispatchGrid(g: Estimates, c: Code, d: Draws) returns (o: Outcome)
    requires CanDispatch(g, c, d) && IsGridCode(c)
    ensures Dispatched(g, c, d, o)
  {
    PowTwo(g.n);
    match c
    case D => o := DescendingActive(g);
    case RA => o := RandomActive(g, d.pick);
    case NR => o := NearbyThenRandom(g);
    case R => o := RandomIndex(g);
    case OR => o := OptThenRandom(g);
    case LR => o := LowThenRandom(g);
    case PR => o := PesThenRandom(g);
    case PM => o := ProbMatch(g, d.choice);
  }

  /** The branches of sample_index for the strategies over the whole tensor. */
  method DispatchTensor(g: Estimates, c: Code, d: Draws) returns (o: Outcome)
    requires CanDispatch(g, c, d) && !IsGridCode(c)
    ensures Dispatched(g, c, d, o)
  {
    match c
    case PA => o := ProbActive(g, d.choice);
    case DA => o := DescendingActive2(g, d.order);
    case DA2 => o := DescendingActive3(g, d.order);
    case PA3 => o := Fails(NotModelled);
    case PA4 => o := ProbActive4(g, d.u, d.choice);
  }

  /** sample_index (lines 3-29): an unknown code gives the implicit None; a
      known one gives the outcome of the strategy it names. */
  method SampleIndex(g: Estimates, code: string, d: Draws) returns (o: Outcome)
    requires g.Valid()
    requires CodeOf(code).Some? ==> CanDispatch(g, CodeOf(code).value, d)
    ensures CodeOf(code).None? ==> o == Nothing
    ensures CodeOf(code).Some? ==> Dispatched(g, CodeOf(code).value, d, o)
    ensures Sound(g, o)
  {
    var c := CodeOf(code);
    if c.None? {
      return Nothing;
    }
    o := Dispatch(g, c.value, d);
  }
}
