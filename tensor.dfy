/** Dense tensors of shape [n]*k stored flat in row-major (C) order, the layout
    numpy's ravel/flatten and unravel_index use, together with the reductions
    the sampling strategies apply to them (argmax, max, min, the first unknown
    cell, the sum) and the in-place element-wise updates the probability
    strategies make to a copied tensor. */
module Tensor {

  datatype Option<T> = None | Some(value: T)

  /** Number of cells of a tensor of shape [n]*k. */
  function Pow(n: nat, k: nat): nat
  {
    if k == 0 then 1 else n * Pow(n, k - 1)
  }

  lemma {:induction false} PowPositive(n: nat, k: nat)
    requires n >= 1
    ensures Pow(n, k) >= 1
  {
    if k > 0 {
      PowPositive(n, k - 1);
      MulMonotone(1, Pow(n, k - 1), n);
    }
  }

  lemma PowTwo(n: nat)
    ensures Pow(n, 2) == n * n
  {
    assert Pow(n, 1) == n * Pow(n, 0);
  }

  lemma MulMonotone(a: int, b: int, n: nat)
    requires a <= b
    ensures a * n <= b * n
  {
    assert b * n - a * n == (b - a) * n;
  }

  lemma DivMod(q: nat, r: nat, n: nat)
    requires r < n
    ensures (q * n + r) / n == q && (q * n + r) % n == r
  {
    var x := q * n + r;
    var d, m := x / n, x % n;
    assert x == d * n + m;
    if d > q {
      MulMonotone(q + 1, d, n);
      assert false;
    } else if d < q {
      MulMonotone(d + 1, q, n);
      assert false;
    }
  }

  lemma DivBelow(f: nat, n: nat, p: nat)
    requires n >= 1 && f < p * n
    ensures f / n < p
  {
    if f / n >= p {
      MulMonotone(p, f / n, n);
      assert false;
    }
  }

  /** a is a joint action of a game in which every player has n strategies. */
  predicate InGrid(a: seq<nat>, n: nat)
  {
    forall i :: 0 <= i < |a| ==> a[i] < n
  }

  /** Row-major flat position of a joint action: the last player's strategy
      varies fastest, as in numpy's default C order. */
  function Flatten(a: seq<nat>, n: nat): (f: nat)
    ensures InGrid(a, n) ==> f < Pow(n, |a|)
  {
    if |a| == 0 then 0
    else
      var init, last := a[..|a| - 1], a[|a| - 1];
      assert InGrid(a, n) ==> InGrid(init, n);
      if InGrid(a, n) then
        BoundStep(Flatten(init, n), last, Pow(n, |init|), n);
        Flatten(init, n) * n + last
      else Flatten(init, n) * n + last
  }

  /** numpy's unravel_index for the shape [n]*k: the joint action stored at
      flat position f. */
  function Unravel(f: nat, n: nat, k: nat): (a: seq<nat>)
    requires n >= 1
    ensures |a| == k && InGrid(a, n)
  {
    if k == 0 then [] else Unravel(f / n, n, k - 1) + [f % n]
  }

  lemma BoundStep(f: nat, r: nat, p: nat, n: nat)
    requires f < p && r < n
    ensures f * n + r < n * p
  {
    assert (f + 1) * n == f * n + n;
    MulMonotone(f + 1, p, n);
  }

  /** Decoding a flat position undoes encoding it. */
  lemma {:induction false} UnravelFlatten(a: seq<nat>, n: nat)
    requires n >= 1 && InGrid(a, n)
    ensures Unravel(Flatten(a, n), n, |a|) == a
  {
    if |a| > 0 {
      var init := a[..|a| - 1];
      assert InGrid(init, n);
      DivMod(Flatten(init, n), a[|a| - 1], n);
      UnravelFlatten(init, n);
      assert init + [a[|a| - 1]] == a;
    }
  }

  lemma FlattenSnoc(init: seq<nat>, r: nat, n: nat)
    ensures Flatten(init + [r], n) == Flatten(init, n) * n + r
  {
    assert (init + [r])[..|init|] == init;
  }

  lemma UnravelSnoc(f: nat, n: nat, k: nat)
    requires n >= 1 && k > 0
    ensures Unravel(f, n, k) == Unravel(f / n, n, k - 1) + [f % n]
  {
  }

  lemma DivSplit(f: nat, n: nat)
    requires n >= 1
    ensures (f / n) * n + f % n == f
  {
  }

  /** Encoding a decoded flat position gives the position back. */
  lemma {:induction false} FlattenUnravel(f: nat, n: nat, k: nat)
    requires n >= 1 && f < Pow(n, k)
    ensures Flatten(Unravel(f, n, k), n) == f
  {
    if k > 0 {
      assert f / n < Pow(n, k - 1) by {
        assert Pow(n, k) == Pow(n, k - 1) * n;
        DivBelow(f, n, Pow(n, k - 1));
      }
      FlattenUnravel(f / n, n, k - 1);
      UnravelSnoc(f, n, k);
      FlattenSnoc(Unravel(f / n, n, k - 1), f % n, n);
      DivSplit(f, n);
    }
  }

  /** On an n-by-n grid, decoding is (f // n, f % n) and encoding is i * n + j. */
  lemma {:induction false} GridCoordinates(f: nat, n: nat)
    requires n >= 1 && f < n * n
    ensures Unravel(f, n, 2) == [f / n, f % n]
    ensures Flatten([f / n, f % n], n) == f
  {
    var q, r := f / n, f % n;
    assert q < n by { DivBelow(f, n, n); }
    assert q / n == 0 && q % n == q by { DivMod(0, q, n); assert 0 * n + q == q; }
    assert Unravel(q, n, 1) == [q] by { assert Unravel(q / n, n, 0) == []; }
    assert Unravel(f, n, 2) == Unravel(q, n, 1) + [r];
    assert Flatten([q], n) == q by { assert [q][..0] == []; }
    assert Flatten([q, r], n) == f by {
      assert [q, r][..1] == [q];
      DivSplit(f, n);
    }
  }

  /** Cell (i, j) of an n-by-n grid sits at flat position i * n + j. */
  lemma CellOf(i: nat, j: nat, n: nat)
    requires i < n && j < n
    ensures (i * n + j) / n == i && (i * n + j) % n == j
    ensures i * n + j < n * n
  {
    DivMod(i, j, n);
    MulMonotone(i + 1, n, n);
  }

  /** Flat position c of the n-by-n grid is cell (i, j) = (c // n, c % n); its
      neighbours (i, j-1), (i, j+1), (i+1, j), (i-1, j) sit at c - 1, c + 1,
      c + n and c - n, which are inside the tensor whenever the source's bounds
      tests on i and j pass. */
  lemma NeighboursInGrid(n: nat, c: nat)
    requires n >= 1 && c < n * n
    ensures c % n >= 1 ==> 1 <= c
    ensures c % n + 1 < n ==> c + 1 < n * n
    ensures c / n + 1 < n ==> c + n < n * n
    ensures c / n >= 1 ==> n <= c
  {
    LeftInGrid(n, c);
    RightInGrid(n, c);
    BelowInGrid(n, c);
    AboveInGrid(n, c);
  }

  lemma LeftInGrid(n: nat, c: nat)
    requires n >= 1
    ensures c % n >= 1 ==> 1 <= c
  {
    assert (c / n) * n + c % n == c by { DivSplit(c, n); }
    assert (c / n) * n >= 0;
  }

  lemma RightInGrid(n: nat, c: nat)
    requires n >= 1 && c < n * n
    ensures c % n + 1 < n ==> c + 1 < n * n
  {
    var i, j := c / n, c % n;
    assert i * n + j == c by { DivSplit(c, n); }
    if j + 1 < n {
      assert i < n by { DivBelow(c, n, n); }
      CellOf(i, j + 1, n);
    }
  }

  lemma BelowInGrid(n: nat, c: nat)
    requires n >= 1 && c < n * n
    ensures c / n + 1 < n ==> c + n < n * n
  {
    var i, j := c / n, c % n;
    assert i * n + j == c by { DivSplit(c, n); }
    if i + 1 < n {
      assert (i + 1) * n + j == c + n by { assert (i + 1) * n == i * n + n; }
      CellOf(i + 1, j, n);
    }
  }

  lemma AboveInGrid(n: nat, c: nat)
    requires n >= 1 && c < n * n
    ensures c / n >= 1 ==> n <= c
  {
    var i, j := c / n, c % n;
    assert i * n + j == c by { DivSplit(c, n); }
    if i >= 1 {
      MulMonotone(1, i, n);
    }
  }

  /** Cell (i, j) shifted to (i + di, j + dj) is at d = c + di * n + dj. */
  lemma ShiftedCell(n: nat, c: nat, d: int, di: int, dj: int)
    requires n >= 1 && c < n * n && 0 <= c / n + di < n && 0 <= c % n + dj < n
    requires d == c + di * n + dj
    ensures 0 <= d < n * n && d / n == c / n + di && d % n == c % n + dj
  {
    var i, j := c / n, c % n;
    assert i * n + j == c by { DivSplit(c, n); }
    assert (i + di) * n + (j + dj) == d;
    CellOf(i + di, j + dj, n);
  }

  /** The position of the first largest entry (numpy's argmax). */
  ghost predicate IsFirstMax(s: seq<real>, c: nat)
  {
    && c < |s|
    && (forall i :: 0 <= i < |s| ==> s[i] <= s[c])
    && (forall i :: 0 <= i < c ==> s[i] < s[c])
  }

  /** numpy's argmax over the flattened tensor: ties go to the first position
      in row-major order. */
  function ArgMax(s: seq<real>): (c: nat)
    requires |s| > 0
    ensures IsFirstMax(s, c)
  {
    if |s| == 1 then 0
    else
      var c := ArgMax(s[..|s| - 1]);
      if s[|s| - 1] > s[c] then |s| - 1 else c
  }

  /** The first maximum is unique, so argmax is the only position that is one. */
  lemma FirstMaxUnique(s: seq<real>)
    requires |s| > 0
    ensures forall c: nat :: IsFirstMax(s, c) <==> c == ArgMax(s)
  {
    forall c: nat | IsFirstMax(s, c)
      ensures c == ArgMax(s)
    {
      var d := ArgMax(s);
      if c < d { assert false; }
      if d < c { assert false; }
    }
  }

  /** numpy's max. */
  function Max(s: seq<real>): (m: real)
    requires |s| > 0
    ensures forall i :: 0 <= i < |s| ==> s[i] <= m
    ensures exists i :: 0 <= i < |s| && s[i] == m
  {
    s[ArgMax(s)]
  }

  /** numpy's min. */
  function Min(s: seq<real>): (m: real)
    requires |s| > 0
    ensures forall i :: 0 <= i < |s| ==> m <= s[i]
    ensures exists i :: 0 <= i < |s| && s[i] == m
  {
    if |s| == 1 then s[0]
    else
      var m := Min(s[..|s| - 1]);
      if s[|s| - 1] < m then s[|s| - 1] else m
  }

  /** Every cell of the known-mask has been observed. */
  predicate AllKnown(known: seq<bool>)
  {
    forall i :: 0 <= i < |known| ==> known[i]
  }

  /** c is the first unobserved cell in row-major order. */
  ghost predicate IsFirstUnknown(known: seq<bool>, c: nat)
  {
    c < |known| && !known[c] && forall i :: 0 <= i < c ==> known[i]
  }

  /** np.argwhere(mask)[0] for the mask of unobserved cells, when there is one:
      argwhere lists positions in row-major order. */
  function FirstUnknown(known: seq<bool>): (r: Option<nat>)
    ensures r.None? <==> AllKnown(known)
    ensures r.Some? ==> IsFirstUnknown(known, r.value)
  {
    if |known| == 0 then None
    else if !known[0] then Some(0)
    else
      match FirstUnknown(known[1..])
      case None => None
      case Some(c) => Some(c + 1)
  }

  /** At most one cell is the first unobserved one, and FirstUnknown finds it. */
  lemma FirstUnknownUnique(known: seq<bool>)
    ensures forall c: nat :: IsFirstUnknown(known, c) <==> FirstUnknown(known) == Some(c)
  {
    forall c: nat | IsFirstUnknown(known, c)
      ensures FirstUnknown(known) == Some(c)
    {
      var d := FirstUnknown(known).value;
      if c < d { assert false; }
      if d < c { assert false; }
    }
  }

  /** numpy's sum, accumulated in flat order. */
  function Sum(s: seq<real>): real
  {
    if |s| == 0 then 0.0 else Sum(s[..|s| - 1]) + s[|s| - 1]
  }

  predicate NonNegative(s: seq<real>)
  {
    forall i :: 0 <= i < |s| ==> s[i] >= 0.0
  }

  /** A probability tensor: no negative entry, total mass 1. */
  predicate IsDistribution(p: seq<real>)
  {
    NonNegative(p) && Sum(p) == 1.0
  }

  lemma {:induction false} SumNonNegative(s: seq<real>)
    requires NonNegative(s)
    ensures Sum(s) >= 0.0
    ensures (exists i :: 0 <= i < |s| && s[i] > 0.0) ==> Sum(s) > 0.0
  {
    if |s| > 0 {
      var init := s[..|s| - 1];
      assert NonNegative(init);
      SumNonNegative(init);
      if exists i :: 0 <= i < |s| && s[i] > 0.0 {
        var i :| 0 <= i < |s| && s[i] > 0.0;
        if i < |s| - 1 {
          assert init[i] > 0.0;
        }
      }
    }
  }

  /** The tensor divided element-wise by t (numpy's `phi / t`). */
  function Scale(s: seq<real>, t: real): (r: seq<real>)
    requires t != 0.0
  {
    seq(|s|, i requires 0 <= i < |s| => s[i] / t)
  }

  lemma {:induction false} SumScale(s: seq<real>, t: real)
    requires t != 0.0
    ensures Sum(Scale(s, t)) == Sum(s) / t
  {
    if |s| > 0 {
      var init := s[..|s| - 1];
      assert Scale(s, t)[..|s| - 1] == Scale(init, t);
      SumScale(init, t);
      DivAdd(Sum(init), s[|s| - 1], t);
    }
  }

  lemma DivAdd(a: real, b: real, t: real)
    requires t != 0.0
    ensures (a + b) / t == a / t + b / t
  {
  }

  /** The tensor divided by its own total. */
  function Normalized(s: seq<real>): (r: seq<real>)
    requires Sum(s) != 0.0
  {
    Scale(s, Sum(s))
  }

  /** Normalising a tensor whose total is not zero gives total mass 1, and
      keeps a tensor with no negative entry non-negative. */
  lemma NormalizedSumsToOne(s: seq<real>)
    requires Sum(s) != 0.0
    ensures |Normalized(s)| == |s| && Sum(Normalized(s)) == 1.0
    ensures NonNegative(s) ==> IsDistribution(Normalized(s))
  {
    SumScale(s, Sum(s));
    DivSelf(Sum(s));
    if NonNegative(s) {
      SumNonNegative(s);
    }
  }

  lemma DivSelf(x: real)
    requires x != 0.0
    ensures x / x == 1.0
  {
  }

  /** A tensor of m cells holding 1 at position c and 0 elsewhere. */
  function OneHot(m: nat, c: nat): (r: seq<real>)
  {
    seq(m, i requires 0 <= i < m => if i == c then 1.0 else 0.0)
  }

  lemma {:induction false} OneHotSum(m: nat, c: nat)
    ensures Sum(OneHot(m, c)) == if c < m then 1.0 else 0.0
  {
    if m > 0 {
      assert OneHot(m, c)[..m - 1] == OneHot(m - 1, c);
      OneHotSum(m - 1, c);
    }
  }

  /** A one-hot tensor is a probability tensor that normalising leaves as it is. */
  lemma OneHotIsDistribution(m: nat, c: nat)
    requires c < m
    ensures IsDistribution(OneHot(m, c)) && Normalized(OneHot(m, c)) == OneHot(m, c)
  {
    OneHotSum(m, c);
  }

  /** The mask `s < x` of numpy's comparison broadcast over the tensor. */
  function Below(s: seq<real>, x: real): (mask: seq<bool>)
  {
    seq(|s|, i requires 0 <= i < |s| => s[i] < x)
  }

  /** numpy's masked assignment `s[mask] = v`, as a value. */
  function Where(s: seq<real>, mask: seq<bool>, v: real): (r: seq<real>)
    requires |mask| == |s|
  {
    seq(|s|, i requires 0 <= i < |s| => if mask[i] then v else s[i])
  }

  /** numpy's broadcast subtraction `s - x`, as a value. */
  function Shift(s: seq<real>, x: real): (r: seq<real>)
  {
    seq(|s|, i requires 0 <= i < |s| => s[i] - x)
  }

  /** `phi[mask] = v` on a tensor held in memory. */
  method SetWhere(a: array<real>, mask: seq<bool>, v: real)
    requires |mask| == a.Length
    modifies a
    ensures a[..] == Where(old(a[..]), mask, v)
  {
    ghost var before := a[..];
    for i := 0 to a.Length
      invariant forall j :: 0 <= j < a.Length ==> a[j] == (if j < i then Where(before, mask, v)[j] else before[j])
    {
      if mask[i] {
        a[i] := v;
      }
    }
    assert a[..] == Where(before, mask, v);
  }

  /** `phi = phi - x` on a tensor held in memory. */
  method SubtractAll(a: array<real>, x: real)
    modifies a
    ensures a[..] == Shift(old(a[..]), x)
  {
    ghost var before := a[..];
    for i := 0 to a.Length
      invariant forall j :: 0 <= j < a.Length ==> a[j] == (if j < i then before[j] - x else before[j])
    {
      a[i] := a[i] - x;
    }
    assert a[..] == Shift(before, x);
  }

  /** `phi /= t` on a tensor held in memory. */
  method DivideAll(a: array<real>, t: real)
    requires t != 0.0
    modifies a
    ensures a[..] == Scale(old(a[..]), t)
  {
    ghost var before := a[..];
    for i := 0 to a.Length
      invariant forall j :: 0 <= j < a.Length ==> a[j] == (if j < i then before[j] / t else before[j])
    {
      a[i] := a[i] / t;
    }
    assert a[..] == Scale(before, t);
  }
}
