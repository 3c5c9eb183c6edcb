/**
 * The histogram balancer of equalize_and_name.py.
 *
 * Videos are binned by their midline pass count. The leveling loop plans how
 * many videos to remove from each bin so that exactly `total - target` go, by
 * repeatedly lowering the highest bins towards the next-lower bin value.
 * The loop itself runs in place on an array (`CalculateRemovalsPerBin`); what it
 * computes is the function `Level`, whose properties are the lemmas below.
 */
module Balance {
  import opened Wrappers
  import opened PyText

  /** A video folder path. */
  type Folder = string

  // ---------------------------------------------------------------------
  // Sequences of bin values

  function Sum(s: seq<int>): int {
    if s == [] then 0 else Sum(s[..|s| - 1]) + s[|s| - 1]
  }

  /** Python's `max(s)` on a non-empty list. */
  function Max(s: seq<int>): (m: int)
    requires s != []
    ensures m in s && forall i :: 0 <= i < |s| ==> s[i] <= m
  {
    if |s| == 1 then s[0]
    else
      var m := Max(s[..|s| - 1]);
      if s[|s| - 1] > m then s[|s| - 1] else m
  }

  /** Python's `min(s)` on a non-empty list. */
  function Min(s: seq<int>): (m: int)
    requires s != []
    ensures m in s && forall i :: 0 <= i < |s| ==> m <= s[i]
  {
    if |s| == 1 then s[0]
    else
      var m := Min(s[..|s| - 1]);
      if s[|s| - 1] < m then s[|s| - 1] else m
  }

  predicate HasBelow(s: seq<int>, v: int) {
    exists i :: 0 <= i < |s| && s[i] < v
  }

  /** `max(val for val in s if val < v)`, defined when some value is below `v`. */
  function MaxBelow(s: seq<int>, v: int): (m: int)
    requires HasBelow(s, v)
    ensures m < v && m in s
    ensures forall i :: 0 <= i < |s| && s[i] < v ==> s[i] <= m
  {
    var init, last := s[..|s| - 1], s[|s| - 1];
    if !HasBelow(init, v) then
      assert forall i :: 0 <= i < |init| ==> init[i] == s[i];
      last
    else
      var m := MaxBelow(init, v);
      if last < v && last > m then last else m
  }

  function Zeros(n: nat): (z: seq<int>)
    ensures |z| == n && forall i :: 0 <= i < n ==> z[i] == 0
  {
    seq(n, _ => 0)
  }

  function Add(a: seq<int>, b: seq<int>): (c: seq<int>)
    requires |a| == |b|
    ensures |c| == |a| && forall i {:trigger c[i]} :: 0 <= i < |a| ==> c[i] == a[i] + b[i]
  {
    seq(|a|, i requires 0 <= i < |a| => a[i] + b[i])
  }

  function Sub(a: seq<int>, b: seq<int>): (c: seq<int>)
    requires |a| == |b|
    ensures |c| == |a| && forall i {:trigger c[i]} :: 0 <= i < |a| ==> c[i] == a[i] - b[i]
  {
    seq(|a|, i requires 0 <= i < |a| => a[i] - b[i])
  }

  predicate Increasing(idx: seq<nat>) {
    forall t, u :: 0 <= t < u < |idx| ==> idx[t] < idx[u]
  }

  /** `[i for i, val in enumerate(s) if val == v]`. */
  function IndicesOf(s: seq<int>, v: int): (r: seq<nat>)
    ensures forall t :: 0 <= t < |r| ==> r[t] < |s| && s[r[t]] == v
    ensures forall i {:trigger i in r} :: 0 <= i < |s| && s[i] == v ==> i in r
    ensures Increasing(r)
  {
    if s == [] then []
    else IndicesOf(s[..|s| - 1], v) + (if s[|s| - 1] == v then [|s| - 1] else [])
  }

  /** `w` with `d` added at each index of `idx`, one index after the other. */
  function Bump(w: seq<int>, idx: seq<nat>, d: int): (r: seq<int>)
    requires forall t :: 0 <= t < |idx| ==> idx[t] < |w|
    ensures |r| == |w|
  {
    if idx == [] then w
    else
      var r := Bump(w, idx[..|idx| - 1], d);
      var i := idx[|idx| - 1];
      r[i := r[i] + d]
  }

  // ---------------------------------------------------------------------
  // One round of the leveling loop (equalize_and_name.py:64-88)

  /** A round can run: there is a maximum and a value below it (line 67 raises otherwise). */
  predicate CanLevel(b: seq<int>) {
    b != [] && Min(b) < Max(b)
  }

  /** The round's "second max": the largest bin value below the maximum. */
  function SecondMax(b: seq<int>): int
    requires CanLevel(b)
  {
    MaxBelow(b, Max(b))
  }

  /** `reduce_by`: how many removals this round plans. */
  function ReduceBy(b: seq<int>, toRemove: int): int
    requires CanLevel(b)
  {
    var gap := Max(b) - SecondMax(b);
    if gap < toRemove then gap else toRemove
  }

  function MaxIndices(b: seq<int>): (idx: seq<nat>)
    requires b != []
    ensures |idx| > 0
  {
    var idx := IndicesOf(b, Max(b));
    var i :| 0 <= i < |b| && b[i] == Max(b);
    assert i in idx;
    idx
  }

  /**
   * The removals one round plans per bin: `reduce_by // k` at each of the `k`
   * bins at the maximum, then one more at each of the first `reduce_by % k` of them.
   */
  function RoundCut(b: seq<int>, toRemove: int): (cut: seq<int>)
    requires CanLevel(b)
    requires toRemove > 0
    ensures |cut| == |b|
  {
    var idx := MaxIndices(b);
    var r := ReduceBy(b, toRemove);
    Bump(Bump(Zeros(|b|), idx, r / |idx|), idx[..r % |idx|], 1)
  }

  // ---------------------------------------------------------------------
  // The whole leveling loop

  /**
   * What the loop ends with: the removals planned per bin, and whether it
   * finished or raised ValueError (`max()` of an empty sequence) part way,
   * after the removals listed had already been applied.
   */
  datatype Leveling = Finished(removals: seq<int>) | Raised(removals: seq<int>)

  function Shift(cut: seq<int>, o: Leveling): (o': Leveling)
    requires |cut| == |o.removals|
    ensures o'.Finished? == o.Finished? && o'.removals == Add(cut, o.removals)
  {
    match o
    case Finished(r) => Finished(Add(cut, r))
    case Raised(r) => Raised(Add(cut, r))
  }

  /** The removal plan of `calculate_removals_per_bin(b, Sum(b) - toRemove)`. */
  function Level(b: seq<int>, toRemove: int): (o: Leveling)
    ensures |o.removals| == |b|
    decreases if toRemove > 0 then toRemove else 0
  {
    if toRemove <= 0 then Finished(Zeros(|b|))
    else if !CanLevel(b) then Raised(Zeros(|b|))
    else
      var cut := RoundCut(b, toRemove);
      Shift(cut, Level(Sub(b, cut), toRemove - ReduceBy(b, toRemove)))
  }

  /** How many removals the loop can plan before every bin is level with the smallest. */
  function Capacity(b: seq<int>): int {
    if b == [] then 0 else Sum(b) - |b| * Min(b)
  }

  // ---------------------------------------------------------------------
  // Arithmetic on bins

  lemma {:induction false} SumUpdate(s: seq<int>, i: nat, x: int)
    requires i < |s|
    ensures Sum(s[i := x]) == Sum(s) - s[i] + x
  {
    if i < |s| - 1 {
      assert s[i := x][..|s| - 1] == s[..|s| - 1][i := x];
      SumUpdate(s[..|s| - 1], i, x);
    } else {
      assert s[i := x][..|s| - 1] == s[..|s| - 1];
    }
  }

  lemma {:induction false} SumZeros(n: nat)
    ensures Sum(Zeros(n)) == 0
  {
    if n > 0 {
      assert Zeros(n)[..n - 1] == Zeros(n - 1);
      SumZeros(n - 1);
    }
  }

  lemma {:induction false} SumAdd(a: seq<int>, b: seq<int>)
    requires |a| == |b|
    ensures Sum(Add(a, b)) == Sum(a) + Sum(b)
  {
    if a != [] {
      var n := |a|;
      assert Add(a, b)[..n - 1] == Add(a[..n - 1], b[..n - 1]);
      SumAdd(a[..n - 1], b[..n - 1]);
    }
  }

  lemma {:induction false} SumSub(a: seq<int>, b: seq<int>)
    requires |a| == |b|
    ensures Sum(Sub(a, b)) == Sum(a) - Sum(b)
  {
    if a != [] {
      var n := |a|;
      assert Sub(a, b)[..n - 1] == Sub(a[..n - 1], b[..n - 1]);
      SumSub(a[..n - 1], b[..n - 1]);
    }
  }

  /** A sum of values all at least `m` is at least `|s| * m`, at most `|s| * m'` if all are at most `m'`. */
  lemma {:induction false} SumBounds(s: seq<int>, m: int, m': int)
    requires forall i :: 0 <= i < |s| ==> m <= s[i] <= m'
    ensures |s| * m <= Sum(s) <= |s| * m'
  {
    if s != [] {
      SumBounds(s[..|s| - 1], m, m');
      assert (|s| - 1) * m + m == |s| * m;
      assert (|s| - 1) * m' + m' == |s| * m';
    }
  }

  lemma CapacityNonNegative(b: seq<int>)
    ensures Capacity(b) >= 0
    ensures b != [] && !CanLevel(b) ==> Capacity(b) == 0
  {
    if b != [] {
      SumBounds(b, Min(b), Max(b));
    }
  }

  lemma {:induction false} SumBump(w: seq<int>, idx: seq<nat>, d: int)
    requires forall t :: 0 <= t < |idx| ==> idx[t] < |w|
    ensures Sum(Bump(w, idx, d)) == Sum(w) + |idx| * d
  {
    if idx != [] {
      var n := |idx|;
      SumBump(w, idx[..n - 1], d);
      var r := Bump(w, idx[..n - 1], d);
      SumUpdate(r, idx[n - 1], r[idx[n - 1]] + d);
      assert (n - 1) * d + d == n * d;
    }
  }

  /** With distinct indices, `Bump` adds `d` exactly at the listed indices. */
  lemma {:induction false} BumpAt(w: seq<int>, idx: seq<nat>, d: int, i: nat)
    requires forall t :: 0 <= t < |idx| ==> idx[t] < |w|
    requires Increasing(idx)
    requires i < |w|
    ensures Bump(w, idx, d)[i] == w[i] + (if i in idx then d else 0)
  {
    if idx != [] {
      var n := |idx|;
      var init := idx[..n - 1];
      BumpAt(w, init, d, i);
      assert idx == init + [idx[n - 1]];
      assert idx[n - 1] !in init;
    }
  }

  /** The indices of `v` in a prefix of `s` begin the indices of `v` in `s`. */
  lemma {:induction false} IndicesOfPrefix(s: seq<int>, v: int, j: nat)
    requires j <= |s|
    ensures |IndicesOf(s[..j], v)| <= |IndicesOf(s, v)|
    ensures IndicesOf(s, v)[..|IndicesOf(s[..j], v)|] == IndicesOf(s[..j], v)
  {
    if j < |s| {
      var init := s[..|s| - 1];
      IndicesOfPrefix(init, v, j);
      assert init[..j] == s[..j];
    } else {
      assert s[..j] == s;
    }
  }

  /** Bin `i` at value `v` is at position "number of earlier bins at `v`" in `IndicesOf(s, v)`. */
  lemma Rank(s: seq<int>, v: int, i: nat)
    requires i < |s| && s[i] == v
    ensures var p := |IndicesOf(s[..i], v)|; p < |IndicesOf(s, v)| && IndicesOf(s, v)[p] == i
  {
    IndicesOfPrefix(s, v, i + 1);
    assert s[..i + 1][..i] == s[..i];
  }

  /** A bin is in the first `e` maximal bins exactly when fewer than `e` maximal bins precede it. */
  lemma InFirstMaximal(b: seq<int>, e: nat, i: nat)
    requires b != [] && i < |b| && e <= |MaxIndices(b)|
    ensures i in MaxIndices(b)[..e] <==> b[i] == Max(b) && |IndicesOf(b[..i], Max(b))| < e
  {
    var idx := MaxIndices(b);
    if b[i] == Max(b) {
      Rank(b, Max(b), i);
      var p := |IndicesOf(b[..i], Max(b))|;
      if p < e {
        assert idx[..e][p] == i;
      } else {
        forall q | 0 <= q < e
          ensures idx[..e][q] != i
        {
          assert idx[q] < idx[p];
        }
      }
    }
  }

  lemma MulAtLeast(q: int, k: int)
    requires q >= 0 && k >= 1
    ensures q * k >= q
  {
    var j := k - 1;
    assert q * k == q * j + q;
  }

  lemma DivBounds(r: int, k: int)
    requires r >= 0 && k >= 1
    ensures 0 <= r / k <= r
    ensures r / k * k + r % k == r && 0 <= r % k < k
    ensures r % k > 0 ==> r / k + 1 <= r
  {
    var q, m := r / k, r % k;
    assert q * k + m == r;
    assert q >= 0;
    MulAtLeast(q, k);
  }

  // ---------------------------------------------------------------------
  // What one round does

  /**
   * The remainder rule of lines 77 and 85-88: bin `i` loses `reduce_by // k`,
   * plus one when it is among the first `reduce_by % k` bins at the maximum in
   * ascending index order; bins below the maximum lose nothing.
   */
  lemma RoundCutAt(b: seq<int>, toRemove: int, i: nat)
    requires CanLevel(b) && toRemove > 0 && i < |b|
    ensures var k := |MaxIndices(b)|;
            var r := ReduceBy(b, toRemove);
            RoundCut(b, toRemove)[i] ==
              if b[i] != Max(b) then 0
              else r / k + (if |IndicesOf(b[..i], Max(b))| < r % k then 1 else 0)
  {
    var idx := MaxIndices(b);
    var k := |idx|;
    var r := ReduceBy(b, toRemove);
    var w := Bump(Zeros(|b|), idx, r / k);
    BumpAt(Zeros(|b|), idx, r / k, i);
    BumpAt(w, idx[..r % k], 1, i);
    InFirstMaximal(b, r % k, i);
  }

  /** `reduce_by // k`: what every bin at the maximum loses this round. */
  function PerBin(b: seq<int>, toRemove: int): int
    requires CanLevel(b)
  {
    ReduceBy(b, toRemove) / |MaxIndices(b)|
  }

  /**
   * One round lowers only bins at the maximum, by `reduce_by // k` or one more,
   * and keeps them at or above the second max.
   */
  lemma RoundBin(b: seq<int>, toRemove: int, i: nat)
    requires CanLevel(b) && toRemove > 0 && i < |b|
    ensures var cut := RoundCut(b, toRemove);
            var per := PerBin(b, toRemove);
            && cut[i] >= 0
            && (b[i] != Max(b) ==> cut[i] == 0)
            && (b[i] == Max(b) ==> per <= cut[i] <= per + 1 && b[i] - cut[i] >= SecondMax(b))
  {
    var k, r := |MaxIndices(b)|, ReduceBy(b, toRemove);
    DivBounds(r, k);
    RoundCutAt(b, toRemove, i);
  }

  /** One round plans exactly `reduce_by` removals, at least one and at most `toRemove`. */
  lemma RoundSum(b: seq<int>, toRemove: int)
    requires CanLevel(b) && toRemove > 0
    ensures Sum(RoundCut(b, toRemove)) == ReduceBy(b, toRemove)
    ensures 0 < ReduceBy(b, toRemove) <= toRemove
  {
    var idx := MaxIndices(b);
    var k, r := |idx|, ReduceBy(b, toRemove);
    DivBounds(r, k);
    var w := Bump(Zeros(|b|), idx, r / k);
    SumZeros(|b|);
    SumBump(Zeros(|b|), idx, r / k);
    SumBump(w, idx[..r % k], 1);
  }

  /** After one round the maximum is `max - reduce_by // k`, reached by the last bin that was at the maximum. */
  lemma RoundMax(b: seq<int>, toRemove: int)
    requires CanLevel(b) && toRemove > 0
    ensures Max(Sub(b, RoundCut(b, toRemove))) == Max(b) - PerBin(b, toRemove)
    ensures PerBin(b, toRemove) >= 0
  {
    var cut := RoundCut(b, toRemove);
    var b' := Sub(b, cut);
    var idx := MaxIndices(b);
    var k, r, M := |idx|, ReduceBy(b, toRemove), Max(b);
    var per := PerBin(b, toRemove);
    DivBounds(r, k);
    forall i | 0 <= i < |b|
      ensures b'[i] <= M - per
    {
      RoundBin(b, toRemove, i);
      assert b[i] != M ==> b[i] <= SecondMax(b);
    }
    var last := idx[k - 1];
    Rank(b, M, last);
    RoundCutAt(b, toRemove, last);
    assert b'[last] == M - per;
  }

  /** After one round the minimum is unchanged: the smallest bin is below the maximum and keeps its value. */
  lemma RoundMin(b: seq<int>, toRemove: int)
    requires CanLevel(b) && toRemove > 0
    ensures Min(Sub(b, RoundCut(b, toRemove))) == Min(b)
  {
    var cut := RoundCut(b, toRemove);
    var b' := Sub(b, cut);
    forall i | 0 <= i < |b|
      ensures b'[i] >= Min(b)
    {
      RoundBin(b, toRemove, i);
    }
    var j :| 0 <= j < |b| && b[j] == Min(b);
    RoundBin(b, toRemove, j);
    assert b'[j] == Min(b);
  }

  /** Every bin lowered in a round ends within one of the round's new maximum. */
  lemma RoundTouched(b: seq<int>, toRemove: int, i: nat)
    requires CanLevel(b) && toRemove > 0 && i < |b|
    requires RoundCut(b, toRemove)[i] > 0
    ensures var b' := Sub(b, RoundCut(b, toRemove));
            b'[i] + 1 >= Max(b')
  {
    RoundBin(b, toRemove, i);
    RoundMax(b, toRemove);
  }

  // ---------------------------------------------------------------------
  // What the whole loop does

  /** One unfolding of the loop: a round, then the rest of the loop on the lowered bins. */
  lemma LevelStep(b: seq<int>, toRemove: int)
    requires CanLevel(b) && toRemove > 0
    ensures var cut := RoundCut(b, toRemove);
            var b' := Sub(b, cut);
            var rest := Level(b', toRemove - ReduceBy(b, toRemove));
            && Level(b, toRemove) == Shift(cut, rest)
            && Level(b, toRemove).removals == Add(cut, rest.removals)
            && Sub(b, Level(b, toRemove).removals) == Sub(b', rest.removals)
  {
    var cut := RoundCut(b, toRemove);
    var b' := Sub(b, cut);
    var rest := Level(b', toRemove - ReduceBy(b, toRemove));
    var all := Level(b, toRemove).removals;
    assert all == Add(cut, rest.removals);
    var lhs := Sub(b, all);
    var rhs := Sub(b', rest.removals);
    forall i | 0 <= i < |b|
      ensures lhs[i] == rhs[i]
    {
      assert all[i] == cut[i] + rest.removals[i];
    }
    assert lhs == rhs;
  }

  /** With nothing to remove the loop does not run: no removals, bins unchanged. */
  lemma LevelNothingToRemove(b: seq<int>, toRemove: int)
    requires toRemove <= 0
    ensures Level(b, toRemove) == Finished(Zeros(|b|))
    ensures Sub(b, Level(b, toRemove).removals) == b
  {
    AddZeros(b);
  }

  /** Every planned removal count is non-negative. */
  lemma {:induction false} LevelNonNegative(b: seq<int>, toRemove: int)
    ensures forall i :: 0 <= i < |b| ==> Level(b, toRemove).removals[i] >= 0
    decreases if toRemove > 0 then toRemove else 0
  {
    if toRemove > 0 && CanLevel(b) {
      var cut := RoundCut(b, toRemove);
      forall i | 0 <= i < |b|
        ensures cut[i] >= 0
      {
        RoundBin(b, toRemove, i);
      }
      LevelNonNegative(Sub(b, cut), toRemove - ReduceBy(b, toRemove));
    }
  }

  /** When the loop finishes, it has planned exactly `toRemove` removals (none when `toRemove <= 0`). */
  lemma {:induction false} LevelSum(b: seq<int>, toRemove: int)
    requires Level(b, toRemove).Finished?
    ensures Sum(Level(b, toRemove).removals) == if toRemove > 0 then toRemove else 0
    decreases if toRemove > 0 then toRemove else 0
  {
    if toRemove <= 0 {
      SumZeros(|b|);
    } else if CanLevel(b) {
      var cut := RoundCut(b, toRemove);
      var b' := Sub(b, cut);
      var toRemove' := toRemove - ReduceBy(b, toRemove);
      LevelUnfold(b, toRemove, b', toRemove');
      var rest := Level(b', toRemove');
      RoundSum(b, toRemove);
      LevelSum(b', toRemove');
      SumAdd(cut, rest.removals);
    }
  }

  /** No bin ends below the smallest starting bin; in particular non-negative bins stay non-negative. */
  lemma {:induction false} LevelFloor(b: seq<int>, toRemove: int)
    requires b != []
    ensures forall i :: 0 <= i < |b| ==> Sub(b, Level(b, toRemove).removals)[i] >= Min(b)
    decreases if toRemove > 0 then toRemove else 0
  {
    if toRemove > 0 && CanLevel(b) {
      RoundMin(b, toRemove);
      var cut := RoundCut(b, toRemove);
      var b' := Sub(b, cut);
      var toRemove' := toRemove - ReduceBy(b, toRemove);
      LevelFloor(b', toRemove');
      LevelStep(b, toRemove);
    }
  }

  /** The highest bin never rises. */
  lemma {:induction false} LevelMax(b: seq<int>, toRemove: int)
    requires b != []
    ensures Max(Sub(b, Level(b, toRemove).removals)) <= Max(b)
    decreases if toRemove > 0 then toRemove else 0
  {
    if toRemove > 0 && CanLevel(b) {
      RoundMax(b, toRemove);
      var cut := RoundCut(b, toRemove);
      var b' := Sub(b, cut);
      var toRemove' := toRemove - ReduceBy(b, toRemove);
      LevelMax(b', toRemove');
      LevelStep(b, toRemove);
    } else {
      assert Sub(b, Level(b, toRemove).removals) == b;
    }
  }

  /** The spread between the highest and the lowest bin never grows. */
  lemma LevelFlattens(b: seq<int>, toRemove: int)
    requires b != []
    ensures var after := Sub(b, Level(b, toRemove).removals);
            Max(after) - Min(after) <= Max(b) - Min(b)
  {
    LevelFloor(b, toRemove);
    LevelMax(b, toRemove);
  }

  /** Every bin the plan lowers ends at most one below the final maximum. */
  lemma {:induction false} LevelTouchedNearTop(b: seq<int>, toRemove: int)
    requires b != []
    ensures var o := Level(b, toRemove);
            var after := Sub(b, o.removals);
            forall i :: 0 <= i < |b| && o.removals[i] > 0 ==> after[i] + 1 >= Max(after)
    decreases if toRemove > 0 then toRemove else 0
  {
    if toRemove > 0 && CanLevel(b) {
      var cut := RoundCut(b, toRemove);
      var b' := Sub(b, cut);
      var toRemove' := toRemove - ReduceBy(b, toRemove);
      var rest := Level(b', toRemove').removals;
      LevelTouchedNearTop(b', toRemove');
      LevelNonNegative(b', toRemove');
      LevelMax(b', toRemove');
      var after := Sub(b, Level(b, toRemove).removals);
      LevelStep(b, toRemove);
      forall i | 0 <= i < |b| && Level(b, toRemove).removals[i] > 0
        ensures after[i] + 1 >= Max(after)
      {
        if rest[i] == 0 {
          assert after[i] == b'[i];
          RoundTouched(b, toRemove, i);
        }
      }
    }
  }

  /**
   * The loop raises ValueError exactly when removals are still needed and more
   * are asked for than can be taken before every bin is level with the
   * smallest: `toRemove > Sum(b) - |b| * Min(b)`, i.e. `target < |b| * Min(b)`.
   */
  lemma {:induction false} LevelRaisedIff(b: seq<int>, toRemove: int)
    ensures Level(b, toRemove).Raised? <==> toRemove > 0 && toRemove > Capacity(b)
    decreases if toRemove > 0 then toRemove else 0
  {
    CapacityNonNegative(b);
    if toRemove > 0 && CanLevel(b) {
      RoundSum(b, toRemove);
      RoundMin(b, toRemove);
      var cut := RoundCut(b, toRemove);
      var b' := Sub(b, cut);
      var toRemove' := toRemove - ReduceBy(b, toRemove);
      LevelRaisedIff(b', toRemove');
      SumSub(b, cut);
      CapacityNonNegative(b');
      assert Capacity(b') == Capacity(b) - ReduceBy(b, toRemove);
    }
  }

  // ---------------------------------------------------------------------
  // The loop on the caller's list (equalize_and_name.py:52-95)

  /** `sum(a)`. */
  method SumOf(a: array<int>) returns (s: int)
    ensures s == Sum(a[..])
  {
    s := 0;
    for k := 0 to a.Length
      invariant s == Sum(a[..k])
    {
      assert a[..k + 1][..k] == a[..k];
      s := s + a[k];
    }
    assert a[..a.Length] == a[..];
  }

  /** `max(a)`: None where Python raises ValueError on an empty list. */
  method MaxOf(a: array<int>) returns (r: Option<int>)
    ensures r.None? <==> a.Length == 0
    ensures r.Some? ==> r.value in a[..] && forall k :: 0 <= k < a.Length ==> a[k] <= r.value
  {
    if a.Length == 0 {
      return None;
    }
    var m := a[0];
    for k := 1 to a.Length
      invariant m in a[..k]
      invariant forall j :: 0 <= j < k ==> a[j] <= m
    {
      if a[k] > m {
        m := a[k];
      }
    }
    assert a[..a.Length] == a[..];
    r := Some(m);
  }

  /** `max(val for val in a if val < v)`: None where Python raises ValueError (nothing below `v`). */
  method MaxBelowOf(a: array<int>, v: int) returns (r: Option<int>)
    ensures r.None? <==> !HasBelow(a[..], v)
    ensures r.Some? ==> r.value < v && r.value in a[..]
    ensures r.Some? ==> forall k :: 0 <= k < a.Length && a[k] < v ==> a[k] <= r.value
  {
    r := None;
    for k := 0 to a.Length
      invariant r.None? <==> forall j :: 0 <= j < k ==> a[j] >= v
      invariant r.Some? ==> r.value < v && r.value in a[..k]
      invariant r.Some? ==> forall j :: 0 <= j < k && a[j] < v ==> a[j] <= r.value
    {
      if a[k] < v && (r.None? || a[k] > r.value) {
        r := Some(a[k]);
      }
    }
    assert a[..a.Length] == a[..];
  }

  /** `[i for i, val in enumerate(a) if val == v]`. */
  method IndicesOfValue(a: array<int>, v: int) returns (idx: seq<nat>)
    ensures idx == IndicesOf(a[..], v)
  {
    idx := [];
    for k := 0 to a.Length
      invariant idx == IndicesOf(a[..k], v)
    {
      assert a[..k + 1][..k] == a[..k];
      if a[k] == v {
        idx := idx + [k];
      }
    }
    assert a[..a.Length] == a[..];
  }

  lemma AddZeros(a: seq<int>)
    ensures Add(a, Zeros(|a|)) == a && Sub(a, Zeros(|a|)) == a
  {
    assert Add(a, Zeros(|a|)) == a;
    assert Sub(a, Zeros(|a|)) == a;
  }

  lemma SubSub(a: seq<int>, x: seq<int>, y: seq<int>)
    requires |a| == |x| == |y|
    ensures Sub(Sub(a, x), y) == Sub(a, Add(x, y))
  {
    assert Sub(Sub(a, x), y) == Sub(a, Add(x, y));
  }

  lemma AddAdd(a: seq<int>, x: seq<int>, y: seq<int>)
    requires |a| == |x| == |y|
    ensures Add(Add(a, x), y) == Add(a, Add(x, y))
  {
    assert Add(Add(a, x), y) == Add(a, Add(x, y));
  }

  lemma ShiftShift(r: seq<int>, cut: seq<int>, o: Leveling)
    requires |r| == |cut| == |o.removals|
    ensures Shift(r, Shift(cut, o)) == Shift(Add(r, cut), o)
  {
    AddAdd(r, cut, o.removals);
  }

  /** Bumping `w` is adding to `w` the bumps of all-zero bins. */
  lemma {:induction false} BumpAdd(w: seq<int>, idx: seq<nat>, d: int)
    requires forall t :: 0 <= t < |idx| ==> idx[t] < |w|
    ensures Bump(w, idx, d) == Add(w, Bump(Zeros(|w|), idx, d))
  {
    if idx == [] {
      AddZeros(w);
    } else {
      var init := idx[..|idx| - 1];
      BumpAdd(w, init, d);
      var i := idx[|idx| - 1];
      var z := Bump(Zeros(|w|), init, d);
      var lhs := Bump(w, idx, d);
      var rhs := Add(w, Bump(Zeros(|w|), idx, d));
      assert Bump(Zeros(|w|), idx, d) == z[i := z[i] + d];
      forall j | 0 <= j < |w|
        ensures lhs[j] == rhs[j]
      {
      }
      assert lhs == rhs;
    }
  }

  /** Adding `d` to one entry of the bumps lowers that bin by `d` and raises its removals by `d`. */
  lemma BumpStep(b: seq<int>, r: seq<int>, acc: seq<int>, i: nat, d: int)
    requires |b| == |r| == |acc| && i < |b|
    ensures Sub(b, acc[i := acc[i] + d]) == Sub(b, acc)[i := Sub(b, acc)[i] - d]
    ensures Add(r, acc[i := acc[i] + d]) == Add(r, acc)[i := Add(r, acc)[i] + d]
  {
    assert Sub(b, acc[i := acc[i] + d]) == Sub(b, acc)[i := Sub(b, acc)[i] - d];
    assert Add(r, acc[i := acc[i] + d]) == Add(r, acc)[i := Add(r, acc)[i] + d];
  }

  lemma ShiftZeros(o: Leveling)
    ensures Shift(Zeros(|o.removals|), o) == o
  {
    assert Add(Zeros(|o.removals|), o.removals) == o.removals;
  }

  /** The loop stops with what was planned: either nothing is left to remove... */
  lemma ShiftFinished(r: seq<int>, b: seq<int>, toRemove: int)
    requires |r| == |b| && toRemove <= 0
    ensures Shift(r, Level(b, toRemove)) == Finished(r)
  {
    AddZeros(r);
  }

  /** ...or the round cannot run and raises. */
  lemma ShiftRaised(r: seq<int>, b: seq<int>, toRemove: int)
    requires |r| == |b| && toRemove > 0 && !CanLevel(b)
    ensures Shift(r, Level(b, toRemove)) == Raised(r)
  {
    AddZeros(r);
  }

  /** The loop invariant of `CalculateRemovalsPerBin` survives one round. */
  lemma PlanAdvance(plan: Leveling, r0: seq<int>, b0: seq<int>, t0: int, r1: seq<int>, b1: seq<int>, t1: int)
    requires |r0| == |b0| && t0 > 0 && CanLevel(b0)
    requires plan == Shift(r0, Level(b0, t0))
    requires b1 == Sub(b0, RoundCut(b0, t0)) && r1 == Add(r0, RoundCut(b0, t0))
    requires t1 == t0 - ReduceBy(b0, t0)
    ensures plan == Shift(r1, Level(b1, t1))
  {
    LevelUnfold(b0, t0, b1, t1);
    ShiftAgain(plan, r0, Level(b0, t0), RoundCut(b0, t0), r1, Level(b1, t1));
  }

  /** `Level` unfolded once, with the lowered bins and what is left to remove given by name. */
  lemma LevelUnfold(b0: seq<int>, t0: int, b1: seq<int>, t1: int)
    requires t0 > 0 && CanLevel(b0)
    requires b1 == Sub(b0, RoundCut(b0, t0)) && t1 == t0 - ReduceBy(b0, t0)
    ensures Level(b0, t0) == Shift(RoundCut(b0, t0), Level(b1, t1))
  {
  }

  lemma ShiftAgain(plan: Leveling, r0: seq<int>, o0: Leveling, cut: seq<int>, r1: seq<int>, o1: Leveling)
    requires |r0| == |cut| == |o0.removals| == |o1.removals|
    requires plan == Shift(r0, o0) && o0 == Shift(cut, o1) && r1 == Add(r0, cut)
    ensures plan == Shift(r1, o1)
  {
    ShiftShift(r0, cut, o1);
  }

  /** The loop invariant of `CalculateRemovalsPerBin` at the round that raises. */
  lemma PlanRaised(plan: Leveling, r: seq<int>, b: seq<int>, toRemove: int)
    requires |r| == |b| && toRemove > 0 && !CanLevel(b)
    requires plan == Shift(r, Level(b, toRemove))
    ensures plan == Raised(r)
  {
    ShiftRaised(r, b, toRemove);
  }

  /** The loop invariant of `CalculateRemovalsPerBin` when nothing is left to remove. */
  lemma PlanFinished(plan: Leveling, r: seq<int>, b: seq<int>, toRemove: int)
    requires |r| == |b| && toRemove <= 0
    requires plan == Shift(r, Level(b, toRemove))
    ensures plan == Finished(r)
  {
    ShiftFinished(r, b, toRemove);
  }

  /** The round's cut is the two loops of lines 79-88 applied to all-zero bins. */
  lemma RoundCutLoops(b: seq<int>, toRemove: int)
    requires CanLevel(b) && toRemove > 0
    ensures var idx := MaxIndices(b);
            var r := ReduceBy(b, toRemove);
            RoundCut(b, toRemove)
              == Add(Bump(Zeros(|b|), idx, r / |idx|), Bump(Zeros(|b|), idx[..r % |idx|], 1))
  {
    var idx := MaxIndices(b);
    var r := ReduceBy(b, toRemove);
    BumpAdd(Bump(Zeros(|b|), idx, r / |idx|), idx[..r % |idx|], 1);
  }

  /**
   * One of the loops at lines 79-88: for each index of `idx` in turn, lowers
   * that bin by `d`, records `d` more removals there and counts them off.
   */
  method LowerBins(binCounts: array<int>, removals: array<int>, idx: seq<nat>, d: int, toRemove: int)
      returns (left: int)
    requires binCounts != removals && binCounts.Length == removals.Length
    requires forall t :: 0 <= t < |idx| ==> idx[t] < binCounts.Length
    modifies binCounts, removals
    ensures binCounts[..] == Sub(old(binCounts[..]), Bump(Zeros(binCounts.Length), idx, d))
    ensures removals[..] == Add(old(removals[..]), Bump(Zeros(binCounts.Length), idx, d))
    ensures left == toRemove - |idx| * d
  {
    ghost var b0, r0 := binCounts[..], removals[..];
    var n := binCounts.Length;
    left := toRemove;
    AddZeros(b0);
    AddZeros(r0);
    for t := 0 to |idx|
      invariant binCounts[..] == Sub(b0, Bump(Zeros(n), idx[..t], d))
      invariant removals[..] == Add(r0, Bump(Zeros(n), idx[..t], d))
      invariant left == toRemove - t * d
    {
      var i := idx[t];
      assert idx[..t + 1][..t] == idx[..t];
      ghost var acc := Bump(Zeros(n), idx[..t], d);
      assert Bump(Zeros(n), idx[..t + 1], d) == acc[i := acc[i] + d];
      BumpStep(b0, r0, acc, i, d);
      ghost var bs, rs := binCounts[..], removals[..];
      binCounts[i] := binCounts[i] - d;
      assert binCounts[..] == bs[i := bs[i] - d];
      removals[i] := removals[i] + d;
      assert removals[..] == rs[i := rs[i] + d];
      assert binCounts[..] == bs[i := bs[i] - d];
      left := left - d;
    }
    assert idx[..|idx|] == idx;
  }

  /**
   * One pass of the loop at lines 64-92: finds the maximum, the second maximum
   * and the bins at the maximum, then lowers them by `RoundCut`. `stuck` when
   * line 66 or 67 raises ValueError, before anything changes.
   */
  method LevelRound(binCounts: array<int>, removals: array<int>, toRemove: int) returns (left: int, stuck: bool)
    requires binCounts != removals && binCounts.Length == removals.Length && toRemove > 0
    modifies binCounts, removals
    ensures stuck <==> !CanLevel(old(binCounts[..]))
    ensures stuck ==> binCounts[..] == old(binCounts[..]) && removals[..] == old(removals[..])
    ensures !stuck ==>
              var cut := RoundCut(old(binCounts[..]), toRemove);
              && binCounts[..] == Sub(old(binCounts[..]), cut)
              && removals[..] == Add(old(removals[..]), cut)
              && left == toRemove - ReduceBy(old(binCounts[..]), toRemove)
              && left < toRemove
  {
    ghost var b0, r0 := binCounts[..], removals[..];
    var n := binCounts.Length;
    left := toRemove;
    var maxVal := MaxOf(binCounts);
    if maxVal.None? {
      return left, true;
    }
    var secondMax := MaxBelowOf(binCounts, maxVal.value);
    if secondMax.None? {
      assert Min(b0) in b0;
      return left, true;
    }
    assert maxVal.value == Max(b0);
    assert secondMax.value == SecondMax(b0);
    var maxIndices := IndicesOfValue(binCounts, maxVal.value);
    assert maxIndices == MaxIndices(b0);
    var reduceBy := if maxVal.value - secondMax.value < toRemove then maxVal.value - secondMax.value else toRemove;
    assert reduceBy == ReduceBy(b0, toRemove);
    var perBin := reduceBy / |maxIndices|;
    var extra := reduceBy % |maxIndices|;
    left := LowerBins(binCounts, removals, maxIndices, perBin, left);
    left := LowerBins(binCounts, removals, maxIndices[..extra], 1, left);
    ghost var w1 := Bump(Zeros(n), maxIndices, perBin);
    ghost var w2 := Bump(Zeros(n), maxIndices[..extra], 1);
    RoundCutLoops(b0, toRemove);
    SubSub(b0, w1, w2);
    AddAdd(r0, w1, w2);
    DivBounds(reduceBy, |maxIndices|);
    RoundSum(b0, toRemove);
    stuck := false;
  }

  /**
   * `calculate_removals_per_bin(binCounts, target)`: lowers `binCounts` in place
   * and returns the removals per bin; `raised` when line 66 or 67 raises
   * ValueError, with the rounds before it already applied.
   */
  method CalculateRemovalsPerBin(binCounts: array<int>, target: int) returns (removals: array<int>, raised: bool)
    modifies binCounts
    ensures fresh(removals) && removals.Length == binCounts.Length
    ensures binCounts[..] == Sub(old(binCounts[..]), removals[..])
    ensures var o := Level(old(binCounts[..]), Sum(old(binCounts[..])) - target);
            removals[..] == o.removals && raised == o.Raised?
  {
    ghost var orig := binCounts[..];
    var n := binCounts.Length;
    var total := SumOf(binCounts);
    assert binCounts[..] == orig;
    assert total == Sum(old(binCounts[..]));
    var toRemove := total - target;
    removals := new int[n](_ => 0);
    raised := false;
    assert binCounts[..] == orig;
    assert removals[..] == Zeros(n);
    AddZeros(orig);
    ghost var plan := Level(orig, toRemove);
    ShiftZeros(plan);
    while toRemove > 0
      invariant removals.Length == n && fresh(removals)
      invariant binCounts[..] == Sub(orig, removals[..])
      invariant plan == Shift(removals[..], Level(binCounts[..], toRemove))
      decreases toRemove
    {
      ghost var b0, r0, t0 := binCounts[..], removals[..], toRemove;
      var stuck;
      toRemove, stuck := LevelRound(binCounts, removals, toRemove);
      if stuck {
        raised := true;
        PlanRaised(plan, r0, b0, t0);
        return;
      }
      SubSub(orig, r0, RoundCut(b0, t0));
      PlanAdvance(plan, r0, b0, t0, removals[..], binCounts[..], toRemove);
      if toRemove <= 0 {
        break;
      }
    }
    PlanFinished(plan, removals[..], binCounts[..], toRemove);
  }
}
