/** Expected calibration error and Brier score over real numbers, and how they bound each other. */
module Calibration {
  import opened Arithmetic
  import opened Wrappers

  datatype Sample = Sample(conf: real, acc: real)

  ghost predicate InUnit(samples: seq<Sample>) {
    forall i :: 0 <= i < |samples| ==> 0.0 <= samples[i].conf <= 1.0 && 0.0 <= samples[i].acc <= 1.0
  }

  function Abs(x: real): real { if x < 0.0 then -x else x }

  // ---------------------------------------------------------------- the code

  /** `mask > 0`, or everything. */
  function Select(samples: seq<Sample>, mask: Option<seq<real>>): (r: seq<Sample>)
    requires mask.Some? ==> |mask.value| == |samples|
    ensures InUnit(samples) ==> InUnit(r)
  {
    if mask.None? then samples
    else if samples == [] then []
    else
      var rest := Select(samples[1..], Some(mask.value[1..]));
      if mask.value[0] > 0.0 then [samples[0]] + rest else rest
  }

  function Lower(i: nat, bins: nat): real
    requires bins > 0
  {
    i as real / bins as real
  }

  function Upper(i: nat, bins: nat): real
    requires i < bins
  {
    if i < bins - 1 then Lower(i + 1, bins) else Lower(i + 1, bins) + 0.000001
  }

  predicate InBin(c: real, i: nat, bins: nat)
    requires i < bins
  {
    Lower(i, bins) <= c < Upper(i, bins)
  }

  /** The samples of one bin. */
  function BinOf(samples: seq<Sample>, i: nat, bins: nat): seq<Sample>
    requires i < bins
  {
    if samples == [] then []
    else if InBin(samples[0].conf, i, bins) then [samples[0]] + BinOf(samples[1..], i, bins)
    else BinOf(samples[1..], i, bins)
  }

  function SumConf(samples: seq<Sample>): real {
    if samples == [] then 0.0 else samples[0].conf + SumConf(samples[1..])
  }

  function SumAcc(samples: seq<Sample>): real {
    if samples == [] then 0.0 else samples[0].acc + SumAcc(samples[1..])
  }

  function Mean(sum: real, n: nat): real
    requires n > 0
  {
    sum / n as real
  }

  /** One term of the ECE sum. */
  function Term(samples: seq<Sample>, i: nat, bins: nat): real
    requires i < bins && samples != []
  {
    var b := BinOf(samples, i, bins);
    if b == [] then 0.0
    else Mean(|b| as real, |samples|) * Abs(Mean(SumAcc(b), |b|) - Mean(SumConf(b), |b|))
  }

  function TermSum(samples: seq<Sample>, n: nat, bins: nat): real
    requires n <= bins && samples != []
  {
    if n == 0 then 0.0 else TermSum(samples, n - 1, bins) + Term(samples, n - 1, bins)
  }

  function Ece(samples: seq<Sample>, bins: nat): real
    requires samples != []
  {
    TermSum(samples, bins, bins)
  }

  function SquaredErrors(samples: seq<Sample>): real {
    if samples == [] then 0.0
    else (samples[0].conf - samples[0].acc) * (samples[0].conf - samples[0].acc) + SquaredErrors(samples[1..])
  }

  /** The mean squared error of the selected samples. */
  function Brier(samples: seq<Sample>): real
    requires samples != []
  {
    Mean(SquaredErrors(samples), |samples|)
  }

  /** What `_compute_ece` returns: None when no sample is selected. */
  function EceScore(samples: seq<Sample>, mask: Option<seq<real>>, bins: nat): Option<real>
    requires mask.Some? ==> |mask.value| == |samples|
  {
    var valid := Select(samples, mask);
    if valid == [] then None else Some(Ece(valid, bins))
  }

  /** `_compute_brier_score`. */
  function BrierScore(samples: seq<Sample>, mask: Option<seq<real>>): Option<real>
    requires mask.Some? ==> |mask.value| == |samples|
  {
    var valid := Select(samples, mask);
    if valid == [] then None else Some(Brier(valid))
  }

  /** `_compute_ece`, with its loop over the bins. */
  method ComputeEce(samples: seq<Sample>, mask: Option<seq<real>>, bins: nat) returns (ece: Option<real>)
    requires mask.Some? ==> |mask.value| == |samples|
    ensures ece == EceScore(samples, mask, bins)
  {
    if samples == [] {
      return None;
    }
    var valid := Select(samples, mask);
    if valid == [] {
      return None;
    }
    var sum := 0.0;
    for i := 0 to bins
      invariant sum == TermSum(valid, i, bins)
    {
      var b := BinOf(valid, i, bins);
      if b != [] {
        var weight := |b| as real / |valid| as real;
        var binConf := Mean(SumConf(b), |b|);
        var binAcc := Mean(SumAcc(b), |b|);
        sum := sum + weight * Abs(binAcc - binConf);
      }
    }
    ece := Some(sum);
  }

  // ---------------------------------------------------------------- products of reals

  lemma Product(x: real, y: real)
    requires 0.0 <= x && 0.0 <= y
    ensures 0.0 <= x * y
  {
    assert x > 0.0 && y > 0.0 ==> x * y > 0.0;
    assert x == 0.0 || y == 0.0 ==> x * y == 0.0;
  }

  lemma StrictProduct(x: real, y: real)
    requires 0.0 < x && 0.0 < y
    ensures 0.0 < x * y
  {}

  // ---------------------------------------------------------------- sums by label

  /** A sample's bin and its signed gap. */
  datatype Item = Item(bin: int, gap: real)

  function GapSum(items: seq<Item>): real {
    if items == [] then 0.0 else items[0].gap + GapSum(items[1..])
  }

  function AbsGapSum(items: seq<Item>): real {
    if items == [] then 0.0 else Abs(items[0].gap) + AbsGapSum(items[1..])
  }

  /** Gaps of the items whose label is in [lo, hi). */
  function Within(items: seq<Item>, lo: int, hi: int): real {
    if items == [] then 0.0
    else (if lo <= items[0].bin < hi then items[0].gap else 0.0) + Within(items[1..], lo, hi)
  }

  function AbsWithin(items: seq<Item>, lo: int, hi: int): real {
    if items == [] then 0.0
    else (if lo <= items[0].bin < hi then Abs(items[0].gap) else 0.0) + AbsWithin(items[1..], lo, hi)
  }

  /** Sum of absolute label sums over the labels in [lo, hi). */
  function Spread(items: seq<Item>, lo: int, hi: int): (r: real)
    ensures r >= 0.0
    decreases hi - lo
  {
    if hi <= lo then 0.0 else Spread(items, lo, hi - 1) + Abs(Within(items, hi - 1, hi))
  }

  lemma {:induction false} WithinSplits(items: seq<Item>, lo: int, mid: int, hi: int)
    requires lo <= mid <= hi
    ensures Within(items, lo, hi) == Within(items, lo, mid) + Within(items, mid, hi)
    ensures AbsWithin(items, lo, hi) == AbsWithin(items, lo, mid) + AbsWithin(items, mid, hi)
  {
    if items != [] {
      WithinSplits(items[1..], lo, mid, hi);
    }
  }

  lemma {:induction false} WithinAll(items: seq<Item>, lo: int, hi: int)
    requires forall i :: 0 <= i < |items| ==> lo <= items[i].bin < hi
    ensures Within(items, lo, hi) == GapSum(items) && AbsWithin(items, lo, hi) == AbsGapSum(items)
  {
    if items != [] {
      WithinAll(items[1..], lo, hi);
    }
  }

  lemma {:induction false} WithinNone(items: seq<Item>, lo: int)
    ensures Within(items, lo, lo) == 0.0 && AbsWithin(items, lo, lo) == 0.0
  {
    if items != [] {
      WithinNone(items[1..], lo);
    }
  }

  lemma {:induction false} WithinBelowAbs(items: seq<Item>, lo: int, hi: int)
    ensures Abs(Within(items, lo, hi)) <= AbsWithin(items, lo, hi)
  {
    if items != [] {
      WithinBelowAbs(items[1..], lo, hi);
    }
  }

  /** Coarser sums cancel more. */
  lemma {:induction false} SpreadBetween(items: seq<Item>, lo: int, hi: int)
    requires lo <= hi
    ensures Abs(Within(items, lo, hi)) <= Spread(items, lo, hi) <= AbsWithin(items, lo, hi)
    decreases hi - lo
  {
    if lo == hi {
      WithinNone(items, lo);
    } else {
      SpreadBetween(items, lo, hi - 1);
      WithinSplits(items, lo, hi - 1, hi);
      WithinBelowAbs(items, hi - 1, hi);
    }
  }

  lemma {:induction false} SpreadSplits(items: seq<Item>, lo: int, mid: int, hi: int)
    requires lo <= mid <= hi
    ensures Spread(items, lo, hi) == Spread(items, lo, mid) + Spread(items, mid, hi)
    decreases hi - mid
  {
    if mid < hi {
      SpreadSplits(items, lo, mid, hi - 1);
    }
  }

  /** The same items with labels merged in groups of k. */
  function Coarser(items: seq<Item>, k: int): seq<Item>
    requires k > 0
  {
    if items == [] then [] else [Item(items[0].bin / k, items[0].gap)] + Coarser(items[1..], k)
  }

  lemma {:induction false} CoarserWithin(items: seq<Item>, k: int, i: int)
    requires k > 0
    ensures Within(Coarser(items, k), i, i + 1) == Within(items, i * k, i * k + k)
  {
    if items != [] {
      CoarserWithin(items[1..], k, i);
      SameGroup(items[0].bin, k, i);
      assert Coarser(items, k)[1..] == Coarser(items[1..], k);
    }
  }

  lemma SpreadLast(items: seq<Item>, n: nat)
    requires n > 0
    ensures Spread(items, 0, n) == Spread(items, 0, n - 1) + Abs(Within(items, n - 1, n))
  {
  }

  lemma {:induction false} CoarserSpread(items: seq<Item>, k: int, n: nat)
    requires k > 0
    ensures Spread(Coarser(items, k), 0, n) <= Spread(items, 0, n * k)
  {
    if n > 0 {
      CoarserSpread(items, k, n - 1);
      Rest(n, k);
      hide Spread, Within, Coarser;
      CoarserLast(items, k, n, (n - 1) * k);
    }
  }

  lemma CoarserLast(items: seq<Item>, k: int, n: nat, m: nat)
    requires k > 0 && n > 0 && m == (n - 1) * k && m + k == n * k
    requires Spread(Coarser(items, k), 0, n - 1) <= Spread(items, 0, m)
    ensures Spread(Coarser(items, k), 0, n) <= Spread(items, 0, m + k)
  {
    hide Spread, Within, Coarser;
    SpreadLast(Coarser(items, k), n);
    CoarserWithin(items, k, n - 1);
    SpreadSplits(items, 0, m, m + k);
    SpreadBetween(items, m, m + k);
  }

  // ---------------------------------------------------------------- bins as labels

  /** The bin a confidence falls into. */
  function LabelOf(c: real, bins: nat): int
    requires bins > 0
  {
    if c >= 1.0 then bins - 1 else (c * bins as real).Floor
  }

  lemma LowerScaled(i: nat, bins: nat, c: real)
    requires bins > 0
    ensures Lower(i, bins) <= c <==> i as real <= c * bins as real
  {
    SameOrder(Lower(i, bins), c, bins as real, i as real);
  }

  lemma SameOrder(l: real, c: real, b: real, x: real)
    requires b > 0.0 && l * b == x
    ensures l <= c <==> x <= c * b
  {
    if l <= c {
      Product(c - l, b);
      assert (c - l) * b == c * b - x;
    } else {
      StrictProduct(l - c, b);
      assert (l - c) * b == x - c * b;
    }
  }

  lemma UnitScaled(c: real, b: real)
    requires 0.0 <= c <= 1.0 && b > 0.0
    ensures 0.0 <= c * b <= b
    ensures c < 1.0 ==> c * b < b
  {
    Product(c, b);
    Product(1.0 - c, b);
    assert (1.0 - c) * b == b - c * b;
    if c < 1.0 {
      StrictProduct(1.0 - c, b);
    }
  }

  /** Every confidence in [0, 1] falls in exactly one bin. */
  lemma ExactlyOneBin(c: real, i: nat, bins: nat)
    requires 0.0 <= c <= 1.0 && i < bins
    ensures 0 <= LabelOf(c, bins) < bins
    ensures InBin(c, i, bins) <==> i == LabelOf(c, bins)
    ensures InBin(c, i, bins)
            <==> i as real <= c * bins as real < (i + 1) as real || (c == 1.0 && i == bins - 1)
  {
    LowerScaled(i, bins, c);
    LowerScaled(i + 1, bins, c);
    LastLower(bins);
    UnitScaled(c, bins as real);
    hide Lower;
    if c >= 1.0 {
      TopScaled(c, bins as real);
    } else {
      FloorIs(c * bins as real, i);
      FloorInRange(c * bins as real, bins);
    }
  }

  lemma LastLower(bins: nat)
    requires bins > 0
    ensures Lower(bins, bins) == 1.0
  {
  }

  lemma TopScaled(c: real, b: real)
    requires c == 1.0
    ensures c * b == b
  {
  }

  lemma FloorIs(x: real, i: nat)
    ensures i as real <= x < (i + 1) as real <==> x.Floor == i
  {
  }

  lemma FloorInRange(x: real, n: nat)
    requires 0.0 <= x < n as real
    ensures 0 <= x.Floor < n
  {
  }

  function ItemsOf(samples: seq<Sample>, bins: nat): seq<Item>
    requires bins > 0
  {
    if samples == [] then []
    else [Item(LabelOf(samples[0].conf, bins), samples[0].acc - samples[0].conf)] + ItemsOf(samples[1..], bins)
  }

  lemma {:induction false} BinIsLabel(samples: seq<Sample>, i: nat, bins: nat)
    requires InUnit(samples) && i < bins
    ensures SumAcc(BinOf(samples, i, bins)) - SumConf(BinOf(samples, i, bins)) == Within(ItemsOf(samples, bins), i, i + 1)
  {
    if samples != [] {
      BinIsLabel(samples[1..], i, bins);
      ExactlyOneBin(samples[0].conf, i, bins);
      assert ItemsOf(samples, bins)[1..] == ItemsOf(samples[1..], bins);
      var b := BinOf(samples[1..], i, bins);
      assert ([samples[0]] + b)[1..] == b;
    }
  }

  /** A mean in terms of its own multiples; the only three facts used about division. */
  lemma MeanScales(x: real, n: nat)
    requires n > 0
    ensures Mean(x, n) * n as real == x
  {}

  lemma MeanAdds(x: real, y: real, n: nat)
    requires n > 0
    ensures Mean(x, n) + Mean(y, n) == Mean(x + y, n)
  {}

  lemma MeanOrder(x: real, y: real, n: nat)
    requires n > 0 && x <= y
    ensures Mean(x, n) <= Mean(y, n)
  {
    Quotient(x, y, n as real, Mean(x, n), Mean(y, n));
  }

  lemma Quotient(x: real, y: real, n: real, p: real, q: real)
    requires n > 0.0 && p * n == x && q * n == y && x <= y
    ensures p <= q
  {
    assert p > q ==> (p - q) * n > 0.0;
  }

  lemma WeightedMean(a: real, c: real, n: nat, total: nat)
    requires n > 0 && total > 0
    ensures Mean(n as real, total) * Abs(Mean(a, n) - Mean(c, n)) == Mean(Abs(a - c), total)
  {
    var d, w := Mean(a, n) - Mean(c, n), Mean(n as real, total);
    MeanScales(a, n);
    MeanScales(c, n);
    AbsTimes(Mean(a, n), Mean(c, n), n as real, a, c);
    MeanProduct(n as real, Abs(d), total);
  }

  lemma AbsTimes(p: real, q: real, n: real, a: real, c: real)
    requires n > 0.0 && p * n == a && q * n == c
    ensures n * Abs(p - q) == Abs(a - c)
  {
    assert (p - q) * n == a - c;
    assert p < q ==> (q - p) * n > 0.0;
    assert p > q ==> (p - q) * n > 0.0;
  }

  lemma MeanProduct(x: real, y: real, n: nat)
    requires n > 0
    ensures Mean(x, n) * y == Mean(x * y, n)
  {
    var m := n as real;
    Cancel(Mean(x, n), Mean(x * y, n), x, y, m);
  }

  lemma Cancel(p: real, q: real, x: real, y: real, m: real)
    requires m > 0.0 && p * m == x && q * m == x * y
    ensures p * y == q
  {
    assert (p * y) * m == (p * m) * y;
    assert (p * y - q) * m == 0.0;
  }

  lemma {:induction false} TermIsGap(samples: seq<Sample>, i: nat, bins: nat)
    requires InUnit(samples) && samples != [] && i < bins
    ensures Term(samples, i, bins) == Mean(Abs(Within(ItemsOf(samples, bins), i, i + 1)), |samples|)
  {
    BinIsLabel(samples, i, bins);
    var b := BinOf(samples, i, bins);
    if b != [] {
      WeightedMean(SumAcc(b), SumConf(b), |b|, |samples|);
    }
  }

  lemma {:induction false} EceIsSpread(samples: seq<Sample>, n: nat, bins: nat)
    requires InUnit(samples) && samples != [] && n <= bins && bins > 0
    ensures TermSum(samples, n, bins) == Mean(Spread(ItemsOf(samples, bins), 0, n), |samples|)
  {
    if n > 0 {
      EceIsSpread(samples, n - 1, bins);
      TermIsGap(samples, n - 1, bins);
      var items := ItemsOf(samples, bins);
      MeanAdds(Spread(items, 0, n - 1), Abs(Within(items, n - 1, n)), |samples|);
    }
  }

  lemma {:induction false} ItemLabels(samples: seq<Sample>, bins: nat)
    requires InUnit(samples) && bins > 0
    ensures |ItemsOf(samples, bins)| == |samples|
    ensures forall i :: 0 <= i < |samples| ==> 0 <= ItemsOf(samples, bins)[i].bin < bins
  {
    if samples != [] {
      ItemLabels(samples[1..], bins);
      ExactlyOneBin(samples[0].conf, 0, bins);
    }
  }

  function AbsErrors(samples: seq<Sample>): real {
    if samples == [] then 0.0 else Abs(samples[0].acc - samples[0].conf) + AbsErrors(samples[1..])
  }

  lemma {:induction false} ItemSums(samples: seq<Sample>, bins: nat)
    requires bins > 0
    ensures GapSum(ItemsOf(samples, bins)) == SumAcc(samples) - SumConf(samples)
    ensures AbsGapSum(ItemsOf(samples, bins)) == AbsErrors(samples)
  {
    if samples != [] {
      ItemSums(samples[1..], bins);
      assert ItemsOf(samples, bins)[1..] == ItemsOf(samples[1..], bins);
    }
  }

  lemma AbsMean(x: real, n: nat)
    requires n > 0
    ensures Abs(Mean(x, n)) == Mean(Abs(x), n)
  {
    var m := n as real;
    AbsTimes(Mean(x, n), 0.0, m, x, 0.0);
    Cancel(Abs(Mean(x, n)), Mean(Abs(x), n), Abs(x), 1.0, m);
  }

  /** |mean accuracy - mean confidence| <= ECE <= mean |accuracy - confidence|, for any number of bins. */
  lemma {:induction false} EceBounds(samples: seq<Sample>, bins: nat)
    requires InUnit(samples) && samples != [] && bins > 0
    ensures Abs(Mean(SumAcc(samples) - SumConf(samples), |samples|)) <= Ece(samples, bins)
    ensures Ece(samples, bins) <= Mean(AbsErrors(samples), |samples|)
  {
    var items := ItemsOf(samples, bins);
    EceIsSpread(samples, bins, bins);
    ItemLabels(samples, bins);
    WithinAll(items, 0, bins);
    SpreadBetween(items, 0, bins);
    ItemSums(samples, bins);
    AbsMean(SumAcc(samples) - SumConf(samples), |samples|);
    MeanOrder(Abs(SumAcc(samples) - SumConf(samples)), Spread(items, 0, bins), |samples|);
    MeanOrder(Spread(items, 0, bins), AbsErrors(samples), |samples|);
  }

  /** Refining the bins never lowers the ECE. */
  lemma {:induction false} EceRefines(samples: seq<Sample>, bins: nat, k: nat)
    requires InUnit(samples) && samples != [] && bins > 0 && k > 0
    ensures bins * k > 0 && Ece(samples, bins) <= Ece(samples, bins * k)
  {
    assert bins * k >= 1;
    EceIsSpread(samples, bins, bins);
    EceIsSpread(samples, bins * k, bins * k);
    CoarserIsCoarse(samples, bins, k);
    CoarserSpread(ItemsOf(samples, bins * k), k, bins);
    MeanOrder(Spread(ItemsOf(samples, bins), 0, bins), Spread(ItemsOf(samples, bins * k), 0, bins * k), |samples|);
  }

  lemma {:induction false} CoarserIsCoarse(samples: seq<Sample>, bins: nat, k: nat)
    requires InUnit(samples) && bins > 0 && k > 0 && bins * k > 0
    ensures Coarser(ItemsOf(samples, bins * k), k) == ItemsOf(samples, bins)
  {
    if samples != [] {
      CoarserIsCoarse(samples[1..], bins, k);
      LabelRefines(samples[0].conf, bins, k);
      assert ItemsOf(samples, bins * k)[1..] == ItemsOf(samples[1..], bins * k);
    }
  }

  lemma LabelRefines(c: real, bins: nat, k: nat)
    requires 0.0 <= c <= 1.0 && bins > 0 && k > 0 && bins * k > 0
    ensures LabelOf(c, bins * k) / k == LabelOf(c, bins)
  {
    var r := k as real;
    if c >= 1.0 {
      assert (bins - 1) * k <= bins * k - 1 < (bins - 1) * k + k;
      SameGroup(bins * k - 1, k, bins - 1);
    } else {
      FloorRefines(c * bins as real, c * (bins * k) as real, k);
    }
  }

  lemma FloorRefines(x: real, y: real, k: nat)
    requires k > 0 && y == x * k as real
    ensures y.Floor / k == x.Floor
  {
    var q, r := x.Floor, k as real;
    Between(q as real, x, r, y);
    assert (q * k) as real == q as real * r;
    assert (q * k + k) as real == q as real * r + r;
    SameGroup(y.Floor, k, q);
  }

  lemma Between(q: real, x: real, r: real, y: real)
    requires q <= x < q + 1.0 && r > 0.0 && y == x * r
    ensures q * r <= y < q * r + r
  {
    SameOrder(q, x, r, q * r);
    assert (q + 1.0) * r == q * r + r;
    SameOrder(q + 1.0, x, r, q * r + r);
  }

  // ---------------------------------------------------------------- the ECE by bins

  lemma {:induction false} SpreadOutside(items: seq<Item>, lo: int, hi: int)
    requires lo <= hi && forall i :: 0 <= i < |items| ==> !(lo <= items[i].bin < hi)
    ensures Spread(items, lo, hi) == 0.0
    decreases hi - lo
  {
    if lo < hi {
      SpreadOutside(items, lo, hi - 1);
      WithinOutside(items, hi - 1, hi);
    }
  }

  lemma {:induction false} WithinOutside(items: seq<Item>, lo: int, hi: int)
    requires forall i :: 0 <= i < |items| ==> !(lo <= items[i].bin < hi)
    ensures Within(items, lo, hi) == 0.0
  {
    if items != [] {
      WithinOutside(items[1..], lo, hi);
    }
  }

  lemma {:induction false} SpreadInOne(items: seq<Item>, i: nat, bins: nat)
    requires i < bins && forall j :: 0 <= j < |items| ==> items[j].bin == i
    ensures Spread(items, 0, bins) == Abs(GapSum(items))
  {
    SpreadSplits(items, 0, i, bins);
    SpreadSplits(items, i, i + 1, bins);
    SpreadOutside(items, 0, i);
    SpreadOutside(items, i + 1, bins);
    WithinAll(items, i, i + 1);
    assert Spread(items, i, i) == 0.0;
  }

  ghost predicate AllInBin(samples: seq<Sample>, i: nat, bins: nat)
    requires i < bins
  {
    forall j :: 0 <= j < |samples| ==> InBin(samples[j].conf, i, bins)
  }

  lemma {:induction false} ItemLabelAt(samples: seq<Sample>, bins: nat, j: nat)
    requires bins > 0 && j < |samples|
    ensures |ItemsOf(samples, bins)| == |samples|
    ensures ItemsOf(samples, bins)[j] == Item(LabelOf(samples[j].conf, bins), samples[j].acc - samples[j].conf)
  {
    if |samples| > 1 {
      ItemLabelAt(samples[1..], bins, if j > 0 then j - 1 else 0);
    }
  }

  /** When all samples are in one bin, the ECE is the gap of their means. */
  lemma {:induction false} EceOfOneBin(samples: seq<Sample>, i: nat, bins: nat)
    requires InUnit(samples) && samples != [] && i < bins && AllInBin(samples, i, bins)
    ensures Ece(samples, bins) == Abs(Mean(SumAcc(samples) - SumConf(samples), |samples|))
  {
    var items := ItemsOf(samples, bins);
    ItemLabels(samples, bins);
    forall j | 0 <= j < |items| ensures items[j].bin == i {
      ItemLabelAt(samples, bins, j);
      ExactlyOneBin(samples[j].conf, i, bins);
    }
    EceIsSpread(samples, bins, bins);
    SpreadInOne(items, i, bins);
    ItemSums(samples, bins);
    AbsMean(SumAcc(samples) - SumConf(samples), |samples|);
  }

  /** No bin has samples of both. */
  ghost predicate ShareNoBin(a: seq<Sample>, b: seq<Sample>, bins: nat) {
    forall i, j, k: nat :: 0 <= i < |a| && 0 <= j < |b| && k < bins ==>
      !(InBin(a[i].conf, k, bins) && InBin(b[j].conf, k, bins))
  }

  lemma {:induction false} ItemsConcat(a: seq<Sample>, b: seq<Sample>, bins: nat)
    requires bins > 0
    ensures ItemsOf(a + b, bins) == ItemsOf(a, bins) + ItemsOf(b, bins)
  {
    if a == [] {
      assert a + b == b;
    } else {
      ItemsConcat(a[1..], b, bins);
      assert (a + b)[1..] == a[1..] + b;
    }
  }

  lemma {:induction false} WithinConcat(a: seq<Item>, b: seq<Item>, lo: int, hi: int)
    ensures Within(a + b, lo, hi) == Within(a, lo, hi) + Within(b, lo, hi)
  {
    if a == [] {
      assert a + b == b;
    } else {
      WithinConcat(a[1..], b, lo, hi);
      assert (a + b)[1..] == a[1..] + b;
    }
  }

  lemma {:induction false} SpreadConcat(a: seq<Item>, b: seq<Item>, n: nat)
    requires forall i, j :: 0 <= i < |a| && 0 <= j < |b| ==> a[i].bin != b[j].bin
    ensures Spread(a + b, 0, n) == Spread(a, 0, n) + Spread(b, 0, n)
  {
    if n > 0 {
      SpreadConcat(a, b, n - 1);
      WithinConcat(a, b, n - 1, n);
      if forall i :: 0 <= i < |a| ==> a[i].bin != n - 1 {
        WithinOutside(a, n - 1, n);
      } else {
        WithinOutside(b, n - 1, n);
      }
    }
  }

  /** What samples contribute to the ECE does not depend on samples in other bins. */
  lemma {:induction false} EceAddsUp(a: seq<Sample>, b: seq<Sample>, bins: nat)
    requires InUnit(a) && InUnit(b) && a != [] && b != [] && bins > 0 && ShareNoBin(a, b, bins)
    ensures |a + b| as real * Ece(a + b, bins) == |a| as real * Ece(a, bins) + |b| as real * Ece(b, bins)
  {
    hide Spread, ItemsOf, LabelOf, InBin, Ece, TermSum, Mean;
    WeightedEce(a, bins);
    WeightedEce(b, bins);
    assert InUnit(a + b);
    WeightedEce(a + b, bins);
    ItemsConcat(a, b, bins);
    var x, y := ItemsOf(a, bins), ItemsOf(b, bins);
    ItemLabels(a, bins);
    ItemLabels(b, bins);
    forall i, j | 0 <= i < |x| && 0 <= j < |y| ensures x[i].bin != y[j].bin {
      ItemLabelAt(a, bins, i);
      ItemLabelAt(b, bins, j);
      ExactlyOneBin(a[i].conf, LabelOf(a[i].conf, bins), bins) by {
        ExactlyOneBin(a[i].conf, 0, bins);
      }
      ExactlyOneBin(b[j].conf, x[i].bin, bins);
    }
    SpreadConcat(x, y, bins);
  }

  lemma WeightedEce(samples: seq<Sample>, bins: nat)
    requires InUnit(samples) && samples != [] && bins > 0
    ensures |samples| as real * Ece(samples, bins) == Spread(ItemsOf(samples, bins), 0, bins)
  {
    hide Mean, Spread, TermSum, Term, ItemsOf;
    EceIsSpread(samples, bins, bins);
    Weighted(Ece(samples, bins), Spread(ItemsOf(samples, bins), 0, bins), |samples|);
  }

  lemma Weighted(e: real, x: real, n: nat)
    requires n > 0 && e == Mean(x, n)
    ensures n as real * e == x
  {
    MeanScales(x, n);
  }

  /** No bin has two samples. */
  ghost predicate Apart(samples: seq<Sample>, bins: nat) {
    forall i, j, k: nat :: 0 <= i < j < |samples| && k < bins ==>
      !(InBin(samples[i].conf, k, bins) && InBin(samples[j].conf, k, bins))
  }

  lemma ApartRest(samples: seq<Sample>, bins: nat)
    requires samples != [] && Apart(samples, bins)
    ensures Apart(samples[1..], bins) && ShareNoBin([samples[0]], samples[1..], bins)
  {
  }

  /** When no two samples share a bin, the ECE is the mean absolute error. */
  lemma {:induction false} EceOfApart(samples: seq<Sample>, bins: nat)
    requires InUnit(samples) && samples != [] && bins > 0
    requires Apart(samples, bins)
    ensures Ece(samples, bins) == Mean(AbsErrors(samples), |samples|)
  {
    WeightedApart(samples, bins);
    MeanUnique(Ece(samples, bins), AbsErrors(samples), |samples|);
  }

  lemma MeanUnique(e: real, x: real, n: nat)
    requires n > 0 && n as real * e == x
    ensures e == Mean(x, n)
  {
    MeanScales(x, n);
    assert (e - Mean(x, n)) * n as real == 0.0;
  }

  lemma {:induction false} WeightedApart(samples: seq<Sample>, bins: nat)
    requires InUnit(samples) && samples != [] && bins > 0
    requires Apart(samples, bins)
    ensures |samples| as real * Ece(samples, bins) == AbsErrors(samples)
  {
    hide Ece, Apart, ShareNoBin;
    var first, rest := [samples[0]], samples[1..];
    assert samples == first + rest;
    ApartRest(samples, bins);
    SingleEce(samples[0], bins);
    if rest == [] {
      assert samples == first;
    } else {
      WeightedApart(rest, bins);
      EceAddsUp(first, rest, bins);
    }
  }

  lemma SingleEce(s: Sample, bins: nat)
    requires InUnit([s]) && bins > 0
    ensures Ece([s], bins) == Abs(s.acc - s.conf) && AbsErrors([s]) == Abs(s.acc - s.conf)
  {
    ExactlyOneBin([s][0].conf, 0, bins);
    ExactlyOneBin([s][0].conf, LabelOf(s.conf, bins), bins);
    EceOfOneBin([s], LabelOf(s.conf, bins), bins);
    assert [s][1..] == [];
    assert SumAcc([s]) == s.acc && SumConf([s]) == s.conf;
    assert Mean(s.acc - s.conf, 1) == s.acc - s.conf;
  }

  /** Beyond 1 the last bin goes on for a millionth. */
  lemma LastBinEnds(c: real, bins: nat)
    requires bins > 0 && c >= 1.0
    ensures InBin(c, bins - 1, bins) <==> c < 1.000001
  {
    LastLower(bins);
    LowerScaled(bins - 1, bins, 1.0);
  }

  // ---------------------------------------------------------------- which samples count

  /** Under a mask exactly the samples with a positive entry count, in their order: by parts and one by one. */
  lemma {:induction false} SelectParts(a: seq<Sample>, b: seq<Sample>, m: seq<real>, n: seq<real>)
    requires |m| == |a| && |n| == |b|
    ensures Select(a + b, Some(m + n)) == Select(a, Some(m)) + Select(b, Some(n))
  {
    if a == [] {
      assert a + b == b && m + n == n;
    } else {
      SelectParts(a[1..], b, m[1..], n);
      assert (a + b)[1..] == a[1..] + b && (m + n)[1..] == m[1..] + n;
    }
  }

  lemma {:induction false} SelectsPositive(samples: seq<Sample>, mask: seq<real>, s: Sample)
    requires |mask| == |samples|
    ensures s in Select(samples, Some(mask)) <==> exists i :: 0 <= i < |samples| && samples[i] == s && mask[i] > 0.0
    ensures |samples| == 1 ==> Select(samples, Some(mask)) == if mask[0] > 0.0 then samples else []
    ensures Select(samples, None) == samples
  {
    if samples != [] {
      SelectsPositive(samples[1..], mask[1..], s);
      if i :| 0 <= i < |samples| && samples[i] == s && mask[i] > 0.0 {
        assert i > 0 ==> samples[1..][i - 1] == s && mask[1..][i - 1] > 0.0;
      }
    }
  }

  // ---------------------------------------------------------------- Brier

  /** Equal squared errors are the score. */
  lemma {:induction false} BrierOfEqual(samples: seq<Sample>, e: real)
    requires samples != []
    requires forall i :: 0 <= i < |samples| ==>
               (samples[i].conf - samples[i].acc) * (samples[i].conf - samples[i].acc) == e
    ensures Brier(samples) == e
  {
    EqualErrors(samples, e);
    MeanUnique(e, SquaredErrors(samples), |samples|);
  }

  lemma {:induction false} EqualErrors(samples: seq<Sample>, e: real)
    requires forall i :: 0 <= i < |samples| ==>
               (samples[i].conf - samples[i].acc) * (samples[i].conf - samples[i].acc) == e
    ensures SquaredErrors(samples) == |samples| as real * e
  {
    if samples != [] {
      EqualErrors(samples[1..], e);
      assert |samples| as real * e == |samples[1..]| as real * e + e;
    }
  }

  /** The score of two groups together is the mean of their scores, weighted by their sizes. */
  lemma {:induction false} BrierAddsUp(a: seq<Sample>, b: seq<Sample>)
    requires a != [] && b != []
    ensures |a + b| as real * Brier(a + b) == |a| as real * Brier(a) + |b| as real * Brier(b)
  {
    hide Mean;
    ErrorsConcat(a, b);
    MeanScales(SquaredErrors(a), |a|);
    MeanScales(SquaredErrors(b), |b|);
    MeanScales(SquaredErrors(a + b), |a + b|);
  }

  lemma {:induction false} ErrorsConcat(a: seq<Sample>, b: seq<Sample>)
    ensures SquaredErrors(a + b) == SquaredErrors(a) + SquaredErrors(b)
  {
    if a == [] {
      assert a + b == b;
    } else {
      ErrorsConcat(a[1..], b);
      assert (a + b)[1..] == a[1..] + b;
    }
  }

  lemma {:induction false} CauchySchwarz(samples: seq<Sample>)
    ensures AbsErrors(samples) * AbsErrors(samples) <= |samples| as real * SquaredErrors(samples)
    ensures SquaredErrors(samples) >= 0.0 && AbsErrors(samples) >= 0.0
  {
    if samples != [] {
      var rest := samples[1..];
      CauchySchwarz(rest);
      var x := Abs(samples[0].acc - samples[0].conf);
      assert x * x == (samples[0].conf - samples[0].acc) * (samples[0].conf - samples[0].acc);
      AddSquare(AbsErrors(rest), SquaredErrors(rest), |rest|, x);
      assert |samples| as real == |rest| as real + 1.0;
    }
  }

  lemma SquareIsPositive(a: real)
    requires a != 0.0
    ensures a * a > 0.0
  {}

  lemma AddSquare(a: real, b: real, n: nat, x: real)
    requires a * a <= n as real * b && b >= 0.0 && a >= 0.0 && x >= 0.0
    ensures (a + x) * (a + x) <= (n as real + 1.0) * (b + x * x)
  {
    var m := n as real;
    if n == 0 {
      if a != 0.0 {
        SquareIsPositive(a);
      }
    } else {
      var d := b + m * x * x - 2.0 * a * x;
      var s := a - m * x;
      assert s * s >= 0.0;
      assert m * d == m * b + m * m * x * x - 2.0 * m * a * x;
      assert s * s == a * a - 2.0 * m * a * x + m * m * x * x;
      if d < 0.0 {
        assert m * d < 0.0;
      }
      assert (m + 1.0) * (b + x * x) - (a + x) * (a + x) == (m * b - a * a) + d;
    }
  }

  /** Under any mask the two scores exist together, and the squared calibration error never exceeds the
      Brier score. */
  lemma {:induction false} EceSquaredBelowBrier(samples: seq<Sample>, mask: Option<seq<real>>, bins: nat)
    requires InUnit(samples) && bins > 0 && (mask.Some? ==> |mask.value| == |samples|)
    ensures EceScore(samples, mask, bins).Some? == BrierScore(samples, mask).Some?
    ensures EceScore(samples, mask, bins).Some? ==>
              EceScore(samples, mask, bins).value * EceScore(samples, mask, bins).value <= BrierScore(samples, mask).value
  {
    hide Ece, Brier;
    if Select(samples, mask) != [] {
      EceBelowBrier(Select(samples, mask), bins);
    }
  }

  lemma {:induction false} EceBelowBrier(samples: seq<Sample>, bins: nat)
    requires InUnit(samples) && samples != [] && bins > 0
    ensures Ece(samples, bins) * Ece(samples, bins) <= Brier(samples)
  {
    EceRange(samples, bins);
    BelowMeanError(samples, Ece(samples, bins));
  }

  lemma {:induction false} EceRange(samples: seq<Sample>, bins: nat)
    requires InUnit(samples) && samples != [] && bins > 0
    ensures 0.0 <= Ece(samples, bins) <= Mean(AbsErrors(samples), |samples|)
  {
    EceBounds(samples, bins);
    EceIsSpread(samples, bins, bins);
    MeanOrder(0.0, Spread(ItemsOf(samples, bins), 0, bins), |samples|);
  }

  lemma {:induction false} BelowMeanError(samples: seq<Sample>, e: real)
    requires samples != [] && 0.0 <= e <= Mean(AbsErrors(samples), |samples|)
    ensures e * e <= Brier(samples)
  {
    CauchySchwarz(samples);
    SquaredMeans(e, AbsErrors(samples), SquaredErrors(samples), |samples|);
  }

  lemma SquaredMeans(e: real, x: real, y: real, n: nat)
    requires n > 0 && 0.0 <= e <= Mean(x, n) && x * x <= n as real * y
    ensures e * e <= Mean(y, n)
  {
    var m, a, b := n as real, Mean(x, n), Mean(y, n);
    MeanScales(x, n);
    MeanScales(y, n);
    assert (a * m) * (a * m) == (a * a) * (m * m);
    assert m * (b * m) == b * (m * m);
    SquareIsPositive(m);
    OrderCancels(a * a, b, m * m);
    SquareOrder(e, a);
  }

  lemma SquareOrder(e: real, a: real)
    requires 0.0 <= e <= a
    ensures e * e <= a * a
  {
    Product(a - e, a);
    Product(a - e, e);
    assert a * a - e * e == (a - e) * a + (a - e) * e;
  }

  lemma OrderCancels(x: real, y: real, m: real)
    requires m > 0.0 && x * m <= y * m
    ensures x <= y
  {
    assert x > y ==> (x - y) * m > 0.0;
  }
}
