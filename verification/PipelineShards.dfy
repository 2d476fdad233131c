/** `get_dynamic_pipeline_shards`: how many layers each pipeline rank gets. */
module PipelineShards {
  import opened Sequences

  /** The list, the two ValueErrors, or the IndexError of taking [0] of an empty search result. */
  datatype Outcome = Ok(shards: seq<int>) | TooFewLayers | BadPipelineSize | NothingFound

  datatype Strategy = Strategy(shards: seq<int>, diff: int)

  function Abs(x: int): int { if x < 0 then -x else x }

  function Sum(xs: seq<int>): int {
    if xs == [] then 0 else Sum(xs[..|xs| - 1]) + xs[|xs| - 1]
  }

  /** The split tried for one middle size: the first rank gets half of the rest, rounded down. */
  function First(layers: int, pp: int, m: int): int { (layers - m * (pp - 2)) / 2 }

  function Last(layers: int, pp: int, m: int): int { layers - m * (pp - 2) - First(layers, pp, m) }

  predicate Accepted(layers: int, pp: int, m: int) {
    0 < First(layers, pp, m) <= m && 0 < Last(layers, pp, m) <= m
  }

  function StrategyOf(layers: int, pp: int, m: int): Strategy
    requires pp >= 3
  {
    Strategy([First(layers, pp, m)] + Repeat(m, pp - 2) + [Last(layers, pp, m)], Abs(First(layers, pp, m) - m))
  }

  /** The strategies collected for middle sizes below n. */
  function Collected(layers: int, pp: int, n: nat): seq<Strategy>
    requires pp >= 3
  {
    if n == 0 then []
    else if Accepted(layers, pp, n - 1) then Collected(layers, pp, n - 1) + [StrategyOf(layers, pp, n - 1)]
    else Collected(layers, pp, n - 1)
  }

  /** Python's `sorted` with key `diff`: stable insertion. */
  function Insert(s: Strategy, sorted: seq<Strategy>): seq<Strategy> {
    if sorted == [] || s.diff < sorted[0].diff then [s] + sorted
    else [sorted[0]] + Insert(s, sorted[1..])
  }

  function Sorted(xs: seq<Strategy>): seq<Strategy> {
    if xs == [] then [] else Insert(xs[|xs| - 1], Sorted(xs[..|xs| - 1]))
  }

  /** The smallest middle size that leaves room for no larger end: layers / pp, rounded up. */
  function Ceil(layers: int, pp: int): int
    requires pp > 0
  {
    (layers + pp - 1) / pp
  }

  /** The list a successful call returns. */
  function Returned(layers: int, pp: int): seq<int>
    requires layers >= pp >= 1
  {
    if pp == 1 then [layers]
    else if pp == 2 then [layers / 2, layers - layers / 2]
    else StrategyOf(layers, pp, Ceil(layers, pp)).shards
  }

  ghost predicate Succeeds(layers: int, pp: int) {
    layers >= pp >= 1 && (pp >= 3 ==> Ceil(layers, pp) * (pp - 2) + 2 <= layers)
  }

  /** The search of the source. */
  method GetDynamicPipelineShards(layers: int, pp: int) returns (r: Outcome)
    ensures layers < pp ==> r == TooFewLayers
    ensures layers >= pp && pp < 1 ==> r == BadPipelineSize
    ensures layers >= pp == 1 ==> r == Ok([layers])
    ensures layers >= pp == 2 ==> r == Ok([layers / 2, layers - layers / 2])
    ensures layers >= pp >= 3 ==>
              var m := Ceil(layers, pp);
              r == if m * (pp - 2) + 2 <= layers then Ok(StrategyOf(layers, pp, m).shards) else NothingFound
    ensures r.Ok? <==> Succeeds(layers, pp)
    ensures r.Ok? ==> r.shards == Returned(layers, pp)
  {
    if layers < pp {
      return TooFewLayers;
    }
    if pp < 1 {
      return BadPipelineSize;
    }
    if pp == 1 {
      return Ok([layers]);
    }
    if pp == 2 {
      return Ok([layers / 2, layers - layers / 2]);
    }
    var strategies: seq<Strategy> := [];
    for m := 0 to layers
      invariant strategies == Collected(layers, pp, m)
    {
      var rest := layers - m * (pp - 2);
      var first := rest / 2;
      var last := rest - rest / 2;
      if 0 < first <= m && 0 < last <= m {
        strategies := strategies + [Strategy([first] + Repeat(m, pp - 2) + [last], Abs(first - m))];
      }
    }
    BestIsCeil(layers, pp);
    var sorted := Sorted(strategies);
    if sorted == [] {
      return NothingFound;
    }
    return Ok(sorted[0].shards);
  }

  // ---------------------------------------------------------------- which sizes are accepted

  /** A middle size is accepted exactly when it is at least the rounded-up average and leaves at
      least two layers for the ends. */
  lemma AcceptedIff(layers: int, pp: int, m: int)
    requires pp >= 3
    ensures Accepted(layers, pp, m) <==> m * pp >= layers && m * (pp - 2) + 2 <= layers
  {
    assert m * pp == m * (pp - 2) + 2 * m;
  }

  lemma {:induction false} CeilIsLeast(layers: int, pp: int, m: int)
    requires pp > 0
    ensures m * pp >= layers <==> m >= Ceil(layers, pp)
  {
    var c := Ceil(layers, pp);
    assert c * pp >= layers && (c - 1) * pp < layers;
    if m >= c {
      assert m * pp >= c * pp;
    } else {
      assert m * pp <= (c - 1) * pp;
    }
  }

  /** Larger middle sizes are farther from the first rank's share. */
  lemma {:induction false} DiffGrows(layers: int, pp: int, m: int, n: int)
    requires pp >= 3 && m < n
    ensures n - First(layers, pp, n) > m - First(layers, pp, m)
  {
    assert n * (pp - 2) >= m * (pp - 2);
  }

  // ---------------------------------------------------------------- the sorted minimum

  lemma InsertHead(s: Strategy, sorted: seq<Strategy>)
    ensures Insert(s, sorted) != []
    ensures Insert(s, sorted)[0] == if sorted == [] || s.diff < sorted[0].diff then s else sorted[0]
  {
  }

  /** Below n, the first strategy after sorting is the accepted one with the least middle size. */
  lemma {:induction false} SortedHead(layers: int, pp: int, n: nat, c: int)
    requires pp >= 3 && c == Ceil(layers, pp) >= 0
    ensures Sorted(Collected(layers, pp, n)) == [] <==> !(c < n && c * (pp - 2) + 2 <= layers)
    ensures Sorted(Collected(layers, pp, n)) != [] ==>
              Sorted(Collected(layers, pp, n))[0] == StrategyOf(layers, pp, c)
  {
    if n > 0 {
      var m := n - 1;
      SortedHead(layers, pp, m, c);
      AcceptedIff(layers, pp, m);
      CeilIsLeast(layers, pp, m);
      var before := Collected(layers, pp, m);
      if Accepted(layers, pp, m) {
        var s := StrategyOf(layers, pp, m);
        assert (before + [s])[..|before|] == before;
        InsertHead(s, Sorted(before));
        if m > c {
          LessRoom(layers, pp, c, m);
          DiffGrows(layers, pp, c, m);
          AcceptedIff(layers, pp, c);
          CeilIsLeast(layers, pp, c);
        }
      }
    }
  }

  lemma LessRoom(layers: int, pp: int, c: int, m: int)
    requires pp >= 3 && c <= m && m * (pp - 2) + 2 <= layers
    ensures c * (pp - 2) + 2 <= layers
  {
    assert c * (pp - 2) <= m * (pp - 2);
  }

  lemma BestIsCeil(layers: int, pp: int)
    requires layers >= pp >= 3
    ensures var best, c := Sorted(Collected(layers, pp, layers)), Ceil(layers, pp);
            && (best == [] <==> c * (pp - 2) + 2 > layers)
            && (best != [] ==> best[0] == StrategyOf(layers, pp, c))
  {
    var c := Ceil(layers, pp);
    SortedHead(layers, pp, layers, c);
    AtLeastOnce(c, pp - 2);
  }

  lemma AtLeastOnce(c: nat, k: int)
    requires k >= 1
    ensures c * k >= c
  {
  }

  // ---------------------------------------------------------------- what the caller gets

  lemma SumConcat(a: seq<int>, b: seq<int>)
    ensures Sum(a + b) == Sum(a) + Sum(b)
  {
    if b == [] {
      assert a + b == a;
    } else {
      assert (a + b)[..|a + b| - 1] == a + b[..|b| - 1];
      SumConcat(a, b[..|b| - 1]);
    }
  }

  lemma {:induction false} SumRepeat(x: int, n: nat)
    ensures Sum(Repeat(x, n)) == x * n
  {
    if n > 0 {
      SumRepeat(x, n - 1);
      assert Repeat(x, n)[..n - 1] == Repeat(x, n - 1);
      assert x * n == x * (n - 1) + x;
    }
  }

  /** No list of pp entries with this sum has a smaller maximum than the rounded-up average. */
  lemma {:induction false} SumBounded(xs: seq<int>, c: int)
    requires forall i :: 0 <= i < |xs| ==> xs[i] <= c
    ensures Sum(xs) <= c * |xs|
  {
    if xs != [] {
      SumBounded(xs[..|xs| - 1], c);
      assert c * |xs| == c * (|xs| - 1) + c;
    }
  }

  /** A successful call splits all layers into positive shares, one per rank, and no other split
      has a smaller largest share. */
  lemma ShardsOptimal(layers: int, pp: int, other: seq<int>)
    requires Succeeds(layers, pp)
    requires |other| == pp && Sum(other) == layers
    ensures var r := Returned(layers, pp);
            && |r| == pp && Sum(r) == layers
            && (forall i :: 0 <= i < pp ==> 0 < r[i] <= Ceil(layers, pp))
            && Ceil(layers, pp) in r
    ensures exists i :: 0 <= i < pp && other[i] >= Ceil(layers, pp)
  {
    var c := Ceil(layers, pp);
    var r := Returned(layers, pp);
    CeilIsLeast(layers, pp, c - 1);
    if forall i :: 0 <= i < pp ==> other[i] <= c - 1 {
      SumBounded(other, c - 1);
    }
    if pp == 1 {
      assert c == layers && r[0] == layers;
      assert Sum([layers]) == Sum([]) + layers;
    } else if pp == 2 {
      assert r == [layers / 2] + [layers - layers / 2];
      SumConcat([layers / 2], [layers - layers / 2]);
      assert r[1] == c;
    } else {
      AcceptedIff(layers, pp, c);
      CeilIsLeast(layers, pp, c);
      var first, last := First(layers, pp, c), Last(layers, pp, c);
      SumConcat([first] + Repeat(c, pp - 2), [last]);
      SumConcat([first], Repeat(c, pp - 2));
      SumRepeat(c, pp - 2);
      assert r[1] == c;
    }
  }

  /** From three ranks on every inner rank gets the rounded-up average; the two ends share the rest as evenly as
      possible, an odd layer going to the last rank. */
  lemma ShardsShape(layers: int, pp: int)
    requires Succeeds(layers, pp) && pp >= 3
    ensures var r := Returned(layers, pp);
            && |r| == pp && (forall i :: 0 < i < pp - 1 ==> r[i] == Ceil(layers, pp))
            && r[0] <= r[pp - 1] <= r[0] + 1
  {
  }

  /** One rank gets everything, two ranks get halves, an odd layer going to the second. */
  lemma FewRanksShape(layers: int, pp: int)
    requires layers >= pp && 1 <= pp <= 2
    ensures pp == 1 ==> Returned(layers, pp) == [layers]
    ensures pp == 2 ==> |Returned(layers, pp)| == 2 && Sum(Returned(layers, pp)) == layers
    ensures pp == 2 ==> Returned(layers, pp)[0] <= Returned(layers, pp)[1] <= Returned(layers, pp)[0] + 1
  {
    if pp == 2 {
      assert Returned(layers, 2) == [layers / 2] + [layers - layers / 2];
      SumConcat([layers / 2], [layers - layers / 2]);
      assert Sum([layers / 2]) == layers / 2 && Sum([layers - layers / 2]) == layers - layers / 2;
    }
  }

  /** The advertised "as uniform as possible" split does not always exist: five layers on four ranks make the
      search come back empty.  No smaller number of layers, and no smaller number of ranks, ever does. */
  lemma FiveOnFour()
    ensures 5 >= 4 && !Succeeds(5, 4)
    ensures forall layers, pp :: layers >= pp >= 1 && (layers < 5 || pp < 4) ==> Succeeds(layers, pp)
  {
    forall layers, pp | layers >= pp >= 1 && (layers < 5 || pp < 4) ensures Succeeds(layers, pp) {
      if pp == 3 {
        assert Ceil(layers, 3) == (layers + 2) / 3;
      } else if pp > 3 {
        assert layers == pp == 4;
      }
    }
  }
}
