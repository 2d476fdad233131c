/** Which layers and which safetensors files belong to which pipeline rank: the ranges that prefix
    sums cut out, for layers and for file numbers. */
module LayerPartition {

  // ---------------------------------------------------------------- consecutive ranges

  /** `0 if n == 0 else np.cumsum(xs)[n - 1]` */
  function Before(xs: seq<nat>, n: nat): nat
    requires n <= |xs|
  {
    if n == 0 then 0 else Before(xs, n - 1) + xs[n - 1]
  }

  function Total(xs: seq<nat>): nat { Before(xs, |xs|) }

  lemma {:induction false} BeforeGrows(xs: seq<nat>, i: nat, j: nat)
    requires i <= j <= |xs|
    ensures Before(xs, i) <= Before(xs, j)
  {
    if i < j {
      BeforeGrows(xs, i, j - 1);
    }
  }

  /** The range a rank works on. */
  ghost predicate InRange(xs: seq<nat>, i: nat, g: nat) {
    i < |xs| && Before(xs, i) <= g < Before(xs, i + 1)
  }

  /** Every number below the total is in one rank's range. */
  lemma {:induction false} Covered(xs: seq<nat>, g: nat) returns (i: nat)
    requires g < Total(xs)
    ensures InRange(xs, i, g)
  {
    i := |xs| - 1;
    while g < Before(xs, i)
      invariant i < |xs| && g < Before(xs, i + 1)
      decreases i
    {
      i := i - 1;
    }
  }

  /** ... and in no other. */
  lemma Once(xs: seq<nat>, g: nat, i: nat, j: nat)
    requires InRange(xs, i, g) && InRange(xs, j, g)
    ensures i == j
  {
    if i < j {
      BeforeGrows(xs, i + 1, j);
    } else if j < i {
      BeforeGrows(xs, j + 1, i);
    }
  }

  /** The layers 0 .. L-1 are split among the ranks with no gap and no overlap. */
  lemma LayersPartitioned(shards: seq<nat>, g: nat)
    ensures g < Total(shards) <==> exists r: nat :: InRange(shards, r, g)
    ensures forall r: nat, q: nat :: InRange(shards, r, g) && InRange(shards, q, g) ==> r == q
  {
    if g < Total(shards) {
      var r := Covered(shards, g);
    }
    forall r: nat, q: nat | InRange(shards, r, g) && InRange(shards, q, g)
      ensures r == q
    {
      Once(shards, g, r, q);
    }
    if r: nat :| InRange(shards, r, g) {
      BeforeGrows(shards, r + 1, |shards|);
    }
  }

  // ---------------------------------------------------------------- safetensors files

  /** Files written per layer. */
  function SavesPerLayer(layers: nat): (r: nat)
    ensures r > 0
  {
    if layers < 30 then 1 else 2
  }

  /** The index in file names for piece i of a rank's keys. */
  function FileIndex(shards: seq<nat>, spl: nat, rank: nat, i: nat): nat
    requires rank <= |shards|
  {
    Before(shards, rank) * spl + i
  }

  /** Piece i of the rank exists. */
  ghost predicate OwnsPiece(shards: seq<nat>, spl: nat, rank: nat, i: nat) {
    rank < |shards| && i < shards[rank] * spl
  }

  function Scaled(xs: seq<nat>, spl: nat): (r: seq<nat>)
    ensures |r| == |xs| && forall i :: 0 <= i < |xs| ==> r[i] == xs[i] * spl
  {
    seq(|xs|, i requires 0 <= i < |xs| => xs[i] * spl)
  }

  lemma {:induction false} ScaledBefore(xs: seq<nat>, spl: nat, n: nat)
    requires n <= |xs|
    ensures Before(Scaled(xs, spl), n) == Before(xs, n) * spl
  {
    if n > 0 {
      ScaledBefore(xs, spl, n - 1);
      assert (Before(xs, n - 1) + xs[n - 1]) * spl == Before(xs, n - 1) * spl + xs[n - 1] * spl;
    }
  }

  lemma OwnsMeansInRange(shards: seq<nat>, spl: nat, rank: nat, i: nat)
    requires OwnsPiece(shards, spl, rank, i)
    ensures InRange(Scaled(shards, spl), rank, FileIndex(shards, spl, rank, i))
  {
    ScaledBefore(shards, spl, rank);
    ScaledBefore(shards, spl, rank + 1);
  }

  /** Every file index below saves_per_layer * L is some rank's piece, and nothing else is. */
  lemma FilesCovered(shards: seq<nat>, spl: nat, f: nat)
    ensures f < Total(shards) * spl <==>
            exists r: nat, i: nat :: OwnsPiece(shards, spl, r, i) && FileIndex(shards, spl, r, i) == f
  {
    var xs := Scaled(shards, spl);
    ScaledBefore(shards, spl, |shards|);
    if f < Total(shards) * spl {
      var r := Covered(xs, f);
      ScaledBefore(shards, spl, r);
      var i := f - Before(xs, r);
      assert OwnsPiece(shards, spl, r, i) && FileIndex(shards, spl, r, i) == f;
    }
    if r: nat, i: nat :| OwnsPiece(shards, spl, r, i) && FileIndex(shards, spl, r, i) == f {
      OwnsMeansInRange(shards, spl, r, i);
      BeforeGrows(xs, r + 1, |xs|);
    }
  }

  /** No two pieces, of the same rank or of different ranks, go to the same file. */
  lemma FilesOnce(shards: seq<nat>, spl: nat, r: nat, i: nat, q: nat, j: nat)
    requires OwnsPiece(shards, spl, r, i) && OwnsPiece(shards, spl, q, j)
    requires FileIndex(shards, spl, r, i) == FileIndex(shards, spl, q, j)
    ensures r == q && i == j
  {
    OwnsMeansInRange(shards, spl, r, i);
    OwnsMeansInRange(shards, spl, q, j);
    Once(Scaled(shards, spl), FileIndex(shards, spl, r, i), r, q);
  }
}
