/** The fused gate and up projections of an MLP: concatenated by the converter, halved by the
    mergers, across any number of tensor-parallel ranks.  A tensor is the sequence of its rows. */
module GateUp {
  import opened Sequences
  import opened QkvLayout
  import opened Wrappers

  datatype Halves<T> = Halves(gate: seq<T>, up: seq<T>)

  /** `gate, up = tensor.chunk(2)`; None when there are not exactly two chunks. */
  function Halve<T>(tensor: seq<T>): Option<Halves<T>> {
    var chunks := Chunk(tensor, 2);
    if |chunks| != 2 then None else Some(Halves(chunks[0], chunks[1]))
  }

  function HalveAll<T>(shards: seq<seq<T>>): Option<Halves<T>> {
    if shards == [] then Some(Halves([], []))
    else
      var front, last := HalveAll(shards[..|shards| - 1]), Halve(shards[|shards| - 1]);
      if front.None? || last.None? then None
      else Some(Halves(front.value.gate + last.value.gate, front.value.up + last.value.up))
  }

  /** The gate/up branch of `_merge_across_tp` (and of `_split_tensors`, with one shard). */
  method MergeGateUp<T>(shards: seq<seq<T>>) returns (r: Option<Halves<T>>)
    ensures r == HalveAll(shards)
  {
    var gate, up := [], [];
    for i := 0 to |shards|
      invariant HalveAll(shards[..i]) == Some(Halves(gate, up))
    {
      var halves := Halve(shards[i]);
      assert shards[..i + 1][..i] == shards[..i];
      if halves.None? {
        HalveAllFails(shards, i + 1);
        return None;
      }
      gate, up := gate + halves.value.gate, up + halves.value.up;
    }
    assert shards[..|shards|] == shards;
    r := Some(Halves(gate, up));
  }

  lemma {:induction false} HalveAllFails<T>(shards: seq<seq<T>>, n: nat)
    requires n <= |shards| && HalveAll(shards[..n]).None?
    ensures HalveAll(shards).None?
  {
    if n < |shards| {
      assert shards[..|shards| - 1][..n] == shards[..n];
      HalveAllFails(shards[..|shards| - 1], n);
    } else {
      assert shards[..n] == shards;
    }
  }

  /** Halving undoes the converter's concatenation of two projections of equal, non-zero size. */
  lemma HalveUndoesConcat<T>(gate: seq<T>, up: seq<T>)
    requires |gate| == |up| > 0
    ensures Halve(gate + up) == Some(Halves(gate, up))
  {
    var s, n := gate + up, |gate|;
    assert (|s| + 2 - 1) / 2 == n;
    assert s[..n] == gate && s[n..] == up;
    assert Pieces(s[n..], n) == [up];
    assert Pieces(s, n) == [gate, up];
  }

  /** A tensor splits exactly when it has two rows; an odd row goes to the gate. */
  lemma HalvesExactly<T>(tensor: seq<T>)
    ensures Halve(tensor).Some? <==> |tensor| >= 2
    ensures |tensor| >= 2 ==>
              var h := Halve(tensor).value; h.gate + h.up == tensor && |h.up| <= |h.gate| <= |h.up| + 1
  {
    var size := (|tensor| + 1) / 2;
    if |tensor| >= 2 {
      assert Pieces(tensor[size..], size) == [tensor[size..]];
      assert Pieces(tensor, size) == [tensor[..size], tensor[size..]];
      assert tensor[..size] + tensor[size..] == tensor;
    }
  }

  ghost predicate Fused<T>(shards: seq<seq<T>>, gates: seq<seq<T>>, ups: seq<seq<T>>) {
    |shards| == |gates| == |ups|
    && forall i :: 0 <= i < |shards| ==> |gates[i]| == |ups[i]| > 0 && shards[i] == gates[i] + ups[i]
  }

  /** Merging per-rank [gate_i; up_i] shards restores the full gate and the full up projection. */
  lemma {:induction false} GateUpRoundTrip<T>(shards: seq<seq<T>>, gates: seq<seq<T>>, ups: seq<seq<T>>)
    requires Fused(shards, gates, ups)
    ensures HalveAll(shards) == Some(Halves(Flatten(gates), Flatten(ups)))
  {
    if shards != [] {
      var n := |shards| - 1;
      GateUpRoundTrip(shards[..n], gates[..n], ups[..n]);
      HalveUndoesConcat(gates[n], ups[n]);
    }
  }
}
