/** `np.array_split` with a number of sections. */
module Numpy {
  import opened Arithmetic
  import opened Sequences

  /** `np.array_split`: where piece i starts; the first len % n pieces have one element more. */
  function PieceStart(len: nat, n: nat, i: nat): nat
    requires n > 0
  {
    i * (len / n) + Min(i, len % n)
  }

  lemma {:induction false} PieceStartBounds(len: nat, n: nat, i: nat)
    requires i < n
    ensures PieceStart(len, n, i) <= PieceStart(len, n, i + 1) <= len
    ensures PieceStart(len, n, n) == len
  {
    var q := len / n;
    MulGrows(i, i + 1, q);
    MulGrows(i + 1, n, q);
    assert len == n * q + len % n;
  }

  lemma PieceStartGrows(len: nat, n: nat, i: nat, j: nat)
    requires n > 0 && i <= j
    ensures PieceStart(len, n, i) <= PieceStart(len, n, j)
  {
    MulGrows(i, j, len / n);
  }

  function ArraySplit<K>(keys: seq<K>, n: nat): (r: seq<seq<K>>)
    requires n > 0
    ensures |r| == n
  {
    seq(n, i requires 0 <= i < n =>
      PieceStartBounds(|keys|, n, i); keys[PieceStart(|keys|, n, i)..PieceStart(|keys|, n, i + 1)])
  }

  /** Piece i has len / n elements, one more if it is among the first len % n. */
  lemma PieceSizes<K>(keys: seq<K>, n: nat, i: nat)
    requires i < n
    ensures |ArraySplit(keys, n)[i]| == |keys| / n + (if i < |keys| % n then 1 else 0)
  {
    PieceStartBounds(|keys|, n, i);
    assert (i + 1) * (|keys| / n) == i * (|keys| / n) + |keys| / n;
  }

  lemma FirstPieceStart(len: nat, n: nat)
    requires n > 0
    ensures PieceStart(len, n, 0) == 0
  {
  }

  lemma {:induction false} ArraySplitPrefix<K>(keys: seq<K>, n: nat, i: nat)
    requires n > 0 && i <= n
    ensures PieceStart(|keys|, n, i) <= |keys|
    ensures Flatten(ArraySplit(keys, n)[..i]) == keys[..PieceStart(|keys|, n, i)]
  {
    if i == 0 {
      FirstPieceStart(|keys|, n);
    } else {
      hide PieceStart;
      ArraySplitPrefix(keys, n, i - 1);
      PieceStartBounds(|keys|, n, i - 1);
      var pieces := ArraySplit(keys, n);
      FlattenSnoc(pieces[..i - 1], pieces[i - 1]);
      assert pieces[..i - 1] + [pieces[i - 1]] == pieces[..i];
    }
  }

  /** The pieces hold the keys, in order, once. */
  lemma ArraySplitFlattens<K>(keys: seq<K>, n: nat)
    requires n > 0
    ensures Flatten(ArraySplit(keys, n)) == keys
  {
    ArraySplitPrefix(keys, n, n);
    PieceStartBounds(|keys|, n, 0);
    assert ArraySplit(keys, n)[..n] == ArraySplit(keys, n);
  }
}
