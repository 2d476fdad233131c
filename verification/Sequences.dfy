/** Concatenating a list of pieces. */
module Sequences {
  import opened Arithmetic

  /** `[x] * n`: empty for a negative n. */
  function Repeat<T>(x: T, n: int): (r: seq<T>)
    ensures |r| == if n < 0 then 0 else n
    ensures forall i :: 0 <= i < |r| ==> r[i] == x
  {
    seq(if n < 0 then 0 else n, _ => x)
  }

  function Flatten<T>(pieces: seq<seq<T>>): seq<T> {
    if pieces == [] then [] else Flatten(pieces[..|pieces| - 1]) + pieces[|pieces| - 1]
  }

  lemma FlattenSnoc<T>(pieces: seq<seq<T>>, p: seq<T>)
    ensures Flatten(pieces + [p]) == Flatten(pieces) + p
  {
    assert (pieces + [p])[..|pieces|] == pieces;
  }

  lemma {:induction false} FlattenConcat<T>(a: seq<seq<T>>, b: seq<seq<T>>)
    ensures Flatten(a + b) == Flatten(a) + Flatten(b)
  {
    if b == [] {
      assert a + b == a;
    } else {
      hide Flatten;
      var front, last := b[..|b| - 1], b[|b| - 1];
      FlattenConcat(a, front);
      FlattenSnoc(front, last);
      FlattenSnoc(a + front, last);
      assert b == front + [last] && a + b == (a + front) + [last];
    }
  }

  lemma {:induction false} FlattenPrefix<T>(pieces: seq<seq<T>>, n: nat)
    requires n <= |pieces|
    ensures Flatten(pieces[..n]) <= Flatten(pieces)
  {
    assert pieces == pieces[..n] + pieces[n..];
    FlattenConcat(pieces[..n], pieces[n..]);
  }

  /** Every piece has w elements. */
  ghost predicate Uniform<T>(pieces: seq<seq<T>>, w: nat) {
    forall i :: 0 <= i < |pieces| ==> |pieces[i]| == w
  }

  lemma {:induction false} FlattenLength<T>(pieces: seq<seq<T>>, w: nat)
    requires Uniform(pieces, w)
    ensures |Flatten(pieces)| == |pieces| * w
  {
    if pieces != [] {
      FlattenLength(pieces[..|pieces| - 1], w);
      assert |pieces| * w == (|pieces| - 1) * w + w;
    }
  }

  /** Piece j of uniform pieces, found in their concatenation. */
  lemma {:induction false} UniformPiece<T>(pieces: seq<seq<T>>, w: nat, j: nat)
    requires Uniform(pieces, w) && j < |pieces|
    ensures |Flatten(pieces)| == |pieces| * w && j * w <= (j + 1) * w <= |pieces| * w
    ensures Flatten(pieces)[j * w..(j + 1) * w] == pieces[j]
  {
    var front := pieces[..|pieces| - 1];
    FlattenLength(pieces, w);
    FlattenLength(front, w);
    MulGrows(j, j + 1, w);
    MulGrows(j + 1, |pieces|, w);
    assert (j + 1) * w == j * w + w;
    if j < |front| {
      UniformPiece(front, w, j);
      assert Flatten(pieces)[j * w..(j + 1) * w] == Flatten(front)[j * w..(j + 1) * w];
    }
  }

  ghost predicate Distinct<K>(keys: seq<K>) {
    forall i, j :: 0 <= i < j < |keys| ==> keys[i] != keys[j]
  }

  ghost predicate Apart<K>(pieces: seq<seq<K>>) {
    forall i, j, k :: 0 <= i < j < |pieces| && k in pieces[i] ==> k !in pieces[j]
  }

  lemma {:induction false} PiecesApart<K>(pieces: seq<seq<K>>)
    requires Distinct(Flatten(pieces))
    ensures Apart(pieces)
  {
    if pieces != [] {
      var front, last := pieces[..|pieces| - 1], pieces[|pieces| - 1];
      var f, all := Flatten(front), Flatten(pieces);
      assert forall i :: 0 <= i < |f| ==> f[i] == all[i];
      PiecesApart(front);
      forall i, k | 0 <= i < |front| && k in pieces[i]
        ensures k !in last
      {
        InFlatten(front, i, k);
        var a :| 0 <= a < |f| && f[a] == k;
        assert forall b :: 0 <= b < |last| ==> last[b] == all[|f| + b];
      }
    }
  }

  lemma {:induction false} InFlatten<K>(pieces: seq<seq<K>>, i: nat, k: K)
    requires i < |pieces| && k in pieces[i]
    ensures k in Flatten(pieces)
  {
    if i < |pieces| - 1 {
      InFlatten(pieces[..|pieces| - 1], i, k);
    }
  }

  /** A piece of a sequence without repetitions has none, and every element is in some piece. */
  lemma {:induction false} PiecesDistinct<K>(pieces: seq<seq<K>>, i: nat)
    requires Distinct(Flatten(pieces)) && i < |pieces|
    ensures Distinct(pieces[i])
  {
    var front, last := pieces[..|pieces| - 1], pieces[|pieces| - 1];
    var f, all := Flatten(front), Flatten(pieces);
    if i == |pieces| - 1 {
      assert forall b :: 0 <= b < |last| ==> last[b] == all[|f| + b];
    } else {
      assert forall a :: 0 <= a < |f| ==> f[a] == all[a];
      PiecesDistinct(front, i);
    }
  }

  lemma {:induction false} InSomePiece<K>(pieces: seq<seq<K>>, k: K)
    requires k in Flatten(pieces)
    ensures exists i :: 0 <= i < |pieces| && k in pieces[i]
  {
    if k !in pieces[|pieces| - 1] {
      InSomePiece(pieces[..|pieces| - 1], k);
    }
  }
}
