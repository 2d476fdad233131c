/** Greedy cutting of a sequence into consecutive pieces, and why it uses as few pieces as any
    other cutting.  Shared by the bucket packer and the dynamic batcher. */
module Greedy {
  import opened Sequences

  /** The pieces already closed and the piece still open. */
  datatype Cutting<T> = Cutting(closed: seq<seq<T>>, open: seq<T>)

  /** Extend the open piece while the result is acceptable; otherwise close it. */
  function Cut<T>(ok: seq<T> -> bool, xs: seq<T>): Cutting<T> {
    if xs == [] then Cutting([], [])
    else
      var c := Cut(ok, xs[..|xs| - 1]);
      var x := xs[|xs| - 1];
      if c.open != [] && !ok(c.open + [x]) then Cutting(c.closed + [c.open], [x])
      else Cutting(c.closed, c.open + [x])
  }

  function Pieces<T>(c: Cutting<T>): seq<seq<T>> {
    if c.open == [] then c.closed else c.closed + [c.open]
  }

  /** Every consecutive part of an acceptable piece is acceptable. */
  ghost predicate Hereditary<T(!new)>(ok: seq<T> -> bool) {
    forall p: seq<T>, a: nat, b: nat {:trigger ok(p[a..b])} :: a <= b <= |p| && ok(p) ==> ok(p[a..b])
  }

  ghost predicate Suffix<T>(s: seq<T>, t: seq<T>) {
    |s| <= |t| && s == t[|t| - |s|..]
  }

  lemma CutSnoc<T>(ok: seq<T> -> bool, xs: seq<T>, x: T)
    ensures Cut(ok, xs + [x]) ==
            var c := Cut(ok, xs);
            if c.open != [] && !ok(c.open + [x]) then Cutting(c.closed + [c.open], [x])
            else Cutting(c.closed, c.open + [x])
  {
    assert (xs + [x])[..|xs|] == xs;
  }

  /** Nothing is lost, reordered or repeated, and no piece is empty. */
  lemma {:induction false} CutPartitions<T>(ok: seq<T> -> bool, xs: seq<T>)
    ensures Flatten(Pieces(Cut(ok, xs))) == xs
    ensures [] !in Pieces(Cut(ok, xs))
    ensures Cut(ok, xs).open == [] <==> xs == []
    ensures xs == [] ==> Cut(ok, xs).closed == []
  {
    if xs != [] {
      var ys, x := xs[..|xs| - 1], xs[|xs| - 1];
      var c := Cut(ok, ys);
      CutPartitions(ok, ys);
      FlattenSnoc(c.closed, c.open);
      assert xs == ys + [x];
      if c.open != [] && !ok(c.open + [x]) {
        FlattenSnoc(c.closed + [c.open], [x]);
      } else {
        FlattenSnoc(c.closed, c.open + [x]);
        assert Flatten(c.closed) + (c.open + [x]) == Flatten(c.closed) + c.open + [x];
        assert Flatten(c.closed) + c.open == ys;
      }
    }
  }

  /** Pieces are acceptable as soon as single elements are. */
  lemma {:induction false} CutAcceptable<T>(ok: seq<T> -> bool, xs: seq<T>)
    requires forall x :: x in xs ==> ok([x])
    ensures forall p :: p in Pieces(Cut(ok, xs)) ==> ok(p)
  {
    if xs != [] {
      var ys, x := xs[..|xs| - 1], xs[|xs| - 1];
      CutAcceptable(ok, ys);
      assert x in xs;
      assert Cut(ok, ys).open == [] ==> Cut(ok, ys).open + [x] == [x];
    }
  }

  /** A piece was closed because the element after it did not fit. */
  lemma {:induction false} ClosedByNext<T>(ok: seq<T> -> bool, xs: seq<T>, k: nat)
    requires k + 1 < |Pieces(Cut(ok, xs))|
    ensures var p, next := Pieces(Cut(ok, xs))[k], Pieces(Cut(ok, xs))[k + 1];
            p != [] && next != [] && !ok(p + [next[0]])
  {
    if xs != [] {
      hide Cut;
      var ys, x := xs[..|xs| - 1], xs[|xs| - 1];
      assert xs == ys + [x];
      CutSnoc(ok, ys, x);
      CutPartitions(ok, ys);
      if k + 1 < |Pieces(Cut(ok, ys))| {
        ClosedByNext(ok, ys, k);
      }
    } else {
      CutPartitions(ok, xs);
    }
  }

  /** Cutting (part of) one acceptable piece more costs at most one piece more. */
  lemma {:induction false} OneMorePiece<T(!new)>(ok: seq<T> -> bool, xs: seq<T>, p: seq<T>, n: nat)
    requires Hereditary(ok) && ok(p) && n <= |p|
    ensures var before, after := Cut(ok, xs), Cut(ok, xs + p[..n]);
            || (|after.closed| == |before.closed| && (before.open == [] ==> Suffix(after.open, p[..n])))
            || (|after.closed| == |before.closed| + 1 && before.open != [] && Suffix(after.open, p[..n]))
  {
    if n == 0 {
      assert xs + p[..0] == xs;
    } else {
      OneMorePiece(ok, xs, p, n - 1);
      var mid := Cut(ok, xs + p[..n - 1]);
      var x := p[n - 1];
      assert p[..n] == p[..n - 1] + [x];
      assert xs + p[..n] == (xs + p[..n - 1]) + [x];
      CutSnoc(ok, xs + p[..n - 1], x);
      if Suffix(mid.open, p[..n - 1]) {
        SuffixSnoc(ok, mid.open, p, n);
      }
    }
  }

  lemma SuffixSnoc<T(!new)>(ok: seq<T> -> bool, s: seq<T>, p: seq<T>, n: nat)
    requires Hereditary(ok) && ok(p) && 0 < n <= |p|
    requires Suffix(s, p[..n - 1])
    ensures ok(s + [p[n - 1]]) && Suffix(s + [p[n - 1]], p[..n]) && Suffix([p[n - 1]], p[..n])
  {
    var m := n - 1 - |s|;
    assert ok(p[m..n]);
    assert s + [p[n - 1]] == p[m..n];
  }

  /** No cutting of the same elements into acceptable pieces has fewer pieces. */
  lemma {:induction false} CutMinimal<T(!new)>(ok: seq<T> -> bool, pieces: seq<seq<T>>)
    requires Hereditary(ok)
    requires forall p :: p in pieces ==> ok(p)
    ensures |Pieces(Cut(ok, Flatten(pieces)))| <= |pieces|
  {
    if pieces != [] {
      var front, p := pieces[..|pieces| - 1], pieces[|pieces| - 1];
      CutMinimal(ok, front);
      OneMorePiece(ok, Flatten(front), p, |p|);
      assert p[..|p|] == p;
    }
  }
}
