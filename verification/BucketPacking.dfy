/** What the buckets of a stream guarantee: capacity, order, minimality, places inside a bucket, and
    which streams survive the trip. */
module BucketPacking {
  import opened Packing
  import opened Sequences
  import Greedy
  import opened Shapes

  // ---------------------------------------------------------------- capacity and minimality

  function Fits(size: nat): seq<Weight> -> bool { (p: seq<Weight>) => Bytes(p) <= size }

  lemma {:induction false} BytesConcat(a: seq<Weight>, b: seq<Weight>)
    ensures Bytes(a + b) == Bytes(a) + Bytes(b)
  {
    if b == [] {
      assert a + b == a;
    } else {
      var front, w := b[..|b| - 1], b[|b| - 1];
      BytesConcat(a, front);
      assert a + b == (a + front) + [w];
      BytesSnoc(a + front, w);
    }
  }

  lemma FitsHereditary(size: nat)
    ensures Greedy.Hereditary(Fits(size))
  {
    var ok := Fits(size);
    forall p: seq<Weight>, a: nat, b: nat {:trigger ok(p[a..b])} | a <= b <= |p| && ok(p)
      ensures ok(p[a..b])
    {
      assert p == p[..b] + p[b..] && p[..b] == p[..a] + p[a..b];
      BytesConcat(p[..b], p[b..]);
      BytesConcat(p[..a], p[a..b]);
    }
  }

  /** When every weight fits, the sender's loop is the greedy cutting. */
  lemma {:induction false} CutIsGreedy(size: nat, ws: seq<Weight>)
    requires AllFit(size, ws)
    ensures Cut(size, ws) == Greedy.Cut(Fits(size), ws)
    ensures Cut(size, ws).open == [] <==> ws == []
  {
    Greedy.CutPartitions(Fits(size), ws);
    if ws != [] {
      var ys, w := ws[..|ws| - 1], ws[|ws| - 1];
      CutIsGreedy(size, ys);
      BytesSnoc(Cut(size, ys).open, w);
    }
  }

  /** The buckets hold the stream, in order, once. */
  lemma {:induction false} BucketsPartition(size: nat, ws: seq<Weight>)
    ensures Flatten(Buckets(size, ws)) == ws
  {
    var c := Cut(size, ws);
    FlattenSnoc(c.closed, c.open);
    if ws != [] {
      var ys, w := ws[..|ws| - 1], ws[|ws| - 1];
      var d := Cut(size, ys);
      BucketsPartition(size, ys);
      FlattenSnoc(d.closed, d.open);
      assert ws == ys + [w];
      if Bytes(d.open) + |w.data| > size {
        assert c.closed == d.closed + [d.open];
      } else {
        assert Flatten(d.closed) + (d.open + [w]) == ys + [w];
      }
    }
  }

  /** No bucket overflows and no bucket but the last is empty. */
  lemma BucketsFull(size: nat, ws: seq<Weight>, j: nat)
    requires AllFit(size, ws) && j < |Buckets(size, ws)|
    ensures Bytes(Buckets(size, ws)[j]) <= size
    ensures j < |Buckets(size, ws)| - 1 || ws != [] ==> Buckets(size, ws)[j] != []
  {
    CutIsGreedy(size, ws);
    forall w | w in ws
      ensures Fits(size)([w])
    {
      assert Bytes([w]) == |w.data| by { BytesSnoc([], w); assert [] + [w] == [w]; }
    }
    Greedy.CutAcceptable(Fits(size), ws);
    Greedy.CutPartitions(Fits(size), ws);
    if ws != [] {
      assert Buckets(size, ws) == Greedy.Pieces(Cut(size, ws));
      assert Buckets(size, ws)[j] in Greedy.Pieces(Cut(size, ws));
    }
  }

  /** A bucket is announced only when the next weight does not fit it any more. */
  lemma {:induction false} BucketsGreedy(size: nat, ws: seq<Weight>, j: nat)
    requires AllFit(size, ws) && j < |Buckets(size, ws)| - 1
    ensures Buckets(size, ws)[j + 1] != []
    ensures Bytes(Buckets(size, ws)[j]) + |Buckets(size, ws)[j + 1][0].data| > size
  {
    var ys, w := ws[..|ws| - 1], ws[|ws| - 1];
    CutIsGreedy(size, ys);
    if j + 1 < |Buckets(size, ys)| {
      BucketsGreedy(size, ys, j);
    }
  }

  /** No way of cutting the stream into consecutive buckets that fit needs fewer buckets. */
  lemma {:induction false} BucketsMinimal(size: nat, ws: seq<Weight>, pieces: seq<seq<Weight>>)
    requires AllFit(size, ws) && ws != []
    requires Flatten(pieces) == ws && forall p :: p in pieces ==> Bytes(p) <= size
    ensures |Buckets(size, ws)| <= |pieces|
  {
    CutIsGreedy(size, ws);
    FitsHereditary(size);
    Greedy.CutMinimal(Fits(size), pieces);
  }

  // ---------------------------------------------------------------- places inside a bucket

  ghost predicate MultipleOf(m: nat, a: nat) {
    exists q: nat :: a == q * m
  }

  /** Offsets are multiples of the item size, so the receiver's typed view is aligned. */
  lemma {:induction false} OffsetsAligned(itemSize: nat, ws: seq<Weight>)
    requires AllTyped(itemSize, ws)
    ensures MultipleOf(itemSize, Bytes(ws))
    ensures forall e :: e in Layout(ws) ==> MultipleOf(itemSize, e.offset)
  {
    if ws == [] {
      assert 0 == 0 * itemSize;
    } else {
      var ys, w := ws[..|ws| - 1], ws[|ws| - 1];
      OffsetsAligned(itemSize, ys);
      var q: nat :| Bytes(ys) == q * itemSize;
      assert Typed(itemSize, w);
      assert Bytes(ws) == (q + Numel(w.shape)) * itemSize;
    }
  }

  ghost predicate Apart(d: Entry, e: Entry) {
    d.offset + |d.weight.data| <= e.offset || e.offset + |e.weight.data| <= d.offset
  }

  lemma {:induction false} PutApart(es: seq<Entry>, e: Entry, i: nat, j: nat)
    requires forall a, b :: 0 <= a < b < |es| ==> Apart(es[a], es[b])
    requires forall a :: 0 <= a < |es| ==> Apart(es[a], e)
    requires i < j < |Put(es, e)|
    ensures Apart(Put(es, e)[i], Put(es, e)[j])
  {
    if es != [] && es[0].weight.name != e.weight.name {
      if i > 0 {
        PutApart(es[1..], e, i - 1, j - 1);
      } else {
        assert Put(es[1..], e)[j - 1] in Put(es[1..], e);
      }
    }
  }

  /** Two tensors of a bucket never overlap. */
  lemma {:induction false} SlicesDisjoint(ws: seq<Weight>, i: nat, j: nat)
    requires i < j < |Layout(ws)|
    ensures Apart(Layout(ws)[i], Layout(ws)[j])
  {
    if ws != [] {
      var ys, e := ws[..|ws| - 1], Entry(ws[|ws| - 1], Bytes(ws[..|ws| - 1]));
      forall a, b | 0 <= a < b < |Layout(ys)|
        ensures Apart(Layout(ys)[a], Layout(ys)[b])
      {
        SlicesDisjoint(ys, a, b);
      }
      LayoutEnds(ys);
      forall a | 0 <= a < |Layout(ys)|
        ensures Apart(Layout(ys)[a], e)
      {
        assert Layout(ys)[a] in Layout(ys);
      }
      PutApart(Layout(ys), e, i, j);
    }
  }

  // ---------------------------------------------------------------- repeated names

  ghost predicate DistinctNames(ws: seq<Weight>) {
    forall i, j :: 0 <= i < j < |ws| ==> ws[i].name != ws[j].name
  }

  function Names(ws: seq<Weight>): set<string> {
    if ws == [] then {} else {ws[0].name} + Names(ws[1..])
  }

  lemma {:induction false} NamesSnoc(ws: seq<Weight>, w: Weight)
    ensures Names(ws + [w]) == Names(ws) + {w.name}
  {
    if ws == [] {
      assert [] + [w] == [w];
    } else {
      NamesSnoc(ws[1..], w);
      assert (ws + [w])[1..] == ws[1..] + [w];
    }
  }

  lemma {:induction false} NamesMember(ws: seq<Weight>, n: string)
    ensures n in Names(ws) <==> exists i :: 0 <= i < |ws| && ws[i].name == n
  {
    if ws != [] {
      NamesMember(ws[1..], n);
      if i :| 0 <= i < |ws| && ws[i].name == n {
        assert i > 0 ==> ws[1..][i - 1].name == n;
      }
    }
  }

  /** A new name is added at the end; a known name replaces in place. */
  lemma {:induction false} PutReads(es: seq<Entry>, e: Entry)
    ensures e.weight.name !in Names(Weights(es)) ==> Weights(Put(es, e)) == Weights(es) + [e.weight]
    ensures e.weight.name in Names(Weights(es)) ==> |Put(es, e)| == |es|
    ensures Names(Weights(Put(es, e))) == Names(Weights(es)) + {e.weight.name}
  {
    if es != [] {
      PutReads(es[1..], e);
      assert Weights(es)[1..] == Weights(es[1..]);
      if es[0].weight.name == e.weight.name {
        assert Put(es, e)[1..] == es[1..];
        assert Weights(Put(es, e))[1..] == Weights(es[1..]);
      } else {
        assert Put(es, e)[1..] == Put(es[1..], e);
        assert Weights(Put(es, e))[1..] == Weights(Put(es[1..], e));
      }
    }
  }

  lemma ReadableSnoc(ys: seq<Weight>, w: Weight)
    ensures w.name !in Names(Readable(ys)) ==> Readable(ys + [w]) == Readable(ys) + [w]
    ensures w.name in Names(Readable(ys)) ==> |Readable(ys + [w])| == |Readable(ys)|
    ensures Names(Readable(ys + [w])) == Names(Readable(ys)) + {w.name}
  {
    assert (ys + [w])[..|ys|] == ys;
    PutReads(Layout(ys), Entry(w, Bytes(ys)));
  }

  lemma {:induction false} ReadableNames(ws: seq<Weight>)
    ensures |Readable(ws)| <= |ws| && Names(Readable(ws)) == Names(ws)
  {
    if ws != [] {
      var ys, w := ws[..|ws| - 1], ws[|ws| - 1];
      ReadableNames(ys);
      ReadableSnoc(ys, w);
      NamesSnoc(ys, w);
      assert ws == ys + [w];
    }
  }

  ghost predicate ReadsExactly(ws: seq<Weight>) {
    if DistinctNames(ws) then Readable(ws) == ws else |Readable(ws)| < |ws|
  }

  lemma OneMoreWeight(ys: seq<Weight>, w: Weight)
    requires ReadsExactly(ys)
    ensures ReadsExactly(ys + [w])
  {
    hide Readable, DistinctNames, Names;
    ReadableNames(ys);
    ReadableSnoc(ys, w);
    DistinctSnoc(ys, w);
  }

  /** A bucket reads back as it was packed exactly when no name occurs twice in it; otherwise
      fewer tensors come out than went in. */
  lemma {:induction false} ReadableExactly(ws: seq<Weight>)
    ensures if DistinctNames(ws) then Readable(ws) == ws else |Readable(ws)| < |ws|
  {
    if ws == [] {
      assert Readable(ws) == [];
    } else {
      var ys, w := ws[..|ws| - 1], ws[|ws| - 1];
      ReadableExactly(ys);
      assert ws == ys + [w];
      OneMoreWeight(ys, w);
    }
  }

  /** Nobody after weight i has its name. */
  ghost predicate LastOfName(ws: seq<Weight>, i: nat) {
    i < |ws| && forall j :: i < j < |ws| ==> ws[j].name != ws[i].name
  }

  /** w is the last weight with its name. */
  ghost predicate IsLast(ws: seq<Weight>, w: Weight) {
    exists i: nat :: i < |ws| && LastOfName(ws, i) && ws[i] == w
  }

  /** What is read for a name is the last weight packed under it. */
  lemma {:induction false} ReadableIsLast(ws: seq<Weight>, w: Weight)
    ensures w in Readable(ws) <==> IsLast(ws, w)
  {
    hide Readable, IsLast;
    if ws == [] {
      NothingReadable(w);
    } else {
      var ys, v := ws[..|ws| - 1], ws[|ws| - 1];
      assert ws == ys + [v];
      ReadableIsLast(ys, w);
      ReadableMembers(ys, v, w);
      LastSnoc(ys, v, w);
    }
  }

  lemma NothingReadable(w: Weight)
    ensures w !in Readable([]) && !IsLast([], w)
  {
  }

  lemma LastBefore(ys: seq<Weight>, v: Weight, i: nat)
    requires i < |ys|
    ensures LastOfName(ys + [v], i) <==> LastOfName(ys, i) && ys[i].name != v.name
  {
    var ws := ys + [v];
    assert ws[i] == ys[i] && ws[|ys|] == v;
    assert forall j :: i < j < |ys| ==> ws[j] == ys[j];
    if LastOfName(ws, i) {
      assert ws[|ys|].name != ws[i].name;
      forall j | i < j < |ys| ensures ys[j].name != ys[i].name {
        assert ws[j].name != ws[i].name;
      }
    }
  }

  lemma LastSnoc(ys: seq<Weight>, v: Weight, w: Weight)
    ensures IsLast(ys + [v], w) <==> w == v || (IsLast(ys, w) && w.name != v.name)
  {
    var ws := ys + [v];
    assert LastOfName(ws, |ys|) && ws[|ys|] == v;
    hide LastOfName;
    if i: nat :| LastOfName(ys, i) && ys[i] == w && i < |ys| && w.name != v.name {
      LastBefore(ys, v, i);
      assert ws[i] == w;
    }
    if i: nat :| LastOfName(ws, i) && ws[i] == w && i < |ys| {
      LastBefore(ys, v, i);
      assert ys[i] == w;
    }
  }

  lemma ReadableMembers(ys: seq<Weight>, v: Weight, w: Weight)
    ensures w in Readable(ys + [v]) <==> w == v || (w in Readable(ys) && w.name != v.name)
  {
    assert (ys + [v])[..|ys|] == ys;
    OneEntryPerName(ys);
    PutMembers(Layout(ys), Entry(v, Bytes(ys)), w);
  }

  ghost predicate OneEach(es: seq<Entry>) {
    forall i, j :: 0 <= i < j < |es| ==> es[i].weight.name != es[j].weight.name
  }

  lemma {:induction false} OneEntryPerName(ws: seq<Weight>)
    ensures OneEach(Layout(ws))
  {
    if ws != [] {
      OneEntryPerName(ws[..|ws| - 1]);
      PutOneEach(Layout(ws[..|ws| - 1]), Entry(ws[|ws| - 1], Bytes(ws[..|ws| - 1])));
    }
  }

  lemma {:induction false} PutOneEach(es: seq<Entry>, e: Entry)
    requires OneEach(es)
    ensures OneEach(Put(es, e))
  {
    if es != [] && es[0].weight.name != e.weight.name {
      PutOneEach(es[1..], e);
      forall j | 0 <= j < |Put(es[1..], e)| ensures Put(es[1..], e)[j].weight.name != es[0].weight.name {
        assert Put(es[1..], e)[j] in Put(es[1..], e);
      }
    }
  }

  /** Recording an entry keeps what was recorded under other names. */
  lemma {:induction false} PutMembers(es: seq<Entry>, e: Entry, w: Weight)
    requires OneEach(es)
    ensures w in Weights(Put(es, e)) <==> w == e.weight || (w in Weights(es) && w.name != e.weight.name)
  {
    if es != [] {
      var rest := Put(es[1..], e);
      assert Weights(es) == [es[0].weight] + Weights(es[1..]);
      if es[0].weight.name == e.weight.name {
        assert Weights(Put(es, e)) == [e.weight] + Weights(es[1..]);
      } else {
        PutMembers(es[1..], e, w);
        assert Weights(Put(es, e)) == [es[0].weight] + Weights(rest);
      }
    }
  }

  lemma DistinctSnoc(ys: seq<Weight>, w: Weight)
    ensures DistinctNames(ys + [w]) <==> DistinctNames(ys) && w.name !in Names(ys)
  {
    var ws := ys + [w];
    NamesMember(ys, w.name);
    if DistinctNames(ws) {
      assert forall i, j :: 0 <= i < j < |ys| ==> ys[i] == ws[i] && ys[j] == ws[j];
    }
    if i :| 0 <= i < |ys| && ys[i].name == w.name {
      assert ws[i].name == ws[|ys|].name;
    }
  }

  lemma {:induction false} ReadableAllExactly(bs: seq<seq<Weight>>)
    ensures |ReadableAll(bs)| <= |Flatten(bs)|
    ensures |ReadableAll(bs)| == |Flatten(bs)| <==> forall b :: b in bs ==> DistinctNames(b)
    ensures (forall b :: b in bs ==> DistinctNames(b)) ==> ReadableAll(bs) == Flatten(bs)
  {
    if bs != [] {
      var front, b := bs[..|bs| - 1], bs[|bs| - 1];
      ReadableAllExactly(front);
      ReadableExactly(b);
      assert bs == front + [b];
      assert b in bs;
    }
  }

  /** Receivers get the stream back exactly when no bucket was given the same name twice. */
  lemma StreamSurvives(size: nat, ws: seq<Weight>)
    ensures ReadableAll(Buckets(size, ws)) == ws <==> forall b :: b in Buckets(size, ws) ==> DistinctNames(b)
  {
    BucketsPartition(size, ws);
    ReadableAllExactly(Buckets(size, ws));
  }

  lemma {:induction false} FlattenDistinct(bs: seq<seq<Weight>>)
    requires DistinctNames(Flatten(bs))
    ensures forall b :: b in bs ==> DistinctNames(b)
  {
    if bs != [] {
      var front, b := bs[..|bs| - 1], bs[|bs| - 1];
      var f, all := Flatten(front), Flatten(bs);
      assert all == f + b;
      assert forall i, j :: 0 <= i < j < |f| ==> f[i] == all[i] && f[j] == all[j];
      FlattenDistinct(front);
      forall i, j | 0 <= i < j < |b|
        ensures b[i].name != b[j].name
      {
        assert b[i] == all[|f| + i] && b[j] == all[|f| + j];
      }
    }
  }

  /** In particular distinct names (a model's parameter names) are enough. */
  lemma DistinctSurvives(size: nat, ws: seq<Weight>)
    requires DistinctNames(ws)
    ensures ReadableAll(Buckets(size, ws)) == ws
  {
    BucketsPartition(size, ws);
    FlattenDistinct(Buckets(size, ws));
    StreamSurvives(size, ws);
  }

  lemma OneBucket(b: seq<Weight>)
    ensures ReadableAll([b]) == Readable(b)
  {
    assert [b][..0] == [];
    assert ReadableAll([]) == [];
  }

  lemma TwoInOne(w: Weight, v: Weight)
    requires |w.data| == |v.data| == 1
    ensures Buckets(2, [w, v]) == [[w, v]]
  {
    hide Cut, Bytes;
    assert Bytes([]) == 0 && Cut(2, []) == Greedy.Cutting([], []) by {
      Nothing(2);
    }
    assert [w, v][..0] == [] && [w, v][..1] == [w] && [w, v][..2] == [w, v] && [] + [w] == [w];
    BytesSnoc([], w);
    CutNext(2, [w, v], 0);
    assert Cut(2, [w]) == Greedy.Cutting([], [w]);
    CutNext(2, [w, v], 1);
    assert [w] + [v] == [w, v] && Cut(2, [w, v]) == Greedy.Cutting([], [w, v]);
  }

  lemma Nothing(size: nat)
    ensures Bytes([]) == 0 && Cut(size, []) == Greedy.Cutting([], [])
  {
  }

  /** Two weights of one byte and one name in a bucket of two bytes: the first of them is lost. */
  lemma RepeatedName(w: Weight, v: Weight)
    requires w == Weight("a", [1], [1]) && v == Weight("a", [1], [2])
    ensures AllFit(2, [w, v]) && |ReadableAll(Buckets(2, [w, v]))| < 2
    ensures w !in ReadableAll(Buckets(2, [w, v])) && v in ReadableAll(Buckets(2, [w, v]))
  {
    hide Readable, ReadableAll, Buckets;
    TwoInOne(w, v);
    OneBucket([w, v]);
    ReadableExactly([w, v]);
    assert [w, v][0].name == [w, v][1].name;
    assert [w, v] == [w] + [v];
    ReadableMembers([w], v, w);
    ReadableMembers([w], v, v);
  }
}
