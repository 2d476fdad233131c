/** Packing a stream of named tensors into fixed-size byte buckets, as rank 0 of both checkpoint
    engines does, and reading the tensors back out of a bucket. */
module Packing {
  import Greedy
  import opened Shapes

  newtype byte = x: int | 0 <= x < 256

  /** A named tensor after the cast to the rollout dtype: its shape and its bytes. */
  datatype Weight = Weight(name: string, shape: seq<nat>, data: seq<byte>)

  /** One value of the bucket's `bucket_meta` dict. */
  datatype TensorMeta = TensorMeta(name: string, shape: seq<nat>, itemSize: nat, offset: nat)

  /** A weight together with the place it got in its bucket. */
  datatype Entry = Entry(weight: Weight, offset: nat)

  /** What a torch tensor guarantees: its byte count is its element count times the item size. */
  ghost predicate Typed(itemSize: nat, w: Weight) {
    |w.data| == itemSize * Numel(w.shape)
  }

  ghost predicate AllTyped(itemSize: nat, ws: seq<Weight>) {
    forall i :: 0 <= i < |ws| ==> Typed(itemSize, ws[i])
  }

  function Bytes(ws: seq<Weight>): nat {
    if ws == [] then 0 else Bytes(ws[..|ws| - 1]) + |ws[|ws| - 1].data|
  }

  /** `bucket_meta[name] = meta` on an insertion-ordered dict. */
  function PutMeta(metas: seq<TensorMeta>, m: TensorMeta): seq<TensorMeta> {
    if metas == [] then [m]
    else if metas[0].name == m.name then [m] + metas[1..]
    else [metas[0]] + PutMeta(metas[1..], m)
  }

  /** `buf[offset : offset + len] = data`. */
  function Write(buf: seq<byte>, offset: nat, data: seq<byte>): (r: seq<byte>)
    requires offset + |data| <= |buf|
    ensures |r| == |buf|
  {
    buf[..offset] + data + buf[offset + |data|..]
  }

  function MetaOf(itemSize: nat, e: Entry): TensorMeta {
    TensorMeta(e.weight.name, e.weight.shape, itemSize, e.offset)
  }

  function Metas(itemSize: nat, es: seq<Entry>): (r: seq<TensorMeta>)
    ensures |r| == |es|
    ensures forall i :: 0 <= i < |es| ==> r[i] == MetaOf(itemSize, es[i])
  {
    if es == [] then [] else [MetaOf(itemSize, es[0])] + Metas(itemSize, es[1..])
  }

  /** The same dict insertion on entries. */
  function Put(es: seq<Entry>, e: Entry): (r: seq<Entry>)
    ensures forall x :: x in r ==> x in es || x == e
  {
    if es == [] then [e]
    else if es[0].weight.name == e.weight.name then [e] + es[1..]
    else [es[0]] + Put(es[1..], e)
  }

  /** The dict a bucket with these weights ends up with: each weight starts where the bytes
      before it end, and a repeated name overwrites the earlier value. */
  function Layout(ws: seq<Weight>): seq<Entry> {
    if ws == [] then []
    else Put(Layout(ws[..|ws| - 1]), Entry(ws[|ws| - 1], Bytes(ws[..|ws| - 1])))
  }

  function Weights(es: seq<Entry>): (r: seq<Weight>)
    ensures |r| == |es|
    ensures forall i :: 0 <= i < |es| ==> r[i] == es[i].weight
  {
    if es == [] then [] else [es[0].weight] + Weights(es[1..])
  }

  /** The weights a reader of this bucket gets. */
  function Readable(ws: seq<Weight>): seq<Weight> {
    Weights(Layout(ws))
  }

  /** The tensor a receiver builds: `size = dtype.itemsize * shape.numel()` bytes at the offset. */
  function ReadTensor(buf: seq<byte>, m: TensorMeta): Weight
    requires m.offset + m.itemSize * Numel(m.shape) <= |buf|
  {
    Weight(m.name, m.shape, buf[m.offset..m.offset + m.itemSize * Numel(m.shape)])
  }

  // ---------------------------------------------------------------- cutting

  /** What the sender's loop has done after consuming these weights: the buckets already
      announced and the weights in the bucket being filled. */
  function Cut(size: nat, ws: seq<Weight>): Greedy.Cutting<Weight> {
    if ws == [] then Greedy.Cutting([], [])
    else
      var c := Cut(size, ws[..|ws| - 1]);
      var w := ws[|ws| - 1];
      if Bytes(c.open) + |w.data| > size then Greedy.Cutting(c.closed + [c.open], [w])
      else Greedy.Cutting(c.closed, c.open + [w])
  }

  /** All buckets sent for a stream; the last one is sent even when it is empty. */
  function Buckets(size: nat, ws: seq<Weight>): (bs: seq<seq<Weight>>)
    ensures |bs| >= 1
  {
    Cut(size, ws).closed + [Cut(size, ws).open]
  }

  /** Everything a receiver of these buckets gets, in order. */
  function ReadableAll(buckets: seq<seq<Weight>>): seq<Weight> {
    if buckets == [] then []
    else ReadableAll(buckets[..|buckets| - 1]) + Readable(buckets[|buckets| - 1])
  }

  ghost predicate AllFit(size: nat, ws: seq<Weight>) {
    forall i :: 0 <= i < |ws| ==> |ws[i].data| <= size
  }

  lemma BytesSnoc(ws: seq<Weight>, w: Weight)
    ensures Bytes(ws + [w]) == Bytes(ws) + |w.data|
  {
    assert (ws + [w])[..|ws|] == ws;
  }

  lemma CutNext(size: nat, ws: seq<Weight>, i: nat)
    requires i < |ws|
    ensures Cut(size, ws[..i + 1]) ==
            var c := Cut(size, ws[..i]);
            if Bytes(c.open) + |ws[i].data| > size then Greedy.Cutting(c.closed + [c.open], [ws[i]])
            else Greedy.Cutting(c.closed, c.open + [ws[i]])
  {
    assert ws[..i + 1][..i] == ws[..i];
  }

  /** Buckets closed early stay closed, unchanged, in the final list. */
  lemma {:induction false} ClosedPrefix(size: nat, ws: seq<Weight>, i: nat)
    requires i <= |ws|
    ensures Cut(size, ws[..i]).closed <= Cut(size, ws).closed
    decreases |ws| - i
  {
    if i < |ws| {
      CutNext(size, ws, i);
      ClosedPrefix(size, ws, i + 1);
    } else {
      assert ws[..i] == ws;
    }
  }

  /** While the weight at i overflows the open bucket, that bucket is the next one sent. */
  lemma ClosingBucket(size: nat, ws: seq<Weight>, i: nat)
    requires i < |ws| && Bytes(Cut(size, ws[..i]).open) + |ws[i].data| > size
    ensures var c, bs := Cut(size, ws[..i]), Buckets(size, ws);
            |c.closed| + 1 < |bs| && bs[|c.closed|] == c.open
  {
    CutNext(size, ws, i);
    ClosedPrefix(size, ws, i + 1);
  }

  // ---------------------------------------------------------------- contents

  /** Each entry's bytes sit at its offset, inside the buffer. */
  ghost predicate Holds(buf: seq<byte>, es: seq<Entry>) {
    forall i :: 0 <= i < |es| ==>
      && es[i].offset + |es[i].weight.data| <= |buf|
      && buf[es[i].offset..es[i].offset + |es[i].weight.data|] == es[i].weight.data
  }

  lemma {:induction false} PutMetas(itemSize: nat, es: seq<Entry>, e: Entry)
    ensures Metas(itemSize, Put(es, e)) == PutMeta(Metas(itemSize, es), MetaOf(itemSize, e))
  {
    if es != [] {
      PutMetas(itemSize, es[1..], e);
    }
  }

  /** Entries end by the bytes of the bucket. */
  lemma {:induction false} LayoutEnds(ws: seq<Weight>)
    ensures forall e :: e in Layout(ws) ==> e.offset + |e.weight.data| <= Bytes(ws)
  {
    if ws != [] {
      LayoutEnds(ws[..|ws| - 1]);
    }
  }

  lemma {:induction false} LayoutWeights(ws: seq<Weight>)
    ensures forall e :: e in Layout(ws) ==> e.weight in ws
  {
    if ws != [] {
      LayoutWeights(ws[..|ws| - 1]);
    }
  }

  lemma WriteFrame(buf: seq<byte>, offset: nat, data: seq<byte>, lo: nat, hi: nat)
    requires offset + |data| <= |buf| && lo <= hi <= offset
    ensures Write(buf, offset, data)[lo..hi] == buf[lo..hi]
    ensures Write(buf, offset, data)[offset..offset + |data|] == data
  {
  }

  /** Copying one weight behind the others and recording it keeps the bucket readable. */
  lemma {:induction false} StoreHolds(buf: seq<byte>, ws: seq<Weight>, w: Weight)
    requires Holds(buf, Layout(ws)) && Bytes(ws) + |w.data| <= |buf|
    ensures Holds(Write(buf, Bytes(ws), w.data), Layout(ws + [w]))
  {
    var es, e := Layout(ws), Entry(w, Bytes(ws));
    assert (ws + [w])[..|ws|] == ws;
    var r, buf' := Put(es, e), Write(buf, Bytes(ws), w.data);
    LayoutEnds(ws);
    forall i | 0 <= i < |r|
      ensures r[i].offset + |r[i].weight.data| <= |buf'|
      ensures buf'[r[i].offset..r[i].offset + |r[i].weight.data|] == r[i].weight.data
    {
      assert r[i] in r;
      WriteFrame(buf, Bytes(ws), w.data, if r[i] == e then 0 else r[i].offset,
                 if r[i] == e then 0 else r[i].offset + |r[i].weight.data|);
    }
  }

  /** A receiver reads exactly the weight that was stored. */
  lemma ReadBack(itemSize: nat, buf: seq<byte>, es: seq<Entry>, i: nat)
    requires i < |es| && Holds(buf, es) && Typed(itemSize, es[i].weight)
    ensures var m := Metas(itemSize, es)[i];
            && m.offset + m.itemSize * Numel(m.shape) <= |buf|
            && ReadTensor(buf, m) == es[i].weight
  {
  }
}
