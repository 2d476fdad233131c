/** What rank 0 of either engine is going to send: the stream, its buckets, and a plan that states
    the buckets abstractly so that a protocol argument need not look into their layout. */
module BucketPlan {
  import opened Packing
  import opened Shapes

  datatype Stream = Stream(weights: seq<Weight>, size: nat, itemSize: nat)

  /** `{"bucket_meta": metas, "is_last": isLast}` */
  datatype Bucket = Bucket(metas: seq<TensorMeta>, isLast: bool)

  function Zeros(n: nat): seq<byte> { seq(n, _ => 0) }

  // ---------------------------------------------------------------- the plan

  /** What rank 0 is going to send, kept abstract so that the protocol argument does not look into
      how buckets are laid out: per bucket its metadata, the weights a reader gets and the test
      that a buffer carries it; `outs[j]` is what a rank has yielded after j buckets.  `filled`,
      `overflows` and `reopened` describe the bucket under construction at rank 0. */
  datatype Plan = Plan(
    buckets: seq<Bucket>, readable: seq<seq<Weight>>, outs: seq<seq<Weight>>,
    carries: (nat, seq<byte>) -> bool,
    filled: (nat, nat, seq<TensorMeta>, nat, seq<byte>) -> bool,
    overflows: nat -> bool,
    reopened: (nat, nat, seq<TensorMeta>, nat) -> bool)

  ghost predicate BucketsOk(st: Stream, p: Plan) {
    var n := |p.buckets|;
    && n >= 1 && |p.readable| == n && |p.outs| == n + 1 && p.outs[0] == []
    && (forall j :: 0 <= j < n ==>
          && (p.buckets[j].isLast <==> j == n - 1)
          && |p.buckets[j].metas| == |p.readable[j]|)
    && (forall j {:trigger p.readable[j]} :: 0 <= j < n ==> p.outs[j + 1] == p.outs[j] + p.readable[j])
    && (forall j: nat, buf :: j < n && p.carries(j, buf) ==> |buf| == st.size)
  }

  /** The i-th tensor of bucket j can be read from any buffer that carries the bucket. */
  ghost predicate ReadsBack(p: Plan, j: nat, buf: seq<byte>, i: nat)
    requires j < |p.buckets| == |p.readable| && i < |p.buckets[j].metas|
  {
    var m := p.buckets[j].metas[i];
    && m.offset + m.itemSize * Numel(m.shape) <= |buf|
    && i < |p.readable[j]| && ReadTensor(buf, m) == p.readable[j][i]
  }

  ghost predicate ReadsOk(p: Plan)
    requires |p.buckets| == |p.readable|
  {
    forall j: nat, buf, i: nat {:trigger ReadsBack(p, j, buf, i)} ::
      j < |p.buckets| && p.carries(j, buf) && i < |p.buckets[j].metas| ==> ReadsBack(p, j, buf, i)
  }

  /** A full bucket is the one the plan has at this place; then an empty one is begun. */
  ghost predicate FlushOk(st: Stream, p: Plan) {
    forall next: nat, announced: nat, filling, offset: nat, buf ::
      p.filled(next, announced, filling, offset, buf) && |buf| == st.size ==>
        && next <= |st.weights| && announced < |p.buckets| && offset <= st.size
        && (next < |st.weights| ==> (p.overflows(next) <==> offset + |st.weights[next].data| > st.size))
        && (next < |st.weights| && p.overflows(next) ==>
              && announced + 1 < |p.buckets| && p.buckets[announced] == Bucket(filling, false)
              && p.carries(announced, buf) && p.reopened(next, announced + 1, [], 0))
        && (next == |st.weights| ==>
              && announced + 1 == |p.buckets| && p.buckets[announced] == Bucket(filling, true)
              && p.carries(announced, buf) && AllFit(st.size, st.weights))
  }

  ghost predicate StoreOk(st: Stream, p: Plan) {
    && (forall next: nat, announced: nat, filling, offset: nat, buf
          {:trigger Stores(st, p, next, announced, filling, offset, buf)} ::
          p.filled(next, announced, filling, offset, buf) || p.reopened(next, announced, filling, offset) ==>
            Stores(st, p, next, announced, filling, offset, buf))
    && (forall next: nat, announced: nat, filling, offset: nat ::
          p.reopened(next, announced, filling, offset) ==> next < |st.weights| && offset == 0)
  }

  /** Storing the next weight, when it fits, leaves a correctly filled bucket. */
  ghost predicate Stores(st: Stream, p: Plan, next: nat, announced: nat, filling: seq<TensorMeta>, offset: nat,
                         buf: seq<byte>) {
    next < |st.weights| && |buf| == st.size && offset + |st.weights[next].data| <= st.size ==>
      var w := st.weights[next];
      p.filled(next + 1, announced, PutMeta(filling, TensorMeta(w.name, w.shape, st.itemSize, offset)),
               offset + |w.data|, Write(buf, offset, w.data))
  }

  /** The first j buckets and i tensors of bucket j have been yielded. */
  ghost predicate Yielded(p: Plan, j: int, i: nat, out: seq<Weight>) {
    && 0 <= j < |p.readable| && |p.outs| == |p.readable| + 1
    && i <= |p.readable[j]| && out == p.outs[j] + p.readable[j][..i]
  }

  ghost predicate PlanMeets(st: Stream, p: Plan) {
    && BucketsOk(st, p) && ReadsOk(p) && FlushOk(st, p) && StoreOk(st, p)
    && p.filled(0, 0, [], 0, Zeros(st.size))
  }

  // ---------------------------------------------------------------- the plan that is followed

  function Bs(st: Stream): (bs: seq<seq<Weight>>)
    ensures |bs| >= 1
  {
    Buckets(st.size, st.weights)
  }

  /** What a receiver of all buckets yields: the stream itself when names are distinct. */
  function Delivered(st: Stream): seq<Weight> {
    ReadableAll(Bs(st))
  }

  function BucketAt(st: Stream, j: nat): Bucket
    requires j < |Bs(st)|
  {
    Bucket(Metas(st.itemSize, Layout(Bs(st)[j])), j == |Bs(st)| - 1)
  }

  ghost predicate Carries(st: Stream, j: nat, buf: seq<byte>) {
    j < |Bs(st)| && |buf| == st.size && Holds(buf, Layout(Bs(st)[j]))
  }

  ghost predicate FillInv(st: Stream, next: nat, announced: nat, filling: seq<TensorMeta>, offset: nat, buf: seq<byte>) {
    && next <= |st.weights|
    && var c := Cut(st.size, st.weights[..next]);
       && announced == |c.closed|
       && filling == Metas(st.itemSize, Layout(c.open))
       && offset == Bytes(c.open) <= st.size
       && Holds(buf, Layout(c.open)) && AllFit(st.size, st.weights[..next])
  }

  ghost predicate Overflows(st: Stream, next: nat) {
    next < |st.weights|
    && Bytes(Cut(st.size, st.weights[..next]).open) + |st.weights[next].data| > st.size
  }

  ghost predicate Reopened(st: Stream, next: nat, announced: nat, filling: seq<TensorMeta>, offset: nat) {
    && Overflows(st, next) && AllFit(st.size, st.weights[..next])
    && announced == |Cut(st.size, st.weights[..next]).closed| + 1
    && filling == [] && offset == 0
  }

  ghost function PlanOf(st: Stream): Plan {
    Plan(seq(|Bs(st)|, (j: nat) requires j < |Bs(st)| => BucketAt(st, j)),
         seq(|Bs(st)|, (j: nat) requires j < |Bs(st)| => Readable(Bs(st)[j])),
         seq(|Bs(st)| + 1, (j: nat) requires j <= |Bs(st)| => ReadableAll(Bs(st)[..j])),
         (j: nat, buf: seq<byte>) => Carries(st, j, buf),
         (next: nat, announced: nat, filling: seq<TensorMeta>, offset: nat, buf: seq<byte>) =>
           FillInv(st, next, announced, filling, offset, buf),
         (next: nat) => Overflows(st, next),
         (next: nat, announced: nat, filling: seq<TensorMeta>, offset: nat) =>
           Reopened(st, next, announced, filling, offset))
  }

  /** Tensors are what torch makes of them; nothing else is asked of the stream. */
  ghost predicate Valid(st: Stream) {
    AllTyped(st.itemSize, st.weights)
  }

  lemma OutNext(st: Stream, j: nat)
    requires j < |Bs(st)|
    ensures ReadableAll(Bs(st)[..j + 1]) == ReadableAll(Bs(st)[..j]) + Readable(Bs(st)[j])
  {
    assert Bs(st)[..j + 1][..j] == Bs(st)[..j];
  }

  lemma {:induction false} CutWithin(size: nat, ws: seq<Weight>)
    ensures forall b, w :: b in Buckets(size, ws) && w in b ==> w in ws
  {
    if ws != [] {
      var ys := ws[..|ws| - 1];
      CutWithin(size, ys);
      forall b, w | b in Buckets(size, ws) && w in b
        ensures w in ws
      {
        assert b in Buckets(size, ys) || w == ws[|ws| - 1] || w in Cut(size, ys).open;
        assert Cut(size, ys).open in Buckets(size, ys);
      }
    }
  }

  /** The i-th tensor read from a buffer carrying bucket j is its i-th readable weight. */
  lemma YieldsWeight(st: Stream, j: nat, buf: seq<byte>, i: nat)
    requires Valid(st) && Carries(st, j, buf)
    requires i < |BucketAt(st, j).metas|
    ensures ReadsBack(PlanOf(st), j, buf, i)
  {
    var es := Layout(Bs(st)[j]);
    CutWithin(st.size, st.weights);
    LayoutWeights(Bs(st)[j]);
    assert es[i] in es && Bs(st)[j] in Bs(st);
    assert es[i].weight in st.weights;
    ReadBack(st.itemSize, buf, es, i);
  }

  /** Closing a full bucket, or the last one, announces exactly what the cutting says. */
  lemma FlushesPlanned(st: Stream, next: nat, announced: nat, filling: seq<TensorMeta>, offset: nat, buf: seq<byte>)
    requires FillInv(st, next, announced, filling, offset, buf) && |buf| == st.size
    ensures announced < |Bs(st)|
    ensures next < |st.weights| && Overflows(st, next) ==>
              && announced + 1 < |Bs(st)| && BucketAt(st, announced) == Bucket(filling, false)
              && Carries(st, announced, buf) && Reopened(st, next, announced + 1, [], 0)
    ensures next == |st.weights| ==>
              && announced + 1 == |Bs(st)| && BucketAt(st, announced) == Bucket(filling, true)
              && Carries(st, announced, buf) && AllFit(st.size, st.weights)
  {
    ClosedPrefix(st.size, st.weights, next);
    if Overflows(st, next) {
      ClosingBucket(st.size, st.weights, next);
    }
    if next == |st.weights| {
      assert st.weights[..next] == st.weights;
    }
  }

  /** Copying the next weight keeps the bucket under construction in step with the cutting. */
  lemma StoresPlanned(st: Stream, next: nat, announced: nat, filling: seq<TensorMeta>, offset: nat, buf: seq<byte>)
    requires || (FillInv(st, next, announced, filling, offset, buf) && !Overflows(st, next))
             || Reopened(st, next, announced, filling, offset)
    requires next < |st.weights| && |buf| == st.size && offset + |st.weights[next].data| <= st.size
    ensures var w := st.weights[next];
            FillInv(st, next + 1, announced, PutMeta(filling, TensorMeta(w.name, w.shape, st.itemSize, offset)),
                    offset + |w.data|, Write(buf, offset, w.data))
  {
    var w := st.weights[next];
    var open := if Overflows(st, next) then [] else Cut(st.size, st.weights[..next]).open;
    CutNext(st.size, st.weights, next);
    StoreHolds(buf, open, w);
    assert (open + [w])[..|open|] == open;
    PutMetas(st.itemSize, Layout(open), Entry(w, Bytes(open)));
    BytesSnoc(open, w);
    if Overflows(st, next) {
      assert [] + [w] == [w];
    }
    AllFitNext(st, next);
  }

  lemma AllFitNext(st: Stream, next: nat)
    requires next < |st.weights| && AllFit(st.size, st.weights[..next]) && |st.weights[next].data| <= st.size
    ensures AllFit(st.size, st.weights[..next + 1])
  {
    assert st.weights[..next + 1] == st.weights[..next] + [st.weights[next]];
  }

  /** When a weight has made rank 0 close a bucket, the buckets closed so far are those of the weights before
      it, and the plan has more. */
  lemma ReopenedBefore(st: Stream, next: nat, announced: nat, filling: seq<TensorMeta>, offset: nat)
    requires Reopened(st, next, announced, filling, offset)
    ensures announced == |Buckets(st.size, st.weights[..next])| < |Bs(st)| && AllFit(st.size, st.weights[..next])
  {
    ClosingBucket(st.size, st.weights, next);
  }

  /** What a receiver has after all but the last of the buckets that were closed before this weight, and after
      all of them. */
  lemma OutsBefore(st: Stream, next: nat)
    requires Overflows(st, next)
    ensures var bs := Buckets(st.size, st.weights[..next]);
            && |bs| < |Bs(st)|
            && PlanOf(st).outs[|bs| - 1] == ReadableAll(bs[..|bs| - 1]) && PlanOf(st).outs[|bs|] == ReadableAll(bs)
  {
    var bs := Buckets(st.size, st.weights[..next]);
    ClosingBucket(st.size, st.weights, next);
    ClosedPrefix(st.size, st.weights, next);
    assert Bs(st)[..|bs| - 1] == bs[..|bs| - 1];
    assert Bs(st)[..|bs|] == bs;
  }

  lemma PlanReads(st: Stream)
    requires Valid(st)
    ensures ReadsOk(PlanOf(st))
  {
    var p := PlanOf(st);
    forall j: nat, buf, i: nat | j < |p.buckets| && p.carries(j, buf) && i < |p.buckets[j].metas|
      ensures ReadsBack(p, j, buf, i)
    {
      YieldsWeight(st, j, buf, i);
    }
  }

  lemma {:induction false} PlanBuckets(st: Stream)
    requires Valid(st)
    ensures BucketsOk(st, PlanOf(st))
    ensures PlanOf(st).outs[|PlanOf(st).buckets|] == Delivered(st)
  {
    var p := PlanOf(st);
    assert Bs(st)[..0] == [];
    assert Bs(st)[..|Bs(st)|] == Bs(st);
    forall j {:trigger p.readable[j]} | 0 <= j < |p.buckets|
      ensures p.outs[j + 1] == p.outs[j] + p.readable[j]
    {
      OutNext(st, j);
    }
  }

  lemma PlanFlushes(st: Stream)
    ensures FlushOk(st, PlanOf(st))
  {
    var p := PlanOf(st);
    forall next: nat, announced: nat, filling, offset: nat, buf |
      p.filled(next, announced, filling, offset, buf) && |buf| == st.size
      ensures next < |st.weights| ==> (p.overflows(next) <==> offset + |st.weights[next].data| > st.size)
      ensures announced < |p.buckets|
      ensures next < |st.weights| && p.overflows(next) ==>
                && announced + 1 < |p.buckets| && p.buckets[announced] == Bucket(filling, false)
                && p.carries(announced, buf) && p.reopened(next, announced + 1, [], 0)
      ensures next == |st.weights| ==>
                && announced + 1 == |p.buckets| && p.buckets[announced] == Bucket(filling, true)
                && p.carries(announced, buf) && AllFit(st.size, st.weights)
    {
      FlushesPlanned(st, next, announced, filling, offset, buf);
    }
  }

  lemma PlanStores(st: Stream)
    ensures StoreOk(st, PlanOf(st))
  {
    var p := PlanOf(st);
    forall next: nat, announced: nat, filling, offset: nat, buf
      {:trigger Stores(st, p, next, announced, filling, offset, buf)} |
      p.filled(next, announced, filling, offset, buf) || p.reopened(next, announced, filling, offset)
      ensures Stores(st, p, next, announced, filling, offset, buf)
    {
      if next < |st.weights| && |buf| == st.size && offset + |st.weights[next].data| <= st.size {
        StoresPlanned(st, next, announced, filling, offset, buf);
      }
    }
  }

  lemma {:induction false} PlanIsOk(st: Stream)
    requires Valid(st)
    ensures PlanMeets(st, PlanOf(st))
  {
    PlanReads(st);
    PlanBuckets(st);
    PlanFlushes(st);
    PlanStores(st);
    assert st.weights[..0] == [];
  }

  lemma {:induction false} OutsGrow(st: Stream, p: Plan, j: nat)
    requires BucketsOk(st, p) && j <= |p.buckets|
    ensures p.outs[j] <= p.outs[|p.buckets|]
    decreases |p.buckets| - j
  {
    if j < |p.buckets| {
      OutsGrow(st, p, j + 1);
      assert p.outs[j + 1] == p.outs[j] + p.readable[j];
    }
  }
}
