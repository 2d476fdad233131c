/** `send_weights` and the reading loop of `receive_weights` on real byte buffers. */
module BucketSender {
  import opened Packing
  import opened Shapes
  import opened Wrappers

  /** One announced bucket: its metadata and the buffer as it was when announced. */
  datatype Sent = Sent(metas: seq<TensorMeta>, isLast: bool, image: seq<byte>)

  /** Index of the first weight that does not fit a bucket, or the length of the stream. */
  function FirstOversize(size: nat, ws: seq<Weight>): (n: nat)
    ensures n <= |ws| && (forall i :: 0 <= i < n ==> |ws[i].data| <= size)
    ensures n < |ws| ==> |ws[n].data| > size
  {
    if ws == [] then 0
    else if |ws[0].data| > size then 0
    else 1 + FirstOversize(size, ws[1..])
  }

  /** `sent` are these buckets, each readable from its image. */
  ghost predicate Announces(size: nat, itemSize: nat, sent: seq<Sent>, buckets: seq<seq<Weight>>) {
    |sent| == |buckets|
    && forall j :: 0 <= j < |sent| ==> AnnouncesOne(size, itemSize, sent[j], buckets[j])
  }

  ghost predicate AnnouncesOne(size: nat, itemSize: nat, s: Sent, bucket: seq<Weight>) {
    s.metas == Metas(itemSize, Layout(bucket)) && |s.image| == size && Holds(s.image, Layout(bucket))
  }

  // ---------------------------------------------------------------- the loop's invariant

  /** Before weight i: the closed buckets are announced and the open one is in `image`. */
  ghost predicate Progress(size: nat, itemSize: nat, ws: seq<Weight>, i: nat,
                           sent: seq<Sent>, metas: seq<TensorMeta>, offset: nat, image: seq<byte>) {
    && i <= FirstOversize(size, ws) && |image| == size
    && var c := Cut(size, ws[..i]);
       && Announces(size, itemSize, sent, c.closed)
       && metas == Metas(itemSize, Layout(c.open)) && offset == Bytes(c.open)
       && Holds(image, Layout(c.open))
  }

  /** After announcing the open bucket because weight i overflows it. */
  ghost predicate Flushed(size: nat, itemSize: nat, ws: seq<Weight>, i: nat, sent: seq<Sent>) {
    && i < |ws| && i <= FirstOversize(size, ws)
    && Bytes(Cut(size, ws[..i]).open) + |ws[i].data| > size
    && Announces(size, itemSize, sent, Buckets(size, ws[..i]))
  }

  lemma FlushStep(size: nat, itemSize: nat, ws: seq<Weight>, i: nat,
                  sent: seq<Sent>, metas: seq<TensorMeta>, offset: nat, image: seq<byte>, s: Sent)
    requires Progress(size, itemSize, ws, i, sent, metas, offset, image)
    requires i < |ws| && offset + |ws[i].data| > size && s == Sent(metas, false, image)
    ensures Flushed(size, itemSize, ws, i, sent + [s])
  {
  }

  lemma FailStep(size: nat, itemSize: nat, ws: seq<Weight>, i: nat, sent: seq<Sent>)
    requires Flushed(size, itemSize, ws, i, sent) && |ws[i].data| > size
    ensures !AllFit(size, ws) && FirstOversize(size, ws) == i < |ws|
    ensures Announces(size, itemSize, sent, Buckets(size, ws[..i]))
  {
  }

  lemma LastStep(size: nat, itemSize: nat, ws: seq<Weight>,
                 sent: seq<Sent>, metas: seq<TensorMeta>, offset: nat, image: seq<byte>, s: Sent)
    requires Progress(size, itemSize, ws, |ws|, sent, metas, offset, image) && s == Sent(metas, true, image)
    ensures AllFit(size, ws) && FirstOversize(size, ws) == |ws|
    ensures Announces(size, itemSize, sent + [s], Buckets(size, ws[..|ws|]))
  {
  }

  lemma StoreStep(size: nat, itemSize: nat, ws: seq<Weight>, i: nat,
                  sent: seq<Sent>, metas: seq<TensorMeta>, offset: nat, image: seq<byte>)
    requires i < |ws| && |image| == size && offset + |ws[i].data| <= size
    requires || Progress(size, itemSize, ws, i, sent, metas, offset, image)
             || (Flushed(size, itemSize, ws, i, sent) && metas == [] && offset == 0)
    ensures var w := ws[i];
            Progress(size, itemSize, ws, i + 1, sent, PutMeta(metas, TensorMeta(w.name, w.shape, itemSize, offset)),
                     offset + |w.data|, Write(image, offset, w.data))
  {
    var w := ws[i];
    var c := Cut(size, ws[..i]);
    var open := if Bytes(c.open) + |w.data| > size then [] else c.open;
    CutNext(size, ws, i);
    StoreHolds(image, open, w);
    assert (open + [w])[..|open|] == open;
    PutMetas(itemSize, Layout(open), Entry(w, offset));
    BytesSnoc(open, w);
    assert [] + [w] == [w];
  }

  ghost predicate InRange(image: seq<byte>, metas: seq<TensorMeta>) {
    forall i :: 0 <= i < |metas| ==> metas[i].offset + metas[i].itemSize * Numel(metas[i].shape) <= |image|
  }

  /** Reading every entry of a bucket's metadata gives the bucket's readable weights. */
  lemma {:induction false} ReadsBucket(itemSize: nat, image: seq<byte>, bucket: seq<Weight>)
    requires Holds(image, Layout(bucket)) && AllTyped(itemSize, bucket)
    ensures var metas := Metas(itemSize, Layout(bucket));
            && InRange(image, metas)
            && |Readable(bucket)| == |metas|
            && forall i :: 0 <= i < |metas| ==> ReadTensor(image, metas[i]) == Readable(bucket)[i]
  {
    var es := Layout(bucket);
    LayoutWeights(bucket);
    forall i | 0 <= i < |es|
      ensures var m := Metas(itemSize, es)[i];
              m.offset + m.itemSize * Numel(m.shape) <= |image| && ReadTensor(image, m) == es[i].weight
    {
      assert es[i] in es && es[i].weight in bucket;
      ReadBack(itemSize, image, es, i);
    }
  }

  class Engine {
    const bucketSize: nat
    const itemSize: nat
    const sendBuf: array<byte>
    const recvBuf: array<byte>

    ghost predicate Valid() {
      sendBuf != recvBuf && sendBuf.Length == recvBuf.Length == bucketSize
    }

    constructor (bucketSize: nat, itemSize: nat)
      ensures Valid() && fresh(sendBuf) && fresh(recvBuf)
      ensures this.bucketSize == bucketSize && this.itemSize == itemSize
    {
      this.bucketSize, this.itemSize := bucketSize, itemSize;
      sendBuf := new byte[bucketSize](_ => 0);
      recvBuf := new byte[bucketSize](_ => 0);
    }

    /** `buf[offset : offset + len] = data` in place. */
    static method Store(buf: array<byte>, offset: nat, data: seq<byte>)
      requires offset + |data| <= buf.Length
      modifies buf
      ensures buf[..] == Write(old(buf[..]), offset, data)
    {
      forall i | 0 <= i < |data| {
        buf[offset + i] := data[i];
      }
    }

    /** Announces the buckets of the longest prefix without an oversize weight; fails, naming the
        weight, exactly when there is one. */
    method SendWeights(weights: seq<Weight>) returns (sent: seq<Sent>, failed: Option<string>)
      requires Valid()
      modifies sendBuf, recvBuf
      ensures failed.None? <==> AllFit(bucketSize, weights)
      ensures var n := FirstOversize(bucketSize, weights);
              && Announces(bucketSize, itemSize, sent, Buckets(bucketSize, weights[..n]))
              && failed == if n < |weights| then Some(weights[n].name) else None
      ensures forall j :: 0 <= j < |sent| ==> (sent[j].isLast <==> failed.None? && j == |sent| - 1)
    {
      var send, recv := sendBuf, recvBuf;
      var metas: seq<TensorMeta>, offset: nat := [], 0;
      sent := [];
      for i := 0 to |weights|
        invariant (send == sendBuf && recv == recvBuf) || (send == recvBuf && recv == sendBuf)
        invariant Progress(bucketSize, itemSize, weights, i, sent, metas, offset, send[..])
        invariant forall j :: 0 <= j < |sent| ==> !sent[j].isLast
      {
        var w := weights[i];
        if offset + |w.data| > bucketSize {
          var s := Sent(metas, false, send[..]);
          FlushStep(bucketSize, itemSize, weights, i, sent, metas, offset, send[..], s);
          sent := sent + [s];
          send, recv := recv, send;
          metas, offset := [], 0;
        }
        if offset + |w.data| > bucketSize {
          FailStep(bucketSize, itemSize, weights, i, sent);
          return sent, Some(w.name);
        }
        StoreStep(bucketSize, itemSize, weights, i, sent, metas, offset, send[..]);
        metas := PutMeta(metas, TensorMeta(w.name, w.shape, itemSize, offset));
        Store(send, offset, w.data);
        offset := offset + |w.data|;
      }
      var s := Sent(metas, true, send[..]);
      LastStep(bucketSize, itemSize, weights, sent, metas, offset, send[..], s);
      sent := sent + [s];
      failed := None;
    }

    /** Yields the tensors of one received bucket, one per metadata entry; from a bucket that was
        announced by `SendWeights` these are its readable weights. */
    static method ReadBucket(buf: array<byte>, metas: seq<TensorMeta>) returns (tensors: seq<Weight>)
      requires InRange(buf[..], metas)
      ensures |tensors| == |metas|
      ensures forall i :: 0 <= i < |metas| ==> tensors[i] == ReadTensor(buf[..], metas[i])
      ensures forall itemSize, bucket ::
                AnnouncesOne(buf.Length, itemSize, Sent(metas, false, buf[..]), bucket) && AllTyped(itemSize, bucket)
                ==> tensors == Readable(bucket)
    {
      tensors := [];
      for i := 0 to |metas|
        invariant |tensors| == i
        invariant forall j :: 0 <= j < i ==> tensors[j] == ReadTensor(buf[..], metas[j])
      {
        tensors := tensors + [ReadTensor(buf[..], metas[i])];
      }
      forall itemSize, bucket |
        AnnouncesOne(buf.Length, itemSize, Sent(metas, false, buf[..]), bucket) && AllTyped(itemSize, bucket)
        ensures tensors == Readable(bucket)
      {
        ReadsBucket(itemSize, buf[..], bucket);
      }
    }
  }
}
