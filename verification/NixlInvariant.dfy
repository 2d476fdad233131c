/** The inductive invariant of the NIXL chain: what each rank knows locally, and how far two
    neighbours can be apart. */
module NixlInvariant {
  import opened Packing
  import opened BucketPlan
  import opened NixlChain
  import opened Wrappers

  /** Metadata without the entries of the rank that passed it on. */
  function Plain(b: Bucket): Metadata {
    Metadata(b.metas, b.isLast, None, None)
  }

  ghost predicate PlanOk(cfg: Config, p: Plan) {
    cfg.ranks >= 2 && PlanMeets(cfg.stream, p)
  }

  // ---------------------------------------------------------------- one rank

  ghost predicate Shape(cfg: Config, p: Plan, k: Rank) {
    |k.bufs| == 2 && k.send < 2 && |k.bufs[0]| == |k.bufs[1]| == cfg.stream.size
    && k.announced <= |p.buckets| && k.started <= |p.buckets| && |p.outs| == |p.buckets| + 1 == |p.readable| + 1
  }

  /** An outstanding ReadableOperation offers the last announced bucket in buffer `slot`. */
  ghost predicate Offers(cfg: Config, p: Plan, r: nat, op: Option<ReadableOp>, announced: nat, slot: nat, buf: seq<byte>) {
    op.Some? ==>
      && HasNext(cfg, r) && 1 <= announced <= |p.buckets|
      && op.value == ReadableOp(Key(r, announced - 1), Descs(r, slot))
      && p.carries(announced - 1, buf)
  }

  ghost predicate OpIn(cfg: Config, p: Plan, r: nat, k: Rank, slot: nat)
    requires |k.bufs| == 2 && slot < 2
  {
    Offers(cfg, p, r, k.op, k.announced, slot, k.bufs[slot])
  }

  ghost predicate Filled(p: Plan, k: Rank)
    requires |k.bufs| == 2 && k.send < 2
  {
    p.filled(k.next, k.announced, k.filling, k.offset, k.bufs[k.send])
  }

  ghost predicate SenderInv(cfg: Config, p: Plan, k: Rank)
    requires Shape(cfg, p, k)
  {
    && k.xfer.None? && k.started == 0 && k.out == []
    && match k.pc
       case Filling => Filled(p, k) && OpIn(cfg, p, 0, k, 1 - k.send)
       case AwaitFlush =>
         && Filled(p, k) && k.next < |cfg.stream.weights| && p.overflows(k.next)
         && k.op.Some? && OpIn(cfg, p, 0, k, 1 - k.send)
       case Flush => Filled(p, k) && k.next < |cfg.stream.weights| && p.overflows(k.next) && k.op.None?
       case Storing =>
         && k.next < |cfg.stream.weights| && OpIn(cfg, p, 0, k, 1 - k.send)
         && if p.overflows(k.next) then p.reopened(k.next, k.announced, k.filling, k.offset) else Filled(p, k)
       case AwaitLast => Filled(p, k) && k.next == |cfg.stream.weights| && k.op.Some? && OpIn(cfg, p, 0, k, 1 - k.send)
       case AnnounceLast => Filled(p, k) && k.next == |cfg.stream.weights| && k.op.None?
       case AwaitFinal =>
         && k.announced == |p.buckets| && k.op.Some? && OpIn(cfg, p, 0, k, k.send)
         && AllFit(cfg.stream.size, cfg.stream.weights)
       case Done => k.announced == |p.buckets| && k.op.None? && AllFit(cfg.stream.size, cfg.stream.weights)
       case Failed =>
         && k.next < |cfg.stream.weights| && |cfg.stream.weights[k.next].data| > cfg.stream.size
         && OpIn(cfg, p, 0, k, 1 - k.send) && p.reopened(k.next, k.announced, k.filling, k.offset)
       case _ => false
  }

  /** Metadata and buffer are those of bucket j. */
  ghost predicate IsBucket(p: Plan, j: int, md: Metadata, buf: seq<byte>) {
    0 <= j < |p.buckets| && md == Plain(p.buckets[j]) && p.carries(j, buf)
  }

  /** A pending read fetches bucket j into the buffer `target`. */
  ghost predicate Fetches(cfg: Config, p: Plan, j: int, x: Option<Transfer>, target: nat, md: Metadata, buf: seq<byte>) {
    && x.Some? && x.value.target == target && 0 <= j < |p.buckets|
    && md == Plain(p.buckets[j])
    && (x.value.done ==> p.carries(j, buf))
    && forall i :: i in x.value.copied ==> i < cfg.stream.size
  }

  ghost predicate XferIn(cfg: Config, p: Plan, k: Rank)
    requires |k.bufs| == 2 && k.send < 2
  {
    Fetches(cfg, p, k.started - 1, k.xfer, 1 - k.send, k.nextMetadata, k.bufs[1 - k.send])
  }

  /** Bucket announced - 1 is current and has been passed on (if there is a next rank). */
  ghost predicate Serving(cfg: Config, p: Plan, r: nat, k: Rank)
    requires |k.bufs| == 2 && k.send < 2
  {
    IsBucket(p, k.announced - 1, k.metadata, k.bufs[k.send]) && OpIn(cfg, p, r, k, k.send)
  }

  ghost predicate ReceiverInv(cfg: Config, p: Plan, r: nat, k: Rank)
    requires Shape(cfg, p, k)
  {
    var a, n := k.announced, |p.buckets|;
    match k.pc
    case FirstMeta => a == k.started == 0 && k.xfer.None? && k.op.None? && k.out == []
    case FirstRead => a == 0 && k.started == 1 && XferIn(cfg, p, k) && k.op.None? && k.out == []
    case LoopHead =>
      && k.started == a + 1 && k.xfer.None? && k.op.None?
      && IsBucket(p, a, k.metadata, k.bufs[k.send]) && k.out == p.outs[a]
    case NextMeta =>
      && 1 <= k.started == a < n && k.xfer.None? && Serving(cfg, p, r, k) && (HasNext(cfg, r) <==> k.op.Some?)
      && k.out == p.outs[a - 1]
    case Yielding(i) =>
      && k.started == a + 1 && XferIn(cfg, p, k) && Serving(cfg, p, r, k) && (HasNext(cfg, r) <==> k.op.Some?)
      && Yielded(p, a - 1, i, k.out)
    case AwaitNext =>
      && k.started == a + 1 && XferIn(cfg, p, k) && Serving(cfg, p, r, k) && k.op.Some?
      && k.out == p.outs[a]
    case AwaitRead =>
      k.started == a + 1 && XferIn(cfg, p, k) && k.op.None? && k.out == p.outs[a]
    case YieldingLast(i) =>
      && k.started == a == n && k.xfer.None? && Serving(cfg, p, r, k) && (HasNext(cfg, r) <==> k.op.Some?)
      && Yielded(p, a - 1, i, k.out)
    case AwaitLastRead =>
      && k.started == a == n && k.xfer.None? && Serving(cfg, p, r, k) && k.op.Some? && k.out == p.outs[n]
    case Done => k.started == a == n && k.xfer.None? && k.op.None? && k.out == p.outs[n]
    case _ => false
  }

  ghost predicate RankInv(cfg: Config, p: Plan, r: nat, k: Rank) {
    Shape(cfg, p, k) && if r == 0 then SenderInv(cfg, p, k) else ReceiverInv(cfg, p, r, k)
  }

  // ---------------------------------------------------------------- two neighbours

  ghost predicate Active(x: Option<Transfer>) { x.Some? && !x.value.done }

  /** Where the bucket announced by one rank is on its way to the next: nowhere, in the mailbox,
      being read, or read with the notification on its way back. */
  ghost predicate InFlight(p: Plan, op: Option<ReadableOp>, announced: nat, notifs: seq<Key>, bufs: seq<seq<byte>>,
                           started: nat, xfer: Option<Transfer>, inbox: seq<Metadata>, nextBufs: seq<seq<byte>>) {
    if op.None? then
      started == announced && inbox == [] && notifs == [] && !Active(xfer)
    else
      && 1 <= announced <= |p.buckets|
      && (|| (started == announced - 1 && !Active(xfer) && notifs == []
              && inbox == [Message(op.value, Plain(p.buckets[announced - 1]))])
          || (started == announced && Active(xfer) && notifs == [] && inbox == []
              && Copying(op.value, bufs, xfer.value, nextBufs))
          || (started == announced && !Active(xfer) && notifs == [op.value.key] && inbox == []))
  }

  /** The read is from the offered buffer, and the bytes copied so far agree with it. */
  ghost predicate Copying(op: ReadableOp, bufs: seq<seq<byte>>, x: Transfer, nextBufs: seq<seq<byte>>) {
    && x.source == op.descs && x.key == op.key
    && op.descs.slot < |bufs| && x.target < |nextBufs|
    && CopiedAgree(x.copied, bufs[op.descs.slot], nextBufs[x.target])
  }

  ghost predicate CopiedAgree(copied: set<nat>, source: seq<byte>, target: seq<byte>) {
    && |source| == |target|
    && forall i :: i in copied && i < |target| ==> target[i] == source[i]
  }

  ghost predicate Link(p: Plan, a: Rank, b: Rank) {
    InFlight(p, a.op, a.announced, a.notifs, a.bufs, b.started, b.xfer, b.inbox, b.bufs)
  }

  ghost predicate Inv(cfg: Config, p: Plan, s: State) {
    && |s| == cfg.ranks
    && (forall r :: 0 <= r < |s| ==> RankInv(cfg, p, r, s[r]))
    && (forall r :: 0 <= r < |s| - 1 ==> Link(p, s[r], s[r + 1]))
  }
}
