/** What holds in every run of the NIXL chain. */
module NixlTheorems {
  import opened Packing
  import opened NixlChain
  import opened NixlInvariant
  import opened BucketPlan
  import opened NixlPreservation
  import opened Wrappers

  // ---------------------------------------------------------------- the invariant holds

  /** At least one rollout rank, and tensors are what torch makes of them. */
  ghost predicate ValidChain(cfg: Config) {
    cfg.ranks >= 2 && Valid(cfg.stream)
  }

  /** States that some run from the initial state ends in. */
  ghost predicate Reachable(cfg: Config, s: State) {
    exists run :: IsRun(cfg, Init(cfg), run) && Exec(cfg, Init(cfg), run) == s
  }

  lemma {:induction false} ReachableInv(cfg: Config, s: State)
    requires ValidChain(cfg) && Reachable(cfg, s)
    ensures PlanOk(cfg, PlanOf(cfg.stream)) && Inv(cfg, PlanOf(cfg.stream), s)
  {
    var run :| IsRun(cfg, Init(cfg), run) && Exec(cfg, Init(cfg), run) == s;
    PlanIsOk(cfg.stream);
    InitInv(cfg, PlanOf(cfg.stream));
    RunKeeps(cfg, PlanOf(cfg.stream), Init(cfg), run);
  }

  // ---------------------------------------------------------------- delivery

  lemma OutIsPrefix(cfg: Config, p: Plan, r: nat, k: Rank)
    requires BucketsOk(cfg.stream, p) && r > 0 && RankInv(cfg, p, r, k)
    ensures k.out <= p.outs[|p.buckets|]
    ensures k.pc.Done? ==> k.out == p.outs[|p.buckets|]
  {
    var a := k.announced;
    if k.pc.Yielding? || k.pc.YieldingLast? {
      OutsGrow(cfg.stream, p, a);
      assert p.outs[a - 1 + 1] == p.outs[a - 1] + p.readable[a - 1];
      assert k.out <= p.outs[a];
    } else if k.pc.NextMeta? {
      OutsGrow(cfg.stream, p, a - 1);
    } else {
      OutsGrow(cfg.stream, p, a);
    }
  }

  /** In every run each rollout rank has yielded a prefix of what rank 0 sends, whatever the
      interleaving and whatever stale bytes the copied buffers hold. */
  lemma {:induction false} ChainDelivery(cfg: Config, s: State, r: nat)
    requires ValidChain(cfg) && Reachable(cfg, s) && 0 < r < |s|
    ensures s[r].out <= Delivered(cfg.stream)
  {
    ReachableInv(cfg, s);
    PlanBuckets(cfg.stream);
    assert RankInv(cfg, PlanOf(cfg.stream), r, s[r]);
    OutIsPrefix(cfg, PlanOf(cfg.stream), r, s[r]);
  }

  /** A rollout rank that is done has yielded all of it. */
  lemma {:induction false} ChainComplete(cfg: Config, s: State, r: nat)
    requires ValidChain(cfg) && Reachable(cfg, s) && 0 < r < |s| && s[r].pc.Done?
    ensures s[r].out == Delivered(cfg.stream)
  {
    ReachableInv(cfg, s);
    PlanBuckets(cfg.stream);
    assert RankInv(cfg, PlanOf(cfg.stream), r, s[r]);
    OutIsPrefix(cfg, PlanOf(cfg.stream), r, s[r]);
  }

  // ---------------------------------------------------------------- buffers and keys

  /** Rank r's buffer `slot` is offered to the next rank, being read by it, or being yielded. */
  ghost predicate InUse(s: State, r: nat, slot: nat)
    requires r < |s|
  {
    || (s[r].op.Some? && s[r].op.value.descs.slot == slot)
    || (r + 1 < |s| && Active(s[r + 1].xfer) && s[r + 1].xfer.value.source == Descs(r, slot))
    || ((s[r].pc.Yielding? || s[r].pc.YieldingLast?) && s[r].send == slot)
  }

  lemma InUseMeans(cfg: Config, p: Plan, s: State, r: nat, slot: nat)
    requires Inv(cfg, p, s) && r < |s| && InUse(s, r, slot)
    ensures s[r].pc.Filling? || s[r].pc.Storing? ==> slot == 1 - s[r].send
    ensures r > 0 ==> slot == s[r].send
  {
    assert RankInv(cfg, p, r, s[r]);
    if r + 1 < |s| {
      assert Link(p, s[r], s[r + 1]);
    }
  }

  /** A rank's own steps write only when storing, and only into its send buffer. */
  lemma LocalWrites(cfg: Config, r: nat, k: Rank, slot: nat)
    requires CanAdvance(cfg, r, k) && slot < 2 && (k.pc.Storing? ==> slot != k.send)
    ensures |Local(cfg, r, k).0.bufs| == 2 && Local(cfg, r, k).0.bufs[slot] == k.bufs[slot]
  {
  }

  function Buffer(k: Rank, slot: nat): Option<seq<byte>> {
    if slot < |k.bufs| then Some(k.bufs[slot]) else None
  }

  /** No step fills or pulls into a buffer that is in use. */
  lemma {:induction false} BufferExclusion(cfg: Config, s: State, a: Action, r: nat, slot: nat)
    requires ValidChain(cfg) && Reachable(cfg, s) && Enabled(cfg, s, a) && r < |s| && slot < 2
    requires InUse(s, r, slot)
    ensures Buffer(s[r], slot).Some? && Buffer(Apply(cfg, s, a)[r], slot) == Buffer(s[r], slot)
  {
    ReachableInv(cfg, s);
    InUseMeans(cfg, PlanOf(cfg.stream), s, r, slot);
    ExclusionStep(cfg, PlanOf(cfg.stream), s, a, r, slot);
  }

  lemma AdvanceWrites(cfg: Config, s: State, q: nat, r: nat, slot: nat)
    requires Enabled(cfg, s, Advance(q)) && r < |s| && slot < |s[r].bufs| == 2
    requires q == r && s[r].pc.Storing? ==> slot != s[r].send
    ensures var k := Apply(cfg, s, Advance(q))[r]; |k.bufs| == 2 && k.bufs[slot] == s[r].bufs[slot]
  {
    if q == r {
      LocalWrites(cfg, r, s[r], slot);
    }
  }

  lemma CopyWrites(cfg: Config, s: State, q: nat, i: nat, r: nat, slot: nat)
    requires Enabled(cfg, s, CopyByte(q, i)) && r < |s| && slot < |s[r].bufs| == 2
    requires q == r ==> slot != s[r].xfer.value.target
    ensures var k := Apply(cfg, s, CopyByte(q, i))[r]; |k.bufs| == 2 && k.bufs[slot] == s[r].bufs[slot]
  {
  }

  lemma RankBuffers(cfg: Config, p: Plan, r: nat, k: Rank)
    requires RankInv(cfg, p, r, k)
    ensures |k.bufs| == 2 && k.send < 2 && (r == 0 || !k.pc.Storing?)
    ensures r > 0 && XferIn(cfg, p, k) && Active(k.xfer) ==> k.xfer.value.target == 1 - k.send
  {
  }

  lemma ExclusionStep(cfg: Config, p: Plan, s: State, a: Action, r: nat, slot: nat)
    requires BucketsOk(cfg.stream, p) && Inv(cfg, p, s) && Enabled(cfg, s, a) && r < |s| && slot < 2
    requires s[r].pc.Filling? || s[r].pc.Storing? ==> slot == 1 - s[r].send
    requires r > 0 ==> slot == s[r].send
    ensures |s[r].bufs| == 2 && |Apply(cfg, s, a)[r].bufs| == 2
    ensures Apply(cfg, s, a)[r].bufs[slot] == s[r].bufs[slot]
  {
    RankBuffers(cfg, p, r, s[r]);
    hide RankInv, Link;
    match a {
      case Advance(q) => AdvanceWrites(cfg, s, q, r, slot);
      case CopyByte(q, i) =>
        ReadSource(cfg, p, s, q);
        CopyWrites(cfg, s, q, i, r, slot);
      case Complete(_) =>
    }
  }

  /** Between neighbours at most one announcement is outstanding; a waiting notification has its
      key, and a waiting message carries the forwarder's own key and descriptors. */
  lemma OneOutstanding(cfg: Config, s: State, r: nat)
    requires ValidChain(cfg) && Reachable(cfg, s) && r + 1 < cfg.ranks
    ensures |s| == cfg.ranks && |s[r].notifs| + |s[r + 1].inbox| + (if Active(s[r + 1].xfer) then 1 else 0)
                                == (if s[r].op.Some? then 1 else 0)
    ensures s[r].notifs != [] ==> s[r].notifs == [s[r].op.value.key]
    ensures s[r + 1].inbox != [] ==>
              && s[r + 1].inbox[0].key == Some(s[r].op.value.key)
              && s[r + 1].inbox[0].descs == Some(s[r].op.value.descs)
    ensures s[r].op.Some? ==> s[r].op.value.descs.rank == r
    ensures Active(s[r + 1].xfer) ==>
              && s[r + 1].xfer.value.source == s[r].op.value.descs
              && s[r + 1].xfer.value.key == s[r].op.value.key
  {
    ReachableInv(cfg, s);
    var p := PlanOf(cfg.stream);
    assert Link(p, s[r], s[r + 1]) && RankInv(cfg, p, r, s[r]);
  }

  /** The only way to fail is rank 0 meeting a weight larger than a bucket: no notify-key
      assertion ever fails. */
  lemma OnlyOversizeFails(cfg: Config, s: State, r: nat)
    requires ValidChain(cfg) && Reachable(cfg, s) && r < |s| && s[r].pc.Failed?
    ensures r == 0 && s[0].next < |cfg.stream.weights| && |cfg.stream.weights[s[0].next].data| > cfg.stream.size
  {
    ReachableInv(cfg, s);
    assert RankInv(cfg, PlanOf(cfg.stream), r, s[r]);
  }

  // ---------------------------------------------------------------- progress

  /** Buckets a rank has completely received. */
  function Received(k: Rank): int {
    k.started - if k.xfer.Some? && !k.xfer.value.done then 1 else 0
  }

  /** A rank runs at most two buckets ahead of the rank after it, rank 0 at most one. */
  lemma BoundedLag(cfg: Config, s: State, r: nat)
    requires ValidChain(cfg) && Reachable(cfg, s) && r + 1 < cfg.ranks
    ensures |s| == cfg.ranks
    ensures r > 0 ==> Received(s[r]) <= Received(s[r + 1]) + 2
    ensures r == 0 ==> s[0].announced <= Received(s[1]) + 1
  {
    ReachableInv(cfg, s);
    var p := PlanOf(cfg.stream);
    assert Link(p, s[r], s[r + 1]) && RankInv(cfg, p, r, s[r]);
  }

  ghost predicate Stuck(cfg: Config, s: State) {
    forall a :: !Enabled(cfg, s, a)
  }

  /** A pending read can always go on. */
  lemma StuckNoRead(cfg: Config, p: Plan, s: State, r: nat)
    requires PlanOk(cfg, p) && Inv(cfg, p, s) && r < |s| && Stuck(cfg, s)
    ensures !Active(s[r].xfer)
  {
    if Active(s[r].xfer) {
      ReadSource(cfg, p, s, r);
      if at: nat :| at < cfg.stream.size && at !in s[r].xfer.value.copied {
        assert Enabled(cfg, s, CopyByte(r, at));
      } else {
        assert Enabled(cfg, s, Complete(r));
      }
    }
  }

  lemma YieldEnabled(cfg: Config, p: Plan, r: nat, k: Rank)
    requires BucketsOk(cfg.stream, p) && ReadsOk(p) && RankInv(cfg, p, r, k) && (k.pc.Yielding? || k.pc.YieldingLast?)
    ensures CanAdvance(cfg, r, k)
  {
    assert k.pc.k < |k.metadata.bucket| ==> ReadsBack(p, k.announced - 1, k.bufs[k.send], k.pc.k);
  }

  /** Locally, a rank that cannot advance is finished, failed, or waits for a message or a
      notification that is not there (or for a read). */
  lemma BlockedMeans(cfg: Config, p: Plan, r: nat, k: Rank)
    requires PlanOk(cfg, p) && RankInv(cfg, p, r, k) && !CanAdvance(cfg, r, k) && !Active(k.xfer)
    ensures || k.pc.Done? || k.pc.Failed?
            || (Waiting(k) && k.op.Some? && k.notifs == [] && HasNext(cfg, r))
            || (r > 0 && (k.pc.FirstMeta? || k.pc.NextMeta?) && k.started < |p.buckets|
                && (k.inbox == [] || k.inbox[0].key.None? || k.inbox[0].descs.None?))
  {
    if k.pc.Yielding? || k.pc.YieldingLast? {
      YieldEnabled(cfg, p, r, k);
    }
  }

  /** If a rank waits in vain for its notification, the next rank has not even started reading. */
  lemma NotStarted(p: Plan, k: Rank, b: Rank)
    requires Link(p, k, b) && k.op.Some? && k.notifs == [] && !Active(b.xfer)
    ensures 1 <= k.announced <= |p.buckets| && b.started == k.announced - 1
    ensures b.inbox == [Message(k.op.value, Plain(p.buckets[k.announced - 1]))]
  {
  }

  lemma StuckWaiting(cfg: Config, p: Plan, s: State, r: nat)
    requires PlanOk(cfg, p) && Inv(cfg, p, s) && Stuck(cfg, s) && r < |s| && Waiting(s[r])
    ensures r + 1 < |s| && s[r].op.Some? && s[r].notifs == []
  {
    assert !Enabled(cfg, s, Advance(r)) && RankInv(cfg, p, r, s[r]);
    StuckNoRead(cfg, p, s, r);
    BlockedMeans(cfg, p, r, s[r]);
  }

  /** While a rank yields a bucket, that bucket is on offer to the next rank and, unless it is the last, the read of the
      one after it has begun; nothing can hold the yielding up. */
  lemma {:induction false} YieldOverlaps(cfg: Config, s: State, r: nat)
    requires ValidChain(cfg) && Reachable(cfg, s) && 0 < r < |s| && (s[r].pc.Yielding? || s[r].pc.YieldingLast?)
    ensures CanAdvance(cfg, r, s[r]) && (s[r].op.Some? <==> HasNext(cfg, r))
    ensures s[r].xfer.Some? <==> s[r].pc.Yielding?
  {
    ReachableInv(cfg, s);
    PlanBuckets(cfg.stream);
    assert RankInv(cfg, PlanOf(cfg.stream), r, s[r]);
    YieldEnabled(cfg, PlanOf(cfg.stream), r, s[r]);
  }

  /** While rank 0 fills a bucket, the one it announced last is outstanding. */
  ghost predicate FillsOverlapped(k: Rank) {
    (k.pc.Filling? || k.pc.Storing? || k.pc.AwaitFlush? || k.pc.AwaitLast?) && k.announced > 0 ==> k.op.Some?
  }

  lemma FillStep(cfg: Config, s: State, a: Action)
    requires cfg.ranks >= 2 && |s| == cfg.ranks && FillsOverlapped(s[0]) && Enabled(cfg, s, a)
    ensures FillsOverlapped(Apply(cfg, s, a)[0])
  {
    if a == Advance(0) {
      assert FillsOverlapped(Local(cfg, 0, s[0]).0);
    }
  }

  lemma {:induction false} FillRun(cfg: Config, s: State, run: seq<Action>)
    requires cfg.ranks >= 2 && |s| == cfg.ranks && FillsOverlapped(s[0]) && IsRun(cfg, s, run)
    ensures |Exec(cfg, s, run)| == cfg.ranks && FillsOverlapped(Exec(cfg, s, run)[0])
    decreases |run|
  {
    if run != [] {
      FillStep(cfg, s, run[0]);
      FillRun(cfg, Apply(cfg, s, run[0]), run[1..]);
    }
  }

  /** Rank 0 does not wait for an announced bucket before it fills the next: the wait is due only when that one is full
      or the stream is over. */
  lemma {:induction false} FillOverlaps(cfg: Config, s: State)
    requires ValidChain(cfg) && Reachable(cfg, s)
    ensures |s| == cfg.ranks && FillsOverlapped(s[0])
  {
    var run :| IsRun(cfg, Init(cfg), run) && Exec(cfg, Init(cfg), run) == s;
    FillRun(cfg, Init(cfg), run);
  }

  /** In a stuck state nobody waits for a notification: the next rank would have to wait too, and
      the last rank never does. */
  lemma {:induction false} StuckNotWaiting(cfg: Config, p: Plan, s: State, r: nat)
    requires PlanOk(cfg, p) && Inv(cfg, p, s) && Stuck(cfg, s) && r < |s|
    ensures !Waiting(s[r])
    decreases |s| - r
  {
    if Waiting(s[r]) {
      StuckWaiting(cfg, p, s, r);
      assert Link(p, s[r], s[r + 1]) && RankInv(cfg, p, r + 1, s[r + 1]);
      StuckNoRead(cfg, p, s, r + 1);
      NotStarted(p, s[r], s[r + 1]);
      assert !Enabled(cfg, s, Advance(r + 1));
      BlockedMeans(cfg, p, r + 1, s[r + 1]);
      StuckNotWaiting(cfg, p, s, r + 1);
    }
  }

  lemma {:induction false} StuckAllDone(cfg: Config, p: Plan, s: State, r: nat)
    requires PlanOk(cfg, p) && Inv(cfg, p, s) && Stuck(cfg, s) && r < |s|
    requires !s[0].pc.Failed?
    ensures s[r].pc.Done?
  {
    assert !Enabled(cfg, s, Advance(r)) && RankInv(cfg, p, r, s[r]);
    StuckNoRead(cfg, p, s, r);
    StuckNotWaiting(cfg, p, s, r);
    BlockedMeans(cfg, p, r, s[r]);
    if r > 0 {
      StuckAllDone(cfg, p, s, r - 1);
      assert Link(p, s[r - 1], s[r - 1 + 1]) && RankInv(cfg, p, r - 1, s[r - 1]);
    }
  }

  /** No deadlock: when every weight fits, a run that cannot be extended has finished everywhere
      and every rollout rank has yielded the whole stream. */
  lemma ChainProgress(cfg: Config, s: State, r: nat)
    requires ValidChain(cfg) && AllFit(cfg.stream.size, cfg.stream.weights)
    requires Reachable(cfg, s) && Stuck(cfg, s) && r < cfg.ranks
    ensures |s| == cfg.ranks && s[r].pc.Done?
    ensures r > 0 ==> s[r].out == Delivered(cfg.stream)
  {
    ReachableInv(cfg, s);
    var p := PlanOf(cfg.stream);
    if s[0].pc.Failed? {
      OnlyOversizeFails(cfg, s, 0);
    }
    StuckAllDone(cfg, p, s, r);
    if r > 0 {
      ChainComplete(cfg, s, r);
    }
  }
}
