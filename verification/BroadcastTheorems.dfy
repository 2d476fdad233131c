/** What holds in every run of the broadcast engine. */
module BroadcastTheorems {
  import opened Packing
  import opened BucketPlan
  import opened BroadcastEngine
  import opened BroadcastInvariant
  import opened BroadcastPreservation

  ghost predicate Reachable(st: Stream, ranks: nat, s: State) {
    exists run :: IsRun(st, Init(st, ranks), run) && Exec(st, Init(st, ranks), run) == s
  }

  lemma {:induction false} RunKeepsRanks(st: Stream, s: State, run: seq<Action>)
    requires IsRun(st, s, run)
    ensures |Exec(st, s, run).receivers| == |s.receivers|
    decreases |run|
  {
    if run != [] {
      RunKeepsRanks(st, Apply(st, s, run[0]), run[1..]);
    }
  }

  lemma {:induction false} ReachableInv(st: Stream, ranks: nat, s: State)
    requires Valid(st) && Reachable(st, ranks, s)
    ensures PlanMeets(st, PlanOf(st)) && Inv(st, PlanOf(st), s) && |s.receivers| == ranks
  {
    var run :| IsRun(st, Init(st, ranks), run) && Exec(st, Init(st, ranks), run) == s;
    PlanIsOk(st);
    InitInv(st, PlanOf(st), ranks);
    RunKeeps(st, PlanOf(st), Init(st, ranks), run);
    RunKeepsRanks(st, Init(st, ranks), run);
  }

  // ---------------------------------------------------------------- delivery

  lemma OutIsPrefix(st: Stream, p: Plan, k: Receiver)
    requires BucketsOk(st, p) && ReceiverInv(st, p, k)
    ensures k.out <= p.outs[|p.buckets|]
    ensures k.pc.Done? ==> k.out == p.outs[|p.buckets|]
  {
    if k.pc.Start? || k.pc.AwaitFirst? {
    } else if k.pc.Yielding? || k.pc.YieldingLast? {
      var j := if k.pc.Yielding? then k.posted - 2 else k.posted - 1;
      OutsGrow(st, p, j + 1);
      assert p.outs[j + 1] == p.outs[j] + p.readable[j];
    } else if !k.pc.Done? {
      OutsGrow(st, p, k.posted - 1);
    }
  }

  /** However fills, yields and broadcasts overlap, every receiver has yielded a prefix of the
      sent stream, and all of it once it is done. */
  lemma BroadcastDelivery(st: Stream, ranks: nat, s: State, r: nat)
    requires Valid(st) && Reachable(st, ranks, s) && r < ranks
    ensures |s.receivers| == ranks && s.receivers[r].out <= Delivered(st)
    ensures s.receivers[r].pc.Done? ==> s.receivers[r].out == Delivered(st)
  {
    ReachableInv(st, ranks, s);
    PlanBuckets(st);
    OutIsPrefix(st, PlanOf(st), s.receivers[r]);
  }

  // ---------------------------------------------------------------- buffers

  /** Rank 0's own step never writes the buffer of an operation that has not been awaited. */
  lemma SenderExclusion(st: Stream, ranks: nat, s: State)
    requires Valid(st) && Reachable(st, ranks, s) && Enabled(st, s, RootAdvance) && s.root.op.Some?
    ensures var slot := s.root.op.value.slot;
            && slot < |s.root.bufs| == |RootLocal(st, s.root).bufs|
            && RootLocal(st, s.root).bufs[slot] == s.root.bufs[slot]
  {
    hide RootInv, RootLocal, CanRootAdvance, Reachable, PlanMeets;
    ReachableInv(st, ranks, s);
    RootWritesOther(st, PlanOf(st), s.root);
  }

  lemma RootWritesOther(st: Stream, p: Plan, k: Root)
    requires RootInv(st, p, k) && CanRootAdvance(st, k) && k.op.Some?
    ensures var slot := k.op.value.slot;
            slot < |k.bufs| == |RootLocal(st, k).bufs| && RootLocal(st, k).bufs[slot] == k.bufs[slot]
  {
    RootSlot(st, p, k);
  }

  /** A receiver's pending operation is never on the buffer it yields from. */
  lemma YieldSlot(st: Stream, ranks: nat, s: State, r: nat)
    requires Valid(st) && Reachable(st, ranks, s) && r < ranks
    ensures |s.receivers| == ranks && |s.receivers[r].bufs| == 2 && s.receivers[r].send < 2
    ensures s.receivers[r].op.Some? ==> s.receivers[r].op.value.slot == 1 - s.receivers[r].send
  {
    ReachableInv(st, ranks, s);
    assert ReceiverInv(st, PlanOf(st), s.receivers[r]);
  }

  lemma LocalWritesNothing(k: Receiver)
    requires CanAdvance(k)
    ensures Local(k).bufs == k.bufs
  {
  }

  lemma WritesOnlyReceiveBuffer(st: Stream, s: State, a: Action, r: nat, slot: nat)
    requires Enabled(st, s, a) && r < |s.receivers| && slot < |s.receivers[r].bufs|
    requires s.receivers[r].op.Some? ==> s.receivers[r].op.value.slot != slot
    ensures var k := Apply(st, s, a).receivers[r];
            |k.bufs| == |s.receivers[r].bufs| && k.bufs[slot] == s.receivers[r].bufs[slot]
  {
    if a.Advance? && a.rank == r {
      LocalWritesNothing(s.receivers[r]);
    }
  }

  /** No step of anybody changes the buffer a receiver is yielding from. */
  lemma ReceiverExclusion(st: Stream, ranks: nat, s: State, a: Action, r: nat)
    requires Valid(st) && Reachable(st, ranks, s) && Enabled(st, s, a) && r < ranks
    requires |s.receivers| == ranks && (s.receivers[r].pc.Yielding? || s.receivers[r].pc.YieldingLast?)
    ensures var k := s.receivers[r];
            && k.send < |k.bufs| == |Apply(st, s, a).receivers[r].bufs|
            && Apply(st, s, a).receivers[r].bufs[k.send] == k.bufs[k.send]
  {
    YieldSlot(st, ranks, s, r);
    WritesOnlyReceiveBuffer(st, s, a, r, s.receivers[r].send);
  }

  /** Rank 0 fails only on a weight larger than a bucket. */
  lemma OnlyOversizeFails(st: Stream, ranks: nat, s: State)
    requires Valid(st) && Reachable(st, ranks, s) && s.root.pc.Failed?
    ensures s.root.next < |st.weights| && |st.weights[s.root.next].data| > st.size
  {
    ReachableInv(st, ranks, s);
  }

  // ---------------------------------------------------------------- progress

  ghost predicate Stuck(st: Stream, s: State) {
    forall a :: !Enabled(st, s, a)
  }

  /** A receiver that cannot advance by itself is done or waits for its operation. */
  lemma BlockedReceiver(st: Stream, p: Plan, k: Receiver)
    requires BucketsOk(st, p) && ReadsOk(p) && ReceiverInv(st, p, k) && !CanAdvance(k)
    ensures k.pc.Done? || ((k.pc.AwaitFirst? || k.pc.AwaitNext?) && Receiving(st, p, k) && !k.op.value.stage.Finished?)
  {
    if k.pc.Yielding? || k.pc.YieldingLast? {
      YieldEnabled(st, p, k);
    }
  }

  lemma YieldEnabled(st: Stream, p: Plan, k: Receiver)
    requires BucketsOk(st, p) && ReadsOk(p) && ReceiverInv(st, p, k) && (k.pc.Yielding? || k.pc.YieldingLast?)
    ensures CanAdvance(k)
  {
    var j := if k.pc.Yielding? then k.posted - 2 else k.posted - 1;
    assert k.pc.k < |k.content.metas| ==> ReadsBack(p, j, k.bufs[k.send], k.pc.k);
  }

  /** While a receiver yields a bucket that is not the last, its next receive is under way; nothing can hold the yielding
      up. */
  lemma {:induction false} YieldOverlaps(st: Stream, ranks: nat, s: State, r: nat)
    requires Valid(st) && Reachable(st, ranks, s) && r < |s.receivers|
    requires s.receivers[r].pc.Yielding? || s.receivers[r].pc.YieldingLast?
    ensures CanAdvance(s.receivers[r]) && (s.receivers[r].op.Some? <==> s.receivers[r].pc.Yielding?)
  {
    ReachableInv(st, ranks, s);
    PlanBuckets(st);
    assert ReceiverInv(st, PlanOf(st), s.receivers[r]);
    YieldEnabled(st, PlanOf(st), s.receivers[r]);
  }

  /** While rank 0 fills a bucket, the broadcast it started last has not been awaited. */
  ghost predicate FillsOverlapped(k: Root) {
    (k.pc.Filling? || k.pc.Storing? || k.pc.AwaitFlush? || k.pc.AwaitLast?) && k.started > 0 ==> k.op.Some?
  }

  lemma {:induction false} FillRun(st: Stream, s: State, run: seq<Action>)
    requires FillsOverlapped(s.root) && IsRun(st, s, run)
    ensures FillsOverlapped(Exec(st, s, run).root)
    decreases |run|
  {
    if run != [] {
      FillRun(st, Apply(st, s, run[0]), run[1..]);
    }
  }

  /** Rank 0 does not wait for a broadcast before it fills the next bucket. */
  lemma {:induction false} FillOverlaps(st: Stream, ranks: nat, s: State)
    requires Valid(st) && Reachable(st, ranks, s)
    ensures FillsOverlapped(s.root)
  {
    var run :| IsRun(st, Init(st, ranks), run) && Exec(st, Init(st, ranks), run) == s;
    FillRun(st, Init(st, ranks), run);
  }

  /** A stuck receiver is done, or waits for a broadcast rank 0 has not published yet. */
  lemma StuckReceiver(st: Stream, p: Plan, s: State, r: nat)
    requires PlanMeets(st, p) && Inv(st, p, s) && Stuck(st, s) && r < |s.receivers|
    ensures var k := s.receivers[r];
            k.pc.Done? || (k.received == k.taken == k.posted - 1 == Sent(s.root) && !k.pc.Done?)
  {
    var k := s.receivers[r];
    assert ReceiverInv(st, p, k) && Link(st, p, s.root, k);
    assert !Enabled(st, s, Advance(r)) && !Enabled(st, s, TakeMetadata(r)) && !Enabled(st, s, Finish(r));
    BlockedReceiver(st, p, k);
    if !k.pc.Done? && k.op.value.stage.Running? {
      var at: nat :| at < st.size && at !in k.op.value.copied;
      assert !Enabled(st, s, CopyByte(r, at));
      UnfinishedMeets(st, p, s.root, k);
      RootSlot(st, p, s.root);
    }
  }

  /** A receiver still missing bytes is inside the broadcast rank 0 is running. */
  lemma UnfinishedMeets(st: Stream, p: Plan, root: Root, k: Receiver)
    requires RootInv(st, p, root) && ReceiverInv(st, p, k) && Link(st, p, root, k)
    requires k.op.Some? && k.op.value.stage.Running? && !AllCopied(st, k.op.value)
    ensures Meeting(root, k)
  {
  }

  /** No deadlock: when every weight fits, a run that cannot be extended is finished at rank 0 and
      at every receiver, and every receiver has yielded the whole stream. */
  lemma BroadcastProgress(st: Stream, ranks: nat, s: State, r: nat)
    requires Valid(st) && AllFit(st.size, st.weights) && Reachable(st, ranks, s) && Stuck(st, s) && r < ranks
    ensures s.root.pc.RootDone? && |s.receivers| == ranks && s.receivers[r].pc.Done?
    ensures s.receivers[r].out == Delivered(st)
  {
    ReachableInv(st, ranks, s);
    var p := PlanOf(st);
    if s.root.pc.Failed? {
      OnlyOversizeFails(st, ranks, s);
    }
    StuckRoot(st, p, s);
    assert ReceiverInv(st, p, s.receivers[r]);
    StuckReceiver(st, p, s, r);
    BroadcastDelivery(st, ranks, s, r);
  }

  lemma StuckRoot(st: Stream, p: Plan, s: State)
    requires PlanMeets(st, p) && Inv(st, p, s) && Stuck(st, s) && !s.root.pc.Failed?
    ensures s.root.pc.RootDone?
  {
    assert !Enabled(st, s, RootAdvance) && !Enabled(st, s, RootPublish) && !Enabled(st, s, RootFinish);
    if s.root.op.Some? && s.root.op.value.stage.Running? {
      var r :| 0 <= r < |s.receivers| && !GotAll(st, s.receivers[r], s.root.started);
      assert ReceiverInv(st, p, s.receivers[r]);
      StuckReceiver(st, p, s, r);
    }
  }
}
