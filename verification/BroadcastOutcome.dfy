/** How every maximal run of the broadcast engine ends, whether or not all weights fit. */
module BroadcastOutcome {
  import opened BroadcastEngine
  import opened BroadcastInvariant
  import opened BroadcastTheorems
  import opened BucketPlan
  import opened Packing

  /** A run that cannot be extended ends with rank 0 failed if and only if some weight is larger than a bucket. */
  lemma {:induction false} FailsIffOversize(st: Stream, ranks: nat, s: State)
    requires Valid(st) && Reachable(st, ranks, s) && Stuck(st, s)
    ensures s.root.pc.Failed? <==> !AllFit(st.size, st.weights)
  {
    ReachableInv(st, ranks, s);
    if s.root.pc.Failed? {
      OnlyOversizeFails(st, ranks, s);
    } else {
      StuckRoot(st, PlanOf(st), s);
    }
  }

  /** Rank 0 fails at the first weight larger than a bucket, after broadcasting every bucket of the weights before it. */
  lemma {:induction false} FailsAtFirstOversize(st: Stream, ranks: nat, s: State)
    requires Valid(st) && Reachable(st, ranks, s) && s.root.pc.Failed?
    ensures s.root.next < |st.weights| && |st.weights[s.root.next].data| > st.size
    ensures AllFit(st.size, st.weights[..s.root.next])
    ensures s.root.started == |Buckets(st.size, st.weights[..s.root.next])| < |Bs(st)|
  {
    ReachableInv(st, ranks, s);
    ReopenedBefore(st, s.root.next, s.root.started, s.root.filling, s.root.offset);
  }

  lemma StarvedReceiver(st: Stream, p: Plan, s: State, r: nat)
    requires PlanMeets(st, p) && Inv(st, p, s) && Stuck(st, s) && r < |s.receivers|
    requires 1 <= s.root.started < |p.buckets|
    ensures s.receivers[r].pc.AwaitNext? && s.receivers[r].out == p.outs[s.root.started]
  {
    var k := s.receivers[r];
    assert ReceiverInv(st, p, k) && Link(st, p, s.root, k);
    assert !Enabled(st, s, RootPublish) && !Enabled(st, s, Advance(r));
    StuckReceiver(st, p, s, r);
    BlockedReceiver(st, p, k);
  }

  /** With an oversize weight a run that cannot be extended leaves every receiver waiting for a broadcast that never
      comes: it has yielded all buckets of the weights before the first oversize one. */
  lemma {:induction false} OversizeStarves(st: Stream, ranks: nat, s: State, r: nat)
    requires Valid(st) && Reachable(st, ranks, s) && Stuck(st, s) && r < |s.receivers|
    requires !AllFit(st.size, st.weights)
    ensures s.receivers[r].pc.AwaitNext? && s.root.next < |st.weights|
    ensures s.receivers[r].out == ReadableAll(Buckets(st.size, st.weights[..s.root.next]))
  {
    FailsIffOversize(st, ranks, s);
    FailsAtFirstOversize(st, ranks, s);
    ReachableInv(st, ranks, s);
    StarvedReceiver(st, PlanOf(st), s, r);
    OutsBefore(st, s.root.next);
  }
}
