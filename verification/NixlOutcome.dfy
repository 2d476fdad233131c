/** How every maximal run of the NIXL chain ends, whether or not all weights fit. */
module NixlOutcome {
  import opened BucketPlan
  import opened NixlChain
  import opened NixlInvariant
  import opened NixlTheorems
  import opened Packing

  /** A run that cannot be extended ends with rank 0 failed if and only if some weight is larger than a bucket. */
  lemma {:induction false} FailsIffOversize(cfg: Config, s: State)
    requires ValidChain(cfg) && Reachable(cfg, s) && Stuck(cfg, s)
    ensures |s| == cfg.ranks && (s[0].pc.Failed? <==> !AllFit(cfg.stream.size, cfg.stream.weights))
  {
    ReachableInv(cfg, s);
    if s[0].pc.Failed? {
      OnlyOversizeFails(cfg, s, 0);
    } else {
      StuckAllDone(cfg, PlanOf(cfg.stream), s, 0);
      assert RankInv(cfg, PlanOf(cfg.stream), 0, s[0]);
    }
  }

  /** Rank 0 fails at the first weight larger than a bucket, after announcing every bucket of the weights before it. */
  lemma {:induction false} FailsAtFirstOversize(cfg: Config, s: State)
    requires ValidChain(cfg) && Reachable(cfg, s) && |s| > 0 && s[0].pc.Failed?
    ensures s[0].next < |cfg.stream.weights| && |cfg.stream.weights[s[0].next].data| > cfg.stream.size
    ensures AllFit(cfg.stream.size, cfg.stream.weights[..s[0].next])
    ensures s[0].announced == |Buckets(cfg.stream.size, cfg.stream.weights[..s[0].next])| < |Bs(cfg.stream)|
  {
    ReachableInv(cfg, s);
    var k := s[0];
    assert RankInv(cfg, PlanOf(cfg.stream), 0, k);
    ReopenedBefore(cfg.stream, k.next, k.announced, k.filling, k.offset);
  }

  /** What a rank in a stuck state has, if its predecessor announced a buckets and no more. */
  lemma StarvedRank(cfg: Config, p: Plan, s: State, r: nat)
    requires PlanOk(cfg, p) && Inv(cfg, p, s) && Stuck(cfg, s) && 0 < r < |s|
    requires 1 <= s[r - 1].announced < |p.buckets|
    ensures s[r].pc.NextMeta? && s[r].announced == s[r - 1].announced && s[r].out == p.outs[s[r].announced - 1]
  {
    assert !Enabled(cfg, s, Advance(r)) && RankInv(cfg, p, r, s[r]);
    assert Link(p, s[r - 1], s[r - 1 + 1]);
    StuckNoRead(cfg, p, s, r);
    StuckNotWaiting(cfg, p, s, r);
    BlockedMeans(cfg, p, r, s[r]);
    AnnouncedOrStarted(cfg, p, r, s[r - 1], s[r]);
  }

  lemma AnnouncedOrStarted(cfg: Config, p: Plan, r: nat, a: Rank, k: Rank)
    requires r > 0 && Link(p, a, k) && RankInv(cfg, p, r, k) && !Active(k.xfer) && 1 <= a.announced < |p.buckets|
    requires || k.pc.Done?
             || ((k.pc.FirstMeta? || k.pc.NextMeta?) && k.started < |p.buckets|
                 && (k.inbox == [] || k.inbox[0].key.None? || k.inbox[0].descs.None?))
    ensures k.pc.NextMeta? && k.announced == k.started == a.announced && k.out == p.outs[k.announced - 1]
  {
  }

  lemma {:induction false} StarvedRanks(cfg: Config, p: Plan, s: State, r: nat)
    requires PlanOk(cfg, p) && Inv(cfg, p, s) && Stuck(cfg, s) && 0 < r < |s|
    requires 1 <= s[0].announced < |p.buckets|
    ensures s[r].pc.NextMeta? && s[r].announced == s[0].announced && s[r].out == p.outs[s[0].announced - 1]
  {
    if r > 1 {
      StarvedRanks(cfg, p, s, r - 1);
    }
    StarvedRank(cfg, p, s, r);
  }

  /** With an oversize weight a run that cannot be extended leaves every rollout rank waiting for metadata: it has
      yielded all buckets of the weights before the first oversize one, except the last of them. */
  lemma {:induction false} OversizeStarves(cfg: Config, s: State, r: nat)
    requires ValidChain(cfg) && Reachable(cfg, s) && Stuck(cfg, s) && 0 < r < |s|
    requires !AllFit(cfg.stream.size, cfg.stream.weights)
    ensures s[r].pc.NextMeta? && s[0].next < |cfg.stream.weights|
    ensures var bs := Buckets(cfg.stream.size, cfg.stream.weights[..s[0].next]); s[r].out == ReadableAll(bs[..|bs| - 1])
  {
    FailsIffOversize(cfg, s);
    FailsAtFirstOversize(cfg, s);
    ReachableInv(cfg, s);
    var k := s[0];
    assert RankInv(cfg, PlanOf(cfg.stream), 0, k);
    StarvedRanks(cfg, PlanOf(cfg.stream), s, r);
    OutsBefore(cfg.stream, k.next);
  }
}
