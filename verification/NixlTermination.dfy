/** Every run of the NIXL chain is finite: each action uses up part of a budget that depends only
    on the configuration. */
module NixlTermination {
  import opened Arithmetic
  import opened NixlChain
  import opened NixlInvariant
  import opened BucketPlan
  import opened NixlPreservation
  import opened NixlTheorems
  import opened Wrappers

  function PcRank(pc: Pc): nat {
    match pc
    case Filling => 8
    case AwaitFlush => 7
    case Flush => 6
    case Storing => 5
    case AwaitLast => 3
    case AnnounceLast => 2
    case AwaitFinal => 1
    case FirstMeta => 6
    case FirstRead => 5
    case LoopHead => 1
    case NextMeta => 6
    case Yielding(_) => 5
    case AwaitNext => 4
    case AwaitRead => 3
    case YieldingLast(_) => 2
    case AwaitLastRead => 1
    case Done | Failed => 0
  }

  /** Bytes (and the completion) a pending read still has to go through. */
  function ReadWork(cfg: Config, x: Option<Transfer>): int {
    if x.Some? && !x.value.done then cfg.stream.size + 1 - |x.value.copied| else 0
  }

  /** What one rank still has to do. */
  function Work(cfg: Config, n: nat, items: nat, k: Rank): int {
    5 * Left(|cfg.stream.weights|, k.next) + 8 * (n - k.announced) + (items - |k.out|)
    + (cfg.stream.size + 2) * (n - k.started) + ReadWork(cfg, k.xfer) + PcRank(k.pc)
  }

  function TotalWork(cfg: Config, n: nat, items: nat, s: State): int {
    if s == [] then 0 else TotalWork(cfg, n, items, s[..|s| - 1]) + Work(cfg, n, items, s[|s| - 1])
  }

  /** The budget of a run: what all ranks have to do at the start. */
  function Budget(cfg: Config): int {
    TotalWork(cfg, |Bs(cfg.stream)|, |Delivered(cfg.stream)|, Init(cfg))
  }

  lemma CopiedInRange(cfg: Config, p: Plan, r: nat, k: Rank)
    requires RankInv(cfg, p, r, k)
    ensures k.xfer.Some? ==> |k.xfer.value.copied| <= cfg.stream.size
  {
    if k.xfer.Some? {
      RangeSize(k.xfer.value.copied, cfg.stream.size);
    }
  }

  lemma CountsInRange(cfg: Config, p: Plan, r: nat, k: Rank)
    requires RankInv(cfg, p, r, k)
    ensures k.announced <= |p.buckets| && k.started <= |p.buckets| && (r == 0 ==> k.out == [])
  {
  }

  lemma WorkLeft(cfg: Config, p: Plan, r: nat, k: Rank)
    requires BucketsOk(cfg.stream, p) && RankInv(cfg, p, r, k)
    ensures Work(cfg, |p.buckets|, |p.outs[|p.buckets|]|, k) >= 0
  {
    if r > 0 {
      OutIsPrefix(cfg, p, r, k);
    }
    CopiedInRange(cfg, p, r, k);
    CountsInRange(cfg, p, r, k);
    hide RankInv, BucketsOk;
    ProductNotNegative(cfg.stream.size + 2, |p.buckets| - k.started);
  }

  lemma {:induction false} TotalWorkLeft(cfg: Config, p: Plan, s: State)
    requires BucketsOk(cfg.stream, p) && forall r :: 0 <= r < |s| ==> RankInv(cfg, p, r, s[r])
    ensures TotalWork(cfg, |p.buckets|, |p.outs[|p.buckets|]|, s) >= 0
  {
    if s != [] {
      WorkLeft(cfg, p, |s| - 1, s[|s| - 1]);
      TotalWorkLeft(cfg, p, s[..|s| - 1]);
    }
  }

  lemma {:induction false} TotalWorkSplit(cfg: Config, n: nat, items: nat, s: State, s': State, r: nat)
    requires |s| == |s'| && forall q :: 0 <= q < |s| && q != r ==>
               Work(cfg, n, items, s'[q]) == Work(cfg, n, items, s[q])
    requires r < |s| ==> Work(cfg, n, items, s'[r]) < Work(cfg, n, items, s[r])
    ensures TotalWork(cfg, n, items, s') <= TotalWork(cfg, n, items, s) - (if r < |s| then 1 else 0)
  {
    if s != [] {
      TotalWorkSplit(cfg, n, items, s[..|s| - 1], s'[..|s| - 1], r);
    }
  }

  lemma LocalWork(cfg: Config, n: nat, items: nat, r: nat, k: Rank)
    requires CanAdvance(cfg, r, k) && (k.pc.FirstMeta? || k.pc.NextMeta? ==> !Active(k.xfer))
    ensures Work(cfg, n, items, Local(cfg, r, k).0) < Work(cfg, n, items, k)
  {
    var k' := Local(cfg, r, k).0;
    if k'.started == k.started + 1 {
      assert (cfg.stream.size + 2) * (n - k'.started) == (cfg.stream.size + 2) * (n - k.started) - (cfg.stream.size + 2);
    }
  }

  /** Mail and notifications of other ranks do not count; only the acting rank's work drops. */
  lemma ActorWorks(cfg: Config, n: nat, items: nat, s: State, a: Action)
    requires Enabled(cfg, s, a) && (Active(s[a.rank].xfer) ==> |s[a.rank].xfer.value.copied| <= cfg.stream.size)
    requires a.Advance? && (s[a.rank].pc.FirstMeta? || s[a.rank].pc.NextMeta?) ==> !Active(s[a.rank].xfer)
    ensures TotalWork(cfg, n, items, Apply(cfg, s, a)) < TotalWork(cfg, n, items, s)
  {
    if a.Advance? {
      LocalWork(cfg, n, items, a.rank, s[a.rank]);
    }
    TotalWorkSplit(cfg, n, items, s, Apply(cfg, s, a), a.rank);
  }

  lemma {:induction false} StepWork(cfg: Config, p: Plan, s: State, a: Action)
    requires PlanOk(cfg, p) && Inv(cfg, p, s) && Enabled(cfg, s, a)
    ensures var n, items := |p.buckets|, |p.outs[|p.buckets|]|;
            TotalWork(cfg, n, items, Apply(cfg, s, a)) < TotalWork(cfg, n, items, s)
  {
    assert RankInv(cfg, p, a.rank, s[a.rank]);
    if Active(s[a.rank].xfer) {
      ReadSource(cfg, p, s, a.rank);
      CopiedInRange(cfg, p, a.rank, s[a.rank]);
    }
    ActorWorks(cfg, |p.buckets|, |p.outs[|p.buckets|]|, s, a);
  }

  lemma {:induction false} RunWork(cfg: Config, p: Plan, s: State, run: seq<Action>)
    requires PlanOk(cfg, p) && Inv(cfg, p, s) && IsRun(cfg, s, run)
    ensures |run| <= TotalWork(cfg, |p.buckets|, |p.outs[|p.buckets|]|, s)
    decreases |run|
  {
    if run == [] {
      TotalWorkLeft(cfg, p, s);
    } else {
      StepWork(cfg, p, s, run[0]);
      StepKeeps(cfg, p, s, run[0]);
      RunWork(cfg, p, Apply(cfg, s, run[0]), run[1..]);
    }
  }

  /** No run is longer than the budget. */
  lemma ChainTerminates(cfg: Config, run: seq<Action>)
    requires ValidChain(cfg) && IsRun(cfg, Init(cfg), run)
    ensures |run| <= Budget(cfg)
  {
    PlanIsOk(cfg.stream);
    PlanBuckets(cfg.stream);
    InitInv(cfg, PlanOf(cfg.stream));
    RunWork(cfg, PlanOf(cfg.stream), Init(cfg), run);
  }
}
