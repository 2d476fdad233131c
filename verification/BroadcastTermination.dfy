/** Every run of the broadcast engine is finite: each action uses up part of a budget that depends
    only on the stream and the number of receivers. */
module BroadcastTermination {
  import opened Arithmetic
  import opened BucketPlan
  import opened BroadcastEngine
  import opened BroadcastInvariant
  import opened BroadcastPreservation
  import opened BroadcastTheorems
  import opened Wrappers

  function RootPcRank(pc: RootPc): nat {
    match pc
    case Filling => 8
    case AwaitFlush => 7
    case Flush => 6
    case Storing => 5
    case AwaitLast => 3
    case AnnounceLast => 2
    case AwaitFinal => 1
    case RootDone | Failed => 0
  }

  function PcRank(pc: Pc): nat {
    match pc
    case Start => 6
    case Yielding(_) => 5
    case AwaitFirst | AwaitNext => 4
    case LoopHead => 3
    case YieldingLast(_) => 2
    case Done => 0
  }

  function StageRank(op: Option<RootOp>): nat {
    if op.None? then 0
    else
      match op.value.stage
      case Queued => 2
      case Running => 1
      case Finished => 0
  }

  /** What rank 0 still has to do: weights to pack, broadcasts to start, its pending broadcast. */
  function RootWork(st: Stream, n: nat, k: Root): int {
    5 * Left(|st.weights|, k.next) + 2 * (n - k.started) + StageRank(k.op) + RootPcRank(k.pc)
  }

  /** Bytes (and two steps) a pending operation still has to go through. */
  function OpWork(st: Stream, op: Option<RecvOp>): int {
    if op.None? then 0
    else
      match op.value.stage
      case Queued => st.size + 2
      case Running => st.size + 1 - |op.value.copied|
      case Finished => 0
  }

  function ReceiverWork(st: Stream, n: nat, items: nat, k: Receiver): int {
    (st.size + 5) * (n - k.posted) + OpWork(st, k.op) + (items - |k.out|) + PcRank(k.pc)
  }

  function ReceiversWork(st: Stream, n: nat, items: nat, ks: seq<Receiver>): int {
    if ks == [] then 0 else ReceiversWork(st, n, items, ks[..|ks| - 1]) + ReceiverWork(st, n, items, ks[|ks| - 1])
  }

  function TotalWork(st: Stream, n: nat, items: nat, s: State): int {
    RootWork(st, n, s.root) + ReceiversWork(st, n, items, s.receivers)
  }

  /** The budget of a run: what everybody has to do at the start. */
  function Budget(st: Stream, ranks: nat): int {
    TotalWork(st, |Bs(st)|, |Delivered(st)|, Init(st, ranks))
  }

  // ---------------------------------------------------------------- copied bytes are bytes of the bucket

  ghost predicate CopiesBytes(st: Stream, op: Option<RecvOp>) {
    op.Some? ==> forall i :: i in op.value.copied ==> i < st.size
  }

  ghost predicate AllCopyBytes(st: Stream, s: State) {
    forall r :: 0 <= r < |s.receivers| ==> CopiesBytes(st, s.receivers[r].op)
  }

  lemma StepCopiesBytes(st: Stream, s: State, a: Action)
    requires AllCopyBytes(st, s) && Enabled(st, s, a)
    ensures AllCopyBytes(st, Apply(st, s, a))
  {
    if a.Advance? {
      LocalCopiesBytes(st, s.receivers[a.rank]);
    }
  }

  lemma LocalCopiesBytes(st: Stream, k: Receiver)
    requires CopiesBytes(st, k.op) && CanAdvance(k)
    ensures CopiesBytes(st, Local(k).op)
  {
  }

  // ---------------------------------------------------------------- work is never negative

  lemma ReceiverWorkLeft(st: Stream, p: Plan, k: Receiver)
    requires BucketsOk(st, p) && ReceiverInv(st, p, k) && CopiesBytes(st, k.op)
    ensures ReceiverWork(st, |p.buckets|, |p.outs[|p.buckets|]|, k) >= 0
  {
    OutIsPrefix(st, p, k);
    PostedInRange(st, p, k);
    hide ReceiverInv, BucketsOk;
    if k.op.Some? {
      RangeSize(k.op.value.copied, st.size);
    }
    ProductNotNegative(st.size + 5, |p.buckets| - k.posted);
  }

  lemma PostedInRange(st: Stream, p: Plan, k: Receiver)
    requires ReceiverInv(st, p, k)
    ensures k.posted <= |p.buckets|
  {
  }

  lemma {:induction false} ReceiversWorkLeft(st: Stream, p: Plan, ks: seq<Receiver>)
    requires BucketsOk(st, p)
    requires forall r :: 0 <= r < |ks| ==> ReceiverInv(st, p, ks[r]) && CopiesBytes(st, ks[r].op)
    ensures ReceiversWork(st, |p.buckets|, |p.outs[|p.buckets|]|, ks) >= 0
  {
    if ks != [] {
      hide ReceiverInv, BucketsOk;
      ReceiverWorkLeft(st, p, ks[|ks| - 1]);
      ReceiversWorkLeft(st, p, ks[..|ks| - 1]);
    }
  }

  lemma RootWorkLeft(st: Stream, p: Plan, k: Root)
    requires RootInv(st, p, k)
    ensures RootWork(st, |p.buckets|, k) >= 0
  {
  }

  // ---------------------------------------------------------------- every step uses up work

  lemma RootLocalWork(st: Stream, n: nat, k: Root)
    requires CanRootAdvance(st, k)
    ensures RootWork(st, n, RootLocal(st, k)) < RootWork(st, n, k)
  {
  }

  lemma LocalWork(st: Stream, n: nat, items: nat, k: Receiver)
    requires CanAdvance(k) && (k.pc.Start? || k.pc.LoopHead? ==> k.op.None?)
    ensures ReceiverWork(st, n, items, Local(k)) < ReceiverWork(st, n, items, k)
  {
    var k' := Local(k);
    if k'.posted == k.posted + 1 {
      assert (st.size + 5) * (n - k'.posted) == (st.size + 5) * (n - k.posted) - (st.size + 5);
    }
  }

  lemma {:induction false} ReceiversWorkSplit(st: Stream, n: nat, items: nat, ks: seq<Receiver>,
                                              ks': seq<Receiver>, r: nat)
    requires |ks| == |ks'| && forall q :: 0 <= q < |ks| && q != r ==>
               ReceiverWork(st, n, items, ks'[q]) == ReceiverWork(st, n, items, ks[q])
    requires r < |ks| ==> ReceiverWork(st, n, items, ks'[r]) < ReceiverWork(st, n, items, ks[r])
    ensures ReceiversWork(st, n, items, ks') <= ReceiversWork(st, n, items, ks) - (if r < |ks| then 1 else 0)
  {
    if ks != [] {
      hide ReceiverWork;
      ReceiversWorkSplit(st, n, items, ks[..|ks| - 1], ks'[..|ks| - 1], r);
    }
  }

  lemma RootStepWork(st: Stream, n: nat, items: nat, s: State, a: Action)
    requires Enabled(st, s, a) && (a.RootAdvance? || a.RootPublish? || a.RootFinish?)
    ensures TotalWork(st, n, items, Apply(st, s, a)) < TotalWork(st, n, items, s)
  {
    if a.RootAdvance? {
      RootLocalWork(st, n, s.root);
    }
    ReceiversWorkSplit(st, n, items, s.receivers, Apply(st, s, a).receivers, |s.receivers|);
  }

  lemma ReceiverStepWork(st: Stream, p: Plan, n: nat, items: nat, s: State, a: Action)
    requires Enabled(st, s, a) && !(a.RootAdvance? || a.RootPublish? || a.RootFinish?)
    requires ReceiverInv(st, p, s.receivers[a.rank]) && CopiesBytes(st, s.receivers[a.rank].op)
    ensures TotalWork(st, n, items, Apply(st, s, a)) < TotalWork(st, n, items, s)
  {
    hide ReceiverInv, ReceiverWork;
    ActionWork(st, p, n, items, s, a);
    ReceiversWorkSplit(st, n, items, s.receivers, Apply(st, s, a).receivers, a.rank);
  }

  lemma ActionWork(st: Stream, p: Plan, n: nat, items: nat, s: State, a: Action)
    requires Enabled(st, s, a) && !(a.RootAdvance? || a.RootPublish? || a.RootFinish?)
    requires ReceiverInv(st, p, s.receivers[a.rank]) && CopiesBytes(st, s.receivers[a.rank].op)
    ensures ReceiverWork(st, n, items, Apply(st, s, a).receivers[a.rank])
          < ReceiverWork(st, n, items, s.receivers[a.rank])
  {
    var k := s.receivers[a.rank];
    IdleWhenPosting(st, p, k);
    hide ReceiverInv;
    if a.Advance? {
      LocalWork(st, n, items, k);
    } else {
      RangeSize(k.op.value.copied, st.size);
    }
  }

  lemma IdleWhenPosting(st: Stream, p: Plan, k: Receiver)
    requires ReceiverInv(st, p, k)
    ensures k.pc.Start? || k.pc.LoopHead? ==> k.op.None?
    ensures k.op.Some? && k.op.value.stage.Queued? ==> k.op.value.copied == {}
  {
  }

  lemma StepWork(st: Stream, p: Plan, s: State, a: Action)
    requires Inv(st, p, s) && AllCopyBytes(st, s) && Enabled(st, s, a) && |p.outs| > |p.buckets|
    ensures var n, items := |p.buckets|, |p.outs[|p.buckets|]|;
            TotalWork(st, n, items, Apply(st, s, a)) < TotalWork(st, n, items, s)
  {
    hide RootInv, ReceiverInv, Link;
    if a.RootAdvance? || a.RootPublish? || a.RootFinish? {
      RootStepWork(st, |p.buckets|, |p.outs[|p.buckets|]|, s, a);
    } else {
      ReceiverStepWork(st, p, |p.buckets|, |p.outs[|p.buckets|]|, s, a);
    }
  }

  lemma {:induction false} RunWork(st: Stream, p: Plan, s: State, run: seq<Action>)
    requires PlanMeets(st, p) && Inv(st, p, s) && AllCopyBytes(st, s) && IsRun(st, s, run)
    ensures |run| <= TotalWork(st, |p.buckets|, |p.outs[|p.buckets|]|, s)
    decreases |run|
  {
    if run == [] {
      hide RootInv, ReceiverInv, Link;
      RootWorkLeft(st, p, s.root);
      ReceiversWorkLeft(st, p, s.receivers);
    } else {
      hide Inv, TotalWork, AllCopyBytes;
      StepWork(st, p, s, run[0]);
      StepKeeps(st, p, s, run[0]);
      StepCopiesBytes(st, s, run[0]);
      RunWork(st, p, Apply(st, s, run[0]), run[1..]);
    }
  }

  /** No run is longer than the budget. */
  lemma {:induction false} BroadcastTerminates(st: Stream, ranks: nat, run: seq<Action>)
    requires Valid(st) && IsRun(st, Init(st, ranks), run)
    ensures |run| <= Budget(st, ranks)
  {
    PlanIsOk(st);
    PlanBuckets(st);
    InitInv(st, PlanOf(st), ranks);
    RunWork(st, PlanOf(st), Init(st, ranks), run);
  }
}
