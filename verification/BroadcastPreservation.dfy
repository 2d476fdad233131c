/** Every step of the broadcast engine keeps the invariant. */
module BroadcastPreservation {
  import opened Packing
  import opened BucketPlan
  import opened BroadcastEngine
  import opened BroadcastInvariant
  import opened Wrappers

  // ---------------------------------------------------------------- rank 0's own steps

  lemma RootChoosesKeeps(st: Stream, p: Plan, k: Root)
    requires FlushOk(st, p) && RootInv(st, p, k) && CanRootAdvance(st, k) && !k.pc.Storing?
    ensures RootInv(st, p, RootLocal(st, k))
  {
  }

  lemma StoringFits(st: Stream, p: Plan, k: Root)
    requires FlushOk(st, p) && RootInv(st, p, k) && k.pc.Storing?
    ensures !p.overflows(k.next) ==> k.offset + |st.weights[k.next].data| <= st.size
  {
  }

  lemma RootStoresKeeps(st: Stream, p: Plan, k: Root)
    requires StoreOk(st, p) && RootInv(st, p, k) && k.pc.Storing? && CanRootAdvance(st, k)
    requires !p.overflows(k.next) ==> k.offset + |st.weights[k.next].data| <= st.size
    ensures RootInv(st, p, RootLocal(st, k))
  {
    assert Stores(st, p, k.next, k.started, k.filling, k.offset, k.bufs[k.send]);
    var k' := RootLocal(st, k);
    if k'.pc.Filling? {
      assert k'.bufs[1 - k.send] == k.bufs[1 - k.send];
      assert Filled(p, k');
    }
  }

  /** The operation rank 0 has outstanding is always on a buffer it is not filling. */
  lemma RootSlot(st: Stream, p: Plan, k: Root)
    requires RootInv(st, p, k) && k.op.Some?
    ensures 1 <= k.started <= |p.buckets| && k.op.value.slot < 2 && |k.bufs[k.op.value.slot]| == st.size
    ensures k.op.value.content == p.buckets[k.started - 1]
    ensures p.carries(k.started - 1, k.bufs[k.op.value.slot])
    ensures k.pc.Filling? || k.pc.Storing? ==> k.op.value.slot == 1 - k.send
  {
  }

  lemma RootAdvanceLink(st: Stream, p: Plan, root: Root, k: Receiver)
    requires RootInv(st, p, root) && CanRootAdvance(st, root) && Link(st, p, root, k)
    ensures Link(st, p, RootLocal(st, root), k)
  {
    if root.pc.Storing? && root.op.Some? {
      RootSlot(st, p, root);
    }
  }

  lemma RootAdvanceKeeps(st: Stream, p: Plan, s: State)
    requires FlushOk(st, p) && StoreOk(st, p) && Inv(st, p, s) && Enabled(st, s, RootAdvance)
    ensures Inv(st, p, Apply(st, s, RootAdvance))
  {
    if s.root.pc.Storing? {
      StoringFits(st, p, s.root);
      RootStoresKeeps(st, p, s.root);
    } else {
      RootChoosesKeeps(st, p, s.root);
    }
    forall r | 0 <= r < |s.receivers|
      ensures Link(st, p, RootLocal(st, s.root), s.receivers[r])
    {
      RootAdvanceLink(st, p, s.root, s.receivers[r]);
    }
  }

  // ---------------------------------------------------------------- rank 0's thread

  lemma StageKeeps(st: Stream, p: Plan, k: Root, stage: Stage)
    requires RootInv(st, p, k) && k.op.Some?
    ensures RootInv(st, p, k.(op := Some(k.op.value.(stage := stage))))
  {
  }

  lemma PublishLink(st: Stream, p: Plan, root: Root, k: Receiver)
    requires RootInv(st, p, root) && root.op.Some? && root.op.value.stage.Queued? && Link(st, p, root, k)
    ensures Link(st, p, root.(op := Some(root.op.value.(stage := Running))),
                 k.(inbox := k.inbox + [root.op.value.content]))
  {
    RootSlot(st, p, root);
  }

  lemma MailboxFrame(st: Stream, p: Plan, k: Receiver, inbox: seq<Bucket>)
    requires ReceiverInv(st, p, k)
    ensures ReceiverInv(st, p, k.(inbox := inbox))
  {
  }

  lemma {:induction false} RootPublishKeeps(st: Stream, p: Plan, s: State)
    requires Inv(st, p, s) && Enabled(st, s, RootPublish)
    ensures Inv(st, p, Apply(st, s, RootPublish))
  {
    StageKeeps(st, p, s.root, Running);
    forall r | 0 <= r < |s.receivers|
      ensures ReceiverInv(st, p, s.receivers[r].(inbox := s.receivers[r].inbox + [s.root.op.value.content]))
      ensures Link(st, p, s.root.(op := Some(s.root.op.value.(stage := Running))),
                   s.receivers[r].(inbox := s.receivers[r].inbox + [s.root.op.value.content]))
    {
      PublishLink(st, p, s.root, s.receivers[r]);
      MailboxFrame(st, p, s.receivers[r], s.receivers[r].inbox + [s.root.op.value.content]);
    }
  }

  lemma FinishLink(st: Stream, p: Plan, root: Root, k: Receiver)
    requires root.op.Some? && root.op.value.stage.Running? && Link(st, p, root, k) && GotAll(st, k, root.started)
    ensures Link(st, p, root.(op := Some(root.op.value.(stage := Finished))), k)
  {
  }

  lemma RootFinishKeeps(st: Stream, p: Plan, s: State)
    requires Inv(st, p, s) && Enabled(st, s, RootFinish)
    ensures Inv(st, p, Apply(st, s, RootFinish))
  {
    StageKeeps(st, p, s.root, Finished);
    forall r | 0 <= r < |s.receivers|
      ensures Link(st, p, s.root.(op := Some(s.root.op.value.(stage := Finished))), s.receivers[r])
    {
      FinishLink(st, p, s.root, s.receivers[r]);
    }
  }

  // ---------------------------------------------------------------- receivers

  lemma ReceiverAdvanceKeeps(st: Stream, p: Plan, k: Receiver)
    requires BucketsOk(st, p) && ReceiverInv(st, p, k) && CanAdvance(k) && !k.pc.Yielding? && !k.pc.YieldingLast?
    ensures ReceiverInv(st, p, Local(k))
  {
    if k.pc.LoopHead? {
      assert p.readable[k.posted - 1][..0] == [];
    }
  }

  lemma YieldKeeps(st: Stream, p: Plan, k: Receiver)
    requires BucketsOk(st, p) && ReadsOk(p) && ReceiverInv(st, p, k) && CanAdvance(k)
    requires k.pc.Yielding? || k.pc.YieldingLast?
    ensures ReceiverInv(st, p, Local(k))
  {
    var j := if k.pc.Yielding? then k.posted - 2 else k.posted - 1;
    var i := k.pc.k;
    var b := p.readable[j];
    if i < |k.content.metas| {
      assert ReadsBack(p, j, k.bufs[k.send], i);
      assert b[..i + 1] == b[..i] + [b[i]];
    } else {
      assert b[..i] == b;
    }
  }

  lemma AdvanceLink(st: Stream, p: Plan, root: Root, k: Receiver)
    requires ReceiverInv(st, p, k) && CanAdvance(k) && Link(st, p, root, k)
    ensures Link(st, p, root, Local(k))
  {
  }

  /** A receiver about to take metadata takes that of the broadcast rank 0 is running. */
  lemma TakesRunning(st: Stream, p: Plan, root: Root, k: Receiver)
    requires RootInv(st, p, root) && ReceiverInv(st, p, k) && Link(st, p, root, k)
    requires k.op.Some? && k.op.value.stage.Queued? && k.inbox != []
    ensures root.op.Some? && root.op.value.stage.Running? && root.started == k.taken + 1 == k.posted
    ensures k.inbox == [p.buckets[k.taken]]
  {
  }

  lemma TakeKeeps(st: Stream, p: Plan, root: Root, k: Receiver)
    requires RootInv(st, p, root) && ReceiverInv(st, p, k) && Link(st, p, root, k)
    requires k.op.Some? && k.op.value.stage.Queued? && k.inbox != []
    ensures ReceiverInv(st, p, Taken(k)) && Link(st, p, root, Taken(k))
  {
    TakesRunning(st, p, root, k);
    RootSlot(st, p, root);
    var slot := 1 - k.send;
    if st.size == 0 {
      assert k.bufs[slot] == root.bufs[root.op.value.slot];
    } else {
      assert 0 !in Taken(k).op.value.copied;
    }
  }

  lemma AgreeEverywhere(copied: set<nat>, source: seq<byte>, target: seq<byte>)
    requires Agree(copied, source, target) && forall at: nat :: at < |target| ==> at in copied
    ensures source == target
  {
  }

  lemma CopyKeepsReceiver(st: Stream, p: Plan, root: Root, k: Receiver, at: nat)
    requires RootInv(st, p, root) && ReceiverInv(st, p, k) && Meeting(root, k) && CopyAgrees(root, k)
    requires at < st.size && root.op.value.slot < |root.bufs| && at < |root.bufs[root.op.value.slot]|
    requires k.op.value.slot < |k.bufs| && at < |k.bufs[k.op.value.slot]|
    ensures ReceiverInv(st, p, Copied(k, at, root.bufs[root.op.value.slot][at]))
    ensures CopyAgrees(root, Copied(k, at, root.bufs[root.op.value.slot][at]))
  {
    RootSlot(st, p, root);
    var k' := Copied(k, at, root.bufs[root.op.value.slot][at]);
    if AllCopied(st, k'.op.value) {
      AgreeEverywhere(k'.op.value.copied, root.bufs[root.op.value.slot], k'.bufs[k.op.value.slot]);
    }
  }

  lemma CloseKeeps(st: Stream, p: Plan, root: Root, k: Receiver)
    requires ReceiverInv(st, p, k) && Link(st, p, root, k)
    requires k.op.Some? && k.op.value.stage.Running? && AllCopied(st, k.op.value)
    ensures ReceiverInv(st, p, Closed(k)) && Link(st, p, root, Closed(k))
  {
  }

  lemma AdvanceKeeps(st: Stream, p: Plan, root: Root, k: Receiver)
    requires BucketsOk(st, p) && ReadsOk(p) && ReceiverInv(st, p, k) && CanAdvance(k) && Link(st, p, root, k)
    ensures ReceiverInv(st, p, Local(k)) && Link(st, p, root, Local(k))
  {
    if k.pc.Yielding? || k.pc.YieldingLast? {
      YieldKeeps(st, p, k);
    } else {
      ReceiverAdvanceKeeps(st, p, k);
    }
    AdvanceLink(st, p, root, k);
  }

  lemma CopyKeeps(st: Stream, p: Plan, root: Root, k: Receiver, at: nat)
    requires RootInv(st, p, root) && ReceiverInv(st, p, k) && Link(st, p, root, k) && Meeting(root, k)
    requires at < st.size && root.op.value.slot < |root.bufs| && at < |root.bufs[root.op.value.slot]|
    requires k.op.value.slot < |k.bufs| && at < |k.bufs[k.op.value.slot]|
    ensures var k' := Copied(k, at, root.bufs[root.op.value.slot][at]);
            ReceiverInv(st, p, k') && Link(st, p, root, k')
  {
    CopyKeepsReceiver(st, p, root, k, at);
  }

  lemma ReplaceKeeps(st: Stream, p: Plan, s: State, r: nat, k: Receiver)
    requires Inv(st, p, s) && r < |s.receivers| && ReceiverInv(st, p, k) && Link(st, p, s.root, k)
    ensures Inv(st, p, s.(receivers := s.receivers[r := k]))
  {
  }

  lemma ReceiverKeeps(st: Stream, p: Plan, s: State, a: Action)
    requires BucketsOk(st, p) && ReadsOk(p) && Inv(st, p, s) && Enabled(st, s, a)
    requires !a.RootAdvance? && !a.RootPublish? && !a.RootFinish?
    ensures Inv(st, p, Apply(st, s, a))
  {
    var r := a.rank;
    var k := s.receivers[r];
    match a {
      case Advance(_) =>
        AdvanceKeeps(st, p, s.root, k);
        ReplaceKeeps(st, p, s, r, Local(k));
      case TakeMetadata(_) =>
        TakeKeeps(st, p, s.root, k);
        ReplaceKeeps(st, p, s, r, Taken(k));
      case CopyByte(_, at) =>
        CopyKeeps(st, p, s.root, k, at);
        ReplaceKeeps(st, p, s, r, Copied(k, at, s.root.bufs[s.root.op.value.slot][at]));
      case Finish(_) =>
        CloseKeeps(st, p, s.root, k);
        ReplaceKeeps(st, p, s, r, Closed(k));
    }
  }

  // ---------------------------------------------------------------- all steps

  lemma InitInv(st: Stream, p: Plan, ranks: nat)
    requires PlanMeets(st, p)
    ensures Inv(st, p, Init(st, ranks))
  {
  }

  lemma StepKeeps(st: Stream, p: Plan, s: State, a: Action)
    requires PlanMeets(st, p) && Inv(st, p, s) && Enabled(st, s, a)
    ensures Inv(st, p, Apply(st, s, a))
  {
    match a {
      case RootAdvance => RootAdvanceKeeps(st, p, s);
      case RootPublish => RootPublishKeeps(st, p, s);
      case RootFinish => RootFinishKeeps(st, p, s);
      case _ => ReceiverKeeps(st, p, s, a);
    }
  }

  lemma {:induction false} RunKeeps(st: Stream, p: Plan, s: State, run: seq<Action>)
    requires PlanMeets(st, p) && Inv(st, p, s) && IsRun(st, s, run)
    ensures Inv(st, p, Exec(st, s, run))
    decreases |run|
  {
    if run != [] {
      StepKeeps(st, p, s, run[0]);
      RunKeeps(st, p, Apply(st, s, run[0]), run[1..]);
    }
  }
}
