/** Every step of the NIXL chain keeps the invariant. */
module NixlPreservation {
  import opened Packing
  import opened BucketPlan
  import opened NixlChain
  import opened NixlInvariant
  import opened Wrappers

  // ---------------------------------------------------------------- the sender's steps

  lemma SenderChoosesKeeps(cfg: Config, p: Plan, k: Rank)
    requires FlushOk(cfg.stream, p) && RankInv(cfg, p, 0, k) && k.pc.Filling?
    ensures RankInv(cfg, p, 0, Local(cfg, 0, k).0)
  {
  }

  lemma SenderFlushKeeps(cfg: Config, p: Plan, k: Rank)
    requires FlushOk(cfg.stream, p) && cfg.ranks >= 2 && RankInv(cfg, p, 0, k) && k.pc.Flush?
    ensures RankInv(cfg, p, 0, Local(cfg, 0, k).0)
    ensures k.announced < |p.buckets|
    ensures Local(cfg, 0, k).1 == [Message(Local(cfg, 0, k).0.op.value, Plain(p.buckets[k.announced]))]
  {
  }

  lemma StoringFits(cfg: Config, p: Plan, k: Rank)
    requires FlushOk(cfg.stream, p) && RankInv(cfg, p, 0, k) && k.pc.Storing?
    ensures !p.overflows(k.next) ==> k.offset + |cfg.stream.weights[k.next].data| <= cfg.stream.size
  {
  }

  lemma SenderStoresKeeps(cfg: Config, p: Plan, k: Rank)
    requires StoreOk(cfg.stream, p) && RankInv(cfg, p, 0, k) && k.pc.Storing? && CanAdvance(cfg, 0, k)
    requires !p.overflows(k.next) ==> k.offset + |cfg.stream.weights[k.next].data| <= cfg.stream.size
    ensures RankInv(cfg, p, 0, Local(cfg, 0, k).0)
  {
    assert Stores(cfg.stream, p, k.next, k.announced, k.filling, k.offset, k.bufs[k.send]);
    var k' := Local(cfg, 0, k).0;
    if k'.pc.Filling? {
      assert k'.bufs[1 - k.send] == k.bufs[1 - k.send];
      assert Filled(p, k');
    }
  }

  lemma SenderLastKeeps(cfg: Config, p: Plan, k: Rank)
    requires FlushOk(cfg.stream, p) && cfg.ranks >= 2 && RankInv(cfg, p, 0, k) && k.pc.AnnounceLast?
    ensures RankInv(cfg, p, 0, Local(cfg, 0, k).0)
    ensures k.announced < |p.buckets|
    ensures Local(cfg, 0, k).1 == [Message(Local(cfg, 0, k).0.op.value, Plain(p.buckets[k.announced]))]
  {
  }

  // ---------------------------------------------------------------- waiting for a notification

  ghost predicate Waiting(k: Rank) {
    k.pc.AwaitFlush? || k.pc.AwaitLast? || k.pc.AwaitFinal? || k.pc.AwaitNext? || k.pc.AwaitLastRead?
  }

  /** The notification a rank takes always carries the key of its outstanding operation. */
  lemma NotificationMatches(cfg: Config, p: Plan, a: Rank, b: Rank)
    requires Link(p, a, b) && a.op.Some? && a.notifs != []
    ensures a.notifs == [a.op.value.key]
  {
  }

  lemma TakeNotificationKeeps(cfg: Config, p: Plan, r: nat, k: Rank)
    requires BucketsOk(cfg.stream, p) && RankInv(cfg, p, r, k) && Waiting(k) && CanAdvance(cfg, r, k)
    requires k.notifs == [k.op.value.key]
    ensures RankInv(cfg, p, r, Local(cfg, r, k).0)
  {
  }

  // ---------------------------------------------------------------- the receivers' steps

  lemma BeginReadKeeps(cfg: Config, p: Plan, r: nat, a: Rank, k: Rank)
    requires BucketsOk(cfg.stream, p) && r > 0 && RankInv(cfg, p, r, k) && Link(p, a, k)
    requires (k.pc.FirstMeta? || k.pc.NextMeta?) && CanAdvance(cfg, r, k)
    ensures RankInv(cfg, p, r, Local(cfg, r, k).0)
  {
    assert a.op.Some? && k.inbox == [Message(a.op.value, Plain(p.buckets[a.announced - 1]))];
    assert k.announced >= 1 ==> p.readable[k.announced - 1][..0] == [];
  }

  lemma BeginReadLink(cfg: Config, p: Plan, r: nat, a: Rank, k: Rank)
    requires Link(p, a, k) && Shape(cfg, p, k)
    requires OfferedSlot(a) < |a.bufs| && |a.bufs[OfferedSlot(a)]| == cfg.stream.size
    requires forall j :: 0 <= j < |p.buckets| ==> Plain(p.buckets[j]).key.None? && Plain(p.buckets[j]).descs.None?
    requires (k.pc.FirstMeta? || k.pc.NextMeta?) && CanAdvance(cfg, r, k)
    ensures Link(p, a, Local(cfg, r, k).0)
  {
    assert a.op.Some? && k.inbox == [Message(a.op.value, Plain(p.buckets[a.announced - 1]))];
    assert k.inbox[0].key == Some(a.op.value.key) && k.inbox[0].descs == Some(a.op.value.descs);
    assert Local(cfg, r, k).0.xfer == Some(Transfer(a.op.value.descs, 1 - k.send, a.op.value.key, {}, false));
  }

  function OfferedSlot(a: Rank): nat {
    if a.op.Some? then a.op.value.descs.slot else 0
  }

  lemma FinishReadKeeps(cfg: Config, p: Plan, r: nat, k: Rank)
    requires BucketsOk(cfg.stream, p) && r > 0 && RankInv(cfg, p, r, k)
    requires (k.pc.FirstRead? || k.pc.AwaitRead?) && CanAdvance(cfg, r, k)
    ensures RankInv(cfg, p, r, Local(cfg, r, k).0)
  {
    assert IsBucket(p, k.started - 1, k.nextMetadata, k.bufs[1 - k.send]);
  }

  lemma LoopHeadKeeps(cfg: Config, p: Plan, r: nat, k: Rank)
    requires BucketsOk(cfg.stream, p) && 0 < r < cfg.ranks && RankInv(cfg, p, r, k) && k.pc.LoopHead?
    ensures RankInv(cfg, p, r, Local(cfg, r, k).0)
    ensures HasNext(cfg, r) ==>
              Local(cfg, r, k).1 == [Message(Local(cfg, r, k).0.op.value, Plain(p.buckets[k.announced]))]
  {
    assert p.readable[k.announced][..0] == [];
  }

  lemma YieldKeeps(cfg: Config, p: Plan, r: nat, k: Rank)
    requires BucketsOk(cfg.stream, p) && ReadsOk(p) && 0 < r && RankInv(cfg, p, r, k)
    requires (k.pc.Yielding? || k.pc.YieldingLast?) && CanAdvance(cfg, r, k)
    ensures RankInv(cfg, p, r, Local(cfg, r, k).0)
  {
    var j := k.announced - 1;
    var i := k.pc.k;
    var b := p.readable[j];
    if i < |k.metadata.bucket| {
      assert ReadsBack(p, j, k.bufs[k.send], i);
      assert b[..i + 1] == b[..i] + [b[i]];
    } else {
      assert b[..i] == b;
    }
  }

  // ---------------------------------------------------------------- neighbours

  lemma OfferedBuffer(cfg: Config, p: Plan, r: nat, a: Rank)
    requires RankInv(cfg, p, r, a)
    ensures OfferedSlot(a) < |a.bufs| && |a.bufs[OfferedSlot(a)]| == cfg.stream.size
  {
  }

  lemma LinkFromPreviousQuiet(cfg: Config, p: Plan, r: nat, a: Rank, k: Rank)
    requires r > 0 && RankInv(cfg, p, r, k) && Link(p, a, k)
    requires CanAdvance(cfg, r, k) && !k.pc.FirstMeta? && !k.pc.NextMeta?
    ensures Link(p, a, Local(cfg, r, k).0)
  {
  }

  /** What an advance does to the link with the previous rank. */
  lemma LinkFromPrevious(cfg: Config, p: Plan, r: nat, a: Rank, k: Rank)
    requires BucketsOk(cfg.stream, p) && r > 0 && RankInv(cfg, p, r - 1, a) && RankInv(cfg, p, r, k) && Link(p, a, k)
    requires CanAdvance(cfg, r, k)
    ensures Link(p, a, Local(cfg, r, k).0)
  {
    if k.pc.FirstMeta? || k.pc.NextMeta? {
      OfferedBuffer(cfg, p, r - 1, a);
      BeginReadLink(cfg, p, r, a, k);
    } else {
      LinkFromPreviousQuiet(cfg, p, r, a, k);
    }
  }

  /** What announcing a bucket does to the link with the next rank. */
  lemma LinkAfterAnnounce(p: Plan, a: Rank, a': Rank, b: Rank, msgs: seq<Metadata>)
    requires Link(p, a, b) && a.op.None? && a.announced < |p.buckets|
    requires a'.op.Some? && a'.announced == a.announced + 1 && a'.notifs == a.notifs
    requires msgs == [Message(a'.op.value, Plain(p.buckets[a.announced]))]
    ensures Link(p, a', b.(inbox := b.inbox + msgs))
  {
  }

  /** What filling the other buffer does to the link with the next rank. */
  lemma LinkAfterStore(cfg: Config, p: Plan, k: Rank, b: Rank)
    requires RankInv(cfg, p, 0, k) && k.pc.Storing? && CanAdvance(cfg, 0, k) && Link(p, k, b)
    ensures Link(p, Local(cfg, 0, k).0, b)
  {
    var k' := Local(cfg, 0, k).0;
    assert k.op.Some? ==> k.op.value.descs.slot == 1 - k.send && k'.bufs[1 - k.send] == k.bufs[1 - k.send];
  }

  lemma LinkAfterNotification(cfg: Config, p: Plan, r: nat, k: Rank, b: Rank)
    requires Waiting(k) && CanAdvance(cfg, r, k) && Link(p, k, b)
    ensures Link(p, Local(cfg, r, k).0, b)
  {
  }

  /** What an advance does to the link with the next rank. */
  lemma LinkToNext(cfg: Config, p: Plan, r: nat, k: Rank, b: Rank)
    requires BucketsOk(cfg.stream, p) && FlushOk(cfg.stream, p) && HasNext(cfg, r)
    requires RankInv(cfg, p, r, k) && Link(p, k, b) && CanAdvance(cfg, r, k)
    ensures var (k', msgs) := Local(cfg, r, k); Link(p, k', b.(inbox := b.inbox + msgs))
  {
    hide Link;
    var (k', msgs) := Local(cfg, r, k);
    if k.pc.Flush? {
      SenderFlushKeeps(cfg, p, k);
      LinkAfterAnnounce(p, k, k', b, msgs);
    } else if k.pc.AnnounceLast? {
      SenderLastKeeps(cfg, p, k);
      LinkAfterAnnounce(p, k, k', b, msgs);
    } else if k.pc.LoopHead? {
      LoopHeadKeeps(cfg, p, r, k);
      LinkAfterAnnounce(p, k, k', b, msgs);
    } else {
      assert msgs == [] && b.inbox + msgs == b.inbox;
      if k.pc.Storing? {
        LinkAfterStore(cfg, p, k, b);
      } else if Waiting(k) {
        LinkAfterNotification(cfg, p, r, k, b);
      } else {
        LinkAfterQuietStep(cfg, p, r, k, b);
      }
    }
  }

  lemma LinkAfterQuietStep(cfg: Config, p: Plan, r: nat, k: Rank, b: Rank)
    requires CanAdvance(cfg, r, k) && Link(p, k, b)
    requires !Waiting(k) && !k.pc.Flush? && !k.pc.AnnounceLast? && !k.pc.LoopHead? && !k.pc.Storing?
    ensures Link(p, Local(cfg, r, k).0, b)
  {
  }

  lemma SenderAdvanceKeeps(cfg: Config, p: Plan, k: Rank)
    requires cfg.ranks >= 2 && FlushOk(cfg.stream, p) && StoreOk(cfg.stream, p)
    requires RankInv(cfg, p, 0, k) && CanAdvance(cfg, 0, k) && !Waiting(k)
    ensures RankInv(cfg, p, 0, Local(cfg, 0, k).0)
  {
    if k.pc.Filling? {
      SenderChoosesKeeps(cfg, p, k);
    } else if k.pc.Flush? {
      SenderFlushKeeps(cfg, p, k);
    } else if k.pc.Storing? {
      StoringFits(cfg, p, k);
      SenderStoresKeeps(cfg, p, k);
    } else {
      SenderLastKeeps(cfg, p, k);
    }
  }

  lemma ReceiverAdvanceKeeps(cfg: Config, p: Plan, r: nat, a: Rank, k: Rank)
    requires BucketsOk(cfg.stream, p) && ReadsOk(p) && 0 < r < cfg.ranks
    requires RankInv(cfg, p, r, k) && CanAdvance(cfg, r, k) && !Waiting(k) && Link(p, a, k)
    ensures RankInv(cfg, p, r, Local(cfg, r, k).0)
  {
    if k.pc.FirstMeta? || k.pc.NextMeta? {
      BeginReadKeeps(cfg, p, r, a, k);
    } else if k.pc.FirstRead? || k.pc.AwaitRead? {
      FinishReadKeeps(cfg, p, r, k);
    } else if k.pc.LoopHead? {
      LoopHeadKeeps(cfg, p, r, k);
    } else {
      YieldKeeps(cfg, p, r, k);
    }
  }

  lemma WaitingAdvanceKeeps(cfg: Config, p: Plan, r: nat, k: Rank, b: Rank)
    requires BucketsOk(cfg.stream, p) && RankInv(cfg, p, r, k) && CanAdvance(cfg, r, k) && Waiting(k) && Link(p, k, b)
    ensures RankInv(cfg, p, r, Local(cfg, r, k).0)
  {
    NotificationMatches(cfg, p, k, b);
    TakeNotificationKeeps(cfg, p, r, k);
  }

  lemma WaitingHasNext(cfg: Config, p: Plan, r: nat, k: Rank)
    requires RankInv(cfg, p, r, k) && Waiting(k)
    ensures HasNext(cfg, r)
  {
  }

  lemma AdvanceKeepsRank(cfg: Config, p: Plan, s: State, r: nat)
    requires PlanOk(cfg, p) && Inv(cfg, p, s) && r < |s| && CanAdvance(cfg, r, s[r])
    ensures RankInv(cfg, p, r, Local(cfg, r, s[r]).0)
  {
    hide RankInv, Link;
    assert RankInv(cfg, p, r, s[r]);
    if Waiting(s[r]) {
      WaitingHasNext(cfg, p, r, s[r]);
      assert Link(p, s[r], s[r + 1]);
      WaitingAdvanceKeeps(cfg, p, r, s[r], s[r + 1]);
    } else if r == 0 {
      SenderAdvanceKeeps(cfg, p, s[r]);
    } else {
      assert Link(p, s[r - 1], s[r - 1 + 1]);
      ReceiverAdvanceKeeps(cfg, p, r, s[r - 1], s[r]);
    }
  }

  /** Messages in a rank's mailbox are nobody else's business. */
  lemma MailboxFrame(cfg: Config, p: Plan, r: nat, b: Rank, c: Rank, inbox: seq<Metadata>)
    requires RankInv(cfg, p, r, b)
    ensures RankInv(cfg, p, r, b.(inbox := inbox))
    ensures Link(p, b, c) ==> Link(p, b.(inbox := inbox), c)
  {
  }

  /** Replacing one rank and feeding the next mailbox keeps the invariant if the touched rank and
      its two links do. */
  lemma DeliverKeepsRanks(cfg: Config, p: Plan, s: State, r: nat, k: Rank, msgs: seq<Metadata>)
    requires Inv(cfg, p, s) && r < |s| && RankInv(cfg, p, r, k)
    ensures forall q :: 0 <= q < |s| ==> RankInv(cfg, p, q, Deliver(s, r, k, msgs)[q])
  {
    hide RankInv, Link;
    if r + 1 < |s| {
      MailboxFrame(cfg, p, r + 1, s[r + 1], s[r + 1], s[r + 1].inbox + msgs);
    }
  }

  lemma DeliverKeepsLinks(cfg: Config, p: Plan, s: State, r: nat, k: Rank, msgs: seq<Metadata>)
    requires r < |s| && forall q :: 0 <= q < |s| - 1 ==> Link(p, s[q], s[q + 1])
    requires r > 0 ==> Link(p, s[r - 1], k)
    requires r + 1 < |s| ==> Link(p, k, s[r + 1].(inbox := s[r + 1].inbox + msgs))
    ensures var s' := Deliver(s, r, k, msgs); forall q :: 0 <= q < |s| - 1 ==> Link(p, s'[q], s'[q + 1])
  {
    var s' := Deliver(s, r, k, msgs);
    forall q | 0 <= q < |s| - 1
      ensures Link(p, s'[q], s'[q + 1])
    {
      assert Link(p, s[q], s[q + 1]);
    }
  }

  lemma {:induction false} AdvanceKeeps(cfg: Config, p: Plan, s: State, r: nat)
    requires PlanOk(cfg, p) && Inv(cfg, p, s) && Enabled(cfg, s, Advance(r))
    ensures Inv(cfg, p, Apply(cfg, s, Advance(r)))
  {
    hide RankInv, Link;
    AdvanceKeepsRank(cfg, p, s, r);
    if r > 0 {
      assert Link(p, s[r - 1], s[r - 1 + 1]);
      LinkFromPrevious(cfg, p, r, s[r - 1], s[r]);
    }
    if r + 1 < |s| {
      LinkToNext(cfg, p, r, s[r], s[r + 1]);
    }
    var (k, msgs) := Local(cfg, r, s[r]);
    DeliverKeepsRanks(cfg, p, s, r, k, msgs);
    DeliverKeepsLinks(cfg, p, s, r, k, msgs);
  }

  // ---------------------------------------------------------------- the network's steps

  /** A pending read is always from the previous rank's offered buffer. */
  lemma ReadSource(cfg: Config, p: Plan, s: State, r: nat)
    requires BucketsOk(cfg.stream, p) && Inv(cfg, p, s) && r < |s| && Active(s[r].xfer)
    ensures r > 0 && s[r - 1].op.Some? && s[r].started == s[r - 1].announced
    ensures Copying(s[r - 1].op.value, s[r - 1].bufs, s[r].xfer.value, s[r].bufs)
    ensures s[r].xfer.value.source.rank == r - 1
    ensures RankInv(cfg, p, r - 1, s[r - 1]) && p.carries(s[r].started - 1, s[r - 1].bufs[s[r].xfer.value.source.slot])
    ensures XferIn(cfg, p, s[r])
  {
    assert RankInv(cfg, p, r, s[r]);
    assert RankInv(cfg, p, r - 1, s[r - 1]);
    assert Link(p, s[r - 1], s[r - 1 + 1]);
  }

  lemma CopyKeepsRank(cfg: Config, p: Plan, r: nat, k: Rank, k': Rank)
    requires r > 0 && RankInv(cfg, p, r, k) && XferIn(cfg, p, k) && Active(k.xfer)
    requires k' == k.(bufs := k'.bufs, xfer := k'.xfer) && |k'.bufs| == 2
    requires |k'.bufs[1 - k.send]| == cfg.stream.size && k'.bufs[k.send] == k.bufs[k.send]
    requires Active(k'.xfer) && k'.xfer.value.target == 1 - k.send
    requires forall i :: i in k'.xfer.value.copied ==> i < cfg.stream.size
    ensures RankInv(cfg, p, r, k')
  {
  }

  /** Copying into the receive buffer does not touch the buffer offered to the next rank. */
  lemma CopyKeepsOffer(cfg: Config, p: Plan, r: nat, k: Rank, k': Rank, b: Rank)
    requires r > 0 && RankInv(cfg, p, r, k) && XferIn(cfg, p, k) && Active(k.xfer)
    requires k' == k.(bufs := k'.bufs, xfer := k'.xfer) && |k'.bufs| == 2
    requires k'.bufs[k.send] == k.bufs[k.send]
    requires Link(p, k, b)
    ensures Link(p, k', b)
  {
    assert k.op.Some? ==> k.op.value.descs.slot == k.send;
  }

  lemma LinkAfterCopy(p: Plan, a: Rank, k: Rank, i: nat, byte_: byte)
    requires Link(p, a, k) && Active(k.xfer) && Copying(a.op.value, a.bufs, k.xfer.value, k.bufs)
    requires i < |k.bufs[k.xfer.value.target]| && byte_ == a.bufs[k.xfer.value.source.slot][i]
    ensures var x := k.xfer.value;
            Link(p, a, k.(bufs := k.bufs[x.target := k.bufs[x.target][i := byte_]],
                          xfer := Some(x.(copied := x.copied + {i}))))
  {
  }

  lemma {:induction false} CopyKeeps(cfg: Config, p: Plan, s: State, r: nat, i: nat)
    requires BucketsOk(cfg.stream, p) && Inv(cfg, p, s) && Enabled(cfg, s, CopyByte(r, i))
    ensures Inv(cfg, p, Apply(cfg, s, CopyByte(r, i)))
  {
    ReadSource(cfg, p, s, r);
    var s' := Apply(cfg, s, CopyByte(r, i));
    CopyKeepsRank(cfg, p, r, s[r], s'[r]);
    assert Link(p, s[r - 1], s[r - 1 + 1]);
    LinkAfterCopy(p, s[r - 1], s[r], i, s[r - 1].bufs[s[r].xfer.value.source.slot][i]);
    if r + 1 < |s| {
      CopyKeepsOffer(cfg, p, r, s[r], s'[r], s[r + 1]);
    }
    ReplaceKeepsLinks(p, s, r, s'[r]);
  }

  lemma ReplaceKeepsLinks(p: Plan, s: State, r: nat, k: Rank)
    requires r < |s| && forall q :: 0 <= q < |s| - 1 ==> Link(p, s[q], s[q + 1])
    requires r > 0 ==> Link(p, s[r - 1], k)
    requires r + 1 < |s| ==> Link(p, k, s[r + 1])
    ensures var s' := s[r := k]; forall q :: 0 <= q < |s| - 1 ==> Link(p, s'[q], s'[q + 1])
  {
    hide Link;
  }

  lemma CompleteKeepsRank(cfg: Config, p: Plan, r: nat, a: Rank, k: Rank)
    requires r > 0 && RankInv(cfg, p, r, k) && XferIn(cfg, p, k) && Active(k.xfer)
    requires a.op.Some? && Copying(a.op.value, a.bufs, k.xfer.value, k.bufs)
    requires p.carries(k.started - 1, a.bufs[k.xfer.value.source.slot])
    requires forall i: nat :: i < cfg.stream.size ==> i in k.xfer.value.copied
    ensures RankInv(cfg, p, r, k.(xfer := Some(k.xfer.value.(done := true))))
  {
    assert k.bufs[1 - k.send] == a.bufs[k.xfer.value.source.slot];
  }

  /** A notification in a rank's queue is only its own business. */
  lemma NotifsFrame(cfg: Config, p: Plan, r: nat, a: Rank, notifs: seq<Key>)
    requires RankInv(cfg, p, r, a)
    ensures RankInv(cfg, p, r, a.(notifs := notifs))
  {
  }

  lemma LinkAfterComplete(p: Plan, a: Rank, k: Rank, b: Rank)
    requires Link(p, a, k) && Active(k.xfer)
    ensures Link(p, a.(notifs := a.notifs + [k.xfer.value.key]), k.(xfer := Some(k.xfer.value.(done := true))))
    ensures Link(p, k, b) ==> Link(p, k.(xfer := Some(k.xfer.value.(done := true))), b)
  {
  }

  lemma CompleteKeepsLinks(cfg: Config, p: Plan, s: State, s': State, q: nat)
    requires q + 1 < |s| && forall t :: 0 <= t < |s| - 1 ==> Link(p, s[t], s[t + 1])
    requires Active(s[q + 1].xfer)
    requires s' == s[q + 1 := s[q + 1].(xfer := Some(s[q + 1].xfer.value.(done := true)))]
                    [q := s[q].(notifs := s[q].notifs + [s[q + 1].xfer.value.key])]
    ensures forall t :: 0 <= t < |s| - 1 ==> Link(p, s'[t], s'[t + 1])
  {
    forall t | 0 <= t < |s| - 1
      ensures Link(p, s'[t], s'[t + 1])
    {
      assert Link(p, s[t], s[t + 1]);
      if t == q {
        LinkAfterComplete(p, s[q], s[q + 1], s[q + 1]);
      } else if t == q + 1 {
        assert Link(p, s[q], s[q + 1]);
        LinkAfterComplete(p, s[q], s[q + 1], s[t + 1]);
      }
    }
  }

  lemma {:induction false} CompleteKeepsRanks(cfg: Config, p: Plan, s: State, r: nat, q: nat)
    requires BucketsOk(cfg.stream, p) && Inv(cfg, p, s) && Enabled(cfg, s, Complete(r)) && q < |s|
    ensures RankInv(cfg, p, q, Apply(cfg, s, Complete(r))[q])
  {
    hide RankInv, Link;
    ReadSource(cfg, p, s, r);
    if q == r {
      CompleteKeepsRank(cfg, p, r, s[r - 1], s[r]);
    } else if q == r - 1 {
      NotifsFrame(cfg, p, q, s[q], s[q].notifs + [s[r].xfer.value.key]);
    }
  }

  lemma CompleteKeeps(cfg: Config, p: Plan, s: State, r: nat)
    requires BucketsOk(cfg.stream, p) && Inv(cfg, p, s) && Enabled(cfg, s, Complete(r))
    ensures Inv(cfg, p, Apply(cfg, s, Complete(r)))
  {
    hide RankInv, Link;
    forall q | 0 <= q < |s| { CompleteKeepsRanks(cfg, p, s, r, q); }
    ReadSource(cfg, p, s, r);
    CompleteKeepsLinks(cfg, p, s, Apply(cfg, s, Complete(r)), r - 1);
  }

  // ---------------------------------------------------------------- all steps

  lemma InitInv(cfg: Config, p: Plan)
    requires PlanOk(cfg, p)
    ensures Inv(cfg, p, Init(cfg))
  {
  }

  lemma {:induction false} StepKeeps(cfg: Config, p: Plan, s: State, a: Action)
    requires PlanOk(cfg, p) && Inv(cfg, p, s) && Enabled(cfg, s, a)
    ensures Inv(cfg, p, Apply(cfg, s, a))
  {
    hide RankInv, Link;
    match a {
      case Advance(r) => AdvanceKeeps(cfg, p, s, r);
      case CopyByte(r, i) => CopyKeeps(cfg, p, s, r, i);
      case Complete(r) => CompleteKeeps(cfg, p, s, r);
    }
  }

  lemma {:induction false} RunKeeps(cfg: Config, p: Plan, s: State, run: seq<Action>)
    requires PlanOk(cfg, p) && Inv(cfg, p, s) && IsRun(cfg, s, run)
    ensures Inv(cfg, p, Exec(cfg, s, run))
    decreases |run|
  {
    if run != [] {
      StepKeeps(cfg, p, s, run[0]);
      RunKeeps(cfg, p, Apply(cfg, s, run[0]), run[1..]);
    }
  }
}
