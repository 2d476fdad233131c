/** The NCCL engine's weight transfer as a transition system: rank 0 packs buckets and starts each
    broadcast in a background thread, receivers run one background receive at a time; filling and
    yielding overlap with the broadcast. */
module BroadcastEngine {
  import opened Packing
  import opened BucketPlan
  import opened Shapes
  import opened Wrappers

  /** Progress of the background thread of one BroadcastOperation. */
  datatype Stage = Queued | Running | Finished

  datatype RootOp = RootOp(slot: nat, content: Bucket, stage: Stage)

  /** A receiver's operation; `content` is the metadata once it has been received. */
  datatype RecvOp = RecvOp(slot: nat, content: Bucket, stage: Stage, copied: set<nat>)

  datatype RootPc = Filling | AwaitFlush | Flush | Storing | AwaitLast | AnnounceLast | AwaitFinal | RootDone | Failed

  datatype Pc = Start | AwaitFirst | LoopHead | Yielding(k: nat) | AwaitNext | YieldingLast(k: nat) | Done

  /** Rank 0.  `started` counts the operations it has created. */
  datatype Root = Root(
    pc: RootPc, bufs: seq<seq<byte>>, send: nat, next: nat, offset: nat, filling: seq<TensorMeta>,
    op: Option<RootOp>, started: nat)

  /** A receiving rank.  `posted`, `taken` and `received` count operations created, metadata
      messages taken and operations finished; `out` is what it has yielded. */
  datatype Receiver = Receiver(
    pc: Pc, bufs: seq<seq<byte>>, send: nat, content: Bucket, op: Option<RecvOp>,
    inbox: seq<Bucket>, posted: nat, taken: nat, received: nat, out: seq<Weight>)

  datatype State = State(root: Root, receivers: seq<Receiver>)

  datatype Action =
    | RootAdvance                     // send_weights runs to its next await or branch
    | RootPublish                     // its thread publishes the metadata and enters the collective
    | RootFinish                      // its collective call returns
    | Advance(rank: nat)              // receive_weights runs to its next await or branch
    | TakeMetadata(rank: nat)         // a receiver's thread gets the metadata and enters the collective
    | CopyByte(rank: nat, at: nat)    // one byte of the collective reaches a receiver
    | Finish(rank: nat)               // a receiver's collective call returns

  const NO_BUCKET := Bucket([], false)

  function Init(st: Stream, ranks: nat): State {
    var bufs := [Zeros(st.size), Zeros(st.size)];
    State(Root(Filling, bufs, 0, 0, 0, [], None, 0),
          seq(ranks, _ => Receiver(Start, bufs, 0, NO_BUCKET, None, [], 0, 0, 0, [])))
  }

  // ---------------------------------------------------------------- rank 0

  /** `BroadcastOperation(...)` on the send buffer. */
  function Launch(k: Root, isLast: bool): Root {
    k.(op := Some(RootOp(k.send, Bucket(k.filling, isLast), Queued)), started := k.started + 1)
  }

  predicate CanRootAdvance(st: Stream, k: Root) {
    && k.send < 2 && |k.bufs| == 2
    && match k.pc
       case Filling | Flush | AnnounceLast => true
       case AwaitFlush | AwaitLast | AwaitFinal => k.op.Some? && k.op.value.stage.Finished?
       case Storing =>
         && k.next < |st.weights|
         && (k.offset + |st.weights[k.next].data| <= st.size ==>
             k.offset + |st.weights[k.next].data| <= |k.bufs[k.send]|)
       case RootDone | Failed => false
  }

  function RootLocal(st: Stream, k: Root): Root
    requires CanRootAdvance(st, k)
  {
    match k.pc
    case Filling =>
      k.(pc := if k.next < |st.weights| then
                 if k.offset + |st.weights[k.next].data| > st.size then
                   if k.op.Some? then AwaitFlush else Flush
                 else Storing
               else if k.op.Some? then AwaitLast else AnnounceLast)
    case AwaitFlush => k.(pc := Flush, op := None)
    case Flush => Launch(k, false).(pc := Storing, send := 1 - k.send, filling := [], offset := 0)
    case Storing =>
      var w := st.weights[k.next];
      if k.offset + |w.data| <= st.size then
        k.(pc := Filling, next := k.next + 1, offset := k.offset + |w.data|,
           filling := PutMeta(k.filling, TensorMeta(w.name, w.shape, st.itemSize, k.offset)),
           bufs := k.bufs[k.send := Write(k.bufs[k.send], k.offset, w.data)])
      else k.(pc := Failed)
    case AwaitLast => k.(pc := AnnounceLast, op := None)
    case AnnounceLast => Launch(k, true).(pc := AwaitFinal)
    case AwaitFinal => k.(pc := RootDone, op := None)
  }

  // ---------------------------------------------------------------- receivers

  /** A new operation on the receive buffer. */
  function Post(k: Receiver): Receiver
    requires k.send < 2
  {
    k.(op := Some(RecvOp(1 - k.send, NO_BUCKET, Queued, {})), posted := k.posted + 1)
  }

  predicate CanYield(k: Receiver, i: nat)
    requires k.send < 2 && |k.bufs| == 2
  {
    i < |k.content.metas| ==>
      var m := k.content.metas[i]; m.offset + m.itemSize * Numel(m.shape) <= |k.bufs[k.send]|
  }

  function Yield(k: Receiver, i: nat): Receiver
    requires k.send < 2 && |k.bufs| == 2 && CanYield(k, i) && i < |k.content.metas|
  {
    k.(out := k.out + [ReadTensor(k.bufs[k.send], k.content.metas[i])])
  }

  predicate CanAdvance(k: Receiver) {
    && k.send < 2 && |k.bufs| == 2
    && match k.pc
       case Start | LoopHead => true
       case AwaitFirst | AwaitNext => k.op.Some? && k.op.value.stage.Finished?
       case Yielding(i) => CanYield(k, i)
       case YieldingLast(i) => CanYield(k, i)
       case Done => false
  }

  function Local(k: Receiver): Receiver
    requires CanAdvance(k)
  {
    match k.pc
    case Start => Post(k).(pc := AwaitFirst)
    case AwaitFirst | AwaitNext => k.(pc := LoopHead, content := k.op.value.content, op := None, send := 1 - k.send)
    case LoopHead => if k.content.isLast then k.(pc := YieldingLast(0)) else Post(k).(pc := Yielding(0))
    case Yielding(i) => if i < |k.content.metas| then Yield(k, i).(pc := Yielding(i + 1)) else k.(pc := AwaitNext)
    case YieldingLast(i) => if i < |k.content.metas| then Yield(k, i).(pc := YieldingLast(i + 1)) else k.(pc := Done)
  }

  // ---------------------------------------------------------------- the system

  predicate AllCopied(st: Stream, op: RecvOp) {
    forall at: nat :: at < st.size ==> at in op.copied
  }

  /** The receiver has every byte of the j-th broadcast. */
  predicate GotAll(st: Stream, k: Receiver, j: nat) {
    k.received >= j || (k.taken == j && k.op.Some? && k.op.value.stage.Running? && AllCopied(st, k.op.value))
  }

  predicate Enabled(st: Stream, s: State, a: Action) {
    match a
    case RootAdvance => CanRootAdvance(st, s.root)
    case RootPublish => s.root.op.Some? && s.root.op.value.stage.Queued?
    case RootFinish =>
      && s.root.op.Some? && s.root.op.value.stage.Running?
      && forall r :: 0 <= r < |s.receivers| ==> GotAll(st, s.receivers[r], s.root.started)
    case Advance(r) => r < |s.receivers| && CanAdvance(s.receivers[r])
    case TakeMetadata(r) =>
      && r < |s.receivers| && s.receivers[r].inbox != []
      && s.receivers[r].op.Some? && s.receivers[r].op.value.stage.Queued?
    case CopyByte(r, at) =>
      && r < |s.receivers| && at < st.size
      && s.root.op.Some? && s.root.op.value.stage.Running?
      && s.receivers[r].op.Some? && s.receivers[r].op.value.stage.Running?
      && s.receivers[r].taken == s.root.started     // collective calls match in order
      && at !in s.receivers[r].op.value.copied
      && s.root.op.value.slot < |s.root.bufs| && at < |s.root.bufs[s.root.op.value.slot]|
      && s.receivers[r].op.value.slot < |s.receivers[r].bufs|
      && at < |s.receivers[r].bufs[s.receivers[r].op.value.slot]|
    case Finish(r) =>
      && r < |s.receivers| && s.receivers[r].op.Some? && s.receivers[r].op.value.stage.Running?
      && AllCopied(st, s.receivers[r].op.value)
  }

  function Copied(k: Receiver, at: nat, b: byte): Receiver
    requires k.op.Some? && k.op.value.slot < |k.bufs| && at < |k.bufs[k.op.value.slot]|
  {
    var op := k.op.value;
    k.(bufs := k.bufs[op.slot := k.bufs[op.slot][at := b]], op := Some(op.(copied := op.copied + {at})))
  }

  function Taken(k: Receiver): Receiver
    requires k.inbox != [] && k.op.Some?
  {
    k.(inbox := k.inbox[1..], taken := k.taken + 1, op := Some(k.op.value.(content := k.inbox[0], stage := Running)))
  }

  function Closed(k: Receiver): Receiver
    requires k.op.Some?
  {
    k.(received := k.received + 1, op := Some(k.op.value.(stage := Finished)))
  }

  /** PUB/SUB: every receiver gets the message. */
  function Published(receivers: seq<Receiver>, b: Bucket): (r: seq<Receiver>)
    ensures |r| == |receivers|
    ensures forall i :: 0 <= i < |r| ==> r[i] == receivers[i].(inbox := receivers[i].inbox + [b])
  {
    seq(|receivers|, i requires 0 <= i < |receivers| => receivers[i].(inbox := receivers[i].inbox + [b]))
  }

  function Apply(st: Stream, s: State, a: Action): (s': State)
    requires Enabled(st, s, a)
    ensures |s'.receivers| == |s.receivers|
  {
    match a
    case RootAdvance => s.(root := RootLocal(st, s.root))
    case RootPublish =>
      State(s.root.(op := Some(s.root.op.value.(stage := Running))), Published(s.receivers, s.root.op.value.content))
    case RootFinish => s.(root := s.root.(op := Some(s.root.op.value.(stage := Finished))))
    case Advance(r) => s.(receivers := s.receivers[r := Local(s.receivers[r])])
    case TakeMetadata(r) => s.(receivers := s.receivers[r := Taken(s.receivers[r])])
    case CopyByte(r, at) =>
      s.(receivers := s.receivers[r := Copied(s.receivers[r], at, s.root.bufs[s.root.op.value.slot][at])])
    case Finish(r) => s.(receivers := s.receivers[r := Closed(s.receivers[r])])
  }

  predicate IsRun(st: Stream, s: State, run: seq<Action>)
    decreases |run|
  {
    run == [] || (Enabled(st, s, run[0]) && IsRun(st, Apply(st, s, run[0]), run[1..]))
  }

  function Exec(st: Stream, s: State, run: seq<Action>): State
    requires IsRun(st, s, run)
    decreases |run|
  {
    if run == [] then s else Exec(st, Apply(st, s, run[0]), run[1..])
  }
}
