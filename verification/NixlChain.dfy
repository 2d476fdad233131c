/** The NIXL engine's weight transfer as a transition system: rank 0 packs and announces buckets,
    every other rank pulls buckets from its predecessor, announces them to its successor and
    yields their tensors, each with two buffers that swap roles. */
module NixlChain {
  import opened Packing
  import opened BucketPlan
  import opened Shapes
  import opened Wrappers

  datatype Config = Config(stream: Stream, ranks: nat)

  /** A fresh notify key (a uuid): the announcing rank and how many it announced before. */
  datatype Key = Key(rank: nat, serial: nat)

  /** Transfer descriptors: one of the two buffers of a rank. */
  datatype Descs = Descs(rank: nat, slot: nat)

  /** The dict passed between ranks; `notify_key` and `remote_descs` are optional entries. */
  datatype Metadata = Metadata(bucket: seq<TensorMeta>, isLast: bool, key: Option<Key>, descs: Option<Descs>)

  /** `ReadableOperation`: announced, not yet known to be read by the next rank. */
  datatype ReadableOp = ReadableOp(key: Key, descs: Descs)

  /** `ReadOperation` after `begin_read`: bytes move one by one, in any order. */
  datatype Transfer = Transfer(source: Descs, target: nat, key: Key, copied: set<nat>, done: bool)

  datatype Pc =
    // send_weights
    | Filling | AwaitFlush | Flush | Storing | AwaitLast | AnnounceLast | AwaitFinal
    // receive_weights
    | FirstMeta | FirstRead | LoopHead | NextMeta | Yielding(k: nat) | AwaitNext | AwaitRead
    | YieldingLast(k: nat) | AwaitLastRead
    // both
    | Done | Failed

  /** Local variables, buffers and mailboxes of one rank.  `announced`, `started` count
      operations; `out` is what the rank has yielded so far. */
  datatype Rank = Rank(
    pc: Pc, bufs: seq<seq<byte>>, send: nat,
    next: nat, offset: nat, filling: seq<TensorMeta>,
    metadata: Metadata, nextMetadata: Metadata,
    op: Option<ReadableOp>, xfer: Option<Transfer>,
    inbox: seq<Metadata>, notifs: seq<Key>,
    announced: nat, started: nat, out: seq<Weight>)

  type State = seq<Rank>

  datatype Action =
    | Advance(rank: nat)              // the rank's coroutine runs to its next await or branch
    | CopyByte(rank: nat, at: nat)    // the rank's pending read moves one byte
    | Complete(rank: nat)             // the rank's pending read finishes and notifies the source

  const NO_METADATA := Metadata([], false, None, None)

  function InitRank(cfg: Config, r: nat): Rank {
    Rank(if r == 0 then Filling else FirstMeta, [Zeros(cfg.stream.size), Zeros(cfg.stream.size)], 0,
         0, 0, [], NO_METADATA, NO_METADATA, None, None, [], [], 0, 0, [])
  }

  function Init(cfg: Config): State { seq(cfg.ranks, (r: nat) => InitRank(cfg, r)) }

  /** `{"notify_key": key, "remote_descs": descs, **metadata}`: entries of metadata win. */
  function Message(op: ReadableOp, md: Metadata): Metadata {
    md.(key := if md.key.Some? then md.key else Some(op.key),
        descs := if md.descs.Some? then md.descs else Some(op.descs))
  }

  predicate HasNext(cfg: Config, r: nat) { r + 1 < cfg.ranks }

  /** New `ReadableOperation` on buffer `slot`, if there is a next rank. */
  function Announce(cfg: Config, r: nat, k: Rank, slot: nat, md: Metadata): (Rank, seq<Metadata>) {
    if HasNext(cfg, r) then
      var op := ReadableOp(Key(r, k.announced), Descs(r, slot));
      (k.(op := Some(op), announced := k.announced + 1), [Message(op, md)])
    else
      (k.(op := None, announced := k.announced + 1), [])
  }

  /** `readable_op.wait_for_complete()`: take the notification, check its key. */
  function TakeNotification(k: Rank, then_: Pc): Rank
    requires k.op.Some? && k.notifs != []
  {
    k.(notifs := k.notifs[1..], op := None,
       pc := if k.notifs[0] == k.op.value.key then then_ else Failed)
  }

  /** `read_metadata()` then `begin_read()` into the receive buffer. */
  function BeginRead(k: Rank): Rank
    requires k.inbox != [] && k.inbox[0].key.Some? && k.inbox[0].descs.Some? && k.send < 2
  {
    var m := k.inbox[0];
    k.(inbox := k.inbox[1..], started := k.started + 1,
       xfer := Some(Transfer(m.descs.value, 1 - k.send, m.key.value, {}, false)),
       nextMetadata := m.(key := None, descs := None))
  }

  function Swap(k: Rank): Rank
    requires k.send < 2
  {
    k.(send := 1 - k.send)
  }

  /** Can rank r's coroutine go on? */
  predicate CanAdvance(cfg: Config, r: nat, k: Rank) {
    && k.send < 2 && |k.bufs| == 2
    && match k.pc
       case Filling => true
       case AwaitFlush | AwaitLast | AwaitFinal | AwaitNext | AwaitLastRead => k.op.Some? && k.notifs != []
       case Flush | AnnounceLast => true
       case Storing =>
         && k.next < |cfg.stream.weights|
         && (k.offset + |cfg.stream.weights[k.next].data| <= cfg.stream.size ==>
             k.offset + |cfg.stream.weights[k.next].data| <= |k.bufs[k.send]|)
       case FirstMeta | NextMeta => k.inbox != [] && k.inbox[0].key.Some? && k.inbox[0].descs.Some?
       case FirstRead | AwaitRead => k.xfer.Some? && k.xfer.value.done
       case LoopHead => true
       case Yielding(i) => CanYield(k, i)
       case YieldingLast(i) => CanYield(k, i)
       case Done | Failed => false
  }

  predicate CanYield(k: Rank, i: nat)
    requires k.send < 2 && |k.bufs| == 2
  {
    i < |k.metadata.bucket| ==>
      var m := k.metadata.bucket[i]; m.offset + m.itemSize * Numel(m.shape) <= |k.bufs[k.send]|
  }

  function Yield(k: Rank, i: nat): Rank
    requires k.send < 2 && |k.bufs| == 2 && CanYield(k, i) && i < |k.metadata.bucket|
  {
    k.(out := k.out + [ReadTensor(k.bufs[k.send], k.metadata.bucket[i])])
  }

  /** One step of rank r's coroutine: its new state and the messages it sends to rank r + 1. */
  function Local(cfg: Config, r: nat, k: Rank): (Rank, seq<Metadata>)
    requires CanAdvance(cfg, r, k)
  {
    match k.pc
    case Filling =>
      var pc :=
        if k.next < |cfg.stream.weights| then
          if k.offset + |cfg.stream.weights[k.next].data| > cfg.stream.size then
            if k.op.Some? then AwaitFlush else Flush
          else Storing
        else if k.op.Some? then AwaitLast else AnnounceLast;
      (k.(pc := pc), [])
    case AwaitFlush => (TakeNotification(k, Flush), [])
    case Flush =>
      var (k', msgs) := Announce(cfg, r, k, k.send, Metadata(k.filling, false, None, None));
      (Swap(k').(pc := Storing, filling := [], offset := 0), msgs)
    case Storing =>
      var w := cfg.stream.weights[k.next];
      if k.offset + |w.data| <= cfg.stream.size then
        (k.(pc := Filling, next := k.next + 1, offset := k.offset + |w.data|,
            filling := PutMeta(k.filling, TensorMeta(w.name, w.shape, cfg.stream.itemSize, k.offset)),
            bufs := k.bufs[k.send := Write(k.bufs[k.send], k.offset, w.data)]), [])
      else (k.(pc := Failed), [])
    case AwaitLast => (TakeNotification(k, AnnounceLast), [])
    case AnnounceLast =>
      var (k', msgs) := Announce(cfg, r, k, k.send, Metadata(k.filling, true, None, None));
      (k'.(pc := AwaitFinal), msgs)
    case AwaitFinal => (TakeNotification(k, Done), [])
    case FirstMeta => (BeginRead(k).(pc := FirstRead), [])
    case FirstRead => (Swap(k).(pc := LoopHead, xfer := None, metadata := k.nextMetadata), [])
    case LoopHead =>
      var (k', msgs) := Announce(cfg, r, k, k.send, k.metadata);
      (k'.(pc := if k.metadata.isLast then YieldingLast(0) else NextMeta), msgs)
    case NextMeta => (BeginRead(k).(pc := Yielding(0)), [])
    case Yielding(i) =>
      if i < |k.metadata.bucket| then (Yield(k, i).(pc := Yielding(i + 1)), [])
      else (k.(pc := if k.op.Some? then AwaitNext else AwaitRead), [])
    case AwaitNext => (TakeNotification(k, AwaitRead), [])
    case AwaitRead => (Swap(k).(pc := LoopHead, xfer := None, metadata := k.nextMetadata), [])
    case YieldingLast(i) =>
      if i < |k.metadata.bucket| then (Yield(k, i).(pc := YieldingLast(i + 1)), [])
      else (k.(pc := if k.op.Some? then AwaitLastRead else Done), [])
    case AwaitLastRead => (TakeNotification(k, Done), [])
  }

  predicate Enabled(cfg: Config, s: State, a: Action) {
    && a.rank < |s|
    && match a
       case Advance(r) => CanAdvance(cfg, r, s[r])
       case CopyByte(r, at) =>
         && s[r].xfer.Some? && !s[r].xfer.value.done && at < cfg.stream.size
         && var x := s[r].xfer.value;
            && at !in x.copied
            && x.source.rank < |s| && x.source.slot < |s[x.source.rank].bufs|
            && at < |s[x.source.rank].bufs[x.source.slot]|
            && x.target < |s[r].bufs| && at < |s[r].bufs[x.target]|
       case Complete(r) =>
         && s[r].xfer.Some? && !s[r].xfer.value.done
         && (forall at: nat :: at < cfg.stream.size ==> at in s[r].xfer.value.copied)
         && s[r].xfer.value.source.rank < |s|
  }

  /** Rank r becomes k and its messages are appended to the next rank's mailbox. */
  function Deliver(s: State, r: nat, k: Rank, msgs: seq<Metadata>): (s': State)
    requires r < |s|
    ensures |s'| == |s|
  {
    if r + 1 < |s| then s[r := k][r + 1 := s[r + 1].(inbox := s[r + 1].inbox + msgs)] else s[r := k]
  }

  function Apply(cfg: Config, s: State, a: Action): (s': State)
    requires Enabled(cfg, s, a)
    ensures |s'| == |s|
  {
    match a
    case Advance(r) =>
      var (k, msgs) := Local(cfg, r, s[r]);
      Deliver(s, r, k, msgs)
    case CopyByte(r, at) =>
      var k, x := s[r], s[r].xfer.value;
      var b := s[x.source.rank].bufs[x.source.slot][at];
      s[r := k.(bufs := k.bufs[x.target := k.bufs[x.target][at := b]],
                xfer := Some(x.(copied := x.copied + {at})))]
    case Complete(r) =>
      var x := s[r].xfer.value;
      var s' := s[r := s[r].(xfer := Some(x.(done := true)))];
      var q := x.source.rank;
      s'[q := s'[q].(notifs := s'[q].notifs + [x.key])]
  }

  /** Executing a schedule; a schedule is a run when every action is enabled in its turn. */
  predicate IsRun(cfg: Config, s: State, run: seq<Action>)
    decreases |run|
  {
    run == [] || (Enabled(cfg, s, run[0]) && IsRun(cfg, Apply(cfg, s, run[0]), run[1..]))
  }

  function Exec(cfg: Config, s: State, run: seq<Action>): State
    requires IsRun(cfg, s, run)
    decreases |run|
  {
    if run == [] then s else Exec(cfg, Apply(cfg, s, run[0]), run[1..])
  }
}
