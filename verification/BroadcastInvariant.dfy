/** The inductive invariant of the broadcast engine. */
module BroadcastInvariant {
  import opened Packing
  import opened BucketPlan
  import opened BroadcastEngine
  import opened Wrappers

  // ---------------------------------------------------------------- rank 0

  ghost predicate RootShape(st: Stream, p: Plan, k: Root) {
    |k.bufs| == 2 && k.send < 2 && |k.bufs[0]| == |k.bufs[1]| == st.size && k.started <= |p.buckets|
  }

  /** The operation not yet awaited is that of bucket started - 1, in buffer `slot`. */
  ghost predicate Sends(p: Plan, op: Option<RootOp>, started: nat, slot: nat, buf: seq<byte>) {
    op.Some? ==>
      && 1 <= started <= |p.buckets| && op.value.slot == slot
      && op.value.content == p.buckets[started - 1] && p.carries(started - 1, buf)
  }

  ghost predicate OpIn(p: Plan, k: Root, slot: nat)
    requires |k.bufs| == 2 && slot < 2
  {
    Sends(p, k.op, k.started, slot, k.bufs[slot])
  }

  ghost predicate Filled(p: Plan, k: Root)
    requires |k.bufs| == 2 && k.send < 2
  {
    p.filled(k.next, k.started, k.filling, k.offset, k.bufs[k.send])
  }

  ghost predicate RootInv(st: Stream, p: Plan, k: Root) {
    && RootShape(st, p, k)
    && match k.pc
       case Filling => Filled(p, k) && OpIn(p, k, 1 - k.send)
       case AwaitFlush =>
         && Filled(p, k) && k.next < |st.weights| && p.overflows(k.next)
         && k.op.Some? && OpIn(p, k, 1 - k.send)
       case Flush => Filled(p, k) && k.next < |st.weights| && p.overflows(k.next) && k.op.None?
       case Storing =>
         && k.next < |st.weights| && OpIn(p, k, 1 - k.send)
         && if p.overflows(k.next) then p.reopened(k.next, k.started, k.filling, k.offset) else Filled(p, k)
       case AwaitLast => Filled(p, k) && k.next == |st.weights| && k.op.Some? && OpIn(p, k, 1 - k.send)
       case AnnounceLast => Filled(p, k) && k.next == |st.weights| && k.op.None?
       case AwaitFinal => k.started == |p.buckets| && k.op.Some? && OpIn(p, k, k.send) && AllFit(st.size, st.weights)
       case RootDone => k.started == |p.buckets| && k.op.None? && AllFit(st.size, st.weights)
       case Failed =>
         && k.next < |st.weights| && |st.weights[k.next].data| > st.size && OpIn(p, k, 1 - k.send)
         && p.reopened(k.next, k.started, k.filling, k.offset)
  }

  /** Broadcasts whose metadata is out, and broadcasts whose call has returned. */
  function Sent(k: Root): int { if k.op.Some? && k.op.value.stage.Queued? then k.started - 1 else k.started }

  function Returned(k: Root): int { if k.op.Some? && !k.op.value.stage.Finished? then k.started - 1 else k.started }

  // ---------------------------------------------------------------- one receiver

  ghost predicate Shape(st: Stream, p: Plan, k: Receiver) {
    |k.bufs| == 2 && k.send < 2 && |k.bufs[0]| == |k.bufs[1]| == st.size
    && |p.outs| == |p.buckets| + 1 == |p.readable| + 1
    && k.received <= k.taken <= k.posted <= |p.buckets|
  }

  /** The pending operation receives bucket posted - 1 into buffer `slot`. */
  ghost predicate Receives(st: Stream, p: Plan, op: Option<RecvOp>, posted: nat, taken: nat, received: nat,
                           slot: nat, buf: seq<byte>) {
    && op.Some? && op.value.slot == slot && 1 <= posted <= |p.buckets|
    && match op.value.stage
       case Queued => taken == received == posted - 1 && op.value.copied == {}
       case Running =>
         && taken == posted && received == posted - 1
         && op.value.content == p.buckets[posted - 1]
         && (AllCopied(st, op.value) ==> p.carries(posted - 1, buf))
       case Finished =>
         && taken == received == posted
         && op.value.content == p.buckets[posted - 1] && p.carries(posted - 1, buf)
  }

  ghost predicate Receiving(st: Stream, p: Plan, k: Receiver)
    requires |k.bufs| == 2 && k.send < 2
  {
    Receives(st, p, k.op, k.posted, k.taken, k.received, 1 - k.send, k.bufs[1 - k.send])
  }

  ghost predicate IsBucket(p: Plan, j: int, b: Bucket, buf: seq<byte>) {
    0 <= j < |p.buckets| && b == p.buckets[j] && p.carries(j, buf)
  }

  ghost predicate Current(p: Plan, k: Receiver, j: int)
    requires |k.bufs| == 2 && k.send < 2
  {
    IsBucket(p, j, k.content, k.bufs[k.send])
  }

  ghost predicate Idle(k: Receiver) {
    k.op.None? && k.taken == k.received == k.posted
  }

  ghost predicate ReceiverInv(st: Stream, p: Plan, k: Receiver) {
    && Shape(st, p, k)
    && match k.pc
       case Start => k.posted == 0 && Idle(k) && k.out == []
       case AwaitFirst => k.posted == 1 && Receiving(st, p, k) && k.out == []
       case LoopHead => Idle(k) && Current(p, k, k.posted - 1) && k.out == p.outs[k.posted - 1]
       case Yielding(i) =>
         Receiving(st, p, k) && Current(p, k, k.posted - 2) && Yielded(p, k.posted - 2, i, k.out)
       case AwaitNext => k.posted >= 2 && Receiving(st, p, k) && k.out == p.outs[k.posted - 1]
       case YieldingLast(i) =>
         && k.posted == |p.buckets| && Idle(k) && Current(p, k, k.posted - 1)
         && Yielded(p, k.posted - 1, i, k.out)
       case Done => k.posted == |p.buckets| && Idle(k) && k.out == p.outs[|p.buckets|]
  }

  // ---------------------------------------------------------------- rank 0 and a receiver

  /** Metadata in flight is exactly what was sent and not taken; nobody is missed by a broadcast
      that has returned; bytes copied from the running broadcast agree with its buffer. */
  ghost predicate Link(st: Stream, p: Plan, root: Root, k: Receiver) {
    && k.taken <= Sent(root) <= |p.buckets|
    && |k.inbox| == Sent(root) - k.taken
    && (forall i :: 0 <= i < |k.inbox| ==> k.inbox[i] == p.buckets[k.taken + i])
    && (Returned(root) <= 0 || GotAll(st, k, Returned(root)))
    && (Meeting(root, k) ==> CopyAgrees(root, k))
  }

  /** Both are inside the same collective call. */
  ghost predicate Meeting(root: Root, k: Receiver) {
    && k.op.Some? && k.op.value.stage.Running? && root.op.Some? && root.op.value.stage.Running?
    && k.taken == root.started
  }

  ghost predicate CopyAgrees(root: Root, k: Receiver)
    requires root.op.Some? && k.op.Some?
  {
    && root.op.value.slot < |root.bufs| && k.op.value.slot < |k.bufs|
    && Agree(k.op.value.copied, root.bufs[root.op.value.slot], k.bufs[k.op.value.slot])
  }

  ghost predicate Agree(copied: set<nat>, source: seq<byte>, target: seq<byte>) {
    |source| == |target| && forall i :: i in copied && i < |target| ==> target[i] == source[i]
  }

  ghost predicate Inv(st: Stream, p: Plan, s: State) {
    && RootInv(st, p, s.root)
    && (forall r :: 0 <= r < |s.receivers| ==> ReceiverInv(st, p, s.receivers[r]))
    && (forall r :: 0 <= r < |s.receivers| ==> Link(st, p, s.root, s.receivers[r]))
  }
}
