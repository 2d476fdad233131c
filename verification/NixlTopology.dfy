/** `build_topology` of the NIXL engine: which agents each rank is connected to. */
module NixlTopology {
  import opened Sequences
  import opened Wrappers

  /** One list per keyword argument, one element per worker. */
  datatype Kwargs<M> = Kwargs(rank: seq<int>, worldSize: seq<int>, prev: seq<Option<M>>, next: seq<Option<M>>)

  /** Python's bounds of a slice: negative positions count from the end, then clamp. */
  function Clamp(n: nat, i: int): (r: nat)
    ensures r <= n
  {
    var j := if i < 0 then i + n else i;
    if j < 0 then 0 else if j > n then n else j
  }

  /** `s[lo:hi]` */
  function Slice<M>(s: seq<M>, lo: int, hi: int): seq<M> {
    if Clamp(|s|, lo) <= Clamp(|s|, hi) then s[Clamp(|s|, lo)..Clamp(|s|, hi)] else []
  }

  /** `s[i]`; None is an IndexError. */
  function Item<M>(s: seq<M>, i: int): Option<M> {
    var j := if i < 0 then i + |s| else i;
    if 0 <= j < |s| then Some(s[j]) else None
  }

  function Known<M>(s: seq<M>): (r: seq<Option<M>>)
    ensures |r| == |s| && forall i :: 0 <= i < |s| ==> r[i] == Some(s[i])
  {
    seq(|s|, i requires 0 <= i < |s| => Some(s[i]))
  }

  function Trainers<M>(trainers: nat, rollouts: nat, metadata: seq<M>): Option<Kwargs<M>> {
    if Item(metadata, 0 - rollouts).None? then None
    else Some(Kwargs(
      [0] + Repeat(-1, trainers - 1),
      Repeat(rollouts + 1, trainers),
      Repeat(None, trainers),
      [Item(metadata, 0 - rollouts)] + Repeat(None, trainers - 1)))
  }

  function Rollouts<M>(rollouts: nat, metadata: seq<M>): Option<Kwargs<M>> {
    if metadata == [] then None
    else Some(Kwargs(
      seq(rollouts, i => i + 1),
      Repeat(rollouts + 1, rollouts),
      [Some(metadata[0])] + Known(Slice(metadata, 0 - rollouts, -1)),
      Known(Slice(metadata, 0 - rollouts + 1, |metadata|)) + [None]))
  }

  /** The length assertion of `build_process_group`. */
  predicate LengthsOk<M>(kwargs: Kwargs<M>, workers: nat) {
    |kwargs.rank| == |kwargs.worldSize| == |kwargs.prev| == |kwargs.next| == workers
  }

  /** The assertions of `init_process_group`. */
  predicate InitAccepts<M>(rank: int, worldSize: int, prev: Option<M>, next: Option<M>) {
    if rank < 0 then prev.None? && next.None?
    else if rank == 0 then prev.None? && next.Some?
    else if rank < worldSize - 1 then prev.Some? && next.Some?
    else if rank == worldSize - 1 then prev.Some? && next.None?
    else true
  }

  /** The agent of chain rank q: trainer worker 0, then the rollout workers in order. */
  function AgentOf<M>(trainers: nat, metadata: seq<M>, q: nat): Option<M>
    requires trainers > 0
  {
    if q == 0 then Item(metadata, 0) else Item(metadata, trainers + q - 1)
  }

  /** The topology is accepted exactly when there are at least two rollout workers: with one,
      the slice from -0 takes the whole list. */
  lemma AcceptedIffTwoRollouts<M>(trainers: nat, rollouts: nat, metadata: seq<M>)
    requires trainers > 0 && |metadata| == trainers + rollouts
    ensures var t, r := Trainers(trainers, rollouts, metadata), Rollouts(rollouts, metadata);
            t.Some? && r.Some?
            && (LengthsOk(t.value, trainers) && LengthsOk(r.value, rollouts) <==> rollouts >= 2)
  {
  }

  /** In the accepted topology the first trainer worker is linked to the first rollout worker, the
      other trainer workers to nobody, and their own checks pass. */
  lemma TrainersLinked<M>(trainers: nat, rollouts: nat, metadata: seq<M>, i: nat)
    requires i < trainers && rollouts >= 2 && |metadata| == trainers + rollouts
    ensures var t := Trainers(trainers, rollouts, metadata);
            t.Some? && LengthsOk(t.value, trainers)
            && t.value.rank[i] == (if i == 0 then 0 else -1) && t.value.worldSize[i] == rollouts + 1
            && t.value.prev[i] == None
            && t.value.next[i] == (if i == 0 then AgentOf(trainers, metadata, 1) else None)
            && InitAccepts(t.value.rank[i], t.value.worldSize[i], t.value.prev[i], t.value.next[i])
  {
    var t := Trainers(trainers, rollouts, metadata).value;
    assert Item(metadata, 0 - rollouts) == Some(metadata[trainers]);
    if i > 0 {
      assert t.next[i] == Repeat<Option<M>>(None, trainers - 1)[i - 1];
      assert t.rank[i] == Repeat(-1, trainers - 1)[i - 1];
    }
  }

  /** Rollout worker i has rank i + 1 and is linked to the ranks just before and after it. */
  lemma RolloutsLinked<M>(trainers: nat, rollouts: nat, metadata: seq<M>, i: nat)
    requires trainers > 0 && i < rollouts && rollouts >= 2 && |metadata| == trainers + rollouts
    ensures var r := Rollouts(rollouts, metadata);
            r.Some? && LengthsOk(r.value, rollouts)
            && r.value.rank[i] == i + 1 && r.value.worldSize[i] == rollouts + 1
            && r.value.prev[i] == AgentOf(trainers, metadata, i)
            && r.value.next[i] == (if i + 1 < rollouts then AgentOf(trainers, metadata, i + 2) else None)
            && InitAccepts(r.value.rank[i], r.value.worldSize[i], r.value.prev[i], r.value.next[i])
  {
    var r := Rollouts(rollouts, metadata).value;
    if i > 0 {
      assert r.prev[i] == Some(Slice(metadata, 0 - rollouts, -1)[i - 1]);
      assert Slice(metadata, 0 - rollouts, -1) == metadata[trainers..|metadata| - 1];
    }
    if i + 1 < rollouts {
      assert Slice(metadata, 0 - rollouts + 1, |metadata|) == metadata[trainers + 1..];
    }
  }
}
