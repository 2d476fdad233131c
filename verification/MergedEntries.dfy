/** What `_merge_state_dicts` leaves in the merged dictionary, said of the entries that went in. */
module MergedEntries {
  import GateUp
  import opened LayerNumbers
  import LayerPartition
  import QkvLayout
  import opened StateDictMerge
  import opened Wrappers

  type Chunks<T> = seq<seq<(Megatron, seq<T>)>>

  /** The first global layer number of chunk c of a rank. */
  function StartAt(shards: seq<nat>, rank: nat, sizes: seq<nat>, c: nat): nat
    requires rank < |shards| && c <= |sizes|
  {
    LayerPartition.Before(shards, rank) + LayerPartition.Before(sizes, c)
  }

  /** The key of a piece of this parameter when its chunk's layers start at `start`. */
  function FinalKey(k: Megatron, start: nat, part: Part): Key
    requires k.Param?
  {
    match k.layer
    case Some(l) => Layer(start + l, Name(k.param, k.expert, part))
    case None => Global(Name(k.param, k.expert, part))
  }

  /** Entry i of chunk c exists, and no later chunk has the same parameter outside the layers. */
  ghost predicate Stays<T>(dicts: Chunks<T>, c: nat, i: nat) {
    && c < |dicts| && i < |dicts[c]|
    && var k := dicts[c][i].0;
       (k.Param? && k.layer.Some?)
       || forall d, j :: c < d < |dicts| && 0 <= j < |dicts[d]| ==> !SameParam(dicts[d][j].0, k)
  }

  // ---------------------------------------------------------------- one piece

  lemma {:induction false} KeptByLater<T>(locals: seq<seq<Entry<T>>>, first: nat, c: nat, n: nat, k: Key)
    requires c <= n <= |locals| && !k.Layer? && k in MergedAll(locals, first, c)
    requires forall d, e :: c <= d < n && e in locals[d] ==> e.0 != k
    ensures k in MergedAll(locals, first, n) && MergedAll(locals, first, n)[k] == MergedAll(locals, first, c)[k]
    decreases n
  {
    if c < n {
      KeptByLater(locals, first, c, n - 1, k);
      MergedKeeps(locals[n - 1], StartOf(locals, first, n - 1), MergedAll(locals, first, n - 1), k);
    }
  }

  /** Every piece of an entry is in the merged dictionary under its final key, with its own rows. */
  lemma {:induction false} PieceLands<T>(cfg: Config, dicts: Chunks<T>, sizes: seq<nat>, shards: seq<nat>, rank: nat,
                                         c: nat, i: nat, e: Entry<T>)
    requires rank < |shards| && RankHolds(cfg, dicts, sizes, shards[rank]) && Stays(dicts, c, i)
    requires Converted(cfg, dicts[c][i].0, dicts[c][i].1).Some? && e in Converted(cfg, dicts[c][i].0, dicts[c][i].1).value
    ensures var m, k := MergedState(cfg, dicts, shards, rank), Shift(e.0, StartAt(shards, rank, sizes, c));
            k in m && m[k] == e.1
  {
    hide Converted, Locals, AllLocals, ChunkHolds, DistinctParams, SameParam;
    RankLocals(cfg, dicts, sizes, shards[rank]);
    AllLocalsAt(cfg, dicts, c);
    PieceInLocals(cfg, dicts[c], i, e);
    var locals, first := AllLocals(cfg, dicts).value, LayerPartition.Before(shards, rank);
    var x: nat :| x < |locals[c]| && locals[c][x] == e;
    if e.0.Layer? {
      NothingOverwritten(locals, sizes, first, |locals|, c, x);
    } else {
      MergedLooksUp(locals[c], StartOf(locals, first, c), MergedAll(locals, first, c), x);
      OthersElsewhere(cfg, dicts, c, i, e);
      KeptByLater(locals, first, c + 1, |locals|, e.0);
    }
  }

  /** Later chunks have no entry under the key of a parameter that stays. */
  lemma {:induction false} OthersElsewhere<T>(cfg: Config, dicts: Chunks<T>, c: nat, i: nat, e: Entry<T>)
    requires AllLocals(cfg, dicts).Some? && |AllLocals(cfg, dicts).value| == |dicts| && Stays(dicts, c, i)
    requires Converted(cfg, dicts[c][i].0, dicts[c][i].1).Some? && e in Converted(cfg, dicts[c][i].0, dicts[c][i].1).value
    requires !e.0.Layer?
    ensures forall d, x :: c < d < |dicts| && x in AllLocals(cfg, dicts).value[d] ==> x.0 != e.0
  {
    ConvertedPieces(cfg, dicts[c][i].0, dicts[c][i].1);
    forall d, x | c < d < |dicts| && x in AllLocals(cfg, dicts).value[d] ensures x.0 != e.0 {
      AllLocalsAt(cfg, dicts, d);
      var j := LocalsPieces(cfg, dicts[d], x);
      assert !SameParam(dicts[d][j].0, dicts[c][i].0);
    }
  }

  // ---------------------------------------------------------------- what becomes of each kind of entry

  /** A tensor that is not fused is kept as it is. */
  lemma {:induction false} WholeLands<T>(cfg: Config, dicts: Chunks<T>, sizes: seq<nat>, shards: seq<nat>, rank: nat,
                                         c: nat, i: nat)
    requires rank < |shards| && RankHolds(cfg, dicts, sizes, shards[rank]) && Stays(dicts, c, i)
    requires dicts[c][i].0.Param? && dicts[c][i].0.form == Whole
    ensures var m := MergedState(cfg, dicts, shards, rank);
            var k := FinalKey(dicts[c][i].0, StartAt(shards, rank, sizes, c), Single);
            k in m && m[k] == dicts[c][i].1
  {
    var k := dicts[c][i].0;
    PieceLands(cfg, dicts, sizes, shards, rank, c, i, (KeyOf(k, Single), dicts[c][i].1));
  }

  /** So is an output layer that is not tied to the embedding. */
  lemma {:induction false} OutputLands<T>(cfg: Config, dicts: Chunks<T>, sizes: seq<nat>, shards: seq<nat>, rank: nat,
                                          c: nat, i: nat)
    requires rank < |shards| && RankHolds(cfg, dicts, sizes, shards[rank]) && Stays(dicts, c, i)
    requires dicts[c][i].0.Output? && !cfg.tied
    ensures var m, k := MergedState(cfg, dicts, shards, rank), Head(dicts[c][i].0.param);
            k in m && m[k] == dicts[c][i].1
  {
    PieceLands(cfg, dicts, sizes, shards, rank, c, i, (Head(dicts[c][i].0.param), dicts[c][i].1));
  }

  /** A fused MLP tensor leaves its gate rows and its up rows, each under its own key. */
  lemma {:induction false} GateUpLands<T>(cfg: Config, dicts: Chunks<T>, sizes: seq<nat>, shards: seq<nat>, rank: nat,
                                          c: nat, i: nat, gate: seq<T>, up: seq<T>)
    requires rank < |shards| && RankHolds(cfg, dicts, sizes, shards[rank]) && Stays(dicts, c, i)
    requires dicts[c][i].0.Param? && dicts[c][i].0.form == FusedGateUp
    requires |gate| == |up| > 0 && dicts[c][i].1 == gate + up
    ensures var m, k, start := MergedState(cfg, dicts, shards, rank), dicts[c][i].0, StartAt(shards, rank, sizes, c);
            && FinalKey(k, start, Gate) in m && m[FinalKey(k, start, Gate)] == gate
            && FinalKey(k, start, Up) in m && m[FinalKey(k, start, Up)] == up
  {
    var k := dicts[c][i].0;
    GateUp.HalveUndoesConcat(gate, up);
    assert Converted(cfg, k, dicts[c][i].1) == Some([(KeyOf(k, Gate), gate), (KeyOf(k, Up), up)]);
    hide Converted, RankHolds, Stays, MergedState, StartAt;
    PieceLands(cfg, dicts, sizes, shards, rank, c, i, (KeyOf(k, Gate), gate));
    PieceLands(cfg, dicts, sizes, shards, rank, c, i, (KeyOf(k, Up), up));
  }

  /** The rows of three projections that the converter packs into one tensor. */
  ghost predicate Packs<T>(cfg: Config, tensor: seq<T>, q: seq<T>, k: seq<T>, v: seq<T>, headDim: nat) {
    && cfg.kvHeads > 0 && cfg.heads % cfg.kvHeads == 0 && headDim > 0
    && |q| == cfg.kvHeads * (cfg.heads / cfg.kvHeads * headDim) && |k| == |v| == cfg.kvHeads * headDim
    && tensor == QkvLayout.PackQkv(q, k, v, cfg.kvHeads, cfg.heads / cfg.kvHeads * headDim, headDim)
  }

  lemma QkvPieces<T>(cfg: Config, p: Megatron, tensor: seq<T>, q: seq<T>, k: seq<T>, v: seq<T>, headDim: nat)
    requires p.Param? && p.form == FusedQkv && Packs(cfg, tensor, q, k, v, headDim)
    ensures Converted(cfg, p, tensor) == Some([(KeyOf(p, Q), q), (KeyOf(p, K), k), (KeyOf(p, V), v)])
  {
    QkvLayout.QkvRoundTrip(q, k, v, cfg.heads, cfg.kvHeads, headDim);
  }

  /** A fused attention tensor leaves its query, key and value rows, each under its own key. */
  lemma {:induction false} QkvLands<T>(cfg: Config, dicts: Chunks<T>, sizes: seq<nat>, shards: seq<nat>, rank: nat,
                                       c: nat, i: nat, q: seq<T>, k: seq<T>, v: seq<T>, headDim: nat)
    requires rank < |shards| && RankHolds(cfg, dicts, sizes, shards[rank]) && Stays(dicts, c, i)
    requires dicts[c][i].0.Param? && dicts[c][i].0.form == FusedQkv
    requires Packs(cfg, dicts[c][i].1, q, k, v, headDim)
    ensures var m, p, start := MergedState(cfg, dicts, shards, rank), dicts[c][i].0, StartAt(shards, rank, sizes, c);
            && FinalKey(p, start, Q) in m && m[FinalKey(p, start, Q)] == q
            && FinalKey(p, start, K) in m && m[FinalKey(p, start, K)] == k
            && FinalKey(p, start, V) in m && m[FinalKey(p, start, V)] == v
  {
    var p := dicts[c][i].0;
    hide Converted, RankHolds, Packs, Stays, MergedState, StartAt;
    QkvPieces(cfg, p, dicts[c][i].1, q, k, v, headDim);
    PieceLands(cfg, dicts, sizes, shards, rank, c, i, (KeyOf(p, Q), q));
    PieceLands(cfg, dicts, sizes, shards, rank, c, i, (KeyOf(p, K), k));
    PieceLands(cfg, dicts, sizes, shards, rank, c, i, (KeyOf(p, V), v));
  }

  // ---------------------------------------------------------------- nothing else

  function Parts(form: Form): set<Part> {
    match form
    case Whole => {Single}
    case FusedQkv => {Q, K, V}
    case FusedGateUp => {Gate, Up}
  }

  /** This entry, in a chunk whose layers start at `start`, puts something under the key. */
  predicate Explains(cfg: Config, k: Megatron, start: nat, key: Key) {
    if key.Head? then k == Output(key.param) && !cfg.tied
    else k.Param? && key.name.part in Parts(k.form) && key == FinalKey(k, start, key.name.part)
  }

  lemma ConvertedKeys<T>(cfg: Config, k: Megatron, tensor: seq<T>, start: nat, key: Key)
    requires Converted(cfg, k, tensor).Some?
    ensures Explains(cfg, k, start, key) <==> exists e :: e in Converted(cfg, k, tensor).value && Shift(e.0, start) == key
  {
    var pieces := Converted(cfg, k, tensor).value;
    if Explains(cfg, k, start, key) {
      var x: nat := if key.Head? || key.name.part in {Single, Q, Gate} then 0
                    else if key.name.part in {K, Up} then 1 else 2;
      assert pieces[x] in pieces && Shift(pieces[x].0, start) == key;
    }
  }

  lemma {:induction false} KeyAppears<T>(locals: seq<seq<Entry<T>>>, first: nat, n: nat, c: nat, i: nat)
    requires c < n <= |locals| && i < |locals[c]|
    ensures Shift(locals[c][i].0, StartOf(locals, first, c)) in MergedAll(locals, first, n)
  {
    var start, acc := StartOf(locals, first, n - 1), MergedAll(locals, first, n - 1);
    if c < n - 1 {
      KeyAppears(locals, first, n - 1, c, i);
    }
    MergedGrows(locals[n - 1], start, acc);
  }

  lemma {:induction false} MergedGrows<T>(dict: seq<Entry<T>>, base: nat, acc: map<Key, seq<T>>)
    ensures acc.Keys <= Merged(dict, base, acc).Keys
    ensures forall i :: 0 <= i < |dict| ==> Shift(dict[i].0, base) in Merged(dict, base, acc)
  {
    if dict != [] {
      MergedGrows(dict[..|dict| - 1], base, acc);
    }
  }

  /** The keys of the merged dictionary are exactly those of the parameters' pieces: extra state and a tied output
      layer leave none. */
  lemma {:induction false} KeysExactly<T>(cfg: Config, dicts: Chunks<T>, sizes: seq<nat>, shards: seq<nat>, rank: nat,
                                          key: Key)
    requires rank < |shards| && RankHolds(cfg, dicts, sizes, shards[rank])
    ensures key in MergedState(cfg, dicts, shards, rank)
            <==> exists c: nat, i: nat :: c < |dicts| && i < |dicts[c]|
                   && Explains(cfg, dicts[c][i].0, StartAt(shards, rank, sizes, c), key)
  {
    hide Merged, Explains, Shift, AllConvertible, ChunkHolds, DistinctParams, Locals, AllLocals;
    var first := LayerPartition.Before(shards, rank);
    RankLocals(cfg, dicts, sizes, shards[rank]);
    var locals := AllLocals(cfg, dicts).value;
    if key in MergedState(cfg, dicts, shards, rank) {
      MergedAllOnly(locals, first, |locals|, key);
      var c: nat, x: nat :| c < |locals| && ComesFrom(locals, first, key, c, x);
      AllLocalsAt(cfg, dicts, c);
      StartsBySizes(locals, sizes, first, c);
      var i := LocalsPieces(cfg, dicts[c], locals[c][x]);
      ConvertedKeys(cfg, dicts[c][i].0, dicts[c][i].1, StartAt(shards, rank, sizes, c), key);
    }
    if c: nat, i: nat :| c < |dicts| && i < |dicts[c]|
                         && Explains(cfg, dicts[c][i].0, StartAt(shards, rank, sizes, c), key) {
      AllLocalsAt(cfg, dicts, c);
      StartsBySizes(locals, sizes, first, c);
      EntryAppears(cfg, dicts, c, i, first, locals, StartAt(shards, rank, sizes, c), key);
    }
  }

  lemma {:induction false} EntryAppears<T>(cfg: Config, dicts: Chunks<T>, c: nat, i: nat, first: nat,
                                           locals: seq<seq<Entry<T>>>, start: nat, key: Key)
    requires c < |dicts| == |locals| && i < |dicts[c]| && Locals(cfg, dicts[c]) == Some(locals[c])
    requires start == StartOf(locals, first, c) && Explains(cfg, dicts[c][i].0, start, key)
    ensures key in MergedAll(locals, first, |locals|)
  {
    hide Merged, Explains, Shift, Locals, Converted;
    LocalsExactly(cfg, dicts[c]);
    ConvertsExactly(cfg, dicts[c][i].0, dicts[c][i].1);
    ConvertedKeys(cfg, dicts[c][i].0, dicts[c][i].1, start, key);
    var e :| e in Converted(cfg, dicts[c][i].0, dicts[c][i].1).value && Shift(e.0, start) == key;
    PieceInLocals(cfg, dicts[c], i, e);
    var x: nat :| x < |locals[c]| && locals[c][x] == e;
    KeyAppears(locals, first, |locals|, c, x);
  }
}
