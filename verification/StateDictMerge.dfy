/** `_merge_state_dicts`: which entries of a rank's model chunks are skipped, refused, split or renumbered. */
module StateDictMerge {
  import opened Wrappers
  import GateUp
  import LayerPartition
  import opened LayerNumbers
  import QkvLayout

  /** How `_split_tensors` treats a tensor. */
  datatype Form = Whole | FusedQkv | FusedGateUp

  /** A Megatron key, named by its mapped name: extra state, the output layer, a key that the check or the
      name mapping refuses, or a parameter inside or outside the layers. */
  datatype Megatron =
    | ExtraState(name: string)
    | Output(param: string)
    | Refused(name: string)
    | Param(layer: Option<nat>, param: string, expert: Option<nat>, form: Form)

  datatype Config = Config(tied: bool, heads: nat, kvHeads: nat)

  type Entry<T> = (Key, seq<T>)

  function KeyOf(k: Megatron, part: Part): Key
    requires k.Param?
  {
    var name := Name(k.param, k.expert, part);
    if k.layer.Some? then Layer(k.layer.value, name) else Global(name)
  }

  /** The pieces of a tensor; None where splitting raises. */
  function Split<T>(cfg: Config, k: Megatron, tensor: seq<T>): Option<seq<Entry<T>>>
    requires k.Param?
  {
    match k.form
    case Whole => Some([(KeyOf(k, Single), tensor)])
    case FusedQkv =>
      var r := QkvLayout.SplitQkv(tensor, cfg.heads, cfg.kvHeads);
      if r.None? then None
      else Some([(KeyOf(k, Q), r.value.q), (KeyOf(k, K), r.value.k),
                 (KeyOf(k, V), r.value.v)])
    case FusedGateUp =>
      var r := GateUp.Halve(tensor);
      if r.None? then None
      else Some([(KeyOf(k, Gate), r.value.gate), (KeyOf(k, Up), r.value.up)])
  }

  /** What one entry contributes, still with its local layer number: nothing if skipped, None if refused. */
  function Converted<T>(cfg: Config, k: Megatron, tensor: seq<T>): Option<seq<Entry<T>>> {
    match k
    case ExtraState(_) => Some([])
    case Output(param) => if cfg.tied then Some([]) else Some([(Head(param), tensor)])
    case Refused(_) => None
    case Param(_, _, _, _) => Split(cfg, k, tensor)
  }

  /** The entries a chunk contributes. */
  function Locals<T>(cfg: Config, dict: seq<(Megatron, seq<T>)>): Option<seq<Entry<T>>> {
    if dict == [] then Some([])
    else
      var front, last := Locals(cfg, dict[..|dict| - 1]), Converted(cfg, dict[|dict| - 1].0, dict[|dict| - 1].1);
      if front.None? || last.None? then None else Some(front.value + last.value)
  }

  function AllLocals<T>(cfg: Config, dicts: seq<seq<(Megatron, seq<T>)>>): Option<seq<seq<Entry<T>>>> {
    if dicts == [] then Some([])
    else
      var front, last := AllLocals(cfg, dicts[..|dicts| - 1]), Locals(cfg, dicts[|dicts| - 1]);
      if front.None? || last.None? then None else Some(front.value + [last.value])
  }

  // ---------------------------------------------------------------- when the merge succeeds

  /** The key is accepted, and a fused tensor has the rows it takes to split it. */
  predicate Convertible<T>(cfg: Config, k: Megatron, tensor: seq<T>) {
    match k
    case Refused(_) => false
    case Param(_, _, _, FusedQkv) =>
      cfg.kvHeads > 0 && cfg.heads % cfg.kvHeads == 0 && |tensor| % (cfg.heads + 2 * cfg.kvHeads) == 0
    case Param(_, _, _, FusedGateUp) => |tensor| >= 2
    case _ => true
  }

  ghost predicate AllConvertible<T>(cfg: Config, dicts: seq<seq<(Megatron, seq<T>)>>) {
    forall c, i :: 0 <= c < |dicts| && 0 <= i < |dicts[c]| ==> Convertible(cfg, dicts[c][i].0, dicts[c][i].1)
  }

  lemma ConvertsExactly<T>(cfg: Config, k: Megatron, tensor: seq<T>)
    ensures Converted(cfg, k, tensor).Some? <==> Convertible(cfg, k, tensor)
  {
    if k.Param? {
      QkvLayout.SplitsExactly(tensor, cfg.heads, cfg.kvHeads);
      GateUp.HalvesExactly(tensor);
    }
  }

  lemma {:induction false} LocalsExactly<T>(cfg: Config, dict: seq<(Megatron, seq<T>)>)
    ensures Locals(cfg, dict).Some? <==> forall i :: 0 <= i < |dict| ==> Convertible(cfg, dict[i].0, dict[i].1)
  {
    if dict != [] {
      LocalsExactly(cfg, dict[..|dict| - 1]);
      ConvertsExactly(cfg, dict[|dict| - 1].0, dict[|dict| - 1].1);
    }
  }

  /** Merging succeeds exactly when every entry of every chunk can be converted. */
  lemma {:induction false} MergesExactly<T>(cfg: Config, dicts: seq<seq<(Megatron, seq<T>)>>)
    ensures AllLocals(cfg, dicts).Some? <==> AllConvertible(cfg, dicts)
  {
    if dicts != [] {
      MergesExactly(cfg, dicts[..|dicts| - 1]);
      LocalsExactly(cfg, dicts[|dicts| - 1]);
    }
  }

  lemma {:induction false} LocalsFail<T>(cfg: Config, dict: seq<(Megatron, seq<T>)>, n: nat)
    requires n <= |dict| && Locals(cfg, dict[..n]).None?
    ensures Locals(cfg, dict).None?
  {
    if n < |dict| {
      assert dict[..|dict| - 1][..n] == dict[..n];
      LocalsFail(cfg, dict[..|dict| - 1], n);
    } else {
      assert dict[..n] == dict;
    }
  }

  lemma {:induction false} AllLocalsFail<T>(cfg: Config, dicts: seq<seq<(Megatron, seq<T>)>>, n: nat)
    requires n <= |dicts| && AllLocals(cfg, dicts[..n]).None?
    ensures AllLocals(cfg, dicts).None?
  {
    if n < |dicts| {
      assert dicts[..|dicts| - 1][..n] == dicts[..n];
      AllLocalsFail(cfg, dicts[..|dicts| - 1], n);
    } else {
      assert dicts[..n] == dicts;
    }
  }

  /** The pieces of one entry go into the dictionary, under their global layer number. */
  method WritePieces<T>(state: map<Key, seq<T>>, pieces: seq<Entry<T>>, base: nat) returns (out: map<Key, seq<T>>)
    ensures out == Merged(pieces, base, state)
  {
    out := state;
    for i := 0 to |pieces|
      invariant out == Merged(pieces[..i], base, state)
    {
      assert pieces[..i + 1][..i] == pieces[..i];
      out := out[Shift(pieces[i].0, base) := pieces[i].1];
    }
    assert pieces[..|pieces|] == pieces;
  }

  lemma ConvertedHandled<T>(cfg: Config, k: Megatron, tensor: seq<T>)
    requires Converted(cfg, k, tensor).Some?
    ensures Handled(Converted(cfg, k, tensor).value) == if k.Param? && k.layer.Some? then k.layer.value else 0
  {
    var pieces := Converted(cfg, k, tensor).value;
    HandledSame(pieces, if k.Param? && k.layer.Some? then k.layer.value else 0);
  }

  lemma {:induction false} HandledSame<T>(pieces: seq<Entry<T>>, no: nat)
    requires forall i :: 0 <= i < |pieces| ==> if pieces[i].0.Layer? then pieces[i].0.no == no else no == 0
    ensures Handled(pieces) == if pieces == [] then 0 else no
  {
    if pieces != [] {
      HandledSame(pieces[..|pieces| - 1], no);
    }
  }

  /** The loop over one chunk. */
  method MergeChunk<T>(cfg: Config, dict: seq<(Megatron, seq<T>)>, base: nat, state: map<Key, seq<T>>)
    returns (r: Option<(map<Key, seq<T>>, nat)>)
    ensures r == if Locals(cfg, dict).None? then None
                 else Some((Merged(Locals(cfg, dict).value, base, state), Handled(Locals(cfg, dict).value)))
  {
    hide Converted, Merged, Handled;
    var out, layersHandled := state, 0;
    NothingYet(base, state);
    for i := 0 to |dict|
      invariant Locals(cfg, dict[..i]).Some?
      invariant out == Merged(Locals(cfg, dict[..i]).value, base, state)
      invariant layersHandled == Handled(Locals(cfg, dict[..i]).value)
    {
      var (key, tensor) := dict[i];
      assert dict[..i + 1][..i] == dict[..i];
      var pieces := Converted(cfg, key, tensor);
      if pieces.None? {
        LocalsFail(cfg, dict, i + 1);
        return None;
      }
      MergedAppend(Locals(cfg, dict[..i]).value, pieces.value, base, state);
      HandledAppend(Locals(cfg, dict[..i]).value, pieces.value);
      ConvertedHandled(cfg, key, tensor);
      if key.Param? && key.layer.Some? && key.layer.value > layersHandled {
        layersHandled := key.layer.value;
      }
      out := WritePieces(out, pieces.value, base);
    }
    assert dict[..|dict|] == dict;
    r := Some((out, layersHandled));
  }

  lemma NothingYet<T>(base: nat, state: map<Key, seq<T>>)
    ensures Merged([], base, state) == state && Handled<seq<T>>([]) == 0
  {
  }

  /** The dictionary of a rank whose chunks convert. */
  ghost function MergedState<T>(cfg: Config, dicts: seq<seq<(Megatron, seq<T>)>>, shards: seq<nat>, rank: nat)
    : map<Key, seq<T>>
    requires rank < |shards| && AllConvertible(cfg, dicts)
  {
    MergesExactly(cfg, dicts);
    var locals := AllLocals(cfg, dicts).value;
    MergedAll(locals, LayerPartition.Before(shards, rank), |locals|)
  }

  /** `_merge_state_dicts`; None where an entry is refused or cannot be split. */
  method MergeStateDicts<T>(cfg: Config, dicts: seq<seq<(Megatron, seq<T>)>>, shards: seq<nat>, rank: nat)
    returns (r: Option<map<Key, seq<T>>>)
    requires rank < |shards|
    ensures r == if AllConvertible(cfg, dicts) then Some(MergedState(cfg, dicts, shards, rank)) else None
  {
    hide AllLocals, Locals, Merged, Handled, MergedAll, StartOf, AllConvertible;
    MergesExactly(cfg, dicts);
    var state := map[];
    var first := LayerPartition.Before(shards, rank);
    var layersCum := first;
    NoChunks(cfg, dicts, first);
    for c := 0 to |dicts|
      invariant AllLocals(cfg, dicts[..c]).Some? && |AllLocals(cfg, dicts[..c]).value| == c
      invariant state == MergedAll(AllLocals(cfg, dicts[..c]).value, first, c)
      invariant layersCum == StartOf(AllLocals(cfg, dicts[..c]).value, first, c)
    {
      var chunk := MergeChunk(cfg, dicts[c], layersCum, state);
      AllLocalsNext(cfg, dicts, c);
      if chunk.None? {
        AllLocalsFail(cfg, dicts, c + 1);
        return None;
      }
      ghost var before, locals := AllLocals(cfg, dicts[..c]).value, Locals(cfg, dicts[c]).value;
      OneMoreChunk(before, locals, first);
      state := chunk.value.0;
      layersCum := layersCum + chunk.value.1 + 1;
    }
    assert dicts[..|dicts|] == dicts;
    r := Some(state);
  }

  lemma NoChunks<T>(cfg: Config, dicts: seq<seq<(Megatron, seq<T>)>>, first: nat)
    ensures AllLocals(cfg, dicts[..0]) == Some([])
    ensures MergedAll<seq<T>>([], first, 0) == map[] && StartOf<seq<T>>([], first, 0) == first
  {
  }

  lemma AllLocalsNext<T>(cfg: Config, dicts: seq<seq<(Megatron, seq<T>)>>, c: nat)
    requires c < |dicts|
    ensures AllLocals(cfg, dicts[..c + 1]) ==
            var front, last := AllLocals(cfg, dicts[..c]), Locals(cfg, dicts[c]);
            if front.None? || last.None? then None else Some(front.value + [last.value])
  {
    assert dicts[..c + 1][..c] == dicts[..c];
  }

  lemma OneMoreChunk<T>(before: seq<seq<Entry<T>>>, locals: seq<Entry<T>>, first: nat)
    ensures var n, all := |before|, before + [locals];
            && MergedAll(all, first, n + 1) == Merged(locals, StartOf(before, first, n), MergedAll(before, first, n))
            && StartOf(all, first, n + 1) == StartOf(before, first, n) + Handled(locals) + 1
  {
    SamePrefix(before, locals, first, |before|);
  }

  lemma {:induction false} SamePrefix<T>(before: seq<seq<Entry<T>>>, locals: seq<Entry<T>>, first: nat, n: nat)
    requires n <= |before|
    ensures StartOf(before + [locals], first, n) == StartOf(before, first, n)
    ensures MergedAll(before + [locals], first, n) == MergedAll(before, first, n)
  {
    if n > 0 {
      SamePrefix(before, locals, first, n - 1);
    }
  }

  // ---------------------------------------------------------------- distinct keys stay distinct

  /** The mapped names of a chunk's parameters are distinct. */
  ghost predicate DistinctParams<T>(dict: seq<(Megatron, seq<T>)>) {
    forall i, j :: 0 <= i < j < |dict| ==> !SameParam(dict[i].0, dict[j].0)
  }

  predicate SameParam(k: Megatron, m: Megatron) {
    || (k.Param? && m.Param? && k.layer == m.layer && k.param == m.param && k.expert == m.expert)
    || (k.Output? && m.Output? && k.param == m.param)
  }

  /** The key is a piece of this entry's parameter. */
  predicate PieceOf(k: Key, m: Megatron) {
    match k
    case Layer(no, name) => m.Param? && m.layer == Some(no) && m.param == name.param && m.expert == name.expert
    case Global(name) => m.Param? && m.layer == None && m.param == name.param && m.expert == name.expert
    case Head(param) => m == Output(param)
  }

  lemma ConvertedPieces<T>(cfg: Config, k: Megatron, tensor: seq<T>)
    requires Converted(cfg, k, tensor).Some?
    ensures UniqueKeys(Converted(cfg, k, tensor).value)
    ensures forall e :: e in Converted(cfg, k, tensor).value ==> PieceOf(e.0, k)
  {
  }

  lemma {:induction false} LocalsPieces<T>(cfg: Config, dict: seq<(Megatron, seq<T>)>, e: Entry<T>) returns (i: nat)
    requires Locals(cfg, dict).Some? && e in Locals(cfg, dict).value
    ensures i < |dict| && PieceOf(e.0, dict[i].0)
    ensures Converted(cfg, dict[i].0, dict[i].1).Some? && e in Converted(cfg, dict[i].0, dict[i].1).value
  {
    var n := |dict| - 1;
    if e in Locals(cfg, dict[..n]).value {
      i := LocalsPieces(cfg, dict[..n], e);
    } else {
      ConvertedPieces(cfg, dict[n].0, dict[n].1);
      i := n;
    }
  }

  /** Chunks with distinct parameter names contribute entries with distinct keys. */
  lemma {:induction false} LocalsUnique<T>(cfg: Config, dict: seq<(Megatron, seq<T>)>)
    requires DistinctParams(dict) && Locals(cfg, dict).Some?
    ensures UniqueKeys(Locals(cfg, dict).value)
  {
    if dict != [] {
      var n := |dict| - 1;
      var front, last := Locals(cfg, dict[..n]).value, Converted(cfg, dict[n].0, dict[n].1).value;
      LocalsUnique(cfg, dict[..n]);
      ConvertedPieces(cfg, dict[n].0, dict[n].1);
      forall a, b | 0 <= a < |front| && 0 <= b < |last| ensures front[a].0 != last[b].0 {
        var i := LocalsPieces(cfg, dict[..n], front[a]);
        assert last[b] in last && !SameParam(dict[i].0, dict[n].0);
      }
    }
  }

  lemma {:induction false} AllLocalsAt<T>(cfg: Config, dicts: seq<seq<(Megatron, seq<T>)>>, c: nat)
    requires AllLocals(cfg, dicts).Some? && c < |dicts|
    ensures |AllLocals(cfg, dicts).value| == |dicts|
    ensures Locals(cfg, dicts[c]) == Some(AllLocals(cfg, dicts).value[c])
  {
    var n := |dicts| - 1;
    if n > 0 {
      AllLocalsAt(cfg, dicts[..n], if c < n then c else 0);
    }
  }

  lemma {:induction false} PieceInLocals<T>(cfg: Config, dict: seq<(Megatron, seq<T>)>, i: nat, e: Entry<T>)
    requires Locals(cfg, dict).Some? && i < |dict|
    ensures Converted(cfg, dict[i].0, dict[i].1).Some?
    ensures e in Converted(cfg, dict[i].0, dict[i].1).value ==> e in Locals(cfg, dict).value
  {
    if i < |dict| - 1 {
      PieceInLocals(cfg, dict[..|dict| - 1], i, e);
    }
  }

  /** The chunk holds parameters of layers 0 .. n-1, and of no others. */
  ghost predicate ChunkHolds<T>(dict: seq<(Megatron, seq<T>)>, n: nat) {
    && (forall i :: 0 <= i < |dict| && dict[i].0.Param? && dict[i].0.layer.Some? ==> dict[i].0.layer.value < n)
    && (forall l: nat :: l < n ==> HasParam(dict, l))
  }

  ghost predicate HasParam<T>(dict: seq<(Megatron, seq<T>)>, l: nat) {
    exists i :: 0 <= i < |dict| && dict[i].0.Param? && dict[i].0.layer == Some(l)
  }

  lemma {:induction false} LocalsHold<T>(cfg: Config, dict: seq<(Megatron, seq<T>)>, n: nat)
    requires Locals(cfg, dict).Some? && ChunkHolds(dict, n)
    ensures HoldsLayers(Locals(cfg, dict).value, n)
  {
    var locals := Locals(cfg, dict).value;
    forall e | e in locals && e.0.Layer? ensures e.0.no < n {
      var i := LocalsPieces(cfg, dict, e);
    }
    forall l: nat | l < n ensures HasLayer(locals, l) {
      assert HasParam(dict, l);
      var i :| 0 <= i < |dict| && dict[i].0.Param? && dict[i].0.layer == Some(l);
      LocalsExactly(cfg, dict);
      ConvertsExactly(cfg, dict[i].0, dict[i].1);
      var e := Converted(cfg, dict[i].0, dict[i].1).value[0];
      PieceInLocals(cfg, dict, i, e);
    }
  }

  /** The chunks of a rank can be converted, hold as many layers as the rank's share, and no parameter twice. */
  ghost predicate RankHolds<T>(cfg: Config, dicts: seq<seq<(Megatron, seq<T>)>>, sizes: seq<nat>, share: nat) {
    && AllConvertible(cfg, dicts) && |dicts| == |sizes| && LayerPartition.Total(sizes) == share
    && forall c :: 0 <= c < |dicts| ==> sizes[c] > 0 && ChunkHolds(dicts[c], sizes[c]) && DistinctParams(dicts[c])
  }

  lemma {:induction false} RankLocals<T>(cfg: Config, dicts: seq<seq<(Megatron, seq<T>)>>, sizes: seq<nat>, share: nat)
    requires RankHolds(cfg, dicts, sizes, share)
    ensures AllLocals(cfg, dicts).Some? && Sizes(AllLocals(cfg, dicts).value, sizes)
    ensures forall c :: 0 <= c < |dicts| ==> UniqueKeys(AllLocals(cfg, dicts).value[c])
  {
    hide AllConvertible, ChunkHolds, DistinctParams, Locals, AllLocals, HoldsLayers, UniqueKeys;
    MergesExactly(cfg, dicts);
    LocalsCount(cfg, dicts);
    forall c | 0 <= c < |dicts|
      ensures HoldsLayers(AllLocals(cfg, dicts).value[c], sizes[c]) && UniqueKeys(AllLocals(cfg, dicts).value[c])
    {
      AllLocalsAt(cfg, dicts, c);
      LocalsHold(cfg, dicts[c], sizes[c]);
      LocalsUnique(cfg, dicts[c]);
    }
  }

  lemma {:induction false} LocalsCount<T>(cfg: Config, dicts: seq<seq<(Megatron, seq<T>)>>)
    requires AllLocals(cfg, dicts).Some?
    ensures |AllLocals(cfg, dicts).value| == |dicts|
  {
    if dicts != [] {
      LocalsCount(cfg, dicts[..|dicts| - 1]);
    }
  }

  /** A rank's merged dictionary has exactly the layers of the rank's range. */
  lemma {:induction false} RankFillsRange<T>(cfg: Config, dicts: seq<seq<(Megatron, seq<T>)>>, sizes: seq<nat>,
                                             shards: seq<nat>, rank: nat, g: nat)
    requires rank < |shards| && RankHolds(cfg, dicts, sizes, shards[rank])
    ensures LayerPartition.InRange(shards, rank, g)
            <==> exists name :: Layer(g, name) in MergedState(cfg, dicts, shards, rank)
  {
    RankLocals(cfg, dicts, sizes, shards[rank]);
    ChunksFillRange(AllLocals(cfg, dicts).value, sizes, shards, rank, g);
  }

  /** So no layer key is in the dictionaries of two ranks. */
  lemma {:induction false} RanksShareNoLayer<T>(
      cfg: Config, dicts: seq<seq<(Megatron, seq<T>)>>, sizes: seq<nat>, rank: nat,
      others: seq<seq<(Megatron, seq<T>)>>, otherSizes: seq<nat>, other: nat, shards: seq<nat>, k: Key)
    requires rank < |shards| && other < |shards| && k.Layer?
    requires RankHolds(cfg, dicts, sizes, shards[rank]) && RankHolds(cfg, others, otherSizes, shards[other])
    requires k in MergedState(cfg, dicts, shards, rank) && k in MergedState(cfg, others, shards, other)
    ensures rank == other
  {
    RankFillsRange(cfg, dicts, sizes, shards, rank, k.no);
    RankFillsRange(cfg, others, otherSizes, shards, other, k.no);
    assert k == Layer(k.no, k.name);
    LayerPartition.Once(shards, k.no, rank, other);
  }
}
