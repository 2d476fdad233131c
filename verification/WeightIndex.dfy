/** The index of a sharded safetensors checkpoint: which file each key is in, per rank and gathered. */
module WeightIndex {
  import opened Arithmetic
  import opened LayerNumbers
  import opened LayerPartition
  import opened Numpy
  import opened Sequences
  import StateDictMerge

  /** The saving loop over the pieces of one rank, files numbered from `first`. */
  method IndexPieces<K>(pieces: seq<seq<K>>, first: nat) returns (index: map<K, nat>)
    requires Apart(pieces)
    ensures index.Keys == (set k | k in Flatten(pieces))
    ensures forall i, k :: 0 <= i < |pieces| && k in pieces[i] ==> k in index && index[k] == first + i
  {
    index := map[];
    for i := 0 to |pieces|
      invariant index.Keys == (set k | k in Flatten(pieces[..i]))
      invariant forall j, k :: 0 <= j < i && k in pieces[j] ==> k in index && index[k] == first + j
    {
      FlattenSnoc(pieces[..i], pieces[i]);
      assert pieces[..i] + [pieces[i]] == pieces[..i + 1];
      index := index + map k | k in pieces[i] :: first + i;
    }
    assert pieces[..|pieces|] == pieces;
  }

  /** Every key of the rank is listed, under the file of the one piece that holds it, and nothing else is. */
  ghost predicate IsRankIndex<K(!new)>(index: map<K, nat>, keys: seq<K>, shards: seq<nat>, rank: nat, layers: nat)
    requires rank < |shards| && shards[rank] > 0
  {
    var spl := SavesPerLayer(layers);
    var pieces := ArraySplit(keys, shards[rank] * spl);
    && index.Keys == (set k | k in keys) && Apart(pieces) && Flatten(pieces) == keys
    && forall i, k :: 0 <= i < |pieces| && k in pieces[i] ==>
         k in index && index[k] == FileIndex(shards, spl, rank, i)
  }

  /** Keys are spread in order over `count` files from `first` on, leaving none empty if there are enough keys. */
  ghost predicate SpreadOver<K(!new)>(index: map<K, nat>, keys: seq<K>, first: nat, count: nat) {
    && (forall k :: k in keys ==> k in index && first <= index[k] < first + count)
    && (forall a, b :: 0 <= a <= b < |keys| ==> index[keys[a]] <= index[keys[b]])
    && (|keys| >= count ==> forall f :: first <= f < first + count ==> Used(index, keys, f))
  }

  ghost predicate Used<K(!new)>(index: map<K, nat>, keys: seq<K>, f: nat) {
    exists k :: k in keys && k in index && index[k] == f
  }

  lemma {:induction false} PieceOfKey<K>(keys: seq<K>, n: nat, i: nat, a: nat)
    requires i < n && a < |keys| && Distinct(keys) && keys[a] in ArraySplit(keys, n)[i]
    ensures PieceStart(|keys|, n, i) <= a < PieceStart(|keys|, n, i + 1)
  {
    hide PieceStart;
    PieceStartBounds(|keys|, n, i);
    var lo := PieceStart(|keys|, n, i);
    var x: nat :| x < |ArraySplit(keys, n)[i]| && ArraySplit(keys, n)[i][x] == keys[a];
    assert keys[lo + x] == ArraySplit(keys, n)[i][x];
    assert lo + x == a;
  }

  lemma {:induction false} RankSpread<K(!new)>(index: map<K, nat>, keys: seq<K>, shards: seq<nat>, rank: nat, layers: nat)
    requires rank < |shards| && shards[rank] > 0 && Distinct(keys) && IsRankIndex(index, keys, shards, rank, layers)
    ensures SpreadOver(index, keys, Before(shards, rank) * SavesPerLayer(layers), shards[rank] * SavesPerLayer(layers))
  {
    hide PieceStart, ArraySplit, SavesPerLayer, Distinct;
    var n, first := shards[rank] * SavesPerLayer(layers), Before(shards, rank) * SavesPerLayer(layers);
    MulGrows(1, shards[rank], SavesPerLayer(layers));
    var pieces := ArraySplit(keys, n);
    forall k | k in keys ensures k in index && first <= index[k] < first + n {
      InSomePiece(pieces, k);
    }
    forall a, b | 0 <= a <= b < |keys| ensures index[keys[a]] <= index[keys[b]] {
      InSomePiece(pieces, keys[a]);
      InSomePiece(pieces, keys[b]);
      var i: nat :| i < |pieces| && keys[a] in pieces[i];
      var j: nat :| j < |pieces| && keys[b] in pieces[j];
      PieceOfKey(keys, n, i, a);
      PieceOfKey(keys, n, j, b);
      if j < i {
        PieceStartGrows(|keys|, n, j + 1, i);
      }
    }
    if |keys| >= n {
      forall f | first <= f < first + n ensures Used(index, keys, f) {
        FileUsed(index, keys, pieces, first, n, f);
      }
    }
  }

  lemma FileUsed<K(!new)>(index: map<K, nat>, keys: seq<K>, pieces: seq<seq<K>>, first: nat, n: nat, f: nat)
    requires 0 < n <= |keys| && first <= f < first + n && pieces == ArraySplit(keys, n) && Flatten(pieces) == keys
    requires forall i, k :: 0 <= i < n && k in pieces[i] ==> k in index && index[k] == first + i
    ensures Used(index, keys, f)
  {
    var i := f - first;
    PieceSizes(keys, n, i);
    AtLeastOne(|keys|, n);
    var k := pieces[i][0];
    InFlatten(pieces, i, k);
    assert k in keys && index[k] == f;
  }

  lemma AtLeastOne(len: nat, n: nat)
    requires 0 < n <= len
    ensures len / n >= 1
  {
  }

  /** `save_hf_model_and_tokenizer` up to the gathering. */
  method SaveIndex<K(!new)>(keys: seq<K>, shards: seq<nat>, rank: nat, layers: nat) returns (index: map<K, nat>)
    requires rank < |shards| && shards[rank] > 0 && Distinct(keys)
    ensures IsRankIndex(index, keys, shards, rank, layers)
    ensures layers < 30 ==> SpreadOver(index, keys, Before(shards, rank), shards[rank])
    ensures layers >= 30 ==> SpreadOver(index, keys, 2 * Before(shards, rank), 2 * shards[rank])
  {
    var spl := SavesPerLayer(layers);
    var pieces := ArraySplit(keys, shards[rank] * spl);
    ArraySplitFlattens(keys, shards[rank] * spl);
    PiecesApart(pieces);
    index := IndexPieces(pieces, Before(shards, rank) * spl);
    RankSpread(index, keys, shards, rank, layers);
  }

  // ---------------------------------------------------------------- the gathered index

  /** Later ranks override earlier ones. */
  function Gathered<K>(indexes: seq<map<K, nat>>): map<K, nat> {
    if indexes == [] then map[] else Gathered(indexes[..|indexes| - 1]) + indexes[|indexes| - 1]
  }

  /** `{k: v for i in all_save_indexes for k, v in i.items()}` */
  method GatherIndexes<K>(indexes: seq<map<K, nat>>) returns (all: map<K, nat>)
    ensures all == Gathered(indexes)
  {
    all := map[];
    for r := 0 to |indexes|
      invariant all == Gathered(indexes[..r])
    {
      assert indexes[..r + 1][..r] == indexes[..r];
      var todo := indexes[r].Keys;
      ghost var before := all;
      while todo != {}
        invariant todo <= indexes[r].Keys
        invariant all.Keys == before.Keys + (indexes[r].Keys - todo)
        invariant forall k :: k in all ==> all[k] == if k in indexes[r] && k !in todo then indexes[r][k] else before[k]
        decreases |todo|
      {
        var k :| k in todo;
        all := all[k := indexes[r][k]];
        todo := todo - {k};
      }
      assert all == before + indexes[r];
    }
    assert indexes[..|indexes|] == indexes;
  }

  lemma {:induction false} GatheredKeys<K>(indexes: seq<map<K, nat>>, k: K)
    ensures k in Gathered(indexes) <==> exists r :: 0 <= r < |indexes| && k in indexes[r]
  {
    if indexes != [] {
      var front := indexes[..|indexes| - 1];
      GatheredKeys(front, k);
      if r :| 0 <= r < |indexes| && k in indexes[r] {
        assert r < |front| ==> k in front[r];
      }
      if r :| 0 <= r < |front| && k in front[r] {
        assert k in indexes[r];
      }
    }
  }

  /** A key that no later rank lists keeps this rank's entry. */
  lemma {:induction false} GatheredKeeps<K>(indexes: seq<map<K, nat>>, r: nat, k: K)
    requires r < |indexes| && k in indexes[r] && forall q :: r < q < |indexes| ==> k !in indexes[q]
    ensures k in Gathered(indexes) && Gathered(indexes)[k] == indexes[r][k]
  {
    if r < |indexes| - 1 {
      GatheredKeeps(indexes[..|indexes| - 1], r, k);
    }
  }

  /** What the ranks merged and saved: rank r's chunks hold its share, and its index lists its merged keys. */
  datatype Rank<T> = Rank(
    dicts: seq<seq<(StateDictMerge.Megatron, seq<T>)>>, sizes: seq<nat>, keys: seq<Key>, index: map<Key, nat>)

  ghost predicate Saved<T>(cfg: StateDictMerge.Config, ranks: seq<Rank<T>>, shards: seq<nat>, layers: nat) {
    && |ranks| == |shards|
    && forall r :: 0 <= r < |ranks| ==> SavedRank(cfg, ranks[r], shards, r, layers)
  }

  ghost predicate SavedRank<T>(cfg: StateDictMerge.Config, k: Rank<T>, shards: seq<nat>, r: nat, layers: nat)
    requires r < |shards|
  {
    && shards[r] > 0 && StateDictMerge.RankHolds(cfg, k.dicts, k.sizes, shards[r])
    && (set key | key in k.keys) == StateDictMerge.MergedState(cfg, k.dicts, shards, r).Keys
    && IsRankIndex(k.index, k.keys, shards, r, layers)
  }

  function Indexes<T>(ranks: seq<Rank<T>>): (s: seq<map<Key, nat>>)
    ensures |s| == |ranks| && forall r :: 0 <= r < |s| ==> s[r] == ranks[r].index
  {
    seq(|ranks|, r requires 0 <= r < |ranks| => ranks[r].index)
  }

  /** Piece i of rank r holds the key. */
  ghost predicate InPiece(keys: seq<Key>, shards: seq<nat>, layers: nat, r: nat, i: nat, k: Key)
    requires r < |shards| && shards[r] > 0
  {
    var pieces := ArraySplit(keys, shards[r] * SavesPerLayer(layers));
    i < |pieces| && k in pieces[i]
  }

  lemma RankListsLayer<T>(cfg: StateDictMerge.Config, k: Rank<T>, shards: seq<nat>, r: nat, layers: nat, g: nat)
    requires r < |shards| && SavedRank(cfg, k, shards, r, layers)
    ensures InRange(shards, r, g) <==> exists name :: Layer(g, name) in k.index
  {
    StateDictMerge.RankFillsRange(cfg, k.dicts, k.sizes, shards, r, g);
    var merged := StateDictMerge.MergedState(cfg, k.dicts, shards, r);
    forall name ensures Layer(g, name) in k.index <==> Layer(g, name) in merged {
      assert Layer(g, name) in (set key | key in k.keys) <==> Layer(g, name) in merged.Keys;
    }
    if InRange(shards, r, g) {
      var name :| Layer(g, name) in merged;
      assert Layer(g, name) in k.index;
    }
  }

  /** The gathered index lists a layer key under the file of the one piece, of the one rank, that holds it. */
  lemma {:induction false} LayerKeyListedOnce<T>(
      cfg: StateDictMerge.Config, ranks: seq<Rank<T>>, shards: seq<nat>, layers: nat, r: nat, i: nat, k: Key)
    requires Saved(cfg, ranks, shards, layers) && r < |ranks| && k.Layer?
    requires InPiece(ranks[r].keys, shards, layers, r, i, k)
    ensures k in Gathered(Indexes(ranks))
    ensures Gathered(Indexes(ranks))[k] == FileIndex(shards, SavesPerLayer(layers), r, i)
    ensures forall q :: 0 <= q < |ranks| && q != r ==> k !in ranks[q].index
  {
    assert SavedRank(cfg, ranks[r], shards, r, layers);
    assert k == Layer(k.no, k.name) && k in ranks[r].index;
    RankListsLayer(cfg, ranks[r], shards, r, layers, k.no);
    forall q | 0 <= q < |ranks| && q != r ensures k !in ranks[q].index {
      assert SavedRank(cfg, ranks[q], shards, q, layers);
      RankListsLayer(cfg, ranks[q], shards, q, layers, k.no);
      if k in ranks[q].index {
        Once(shards, k.no, r, q);
      }
    }
    GatheredKeeps(Indexes(ranks), r, k);
  }

  /** The gathered index has entries for exactly the layers of the model. */
  lemma {:induction false} IndexHasAllLayers<T>(
      cfg: StateDictMerge.Config, ranks: seq<Rank<T>>, shards: seq<nat>, layers: nat, g: nat)
    requires Saved(cfg, ranks, shards, layers)
    ensures g < Total(shards) <==> exists name :: Layer(g, name) in Gathered(Indexes(ranks))
  {
    LayersPartitioned(shards, g);
    if g < Total(shards) {
      var r: nat :| InRange(shards, r, g);
      assert SavedRank(cfg, ranks[r], shards, r, layers);
      RankListsLayer(cfg, ranks[r], shards, r, layers, g);
      var name :| Layer(g, name) in ranks[r].index;
      assert Layer(g, name) in Indexes(ranks)[r];
      GatheredKeys(Indexes(ranks), Layer(g, name));
    }
    if name :| Layer(g, name) in Gathered(Indexes(ranks)) {
      GatheredKeys(Indexes(ranks), Layer(g, name));
      var r :| 0 <= r < |ranks| && Layer(g, name) in Indexes(ranks)[r];
      assert SavedRank(cfg, ranks[r], shards, r, layers);
      RankListsLayer(cfg, ranks[r], shards, r, layers, g);
    }
  }
}
