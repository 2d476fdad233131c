/** Padding a batch container to a divisor and cutting it into chunks: both are undone exactly. */
module ProtoChunks {
  import opened Arithmetic
  import opened DataProto
  import Numpy
  import opened Wrappers

  // ---------------------------------------------------------------- padding

  /** The first m entries of the endless repetition of s. */
  function Cycle<V>(s: seq<V>, m: nat): seq<V>
    requires s == [] ==> m == 0
  {
    seq(m, i requires 0 <= i < m => s[i % |s|])
  }

  function CycleDict<V>(d: Dict<V>, m: nat): Dict<V>
    requires forall k :: k in d && d[k] == [] ==> m == 0
  {
    map k | k in d :: Cycle(d[k], m)
  }

  /** m rows, row i being the original row i mod n, in every column. */
  function Cycled<V>(p: Proto<V>, ghost n: nat, m: nat): Proto<V>
    requires HasRows(p, n) && (n == 0 ==> m == 0)
  {
    Proto(if p.batch.None? then None else Some(Batch(m, CycleDict(p.batch.value.columns, m))), CycleDict(p.nonTensor, m))
  }

  /** `unpad_dataproto`: `data[:-pad]` unless pad is 0. */
  function Unpad<V>(p: Proto<V>, n: nat, pad: nat): Proto<V> {
    if pad == 0 then p else Slice(p, 0, if pad <= n then n - pad else 0)
  }

  lemma CycledRows<V>(p: Proto<V>, n: nat, m: nat)
    requires HasRows(p, n) && (n == 0 ==> m == 0)
    ensures HasRows(Cycled(p, n, m), m) && SameSchema(p, Cycled(p, n, m))
  {
  }

  lemma CycleDictSlice<V>(d: Dict<V>, n: nat, a: nat, t: nat)
    requires DictRows(d, n) && n > 0 && a % n == 0 && t <= n
    ensures AppendDict(CycleDict(d, a), SliceDict(d, 0, t)) == CycleDict(d, a + t)
  {
    forall k | k in d ensures Cycle(d[k], a) + Clip(d[k], 0, t) == Cycle(d[k], a + t) {
      CycleGrows(d[k], a, t);
    }
  }

  lemma CycleGrows<V>(s: seq<V>, a: nat, t: nat)
    requires s != [] && a % |s| == 0 && t <= |s|
    ensures Cycle(s, a) + Clip(s, 0, t) == Cycle(s, a + t)
  {
    forall i | 0 <= i < t ensures s[i] == Cycle(s, a + t)[a + i] {
      SameResidue(a, |s|, i);
    }
  }

  lemma SameResidue(a: nat, n: nat, t: nat)
    requires n > 0 && a % n == 0 && t < n
    ensures (a + t) % n == t
  {
    var q := a / n;
    assert a + t == q * n + t;
    QuotientIs(a + t, n, q, t);
  }

  /** Appending the first rows to a whole number of repetitions continues the repetition. */
  lemma CycleAppend<V>(p: Proto<V>, n: nat, a: nat, t: nat)
    requires HasRows(p, n) && n > 0 && a % n == 0 && t <= n
    ensures SameSchema(Cycled(p, n, a), Slice(p, 0, t))
    ensures Append(Cycled(p, n, a), Slice(p, 0, t)) == Cycled(p, n, a + t)
  {
    CycleDictSlice(p.nonTensor, n, a, t);
    if p.batch.Some? {
      CycleDictSlice(p.batch.value.columns, n, a, t);
    }
  }

  lemma CycleSlice<V>(p: Proto<V>, n: nat, m: nat)
    requires HasRows(p, n) && (n == 0 ==> m == 0) && n <= m
    ensures Slice(Cycled(p, n, m), 0, n) == p
  {
    CycleDictTake(p.nonTensor, n, m);
    if p.batch.Some? {
      CycleDictTake(p.batch.value.columns, n, m);
    }
  }

  lemma CycleDictTake<V>(d: Dict<V>, n: nat, m: nat)
    requires DictRows(d, n) && (n == 0 ==> m == 0) && n <= m
    ensures SliceDict(CycleDict(d, m), 0, n) == d
  {
    forall k | k in d ensures Clip(Cycle(d[k], m), 0, n) == d[k] {
      CycleTake(d[k], m);
    }
  }

  lemma CycleTake<V>(s: seq<V>, m: nat)
    requires (s == [] ==> m == 0) && |s| <= m
    ensures Clip(Cycle(s, m), 0, |s|) == s
  {
    forall i | 0 <= i < |s| ensures i % |s| == i {
      QuotientIs(i, |s|, 0, i);
    }
  }

  /** q has m rows, row i being row i mod n of p, in every column. */
  ghost predicate Repeats<V>(p: Proto<V>, n: nat, q: Proto<V>, m: nat) {
    && SameSchema(p, q) && HasRows(q, m) && (m > 0 ==> n > 0)
    && (forall k, i :: k in q.nonTensor && 0 <= i < m ==>
          i < |q.nonTensor[k]| && i % n < |p.nonTensor[k]| && q.nonTensor[k][i] == p.nonTensor[k][i % n])
    && (p.batch.Some? ==>
          var b, c := p.batch.value.columns, q.batch.value.columns;
          forall k, i :: k in c && 0 <= i < m ==> i < |c[k]| && i % n < |b[k]| && c[k][i] == b[k][i % n])
  }

  lemma CycledRepeats<V>(p: Proto<V>, n: nat, m: nat)
    requires HasRows(p, n) && (n == 0 ==> m == 0)
    ensures Repeats(p, n, Cycled(p, n, m), m)
  {
    hide Cycle;
    CycledRows(p, n, m);
    forall k | k in p.nonTensor ensures forall i :: 0 <= i < m ==> Cycle(p.nonTensor[k], m)[i] == p.nonTensor[k][i % n] {
      CycleAt(p.nonTensor[k], m);
    }
    if p.batch.Some? {
      var b := p.batch.value.columns;
      forall k | k in b ensures forall i :: 0 <= i < m ==> Cycle(b[k], m)[i] == b[k][i % n] {
        CycleAt(b[k], m);
      }
    }
  }

  lemma CycleAt<V>(s: seq<V>, m: nat)
    requires s == [] ==> m == 0
    ensures |Cycle(s, m)| == m && forall i :: 0 <= i < m ==> 0 <= i % |s| < |s| && Cycle(s, m)[i] == s[i % |s|]
  {
  }

  /** `pad_dataproto_to_divisor`. */
  method PadToDivisor<V>(data: Proto<V>, ghost n: nat, divisor: nat) returns (padded: Option<Proto<V>>, padSize: nat)
    requires HasRows(data, n) && divisor > 0
    ensures padSize < divisor && (n + padSize) % divisor == 0 && (n == 0 ==> padSize == 0)
    ensures padded == Some(Cycled(data, n, n + padSize)) && Repeats(data, n, padded.value, n + padSize)
  {
    hide HasRows, Cycled, Slice, Concatenation, SameSchema, Repeats;
    var len := Length(data);
    CycleWhole(data, n);
    if len % divisor != 0 {
      padSize := divisor - len % divisor;
      PaddedDivides(len, divisor);
      assert n > 0;
      var paddingProtos := [];
      var remaining := padSize;
      ConcatOne(data, n);
      assert [data] + paddingProtos == [data];
      while remaining > 0
        invariant 0 <= remaining <= padSize
        invariant remaining > 0 ==> (n + (padSize - remaining)) % n == 0
        invariant Concatenation([data] + paddingProtos) == Some(Cycled(data, n, n + (padSize - remaining)))
      {
        var take := if len < remaining then len else remaining;
        PadStep(data, n, [data] + paddingProtos, n + (padSize - remaining), take);
        assert [data] + paddingProtos + [Slice(data, 0, take)] == [data] + (paddingProtos + [Slice(data, 0, take)]);
        paddingProtos := paddingProtos + [Slice(data, 0, take)];
        remaining := remaining - take;
      }
      assert n + (padSize - remaining) == n + padSize;
      padded := Concat([data] + paddingProtos);
    } else {
      padSize := 0;
      assert n + padSize == n;
      padded := Some(data);
    }
    CycledRepeats(data, n, n + padSize);
  }

  lemma CycleWhole<V>(p: Proto<V>, n: nat)
    requires HasRows(p, n)
    ensures Cycled(p, n, n) == p
  {
    CycleDictWhole(p.nonTensor, n);
    if p.batch.Some? {
      CycleDictWhole(p.batch.value.columns, n);
    }
  }

  lemma CycleDictWhole<V>(d: Dict<V>, n: nat)
    requires DictRows(d, n)
    ensures CycleDict(d, n) == d
  {
    forall k | k in d ensures Cycle(d[k], n) == d[k] {
      CycleTake(d[k], n);
      assert Clip(Cycle(d[k], n), 0, n) == Cycle(d[k], n);
    }
  }

  lemma PaddedDivides(len: nat, divisor: nat)
    requires divisor > 0 && len % divisor != 0
    ensures (len + (divisor - len % divisor)) % divisor == 0 && len > 0
  {
    var q := len / divisor;
    assert (q + 1) * divisor == q * divisor + divisor;
    QuotientIs(len + (divisor - len % divisor), divisor, q + 1, 0);
  }

  lemma PadStep<V>(p: Proto<V>, n: nat, data: seq<Proto<V>>, m: nat, take: nat)
    requires HasRows(p, n) && n > 0 && m % n == 0 && take <= n
    requires Concatenation(data) == Some(Cycled(p, n, m))
    ensures Concatenation(data + [Slice(p, 0, take)]) == Some(Cycled(p, n, m + take))
    ensures take == n ==> (m + take) % n == 0
  {
    hide Cycled, Slice, Concatenation, SameSchema, Append;
    SliceRows(p, n, 0, take);
    CycledRows(p, n, m);
    CycleAppend(p, n, m, take);
    ConcatSnoc(data, Cycled(p, n, m), m, Slice(p, 0, take), take);
    NextMultiple(m, n);
  }

  lemma NextMultiple(m: nat, n: nat)
    requires n > 0 && m % n == 0
    ensures (m + n) % n == 0
  {
    var q := m / n;
    assert (q + 1) * n == q * n + n;
    QuotientIs(m + n, n, q + 1, 0);
  }

  /** Unpadding what was padded gives the container back. */
  lemma UnpadRestores<V>(p: Proto<V>, n: nat, pad: nat)
    requires HasRows(p, n) && (n == 0 ==> pad == 0)
    ensures Unpad(Cycled(p, n, n + pad), n + pad, pad) == p
  {
    CycleSlice(p, n, n + pad);
    CycleWhole(p, n);
  }

  // ---------------------------------------------------------------- chunks

  /** The rounded-up piece size of `TensorDict.chunk`. */
  function PieceSize(n: nat, chunks: nat): nat
    requires chunks > 0
  {
    (n + chunks - 1) / chunks
  }

  /** How many pieces of that size there are. */
  function PieceCount(n: nat, chunks: nat): nat
    requires chunks > 0 && n > 0
  {
    PieceSizePositive(n, chunks);
    PieceSize(n, PieceSize(n, chunks))
  }

  lemma PieceSizePositive(n: nat, chunks: nat)
    requires chunks > 0 && n > 0
    ensures PieceSize(n, chunks) > 0
  {
    assert n + chunks - 1 == PieceSize(n, chunks) * chunks + (n + chunks - 1) % chunks;
  }

  /** Cut points every `size` rows. */
  function Steps(n: nat, size: nat, count: nat): seq<nat> {
    seq(count + 1, i requires 0 <= i <= count => Min(i * size, n))
  }

  /** Cut points of `np.array_split(rows, chunks)`. */
  function Even(n: nat, chunks: nat): seq<nat>
    requires chunks > 0
  {
    seq(chunks + 1, i requires 0 <= i <= chunks => Numpy.PieceStart(n, chunks, i))
  }

  lemma StepsAreBounds(n: nat, size: nat)
    requires n > 0 && size > 0
    ensures Bounds(Steps(n, size, PieceSize(n, size)), n) && PieceSize(n, size) > 0
  {
    var count := PieceSize(n, size);
    PieceSizePositive(n, size);
    RoundedUp(n, size);
    forall i, j | 0 <= i <= j <= count ensures Min(i * size, n) <= Min(j * size, n) {
      MulGrows(i, j, size);
    }
  }

  lemma RoundedUp(n: nat, size: nat)
    requires size > 0
    ensures n <= PieceSize(n, size) * size < n + size
  {
    assert n + size - 1 == PieceSize(n, size) * size + (n + size - 1) % size;
  }

  lemma RoundedUpLeast(n: nat, size: nat, count: nat)
    requires size > 0 && n <= size * count
    ensures PieceSize(n, size) <= count
  {
    var d := PieceSize(n, size) - count;
    RoundedUp(n, size);
    assert PieceSize(n, size) * size == size * count + size * d;
    FarFromZero(size, d);
  }

  lemma EvenIsBounds(n: nat, chunks: nat)
    requires chunks > 0
    ensures Bounds(Even(n, chunks), n)
  {
    Numpy.PieceStartBounds(n, chunks, 0);
    forall i, j | 0 <= i <= j <= chunks
      ensures Numpy.PieceStart(n, chunks, i) <= Numpy.PieceStart(n, chunks, j)
    {
      MulGrows(i, j, n / chunks);
    }
  }

  /** Where the batch's chunks end, except the last: `np.cumsum(sizes)[:-1]`. */
  function SizeSums<V>(batches: seq<Batch<V>>, i: nat): nat
    requires i <= |batches|
  {
    if i == 0 then 0 else SizeSums(batches, i - 1) + batches[i - 1].size
  }

  function ChunkIndices<V>(batches: seq<Batch<V>>): seq<nat> {
    seq(if batches == [] then 0 else |batches| - 1, i requires 0 <= i && i + 1 < |batches| => SizeSums(batches, i + 1))
  }

  /** `TensorDict.chunk`.  Into how many pieces the library cuts an empty batch is the parameter `empties`
      (0 if it refuses). */
  function ChunkBatch<V>(b: Batch<V>, chunks: nat, empties: nat): seq<Batch<V>>
    requires chunks > 0
  {
    if b.size == 0 then seq(empties, i requires 0 <= i < empties => SliceBatch(b, 0, 0))
    else
      var size := PieceSize(b.size, chunks);
      seq(PieceCount(b.size, chunks), i requires 0 <= i < PieceCount(b.size, chunks) =>
        SliceBatch(b, i * size, (i + 1) * size))
  }

  /** `np.array_split(s, indices)`. */
  function SplitAt<V>(s: seq<V>, indices: seq<nat>): seq<seq<V>> {
    seq(|indices| + 1, i requires 0 <= i <= |indices| =>
      Clip(s, if i == 0 then 0 else indices[i - 1], if i == |indices| then |s| else indices[i]))
  }

  /** The pieces of one column between cut points. */
  function Cut<V>(s: seq<V>, bounds: seq<nat>): seq<seq<V>>
    requires |bounds| > 0
  {
    seq(|bounds| - 1, i requires 0 <= i < |bounds| - 1 => Clip(s, bounds[i], bounds[i + 1]))
  }

  function CutDict<V>(d: Dict<V>, bounds: seq<nat>): seq<Dict<V>>
    requires |bounds| > 0
  {
    seq(|bounds| - 1, i requires 0 <= i < |bounds| - 1 => SliceDict(d, bounds[i], bounds[i + 1]))
  }

  /** Where `chunk` cuts n rows. */
  function ChunkBounds<V>(p: Proto<V>, n: nat, chunks: nat): seq<nat>
    requires chunks > 0
  {
    if p.batch.Some? && n > 0 then Steps(n, PieceSize(n, chunks), PieceCount(n, chunks)) else Even(n, chunks)
  }

  /** When `chunk` returns: equal chunks, or padding enabled and as many pieces as asked for. */
  predicate Chunkable<V>(p: Proto<V>, n: nat, chunks: nat, padding: bool, empties: nat)
    requires chunks > 0
  {
    && (n % chunks == 0 || padding)
    && (p.batch.Some? && n > 0 ==> PieceCount(n, chunks) == chunks)
    && (p.batch.Some? && n == 0 ==> if p.nonTensor == map[] then empties >= chunks else empties == chunks)
  }

  /** Where the arrays are cut: like the batch, however many pieces that has. */
  function ArrayCuts<V>(p: Proto<V>, n: nat, chunks: nat, empties: nat): seq<nat>
    requires chunks > 0
  {
    if p.batch.Some? && n == 0 then Even(0, Max(1, empties)) else ChunkBounds(p, n, chunks)
  }

  lemma BoundsAreCuts<V>(p: Proto<V>, n: nat, chunks: nat)
    requires chunks > 0
    ensures Bounds(ChunkBounds(p, n, chunks), n)
    ensures |ChunkBounds(p, n, chunks)| - 1 == if p.batch.Some? && n > 0 then PieceCount(n, chunks) else chunks
  {
    if p.batch.Some? && n > 0 {
      PieceSizePositive(n, chunks);
      StepsAreBounds(n, PieceSize(n, chunks));
    } else {
      EvenIsBounds(n, chunks);
    }
  }

  /** The cumulative sizes of the batch's chunks are the cut points. */
  lemma {:induction false} SumsAreSteps<V>(b: Batch<V>, chunks: nat, empties: nat, i: nat)
    requires chunks > 0 && b.size > 0 && i <= PieceCount(b.size, chunks)
    ensures SizeSums(ChunkBatch(b, chunks, empties), i)
         == Steps(b.size, PieceSize(b.size, chunks), PieceCount(b.size, chunks))[i]
  {
    if i > 0 {
      SumsAreSteps(b, chunks, empties, i - 1);
      NextStep(b, PieceSize(b.size, chunks), i - 1);
    }
  }

  lemma NextStep<V>(b: Batch<V>, size: nat, i: nat)
    ensures i * size <= (i + 1) * size
    ensures Min(i * size, b.size) + SliceBatch(b, i * size, (i + 1) * size).size == Min((i + 1) * size, b.size)
  {
    MulGrows(i, i + 1, size);
  }

  lemma SplitIsCut<V>(s: seq<V>, bounds: seq<nat>, indices: seq<nat>)
    requires Bounds(bounds, |s|) && indices == bounds[1..|bounds| - 1]
    ensures SplitAt(s, indices) == Cut(s, bounds)
  {
  }

  lemma EvenSplitIsCut<V>(s: seq<V>, chunks: nat)
    requires chunks > 0
    ensures Numpy.ArraySplit(s, chunks) == Cut(s, Even(|s|, chunks))
  {
    hide Numpy.PieceStart;
    forall i | 0 <= i < chunks ensures Numpy.ArraySplit(s, chunks)[i] == Cut(s, Even(|s|, chunks))[i] {
      Numpy.PieceStartBounds(|s|, chunks, i);
    }
  }

  lemma ClipPastEnd<V>(b: Batch<V>, size: nat, i: nat)
    requires DictRows(b.columns, b.size)
    ensures SliceBatch(b, i * size, (i + 1) * size) == SliceBatch(b, Min(i * size, b.size), Min((i + 1) * size, b.size))
  {
    MulGrows(i, i + 1, size);
    ClampedSlice(b, i * size, (i + 1) * size);
  }

  lemma ClampedSlice<V>(b: Batch<V>, lo: nat, hi: nat)
    requires DictRows(b.columns, b.size) && lo <= hi
    ensures SliceBatch(b, lo, hi) == SliceBatch(b, Min(lo, b.size), Min(hi, b.size))
  {
    var x, y := SliceDict(b.columns, lo, hi), SliceDict(b.columns, Min(lo, b.size), Min(hi, b.size));
    forall k | k in b.columns ensures x[k] == y[k] {
    }
    assert x == y;
  }

  function WithPieces<V>(lists: seq<Dict<V>>, key: Key, pieces: seq<seq<V>>): seq<Dict<V>>
    requires |pieces| == |lists|
  {
    seq(|lists|, i requires 0 <= i < |lists| => lists[i][key := pieces[i]])
  }

  /** The inner loop over the chunks of one array. */
  method SetPieces<V>(lists: seq<Dict<V>>, key: Key, pieces: seq<seq<V>>) returns (out: seq<Dict<V>>)
    requires |pieces| == |lists|
    ensures out == WithPieces(lists, key, pieces)
  {
    out := lists;
    for i := 0 to |lists|
      invariant out == WithPieces(lists, key, pieces)[..i] + lists[i..]
    {
      out := out[i := out[i][key := pieces[i]]];
    }
  }

  /** The columns not in `todo`, cut. */
  function CutBut<V>(d: Dict<V>, todo: set<Key>, bounds: seq<nat>): seq<Dict<V>>
    requires |bounds| > 0
  {
    seq(|bounds| - 1, i requires 0 <= i < |bounds| - 1 =>
      map k | k in d && k !in todo :: Clip(d[k], bounds[i], bounds[i + 1]))
  }

  lemma CutOne<V>(d: Dict<V>, todo: set<Key>, bounds: seq<nat>, key: Key)
    requires |bounds| > 0 && key in d && key in todo
    ensures WithPieces(CutBut(d, todo, bounds), key, Cut(d[key], bounds)) == CutBut(d, todo - {key}, bounds)
  {
    var x, y := WithPieces(CutBut(d, todo, bounds), key, Cut(d[key], bounds)), CutBut(d, todo - {key}, bounds);
    forall i | 0 <= i < |bounds| - 1 ensures x[i] == y[i] {
      assert x[i].Keys == y[i].Keys;
    }
  }

  lemma CutNone<V>(d: Dict<V>, bounds: seq<nat>)
    requires |bounds| > 0
    ensures CutBut(d, d.Keys, bounds) == Empties(|bounds| - 1)
  {
    forall i | 0 <= i < |bounds| - 1 ensures CutBut(d, d.Keys, bounds)[i] == map[] {
      assert CutBut(d, d.Keys, bounds)[i].Keys == {};
    }
  }

  lemma CutAll<V>(d: Dict<V>, bounds: seq<nat>)
    requires |bounds| > 0
    ensures CutBut(d, {}, bounds) == CutDict(d, bounds)
  {
    forall i | 0 <= i < |bounds| - 1 ensures CutBut(d, {}, bounds)[i] == CutDict(d, bounds)[i] {
      assert CutBut(d, {}, bounds)[i].Keys == CutDict(d, bounds)[i].Keys;
    }
  }

  function Empties<V>(n: nat): seq<Dict<V>> {
    seq(n, i requires 0 <= i < n => map[])
  }

  /** The library's split of every array is the cut at these points. */
  ghost predicate CutBy<V>(d: Dict<V>, bounds: seq<nat>, chunks: nat, indices: Option<seq<nat>>)
    requires |bounds| > 0 && chunks > 0
  {
    forall k :: k in d ==>
      Cut(d[k], bounds) == if indices.Some? then SplitAt(d[k], indices.value) else Numpy.ArraySplit(d[k], chunks)
  }

  /** The loop over the arrays: None when some array is not cut into as many pieces as asked for. */
  method SplitArrays<V>(d: Dict<V>, chunks: nat, indices: Option<seq<nat>>, ghost bounds: seq<nat>)
    returns (r: Option<seq<Dict<V>>>)
    requires |bounds| > 1 && chunks > 0
    requires CutBy(d, bounds, chunks, indices)
    ensures |bounds| - 1 == chunks ==> r == Some(CutDict(d, bounds))
    ensures |bounds| - 1 != chunks && d != map[] ==> r == None
    ensures |bounds| - 1 != chunks && d == map[] ==> r == Some(Empties(chunks))
  {
    hide CutBut, CutDict, WithPieces, Empties, SplitAt, Numpy.ArraySplit;
    var lists: seq<Dict<V>> := Empties(chunks);
    EmptiesLength<V>(chunks);
    var todo := d.Keys;
    CutNone(d, bounds);
    while todo != {}
      invariant todo <= d.Keys && |lists| == chunks
      invariant lists == if |bounds| - 1 == chunks then CutBut(d, todo, bounds) else Empties(chunks)
      invariant |bounds| - 1 == chunks || todo == d.Keys
      decreases |todo|
    {
      var key :| key in todo;
      var pieces := if indices.Some? then SplitAt(d[key], indices.value) else Numpy.ArraySplit(d[key], chunks);
      if |pieces| != chunks {
        return None;
      }
      lists := SetPieces(lists, key, pieces);
      CutOne(d, todo, bounds, key);
      WithPiecesLength(CutBut(d, todo, bounds), key, pieces);
      todo := todo - {key};
    }
    CutAll(d, bounds);
    r := Some(lists);
  }

  lemma EmptiesLength<V>(n: nat)
    ensures |Empties<V>(n)| == n
  {
  }

  lemma WithPiecesLength<V>(lists: seq<Dict<V>>, key: Key, pieces: seq<seq<V>>)
    requires |pieces| == |lists|
    ensures |WithPieces(lists, key, pieces)| == |lists|
  {
  }

  function Item<V>(batches: Option<seq<Batch<V>>>, lists: seq<Dict<V>>, i: nat): Proto<V>
    requires i < |lists| && (batches.Some? ==> i < |batches.value|)
  {
    Proto(if batches.Some? then Some(batches.value[i]) else None, lists[i])
  }

  function Assembled<V>(batches: Option<seq<Batch<V>>>, lists: seq<Dict<V>>): seq<Proto<V>>
    requires batches.Some? ==> |lists| <= |batches.value|
  {
    seq(|lists|, i requires 0 <= i < |lists| => Item(batches, lists, i))
  }

  /** The last loop: None when there are fewer batches than chunks. */
  method Assemble<V>(batches: Option<seq<Batch<V>>>, lists: seq<Dict<V>>) returns (r: Option<seq<Proto<V>>>)
    ensures batches.Some? && |batches.value| < |lists| ==> r == None
    ensures !(batches.Some? && |batches.value| < |lists|) ==>
              r == Some(Assembled(batches, lists))
  {
    var output := [];
    for i := 0 to |lists|
      invariant batches.Some? ==> i <= |batches.value|
      invariant |output| == i && forall j :: 0 <= j < i ==> output[j] == Item(batches, lists, j)
    {
      if batches.Some? && i >= |batches.value| {
        return None;
      }
      output := output + [Item(batches, lists, i)];
    }
    assert output == Assembled(batches, lists);
    r := Some(output);
  }

  /** `chunk`; None where it raises. */
  method Chunk<V>(p: Proto<V>, ghost n: nat, chunks: nat, padding: bool, empties: nat) returns (r: Option<seq<Proto<V>>>)
    requires HasRows(p, n) && chunks > 0
    ensures r == if Chunkable(p, n, chunks, padding, empties) then Some(Slices(p, ChunkBounds(p, n, chunks))) else None
  {
    var len := Length(p);
    if !padding && len % chunks != 0 {
      return None;
    }
    hide ChunkBounds, ArrayCuts, Slices, HasRows, CutBy, CutDict, ChunkIndices, PieceCount, ChunkBatch, Assembled, Empties;
    var batches := None;
    var indices := None;
    if p.batch.Some? {
      batches := Some(ChunkBatch(p.batch.value, chunks, empties));
      indices := Some(ChunkIndices(batches.value));
    }
    ColumnsCut(p, n, chunks, empties, indices);
    CutCounts(p, n, chunks, empties);
    var lists := SplitArrays(p.nonTensor, chunks, indices, ArrayCuts(p, n, chunks, empties));
    if lists.None? {
      return None;
    }
    SplitLengths(p, n, chunks, empties, lists.value);
    r := Assemble(batches, lists.value);
    if Chunkable(p, n, chunks, padding, empties) {
      ItemsAreSlices(p, n, chunks, empties, batches, lists.value);
    }
  }

  /** How many pieces the batch and the arrays are cut into. */
  lemma CutCounts<V>(p: Proto<V>, n: nat, chunks: nat, empties: nat)
    requires HasRows(p, n) && chunks > 0
    ensures var count := |ArrayCuts(p, n, chunks, empties)| - 1;
            && count == (if p.batch.None? then chunks else if n > 0 then PieceCount(n, chunks) else Max(1, empties))
            && (p.batch.Some? ==>
                  |ChunkBatch(p.batch.value, chunks, empties)| == if n > 0 then count else empties)
    ensures p.batch.Some? && n > 0 ==> PieceCount(n, chunks) <= chunks
  {
    BoundsAreCuts(p, n, chunks);
    if p.batch.Some? && n > 0 {
      BatchCount(n, chunks);
    }
  }

  lemma BatchCount(n: nat, chunks: nat)
    requires chunks > 0 && n > 0
    ensures 0 < PieceCount(n, chunks) <= chunks
  {
    PieceSizePositive(n, chunks);
    PieceSizePositive(n, PieceSize(n, chunks));
    RoundedUp(n, chunks);
    RoundedUpLeast(n, PieceSize(n, chunks), chunks);
  }

  lemma SplitLengths<V>(p: Proto<V>, n: nat, chunks: nat, empties: nat, lists: seq<Dict<V>>)
    requires chunks > 0 && |ArrayCuts(p, n, chunks, empties)| > 0
    requires lists == CutDict(p.nonTensor, ArrayCuts(p, n, chunks, empties)) || lists == Empties(chunks)
    ensures |ArrayCuts(p, n, chunks, empties)| - 1 == chunks ==> |lists| == chunks
    ensures lists == Empties(chunks) ==> |lists| == chunks
  {
  }

  lemma BatchSlices<V>(b: Batch<V>, chunks: nat, empties: nat, i: nat)
    requires chunks > 0 && b.size > 0 && DictRows(b.columns, b.size) && i < PieceCount(b.size, chunks)
    ensures var steps := Steps(b.size, PieceSize(b.size, chunks), PieceCount(b.size, chunks));
            && i < |ChunkBatch(b, chunks, empties)|
            && ChunkBatch(b, chunks, empties)[i] == SliceBatch(b, steps[i], steps[i + 1])
  {
    hide SliceBatch;
    ClipPastEnd(b, PieceSize(b.size, chunks), i);
  }

  lemma ItemsAreSlices<V>(p: Proto<V>, n: nat, chunks: nat, empties: nat, batches: Option<seq<Batch<V>>>,
                          lists: seq<Dict<V>>)
    requires HasRows(p, n) && chunks > 0 && |lists| == chunks
    requires |ChunkBounds(p, n, chunks)| - 1 == chunks
    requires |ArrayCuts(p, n, chunks, empties)| > 0
    requires if |ArrayCuts(p, n, chunks, empties)| - 1 == chunks
             then lists == CutDict(p.nonTensor, ArrayCuts(p, n, chunks, empties))
             else p.nonTensor == map[] && lists == Empties(chunks)
    requires p.batch.Some? ==> batches == Some(ChunkBatch(p.batch.value, chunks, empties)) && |batches.value| >= chunks
    requires p.batch.None? ==> batches == None
    ensures Assembled(batches, lists) == Slices(p, ChunkBounds(p, n, chunks))
  {
    if p.batch.Some? && n == 0 {
      EmptyItems(p, chunks, empties, batches, lists);
    } else {
      FullItems(p, n, chunks, empties, batches, lists);
    }
  }

  lemma FullItems<V>(p: Proto<V>, n: nat, chunks: nat, empties: nat, batches: Option<seq<Batch<V>>>, lists: seq<Dict<V>>)
    requires HasRows(p, n) && chunks > 0 && !(p.batch.Some? && n == 0) && |lists| == chunks
    requires |ChunkBounds(p, n, chunks)| - 1 == chunks
    requires lists == CutDict(p.nonTensor, ChunkBounds(p, n, chunks))
    requires p.batch.Some? ==> batches == Some(ChunkBatch(p.batch.value, chunks, empties)) && |batches.value| >= chunks
    requires p.batch.None? ==> batches == None
    ensures Assembled(batches, lists) == Slices(p, ChunkBounds(p, n, chunks))
  {
    var bounds := ChunkBounds(p, n, chunks);
    hide SliceBatch, SliceDict, PieceCount, ChunkBatch;
    forall i | 0 <= i < chunks ensures Item(batches, lists, i) == Slice(p, bounds[i], bounds[i + 1]) {
      if p.batch.Some? {
        BatchSlices(p.batch.value, chunks, empties, i);
      }
    }
  }

  lemma EmptyItems<V>(p: Proto<V>, chunks: nat, empties: nat, batches: Option<seq<Batch<V>>>, lists: seq<Dict<V>>)
    requires HasRows(p, 0) && chunks > 0 && p.batch.Some? && |lists| == chunks
    requires if Max(1, empties) == chunks then lists == CutDict(p.nonTensor, Even(0, chunks))
             else p.nonTensor == map[] && lists == Empties(chunks)
    requires batches == Some(ChunkBatch(p.batch.value, chunks, empties)) && |batches.value| >= chunks
    ensures Assembled(batches, lists) == Slices(p, Even(0, chunks))
  {
    EvenZero(chunks);
    forall i | 0 <= i < chunks ensures Item(batches, lists, i) == Slice(p, 0, 0) {
      assert lists[i].Keys == SliceDict(p.nonTensor, 0, 0).Keys;
    }
  }

  lemma EvenZero(chunks: nat)
    requires chunks > 0
    ensures forall i :: 0 <= i <= chunks ==> Even(0, chunks)[i] == 0
  {
  }

  /** The library's split of the arrays follows the cut points. */
  lemma ColumnsCut<V>(p: Proto<V>, n: nat, chunks: nat, empties: nat, indices: Option<seq<nat>>)
    requires HasRows(p, n) && chunks > 0
    requires indices == if p.batch.Some? then Some(ChunkIndices(ChunkBatch(p.batch.value, chunks, empties))) else None
    ensures |ArrayCuts(p, n, chunks, empties)| > 1
    ensures CutBy(p.nonTensor, ArrayCuts(p, n, chunks, empties), chunks, indices)
  {
    var bounds := ArrayCuts(p, n, chunks, empties);
    BoundsAreCuts(p, n, chunks);
    if p.batch.Some? {
      if n > 0 {
        IndicesAreInner(p.batch.value, chunks, empties);
      } else {
        EvenIsBounds(0, Max(1, empties));
        EmptyIndices(p.batch.value, chunks, empties);
      }
      forall k | k in p.nonTensor ensures Cut(p.nonTensor[k], bounds) == SplitAt(p.nonTensor[k], indices.value) {
        SplitIsCut(p.nonTensor[k], bounds, indices.value);
      }
    } else {
      forall k | k in p.nonTensor ensures Cut(p.nonTensor[k], bounds) == Numpy.ArraySplit(p.nonTensor[k], chunks) {
        EvenSplitIsCut(p.nonTensor[k], chunks);
      }
    }
  }

  lemma IndicesAreInner<V>(b: Batch<V>, chunks: nat, empties: nat)
    requires chunks > 0 && b.size > 0
    ensures var steps := Steps(b.size, PieceSize(b.size, chunks), PieceCount(b.size, chunks));
            |steps| > 1 && ChunkIndices(ChunkBatch(b, chunks, empties)) == steps[1..|steps| - 1]
  {
    var steps := Steps(b.size, PieceSize(b.size, chunks), PieceCount(b.size, chunks));
    var batches := ChunkBatch(b, chunks, empties);
    PieceSizePositive(b.size, chunks);
    PieceSizePositive(b.size, PieceSize(b.size, chunks));
    forall i | 0 <= i < |steps| - 2 ensures ChunkIndices(batches)[i] == steps[1..|steps| - 1][i] {
      SumsAreSteps(b, chunks, empties, i + 1);
    }
  }

  lemma {:induction false} NoSums<V>(batches: seq<Batch<V>>, i: nat)
    requires i <= |batches| && forall j :: 0 <= j < |batches| ==> batches[j].size == 0
    ensures SizeSums(batches, i) == 0
  {
    if i > 0 {
      NoSums(batches, i - 1);
    }
  }

  lemma EmptyIndices<V>(b: Batch<V>, chunks: nat, empties: nat)
    requires chunks > 0 && b.size == 0
    ensures ChunkIndices(ChunkBatch(b, chunks, empties)) == Even(0, Max(1, empties))[1..Max(1, empties)]
  {
    var batches, cuts := ChunkBatch(b, chunks, empties), Even(0, Max(1, empties));
    EvenZero(Max(1, empties));
    assert SliceBatch(b, 0, 0).size == 0;
    assert forall j :: 0 <= j < |batches| ==> batches[j] == SliceBatch(b, 0, 0);
    forall i | 0 <= i < Max(1, empties) - 1 ensures ChunkIndices(batches)[i] == cuts[1..Max(1, empties)][i] {
      NoSums(batches, i + 1);
    }
  }

  /** Whenever `chunk` returns, concatenating its chunks gives the container back. */
  lemma ChunksRestore<V>(p: Proto<V>, n: nat, chunks: nat)
    requires HasRows(p, n) && chunks > 0
    ensures Concatenation(Slices(p, ChunkBounds(p, n, chunks))) == Some(p)
  {
    BoundsAreCuts(p, n, chunks);
    SlicesRestore(p, n, ChunkBounds(p, n, chunks));
  }

  /** Equal chunks are always possible when the number of chunks divides the rows. */
  lemma DividingChunks<V>(p: Proto<V>, n: nat, chunks: nat, padding: bool, empties: nat)
    requires chunks > 0 && n > 0 && n % chunks == 0
    ensures Chunkable(p, n, chunks, padding, empties)
    ensures forall i :: 0 <= i <= chunks ==> ChunkBounds(p, n, chunks)[i] == i * (n / chunks)
  {
    var w := n / chunks;
    assert n == w * chunks;
    ExactDivision(w, chunks);
    ExactDivision(chunks, w);
  }

  /** A batch with rows can be chunked exactly when all pieces but one, at the rounded-up size, do not use them up. */
  lemma {:induction false} ChunkableExactly<V>(p: Proto<V>, n: nat, chunks: nat, padding: bool, empties: nat)
    requires p.batch.Some? && n > 0 && chunks > 0
    ensures Chunkable(p, n, chunks, padding, empties)
            <==> (n % chunks == 0 || padding) && (chunks - 1) * ((n + chunks - 1) / chunks) < n
  {
    var size, count := PieceSize(n, chunks), PieceCount(n, chunks);
    hide PieceSize, PieceCount;
    PieceSizePositive(n, chunks);
    BatchCount(n, chunks);
    CountReaches(n, chunks);
    FarFromZero(size, count - chunks);
    assert count * size == chunks * size + size * (count - chunks);
    assert (chunks - 1) * size == chunks * size - size;
  }

  lemma CountReaches(n: nat, chunks: nat)
    requires n > 0 && chunks > 0
    ensures n <= PieceCount(n, chunks) * PieceSize(n, chunks) < n + PieceSize(n, chunks)
    ensures PieceSize(n, chunks) == (n + chunks - 1) / chunks
  {
    PieceSizePositive(n, chunks);
    RoundedUp(n, PieceSize(n, chunks));
  }

  /** How many rows chunk i gets: with a batch the rounded-up size, the last chunk what is left; without one, sizes
      that differ by at most one, the larger ones first. */
  function ChunkRows<V>(p: Proto<V>, n: nat, chunks: nat, i: nat): int
    requires chunks > 0
  {
    if p.batch.Some? then BatchChunkRows(n, chunks, i) else EvenChunkRows(n, chunks, i)
  }

  function EvenChunkRows(n: nat, chunks: nat, i: nat): int
    requires chunks > 0
  {
    n / chunks + (if i < n % chunks then 1 else 0)
  }

  function BatchChunkRows(n: nat, chunks: nat, i: nat): int
    requires chunks > 0
  {
    var size := (n + chunks - 1) / chunks;
    if i + 1 < chunks then size else n - (chunks - 1) * size
  }

  lemma {:induction false} ChunksHaveRows<V>(p: Proto<V>, n: nat, chunks: nat, padding: bool, empties: nat, i: nat)
    requires HasRows(p, n) && chunks > 0 && Chunkable(p, n, chunks, padding, empties) && i < chunks
    ensures |ChunkBounds(p, n, chunks)| == chunks + 1 && ChunkRows(p, n, chunks, i) >= 0
    ensures HasRows(Slices(p, ChunkBounds(p, n, chunks))[i], ChunkRows(p, n, chunks, i))
  {
    hide HasRows, PieceSize, PieceCount, Steps, Even, BatchChunkRows, EvenChunkRows;
    BoundsAreCuts(p, n, chunks);
    var bounds := ChunkBounds(p, n, chunks);
    assert bounds[i] <= bounds[i + 1] <= bounds[|bounds| - 1];
    if p.batch.Some? && n > 0 {
      BatchCut(n, chunks, i);
    } else {
      EvenRows(n, chunks, i);
    }
    SliceRows(p, n, bounds[i], bounds[i + 1]);
  }

  lemma BatchCut(n: nat, chunks: nat, i: nat)
    requires n > 0 && i < chunks && PieceCount(n, chunks) == chunks
    ensures var steps := Steps(n, PieceSize(n, chunks), chunks);
            |steps| == chunks + 1 && steps[i + 1] - steps[i] == BatchChunkRows(n, chunks, i)
  {
    hide PieceSize, PieceCount;
    CountReaches(n, chunks);
    assert (chunks - 1) * PieceSize(n, chunks) == chunks * PieceSize(n, chunks) - PieceSize(n, chunks);
    StepRows(n, chunks, PieceSize(n, chunks), i);
  }

  lemma StepRows(n: nat, chunks: nat, size: nat, i: nat)
    requires i < chunks && (chunks - 1) * size < n <= chunks * size
    ensures Min((i + 1) * size, n) - Min(i * size, n) == if i + 1 < chunks then size else n - (chunks - 1) * size
  {
    MulGrows(i + 1, chunks, size);
    assert (i + 1) * size == i * size + size;
    if i + 1 < chunks {
      MulGrows(i + 1, chunks - 1, size);
    }
  }

  lemma EvenRows(n: nat, chunks: nat, i: nat)
    requires i < chunks
    ensures |Even(n, chunks)| == chunks + 1 && Even(n, chunks)[i + 1] - Even(n, chunks)[i] == EvenChunkRows(n, chunks, i)
    ensures n == 0 ==> EvenChunkRows(n, chunks, i) == 0 && BatchChunkRows(n, chunks, i) == 0
  {
    assert (i + 1) * (n / chunks) == i * (n / chunks) + n / chunks;
  }

  /** Five rows cannot be chunked into four, even with padding enabled: pieces of two rows are only three. */
  lemma FiveRowsInFour<V>(p: Proto<V>, empties: nat)
    requires p.batch.Some?
    ensures PieceSize(5, 4) == 2 && PieceCount(5, 4) == 3 && !Chunkable(p, 5, 4, true, empties)
  {
  }

  // ---------------------------------------------------------------- split

  /** `split`: slices of the given size. */
  function Split<V>(p: Proto<V>, n: nat, size: nat): seq<Proto<V>>
    requires size > 0
  {
    seq(PieceSize(n, size), i requires 0 <= i < PieceSize(n, size) => Slice(p, i * size, (i + 1) * size))
  }

  /** A container with rows is restored from its split; an empty one has no pieces, and concatenating none raises. */
  lemma SplitRestores<V>(p: Proto<V>, n: nat, size: nat)
    requires HasRows(p, n) && size > 0
    ensures Concatenation(Split(p, n, size)) == if n > 0 then Some(p) else None
  {
    RoundedUp(n, size);
    if n == 0 {
      RoundedUpLeast(0, size, 0);
    } else {
      StepsAreBounds(n, size);
      SplitIsSlices(p, n, size);
      SlicesRestore(p, n, Steps(n, size, PieceSize(n, size)));
    }
  }

  /** Every piece but the last has `size` rows, and the last has some. */
  lemma {:induction false} SplitRows<V>(p: Proto<V>, n: nat, size: nat, i: nat)
    requires HasRows(p, n) && size > 0 && i < |Split(p, n, size)|
    ensures 0 <= i * size < n
    ensures i + 1 < |Split(p, n, size)| ==> HasRows(Split(p, n, size)[i], size)
    ensures i + 1 == |Split(p, n, size)| ==> HasRows(Split(p, n, size)[i], n - i * size) && n - i * size <= size
  {
    hide HasRows, Slice, PieceSize;
    var count := PieceSize(n, size);
    RoundedUp(n, size);
    PieceEnds(n, size, count, i);
    ClampedProto(p, n, i * size, (i + 1) * size);
    SliceRows(p, n, i * size, Min((i + 1) * size, n));
  }

  lemma PieceEnds(n: nat, size: nat, count: nat, i: nat)
    requires i < count && n <= count * size < n + size
    ensures 0 <= i * size < n && (i + 1) * size == i * size + size
    ensures i + 1 < count ==> (i + 1) * size <= n
    ensures i + 1 == count ==> n <= (i + 1) * size
  {
    assert (count - 1) * size == count * size - size;
    MulGrows(i, count - 1, size);
    if i + 1 < count {
      MulGrows(i + 1, count - 1, size);
    }
  }

  lemma SplitIsSlices<V>(p: Proto<V>, n: nat, size: nat)
    requires HasRows(p, n) && size > 0
    ensures Split(p, n, size) == Slices(p, Steps(n, size, PieceSize(n, size)))
  {
    var bounds := Steps(n, size, PieceSize(n, size));
    forall i | 0 <= i < PieceSize(n, size)
      ensures Slice(p, i * size, (i + 1) * size) == Slice(p, bounds[i], bounds[i + 1])
    {
      MulGrows(i, i + 1, size);
      ClampedProto(p, n, i * size, (i + 1) * size);
    }
  }

  lemma ClampedProto<V>(p: Proto<V>, n: nat, lo: nat, hi: nat)
    requires HasRows(p, n) && lo <= hi
    ensures Slice(p, lo, hi) == Slice(p, Min(lo, n), Min(hi, n))
  {
    ClampedSlice(Batch(n, p.nonTensor), lo, hi);
    if p.batch.Some? {
      ClampedSlice(p.batch.value, lo, hi);
    }
  }

  // ---------------------------------------------------------------- futures

  /** What a future still has to fetch, and which chunk of it: `dispatch_fn` with its i and chunks. */
  datatype Future<V> = Future(outputs: seq<Proto<V>>, dispatch: Option<(nat, nat)>)

  /** `DataProtoFuture.chunk`: a dispatch function of the future itself is replaced. */
  function ChunkFuture<V>(f: Future<V>, chunks: nat): seq<Future<V>> {
    seq(chunks, i requires 0 <= i < chunks => Future(f.outputs, Some((i, chunks))))
  }

  /** The outputs concatenate to p. */
  ghost predicate Holds<V>(f: Future<V>, p: Proto<V>, n: nat) {
    Concatenation(f.outputs) == Some(p) && HasRows(p, n)
  }

  /** A future made by `chunk` selects one of its chunks. */
  ghost predicate Selects<V>(f: Future<V>) {
    f.dispatch.Some? ==> f.dispatch.value.0 < f.dispatch.value.1
  }

  /** What a future yields when its outputs concatenate to p; None where `chunk` raises. */
  function Fetched<V>(f: Future<V>, p: Proto<V>, n: nat, padding: bool, empties: nat): Option<Proto<V>>
    requires Selects(f)
  {
    if f.dispatch.None? then Some(p)
    else
      var (i, chunks) := f.dispatch.value;
      if !Chunkable(p, n, chunks, padding, empties) then None
      else
        BoundsAreCuts(p, n, chunks);
        Some(Slice(p, ChunkBounds(p, n, chunks)[i], ChunkBounds(p, n, chunks)[i + 1]))
  }

  /** `DataProtoFuture.get`; None where concatenating or chunking raises. */
  method Get<V>(f: Future<V>, padding: bool, empties: nat, ghost n: nat) returns (r: Option<Proto<V>>)
    requires Selects(f) && (Concatenation(f.outputs).Some? ==> HasRows(Concatenation(f.outputs).value, n))
    ensures r == if Concatenation(f.outputs).None? then None
                 else Fetched(f, Concatenation(f.outputs).value, n, padding, empties)
  {
    var output := Concat(f.outputs);
    if output.None? || f.dispatch.None? {
      return output;
    }
    var (i, chunks) := f.dispatch.value;
    BoundsAreCuts(output.value, n, chunks);
    var pieces := Chunk(output.value, n, chunks, padding, empties);
    if pieces.None? {
      return None;
    }
    r := Some(pieces.value[i]);
  }

  lemma PartFetched<V>(f: Future<V>, p: Proto<V>, n: nat, chunks: nat, padding: bool, empties: nat, i: nat)
    requires Holds(f, p, n) && i < chunks && Chunkable(p, n, chunks, padding, empties)
    ensures var part := ChunkFuture(f, chunks)[i];
            && Holds(part, p, n) && Selects(part) && |ChunkBounds(p, n, chunks)| == chunks + 1
            && Fetched(part, p, n, padding, empties) == Some(Slices(p, ChunkBounds(p, n, chunks))[i])
  {
    BoundsAreCuts(p, n, chunks);
    hide Concatenation, ChunkBounds, Slice, HasRows, PieceCount;
  }

  /** Whenever the held container can be chunked, every chunk of a future can be fetched, and what they
      fetch, put together, is what the future itself holds. */
  lemma FuturesRestore<V>(f: Future<V>, p: Proto<V>, n: nat, chunks: nat, padding: bool, empties: nat)
    requires Holds(f, p, n) && chunks > 0 && Chunkable(p, n, chunks, padding, empties)
    ensures |ChunkBounds(p, n, chunks)| == chunks + 1 && Concatenation(Slices(p, ChunkBounds(p, n, chunks))) == Some(p)
    ensures forall i :: 0 <= i < chunks ==>
              && Holds(ChunkFuture(f, chunks)[i], p, n) && Selects(ChunkFuture(f, chunks)[i])
              && Fetched(ChunkFuture(f, chunks)[i], p, n, padding, empties)
                   == Some(Slices(p, ChunkBounds(p, n, chunks))[i])
  {
    BoundsAreCuts(p, n, chunks);
    ChunksRestore(p, n, chunks);
    hide Concatenation, ChunkBounds, Slices, HasRows, Chunkable, Holds, Selects, Fetched, ChunkFuture;
    forall i | 0 <= i < chunks {
      PartFetched(f, p, n, chunks, padding, empties, i);
    }
  }
}
