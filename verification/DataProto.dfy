/** The batch container: rows held in tensor columns and in array columns that must stay aligned
    through slicing, padding, chunking and concatenation. */
module DataProto {
  import opened Arithmetic
  import opened Sequences
  import opened Wrappers

  type Key = string
  type Dict<V> = map<Key, seq<V>>

  datatype Batch<V> = Batch(size: nat, columns: Dict<V>)
  datatype Proto<V> = Proto(batch: Option<Batch<V>>, nonTensor: Dict<V>)

  /** Every column has n entries. */
  ghost predicate DictRows<V>(d: Dict<V>, n: nat) {
    forall k :: k in d ==> |d[k]| == n
  }

  /** The container holds n rows, in all of its columns. */
  ghost predicate HasRows<V>(p: Proto<V>, n: nat) {
    && (p.batch.Some? ==> p.batch.value.size == n && DictRows(p.batch.value.columns, n))
    && DictRows(p.nonTensor, n)
    && (p.batch.None? && p.nonTensor == map[] ==> n == 0)
  }

  ghost predicate SameSchema<V>(p: Proto<V>, q: Proto<V>) {
    && p.batch.Some? == q.batch.Some?
    && (p.batch.Some? ==> p.batch.value.columns.Keys == q.batch.value.columns.Keys)
    && p.nonTensor.Keys == q.nonTensor.Keys
  }

  /** `len(p)`. */
  method Length<V>(p: Proto<V>) returns (n: nat)
    ensures forall m :: HasRows(p, m) ==> n == m
  {
    if p.batch.Some? {
      n := p.batch.value.size;
    } else if p.nonTensor != map[] {
      var k :| k in p.nonTensor;
      n := |p.nonTensor[k]|;
    } else {
      n := 0;
    }
  }

  // ---------------------------------------------------------------- slicing

  /** `s[lo:hi]` for non-negative bounds. */
  function Clip<V>(s: seq<V>, lo: nat, hi: nat): seq<V> {
    if lo <= Min(hi, |s|) then s[lo..Min(hi, |s|)] else []
  }

  function SliceDict<V>(d: Dict<V>, lo: nat, hi: nat): Dict<V> {
    map k | k in d :: Clip(d[k], lo, hi)
  }

  function SliceBatch<V>(b: Batch<V>, lo: nat, hi: nat): Batch<V> {
    Batch(if lo <= Min(hi, b.size) then Min(hi, b.size) - lo else 0, SliceDict(b.columns, lo, hi))
  }

  /** `p[lo:hi]`. */
  function Slice<V>(p: Proto<V>, lo: nat, hi: nat): Proto<V> {
    Proto(if p.batch.None? then None else Some(SliceBatch(p.batch.value, lo, hi)), SliceDict(p.nonTensor, lo, hi))
  }

  // ---------------------------------------------------------------- concatenation

  /** The arrays found under one key, in order. */
  function ListsOf<V>(dicts: seq<Dict<V>>, k: Key): seq<seq<V>> {
    if dicts == [] then []
    else ListsOf(dicts[..|dicts| - 1], k) + (if k in dicts[|dicts| - 1] then [dicts[|dicts| - 1][k]] else [])
  }

  /** No dictionary has a key the first one lacks. */
  predicate KeysKnown<V>(dicts: seq<Dict<V>>) {
    forall i :: 0 <= i < |dicts| ==> dicts[i].Keys <= dicts[0].Keys
  }

  function CatDicts<V>(dicts: seq<Dict<V>>): Dict<V>
    requires dicts != []
  {
    map k | k in dicts[0] :: Flatten(ListsOf(dicts, k))
  }

  function Arrays<V>(data: seq<Proto<V>>): seq<Dict<V>> {
    seq(|data|, i requires 0 <= i < |data| => data[i].nonTensor)
  }

  predicate AllBatched<V>(data: seq<Proto<V>>) {
    forall i :: 0 <= i < |data| ==> data[i].batch.Some?
  }

  function Columns<V>(data: seq<Proto<V>>): seq<Dict<V>>
    requires AllBatched(data)
  {
    seq(|data|, i requires 0 <= i < |data| => data[i].batch.value.columns)
  }

  function TotalSize<V>(data: seq<Proto<V>>): nat
    requires AllBatched(data)
  {
    if data == [] then 0 else TotalSize(data[..|data| - 1]) + data[|data| - 1].batch.value.size
  }

  /** `torch.cat` of the batches: all present, with the same columns. */
  predicate Catable<V>(data: seq<Proto<V>>) {
    AllBatched(data) && forall i :: 0 <= i < |data| ==> data[i].batch.value.columns.Keys == data[0].batch.value.columns.Keys
  }

  /** `check_consistency`. */
  predicate Consistent<V>(p: Proto<V>) {
    p.batch.Some? ==> forall k :: k in p.nonTensor ==> |p.nonTensor[k]| == p.batch.value.size
  }

  /** What `concat` returns; None where it raises. */
  function Concatenation<V>(data: seq<Proto<V>>): Option<Proto<V>> {
    if data == [] || !KeysKnown(Arrays(data)) then None
    else if data[0].batch.None? then Some(Proto(None, CatDicts(Arrays(data))))
    else if !Catable(data) then None
    else
      var p := Proto(Some(Batch(TotalSize(data), CatDicts(Columns(data)))), CatDicts(Arrays(data)));
      if Consistent(p) then Some(p) else None
  }

  /** One dictionary's arrays added to the lists of their keys. */
  function Added<V>(lists: map<Key, seq<seq<V>>>, d: Dict<V>): map<Key, seq<seq<V>>> {
    map k | k in lists :: lists[k] + (if k in d then [d[k]] else [])
  }

  /** The inner loop of `list_of_dict_to_dict_of_list`. */
  method AddItems<V>(lists: map<Key, seq<seq<V>>>, d: Dict<V>) returns (output: Option<map<Key, seq<seq<V>>>>)
    ensures output == if d.Keys <= lists.Keys then Some(Added(lists, d)) else None
  {
    var out := lists;
    var todo := d.Keys;
    while todo != {}
      invariant todo <= d.Keys && d.Keys - todo <= lists.Keys
      invariant out.Keys == lists.Keys
      invariant forall k :: k in out ==> out[k] == lists[k] + (if k in d && k !in todo then [d[k]] else [])
      decreases |todo|
    {
      var k :| k in todo;
      if k !in out {
        return None;
      }
      out := out[k := out[k] + [d[k]]];
      todo := todo - {k};
    }
    assert out == Added(lists, d);
    output := Some(out);
  }

  function AllLists<V>(first: Dict<V>, dicts: seq<Dict<V>>): map<Key, seq<seq<V>>> {
    map k | k in first :: ListsOf(dicts, k)
  }

  lemma AllListsStep<V>(first: Dict<V>, dicts: seq<Dict<V>>, n: nat)
    requires n < |dicts|
    ensures Added(AllLists(first, dicts[..n]), dicts[n]) == AllLists(first, dicts[..n + 1])
  {
    assert dicts[..n + 1][..n] == dicts[..n];
  }

  /** `list_of_dict_to_dict_of_list`. */
  method ListOfDictToDictOfList<V>(dicts: seq<Dict<V>>) returns (output: Option<map<Key, seq<seq<V>>>>)
    ensures output == if dicts == [] then Some(map[])
                      else if KeysKnown(dicts) then Some(AllLists(dicts[0], dicts)) else None
  {
    if dicts == [] {
      return Some(map[]);
    }
    hide ListsOf, Added;
    var lists := map k | k in dicts[0] :: [];
    NoLists(dicts[0]);
    assert dicts[..0] == [];
    for i := 0 to |dicts|
      invariant lists == AllLists(dicts[0], dicts[..i])
      invariant forall j :: 0 <= j < i ==> dicts[j].Keys <= dicts[0].Keys
    {
      AllListsStep(dicts[0], dicts, i);
      assert lists.Keys == dicts[0].Keys;
      var added := AddItems(lists, dicts[i]);
      if added.None? {
        return None;
      }
      lists := added.value;
    }
    assert dicts[..|dicts|] == dicts;
    output := Some(lists);
  }

  lemma NoLists<V>(first: Dict<V>)
    ensures AllLists(first, []) == map k | k in first :: []
  {
  }

  /** `concat`. */
  method Concat<V>(data: seq<Proto<V>>) returns (r: Option<Proto<V>>)
    ensures r == Concatenation(data)
  {
    if data == [] {
      return None;
    }
    var newBatch := None;
    if data[0].batch.Some? {
      if !Catable(data) {
        return None;
      }
      newBatch := Some(Batch(TotalSize(data), CatDicts(Columns(data))));
    }
    var lists := ListOfDictToDictOfList(Arrays(data));
    if lists.None? {
      return None;
    }
    var nonTensor := map k | k in lists.value :: Flatten(lists.value[k]);
    assert nonTensor == CatDicts(Arrays(data));
    var p := Proto(newBatch, nonTensor);
    if !Consistent(p) {
      return None;
    }
    r := Some(p);
  }

  // ---------------------------------------------------------------- what concatenation returns, and when

  /** The entries all containers have under an array's key, in order. */
  function ArrayRows<V>(data: seq<Proto<V>>, k: Key): seq<V> {
    if data == [] then []
    else
      var last := data[|data| - 1].nonTensor;
      ArrayRows(data[..|data| - 1], k) + (if k in last then last[k] else [])
  }

  /** The same for a tensor column. */
  function ColumnRows<V>(data: seq<Proto<V>>, k: Key): seq<V> {
    if data == [] then []
    else
      var last := data[|data| - 1].batch;
      ColumnRows(data[..|data| - 1], k) + (if last.Some? && k in last.value.columns then last.value.columns[k] else [])
  }

  function BatchRows<V>(data: seq<Proto<V>>): nat {
    if data == [] then 0
    else
      var last := data[|data| - 1].batch;
      BatchRows(data[..|data| - 1]) + (if last.Some? then last.value.size else 0)
  }

  lemma {:induction false} ArrayLists<V>(data: seq<Proto<V>>, k: Key)
    ensures Flatten(ListsOf(Arrays(data), k)) == ArrayRows(data, k)
  {
    if data != [] {
      var n := |data| - 1;
      ArrayLists(data[..n], k);
      assert Arrays(data)[..n] == Arrays(data[..n]);
      if k in data[n].nonTensor {
        FlattenSnoc(ListsOf(Arrays(data[..n]), k), data[n].nonTensor[k]);
      } else {
        assert ListsOf(Arrays(data), k) == ListsOf(Arrays(data[..n]), k);
      }
    }
  }

  lemma {:induction false} ColumnLists<V>(data: seq<Proto<V>>, k: Key)
    requires AllBatched(data)
    ensures Flatten(ListsOf(Columns(data), k)) == ColumnRows(data, k)
  {
    if data != [] {
      var n := |data| - 1;
      ColumnLists(data[..n], k);
      assert Columns(data)[..n] == Columns(data[..n]);
      if k in data[n].batch.value.columns {
        FlattenSnoc(ListsOf(Columns(data[..n]), k), data[n].batch.value.columns[k]);
      } else {
        assert ListsOf(Columns(data), k) == ListsOf(Columns(data[..n]), k);
      }
    }
  }

  lemma {:induction false} TotalIsBatchRows<V>(data: seq<Proto<V>>)
    requires AllBatched(data)
    ensures TotalSize(data) == BatchRows(data)
  {
    if data != [] {
      TotalIsBatchRows(data[..|data| - 1]);
    }
  }

  /** Every array's key is one of the first container's; if that has a batch, all have one with the same columns, and
      every array has as many entries in all as the batches have rows. */
  ghost predicate Joinable<V>(data: seq<Proto<V>>) {
    && data != []
    && (forall i, k :: 0 <= i < |data| && k in data[i].nonTensor ==> k in data[0].nonTensor)
    && (data[0].batch.Some? ==>
          && (forall i :: 0 <= i < |data| ==>
                data[i].batch.Some? && data[i].batch.value.columns.Keys == data[0].batch.value.columns.Keys)
          && (forall k :: k in data[0].nonTensor ==> |ArrayRows(data, k)| == BatchRows(data)))
  }

  /** Concatenation succeeds exactly then, with all entries of each of the first container's columns in order. */
  lemma {:induction false} ConcatExactly<V>(data: seq<Proto<V>>)
    ensures Concatenation(data).Some? <==> Joinable(data)
    ensures Concatenation(data).Some? ==>
              var p := Concatenation(data).value;
              && p.nonTensor.Keys == data[0].nonTensor.Keys
              && (forall k :: k in p.nonTensor ==> p.nonTensor[k] == ArrayRows(data, k))
              && p.batch.Some? == data[0].batch.Some?
              && (p.batch.Some? ==>
                    && p.batch.value.size == BatchRows(data)
                    && p.batch.value.columns.Keys == data[0].batch.value.columns.Keys
                    && forall k :: k in p.batch.value.columns ==> p.batch.value.columns[k] == ColumnRows(data, k))
  {
    if data != [] {
      hide ListsOf, Flatten, ArrayRows, ColumnRows, TotalSize, BatchRows;
      KnownExactly(data);
      forall k | k in data[0].nonTensor ensures CatDicts(Arrays(data))[k] == ArrayRows(data, k) {
        ArrayLists(data, k);
      }
      if Catable(data) {
        TotalIsBatchRows(data);
        forall k | k in data[0].batch.value.columns ensures CatDicts(Columns(data))[k] == ColumnRows(data, k) {
          ColumnLists(data, k);
        }
      }
    }
  }

  lemma KnownExactly<V>(data: seq<Proto<V>>)
    requires data != []
    ensures KeysKnown(Arrays(data))
            <==> forall i, k :: 0 <= i < |data| && k in data[i].nonTensor ==> k in data[0].nonTensor
  {
    if KeysKnown(Arrays(data)) {
      forall i, k | 0 <= i < |data| && k in data[i].nonTensor ensures k in data[0].nonTensor {
        assert Arrays(data)[i].Keys <= Arrays(data)[0].Keys;
      }
    }
  }

  // ---------------------------------------------------------------- appending one more container

  function AppendDict<V>(d: Dict<V>, e: Dict<V>): Dict<V>
    requires d.Keys == e.Keys
  {
    map k | k in d :: d[k] + e[k]
  }

  function Append<V>(p: Proto<V>, q: Proto<V>): Proto<V>
    requires SameSchema(p, q)
  {
    Proto(if p.batch.None? then None
          else Some(Batch(p.batch.value.size + q.batch.value.size,
                          AppendDict(p.batch.value.columns, q.batch.value.columns))),
          AppendDict(p.nonTensor, q.nonTensor))
  }

  lemma CatDictsOne<V>(d: Dict<V>)
    ensures CatDicts([d]) == d && KeysKnown([d])
  {
    forall k | k in d ensures Flatten(ListsOf([d], k)) == d[k] {
      assert [d][..0] == [];
      assert ListsOf([d], k) == [d[k]];
      assert [d[k]][..0] == [];
    }
  }

  lemma CatDictsSnoc<V>(dicts: seq<Dict<V>>, d: Dict<V>)
    requires dicts != [] && d.Keys == dicts[0].Keys
    ensures CatDicts(dicts + [d]) == AppendDict(CatDicts(dicts), d)
  {
    hide ListsOf;
    forall k | k in d ensures Flatten(ListsOf(dicts + [d], k)) == Flatten(ListsOf(dicts, k)) + d[k] {
      ListSnoc(dicts, d, k);
      FlattenSnoc(ListsOf(dicts, k), d[k]);
    }
  }

  lemma ListSnoc<V>(dicts: seq<Dict<V>>, d: Dict<V>, k: Key)
    requires k in d
    ensures ListsOf(dicts + [d], k) == ListsOf(dicts, k) + [d[k]]
  {
    assert (dicts + [d])[..|dicts|] == dicts;
  }

  lemma ConcatOne<V>(p: Proto<V>, n: nat)
    requires HasRows(p, n)
    ensures Concatenation([p]) == Some(p)
  {
    CatDictsOne(p.nonTensor);
    assert Arrays([p]) == [p.nonTensor];
    if p.batch.Some? {
      CatDictsOne(p.batch.value.columns);
      assert Catable([p]) && Columns([p]) == [p.batch.value.columns];
      TotalSizeSnoc([], p);
    }
  }

  lemma TotalSizeSnoc<V>(data: seq<Proto<V>>, x: Proto<V>)
    requires AllBatched(data) && x.batch.Some?
    ensures AllBatched(data + [x]) && TotalSize(data + [x]) == TotalSize(data) + x.batch.value.size
  {
    assert (data + [x])[..|data|] == data;
  }

  lemma CatableSnoc<V>(data: seq<Proto<V>>, x: Proto<V>)
    requires data != [] && Catable(data) && x.batch.Some?
    requires x.batch.value.columns.Keys == data[0].batch.value.columns.Keys
    ensures Catable(data + [x]) && Columns(data + [x]) == Columns(data) + [x.batch.value.columns]
  {
  }

  lemma KnownSnoc<V>(dicts: seq<Dict<V>>, d: Dict<V>)
    requires dicts != [] && KeysKnown(dicts) && d.Keys == dicts[0].Keys
    ensures KeysKnown(dicts + [d])
  {
  }

  /** One more container of the same schema adds its rows at the end of every column. */
  lemma ConcatSnoc<V>(data: seq<Proto<V>>, c: Proto<V>, m: nat, x: Proto<V>, n: nat)
    requires Concatenation(data) == Some(c) && HasRows(c, m) && HasRows(x, n) && SameSchema(c, x)
    ensures Concatenation(data + [x]) == Some(Append(c, x))
  {
    var arrays := Arrays(data);
    assert c.nonTensor.Keys == arrays[0].Keys;
    assert Arrays(data + [x]) == arrays + [x.nonTensor];
    hide KeysKnown, CatDicts, AppendDict, Catable, TotalSize;
    KnownSnoc(arrays, x.nonTensor);
    CatDictsSnoc(arrays, x.nonTensor);
    if c.batch.Some? {
      ConcatBatchSnoc(data, c, m, x, n);
    }
  }

  lemma ConcatBatchSnoc<V>(data: seq<Proto<V>>, c: Proto<V>, m: nat, x: Proto<V>, n: nat)
    requires Concatenation(data) == Some(c) && c.batch.Some? && HasRows(c, m) && HasRows(x, n) && SameSchema(c, x)
    ensures Catable(data + [x]) && TotalSize(data + [x]) == m + n && HasRows(Append(c, x), m + n)
    ensures CatDicts(Columns(data + [x])) == AppendDict(c.batch.value.columns, x.batch.value.columns)
  {
    AppendRows(c, m, x, n);
    assert x.batch.value.columns.Keys == Columns(data)[0].Keys;
    hide KeysKnown, AppendDict;
    CatableSnoc(data, x);
    TotalSizeSnoc(data, x);
    CatDictsSnoc(Columns(data), x.batch.value.columns);
  }

  lemma AppendRows<V>(p: Proto<V>, m: nat, q: Proto<V>, n: nat)
    requires HasRows(p, m) && HasRows(q, n) && SameSchema(p, q)
    ensures HasRows(Append(p, q), m + n)
  {
  }

  // ---------------------------------------------------------------- cutting into slices

  /** Cut points: from 0 to n, never going back. */
  ghost predicate Bounds(bounds: seq<nat>, n: nat) {
    && |bounds| > 1 && bounds[0] == 0 && bounds[|bounds| - 1] == n
    && forall i, j :: 0 <= i <= j < |bounds| ==> bounds[i] <= bounds[j]
  }

  function Slices<V>(p: Proto<V>, bounds: seq<nat>): seq<Proto<V>>
    requires |bounds| > 0
  {
    seq(|bounds| - 1, i requires 0 <= i < |bounds| - 1 => Slice(p, bounds[i], bounds[i + 1]))
  }

  lemma SliceRows<V>(p: Proto<V>, n: nat, lo: nat, hi: nat)
    requires HasRows(p, n) && lo <= hi <= n
    ensures HasRows(Slice(p, lo, hi), hi - lo) && SameSchema(p, Slice(p, lo, hi))
  {
  }

  lemma AppendSlices<V>(p: Proto<V>, n: nat, a: nat, b: nat, c: nat)
    requires HasRows(p, n) && a <= b <= c <= n
    ensures SameSchema(Slice(p, a, b), Slice(p, b, c))
    ensures Append(Slice(p, a, b), Slice(p, b, c)) == Slice(p, a, c)
  {
    AppendSliceDicts(p.nonTensor, n, a, b, c);
    if p.batch.Some? {
      AppendSliceDicts(p.batch.value.columns, n, a, b, c);
    }
  }

  lemma AppendSliceDicts<V>(d: Dict<V>, n: nat, a: nat, b: nat, c: nat)
    requires DictRows(d, n) && a <= b <= c <= n
    ensures AppendDict(SliceDict(d, a, b), SliceDict(d, b, c)) == SliceDict(d, a, c)
  {
    forall k | k in d ensures Clip(d[k], a, b) + Clip(d[k], b, c) == Clip(d[k], a, c) {
    }
  }

  lemma SliceAll<V>(p: Proto<V>, n: nat)
    requires HasRows(p, n)
    ensures Slice(p, 0, n) == p
  {
    SliceDictAll(p.nonTensor, n);
    if p.batch.Some? {
      SliceDictAll(p.batch.value.columns, n);
    }
  }

  lemma SliceDictAll<V>(d: Dict<V>, n: nat)
    requires DictRows(d, n)
    ensures SliceDict(d, 0, n) == d
  {
    forall k | k in d ensures Clip(d[k], 0, n) == d[k] {
    }
  }

  lemma SliceSnoc<V>(p: Proto<V>, n: nat, data: seq<Proto<V>>, a: nat, b: nat)
    requires HasRows(p, n) && a <= b <= n && Concatenation(data) == Some(Slice(p, 0, a))
    ensures Concatenation(data + [Slice(p, a, b)]) == Some(Slice(p, 0, b))
  {
    hide Concatenation, HasRows, SameSchema, Slice;
    SliceRows(p, n, 0, a);
    SliceRows(p, n, a, b);
    AppendSlices(p, n, 0, a, b);
    ConcatSnoc(data, Slice(p, 0, a), a, Slice(p, a, b), b - a);
  }

  lemma {:induction false} SlicesPrefix<V>(p: Proto<V>, n: nat, bounds: seq<nat>, i: nat)
    requires HasRows(p, n) && Bounds(bounds, n) && 0 < i < |bounds|
    ensures bounds[i] <= n && Concatenation(Slices(p, bounds)[..i]) == Some(Slice(p, 0, bounds[i]))
  {
    hide Concatenation, HasRows, Slice;
    var pieces := Slices(p, bounds);
    assert bounds[i - 1] <= bounds[i] <= bounds[|bounds| - 1];
    if i == 1 {
      assert pieces[..1] == [Slice(p, 0, bounds[1])];
      SliceRows(p, n, 0, bounds[1]);
      ConcatOne(Slice(p, 0, bounds[1]), bounds[1]);
    } else {
      SlicesPrefix(p, n, bounds, i - 1);
      assert pieces[..i - 1] + [pieces[i - 1]] == pieces[..i];
      SliceSnoc(p, n, pieces[..i - 1], bounds[i - 1], bounds[i]);
    }
  }

  /** Concatenating the slices of any cutting restores the container. */
  lemma SlicesRestore<V>(p: Proto<V>, n: nat, bounds: seq<nat>)
    requires HasRows(p, n) && Bounds(bounds, n)
    ensures Concatenation(Slices(p, bounds)) == Some(p)
  {
    SlicesPrefix(p, n, bounds, |bounds| - 1);
    assert Slices(p, bounds)[..|bounds| - 1] == Slices(p, bounds);
    SliceAll(p, n);
  }
}
