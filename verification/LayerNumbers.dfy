/** Renumbering the layers of a rank's model chunks and putting all their entries into one dictionary. */
module LayerNumbers {
  import opened Arithmetic
  import opened LayerPartition
  import opened Wrappers

  /** Which piece of a fused tensor an entry holds. */
  datatype Part = Single | Q | K | V | Gate | Up

  /** A parameter's name, the expert it belongs to if any, and the piece.  Only the text of a key says whether the
      expert's number comes before the name or after it. */
  datatype Name = Name(param: string, expert: Option<nat>, part: Part)

  /** A key of the merged dictionary: a parameter of a layer, one outside the layers, or the output layer. */
  datatype Key = Layer(no: nat, name: Name) | Global(name: Name) | Head(param: string)

  function Shift(k: Key, base: nat): Key {
    if k.Layer? then Layer(k.no + base, k.name) else k
  }

  /** `layers_handled`: the largest local layer number, 0 if there is none. */
  function Handled<T>(dict: seq<(Key, T)>): nat {
    if dict == [] then 0
    else
      var rest, k := Handled(dict[..|dict| - 1]), dict[|dict| - 1].0;
      if k.Layer? && k.no > rest then k.no else rest
  }

  function Merged<T>(dict: seq<(Key, T)>, base: nat, acc: map<Key, T>): map<Key, T> {
    if dict == [] then acc
    else Merged(dict[..|dict| - 1], base, acc)[Shift(dict[|dict| - 1].0, base) := dict[|dict| - 1].1]
  }

  /** Layer number at which the c-th of a rank's model chunks starts. */
  function StartOf<T>(dicts: seq<seq<(Key, T)>>, first: nat, c: nat): nat
    requires c <= |dicts|
  {
    if c == 0 then first else StartOf(dicts, first, c - 1) + Handled(dicts[c - 1]) + 1
  }

  function MergedAll<T>(dicts: seq<seq<(Key, T)>>, first: nat, n: nat): map<Key, T>
    requires n <= |dicts|
  {
    if n == 0 then map[]
    else Merged(dicts[n - 1], StartOf(dicts, first, n - 1), MergedAll(dicts, first, n - 1))
  }

  /** The chunk holds layers 0 .. n-1, each with some parameter. */
  ghost predicate HoldsLayers<T>(dict: seq<(Key, T)>, n: nat) {
    && (forall e :: e in dict && e.0.Layer? ==> e.0.no < n)
    && (forall l: nat :: l < n ==> HasLayer(dict, l))
  }

  ghost predicate HasLayer<T>(dict: seq<(Key, T)>, l: nat) {
    exists e :: e in dict && e.0.Layer? && e.0.no == l
  }

  lemma {:induction false} HandledBounds<T>(dict: seq<(Key, T)>)
    ensures forall e :: e in dict && e.0.Layer? ==> e.0.no <= Handled(dict)
    ensures Handled(dict) > 0 ==> exists e :: e in dict && e.0.Layer? && e.0.no == Handled(dict)
  {
    if dict != [] {
      var front, last := dict[..|dict| - 1], dict[|dict| - 1];
      HandledBounds(front);
      assert dict == front + [last];
      if !(last.0.Layer? && last.0.no > Handled(front)) && Handled(dict) > 0 {
        var e :| e in front && e.0.Layer? && e.0.no == Handled(front);
        assert e in dict;
      }
    }
  }

  /** The numbering advances by the number of layers of the chunk, exactly when it has any: a chunk
      without layers still takes up one number. */
  lemma AdvancesByLayers<T>(dict: seq<(Key, T)>, n: nat)
    requires HoldsLayers(dict, n)
    ensures Handled(dict) + 1 == n <==> n > 0
  {
    HandledBounds(dict);
    if n > 0 {
      assert HasLayer(dict, n - 1);
    }
  }

  /** A chunk with nothing but a parameter outside the layers still takes up one layer number. */
  lemma LayerlessChunk<T>(dict: seq<(Key, T)>, name: Name, tensor: T)
    requires dict == [(Global(name), tensor)]
    ensures HoldsLayers(dict, 0) && StartOf([dict], 0, 1) == 1
  {
    assert dict[..0] == [];
    assert Handled(dict) == 0 && StartOf([dict], 0, 0) == 0;
    assert StartOf([dict], 0, 1) == StartOf([dict], 0, 0) + Handled([dict][0]) + 1;
  }

  /** Chunk sizes of one rank. */
  ghost predicate Sizes<T>(dicts: seq<seq<(Key, T)>>, sizes: seq<nat>) {
    |dicts| == |sizes| && forall c :: 0 <= c < |dicts| ==> sizes[c] > 0 && HoldsLayers(dicts[c], sizes[c])
  }

  lemma {:induction false} StartsBySizes<T>(dicts: seq<seq<(Key, T)>>, sizes: seq<nat>, first: nat, c: nat)
    requires Sizes(dicts, sizes) && c <= |dicts|
    ensures StartOf(dicts, first, c) == first + Before(sizes, c)
  {
    if c > 0 {
      StartsBySizes(dicts, sizes, first, c - 1);
      AdvancesByLayers(dicts[c - 1], sizes[c - 1]);
    }
  }

  ghost predicate UniqueKeys<T>(dict: seq<(Key, T)>) {
    forall i, j :: 0 <= i < j < |dict| ==> dict[i].0 != dict[j].0
  }

  lemma {:induction false} MergedLooksUp<T>(dict: seq<(Key, T)>, base: nat, acc: map<Key, T>, i: nat)
    requires UniqueKeys(dict) && i < |dict|
    ensures Shift(dict[i].0, base) in Merged(dict, base, acc)
    ensures Merged(dict, base, acc)[Shift(dict[i].0, base)] == dict[i].1
  {
    if i < |dict| - 1 {
      MergedLooksUp(dict[..|dict| - 1], base, acc, i);
      assert dict[i].0 != dict[|dict| - 1].0;
    }
  }

  lemma {:induction false} MergedKeeps<T>(dict: seq<(Key, T)>, base: nat, acc: map<Key, T>, k: Key)
    requires k in acc && forall e :: e in dict ==> Shift(e.0, base) != k
    ensures k in Merged(dict, base, acc) && Merged(dict, base, acc)[k] == acc[k]
  {
    if dict != [] {
      MergedKeeps(dict[..|dict| - 1], base, acc, k);
      assert dict[|dict| - 1] in dict;
    }
  }

  /** Every layer parameter of every chunk is in the merged dict under its global number, with its
      own tensor: the renumbering never lets one chunk overwrite another. */
  lemma {:induction false} NothingOverwritten<T>(dicts: seq<seq<(Key, T)>>, sizes: seq<nat>, first: nat,
                                                 n: nat, c: nat, i: nat)
    requires Sizes(dicts, sizes) && (forall d :: 0 <= d < |dicts| ==> UniqueKeys(dicts[d]))
    requires c < n <= |dicts| && i < |dicts[c]| && dicts[c][i].0.Layer?
    ensures var k := Layer(first + Before(sizes, c) + dicts[c][i].0.no, dicts[c][i].0.name);
            k in MergedAll(dicts, first, n) && MergedAll(dicts, first, n)[k] == dicts[c][i].1
  {
    StartsBySizes(dicts, sizes, first, n - 1);
    var start, acc := StartOf(dicts, first, n - 1), MergedAll(dicts, first, n - 1);
    if c == n - 1 {
      MergedLooksUp(dicts[c], start, acc, i);
    } else {
      NothingOverwritten(dicts, sizes, first, n - 1, c, i);
      BeforeGrows(sizes, c + 1, n - 1);
      var e := dicts[c][i];
      assert e in dicts[c] && e.0.no < sizes[c];
      MergedKeeps(dicts[n - 1], start, acc, Layer(first + Before(sizes, c) + e.0.no, e.0.name));
    }
  }

  // ---------------------------------------------------------------- appending entries

  lemma {:induction false} HandledAppend<T>(a: seq<(Key, T)>, b: seq<(Key, T)>)
    ensures Handled(a + b) == Max(Handled(a), Handled(b))
  {
    if b == [] {
      assert a + b == a;
    } else {
      HandledAppend(a, b[..|b| - 1]);
      assert (a + b)[..|a + b| - 1] == a + b[..|b| - 1];
    }
  }

  lemma {:induction false} MergedAppend<T>(a: seq<(Key, T)>, b: seq<(Key, T)>, base: nat, acc: map<Key, T>)
    ensures Merged(a + b, base, acc) == Merged(b, base, Merged(a, base, acc))
  {
    if b == [] {
      assert a + b == a;
    } else {
      MergedAppend(a, b[..|b| - 1], base, acc);
      assert (a + b)[..|a + b| - 1] == a + b[..|b| - 1];
    }
  }

  // ---------------------------------------------------------------- exactly the rank's layers

  /** Entry i of chunk c is what the merged dictionary has under this key. */
  ghost predicate ComesFrom<T>(dicts: seq<seq<(Key, T)>>, first: nat, k: Key, c: nat, i: nat) {
    c < |dicts| && i < |dicts[c]| && k == Shift(dicts[c][i].0, StartOf(dicts, first, c))
  }

  lemma {:induction false} MergedOnly<T>(dict: seq<(Key, T)>, base: nat, acc: map<Key, T>, k: Key)
    requires k in Merged(dict, base, acc) && k !in acc
    ensures exists i: nat :: i < |dict| && k == Shift(dict[i].0, base)
  {
    var n := |dict| - 1;
    if k != Shift(dict[n].0, base) {
      MergedOnly(dict[..n], base, acc, k);
      var i: nat :| i < n && k == Shift(dict[..n][i].0, base);
      assert dict[i] == dict[..n][i];
    }
  }

  lemma {:induction false} MergedAllOnly<T>(dicts: seq<seq<(Key, T)>>, first: nat, n: nat, k: Key)
    requires n <= |dicts| && k in MergedAll(dicts, first, n)
    ensures exists c: nat, i: nat :: c < n && ComesFrom(dicts, first, k, c, i)
  {
    if k in MergedAll(dicts, first, n - 1) {
      MergedAllOnly(dicts, first, n - 1, k);
    } else {
      MergedOnly(dicts[n - 1], StartOf(dicts, first, n - 1), MergedAll(dicts, first, n - 1), k);
      var i: nat :| i < |dicts[n - 1]| && k == Shift(dicts[n - 1][i].0, StartOf(dicts, first, n - 1));
      assert ComesFrom(dicts, first, k, n - 1, i);
    }
  }

  /** A layer key of the merged dictionary lies in the rank's range. */
  lemma KeyInRange<T>(dicts: seq<seq<(Key, T)>>, sizes: seq<nat>, shards: seq<nat>, rank: nat, k: Key)
    requires Sizes(dicts, sizes) && rank < |shards| && Total(sizes) == shards[rank]
    requires k in MergedAll(dicts, Before(shards, rank), |dicts|) && k.Layer?
    ensures InRange(shards, rank, k.no)
  {
    var first := Before(shards, rank);
    MergedAllOnly(dicts, first, |dicts|, k);
    var c: nat, i: nat :| c < |dicts| && ComesFrom(dicts, first, k, c, i);
    var e := dicts[c][i];
    assert e in dicts[c] && e.0.Layer? && e.0.no < sizes[c];
    StartsBySizes(dicts, sizes, first, c);
    BeforeGrows(sizes, c + 1, |sizes|);
  }

  /** Every layer of the rank's range has an entry in the merged dictionary. */
  lemma LayerHasKey<T>(dicts: seq<seq<(Key, T)>>, sizes: seq<nat>, shards: seq<nat>, rank: nat, g: nat)
    returns (name: Name)
    requires Sizes(dicts, sizes) && (forall d :: 0 <= d < |dicts| ==> UniqueKeys(dicts[d]))
    requires rank < |shards| && Total(sizes) == shards[rank] && InRange(shards, rank, g)
    ensures Layer(g, name) in MergedAll(dicts, Before(shards, rank), |dicts|)
  {
    var first := Before(shards, rank);
    var c := Covered(sizes, g - first);
    var l := g - first - Before(sizes, c);
    assert HasLayer(dicts[c], l);
    var e :| e in dicts[c] && e.0.Layer? && e.0.no == l;
    var i: nat :| i < |dicts[c]| && dicts[c][i] == e;
    name := e.0.name;
    NothingOverwritten(dicts, sizes, first, |dicts|, c, i);
  }

  /** The layer numbers of a rank's merged dictionary are exactly those of its range. */
  lemma {:induction false} ChunksFillRange<T>(dicts: seq<seq<(Key, T)>>, sizes: seq<nat>, shards: seq<nat>,
                                              rank: nat, g: nat)
    requires Sizes(dicts, sizes) && (forall d :: 0 <= d < |dicts| ==> UniqueKeys(dicts[d]))
    requires rank < |shards| && Total(sizes) == shards[rank]
    ensures InRange(shards, rank, g) <==> exists name :: Layer(g, name) in MergedAll(dicts, Before(shards, rank), |dicts|)
  {
    if InRange(shards, rank, g) {
      var name := LayerHasKey(dicts, sizes, shards, rank, g);
    }
    if name :| Layer(g, name) in MergedAll(dicts, Before(shards, rank), |dicts|) {
      KeyInRange(dicts, sizes, shards, rank, Layer(g, name));
    }
  }
}
