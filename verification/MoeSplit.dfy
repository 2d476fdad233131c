/** Unstacking the experts of a merged checkpoint, and what merging and splitting undo of each other. */
module MoeSplit {
  import opened MoeCheckpoint
  import opened Wrappers

  /** Every expert's slice of a stacked tensor exists. */
  predicate Indexable<T>(t: Tensor<T>, experts: nat) {
    forall j :: 0 <= j < experts ==> Index(t, j).Some?
  }

  ghost predicate AllIndexable<T>(d: Dict<T>, experts: nat, done: set<Place>) {
    forall x :: x in done && Experts(x.layer, x.proj) in d ==> Indexable(d[Experts(x.layer, x.proj)], experts)
  }

  /** The places whose experts the split writes: those with a stacked tensor. */
  function Unstacked<T>(d: Dict<T>, done: set<Place>): set<Place> {
    set x | x in done && Experts(x.layer, x.proj) in d :: x
  }

  /** The key is written by the split of one of these places. */
  predicate Written<T>(d: Dict<T>, k: Key, experts: nat, done: set<Place>) {
    k.Expert? && k.expert < experts && Place(k.layer, k.proj) in done && Experts(k.layer, k.proj) in d
  }

  predicate Popped(k: Key, done: set<Place>) {
    k.Experts? && Place(k.layer, k.proj) in done
  }

  function AllExpertKeys(places: set<Place>, experts: nat): set<Key> {
    set x, j | x in places && 0 <= j < experts :: Expert(x.layer, j, x.proj)
  }

  function SliceAt<T>(d: Dict<T>, k: Key, experts: nat): Tensor<T>
    requires k.Expert? && k.expert < experts && Experts(k.layer, k.proj) in d
    requires Indexable(d[Experts(k.layer, k.proj)], experts)
  {
    Index(d[Experts(k.layer, k.proj)], k.expert).value
  }

  /** The dictionary after splitting these places. */
  function SplitBy<T>(d: Dict<T>, experts: nat, done: set<Place>): Dict<T>
    requires AllIndexable(d, experts, done)
  {
    map k | k in d.Keys + AllExpertKeys(Unstacked(d, done), experts) && !Popped(k, done) ::
      if Written(d, k, experts, done) then SliceAt(d, k, experts)
      else if k in d then d[k] else Tensor([], [])
  }

  lemma SplitKeys<T>(d: Dict<T>, experts: nat, done: set<Place>, k: Key)
    requires AllIndexable(d, experts, done)
    ensures k in SplitBy(d, experts, done) <==> (k in d || Written(d, k, experts, done)) && !Popped(k, done)
  {
    if Written(d, k, experts, done) {
      var x := Place(k.layer, k.proj);
      assert x in Unstacked(d, done) && k == Expert(x.layer, k.expert, x.proj);
    }
  }

  /** The inner loop: one stacked tensor becomes one entry per expert. */
  method WriteExperts<T>(d: Dict<T>, x: Place, t: Tensor<T>, experts: nat) returns (r: Option<Dict<T>>)
    ensures r.Some? <==> Indexable(t, experts)
    ensures r.Some? ==> r.value.Keys == d.Keys + ExpertKeys(x, experts)
    ensures r.Some? ==> forall k :: k in r.value ==>
              r.value[k] == if k in ExpertKeys(x, experts) then Index(t, k.expert).value else d[k]
  {
    var out := d;
    for j := 0 to experts
      invariant forall m :: 0 <= m < j ==> Index(t, m).Some?
      invariant out.Keys == d.Keys + ExpertKeys(x, j)
      invariant forall k :: k in out ==> out[k] == if k in ExpertKeys(x, j) then Index(t, k.expert).value else d[k]
    {
      var slice := Index(t, j);
      if slice.None? {
        return None;
      }
      assert ExpertKeys(x, j + 1) == ExpertKeys(x, j) + {Expert(x.layer, j, x.proj)};
      out := out[Expert(x.layer, j, x.proj) := slice.value];
    }
    r := Some(out);
  }

  /** One more place. */
  lemma SplitOne<T>(d: Dict<T>, experts: nat, done: set<Place>, x: Place, out: Dict<T>)
    requires AllIndexable(d, experts, done) && x !in done
    requires var s := Experts(x.layer, x.proj);
             if s !in d then out == SplitBy(d, experts, done)
             else
               && Indexable(d[s], experts)
               && out.Keys == (SplitBy(d, experts, done).Keys - {s}) + ExpertKeys(x, experts)
               && forall k :: k in out ==>
                    (out[k] == if k in ExpertKeys(x, experts) then Index(d[s], k.expert).value
                               else SplitBy(d, experts, done)[k])
    ensures AllIndexable(d, experts, done + {x}) && out == SplitBy(d, experts, done + {x})
  {
    hide Indexable, Index;
    assert AllIndexable(d, experts, done + {x});
    var b := SplitBy(d, experts, done + {x});
    forall k ensures (k in out <==> k in b) && (k in out ==> out[k] == b[k]) {
      SplitKeys(d, experts, done, k);
      SplitKeys(d, experts, done + {x}, k);
    }
  }

  /** Splitting one place, if it is stacked. */
  method SplitPlace<T>(out: Dict<T>, x: Place, experts: nat, ghost d: Dict<T>, ghost done: set<Place>)
    returns (r: Option<Dict<T>>)
    requires AllIndexable(d, experts, done) && x !in done && out == SplitBy(d, experts, done)
    ensures r.Some? <==> AllIndexable(d, experts, done + {x})
    ensures r.Some? ==> r.value == SplitBy(d, experts, done + {x})
  {
    hide SplitBy, Indexable;
    var key := Experts(x.layer, x.proj);
    StackedKept(d, experts, done, x);
    if key in out {
      var stacked := out[key];
      r := WriteExperts(out - {key}, x, stacked, experts);
      if r.None? {
        return;
      }
      SplitOne(d, experts, done, x, r.value);
    } else {
      SplitOne(d, experts, done, x, out);
      r := Some(out);
    }
  }

  lemma StackedKept<T>(d: Dict<T>, experts: nat, done: set<Place>, x: Place)
    requires AllIndexable(d, experts, done) && x !in done
    ensures var key, s := Experts(x.layer, x.proj), SplitBy(d, experts, done);
            (key in s <==> key in d) && (key in d ==> s[key] == d[key])
  {
    SplitKeys(d, experts, done, Experts(x.layer, x.proj));
  }

  /** The unstacking loops of moe_split's `main`; None where indexing a stacked tensor raises. */
  method Split<T>(d: Dict<T>, layers: nat, experts: nat) returns (r: Option<Dict<T>>)
    ensures r.Some? <==> AllIndexable(d, experts, Places(0, layers))
    ensures r.Some? ==> r.value == SplitBy(d, experts, Places(0, layers))
  {
    var out := d;
    ghost var done: set<Place> := {};
    SplitNothing(d, experts);
    hide SplitBy, AllIndexable, Places;
    for i := 0 to layers
      invariant forall x: Place :: x in done <==> x.layer < i
      invariant AllIndexable(d, experts, done) && out == SplitBy(d, experts, done)
    {
      for p := 0 to 3
        invariant forall x: Place :: x in done <==> Before(x, 0, i, p)
        invariant AllIndexable(d, experts, done) && out == SplitBy(d, experts, done)
      {
        var x := Place(i, PROJS[p]);
        var split := SplitPlace(out, x, experts, d, done);
        if split.None? {
          FewerIndexable(d, experts, done + {x}, Places(0, layers));
          return None;
        }
        out := split.value;
        done := done + {x};
      }
    }
    assert done == Places(0, layers);
    r := Some(out);
  }

  lemma SplitNothing<T>(d: Dict<T>, experts: nat)
    ensures AllIndexable(d, experts, {}) && SplitBy(d, experts, {}) == d
  {
    forall k ensures k in SplitBy(d, experts, {}) <==> k in d {
      SplitKeys(d, experts, {}, k);
    }
  }

  lemma FewerIndexable<T>(d: Dict<T>, experts: nat, some: set<Place>, all: set<Place>)
    requires some <= all && !AllIndexable(d, experts, some)
    ensures !AllIndexable(d, experts, all)
  {
  }

  // ---------------------------------------------------------------- round trips

  ghost predicate TensorsOk<T>(d: Dict<T>) {
    forall k :: k in d ==> WellFormed(d[k])
  }

  lemma IndexMerged<T>(d: Dict<T>, x: Place, experts: nat, j: nat)
    requires TensorsOk(d) && Ready(d, x, experts) && j < experts
    ensures Expert(x.layer, j, x.proj) in d && Index(StackAt(d, x, experts), j) == Some(d[Expert(x.layer, j, x.proj)])
  {
    assert Expert(x.layer, j, x.proj) in ExpertKeys(x, experts);
    var list := ExpertList(d, x, experts);
    forall i | 0 <= i < |list| ensures WellFormed(list[i]) {
      assert Expert(x.layer, i, x.proj) in ExpertKeys(x, experts);
    }
    IndexStack(list, j);
  }

  /** Splitting a merged dictionary gives the original back if and only if the original held no stacked
      tensor of its own in the layers that the split visits. */
  lemma SplitUndoesMerge<T>(d: Dict<T>, start: nat, layers: nat, experts: nat)
    requires TensorsOk(d) && AllReady(d, Places(start, layers), experts)
    ensures var m := Merged(d, experts, Places(start, layers));
            AllIndexable(m, experts, Places(0, layers)) && SplitBy(m, experts, Places(0, layers)) == d
            <==> forall x: Place :: x.layer < layers ==> Experts(x.layer, x.proj) !in d
  {
    var m, all := Merged(d, experts, Places(start, layers)), Places(0, layers);
    if forall x: Place :: x.layer < layers ==> Experts(x.layer, x.proj) !in d {
      MergedIndexable(d, start, layers, experts);
      forall k ensures (k in SplitBy(m, experts, all) <==> k in d) && (k in d ==> SplitBy(m, experts, all)[k] == d[k]) {
        SplitMergedAt(d, start, layers, experts, k);
      }
    } else {
      var x: Place :| x.layer < layers && Experts(x.layer, x.proj) in d;
      if AllIndexable(m, experts, all) {
        SplitKeys(m, experts, all, Experts(x.layer, x.proj));
      }
    }
  }

  lemma MergedIndexable<T>(d: Dict<T>, start: nat, layers: nat, experts: nat)
    requires TensorsOk(d) && AllReady(d, Places(start, layers), experts)
    requires forall x: Place :: x.layer < layers ==> Experts(x.layer, x.proj) !in d
    ensures AllIndexable(Merged(d, experts, Places(start, layers)), experts, Places(0, layers))
  {
    hide Index, StackAt, Ready;
    var m := Merged(d, experts, Places(start, layers));
    forall x, j | x in Places(0, layers) && Experts(x.layer, x.proj) in m && 0 <= j < experts
      ensures Index(m[Experts(x.layer, x.proj)], j).Some?
    {
      assert x in Places(start, layers);
      IndexMerged(d, x, experts, j);
    }
  }

  lemma SplitMergedAt<T>(d: Dict<T>, start: nat, layers: nat, experts: nat, k: Key)
    requires TensorsOk(d) && AllReady(d, Places(start, layers), experts)
    requires forall x: Place :: x.layer < layers ==> Experts(x.layer, x.proj) !in d
    requires AllIndexable(Merged(d, experts, Places(start, layers)), experts, Places(0, layers))
    ensures var s := SplitBy(Merged(d, experts, Places(start, layers)), experts, Places(0, layers));
            (k in s <==> k in d) && (k in d ==> s[k] == d[k])
  {
    hide Index, StackAt, Ready, Indexable;
    var m := Merged(d, experts, Places(start, layers));
    SplitKeys(m, experts, Places(0, layers), k);
    if k.Expert? && k.expert < experts && k.layer < layers && Experts(k.layer, k.proj) in m {
      IndexMerged(d, Place(k.layer, k.proj), experts, k.expert);
    }
  }

  /** Merging touches nothing but the experts it takes out and the stacked tensors it puts in. */
  lemma MergeKeepsOthers<T>(d: Dict<T>, start: nat, layers: nat, experts: nat, k: Key)
    requires AllReady(d, Places(start, layers), experts)
    requires !(k.Expert? && k.expert < experts && start <= k.layer < layers)
    requires !(k.Experts? && start <= k.layer < layers)
    ensures var m := Merged(d, experts, Places(start, layers)); (k in m <==> k in d) && (k in d ==> m[k] == d[k])
  {
  }

  /** One dense layer and a stacked tensor already there: merging changes nothing, splitting takes the tensor apart. */
  lemma StackedBefore<T>(d: Dict<T>, t: Tensor<T>)
    requires d == map[Experts(0, Gate) := t] && WellFormed(t)
    ensures AllReady(d, Places(1, 1), 1) && Merged(d, 1, Places(1, 1)) == d
    ensures AllIndexable(d, 1, Places(0, 1)) ==> SplitBy(d, 1, Places(0, 1)) != d
  {
    SplitUndoesMerge(d, 1, 1, 1);
    assert Place(0, Gate).layer < 1 && Experts(Place(0, Gate).layer, Place(0, Gate).proj) in d;
  }

  /** Splitting touches nothing but the stacked tensors it takes out and the experts it puts in. */
  lemma SplitKeepsOthers<T>(d: Dict<T>, layers: nat, experts: nat, k: Key)
    requires AllIndexable(d, experts, Places(0, layers))
    requires !(k.Experts? && k.layer < layers)
    requires !(k.Expert? && k.expert < experts && k.layer < layers && Experts(k.layer, k.proj) in d)
    ensures var s := SplitBy(d, experts, Places(0, layers)); (k in s <==> k in d) && (k in d ==> s[k] == d[k])
  {
    SplitKeys(d, experts, Places(0, layers), k);
  }

  /** The merge puts back what the split takes out here: a stacked tensor of this many experts, and no expert of the
      same place beside it. */
  predicate Restacks<T>(d: Dict<T>, x: Place, experts: nat) {
    && experts > 0 && Experts(x.layer, x.proj) in d
    && d[Experts(x.layer, x.proj)].shape != [] && d[Experts(x.layer, x.proj)].shape[0] == experts
    && forall j :: 0 <= j < experts ==> Expert(x.layer, j, x.proj) !in d
  }

  /** Every visited place restacks, and no dense layer before them has a stacked tensor. */
  ghost predicate OnlyStacked<T>(d: Dict<T>, start: nat, layers: nat, experts: nat) {
    forall x: Place :: x.layer < layers ==>
      if start <= x.layer then Restacks(d, x, experts) else Experts(x.layer, x.proj) !in d
  }

  lemma SplitReady<T>(d: Dict<T>, layers: nat, experts: nat, x: Place)
    requires TensorsOk(d) && AllIndexable(d, experts, Places(0, layers)) && x.layer < layers && Restacks(d, x, experts)
    ensures var s := SplitBy(d, experts, Places(0, layers));
            Ready(s, x, experts) && StackAt(s, x, experts) == d[Experts(x.layer, x.proj)]
  {
    hide Index, Stack;
    var s, t := SplitBy(d, experts, Places(0, layers)), d[Experts(x.layer, x.proj)];
    StackIndex(t);
    forall j | 0 <= j < experts
      ensures Expert(x.layer, j, x.proj) in s && s[Expert(x.layer, j, x.proj)] == Index(t, j).value
    {
      SplitKeys(d, experts, Places(0, layers), Expert(x.layer, j, x.proj));
    }
    assert ExpertKeys(x, experts) <= s.Keys;
    assert ExpertList(s, x, experts) == Unstack(t);
  }

  /** Merging what was split gives the original back if and only if the visited layers held nothing but stacked tensors
      of this many experts, and the dense layers before them none. */
  lemma MergeUndoesSplit<T>(d: Dict<T>, start: nat, layers: nat, experts: nat)
    requires TensorsOk(d) && AllIndexable(d, experts, Places(0, layers))
    ensures var s := SplitBy(d, experts, Places(0, layers));
            AllReady(s, Places(start, layers), experts) && Merged(s, experts, Places(start, layers)) == d
            <==> OnlyStacked(d, start, layers, experts)
  {
    var s := SplitBy(d, experts, Places(0, layers));
    if OnlyStacked(d, start, layers, experts) {
      forall x | x in Places(start, layers) ensures Ready(s, x, experts) {
        SplitReady(d, layers, experts, x);
      }
      var m := Merged(s, experts, Places(start, layers));
      forall k ensures (k in m <==> k in d) && (k in d ==> m[k] == d[k]) {
        MergedSplitAt(d, start, layers, experts, k);
      }
    } else if AllReady(s, Places(start, layers), experts) && Merged(s, experts, Places(start, layers)) == d {
      forall x: Place | x.layer < layers
        ensures if start <= x.layer then Restacks(d, x, experts) else Experts(x.layer, x.proj) !in d
      {
        RestoredMeans(d, start, layers, experts, x);
      }
    }
  }

  lemma MergedSplitAt<T>(d: Dict<T>, start: nat, layers: nat, experts: nat, k: Key)
    requires TensorsOk(d) && AllIndexable(d, experts, Places(0, layers)) && OnlyStacked(d, start, layers, experts)
    requires AllReady(SplitBy(d, experts, Places(0, layers)), Places(start, layers), experts)
    ensures var m := Merged(SplitBy(d, experts, Places(0, layers)), experts, Places(start, layers));
            (k in m <==> k in d) && (k in d ==> m[k] == d[k])
  {
    hide Ready, StackAt, Indexable, SplitBy;
    var s := SplitBy(d, experts, Places(0, layers));
    SplitKeys(d, experts, Places(0, layers), k);
    if (k.Experts? || k.Expert?) && k.layer < layers {
      var x := Place(k.layer, k.proj);
      if start <= k.layer {
        assert Restacks(d, x, experts) && x in Places(start, layers);
        SplitReady(d, layers, experts, x);
      }
    }
    if !Popped(k, Places(0, layers)) && !Written(d, k, experts, Places(0, layers)) {
      SplitKeepsOthers(d, layers, experts, k);
    }
  }

  lemma RestoredMeans<T>(d: Dict<T>, start: nat, layers: nat, experts: nat, x: Place)
    requires TensorsOk(d) && AllIndexable(d, experts, Places(0, layers)) && x.layer < layers
    requires var s := SplitBy(d, experts, Places(0, layers));
             AllReady(s, Places(start, layers), experts) && Merged(s, experts, Places(start, layers)) == d
    ensures if start <= x.layer then Restacks(d, x, experts) else Experts(x.layer, x.proj) !in d
  {
    hide SplitBy, Indexable;
    var s, k := SplitBy(d, experts, Places(0, layers)), Experts(x.layer, x.proj);
    SplitKeys(d, experts, Places(0, layers), k);
    if start <= x.layer {
      assert x in Places(start, layers) && Ready(s, x, experts);
      assert k in StackedKeys(Places(start, layers));
      assert d[k] == StackAt(s, x, experts);
    }
  }
}
