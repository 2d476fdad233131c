/** Stacking the experts of a mixture-of-experts checkpoint into one tensor per layer and projection,
    and unstacking them again. */
module MoeCheckpoint {
  import opened Arithmetic
  import opened Sequences
  import opened Shapes
  import opened Wrappers

  // ---------------------------------------------------------------- tensors

  /** A dense tensor: its dimensions and its elements in row-major order. */
  datatype Tensor<T> = Tensor(shape: seq<nat>, data: seq<T>)

  ghost predicate WellFormed<T>(t: Tensor<T>) {
    |t.data| == Numel(t.shape)
  }

  function Datas<T>(ts: seq<Tensor<T>>): seq<seq<T>> {
    seq(|ts|, i requires 0 <= i < |ts| => ts[i].data)
  }

  predicate SameShapes<T>(ts: seq<Tensor<T>>) {
    forall i :: 0 <= i < |ts| ==> ts[i].shape == ts[0].shape
  }

  /** `torch.stack` along a new first dimension. */
  function Stack<T>(ts: seq<Tensor<T>>): Tensor<T>
    requires ts != []
  {
    Tensor([|ts|] + ts[0].shape, Flatten(Datas(ts)))
  }

  /** `t[j]`; None when there is no first dimension or it is too small. */
  function Index<T>(t: Tensor<T>, j: nat): Option<Tensor<T>> {
    if t.shape == [] || j >= t.shape[0] then None
    else
      var w := Numel(t.shape[1..]);
      if (j + 1) * w <= |t.data| then
        MulGrows(j, j + 1, w);
        Some(Tensor(t.shape[1..], t.data[j * w..(j + 1) * w]))
      else None
  }

  /** Indexing a stack gives back what was stacked. */
  lemma IndexStack<T>(ts: seq<Tensor<T>>, j: nat)
    requires j < |ts| && SameShapes(ts) && forall i :: 0 <= i < |ts| ==> WellFormed(ts[i])
    ensures Index(Stack(ts), j) == Some(ts[j])
  {
    var w := Numel(ts[0].shape);
    assert Stack(ts).shape[1..] == ts[0].shape;
    forall i | 0 <= i < |ts| ensures |Datas(ts)[i]| == w {
      assert WellFormed(ts[i]);
    }
    UniformPiece(Datas(ts), w, j);
  }

  /** Where a stack has each element: tensor j's elements follow those of the tensors before it. */
  lemma StackedElement<T>(ts: seq<Tensor<T>>, j: nat, i: nat, at: nat)
    requires j < |ts| && SameShapes(ts) && (forall m :: 0 <= m < |ts| ==> WellFormed(ts[m])) && i < |ts[j].data|
    requires at == j * |ts[j].data|
    ensures Stack(ts).shape == [|ts|] + ts[j].shape && |Stack(ts).data| == |ts| * |ts[j].data|
    ensures at + i < |Stack(ts).data| && Stack(ts).data[at + i] == ts[j].data[i]
  {
    var w := |ts[j].data|;
    forall m | 0 <= m < |ts| ensures |Datas(ts)[m]| == w {
      assert WellFormed(ts[m]) && ts[m].shape == ts[0].shape == ts[j].shape;
    }
    UniformPiece(Datas(ts), w, j);
    assert (j + 1) * w == at + w;
    assert Stack(ts).data[at..at + w] == ts[j].data;
    assert Stack(ts).data[at + i] == Stack(ts).data[at..at + w][i];
  }

  /** The tensors a stack is made of. */
  function Unstack<T>(t: Tensor<T>): seq<Tensor<T>>
    requires t.shape != [] && forall j :: 0 <= j < t.shape[0] ==> Index(t, j).Some?
  {
    seq(t.shape[0], j requires 0 <= j < t.shape[0] => Index(t, j).value)
  }

  lemma {:induction false} UnstackedData<T>(t: Tensor<T>, n: nat, w: nat, at: nat)
    requires t.shape != [] && (forall j :: 0 <= j < t.shape[0] ==> Index(t, j).Some?) && n <= t.shape[0]
    requires w == Numel(t.shape[1..]) && at == n * w
    ensures at <= |t.data| && Flatten(Datas(Unstack(t))[..n]) == t.data[..at]
  {
    var pieces := Datas(Unstack(t));
    if n > 0 {
      assert Index(t, n - 1).Some?;
      hide Numel, Index, Flatten;
      Rest(n, w);
      UnstackedData(t, n - 1, w, at - w);
      IndexData(t, n - 1, at - w, w);
      FlattenSnoc(pieces[..n - 1], pieces[n - 1]);
      assert pieces[..n - 1] + [pieces[n - 1]] == pieces[..n];
    } else {
      assert pieces[..0] == [];
    }
  }

  lemma IndexData<T>(t: Tensor<T>, j: nat, at: nat, w: nat)
    requires Index(t, j).Some? && w == Numel(t.shape[1..]) && at == j * w
    ensures at + w <= |t.data| && t.data[..at] + Index(t, j).value.data == t.data[..at + w]
  {
    assert (j + 1) * w == at + w;
  }

  /** Stacking the slices of a tensor gives the tensor back. */
  lemma {:induction false} StackIndex<T>(t: Tensor<T>)
    requires t.shape != [] && t.shape[0] > 0 && WellFormed(t)
    ensures forall j :: 0 <= j < t.shape[0] ==> Index(t, j).Some?
    ensures SameShapes(Unstack(t)) && Stack(Unstack(t)) == t
  {
    var n, w := t.shape[0], Numel(t.shape[1..]);
    assert |t.data| == n * w;
    forall j | 0 <= j < n ensures Index(t, j).Some? {
      MulGrows(j + 1, n, w);
    }
    UnstackedData(t, n, w, n * w);
    assert Datas(Unstack(t))[..n] == Datas(Unstack(t)) && t.data[..n * w] == t.data;
    assert t.shape == [n] + t.shape[1..];
  }

  // ---------------------------------------------------------------- state dictionaries

  datatype Proj = Gate | Up | Down

  datatype Key =
    | Expert(layer: nat, expert: nat, proj: Proj)
    | Experts(layer: nat, proj: Proj)
    | Other(name: string)

  type Dict<T> = map<Key, Tensor<T>>

  /** A layer and one of its projections. */
  datatype Place = Place(layer: nat, proj: Proj)

  const PROJS := [Gate, Up, Down]

  function Rank(p: Proj): nat {
    match p
    case Gate => 0
    case Up => 1
    case Down => 2
  }

  /** The layers and projections of a range of layers. */
  function Places(start: nat, layers: nat): (r: set<Place>)
    ensures forall x: Place :: x in r <==> start <= x.layer < layers
  {
    var r := set l: nat, p: Proj | start <= l < layers :: Place(l, p);
    assert forall x: Place :: x in r <==> x == Place(x.layer, x.proj) && start <= x.layer < layers;
    r
  }

  function ExpertKeys(x: Place, experts: nat): set<Key> {
    set j | 0 <= j < experts :: Expert(x.layer, j, x.proj)
  }

  function ExpertList<T>(d: Dict<T>, x: Place, experts: nat): (r: seq<Tensor<T>>)
    requires ExpertKeys(x, experts) <= d.Keys
    ensures |r| == experts
  {
    seq(experts, j requires 0 <= j < experts =>
      assert Expert(x.layer, j, x.proj) in ExpertKeys(x, experts); d[Expert(x.layer, j, x.proj)])
  }

  /** All experts of this layer and projection are there and can be stacked. */
  predicate Ready<T>(d: Dict<T>, x: Place, experts: nat) {
    experts > 0 && ExpertKeys(x, experts) <= d.Keys && SameShapes(ExpertList(d, x, experts))
  }

  // ---------------------------------------------------------------- merging

  /** The place whose expert a key is, if the merge takes that key out. */
  predicate Taken(k: Key, experts: nat, done: set<Place>) {
    k.Expert? && k.expert < experts && Place(k.layer, k.proj) in done
  }

  ghost predicate AllReady<T>(d: Dict<T>, done: set<Place>, experts: nat) {
    forall x :: x in done ==> Ready(d, x, experts)
  }

  function StackedKeys(done: set<Place>): set<Key> {
    set x | x in done :: Experts(x.layer, x.proj)
  }

  function StackAt<T>(d: Dict<T>, x: Place, experts: nat): Tensor<T>
    requires Ready(d, x, experts)
  {
    Stack(ExpertList(d, x, experts))
  }

  /** The dictionary after merging these places. */
  function Merged<T>(d: Dict<T>, experts: nat, done: set<Place>): Dict<T>
    requires AllReady(d, done, experts)
  {
    map k | k in d.Keys + StackedKeys(done) && !Taken(k, experts, done) ::
      if k.Experts? && Place(k.layer, k.proj) in done then StackAt(d, Place(k.layer, k.proj), experts) else d[k]
  }

  /** The inner loop: pop every expert of one place, in order; None on a missing key. */
  method PopExperts<T>(d: Dict<T>, x: Place, experts: nat) returns (r: Option<(Dict<T>, seq<Tensor<T>>)>)
    ensures r == if ExpertKeys(x, experts) <= d.Keys
                 then Some((d - ExpertKeys(x, experts), ExpertList(d, x, experts))) else None
  {
    var rest, list := d, [];
    for j := 0 to experts
      invariant rest == d - ExpertKeys(x, j)
      invariant |list| == j
      invariant forall m :: 0 <= m < j ==>
                  Expert(x.layer, m, x.proj) in d && list[m] == d[Expert(x.layer, m, x.proj)]
    {
      var key := Expert(x.layer, j, x.proj);
      assert key in ExpertKeys(x, experts);
      if key !in rest {
        return None;
      }
      list := list + [rest[key]];
      rest := rest - {key};
      assert ExpertKeys(x, j + 1) == ExpertKeys(x, j) + {key};
    }
    assert list == ExpertList(d, x, experts);
    r := Some((rest, list));
  }

  /** Merging other places does not touch the experts of this one. */
  lemma MergeKeepsExperts<T>(d: Dict<T>, experts: nat, done: set<Place>, x: Place)
    requires AllReady(d, done, experts) && x !in done
    ensures var m := Merged(d, experts, done);
            && (ExpertKeys(x, experts) <= m.Keys <==> ExpertKeys(x, experts) <= d.Keys)
            && (ExpertKeys(x, experts) <= d.Keys ==> ExpertList(m, x, experts) == ExpertList(d, x, experts))
  {
    var m := Merged(d, experts, done);
    forall k | k in ExpertKeys(x, experts) ensures (k in m <==> k in d) && (k in d ==> m[k] == d[k]) {
    }
    if ExpertKeys(x, experts) <= d.Keys {
      forall j | 0 <= j < experts ensures ExpertList(m, x, experts)[j] == ExpertList(d, x, experts)[j] {
        assert Expert(x.layer, j, x.proj) in ExpertKeys(x, experts);
      }
    }
  }

  /** One more place. */
  lemma MergeOne<T>(d: Dict<T>, experts: nat, done: set<Place>, x: Place)
    requires AllReady(d, done, experts) && x !in done && Ready(d, x, experts)
    ensures (Merged(d, experts, done) - ExpertKeys(x, experts))[Experts(x.layer, x.proj) := StackAt(d, x, experts)]
         == Merged(d, experts, done + {x})
  {
    hide Ready, StackAt;
    var a := (Merged(d, experts, done) - ExpertKeys(x, experts))[Experts(x.layer, x.proj) := StackAt(d, x, experts)];
    var b := Merged(d, experts, done + {x});
    assert StackedKeys(done + {x}) == StackedKeys(done) + {Experts(x.layer, x.proj)};
    forall k ensures k in a <==> k in b {
      assert Taken(k, experts, done + {x}) <==> Taken(k, experts, done) || k in ExpertKeys(x, experts);
    }
    forall k | k in a ensures a[k] == b[k] {
    }
  }

  /** Popping and stacking one place; None when an expert is missing or the experts cannot be stacked. */
  method MergePlace<T>(out: Dict<T>, x: Place, experts: nat, ghost d: Dict<T>, ghost done: set<Place>)
    returns (r: Option<Dict<T>>)
    requires AllReady(d, done, experts) && x !in done && out == Merged(d, experts, done)
    ensures r.Some? <==> Ready(d, x, experts)
    ensures r.Some? ==> r.value == Merged(d, experts, done + {x})
  {
    hide Merged, ExpertList, ExpertKeys, SameShapes;
    MergeKeepsExperts(d, experts, done, x);
    if Ready(d, x, experts) {
      MergeOne(d, experts, done, x);
    }
    var popped := PopExperts(out, x, experts);
    if popped.None? || popped.value.1 == [] || !SameShapes(popped.value.1) {
      return None;
    }
    r := Some(popped.value.0[Experts(x.layer, x.proj) := Stack(popped.value.1)]);
  }

  /** Places below this one, in the order of the loops. */
  predicate Before(x: Place, start: nat, i: nat, p: nat) {
    start <= x.layer && (x.layer < i || (x.layer == i && Rank(x.proj) < p))
  }

  /** The stacking loops of moe_merge's `main`; None on a missing expert or one of another shape. */
  method Merge<T>(d: Dict<T>, start: nat, layers: nat, experts: nat) returns (r: Option<Dict<T>>)
    ensures r.Some? <==> AllReady(d, Places(start, layers), experts)
    ensures r.Some? ==> r.value == Merged(d, experts, Places(start, layers))
  {
    var out := d;
    ghost var done: set<Place> := {};
    assert out == Merged(d, experts, done);
    hide Merged, Ready, Places;
    var i := start;
    while i < layers
      invariant start <= i && (start <= layers ==> i <= layers) && (layers < start ==> i == start)
      invariant forall x: Place :: x in done <==> start <= x.layer < i
      invariant AllReady(d, done, experts) && out == Merged(d, experts, done)
    {
      for p := 0 to 3
        invariant forall x: Place :: x in done <==> Before(x, start, i, p)
        invariant AllReady(d, done, experts) && out == Merged(d, experts, done)
      {
        var x := Place(i, PROJS[p]);
        var merged := MergePlace(out, x, experts, d, done);
        if merged.None? {
          assert x in Places(start, layers);
          return None;
        }
        out := merged.value;
        done := done + {x};
      }
      i := i + 1;
    }
    assert done == Places(start, layers);
    r := Some(out);
  }
}
