/** Packing attention and MLP weights for Megatron and getting them back: the converter's
    group-interleaved QKV rows, the merger's split, and the merge across tensor-parallel ranks.
    A tensor is the sequence of its rows. */
module QkvLayout {
  import opened Arithmetic
  import opened Sequences
  import opened Wrappers

  /** The three tensors a QKV tensor is split into. */
  datatype Qkv<T> = Qkv(q: seq<T>, k: seq<T>, v: seq<T>)

  function Join<T>(a: Qkv<T>, b: Qkv<T>): Qkv<T> {
    Qkv(a.q + b.q, a.k + b.k, a.v + b.v)
  }

  // ---------------------------------------------------------------- torch

  /** Consecutive pieces of this size; the last may be shorter. */
  function Pieces<T>(s: seq<T>, size: nat): seq<seq<T>>
    requires size > 0
  {
    if |s| <= size then [s] else [s[..size]] + Pieces(s[size..], size)
  }

  /** `tensor.chunk(n)`: pieces of the rounded-up size. */
  function Chunk<T>(s: seq<T>, n: nat): seq<seq<T>>
    requires n > 0
  {
    if s == [] then [s] else Pieces(s, (|s| + n - 1) / n)
  }

  /** `chunk.split([a, b, b])`; None when the sizes do not add up. */
  function SplitOne<T>(chunk: seq<T>, a: nat, b: nat): Option<Qkv<T>> {
    if |chunk| != a + b + b then None
    else Some(Qkv(chunk[..a], chunk[a..a + b], chunk[a + b..]))
  }

  /** Splitting every chunk and concatenating the q, k and v parts. */
  function SplitEach<T>(chunks: seq<seq<T>>, a: nat, b: nat): Option<Qkv<T>> {
    if chunks == [] then Some(Qkv([], [], []))
    else
      var front, last := SplitEach(chunks[..|chunks| - 1], a, b), SplitOne(chunks[|chunks| - 1], a, b);
      if front.None? || last.None? then None else Some(Join(front.value, last.value))
  }

  // ---------------------------------------------------------------- the converter

  /** One block of rows per key-value head: its queries, its key rows, its value rows. */
  function Blocks<T>(q: seq<T>, k: seq<T>, v: seq<T>, groups: nat, a: nat, b: nat): (r: seq<seq<T>>)
    requires |q| == groups * a && |k| == |v| == groups * b
    ensures |r| == groups && Uniform(r, a + b + b)
    decreases groups
  {
    if groups == 0 then []
    else
      Rest(groups, a);
      Rest(groups, b);
      var g := groups - 1;
      Blocks(q[..g * a], k[..g * b], v[..g * b], g, a, b) + [q[g * a..] + k[g * b..] + v[g * b..]]
  }

  /** `cat([q, k, v], dim=1)` of the views with one block per key-value head, flattened again. */
  function PackQkv<T>(q: seq<T>, k: seq<T>, v: seq<T>, groups: nat, a: nat, b: nat): seq<T>
    requires |q| == groups * a && |k| == |v| == groups * b
  {
    Flatten(Blocks(q, k, v, groups, a, b))
  }

  // ---------------------------------------------------------------- the mergers

  /** Rows of queries and of keys in one chunk; None where the heads or the rows do not divide evenly, or
      there is nothing to divide by. */
  function QuerySize(heads: nat, kvHeads: nat, rows: nat, groups: nat): Option<(nat, nat)> {
    if kvHeads == 0 || groups == 0 || heads % kvHeads != 0 then None
    else
      var perKv := heads / kvHeads;
      if rows % (perKv + 2) != 0 then None
      else
        var kv := rows / (perKv + 2);
        Some((kv * perKv / groups, kv / groups))
  }

  /** `_split_tensors` on a QKV tensor, as a function. */
  function SplitQkv<T>(tensor: seq<T>, heads: nat, kvHeads: nat): Option<Qkv<T>> {
    var sizes := QuerySize(heads, kvHeads, |tensor|, kvHeads);
    if sizes.None? then None else SplitEach(Chunk(tensor, kvHeads), sizes.value.0, sizes.value.1)
  }

  /** The chunks of every rank's shard, as `_merge_across_tp` walks over them. */
  function ChunkLists<T>(shards: seq<seq<T>>, groups: nat): seq<seq<seq<T>>>
    requires groups > 0
  {
    seq(|shards|, i requires 0 <= i < |shards| => Chunk(shards[i], groups))
  }

  function MergeTp<T>(shards: seq<seq<T>>, heads: nat, kvHeads: nat): Option<Qkv<T>> {
    if shards == [] then None
    else
      var groups := kvHeads / |shards|;
      var sizes := QuerySize(heads, kvHeads, |shards[0]|, groups);
      if sizes.None? then None else SplitEach(Flatten(ChunkLists(shards, groups)), sizes.value.0, sizes.value.1)
  }

  /** `_split_tensors`, with its lists. */
  method SplitTensors<T>(tensor: seq<T>, heads: nat, kvHeads: nat) returns (r: Option<Qkv<T>>)
    ensures r == SplitQkv(tensor, heads, kvHeads)
  {
    var sizes := QuerySize(heads, kvHeads, |tensor|, kvHeads);
    if sizes.None? {
      return None;
    }
    var chunks := Chunk(tensor, kvHeads);
    r := SplitChunks(chunks, sizes.value.0, sizes.value.1, [], Qkv([], [], []));
    assert [] + chunks == chunks;
  }

  /** The inner loop of both mergers: append the parts of each chunk to the lists. */
  method SplitChunks<T>(chunks: seq<seq<T>>, a: nat, b: nat, ghost before: seq<seq<T>>, start: Qkv<T>)
    returns (r: Option<Qkv<T>>)
    requires SplitEach(before, a, b) == Some(start)
    ensures r == SplitEach(before + chunks, a, b)
  {
    hide SplitEach;
    var lists := start;
    assert before + chunks[..0] == before;
    for i := 0 to |chunks|
      invariant SplitEach(before + chunks[..i], a, b) == Some(lists)
    {
      var parts := SplitOne(chunks[i], a, b);
      assert before + chunks[..i + 1] == (before + chunks[..i]) + [chunks[i]];
      SplitEachSnoc(before + chunks[..i], chunks[i], a, b);
      if parts.None? {
        SplitEachFails(before + chunks, |before| + i, a, b);
        return None;
      }
      lists := Join(lists, parts.value);
    }
    assert chunks[..|chunks|] == chunks;
    r := Some(lists);
  }

  /** `_merge_across_tp`, with its nested loops. */
  method MergeAcrossTp<T>(shards: seq<seq<T>>, heads: nat, kvHeads: nat) returns (r: Option<Qkv<T>>)
    ensures r == MergeTp(shards, heads, kvHeads)
  {
    if shards == [] {
      return None;
    }
    var groups := kvHeads / |shards|;
    var sizes := QuerySize(heads, kvHeads, |shards[0]|, groups);
    if sizes.None? {
      return None;
    }
    r := SplitLists(ChunkLists(shards, groups), sizes.value.0, sizes.value.1);
  }

  method SplitLists<T>(chunkLists: seq<seq<seq<T>>>, a: nat, b: nat) returns (r: Option<Qkv<T>>)
    ensures r == SplitEach(Flatten(chunkLists), a, b)
  {
    var lists := Qkv([], [], []);
    for i := 0 to |chunkLists|
      invariant SplitEach(Flatten(chunkLists[..i]), a, b) == Some(lists)
    {
      var more := SplitChunks(chunkLists[i], a, b, Flatten(chunkLists[..i]), lists);
      FlattenSnoc(chunkLists[..i], chunkLists[i]);
      assert chunkLists[..i] + [chunkLists[i]] == chunkLists[..i + 1];
      if more.None? {
        FlattenPrefix(chunkLists, i + 1);
        assert Flatten(chunkLists)[..|Flatten(chunkLists[..i + 1])|] == Flatten(chunkLists[..i + 1]);
        SplitEachPrefixFails(Flatten(chunkLists), |Flatten(chunkLists[..i + 1])|, a, b);
        return None;
      }
      lists := more.value;
    }
    assert chunkLists[..|chunkLists|] == chunkLists;
    r := Some(lists);
  }

  // ---------------------------------------------------------------- splitting chunk lists

  lemma SplitEachSnoc<T>(chunks: seq<seq<T>>, c: seq<T>, a: nat, b: nat)
    ensures SplitEach(chunks + [c], a, b) ==
            if SplitEach(chunks, a, b).None? || SplitOne(c, a, b).None? then None
            else Some(Join(SplitEach(chunks, a, b).value, SplitOne(c, a, b).value))
  {
    assert (chunks + [c])[..|chunks|] == chunks;
  }

  lemma {:induction false} SplitEachFails<T>(chunks: seq<seq<T>>, i: nat, a: nat, b: nat)
    requires i < |chunks| && SplitOne(chunks[i], a, b).None?
    ensures SplitEach(chunks, a, b).None?
  {
    if i < |chunks| - 1 {
      SplitEachFails(chunks[..|chunks| - 1], i, a, b);
    }
  }

  lemma {:induction false} SplitEachPrefixFails<T>(chunks: seq<seq<T>>, n: nat, a: nat, b: nat)
    requires n <= |chunks| && SplitEach(chunks[..n], a, b).None?
    ensures SplitEach(chunks, a, b).None?
  {
    if n < |chunks| {
      assert chunks[..|chunks| - 1][..n] == chunks[..n];
      SplitEachPrefixFails(chunks[..|chunks| - 1], n, a, b);
    } else {
      assert chunks[..n] == chunks;
    }
  }

  // ---------------------------------------------------------------- chunks of uniform pieces

  lemma {:induction false} PiecesUniform<T>(s: seq<T>, n: nat, w: nat)
    requires n > 0 && w > 0 && |s| == n * w
    ensures var p := Pieces(s, w); |p| == n && Uniform(p, w) && Flatten(p) == s
  {
    hide Pieces, Flatten;
    Rest(n, w);
    FarFromZero(w, n - 1);
    if n == 1 {
      OnePiece(s, w);
    } else {
      PiecesUniform(s[w..], n - 1, w);
      MorePieces(s, w);
    }
  }

  lemma OnePiece<T>(s: seq<T>, w: nat)
    requires w > 0 && |s| == w
    ensures Pieces(s, w) == [s] && Flatten([s]) == s
  {
    FlattenSnoc([], s);
    assert [] + [s] == [s];
  }

  lemma MorePieces<T>(s: seq<T>, w: nat)
    requires 0 < w < |s|
    ensures Pieces(s, w) == [s[..w]] + Pieces(s[w..], w)
    ensures Flatten(Pieces(s, w)) == s[..w] + Flatten(Pieces(s[w..], w))
  {
    OnePiece(s[..w], w);
    FlattenConcat([s[..w]], Pieces(s[w..], w));
  }

  lemma {:induction false} PiecesUnique<T>(pieces: seq<seq<T>>, w: nat)
    requires w > 0 && pieces != [] && Uniform(pieces, w)
    ensures |Flatten(pieces)| == |pieces| * w && Pieces(Flatten(pieces), w) == pieces
  {
    var s, first, rest := Flatten(pieces), pieces[0], pieces[1..];
    assert pieces == [first] + rest;
    FlattenConcat([first], rest);
    OnePiece(first, w);
    assert s == first + Flatten(rest);
    if rest == [] {
      assert s == first;
    } else {
      PiecesUnique(rest, w);
      assert |pieces| * w == |rest| * w + w;
      assert |rest| * w >= w;
      assert s[..w] == first && s[w..] == Flatten(rest);
    }
  }

  lemma {:induction false} ChunkUniform<T>(s: seq<T>, n: nat, w: nat)
    requires n > 0 && w > 0 && |s| == n * w
    ensures Chunk(s, n) == Pieces(s, w)
    ensures |Chunk(s, n)| == n && Uniform(Chunk(s, n), w) && Flatten(Chunk(s, n)) == s
  {
    ExactDivision(w, n);
    Rest(n, w);
    PiecesUniform(s, n, w);
  }

  // ---------------------------------------------------------------- round trip

  lemma SplitOneBlock<T>(x: seq<T>, y: seq<T>, z: seq<T>)
    requires |y| == |z|
    ensures SplitOne(x + y + z, |x|, |y|) == Some(Qkv(x, y, z))
  {
    var c := x + y + z;
    assert c[..|x|] == x;
    assert c[|x|..|x| + |y|] == y;
    assert c[|x| + |y|..] == z;
  }

  lemma SplitLastBlock<T>(front: seq<seq<T>>, head: Qkv<T>, x: seq<T>, y: seq<T>, z: seq<T>, a: nat, b: nat)
    requires |x| == a && |y| == |z| == b && SplitEach(front, a, b) == Some(head)
    ensures SplitEach(front + [x + y + z], a, b) == Some(Join(head, Qkv(x, y, z)))
  {
    SplitEachSnoc(front, x + y + z, a, b);
    SplitOneBlock(x, y, z);
  }

  lemma {:induction false} SplitBlocks<T>(q: seq<T>, k: seq<T>, v: seq<T>, groups: nat, a: nat, b: nat)
    requires |q| == groups * a && |k| == |v| == groups * b
    ensures SplitEach(Blocks(q, k, v, groups, a, b), a, b) == Some(Qkv(q, k, v))
    decreases groups
  {
    if groups > 0 {
      hide Blocks, SplitEach;
      Rest(groups, a);
      Rest(groups, b);
      var m, n := (groups - 1) * a, (groups - 1) * b;
      BlocksStep(q, k, v, groups, a, b, m, n);
      SplitBlocks(q[..m], k[..n], v[..n], groups - 1, a, b);
      SplitSuffix(Blocks(q[..m], k[..n], v[..n], groups - 1, a, b), q, k, v, m, n, a, b);
    }
  }

  lemma SplitSuffix<T>(front: seq<seq<T>>, q: seq<T>, k: seq<T>, v: seq<T>, m: nat, n: nat, a: nat, b: nat)
    requires |q| == m + a && |k| == |v| == n + b && SplitEach(front, a, b) == Some(Qkv(q[..m], k[..n], v[..n]))
    ensures SplitEach(front + [q[m..] + k[n..] + v[n..]], a, b) == Some(Qkv(q, k, v))
  {
    hide SplitEach;
    SplitLastBlock(front, Qkv(q[..m], k[..n], v[..n]), q[m..], k[n..], v[n..], a, b);
    assert q == q[..m] + q[m..] && k == k[..n] + k[n..] && v == v[..n] + v[n..];
  }

  lemma BlocksStep<T>(q: seq<T>, k: seq<T>, v: seq<T>, groups: nat, a: nat, b: nat, m: nat, n: nat)
    requires groups > 0 && m == (groups - 1) * a && n == (groups - 1) * b
    requires |q| == groups * a && |k| == |v| == groups * b && m <= |q| && n <= |k|
    ensures Blocks(q, k, v, groups, a, b)
         == Blocks(q[..m], k[..n], v[..n], groups - 1, a, b) + [q[m..] + k[n..] + v[n..]]
  {
  }

  /** The sizes both mergers compute are those the converter packed with. */
  lemma {:induction false} SizesAgree(heads: nat, kvHeads: nat, headDim: nat, groups: nat)
    requires kvHeads > 0 && heads % kvHeads == 0 && groups > 0
    ensures QuerySize(heads, kvHeads, groups * ((heads / kvHeads + 2) * headDim), groups)
         == Some((heads / kvHeads * headDim, headDim))
  {
    var perKv := heads / kvHeads;
    var rows := groups * ((perKv + 2) * headDim);
    assert rows == (groups * headDim) * (perKv + 2);
    ExactDivision(groups * headDim, perKv + 2);
    assert (groups * headDim) * perKv == (perKv * headDim) * groups;
    ExactDivision(perKv * headDim, groups);
    assert groups * headDim == headDim * groups;
    ExactDivision(headDim, groups);
  }

  /** For every head count divisible by the number of key-value heads and every head size, splitting
      the packed rows gives back the three projections. */
  lemma {:induction false} QkvRoundTrip<T>(q: seq<T>, k: seq<T>, v: seq<T>, heads: nat, kvHeads: nat, headDim: nat)
    requires kvHeads > 0 && heads % kvHeads == 0 && headDim > 0
    requires |q| == kvHeads * (heads / kvHeads * headDim) && |k| == |v| == kvHeads * headDim
    ensures var packed := PackQkv(q, k, v, kvHeads, heads / kvHeads * headDim, headDim);
            && |packed| == kvHeads * ((heads / kvHeads + 2) * headDim)
            && SplitQkv(packed, heads, kvHeads) == Some(Qkv(q, k, v))
  {
    var a := heads / kvHeads * headDim;
    var w := a + headDim + headDim;
    var blocks := Blocks(q, k, v, kvHeads, a, headDim);
    assert w == (heads / kvHeads + 2) * headDim;
    PiecesUnique(blocks, w);
    ChunkUniform(Flatten(blocks), kvHeads, w);
    SizesAgree(heads, kvHeads, headDim, kvHeads);
    SplitBlocks(q, k, v, kvHeads, a, headDim);
  }

  // ---------------------------------------------------------------- exactly the packed tensors split

  lemma {:induction false} SplitUniform<T>(chunks: seq<seq<T>>, a: nat, b: nat)
    requires Uniform(chunks, a + b + b)
    ensures SplitEach(chunks, a, b).Some?
  {
    if chunks != [] {
      SplitUniform(chunks[..|chunks| - 1], a, b);
    }
  }

  /** What the rows and the sizes have to do with each other: `kv` rows of keys, cut into `groups` pieces of b. */
  lemma SizesMatch(rows: nat, perKv: nat, kv: nat, groups: nat, a: nat, b: nat, len: nat)
    requires groups > 0 && rows == kv * (perKv + 2) && a == kv * perKv / groups && b == kv / groups
    requires len == a + b + b && len * groups >= rows
    ensures kv == b * groups && rows == b * (groups * (perKv + 2))
  {
    var x := kv * perKv;
    assert x == groups * a + x % groups && kv == groups * b + kv % groups;
    assert len * groups == groups * a + groups * b + groups * b;
    assert rows == x + kv + kv;
  }

  lemma FirstChunk<T>(tensor: seq<T>, groups: nat)
    requires groups > 0 && tensor != []
    ensures var c := Chunk(tensor, groups); c != [] && |c[0]| * groups >= |tensor|
  {
    var n, size := |tensor|, (|tensor| + groups - 1) / groups;
    assert n + groups - 1 == groups * size + (n + groups - 1) % groups;
    assert size * groups >= n && size > 0;
    MulGrows(1, groups, n);
  }

  /** A QKV tensor can be split exactly when its rows are a multiple of one row per query head and two per key-value
      head, and the key-value heads divide the query heads. */
  lemma {:induction false} SplitsExactly<T>(tensor: seq<T>, heads: nat, kvHeads: nat)
    ensures SplitQkv(tensor, heads, kvHeads).Some?
            <==> kvHeads > 0 && heads % kvHeads == 0 && |tensor| % (heads + 2 * kvHeads) == 0
  {
    if kvHeads > 0 && heads % kvHeads == 0 {
      var perKv := heads / kvHeads;
      var unit := kvHeads * (perKv + 2);
      assert unit == heads + 2 * kvHeads;
      if |tensor| % unit == 0 {
        MultipleSplits(tensor, heads, kvHeads, |tensor| / unit);
      } else if SplitQkv(tensor, heads, kvHeads).Some? {
        var d := SplitIsMultiple(tensor, heads, kvHeads);
        ExactDivision(d, unit);
      }
    }
  }

  lemma MultipleSplits<T>(tensor: seq<T>, heads: nat, kvHeads: nat, d: nat)
    requires kvHeads > 0 && heads % kvHeads == 0 && |tensor| == kvHeads * (heads / kvHeads + 2) * d
    ensures SplitQkv(tensor, heads, kvHeads).Some?
  {
    var a, w := heads / kvHeads * d, (heads / kvHeads + 2) * d;
    assert w == a + d + d;
    Reassociate(kvHeads, heads / kvHeads + 2, d);
    SizesAgree(heads, kvHeads, d, kvHeads);
    if d == 0 {
      assert tensor == [];
    } else {
      FarFromZero(d, heads / kvHeads + 2);
      ChunkUniform(tensor, kvHeads, w);
    }
    SplitUniform(Chunk(tensor, kvHeads), a, d);
  }

  lemma SplitIsMultiple<T>(tensor: seq<T>, heads: nat, kvHeads: nat) returns (d: nat)
    requires SplitQkv(tensor, heads, kvHeads).Some?
    ensures kvHeads > 0 && heads % kvHeads == 0 && |tensor| == d * (kvHeads * (heads / kvHeads + 2))
  {
    hide SplitEach, Chunk;
    var perKv := heads / kvHeads;
    var kv := |tensor| / (perKv + 2);
    var a, b := kv * perKv / kvHeads, kv / kvHeads;
    if tensor == [] {
      d := 0;
    } else {
      d := b;
      FirstChunk(tensor, kvHeads);
      FirstSplits(Chunk(tensor, kvHeads), a, b);
      SizesMatch(|tensor|, perKv, kv, kvHeads, a, b, |Chunk(tensor, kvHeads)[0]|);
    }
  }

  lemma FirstSplits<T>(chunks: seq<seq<T>>, a: nat, b: nat)
    requires chunks != [] && SplitEach(chunks, a, b).Some?
    ensures |chunks[0]| == a + b + b
  {
    if SplitOne(chunks[0], a, b).None? {
      SplitEachFails(chunks, 0, a, b);
    }
  }

  /** The parts of uniform chunks, interleaved again, are the chunks. */
  lemma {:induction false} BlocksOfSplit<T>(chunks: seq<seq<T>>, a: nat, b: nat)
    requires SplitEach(chunks, a, b).Some?
    ensures var r, n := SplitEach(chunks, a, b).value, |chunks|;
            |r.q| == n * a && |r.k| == |r.v| == n * b && Blocks(r.q, r.k, r.v, n, a, b) == chunks
  {
    if chunks != [] {
      hide SplitEach, SplitOne, Blocks;
      var n, front, last := |chunks| - 1, chunks[..|chunks| - 1], chunks[|chunks| - 1];
      assert chunks == front + [last];
      SplitEachSnoc(front, last, a, b);
      BlocksOfSplit(front, a, b);
      PartsRejoin(last, a, b);
      OneMoreBlock(SplitEach(front, a, b).value, SplitOne(last, a, b).value, n, a, b, n * a, n * b);
    }
  }

  lemma PartsRejoin<T>(c: seq<T>, a: nat, b: nat)
    requires SplitOne(c, a, b).Some?
    ensures var r := SplitOne(c, a, b).value; |r.q| == a && |r.k| == |r.v| == b && r.q + r.k + r.v == c
  {
  }

  lemma OneMoreBlock<T>(f: Qkv<T>, l: Qkv<T>, n: nat, a: nat, b: nat, x: nat, y: nat)
    requires x == n * a && y == n * b && |f.q| == x && |f.k| == |f.v| == y && |l.q| == a && |l.k| == |l.v| == b
    ensures x + a == (n + 1) * a && y + b == (n + 1) * b
    ensures var r := Join(f, l);
            Blocks(r.q, r.k, r.v, n + 1, a, b) == Blocks(f.q, f.k, f.v, n, a, b) + [l.q + l.k + l.v]
  {
    Next(n, a);
    Next(n, b);
    var r := Join(f, l);
    assert r.q[..x] == f.q && r.k[..y] == f.k && r.v[..y] == f.v;
    assert r.q[x..] == l.q && r.k[y..] == l.k && r.v[y..] == l.v;
    BlocksStep(r.q, r.k, r.v, n + 1, a, b, x, y);
  }

  /** Packing what a tensor was split into gives the tensor back. */
  lemma {:induction false} PackUndoesSplit<T>(tensor: seq<T>, heads: nat, kvHeads: nat)
    requires SplitQkv(tensor, heads, kvHeads).Some?
    ensures var r, d := SplitQkv(tensor, heads, kvHeads).value, |tensor| / (heads + 2 * kvHeads);
            && |r.q| == kvHeads * (heads / kvHeads * d) && |r.k| == |r.v| == kvHeads * d
            && PackQkv(r.q, r.k, r.v, kvHeads, heads / kvHeads * d, d) == tensor
  {
    hide SplitEach, Chunk, Blocks, QuerySize;
    var d := SplitIsMultiple(tensor, heads, kvHeads);
    if tensor == [] {
      SplitNothing(tensor, heads, kvHeads);
      FlattenLength(Blocks(tensor, tensor, tensor, kvHeads, 0, 0), 0);
    } else {
      RowsPerHead(|tensor|, heads, kvHeads, d);
      SizesAgree(heads, kvHeads, d, kvHeads);
      ChunkUniform(tensor, kvHeads, (heads / kvHeads + 2) * d);
      BlocksOfSplit(Chunk(tensor, kvHeads), heads / kvHeads * d, d);
    }
  }

  lemma NoRows(perKv: nat, kvHeads: nat)
    ensures perKv * 0 == 0 && kvHeads * ((perKv + 2) * 0) == 0
  {
  }

  lemma SplitNothing<T>(tensor: seq<T>, heads: nat, kvHeads: nat)
    requires tensor == [] && SplitQkv(tensor, heads, kvHeads).Some?
    ensures SplitQkv(tensor, heads, kvHeads) == Some(Qkv([], [], [])) && 0 / (heads + 2 * kvHeads) == 0
  {
    NoRows(heads / kvHeads, kvHeads);
    SizesAgree(heads, kvHeads, 0, kvHeads);
    assert QuerySize(heads, kvHeads, 0, kvHeads) == Some((0, 0));
    assert Chunk(tensor, kvHeads) == [] + [tensor];
    SplitEachSnoc([], tensor, 0, 0);
    assert SplitEach<T>([], 0, 0) == Some(Qkv([], [], [])) && SplitOne(tensor, 0, 0) == Some(Qkv([], [], []));
  }

  lemma RowsPerHead(rows: nat, heads: nat, kvHeads: nat, d: nat)
    requires kvHeads > 0 && heads % kvHeads == 0 && rows == d * (kvHeads * (heads / kvHeads + 2)) && rows > 0
    ensures rows / (heads + 2 * kvHeads) == d && (heads / kvHeads + 2) * d > 0
    ensures rows == kvHeads * ((heads / kvHeads + 2) * d)
  {
    var w := heads / kvHeads + 2;
    assert kvHeads * w == heads + 2 * kvHeads;
    ExactDivision(d, kvHeads * w);
    FarFromZero(d, w);
    Reassociate(kvHeads, w, d);
  }

  lemma {:induction false} BlockAt<T>(q: seq<T>, k: seq<T>, v: seq<T>, groups: nat, a: nat, b: nat, g: nat,
                                      m: nat, n: nat)
    requires |q| == groups * a && |k| == |v| == groups * b && g < groups && m == g * a && n == g * b
    ensures m + a <= |q| && n + b <= |k|
    ensures Blocks(q, k, v, groups, a, b)[g] == q[m..m + a] + k[n..n + b] + v[n..n + b]
    decreases groups
  {
    hide Blocks;
    Rest(groups, a);
    Rest(groups, b);
    var x, y := (groups - 1) * a, (groups - 1) * b;
    BlocksStep(q, k, v, groups, a, b, x, y);
    if g < groups - 1 {
      BlockAt(q[..x], k[..y], v[..y], groups - 1, a, b, g, m, n);
      SameBlock(q, k, v, x, y, m, n, a, b);
    } else {
      assert m == x && n == y && |q| == x + a && |k| == |v| == y + b;
    }
  }

  lemma SameBlock<T>(q: seq<T>, k: seq<T>, v: seq<T>, x: nat, y: nat, m: nat, n: nat, a: nat, b: nat)
    requires m + a <= x <= |q| && n + b <= y <= |k| == |v|
    ensures q[..x][m..m + a] + k[..y][n..n + b] + v[..y][n..n + b] == q[m..m + a] + k[n..n + b] + v[n..n + b]
  {
  }

  /** Where the packed tensor has each row: block g is the g-th group's queries, then its keys, then its values. */
  lemma {:induction false} PackedRow<T>(q: seq<T>, k: seq<T>, v: seq<T>, groups: nat, a: nat, b: nat, g: nat, i: nat,
                                        m: nat, n: nat, at: nat)
    requires |q| == groups * a && |k| == |v| == groups * b && g < groups && i < a + b + b
    requires m == g * a && n == g * b && at == g * (a + b + b)
    ensures m + a <= |q| && n + b <= |k| && at + i < |PackQkv(q, k, v, groups, a, b)|
    ensures PackQkv(q, k, v, groups, a, b)[at + i]
         == if i < a then q[m + i] else if i < a + b then k[n + i - a] else v[n + i - a - b]
  {
    hide Blocks, Flatten;
    var w, blocks := a + b + b, Blocks(q, k, v, groups, a, b);
    BlockAt(q, k, v, groups, a, b, g, m, n);
    UniformPiece(blocks, w, g);
    Next(g, w);
    RowOfBlock(Flatten(blocks), at, q, k, v, m, n, a, b, i);
  }

  lemma Next(g: nat, x: nat)
    ensures (g + 1) * x == g * x + x && g * x >= 0
  {
  }

  lemma RowOfBlock<T>(s: seq<T>, at: nat, q: seq<T>, k: seq<T>, v: seq<T>, m: nat, n: nat, a: nat, b: nat, i: nat)
    requires m + a <= |q| && n + b <= |k| == |v| && at + (a + b + b) <= |s| && i < a + b + b
    requires s[at..at + (a + b + b)] == q[m..m + a] + k[n..n + b] + v[n..n + b]
    ensures s[at + i] == if i < a then q[m + i] else if i < a + b then k[n + i - a] else v[n + i - a - b]
  {
    assert s[at + i] == s[at..at + (a + b + b)][i];
  }

  // ---------------------------------------------------------------- tensor parallelism

  lemma {:induction false} FlattenTwice<T>(lists: seq<seq<seq<T>>>, shards: seq<seq<T>>)
    requires |lists| == |shards| && forall i :: 0 <= i < |lists| ==> Flatten(lists[i]) == shards[i]
    ensures Flatten(Flatten(lists)) == Flatten(shards)
  {
    if lists != [] {
      FlattenTwice(lists[..|lists| - 1], shards[..|shards| - 1]);
      FlattenConcat(Flatten(lists[..|lists| - 1]), lists[|lists| - 1]);
    }
  }

  lemma {:induction false} FlattenUniform<T>(lists: seq<seq<seq<T>>>, n: nat, w: nat)
    requires forall i :: 0 <= i < |lists| ==> |lists[i]| == n && Uniform(lists[i], w)
    ensures |Flatten(lists)| == |lists| * n && Uniform(Flatten(lists), w)
  {
    if lists != [] {
      FlattenUniform(lists[..|lists| - 1], n, w);
      Rest(|lists|, n);
    }
  }

  /** Walking over each shard's chunks is walking over the whole tensor's chunks. */
  lemma {:induction false} ChunksAgree<T>(shards: seq<seq<T>>, groups: nat, w: nat)
    requires shards != [] && groups > 0 && w > 0 && Uniform(shards, groups * w)
    ensures |shards| * groups > 0
    ensures Flatten(ChunkLists(shards, groups)) == Chunk(Flatten(shards), |shards| * groups)
  {
    var lists := ChunkLists(shards, groups);
    forall i | 0 <= i < |shards|
      ensures |lists[i]| == groups && Uniform(lists[i], w) && Flatten(lists[i]) == shards[i]
    {
      ChunkUniform(shards[i], groups, w);
    }
    FarFromZero(groups, |shards|);
    FlattenTwice(lists, shards);
    FlattenUniform(lists, groups, w);
    PiecesUnique(Flatten(lists), w);
    ChunkUniform(Flatten(shards), |shards| * groups, w);
  }

  lemma Reassociate(x: nat, y: nat, z: nat)
    ensures x * (y * z) == x * y * z
  {
  }

  lemma WholeSize<T>(shards: seq<seq<T>>, groups: nat, w: nat)
    requires Uniform(shards, groups * w)
    ensures |Flatten(shards)| == |shards| * groups * w
  {
    FlattenLength(shards, groups * w);
    Reassociate(|shards|, groups, w);
  }

  /** Merging equal contiguous shards gives what splitting the whole tensor gives. */
  lemma {:induction false} TpMergeIsWholeSplit<T>(shards: seq<seq<T>>, heads: nat, kvHeads: nat, headDim: nat)
    requires kvHeads > 0 && heads % kvHeads == 0 && headDim > 0
    requires shards != [] && kvHeads % |shards| == 0
    requires Uniform(shards, kvHeads / |shards| * ((heads / kvHeads + 2) * headDim))
    ensures MergeTp(shards, heads, kvHeads) == SplitQkv(Flatten(shards), heads, kvHeads)
  {
    var groups := kvHeads / |shards|;
    var w := (heads / kvHeads + 2) * headDim;
    var size := (heads / kvHeads * headDim, headDim);
    assert kvHeads == |shards| * groups;
    assert QuerySize(heads, kvHeads, |shards[0]|, groups) == Some(size) by {
      SizesAgree(heads, kvHeads, headDim, groups);
    }
    assert QuerySize(heads, kvHeads, |Flatten(shards)|, kvHeads) == Some(size) by {
      WholeSize(shards, groups, w);
      SizesAgree(heads, kvHeads, headDim, kvHeads);
    }
    assert Flatten(ChunkLists(shards, groups)) == Chunk(Flatten(shards), kvHeads) by {
      FarFromZero(headDim, heads / kvHeads + 2);
      ChunksAgree(shards, groups, w);
    }
  }

  /** So sharding the converter's tensor over any number of ranks that divides the key-value heads
      and merging again restores the projections. */
  lemma {:induction false} TpRoundTrip<T>(q: seq<T>, k: seq<T>, v: seq<T>, heads: nat, kvHeads: nat, headDim: nat,
                                          shards: seq<seq<T>>)
    requires kvHeads > 0 && heads % kvHeads == 0 && headDim > 0
    requires |q| == kvHeads * (heads / kvHeads * headDim) && |k| == |v| == kvHeads * headDim
    requires shards != [] && kvHeads % |shards| == 0
    requires Uniform(shards, kvHeads / |shards| * ((heads / kvHeads + 2) * headDim))
    requires Flatten(shards) == PackQkv(q, k, v, kvHeads, heads / kvHeads * headDim, headDim)
    ensures MergeTp(shards, heads, kvHeads) == Some(Qkv(q, k, v))
  {
    TpMergeIsWholeSplit(shards, heads, kvHeads, headDim);
    QkvRoundTrip(q, k, v, heads, kvHeads, headDim);
  }
}
