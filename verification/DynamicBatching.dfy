/** Batching sequences under a quota, running the model on padded batches, and putting the hidden
    states back in sample order. */
module DynamicBatching {
  import opened Arithmetic
  import opened Greedy
  import opened Sequences
  import opened Wrappers

  /** `compute_seq_quota`, over the reals. */
  function SeqQuota(len: nat): (q: real)
    ensures q >= len as real
  {
    if len > 4000 then
      LongQuota(len as real);
      (1.0 + 0.00025 * len as real) * len as real / 2.0
    else len as real
  }

  lemma LongQuota(x: real)
    requires x > 4000.0
    ensures (1.0 + 0.00025 * x) * x / 2.0 >= x
  {
    assert (0.00025 * x - 1.0) * x > 0.0;
  }

  /** Up to 4000 tokens the quota is the length; beyond, it grows faster and reaches one and a half times the length
      at 8000 tokens, twice the length at 12000.  Longer sequences always cost more. */
  lemma QuotaGrows(len: nat, longer: nat)
    requires len < longer
    ensures len <= 4000 ==> SeqQuota(len) == len as real
    ensures SeqQuota(8000) == 12000.0 && SeqQuota(12000) == 24000.0
    ensures SeqQuota(len) < SeqQuota(longer)
    ensures len >= 4000 ==> SeqQuota(longer) * len as real > SeqQuota(len) * longer as real
  {
    if len >= 4000 {
      PerToken(len as real);
      PerToken(longer as real);
      RateGrows(len as real, longer as real, SeqQuota(len), SeqQuota(longer));
    }
  }

  lemma PerToken(x: real)
    ensures (1.0 + 0.00025 * x) * x / 2.0 == x / 2.0 + 0.000125 * (x * x)
  {
  }

  lemma RateGrows(x: real, y: real, p: real, q: real)
    requires 0.0 < x < y && p == x / 2.0 + 0.000125 * (x * x) && q == y / 2.0 + 0.000125 * (y * y)
    ensures p < q && q * x > p * y
  {
    assert (y - x) * (y + x) == y * y - x * x;
    assert (y - x) * (y + x) > 0.0;
    var d := (y - x) * (x * y);
    assert x * y > 0.0;
    assert d > 0.0;
    assert (x * y) * y - (x * y) * x == d;
    assert q * x == (x * y) / 2.0 + 0.000125 * ((x * y) * y);
    assert p * y == (x * y) / 2.0 + 0.000125 * ((x * y) * x);
  }

  ghost predicate InRange(batch: seq<nat>, n: nat) {
    forall j :: 0 <= j < |batch| ==> batch[j] < n
  }

  function LengthOf(lengths: seq<nat>, i: nat): nat {
    if i < |lengths| then lengths[i] else 0
  }

  function Quota(lengths: seq<nat>, batch: seq<nat>): (q: real)
    ensures q >= 0.0
  {
    if batch == [] then 0.0
    else Quota(lengths, batch[..|batch| - 1]) + SeqQuota(LengthOf(lengths, batch[|batch| - 1]))
  }

  function Tokens(lengths: seq<nat>, batch: seq<nat>): nat {
    if batch == [] then 0 else Tokens(lengths, batch[..|batch| - 1]) + LengthOf(lengths, batch[|batch| - 1])
  }

  /** A batch of several samples respects both limits. */
  predicate Fits(lengths: seq<nat>, maxQuota: real, maxSize: int, batch: seq<nat>) {
    |batch| <= 1 || (Quota(lengths, batch) <= maxQuota && |batch| <= maxSize)
  }

  function Ok(lengths: seq<nat>, maxQuota: real, maxSize: int): seq<nat> -> bool {
    batch => Fits(lengths, maxQuota, maxSize, batch)
  }

  function Batches(order: seq<nat>, lengths: seq<nat>, maxQuota: real, maxSize: int): seq<seq<nat>> {
    Pieces(Cut(Ok(lengths, maxQuota, maxSize), order))
  }

  lemma QuotaSnoc(lengths: seq<nat>, batch: seq<nat>, i: nat)
    ensures Quota(lengths, batch + [i]) == Quota(lengths, batch) + SeqQuota(LengthOf(lengths, i))
  {
    hide SeqQuota, LengthOf;
    assert (batch + [i])[..|batch|] == batch;
  }

  lemma EmptyCut(ok: seq<nat> -> bool, lengths: seq<nat>)
    ensures Cut(ok, []) == Cutting([], []) && Quota(lengths, []) == 0.0
    ensures forall i: nat :: Quota(lengths, [i]) == SeqQuota(LengthOf(lengths, i))
  {
    forall i: nat ensures Quota(lengths, [i]) == SeqQuota(LengthOf(lengths, i)) {
      assert [i][..0] == [];
    }
  }

  /** `create_dynamic_batches`. */
  method CreateDynamicBatches(order: seq<nat>, lengths: seq<nat>, maxQuota: real, maxSize: int)
    returns (batches: seq<seq<nat>>)
    requires InRange(order, |lengths|)
    ensures batches == Batches(order, lengths, maxQuota, maxSize)
  {
    ghost var ok := Ok(lengths, maxQuota, maxSize);
    hide Cut, Quota, SeqQuota;
    EmptyCut(ok, lengths);
    batches := [];
    var current := [];
    var quota := 0.0;
    for k := 0 to |order|
      invariant Cut(ok, order[..k]) == Cutting(batches, current)
      invariant quota == Quota(lengths, current)
    {
      var i := order[k];
      var seqQuota := SeqQuota(lengths[i]);
      assert order[..k + 1] == order[..k] + [i];
      CutSnoc(ok, order[..k], i);
      QuotaSnoc(lengths, current, i);
      if current != [] && (quota + seqQuota > maxQuota || |current| >= maxSize) {
        batches := batches + [current];
        current := [i];
        quota := seqQuota;
      } else {
        current := current + [i];
        quota := quota + seqQuota;
      }
    }
    assert order[..|order|] == order;
    if current != [] {
      batches := batches + [current];
    }
  }

  // ---------------------------------------------------------------- what the batches satisfy

  /** Every sample's quota is positive or zero, so a part of a batch costs at most the batch. */
  lemma {:induction false} QuotaOfPart(lengths: seq<nat>, batch: seq<nat>, a: nat, b: nat)
    requires a <= b <= |batch|
    ensures Quota(lengths, batch[a..b]) <= Quota(lengths, batch)
  {
    hide SeqQuota, LengthOf;
    if batch != [] {
      var front, last := batch[..|batch| - 1], batch[|batch| - 1];
      assert batch == front + [last];
      QuotaSnoc(lengths, front, last);
      hide Quota;
      if b < |batch| {
        QuotaOfPart(lengths, front, a, b);
        assert front[a..b] == batch[a..b];
      } else if a < b {
        QuotaOfPart(lengths, front, a, b - 1);
        assert batch[a..b] == front[a..b - 1] + [last];
        QuotaSnoc(lengths, front[a..b - 1], last);
      } else {
        assert batch[a..b] == [];
        EmptyQuota(lengths);
      }
    }
  }

  lemma EmptyQuota(lengths: seq<nat>)
    ensures Quota(lengths, []) == 0.0
  {
  }

  lemma OkHereditary(lengths: seq<nat>, maxQuota: real, maxSize: int)
    ensures Hereditary(Ok(lengths, maxQuota, maxSize))
  {
    forall p: seq<nat>, a: nat, b: nat {:trigger p[a..b]} | a <= b <= |p| && Fits(lengths, maxQuota, maxSize, p)
      ensures Fits(lengths, maxQuota, maxSize, p[a..b])
    {
      QuotaOfPart(lengths, p, a, b);
    }
  }

  lemma {:induction false} TokensWithinQuota(lengths: seq<nat>, batch: seq<nat>)
    ensures Tokens(lengths, batch) as real <= Quota(lengths, batch)
  {
    hide SeqQuota, LengthOf;
    if batch != [] {
      TokensWithinQuota(lengths, batch[..|batch| - 1]);
    }
  }

  /** The batches hold the order they were made from; none is empty; each is a single sample or within
      both limits, its tokens included. */
  lemma BatchesSound(order: seq<nat>, lengths: seq<nat>, maxQuota: real, maxSize: int)
    ensures Flatten(Batches(order, lengths, maxQuota, maxSize)) == order
    ensures forall b :: b in Batches(order, lengths, maxQuota, maxSize) ==>
              && b != []
              && (|b| == 1 || (|b| <= maxSize && Quota(lengths, b) <= maxQuota && Tokens(lengths, b) as real <= maxQuota))
  {
    var ok := Ok(lengths, maxQuota, maxSize);
    CutPartitions(ok, order);
    CutAcceptable(ok, order);
    forall b | b in Batches(order, lengths, maxQuota, maxSize)
      ensures b != [] && Fits(lengths, maxQuota, maxSize, b) && Tokens(lengths, b) as real <= Quota(lengths, b)
    {
      assert ok(b);
      TokensWithinQuota(lengths, b);
    }
  }

  /** A batch is closed only when the next sample would break a limit. */
  lemma {:induction false} BatchesGreedy(order: seq<nat>, lengths: seq<nat>, maxQuota: real, maxSize: int, k: nat)
    requires k + 1 < |Batches(order, lengths, maxQuota, maxSize)|
    ensures var batches := Batches(order, lengths, maxQuota, maxSize);
            var b, next := batches[k], batches[k + 1];
            && b != [] && next != []
            && (Quota(lengths, b + [next[0]]) > maxQuota || |b| >= maxSize)
  {
    ClosedByNext(Ok(lengths, maxQuota, maxSize), order, k);
  }

  /** No in-order cutting into batches that are single samples or within the limits has fewer batches. */
  lemma BatchesMinimal(pieces: seq<seq<nat>>, lengths: seq<nat>, maxQuota: real, maxSize: int)
    requires forall p :: p in pieces ==> Fits(lengths, maxQuota, maxSize, p)
    ensures |Batches(Flatten(pieces), lengths, maxQuota, maxSize)| <= |pieces|
  {
    OkHereditary(lengths, maxQuota, maxSize);
    CutMinimal(Ok(lengths, maxQuota, maxSize), pieces);
  }

  // ---------------------------------------------------------------- running the batches

  /** Left-padded token rows and their attention mask. */
  datatype Input = Input(ids: seq<seq<int>>, mask: seq<seq<int>>)

  function Sample(samples: seq<seq<int>>, i: nat): seq<int> {
    if i < |samples| then samples[i] else []
  }

  function Lengths(samples: seq<seq<int>>): (r: seq<nat>)
    ensures |r| == |samples|
  {
    seq(|samples|, i requires 0 <= i < |samples| => |samples[i]|)
  }

  function MaxLen(samples: seq<seq<int>>, batch: seq<nat>): nat {
    if batch == [] then 0 else Max(MaxLen(samples, batch[..|batch| - 1]), |Sample(samples, batch[|batch| - 1])|)
  }

  lemma {:induction false} MaxLenBounds(samples: seq<seq<int>>, batch: seq<nat>, j: nat)
    requires j < |batch|
    ensures |Sample(samples, batch[j])| <= MaxLen(samples, batch)
  {
    if j < |batch| - 1 {
      MaxLenBounds(samples, batch[..|batch| - 1], j);
    }
  }

  function PaddedRow(width: nat, row: seq<int>, pad: int): seq<int>
    requires |row| <= width
  {
    Repeat(pad, width - |row|) + row
  }

  function MaskRow(width: nat, row: seq<int>): seq<int>
    requires |row| <= width
  {
    Repeat(0, width - |row|) + Repeat(1, |row|)
  }

  function PaddedInput(samples: seq<seq<int>>, batch: seq<nat>, pad: int): Input {
    var width := MaxLen(samples, batch);
    Input(
      seq(|batch|, j requires 0 <= j < |batch| =>
        MaxLenBounds(samples, batch, j); PaddedRow(width, Sample(samples, batch[j]), pad)),
      seq(|batch|, j requires 0 <= j < |batch| =>
        MaxLenBounds(samples, batch, j); MaskRow(width, Sample(samples, batch[j]))))
  }

  /** The model returns one hidden state per cell. */
  ghost predicate OnePerCell<S>(forward: Input -> seq<seq<S>>) {
    forall x: Input {:trigger forward(x)} ::
      |forward(x)| == |x.ids| && forall j :: 0 <= j < |x.ids| ==> |forward(x)[j]| == |x.ids[j]|
  }

  /** The states read for the samples of a batch: the last column of the model's output. */
  function States<S>(samples: seq<seq<int>>, batch: seq<nat>, pad: int, forward: Input -> seq<seq<S>>): (r: seq<S>)
    requires OnePerCell(forward) && MaxLen(samples, batch) > 0
    ensures |r| == |batch|
  {
    var states := forward(PaddedInput(samples, batch, pad));
    seq(|batch|, j requires 0 <= j < |batch| => MaxLenBounds(samples, batch, j); states[j][MaxLen(samples, batch) - 1])
  }

  /** That column holds the sample's own last token, attended to, whenever the sample has a token. */
  lemma LastColumn(samples: seq<seq<int>>, batch: seq<nat>, pad: int, j: nat)
    requires j < |batch| && Sample(samples, batch[j]) != []
    ensures var x, s, w := PaddedInput(samples, batch, pad), Sample(samples, batch[j]), MaxLen(samples, batch);
            && |x.ids[j]| == |x.mask[j]| == w > 0
            && x.ids[j][w - 1] == s[|s| - 1] && x.mask[j][w - 1] == 1
  {
    MaxLenBounds(samples, batch, j);
  }

  /** A padded row ends with the sample, attended to; what precedes it is padding, not attended to. */
  lemma RowHoldsSample(samples: seq<seq<int>>, batch: seq<nat>, pad: int, j: nat, c: nat)
    requires j < |batch| && c < MaxLen(samples, batch)
    ensures var x, s, w := PaddedInput(samples, batch, pad), Sample(samples, batch[j]), MaxLen(samples, batch);
            && |x.ids| == |x.mask| == |batch| && |x.ids[j]| == |x.mask[j]| == w >= |s|
            && (c >= w - |s| ==> x.ids[j][c] == s[c - (w - |s|)] && x.mask[j][c] == 1)
            && (c < w - |s| ==> x.ids[j][c] == pad && x.mask[j][c] == 0)
  {
    MaxLenBounds(samples, batch, j);
  }

  /** The slots of a batch's samples hold the batch's states. */
  ghost predicate Scattered<S>(r: seq<S>, batch: seq<nat>, states: seq<S>) {
    && |states| == |batch| && InRange(batch, |r|)
    && forall j :: 0 <= j < |batch| ==> r[batch[j]] == states[j]
  }

  /** The inner loop: a batch's states go to the slots of its samples, and to no other slot. */
  method ScatterBack<S>(all: array<S>, batch: seq<nat>, states: seq<S>)
    requires Distinct(batch) && InRange(batch, all.Length) && |states| == |batch|
    modifies all
    ensures Scattered(all[..], batch, states)
    ensures forall i :: 0 <= i < all.Length && i !in batch ==> all[i] == old(all[i])
  {
    for j := 0 to |batch|
      invariant forall k :: 0 <= k < j ==> all[batch[k]] == states[k]
      invariant forall i :: 0 <= i < all.Length && i !in batch ==> all[i] == old(all[i])
    {
      all[batch[j]] := states[j];
    }
  }

  /** The first k batches have been run and put back. */
  ghost predicate Done<S>(all: seq<S>, samples: seq<seq<int>>, batches: seq<seq<nat>>, k: nat, pad: int,
                          forward: Input -> seq<seq<S>>)
    requires OnePerCell(forward) && k <= |batches|
  {
    forall c :: 0 <= c < k ==>
      MaxLen(samples, batches[c]) > 0 && Scattered(all, batches[c], States(samples, batches[c], pad, forward))
  }

  lemma DoneStep<S>(before: seq<S>, after: seq<S>, samples: seq<seq<int>>, batches: seq<seq<nat>>, k: nat, pad: int,
                    forward: Input -> seq<seq<S>>)
    requires OnePerCell(forward) && k < |batches| && Apart(batches) && Done(before, samples, batches, k, pad, forward)
    requires |after| == |before| && forall i :: 0 <= i < |after| && i !in batches[k] ==> after[i] == before[i]
    requires MaxLen(samples, batches[k]) > 0
    requires Scattered(after, batches[k], States(samples, batches[k], pad, forward))
    ensures Done(after, samples, batches, k + 1, pad, forward)
  {
    hide States, Scattered, MaxLen, OnePerCell;
    forall c | 0 <= c < k ensures Scattered(after, batches[c], States(samples, batches[c], pad, forward)) {
      KeepsOthers(before, after, batches[c], batches[k], States(samples, batches[c], pad, forward));
    }
  }

  /** The loop over the batches; false when a batch has no token at all. */
  method RunBatches<S>(all: array<S>, samples: seq<seq<int>>, batches: seq<seq<nat>>, pad: int,
                       forward: Input -> seq<seq<S>>)
    returns (ok: bool)
    requires OnePerCell(forward) && Apart(batches)
    requires forall k :: 0 <= k < |batches| ==> Distinct(batches[k]) && InRange(batches[k], all.Length)
    modifies all
    ensures ok <==> forall b :: b in batches ==> MaxLen(samples, b) > 0
    ensures ok ==> Done(all[..], samples, batches, |batches|, pad, forward)
  {
    hide Distinct, InRange, States, Scattered, MaxLen, OnePerCell, Apart;
    for k := 0 to |batches|
      invariant Done(all[..], samples, batches, k, pad, forward)
    {
      var batch := batches[k];
      if MaxLen(samples, batch) == 0 {
        return false;
      }
      ghost var before := all[..];
      var states := States(samples, batch, pad, forward);
      ScatterBack(all, batch, states);
      DoneStep(before, all[..], samples, batches, k, pad, forward);
    }
    ok := true;
  }

  // ---------------------------------------------------------------- every sample gets its own state

  /** The tokens of a row that are attended to, in order. */
  function Attended(ids: seq<int>, mask: seq<int>): seq<int>
    requires |ids| == |mask|
  {
    if ids == [] then []
    else Attended(ids[..|ids| - 1], mask[..|ids| - 1]) + (if mask[|ids| - 1] == 1 then [ids[|ids| - 1]] else [])
  }

  ghost predicate Shaped(x: Input) {
    |x.ids| == |x.mask| && forall j :: 0 <= j < |x.ids| ==> |x.ids[j]| == |x.mask[j]|
  }

  /** The model is causal and ignores padding: the state at an attended cell depends only on the attended tokens of its
      own row up to there. */
  ghost predicate Attentive<S>(forward: Input -> seq<seq<S>>, f: seq<int> -> S)
    requires OnePerCell(forward)
  {
    forall x: Input, j: nat, c: nat {:trigger forward(x)[j][c]} ::
      Shaped(x) && j < |x.ids| && c < |x.ids[j]| && x.mask[j][c] == 1 ==>
        forward(x)[j][c] == f(Attended(x.ids[j][..c + 1], x.mask[j][..c + 1]))
  }

  lemma {:induction false} AttendedPadding(pad: int, n: nat)
    ensures Attended(Repeat(pad, n), Repeat(0, n)) == []
  {
    if n > 0 {
      assert Repeat(pad, n)[..n - 1] == Repeat(pad, n - 1) && Repeat(0, n)[..n - 1] == Repeat(0, n - 1);
      AttendedPadding(pad, n - 1);
    }
  }

  /** Of a padded row exactly the sample is attended to. */
  lemma {:induction false} AttendedRow(pad: int, n: nat, row: seq<int>)
    ensures Attended(Repeat(pad, n) + row, Repeat(0, n) + Repeat(1, |row|)) == row
  {
    var ids, mask := Repeat(pad, n) + row, Repeat(0, n) + Repeat(1, |row|);
    if row == [] {
      assert ids == Repeat(pad, n) && mask == Repeat(0, n);
      AttendedPadding(pad, n);
    } else {
      var front, m := row[..|row| - 1], |ids| - 1;
      assert ids[..m] == Repeat(pad, n) + front && mask[..m] == Repeat(0, n) + Repeat(1, |front|);
      AttendedRow(pad, n, front);
      assert row == front + [row[|row| - 1]];
    }
  }

  /** What is read for a sample is what the model makes of the sample alone, whatever else is in its batch. */
  lemma {:induction false} StateOfSample<S>(samples: seq<seq<int>>, batch: seq<nat>, pad: int,
                                            forward: Input -> seq<seq<S>>, f: seq<int> -> S, j: nat)
    requires OnePerCell(forward) && Attentive(forward, f) && j < |batch| && Sample(samples, batch[j]) != []
    ensures MaxLen(samples, batch) > 0 && States(samples, batch, pad, forward)[j] == f(Sample(samples, batch[j]))
  {
    LastColumn(samples, batch, pad, j);
    var x, s, w := PaddedInput(samples, batch, pad), Sample(samples, batch[j]), MaxLen(samples, batch);
    MaxLenBounds(samples, batch, j);
    AttendedRow(pad, w - |s|, s);
    PaddedShaped(samples, batch, pad);
    assert x.ids[j][..w] == x.ids[j] && x.mask[j][..w] == x.mask[j];
    assert forward(x)[j][w - 1] == f(Attended(x.ids[j][..w - 1 + 1], x.mask[j][..w - 1 + 1]));
  }

  lemma PaddedShaped(samples: seq<seq<int>>, batch: seq<nat>, pad: int)
    ensures Shaped(PaddedInput(samples, batch, pad))
  {
    forall j | 0 <= j < |batch| ensures |Sample(samples, batch[j])| <= MaxLen(samples, batch) {
      MaxLenBounds(samples, batch, j);
    }
  }

  ghost predicate NoneEmpty(samples: seq<seq<int>>) {
    forall i :: 0 <= i < |samples| ==> samples[i] != []
  }

  /** Slot i holds what the model makes of sample i. */
  ghost predicate OwnStates<S>(r: seq<S>, samples: seq<seq<int>>, f: seq<int> -> S) {
    |r| == |samples| && forall i :: 0 <= i < |r| ==> r[i] == f(samples[i])
  }

  lemma {:induction false} AllOwnStates<S>(r: seq<S>, samples: seq<seq<int>>, batches: seq<seq<nat>>, pad: int,
                                           forward: Input -> seq<seq<S>>, f: seq<int> -> S)
    requires OnePerCell(forward) && Attentive(forward, f) && NoneEmpty(samples) && |r| == |samples|
    requires forall i: nat :: i < |samples| ==> i in Flatten(batches)
    requires Done(r, samples, batches, |batches|, pad, forward)
    ensures OwnStates(r, samples, f)
  {
    hide States, MaxLen, OnePerCell, Attentive, Flatten;
    forall i: nat | i < |samples| ensures r[i] == f(samples[i]) {
      InSomePiece(batches, i);
      var c: nat :| c < |batches| && i in batches[c];
      var b := batches[c];
      var j: nat :| j < |b| && b[j] == i;
      StateOfSample(samples, b, pad, forward, f, j);
    }
  }

  /** Without empty samples no batch is without a token. */
  lemma TokensEverywhere(samples: seq<seq<int>>, batches: seq<seq<nat>>)
    requires NoneEmpty(samples) && forall b :: b in batches ==> b != [] && InRange(b, |samples|)
    ensures forall b :: b in batches ==> MaxLen(samples, b) > 0
  {
    forall b | b in batches ensures MaxLen(samples, b) > 0 {
      MaxLenBounds(samples, b, 0);
    }
  }

  /** In particular, if the state at a cell depends on that cell only, slot i holds the state of sample i's last
      token. */
  lemma {:induction false} LastTokenStates<S(!new)>(r: seq<S>, samples: seq<seq<int>>, forward: Input -> seq<seq<S>>,
                                                    f: (int, int) -> S)
    requires OnePerCell(forward) && NoneEmpty(samples) && |r| == |samples|
    requires forall x: Input, j: nat, c: nat {:trigger forward(x)[j][c]} ::
               Shaped(x) && j < |x.ids| && c < |x.ids[j]| ==> forward(x)[j][c] == f(x.ids[j][c], x.mask[j][c])
    requires forall g: seq<int> -> S :: Attentive(forward, g) ==> OwnStates(r, samples, g)
    ensures forall i :: 0 <= i < |samples| ==> r[i] == f(samples[i][|samples[i]| - 1], 1)
  {
    var g: seq<int> -> S := s => if s == [] then f(0, 0) else f(s[|s| - 1], 1);
    forall x: Input, j: nat, c: nat {:trigger forward(x)[j][c]} |
      Shaped(x) && j < |x.ids| && c < |x.ids[j]| && x.mask[j][c] == 1
      ensures forward(x)[j][c] == g(Attended(x.ids[j][..c + 1], x.mask[j][..c + 1]))
    {
      assert x.ids[j][..c + 1][c] == x.ids[j][c] && x.mask[j][..c + 1][c] == 1;
    }
    assert OwnStates(r, samples, g);
  }

  /** `extract_hidden_states_dynamic` on a given sorted order: every sample's slot is written once, with
      the state of its own row; None when a batch has no token at all. */
  method ExtractHiddenStates<S>(samples: seq<seq<int>>, order: seq<nat>, maxQuota: real, maxSize: int,
                                pad: int, zero: S, forward: Input -> seq<seq<S>>)
    returns (r: Option<seq<S>>)
    requires OnePerCell(forward) && InRange(order, |samples|) && Distinct(order)
    requires forall i :: 0 <= i < |samples| ==> i in order
    ensures var batches := Batches(order, Lengths(samples), maxQuota, maxSize);
            && (r.Some? <==> forall b :: b in batches ==> MaxLen(samples, b) > 0)
            && (r.Some? ==> |r.value| == |samples| && Done(r.value, samples, batches, |batches|, pad, forward))
            && (forall i :: i in order ==> exists b :: b in batches && i in b)
            && Distinct(Flatten(batches))
    ensures NoneEmpty(samples) ==>
              r.Some? && forall f: seq<int> -> S :: Attentive(forward, f) ==> OwnStates(r.value, samples, f)
  {
    hide Batches, Flatten, States, Scattered, MaxLen, OnePerCell, Done, Attentive, OwnStates;
    var all := new S[|samples|](_ => zero);
    var batches := CreateDynamicBatches(order, Lengths(samples), maxQuota, maxSize);
    BatchesSound(order, Lengths(samples), maxQuota, maxSize);
    PiecesApart(batches);
    BatchesInRange(batches, |samples|);
    forall k | 0 <= k < |batches| ensures Distinct(batches[k]) {
      PiecesDistinct(batches, k);
    }
    forall i | i in order ensures exists b :: b in batches && i in b {
      InSomePiece(batches, i);
    }
    var ok := RunBatches(all, samples, batches, pad, forward);
    r := if ok then Some(all[..]) else None;
    if NoneEmpty(samples) {
      TokensEverywhere(samples, batches);
      forall f: seq<int> -> S | Attentive(forward, f) ensures OwnStates(r.value, samples, f) {
        AllOwnStates(r.value, samples, batches, pad, forward, f);
      }
    }
  }

  lemma BatchesInRange(batches: seq<seq<nat>>, n: nat)
    requires InRange(Flatten(batches), n)
    ensures forall k :: 0 <= k < |batches| ==> InRange(batches[k], n)
  {
    forall k, j | 0 <= k < |batches| && 0 <= j < |batches[k]| ensures batches[k][j] < n {
      InFlatten(batches, k, batches[k][j]);
    }
  }

  lemma KeepsOthers<S>(before: seq<S>, after: seq<S>, batch: seq<nat>, written: seq<nat>, states: seq<S>)
    requires Scattered(before, batch, states) && |after| == |before|
    requires forall i :: 0 <= i < |after| && i !in written ==> after[i] == before[i]
    requires forall i :: i in batch ==> i !in written
    ensures Scattered(after, batch, states)
  {
  }
}
