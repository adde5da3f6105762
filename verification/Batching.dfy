/** A change cut into batches: the same ops in the same order, each batch admissible, and as few of them as can be. */
module Batching {
  import opened Common
  import opened BoardOps

  const MAX_OPS_PER_BATCH := 200
  const MAX_BATCH_CHARS := 48 * 1024
  const SIZE_LIMIT := MAX_BATCH_CHARS - 8 * 1024

  /** The batch as JSON: its brackets, and each op with a comma. `length` is the length of one op as JSON. */
  function Chars(batch: seq<Op>, length: Op -> nat): nat {
    if batch == [] then 2 else Chars(batch[..|batch| - 1], length) + length(batch[|batch| - 1]) + 1
  }

  /** What the server takes; an op too big to share a batch goes alone. */
  predicate Fits(batch: seq<Op>, length: Op -> nat) {
    1 <= |batch| <= MAX_OPS_PER_BATCH && (|batch| == 1 || Chars(batch, length) <= SIZE_LIMIT)
  }

  ghost predicate Splits(parts: seq<seq<Op>>, ops: seq<Op>, length: Op -> nat) {
    Flatten(parts) == ops && forall k :: 0 <= k < |parts| ==> Fits(parts[k], length)
  }

  /** Every batch but the last is full: the op after it would not have fitted. */
  ghost predicate Full(parts: seq<seq<Op>>, length: Op -> nat) {
    forall k :: 0 < k < |parts| ==> parts[k] != [] && !Fits(parts[k - 1] + [parts[k][0]], length)
  }

  /** The batches so far, the open one included. */
  function Open(out: seq<seq<Op>>, current: seq<Op>): seq<seq<Op>> {
    if current == [] then out else out + [current]
  }

  /** What the loop has made of the ops so far. */
  ghost predicate Sofar(out: seq<seq<Op>>, current: seq<Op>, ops: seq<Op>, length: Op -> nat) {
    && Splits(Open(out, current), ops, length) && Full(Open(out, current), length)
    && (current == [] ==> out == [])
  }

  method Batches(ops: seq<Op>, length: Op -> nat) returns (out: seq<seq<Op>>)
    ensures Splits(out, ops, length) && Full(out, length)
    ensures forall other :: Splits(other, ops, length) ==> |out| <= |other|
  {
    out := [];
    var current: seq<Op> := [];
    var size := 2;
    for i := 0 to |ops|
      invariant size == Chars(current, length) && Sofar(out, current, ops[..i], length)
    {
      var op := ops[i];
      var len := length(op) + 1;
      assert ops[..i + 1] == ops[..i] + [op];
      CharsSnoc(current, op, length);
      CharsSnoc([], op, length);
      OneMoreOp(out, current, op, ops[..i], length);
      if current != [] && (|current| >= MAX_OPS_PER_BATCH || size + len > SIZE_LIMIT) {
        out := out + [current];
        current := [];
        size := 2;
      }
      current := current + [op];
      size := size + len;
    }
    assert ops[..|ops|] == ops;
    if current != [] { out := out + [current]; }
    FewestOfAll(out, ops, length);
  }

  lemma OneMoreOp(out: seq<seq<Op>>, current: seq<Op>, op: Op, ops: seq<Op>, length: Op -> nat)
    requires Sofar(out, current, ops, length)
    ensures
      if current != [] && (|current| >= MAX_OPS_PER_BATCH || Chars(current, length) + length(op) + 1 > SIZE_LIMIT)
      then Sofar(out + [current], [] + [op], ops + [op], length)
      else Sofar(out, current + [op], ops + [op], length)
  {
    CharsSnoc(current, op, length);
    if current != [] {
      assert Open(out, current)[|out|] == current;
      if Fits(current + [op], length) {
        Extend(out, current, op, ops, length);
      } else {
        Start(out + [current], op, ops, length);
      }
      assert [] + [op] == [op];
    } else {
      Extend(out, current, op, ops, length);
    }
  }

  lemma FewestOfAll(out: seq<seq<Op>>, ops: seq<Op>, length: Op -> nat)
    requires Splits(out, ops, length) && Full(out, length)
    ensures forall other :: Splits(other, ops, length) ==> |out| <= |other|
  {
    forall other | Splits(other, ops, length) ensures |out| <= |other| {
      FullIsFewest(out, other, ops, length);
    }
  }

  /** At most 200 ops, and 40 KB of JSON with two brackets and a comma an op, unless it is a single one. */
  lemma FitsIs(batch: seq<Op>, length: Op -> nat)
    ensures Fits(batch, length) <==> |batch| == 1 || (1 <= |batch| <= 200 && Chars(batch, length) <= 40_960)
    ensures Chars([], length) == 2
  {}

  lemma CharsSnoc(batch: seq<Op>, op: Op, length: Op -> nat)
    ensures Chars(batch + [op], length) == Chars(batch, length) + length(op) + 1
  {
    assert (batch + [op])[..|batch|] == batch;
  }

  lemma Start(parts: seq<seq<Op>>, op: Op, ops: seq<Op>, length: Op -> nat)
    requires Splits(parts, ops, length) && Full(parts, length)
    requires parts != [] && !Fits(parts[|parts| - 1] + [op], length)
    ensures Splits(parts + [[op]], ops + [op], length) && Full(parts + [[op]], length)
  {
    FlattenSnoc(parts, [op]);
  }

  lemma Extend(out: seq<seq<Op>>, current: seq<Op>, op: Op, ops: seq<Op>, length: Op -> nat)
    requires Splits(Open(out, current), ops, length) && Full(Open(out, current), length)
    requires Fits(current + [op], length) && (current == [] ==> out == [])
    ensures Splits(out + [current + [op]], ops + [op], length) && Full(out + [current + [op]], length)
  {
    var was, now := Open(out, current), out + [current + [op]];
    FlattenSnoc(out, current);
    FlattenSnoc(out, current + [op]);
    assert Flatten(now) == ops + [op];
    forall k | 0 < k < |now| ensures now[k] != [] && !Fits(now[k - 1] + [now[k][0]], length) {
      assert was[k] != [] && was[k][0] == now[k][0] && was[k - 1] == now[k - 1];
    }
    forall k | 0 <= k < |now| ensures Fits(now[k], length) {
      if k < |out| { assert now[k] == was[k]; }
    }
  }

  lemma {:induction false} CharsPrefix(batch: seq<Op>, n: nat, length: Op -> nat)
    requires n <= |batch|
    ensures Chars(batch[..n], length) <= Chars(batch, length)
  {
    if n < |batch| {
      assert batch[..|batch| - 1][..n] == batch[..n];
      CharsPrefix(batch[..|batch| - 1], n, length);
    } else {
      assert batch[..n] == batch;
    }
  }

  lemma {:induction false} CharsSuffix(batch: seq<Op>, n: nat, length: Op -> nat)
    requires n <= |batch|
    ensures Chars(batch[n..], length) <= Chars(batch, length)
  {
    if n < |batch| {
      assert batch[n..][..|batch| - n - 1] == batch[..|batch| - 1][n..];
      CharsSuffix(batch[..|batch| - 1], n, length);
    }
  }

  /** Any nonempty stretch of a batch that fits also fits. */
  lemma StretchFits(batch: seq<Op>, lo: nat, hi: nat, length: Op -> nat)
    requires lo < hi <= |batch| && Fits(batch, length)
    ensures Fits(batch[lo..hi], length)
  {
    CharsPrefix(batch, hi, length);
    CharsSuffix(batch[..hi], lo, length);
    assert batch[..hi][lo..] == batch[lo..hi];
  }

  /** How many ops the first `k` batches hold. */
  function Reach(parts: seq<seq<Op>>, k: nat): nat
    requires k <= |parts|
  {
    |Flatten(parts[..k])|
  }

  lemma ReachStep(parts: seq<seq<Op>>, k: nat)
    requires k < |parts|
    ensures Reach(parts, k + 1) == Reach(parts, k) + |parts[k]|
    ensures Reach(parts, k + 1) <= |Flatten(parts)|
    ensures parts[k] == Flatten(parts)[Reach(parts, k)..Reach(parts, k + 1)]
  {
    FlattenSnoc(parts[..k], parts[k]);
    assert parts[..k + 1] == parts[..k] + [parts[k]];
    FlattenConcat(parts[..k + 1], parts[k + 1..]);
    assert parts == parts[..k + 1] + parts[k + 1..];
  }

  /** Full batches stay ahead of any other split of the same ops. */
  lemma {:induction false} FullStaysAhead(
      parts: seq<seq<Op>>, other: seq<seq<Op>>, ops: seq<Op>, length: Op -> nat, k: nat)
    requires Splits(parts, ops, length) && Full(parts, length) && Splits(other, ops, length)
    requires k <= |other| && k < |parts|
    ensures Reach(other, k) <= Reach(parts, k)
  {
    if k > 0 {
      FullStaysAhead(parts, other, ops, length, k - 1);
      NoFurther(parts, other, ops, length, k - 1);
    }
  }

  /** A stretch of the ops inside one batch fits. */
  lemma InsideFits(other: seq<seq<Op>>, ops: seq<Op>, length: Op -> nat, k: nat, lo: nat, hi: nat)
    requires Splits(other, ops, length) && k < |other| && Reach(other, k) <= lo < hi <= Reach(other, k + 1)
    ensures hi <= |ops| && Fits(ops[lo..hi], length)
  {
    ReachStep(other, k);
    var start := Reach(other, k);
    SliceOfSlice(ops, start, Reach(other, k + 1), lo, hi);
    StretchFits(other[k], lo - start, hi - start, length);
  }

  /** The `k`-th full batch with the op after it does not fit. */
  lemma FullOverflows(parts: seq<seq<Op>>, ops: seq<Op>, length: Op -> nat, k: nat)
    requires Splits(parts, ops, length) && Full(parts, length) && k + 1 < |parts|
    ensures Reach(parts, k) < Reach(parts, k + 1) < |ops|
    ensures !Fits(ops[Reach(parts, k)..Reach(parts, k + 1) + 1], length)
  {
    ReachStep(parts, k);
    ReachStep(parts, k + 1);
    assert Fits(parts[k], length);
    assert parts[k + 1] != [] && !Fits(parts[k] + [parts[k + 1][0]], length);
    Neighbours(ops, Reach(parts, k), Reach(parts, k + 1), Reach(parts, k + 2));
  }

  /** The `k`-th batch of a split that is not ahead cannot reach past the `k`-th full one. */
  lemma NoFurther(parts: seq<seq<Op>>, other: seq<seq<Op>>, ops: seq<Op>, length: Op -> nat, k: nat)
    requires Splits(parts, ops, length) && Full(parts, length) && Splits(other, ops, length)
    requires k < |other| && k + 1 < |parts| && Reach(other, k) <= Reach(parts, k)
    ensures Reach(other, k + 1) <= Reach(parts, k + 1)
  {
    FullOverflows(parts, ops, length, k);
    if Reach(other, k + 1) > Reach(parts, k + 1) {
      InsideFits(other, ops, length, k, Reach(parts, k), Reach(parts, k + 1) + 1);
    }
  }

  lemma Neighbours<T>(s: seq<T>, a: nat, b: nat, c: nat)
    requires a <= b < c <= |s|
    ensures s[a..b + 1] == s[a..b] + [s[b..c][0]]
  {}

  lemma SliceOfSlice<T>(s: seq<T>, a: nat, b: nat, c: nat, d: nat)
    requires a <= c <= d <= b <= |s|
    ensures s[a..b][c - a..d - a] == s[c..d]
  {
    var x, y := s[a..b][c - a..d - a], s[c..d];
    assert |x| == |y|;
    forall k | 0 <= k < |x| ensures x[k] == y[k] {
      assert x[k] == s[a..b][c - a + k];
    }
  }

  lemma FullIsFewest(parts: seq<seq<Op>>, other: seq<seq<Op>>, ops: seq<Op>, length: Op -> nat)
    requires Splits(parts, ops, length) && Full(parts, length) && Splits(other, ops, length)
    ensures |parts| <= |other|
  {
    assert other[..|other|] == other;
    if |other| < |parts| {
      FullStaysAhead(parts, other, ops, length, |other|);
      ReachStep(parts, |other|);
    }
  }
}
