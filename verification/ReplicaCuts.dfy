/** What the snapshots behind a board did to it: which objects they left out, and exactly when that shows. */
module ReplicaCuts {
  import opened Common
  import opened BoardOps
  import opened BoardListing
  import opened BoardStates
  import opened BoardConvergence
  import opened Replicas

  lemma {:induction false} LogOpsConcat(a: seq<Entry>, b: seq<Entry>)
    ensures LogOps(a + b) == LogOps(a) + LogOps(b)
  {
    if b == [] {
      assert a + b == a;
    } else {
      assert (a + b)[..|a + b| - 1] == a + b[..|b| - 1];
      LogOpsConcat(a, b[..|b| - 1]);
    }
  }

  lemma LogOpsSplit(log: seq<Entry>, d: nat, c: nat, n: nat)
    requires d <= c <= n <= |log|
    ensures LogOps(log[d..n]) == LogOps(log[d..c]) + LogOps(log[c..n])
  {
    LogOpsConcat(log[d..c], log[c..n]);
    assert log[d..c] + log[c..n] == log[d..n];
  }

  /** Without a snapshot it is the log's board. */
  lemma NoCuts(log: seq<Entry>, n: nat)
    requires n <= |log|
    ensures CutBoard(log, [], n) == LogBoard(log, n)
  {
    assert log[0..n] == log[..n];
  }

  lemma LogBoardFrom(log: seq<Entry>, c: nat, n: nat)
    requires c <= n <= |log|
    ensures LogBoard(log, n) == ApplyOps(LogBoard(log, c), LogOps(log[c..n]))
  {
    LogOpsSplit(log, 0, c, n);
    assert log[0..n] == log[..n] && log[0..c] == log[..c];
    ApplyOpsConcat(map[], LogOps(log[..c]), LogOps(log[c..n]));
  }

  // ---- one object ----

  /** The object after `n` batches, of the whole log, or of those since it was left out at `d`. */
  function ObjectSince(log: seq<Entry>, d: Option<nat>, n: nat, id: Id): Option<Props>
    requires n <= |log| && (d.Some? ==> d.value <= n)
  {
    if d.None? then Lookup(LogBoard(log, n), id) else ObjectAfter(None, LogOps(log[d.value..n]), id)
  }

  lemma ObjectGoesOn(log: seq<Entry>, d: Option<nat>, c: nat, n: nat, id: Id)
    requires c <= n <= |log| && (d.Some? ==> d.value <= c)
    ensures ObjectSince(log, d, n, id) == ObjectAfter(ObjectSince(log, d, c, id), LogOps(log[c..n]), id)
  {
    if d.None? {
      LogBoardFrom(log, c, n);
      LookupAfter(LogBoard(log, c), LogOps(log[c..n]), id);
    } else {
      LogOpsSplit(log, d.value, c, n);
      ObjectAfterConcat(None, LogOps(log[d.value..c]), LogOps(log[c..n]), id);
    }
  }

  /** The last cut whose snapshot left the object out, because it was deleted on the board it was made of. */
  function LeftOutAt(log: seq<Entry>, cuts: seq<nat>, id: Id): (d: Option<nat>)
    requires ValidCuts(cuts, |log|)
    ensures d.Some? ==> d.value <= Last(cuts)
    decreases |cuts|
  {
    if cuts == [] then None
    else
      CutsBelow(cuts, |log|);
      if Hidden(CutBoard(log, cuts[..|cuts| - 1], Last(cuts)), id) then Some(Last(cuts))
      else LeftOutAt(log, cuts[..|cuts| - 1], id)
  }

  /** An object of a board behind snapshots is what the log made of it since it was last left out. */
  lemma {:induction false} CutObject(log: seq<Entry>, cuts: seq<nat>, n: nat, id: Id)
    requires ValidCuts(cuts, n) && n <= |log|
    ensures Lookup(CutBoard(log, cuts, n), id) == ObjectSince(log, LeftOutAt(log, cuts, id), n, id)
    decreases |cuts|
  {
    if cuts == [] {
      assert log[0..n] == log[..n];
    } else {
      var front, c := cuts[..|cuts| - 1], Last(cuts);
      CutsBelow(cuts, n);
      LookupAfter(CutBase(log, cuts), LogOps(log[c..n]), id);
      if !Hidden(CutBoard(log, front, c), id) {
        CutObject(log, front, c, id);
        ObjectGoesOn(log, LeftOutAt(log, front, id), c, n, id);
      }
    }
  }

  /** Left out at different places, or by one of the two only, and nobody can tell after `n` batches. */
  ghost predicate SameSince(log: seq<Entry>, d: Option<nat>, e: Option<nat>, n: nat, id: Id)
    requires n <= |log| && (d.Some? ==> d.value <= n) && (e.Some? ==> e.value <= n)
  {
    d == e || (
      if e.None? || (d.Some? && d.value > e.value) then UnnoticedSince(log, e, d.value, n, id)
      else UnnoticedSince(log, d, e.value, n, id))
  }

  /** Leaving out at `d` what there was then goes unnoticed. */
  ghost predicate UnnoticedSince(log: seq<Entry>, before: Option<nat>, d: nat, n: nat, id: Id)
    requires d <= n <= |log| && (before.Some? ==> before.value <= d)
  {
    var o := ObjectSince(log, before, d, id);
    o.Some? ==> LeftOutUnnoticed(o.value, LogOps(log[d..n]), id)
  }

  lemma UnnoticedIff(log: seq<Entry>, before: Option<nat>, d: nat, n: nat, id: Id)
    requires d <= n <= |log| && (before.Some? ==> before.value <= d)
    ensures LooksSame(ObjectSince(log, before, n, id), ObjectSince(log, Some(d), n, id))
      <==> UnnoticedSince(log, before, d, n, id)
  {
    var o := ObjectSince(log, before, d, id);
    ObjectGoesOn(log, before, d, n, id);
    if o.Some? { LeftOutObject(o.value, LogOps(log[d..n]), id); }
  }

  lemma SameSinceIff(log: seq<Entry>, d: Option<nat>, e: Option<nat>, n: nat, id: Id)
    requires n <= |log| && (d.Some? ==> d.value <= n) && (e.Some? ==> e.value <= n)
    ensures LooksSame(ObjectSince(log, d, n, id), ObjectSince(log, e, n, id)) <==> SameSince(log, d, e, n, id)
  {
    if d != e {
      if e.None? || (d.Some? && d.value > e.value) {
        UnnoticedIff(log, e, d.value, n, id);
      } else {
        UnnoticedIff(log, d, e.value, n, id);
      }
    }
  }

  // ---- whole boards ----

  lemma CutsLookSameIff(log: seq<Entry>, cuts: seq<nat>, others: seq<nat>, n: nat, id: Id)
    requires ValidCuts(cuts, n) && ValidCuts(others, n) && n <= |log|
    ensures LooksSame(Lookup(CutBoard(log, cuts, n), id), Lookup(CutBoard(log, others, n), id))
            <==> SameSince(log, LeftOutAt(log, cuts, id), LeftOutAt(log, others, id), n, id)
  {
    CutObject(log, cuts, n, id);
    CutObject(log, others, n, id);
    SameSinceIff(log, LeftOutAt(log, cuts, id), LeftOutAt(log, others, id), n, id);
  }

  /** No object tells by which of the two series of snapshots it was left out. */
  ghost predicate SameCuts(log: seq<Entry>, cuts: seq<nat>, others: seq<nat>, n: nat)
    requires ValidCuts(cuts, n) && ValidCuts(others, n) && n <= |log|
  {
    forall id :: SameSince(log, LeftOutAt(log, cuts, id), LeftOutAt(log, others, id), n, id)
  }

  /** Exact: two boards behind snapshots list alike then. */
  lemma CutsAgreeIff(log: seq<Entry>, cuts: seq<nat>, others: seq<nat>, n: nat, x: seq<Shown>, y: seq<Shown>)
    requires ValidCuts(cuts, n) && ValidCuts(others, n) && n <= |log|
    requires Listing(CutBoard(log, cuts, n), x) && Listing(CutBoard(log, others, n), y)
    ensures x == y <==> SameCuts(log, cuts, others, n)
  {
    var a, b := CutBoard(log, cuts, n), CutBoard(log, others, n);
    ListingsAgreeIff(a, x, b, y);
    if x == y {
      forall id ensures SameSince(log, LeftOutAt(log, cuts, id), LeftOutAt(log, others, id), n, id) {
        CutsLookSameIff(log, cuts, others, n, id);
        assert LooksSame(Lookup(a, id), Lookup(b, id));
      }
    }
    if SameCuts(log, cuts, others, n) {
      forall id ensures LooksSame(Lookup(a, id), Lookup(b, id)) {
        CutsLookSameIff(log, cuts, others, n, id);
      }
    }
  }

  /** Exact: a board behind snapshots lists what the log lists, if and only if no object tells that it was left out. */
  lemma ListsTheLogIff(log: seq<Entry>, cuts: seq<nat>, n: nat, x: seq<Shown>, y: seq<Shown>)
    requires ValidCuts(cuts, n) && n <= |log|
    requires Listing(CutBoard(log, cuts, n), x) && Listing(LogBoard(log, n), y)
    ensures x == y <==> SameCuts(log, cuts, [], n)
  {
    NoCuts(log, n);
    CutsAgreeIff(log, cuts, [], n, x, y);
  }

  lemma OneCut(log: seq<Entry>, c: nat, n: nat)
    requires c <= n <= |log|
    ensures CutBoard(log, [c], n) == ApplyOps(SnapshotOf(LogBoard(log, c)), LogOps(log[c..n]))
  {
    assert [c][..0] == [];
    NoCuts(log, c);
  }

  /** With one snapshot of the log itself it is the condition on snapshots. */
  lemma OneCutIff(log: seq<Entry>, c: nat, n: nat, x: seq<Shown>, y: seq<Shown>)
    requires c <= n <= |log| && Listing(CutBoard(log, [c], n), x) && Listing(LogBoard(log, n), y)
    ensures x == y <==> NobodyNotices(LogBoard(log, c), LogOps(log[c..n]))
  {
    OneCut(log, c, n);
    LogBoardFrom(log, c, n);
    SnapshotExact(LogBoard(log, c), LogOps(log[c..n]), y, x);
  }

  /** A register of a board behind snapshots holds what the log holds, unless it was left out and not written since. */
  lemma CutRegisterIff(log: seq<Entry>, cuts: seq<nat>, n: nat, id: Id, f: Field)
    requires ValidCuts(cuts, n) && n <= |log|
    ensures
      var d := LeftOutAt(log, cuts, id);
      Reg(CutBoard(log, cuts, n), id, f) == Reg(LogBoard(log, n), id, f)
      <==> d.None? || LastWrite(LogOps(log[d.value..n]), id, f).Some? || Reg(LogBoard(log, d.value), id, f) == None
  {
    var d := LeftOutAt(log, cuts, id);
    CutObject(log, cuts, n, id);
    if d.Some? {
      var ops := LogOps(log[d.value..n]);
      FieldAfter(None, ops, id, f);
      LogBoardFrom(log, d.value, n);
      RegAfter(LogBoard(log, d.value), ops, id, f);
    }
  }
}
