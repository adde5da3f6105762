/**
 * A board on many apps. Each queues its changes, sends the first of its queue, possibly more than once when the answer
 * is lost, and may be refused. Each app folds the server's log in order, by two routes: a live event, which names the
 * batch to the app that sent it, and a catch-up reply, which does not and may begin with a snapshot.
 */
module Replicas {
  import opened Common
  import opened BoardOps
  import opened BoardStates

  /** One batch in the server's order: who sent it and under which batch id. */
  datatype Entry = Entry(from: nat, cid: Cid, ops: seq<Op>)

  /**
   * `seen` is the last `seq` applied, `outgoing` the batches not answered yet, `issued` the batch ids used so far.
   * `cuts` are the places in the log at which the snapshots behind its confirmed board were made, one folded from the
   * other.
   */
  datatype App = App(board: Board, seen: nat, cuts: seq<nat>, outgoing: seq<Batch>, issued: nat)

  /** A board without its deleted objects, after as many batches as the last cut says. */
  datatype Snapshot = Snapshot(objects: Objects, cuts: seq<nat>)

  /** `uploads` are snapshots on their way from apps to the server. */
  datatype System = System(log: seq<Entry>, snapshot: Snapshot, uploads: seq<Snapshot>, apps: seq<App>)

  datatype Event =
    | Change(i: nat, ops: seq<Op>)   // app i changes the board
    | Take(i: nat)                   // the server takes app i's first outgoing batch
    | Answered(i: nat)               // app i hears that it was taken
    | Refused(i: nat)                // app i hears that it was not
    | Deliver(i: nat)                // app i applies the next batch of the log from its live event
    | Fetch(i: nat)                  // app i applies the next batch of the log from a catch-up reply
    | Load(i: nat)                   // app i loads the server's snapshot, and the batches up to where it was
    | Seal(i: nat)                   // app i makes a snapshot (of an encrypted board)
    | Arrive(k: nat)                 // a snapshot made by an app reaches the server
    | Compact                        // the server makes one (of a plain board)

  const FRESH_APP := App(Board(map[], []), 0, [], [], 0)

  function Init(n: nat): System {
    System([], Snapshot(map[], []), [], seq(n, _ => FRESH_APP))
  }

  predicate InLog(log: seq<Entry>, i: nat, cid: Cid, from: nat) {
    exists k :: from <= k < |log| && log[k].from == i && log[k].cid == cid
  }

  function Last(cuts: seq<nat>): nat {
    if cuts == [] then 0 else cuts[|cuts| - 1]
  }

  function LogOps(log: seq<Entry>): seq<Op> {
    if log == [] then [] else LogOps(log[..|log| - 1]) + log[|log| - 1].ops
  }

  /** The board the first `n` batches of the log make. */
  function LogBoard(log: seq<Entry>, n: nat): Objects
    requires n <= |log|
  {
    ApplyOps(map[], LogOps(log[..n]))
  }

  predicate IsApps(e: Event) {
    !e.Arrive? && !e.Compact?
  }

  predicate AppEnabled(s: System, e: Event)
    requires IsApps(e)
  {
    && e.i < |s.apps|
    && var a := s.apps[e.i];
       match e
       case Change(_, _) => true
       case Take(_) => a.outgoing != []
       case Answered(_) => a.outgoing != [] && InLog(s.log, e.i, a.outgoing[0].cid, 0)
       case Refused(_) => a.outgoing != []
       case Deliver(_) => a.seen < |s.log|
       case Fetch(_) => a.seen < |s.log|
       case Load(_) => s.snapshot.cuts != [] && Last(s.snapshot.cuts) <= |s.log| && a.seen <= |s.log|
       case _ => true
  }

  predicate Enabled(s: System, e: Event) {
    match e
    case Arrive(k) => k < |s.uploads|
    case Compact => Last(s.snapshot.cuts) < |s.log|
    case _ => AppEnabled(s, e)
  }

  function Changed(a: App, ops: seq<Op>): App {
    a.(board := Added(a.board, a.issued, ops), outgoing := a.outgoing + [Batch(a.issued, ops)], issued := a.issued + 1)
  }

  function Delivered(a: App, i: nat, e: Entry): App {
    a.(board := Confirmed(a.board, e.ops, if e.from == i then Some(e.cid) else None), seen := a.seen + 1)
  }

  /** The reply does not say whose batch it is: it stops nothing from being pending. */
  function Fetched(a: App, e: Entry): App {
    a.(board := Confirmed(a.board, e.ops, None), seen := a.seen + 1)
  }

  /** Where a load takes an app: to the snapshot's place in the log, or back to its own. */
  function LoadedTo(s: System, a: App): nat {
    if a.seen >= Last(s.snapshot.cuts) then a.seen else Last(s.snapshot.cuts)
  }

  /** The snapshot replaces the confirmed board; batches after it that the app had are in the reply again. */
  function Reloaded(s: System, a: App): App
    requires Last(s.snapshot.cuts) <= |s.log| && a.seen <= |s.log|
  {
    var n := LoadedTo(s, a);
    var objects := ApplyOps(s.snapshot.objects, LogOps(s.log[Last(s.snapshot.cuts)..n]));
    a.(board := Loaded(a.board, objects), seen := n, cuts := s.snapshot.cuts)
  }

  /** What an app's snapshot holds. */
  function Sealed(a: App): Snapshot {
    Snapshot(SnapshotOf(a.board.confirmed), a.cuts + [a.seen])
  }

  /** The server folds the batches since its snapshot into it. */
  function Compacted(s: System): Snapshot
    requires Last(s.snapshot.cuts) <= |s.log|
  {
    var objects := ApplyOps(s.snapshot.objects, LogOps(s.log[Last(s.snapshot.cuts)..]));
    Snapshot(SnapshotOf(objects), s.snapshot.cuts + [|s.log|])
  }

  function AppNext(s: System, e: Event): App
    requires IsApps(e) && AppEnabled(s, e)
  {
    var a := s.apps[e.i];
    match e
    case Change(_, ops) => Changed(a, ops)
    case Answered(_) => a.(outgoing := a.outgoing[1..])
    case Refused(_) => a.(outgoing := a.outgoing[1..], board := Dropped(a.board, a.outgoing[0].cid))
    case Deliver(_) => Delivered(a, e.i, s.log[a.seen])
    case Fetch(_) => Fetched(a, s.log[a.seen])
    case Load(_) => Reloaded(s, a)
    case _ => a
  }

  function Next(s: System, e: Event): System
    requires Enabled(s, e)
  {
    match e
    case Take(i) => s.(log := s.log + [Entry(i, s.apps[i].outgoing[0].cid, s.apps[i].outgoing[0].ops)])
    case Seal(i) => s.(uploads := s.uploads + [Sealed(s.apps[i])])
    // A snapshot is only taken for a newer place in the log.
    case Arrive(k) =>
      if Last(s.uploads[k].cuts) > Last(s.snapshot.cuts) then s.(snapshot := s.uploads[k]) else s
    case Compact => s.(snapshot := Compacted(s))
    case _ => s.(apps := s.apps[e.i := AppNext(s, e)])
  }

  /** Events that cannot happen are skipped. */
  function Run(s: System, events: seq<Event>): System
    decreases |events|
  {
    if events == [] then s
    else Run(if Enabled(s, events[0]) then Next(s, events[0]) else s, events[1..])
  }

  // ---- boards behind snapshots ----

  predicate ValidCuts(cuts: seq<nat>, n: nat) {
    (forall p, q :: 0 <= p < q < |cuts| ==> cuts[p] <= cuts[q]) && Last(cuts) <= n
  }

  lemma CutsBelow(cuts: seq<nat>, n: nat)
    requires ValidCuts(cuts, n)
    ensures forall p :: 0 <= p < |cuts| ==> cuts[p] <= n
    ensures cuts != [] ==> ValidCuts(cuts[..|cuts| - 1], Last(cuts))
  {}

  /** The snapshot made at the last cut, from the board behind the cuts before it. */
  function CutBase(log: seq<Entry>, cuts: seq<nat>): Objects
    requires ValidCuts(cuts, |log|)
    decreases |cuts|, 0
  {
    if cuts == [] then map[]
    else
      CutsBelow(cuts, |log|);
      SnapshotOf(CutBoard(log, cuts[..|cuts| - 1], Last(cuts)))
  }

  /** The board after the first `n` batches, for whoever started from the snapshot made at the last cut. */
  function CutBoard(log: seq<Entry>, cuts: seq<nat>, n: nat): Objects
    requires ValidCuts(cuts, n) && n <= |log|
    decreases |cuts|, 1
  {
    ApplyOps(CutBase(log, cuts), LogOps(log[Last(cuts)..n]))
  }

  // ---- the invariant ----

  predicate Increasing(batches: seq<Batch>, below: nat) {
    && (forall p, q :: 0 <= p < q < |batches| ==> batches[p].cid < batches[q].cid)
    && (forall p :: 0 <= p < |batches| ==> batches[p].cid < below)
  }

  predicate Holds(batches: seq<Batch>, cid: Cid) {
    exists p :: 0 <= p < |batches| && batches[p].cid == cid
  }

  ghost predicate Ordered(log: seq<Entry>, a: App, i: nat) {
    && a.seen <= |log| && ValidCuts(a.cuts, a.seen)
    && a.board.confirmed == CutBoard(log, a.cuts, a.seen)
    && Increasing(a.board.pending, a.issued) && Increasing(a.outgoing, a.issued)
    && (forall k :: 0 <= k < |log| && log[k].from == i ==> log[k].cid < a.issued)
  }

  /** A pending batch is still to be answered, or the server has it. */
  ghost predicate Sent(log: seq<Entry>, a: App, i: nat) {
    forall p :: 0 <= p < |a.board.pending| ==>
      Holds(a.outgoing, a.board.pending[p].cid) || InLog(log, i, a.board.pending[p].cid, 0)
  }

  /** The server has the batch as the app made it. */
  ghost predicate Unaltered(log: seq<Entry>, a: App, i: nat) {
    && (forall p, k ::
          && 0 <= p < |a.board.pending| && 0 <= k < |log|
          && log[k].from == i && log[k].cid == a.board.pending[p].cid
          ==> log[k].ops == a.board.pending[p].ops)
    && (forall p, q ::
          && 0 <= p < |a.board.pending| && 0 <= q < |a.outgoing|
          && a.outgoing[q].cid == a.board.pending[p].cid
          ==> a.outgoing[q] == a.board.pending[p])
  }

  /** The server has no pending batch before it has every older one. */
  ghost predicate Fifo(log: seq<Entry>, a: App, i: nat) {
    forall p, q, k ::
      && 0 <= p < q < |a.board.pending| && 0 <= k < |log|
      && log[k].from == i && log[k].cid == a.board.pending[q].cid
      ==> InLog(log[..k], i, a.board.pending[p].cid, 0)
  }

  ghost predicate AppOk(log: seq<Entry>, a: App, i: nat) {
    Ordered(log, a, i) && Sent(log, a, i) && Unaltered(log, a, i) && Fifo(log, a, i)
  }

  ghost predicate SnapshotOk(log: seq<Entry>, snapshot: Snapshot) {
    ValidCuts(snapshot.cuts, |log|) && snapshot.objects == CutBase(log, snapshot.cuts)
  }

  ghost predicate Inv(s: System) {
    && SnapshotOk(s.log, s.snapshot)
    && (forall k :: 0 <= k < |s.uploads| ==> SnapshotOk(s.log, s.uploads[k]))
    && (forall i :: 0 <= i < |s.apps| ==> AppOk(s.log, s.apps[i], i))
  }

  // ---- each event keeps it ----

  lemma InLogOneMore(log: seq<Entry>, e: Entry, i: nat, cid: Cid, from: nat)
    requires from <= |log|
    ensures InLog(log + [e], i, cid, from) <==> InLog(log, i, cid, from) || (e.from == i && e.cid == cid)
  {
    var more := log + [e];
    if InLog(log, i, cid, from) {
      var k :| from <= k < |log| && log[k].from == i && log[k].cid == cid;
      assert more[k] == log[k];
    }
    if e.from == i && e.cid == cid { assert more[|log|] == e; }
  }

  lemma HoldsOneMore(batches: seq<Batch>, b: Batch, cid: Cid)
    ensures Holds(batches + [b], cid) <==> Holds(batches, cid) || cid == b.cid
  {
    var more := batches + [b];
    if Holds(batches, cid) {
      var p :| 0 <= p < |batches| && batches[p].cid == cid;
      assert more[p].cid == cid;
    }
    if cid == b.cid { assert more[|batches|].cid == cid; }
  }

  lemma HoldsTail(batches: seq<Batch>, below: nat, cid: Cid)
    requires batches != [] && Increasing(batches, below)
    ensures Holds(batches[1..], cid) <==> Holds(batches, cid) && cid != batches[0].cid
  {
    if Holds(batches, cid) && cid != batches[0].cid {
      var p :| 0 <= p < |batches| && batches[p].cid == cid;
      assert batches[1..][p - 1] == batches[p];
    }
  }

  lemma {:induction false} CutBoardGrows(log: seq<Entry>, e: Entry, cuts: seq<nat>, n: nat)
    requires ValidCuts(cuts, n) && n <= |log|
    ensures CutBase(log + [e], cuts) == CutBase(log, cuts) && CutBoard(log + [e], cuts, n) == CutBoard(log, cuts, n)
    decreases |cuts|
  {
    if cuts != [] {
      CutsBelow(cuts, n);
      CutBoardGrows(log, e, cuts[..|cuts| - 1], Last(cuts));
    }
    assert (log + [e])[Last(cuts)..n] == log[Last(cuts)..n];
  }

  /** The server takes a batch: the first outgoing one of the app that sent it. */
  lemma LogGrows(log: seq<Entry>, e: Entry, a: App, i: nat)
    requires AppOk(log, a, i)
    requires e.from == i ==> a.outgoing != [] && e.cid == a.outgoing[0].cid && e.ops == a.outgoing[0].ops
    ensures AppOk(log + [e], a, i)
  {
    var log' := log + [e];
    CutBoardGrows(log, e, a.cuts, a.seen);
    forall p | 0 <= p < |a.board.pending|
      ensures Holds(a.outgoing, a.board.pending[p].cid) || InLog(log', i, a.board.pending[p].cid, 0)
    {
      InLogOneMore(log, e, i, a.board.pending[p].cid, 0);
    }
    GrownFifo(log, e, a, i);
  }

  lemma GrownFifo(log: seq<Entry>, e: Entry, a: App, i: nat)
    requires AppOk(log, a, i)
    requires e.from == i ==> a.outgoing != [] && e.cid == a.outgoing[0].cid
    ensures Fifo(log + [e], a, i)
  {
    var log', pending := log + [e], a.board.pending;
    forall p, q, k | 0 <= p < q < |pending| && 0 <= k < |log'| && log'[k].from == i && log'[k].cid == pending[q].cid
      ensures InLog(log'[..k], i, pending[p].cid, 0)
    {
      assert log'[..k] == log[..k];
      if k == |log| {
        assert log[..k] == log;
        assert !Holds(a.outgoing, pending[p].cid);
      }
    }
  }

  lemma ChangeOk(log: seq<Entry>, a: App, i: nat, ops: seq<Op>)
    requires AppOk(log, a, i)
    ensures AppOk(log, Changed(a, ops), i)
  {
    ChangeOrdered(log, a, i, ops);
    ChangeUnaltered(log, a, i, ops);
    ChangeSent(log, a, i, ops);
    ChangeFifo(log, a, i, ops);
  }

  lemma ChangeOrdered(log: seq<Entry>, a: App, i: nat, ops: seq<Op>)
    requires Ordered(log, a, i)
    ensures Ordered(log, Changed(a, ops), i)
  {}

  lemma ChangeUnaltered(log: seq<Entry>, a: App, i: nat, ops: seq<Op>)
    requires Ordered(log, a, i) && Unaltered(log, a, i)
    ensures Unaltered(log, Changed(a, ops), i)
  {}

  lemma ChangeSent(log: seq<Entry>, a: App, i: nat, ops: seq<Op>)
    requires Sent(log, a, i)
    ensures Sent(log, Changed(a, ops), i)
  {
    var b := Changed(a, ops);
    forall p | 0 <= p < |b.board.pending|
      ensures Holds(b.outgoing, b.board.pending[p].cid) || InLog(log, i, b.board.pending[p].cid, 0)
    {
      HoldsOneMore(a.outgoing, Batch(a.issued, ops), b.board.pending[p].cid);
    }
  }

  lemma ChangeFifo(log: seq<Entry>, a: App, i: nat, ops: seq<Op>)
    requires Ordered(log, a, i) && Fifo(log, a, i)
    ensures Fifo(log, Changed(a, ops), i)
  {
    var was, now := a.board.pending, Changed(a, ops).board.pending;
    forall p, q, k | 0 <= p < q < |now| && 0 <= k < |log| && log[k].from == i && log[k].cid == now[q].cid
      ensures InLog(log[..k], i, now[p].cid, 0)
    {
      assert q < |was| && now[q] == was[q] && now[p] == was[p];
    }
  }

  /** The first outgoing batch is done with: the server has it, or it is not pending. */
  lemma OutgoingShrinks(log: seq<Entry>, a: App, i: nat)
    requires AppOk(log, a, i) && a.outgoing != []
    requires Holds(a.board.pending, a.outgoing[0].cid) ==> InLog(log, i, a.outgoing[0].cid, 0)
    ensures AppOk(log, a.(outgoing := a.outgoing[1..]), i)
  {
    forall p | 0 <= p < |a.board.pending|
      ensures Holds(a.outgoing[1..], a.board.pending[p].cid) || InLog(log, i, a.board.pending[p].cid, 0)
    {
      HoldsTail(a.outgoing, a.issued, a.board.pending[p].cid);
    }
  }

  lemma PendingShrinks(log: seq<Entry>, a: App, i: nat, cid: Cid)
    requires AppOk(log, a, i)
    ensures
      var b := a.(board := Dropped(a.board, cid));
      AppOk(log, b, i) && !Holds(b.board.pending, cid)
  {
    var was := a.board.pending;
    var at := IndexOf(was, cid);
    if at.Some? {
      ShrinkOrdered(log, a, i, at.value);
      ShrinkSent(log, a, i, at.value);
      ShrinkFifo(log, a, i, at.value);
    }
  }

  function WithoutPending(a: App, n: nat): App
    requires n < |a.board.pending|
  {
    a.(board := a.board.(pending := Without(a.board.pending, n)))
  }

  lemma WithoutAt(pending: seq<Batch>, n: nat, p: nat)
    requires n < |pending| && p < |pending| - 1
    ensures Without(pending, n)[p] == pending[if p < n then p else p + 1]
  {}

  lemma ShrinkOrdered(log: seq<Entry>, a: App, i: nat, n: nat)
    requires Ordered(log, a, i) && Unaltered(log, a, i) && n < |a.board.pending|
    ensures Ordered(log, WithoutPending(a, n), i) && Unaltered(log, WithoutPending(a, n), i)
    ensures !Holds(WithoutPending(a, n).board.pending, a.board.pending[n].cid)
  {
    var now := Without(a.board.pending, n);
    forall p | 0 <= p < |now| { WithoutAt(a.board.pending, n, p); }
  }

  lemma ShrinkSent(log: seq<Entry>, a: App, i: nat, n: nat)
    requires Sent(log, a, i) && n < |a.board.pending|
    ensures Sent(log, WithoutPending(a, n), i)
  {
    var was, now := a.board.pending, Without(a.board.pending, n);
    forall p | 0 <= p < |now| ensures Holds(a.outgoing, now[p].cid) || InLog(log, i, now[p].cid, 0) {
      WithoutAt(was, n, p);
    }
  }

  lemma ShrinkFifo(log: seq<Entry>, a: App, i: nat, n: nat)
    requires Fifo(log, a, i) && n < |a.board.pending|
    ensures Fifo(log, WithoutPending(a, n), i)
  {
    var now := Without(a.board.pending, n);
    forall p, q, k | 0 <= p < q < |now| && 0 <= k < |log| && log[k].from == i && log[k].cid == now[q].cid
      ensures InLog(log[..k], i, now[p].cid, 0)
    {
      WithoutAt(a.board.pending, n, p);
      WithoutAt(a.board.pending, n, q);
    }
  }

  lemma RefusedOk(log: seq<Entry>, a: App, i: nat)
    requires AppOk(log, a, i) && a.outgoing != []
    ensures AppOk(log, a.(outgoing := a.outgoing[1..], board := Dropped(a.board, a.outgoing[0].cid)), i)
  {
    PendingShrinks(log, a, i, a.outgoing[0].cid);
    OutgoingShrinks(log, a.(board := Dropped(a.board, a.outgoing[0].cid)), i);
  }

  lemma LogOpsSnoc(log: seq<Entry>, d: nat, n: nat)
    requires d <= n < |log|
    ensures LogOps(log[d..n + 1]) == LogOps(log[d..n]) + log[n].ops
  {
    assert log[d..n + 1][..n - d] == log[d..n];
  }

  lemma CutBoardSnoc(log: seq<Entry>, cuts: seq<nat>, n: nat)
    requires ValidCuts(cuts, n) && n < |log|
    ensures CutBoard(log, cuts, n + 1) == ApplyOps(CutBoard(log, cuts, n), log[n].ops)
  {
    LogOpsSnoc(log, Last(cuts), n);
    ApplyOpsConcat(CutBase(log, cuts), LogOps(log[Last(cuts)..n]), log[n].ops);
  }

  /** Either route folds the next batch of the log into the confirmed board. */
  lemma FetchOk(log: seq<Entry>, a: App, i: nat)
    requires AppOk(log, a, i) && a.seen < |log|
    ensures AppOk(log, Fetched(a, log[a.seen]), i)
  {
    CutBoardSnoc(log, a.cuts, a.seen);
  }

  /** A load starts the confirmed board over from the server's snapshot, and leaves all else alone. */
  lemma LoadOk(s: System, i: nat)
    requires Inv(s) && Enabled(s, Load(i))
    ensures AppOk(s.log, Reloaded(s, s.apps[i]), i)
  {
    assert AppOk(s.log, s.apps[i], i);
  }

  /** A live event does what a reply does, once the batch it names is not pending any more. */
  lemma DeliveredIsFetched(a: App, i: nat, e: Entry)
    ensures Delivered(a, i, e) == Fetched(if e.from == i then a.(board := Dropped(a.board, e.cid)) else a, e)
  {}

  lemma DeliverOk(log: seq<Entry>, a: App, i: nat)
    requires AppOk(log, a, i) && a.seen < |log|
    ensures AppOk(log, Delivered(a, i, log[a.seen]), i)
  {
    var e := log[a.seen];
    DeliveredIsFetched(a, i, e);
    if e.from == i {
      PendingShrinks(log, a, i, e.cid);
      FetchOk(log, a.(board := Dropped(a.board, e.cid)), i);
    } else {
      FetchOk(log, a, i);
    }
  }

  lemma AppNextOk(s: System, e: Event)
    requires Inv(s) && IsApps(e) && AppEnabled(s, e)
    ensures AppOk(s.log, AppNext(s, e), e.i)
  {
    var a := s.apps[e.i];
    assert AppOk(s.log, a, e.i);
    match e
    case Change(_, ops) => ChangeOk(s.log, a, e.i, ops);
    case Answered(_) => OutgoingShrinks(s.log, a, e.i);
    case Refused(_) => RefusedOk(s.log, a, e.i);
    case Deliver(_) => DeliverOk(s.log, a, e.i);
    case Fetch(_) => FetchOk(s.log, a, e.i);
    case Load(_) => LoadOk(s, e.i);
    case _ =>
  }

  lemma TakeKeeps(s: System, i: nat)
    requires Inv(s) && Enabled(s, Take(i))
    ensures Inv(Next(s, Take(i)))
  {
    var t := Next(s, Take(i));
    var e := t.log[|s.log|];
    forall j | 0 <= j < |t.apps| ensures AppOk(t.log, t.apps[j], j) {
      assert AppOk(s.log, s.apps[j], j);
      LogGrows(s.log, e, s.apps[j], j);
    }
    CutBoardGrows(s.log, e, s.snapshot.cuts, |s.log|);
    forall k | 0 <= k < |s.uploads| ensures SnapshotOk(t.log, s.uploads[k]) {
      assert SnapshotOk(s.log, s.uploads[k]);
      CutBoardGrows(s.log, e, s.uploads[k].cuts, |s.log|);
    }
  }

  /** One more cut: the snapshot of the board behind the cuts so far. */
  lemma CutOk(log: seq<Entry>, cuts: seq<nat>, n: nat)
    requires ValidCuts(cuts, n) && n <= |log|
    ensures SnapshotOk(log, Snapshot(SnapshotOf(CutBoard(log, cuts, n)), cuts + [n]))
  {
    CutsBelow(cuts, n);
    assert (cuts + [n])[..|cuts|] == cuts;
  }

  lemma SealOk(s: System, i: nat)
    requires Inv(s) && i < |s.apps|
    ensures SnapshotOk(s.log, Sealed(s.apps[i])) && Last(Sealed(s.apps[i]).cuts) == s.apps[i].seen
    ensures |Next(s, Seal(i)).uploads| == |s.uploads| + 1 && Next(s, Seal(i)).uploads[|s.uploads|] == Sealed(s.apps[i])
  {
    assert AppOk(s.log, s.apps[i], i);
    CutOk(s.log, s.apps[i].cuts, s.apps[i].seen);
  }

  lemma CompactOk(s: System)
    requires Inv(s) && Enabled(s, Compact)
    ensures SnapshotOk(s.log, Compacted(s))
  {
    assert s.log[Last(s.snapshot.cuts)..] == s.log[Last(s.snapshot.cuts)..|s.log|];
    CutOk(s.log, s.snapshot.cuts, |s.log|);
  }

  lemma AppReplaced(s: System, i: nat, a: App)
    requires Inv(s) && i < |s.apps| && AppOk(s.log, a, i)
    ensures Inv(s.(apps := s.apps[i := a]))
  {}

  lemma SnapshotReplaced(s: System, snapshot: Snapshot)
    requires Inv(s) && SnapshotOk(s.log, snapshot)
    ensures Inv(s.(snapshot := snapshot)) && Inv(s.(uploads := s.uploads + [snapshot]))
  {}

  lemma NextKeeps(s: System, e: Event)
    requires Inv(s) && Enabled(s, e)
    ensures Inv(Next(s, e))
  {
    match e
    case Take(i) => TakeKeeps(s, i);
    case Seal(i) =>
      SealOk(s, i);
      SnapshotReplaced(s, Sealed(s.apps[i]));
    case Arrive(k) =>
      assert SnapshotOk(s.log, s.uploads[k]);
      SnapshotReplaced(s, s.uploads[k]);
    case Compact =>
      CompactOk(s);
      SnapshotReplaced(s, Compacted(s));
    case _ =>
      AppNextOk(s, e);
      AppReplaced(s, e.i, AppNext(s, e));
  }

  lemma {:induction false} RunKeeps(s: System, events: seq<Event>)
    requires Inv(s)
    ensures Inv(Run(s, events)) && |Run(s, events).apps| == |s.apps|
    decreases |events|
  {
    if events != [] {
      if Enabled(s, events[0]) { NextKeeps(s, events[0]); }
      RunKeeps(if Enabled(s, events[0]) then Next(s, events[0]) else s, events[1..]);
    }
  }

  lemma InitOk(n: nat)
    ensures Inv(Init(n))
  {
    assert LogOps([][0..0]) == [];
    forall i | 0 <= i < n ensures AppOk([], FRESH_APP, i) {}
  }

  ghost predicate Reachable(s: System) {
    exists n, events :: s == Run(Init(n), events)
  }

  lemma ReachableOk(s: System)
    requires Reachable(s)
    ensures Inv(s)
  {
    var n, events :| s == Run(Init(n), events);
    InitOk(n);
    RunKeeps(Init(n), events);
  }

  /**
   * However the run went, and by whichever route: what every app has confirmed is the server's log up to where it is,
   * on top of the snapshot it started from, if any.
   */
  lemma ConfirmedIsTheLog(s: System, i: nat)
    requires Reachable(s) && i < |s.apps|
    ensures
      var a := s.apps[i];
      && a.seen <= |s.log| && ValidCuts(a.cuts, a.seen) && a.board.confirmed == CutBoard(s.log, a.cuts, a.seen)
      && (a.cuts == [] ==> a.board.confirmed == LogBoard(s.log, a.seen))
  {
    ReachableOk(s);
    assert AppOk(s.log, s.apps[i], i);
  }

  lemma {:induction false} RunConcat(s: System, a: seq<Event>, b: seq<Event>)
    ensures Run(s, a + b) == Run(Run(s, a), b)
    decreases |a|
  {
    if a == [] {
      assert a + b == b;
    } else {
      assert (a + b)[1..] == a[1..] + b;
      RunConcat(if Enabled(s, a[0]) then Next(s, a[0]) else s, a[1..], b);
    }
  }
}
