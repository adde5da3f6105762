/** What runs of many apps come to: when everybody agrees, and what fetching a batch of one's own does to that. */
module ReplicaRuns {
  import opened Common
  import opened BoardOps
  import opened BoardListing
  import opened BoardStates
  import opened Replicas
  import opened ReplicaCuts
  import BoardConvergence

  // ---- batches of one's own that nothing will take off the screen ----

  /** Something may still stop the batch from being pending: an answer, or an entry of the log still to come. */
  predicate Ahead(log: seq<Entry>, a: App, i: nat, cid: Cid) {
    Holds(a.outgoing, cid) || InLog(log, i, cid, a.seen)
  }

  predicate Lost(log: seq<Entry>, a: App, i: nat, cid: Cid) {
    Holds(a.board.pending, cid) && !Ahead(log, a, i, cid)
  }

  ghost predicate AnyLost(s: System, i: nat) {
    i < |s.apps| && exists cid :: Lost(s.log, s.apps[i], i, cid)
  }

  /** Read off before the event: the last thing that could have stopped the batch from being pending does not. */
  predicate LosesBatch(s: System, e: Event, i: nat, cid: Cid) {
    && IsApps(e) && AppEnabled(s, e) && e.i == i && Holds(s.apps[i].board.pending, cid)
    && var a := s.apps[i];
       match e
       case Answered(_) => a.outgoing[0].cid == cid && !InLog(s.log, i, cid, a.seen)
       case Fetch(_) => !Holds(a.outgoing, cid) && InLog(s.log, i, cid, a.seen) && !InLog(s.log, i, cid, a.seen + 1)
       case Load(_) => !Holds(a.outgoing, cid) && InLog(s.log, i, cid, a.seen) && !InLog(s.log, i, cid, LoadedTo(s, a))
       case _ => false
  }

  predicate Loses(s: System, e: Event, i: nat) {
    i < |s.apps| && exists p ::
      0 <= p < |s.apps[i].board.pending| && LosesBatch(s, e, i, s.apps[i].board.pending[p].cid)
  }

  predicate LosesAlong(s: System, events: seq<Event>, i: nat)
    decreases |events|
  {
    events != [] && (
      || Loses(s, events[0], i)
      || LosesAlong(if Enabled(s, events[0]) then Next(s, events[0]) else s, events[1..], i))
  }

  lemma InLogFrom(log: seq<Entry>, i: nat, cid: Cid, n: nat)
    requires n < |log|
    ensures InLog(log, i, cid, n) <==> InLog(log, i, cid, n + 1) || (log[n].from == i && log[n].cid == cid)
  {}

  lemma InLogLater(log: seq<Entry>, i: nat, cid: Cid, n: nat, m: nat)
    requires n <= m
    ensures InLog(log, i, cid, m) ==> InLog(log, i, cid, n)
  {}

  lemma StaysPending(board: Board, cid: Cid, b: Batch)
    requires b in board.pending && b.cid != cid
    ensures b in Dropped(board, cid).pending
  {
    var at := IndexOf(board.pending, cid);
    if at.Some? {
      var p :| 0 <= p < |board.pending| && board.pending[p] == b;
      WithoutAt(board.pending, at.value, if p < at.value then p else p - 1);
    }
  }

  lemma WasPending(board: Board, below: nat, cid: Cid, b: Batch)
    requires Increasing(board.pending, below) && b in Dropped(board, cid).pending
    ensures b in board.pending && b.cid != cid
  {
    var at := IndexOf(board.pending, cid);
    if at.Some? {
      var now := Without(board.pending, at.value);
      var p :| 0 <= p < |now| && now[p] == b;
      WithoutAt(board.pending, at.value, p);
    }
  }

  lemma HoldsIn(batches: seq<Batch>, cid: Cid)
    ensures Holds(batches, cid) <==> exists b :: b in batches && b.cid == cid
  {
    if b :| b in batches && b.cid == cid {
      var p :| 0 <= p < |batches| && batches[p] == b;
    }
  }

  lemma HoldsDropped(board: Board, below: nat, cid: Cid, other: Cid)
    requires Increasing(board.pending, below)
    ensures Holds(Dropped(board, cid).pending, other) <==> Holds(board.pending, other) && other != cid
  {
    HoldsIn(board.pending, other);
    HoldsIn(Dropped(board, cid).pending, other);
    if b :| b in board.pending && b.cid == other && other != cid { StaysPending(board, cid, b); }
    if b :| b in Dropped(board, cid).pending && b.cid == other { WasPending(board, below, cid, b); }
  }

  lemma TakeLoses(s: System, j: nat, i: nat, cid: Cid)
    requires Inv(s) && Enabled(s, Take(j)) && i < |s.apps|
    ensures Lost(Next(s, Take(j)).log, s.apps[i], i, cid) <==> Lost(s.log, s.apps[i], i, cid)
  {
    assert AppOk(s.log, s.apps[i], i);
    InLogOneMore(s.log, Next(s, Take(j)).log[|s.log|], i, cid, s.apps[i].seen);
  }

  /** One event: a batch is lost after it exactly when it was before, or the event loses it. */
  lemma NextLost(s: System, e: Event, i: nat, cid: Cid)
    requires Inv(s) && Enabled(s, e) && i < |s.apps|
    ensures Lost(Next(s, e).log, Next(s, e).apps[i], i, cid)
            <==> Lost(s.log, s.apps[i], i, cid) || LosesBatch(s, e, i, cid)
  {
    if e.Take? {
      TakeLoses(s, e.i, i, cid);
    } else {
      NextAt(s, e, i);
      if IsApps(e) && e.i == i { AppNextLost(s, e, cid); }
    }
  }

  /** Every event but a take leaves the log alone, and every app but its own. */
  lemma NextAt(s: System, e: Event, i: nat)
    requires Enabled(s, e) && !e.Take? && i < |s.apps|
    ensures Next(s, e).log == s.log && |Next(s, e).apps| == |s.apps|
    ensures Next(s, e).apps[i] == if IsApps(e) && e.i == i then AppNext(s, e) else s.apps[i]
  {}

  lemma AppNextLost(s: System, e: Event, cid: Cid)
    requires Inv(s) && IsApps(e) && AppEnabled(s, e) && !e.Take?
    ensures Lost(s.log, AppNext(s, e), e.i, cid) <==> Lost(s.log, s.apps[e.i], e.i, cid) || LosesBatch(s, e, e.i, cid)
  {
    var i, a := e.i, s.apps[e.i];
    assert AppOk(s.log, a, i);
    match e
    case Change(_, ops) =>
      HoldsOneMore(a.outgoing, Batch(a.issued, ops), cid);
      HoldsOneMore(a.board.pending, Batch(a.issued, ops), cid);
    case Answered(_) => HoldsTail(a.outgoing, a.issued, cid);
    case Refused(_) =>
      HoldsTail(a.outgoing, a.issued, cid);
      HoldsDropped(a.board, a.issued, a.outgoing[0].cid, cid);
    case Deliver(_) =>
      InLogFrom(s.log, i, cid, a.seen);
      HoldsDropped(a.board, a.issued, s.log[a.seen].cid, cid);
    case Fetch(_) => InLogLater(s.log, i, cid, a.seen, a.seen + 1);
    case Load(_) => InLogLater(s.log, i, cid, a.seen, LoadedTo(s, a));
    case _ =>
  }

  lemma LosesOne(s: System, e: Event, i: nat)
    requires i < |s.apps|
    ensures Loses(s, e, i) <==> exists cid :: LosesBatch(s, e, i, cid)
  {
    if cid :| LosesBatch(s, e, i, cid) {
      var pending := s.apps[i].board.pending;
      var p :| 0 <= p < |pending| && pending[p].cid == cid;
    }
  }

  lemma LostStays(s: System, e: Event, i: nat)
    requires Inv(s) && Enabled(s, e) && i < |s.apps| && (AnyLost(s, i) || Loses(s, e, i))
    ensures AnyLost(Next(s, e), i)
  {
    LosesOne(s, e, i);
    var cid :| Lost(s.log, s.apps[i], i, cid) || LosesBatch(s, e, i, cid);
    NextLost(s, e, i, cid);
  }

  lemma LostBefore(s: System, e: Event, i: nat)
    requires Inv(s) && Enabled(s, e) && i < |s.apps| && AnyLost(Next(s, e), i)
    ensures AnyLost(s, i) || Loses(s, e, i)
  {
    LosesOne(s, e, i);
    var cid :| Lost(Next(s, e).log, Next(s, e).apps[i], i, cid);
    NextLost(s, e, i, cid);
  }

  lemma LosesOnlyEnabled(s: System, e: Event, i: nat)
    ensures Loses(s, e, i) ==> Enabled(s, e)
  {}

  /** A batch is lost at the end of a run exactly when it was at the start, or some event of the run lost one. */
  lemma {:induction false} RunAnyLost(s: System, events: seq<Event>, i: nat)
    requires Inv(s) && i < |s.apps|
    ensures AnyLost(Run(s, events), i) <==> AnyLost(s, i) || LosesAlong(s, events, i)
    decreases |events|
  {
    if events != [] {
      var e := events[0];
      LosesOnlyEnabled(s, e, i);
      if Enabled(s, e) {
        if AnyLost(s, i) || Loses(s, e, i) { LostStays(s, e, i); }
        if AnyLost(Next(s, e), i) { LostBefore(s, e, i); }
        NextKeeps(s, e);
      }
      RunAnyLost(if Enabled(s, e) then Next(s, e) else s, events[1..], i);
    }
  }

  // ---- apps that sent and heard everything ----

  predicate CaughtUp(s: System, i: nat) {
    i < |s.apps| && s.apps[i].seen == |s.log| && s.apps[i].outgoing == []
  }

  lemma PendingIsLost(s: System, i: nat)
    requires CaughtUp(s, i)
    ensures s.apps[i].board.pending == [] <==> !AnyLost(s, i)
  {
    var pending := s.apps[i].board.pending;
    if pending != [] { assert Lost(s.log, s.apps[i], i, pending[0].cid); }
  }

  /** Exact, over all runs: such an app has nothing pending if and only if no event lost a batch of its own. */
  lemma NothingPendingIff(n: nat, events: seq<Event>, i: nat)
    requires CaughtUp(Run(Init(n), events), i)
    ensures Run(Init(n), events).apps[i].board.pending == [] <==> !LosesAlong(Init(n), events, i)
  {
    InitOk(n);
    RunKeeps(Init(n), events);
    RunAnyLost(Init(n), events, i);
    PendingIsLost(Run(Init(n), events), i);
  }

  lemma RunReachable(n: nat, events: seq<Event>)
    ensures Reachable(Run(Init(n), events))
  {}

  /** With nothing lost it shows the log and nothing else, on top of the snapshot it started from. */
  lemma CaughtUpShowsTheLog(n: nat, events: seq<Event>, i: nat)
    requires CaughtUp(Run(Init(n), events), i) && !LosesAlong(Init(n), events, i)
    ensures
      var s := Run(Init(n), events);
      var a := s.apps[i];
      && ValidCuts(a.cuts, |s.log|)
      && a.board.pending == [] && Show(a.board) == CutBoard(s.log, a.cuts, |s.log|)
      && (a.cuts == [] ==> Show(a.board) == LogBoard(s.log, |s.log|))
  {
    NothingPendingIff(n, events, i);
    RunReachable(n, events);
    ConfirmedIsTheLog(Run(Init(n), events), i);
  }

  /** Exact: then it lists what the log lists, if and only if no object tells that a snapshot left it out. */
  lemma ListsWhatTheLogLists(n: nat, events: seq<Event>, i: nat, x: seq<Shown>, y: seq<Shown>)
    requires CaughtUp(Run(Init(n), events), i) && !LosesAlong(Init(n), events, i)
    requires
      var s := Run(Init(n), events);
      Listing(Show(s.apps[i].board), x) && Listing(LogBoard(s.log, |s.log|), y)
    ensures
      var s := Run(Init(n), events);
      ValidCuts(s.apps[i].cuts, |s.log|) && (x == y <==> SameCuts(s.log, s.apps[i].cuts, [], |s.log|))
  {
    CaughtUpShowsTheLog(n, events, i);
    var s := Run(Init(n), events);
    ListsTheLogIff(s.log, s.apps[i].cuts, |s.log|, x, y);
  }

  /** Exact: any two such apps list the same objects in the same order, if and only if no object tells them apart. */
  lemma EveryoneAgrees(n: nat, events: seq<Event>, i: nat, j: nat, x: seq<Shown>, y: seq<Shown>)
    requires CaughtUp(Run(Init(n), events), i) && !LosesAlong(Init(n), events, i)
    requires CaughtUp(Run(Init(n), events), j) && !LosesAlong(Init(n), events, j)
    requires Listing(Show(Run(Init(n), events).apps[i].board), x)
      && Listing(Show(Run(Init(n), events).apps[j].board), y)
    ensures
      var s := Run(Init(n), events);
      && ValidCuts(s.apps[i].cuts, |s.log|) && ValidCuts(s.apps[j].cuts, |s.log|)
      && (x == y <==> SameCuts(s.log, s.apps[i].cuts, s.apps[j].cuts, |s.log|))
      && (s.apps[i].cuts == s.apps[j].cuts ==> x == y)
  {
    CaughtUpShowsTheLog(n, events, i);
    CaughtUpShowsTheLog(n, events, j);
    var s := Run(Init(n), events);
    CutsAgreeIff(s.log, s.apps[i].cuts, s.apps[j].cuts, |s.log|, x, y);
  }

  /** Shown as the log has it: by a pending write of the same, or by one since a snapshot left the object out. */
  predicate RegisterShowsTheLog(log: seq<Entry>, a: App, id: Id, f: Field)
    requires ValidCuts(a.cuts, |log|)
  {
    var mine, d := LastWrite(PendingOps(a.board.pending), id, f), LeftOutAt(log, a.cuts, id);
    if mine.Some? then mine.value == Reg(LogBoard(log, |log|), id, f)
    else d.None? || LastWrite(LogOps(log[d.value..|log|]), id, f).Some? || Reg(LogBoard(log, d.value), id, f) == None
  }

  lemma RegisterShowsTheLogIff(log: seq<Entry>, a: App, id: Id, f: Field)
    requires ValidCuts(a.cuts, |log|) && a.board.confirmed == CutBoard(log, a.cuts, |log|)
    ensures Reg(Show(a.board), id, f) == Reg(LogBoard(log, |log|), id, f) <==> RegisterShowsTheLog(log, a, id, f)
  {
    RegAfter(a.board.confirmed, PendingOps(a.board.pending), id, f);
    CutRegisterIff(log, a.cuts, |log|, id, f);
  }

  /** Exact, register by register, for an app that sent and heard everything, with lost batches or without. */
  lemma ShowsTheLogIff(s: System, i: nat)
    requires Reachable(s) && CaughtUp(s, i)
    ensures
      var a := s.apps[i];
      && ValidCuts(a.cuts, |s.log|)
      && (SameView(Show(a.board), LogBoard(s.log, |s.log|)) <==> forall id, f :: RegisterShowsTheLog(s.log, a, id, f))
  {
    ConfirmedIsTheLog(s, i);
    forall id, f ensures
      Reg(Show(s.apps[i].board), id, f) == Reg(LogBoard(s.log, |s.log|), id, f)
      <==> RegisterShowsTheLog(s.log, s.apps[i], id, f)
    {
      RegisterShowsTheLogIff(s.log, s.apps[i], id, f);
    }
  }

  // ---- when one's own batch comes back ----

  /** The batch with this id has gone by without it, so it is still pending. */
  predicate GoneBy(log: seq<Entry>, a: App, i: nat, cid: Cid) {
    a.seen <= |log| && InLog(log[..a.seen], i, cid, 0)
  }

  /** The next batch of the log is one of the app's own, still pending. */
  predicate OwnNext(s: System, i: nat) {
    && i < |s.apps| && s.apps[i].seen < |s.log|
    && s.log[s.apps[i].seen].from == i && Holds(s.apps[i].board.pending, s.log[s.apps[i].seen].cid)
  }

  /** Which of the pending batches it is. */
  function Place(s: System, i: nat): (q: nat)
    requires OwnNext(s, i)
    ensures q < |s.apps[i].board.pending| && IndexOf(s.apps[i].board.pending, s.log[s.apps[i].seen].cid) == Some(q)
  {
    IndexOf(s.apps[i].board.pending, s.log[s.apps[i].seen].cid).value
  }

  /** It has the ops it was made with, and overtakes only batches that were fetched. */
  lemma OvertakesOnlyFetched(s: System, i: nat)
    requires Reachable(s) && OwnNext(s, i)
    ensures
      var a := s.apps[i];
      && a.board.pending[Place(s, i)].ops == s.log[a.seen].ops
      && forall p :: 0 <= p < Place(s, i) ==> GoneBy(s.log, a, i, a.board.pending[p].cid)
  {
    ReachableOk(s);
    assert AppOk(s.log, s.apps[i], i);
  }

  lemma EchoConfirms(s: System, i: nat)
    requires Reachable(s) && OwnNext(s, i)
    ensures
      var b, q := s.apps[i].board, Place(s, i);
      Next(s, Deliver(i)).apps[i].board == Confirmed(b, b.pending[q].ops, Some(s.log[s.apps[i].seen].cid))
  {
    OvertakesOnlyFetched(s, i);
    NextAt(s, Deliver(i), i);
  }

  /** Exact, wherever a run has got to: it comes back without a flicker exactly when it overtakes no clashing one. */
  lemma EchoFlickersIff(s: System, i: nat)
    requires Reachable(s) && OwnNext(s, i)
    ensures
      var b, q := s.apps[i].board, Place(s, i);
      Show(Next(s, Deliver(i)).apps[i].board) == Show(b)
      <==> BoardConvergence.ClashFree(PendingOps(b.pending[..q]), b.pending[q].ops, PendingOps(b.pending[q + 1..]))
  {
    EchoConfirms(s, i);
    BoardConvergence.ConfirmOwnIffClashFree(s.apps[i].board, s.log[s.apps[i].seen].cid);
  }

  /** So without a pending batch that has gone by it never flickers: the one that comes back is the oldest. */
  lemma OwnEchoNeverFlickers(s: System, i: nat)
    requires Reachable(s) && OwnNext(s, i)
    requires forall p ::
      0 <= p < |s.apps[i].board.pending| ==> !GoneBy(s.log, s.apps[i], i, s.apps[i].board.pending[p].cid)
    ensures Place(s, i) == 0 && Show(Next(s, Deliver(i)).apps[i].board) == Show(s.apps[i].board)
  {
    OvertakesOnlyFetched(s, i);
    BoardConvergence.ConfirmOwnNoFlicker(s.apps[i].board, s.log[s.apps[i].seen].cid);
  }

  /** Fetching it never flickers: the registers it writes are this app's already. */
  lemma FetchOwnNeverFlickers(s: System, i: nat)
    requires Reachable(s) && OwnNext(s, i)
    ensures Show(Next(s, Fetch(i)).apps[i].board) == Show(s.apps[i].board)
  {
    OvertakesOnlyFetched(s, i);
    BoardConvergence.FetchOwnNoFlicker(s.apps[i].board, Place(s, i));
  }

  // ---- which fetches and loads are safe ----

  predicate IsReply(e: Event, i: nat) {
    e == Fetch(i) || e == Load(i)
  }

  /** Read off before a fetch or a load: no pending batch of one's own that it passes over came for the last time. */
  predicate Safe(s: System, e: Event, i: nat) {
    IsReply(e, i) && Enabled(s, e) ==>
      forall p :: 0 <= p < |s.apps[i].board.pending| ==>
        var cid := s.apps[i].board.pending[p].cid;
        InLog(s.log, i, cid, s.apps[i].seen) ==> InLog(s.log, i, cid, AppNext(s, e).seen)
  }

  predicate SafeAlong(s: System, events: seq<Event>, i: nat)
    decreases |events|
  {
    events == [] || (
      && Safe(s, events[0], i)
      && SafeAlong(if Enabled(s, events[0]) then Next(s, events[0]) else s, events[1..], i))
  }

  /** A pending batch the server has is still to come. */
  ghost predicate Coming(s: System, i: nat) {
    i < |s.apps| && forall cid ::
      Holds(s.apps[i].board.pending, cid) && InLog(s.log, i, cid, 0) ==> InLog(s.log, i, cid, s.apps[i].seen)
  }

  /** In every safe run from here, having sent and heard everything means having nothing pending. */
  ghost predicate AlwaysSettles(s: System, i: nat) {
    forall events :: SafeAlong(s, events, i) && CaughtUp(Run(s, events), i)
      ==> Run(s, events).apps[i].board.pending == []
  }

  lemma TakeComing(s: System, j: nat, i: nat)
    requires Inv(s) && Enabled(s, Take(j)) && Coming(s, i)
    ensures Coming(Next(s, Take(j)), i)
  {
    var a, e := s.apps[i], Next(s, Take(j)).log[|s.log|];
    assert AppOk(s.log, a, i);
    forall cid | Holds(a.board.pending, cid) && InLog(s.log + [e], i, cid, 0)
      ensures InLog(s.log + [e], i, cid, a.seen) {
      InLogOneMore(s.log, e, i, cid, 0);
      InLogOneMore(s.log, e, i, cid, a.seen);
    }
  }

  lemma NextComing(s: System, e: Event, i: nat)
    requires Inv(s) && Enabled(s, e) && Coming(s, i) && Safe(s, e, i)
    ensures Coming(Next(s, e), i)
  {
    if e.Take? {
      TakeComing(s, e.i, i);
      return;
    }
    NextAt(s, e, i);
    if IsApps(e) && e.i == i {
      forall cid | Holds(AppNext(s, e).board.pending, cid) && InLog(s.log, i, cid, 0)
        ensures InLog(s.log, i, cid, AppNext(s, e).seen)
      {
        ComingStep(s, e, cid);
      }
    }
  }

  lemma ComingStep(s: System, e: Event, cid: Cid)
    requires Inv(s) && IsApps(e) && AppEnabled(s, e) && !e.Take? && Coming(s, e.i) && Safe(s, e, e.i)
    requires Holds(AppNext(s, e).board.pending, cid) && InLog(s.log, e.i, cid, 0)
    ensures InLog(s.log, e.i, cid, AppNext(s, e).seen)
  {
    var i, a := e.i, s.apps[e.i];
    assert AppOk(s.log, a, i);
    match e
    case Change(_, ops) => HoldsOneMore(a.board.pending, Batch(a.issued, ops), cid);
    case Refused(_) => HoldsDropped(a.board, a.issued, a.outgoing[0].cid, cid);
    case Deliver(_) =>
      InLogFrom(s.log, i, cid, a.seen);
      HoldsDropped(a.board, a.issued, s.log[a.seen].cid, cid);
    case Fetch(_) => var p :| 0 <= p < |a.board.pending| && a.board.pending[p].cid == cid;
    case Load(_) => var p :| 0 <= p < |a.board.pending| && a.board.pending[p].cid == cid;
    case _ =>
  }

  lemma {:induction false} RunComing(s: System, events: seq<Event>, i: nat)
    requires Inv(s) && Coming(s, i) && SafeAlong(s, events, i)
    ensures Coming(Run(s, events), i) && Inv(Run(s, events))
    decreases |events|
  {
    if events != [] {
      var e := events[0];
      if Enabled(s, e) {
        NextComing(s, e, i);
        NextKeeps(s, e);
      }
      RunComing(if Enabled(s, e) then Next(s, e) else s, events[1..], i);
    }
  }

  lemma HoldsFirst(batches: seq<Batch>)
    ensures batches != [] ==> Holds(batches, batches[0].cid)
  {}

  lemma ComingSettles(s: System, i: nat)
    requires Inv(s) && Coming(s, i) && CaughtUp(s, i)
    ensures s.apps[i].board.pending == []
  {
    assert AppOk(s.log, s.apps[i], i);
    HoldsFirst(s.apps[i].board.pending);
  }

  /** Without an unsafe fetch or load in the whole run, an app that sent and heard everything has nothing pending. */
  lemma SafeRunSettles(n: nat, events: seq<Event>, i: nat)
    requires SafeAlong(Init(n), events, i) && CaughtUp(Run(Init(n), events), i)
    ensures Run(Init(n), events).apps[i].board.pending == []
  {
    InitOk(n);
    RunKeeps(Init(n), events);
    RunComing(Init(n), events, i);
    ComingSettles(Run(Init(n), events), i);
  }

  lemma RunOne(s: System, e: Event, rest: seq<Event>)
    requires Enabled(s, e)
    ensures Run(s, [e] + rest) == Run(Next(s, e), rest)
  {
    assert ([e] + rest)[1..] == rest;
  }

  ghost predicate NoReply(events: seq<Event>) {
    forall k :: 0 <= k < |events| ==> !events[k].Fetch? && !events[k].Load?
  }

  lemma {:induction false} NoReplyIsSafe(s: System, events: seq<Event>, i: nat)
    requires NoReply(events)
    ensures SafeAlong(s, events, i)
    decreases |events|
  {
    if events != [] {
      NoReplyIsSafe(if Enabled(s, events[0]) then Next(s, events[0]) else s, events[1..], i);
    }
  }

  /** The server has the batch, the app has been past it, and it is pending still. */
  predicate Stuck(s: System, i: nat, cid: Cid) {
    && i < |s.apps| && s.apps[i].seen <= |s.log| && Holds(s.apps[i].board.pending, cid)
    && InLog(s.log, i, cid, 0) && !InLog(s.log, i, cid, s.apps[i].seen)
  }

  /** Having everything answered does not help: the batch need not be taken again. */
  lemma {:induction false} AnswerAll(s: System, i: nat, cid: Cid) returns (events: seq<Event>)
    requires Stuck(s, i, cid)
    ensures NoReply(events) && Stuck(Run(s, events), i, cid) && Run(s, events).apps[i].outgoing == []
    decreases |s.apps[i].outgoing|
  {
    if s.apps[i].outgoing == [] { return []; }
    var head := s.apps[i].outgoing[0];
    if InLog(s.log, i, head.cid, 0) {
      var rest := AnswerAll(Next(s, Answered(i)), i, cid);
      RunOne(s, Answered(i), rest);
      return [Answered(i)] + rest;
    }
    var t := Next(s, Take(i));
    TakenStuck(s, i, cid);
    var rest := AnswerAll(Next(t, Answered(i)), i, cid);
    RunOne(t, Answered(i), rest);
    RunOne(s, Take(i), [Answered(i)] + rest);
    events := [Take(i)] + ([Answered(i)] + rest);
  }

  lemma TakenStuck(s: System, i: nat, cid: Cid)
    requires Stuck(s, i, cid) && s.apps[i].outgoing != [] && !InLog(s.log, i, s.apps[i].outgoing[0].cid, 0)
    ensures Stuck(Next(s, Take(i)), i, cid) && Enabled(Next(s, Take(i)), Answered(i))
  {
    var t, head := Next(s, Take(i)), s.apps[i].outgoing[0];
    InLogOneMore(s.log, t.log[|s.log|], i, cid, 0);
    InLogOneMore(s.log, t.log[|s.log|], i, cid, s.apps[i].seen);
    InLogOneMore(s.log, t.log[|s.log|], i, head.cid, 0);
  }

  lemma DeliveredStuck(s: System, i: nat, cid: Cid)
    requires Stuck(s, i, cid) && Enabled(s, Deliver(i))
    ensures Stuck(Next(s, Deliver(i)), i, cid)
  {
    var a, e := s.apps[i], s.log[s.apps[i].seen];
    InLogFrom(s.log, i, cid, a.seen);
    HoldsIn(a.board.pending, cid);
    var b :| b in a.board.pending && b.cid == cid;
    if e.from == i {
      StaysPending(a.board, e.cid, b);
      HoldsIn(Dropped(a.board, e.cid).pending, cid);
    }
  }

  function Deliveries(i: nat, k: nat): seq<Event> {
    if k == 0 then [] else [Deliver(i)] + Deliveries(i, k - 1)
  }

  /** Nor does hearing everything. */
  lemma {:induction false} DeliverAll(s: System, i: nat, cid: Cid, k: nat)
    requires Stuck(s, i, cid) && s.apps[i].outgoing == [] && k == |s.log| - s.apps[i].seen
    ensures NoReply(Deliveries(i, k))
    ensures Stuck(Run(s, Deliveries(i, k)), i, cid) && CaughtUp(Run(s, Deliveries(i, k)), i)
    decreases k
  {
    if k > 0 {
      DeliveredStuck(s, i, cid);
      DeliverAll(Next(s, Deliver(i)), i, cid, k - 1);
      RunOne(s, Deliver(i), Deliveries(i, k - 1));
    }
  }

  lemma UnsafeSticks(s: System, e: Event, i: nat) returns (cid: Cid)
    requires Inv(s) && Coming(s, i) && IsReply(e, i) && Enabled(s, e) && !Safe(s, e, i)
    ensures Stuck(Next(s, e), i, cid)
  {
    var a := s.apps[i];
    assert AppOk(s.log, a, i);
    var p :| 0 <= p < |a.board.pending| && InLog(s.log, i, a.board.pending[p].cid, a.seen)
             && !InLog(s.log, i, a.board.pending[p].cid, AppNext(s, e).seen);
    cid := a.board.pending[p].cid;
    InLogLater(s.log, i, cid, 0, a.seen);
  }

  /** From there a run without replies sends and hears everything, and the batch is pending still. */
  lemma StuckForGood(s: System, i: nat, cid: Cid)
    requires Stuck(s, i, cid)
    ensures !AlwaysSettles(s, i)
  {
    var answers := AnswerAll(s, i, cid);
    var t := Run(s, answers);
    var k := |t.log| - t.apps[i].seen;
    DeliverAll(t, i, cid, k);
    RunConcat(s, answers, Deliveries(i, k));
    NoReplyIsSafe(s, answers + Deliveries(i, k), i);
  }

  /** Exact: a fetch, or a load, is harmless in every safe run after it if and only if it is safe. */
  lemma SafeFetchExact(s: System, e: Event, i: nat)
    requires Inv(s) && Coming(s, i) && IsReply(e, i) && Enabled(s, e)
    ensures Safe(s, e, i) <==> AlwaysSettles(Next(s, e), i)
  {
    var t := Next(s, e);
    NextKeeps(s, e);
    if Safe(s, e, i) {
      NextComing(s, e, i);
      forall events | SafeAlong(t, events, i) && CaughtUp(Run(t, events), i)
        ensures Run(t, events).apps[i].board.pending == []
      {
        RunComing(t, events, i);
        ComingSettles(Run(t, events), i);
      }
    } else {
      var cid := UnsafeSticks(s, e, i);
      StuckForGood(t, i, cid);
    }
  }

  // ---- what a lost batch does ----

  predicate LostBatch(s: System, i: nat, b: Batch) {
    i < |s.apps| && b in s.apps[i].board.pending && Lost(s.log, s.apps[i], i, b.cid)
  }

  lemma AppNextPending(s: System, e: Event, b: Batch)
    requires IsApps(e) && AppEnabled(s, e) && LostBatch(s, e.i, b)
    ensures b in AppNext(s, e).board.pending
  {
    var i, a := e.i, s.apps[e.i];
    if e.Refused? {
      assert a.outgoing[0].cid != b.cid;
      StaysPending(a.board, a.outgoing[0].cid, b);
    }
    if e.Deliver? && s.log[a.seen].from == i {
      InLogFrom(s.log, i, b.cid, a.seen);
      StaysPending(a.board, s.log[a.seen].cid, b);
    }
  }

  lemma NextLostBatch(s: System, e: Event, i: nat, b: Batch)
    requires Inv(s) && Enabled(s, e) && LostBatch(s, i, b)
    ensures LostBatch(Next(s, e), i, b)
  {
    NextLost(s, e, i, b.cid);
    if !e.Take? { NextAt(s, e, i); }
    if IsApps(e) && e.i == i { AppNextPending(s, e, b); }
  }

  lemma {:induction false} RunLostBatch(s: System, events: seq<Event>, i: nat, b: Batch)
    requires Inv(s) && LostBatch(s, i, b)
    ensures LostBatch(Run(s, events), i, b)
    decreases |events|
  {
    if events != [] {
      if Enabled(s, events[0]) {
        NextLostBatch(s, events[0], i, b);
        NextKeeps(s, events[0]);
      }
      RunLostBatch(if Enabled(s, events[0]) then Next(s, events[0]) else s, events[1..], i, b);
    }
  }

  /** In every run from there on, the registers it writes show this app's pending writes and never the log's. */
  lemma LostHides(s: System, events: seq<Event>, i: nat, b: Batch, id: Id, f: Field)
    requires Inv(s) && LostBatch(s, i, b) && Writes(b.ops, id, f)
    ensures i < |Run(s, events).apps|
    ensures
      var board := Run(s, events).apps[i].board;
      var mine := LastWrite(PendingOps(board.pending), id, f);
      mine.Some? && Reg(Show(board), id, f) == mine.value
  {
    RunLostBatch(s, events, i, b);
    var board := Run(s, events).apps[i].board;
    var p :| 0 <= p < |board.pending| && board.pending[p] == b;
    BoardConvergence.PendingWrites(board.pending, p);
    LastWriteIffWrites(PendingOps(board.pending), id, f);
    RegAfter(board.confirmed, PendingOps(board.pending), id, f);
  }

  // ---- runs that go wrong ----

  lemma RunTwo(s: System, e: Event, f: Event)
    requires Enabled(s, e) && Enabled(Next(s, e), f)
    ensures Run(s, [e, f]) == Next(Next(s, e), f)
  {
    assert [e, f][1..] == [f];
    assert Run(Next(s, e), [f]) == Next(Next(s, e), f);
  }

  /** Reopened with a batch on its way: the reply holds it, its answer comes, and its event is skipped. */
  function Reopened(ops: seq<Op>): seq<Event> {
    [Change(0, ops), Take(0)] + [Fetch(0), Answered(0)]
  }

  function AfterReopened(n: nat, ops: seq<Op>): System
    requires n > 0
  {
    var reopened := App(Board(ApplyOps(map[], ops), [Batch(0, ops)]), 1, [], [], 1);
    Init(n).(log := [Entry(0, 0, ops)], apps := Init(n).apps[0 := reopened])
  }

  lemma ReopenedTaken(n: nat, ops: seq<Op>)
    requires n > 0
    ensures
      var batch := Batch(0, ops);
      Run(Init(n), [Change(0, ops), Take(0)])
      == Init(n).(log := [Entry(0, 0, ops)], apps := Init(n).apps[0 := App(Board(map[], [batch]), 0, [], [batch], 1)])
  {
    assert [] + [Batch(0, ops)] == [Batch(0, ops)];
    RunTwo(Init(n), Change(0, ops), Take(0));
  }

  lemma ReopenedIs(n: nat, ops: seq<Op>)
    requires n > 0
    ensures Run(Init(n), Reopened(ops)) == AfterReopened(n, ops)
  {
    ReopenedTaken(n, ops);
    RunConcat(Init(n), [Change(0, ops), Take(0)], [Fetch(0), Answered(0)]);
    var t := Run(Init(n), [Change(0, ops), Take(0)]);
    var u := Next(t, Fetch(0));
    assert u.log[0] == Entry(0, 0, ops) && InLog(u.log, 0, 0, 0);
    assert u.apps[0] == App(Board(ApplyOps(map[], ops), [Batch(0, ops)]), 1, [], [Batch(0, ops)], 1);
    RunTwo(t, Fetch(0), Answered(0));
    assert Next(u, Answered(0)).apps[0] == AfterReopened(n, ops).apps[0];
  }

  /** Everything sent and everything heard, and the batch is pending all the same. */
  lemma ReopeningLosesABatch(n: nat, ops: seq<Op>)
    requires n > 0
    ensures
      var s := Run(Init(n), Reopened(ops));
      CaughtUp(s, 0) && s.apps[0].board.pending == [Batch(0, ops)] && LostBatch(s, 0, Batch(0, ops))
  {
    ReopenedIs(n, ops);
    var s := AfterReopened(n, ops);
    assert s.apps[0].board.pending[0] == Batch(0, ops);
  }

  function Set(id: Id, f: Field, v: Value): seq<Op> {
    [Op(id, map[f := Some(v)])]
  }

  lemma SetWrites(id: Id, f: Field, v: Value)
    ensures LastWrite(Set(id, f, v), id, f) == Some(Some(v))
  {}

  /** Another app's change after that, which everybody hears. */
  function ThenTheirs(theirs: seq<Op>): seq<Event> {
    [Deliver(1), Change(1, theirs)] + [Take(1), Answered(1)] + [Deliver(1), Deliver(0)]
  }

  function TwoApps(log: seq<Entry>, a: App, b: App): System {
    System(log, Snapshot(map[], []), [], [a, b])
  }

  /** The app that reopened the board, once its answer came. */
  function Reopener(mine: seq<Op>): App {
    App(Board(ApplyOps(map[], mine), [Batch(0, mine)]), 1, [], [], 1)
  }

  lemma TheyChange(mine: seq<Op>, theirs: seq<Op>)
    ensures
      var b := App(Board(ApplyOps(map[], mine), [Batch(0, theirs)]), 1, [], [Batch(0, theirs)], 1);
      Run(TwoApps([Entry(0, 0, mine)], Reopener(mine), FRESH_APP), [Deliver(1), Change(1, theirs)])
      == TwoApps([Entry(0, 0, mine)], Reopener(mine), b)
  {
    assert [] + [Batch(0, theirs)] == [Batch(0, theirs)];
    RunTwo(TwoApps([Entry(0, 0, mine)], Reopener(mine), FRESH_APP), Deliver(1), Change(1, theirs));
  }

  lemma TheirsTaken(mine: seq<Op>, theirs: seq<Op>, b: App)
    requires b.outgoing == [Batch(0, theirs)]
    ensures
      Run(TwoApps([Entry(0, 0, mine)], Reopener(mine), b), [Take(1), Answered(1)])
      == TwoApps([Entry(0, 0, mine), Entry(1, 0, theirs)], Reopener(mine), b.(outgoing := []))
  {
    var s := TwoApps([Entry(0, 0, mine)], Reopener(mine), b);
    var t := Next(s, Take(1));
    assert t.log == [Entry(0, 0, mine), Entry(1, 0, theirs)] && t.log[1] == Entry(1, 0, theirs)
      && InLog(t.log, 1, 0, 0);
    RunTwo(s, Take(1), Answered(1));
    assert b.outgoing[1..] == [];
    assert Next(t, Answered(1)).apps == [Reopener(mine), b.(outgoing := [])];
  }

  lemma TheyHear(mine: seq<Op>, theirs: seq<Op>)
    ensures
      var b := App(Board(ApplyOps(map[], mine), [Batch(0, theirs)]), 1, [], [], 1);
      Delivered(b, 1, Entry(1, 0, theirs)) == App(Board(ApplyOps(ApplyOps(map[], mine), theirs), []), 2, [], [], 1)
  {
    assert Without([Batch(0, theirs)], 0) == [];
  }

  lemma TheirsHeard(mine: seq<Op>, theirs: seq<Op>)
    ensures
      var log := [Entry(0, 0, mine), Entry(1, 0, theirs)];
      var b := App(Board(ApplyOps(map[], mine), [Batch(0, theirs)]), 1, [], [], 1);
      var s := Run(TwoApps(log, Reopener(mine), b), [Deliver(1), Deliver(0)]);
      && CaughtUp(s, 0) && CaughtUp(s, 1)
      && s.apps[0].board == Board(ApplyOps(ApplyOps(map[], mine), theirs), [Batch(0, mine)])
      && s.apps[1].board == Board(ApplyOps(ApplyOps(map[], mine), theirs), [])
  {
    var log := [Entry(0, 0, mine), Entry(1, 0, theirs)];
    var b := App(Board(ApplyOps(map[], mine), [Batch(0, theirs)]), 1, [], [], 1);
    var confirmed := Board(ApplyOps(ApplyOps(map[], mine), theirs), []);
    TheyHear(mine, theirs);
    var s := TwoApps(log, Reopener(mine), b);
    RunTwo(s, Deliver(1), Deliver(0));
    assert Next(s, Deliver(1)) == TwoApps(log, Reopener(mine), App(confirmed, 2, [], [], 1));
  }

  lemma TheirsIs(mine: seq<Op>, theirs: seq<Op>)
    ensures
      var s := Run(AfterReopened(2, mine), ThenTheirs(theirs));
      && CaughtUp(s, 0) && CaughtUp(s, 1)
      && s.apps[0].board == Board(ApplyOps(ApplyOps(map[], mine), theirs), [Batch(0, mine)])
      && s.apps[1].board == Board(ApplyOps(ApplyOps(map[], mine), theirs), [])
  {
    var s := AfterReopened(2, mine);
    assert s == TwoApps([Entry(0, 0, mine)], Reopener(mine), FRESH_APP);
    TheyChange(mine, theirs);
    TheirsTaken(mine, theirs, App(Board(ApplyOps(map[], mine), [Batch(0, theirs)]), 1, [], [Batch(0, theirs)], 1));
    TheirsHeard(mine, theirs);
    RunConcat(s, [Deliver(1), Change(1, theirs)], [Take(1), Answered(1)]);
    RunConcat(s, [Deliver(1), Change(1, theirs)] + [Take(1), Answered(1)], [Deliver(1), Deliver(0)]);
  }

  /** When it changes the same register, both have sent and heard everything and show different things. */
  lemma ReopeningHidesOthers(id: Id, f: Field, v: Value, w: Value)
    ensures
      var s := Run(Init(2), Reopened(Set(id, f, v)) + ThenTheirs(Set(id, f, w)));
      && CaughtUp(s, 0) && CaughtUp(s, 1)
      && Reg(Show(s.apps[0].board), id, f) == Some(v) && Reg(Show(s.apps[1].board), id, f) == Some(w)
  {
    var mine, theirs := Set(id, f, v), Set(id, f, w);
    ReopenedIs(2, mine);
    RunConcat(Init(2), Reopened(mine), ThenTheirs(theirs));
    TheirsIs(mine, theirs);
    var log := ApplyOps(ApplyOps(map[], mine), theirs);
    PendingOpsSnoc([], Batch(0, mine));
    assert [] + [Batch(0, mine)] == [Batch(0, mine)];
    SetWrites(id, f, v);
    SetWrites(id, f, w);
    RegAfter(log, mine, id, f);
    RegAfter(ApplyOps(map[], mine), theirs, id, f);
  }

  lemma SecondOvertakes(confirmed: Objects, id: Id, f: Field, v: Value, w: Value)
    ensures
      var b := Board(confirmed, [Batch(0, Set(id, f, v))] + [Batch(1, Set(id, f, w))]);
      && IndexOf(b.pending, 1) == Some(1)
      && Reg(Show(b), id, f) == Some(w) && Reg(Show(Confirmed(b, Set(id, f, w), Some(1))), id, f) == Some(v)
  {
    var first, second := Set(id, f, v), Set(id, f, w);
    var pending := [Batch(0, first)] + [Batch(1, second)];
    assert IndexOf(pending, 1) == Some(1) && Without(pending, 1) == [Batch(0, first)];
    PendingOpsSnoc([Batch(0, first)], Batch(1, second));
    PendingOpsSnoc([], Batch(0, first));
    assert [] + [Batch(0, first)] == [Batch(0, first)];
    SetWrites(id, f, v);
    SetWrites(id, f, w);
    LastWriteConcat(first, second, id, f);
    RegAfter(confirmed, first + second, id, f);
    RegAfter(ApplyOps(confirmed, second), first, id, f);
  }

  lemma ThenMine(first: seq<Op>, second: seq<Op>)
    ensures
      var s := Run(AfterReopened(1, first), [Change(0, second), Take(0)]);
      && |s.apps| == 1 && s.log == [Entry(0, 0, first), Entry(0, 1, second)] && s.apps[0].seen == 1
      && s.apps[0].board == Board(ApplyOps(map[], first), [Batch(0, first)] + [Batch(1, second)])
  {
    var s := AfterReopened(1, first);
    var t := Next(s, Change(0, second));
    assert t.apps[0].outgoing == [Batch(1, second)];
    RunTwo(s, Change(0, second), Take(0));
    assert Next(t, Take(0)).log == [Entry(0, 0, first), Entry(0, 1, second)];
  }

  lemma SecondFlipsBack(s: System, confirmed: Objects, id: Id, f: Field, v: Value, w: Value)
    requires |s.apps| == 1 && s.log == [Entry(0, 0, Set(id, f, v)), Entry(0, 1, Set(id, f, w))]
    requires s.apps[0].seen == 1
    requires s.apps[0].board == Board(confirmed, [Batch(0, Set(id, f, v))] + [Batch(1, Set(id, f, w))])
    ensures OwnNext(s, 0) && Reg(Show(s.apps[0].board), id, f) == Some(w)
    ensures Reg(Show(Next(s, Deliver(0)).apps[0].board), id, f) == Some(v)
  {
    assert s.apps[0].board.pending[1].cid == 1;
    SecondOvertakes(confirmed, id, f, v, w);
  }

  /** One's own next change of the register shows, and flips back when it comes. */
  lemma ReopeningFlipsBack(id: Id, f: Field, v: Value, w: Value)
    ensures
      var s := Run(Init(1), Reopened(Set(id, f, v)) + [Change(0, Set(id, f, w)), Take(0)]);
      && OwnNext(s, 0)
      && Reg(Show(s.apps[0].board), id, f) == Some(w) && Reg(Show(Next(s, Deliver(0)).apps[0].board), id, f) == Some(v)
  {
    var first, second := Set(id, f, v), Set(id, f, w);
    ReopenedIs(1, first);
    RunConcat(Init(1), Reopened(first), [Change(0, second), Take(0)]);
    ThenMine(first, second);
    SecondFlipsBack(Run(AfterReopened(1, first), [Change(0, second), Take(0)]), ApplyOps(map[], first), id, f, v, w);
  }
}
