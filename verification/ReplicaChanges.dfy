/** What becomes of the changes an app makes: the server has each, as it was made and in order, or refused it. */
module ReplicaChanges {
  import opened Common
  import opened BoardOps
  import opened BoardStates
  import opened Replicas

  /** The changes app `i` makes, one after the other: their places are their batch ids. */
  function Made(events: seq<Event>, i: nat): seq<seq<Op>> {
    if events == [] then []
    else
      var e := events[|events| - 1];
      Made(events[..|events| - 1], i) + if e.Change? && e.i == i then [e.ops] else []
  }

  /** App `i` heard, before the end of the run, that the batch was not taken. */
  ghost predicate WasRefused(n: nat, events: seq<Event>, i: nat, c: nat) {
    exists j :: 0 <= j < |events| && RefusedAt(n, events, i, c, j)
  }

  ghost predicate RefusedAt(n: nat, events: seq<Event>, i: nat, c: nat, j: nat)
    requires j < |events|
  {
    var s := Run(Init(n), events[..j]);
    events[j] == Refused(i) && Enabled(s, events[j]) && s.apps[i].outgoing[0].cid == c
  }

  lemma RefusedOneMore(n: nat, events: seq<Event>, e: Event, i: nat, c: nat)
    ensures
      var s := Run(Init(n), events);
      WasRefused(n, events + [e], i, c)
      <==> WasRefused(n, events, i, c) || (e == Refused(i) && Enabled(s, e) && s.apps[i].outgoing[0].cid == c)
  {
    var more := events + [e];
    assert forall j :: 0 <= j < |events| ==> more[..j] == events[..j] && more[j] == events[j];
    assert more[..|events|] == events;
    if WasRefused(n, events, i, c) {
      var j :| 0 <= j < |events| && RefusedAt(n, events, i, c, j);
      assert RefusedAt(n, more, i, c, j);
    }
    if e == Refused(i) && Enabled(Run(Init(n), events), e) && Run(Init(n), events).apps[i].outgoing[0].cid == c {
      assert RefusedAt(n, more, i, c, |events|);
    }
    if WasRefused(n, more, i, c) {
      var j :| 0 <= j < |more| && RefusedAt(n, more, i, c, j);
      assert j < |events| ==> RefusedAt(n, events, i, c, j);
    }
  }

  /** What is queued, and what the server has of the app, are changes it made, as it made them. */
  ghost predicate AsMade(log: seq<Entry>, a: App, i: nat, made: seq<seq<Op>>) {
    && a.issued == |made|
    && (forall b :: b in a.outgoing ==> b.cid < |made| && b.ops == made[b.cid])
    && (forall k :: 0 <= k < |log| && log[k].from == i ==> log[k].cid < |made| && log[k].ops == made[log[k].cid])
  }

  /** Each change is queued, or the server has it, or refused it. */
  ghost predicate Accounted(log: seq<Entry>, a: App, i: nat, refused: nat -> bool) {
    forall c: nat :: c < a.issued ==> Holds(a.outgoing, c) || InLog(log, i, c, 0) || refused(c)
  }

  /** The server has no change before it has every older one, but for refused ones. */
  ghost predicate InTurn(log: seq<Entry>, i: nat, refused: nat -> bool) {
    forall k, c: nat :: 0 <= k < |log| && log[k].from == i && c < log[k].cid ==>
      InLog(log[..k], i, c, 0) || refused(c)
  }

  ghost function RefusedIds(n: nat, events: seq<Event>, i: nat): nat -> bool {
    (c: nat) => WasRefused(n, events, i, c)
  }

  ghost predicate Ledger(n: nat, events: seq<Event>, i: nat) {
    var s := Run(Init(n), events);
    && Inv(s) && i < |s.apps|
    && AsMade(s.log, s.apps[i], i, Made(events, i))
    && Accounted(s.log, s.apps[i], i, RefusedIds(n, events, i))
    && InTurn(s.log, i, RefusedIds(n, events, i))
  }

  lemma RunSnoc(s: System, events: seq<Event>, e: Event)
    ensures
      var t := Run(s, events);
      Run(s, events + [e]) == if Enabled(t, e) then Next(t, e) else t
  {
    RunConcat(s, events, [e]);
  }

  lemma MadeSnoc(events: seq<Event>, e: Event, i: nat)
    ensures Made(events + [e], i) == Made(events, i) + if e.Change? && e.i == i then [e.ops] else []
  {
    assert (events + [e])[..|events|] == events;
  }

  // ---- one event ----

  lemma TakeAsMade(s: System, j: nat, i: nat, made: seq<seq<Op>>)
    requires Inv(s) && Enabled(s, Take(j)) && i < |s.apps| && AsMade(s.log, s.apps[i], i, made)
    ensures AsMade(Next(s, Take(j)).log, s.apps[i], i, made)
  {}

  lemma TakeAccounted(s: System, j: nat, i: nat, refused: nat -> bool)
    requires Inv(s) && Enabled(s, Take(j)) && i < |s.apps|
    requires Accounted(s.log, s.apps[i], i, refused) && InTurn(s.log, i, refused)
    ensures Accounted(Next(s, Take(j)).log, s.apps[i], i, refused) && InTurn(Next(s, Take(j)).log, i, refused)
  {
    var a, t := s.apps[i], Next(s, Take(j));
    assert AppOk(s.log, a, i) && AppOk(s.log, s.apps[j], j);
    forall c: nat | c < a.issued ensures Holds(a.outgoing, c) || InLog(t.log, i, c, 0) || refused(c) {
      InLogOneMore(s.log, t.log[|s.log|], i, c, 0);
    }
    forall k, c: nat | 0 <= k < |t.log| && t.log[k].from == i && c < t.log[k].cid
      ensures InLog(t.log[..k], i, c, 0) || refused(c)
    {
      assert t.log[..k] == s.log[..k];
      if k == |s.log| {
        assert s.log[..k] == s.log;
        assert !Holds(a.outgoing, c);
      }
    }
  }

  lemma OwnAsMade(s: System, e: Event, made: seq<seq<Op>>)
    requires Inv(s) && IsApps(e) && AppEnabled(s, e) && !e.Take? && AsMade(s.log, s.apps[e.i], e.i, made)
    ensures AsMade(s.log, AppNext(s, e), e.i, made + if e.Change? then [e.ops] else [])
  {}

  lemma OwnAccounted(s: System, e: Event, refused: nat -> bool, more: nat -> bool)
    requires Inv(s) && IsApps(e) && AppEnabled(s, e) && !e.Take? && Accounted(s.log, s.apps[e.i], e.i, refused)
    requires forall c: nat :: refused(c) || (e.Refused? && s.apps[e.i].outgoing[0].cid == c) ==> more(c)
    ensures Accounted(s.log, AppNext(s, e), e.i, more)
  {
    var a := s.apps[e.i];
    assert AppOk(s.log, a, e.i);
    forall c: nat | c < AppNext(s, e).issued
      ensures Holds(AppNext(s, e).outgoing, c) || InLog(s.log, e.i, c, 0) || more(c)
    {
      if e.Change? { HoldsOneMore(a.outgoing, Batch(a.issued, e.ops), c); }
      if e.Answered? || e.Refused? { HoldsTail(a.outgoing, a.issued, c); }
    }
  }

  lemma OwnLedger(s: System, e: Event, made: seq<seq<Op>>, refused: nat -> bool, more: nat -> bool)
    requires Inv(s) && IsApps(e) && AppEnabled(s, e) && !e.Take? && AsMade(s.log, s.apps[e.i], e.i, made)
    requires Accounted(s.log, s.apps[e.i], e.i, refused) && InTurn(s.log, e.i, refused)
    requires forall c: nat :: refused(c) || (e.Refused? && s.apps[e.i].outgoing[0].cid == c) ==> more(c)
    ensures
      var t := Next(s, e);
      && t.log == s.log && |t.apps| == |s.apps|
      && AsMade(t.log, t.apps[e.i], e.i, made + if e.Change? then [e.ops] else [])
      && Accounted(t.log, t.apps[e.i], e.i, more) && InTurn(t.log, e.i, more)
  {
    OwnAsMade(s, e, made);
    OwnAccounted(s, e, refused, more);
  }

  lemma Untouched(s: System, e: Event, i: nat)
    requires Enabled(s, e) && !e.Take? && (IsApps(e) ==> e.i != i) && i < |s.apps|
    ensures Next(s, e).log == s.log && |Next(s, e).apps| == |s.apps| && Next(s, e).apps[i] == s.apps[i]
  {}

  lemma LedgerOneMore(n: nat, events: seq<Event>, e: Event, i: nat)
    requires Ledger(n, events, i)
    ensures Ledger(n, events + [e], i)
  {
    var s, refused, more := Run(Init(n), events), RefusedIds(n, events, i), RefusedIds(n, events + [e], i);
    RunSnoc(Init(n), events, e);
    MadeSnoc(events, e, i);
    forall c: nat ensures more(c) <==>
      refused(c) || (e == Refused(i) && Enabled(s, e) && s.apps[i].outgoing[0].cid == c)
    {
      RefusedOneMore(n, events, e, i, c);
    }
    if Enabled(s, e) {
      NextKeeps(s, e);
      if e.Take? {
        TakeAsMade(s, e.i, i, Made(events, i));
        TakeAccounted(s, e.i, i, refused);
      } else if IsApps(e) && e.i == i {
        OwnLedger(s, e, Made(events, i), refused, more);
      } else {
        Untouched(s, e, i);
      }
    }
  }

  lemma {:induction false} LedgerHolds(n: nat, events: seq<Event>, i: nat)
    requires i < n
    ensures Ledger(n, events, i)
  {
    if events == [] {
      InitOk(n);
    } else {
      var front, e := events[..|events| - 1], events[|events| - 1];
      LedgerHolds(n, front, i);
      LedgerOneMore(n, front, e, i);
      assert front + [e] == events;
    }
  }

  /**
   * Over all runs: once an app's queue is empty, the server has each change it made or refused it; what the log holds
   * of the app are its changes as it made them, none before an older one that was not refused.
   */
  lemma ChangesReachTheLog(n: nat, events: seq<Event>, i: nat)
    requires i < n
    ensures i < |Run(Init(n), events).apps|
    ensures
      var s, made := Run(Init(n), events), Made(events, i);
      && (s.apps[i].outgoing == [] ==>
            forall c: nat :: c < |made| ==> InLog(s.log, i, c, 0) || WasRefused(n, events, i, c))
      && (forall k :: 0 <= k < |s.log| && s.log[k].from == i ==>
            s.log[k].cid < |made| && s.log[k].ops == made[s.log[k].cid])
      && (forall k, c: nat :: 0 <= k < |s.log| && s.log[k].from == i && c < s.log[k].cid ==>
            InLog(s.log[..k], i, c, 0) || WasRefused(n, events, i, c))
  {
    LedgerHolds(n, events, i);
    var s, refused := Run(Init(n), events), RefusedIds(n, events, i);
    assert forall c: nat :: refused(c) <==> WasRefused(n, events, i, c);
    if s.apps[i].outgoing == [] {
      forall c: nat | c < |Made(events, i)| ensures InLog(s.log, i, c, 0) || WasRefused(n, events, i, c) {
        assert !Holds(s.apps[i].outgoing, c);
      }
    }
  }

  // ---- what is queued ----

  /** How often app `i` heard that its first outgoing batch was taken, or that it was not. */
  function Heard(n: nat, events: seq<Event>, i: nat): nat {
    if events == [] then 0
    else
      var front, e := events[..|events| - 1], events[|events| - 1];
      Heard(n, front, i) + if (e == Answered(i) || e == Refused(i)) && Enabled(Run(Init(n), front), e) then 1 else 0
  }

  /** The changes not heard of, oldest first, under their places. */
  ghost predicate QueuedFrom(outgoing: seq<Batch>, made: seq<seq<Op>>, heard: nat) {
    && heard <= |made| && |outgoing| == |made| - heard
    && forall p :: 0 <= p < |outgoing| ==> outgoing[p] == Batch(heard + p, made[heard + p])
  }

  lemma QueueStep(s: System, e: Event, i: nat, made: seq<seq<Op>>, heard: nat)
    requires Enabled(s, e) && i < |s.apps| && QueuedFrom(s.apps[i].outgoing, made, heard) && s.apps[i].issued == |made|
    ensures |Next(s, e).apps| == |s.apps|
    ensures
      var more := made + if e.Change? && e.i == i then [e.ops] else [];
      QueuedFrom(Next(s, e).apps[i].outgoing, more, heard + if e == Answered(i) || e == Refused(i) then 1 else 0)
  {
    if e.Take? || !IsApps(e) || e.i != i { assert Next(s, e).apps[i] == s.apps[i]; }
  }

  /** In every run: an app's queue is the changes it made and has not heard of, in order. */
  lemma {:induction false} QueueIs(n: nat, events: seq<Event>, i: nat)
    requires i < n
    ensures i < |Run(Init(n), events).apps|
    ensures QueuedFrom(Run(Init(n), events).apps[i].outgoing, Made(events, i), Heard(n, events, i))
  {
    if events != [] {
      var front, e := events[..|events| - 1], events[|events| - 1];
      QueueIs(n, front, i);
      LedgerHolds(n, front, i);
      assert front + [e] == events;
      RunSnoc(Init(n), front, e);
      var s := Run(Init(n), front);
      if Enabled(s, e) {
        QueueStep(s, e, i, Made(front, i), Heard(n, front, i));
      } else {
        assert !(e.Change? && e.i == i);
        assert Made(front, i) + [] == Made(front, i);
      }
    }
  }

  /** Meanwhile each change shows at once. */
  lemma ChangeShowsAtOnce(s: System, i: nat, ops: seq<Op>)
    requires i < |s.apps|
    ensures Enabled(s, Change(i, ops))
    ensures Show(Next(s, Change(i, ops)).apps[i].board) == ApplyOps(Show(s.apps[i].board), ops)
  {
    var b := s.apps[i].board;
    PendingOpsSnoc(b.pending, Batch(s.apps[i].issued, ops));
    ApplyOpsConcat(b.confirmed, PendingOps(b.pending), ops);
  }

  // ---- nothing goes back ----

  /** Over every run an app's place in the log, and the server's log, only move on, whatever is loaded or fetched. */
  lemma {:induction false} NeverBack(s: System, events: seq<Event>, i: nat)
    requires i < |s.apps|
    ensures
      var t := Run(s, events);
      i < |t.apps| && s.apps[i].seen <= t.apps[i].seen && s.log <= t.log
    decreases |events|
  {
    if events != [] {
      if Enabled(s, events[0]) { StepNotBack(s, events[0], i); }
      NeverBack(if Enabled(s, events[0]) then Next(s, events[0]) else s, events[1..], i);
    }
  }

  lemma StepNotBack(s: System, e: Event, i: nat)
    requires Enabled(s, e) && i < |s.apps|
    ensures i < |Next(s, e).apps| && s.apps[i].seen <= Next(s, e).apps[i].seen && s.log <= Next(s, e).log
  {}

  /** The furthest place of the snapshots that reached the server, or that it made, during the run. */
  function NewestMade(s: System, events: seq<Event>): nat
    decreases |events|
  {
    if events == [] then 0
    else
      var e := events[0];
      var made :=
        if e.Arrive? && e.k < |s.uploads| then Last(s.uploads[e.k].cuts)
        else if e.Compact? && Last(s.snapshot.cuts) < |s.log| then |s.log|
        else 0;
      Further(made, NewestMade(if Enabled(s, e) then Next(s, e) else s, events[1..]))
  }

  function Further(a: nat, b: nat): nat { if a < b then b else a }

  /** Exact, over every run: the server's snapshot is the furthest one, in whatever order they come. */
  lemma {:induction false} KeepsTheFurthest(s: System, events: seq<Event>)
    ensures Last(Run(s, events).snapshot.cuts) == Further(Last(s.snapshot.cuts), NewestMade(s, events))
    decreases |events|
  {
    if events != [] {
      KeepsTheFurthest(if Enabled(s, events[0]) then Next(s, events[0]) else s, events[1..]);
    }
  }
}
