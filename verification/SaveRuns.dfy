/** What runs of streamed saves come to: a finished file is what was written, and nothing else is left behind. */
module SaveRuns {
  import opened Common
  import opened SaveStreams

  function After(dir: map<Name, File>, events: seq<Event>, n: nat): State
    requires n <= |events|
  {
    Run(State([], dir), events[..n])
  }

  lemma AfterOneMore(dir: map<Name, File>, events: seq<Event>, n: nat)
    requires n < |events|
    ensures
      var s, e := After(dir, events, n), events[n];
      After(dir, events, n + 1) == if Enabled(s, e) then Next(s, e) else s
  {
    var s, e := After(dir, events, n), events[n];
    assert events[..n + 1] == events[..n] + [e];
    RunConcat(State([], dir), events[..n], [e]);
    assert Run(s, [e]) == if Enabled(s, e) then Next(s, e) else s;
  }

  // ---- what a page gave a save, told by the events ----

  /** The event at `b` begins the save `id`. */
  predicate Begins(dir: map<Name, File>, events: seq<Event>, b: nat, id: nat) {
    && b < |events| && events[b].Begin?
    && |After(dir, events, b).saves| == id && |After(dir, events, b + 1).saves| == id + 1
  }

  /** The event at `j` finishes or aborts it: a call of its page, or a failed write. */
  predicate Ends(dir: map<Name, File>, events: seq<Event>, b: nat, id: nat, j: nat)
    requires b < |events| && events[b].Begin?
  {
    && b < j < |events|
    && (events[j] == FinishCall(id, events[b].page)
        || events[j] == AbortCall(id, events[b].page)
        || (events[j] == FailedAbort(id) && Enabled(After(dir, events, j), events[j])))
  }

  predicate EndedBefore(dir: map<Name, File>, events: seq<Event>, b: nat, id: nat, n: nat)
    requires b < |events| && events[b].Begin?
  {
    exists j :: 0 <= j < n && Ends(dir, events, b, id, j)
  }

  lemma EndedOneMore(dir: map<Name, File>, events: seq<Event>, b: nat, id: nat, n: nat)
    requires b < |events| && events[b].Begin?
    ensures EndedBefore(dir, events, b, id, n + 1)
            <==> EndedBefore(dir, events, b, id, n) || Ends(dir, events, b, id, n)
  {}

  /** The event at `k` writes to it: its page gives it bytes, not too many at once, before anything ends it. */
  predicate Writes(dir: map<Name, File>, events: seq<Event>, b: nat, id: nat, k: nat)
    requires b < |events| && events[b].Begin?
  {
    && b < k < |events| && events[k].WriteCall? && events[k].id == id && events[k].page == events[b].page
    && events[k].data.Some? && |events[k].data.value| <= 16 * 1024 * 1024
    && !EndedBefore(dir, events, b, id, k)
  }

  /** The bytes given by the first `n` events, call by call. */
  function Given(dir: map<Name, File>, events: seq<Event>, b: nat, id: nat, n: nat): seq<Bytes>
    requires b < |events| && events[b].Begin? && n <= |events|
  {
    if n == 0 then []
    else
      Given(dir, events, b, id, n - 1)
      + if Writes(dir, events, b, id, n - 1) then [events[n - 1].data.value] else []
  }

  lemma {:induction false} NothingGivenYet(dir: map<Name, File>, events: seq<Event>, b: nat, id: nat, n: nat)
    requires b < |events| && events[b].Begin? && n <= b + 1
    ensures Given(dir, events, b, id, n) == []
  {
    if n > 0 { NothingGivenYet(dir, events, b, id, n - 1); }
  }

  /** The target's name with an ending, and a random part before it in the second name. */
  function ItsPartName(e: Event): Name
    requires e.Begin?
  {
    e.target + (if e.tag.Some? then "." + e.tag.value else "") + ".iskra-part"
  }

  /** The save after `n` events is the one begun at `b`, and has taken exactly what was given. */
  ghost predicate TookWhatWasGiven(dir: map<Name, File>, events: seq<Event>, b: nat, id: nat, n: nat)
    requires b < |events| && events[b].Begin? && n <= |events|
  {
    var s := After(dir, events, n);
    && id < |s.saves| && s.saves[id].owner == events[b].page
    && s.saves[id].target == events[b].target && s.saves[id].temp == ItsPartName(events[b])
    && s.saves[id].accepted == Given(dir, events, b, id, n)
    && (s.saves[id].done <==> EndedBefore(dir, events, b, id, n))
  }

  lemma {:induction false} SavesOkAfter(dir: map<Name, File>, events: seq<Event>, n: nat)
    requires n <= |events|
    ensures SavesOk(After(dir, events, n))
  {
    RunSavesOk(State([], dir), events[..n]);
  }

  lemma OneMoreGiven(dir: map<Name, File>, events: seq<Event>, b: nat, id: nat, n: nat)
    requires b < n < |events| && events[b].Begin? && TookWhatWasGiven(dir, events, b, id, n)
    ensures TookWhatWasGiven(dir, events, b, id, n + 1)
  {
    var s, e := After(dir, events, n), events[n];
    AfterOneMore(dir, events, n);
    SavesOkAfter(dir, events, n);
    assert SaveOk(s.saves[id]);
    if Enabled(s, e) && (e.Begin? || e.id != id) { OthersStay(s, e, id); }
    EndedOneMore(dir, events, b, id, n);
  }

  lemma PartNameIs(e: Event)
    requires e.Begin?
    ensures PartName(e.target, e.tag) == ItsPartName(e)
  {
    assert e.target + "" == e.target;
  }

  lemma NothingTakenYet(dir: map<Name, File>, events: seq<Event>, b: nat, id: nat)
    requires Begins(dir, events, b, id)
    ensures TookWhatWasGiven(dir, events, b, id, b + 1)
  {
    AfterOneMore(dir, events, b);
    NothingGivenYet(dir, events, b, id, b + 1);
    PartNameIs(events[b]);
    assert !EndedBefore(dir, events, b, id, b + 1);
  }

  /** In every run: what a save took is what its page gave it from its begin to its end, in call order. */
  lemma {:induction false} TakesWhatIsGiven(dir: map<Name, File>, events: seq<Event>, b: nat, id: nat, n: nat)
    requires Begins(dir, events, b, id) && b < n <= |events|
    ensures TookWhatWasGiven(dir, events, b, id, n)
  {
    if n == b + 1 {
      NothingTakenYet(dir, events, b, id);
    } else {
      TakesWhatIsGiven(dir, events, b, id, n - 1);
      OneMoreGiven(dir, events, b, id, n - 1);
    }
  }

  lemma OneAtATime(s: State, e: Event)
    requires Enabled(s, e)
    ensures |Next(s, e).saves| == |s.saves| || (e.Begin? && |Next(s, e).saves| == |s.saves| + 1)
  {}

  /** Every save was begun by some event. */
  lemma {:induction false} WasBegun(dir: map<Name, File>, events: seq<Event>, id: nat, n: nat) returns (b: nat)
    requires n <= |events| && id < |After(dir, events, n).saves|
    ensures b < n && Begins(dir, events, b, id)
  {
    var s, e := After(dir, events, n - 1), events[n - 1];
    AfterOneMore(dir, events, n - 1);
    if Enabled(s, e) { OneAtATime(s, e); }
    if id < |s.saves| { b := WasBegun(dir, events, id, n - 1); } else { b := n - 1; }
  }

  /** A write of the save failed. */
  predicate FailsAt(dir: map<Name, File>, events: seq<Event>, id: nat, j: nat) {
    && j < |events| && events[j].WriteDone? && events[j].id == id && !events[j].ok
    && Enabled(After(dir, events, j), events[j])
  }

  ghost predicate FailedBefore(dir: map<Name, File>, events: seq<Event>, id: nat, n: nat) {
    exists j :: 0 <= j < n && FailsAt(dir, events, id, j)
  }

  lemma FailedStep(s: State, e: Event, id: nat)
    requires Enabled(s, e) && id < |s.saves|
    ensures id < |Next(s, e).saves|
    ensures
      var save, next := s.saves[id], Next(s, e).saves[id];
      var fails := e.WriteDone? && e.id == id && !e.ok;
      && (next.failed <==> save.failed || fails)
      && next.failures ==
           save.failures + (if fails then 1 else 0) - (if e == FailedAbort(id) then 1 else 0)
  {
    if e.Begin? || e.id != id { OthersStay(s, e, id); }
  }

  lemma FailedOneMore(dir: map<Name, File>, events: seq<Event>, id: nat, n: nat)
    requires n < |events| && id < |After(dir, events, n).saves|
    requires After(dir, events, n).saves[id].failed <==> FailedBefore(dir, events, id, n)
    ensures id < |After(dir, events, n + 1).saves|
    ensures After(dir, events, n + 1).saves[id].failed <==> FailedBefore(dir, events, id, n + 1)
  {
    var s, e := After(dir, events, n), events[n];
    AfterOneMore(dir, events, n);
    if Enabled(s, e) {
      OneAtATime(s, e);
      FailedStep(s, e, id);
    }
    assert FailedBefore(dir, events, id, n + 1) <==> FailedBefore(dir, events, id, n) || FailsAt(dir, events, id, n);
  }

  lemma NewNotFailed(dir: map<Name, File>, events: seq<Event>, id: nat, n: nat)
    requires n < |events| && |After(dir, events, n).saves| <= id < |After(dir, events, n + 1).saves|
    ensures !After(dir, events, n + 1).saves[id].failed && !FailsAt(dir, events, id, n)
  {
    AfterOneMore(dir, events, n);
    OneAtATime(After(dir, events, n), events[n]);
  }

  lemma {:induction false} NoneFailedYet(dir: map<Name, File>, events: seq<Event>, id: nat, n: nat)
    requires n <= |events| && id >= |After(dir, events, n).saves|
    ensures !FailedBefore(dir, events, id, n)
  {
    if n > 0 {
      AfterOneMore(dir, events, n - 1);
      if Enabled(After(dir, events, n - 1), events[n - 1]) { OneAtATime(After(dir, events, n - 1), events[n - 1]); }
      NoneFailedYet(dir, events, id, n - 1);
    }
  }

  /** In every run: a save counts as failed exactly when one of its writes did. */
  lemma {:induction false} FailedIff(dir: map<Name, File>, events: seq<Event>, id: nat, n: nat)
    requires n <= |events| && id < |After(dir, events, n).saves|
    ensures After(dir, events, n).saves[id].failed <==> FailedBefore(dir, events, id, n)
  {
    if id < |After(dir, events, n - 1).saves| {
      FailedIff(dir, events, id, n - 1);
      FailedOneMore(dir, events, id, n - 1);
    } else {
      NoneFailedYet(dir, events, id, n - 1);
      NewNotFailed(dir, events, id, n - 1);
    }
  }

  /** How many writes failed, less the calls of `abort` that came of it. */
  function StillToAbort(dir: map<Name, File>, events: seq<Event>, id: nat, n: nat): int
    requires n <= |events|
  {
    if n == 0 then 0
    else
      StillToAbort(dir, events, id, n - 1)
      + (if FailsAt(dir, events, id, n - 1) then 1 else 0)
      - (if events[n - 1] == FailedAbort(id) && Enabled(After(dir, events, n - 1), events[n - 1]) then 1 else 0)
  }

  lemma {:induction false} NoneToAbortYet(dir: map<Name, File>, events: seq<Event>, id: nat, n: nat)
    requires n <= |events| && id >= |After(dir, events, n).saves|
    ensures StillToAbort(dir, events, id, n) == 0
  {
    if n > 0 {
      AfterOneMore(dir, events, n - 1);
      if Enabled(After(dir, events, n - 1), events[n - 1]) { OneAtATime(After(dir, events, n - 1), events[n - 1]); }
      NoneToAbortYet(dir, events, id, n - 1);
    }
  }

  /** In every run: each failed write calls `abort` once, and nothing else does so by itself. */
  lemma {:induction false} FailuresAbort(dir: map<Name, File>, events: seq<Event>, id: nat, n: nat)
    requires n <= |events| && id < |After(dir, events, n).saves|
    ensures After(dir, events, n).saves[id].failures == StillToAbort(dir, events, id, n)
  {
    var s, e := After(dir, events, n - 1), events[n - 1];
    AfterOneMore(dir, events, n - 1);
    if id < |s.saves| {
      FailuresAbort(dir, events, id, n - 1);
      if Enabled(s, e) { FailedStep(s, e, id); }
    } else {
      NoneToAbortYet(dir, events, id, n - 1);
      NewAborts(s, e, id);
    }
  }

  lemma NewAborts(s: State, e: Event, id: nat)
    requires Enabled(s, e) && |s.saves| <= id < |Next(s, e).saves|
    ensures Next(s, e).saves[id].failures == 0 && e.Begin?
  {
    OneAtATime(s, e);
  }

  /**
   * In every run at all: `finish` answers true only for a save none of whose writes failed and whose part file held
   * exactly what was given to it, in call order; and a save that ended, or with a write that failed, is no longer in
   * the map.
   */
  lemma FinishedIsComplete(dir: map<Name, File>, events: seq<Event>, b: nat, id: nat)
    requires Begins(dir, events, b, id)
    ensures
      var n, s := |events|, Run(State([], dir), events);
      && id < |s.saves|
      && var save := s.saves[id];
         && (save.finish == Finished(true) ==>
               && !FailedBefore(dir, events, id, n) && save.queue == []
               && save.bytes == Flatten(Given(dir, events, b, id, n)))
         && (save.finish.Finished? || save.abort.Aborted? || (save.failed && save.failures == 0) ==> !save.listed)
  {
    var n := |events|;
    assert events[..n] == events;
    TakesWhatIsGiven(dir, events, b, id, n);
    FailedIff(dir, events, id, n);
    SavesOkAfter(dir, events, n);
    assert SaveOk(After(dir, events, n).saves[id]);
  }

  // ---- what the names hold ----

  predicate NoParts(dir: map<Name, File>) {
    forall n :: n in dir ==> dir[n].Other?
  }

  /** The file of the save begun at `b` is where it should be: under its part name, or complete under its target. */
  ghost predicate PartOrComplete(dir: map<Name, File>, events: seq<Event>, b: nat, id: nat, name: Name)
    requires Begins(dir, events, b, id) && id < |Run(State([], dir), events).saves|
  {
    var save := Run(State([], dir), events).saves[id];
    || name == ItsPartName(events[b])
    || (name == events[b].target && save.finish == Finished(true)
        && save.bytes == Flatten(Given(dir, events, b, id, |events|)))
  }

  /**
   * However writes, failing writes, finishes and aborts interleave: outside the part names, a save's file appears only
   * under its target, after its finish answered true, holding exactly what was given to it in call order.
   */
  lemma OnlyCompleteFiles(dir: map<Name, File>, events: seq<Event>, name: Name, id: nat) returns (b: nat)
    requires NoParts(dir) && CleanRun(State([], dir), events)
    requires Lookup(Run(State([], dir), events).dir, name) == Some(Part(id))
    ensures Begins(dir, events, b, id) && id < |Run(State([], dir), events).saves|
    ensures PartOrComplete(dir, events, b, id, name)
  {
    RunNames(State([], dir), events);
    var n, s := |events|, Run(State([], dir), events);
    assert events[..n] == events;
    assert Named(s, name);
    b := WasBegun(dir, events, id, n);
    TakesWhatIsGiven(dir, events, b, id, n);
    FinishedIsComplete(dir, events, b, id);
  }

  // ---- what is left behind ----

  /** No name holds the save's file. */
  ghost predicate NoFile(s: State, id: nat) {
    forall n :: n in s.dir ==> s.dir[n] != Part(id)
  }

  /** It ended without a finish that answered true. */
  predicate GaveUp(save: Save) {
    save.finish != Finished(true) && (save.finish.Finished? || save.abort.Aborted?)
  }

  /** A removal of a part file that does not go wrong, if the event is one. */
  predicate RemovalWorks(s: State, e: Event) {
    && (e.FinishStep? && e.id < |s.saves| && s.saves[e.id].finish.CleanRemoving? ==> e.ok)
    && (e.AbortStep? && e.id < |s.saves| && s.saves[e.id].abort.Removing? ==> e.ok)
  }

  predicate RemovalsWork(s: State, events: seq<Event>)
    decreases |events|
  {
    events == [] || (
      && RemovalWorks(s, events[0])
      && RemovalsWork(if Enabled(s, events[0]) then Next(s, events[0]) else s, events[1..]))
  }

  ghost predicate Tidy(s: State) {
    forall id :: 0 <= id < |s.saves| && GaveUp(s.saves[id]) ==> NoFile(s, id)
  }

  lemma NoFileStays(s: State, e: Event, id: nat)
    requires Enabled(s, e) && id < |s.saves| && NoFile(s, id)
    ensures NoFile(Next(s, e), id)
  {}

  lemma RemovedForGood(s: State, e: Event, id: nat)
    requires NamesOk(s) && SavesOk(s) && Enabled(s, e) && RemovalWorks(s, e) && id < |s.saves|
    requires !GaveUp(s.saves[id]) && GaveUp(Next(s, e).saves[id])
    ensures NoFile(Next(s, e), id)
  {
    var t := Next(s, e);
    forall n | n in t.dir ensures t.dir[n] != Part(id) {
      if n in s.dir { assert Named(s, n); }
    }
  }

  lemma NextTidy(s: State, e: Event)
    requires NamesOk(s) && SavesOk(s) && Enabled(s, e) && RemovalWorks(s, e) && Tidy(s)
    ensures Tidy(Next(s, e))
  {
    var t := Next(s, e);
    forall id | 0 <= id < |t.saves| && GaveUp(t.saves[id]) ensures NoFile(t, id) {
      if id < |s.saves| {
        if GaveUp(s.saves[id]) { NoFileStays(s, e, id); } else { RemovedForGood(s, e, id); }
      }
    }
  }

  lemma {:induction false} RunTidy(s: State, events: seq<Event>)
    requires NamesOk(s) && SavesOk(s) && CleanRun(s, events) && RemovalsWork(s, events) && Tidy(s)
    ensures Tidy(Run(s, events))
    decreases |events|
  {
    if events != [] {
      var e := events[0];
      if Enabled(s, e) {
        NextNames(s, e);
        NextSavesOk(s, e);
        NextTidy(s, e);
      }
      RunTidy(if Enabled(s, e) then Next(s, e) else s, events[1..]);
    }
  }

  /** In a clean run, while removing works: a save that is over and did not finish has left no file under any name. */
  lemma NothingLeftBehind(dir: map<Name, File>, events: seq<Event>, id: nat)
    requires NoParts(dir) && CleanRun(State([], dir), events) && RemovalsWork(State([], dir), events)
    requires id < |Run(State([], dir), events).saves|
    ensures
      var s := Run(State([], dir), events);
      Settled(s.saves[id]) && s.saves[id].finish != Finished(true) ==> NoFile(s, id)
  {
    RunTidy(State([], dir), events);
    RunSavesOk(State([], dir), events);
    assert SaveOk(Run(State([], dir), events).saves[id]);
  }

  // ---- every save comes to an end ----

  /** Something a save does by itself, once its page has called. */
  predicate OwnStep(e: Event) {
    e.WriteDone? || e.FailedAbort? || e.FinishStep? || e.AbortStep?
  }

  function FinishLeft(finish: Finish): nat {
    match finish
    case NotFinishing => 0
    case WaitingForWrites => 5
    case Closing => 4
    case Renaming => 3
    case CleanClosing => 2
    case CleanRemoving => 1
    case Finished(_) => 0
  }

  function AbortLeft(abort: Abort): nat {
    match abort
    case NotAborting => 4
    case Draining => 3
    case AbortClosing => 2
    case Removing => 1
    case Aborted => 0
  }

  /** More than the own steps it can still take. */
  function Left(save: Save): nat {
    2 * |save.queue| + save.failures + FinishLeft(save.finish) + AbortLeft(save.abort)
  }

  /** Every step of its own brings a save nearer to its end, whatever else goes on: none can go on for ever. */
  lemma OwnStepsEnd(s: State, e: Event)
    requires SavesOk(s) && Enabled(s, e) && OwnStep(e)
    ensures e.id < |s.saves| && Left(Next(s, e).saves[e.id]) < Left(s.saves[e.id])
  {
    assert SaveOk(s.saves[e.id]);
  }

  /** Steps of other saves do not set it back. */
  lemma OthersDoNotDelay(s: State, e: Event, id: nat)
    requires SavesOk(s) && Enabled(s, e) && OwnStep(e) && id < |s.saves| && e.id != id
    ensures Next(s, e).saves[id] == s.saves[id]
  {}

  /** Exact: a save its page has finished or aborted is settled, all writes over, when it has no step left to take. */
  lemma SettledIff(s: State, id: nat)
    requires SavesOk(s) && id < |s.saves| && s.saves[id].done
    ensures (forall e :: OwnStep(e) && e.id == id ==> !Enabled(s, e))
            <==> Settled(s.saves[id]) && s.saves[id].queue == [] && s.saves[id].failures == 0
  {
    var save := s.saves[id];
    assert SaveOk(save);
    if forall e :: OwnStep(e) && e.id == id ==> !Enabled(s, e) {
      assert !Enabled(s, WriteDone(id, true, 0)) && !Enabled(s, FailedAbort(id));
      assert !Enabled(s, FinishStep(id, true)) && !Enabled(s, AbortStep(id, true));
    }
  }

  // ---- writes end in the order they were made ----

  /** How many writes of the save have ended. */
  function Over(dir: map<Name, File>, events: seq<Event>, id: nat, n: nat): nat
    requires n <= |events|
  {
    if n == 0 then 0
    else
      var e := events[n - 1];
      Over(dir, events, id, n - 1)
      + if e.WriteDone? && e.id == id && Enabled(After(dir, events, n - 1), e) then 1 else 0
  }

  function Datas(queue: seq<Write>): seq<Bytes> {
    seq(|queue|, k requires 0 <= k < |queue| => queue[k].data)
  }

  lemma AcceptDatas(save: Save, data: Bytes)
    ensures Datas(Accept(save, data).queue) == Datas(save.queue) + [data]
  {}

  lemma EndDatas(save: Save, ok: bool, kept: nat)
    requires save.queue != [] && (!ok ==> kept <= |save.queue[0].data|)
    ensures Datas(EndWrite(save, ok, kept).queue) == Datas(save.queue)[1..]
  {}

  lemma QueueStep(s: State, e: Event, id: nat)
    requires Enabled(s, e) && id < |s.saves|
    ensures
      var save, next := s.saves[id], Next(s, e).saves[id];
      if e.WriteDone? && e.id == id
      then save.queue != [] && Datas(next.queue) == Datas(save.queue)[1..] && next.accepted == save.accepted
      else exists more :: Datas(next.queue) == Datas(save.queue) + more && next.accepted == save.accepted + more
  {
    var save, next := s.saves[id], Next(s, e).saves[id];
    if e.WriteDone? && e.id == id {
      EndDatas(save, e.ok, e.kept);
    } else if e.WriteCall? && e.id == id && next != save {
      AcceptDatas(save, e.data.value);
    } else {
      assert next.queue == save.queue && next.accepted == save.accepted;
      assert Datas(save.queue) + [] == Datas(save.queue) && save.accepted + [] == save.accepted;
    }
  }

  /** The writes that have not ended are all taken but the first `over`. */
  ghost predicate NewestQueued(save: Save, over: nat) {
    over <= |save.accepted| && Datas(save.queue) == save.accepted[over..]
  }

  lemma StepQueued(s: State, e: Event, id: nat, over: nat)
    requires Enabled(s, e) && id < |s.saves| && NewestQueued(s.saves[id], over)
    ensures NewestQueued(Next(s, e).saves[id], over + if e.WriteDone? && e.id == id then 1 else 0)
  {
    var save, next := s.saves[id], Next(s, e).saves[id];
    QueueStep(s, e, id);
    if e.WriteDone? && e.id == id {
      assert |Datas(save.queue)| == |save.queue|;
      assert save.accepted[over..][1..] == save.accepted[over + 1..];
    } else {
      var more :| Datas(next.queue) == Datas(save.queue) + more && next.accepted == save.accepted + more;
      assert (save.accepted + more)[over..] == save.accepted[over..] + more;
    }
  }

  /** In every run: what has not ended are the newest writes taken, in call order. */
  lemma {:induction false} WritesEndInOrder(dir: map<Name, File>, events: seq<Event>, id: nat, n: nat)
    requires n <= |events| && id < |After(dir, events, n).saves|
    ensures
      NewestQueued(After(dir, events, n).saves[id], Over(dir, events, id, n))
  {
    if n > 0 {
      var s, e := After(dir, events, n - 1), events[n - 1];
      AfterOneMore(dir, events, n - 1);
      if id < |s.saves| {
        WritesEndInOrder(dir, events, id, n - 1);
        if Enabled(s, e) { StepQueued(s, e, id, Over(dir, events, id, n - 1)); }
      } else {
        NothingOver(dir, events, id, n - 1);
        NewQueued(s, e, id);
      }
    }
  }

  lemma NewQueued(s: State, e: Event, id: nat)
    requires Enabled(s, e) && |s.saves| <= id < |Next(s, e).saves|
    ensures NewestQueued(Next(s, e).saves[id], 0) && !e.WriteDone?
  {
    OneAtATime(s, e);
    assert Next(s, e).saves[id].queue == [] && Next(s, e).saves[id].accepted == [];
  }

  lemma {:induction false} NothingOver(dir: map<Name, File>, events: seq<Event>, id: nat, n: nat)
    requires n <= |events| && id >= |After(dir, events, n).saves|
    ensures Over(dir, events, id, n) == 0
  {
    if n > 0 {
      AfterOneMore(dir, events, n - 1);
      if Enabled(After(dir, events, n - 1), events[n - 1]) { OneAtATime(After(dir, events, n - 1), events[n - 1]); }
      NothingOver(dir, events, id, n - 1);
    }
  }
}
