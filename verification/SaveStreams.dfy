/**
 * Files streamed to disk in pieces: writes queue up behind one another, and finish, abort and failing writes suspend at
 * every await, so their steps interleave in any order. The bytes go to a part file that a finish renames.
 */
module SaveStreams {
  import opened Common

  type Name = string
  type Bytes = seq<int>

  const MAX_WRITE := 16 * 1024 * 1024

  datatype Write = Write(at: nat, data: Bytes)

  /** Where a call of `finish` is suspended. */
  datatype Finish =
    NotFinishing | WaitingForWrites | Closing | Renaming | CleanClosing | CleanRemoving | Finished(ok: bool)

  /** Where the one call of `abort` that found the save is suspended. */
  datatype Abort = NotAborting | Draining | AbortClosing | Removing | Aborted

  /**
   * One save and its part file: `listed` while it is in the map, `queue` the chained writes not done yet, `bytes` what
   * the file holds, `failures` the failed writes about to call `abort`, `accepted` every write taken, in call order.
   */
  datatype Save = Save(
    owner: nat, target: Name, temp: Name, listed: bool, offset: nat, queue: seq<Write>, done: bool, failed: bool,
    bytes: Bytes, failures: nat, finish: Finish, abort: Abort, accepted: seq<Bytes>)

  /** A file of the save with this id, or someone else's. */
  datatype File = Part(save: nat) | Other(bytes: Bytes)

  /** Ids are random and never repeat: here they count up. */
  datatype State = State(saves: seq<Save>, dir: map<Name, File>)

  datatype Event =
    | Begin(target: Name, tag: Option<string>, page: nat)  // one try; `tag`: in the second name
    | WriteCall(id: nat, data: Option<Bytes>, page: nat)   // `None`: not bytes
    | WriteDone(id: nat, ok: bool, kept: nat)              // the oldest ends; failing may keep a prefix
    | FailedAbort(id: nat)                                 // a failed write calls `abort`
    | FinishCall(id: nat, page: nat)
    | FinishStep(id: nat, ok: bool)
    | AbortCall(id: nat, page: nat)
    | AbortStep(id: nat, ok: bool)

  /** Writing at an offset: a gap reads as zeros. */
  function WriteAt(bytes: Bytes, at: nat, data: Bytes): Bytes {
    if data == [] then bytes
    else
      var padded := if |bytes| < at then bytes + seq(at - |bytes|, _ => 0) else bytes;
      padded[..at] + data + (if at + |data| < |padded| then padded[at + |data|..] else [])
  }

  /** The data from its place on, what was there elsewhere, and zeros in between; writing nothing changes nothing. */
  lemma WriteAtIs(bytes: Bytes, at: nat, data: Bytes, i: nat)
    ensures
      var after := WriteAt(bytes, at, data);
      && (data == [] ==> after == bytes)
      && (data != [] ==>
            && |after| == (if at + |data| > |bytes| then at + |data| else |bytes|)
            && (i < |after| ==>
                  after[i] == if at <= i < at + |data| then data[i - at] else if i < |bytes| then bytes[i] else 0))
  {}

  /** The two names `begin` tries: the plain one and, some time after it found that taken, a random one. */
  function PartName(target: Name, tag: Option<string>): Name {
    if tag.None? then target + ".iskra-part" else target + "." + tag.value + ".iskra-part"
  }

  /** The part file a try opens: a new one, or none when the name is taken. */
  function TempFor(dir: map<Name, File>, target: Name, tag: Option<string>): Option<Name> {
    if PartName(target, tag) in dir then None else Some(PartName(target, tag))
  }

  function NewSave(target: Name, temp: Name, owner: nat): Save {
    Save(owner, target, temp, true, 0, [], false, false, [], 0, NotFinishing, NotAborting, [])
  }

  predicate Found(s: State, id: nat, page: nat) {
    id < |s.saves| && s.saves[id].listed && s.saves[id].owner == page
  }

  predicate Enabled(s: State, e: Event) {
    match e
    case Begin(_, _, _) => true
    case WriteCall(_, _, _) => true
    case WriteDone(id, ok, kept) =>
      id < |s.saves| && s.saves[id].queue != [] && (!ok ==> kept <= |s.saves[id].queue[0].data|)
    case FailedAbort(id) => id < |s.saves| && s.saves[id].failures > 0
    case FinishCall(_, _) => true
    case FinishStep(id, _) =>
      id < |s.saves| && !s.saves[id].finish.NotFinishing? && !s.saves[id].finish.Finished?
      && (s.saves[id].finish.WaitingForWrites? ==> s.saves[id].queue == [])
    case AbortCall(_, _) => true
    case AbortStep(id, _) =>
      id < |s.saves| && !s.saves[id].abort.NotAborting? && !s.saves[id].abort.Aborted?
      && (s.saves[id].abort.Draining? ==> s.saves[id].queue == [])
  }

  function Set(s: State, id: nat, save: Save): State
    requires id < |s.saves|
  {
    s.(saves := s.saves[id := save])
  }

  function Accept(save: Save, data: Bytes): Save {
    save.(
      offset := save.offset + |data|,
      queue := save.queue + [Write(save.offset, data)],
      accepted := save.accepted + [data])
  }

  function EndWrite(save: Save, ok: bool, kept: nat): Save
    requires save.queue != [] && (!ok ==> kept <= |save.queue[0].data|)
  {
    var w := save.queue[0];
    if ok then save.(queue := save.queue[1..], bytes := WriteAt(save.bytes, w.at, w.data))
    else
      save.(queue := save.queue[1..], bytes := WriteAt(save.bytes, w.at, w.data[..kept]),
            failed := true, failures := save.failures + 1)
  }

  function StartAbort(save: Save): Save { save.(listed := false, done := true, abort := Draining) }

  function Moved(dir: map<Name, File>, from: Name, to: Name): map<Name, File>
    requires from in dir
  {
    (dir - {from})[to := dir[from]]
  }

  function FinishNext(s: State, id: nat, ok: bool): State
    requires Enabled(s, FinishStep(id, ok))
  {
    var save := s.saves[id];
    match save.finish
    case WaitingForWrites => Set(s, id, save.(listed := false, finish := if save.failed then CleanClosing else Closing))
    case Closing => Set(s, id, save.(finish := if ok then Renaming else CleanClosing))
    case Renaming =>
      if ok && save.temp in s.dir
      then Set(s, id, save.(finish := Finished(true))).(dir := Moved(s.dir, save.temp, save.target))
      else Set(s, id, save.(finish := CleanClosing))
    case CleanClosing => Set(s, id, save.(finish := CleanRemoving))
    case CleanRemoving =>
      Set(s, id, save.(finish := Finished(false))).(dir := if ok then s.dir - {save.temp} else s.dir)
    case _ => s
  }

  function AbortNext(s: State, id: nat, ok: bool): State
    requires Enabled(s, AbortStep(id, ok))
  {
    var save := s.saves[id];
    match save.abort
    case Draining => Set(s, id, save.(abort := AbortClosing))
    case AbortClosing => Set(s, id, save.(abort := Removing))
    case Removing => Set(s, id, save.(abort := Aborted)).(dir := if ok then s.dir - {save.temp} else s.dir)
    case _ => s
  }

  function Next(s: State, e: Event): State
    requires Enabled(s, e)
  {
    match e
    case Begin(target, tag, page) =>
      var temp := TempFor(s.dir, target, tag);
      if temp.None? then s
      else State(s.saves + [NewSave(target, temp.value, page)], s.dir[temp.value := Part(|s.saves|)])
    case WriteCall(id, data, page) =>
      if Found(s, id, page) && !s.saves[id].done && data.Some? && |data.value| <= MAX_WRITE
      then Set(s, id, Accept(s.saves[id], data.value)) else s
    case WriteDone(id, ok, kept) => Set(s, id, EndWrite(s.saves[id], ok, kept))
    case FailedAbort(id) =>
      var save := s.saves[id].(failures := s.saves[id].failures - 1);
      Set(s, id, if save.listed then StartAbort(save) else save)
    case FinishCall(id, page) =>
      if Found(s, id, page) && !s.saves[id].done
      then Set(s, id, s.saves[id].(done := true, finish := WaitingForWrites)) else s
    case FinishStep(id, ok) => FinishNext(s, id, ok)
    case AbortCall(id, page) => if Found(s, id, page) then Set(s, id, StartAbort(s.saves[id])) else s
    case AbortStep(id, ok) => AbortNext(s, id, ok)
  }

  /** Events that cannot happen are skipped. */
  function Run(s: State, events: seq<Event>): State
    decreases |events|
  {
    if events == [] then s
    else Run(if Enabled(s, events[0]) then Next(s, events[0]) else s, events[1..])
  }

  // ---- what holds of one save, in every run ----

  /** Each queued write goes right after the one before it. */
  predicate Contiguous(queue: seq<Write>, from: nat) {
    queue == [] || (queue[0].at == from && Contiguous(queue[1..], from + |queue[0].data|))
  }

  function Queued(queue: seq<Write>): Bytes {
    if queue == [] then [] else queue[0].data + Queued(queue[1..])
  }

  ghost predicate BytesOk(save: Save) {
    && save.offset == |Flatten(save.accepted)|
    && (!save.failed ==>
          && Contiguous(save.queue, |save.bytes|)
          && save.bytes + Queued(save.queue) == Flatten(save.accepted))
  }

  /** A save is settled once nothing of it is left to happen on disk. */
  predicate Settled(save: Save) {
    !save.listed && (save.finish.NotFinishing? || save.finish.Finished?)
      && (save.abort.NotAborting? || save.abort.Aborted?)
  }

  ghost predicate CallsOk(save: Save) {
    && (!save.finish.NotFinishing? || !save.abort.NotAborting? <==> save.done)
    && (save.finish.NotFinishing? && save.abort.NotAborting? ==> save.listed)
    && (!save.abort.NotAborting? ==> !save.listed)
    && (!save.finish.NotFinishing? && !save.finish.WaitingForWrites? ==> !save.listed && save.queue == [])
    && (save.abort.AbortClosing? || save.abort.Removing? || save.abort.Aborted? ==> save.queue == [])
    && (save.finish.Closing? || save.finish.Renaming? || save.finish == Finished(true) ==> !save.failed)
    && (save.failed && save.failures == 0 ==> !save.listed)
  }

  ghost predicate SaveOk(save: Save) {
    BytesOk(save) && CallsOk(save)
  }

  ghost predicate SavesOk(s: State) {
    forall i :: 0 <= i < |s.saves| ==> SaveOk(s.saves[i])
  }

  lemma {:induction false} QueueSnoc(queue: seq<Write>, from: nat, w: Write)
    requires Contiguous(queue, from) && w.at == from + |Queued(queue)|
    ensures Contiguous(queue + [w], from) && Queued(queue + [w]) == Queued(queue) + w.data
    decreases |queue|
  {
    if queue != [] {
      assert (queue + [w])[1..] == queue[1..] + [w];
      QueueSnoc(queue[1..], from + |queue[0].data|, w);
    }
  }

  lemma AcceptOk(save: Save, data: Bytes)
    requires SaveOk(save) && !save.done
    ensures SaveOk(Accept(save, data))
  {
    FlattenSnoc(save.accepted, data);
    if !save.failed { QueueSnoc(save.queue, |save.bytes|, Write(save.offset, data)); }
  }

  lemma EndWriteOk(save: Save, ok: bool, kept: nat)
    requires SaveOk(save) && save.queue != [] && (!ok ==> kept <= |save.queue[0].data|)
    ensures SaveOk(EndWrite(save, ok, kept))
  {
    var next := EndWrite(save, ok, kept);
    if ok && !save.failed {
      assert next.bytes == save.bytes + save.queue[0].data;
      assert next.bytes + Queued(next.queue) == save.bytes + Queued(save.queue);
    }
  }

  lemma FinishStepOk(s: State, id: nat, ok: bool)
    requires Enabled(s, FinishStep(id, ok)) && SaveOk(s.saves[id])
    ensures SaveOk(FinishNext(s, id, ok).saves[id])
  {}

  lemma AbortStepOk(s: State, id: nat, ok: bool)
    requires Enabled(s, AbortStep(id, ok)) && SaveOk(s.saves[id])
    ensures SaveOk(AbortNext(s, id, ok).saves[id])
  {}

  lemma CallOk(s: State, id: nat)
    requires id < |s.saves| && SaveOk(s.saves[id])
    ensures s.saves[id].listed ==> SaveOk(StartAbort(s.saves[id]))
    ensures !s.saves[id].done ==> SaveOk(s.saves[id].(done := true, finish := WaitingForWrites))
  {}

  lemma NextSaveOk(s: State, e: Event)
    requires Enabled(s, e) && !e.Begin? && e.id < |s.saves| && SaveOk(s.saves[e.id])
    ensures SaveOk(Next(s, e).saves[e.id])
  {
    match e
    case WriteCall(id, data, page) => if !s.saves[id].done && data.Some? { AcceptOk(s.saves[id], data.value); }
    case WriteDone(id, ok, kept) => EndWriteOk(s.saves[id], ok, kept);
    case FailedAbort(id) => assert s.saves[id].failures > 0;
    case FinishStep(id, ok) => FinishStepOk(s, id, ok);
    case AbortStep(id, ok) => AbortStepOk(s, id, ok);
    case FinishCall(id, _) => CallOk(s, id);
    case AbortCall(id, _) => CallOk(s, id);
    case Begin(_, _, _) =>
  }

  lemma OthersStay(s: State, e: Event, i: nat)
    requires Enabled(s, e) && i < |s.saves| && (!e.Begin? ==> i != e.id)
    ensures |Next(s, e).saves| == |s.saves| + (if e.Begin? && TempFor(s.dir, e.target, e.tag).Some? then 1 else 0)
    ensures Next(s, e).saves[i] == s.saves[i]
  {}

  lemma NextSavesOk(s: State, e: Event)
    requires SavesOk(s) && Enabled(s, e)
    ensures SavesOk(Next(s, e))
  {
    var t := Next(s, e);
    forall i | 0 <= i < |t.saves| ensures SaveOk(t.saves[i]) {
      if i < |s.saves| {
        assert SaveOk(s.saves[i]);
        if !e.Begin? && i == e.id { NextSaveOk(s, e); } else { OthersStay(s, e, i); }
      }
    }
  }

  lemma {:induction false} RunSavesOk(s: State, events: seq<Event>)
    requires SavesOk(s)
    ensures SavesOk(Run(s, events))
    decreases |events|
  {
    if events != [] {
      if Enabled(s, events[0]) { NextSavesOk(s, events[0]); }
      RunSavesOk(if Enabled(s, events[0]) then Next(s, events[0]) else s, events[1..]);
    }
  }

  // ---- what the names hold ----

  /** Its finish may still give the part file its target's name. */
  predicate MayRename(s: State, i: nat) {
    && i < |s.saves| && s.saves[i].temp in s.dir && !s.saves[i].failed
    && (s.saves[i].listed || s.saves[i].finish.Closing? || s.saves[i].finish.Renaming?
      || s.saves[i].finish.WaitingForWrites?)
  }

  /**
   * `begin` takes no name that another save may still touch: not the part name of an unsettled one (for its own part
   * file or its target), and not, for its part file, a target still to be taken.
   */
  predicate NamesFree(s: State, target: Name, temp: Name) {
    && (forall i :: 0 <= i < |s.saves| && !Settled(s.saves[i]) ==> temp != s.saves[i].temp && target != s.saves[i].temp)
    && (forall i :: 0 <= i < |s.saves| && MayRename(s, i) ==> temp != s.saves[i].target)
  }

  predicate Clean(s: State, e: Event) {
    e.Begin? && TempFor(s.dir, e.target, e.tag).Some? ==> NamesFree(s, e.target, TempFor(s.dir, e.target, e.tag).value)
  }

  predicate CleanRun(s: State, events: seq<Event>)
    decreases |events|
  {
    events == [] || (
      && (Enabled(s, events[0]) ==> Clean(s, events[0]))
      && CleanRun(if Enabled(s, events[0]) then Next(s, events[0]) else s, events[1..]))
  }

  /** A save's file bears its part name until the save's finish renamed it, and only its target's name after that. */
  ghost predicate Named(s: State, n: Name) {
    n in s.dir && s.dir[n].Part? ==>
      && s.dir[n].save < |s.saves|
      && var save := s.saves[s.dir[n].save];
         if save.finish == Finished(true) then n == save.target else n == save.temp
  }

  /** The names of two unsettled saves do not get in each other's way. */
  ghost predicate Apart(s: State, i: nat, j: nat) {
    i < |s.saves| && j < |s.saves| && i != j && !Settled(s.saves[i]) && !Settled(s.saves[j]) ==>
      s.saves[i].temp != s.saves[j].temp && (MayRename(s, j) ==> s.saves[i].temp != s.saves[j].target)
  }

  /** The part name of an unsettled save is its own file's, or nobody's. */
  ghost predicate OwnPart(s: State, i: nat) {
    i < |s.saves| ==>
      && s.saves[i].temp != s.saves[i].target
      && (!Settled(s.saves[i]) && s.saves[i].temp in s.dir
        ==> s.dir[s.saves[i].temp] == Part(i) && s.saves[i].finish != Finished(true))
  }

  ghost predicate NamesOk(s: State) {
    && (forall n :: n in s.dir ==> Named(s, n))
    && (forall i: nat, j: nat :: Apart(s, i, j))
    && (forall i: nat :: OwnPart(s, i))
  }

  lemma PartNamesDiffer(target: Name, tag: Option<string>)
    ensures PartName(target, tag) != target
  {
    assert |PartName(target, tag)| > |target|;
  }

  lemma BeginNames(s: State, target: Name, tag: Option<string>, page: nat)
    requires NamesOk(s) && SavesOk(s) && Clean(s, Begin(target, tag, page))
    ensures NamesOk(Next(s, Begin(target, tag, page)))
  {
    var temp := TempFor(s.dir, target, tag);
    if temp.Some? {
      PartNamesDiffer(target, tag);
      var t := Next(s, Begin(target, tag, page));
      forall n | n in t.dir ensures Named(t, n) {
        if n != temp.value { assert Named(s, n); }
      }
      forall i: nat, j: nat ensures Apart(t, i, j) {
        assert Apart(s, i, j);
        if i < |s.saves| { assert t.saves[i] == s.saves[i]; }
        if j < |s.saves| { assert t.saves[j] == s.saves[j]; }
      }
      forall i: nat ensures OwnPart(t, i) {
        assert OwnPart(s, i);
        if i < |s.saves| { assert t.saves[i] == s.saves[i]; }
      }
    }
  }

  /** A step that leaves the directory alone, of a save that keeps its names and does not come back to life. */
  lemma SameDirNames(s: State, id: nat, save: Save)
    requires NamesOk(s) && id < |s.saves|
    requires save.temp == s.saves[id].temp && save.target == s.saves[id].target
    requires Settled(s.saves[id]) ==> Settled(save)
    requires MayRename(Set(s, id, save), id) ==> MayRename(s, id)
    requires save.finish == Finished(true) <==> s.saves[id].finish == Finished(true)
    ensures NamesOk(Set(s, id, save))
  {
    var t := Set(s, id, save);
    forall n | n in t.dir ensures Named(t, n) { assert Named(s, n); }
    forall i: nat, j: nat ensures Apart(t, i, j) { assert Apart(s, i, j); }
    forall i: nat ensures OwnPart(t, i) { assert OwnPart(s, i); }
  }

  lemma RemoveNames(s: State, n: Name)
    requires NamesOk(s)
    ensures NamesOk(s.(dir := s.dir - {n}))
  {
    var t := s.(dir := s.dir - {n});
    forall m | m in t.dir ensures Named(t, m) { assert Named(s, m); }
    forall i: nat, j: nat ensures Apart(t, i, j) { assert Apart(s, i, j); }
    forall i: nat ensures OwnPart(t, i) { assert OwnPart(s, i); }
  }

  lemma RenameNames(s: State, id: nat)
    requires NamesOk(s) && SavesOk(s) && id < |s.saves| && s.saves[id].finish.Renaming? && s.saves[id].temp in s.dir
    ensures NamesOk(FinishNext(s, id, true))
  {
    var save := s.saves[id];
    var t := FinishNext(s, id, true);
    assert OwnPart(s, id);
    forall n | n in t.dir ensures Named(t, n) {
      if n != save.target {
        assert Named(s, n);
      }
    }
    forall i: nat, j: nat ensures Apart(t, i, j) { assert Apart(s, i, j) && Apart(s, j, id); }
    forall i: nat ensures OwnPart(t, i) { assert OwnPart(s, i); assert Apart(s, i, id); }
  }

  lemma FinishNames(s: State, id: nat, ok: bool)
    requires NamesOk(s) && SavesOk(s) && Enabled(s, FinishStep(id, ok))
    ensures NamesOk(FinishNext(s, id, ok))
  {
    var save, t := s.saves[id], FinishNext(s, id, ok);
    if save.finish.Renaming? && ok && save.temp in s.dir {
      RenameNames(s, id);
    } else {
      SameDirNames(s, id, t.saves[id]);
      if save.finish.CleanRemoving? && ok { RemoveNames(Set(s, id, t.saves[id]), save.temp); }
    }
  }

  lemma AbortNames(s: State, id: nat, ok: bool)
    requires NamesOk(s) && SavesOk(s) && Enabled(s, AbortStep(id, ok))
    ensures NamesOk(AbortNext(s, id, ok))
  {
    var save, t := s.saves[id], AbortNext(s, id, ok);
    SameDirNames(s, id, t.saves[id]);
    if save.abort.Removing? && ok { RemoveNames(Set(s, id, t.saves[id]), save.temp); }
  }

  lemma NextNames(s: State, e: Event)
    requires NamesOk(s) && SavesOk(s) && Enabled(s, e) && Clean(s, e)
    ensures NamesOk(Next(s, e))
  {
    match e
    case Begin(target, tag, page) => BeginNames(s, target, tag, page);
    case FinishStep(id, ok) => FinishNames(s, id, ok);
    case AbortStep(id, ok) => AbortNames(s, id, ok);
    case _ =>
      if e.id < |s.saves| && Next(s, e) != s {
        assert SaveOk(s.saves[e.id]);
        SameDirNames(s, e.id, Next(s, e).saves[e.id]);
      }
  }

  lemma {:induction false} RunNames(s: State, events: seq<Event>)
    requires NamesOk(s) && SavesOk(s) && CleanRun(s, events)
    ensures NamesOk(Run(s, events)) && SavesOk(Run(s, events))
    decreases |events|
  {
    if events != [] {
      if Enabled(s, events[0]) {
        NextNames(s, events[0]);
        NextSavesOk(s, events[0]);
      }
      RunNames(if Enabled(s, events[0]) then Next(s, events[0]) else s, events[1..]);
    }
  }

  predicate NoParts(dir: map<Name, File>) {
    forall n :: n in dir ==> dir[n].Other?
  }

  /** A step leaves the name alone, makes or removes the save's own part file, or puts its complete file there. */
  ghost predicate Proper(s: State, e: Event, n: Name)
    requires Enabled(s, e)
  {
    var t := Next(s, e);
    || Lookup(t.dir, n) == Lookup(s.dir, n)
    || (e.Begin? && n !in s.dir && Lookup(t.dir, n) == Some(Part(|s.saves|)))
    || (!e.Begin? && e.id < |s.saves| && n == s.saves[e.id].temp && n !in t.dir && Lookup(s.dir, n) == Some(Part(e.id)))
    || (e.FinishStep? && n == s.saves[e.id].target && e.id < |t.saves| && t.saves[e.id].finish == Finished(true)
        && Lookup(t.dir, n) == Some(Part(e.id)) && t.saves[e.id].bytes == Flatten(t.saves[e.id].accepted))
  }

  /** Every step of a clean run is proper. */
  lemma NameChanges(s: State, e: Event, n: Name)
    requires NamesOk(s) && SavesOk(s) && Enabled(s, e) && Clean(s, e)
    ensures Proper(s, e, n)
  {
    if e.FinishStep? || e.AbortStep? {
      assert OwnPart(s, e.id);
      assert SaveOk(s.saves[e.id]);
    }
  }

  // ---- no weaker condition on names would do ----

  ghost predicate NoBegins(events: seq<Event>) {
    forall i :: 0 <= i < |events| ==> !events[i].Begin?
  }

  lemma {:induction false} NoBeginsClean(s: State, events: seq<Event>)
    requires NoBegins(events)
    ensures CleanRun(s, events)
    decreases |events|
  {
    if events != [] {
      NoBeginsClean(if Enabled(s, events[0]) then Next(s, events[0]) else s, events[1..]);
    }
  }

  lemma {:induction false} RunConcat(s: State, a: seq<Event>, b: seq<Event>)
    ensures Run(s, a + b) == Run(Run(s, a), b)
    decreases |a|
  {
    if a == [] {
      assert a + b == b;
    } else {
      assert (a + b)[1..] == a[1..] + b;
      RunConcat(if Enabled(s, a[0]) then Next(s, a[0]) else s, a[1..], b);
    }
  }

  /** A removal of the part file of `id` is the next thing its finish, or its abort, does. */
  predicate RemovalPending(save: Save) {
    save.finish.CleanRemoving? || save.abort.Removing?
  }

  function TheRemoval(save: Save, id: nat): Event {
    if save.abort.Removing? then AbortStep(id, true) else FinishStep(id, true)
  }

  predicate StillWriting(save: Save) {
    save.queue != [] && (save.abort.Draining? || save.finish.WaitingForWrites?)
  }

  /** The next thing on the way to removing the part file. */
  function TowardRemoval(save: Save, id: nat): Event {
    if StillWriting(save) then WriteDone(id, true, 0)
    else if save.abort.Draining? || save.abort.AbortClosing? then AbortStep(id, false)
    else if save.listed && !save.done then AbortCall(id, save.owner)
    else FinishStep(id, false)
  }

  function StepsToRemoval(save: Save): nat {
    |save.queue| +
    match save.abort
    case NotAborting => if save.finish.NotFinishing? then 5 else FinishStepsToRemoval(save.finish)
    case Draining => 2
    case AbortClosing => 1
    case Removing => 0
    case Aborted => FinishStepsToRemoval(save.finish)
  }

  function FinishStepsToRemoval(finish: Finish): nat {
    match finish
    case WaitingForWrites => 3
    case Closing => 2
    case Renaming => 2
    case CleanClosing => 1
    case _ => 0
  }

  /** A step of the save `id` that leaves its names, and the directory, alone. */
  ghost predicate OnlyMoved(s: State, t: State, id: nat) {
    && id < |s.saves| && |t.saves| == |s.saves|
    && t == Set(s, id, t.saves[id])
    && t.saves[id].temp == s.saves[id].temp && t.saves[id].target == s.saves[id].target
  }

  lemma StepTowardRemoval(s: State, id: nat)
    requires SavesOk(s) && id < |s.saves| && !Settled(s.saves[id]) && !RemovalPending(s.saves[id])
    ensures
      var e := TowardRemoval(s.saves[id], id);
      && Enabled(s, e) && OnlyMoved(s, Next(s, e), id) && SavesOk(Next(s, e))
      && !Settled(Next(s, e).saves[id]) && StepsToRemoval(Next(s, e).saves[id]) < StepsToRemoval(s.saves[id])
  {
    assert SaveOk(s.saves[id]);
    NextSavesOk(s, TowardRemoval(s.saves[id], id));
  }

  /** Whatever state an unsettled save is in, its part file may come to be removed, without anything else happening. */
  lemma {:induction false} ReachesRemoval(s: State, id: nat) returns (events: seq<Event>)
    requires SavesOk(s) && id < |s.saves| && !Settled(s.saves[id])
    ensures NoBegins(events) && OnlyMoved(s, Run(s, events), id) && RemovalPending(Run(s, events).saves[id])
    decreases StepsToRemoval(s.saves[id])
  {
    if RemovalPending(s.saves[id]) { return []; }
    var e := TowardRemoval(s.saves[id], id);
    StepTowardRemoval(s, id);
    var rest := ReachesRemoval(Next(s, e), id);
    events := [e] + rest;
    assert events[1..] == rest;
  }

  /** The next thing on the way to renaming the part file. */
  function TowardRename(save: Save, id: nat): Event {
    if save.finish.NotFinishing? then FinishCall(id, save.owner)
    else if StillWriting(save) then WriteDone(id, true, 0)
    else FinishStep(id, true)
  }

  function StepsToRename(save: Save): nat {
    |save.queue| + match save.finish case NotFinishing => 3 case WaitingForWrites => 2 case Closing => 1 case _ => 0
  }

  lemma StepTowardRename(s: State, id: nat)
    requires SavesOk(s) && MayRename(s, id) && !s.saves[id].finish.Renaming?
    ensures
      var e := TowardRename(s.saves[id], id);
      && Enabled(s, e) && OnlyMoved(s, Next(s, e), id) && SavesOk(Next(s, e))
      && MayRename(Next(s, e), id) && StepsToRename(Next(s, e).saves[id]) < StepsToRename(s.saves[id])
  {
    assert SaveOk(s.saves[id]);
    NextSavesOk(s, TowardRename(s.saves[id], id));
  }

  lemma {:induction false} ReachesRename(s: State, id: nat) returns (events: seq<Event>)
    requires SavesOk(s) && MayRename(s, id)
    ensures NoBegins(events) && OnlyMoved(s, Run(s, events), id) && Run(s, events).saves[id].finish.Renaming?
    decreases StepsToRename(s.saves[id])
  {
    if s.saves[id].finish.Renaming? { return []; }
    var e := TowardRename(s.saves[id], id);
    StepTowardRename(s, id);
    var rest := ReachesRename(Next(s, e), id);
    events := [e] + rest;
    assert events[1..] == rest;
  }

  lemma RunThree(s: State, a: Event, b: Event, c: Event)
    requires Enabled(s, a) && Enabled(Next(s, a), b) && Enabled(Next(Next(s, a), b), c)
    ensures Run(s, [a, b, c]) == Next(Next(Next(s, a), b), c)
  {
    var s1, s2 := Next(s, a), Next(Next(s, a), b);
    assert [a, b, c][1..] == [b, c] && [b, c][1..] == [c];
    assert Run(s2, [c]) == Next(s2, c);
    assert Run(s1, [b, c]) == Run(s2, [c]);
  }

  lemma FinishGoesThrough(s: State, id: nat)
    requires id < |s.saves| && s.saves[id].finish.WaitingForWrites? && s.saves[id].queue == [] && !s.saves[id].failed
    requires s.saves[id].temp in s.dir
    ensures
      var t := Run(s, [FinishStep(id, true), FinishStep(id, true), FinishStep(id, true)]);
      t == Set(s, id, s.saves[id].(listed := false, finish := Finished(true)))
             .(dir := Moved(s.dir, s.saves[id].temp, s.saves[id].target))
  {
    RunThree(s, FinishStep(id, true), FinishStep(id, true), FinishStep(id, true));
  }

  /** From here on, as long as names are free when they are taken, every step is proper. */
  ghost predicate AlwaysProper(s: State) {
    forall events, e, n :: CleanRun(s, events) && Enabled(Run(s, events), e) && Clean(Run(s, events), e) ==>
      Proper(Run(s, events), e, n)
  }

  lemma NotAlwaysProper(s: State, events: seq<Event>, e: Event, n: Name)
    requires NoBegins(events) && !e.Begin? && Enabled(Run(s, events), e) && !Proper(Run(s, events), e, n)
    ensures !AlwaysProper(s)
  {
    NoBeginsClean(s, events);
  }

  /** A part file under the part name of an unsettled save: that save's cleanup removes it. */
  lemma PartNameTaken(s: State, i: nat, target: Name, tag: Option<string>, page: nat)
    requires SavesOk(s) && i < |s.saves| && !Settled(s.saves[i])
    requires TempFor(s.dir, target, tag) == Some(s.saves[i].temp)
    ensures !AlwaysProper(Next(s, Begin(target, tag, page)))
  {
    var t := Next(s, Begin(target, tag, page));
    NextSavesOk(s, Begin(target, tag, page));
    var events := ReachesRemoval(t, i);
    var u := Run(t, events);
    assert u.dir[s.saves[i].temp] == Part(|s.saves|);
    NotAlwaysProper(t, events, TheRemoval(u.saves[i], i), s.saves[i].temp);
  }

  /** A save of no bytes, from just after its begin to before its rename. */
  function Nothing(id: nat, page: nat): seq<Event> {
    [FinishCall(id, page), FinishStep(id, true), FinishStep(id, true)]
  }

  lemma NothingWritten(s: State, id: nat, page: nat)
    requires id < |s.saves| && s.saves[id] == NewSave(s.saves[id].target, s.saves[id].temp, page)
    ensures Run(s, Nothing(id, page)) == Set(s, id, s.saves[id].(done := true, listed := false, finish := Renaming))
  {
    RunThree(s, FinishCall(id, page), FinishStep(id, true), FinishStep(id, true));
  }

  /** It takes its target's name in the end. */
  lemma NothingFinishes(s: State, id: nat, page: nat)
    requires id < |s.saves| && s.saves[id] == NewSave(s.saves[id].target, s.saves[id].temp, page)
      && s.saves[id].temp in s.dir
    ensures
      Run(s, Nothing(id, page) + [FinishStep(id, true)])
      == Set(s, id, s.saves[id].(done := true, listed := false, finish := Finished(true)))
         .(dir := Moved(s.dir, s.saves[id].temp, s.saves[id].target))
  {
    NothingWritten(s, id, page);
    RunConcat(s, Nothing(id, page), [FinishStep(id, true)]);
    var t := Run(s, Nothing(id, page));
    assert Run(t, [FinishStep(id, true)]) == Next(t, FinishStep(id, true));
  }

  /** The removal by an unsettled save of a file that is not its own. */
  lemma RemovesAnothers(s: State, i: nat, other: nat) returns (events: seq<Event>)
    requires SavesOk(s) && i < |s.saves| && !Settled(s.saves[i]) && i != other
    requires Lookup(s.dir, s.saves[i].temp) == Some(Part(other))
    ensures NoBegins(events) && i < |Run(s, events).saves|
    ensures
      var e := TheRemoval(Run(s, events).saves[i], i);
      Enabled(Run(s, events), e) && !Proper(Run(s, events), e, s.saves[i].temp)
  {
    events := ReachesRemoval(s, i);
  }

  /** A target that is the part name of an unsettled save: that save's cleanup removes the complete file. */
  lemma TargetIsPartName(s: State, i: nat, target: Name, tag: Option<string>, page: nat)
    requires SavesOk(s) && i < |s.saves| && !Settled(s.saves[i])
    requires TempFor(s.dir, target, tag).Some? && target == s.saves[i].temp
    ensures !AlwaysProper(Next(s, Begin(target, tag, page)))
  {
    var mine, t := |s.saves|, Next(s, Begin(target, tag, page));
    var done := Nothing(mine, page) + [FinishStep(mine, true)];
    NextSavesOk(s, Begin(target, tag, page));
    RunSavesOk(t, done);
    NothingFinishes(t, mine, page);
    var events := RemovesAnothers(Run(t, done), i, mine);
    RunConcat(t, done, events);
    NotAlwaysProper(t, done + events, TheRemoval(Run(t, done + events).saves[i], i), target);
  }

  /** A save whose part name holds the file of another one takes that file for its own. */
  lemma TakesAnothers(s: State, mine: nat, page: nat, i: nat)
    requires mine < |s.saves| && s.saves[mine] == NewSave(s.saves[mine].target, s.saves[mine].temp, page) && i != mine
    requires Lookup(s.dir, s.saves[mine].temp) == Some(Part(i))
    requires Lookup(s.dir, s.saves[mine].target) != Some(Part(i)) && s.saves[mine].target != s.saves[mine].temp
    ensures
      var t := Run(s, Nothing(mine, page));
      Enabled(t, FinishStep(mine, true)) && !Proper(t, FinishStep(mine, true), s.saves[mine].target)
  {
    NothingWritten(s, mine, page);
  }

  /** The save `i` takes its target's name, which is the part name of the save `mine`. */
  lemma TakesThePartName(s: State, i: nat, mine: nat) returns (events: seq<Event>)
    requires SavesOk(s) && MayRename(s, i) && mine < |s.saves| && mine != i && s.saves[mine].temp == s.saves[i].target
    requires Lookup(s.dir, s.saves[i].temp) == Some(Part(i))
    ensures NoBegins(events) && |Run(s, events).saves| == |s.saves| && Run(s, events).saves[mine] == s.saves[mine]
    ensures Run(s, events).dir == Moved(s.dir, s.saves[i].temp, s.saves[i].target)
  {
    var toRename := ReachesRename(s, i);
    events := toRename + [FinishStep(i, true)];
    RunConcat(s, toRename, [FinishStep(i, true)]);
    var u := Run(s, toRename);
    assert Run(u, [FinishStep(i, true)]) == Next(u, FinishStep(i, true));
  }

  /** A part file under a target still to be taken: the rename overwrites it, and mine then takes what is there. */
  lemma PartNameIsTarget(s: State, i: nat, target: Name, tag: Option<string>, page: nat)
    requires NamesOk(s) && SavesOk(s) && MayRename(s, i) && TempFor(s.dir, target, tag) == Some(s.saves[i].target)
    ensures !AlwaysProper(Next(s, Begin(target, tag, page)))
  {
    var mine, t := |s.saves|, Next(s, Begin(target, tag, page));
    NextSavesOk(s, Begin(target, tag, page));
    assert SaveOk(s.saves[i]) && OwnPart(s, i);
    var before := TakesThePartName(t, i, mine);
    PartNamesDiffer(target, tag);
    if target in s.dir { assert Named(s, target); }
    TakesAnothers(Run(t, before), mine, page, i);
    RunConcat(t, before, Nothing(mine, page));
    NotAlwaysProper(t, before + Nothing(mine, page), FinishStep(mine, true), target);
  }

  /** The condition is exact: after a begin every clean run is proper if and only if the names it took were free. */
  lemma NamesFreeExact(s: State, target: Name, tag: Option<string>, page: nat)
    requires NamesOk(s) && SavesOk(s) && TempFor(s.dir, target, tag).Some?
    ensures NamesFree(s, target, TempFor(s.dir, target, tag).value) <==> AlwaysProper(Next(s, Begin(target, tag, page)))
  {
    var e, t, temp := Begin(target, tag, page), Next(s, Begin(target, tag, page)), TempFor(s.dir, target, tag).value;
    if NamesFree(s, target, temp) {
      NextNames(s, e);
      NextSavesOk(s, e);
      forall events, e, n | CleanRun(t, events) && Enabled(Run(t, events), e) && Clean(Run(t, events), e)
        ensures Proper(Run(t, events), e, n)
      {
        RunNames(t, events);
        NameChanges(Run(t, events), e, n);
      }
    } else if i: nat :| i < |s.saves| && MayRename(s, i) && temp == s.saves[i].target {
      PartNameIsTarget(s, i, target, tag, page);
    } else {
      var i: nat :| i < |s.saves| && !Settled(s.saves[i]) && (temp == s.saves[i].temp || target == s.saves[i].temp);
      if temp == s.saves[i].temp {
        PartNameTaken(s, i, target, tag, page);
      } else {
        TargetIsPartName(s, i, target, tag, page);
      }
    }
  }

  // ---- what a name taken too early can come to ----

  /** `finish` answered true, yet the target holds something other than what was written. */
  ghost predicate Wrong(s: State, id: nat) {
    && id < |s.saves| && s.saves[id].finish == Finished(true)
    && s.saves[id].target in s.dir && s.dir[s.saves[id].target].Part?
    && s.dir[s.saves[id].target].save < |s.saves|
    && s.saves[s.dir[s.saves[id].target].save].bytes != Flatten(s.saves[id].accepted)
  }

  /** A save of one byte, from just after its begin to the answer of its finish. */
  function OneByte(id: nat, page: nat): seq<Event> {
    [WriteCall(id, Some([0]), page), WriteDone(id, true, 0), FinishCall(id, page)]
    + [FinishStep(id, true), FinishStep(id, true), FinishStep(id, true)]
  }

  /** The run that goes wrong: the removal, one more begin, and then the save `mine`, which had the name first. */
  function Mishap(earlier: Save, earlierId: nat, mine: nat, target: Name, tag: Option<string>, page: nat): seq<Event> {
    [Begin(target, tag, page), TheRemoval(earlier, earlierId), Begin(target, tag, page)] + OneByte(mine, page)
  }

  lemma OneByteWritten(s: State, id: nat, page: nat)
    requires id < |s.saves| && s.saves[id] == NewSave(s.saves[id].target, s.saves[id].temp, page)
    ensures
      var t := Run(s, [WriteCall(id, Some([0]), page), WriteDone(id, true, 0), FinishCall(id, page)]);
      var save := NewSave(s.saves[id].target, s.saves[id].temp, page)
        .(offset := 1, bytes := [0], accepted := [[0]], done := true, finish := WaitingForWrites);
      t == Set(s, id, save)
  {
    var accepted := Accept(s.saves[id], [0]);
    assert accepted.accepted == [[0]] && accepted.queue == [Write(0, [0])];
    assert WriteAt([], 0, [0]) == [0];
    assert EndWrite(accepted, true, 0).queue == [];
    RunThree(s, WriteCall(id, Some([0]), page), WriteDone(id, true, 0), FinishCall(id, page));
  }

  /** A save whose part name holds another one's empty file finishes all the same. */
  lemma OneByteGoesWrong(s: State, mine: nat, other: nat, page: nat)
    requires mine < |s.saves| && other < |s.saves| && mine != other && s.saves[other].bytes == []
    requires s.saves[mine] == NewSave(s.saves[mine].target, s.saves[mine].temp, page)
    requires Lookup(s.dir, s.saves[mine].temp) == Some(Part(other))
    ensures Wrong(Run(s, OneByte(mine, page)), mine)
  {
    var write := [WriteCall(mine, Some([0]), page), WriteDone(mine, true, 0), FinishCall(mine, page)];
    OneByteWritten(s, mine, page);
    RunConcat(s, write, [FinishStep(mine, true), FinishStep(mine, true), FinishStep(mine, true)]);
    FinishGoesThrough(Run(s, write), mine);
    FlattenSnoc([], [0]);
    assert [] + [[0]] == [[0]];
  }

  lemma NameTakenTwice(s: State, earlier: nat, target: Name, tag: Option<string>, page: nat)
    requires earlier < |s.saves| && RemovalPending(s.saves[earlier])
    requires TempFor(s.dir, target, tag) == Some(s.saves[earlier].temp)
    ensures
      var mine, temp := |s.saves|, s.saves[earlier].temp;
      var t := Run(s, [Begin(target, tag, page), TheRemoval(s.saves[earlier], earlier), Begin(target, tag, page)]);
      && |t.saves| == mine + 2 && t.dir == s.dir[temp := Part(mine + 1)]
      && t.saves[mine] == NewSave(target, temp, page) && t.saves[mine + 1] == NewSave(target, temp, page)
  {
    var mine, temp := |s.saves|, s.saves[earlier].temp;
    var removal := TheRemoval(s.saves[earlier], earlier);
    var s1 := Next(s, Begin(target, tag, page));
    assert s1.saves[earlier] == s.saves[earlier] && s1.dir == s.dir[temp := Part(mine)];
    var s2 := Next(s1, removal);
    assert s2.dir == s.dir;
    RunThree(s, Begin(target, tag, page), removal, Begin(target, tag, page));
  }

  /**
   * How bad it can get: from any state, a begin that takes the part name of a save whose removal is still pending can
   * be followed by a run after which its finish answers true over a file it did not write.
   */
  lemma ReusedNameGoesWrong(s: State, earlier: nat, target: Name, tag: Option<string>, page: nat)
    requires earlier < |s.saves| && RemovalPending(s.saves[earlier])
    requires TempFor(s.dir, target, tag) == Some(s.saves[earlier].temp)
    ensures Wrong(Run(s, Mishap(s.saves[earlier], earlier, |s.saves|, target, tag, page)), |s.saves|)
  {
    var mine := |s.saves|;
    var start := [Begin(target, tag, page), TheRemoval(s.saves[earlier], earlier), Begin(target, tag, page)];
    NameTakenTwice(s, earlier, target, tag, page);
    RunConcat(s, start, OneByte(mine, page));
    OneByteGoesWrong(Run(s, start), mine, mine + 1, page);
  }

  /** An abort that comes while a finish waits: the finish goes through, and the removal is still to come. */
  function LateAbort(target: Name, tag: Option<string>, page: nat): seq<Event> {
    [Begin(target, tag, page), FinishCall(0, page), AbortCall(0, page)]
    + [FinishStep(0, true), FinishStep(0, true), FinishStep(0, true)]
    + [AbortStep(0, true), AbortStep(0, true)]
  }

  lemma LateAbortStarts(target: Name, tag: Option<string>, page: nat)
    ensures
      Run(State([], map[]), [Begin(target, tag, page), FinishCall(0, page), AbortCall(0, page)])
      == State(
           [StartAbort(NewSave(target, PartName(target, tag), page).(finish := WaitingForWrites))],
           map[PartName(target, tag) := Part(0)])
  {
    RunThree(State([], map[]), Begin(target, tag, page), FinishCall(0, page), AbortCall(0, page));
  }

  lemma LateAbortEnds(s: State)
    requires |s.saves| == 1 && s.saves[0].abort.Draining? && s.saves[0].queue == []
    ensures Run(s, [AbortStep(0, true), AbortStep(0, true)]) == Set(s, 0, s.saves[0].(abort := Removing))
  {
    var end := [AbortStep(0, true), AbortStep(0, true)];
    assert end[1..] == [AbortStep(0, true)];
    assert Run(Next(s, end[0]), end[1..]) == Next(Next(s, end[0]), AbortStep(0, true));
  }

  /** So the state that goes wrong is within reach. */
  lemma RemovalCanOutliveFinish(target: Name, tag: Option<string>, page: nat)
    ensures
      var s := Run(State([], map[]), LateAbort(target, tag, page));
      && |s.saves| == 1 && s.saves[0].finish == Finished(true) && RemovalPending(s.saves[0])
      && TempFor(s.dir, target, tag) == Some(s.saves[0].temp)
  {
    var empty := State([], map[]);
    var start := [Begin(target, tag, page), FinishCall(0, page), AbortCall(0, page)];
    var middle := [FinishStep(0, true), FinishStep(0, true), FinishStep(0, true)];
    var end := [AbortStep(0, true), AbortStep(0, true)];
    PartNamesDiffer(target, tag);
    LateAbortStarts(target, tag, page);
    RunConcat(empty, start, middle);
    FinishGoesThrough(Run(empty, start), 0);
    RunConcat(empty, start + middle, end);
    LateAbortEnds(Run(empty, start + middle));
  }
}
