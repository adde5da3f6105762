/** One person's steps, what undoing and redoing them does to a register, and how that looks on a shared board. */
module UndoHistory {
  import opened Common
  import opened BoardOps
  import opened BoardListing
  import opened BoardStates
  import BoardConvergence

  datatype Step = Step(undo: seq<Op>, redo: seq<Op>)
  datatype Past = Past(done: seq<Step>, undone: seq<Step>)

  /** The fields `op` is about to overwrite on the board `m`, as an op that puts them back. */
  function UndoOp(m: Objects, op: Op): Op {
    Op(op.id, map f | f in op.p :: Reg(m, op.id, f))
  }

  function UndoOps(m: Objects, ops: seq<Op>): seq<Op> {
    if ops == [] then [] else UndoOps(m, ops[1..]) + [UndoOp(m, ops[0])]
  }

  function Recorded(past: Past, limit: nat, m: Objects, ops: seq<Op>): Past {
    var done := past.done + [Step(UndoOps(m, ops), ops)];
    Past(if |done| > limit then done[1..] else done, [])
  }

  function Undone(past: Past): Past {
    if past.done == [] then past
    else Past(past.done[..|past.done| - 1], past.undone + [past.done[|past.done| - 1]])
  }

  function Redone(past: Past): Past {
    if past.undone == [] then past
    else Past(past.done + [past.undone[|past.undone| - 1]], past.undone[..|past.undone| - 1])
  }

  class History {
    var done: seq<Step>
    var undone: seq<Step>
    const limit: nat

    function Abs(): Past
      reads this
    {
      Past(done, undone)
    }

    constructor (limit: nat)
      ensures Abs() == Past([], []) && this.limit == limit
    {
      done, undone := [], [];
      this.limit := limit;
    }

    /** The undo is read off the board as shown before any op of the step. */
    method Record(state: BoardState, ops: seq<Op>)
      requires state.Valid()
      modifies this
      ensures Abs() == Recorded(old(Abs()), limit, Show(state.Abs()), ops)
    {
      var undo: seq<Op> := [];
      for k := 0 to |ops|
        invariant undo == UndoOps(state.shown, ops[|ops| - k..])
        invariant Abs() == old(Abs())
      {
        var op := ops[|ops| - k - 1];
        undo := undo + [UndoOp(state.shown, op)];
        assert ops[|ops| - k - 1..][1..] == ops[|ops| - k..];
      }
      assert ops[0..] == ops;
      done := done + [Step(undo, ops)];
      if |done| > limit { done := done[1..]; }
      undone := [];
    }

    /** Moves the last step over and answers its undo, if there is a step. */
    method Undo() returns (ops: Option<seq<Op>>)
      modifies this
      ensures Abs() == Undone(old(Abs()))
      ensures ops == if old(done) == [] then None else Some(old(done)[|old(done)| - 1].undo)
    {
      if done == [] { return None; }
      var step := done[|done| - 1];
      done := done[..|done| - 1];
      undone := undone + [step];
      ops := Some(step.undo);
    }

    method Redo() returns (ops: Option<seq<Op>>)
      modifies this
      ensures Abs() == Redone(old(Abs()))
      ensures ops == if old(undone) == [] then None else Some(old(undone)[|old(undone)| - 1].redo)
    {
      if undone == [] { return None; }
      var step := undone[|undone| - 1];
      undone := undone[..|undone| - 1];
      done := done + [step];
      ops := Some(step.redo);
    }

    method Clear()
      modifies this
      ensures Abs() == Past([], [])
    {
      done, undone := [], [];
    }
  }

  // ---- the board under a history ----

  /** A change is recorded once and shown as the batches it is split into. */
  function AddedAll(b: Board, first: Cid, parts: seq<seq<Op>>): Board
    decreases |parts|
  {
    if parts == [] then b else AddedAll(Added(b, first, parts[0]), first + 1, parts[1..])
  }

  /** Showing a change, however it is split, is applying its ops to what was shown. */
  lemma {:induction false} ChangeShows(b: Board, first: Cid, parts: seq<seq<Op>>)
    ensures Show(AddedAll(b, first, parts)) == ApplyOps(Show(b), Flatten(parts))
    decreases |parts|
  {
    if parts != [] {
      PendingOpsSnoc(b.pending, Batch(first, parts[0]));
      ApplyOpsConcat(b.confirmed, PendingOps(b.pending), parts[0]);
      ChangeShows(Added(b, first, parts[0]), first + 1, parts[1..]);
      ApplyOpsConcat(Show(b), parts[0], Flatten(parts[1..]));
    }
  }

  // ---- one step ----

  /** Undoing writes exactly the registers the step wrote, each with what it held before the whole step. */
  lemma {:induction false} UndoWrites(m: Objects, ops: seq<Op>, id: Id, f: Field)
    ensures LastWrite(UndoOps(m, ops), id, f) == if Writes(ops, id, f) then Some(Reg(m, id, f)) else None
  {
    if ops != [] {
      UndoWrites(m, ops[1..], id, f);
      LastWriteConcat(UndoOps(m, ops[1..]), [UndoOp(m, ops[0])], id, f);
      assert forall op :: op in ops <==> op == ops[0] || op in ops[1..];
      assert Writes(ops, id, f) <==> Writes(ops[1..], id, f) || (ops[0].id == id && f in ops[0].p);
    }
  }

  /** A step and its undo, whatever the number of ops on one object, give back the board that was there. */
  lemma StepThenUndo(m: Objects, ops: seq<Op>)
    ensures SameView(ApplyOps(ApplyOps(m, ops), UndoOps(m, ops)), m)
  {
    forall id, f ensures Reg(ApplyOps(ApplyOps(m, ops), UndoOps(m, ops)), id, f) == Reg(m, id, f) {
      RegAfter(m, ops, id, f);
      RegAfter(ApplyOps(m, ops), UndoOps(m, ops), id, f);
      UndoWrites(m, ops, id, f);
      LastWriteIffWrites(ops, id, f);
    }
  }

  /**
   * When others changed the board to `now` after the step, its undo keeps their change to a register exactly when the
   * step did not write that register, or they had put back the very value it recorded.
   */
  lemma UndoKeepsOthersIff(m: Objects, ops: seq<Op>, now: Objects, id: Id, f: Field)
    ensures Reg(ApplyOps(now, UndoOps(m, ops)), id, f) == Reg(now, id, f)
            <==> !Writes(ops, id, f) || Reg(m, id, f) == Reg(now, id, f)
  {
    RegAfter(now, UndoOps(m, ops), id, f);
    UndoWrites(m, ops, id, f);
  }

  // ---- whole histories ----

  /** What can happen: a change of one's own, an undo, a redo, or anything else that turns the board into `view`. */
  datatype Act = Mine(ops: seq<Op>) | Undo | Redo | Elsewhere(view: Objects)

  /** The board on screen and this person's history. */
  datatype Session = Session(view: Objects, past: Past)

  function Do(s: Session, limit: nat, act: Act): Session {
    match act
    case Mine(ops) => Session(ApplyOps(s.view, ops), Recorded(s.past, limit, s.view, ops))
    case Elsewhere(view) => s.(view := view)
    case Undo =>
      if s.past.done == [] then s
      else Session(ApplyOps(s.view, s.past.done[|s.past.done| - 1].undo), Undone(s.past))
    case Redo =>
      if s.past.undone == [] then s
      else Session(ApplyOps(s.view, s.past.undone[|s.past.undone| - 1].redo), Redone(s.past))
  }

  function Run(s: Session, limit: nat, acts: seq<Act>): Session
    decreases |acts|
  {
    if acts == [] then s else Run(Do(s, limit, acts[0]), limit, acts[1..])
  }

  function Reverse(steps: seq<Step>): seq<Step> {
    if steps == [] then [] else [steps[|steps| - 1]] + Reverse(steps[..|steps| - 1])
  }

  /** Every step there is, oldest first; `|done|` of them are in effect. */
  function Timeline(past: Past): seq<Step> {
    past.done + Reverse(past.undone)
  }

  function Redos(steps: seq<Step>): seq<Op> {
    if steps == [] then [] else Redos(steps[..|steps| - 1]) + steps[|steps| - 1].redo
  }

  /** What the register holds once the first `k` steps are in effect on top of `base`. */
  function HeldAfter(base: Option<Value>, steps: seq<Step>, k: nat, id: Id, f: Field): Option<Value>
    requires k <= |steps|
  {
    Overlay(LastWrite(Redos(steps[..k]), id, f), base)
  }

  /** A step's undo puts back what the steps before it had left in the register, if the step wrote it. */
  ghost predicate UndoesTo(step: Step, held: Option<Value>, id: Id, f: Field) {
    LastWrite(step.undo, id, f) == if LastWrite(step.redo, id, f).Some? then Some(held) else None
  }

  /** With the first `c` steps in effect on top of `base` the register holds `held`, and every step can be undone. */
  ghost predicate Exact(steps: seq<Step>, c: nat, held: Option<Value>, base: Option<Value>, id: Id, f: Field) {
    && c <= |steps|
    && held == HeldAfter(base, steps, c, id, f)
    && forall k :: 0 <= k < |steps| ==> UndoesTo(steps[k], HeldAfter(base, steps, k, id, f), id, f)
  }

  /** The invariant of a register over a session. */
  ghost predicate Faithful(s: Session, base: Option<Value>, id: Id, f: Field) {
    Exact(Timeline(s.past), |s.past.done|, Reg(s.view, id, f), base, id, f)
  }

  /** Nothing but this person's own steps, undos and redos writes the register during the run. */
  ghost predicate LeftAlone(s: Session, limit: nat, acts: seq<Act>, id: Id, f: Field)
    decreases |acts|
  {
    acts == [] || (
      && (acts[0].Elsewhere? ==> Reg(acts[0].view, id, f) == Reg(s.view, id, f))
      && LeftAlone(Do(s, limit, acts[0]), limit, acts[1..], id, f))
  }

  lemma HeldStep(base: Option<Value>, steps: seq<Step>, k: nat, id: Id, f: Field)
    requires k < |steps|
    ensures HeldAfter(base, steps, k + 1, id, f)
      == Overlay(LastWrite(steps[k].redo, id, f), HeldAfter(base, steps, k, id, f))
  {
    assert steps[..k + 1][..k] == steps[..k];
    LastWriteConcat(Redos(steps[..k]), steps[k].redo, id, f);
  }

  lemma {:induction false} HeldShift(base: Option<Value>, steps: seq<Step>, k: nat, id: Id, f: Field)
    requires 0 < k <= |steps|
    ensures HeldAfter(HeldAfter(base, steps, 1, id, f), steps[1..], k - 1, id, f) == HeldAfter(base, steps, k, id, f)
  {
    if k > 1 {
      HeldShift(base, steps, k - 1, id, f);
      HeldStep(base, steps, k - 1, id, f);
      HeldStep(HeldAfter(base, steps, 1, id, f), steps[1..], k - 2, id, f);
    }
  }

  lemma ExactUndo(steps: seq<Step>, c: nat, held: Option<Value>, base: Option<Value>, id: Id, f: Field)
    requires Exact(steps, c, held, base, id, f) && c > 0
    ensures Exact(steps, c - 1, Overlay(LastWrite(steps[c - 1].undo, id, f), held), base, id, f)
  {
    HeldStep(base, steps, c - 1, id, f);
  }

  lemma ExactRedo(steps: seq<Step>, c: nat, held: Option<Value>, base: Option<Value>, id: Id, f: Field)
    requires Exact(steps, c, held, base, id, f) && c < |steps|
    ensures Exact(steps, c + 1, Overlay(LastWrite(steps[c].redo, id, f), held), base, id, f)
  {
    HeldStep(base, steps, c, id, f);
  }

  /** A new step takes the place of everything that was undone. */
  lemma ExactMine(steps: seq<Step>, c: nat, step: Step, held: Option<Value>, base: Option<Value>, id: Id, f: Field)
    requires Exact(steps, c, held, base, id, f) && UndoesTo(step, held, id, f)
    ensures Exact(steps[..c] + [step], c + 1, Overlay(LastWrite(step.redo, id, f), held), base, id, f)
  {
    var next := steps[..c] + [step];
    forall k | 0 <= k <= c ensures HeldAfter(base, next, k, id, f) == HeldAfter(base, steps, k, id, f) {
      assert next[..k] == steps[..k];
    }
    HeldStep(base, next, c, id, f);
  }

  /** The oldest step falls off the history: what it wrote is now part of the base. */
  lemma ExactShift(steps: seq<Step>, c: nat, held: Option<Value>, base: Option<Value>, id: Id, f: Field)
    requires Exact(steps, c, held, base, id, f) && c > 0
    ensures Exact(steps[1..], c - 1, held, HeldAfter(base, steps, 1, id, f), id, f)
  {
    HeldShift(base, steps, c, id, f);
    var rest, base' := steps[1..], HeldAfter(base, steps, 1, id, f);
    forall k | 0 <= k < |rest| ensures UndoesTo(rest[k], HeldAfter(base', rest, k, id, f), id, f) {
      HeldShift(base, steps, k + 1, id, f);
      assert UndoesTo(steps[k + 1], HeldAfter(base, steps, k + 1, id, f), id, f);
    }
  }

  lemma MineFaithful(s: Session, limit: nat, ops: seq<Op>, base: Option<Value>, id: Id, f: Field)
    returns (base': Option<Value>)
    requires Faithful(s, base, id, f)
    ensures Faithful(Do(s, limit, Mine(ops)), base', id, f)
    ensures |s.past.done| < limit ==> base' == base
  {
    var step := Step(UndoOps(s.view, ops), ops);
    UndoWrites(s.view, ops, id, f);
    LastWriteIffWrites(ops, id, f);
    RegAfter(s.view, ops, id, f);
    ExactMine(Timeline(s.past), |s.past.done|, step, Reg(s.view, id, f), base, id, f);
    var next := s.past.done + [step];
    assert Timeline(s.past)[..|s.past.done|] + [step] == next;
    base' := base;
    if |next| > limit {
      ExactShift(next, |next|, Reg(ApplyOps(s.view, ops), id, f), base, id, f);
      base' := HeldAfter(base, next, 1, id, f);
      assert Timeline(Past(next[1..], [])) == next[1..];
    } else {
      assert Timeline(Past(next, [])) == next;
    }
  }

  lemma TimelineKept(past: Past)
    ensures Timeline(Undone(past)) == Timeline(past) && Timeline(Redone(past)) == Timeline(past)
  {
    if past.done != [] {
      var u := past.undone + [past.done[|past.done| - 1]];
      assert u[..|u| - 1] == past.undone;
    }
  }

  lemma UndoFaithful(s: Session, limit: nat, base: Option<Value>, id: Id, f: Field)
    requires Faithful(s, base, id, f)
    ensures Faithful(Do(s, limit, Undo), base, id, f)
  {
    var n := |s.past.done|;
    TimelineKept(s.past);
    if n > 0 {
      ExactUndo(Timeline(s.past), n, Reg(s.view, id, f), base, id, f);
      RegAfter(s.view, s.past.done[n - 1].undo, id, f);
    }
  }

  lemma RedoFaithful(s: Session, limit: nat, base: Option<Value>, id: Id, f: Field)
    requires Faithful(s, base, id, f)
    ensures Faithful(Do(s, limit, Redo), base, id, f)
  {
    var n := |s.past.done|;
    TimelineKept(s.past);
    if s.past.undone != [] {
      assert Timeline(s.past)[n] == s.past.undone[|s.past.undone| - 1];
      ExactRedo(Timeline(s.past), n, Reg(s.view, id, f), base, id, f);
      RegAfter(s.view, s.past.undone[|s.past.undone| - 1].redo, id, f);
    }
  }

  /** One act keeps every register it leaves alone faithful; undo and redo just move along the timeline. */
  lemma DoFaithful(s: Session, limit: nat, act: Act, base: Option<Value>, id: Id, f: Field)
    returns (base': Option<Value>)
    requires Faithful(s, base, id, f)
    requires act.Elsewhere? ==> Reg(act.view, id, f) == Reg(s.view, id, f)
    ensures Faithful(Do(s, limit, act), base', id, f)
    ensures !(act.Mine? && |s.past.done| >= limit) ==> base' == base
  {
    base' := base;
    match act
    case Mine(ops) => base' := MineFaithful(s, limit, ops, base, id, f);
    case Elsewhere(_) =>
    case Undo => UndoFaithful(s, limit, base, id, f);
    case Redo => RedoFaithful(s, limit, base, id, f);
  }

  function Mines(acts: seq<Act>): nat {
    if acts == [] then 0 else (if acts[0].Mine? then 1 else 0) + Mines(acts[1..])
  }

  lemma TimelineGrowth(s: Session, limit: nat, act: Act)
    ensures |s.past.done| <= |Timeline(s.past)|
    ensures |Timeline(Do(s, limit, act).past)| <= |Timeline(s.past)| + (if act.Mine? then 1 else 0)
  {
    TimelineKept(s.past);
    ReverseLength(s.past.undone);
  }

  /**
   * Undo and redo are exact over every run: a register only this person's acts write always holds the steps in effect
   * on top of a value that changes only when a step falls off the history, and every recorded step goes back to what
   * was there before it.
   */
  lemma {:induction false} RunFaithful(s: Session, limit: nat, acts: seq<Act>, base: Option<Value>, id: Id, f: Field)
    returns (base': Option<Value>)
    requires Faithful(s, base, id, f) && LeftAlone(s, limit, acts, id, f)
    ensures Faithful(Run(s, limit, acts), base', id, f)
    ensures |Timeline(s.past)| + Mines(acts) <= limit || Mines(acts) == 0 ==> base' == base
    decreases |acts|
  {
    base' := base;
    if acts != [] {
      TimelineGrowth(s, limit, acts[0]);
      base' := DoFaithful(s, limit, acts[0], base, id, f);
      base' := RunFaithful(Do(s, limit, acts[0]), limit, acts[1..], base', id, f);
    }
  }

  /** Whatever else happened meanwhile: once all of this person's steps are undone, their registers are as they were. */
  lemma AllUndone(m: Objects, limit: nat, acts: seq<Act>, id: Id, f: Field)
    requires LeftAlone(Session(m, Past([], [])), limit, acts, id, f) && Mines(acts) <= limit
    requires Run(Session(m, Past([], [])), limit, acts).past.done == []
    ensures Reg(Run(Session(m, Past([], [])), limit, acts).view, id, f) == Reg(m, id, f)
  {
    var base := RunFaithful(Session(m, Past([], [])), limit, acts, Reg(m, id, f), id, f);
  }

  function Repeat(act: Act, n: nat): seq<Act> {
    if n == 0 then [] else [act] + Repeat(act, n - 1)
  }

  lemma RunRepeat(s: Session, limit: nat, act: Act, n: nat)
    requires n > 0
    ensures Run(s, limit, Repeat(act, n)) == Run(Do(s, limit, act), limit, Repeat(act, n - 1))
  {
    assert Repeat(act, n)[1..] == Repeat(act, n - 1);
  }

  lemma {:induction false} UndoShape(s: Session, limit: nat, n: nat)
    requires n <= |s.past.done|
    ensures
      var r := Run(s, limit, Repeat(Undo, n));
      Timeline(r.past) == Timeline(s.past) && |r.past.done| == |s.past.done| - n
    decreases n
  {
    if n > 0 {
      TimelineKept(s.past);
      RunRepeat(s, limit, Undo, n);
      UndoShape(Do(s, limit, Undo), limit, n - 1);
    }
  }

  lemma {:induction false} RepeatLeavesAlone(s: Session, limit: nat, act: Act, n: nat, id: Id, f: Field)
    requires act.Undo? || act.Redo?
    ensures LeftAlone(s, limit, Repeat(act, n), id, f) && Mines(Repeat(act, n)) == 0
    decreases n
  {
    if n > 0 {
      RepeatLeavesAlone(Do(s, limit, act), limit, act, n - 1, id, f);
      assert Repeat(act, n)[1..] == Repeat(act, n - 1);
    }
  }

  /** Undos, and redos, keep every register faithful on top of the same base. */
  lemma ManyFaithful(s: Session, limit: nat, act: Act, n: nat, base: Option<Value>, id: Id, f: Field)
    requires Faithful(s, base, id, f) && (act.Undo? || act.Redo?)
    ensures Faithful(Run(s, limit, Repeat(act, n)), base, id, f)
  {
    RepeatLeavesAlone(s, limit, act, n, id, f);
    var _ := RunFaithful(s, limit, Repeat(act, n), base, id, f);
  }

  lemma {:induction false} RedoShape(s: Session, limit: nat, n: nat)
    requires n <= |s.past.undone|
    ensures
      var r := Run(s, limit, Repeat(Redo, n));
      Timeline(r.past) == Timeline(s.past) && |r.past.done| == |s.past.done| + n
    decreases n
  {
    if n > 0 {
      TimelineKept(s.past);
      RunRepeat(s, limit, Redo, n);
      RedoShape(Do(s, limit, Redo), limit, n - 1);
    }
  }

  lemma {:induction false} ReverseLength(steps: seq<Step>)
    ensures |Reverse(steps)| == |steps|
  {
    if steps != [] { ReverseLength(steps[..|steps| - 1]); }
  }

  lemma {:induction false} RunConcat(s: Session, limit: nat, a: seq<Act>, b: seq<Act>)
    ensures Run(s, limit, a + b) == Run(Run(s, limit, a), limit, b)
    decreases |a|
  {
    if a == [] {
      assert a + b == b;
    } else {
      assert (a + b)[1..] == a[1..] + b;
      RunConcat(Do(s, limit, a[0]), limit, a[1..], b);
    }
  }

  /** From any faithful register, `n` undos and then `n` redos come back to the same value. */
  lemma UndoRedoReturns(s: Session, limit: nat, n: nat, base: Option<Value>, id: Id, f: Field)
    requires Faithful(s, base, id, f) && n <= |s.past.done|
    ensures Reg(Run(s, limit, Repeat(Undo, n) + Repeat(Redo, n)).view, id, f) == Reg(s.view, id, f)
  {
    ManyFaithful(s, limit, Undo, n, base, id, f);
    UndoShape(s, limit, n);
    var r := Run(s, limit, Repeat(Undo, n));
    ReverseLength(r.past.undone);
    ReverseLength(s.past.undone);
    ManyFaithful(r, limit, Redo, n, base, id, f);
    RedoShape(r, limit, n);
    RunConcat(s, limit, Repeat(Undo, n), Repeat(Redo, n));
  }

  function MineAll(changes: seq<seq<Op>>): seq<Act> {
    if changes == [] then [] else [Mine(changes[0])] + MineAll(changes[1..])
  }

  lemma {:induction false} MineMany(
      s: Session, limit: nat, changes: seq<seq<Op>>, base: Option<Value>, id: Id, f: Field)
    requires Faithful(s, base, id, f) && |s.past.done| + |changes| <= limit
    ensures Faithful(Run(s, limit, MineAll(changes)), base, id, f)
    ensures |Run(s, limit, MineAll(changes)).past.done| == |s.past.done| + |changes|
    decreases |changes|
  {
    if changes != [] {
      var _ := MineFaithful(s, limit, changes[0], base, id, f);
      assert MineAll(changes)[1..] == MineAll(changes[1..]);
      MineMany(Do(s, limit, Mine(changes[0])), limit, changes[1..], base, id, f);
    }
  }

  /**
   * Any changes within the limit, however many ops each has on one object: as many undos give back the board before
   * them all, and as many redos after that the board after them all.
   */
  lemma UndoAllRedoAll(m: Objects, limit: nat, changes: seq<seq<Op>>)
    requires |changes| <= limit
    ensures
      var made := Run(Session(m, Past([], [])), limit, MineAll(changes));
      && SameView(Run(made, limit, Repeat(Undo, |changes|)).view, m)
      && SameView(Run(made, limit, Repeat(Undo, |changes|) + Repeat(Redo, |changes|)).view, made.view)
  {
    var start := Session(m, Past([], []));
    var made := Run(start, limit, MineAll(changes));
    forall id, f
      ensures Reg(Run(made, limit, Repeat(Undo, |changes|)).view, id, f) == Reg(m, id, f)
      ensures Reg(Run(made, limit, Repeat(Undo, |changes|) + Repeat(Redo, |changes|)).view, id, f)
        == Reg(made.view, id, f)
    {
      MineMany(start, limit, changes, Reg(m, id, f), id, f);
      ManyFaithful(made, limit, Undo, |changes|, Reg(m, id, f), id, f);
      UndoShape(made, limit, |changes|);
      UndoRedoReturns(made, limit, |changes|, Reg(m, id, f), id, f);
    }
  }

  /** ... so the list of visible objects is the one from before, in the same order. */
  lemma UndoAllSameListing(m: Objects, limit: nat, changes: seq<seq<Op>>, s: seq<Shown>, t: seq<Shown>)
    requires |changes| <= limit && Listing(m, s)
    requires Listing(
      Run(Run(Session(m, Past([], [])), limit, MineAll(changes)), limit, Repeat(Undo, |changes|)).view, t)
    ensures s == t
  {
    UndoAllRedoAll(m, limit, changes);
    var made := Run(Session(m, Past([], [])), limit, MineAll(changes));
    SameViewSameListing(m, s, Run(made, limit, Repeat(Undo, |changes|)).view, t);
  }

  // ---- how long the history is ----

  predicate Bounded(past: Past, limit: nat) {
    |past.done| + |past.undone| <= limit
  }

  lemma DoBounded(s: Session, limit: nat, act: Act)
    requires Bounded(s.past, limit)
    ensures Bounded(Do(s, limit, act).past, limit)
  {}

  /** Over every run: done and undone together, there are never more steps than the limit. */
  lemma {:induction false} RunBounded(s: Session, limit: nat, acts: seq<Act>)
    requires Bounded(s.past, limit)
    ensures Bounded(Run(s, limit, acts).past, limit)
    decreases |acts|
  {
    if acts != [] {
      DoBounded(s, limit, acts[0]);
      RunBounded(Do(s, limit, acts[0]), limit, acts[1..]);
    }
  }

  function Least(a: nat, b: nat): nat { if a <= b then a else b }

  /** The changes that redoing the steps would make. */
  function ChangesOf(steps: seq<Step>): seq<seq<Op>> {
    seq(|steps|, k requires 0 <= k < |steps| => steps[k].redo)
  }

  /** The last `n`, or all when there are no more. */
  function Newest<T>(items: seq<T>, n: nat): seq<T> {
    items[|items| - Least(|items|, n)..]
  }

  lemma {:induction false} MineAllSnoc(changes: seq<seq<Op>>, last: seq<Op>)
    ensures MineAll(changes + [last]) == MineAll(changes) + [Mine(last)]
  {
    if changes == [] {
      assert changes + [last] == [last];
    } else {
      assert (changes + [last])[1..] == changes[1..] + [last];
      MineAllSnoc(changes[1..], last);
    }
  }

  /** Exactly the last `limit` changes can be undone, or all when there are no more. */
  lemma {:induction false} NewestKept(m: Objects, limit: nat, changes: seq<seq<Op>>)
    ensures
      var past := Run(Session(m, Past([], [])), limit, MineAll(changes)).past;
      ChangesOf(past.done) == Newest(changes, limit) && past.undone == []
  {
    if changes != [] {
      var n := |changes| - 1;
      var front, last, start := changes[..n], changes[n], Session(m, Past([], []));
      NewestKept(m, limit, front);
      assert front + [last] == changes;
      MineAllSnoc(front, last);
      RunConcat(start, limit, MineAll(front), [Mine(last)]);
      NewestOneMore(Run(start, limit, MineAll(front)), limit, front, last);
    }
  }

  lemma NewestOneMore(s: Session, limit: nat, changes: seq<seq<Op>>, last: seq<Op>)
    requires ChangesOf(s.past.done) == Newest(changes, limit)
    ensures Run(s, limit, [Mine(last)]) == Do(s, limit, Mine(last))
    ensures ChangesOf(Do(s, limit, Mine(last)).past.done) == Newest(changes + [last], limit)
  {
    assert |ChangesOf(s.past.done)| == |s.past.done|;
    NewestSnoc(changes, last, limit);
    ChangesSnoc(s.past.done, Step(UndoOps(s.view, last), last));
  }

  lemma ChangesSnoc(done: seq<Step>, step: Step)
    ensures ChangesOf(done + [step]) == ChangesOf(done) + [step.redo]
    ensures ChangesOf((done + [step])[1..]) == (ChangesOf(done) + [step.redo])[1..]
  {}

  lemma NewestSnoc<T>(items: seq<T>, last: T, n: nat)
    ensures
      var more := Newest(items, n) + [last];
      Newest(items + [last], n) == if |more| > n then more[1..] else more
  {}

  /** After any changes and `k` undos, the next undo takes back the last change left, and there is none exactly then. */
  lemma UndosUsedUp(m: Objects, limit: nat, changes: seq<seq<Op>>, k: nat)
    ensures
      var s := Run(Session(m, Past([], [])), limit, MineAll(changes) + Repeat(Undo, k));
      && (s.past.done == [] <==> k >= |changes| || k >= limit)
      && (s.past.done != [] ==> s.past.done[|s.past.done| - 1].redo == changes[|changes| - 1 - k])
  {
    var start := Session(m, Past([], []));
    var made := Run(start, limit, MineAll(changes));
    RunConcat(start, limit, MineAll(changes), Repeat(Undo, k));
    NewestKept(m, limit, changes);
    ManyUndos(made, limit, k);
    LastLeft(made.past.done, limit, changes, k);
  }

  lemma LastLeft(done: seq<Step>, limit: nat, changes: seq<seq<Op>>, k: nat)
    requires ChangesOf(done) == Newest(changes, limit)
    ensures |done| == Least(|changes|, limit)
    ensures k < |done| ==> done[|done| - 1 - k].redo == changes[|changes| - 1 - k]
  {
    assert |ChangesOf(done)| == |done|;
    if k < |done| { assert ChangesOf(done)[|done| - 1 - k] == done[|done| - 1 - k].redo; }
  }

  lemma {:induction false} ManyUndos(s: Session, limit: nat, k: nat)
    ensures
      var done := Run(s, limit, Repeat(Undo, k)).past.done;
      done == s.past.done[..|s.past.done| - Least(k, |s.past.done|)]
    decreases k
  {
    if k > 0 {
      RunRepeat(s, limit, Undo, k);
      ManyUndos(Do(s, limit, Undo), limit, k - 1);
    }
  }

  // ---- histories over the board itself: pending batches, other people, and what becomes of one's own batches ----

  datatype OnBoard = OnBoard(board: Board, past: Past)

  /**
   * What happens to an app's board and history: `parts` are the batches a change goes out in, from batch id `first`,
   * and `q` is the place of a pending batch.
   */
  datatype BoardAct =
    | Change(first: Cid, parts: seq<seq<Op>>)
    | UndoChange(first: Cid, parts: seq<seq<Op>>)
    | RedoChange(first: Cid, parts: seq<seq<Op>>)
    | Others(ops: seq<Op>)   // a batch that is not pending here is confirmed
    | OwnEcho(q: nat)        // a pending batch is confirmed
    | OwnFetched(q: nat)     // a pending batch is confirmed without its id, and stays pending
    | OwnRefused(q: nat)     // a pending batch is dropped
    | Reload(objects: Objects)  // the confirmed board is replaced: a snapshot, with the batches after it

  /** An undo or a redo sends the ops of its step. */
  predicate Possible(s: OnBoard, act: BoardAct) {
    match act
    case Change(_, _) => true
    case UndoChange(_, parts) => s.past.done != [] && Flatten(parts) == s.past.done[|s.past.done| - 1].undo
    case RedoChange(_, parts) => s.past.undone != [] && Flatten(parts) == s.past.undone[|s.past.undone| - 1].redo
    case Others(_) => true
    case Reload(_) => true
    case _ => act.q < |s.board.pending| && IndexOf(s.board.pending, s.board.pending[act.q].cid) == Some(act.q)
  }

  function BoardDo(s: OnBoard, limit: nat, act: BoardAct): OnBoard
    requires Possible(s, act)
  {
    match act
    case Change(first, parts) =>
      OnBoard(AddedAll(s.board, first, parts), Recorded(s.past, limit, Show(s.board), Flatten(parts)))
    case UndoChange(first, parts) => OnBoard(AddedAll(s.board, first, parts), Undone(s.past))
    case RedoChange(first, parts) => OnBoard(AddedAll(s.board, first, parts), Redone(s.past))
    case Others(ops) => s.(board := Confirmed(s.board, ops, None))
    case OwnEcho(q) => s.(board := Confirmed(s.board, s.board.pending[q].ops, Some(s.board.pending[q].cid)))
    case OwnFetched(q) => s.(board := Confirmed(s.board, s.board.pending[q].ops, None))
    case OwnRefused(q) => s.(board := Dropped(s.board, s.board.pending[q].cid))
    case Reload(objects) => s.(board := Loaded(s.board, objects))
  }

  /** Acts that cannot happen are skipped. */
  function BoardRun(s: OnBoard, limit: nat, acts: seq<BoardAct>): OnBoard
    decreases |acts|
  {
    if acts == [] then s
    else BoardRun(if Possible(s, acts[0]) then BoardDo(s, limit, acts[0]) else s, limit, acts[1..])
  }

  function Seen(s: OnBoard): Session {
    Session(Show(s.board), s.past)
  }

  /** The same act, seen on screen. */
  function OnScreen(s: OnBoard, limit: nat, act: BoardAct): Act
    requires Possible(s, act)
  {
    match act
    case Change(_, parts) => Mine(Flatten(parts))
    case UndoChange(_, _) => Undo
    case RedoChange(_, _) => Redo
    case _ => Elsewhere(Show(BoardDo(s, limit, act).board))
  }

  /**
   * Whether the act leaves the register alone, read off the board before it. Somebody else's batch must not write it
   * anew, unless a waiting change covers it; a batch of one's own that comes back must not overtake an older one that
   * wrote something else, and one that is refused must have been covered, or have changed nothing. A board loaded anew
   * must hold what the old one held there, unless covered.
   */
  predicate Leaves(b: Board, act: BoardAct, id: Id, f: Field) {
    match act
    case Others(ops) =>
      var theirs := LastWrite(ops, id, f);
      theirs.None? || LastWrite(PendingOps(b.pending), id, f).Some? || theirs.value == Reg(b.confirmed, id, f)
    case OwnEcho(q) =>
      q < |b.pending| ==>
        var before, own := LastWrite(PendingOps(b.pending[..q]), id, f), LastWrite(b.pending[q].ops, id, f);
        before.None? || own.None? || LastWrite(PendingOps(b.pending[q + 1..]), id, f).Some? || before == own
    case OwnRefused(q) =>
      q < |b.pending| ==>
        var before, own := LastWrite(PendingOps(b.pending[..q]), id, f), LastWrite(b.pending[q].ops, id, f);
        own.None? || LastWrite(PendingOps(b.pending[q + 1..]), id, f).Some?
        || own.value == Overlay(before, Reg(b.confirmed, id, f))
    case Reload(objects) =>
      LastWrite(PendingOps(b.pending), id, f).Some? || Reg(objects, id, f) == Reg(b.confirmed, id, f)
    case _ => true
  }

  /** The register as the batches before, at and after the place `q` make it. */
  lemma ShowsAround(b: Board, q: nat, id: Id, f: Field)
    requires q < |b.pending|
    ensures
      var before := LastWrite(PendingOps(b.pending[..q]), id, f);
      var after := LastWrite(PendingOps(b.pending[q + 1..]), id, f);
      && Reg(Show(b), id, f) ==
           Overlay(after, Overlay(LastWrite(b.pending[q].ops, id, f), Overlay(before, Reg(b.confirmed, id, f))))
      && Reg(Show(b.(pending := Without(b.pending, q))), id, f)
        == Overlay(after, Overlay(before, Reg(b.confirmed, id, f)))
  {
    var before, own, after := PendingOps(b.pending[..q]), b.pending[q].ops, PendingOps(b.pending[q + 1..]);
    PendingOpsAt(b.pending, q);
    LastWriteConcat(before + own, after, id, f);
    LastWriteConcat(before, own, id, f);
    LastWriteConcat(before, after, id, f);
    RegAfter(b.confirmed, PendingOps(b.pending), id, f);
    RegAfter(b.confirmed, PendingOps(Without(b.pending, q)), id, f);
  }

  lemma EchoLeavesIff(s: OnBoard, limit: nat, q: nat, id: Id, f: Field)
    requires Possible(s, OwnEcho(q))
    ensures Reg(Show(BoardDo(s, limit, OwnEcho(q)).board), id, f) == Reg(Show(s.board), id, f)
      <==> Leaves(s.board, OwnEcho(q), id, f)
  {
    var b := s.board;
    var ops := b.pending[q].ops;
    ShowsAround(b, q, id, f);
    ShowsAround(b.(confirmed := ApplyOps(b.confirmed, ops)), q, id, f);
    RegAfter(b.confirmed, ops, id, f);
  }

  lemma RefusalLeavesIff(s: OnBoard, limit: nat, q: nat, id: Id, f: Field)
    requires Possible(s, OwnRefused(q))
    ensures Reg(Show(BoardDo(s, limit, OwnRefused(q)).board), id, f) == Reg(Show(s.board), id, f)
            <==> Leaves(s.board, OwnRefused(q), id, f)
  {
    ShowsAround(s.board, q, id, f);
  }

  lemma OthersLeaveIff(b: Board, ops: seq<Op>, id: Id, f: Field)
    ensures Reg(Show(Confirmed(b, ops, None)), id, f) == Reg(Show(b), id, f) <==> Leaves(b, Others(ops), id, f)
  {
    var mine := PendingOps(b.pending);
    RegAfter(b.confirmed, mine, id, f);
    RegAfter(ApplyOps(b.confirmed, ops), mine, id, f);
    RegAfter(b.confirmed, ops, id, f);
  }

  lemma ReloadLeavesIff(b: Board, objects: Objects, id: Id, f: Field)
    ensures Reg(Show(Loaded(b, objects)), id, f) == Reg(Show(b), id, f) <==> Leaves(b, Reload(objects), id, f)
  {
    RegAfter(b.confirmed, PendingOps(b.pending), id, f);
    RegAfter(objects, PendingOps(b.pending), id, f);
  }

  lemma ElsewhereLeavesIff(s: OnBoard, limit: nat, act: BoardAct, id: Id, f: Field)
    requires Possible(s, act) && !act.Change? && !act.UndoChange? && !act.RedoChange?
    ensures Reg(Show(BoardDo(s, limit, act).board), id, f) == Reg(Show(s.board), id, f) <==> Leaves(s.board, act, id, f)
  {
    match act
    case Others(ops) => OthersLeaveIff(s.board, ops, id, f);
    case OwnEcho(q) => EchoLeavesIff(s, limit, q, id, f);
    case OwnFetched(q) => BoardConvergence.FetchOwnNoFlicker(s.board, q);
    case OwnRefused(q) => RefusalLeavesIff(s, limit, q, id, f);
    case Reload(objects) => ReloadLeavesIff(s.board, objects, id, f);
  }

  /**
   * On the board an act does what it does on screen; and one that is no step of this person's own leaves a register
   * alone if and only if the condition above holds before it.
   */
  lemma BoardRefines(s: OnBoard, limit: nat, act: BoardAct, id: Id, f: Field)
    requires Possible(s, act)
    ensures Seen(BoardDo(s, limit, act)) == Do(Seen(s), limit, OnScreen(s, limit, act))
    ensures OnScreen(s, limit, act).Elsewhere? ==>
      (Reg(Show(BoardDo(s, limit, act).board), id, f) == Reg(Show(s.board), id, f) <==> Leaves(s.board, act, id, f))
  {
    match act
    case Change(first, parts) => ChangeShows(s.board, first, parts);
    case UndoChange(first, parts) => ChangeShows(s.board, first, parts);
    case RedoChange(first, parts) => ChangeShows(s.board, first, parts);
    case _ => ElsewhereLeavesIff(s, limit, act, id, f);
  }

  lemma {:induction false} BoardRunBounded(s: OnBoard, limit: nat, acts: seq<BoardAct>)
    requires Bounded(s.past, limit)
    ensures Bounded(BoardRun(s, limit, acts).past, limit)
    decreases |acts|
  {
    if acts != [] {
      BoardRunBounded(if Possible(s, acts[0]) then BoardDo(s, limit, acts[0]) else s, limit, acts[1..]);
    }
  }

  function Changes(acts: seq<BoardAct>): nat {
    if acts == [] then 0 else (if acts[0].Change? then 1 else 0) + Changes(acts[1..])
  }

  /** Every act of the run leaves the register alone, but for this person's own steps. */
  predicate BoardLeftAlone(s: OnBoard, limit: nat, acts: seq<BoardAct>, id: Id, f: Field)
    decreases |acts|
  {
    acts == [] || (
      if Possible(s, acts[0])
      then Leaves(s.board, acts[0], id, f) && BoardLeftAlone(BoardDo(s, limit, acts[0]), limit, acts[1..], id, f)
      else BoardLeftAlone(s, limit, acts[1..], id, f))
  }

  lemma {:induction false} BoardRunFaithful(
      s: OnBoard, limit: nat, acts: seq<BoardAct>, base: Option<Value>, id: Id, f: Field)
    returns (base': Option<Value>)
    requires Faithful(Seen(s), base, id, f) && BoardLeftAlone(s, limit, acts, id, f)
    ensures Faithful(Seen(BoardRun(s, limit, acts)), base', id, f)
    ensures |Timeline(s.past)| + Changes(acts) <= limit ==> base' == base
    decreases |acts|
  {
    base' := base;
    if acts != [] {
      var next := s;
      if Possible(s, acts[0]) {
        next := BoardDo(s, limit, acts[0]);
        BoardRefines(s, limit, acts[0], id, f);
        TimelineGrowth(Seen(s), limit, OnScreen(s, limit, acts[0]));
        base' := DoFaithful(Seen(s), limit, OnScreen(s, limit, acts[0]), base, id, f);
      }
      base' := BoardRunFaithful(next, limit, acts[1..], base', id, f);
    }
  }

  /**
   * On the board itself, with changes waiting, coming back in any order or being refused, and other people drawing: a
   * register all that leaves alone holds exactly what the steps in effect leave on top of what it held at first.
   */
  lemma BoardUndoExact(b: Board, limit: nat, acts: seq<BoardAct>, id: Id, f: Field)
    requires BoardLeftAlone(OnBoard(b, Past([], [])), limit, acts, id, f) && Changes(acts) <= limit
    ensures
      var s := BoardRun(OnBoard(b, Past([], [])), limit, acts);
      Reg(Show(s.board), id, f) == Overlay(LastWrite(Redos(s.past.done), id, f), Reg(Show(b), id, f))
  {
    var s := BoardRun(OnBoard(b, Past([], [])), limit, acts);
    var base := BoardRunFaithful(OnBoard(b, Past([], [])), limit, acts, Reg(Show(b), id, f), id, f);
    assert Timeline(s.past)[..|s.past.done|] == s.past.done;
  }

  /** Nobody else writes the register; own batches come back oldest first or are fetched; no refusal, no load. */
  ghost predicate Quiet(acts: seq<BoardAct>, id: Id, f: Field) {
    forall k :: 0 <= k < |acts| ==>
      && (acts[k].Others? ==> !Writes(acts[k].ops, id, f))
      && (acts[k].OwnEcho? ==> acts[k].q == 0)
      && !acts[k].OwnRefused? && !acts[k].Reload?
  }

  /** Such a run leaves the register alone. */
  lemma {:induction false} QuietLeavesAlone(s: OnBoard, limit: nat, acts: seq<BoardAct>, id: Id, f: Field)
    requires Quiet(acts, id, f)
    ensures BoardLeftAlone(s, limit, acts, id, f)
    decreases |acts|
  {
    if acts != [] {
      if acts[0].Others? { LastWriteIffWrites(acts[0].ops, id, f); }
      QuietLeavesAlone(if Possible(s, acts[0]) then BoardDo(s, limit, acts[0]) else s, limit, acts[1..], id, f);
    }
  }
}
