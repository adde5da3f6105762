/** Global hotkeys and push-to-talk: what goes down is reported up exactly once, whatever happens in between. */
module Hotkeys {
  import opened Common

  const MOUSE := 0x10000
  const MOD_CTRL: bv8 := 1
  const MOD_SHIFT: bv8 := 2
  const MOD_ALT: bv8 := 4
  const MOD_META: bv8 := 8
  const ALL_MODS: bv8 := 15

  datatype Action = Mute | Deafen | Clip | Whisper1 | Whisper2 | Whisper3 | Priority
  datatype Hotkey = Hotkey(code: int, mods: bv8)
  type Binds = map<Action, Hotkey>

  const HOTKEY_ACTIONS := [Mute, Deafen, Clip, Whisper1, Whisper2, Whisper3, Priority]

  predicate IsHold(a: Action) {
    a.Whisper1? || a.Whisper2? || a.Whisper3? || a.Priority?
  }

  /** Left and right keys share a bit; other keys have none. */
  function ModifierBit(code: int): bv8 {
    if code == 29 || code == 3613 then MOD_CTRL
    else if code == 42 || code == 54 then MOD_SHIFT
    else if code == 56 || code == 3640 then MOD_ALT
    else if code == 3675 || code == 3676 then MOD_META
    else 0
  }

  /** The held modifiers a binding is compared with: a modifier key does not count as its own modifier. */
  function OtherMods(code: int, mods: bv8): bv8 {
    mods & ALL_MODS & !ModifierBit(code)
  }

  // ---- the matcher ----

  /** `held`: keys whose press fired and which are not up yet; `holding`: the hold actions each of them started. */
  datatype Matcher = Matcher(binds: Binds, held: set<int>, holding: map<int, seq<Action>>)

  predicate Bound(binds: Binds, a: Action, code: int, mods: bv8) {
    a in binds && binds[a].code == code && binds[a].mods == OtherMods(code, mods)
  }

  function Hits(binds: Binds, actions: seq<Action>, code: int, mods: bv8): seq<Action> {
    if actions == [] then []
    else
      (if Bound(binds, actions[0], code, mods) then [actions[0]] else []) + Hits(binds, actions[1..], code, mods)
  }

  function OnlyHolds(actions: seq<Action>): seq<Action> {
    if actions == [] then []
    else (if IsHold(actions[0]) then [actions[0]] else []) + OnlyHolds(actions[1..])
  }

  /** What a press triggers: nothing while the key is already held. */
  function Triggered(m: Matcher, code: int, mods: bv8): seq<Action> {
    if code in m.held then [] else Hits(m.binds, HOTKEY_ACTIONS, code, mods)
  }

  function Pressed(m: Matcher, code: int, mods: bv8): Matcher {
    var hit := Triggered(m, code, mods);
    var holds := OnlyHolds(hit);
    Matcher(
      m.binds,
      if hit != [] then m.held + {code} else m.held,
      if holds != [] then m.holding[code := holds] else m.holding)
  }

  /** What a release ends. */
  function Ended(m: Matcher, code: int): seq<Action> {
    if code in m.holding then m.holding[code] else []
  }

  function Lifted(m: Matcher, code: int): Matcher {
    Matcher(m.binds, m.held - {code}, m.holding - {code})
  }

  function Cleared(m: Matcher, binds: Binds): Matcher {
    Matcher(binds, {}, map[])
  }

  ghost predicate Distinct(actions: seq<Action>) {
    forall i, j :: 0 <= i < j < |actions| ==> actions[i] != actions[j]
  }

  lemma DistinctConcat(a: seq<Action>, b: seq<Action>)
    requires Distinct(a) && Distinct(b) && forall x :: x in a ==> x !in b
    ensures Distinct(a + b)
  {
    forall i, j | 0 <= i < j < |a + b| ensures (a + b)[i] != (a + b)[j] {
      if i < |a| <= j { assert a[i] in a && b[j - |a|] in b; }
    }
  }

  /** Whether a hold action is down, by some key. */
  ghost predicate Holding(m: Matcher, a: Action) {
    exists code :: code in m.holding && a in m.holding[code]
  }

  /** Each hold action down is so by its own key, which counts as held. */
  ghost predicate MatcherOk(m: Matcher) {
    forall code :: code in m.holding ==>
      && code in m.held && Distinct(m.holding[code])
      && forall a :: a in m.holding[code] ==> IsHold(a) && a in m.binds && m.binds[a].code == code
  }

  lemma {:induction false} HitsAre(binds: Binds, actions: seq<Action>, code: int, mods: bv8)
    requires Distinct(actions)
    ensures Distinct(Hits(binds, actions, code, mods))
    ensures forall a :: a in Hits(binds, actions, code, mods) <==> a in actions && Bound(binds, a, code, mods)
  {
    if actions != [] {
      HitsAre(binds, actions[1..], code, mods);
      assert actions == [actions[0]] + actions[1..];
      assert forall a :: a in actions[1..] ==> a != actions[0];
    }
  }

  lemma {:induction false} OnlyHoldsAre(actions: seq<Action>)
    requires Distinct(actions)
    ensures Distinct(OnlyHolds(actions))
    ensures forall a :: a in OnlyHolds(actions) <==> a in actions && IsHold(a)
  {
    if actions != [] {
      OnlyHoldsAre(actions[1..]);
      assert actions == [actions[0]] + actions[1..];
      assert forall a :: a in actions[1..] ==> a != actions[0];
    }
  }

  /** A press triggers distinct actions of its own key, none of which is already down. */
  lemma TriggeredAre(m: Matcher, code: int, mods: bv8)
    requires MatcherOk(m)
    ensures Distinct(Triggered(m, code, mods)) && Distinct(OnlyHolds(Triggered(m, code, mods)))
    ensures forall a :: a in Triggered(m, code, mods) ==> Bound(m.binds, a, code, mods) && !Holding(m, a)
    ensures forall a :: a in OnlyHolds(Triggered(m, code, mods)) <==> a in Triggered(m, code, mods) && IsHold(a)
  {
    HitsAre(m.binds, HOTKEY_ACTIONS, code, mods);
    OnlyHoldsAre(Triggered(m, code, mods));
  }

  lemma PressedOk(m: Matcher, code: int, mods: bv8)
    requires MatcherOk(m)
    ensures MatcherOk(Pressed(m, code, mods))
    ensures forall a ::
      Holding(Pressed(m, code, mods), a) <==> Holding(m, a) || (IsHold(a) && a in Triggered(m, code, mods))
  {
    TriggeredAre(m, code, mods);
    var next, holds := Pressed(m, code, mods), OnlyHolds(Triggered(m, code, mods));
    forall a ensures Holding(next, a) <==> Holding(m, a) || a in holds {
      if Holding(m, a) {
        var c :| c in m.holding && a in m.holding[c];
        assert c in next.holding && a in next.holding[c];
      }
      if a in holds { assert code in next.holding && a in next.holding[code]; }
    }
  }

  lemma LiftedOk(m: Matcher, code: int)
    requires MatcherOk(m)
    ensures MatcherOk(Lifted(m, code)) && Distinct(Ended(m, code))
    ensures forall a :: a in Ended(m, code) ==> IsHold(a) && Holding(m, a)
    ensures forall a :: Holding(Lifted(m, code), a) <==> Holding(m, a) && a !in Ended(m, code)
  {
    forall a ensures Holding(Lifted(m, code), a) <==> Holding(m, a) && a !in Ended(m, code) {
      if Holding(m, a) && a !in Ended(m, code) {
        var c :| c in m.holding && a in m.holding[c];
        assert c in Lifted(m, code).holding;
      }
    }
  }

  class HotkeyMatcher {
    var binds: Binds
    var held: set<int>
    var holding: map<int, seq<Action>>

    function Abs(): Matcher
      reads this
    {
      Matcher(binds, held, holding)
    }

    constructor ()
      ensures Abs() == Matcher(map[], {}, map[])
    {
      binds, held, holding := map[], {}, map[];
    }

    method Set(binds: Binds)
      modifies this
      ensures Abs() == Cleared(old(Abs()), binds)
    {
      this.binds := binds;
      held := {};
      holding := map[];
    }

    /** Hold actions still down, each once; the keys may come in any order. */
    method Release() returns (all: seq<Action>)
      requires MatcherOk(Abs())
      modifies this
      ensures Abs() == Cleared(old(Abs()), old(binds))
      ensures Distinct(all) && forall a :: a in all <==> Holding(old(Abs()), a)
    {
      all := [];
      ghost var m := Abs();
      var left := holding.Keys;
      while left != {}
        invariant left <= holding.Keys && Abs() == m
        invariant Distinct(all)
        invariant forall a :: a in all <==> exists c :: c in m.holding && c !in left && a in m.holding[c]
      {
        assert (forall c: int :: c !in left) ==> left == {};
        var code: int :| code in left;
        forall a | a in all ensures a !in holding[code] {
          var c :| c in m.holding && c !in left && a in m.holding[c];
          assert m.binds[a].code == c;
        }
        DistinctConcat(all, holding[code]);
        left := left - {code};
        all := all + holding[code];
      }
      holding := map[];
      held := {};
    }

    /** Nothing while the key counts as held; and any hit makes it count as held. */
    method Down(code: int, mods: bv8) returns (hit: seq<Action>)
      modifies this
      ensures Abs() == Pressed(old(Abs()), code, mods) && hit == Triggered(old(Abs()), code, mods)
    {
      if code in held { return []; }
      hit := Hits(binds, HOTKEY_ACTIONS, code, mods);
      if hit != [] { held := held + {code}; }
      var holds := OnlyHolds(hit);
      if holds != [] { holding := holding[code := holds]; }
    }

    /** Exactly what this key started, whatever the bindings or modifiers are by now. */
    method Up(code: int) returns (released: seq<Action>)
      modifies this
      ensures Abs() == Lifted(old(Abs()), code) && released == Ended(old(Abs()), code)
    {
      held := held - {code};
      released := if code in holding then holding[code] else [];
      holding := holding - {code};
    }
  }

  // ---- what is reported ----

  datatype Out = Hold(a: Action, down: bool) | Talk(down: bool) | Fire(action: Action)

  /** Whether the last report of hold action `a` was down. */
  function IsDown(trace: seq<Out>, a: Action): bool {
    if trace == [] then false
    else
      var last := trace[|trace| - 1];
      if last.Hold? && last.a == a then last.down else IsDown(trace[..|trace| - 1], a)
  }

  /** Whether the last report of push-to-talk was down. */
  function IsTalking(trace: seq<Out>): bool {
    if trace == [] then false
    else
      var last := trace[|trace| - 1];
      if last.Talk? then last.down else IsTalking(trace[..|trace| - 1])
  }

  /** Down and up alternate, starting with down, for every hold action and for push-to-talk. */
  predicate Alternating(trace: seq<Out>) {
    trace == [] || (
      var front, last := trace[..|trace| - 1], trace[|trace| - 1];
      && Alternating(front)
      && (last.Hold? ==> IsDown(front, last.a) != last.down)
      && (last.Talk? ==> IsTalking(front) != last.down))
  }

  function Report(a: Action, down: bool): Out {
    if IsHold(a) then Hold(a, down) else Fire(a)
  }

  function Reports(actions: seq<Action>, down: bool): seq<Out> {
    seq(|actions|, i requires 0 <= i < |actions| => Report(actions[i], down))
  }

  lemma OneMoreOut(trace: seq<Out>, o: Out)
    requires Alternating(trace)
    requires o.Hold? ==> IsDown(trace, o.a) != o.down
    requires o.Talk? ==> IsTalking(trace) != o.down
    ensures Alternating(trace + [o])
    ensures forall a :: IsDown(trace + [o], a) == (if o.Hold? && o.a == a then o.down else IsDown(trace, a))
    ensures IsTalking(trace + [o]) == (if o.Talk? then o.down else IsTalking(trace))
  {
    assert (trace + [o])[..|trace|] == trace;
  }

  lemma ReportsSnoc(trace: seq<Out>, actions: seq<Action>, a: Action, down: bool)
    ensures trace + Reports(actions + [a], down) == trace + Reports(actions, down) + [Report(a, down)]
  {
    assert Reports(actions + [a], down) == Reports(actions, down) + [Report(a, down)];
  }

  /** None of the hold actions is in that position yet. */
  ghost predicate Due(trace: seq<Out>, actions: seq<Action>, down: bool) {
    forall a :: a in actions && IsHold(a) ==> IsDown(trace, a) != down
  }

  /** After `more` the hold actions are in that position, and all else is as after `trace`. */
  ghost predicate Reported(trace: seq<Out>, more: seq<Out>, actions: seq<Action>, down: bool) {
    && Alternating(more)
    && (forall a :: IsDown(more, a) == if a in actions && IsHold(a) then down else IsDown(trace, a))
    && IsTalking(more) == IsTalking(trace)
  }

  lemma OneMoreReport(trace: seq<Out>, more: seq<Out>, actions: seq<Action>, a: Action, down: bool)
    requires Reported(trace, more, actions, down) && Due(trace, actions + [a], down) && a !in actions
    ensures Reported(trace, more + [Report(a, down)], actions + [a], down)
  {
    assert a in actions + [a];
    OneMoreOut(more, Report(a, down));
  }

  /** Reporting distinct actions that were not yet in that position keeps the trace alternating. */
  lemma {:induction false} ReportsAlternate(trace: seq<Out>, actions: seq<Action>, down: bool)
    requires Alternating(trace) && Distinct(actions) && Due(trace, actions, down)
    ensures Reported(trace, trace + Reports(actions, down), actions, down)
  {
    if actions == [] {
      assert trace + Reports(actions, down) == trace;
    } else {
      var front, last := actions[..|actions| - 1], actions[|actions| - 1];
      assert actions == front + [last];
      ReportsAlternate(trace, front, down);
      ReportsSnoc(trace, front, last, down);
      OneMoreReport(trace, trace + Reports(front, down), front, last, down);
    }
  }

  // ---- capturing a key for the settings page ----

  datatype Capture = NoCapture | KeyCapture | ComboCapture(modifier: Option<int>)

  /** What a captured press or release does to the capture; a negative code cancels it. */
  function Captured(c: Capture, code: int, mods: bv8, down: bool): Capture {
    match c
    case NoCapture => c
    case KeyCapture => if !down || code == MOUSE + 1 || code == MOUSE + 2 then c else NoCapture
    case ComboCapture(modifier) =>
      if code < 0 then NoCapture
      else if down then
        if ModifierBit(code) != 0 then ComboCapture(Some(code))
        else if code == MOUSE + 1 || code == MOUSE + 2 then ComboCapture(None)
        else NoCapture
      else if Some(code) != modifier then c
      else NoCapture
  }

  /** The modifiers held: the hook's own flags, and the modifier keys seen down and not up. */
  class ModifierTracker {
    var held: bv8

    constructor ()
      ensures held == 0
    {
      held := 0;
    }

    method Update(code: int, flags: bv8, down: bool) returns (mods: bv8)
      modifies this
      ensures held == if down then old(held) | ModifierBit(code) else old(held) & !ModifierBit(code)
      ensures ModifierBit(code) == 0 ==> held == old(held)
      ensures mods == (flags | held) & ALL_MODS
    {
      var bit := ModifierBit(code);
      if bit != 0 && down { held := held | bit; }
      else if bit != 0 { held := held & !bit; }
      mods := (flags | held) & ALL_MODS;
    }
  }

  // ---- push-to-talk, the hotkeys and a capture at one desk ----

  /** `down`: push-to-talk; `trace`: every call of `onHold`, `onChange` and `onHotkey`. */
  datatype Desk = Desk(key: Option<int>, down: bool, started: bool, capture: Capture, matcher: Matcher, trace: seq<Out>)

  datatype DeskEvent =
    | Starting(ok: bool)                 // `ok`: whether the system lets the hook start
    | Stopping
    | Rebinding(binds: Binds)
    | SettingKey(key: Option<int>)
    | Capturing(combo: bool)
    | Cancelling
    | Pressing(code: int, held: bv8)
    | Releasing(code: int, held: bv8)

  /** What was reported down and not up is what is down. */
  ghost predicate DeskOk(d: Desk) {
    && MatcherOk(d.matcher)
    && Alternating(d.trace)
    && (forall a :: IsDown(d.trace, a) <==> Holding(d.matcher, a))
    && IsTalking(d.trace) == d.down
  }

  /** Each hold action down was reported up, once, and nothing else was reported. */
  ghost predicate AllLifted(m: Matcher, trace: seq<Out>, more: seq<Out>) {
    exists all :: Distinct(all) && (forall a :: a in all <==> Holding(m, a)) && more == trace + Reports(all, false)
  }

  function Talked(d: Desk, code: int, down: bool): seq<Out> {
    if d.key == Some(code) && d.down != down then [Talk(down)] else []
  }

  ghost predicate Step(d: Desk, e: DeskEvent, next: Desk) {
    match e
    case Starting(ok) => next == d.(started := d.started || ok)
    case Stopping =>
      && AllLifted(d.matcher, d.trace, next.trace)
      && next == d.(started := false, matcher := Cleared(d.matcher, d.matcher.binds), trace := next.trace)
    case Rebinding(binds) =>
      && AllLifted(d.matcher, d.trace, next.trace)
      && next == d.(matcher := Cleared(d.matcher, binds), trace := next.trace)
    case SettingKey(key) =>
      next == d.(key := key, down := false, trace := d.trace + if d.down then [Talk(false)] else [])
    case Capturing(combo) =>
      next == d.(capture := if !d.started then d.capture else if combo then ComboCapture(None) else KeyCapture)
    case Cancelling => next == d.(capture := NoCapture)
    case Pressing(code, held) =>
      next == if d.capture != NoCapture then d.(capture := Captured(d.capture, code, held, true))
              else d.(matcher := Pressed(d.matcher, code, held), down := d.down || d.key == Some(code),
                      trace := d.trace + Reports(Triggered(d.matcher, code, held), true) + Talked(d, code, true))
    case Releasing(code, held) =>
      var lifted := d.(matcher := Lifted(d.matcher, code), trace := d.trace + Reports(Ended(d.matcher, code), false));
      next == if d.capture != NoCapture then lifted.(capture := Captured(d.capture, code, held, false))
              else lifted.(down := d.down && d.key != Some(code), trace := lifted.trace + Talked(d, code, false))
  }

  lemma AllLiftedOk(d: Desk, binds: Binds, trace: seq<Out>)
    requires DeskOk(d) && AllLifted(d.matcher, d.trace, trace)
    ensures DeskOk(d.(matcher := Cleared(d.matcher, binds), trace := trace))
  {
    var all :| Distinct(all) && (forall a :: a in all <==> Holding(d.matcher, a))
      && trace == d.trace + Reports(all, false);
    ReportsAlternate(d.trace, all, false);
  }

  lemma TalkedOk(d: Desk, code: int, down: bool, trace: seq<Out>)
    requires Alternating(trace) && IsTalking(trace) == d.down
    ensures Alternating(trace + Talked(d, code, down))
    ensures IsTalking(trace + Talked(d, code, down)) == if d.key == Some(code) then down else d.down
    ensures forall a :: IsDown(trace + Talked(d, code, down), a) == IsDown(trace, a)
  {
    if d.key == Some(code) && d.down != down {
      OneMoreOut(trace, Talk(down));
    } else {
      assert trace + [] == trace;
    }
  }

  lemma PressingOk(d: Desk, code: int, held: bv8, next: Desk)
    requires DeskOk(d) && Step(d, Pressing(code, held), next)
    ensures DeskOk(next)
  {
    if d.capture == NoCapture {
      var hit := Triggered(d.matcher, code, held);
      TriggeredAre(d.matcher, code, held);
      PressedOk(d.matcher, code, held);
      ReportsAlternate(d.trace, hit, true);
      TalkedOk(d, code, true, d.trace + Reports(hit, true));
    }
  }

  lemma ReleasingOk(d: Desk, code: int, held: bv8, next: Desk)
    requires DeskOk(d) && Step(d, Releasing(code, held), next)
    ensures DeskOk(next)
  {
    var ended := Ended(d.matcher, code);
    LiftedOk(d.matcher, code);
    ReportsAlternate(d.trace, ended, false);
    TalkedOk(d, code, false, d.trace + Reports(ended, false));
  }

  /** Every event keeps what was reported and what is down together, and the reports alternating. */
  lemma StepOk(d: Desk, e: DeskEvent, next: Desk)
    requires DeskOk(d) && Step(d, e, next)
    ensures DeskOk(next)
  {
    match e
    case Stopping => AllLiftedOk(d, d.matcher.binds, next.trace);
    case Rebinding(binds) => AllLiftedOk(d, binds, next.trace);
    case SettingKey(_) =>
      if d.down { OneMoreOut(d.trace, Talk(false)); } else { assert d.trace + [] == d.trace; }
    case Pressing(code, held) => PressingOk(d, code, held, next);
    case Releasing(code, held) => ReleasingOk(d, code, held, next);
    case _ =>
  }

  /** After a stop or a rebind nothing is down. */
  lemma NothingStaysDown(d: Desk, e: DeskEvent, next: Desk)
    requires DeskOk(d) && Step(d, e, next) && (e.Stopping? || e.Rebinding?)
    ensures forall a :: !IsDown(next.trace, a)
  {
    StepOk(d, e, next);
  }

  class PushToTalk {
    var key: Option<int>
    var down: bool
    var started: bool
    var capture: Capture
    const hotkeys: HotkeyMatcher
    const mods: ModifierTracker
    var trace: seq<Out>

    function Abs(): Desk
      reads this, hotkeys
    {
      Desk(key, down, started, capture, hotkeys.Abs(), trace)
    }

    ghost predicate Valid()
      reads this, hotkeys
    {
      DeskOk(Abs())
    }

    constructor ()
      ensures Valid() && trace == [] && !started && fresh(hotkeys) && fresh(mods)
    {
      key, down, started, capture, trace := None, false, false, NoCapture, [];
      hotkeys := new HotkeyMatcher();
      mods := new ModifierTracker();
    }

    method Start(ok: bool) returns (running: bool)
      requires Valid()
      modifies this`started
      ensures Valid() && Step(old(Abs()), Starting(ok), Abs()) && running == started
    {
      if !started { started := ok; }
      running := started;
    }

    method ReleaseHolds()
      requires Valid()
      modifies this`trace, hotkeys
      ensures AllLifted(old(hotkeys.Abs()), old(trace), trace)
      ensures hotkeys.Abs() == Cleared(old(hotkeys.Abs()), old(hotkeys.binds))
    {
      var all := hotkeys.Release();
      trace := trace + Reports(all, false);
    }

    method Stop()
      requires Valid()
      modifies this`trace, this`started, hotkeys
      ensures Valid() && Step(old(Abs()), Stopping, Abs()) && forall a :: !IsDown(trace, a)
    {
      started := false;
      ReleaseHolds();
      NothingStaysDown(old(Abs()), Stopping, Abs());
      StepOk(old(Abs()), Stopping, Abs());
    }

    method SetHotkeys(binds: Binds)
      requires Valid()
      modifies this`trace, hotkeys
      ensures Valid() && Step(old(Abs()), Rebinding(binds), Abs()) && forall a :: !IsDown(trace, a)
    {
      ReleaseHolds();
      hotkeys.Set(binds);
      NothingStaysDown(old(Abs()), Rebinding(binds), Abs());
      StepOk(old(Abs()), Rebinding(binds), Abs());
    }

    method SetKey(code: Option<int>)
      requires Valid()
      modifies this`key, this`down, this`trace
      ensures Valid() && Step(old(Abs()), SettingKey(code), Abs())
    {
      key := code;
      if down {
        down := false;
        trace := trace + [Talk(false)];
      }
      StepOk(old(Abs()), SettingKey(code), Abs());
    }

    method CancelCapture()
      requires Valid()
      modifies this`capture
      ensures Valid() && Step(old(Abs()), Cancelling, Abs())
    {
      capture := Captured(capture, -1, 0, true);
    }

    method CaptureNext(combo: bool)
      requires Valid()
      modifies this`capture
      ensures Valid() && Step(old(Abs()), Capturing(combo), Abs())
    {
      if !started { return; }
      CancelCapture();
      capture := if combo then ComboCapture(None) else KeyCapture;
    }

    method Press(code: int, held: bv8)
      requires Valid()
      modifies this`trace, this`down, this`capture, hotkeys
      ensures Valid() && Step(old(Abs()), Pressing(code, held), Abs())
    {
      if capture != NoCapture {
        capture := Captured(capture, code, held, true);
        return;
      }
      var hit := hotkeys.Down(code, held);
      trace := trace + Reports(hit, true);
      if key == Some(code) && !down {
        down := true;
        trace := trace + [Talk(true)];
      }
      StepOk(old(Abs()), Pressing(code, held), Abs());
    }

    method ReleaseKey(code: int, held: bv8)
      requires Valid()
      modifies this`trace, this`down, this`capture, hotkeys
      ensures Valid() && Step(old(Abs()), Releasing(code, held), Abs())
    {
      var released := hotkeys.Up(code);
      trace := trace + Reports(released, false);
      if capture != NoCapture {
        capture := Captured(capture, code, held, false);
      } else if key == Some(code) && down {
        down := false;
        trace := trace + [Talk(false)];
      }
      StepOk(old(Abs()), Releasing(code, held), Abs());
    }

    /** The hook's events carry its own modifier flags. */
    method OnKeyDown(code: int, flags: bv8)
      requires Valid()
      modifies this, hotkeys, mods
      ensures mods.held == old(mods.held) | ModifierBit(code)
      ensures Valid() && Step(old(Abs()), Pressing(code, (flags | mods.held) & ALL_MODS), Abs())
    {
      var held := mods.Update(code, flags, true);
      Press(code, held);
    }

    method OnKeyUp(code: int, flags: bv8)
      requires Valid()
      modifies this, hotkeys, mods
      ensures mods.held == old(mods.held) & !ModifierBit(code)
      ensures Valid() && Step(old(Abs()), Releasing(code, (flags | mods.held) & ALL_MODS), Abs())
    {
      var held := mods.Update(code, flags, false);
      ReleaseKey(code, held);
    }

    /** Mouse buttons are keys beyond all others, and no modifiers. */
    method OnMouseDown(button: nat, flags: bv8)
      requires Valid()
      modifies this, hotkeys, mods
      ensures mods.held == old(mods.held)
      ensures Valid() && Step(old(Abs()), Pressing(MOUSE + button, (flags | mods.held) & ALL_MODS), Abs())
    {
      var held := mods.Update(0, flags, true);
      Press(MOUSE + button, held);
    }

    method OnMouseUp(button: nat, flags: bv8)
      requires Valid()
      modifies this, hotkeys, mods
      ensures mods.held == old(mods.held)
      ensures Valid() && Step(old(Abs()), Releasing(MOUSE + button, (flags | mods.held) & ALL_MODS), Abs())
    {
      var held := mods.Update(0, flags, false);
      ReleaseKey(MOUSE + button, held);
    }
  }

  // ---- over time ----

  ghost predicate History(ds: seq<Desk>, events: seq<DeskEvent>) {
    |ds| == |events| + 1 && DeskOk(ds[0]) && forall k :: 0 <= k < |events| ==> Step(ds[k], events[k], ds[k + 1])
  }

  lemma {:induction false} HistoryOk(ds: seq<Desk>, events: seq<DeskEvent>, k: nat)
    requires History(ds, events) && k < |ds|
    ensures DeskOk(ds[k])
  {
    if k > 0 {
      HistoryOk(ds, events, k - 1);
      StepOk(ds[k - 1], events[k - 1], ds[k]);
    }
  }

  /** The action was reported between two moments: fired, or down. */
  ghost predicate ReportedOn(a: Action, d: Desk, next: Desk) {
    d.trace <= next.trace && Report(a, true) in next.trace[|d.trace|..]
  }

  /** What lets a key fire again. */
  predicate Frees(e: DeskEvent, code: int) {
    e.Stopping? || e.Rebinding? || (e.Releasing? && e.code == code)
  }

  lemma ReportsOnlyThat(actions: seq<Action>, down: bool, o: Out)
    requires o in Reports(actions, down)
    ensures exists a :: a in actions && o == Report(a, down)
  {
    var k :| 0 <= k < |actions| && Reports(actions, down)[k] == o;
    assert actions[k] in actions;
  }

  lemma UpsAreNotDowns(actions: seq<Action>, a: Action)
    requires forall h :: h in actions ==> IsHold(h)
    ensures Report(a, true) !in Reports(actions, false)
  {
    if Report(a, true) in Reports(actions, false) { ReportsOnlyThat(actions, false, Report(a, true)); }
  }

  lemma AddedIs(d: Desk, next: Desk, added: seq<Out>, a: Action)
    requires next.trace == d.trace + added
    ensures ReportedOn(a, d, next) <==> Report(a, true) in added
  {
    assert next.trace[|d.trace|..] == added;
  }

  lemma LiftedReportsNone(d: Desk, next: Desk, a: Action)
    requires DeskOk(d) && AllLifted(d.matcher, d.trace, next.trace)
    ensures !ReportedOn(a, d, next)
  {
    var all :| Distinct(all) && (forall h :: h in all <==> Holding(d.matcher, h))
      && next.trace == d.trace + Reports(all, false);
    UpsAreNotDowns(all, a);
    AddedIs(d, next, Reports(all, false), a);
  }

  lemma ReleaseReportsNone(d: Desk, code: int, held: bv8, next: Desk, a: Action)
    requires DeskOk(d) && Step(d, Releasing(code, held), next)
    ensures !ReportedOn(a, d, next)
  {
    var ups := Reports(Ended(d.matcher, code), false);
    var talked := if d.capture != NoCapture then [] else Talked(d, code, false);
    LiftedOk(d.matcher, code);
    UpsAreNotDowns(Ended(d.matcher, code), a);
    assert next.trace == d.trace + (ups + talked);
    AddedIs(d, next, ups + talked, a);
  }

  lemma QuietReportsNone(d: Desk, e: DeskEvent, next: Desk, a: Action)
    requires DeskOk(d) && Step(d, e, next) && (e.Starting? || e.SettingKey? || e.Capturing? || e.Cancelling?)
    ensures !ReportedOn(a, d, next)
  {
    var added := if e.SettingKey? && d.down then [Talk(false)] else [];
    assert next.trace == d.trace + added;
    AddedIs(d, next, added, a);
  }

  lemma DownsAreTheirs(actions: seq<Action>, talked: seq<Out>, a: Action)
    requires forall o :: o in talked ==> o.Talk?
    ensures Report(a, true) in Reports(actions, true) + talked ==> a in actions
  {
    if Report(a, true) in Reports(actions, true) { ReportsOnlyThat(actions, true, Report(a, true)); }
  }

  lemma PressReports(d: Desk, code: int, held: bv8, next: Desk, a: Action)
    requires DeskOk(d) && Step(d, Pressing(code, held), next)
    ensures ReportedOn(a, d, next) ==>
      && d.capture == NoCapture && a in Triggered(d.matcher, code, held)
      && Bound(d.matcher.binds, a, code, held) && code !in d.matcher.held && code in next.matcher.held
  {
    var hit, talked := Triggered(d.matcher, code, held), Talked(d, code, true);
    if d.capture != NoCapture {
      AddedIs(d, next, [], a);
    } else {
      assert next.trace == d.trace + (Reports(hit, true) + talked);
      AddedIs(d, next, Reports(hit, true) + talked, a);
      DownsAreTheirs(hit, talked, a);
      TriggeredAre(d.matcher, code, held);
    }
  }

  /** A report comes from a press of the key the action is bound to, with no capture pending, and marks the key held. */
  lemma ReportedBy(d: Desk, e: DeskEvent, next: Desk, a: Action)
    requires DeskOk(d) && Step(d, e, next) && ReportedOn(a, d, next)
    ensures e.Pressing? && d.capture == NoCapture && a in Triggered(d.matcher, e.code, e.held)
    ensures Bound(d.matcher.binds, a, e.code, e.held) && e.code !in d.matcher.held && e.code in next.matcher.held
  {
    match e
    case Stopping => LiftedReportsNone(d, next, a);
    case Rebinding(_) => LiftedReportsNone(d, next, a);
    case Releasing(code, held) => ReleaseReportsNone(d, code, held, next, a);
    case Pressing(code, held) => PressReports(d, code, held, next, a);
    case _ => QuietReportsNone(d, e, next, a);
  }

  lemma {:induction false} HeldUntilFreed(ds: seq<Desk>, events: seq<DeskEvent>, i: nat, j: nat, code: int)
    requires History(ds, events) && i <= j < |ds| && code in ds[i].matcher.held
    requires forall k :: i <= k < j ==> !Frees(events[k], code)
    ensures code in ds[j].matcher.held && ds[j].matcher.binds == ds[i].matcher.binds
    decreases j
  {
    if i < j {
      HeldUntilFreed(ds, events, i, j - 1, code);
      assert Step(ds[j - 1], events[j - 1], ds[j]);
    }
  }

  /**
   * In every history, whatever captures, stops and rebinds there are: between two reports of an action its key was
   * released, the hook stopped or the hotkeys changed.
   */
  lemma FiresOnce(ds: seq<Desk>, events: seq<DeskEvent>, i: nat, j: nat, a: Action)
    requires History(ds, events) && i < j < |events|
    requires ReportedOn(a, ds[i], ds[i + 1]) && ReportedOn(a, ds[j], ds[j + 1])
    ensures events[i].Pressing? && exists k :: i < k < j && Frees(events[k], events[i].code)
  {
    HistoryOk(ds, events, i);
    HistoryOk(ds, events, j);
    ReportedBy(ds[i], events[i], ds[i + 1], a);
    ReportedBy(ds[j], events[j], ds[j + 1], a);
    if forall k :: i < k < j ==> !Frees(events[k], events[i].code) {
      HeldUntilFreed(ds, events, i + 1, j, events[i].code);
    }
  }

  /** And in every history the reports of an action, and of push-to-talk, go down and up in turn, starting with down. */
  lemma AlwaysAlternate(ds: seq<Desk>, events: seq<DeskEvent>, k: nat)
    requires History(ds, events) && k < |ds|
    ensures Alternating(ds[k].trace) && (forall a :: IsDown(ds[k].trace, a) <==> Holding(ds[k].matcher, a))
    ensures IsTalking(ds[k].trace) == ds[k].down
  {
    HistoryOk(ds, events, k);
  }
}
