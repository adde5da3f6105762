/** What a desk reports over a history of events, told by the events and the reports alone. */
module HotkeyRuns {
  import opened Common
  import opened Hotkeys
  import opened Moments

  /** From a desk at which nothing has happened yet. */
  ghost predicate FromStart(ds: seq<Desk>, events: seq<DeskEvent>) {
    && History(ds, events) && ds[0].matcher == Matcher(map[], {}, map[])
    && !ds[0].down && !ds[0].started && ds[0].capture == NoCapture && ds[0].trace == []
  }

  lemma FreshDeskOk(d: Desk)
    requires d.matcher == Matcher(map[], {}, map[]) && !d.down && d.trace == []
    ensures DeskOk(d)
  {}

  // ---- which press reports what ----

  /** The action's hotkey is this key, with the modifiers held but for the key's own. */
  predicate BoundTo(binds: Binds, a: Action, code: int, held: bv8) {
    a in binds && binds[a].code == code && binds[a].mods == held & 15 & !ModifierBit(code)
  }

  lemma BoundIs(binds: Binds, a: Action, code: int, held: bv8)
    ensures Bound(binds, a, code, held) <==> BoundTo(binds, a, code, held)
  {}

  lemma EveryAction(a: Action)
    ensures a in HOTKEY_ACTIONS
  {
    match a
    case Mute => assert HOTKEY_ACTIONS[0] == a;
    case Deafen => assert HOTKEY_ACTIONS[1] == a;
    case Clip => assert HOTKEY_ACTIONS[2] == a;
    case Whisper1 => assert HOTKEY_ACTIONS[3] == a;
    case Whisper2 => assert HOTKEY_ACTIONS[4] == a;
    case Whisper3 => assert HOTKEY_ACTIONS[5] == a;
    case Priority => assert HOTKEY_ACTIONS[6] == a;
  }

  lemma TriggeredIff(m: Matcher, code: int, held: bv8, a: Action)
    ensures a in Triggered(m, code, held) <==> code !in m.held && BoundTo(m.binds, a, code, held)
  {
    HitsAre(m.binds, HOTKEY_ACTIONS, code, held);
    EveryAction(a);
    BoundIs(m.binds, a, code, held);
  }

  /** The modifier keys, left and right, and the bit of each: Ctrl 1, Shift 2, Alt 4 and Meta 8. */
  lemma ModifierKeys()
    ensures forall code :: code !in {29, 3613, 42, 54, 56, 3640, 3675, 3676} <==> ModifierBit(code) == 0
    ensures ModifierBit(29) == ModifierBit(3613) == 1 && ModifierBit(42) == ModifierBit(54) == 2
    ensures ModifierBit(56) == ModifierBit(3640) == 4 && ModifierBit(3675) == ModifierBit(3676) == 8
  {}

  /** The three that fire when pressed; the others are held. */
  lemma PressActions(a: Action)
    ensures !IsHold(a) <==> a in {Mute, Deafen, Clip}
  {}

  ghost predicate NothingTwice(outs: seq<Out>) {
    forall i, j :: 0 <= i < j < |outs| ==> outs[i] != outs[j]
  }

  lemma ReportsNothingTwice(actions: seq<Action>, talked: seq<Out>)
    requires Distinct(actions) && |talked| <= 1 && forall o :: o in talked ==> o.Talk?
    ensures NothingTwice(Reports(actions, true) + talked)
  {
    var outs := Reports(actions, true) + talked;
    forall i, j | 0 <= i < j < |outs| ensures outs[i] != outs[j] {
      assert outs[i] == Report(actions[i], true);
      if j < |actions| {
        assert outs[j] == Report(actions[j], true);
      } else {
        assert outs[j] in talked;
      }
    }
  }

  lemma HitIsReported(actions: seq<Action>, talked: seq<Out>, a: Action)
    requires a in actions
    ensures Report(a, true) in Reports(actions, true) + talked
  {
    var k :| 0 <= k < |actions| && actions[k] == a;
    assert Reports(actions, true)[k] == Report(a, true);
  }

  lemma PressAdds(d: Desk, code: int, held: bv8, next: Desk) returns (added: seq<Out>)
    requires DeskOk(d) && Step(d, Pressing(code, held), next)
    ensures next.trace == d.trace + added && next.trace[|d.trace|..] == added && NothingTwice(added)
    ensures d.capture == NoCapture ==>
      forall a :: a in Triggered(d.matcher, code, held) ==> Report(a, true) in added
  {
    if d.capture != NoCapture { return []; }
    var hit, talked := Triggered(d.matcher, code, held), Talked(d, code, true);
    added := Reports(hit, true) + talked;
    TriggeredAre(d.matcher, code, held);
    ReportsNothingTwice(hit, talked);
    forall a | a in hit ensures Report(a, true) in added { HitIsReported(hit, talked, a); }
  }

  /** Exact: a press reports an action, once, if and only if it is bound to it, no capture waits and the key is free. */
  lemma PressReportsIff(d: Desk, code: int, held: bv8, next: Desk, a: Action)
    requires DeskOk(d) && Step(d, Pressing(code, held), next)
    ensures ReportedOn(a, d, next)
            <==> d.capture == NoCapture && code !in d.matcher.held && BoundTo(d.matcher.binds, a, code, held)
    ensures d.trace <= next.trace && NothingTwice(next.trace[|d.trace|..])
  {
    var added := PressAdds(d, code, held, next);
    PressReports(d, code, held, next, a);
    TriggeredIff(d.matcher, code, held, a);
  }

  // ---- over histories ----

  /** The hotkeys set last. */
  function BindsAt(events: seq<DeskEvent>, k: nat): Binds
    requires k <= |events|
  {
    if k == 0 then map[] else if events[k - 1].Rebinding? then events[k - 1].binds else BindsAt(events, k - 1)
  }

  lemma {:induction false} BindsAre(ds: seq<Desk>, events: seq<DeskEvent>, k: nat)
    requires FromStart(ds, events) && k <= |events|
    ensures ds[k].matcher.binds == BindsAt(events, k)
  {
    if k > 0 {
      BindsAre(ds, events, k - 1);
      assert Step(ds[k - 1], events[k - 1], ds[k]);
    }
  }

  /** A press of the key that reports something. */
  ghost predicate Fired(d: Desk, e: DeskEvent, next: Desk, code: int) {
    e.Pressing? && e.code == code && exists a :: ReportedOn(a, d, next)
  }

  ghost function FiredAt(ds: seq<Desk>, events: seq<DeskEvent>, code: int): nat -> bool
    requires |ds| == |events| + 1
  {
    (i: nat) => i < |events| && Fired(ds[i], events[i], ds[i + 1], code)
  }

  ghost function FreedAt(events: seq<DeskEvent>, code: int): nat -> bool {
    (j: nat) => j < |events| && Frees(events[j], code)
  }

  /** The key fired, and was not released, nor the hook stopped or rebound, since. */
  ghost predicate CountsAsHeld(ds: seq<Desk>, events: seq<DeskEvent>, k: nat, code: int)
    requires |ds| == |events| + 1
  {
    Since(FiredAt(ds, events, code), FreedAt(events, code), k)
  }

  lemma StepHeld(d: Desk, e: DeskEvent, next: Desk, code: int)
    requires DeskOk(d) && Step(d, e, next)
    ensures code in next.matcher.held <==> Fired(d, e, next, code) || (code in d.matcher.held && !Frees(e, code))
  {
    if e.Pressing? {
      var hit := Triggered(d.matcher, e.code, e.held);
      if d.capture == NoCapture && hit != [] {
        TriggeredIff(d.matcher, e.code, e.held, hit[0]);
        PressReportsIff(d, e.code, e.held, next, hit[0]);
      }
      if a :| ReportedOn(a, d, next) { PressReports(d, e.code, e.held, next, a); }
    }
  }

  /** Exact, over all histories: which keys the matcher does not let fire again. */
  lemma {:induction false} HeldIff(ds: seq<Desk>, events: seq<DeskEvent>, k: nat, code: int)
    requires FromStart(ds, events) && k <= |events|
    ensures code in ds[k].matcher.held <==> CountsAsHeld(ds, events, k, code)
  {
    if k > 0 {
      HeldIff(ds, events, k - 1, code);
      HistoryOk(ds, events, k - 1);
      SinceOneMore(FiredAt(ds, events, code), FreedAt(events, code), k - 1);
      StepHeld(ds[k - 1], events[k - 1], ds[k], code);
    }
  }

  /**
   * Exact, over all histories: an action is reported by a press with no capture waiting, of the key and modifiers last
   * set for it, unless the key has fired and not been let go since; and by nothing else.
   */
  lemma ReportedIff(ds: seq<Desk>, events: seq<DeskEvent>, k: nat, a: Action)
    requires FromStart(ds, events) && k < |events|
    ensures ReportedOn(a, ds[k], ds[k + 1]) <==>
              && events[k].Pressing? && ds[k].capture == NoCapture
              && BoundTo(BindsAt(events, k), a, events[k].code, events[k].held)
              && !CountsAsHeld(ds, events, k, events[k].code)
  {
    HistoryOk(ds, events, k);
    BindsAre(ds, events, k);
    if events[k].Pressing? {
      HeldIff(ds, events, k, events[k].code);
      PressReportsIff(ds[k], events[k].code, events[k].held, ds[k + 1], a);
    } else if ReportedOn(a, ds[k], ds[k + 1]) {
      ReportedBy(ds[k], events[k], ds[k + 1], a);
    }
  }

  // ---- which hold actions are down ----

  ghost predicate Started(d: Desk, e: DeskEvent, next: Desk, a: Action, code: int) {
    e.Pressing? && e.code == code && ReportedOn(a, d, next)
  }

  ghost function StartedAt(ds: seq<Desk>, events: seq<DeskEvent>, a: Action, code: int): nat -> bool
    requires |ds| == |events| + 1
  {
    (i: nat) => i < |events| && Started(ds[i], events[i], ds[i + 1], a, code)
  }

  /** A press of the key reported the action, and nothing let the key go since. */
  ghost predicate StartedBy(ds: seq<Desk>, events: seq<DeskEvent>, k: nat, a: Action, code: int)
    requires |ds| == |events| + 1
  {
    Since(StartedAt(ds, events, a, code), FreedAt(events, code), k)
  }

  predicate HeldBy(m: Matcher, a: Action, code: int) {
    code in m.holding && a in m.holding[code]
  }

  lemma StepHolds(d: Desk, e: DeskEvent, next: Desk, a: Action, code: int)
    requires DeskOk(d) && Step(d, e, next) && IsHold(a)
    ensures HeldBy(next.matcher, a, code)
            <==> Started(d, e, next, a, code) || (HeldBy(d.matcher, a, code) && !Frees(e, code))
  {
    if e.Pressing? {
      PressReportsIff(d, e.code, e.held, next, a);
      TriggeredIff(d.matcher, e.code, e.held, a);
      TriggeredAre(d.matcher, e.code, e.held);
    }
  }

  lemma {:induction false} HeldByIff(ds: seq<Desk>, events: seq<DeskEvent>, k: nat, a: Action, code: int)
    requires FromStart(ds, events) && k <= |events| && IsHold(a)
    ensures HeldBy(ds[k].matcher, a, code) <==> StartedBy(ds, events, k, a, code)
  {
    if k > 0 {
      HeldByIff(ds, events, k - 1, a, code);
      HistoryOk(ds, events, k - 1);
      SinceOneMore(StartedAt(ds, events, a, code), FreedAt(events, code), k - 1);
      StepHolds(ds[k - 1], events[k - 1], ds[k], a, code);
    }
  }

  /** Exact, over all histories: a hold action is down from the press that reported it until that key is let go. */
  lemma DownIff(ds: seq<Desk>, events: seq<DeskEvent>, k: nat, a: Action)
    requires FromStart(ds, events) && k <= |events| && IsHold(a)
    ensures IsDown(ds[k].trace, a) <==> exists code :: StartedBy(ds, events, k, a, code)
  {
    var m := ds[k].matcher;
    HistoryOk(ds, events, k);
    if Holding(m, a) {
      var code :| code in m.holding && a in m.holding[code];
      HeldByIff(ds, events, k, a, code);
    }
    if code :| StartedBy(ds, events, k, a, code) { HeldByIff(ds, events, k, a, code); }
  }

  // ---- push-to-talk ----

  /** A press of the key set for talking, with no capture waiting. */
  predicate StartsTalk(d: Desk, e: DeskEvent) {
    e.Pressing? && d.capture == NoCapture && d.key == Some(e.code)
  }

  /** Another key is set, or the key is released with no capture waiting. */
  predicate EndsTalk(d: Desk, e: DeskEvent) {
    e.SettingKey? || (e.Releasing? && d.capture == NoCapture && d.key == Some(e.code))
  }

  ghost function TalkStarts(ds: seq<Desk>, events: seq<DeskEvent>): nat -> bool
    requires |ds| == |events| + 1
  {
    (i: nat) => i < |events| && StartsTalk(ds[i], events[i])
  }

  ghost function TalkEnds(ds: seq<Desk>, events: seq<DeskEvent>): nat -> bool
    requires |ds| == |events| + 1
  {
    (j: nat) => j < |events| && EndsTalk(ds[j], events[j])
  }

  lemma StepTalks(d: Desk, e: DeskEvent, next: Desk)
    requires Step(d, e, next)
    ensures next.down <==> StartsTalk(d, e) || (d.down && !EndsTalk(d, e))
  {}

  /** Exact: talking is reported from a press of its key, no capture waiting, to a release without one, or a new key. */
  lemma {:induction false} TalkingIff(ds: seq<Desk>, events: seq<DeskEvent>, k: nat)
    requires FromStart(ds, events) && k <= |events|
    ensures IsTalking(ds[k].trace) <==> Since(TalkStarts(ds, events), TalkEnds(ds, events), k)
  {
    HistoryOk(ds, events, k);
    if k > 0 {
      TalkingIff(ds, events, k - 1);
      HistoryOk(ds, events, k - 1);
      SinceOneMore(TalkStarts(ds, events), TalkEnds(ds, events), k - 1);
      StepTalks(ds[k - 1], events[k - 1], ds[k]);
    }
  }

  /** The key set last. */
  function KeyAt(events: seq<DeskEvent>, k: nat, first: Option<int>): Option<int>
    requires k <= |events|
  {
    if k == 0 then first else if events[k - 1].SettingKey? then events[k - 1].key else KeyAt(events, k - 1, first)
  }

  lemma {:induction false} KeyIs(ds: seq<Desk>, events: seq<DeskEvent>, k: nat)
    requires FromStart(ds, events) && k <= |events|
    ensures ds[k].key == KeyAt(events, k, ds[0].key)
  {
    if k > 0 {
      KeyIs(ds, events, k - 1);
      assert Step(ds[k - 1], events[k - 1], ds[k]);
    }
  }

  // ---- captures ----

  ghost function Begun(events: seq<DeskEvent>): nat -> bool {
    (i: nat) => i < |events| && events[i] == Starting(true)
  }

  ghost function Stopped(events: seq<DeskEvent>): nat -> bool {
    (j: nat) => j < |events| && events[j].Stopping?
  }

  /** The hook runs since the system let it, until it is stopped. */
  lemma {:induction false} RunningIff(ds: seq<Desk>, events: seq<DeskEvent>, k: nat)
    requires FromStart(ds, events) && k <= |events|
    ensures ds[k].started <==> Since(Begun(events), Stopped(events), k)
  {
    if k > 0 {
      RunningIff(ds, events, k - 1);
      SinceOneMore(Begun(events), Stopped(events), k - 1);
      assert Step(ds[k - 1], events[k - 1], ds[k]);
    }
  }

  /** The left and the right mouse button keep working while a key is asked for. */
  predicate ClicksButton(e: DeskEvent) {
    e.Pressing? && (e.code == 0x10001 || e.code == 0x10002)
  }

  /** A capture is asked for while the hook runs. */
  predicate Asks(d: Desk, e: DeskEvent, combo: bool) {
    e == Capturing(combo) && d.started
  }

  /** What answers or takes back a capture of a single key. */
  predicate EndsKeyCapture(d: Desk, e: DeskEvent) {
    || e.Cancelling? || (e.Capturing? && d.started)
    || (e.Pressing? && !ClicksButton(e))
  }

  ghost function KeyAsked(ds: seq<Desk>, events: seq<DeskEvent>): nat -> bool
    requires |ds| == |events| + 1
  {
    (i: nat) => i < |events| && Asks(ds[i], events[i], false)
  }

  ghost function KeyAnswered(ds: seq<Desk>, events: seq<DeskEvent>): nat -> bool
    requires |ds| == |events| + 1
  {
    (j: nat) => j < |events| && EndsKeyCapture(ds[j], events[j])
  }

  /** Exact: a single key is waited for since it was asked for, until one is pressed, or the asking ends. */
  lemma {:induction false} KeyCaptureIff(ds: seq<Desk>, events: seq<DeskEvent>, k: nat)
    requires FromStart(ds, events) && k <= |events|
    ensures ds[k].capture == KeyCapture <==> Since(KeyAsked(ds, events), KeyAnswered(ds, events), k)
  {
    if k > 0 {
      KeyCaptureIff(ds, events, k - 1);
      SinceOneMore(KeyAsked(ds, events), KeyAnswered(ds, events), k - 1);
      assert Step(ds[k - 1], events[k - 1], ds[k]);
    }
  }

  predicate IsModifier(code: int) { ModifierBit(code) != 0 }

  function NextLast(d: Desk, e: DeskEvent, last: Option<int>): Option<int> {
    if e.Pressing? then Some(e.code) else if e.Capturing? && d.started then None else last
  }

  /** The key pressed last since a capture was asked for, if any. */
  function LastPress(ds: seq<Desk>, events: seq<DeskEvent>, k: nat): Option<int>
    requires |ds| == |events| + 1 && k <= |events|
  {
    if k == 0 then None else NextLast(ds[k - 1], events[k - 1], LastPress(ds, events, k - 1))
  }

  /** What ends a wait for a key with modifiers: any other key, or the release of a modifier pressed on its own. */
  predicate EndsCombo(d: Desk, e: DeskEvent, last: Option<int>) {
    || e.Cancelling? || (e.Capturing? && d.started)
    || (e.Pressing? && !IsModifier(e.code) && !ClicksButton(e))
    || (e.Releasing? && (e.code < 0 || (last == Some(e.code) && IsModifier(e.code))))
  }

  ghost function ComboAsked(ds: seq<Desk>, events: seq<DeskEvent>): nat -> bool
    requires |ds| == |events| + 1
  {
    (i: nat) => i < |events| && Asks(ds[i], events[i], true)
  }

  ghost function ComboAnswered(ds: seq<Desk>, events: seq<DeskEvent>): nat -> bool
    requires |ds| == |events| + 1
  {
    (j: nat) => j < |events| && EndsCombo(ds[j], events[j], LastPress(ds, events, j))
  }

  /** The modifier a combination may come down to is the key pressed last. */
  predicate WaitsWith(capture: Capture, last: Option<int>) {
    capture.ComboCapture? ==> capture.modifier == if last.Some? && IsModifier(last.value) then last else None
  }

  lemma ComboStep(d: Desk, e: DeskEvent, next: Desk, last: Option<int>)
    requires Step(d, e, next) && WaitsWith(d.capture, last)
    ensures next.capture.ComboCapture? <==> Asks(d, e, true) || (d.capture.ComboCapture? && !EndsCombo(d, e, last))
    ensures WaitsWith(next.capture, NextLast(d, e, last))
  {
    match e
    case Pressing(code, held) =>
      assert d.capture != NoCapture ==> next.capture == Captured(d.capture, code, held, true);
    case Releasing(code, held) =>
      assert d.capture != NoCapture ==> next.capture == Captured(d.capture, code, held, false);
    case _ =>
  }

  /** Exact: the same of a key with modifiers. */
  lemma {:induction false} ComboCaptureIff(ds: seq<Desk>, events: seq<DeskEvent>, k: nat)
    requires FromStart(ds, events) && k <= |events|
    ensures
      && (ds[k].capture.ComboCapture? <==> Since(ComboAsked(ds, events), ComboAnswered(ds, events), k))
      && WaitsWith(ds[k].capture, LastPress(ds, events, k))
  {
    if k > 0 {
      ComboCaptureIff(ds, events, k - 1);
      SinceOneMore(ComboAsked(ds, events), ComboAnswered(ds, events), k - 1);
      ComboStep(ds[k - 1], events[k - 1], ds[k], LastPress(ds, events, k - 1));
    }
  }
}
