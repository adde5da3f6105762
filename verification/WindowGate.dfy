/** The gate in front of window.open: a token bucket, asked only while a gesture is recent. */
module WindowGate {
  import opened Common

  const GESTURE_MS := 5_000
  const EXTERNAL_BURST := 3
  const REFILL_MS := 2_000

  datatype Answer = Popout | External | Deny

  /** What the answer depends on: a pop-out page, the referrer, and whether the address is http(s). */
  datatype Request = Request(isPopout: bool, referrerIsApp: bool, hasReferrer: bool, isHttp: bool)

  /** `None`: minus infinity. */
  datatype Bucket = Bucket(lastGesture: Option<int>, tokens: int, refilled: Option<int>)

  const START := Bucket(None, EXTERNAL_BURST, None)

  predicate Recent(b: Bucket, now: int) {
    b.lastGesture.Some? && now - b.lastGesture.value <= GESTURE_MS
  }

  function Min(a: int, b: int): int { if a <= b then a else b }

  /** Tokens earned since the last refill; the first refill is for an infinite time. */
  function Refill(b: Bucket, now: int): Bucket {
    if b.refilled.None? then b.(tokens := EXTERNAL_BURST, refilled := Some(now))
    else
      var earned := (now - b.refilled.value) / REFILL_MS;
      if earned <= 0 then b
      else
        var tokens := Min(EXTERNAL_BURST, b.tokens + earned);
        var refilled := if tokens == EXTERNAL_BURST then now else b.refilled.value + earned * REFILL_MS;
        b.(tokens := tokens, refilled := Some(refilled))
  }

  /** Whether the request gets as far as the bucket. */
  predicate AsksBucket(b: Bucket, r: Request, now: int) {
    !r.isPopout && r.isHttp && Recent(b, now)
  }

  function Decided(b: Bucket, r: Request, now: int): (Bucket, Answer) {
    if r.isPopout then (b, if r.referrerIsApp || (!r.hasReferrer && Recent(b, now)) then Popout else Deny)
    else if !AsksBucket(b, r, now) then (b, Deny)
    else
      var full := Refill(b, now);
      if full.tokens <= 0 then (full, Deny) else (full.(tokens := full.tokens - 1), External)
  }

  class WindowOpenGate {
    var lastGesture: Option<int>
    var tokens: int
    var refilled: Option<int>

    function Abs(): Bucket
      reads this
    {
      Bucket(lastGesture, tokens, refilled)
    }

    constructor ()
      ensures Abs() == START
    {
      lastGesture, tokens, refilled := None, EXTERNAL_BURST, None;
    }

    method Gesture(now: int)
      modifies this
      ensures Abs() == old(Abs()).(lastGesture := Some(now))
    {
      lastGesture := Some(now);
    }

    method Decide(r: Request, now: int) returns (answer: Answer)
      modifies this
      ensures (Abs(), answer) == Decided(old(Abs()), r, now)
    {
      var recent := lastGesture.Some? && now - lastGesture.value <= GESTURE_MS;
      if r.isPopout {
        return if r.referrerIsApp || (!r.hasReferrer && recent) then Popout else Deny;
      }
      if !r.isHttp || !recent { return Deny; }
      if refilled.None? {
        tokens := EXTERNAL_BURST;
        refilled := Some(now);
      } else {
        var earned := (now - refilled.value) / REFILL_MS;
        if earned > 0 {
          tokens := Min(EXTERNAL_BURST, tokens + earned);
          refilled := Some(if tokens == EXTERNAL_BURST then now else refilled.value + earned * REFILL_MS);
        }
      }
      if tokens <= 0 { return Deny; }
      tokens := tokens - 1;
      return External;
    }
  }

  // ---- over time ----

  datatype Event = Gesture(at: int) | Ask(request: Request, at: int)

  function After(b: Bucket, e: Event): Bucket {
    match e
    case Gesture(at) => b.(lastGesture := Some(at))
    case Ask(r, at) => Decided(b, r, at).0
  }

  predicate Opens(b: Bucket, e: Event) {
    e.Ask? && Decided(b, e.request, e.at).1 == External
  }

  function Run(b: Bucket, events: seq<Event>): Bucket
    decreases |events|
  {
    if events == [] then b else Run(After(b, events[0]), events[1..])
  }

  /** How many of the events open the system browser. */
  function Opened(b: Bucket, events: seq<Event>): nat
    decreases |events|
  {
    if events == [] then 0 else (if Opens(b, events[0]) then 1 else 0) + Opened(After(b, events[0]), events[1..])
  }

  /** A clock that never goes back, from `start` on. */
  predicate Clocked(events: seq<Event>, start: int) {
    (forall i :: 0 <= i < |events| ==> start <= events[i].at)
    && (forall i, j :: 0 <= i <= j < |events| ==> events[i].at <= events[j].at)
  }

  /** Tokens in milliseconds, with what has been earned since the last refill. */
  function Credit(b: Bucket, now: int): int
    requires b.refilled.Some?
  {
    b.tokens * REFILL_MS + now - b.refilled.value
  }

  /** Once it was used, the bucket never holds more than one token less than full, fractions included. */
  ghost predicate Sane(b: Bucket, now: int) {
    && (b.refilled.None? ==> b.tokens == EXTERNAL_BURST)
    && (b.refilled.Some? ==> 0 <= b.tokens < EXTERNAL_BURST && b.refilled.value <= now)
  }

  /** One request against the bucket: credit only grows with time, opening costs a token, and it is capped. */
  lemma AskSpends(b: Bucket, r: Request, before: int, now: int)
    requires Sane(b, before) && before <= now
    ensures
      var (c, answer) := Decided(b, r, now);
      && Sane(c, now)
      && (b.refilled.Some? ==> c.refilled.Some?)
      && (b.refilled.Some? ==> Credit(c, now) + (if answer == External then REFILL_MS else 0) <= Credit(b, now))
      && (answer == External ==> c.refilled.Some? && Credit(c, now) <= (EXTERNAL_BURST - 1) * REFILL_MS)
  {
    if AsksBucket(b, r, now) && b.refilled.Some? {
      var gone := now - b.refilled.value;
      var earned := gone / REFILL_MS;
      assert earned * REFILL_MS <= gone < earned * REFILL_MS + REFILL_MS;
    }
  }

  /** From a used bucket, what opens is paid for by its credit and the time that passes. */
  lemma {:induction false} OpenedWithin(b: Bucket, events: seq<Event>, start: int, end: int)
    requires Sane(b, start) && b.refilled.Some? && Clocked(events, start) && start <= end
    requires forall i :: 0 <= i < |events| ==> events[i].at <= end
    ensures Opened(b, events) * REFILL_MS <= Credit(b, start) + end - start
    decreases |events|
  {
    if events != [] {
      if events[0].Ask? { AskSpends(b, events[0].request, start, events[0].at); }
      OpenedWithin(After(b, events[0]), events[1..], events[0].at, end);
    }
  }

  lemma {:induction false} OpenedInWindow(b: Bucket, events: seq<Event>, start: int, end: int)
    requires Sane(b, start) && Clocked(events, start) && start <= end
    requires forall i :: 0 <= i < |events| ==> events[i].at <= end
    ensures Opened(b, events) * REFILL_MS <= EXTERNAL_BURST * REFILL_MS + end - start
    decreases |events|
  {
    if events != [] {
      var c := After(b, events[0]);
      if events[0].Ask? { AskSpends(b, events[0].request, start, events[0].at); }
      if Opens(b, events[0]) {
        OpenedWithin(c, events[1..], events[0].at, end);
      } else {
        OpenedInWindow(c, events[1..], events[0].at, end);
      }
    }
  }

  lemma {:induction false} RunSane(events: seq<Event>, n: nat, start: int)
    requires Clocked(events, start) && n <= |events|
    ensures Sane(Run(START, events[..n]), if n == 0 then start else events[n - 1].at)
  {
    if n > 0 {
      RunSane(events, n - 1, start);
      var b, e := Run(START, events[..n - 1]), events[n - 1];
      RunSnoc(START, events[..n - 1], e);
      assert events[..n] == events[..n - 1] + [e];
      if e.Ask? { AskSpends(b, e.request, if n == 1 then start else events[n - 2].at, e.at); }
    }
  }

  lemma {:induction false} RunSnoc(b: Bucket, events: seq<Event>, e: Event)
    ensures Run(b, events + [e]) == After(Run(b, events), e)
    decreases |events|
  {
    if events == [] {
      assert events + [e] == [e];
    } else {
      assert (events + [e])[1..] == events[1..] + [e];
      RunSnoc(After(b, events[0]), events[1..], e);
    }
  }

  /**
   * In any stretch of any run the browser opens at most EXTERNAL_BURST times and once more for every REFILL_MS the
   * stretch lasts.
   */
  lemma RateBound(events: seq<Event>, from: nat, to: nat, start: int)
    requires Clocked(events, start) && from < to <= |events|
    ensures Opened(Run(START, events[..from]), events[from..to]) * REFILL_MS
            <= EXTERNAL_BURST * REFILL_MS + events[to - 1].at - events[from].at
  {
    RunSane(events, from, start);
    var b := Run(START, events[..from]);
    assert Sane(b, events[from].at);
    OpenedInWindow(b, events[from..to], events[from].at, events[to - 1].at);
  }

  /** The time of the last gesture, if there was one. */
  function LastGesture(events: seq<Event>): Option<int> {
    if events == [] then None
    else
      var n := |events| - 1;
      if events[n].Gesture? then Some(events[n].at) else LastGesture(events[..n])
  }

  lemma {:induction false} GestureRemembered(events: seq<Event>)
    ensures Run(START, events).lastGesture == LastGesture(events)
  {
    if events != [] {
      var n := |events| - 1;
      GestureRemembered(events[..n]);
      assert events == events[..n] + [events[n]];
      RunSnoc(START, events[..n], events[n]);
    }
  }

  /** Each opening is within GESTURE_MS of the last gesture before it, and is of an http(s) address. */
  lemma OpensOnlyAfterGesture(events: seq<Event>, n: nat)
    requires n < |events| && Opens(Run(START, events[..n]), events[n])
    ensures
      var g := LastGesture(events[..n]);
      g.Some? && events[n].at - g.value <= GESTURE_MS && events[n].request.isHttp && !events[n].request.isPopout
  {
    GestureRemembered(events[..n]);
  }

  // ---- every answer, told by the events ----

  /** A bucket that fills steadily: `level` milliseconds were in it at the time `at`, of 6000 when it is full. */
  datatype Meter = Unused | Used(level: int, at: int)

  function Filled(m: Meter, now: int): int {
    if m.Unused? || m.level + now - m.at >= 6_000 then 6_000 else m.level + now - m.at
  }

  predicate RecentGesture(events: seq<Event>, now: int) {
    var g := LastGesture(events);
    g.Some? && now - g.value <= 5_000
  }

  /** A request for the browser that is of a web address and follows a gesture. */
  predicate Asks(events: seq<Event>, e: Event) {
    e.Ask? && !e.request.isPopout && e.request.isHttp && RecentGesture(events, e.at)
  }

  /** Each such request that finds two seconds in the meter takes them. */
  function MeterAfter(events: seq<Event>): Meter {
    if events == [] then Unused
    else
      var front, e := events[..|events| - 1], events[|events| - 1];
      var m := MeterAfter(front);
      if !Asks(front, e) then m
      else
        var level := Filled(m, e.at);
        Used(if level >= 2_000 then level - 2_000 else level, e.at)
  }

  /** Whole tokens and the time since they were counted are what the meter holds. */
  ghost predicate Metered(b: Bucket, m: Meter) {
    if b.refilled.None? then m.Unused? && b.tokens == EXTERNAL_BURST
    else
      && m.Used? && 0 <= b.tokens < EXTERNAL_BURST && b.refilled.value <= m.at
      && m.level == Credit(b, m.at) && 0 <= m.level <= (EXTERNAL_BURST - 1) * REFILL_MS
  }

  lemma RefillMetered(b: Bucket, m: Meter, now: int)
    requires Metered(b, m) && (m.Used? ==> m.at <= now)
    ensures
      var full := Refill(b, now);
      && full.refilled.Some? && full.refilled.value <= now && 0 <= full.tokens <= EXTERNAL_BURST
      && Credit(full, now) == Filled(m, now) && (full.tokens > 0 <==> Filled(m, now) >= 2_000)
      && (full.tokens == EXTERNAL_BURST ==> full.refilled.value == now)
  {
    if m.Used? {
      var gone := now - b.refilled.value;
      var earned := gone / REFILL_MS;
      assert earned * REFILL_MS <= gone < earned * REFILL_MS + REFILL_MS;
    }
  }

  lemma DecideMetered(b: Bucket, m: Meter, r: Request, now: int)
    requires Metered(b, m) && (m.Used? ==> m.at <= now) && AsksBucket(b, r, now)
    ensures
      var (c, answer) := Decided(b, r, now);
      var level := Filled(m, now);
      && (answer == External <==> level >= 2_000) && (answer == Deny <==> level < 2_000)
      && Metered(c, Used(if level >= 2_000 then level - 2_000 else level, now))
  {
    RefillMetered(b, m, now);
  }

  lemma {:induction false} RunMetered(events: seq<Event>, start: int)
    requires Clocked(events, start)
    ensures Metered(Run(START, events), MeterAfter(events))
    ensures MeterAfter(events).Used? ==> events != [] && MeterAfter(events).at <= events[|events| - 1].at
  {
    if events != [] {
      var n := |events| - 1;
      var front, e := events[..n], events[n];
      RunMetered(front, start);
      assert events == front + [e];
      RunSnoc(START, front, e);
      GestureRemembered(front);
      if Asks(front, e) { DecideMetered(Run(START, front), MeterAfter(front), e.request, e.at); }
    }
  }

  /** What the gate must answer to a request after these events. */
  function AnswerTo(events: seq<Event>, r: Request, now: int): Answer {
    if r.isPopout then
      if r.referrerIsApp || (!r.hasReferrer && RecentGesture(events, now)) then Popout else Deny
    else if r.isHttp && RecentGesture(events, now) && Filled(MeterAfter(events), now) >= 2_000 then External
    else Deny
  }

  /** Exact, in every run: each answer is the one the steady meter and the last gesture give. */
  lemma AnswersExactly(events: seq<Event>, n: nat, start: int)
    requires Clocked(events, start) && n < |events| && events[n].Ask?
    ensures Decided(Run(START, events[..n]), events[n].request, events[n].at).1
            == AnswerTo(events[..n], events[n].request, events[n].at)
  {
    var front, r, now := events[..n], events[n].request, events[n].at;
    GestureRemembered(front);
    RunMetered(front, start);
    if Asks(front, events[n]) { DecideMetered(Run(START, front), MeterAfter(front), r, now); }
  }

  /** The browser was opened at `t` for the last time, or earlier. */
  ghost predicate NoneOpenedAfter(events: seq<Event>, t: int) {
    forall i :: 0 <= i < |events| && Opens(Run(START, events[..i]), events[i]) ==> events[i].at <= t
  }

  lemma {:induction false} FillsSince(events: seq<Event>, t: int, start: int)
    requires Clocked(events, start) && NoneOpenedAfter(events, t)
    ensures var m := MeterAfter(events); m.Used? ==> m.level >= 0 && m.level >= m.at - t
  {
    RunMetered(events, start);
    if events != [] {
      var n := |events| - 1;
      var front, e := events[..n], events[n];
      assert forall i :: 0 <= i < n ==> front[..i] == events[..i];
      FillsSince(front, t, start);
      RunMetered(front, start);
      if Asks(front, e) {
        GestureRemembered(front);
        DecideMetered(Run(START, front), MeterAfter(front), e.request, e.at);
      }
    }
  }

  /** A token always comes back: two seconds after the last opening the next request that may is let through. */
  lemma TokenComesBack(events: seq<Event>, n: nat, start: int)
    requires Clocked(events, start) && n < |events| && Asks(events[..n], events[n])
    requires NoneOpenedAfter(events[..n], events[n].at - 2_000)
    ensures Opens(Run(START, events[..n]), events[n])
  {
    FillsSince(events[..n], events[n].at - 2_000, start);
    RunMetered(events[..n], start);
    AnswersExactly(events, n, start);
  }
}
