/** The activity SDK's message path: messages nobody listens for yet are held and handed over in order, by a timer. */
module ActivitySdk {
  import opened Common
  import ActivityRooms

  type Handler = nat
  type Message<D> = ActivityRooms.Message<D>

  /** What a handler may do with the SDK while it runs. */
  datatype Act = Subscribe(fn: Handler) | Unsubscribe(fn: Handler)

  /** The calls that hand `m` to `handlers`, in order. */
  function Calls<D>(handlers: seq<Handler>, m: Message<D>): seq<(Handler, Message<D>)> {
    seq(|handlers|, i requires 0 <= i < |handlers| => (handlers[i], m))
  }

  function AllCalls<D>(audiences: seq<seq<Handler>>, delivered: seq<Message<D>>): seq<(Handler, Message<D>)>
    requires |audiences| == |delivered|
  {
    if audiences == [] then []
    else
      var n := |audiences| - 1;
      AllCalls(audiences[..n], delivered[..n]) + Calls(audiences[n], delivered[n])
  }

  /** One message after another, each to its own audience. */
  ghost predicate HandedOut<D>(
      audiences: seq<seq<Handler>>, delivered: seq<Message<D>>, calls: seq<(Handler, Message<D>)>) {
    && |audiences| == |delivered|
    && calls == AllCalls(audiences, delivered)
    && forall i :: 0 <= i < |audiences| ==> audiences[i] != []
  }

  /** `indexOf` and `splice`: the first listener that is `fn` goes. */
  function WithoutFirst(handlers: seq<Handler>, fn: Handler): seq<Handler> {
    if handlers == [] then []
    else if handlers[0] == fn then handlers[1..]
    else [handlers[0]] + WithoutFirst(handlers[1..], fn)
  }

  lemma {:induction false} WithoutFirstAbsent(handlers: seq<Handler>, fn: Handler)
    requires fn !in handlers
    ensures WithoutFirst(handlers, fn) == handlers
  {
    if handlers != [] {
      WithoutFirstAbsent(handlers[1..], fn);
      assert handlers == [handlers[0]] + handlers[1..];
    }
  }

  lemma {:induction false} WithoutFirstFound(before: seq<Handler>, fn: Handler, after: seq<Handler>)
    requires fn !in before
    ensures WithoutFirst(before + [fn] + after, fn) == before + after
  {
    if before == [] {
      assert before + [fn] + after == [fn] + after;
    } else {
      WithoutFirstFound(before[1..], fn, after);
      assert (before + [fn] + after)[1..] == before[1..] + [fn] + after;
      assert before + after == [before[0]] + (before[1..] + after);
    }
  }

  lemma OneMore<D>(delivered: seq<D>, held: seq<D>, m: D)
    ensures delivered + held + [m] == delivered + (held + [m])
    ensures held == [] ==> delivered + held + [m] == delivered + [m] + held == delivered + [m]
  {}

  lemma FirstHeld<D>(delivered: seq<D>, held: seq<D>)
    requires held != []
    ensures delivered + held == delivered + [held[0]] + held[1..]
  {}

  /** Nobody stops listening meanwhile: `react(k, h)` is what the h-th handler does with the k-th message. */
  ghost predicate NobodyLeaves(react: (nat, nat) -> seq<Act>) {
    forall k, h, act :: act in react(k, h) ==> act.Subscribe?
  }

  class Sdk<D(!new)> {
    var handlers: seq<Handler>
    var held: seq<Message<D>>
    var inited: bool
    var lastSeq: nat
    var scheduled: bool
    /** Timers set and not fired yet. */
    var timers: nat
    /** The number of the last message its snapshot holds. */
    ghost var base: nat
    /** Every message taken since the start, and every one handed over. */
    ghost var accepted: seq<Message<D>>
    ghost var delivered: seq<Message<D>>
    /** Who was listening when each delivered message went out, and the calls made. */
    ghost var audiences: seq<seq<Handler>>
    ghost var calls: seq<(Handler, Message<D>)>

    /** Nothing lost, repeated or reordered; a flush is scheduled exactly when one timer is set for it. */
    ghost predicate InOrder()
      reads this
    {
      && accepted == delivered + held
      && timers == (if scheduled then 1 else 0)
      && (!inited ==> accepted == [])
      && lastSeq == (if delivered == [] then base else delivered[|delivered| - 1].seqNo)
    }

    /** And each delivered message went to everyone listening at that moment, at least one, once per listener. */
    ghost predicate Intact()
      reads this
    {
      InOrder() && HandedOut(audiences, delivered, calls)
    }

    /** Between events, held messages somebody could take have a flush coming. */
    ghost predicate Valid()
      reads this
    {
      Intact() && (held != [] && handlers != [] ==> scheduled)
    }

    constructor ()
      ensures Valid() && !inited && accepted == [] && calls == [] && handlers == [] && base == 0
    {
      handlers, held, inited, lastSeq, scheduled, timers := [], [], false, 0, false, 0;
      base, accepted, delivered, calls, audiences := 0, [], [], [], [];
    }

    /** The app's first message: who plays, and the snapshot with the number of the last message it includes. */
    method Init(stateSeq: Option<nat>)
      requires Valid()
      modifies this`inited, this`lastSeq, this`base
      ensures Valid() && inited
      ensures base == if !old(inited) && stateSeq.Some? then stateSeq.value else old(base)
      ensures old(inited) ==> lastSeq == old(lastSeq)
    {
      if inited { return; }
      inited := true;
      if stateSeq.Some? { lastSeq, base := stateSeq.value, stateSeq.value; }
    }

    method Schedule()
      requires InOrder()
      modifies this`scheduled, this`timers
      ensures InOrder() && scheduled == (old(scheduled) || handlers != [])
    {
      if scheduled || handlers == [] { return; }
      scheduled := true;
      timers := timers + 1;
    }

    /** `on('message', fn)`. */
    method On(fn: Handler)
      requires InOrder()
      modifies this`handlers, this`scheduled, this`timers
      ensures InOrder() && handlers == old(handlers) + [fn] && scheduled
      ensures old(Intact()) ==> Valid()
    {
      handlers := handlers + [fn];
      Schedule();
    }

    /** What `on` returned, called. */
    method Off(fn: Handler)
      requires InOrder()
      modifies this`handlers
      ensures InOrder() && handlers == WithoutFirst(old(handlers), fn)
    {
      var at := 0;
      while at < |handlers| && handlers[at] != fn
        invariant 0 <= at <= |handlers| && handlers == old(handlers)
        invariant forall k :: 0 <= k < at ==> handlers[k] != fn
      {
        at := at + 1;
      }
      if at < |handlers| {
        WithoutFirstFound(handlers[..at], fn, handlers[at + 1..]);
        assert handlers == handlers[..at] + [fn] + handlers[at + 1..];
        handlers := handlers[..at] + handlers[at + 1..];
      } else {
        WithoutFirstAbsent(handlers, fn);
      }
    }

    method Perform(acts: seq<Act>)
      requires InOrder()
      modifies this`handlers, this`scheduled, this`timers
      ensures InOrder()
      ensures (forall act :: act in acts ==> act.Subscribe?) && old(handlers) != [] ==> handlers != []
    {
      for i := 0 to |acts|
        invariant InOrder()
        invariant (forall act :: act in acts ==> act.Subscribe?) && old(handlers) != [] ==> handlers != []
      {
        match acts[i]
        case Subscribe(fn) => On(fn);
        case Unsubscribe(fn) => assert acts[i] in acts; Off(fn);
      }
    }

    /** Hands `m` to everyone listening at this moment, whatever they do to the list meanwhile. */
    method Deliver(m: Message<D>, k: nat, react: (nat, nat) -> seq<Act>)
      requires accepted == delivered + [m] + held && timers == (if scheduled then 1 else 0) && inited
      requires handlers != [] && HandedOut(audiences, delivered, calls)
      modifies this`handlers, this`scheduled, this`timers, this`lastSeq, this`delivered, this`calls, this`audiences
      ensures Intact() && delivered == old(delivered) + [m] && (held == [] ==> delivered == accepted)
      ensures audiences == old(audiences) + [old(handlers)]
      ensures NobodyLeaves(react) ==> handlers != []
    {
      lastSeq := m.seqNo;
      delivered := delivered + [m];
      var list := handlers;
      audiences := audiences + [list];
      for i := 0 to |list|
        invariant InOrder() && inited && delivered == old(delivered) + [m]
        invariant audiences == old(audiences) + [list]
        invariant calls == old(calls) + Calls(list, m)[..i]
        invariant NobodyLeaves(react) ==> handlers != []
      {
        calls := calls + [(list[i], m)];
        Perform(react(k, i));
      }
      assert Calls(list, m)[..|list|] == Calls(list, m);
      HandedOutMore(old(audiences), old(delivered), old(calls), list, m);
    }

    /** A message from the app. */
    method OnMessage(m: Message<D>, react: (nat, nat) -> seq<Act>)
      requires Valid()
      modifies this
      ensures Valid() && inited == old(inited) && base == old(base)
      ensures accepted == if inited then old(accepted) + [m] else old(accepted)
      ensures old(delivered) <= delivered
      ensures delivered == if inited && old(handlers) != [] && old(held) == [] then accepted else old(delivered)
    {
      if !inited { return; }
      OneMore(delivered, held, m);
      accepted := accepted + [m];
      if handlers != [] && held == [] {
        Deliver(m, 0, react);
      } else {
        held := held + [m];
        Schedule();
      }
    }

    /** The timer set by `schedule` fires. */
    method Flush(react: (nat, nat) -> seq<Act>)
      requires Valid() && timers > 0
      modifies this
      ensures Valid() && inited == old(inited) && base == old(base) && accepted == old(accepted)
      ensures old(delivered) <= delivered
      ensures held == [] || handlers == []
      ensures NobodyLeaves(react) && old(handlers) != [] ==> held == []
    {
      timers := timers - 1;
      scheduled := false;
      var k := 0;
      while held != [] && handlers != []
        invariant Intact() && inited == old(inited) && base == old(base) && accepted == old(accepted)
        invariant old(delivered) <= delivered
        invariant NobodyLeaves(react) && old(handlers) != [] ==> handlers != []
        decreases |held|
      {
        var m := held[0];
        FirstHeld(delivered, held);
        held := held[1..];
        Deliver(m, k, react);
        k := k + 1;
      }
    }

    /** The snapshot posted for late joiners carries the number of the last message handed over. */
    method SetState<S>(state: S) returns (posted: (nat, S))
      requires Valid()
      ensures posted.1 == state
      ensures posted.0 == if delivered == [] then base else delivered[|delivered| - 1].seqNo
    {
      posted := (lastSeq, state);
    }
  }

  /** The messages `h` was called with. */
  function Heard<D>(calls: seq<(Handler, Message<D>)>, h: Handler): seq<Message<D>> {
    if calls == [] then []
    else Heard(calls[..|calls| - 1], h) + (if calls[|calls| - 1].0 == h then [calls[|calls| - 1].1] else [])
  }

  lemma {:induction false} HeardConcat<D>(a: seq<(Handler, Message<D>)>, b: seq<(Handler, Message<D>)>, h: Handler)
    ensures Heard(a + b, h) == Heard(a, h) + Heard(b, h)
  {
    if b == [] {
      assert a + b == a;
    } else {
      assert (a + b)[..|a + b| - 1] == a + b[..|b| - 1];
      HeardConcat(a, b[..|b| - 1], h);
    }
  }

  lemma HandedOutMore<D>(
      audiences: seq<seq<Handler>>, delivered: seq<Message<D>>, calls: seq<(Handler, Message<D>)>,
      list: seq<Handler>, m: Message<D>)
    requires HandedOut(audiences, delivered, calls) && list != []
    ensures HandedOut(audiences + [list], delivered + [m], calls + Calls(list, m))
  {
    var n := |audiences|;
    assert (audiences + [list])[..n] == audiences && (delivered + [m])[..n] == delivered;
  }

  /** How often a handler is in the list. */
  function Times(handlers: seq<Handler>, h: Handler): nat {
    multiset(handlers)[h]
  }

  lemma CallsSnoc<D>(handlers: seq<Handler>, last: Handler, m: Message<D>, h: Handler)
    ensures Heard(Calls(handlers + [last], m), h) == Heard(Calls(handlers, m), h) + (if last == h then [m] else [])
  {
    assert Calls(handlers + [last], m)[..|handlers|] == Calls(handlers, m);
  }

  lemma TimesSnoc(handlers: seq<Handler>, last: Handler, h: Handler)
    ensures Times(handlers + [last], h) == Times(handlers, h) + (if last == h then 1 else 0)
  {
    assert multiset(handlers + [last]) == multiset(handlers) + multiset{last};
  }

  /** Handing over one message: whoever is in the list once hears it exactly once, and whoever is not does not. */
  lemma {:induction false} HeardOnce<D>(handlers: seq<Handler>, m: Message<D>, h: Handler)
    requires Times(handlers, h) <= 1
    ensures Heard(Calls(handlers, m), h) == if Times(handlers, h) == 1 then [m] else []
  {
    if handlers != [] {
      var front, last := handlers[..|handlers| - 1], handlers[|handlers| - 1];
      assert handlers == front + [last];
      TimesSnoc(front, last, h);
      HeardOnce(front, m, h);
      CallsSnoc(front, last, m, h);
    }
  }

  /** A handler that listened all along, once, heard every delivered message once, in order. */
  lemma {:induction false} HeardAll<D>(audiences: seq<seq<Handler>>, delivered: seq<Message<D>>, h: Handler)
    requires |audiences| == |delivered|
    requires forall i :: 0 <= i < |audiences| ==> Times(audiences[i], h) == 1
    ensures Heard(AllCalls(audiences, delivered), h) == delivered
  {
    if audiences != [] {
      var n := |audiences| - 1;
      HeardAll(audiences[..n], delivered[..n], h);
      HeardOnce(audiences[n], delivered[n], h);
      HeardConcat(AllCalls(audiences[..n], delivered[..n]), Calls(audiences[n], delivered[n]), h);
      assert delivered == delivered[..n] + [delivered[n]];
    }
  }
}
