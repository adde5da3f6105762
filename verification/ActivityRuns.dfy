/**
 * A game played through the SDK: every player reduces the server's messages in order, some from a snapshot another
 * player posted. Exactly when all who are at the same message hold the same state.
 */
module ActivityRuns {
  import opened Common
  import opened ActivityRooms
  import opened Moments
  import ActivitySdk

  /** `reduce` is pure; `parse` checks a snapshot (`None`: start fresh); `bytes` is the length of a message. */
  datatype Game<!S, !D> = Game(initial: S, parse: S -> Option<S>, reduce: (S, D, nat) -> S, bytes: D -> nat)

  function FoldFrom<S, D>(g: Game<S, D>, state: S, log: seq<Sent<D>>): S {
    if log == [] then state
    else g.reduce(FoldFrom(g, state, log[..|log| - 1]), log[|log| - 1].data, log[|log| - 1].from)
  }

  /** The state after the first `n` messages. */
  function Fold<S, D>(g: Game<S, D>, log: seq<Sent<D>>, n: nat): S
    requires n <= |log|
  {
    FoldFrom(g, g.initial, log[..n])
  }

  /**
   * One player: it joined with a snapshot after message `start`, or a fresh one after 0, and was sent the messages
   * after `from`. Those up to `accepted` reached its SDK, of which those up to `lastSeq` were handed to the game;
   * `timer` is set while a snapshot is due.
   */
  datatype Player<S> = Player(start: nat, from: nat, accepted: nat, lastSeq: nat, state: S, timer: bool)

  /** `snapshot` is what late joiners get, with the number of its last message; `posts` are snapshots on their way. */
  datatype Session<S, D> = Session(
    log: seq<Sent<D>>, snapshot: Option<(nat, S)>, posts: seq<(nat, S)>, players: seq<Player<S>>)

  datatype Event<D> =
    | Send(data: D, from: nat)
    | Join
    | Receive(p: nat)               // the next message reaches the player's SDK
    | Handle(p: nat, host: bool)    // the SDK hands the next one to the game
    | Post(p: nat)                  // the snapshot timer fires
    | Arrive(k: nat)                // a posted snapshot reaches the server

  predicate Enabled<S, D>(s: Session<S, D>, e: Event<D>) {
    match e
    case Send(_, _) => true
    case Join => true
    case Receive(p) => p < |s.players| && Max(s.players[p].accepted, s.players[p].from) < |s.log|
    case Handle(p, _) => p < |s.players|
      && Max(s.players[p].lastSeq, s.players[p].from) < s.players[p].accepted <= |s.log|
    case Post(p) => p < |s.players| && s.players[p].timer
    case Arrive(k) => k < |s.posts|
  }

  /** What a snapshot comes to: the state it parses to, or a fresh start. */
  function Restored<S, D>(g: Game<S, D>, state: S): S {
    var parsed := g.parse(state);
    if parsed.Some? then parsed.value else g.initial
  }

  function SnapshotSeq<S>(snapshot: Option<(nat, S)>): nat {
    if snapshot.Some? then snapshot.value.0 else 0
  }

  /** A joiner gets all messages after the snapshot that the server still has. */
  predicate Missed<S, D>(g: Game<S, D>, s: Session<S, D>) {
    Gone(s.log, g.bytes) > SnapshotSeq(s.snapshot)
  }

  function Joined<S, D>(g: Game<S, D>, s: Session<S, D>): Player<S> {
    var n := SnapshotSeq(s.snapshot);
    var state := if s.snapshot.Some? then Restored(g, s.snapshot.value.1) else g.initial;
    Player(n, Max(n, Gone(s.log, g.bytes)), n, n, state, false)
  }

  /** The next message handed to the game: an unchanged state schedules nothing; only the host keeps the snapshot. */
  function Handled<S(==), D>(g: Game<S, D>, player: Player<S>, log: seq<Sent<D>>, host: bool): Player<S>
    requires Max(player.lastSeq, player.from) < |log|
  {
    var n := Max(player.lastSeq, player.from);
    var next := g.reduce(player.state, log[n].data, log[n].from);
    if next == player.state then player.(lastSeq := n + 1)
    else player.(lastSeq := n + 1, state := next, timer := player.timer || host)
  }

  function Received<S>(player: Player<S>): Player<S> {
    player.(accepted := Max(player.accepted, player.from) + 1)
  }

  function Next<S(==), D>(g: Game<S, D>, s: Session<S, D>, e: Event<D>): Session<S, D>
    requires Enabled(s, e)
  {
    match e
    case Send(data, from) => s.(log := s.log + [Sent(data, from)])
    case Join => s.(players := s.players + [Joined(g, s)])
    case Receive(p) => s.(players := s.players[p := Received(s.players[p])])
    case Handle(p, host) => s.(players := s.players[p := Handled(g, s.players[p], s.log, host)])
    case Post(p) =>
      s.(posts := s.posts + [(s.players[p].lastSeq, s.players[p].state)],
         players := s.players[p := s.players[p].(timer := false)])
    case Arrive(k) =>
      // A number from the future is refused, one before the snapshot's is ignored.
      if s.posts[k].0 > |s.log| || s.posts[k].0 < SnapshotSeq(s.snapshot) then s
      else s.(snapshot := Some(s.posts[k]))
  }

  /** Events that cannot happen are skipped. */
  function Run<S(==), D>(g: Game<S, D>, s: Session<S, D>, events: seq<Event<D>>): Session<S, D>
    decreases |events|
  {
    if events == [] then s
    else Run(g, if Enabled(s, events[0]) then Next(g, s, events[0]) else s, events[1..])
  }

  function Empty<S, D>(): Session<S, D> {
    Session([], None, [], [])
  }

  /** Some of the first `n` messages changed the state: only then is there ever a snapshot after `n`. */
  predicate Changed<S(==), D>(g: Game<S, D>, log: seq<Sent<D>>, n: nat)
    requires n <= |log|
  {
    n > 0 && (Changed(g, log, n - 1) || Fold(g, log, n) != Fold(g, log, n - 1))
  }

  // ---- what a game must satisfy ----

  /** Every state a snapshot may be made of is restored as it was. */
  ghost predicate ComesBack<S(!new), D(!new)>(g: Game<S, D>) {
    forall log: seq<Sent<D>>, n: nat :: n <= |log| && Changed(g, log, n)
      ==> Restored(g, Fold(g, log, n)) == Fold(g, log, n)
  }

  /** Leaving out the messages after `n` up to `d` makes no difference after message `k`. */
  predicate SkipsTo<S(==), D>(g: Game<S, D>, log: seq<Sent<D>>, n: nat, d: nat, k: nat)
    requires n <= d <= k <= |log|
  {
    FoldFrom(g, Fold(g, log, n), log[d..k]) == Fold(g, log, k)
  }

  /** Whoever joins with a snapshot (or fresh) may be sent too little and be none the worse for it. */
  ghost predicate Harmless<S(!new), D(!new)>(g: Game<S, D>) {
    forall log: seq<Sent<D>>, n: nat, join: nat, k: nat ::
      join <= |log| && n < Gone(log[..join], g.bytes) < k <= |log| && (n == 0 || Changed(g, log, n)) ==>
        SkipsTo(g, log, n, Gone(log[..join], g.bytes), k)
  }

  /** Nobody joins while the server has not kept all messages after the snapshot. */
  predicate NobodyMisses<S(==), D>(g: Game<S, D>, s: Session<S, D>, events: seq<Event<D>>)
    decreases |events|
  {
    events == [] || (
      && (events[0].Join? ==> !Missed(g, s))
      && NobodyMisses(g, if Enabled(s, events[0]) then Next(g, s, events[0]) else s, events[1..]))
  }

  // ---- the invariant ----

  ghost predicate IsPost<S, D>(g: Game<S, D>, log: seq<Sent<D>>, post: (nat, S)) {
    post.0 <= |log| && post.1 == Fold(g, log, post.0) && Changed(g, log, post.0)
  }

  /** What the server had dropped at some time. */
  ghost predicate WasGone<D>(log: seq<Sent<D>>, bytes: D -> nat, d: nat) {
    exists join: nat :: join <= |log| && d == Gone(log[..join], bytes)
  }

  ghost predicate NumbersOk<S>(player: Player<S>, n: nat) {
    && player.start <= player.from <= n && player.start <= player.lastSeq <= player.accepted <= n
    && (player.lastSeq == player.start || player.from < player.lastSeq)
  }

  /** What the player holds: the fold of its snapshot's messages and of those it was handed. */
  ghost predicate HoldsWhatItGot<S, D>(g: Game<S, D>, log: seq<Sent<D>>, player: Player<S>)
    requires NumbersOk(player, |log|)
  {
    player.state == FoldFrom(g, Fold(g, log, player.start), log[player.from..Max(player.from, player.lastSeq)])
  }

  /** It started from the fold at its snapshot, and what it was not sent made no difference. */
  ghost predicate PlayerOk<S, D>(g: Game<S, D>, log: seq<Sent<D>>, player: Player<S>) {
    && NumbersOk(player, |log|) && HoldsWhatItGot(g, log, player)
    && player.state == Fold(g, log, player.lastSeq)
    && (player.timer ==> Changed(g, log, player.lastSeq))
    && (player.start == 0 || Changed(g, log, player.start))
    && (player.from > player.start ==> WasGone(log, g.bytes, player.from))
  }

  ghost predicate Consistent<S, D>(g: Game<S, D>, s: Session<S, D>) {
    && (s.snapshot.Some? ==> IsPost(g, s.log, s.snapshot.value))
    && (forall k :: 0 <= k < |s.posts| ==> IsPost(g, s.log, s.posts[k]))
    && (forall p :: 0 <= p < |s.players| ==> PlayerOk(g, s.log, s.players[p]))
  }

  /** Nobody is ever sent too little, or it is harmless. */
  ghost predicate EnoughFor<S(!new), D(!new)>(g: Game<S, D>, s: Session<S, D>) {
    Harmless(g) || forall p :: 0 <= p < |s.players| ==> s.players[p].from == s.players[p].start
  }

  lemma FoldSnoc<S, D>(g: Game<S, D>, log: seq<Sent<D>>, n: nat)
    requires n < |log|
    ensures Fold(g, log, n + 1) == g.reduce(Fold(g, log, n), log[n].data, log[n].from)
  {
    assert log[..n + 1][..n] == log[..n];
  }

  lemma FoldFromSnoc<S, D>(g: Game<S, D>, state: S, log: seq<Sent<D>>, d: nat, k: nat)
    requires d <= k < |log|
    ensures FoldFrom(g, state, log[d..k + 1]) == g.reduce(FoldFrom(g, state, log[d..k]), log[k].data, log[k].from)
  {
    assert log[d..k + 1][..k - d] == log[d..k];
  }

  /** Without a gap nothing is skipped. */
  lemma {:induction false} NoGap<S, D>(g: Game<S, D>, log: seq<Sent<D>>, n: nat, k: nat)
    requires n <= k <= |log|
    ensures SkipsTo(g, log, n, n, k)
    decreases k
  {
    if n < k {
      NoGap(g, log, n, k - 1);
      FoldSnoc(g, log, k - 1);
      FoldFromSnoc(g, Fold(g, log, n), log, n, k - 1);
    }
  }

  /** Messages sent later change nothing about the first `n`. */
  lemma {:induction false} ChangedPrefix<S, D>(g: Game<S, D>, log: seq<Sent<D>>, m: Sent<D>, n: nat)
    requires n <= |log|
    ensures Fold(g, log + [m], n) == Fold(g, log, n) && (Changed(g, log + [m], n) <==> Changed(g, log, n))
  {
    assert (log + [m])[..n] == log[..n];
    if n > 0 { ChangedPrefix(g, log, m, n - 1); }
  }

  /** A state unlike one before it means a change in between. */
  lemma {:induction false} DifferentMeansChanged<S, D>(g: Game<S, D>, log: seq<Sent<D>>, n: nat, k: nat)
    requires n <= k <= |log|
    ensures Fold(g, log, n) != Fold(g, log, k) || Changed(g, log, n) ==> Changed(g, log, k)
    decreases k
  {
    if n < k { DifferentMeansChanged(g, log, n, k - 1); }
  }

  lemma SendGone<D>(log: seq<Sent<D>>, m: Sent<D>, bytes: D -> nat, d: nat)
    requires WasGone(log, bytes, d)
    ensures WasGone(log + [m], bytes, d)
  {
    var join: nat :| join <= |log| && d == Gone(log[..join], bytes);
    assert (log + [m])[..join] == log[..join];
  }

  lemma SendPlayer<S, D>(g: Game<S, D>, log: seq<Sent<D>>, m: Sent<D>, player: Player<S>)
    requires PlayerOk(g, log, player)
    ensures PlayerOk(g, log + [m], player)
  {
    var k := Max(player.from, player.lastSeq);
    ChangedPrefix(g, log, m, player.lastSeq);
    ChangedPrefix(g, log, m, player.start);
    assert (log + [m])[player.from..k] == log[player.from..k];
    if player.from > player.start { SendGone(log, m, g.bytes, player.from); }
  }

  lemma {:induction false} SendConsistent<S, D>(g: Game<S, D>, s: Session<S, D>, data: D, from: nat)
    requires Consistent(g, s)
    ensures Consistent(g, Next(g, s, Send(data, from)))
  {
    var m := Sent(data, from);
    forall p | 0 <= p < |s.players| ensures PlayerOk(g, s.log + [m], s.players[p]) {
      SendPlayer(g, s.log, m, s.players[p]);
    }
    forall k | 0 <= k < |s.posts| ensures IsPost(g, s.log + [m], s.posts[k]) {
      assert IsPost(g, s.log, s.posts[k]);
      ChangedPrefix(g, s.log, m, s.posts[k].0);
    }
    if s.snapshot.Some? { ChangedPrefix(g, s.log, m, s.snapshot.value.0); }
  }

  lemma JoinConsistent<S(!new), D(!new)>(g: Game<S, D>, s: Session<S, D>)
    requires Consistent(g, s) && ComesBack(g)
    ensures Consistent(g, Next(g, s, Join))
  {
    var player := Joined(g, s);
    assert s.log[..|s.log|] == s.log;
    assert s.log[..0] == [] && s.log[player.from..player.from] == [];
    assert player.from > player.start ==> WasGone(s.log, g.bytes, player.from);
    assert PlayerOk(g, s.log, player);
  }

  /** What the player was not sent made no difference. */
  lemma SkippedHarmlessly<S(!new), D(!new)>(g: Game<S, D>, log: seq<Sent<D>>, player: Player<S>, k: nat)
    requires PlayerOk(g, log, player) && player.from < k <= |log| && (Harmless(g) || player.from == player.start)
    ensures SkipsTo(g, log, player.start, player.from, k)
  {
    if player.from > player.start {
      var join: nat :| join <= |log| && player.from == Gone(log[..join], g.bytes);
    } else {
      NoGap(g, log, player.start, k);
    }
  }

  lemma HandledHolds<S, D>(g: Game<S, D>, log: seq<Sent<D>>, player: Player<S>, host: bool)
    requires NumbersOk(player, |log|) && Max(player.lastSeq, player.from) < player.accepted
    requires HoldsWhatItGot(g, log, player)
    ensures
      var handled := Handled(g, player, log, host);
      NumbersOk(handled, |log|) && HoldsWhatItGot(g, log, handled)
  {
    FoldFromSnoc(g, Fold(g, log, player.start), log, player.from, Max(player.lastSeq, player.from));
  }

  lemma HandledOk<S(!new), D(!new)>(g: Game<S, D>, log: seq<Sent<D>>, player: Player<S>, host: bool)
    requires PlayerOk(g, log, player) && Max(player.lastSeq, player.from) < player.accepted
    requires Harmless(g) || player.from == player.start
    ensures PlayerOk(g, log, Handled(g, player, log, host))
  {
    var n := Max(player.lastSeq, player.from);
    HandledHolds(g, log, player, host);
    SkippedHarmlessly(g, log, player, n + 1);
    DifferentMeansChanged(g, log, player.lastSeq, n + 1);
  }

  lemma HandleConsistent<S(!new), D(!new)>(g: Game<S, D>, s: Session<S, D>, p: nat, host: bool)
    requires Consistent(g, s) && Enabled(s, Handle(p, host)) && EnoughFor(g, s)
    ensures Consistent(g, Next(g, s, Handle(p, host)))
  {
    assert PlayerOk(g, s.log, s.players[p]);
    HandledOk(g, s.log, s.players[p], host);
  }

  lemma PostConsistent<S, D>(g: Game<S, D>, s: Session<S, D>, p: nat)
    requires Consistent(g, s) && Enabled(s, Post(p))
    ensures Consistent(g, Next(g, s, Post(p)))
  {
    assert PlayerOk(g, s.log, s.players[p]);
  }

  lemma ArriveConsistent<S, D>(g: Game<S, D>, s: Session<S, D>, k: nat)
    requires Consistent(g, s) && Enabled(s, Arrive(k))
    ensures Consistent(g, Next(g, s, Arrive(k)))
  {
    assert IsPost(g, s.log, s.posts[k]);
  }

  lemma NextConsistent<S(!new), D(!new)>(g: Game<S, D>, s: Session<S, D>, e: Event<D>)
    requires Consistent(g, s) && ComesBack(g) && Enabled(s, e) && EnoughFor(g, s)
    ensures Consistent(g, Next(g, s, e))
  {
    match e
    case Send(data, from) => SendConsistent(g, s, data, from);
    case Join => JoinConsistent(g, s);
    case Receive(p) =>
      assert PlayerOk(g, s.log, s.players[p]);
      assert PlayerOk(g, s.log, Received(s.players[p]));
    case Handle(p, host) => HandleConsistent(g, s, p, host);
    case Post(p) => PostConsistent(g, s, p);
    case Arrive(k) => ArriveConsistent(g, s, k);
  }

  lemma NextEnough<S(!new), D(!new)>(g: Game<S, D>, s: Session<S, D>, e: Event<D>)
    requires Enabled(s, e) && EnoughFor(g, s) && (e.Join? ==> Harmless(g) || !Missed(g, s))
    ensures EnoughFor(g, Next(g, s, e))
  {}

  /** Over every run: all that is posted, kept and held are folds, unless somebody is sent too little and it matters. */
  lemma {:induction false} RunConsistent<S(!new), D(!new)>(g: Game<S, D>, s: Session<S, D>, events: seq<Event<D>>)
    requires Consistent(g, s) && ComesBack(g) && EnoughFor(g, s) && (Harmless(g) || NobodyMisses(g, s, events))
    ensures Consistent(g, Run(g, s, events))
    decreases |events|
  {
    if events != [] {
      if Enabled(s, events[0]) {
        NextConsistent(g, s, events[0]);
        NextEnough(g, s, events[0]);
      }
      RunConsistent(g, if Enabled(s, events[0]) then Next(g, s, events[0]) else s, events[1..]);
    }
  }

  /** Any two players at the same message hold the same state. */
  ghost predicate Agreed<S, D>(s: Session<S, D>) {
    forall p, q :: 0 <= p < |s.players| && 0 <= q < |s.players| && s.players[p].lastSeq == s.players[q].lastSeq ==>
      s.players[p].state == s.players[q].state
  }

  /** However and whenever each player joined, their states are the fold of the messages up to their number. */
  lemma {:induction false} PlayersAreFolds<S(!new), D(!new)>(g: Game<S, D>, events: seq<Event<D>>, p: nat)
    requires ComesBack(g) && (Harmless(g) || NobodyMisses(g, Empty(), events))
    requires p < |Run(g, Empty(), events).players|
    ensures
      var s := Run(g, Empty(), events);
      s.players[p].lastSeq <= |s.log| && s.players[p].state == Fold(g, s.log, s.players[p].lastSeq)
  {
    RunConsistent(g, Empty(), events);
    var s := Run(g, Empty(), events);
    assert PlayerOk(g, s.log, s.players[p]);
  }

  /** Every posted pair is the state after all messages up to its number: nothing missing, nothing applied twice. */
  lemma PostsAreFolds<S(!new), D(!new)>(g: Game<S, D>, events: seq<Event<D>>, k: nat)
    requires ComesBack(g) && (Harmless(g) || NobodyMisses(g, Empty(), events))
    requires k < |Run(g, Empty(), events).posts|
    ensures
      var s := Run(g, Empty(), events);
      s.posts[k].0 <= |s.log| && s.posts[k].1 == Fold(g, s.log, s.posts[k].0)
  {
    RunConsistent(g, Empty(), events);
    var s := Run(g, Empty(), events);
    assert IsPost(g, s.log, s.posts[k]);
  }

  // ---- who posts a snapshot, and when ----

  function At<S(==), D>(g: Game<S, D>, events: seq<Event<D>>, k: nat): Session<S, D> {
    if k <= |events| then Run(g, Empty(), events[..k]) else Run(g, Empty(), events)
  }

  /** The event hands player `p` a message as the host, and that changes its state. */
  predicate ChangesAsHost<S(==), D>(s: Session<S, D>, e: Event<D>, t: Session<S, D>, p: nat) {
    && e == Handle(p, true) && Enabled(s, e)
    && p < |s.players| && p < |t.players| && t.players[p].state != s.players[p].state
  }

  ghost function HostChanges<S, D>(g: Game<S, D>, events: seq<Event<D>>, p: nat): nat -> bool {
    (i: nat) => i < |events| && ChangesAsHost(At(g, events, i), events[i], At(g, events, i + 1), p)
  }

  ghost function Posts<S, D>(g: Game<S, D>, events: seq<Event<D>>, p: nat): nat -> bool {
    (j: nat) => j < |events| && events[j] == Post(p) && Enabled(At(g, events, j), events[j])
  }

  lemma AtOneMore<S, D>(g: Game<S, D>, events: seq<Event<D>>, k: nat)
    requires k < |events|
    ensures
      var s := At(g, events, k);
      At(g, events, k + 1) == if Enabled(s, events[k]) then Next(g, s, events[k]) else s
  {
    assert events[..k + 1] == events[..k] + [events[k]];
    RunConcat(g, Empty(), events[..k], [events[k]]);
    assert [events[k]][1..] == [];
  }

  lemma TimerStep<S, D>(g: Game<S, D>, s: Session<S, D>, e: Event<D>, p: nat)
    ensures
      var t := if Enabled(s, e) then Next(g, s, e) else s;
      Enabled(t, Post(p)) <==>
        ChangesAsHost(s, e, t, p) || (Enabled(s, Post(p)) && !(e == Post(p) && Enabled(s, e)))
  {}

  /** Exact, over every run: a player posts a snapshot if and only if its state changed as the host since its last. */
  lemma {:induction false} PostsWhenChanged<S, D>(g: Game<S, D>, events: seq<Event<D>>, p: nat, k: nat)
    requires k <= |events|
    ensures
      var s := At(g, events, k);
      Enabled(s, Post(p)) <==> Since(HostChanges(g, events, p), Posts(g, events, p), k)
  {
    if k > 0 {
      PostsWhenChanged(g, events, p, k - 1);
      SinceOneMore(HostChanges(g, events, p), Posts(g, events, p), k - 1);
      AtOneMore(g, events, k - 1);
      TimerStep(g, At(g, events, k - 1), events[k - 1], p);
    }
  }

  // ---- the snapshot kept ----

  /** The number of the newest snapshot that arrived during the run and was not from the future. */
  function NewestArrived<S(==), D>(g: Game<S, D>, s: Session<S, D>, events: seq<Event<D>>): nat
    decreases |events|
  {
    if events == [] then 0
    else
      var e := events[0];
      var arrived := if e.Arrive? && e.k < |s.posts| && s.posts[e.k].0 <= |s.log| then s.posts[e.k].0 else 0;
      Max(arrived, NewestArrived(g, if Enabled(s, e) then Next(g, s, e) else s, events[1..]))
  }

  /** Exact, over every run: late joiners get the newest snapshot that arrived, in whatever order they came. */
  lemma {:induction false} KeepsTheNewest<S, D>(g: Game<S, D>, s: Session<S, D>, events: seq<Event<D>>)
    ensures SnapshotSeq(Run(g, s, events).snapshot) == Max(SnapshotSeq(s.snapshot), NewestArrived(g, s, events))
    decreases |events|
  {
    if events != [] {
      KeepsTheNewest(g, if Enabled(s, events[0]) then Next(g, s, events[0]) else s, events[1..]);
    }
  }

  // ---- the counts of a player are those of its SDK ----

  /** What the game's handler makes of the messages it is called with. */
  function Reduced<S, D>(g: Game<S, D>, state: S, heard: seq<Message<D>>): S {
    if heard == [] then state
    else
      var last := heard[|heard| - 1];
      g.reduce(Reduced(g, state, heard[..|heard| - 1]), last.data, last.from)
  }

  lemma {:induction false} ReducedIsFold<S, D>(g: Game<S, D>, state: S, log: seq<Sent<D>>, d: nat, n: nat)
    requires d <= n <= |log|
    ensures Reduced(g, state, Numbered(log, d, n)) == FoldFrom(g, state, log[d..n])
    decreases n
  {
    if n > d {
      ReducedIsFold(g, state, log, d, n - 1);
      ReducedOneMore(g, state, log, d, n);
    }
  }

  lemma ReducedOneMore<S, D>(g: Game<S, D>, state: S, log: seq<Sent<D>>, d: nat, n: nat)
    requires d < n <= |log| && Reduced(g, state, Numbered(log, d, n - 1)) == FoldFrom(g, state, log[d..n - 1])
    ensures Reduced(g, state, Numbered(log, d, n)) == FoldFrom(g, state, log[d..n])
  {
    NumberedSnoc(log, d, n);
    FoldFromSnoc(g, state, log, d, n - 1);
    var heard := Numbered(log, d, n);
    assert heard[..|heard| - 1] == Numbered(log, d, n - 1);
  }

  /**
   * The SDK that was given the messages after `from` up to `accepted`, on top of a snapshot: it has handed over those
   * up to `lastSeq` and holds the rest, and a game that started from `state` has reduced them as the model's player
   * does.
   */
  lemma SdkIsPlayer<S, D(!new)>(
      g: Game<S, D>, sdk: ActivitySdk.Sdk<D>, state: S, log: seq<Sent<D>>, from: nat, accepted: nat)
    requires sdk.Valid() && sdk.base <= from <= accepted <= |log| && sdk.accepted == Numbered(log, from, accepted)
    ensures
      var n := from + |sdk.delivered|;
      && n <= accepted && sdk.lastSeq == (if sdk.delivered == [] then sdk.base else n)
      && sdk.delivered == Numbered(log, from, n) && sdk.held == Numbered(log, n, accepted)
      && Reduced(g, state, sdk.delivered) == FoldFrom(g, state, log[from..n])
  {
    var n := |sdk.delivered|;
    assert sdk.delivered == sdk.accepted[..n] && sdk.held == sdk.accepted[n..];
    assert n > 0 ==> sdk.delivered[n - 1] == sdk.accepted[n - 1];
    ReducedIsFold(g, state, log, from, from + n);
  }

  // ---- the conditions are exact ----

  lemma {:induction false} RunConcat<S, D>(g: Game<S, D>, s: Session<S, D>, a: seq<Event<D>>, b: seq<Event<D>>)
    ensures Run(g, s, a + b) == Run(g, Run(g, s, a), b)
    ensures NobodyMisses(g, s, a + b) <==> NobodyMisses(g, s, a) && NobodyMisses(g, Run(g, s, a), b)
    decreases |a|
  {
    if a == [] {
      assert a + b == b;
    } else {
      assert (a + b)[1..] == a[1..] + b;
      RunConcat(g, if Enabled(s, a[0]) then Next(g, s, a[0]) else s, a[1..], b);
    }
  }

  lemma RunOne<S, D>(g: Game<S, D>, s: Session<S, D>, e: Event<D>)
    requires Enabled(s, e)
    ensures Run(g, s, [e]) == Next(g, s, e) && (NobodyMisses(g, s, [e]) <==> (e.Join? ==> !Missed(g, s)))
  {
    assert [e][1..] == [];
  }

  lemma RunTwo<S, D>(g: Game<S, D>, s: Session<S, D>, a: Event<D>, b: Event<D>)
    requires Enabled(s, a) && Enabled(Next(g, s, a), b)
    ensures Run(g, s, [a, b]) == Next(g, Next(g, s, a), b)
    ensures !a.Join? && !b.Join? ==> NobodyMisses(g, s, [a, b])
  {
    RunOne(g, s, a);
    RunOne(g, Next(g, s, a), b);
    RunConcat(g, s, [a], [b]);
    assert [a] + [b] == [a, b];
  }

  /** Sending `rest`, without anything else. */
  lemma {:induction false} SendAll<S, D>(g: Game<S, D>, s: Session<S, D>, rest: seq<Sent<D>>)
    returns (events: seq<Event<D>>)
    ensures Run(g, s, events) == s.(log := s.log + rest) && NobodyMisses(g, s, events)
    decreases |rest|
  {
    if rest == [] {
      assert s.log + rest == s.log;
      return [];
    }
    var m := rest[0];
    var e := Send(m.data, m.from);
    var t := Next(g, s, e);
    var later := SendAll(g, t, rest[1..]);
    assert s.log + [m] + rest[1..] == s.log + rest;
    RunOne(g, s, e);
    RunConcat(g, s, [e], later);
    events := [e] + later;
  }

  /** The next message reaches the player and is handed to the game. */
  function HandedOne<S(==), D>(g: Game<S, D>, s: Session<S, D>, p: nat, host: bool): Session<S, D>
    requires p < |s.players| && Max(s.players[p].lastSeq, s.players[p].from) < |s.log|
  {
    var player := s.players[p];
    var next := Handled(g, player, s.log, host);
    s.(players := s.players[p := next.(accepted := next.lastSeq)])
  }

  lemma HandOne<S, D>(g: Game<S, D>, s: Session<S, D>, p: nat, host: bool)
    requires p < |s.players| && Max(s.players[p].lastSeq, s.players[p].from) < |s.log|
    requires s.players[p].accepted == s.players[p].lastSeq
    ensures Run(g, s, [Receive(p), Handle(p, host)]) == HandedOne(g, s, p, host)
    ensures NobodyMisses(g, s, [Receive(p), Handle(p, host)])
  {
    var t := Next(g, s, Receive(p));
    assert t.players[p] == Received(s.players[p]);
    RunTwo(g, s, Receive(p), Handle(p, host));
    assert Next(g, t, Handle(p, host)).players == HandedOne(g, s, p, host).players;
  }

  /** What the player `p` holds once it was handed everything up to message `k`, not being the host. */
  function HandedUpTo<S(==), D>(g: Game<S, D>, player: Player<S>, log: seq<Sent<D>>, k: nat): Player<S>
    requires Max(player.lastSeq, player.from) <= k <= |log|
  {
    var n := Max(player.lastSeq, player.from);
    if n == k then player
    else player.(accepted := k, lastSeq := k, state := FoldFrom(g, player.state, log[n..k]))
  }

  lemma HandedOneMore<S, D>(g: Game<S, D>, player: Player<S>, log: seq<Sent<D>>, k: nat)
    requires Max(player.lastSeq, player.from) <= k < |log|
    ensures
      var before := HandedUpTo(g, player, log, k);
      && Max(before.lastSeq, before.from) == k
      && Handled(g, before, log, false).(accepted := k + 1) == HandedUpTo(g, player, log, k + 1)
  {
    var n := Max(player.lastSeq, player.from);
    FoldFromSnoc(g, player.state, log, n, k);
    assert log[n..n] == [];
  }

  lemma {:induction false} HandleAll<S, D>(g: Game<S, D>, s: Session<S, D>, p: nat, k: nat)
    returns (events: seq<Event<D>>)
    requires p < |s.players| && s.players[p].accepted == s.players[p].lastSeq
    requires Max(s.players[p].lastSeq, s.players[p].from) <= k <= |s.log|
    ensures Run(g, s, events) == s.(players := s.players[p := HandedUpTo(g, s.players[p], s.log, k)])
    ensures NobodyMisses(g, s, events)
    decreases k
  {
    if k == Max(s.players[p].lastSeq, s.players[p].from) {
      assert s.players[p := s.players[p]] == s.players;
      return [];
    }
    var before := HandleAll(g, s, p, k - 1);
    HandedOneMore(g, s.players[p], s.log, k - 1);
    var t := Run(g, s, before);
    HandOne(g, t, p, false);
    assert HandedOne(g, t, p, false).players == s.players[p := HandedUpTo(g, s.players[p], s.log, k)];
    RunConcat(g, s, before, [Receive(p), Handle(p, false)]);
    events := before + [Receive(p), Handle(p, false)];
  }

  /** One player, the host, alone from the start, who was handed every message of `log`. */
  function Alone<S(==), D>(g: Game<S, D>, log: seq<Sent<D>>): Session<S, D> {
    Session(log, None, [], [Player(0, 0, |log|, |log|, Fold(g, log, |log|), Changed(g, log, |log|))])
  }

  lemma AloneOneMore<S, D>(g: Game<S, D>, log: seq<Sent<D>>, m: Sent<D>)
    ensures HandedOne(g, Alone(g, log).(log := log + [m]), 0, true) == Alone(g, log + [m])
  {
    var n := |log|;
    ChangedPrefix(g, log, m, n);
    FoldSnoc(g, log + [m], n);
  }

  lemma {:induction false} ReachesAlone<S, D>(g: Game<S, D>, log: seq<Sent<D>>) returns (events: seq<Event<D>>)
    ensures Run(g, Empty(), events) == Alone(g, log) && NobodyMisses(g, Empty(), events)
  {
    if log == [] {
      RunOne(g, Empty(), Join);
      assert Next(g, Empty(), Join).players == Alone(g, log).players;
      return [Join];
    }
    var n := |log| - 1;
    var m := log[n];
    var before := ReachesAlone(g, log[..n]);
    var s := Alone(g, log[..n]);
    var t := s.(log := s.log + [m]);
    RunOne(g, s, Send(m.data, m.from));
    HandOne(g, t, 0, true);
    AloneOneMore(g, log[..n], m);
    assert log[..n] + [m] == log;
    RunConcat(g, s, [Send(m.data, m.from)], [Receive(0), Handle(0, true)]);
    RunConcat(g, Empty(), before, [Send(m.data, m.from)] + [Receive(0), Handle(0, true)]);
    events := before + ([Send(m.data, m.from)] + [Receive(0), Handle(0, true)]);
  }

  /** The host's snapshot has arrived. */
  function Saved<S(==), D>(g: Game<S, D>, log: seq<Sent<D>>): Session<S, D> {
    var n := |log|;
    var post := (n, Fold(g, log, n));
    Session(log, Some(post), [post], [Player(0, 0, n, n, Fold(g, log, n), false)])
  }

  lemma {:induction false} ReachesSaved<S, D>(g: Game<S, D>, log: seq<Sent<D>>) returns (events: seq<Event<D>>)
    requires Changed(g, log, |log|)
    ensures Run(g, Empty(), events) == Saved(g, log) && NobodyMisses(g, Empty(), events)
  {
    var before := ReachesAlone(g, log);
    RunTwo(g, Alone(g, log), Post(0), Arrive(0));
    assert Next(g, Alone(g, log), Post(0)).players == Saved(g, log).players;
    RunConcat(g, Empty(), before, [Post(0), Arrive(0)]);
    events := before + [Post(0), Arrive(0)];
  }

  /** A state that does not come back: a late joiner who starts from its snapshot holds another one than its host. */
  lemma {:induction false} LateJoinerDiffers<S(!new), D(!new)>(g: Game<S, D>, log: seq<Sent<D>>)
    returns (events: seq<Event<D>>)
    requires Changed(g, log, |log|) && Restored(g, Fold(g, log, |log|)) != Fold(g, log, |log|)
    ensures !Agreed(Run(g, Empty(), events)) && NobodyMisses(g, Empty(), events)
  {
    var before := ReachesSaved(g, log);
    RunOne(g, Saved(g, log), Join);
    RunConcat(g, Empty(), before, [Join]);
    events := before + [Join];
    var s := Run(g, Empty(), events);
    assert |s.players| == 2 && s.players[0].lastSeq == s.players[1].lastSeq;
  }

  /** The session at the join: everything up to `join` sent, and the snapshot, if any, after message `n`. */
  lemma {:induction false} ReachesJoin<S, D>(g: Game<S, D>, log: seq<Sent<D>>, n: nat, join: nat)
    returns (events: seq<Event<D>>, s: Session<S, D>)
    requires n <= join <= |log| && (n == 0 || Changed(g, log[..n], n))
    ensures s == Run(g, Empty(), events)
    ensures s.log == log[..join] && SnapshotSeq(s.snapshot) == n
    ensures s.snapshot.Some? ==> s.snapshot.value.1 == Fold(g, log, n)
    ensures s.snapshot.Some? <==> n > 0
    ensures |s.players| == 1 && s.players[0].(timer := false) == Player(0, 0, n, n, Fold(g, log, n), false)
  {
    var before: seq<Event<D>>;
    if n == 0 { before := ReachesAlone(g, log[..n]); } else { before := ReachesSaved(g, log[..n]); }
    var t := Run(g, Empty(), before);
    var sends := SendAll(g, t, log[n..join]);
    RunConcat(g, Empty(), before, sends);
    assert log[..n] + log[n..join] == log[..join] && log[..n][..n] == log[..n];
    events := before + sends;
    s := Run(g, Empty(), events);
  }

  /** The session a joiner enters then. */
  lemma {:induction false} ReachesGap<S(!new), D(!new)>(g: Game<S, D>, log: seq<Sent<D>>, n: nat, join: nat)
    returns (events: seq<Event<D>>, t: Session<S, D>)
    requires ComesBack(g) && join <= |log| && n < Gone(log[..join], g.bytes) && (n == 0 || Changed(g, log, n))
    ensures t == Run(g, Empty(), events) && t.log == log && |t.players| == 2
    ensures t.players[0].(timer := false) == Player(0, 0, n, n, Fold(g, log, n), false)
    ensures t.players[1] == Player(n, Gone(log[..join], g.bytes), n, n, Fold(g, log, n), false)
  {
    ChangedOfPrefix(g, log, n);
    var first, s := ReachesJoin(g, log, n, join);
    RunOne(g, s, Join);
    var sends := SendAll(g, Next(g, s, Join), log[join..]);
    assert log[..join] + log[join..] == log;
    RunConcat(g, Empty(), first, [Join]);
    RunConcat(g, Empty(), first + [Join], sends);
    events := first + [Join] + sends;
    t := Run(g, Empty(), events);
  }

  /** Messages left out that matter: who joined when they were gone holds another state than who did not miss any. */
  lemma {:induction false} GapDiffers<S(!new), D(!new)>(g: Game<S, D>, log: seq<Sent<D>>, n: nat, join: nat, k: nat)
    returns (events: seq<Event<D>>)
    requires ComesBack(g) && join <= |log| && n < Gone(log[..join], g.bytes) < k <= |log|
    requires n == 0 || Changed(g, log, n)
    requires !SkipsTo(g, log, n, Gone(log[..join], g.bytes), k)
    ensures !Agreed(Run(g, Empty(), events))
  {
    var first, t := ReachesGap(g, log, n, join);
    var mine := HandleAll(g, t, 0, k);
    var u := Run(g, t, mine);
    var theirs := HandleAll(g, u, 1, k);
    NoGap(g, log, n, k);
    RunConcat(g, Empty(), first, mine);
    RunConcat(g, Empty(), first + mine, theirs);
    events := first + mine + theirs;
    var v := Run(g, Empty(), events);
    assert v.players[0].lastSeq == v.players[1].lastSeq == k && v.players[0].state != v.players[1].state;
  }

  lemma {:induction false} ChangedOfPrefix<S, D>(g: Game<S, D>, log: seq<Sent<D>>, n: nat)
    requires n <= |log|
    ensures Changed(g, log[..n], n) <==> Changed(g, log, n)
    decreases |log|
  {
    if n < |log| {
      var m := |log| - 1;
      ChangedPrefix(g, log[..m], log[m], n);
      assert log[..m] + [log[m]] == log && log[..m][..n] == log[..n];
      ChangedOfPrefix(g, log[..m], n);
    } else {
      assert log[..n] == log;
    }
  }

  lemma {:induction false} ComesBackOr<S(!new), D(!new)>(g: Game<S, D>) returns (log: seq<Sent<D>>)
    requires !ComesBack(g)
    ensures Changed(g, log, |log|) && Restored(g, Fold(g, log, |log|)) != Fold(g, log, |log|)
  {
    var all, n: nat :| n <= |all| && Changed(g, all, n) && Restored(g, Fold(g, all, n)) != Fold(g, all, n);
    ChangedOfPrefix(g, all, n);
    log := all[..n];
    assert log[..n] == all[..n];
  }

  /** When nobody is sent too little: players always agree exactly when every state of a snapshot comes back. */
  lemma AgreedIffComesBack<S(!new), D(!new)>(g: Game<S, D>)
    ensures (forall events :: NobodyMisses(g, Empty(), events) ==> Agreed(Run(g, Empty(), events))) <==> ComesBack(g)
  {
    if ComesBack(g) {
      forall events | NobodyMisses(g, Empty(), events) ensures Agreed(Run(g, Empty(), events)) {
        RunConsistent(g, Empty(), events);
        ConsistentAgrees(g, Run(g, Empty(), events));
      }
    } else {
      var log := ComesBackOr(g);
      var events := LateJoinerDiffers(g, log);
      assert NobodyMisses(g, Empty(), events) && !Agreed(Run(g, Empty(), events));
    }
  }

  lemma ConsistentAgrees<S, D>(g: Game<S, D>, s: Session<S, D>)
    requires Consistent(g, s)
    ensures Agreed(s)
  {
    forall p | 0 <= p < |s.players|
      ensures s.players[p].lastSeq <= |s.log| && s.players[p].state == Fold(g, s.log, s.players[p].lastSeq) {
      assert PlayerOk(g, s.log, s.players[p]);
    }
  }

  /** In all runs: players always agree if and only if states come back and messages the server drops do not matter. */
  lemma AgreedIff<S(!new), D(!new)>(g: Game<S, D>)
    ensures (forall events :: Agreed(Run(g, Empty(), events))) <==> ComesBack(g) && Harmless(g)
  {
    if !ComesBack(g) {
      var log := ComesBackOr(g);
      var events := LateJoinerDiffers(g, log);
      assert !Agreed(Run(g, Empty(), events));
    } else if !Harmless(g) {
      var log: seq<Sent<D>>, n: nat, join: nat, k: nat :|
        join <= |log| && n < Gone(log[..join], g.bytes) < k <= |log| && (n == 0 || Changed(g, log, n))
        && !SkipsTo(g, log, n, Gone(log[..join], g.bytes), k);
      var events := GapDiffers(g, log, n, join, k);
      assert !Agreed(Run(g, Empty(), events));
    } else {
      forall events ensures Agreed(Run(g, Empty(), events)) {
        RunConsistent(g, Empty(), events);
        ConsistentAgrees(g, Run(g, Empty(), events));
      }
    }
  }

  // ---- both can fail ----

  /** A game that counts its messages, with snapshots or without. */
  function Counting(saves: bool): Game<int, int> {
    Game(
      0,
      (state: int) => if saves then Some(state) else None,
      (state: int, data: int, from: nat) => state + 1,
      (data: int) => 0)
  }

  lemma {:induction false} CountingCounts(saves: bool, state: int, log: seq<Sent<int>>)
    ensures FoldFrom(Counting(saves), state, log) == state + |log|
  {
    if log != [] { CountingCounts(saves, state, log[..|log| - 1]); }
  }

  /** When `parse` refuses a snapshot, the late joiner misses the messages before it. */
  lemma RefusedSnapshotDiverges(data: int)
    ensures exists events ::
      NobodyMisses(Counting(false), Empty(), events) && !Agreed(Run(Counting(false), Empty(), events))
  {
    var log := [Sent(data, 0)];
    CountingCounts(false, 0, log[..0]);
    CountingCounts(false, 0, log[..1]);
    var events := LateJoinerDiffers(Counting(false), log);
  }

  lemma {:induction false} CountingWeighsNothing(saves: bool, log: seq<Sent<int>>)
    ensures TotalBytes(log, Counting(saves).bytes) == 0
  {
    if log != [] { CountingWeighsNothing(saves, log[1..]); }
  }

  /** Without a snapshot in time, the first of 301 messages is gone for whoever joins then. */
  lemma DroppedMessageDiverges(log: seq<Sent<int>>)
    requires |log| == MAX_BUFFERED + 1
    ensures exists events :: !Agreed(Run(Counting(true), Empty(), events))
  {
    var g := Counting(true);
    CountingWeighsNothing(true, log[1..]);
    TrimmedIs(log, g.bytes, 0, 1);
    assert log[..|log|] == log;
    CountingCounts(true, 0, log[..0]);
    CountingCounts(true, 0, log[..2]);
    CountingCounts(true, 0, log[1..2]);
    assert !SkipsTo(g, log, 0, 1, 2);
    var events := GapDiffers(g, log, 0, |log|, 2);
  }
}
