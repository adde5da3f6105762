/**
 * The server's side of an activity: messages are numbered, the newest are kept for late joiners within limits, and a
 * snapshot makes those before it unnecessary.
 */
module ActivityRooms {
  import opened Common

  const MAX_BUFFERED := 300
  const MAX_BUFFERED_BYTES := 256 * 1024

  datatype Sent<D> = Sent(data: D, from: nat)

  /** A message with its number: 1, 2, 3, ... */
  datatype Message<D> = Message(seqNo: nat, data: D, from: nat)

  function Max(a: nat, b: nat): nat { if a >= b then a else b }

  function TotalBytes<D>(messages: seq<Sent<D>>, bytes: D -> nat): nat {
    if messages == [] then 0 else bytes(messages[0].data) + TotalBytes(messages[1..], bytes)
  }

  predicate Fits<D>(messages: seq<Sent<D>>, bytes: D -> nat) {
    |messages| <= MAX_BUFFERED && TotalBytes(messages, bytes) <= MAX_BUFFERED_BYTES
  }

  /** How many of the oldest, at least `d`, must go for the rest to fit. */
  function Trimmed<D>(log: seq<Sent<D>>, bytes: D -> nat, d: nat): (r: nat)
    requires d <= |log|
    ensures d <= r <= |log| && Fits(log[r..], bytes)
    ensures forall k :: d <= k < r ==> !Fits(log[k..], bytes)
    decreases |log| - d
  {
    if d == |log| || Fits(log[d..], bytes) then d else Trimmed(log, bytes, d + 1)
  }

  /** How many of the oldest messages are gone for a late joiner without a snapshot. */
  function Gone<D>(log: seq<Sent<D>>, bytes: D -> nat): (r: nat)
    ensures r <= |log|
  {
    Trimmed(log, bytes, 0)
  }

  /** The messages after the first `from`, up to the first `upTo`, with their numbers. */
  function Numbered<D>(log: seq<Sent<D>>, from: nat, upTo: nat): seq<Message<D>>
    requires from <= upTo <= |log|
  {
    seq(upTo - from, k requires 0 <= k < upTo - from => Message(from + k + 1, log[from + k].data, log[from + k].from))
  }

  lemma NumberedSnoc<D>(log: seq<Sent<D>>, from: nat, n: nat)
    requires from < n <= |log|
    ensures |Numbered(log, from, n)| == n - from
    ensures Numbered(log, from, n) == Numbered(log, from, n - 1) + [Message(n, log[n - 1].data, log[n - 1].from)]
  {}

  lemma NumberedFirst<D>(log: seq<Sent<D>>, from: nat, n: nat)
    requires from < n <= |log|
    ensures Numbered(log, from, n) != [] && Numbered(log, from, n)[1..] == Numbered(log, from + 1, n)
    ensures Numbered(log, from, n)[0] == Message(from + 1, log[from].data, log[from].from)
  {}

  lemma NumberedPrefix<D>(log: seq<Sent<D>>, m: Sent<D>, from: nat)
    requires from <= |log|
    ensures Numbered(log + [m], from, |log|) == Numbered(log, from, |log|)
  {}

  lemma {:induction false} BytesSnoc<D>(messages: seq<Sent<D>>, m: Sent<D>, bytes: D -> nat)
    ensures TotalBytes([], bytes) == 0
    ensures TotalBytes(messages + [m], bytes) == TotalBytes(messages, bytes) + bytes(m.data)
  {
    if messages != [] {
      BytesSnoc(messages[1..], m, bytes);
      assert (messages + [m])[1..] == messages[1..] + [m];
    }
  }

  lemma BytesFirst<D>(log: seq<Sent<D>>, d: nat, bytes: D -> nat)
    requires d < |log|
    ensures TotalBytes(log[d..], bytes) == bytes(log[d].data) + TotalBytes(log[d + 1..], bytes)
  {
    assert log[d..][1..] == log[d + 1..];
  }

  lemma {:induction false} LaterFits<D>(log: seq<Sent<D>>, d: nat, e: nat, bytes: D -> nat)
    requires d <= e <= |log| && Fits(log[d..], bytes)
    ensures Fits(log[e..], bytes)
    decreases e
  {
    if d < e {
      LaterFits(log, d, e - 1, bytes);
      BytesFirst(log, e - 1, bytes);
    }
  }

  /** What does not fit with the messages so far does not fit with one more. */
  lemma GoneGrows<D>(log: seq<Sent<D>>, m: Sent<D>, bytes: D -> nat)
    ensures Gone(log, bytes) <= Gone(log + [m], bytes)
  {
    var more := log + [m];
    var r := Gone(more, bytes);
    if r < Gone(log, bytes) {
      assert more[r..] == log[r..] + [m];
      BytesSnoc(log[r..], m, bytes);
      assert Fits(log[r..], bytes);
    }
  }

  lemma {:induction false} TrimmedIs<D>(log: seq<Sent<D>>, bytes: D -> nat, d: nat, r: nat)
    requires d <= r <= |log| && Fits(log[r..], bytes)
    requires forall k :: d <= k < r ==> !Fits(log[k..], bytes)
    ensures Trimmed(log, bytes, d) == r
    decreases r - d
  {
    if d < r { TrimmedIs(log, bytes, d + 1, r); }
  }

  /** Trimming from a later start stops at the same place, or at once. */
  lemma TrimmedFrom<D>(log: seq<Sent<D>>, d: nat, bytes: D -> nat)
    requires d <= |log|
    ensures Trimmed(log, bytes, d) == Max(d, Gone(log, bytes))
  {
    var g := Gone(log, bytes);
    if d < g { TrimmedIs(log, bytes, d, g); } else { LaterFits(log, g, d, bytes); }
  }

  /** Of the messages that are left there are 300 and 256 KB at most; and with one more it would be too many. */
  lemma GoneIs<D>(log: seq<Sent<D>>, bytes: D -> nat)
    ensures
      var r := Gone(log, bytes);
      && |log| - r <= 300 && TotalBytes(log[r..], bytes) <= 262_144
      && (r > 0 ==> |log| - r + 1 > 300 || TotalBytes(log[r - 1..], bytes) > 262_144)
  {
    var r := Gone(log, bytes);
    if r > 0 { assert !Fits(log[r - 1..], bytes); }
  }

  class ActivityRoom<S, D(!new)> {
    const bytes: D -> nat
    var seqNo: nat
    var state: Option<S>
    var stateSeq: nat
    var buffer: seq<Message<D>>
    var bufferBytes: nat
    var droppedUpTo: nat
    /** Every message sent. */
    ghost var log: seq<Sent<D>>

    /** Where the buffer starts: after the snapshot and after what was dropped. */
    function Start(): nat
      reads this
    {
      Max(droppedUpTo, stateSeq)
    }

    /** The buffer holds exactly the messages since then; and what was dropped past the snapshot is what had to go. */
    ghost predicate Valid()
      reads this
    {
      && seqNo == |log| && Start() <= |log|
      && Holds(Start())
      && droppedUpTo <= Gone(log, bytes)
      && (Gone(log, bytes) > stateSeq ==> droppedUpTo == Gone(log, bytes))
    }

    constructor (bytes: D -> nat)
      ensures Valid() && log == [] && state == None && stateSeq == 0 && this.bytes == bytes
    {
      this.bytes := bytes;
      state := None;
      seqNo, stateSeq, buffer, bufferBytes, droppedUpTo, log := 0, 0, [], 0, 0, [];
    }

    /** The message takes the next number, and the oldest go until the rest fits. */
    method Send(data: D, from: nat)
      requires Valid()
      modifies this
      ensures Valid() && log == old(log) + [Sent(data, from)]
      ensures state == old(state) && stateSeq == old(stateSeq)
    {
      ghost var start := Start();
      GoneGrows(log, Sent(data, from), bytes);
      Append(data, from, start);
      TrimmedFrom(log, start, bytes);
      Trim(start);
    }

    ghost predicate Holds(d: nat)
      reads this
    {
      d <= |log| && buffer == Numbered(log, d, |log|) && bufferBytes == TotalBytes(log[d..], bytes)
    }

    /** Puts the next message at the end of the buffer. */
    method Append(data: D, from: nat, ghost start: nat)
      requires seqNo == |log| && Holds(start)
      modifies this`log, this`seqNo, this`buffer, this`bufferBytes
      ensures log == old(log) + [Sent(data, from)] && seqNo == |log| && Holds(start)
    {
      ghost var m := Sent(data, from);
      NumberedPrefix(log, m, start);
      NumberedSnoc(log + [m], start, |log| + 1);
      BytesSnoc(log[start..], m, bytes);
      assert (log + [m])[start..] == log[start..] + [m];
      log := log + [m];
      seqNo := seqNo + 1;
      buffer := buffer + [Message(seqNo, data, from)];
      bufferBytes := bufferBytes + bytes(data);
    }

    /** Takes the oldest message off the buffer. */
    method Shift(ghost d: nat) returns (seqNo: nat)
      requires Holds(d) && buffer != []
      modifies this`buffer, this`bufferBytes
      ensures Holds(d + 1) && seqNo == d + 1
    {
      NumberedFirst(log, d, |log|);
      BytesFirst(log, d, bytes);
      seqNo := buffer[0].seqNo;
      bufferBytes := bufferBytes - bytes(buffer[0].data);
      buffer := buffer[1..];
    }

    /** Drops the oldest while there are too many, or they are too long. */
    method Trim(ghost start: nat)
      requires Holds(start)
      modifies this`buffer, this`bufferBytes, this`droppedUpTo
      ensures Holds(Trimmed(log, bytes, start))
      ensures
        var end := Trimmed(log, bytes, start);
        droppedUpTo == if end > start then end else old(droppedUpTo)
    {
      ghost var d := start;
      while |buffer| > MAX_BUFFERED || bufferBytes > MAX_BUFFERED_BYTES
        invariant start <= d && Holds(d)
        invariant droppedUpTo == if d > start then d else old(droppedUpTo)
        invariant forall k :: start <= k < d ==> !Fits(log[k..], bytes)
        decreases |log| - d
      {
        NothingFits(d);
        droppedUpTo := Shift(d);
        d := d + 1;
      }
      TrimmedIs(log, bytes, start, d);
    }

    /** A buffer over the limits is not empty. */
    lemma NothingFits(d: nat)
      requires Holds(d) && (|buffer| > MAX_BUFFERED || bufferBytes > MAX_BUFFERED_BYTES)
      ensures buffer != [] && !Fits(log[d..], bytes)
    {
      assert log[|log|..] == [];
    }

    /** A snapshot after message `n`: refused from the future (false), and ignored when there is a newer one. */
    method SetState(n: nat, state: S) returns (taken: bool)
      requires Valid()
      modifies this
      ensures Valid() && log == old(log) && taken == (n <= |log|)
      ensures (stateSeq, this.state) ==
        if taken && n >= old(stateSeq) then (n, Some(state)) else (old(stateSeq), old(this.state))
    {
      if n > seqNo { return false; }
      if n < stateSeq { return true; }
      ghost var start := Start();
      this.state := Some(state);
      stateSeq := n;
      ForgetUpTo(n, start);
      return true;
    }

    method ForgetUpTo(n: nat, ghost start: nat)
      requires Holds(start) && n <= |log|
      modifies this`buffer, this`bufferBytes
      ensures Holds(Max(start, n))
    {
      ghost var d := start;
      while buffer != [] && buffer[0].seqNo <= n
        invariant start <= d <= Max(start, n) && Holds(d)
        decreases |log| - d
      {
        NumberedFirst(log, d, |log|);
        var _ := Shift(d);
        d := d + 1;
      }
      if d < |log| { NumberedFirst(log, d, |log|); }
    }

    /** What a late joiner gets: the snapshot, the messages after it that are left, and whether those are not all. */
    method Join() returns (snapshot: Option<S>, after: nat, messages: seq<Message<D>>, missed: bool)
      requires Valid()
      ensures snapshot == state && after == stateSeq
      ensures messages == Numbered(log, Max(Gone(log, bytes), stateSeq), |log|)
      ensures missed <==> Gone(log, bytes) > stateSeq
    {
      snapshot, after, messages := state, stateSeq, buffer;
      missed := droppedUpTo > stateSeq;
    }
  }
}
