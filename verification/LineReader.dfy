/** A byte stream split into lines, whatever the chunks it comes in; a line over the limit is refused whole. */
module LineReader {
  import opened Common

  type Bytes = seq<int>
  datatype Event = Line(bytes: Bytes) | TooLong

  const NEWLINE := 10
  const RETURN := 13

  // ---- the whole stream at once ----

  function StripReturn(line: Bytes): Bytes {
    if line != [] && line[|line| - 1] == RETURN then line[..|line| - 1] else line
  }

  /** What one line, without its newline, comes to. */
  function LineEvent(line: Bytes, max: nat): Event {
    if |line| > max then TooLong else Line(StripReturn(line))
  }

  /** What comes after the last newline. */
  function Tail(bytes: Bytes): Bytes {
    if bytes == [] || bytes[|bytes| - 1] == NEWLINE then []
    else Tail(bytes[..|bytes| - 1]) + [bytes[|bytes| - 1]]
  }

  /** One event for every line that ended. */
  function Ended(bytes: Bytes, max: nat): seq<Event> {
    if bytes == [] then []
    else
      var front := bytes[..|bytes| - 1];
      if bytes[|bytes| - 1] == NEWLINE then Ended(front, max) + [LineEvent(Tail(front), max)] else Ended(front, max)
  }

  /** Everything the stream comes to once it ends; a last line without a newline counts unless it is empty. */
  function AllEvents(bytes: Bytes, max: nat): seq<Event> {
    Ended(bytes, max) + (if Tail(bytes) == [] then [] else [LineEvent(Tail(bytes), max)])
  }

  predicate NoNewline(bytes: Bytes) {
    NEWLINE !in bytes
  }

  lemma {:induction false} PieceJoinsTail(bytes: Bytes, piece: Bytes, max: nat)
    requires NoNewline(piece)
    ensures Tail(bytes + piece) == Tail(bytes) + piece && Ended(bytes + piece, max) == Ended(bytes, max)
  {
    if piece == [] {
      assert bytes + piece == bytes;
    } else {
      var last := |piece| - 1;
      assert piece[last] in piece;
      assert (bytes + piece)[..|bytes + piece| - 1] == bytes + piece[..last];
      PieceJoinsTail(bytes, piece[..last], max);
    }
  }

  lemma NewlineEndsTail(bytes: Bytes, max: nat)
    ensures Tail(bytes + [NEWLINE]) == []
    ensures Ended(bytes + [NEWLINE], max) == Ended(bytes, max) + [LineEvent(Tail(bytes), max)]
  {
    assert (bytes + [NEWLINE])[..|bytes|] == bytes;
  }

  // ---- chunk by chunk ----

  /** `chunk.indexOf(10, start)`. */
  function NextNewline(chunk: Bytes, start: nat): (r: Option<nat>)
    requires start <= |chunk|
    ensures r.Some? ==> start <= r.value < |chunk| && chunk[r.value] == NEWLINE && NoNewline(chunk[start..r.value])
    ensures r.None? ==> NoNewline(chunk[start..])
    decreases |chunk| - start
  {
    if start == |chunk| then None
    else if chunk[start] == NEWLINE then Some(start)
    else
      var r := NextNewline(chunk, start + 1);
      assert chunk[start..] == [chunk[start]] + chunk[start + 1..];
      assert r.Some? ==> chunk[start..r.value] == [chunk[start]] + chunk[start + 1..r.value];
      r
  }

  /** What is read and what is still to come make up the same bytes, whether or not the newline was read. */
  lemma PieceMoves(before: Bytes, chunk: Bytes, start: nat, stop: nat)
    requires start <= stop <= |chunk|
    ensures stop == |chunk| ==> before + chunk[start..stop] + chunk[stop..] == before + chunk[start..]
    ensures stop < |chunk| ==>
      before + chunk[start..stop] + [chunk[stop]] + chunk[stop + 1..] == before + chunk[start..]
  {
    assert stop < |chunk| ==> chunk[start..stop] + [chunk[stop]] + chunk[stop + 1..] == chunk[start..];
  }

  class Reader {
    const max: nat
    var parts: seq<Bytes>
    var size: nat
    var skipping: bool
    /** The calls of `onLine` and `tooLong`, in order. */
    var out: seq<Event>
    /** Every byte read so far. */
    ghost var read: Bytes

    /** With `tail` read since the last newline and `ended` what the lines before it came to. */
    ghost predicate Holds(tail: Bytes, ended: seq<Event>)
      reads this
    {
      && (skipping <==> |tail| > max)
      && (if skipping then parts == [] else Flatten(parts) == tail && size == |tail|)
      && out == ended + (if skipping then [TooLong] else [])
    }

    ghost predicate After(bytes: Bytes)
      reads this
    {
      Holds(Tail(bytes), Ended(bytes, max))
    }

    /** What the chunks so far come to, as far as it is settled; never more than `max` bytes are kept. */
    ghost predicate Valid()
      reads this
    {
      After(read) && |Flatten(parts)| <= max
    }

    constructor (max: nat)
      ensures Valid() && read == [] && this.max == max
    {
      this.max := max;
      parts, size, skipping, out, read := [], 0, false, [], [];
    }

    /** One piece of a chunk, up to its end or a newline. */
    method Take(piece: Bytes, ghost tail: Bytes, ghost ended: seq<Event>)
      requires Holds(tail, ended)
      modifies this`parts, this`size, this`skipping, this`out
      ensures Holds(tail + piece, ended)
    {
      if !skipping {
        size := size + |piece|;
        if size > max {
          skipping := true;
          parts := [];
          out := out + [TooLong];
        } else {
          FlattenSnoc(parts, piece);
          parts := parts + [piece];
        }
      }
    }

    method EndLine(ghost tail: Bytes, ghost ended: seq<Event>)
      requires Holds(tail, ended)
      modifies this`parts, this`size, this`skipping, this`out
      ensures Holds([], ended + [LineEvent(tail, max)])
    {
      if !skipping { out := out + [Line(StripReturn(Flatten(parts)))]; }
      parts := [];
      size := 0;
      skipping := false;
    }

    /** The bytes from `start` to the next newline, with it, or to the end of the chunk (`more` is false then). */
    method OnPiece(chunk: Bytes, start: nat, ghost before: Bytes) returns (next: nat, more: bool, ghost after: Bytes)
      requires start <= |chunk| && After(before)
      modifies this`parts, this`size, this`skipping, this`out
      ensures After(after) && start <= next <= |chunk| && (more ==> start < next) && (!more ==> next == |chunk|)
      ensures after + chunk[next..] == before + chunk[start..]
    {
      var nl := NextNewline(chunk, start);
      var stop := if nl.None? then |chunk| else nl.value;
      PieceMoves(before, chunk, start, stop);
      PieceJoinsTail(before, chunk[start..stop], max);
      Take(chunk[start..stop], Tail(before), Ended(before, max));
      after := before + chunk[start..stop];
      if nl.None? { return stop, false, after; }
      NewlineEndsTail(after, max);
      EndLine(Tail(after), Ended(after, max));
      return stop + 1, true, after + [NEWLINE];
    }

    method OnData(chunk: Bytes)
      requires Valid()
      modifies this
      ensures Valid() && read == old(read) + chunk
    {
      ghost var before := read;
      var start, more := 0, true;
      while more
        invariant 0 <= start <= |chunk| && After(before) && read == old(read)
        invariant before + chunk[start..] == read + chunk && (!more ==> start == |chunk|)
        decreases more, |chunk| - start
      {
        start, more, before := OnPiece(chunk, start, before);
      }
      assert before == before + chunk[start..];
      read := before;
    }

    method OnEnd()
      requires Valid()
      modifies this`out
      ensures out == AllEvents(read, max)
    {
      if !skipping && size > 0 { out := out + [Line(StripReturn(Flatten(parts)))]; }
    }
  }

  /** Whatever chunks a stream comes in, the events are those of the whole stream. */
  method ReadLines(chunks: seq<Bytes>, max: nat) returns (out: seq<Event>)
    ensures out == AllEvents(Flatten(chunks), max)
  {
    var reader := new Reader(max);
    for i := 0 to |chunks|
      invariant reader.Valid() && reader.max == max && reader.read == Flatten(chunks[..i])
    {
      reader.OnData(chunks[i]);
      FlattenSnoc(chunks[..i], chunks[i]);
      assert chunks[..i + 1] == chunks[..i] + [chunks[i]];
    }
    assert chunks[..|chunks|] == chunks;
    reader.OnEnd();
    out := reader.out;
  }

  // ---- reading back what was written ----

  /** A line as written: its text, and whether a carriage return goes before the newline. */
  datatype Written = Written(text: Bytes, withReturn: bool)

  function Content(w: Written): Bytes {
    if w.withReturn then w.text + [RETURN] else w.text
  }

  /** Lines written one after another, each with its newline. */
  function WriteAll(lines: seq<Written>): Bytes {
    if lines == [] then [] else WriteAll(lines[..|lines| - 1]) + Content(lines[|lines| - 1]) + [NEWLINE]
  }

  predicate Readable(w: Written, max: nat) {
    && NoNewline(w.text) && |Content(w)| <= max
    && (!w.withReturn && w.text != [] ==> w.text[|w.text| - 1] != RETURN)
  }

  predicate AllReadable(lines: seq<Written>, max: nat) {
    lines == [] || (AllReadable(lines[..|lines| - 1], max) && Readable(lines[|lines| - 1], max))
  }

  function Read(lines: seq<Written>): seq<Event> {
    seq(|lines|, i requires 0 <= i < |lines| => Line(lines[i].text))
  }

  lemma WriteSnoc(lines: seq<Written>, last: Written)
    ensures WriteAll(lines + [last]) == WriteAll(lines) + Content(last) + [NEWLINE]
    ensures Read(lines + [last]) == Read(lines) + [Line(last.text)]
  {
    assert (lines + [last])[..|lines|] == lines;
  }

  /** Whole lines, each ended, and what they come to. */
  ghost predicate ReadsAs(bytes: Bytes, max: nat, events: seq<Event>) {
    Ended(bytes, max) == events && Tail(bytes) == []
  }

  lemma ContentIs(w: Written, max: nat)
    requires Readable(w, max)
    ensures NoNewline(Content(w)) && LineEvent(Content(w), max) == Line(w.text)
  {
    assert StripReturn(Content(w)) == w.text;
  }

  lemma OneMore(before: Bytes, w: Written, max: nat, events: seq<Event>)
    requires Readable(w, max) && ReadsAs(before, max, events)
    ensures ReadsAs(before + Content(w) + [NEWLINE], max, events + [Line(w.text)])
  {
    ContentIs(w, max);
    PieceJoinsTail(before, Content(w), max);
    NewlineEndsTail(before + Content(w), max);
    assert Tail(before + Content(w)) == Content(w);
  }

  lemma {:induction false} LinesRead(lines: seq<Written>, max: nat)
    requires AllReadable(lines, max)
    ensures ReadsAs(WriteAll(lines), max, Read(lines))
  {
    if lines != [] {
      var front, last := lines[..|lines| - 1], lines[|lines| - 1];
      LinesRead(front, max);
      OneMore(WriteAll(front), last, max, Read(front));
      WriteSnoc(front, last);
      assert front + [last] == lines;
    }
  }

  /** Lines within the limit come back as they were written, with either line ending. */
  lemma ReadBack(lines: seq<Written>, max: nat)
    requires AllReadable(lines, max)
    ensures AllEvents(WriteAll(lines), max) == Read(lines)
  {
    LinesRead(lines, max);
  }

  // ---- any stream, line by line ----

  /** Lines of any bytes, each ended by a newline. */
  function Stream(lines: seq<Bytes>): Bytes {
    if lines == [] then [] else Stream(lines[..|lines| - 1]) + lines[|lines| - 1] + [10]
  }

  /** Reported without the carriage return it ends with, or refused when it is longer than allowed with it. */
  predicate Reports(e: Event, line: Bytes, max: nat) {
    if |line| > max then e == TooLong
    else if line != [] && line[|line| - 1] == 13 then e == Line(line[..|line| - 1])
    else e == Line(line)
  }

  /** Every stream is lines without newlines, each ended, and what comes after the last. */
  lemma {:induction false} EveryStream(bytes: Bytes) returns (lines: seq<Bytes>, last: Bytes)
    ensures bytes == Stream(lines) + last && NoNewline(last) && forall l :: l in lines ==> NoNewline(l)
  {
    if bytes == [] {
      lines, last := [], [];
    } else {
      var front, b := bytes[..|bytes| - 1], bytes[|bytes| - 1];
      lines, last := EveryStream(front);
      assert bytes == Stream(lines) + last + [b];
      if b == 10 {
        assert (lines + [last])[..|lines|] == lines;
        lines, last := lines + [last], [];
      } else {
        assert NoNewline(last + [b]);
        last := last + [b];
      }
    }
  }

  /** One event for each line. */
  predicate AllReported(events: seq<Event>, lines: seq<Bytes>, max: nat) {
    |events| == |lines| && forall i :: 0 <= i < |lines| ==> Reports(events[i], lines[i], max)
  }

  lemma OneMoreReported(events: seq<Event>, lines: seq<Bytes>, e: Event, line: Bytes, max: nat)
    requires AllReported(events, lines, max) && Reports(e, line, max)
    ensures AllReported(events + [e], lines + [line], max)
  {}

  lemma OneMoreLine(before: Bytes, line: Bytes, max: nat)
    requires NoNewline(line) && Tail(before) == []
    ensures Tail(before + line + [10]) == []
    ensures Ended(before + line + [10], max) == Ended(before, max) + [LineEvent(line, max)]
    ensures Reports(LineEvent(line, max), line, max)
  {
    PieceJoinsTail(before, line, max);
    NewlineEndsTail(before + line, max);
    assert Tail(before + line) == line;
  }

  lemma {:induction false} StreamReports(lines: seq<Bytes>, max: nat)
    requires forall l :: l in lines ==> NoNewline(l)
    ensures Tail(Stream(lines)) == [] && AllReported(Ended(Stream(lines), max), lines, max)
  {
    if lines != [] {
      var front, last := lines[..|lines| - 1], lines[|lines| - 1];
      assert last in lines && forall l :: l in front ==> l in lines;
      StreamReports(front, max);
      OneMoreLine(Stream(front), last, max);
      OneMoreReported(Ended(Stream(front), max), front, LineEvent(last, max), last, max);
      assert front + [last] == lines;
    }
  }

  /** So each line of any stream is reported or refused, and the last one too when anything is left of it. */
  lemma ReadsLineByLine(lines: seq<Bytes>, last: Bytes, max: nat)
    requires NoNewline(last) && forall l :: l in lines ==> NoNewline(l)
    ensures
      AllReported(AllEvents(Stream(lines) + last, max), if last == [] then lines else lines + [last], max)
  {
    StreamReports(lines, max);
    PieceJoinsTail(Stream(lines), last, max);
    assert Tail(Stream(lines) + last) == last;
    OneMoreReported(Ended(Stream(lines), max), lines, LineEvent(last, max), last, max);
  }
}
