/** ISO weeks, and counts kept per week: dates are days since 1 January 1970 of the computer's own calendar. */
module WeekCounter {
  import opened Common
  import opened Decimal

  // ---- the calendar ----

  /** Leap days up to the end of year `y`. */
  function LeapDays(y: int): int {
    y / 4 - y / 100 + y / 400
  }

  /** The first of January. */
  function NewYear(y: int): int {
    365 * (y - 1970) + LeapDays(y - 1) - LeapDays(1969)
  }

  predicate IsLeap(y: int) {
    (y % 4 == 0 && y % 100 != 0) || y % 400 == 0
  }

  lemma Quarters(y: int)
    ensures y / 4 - (y - 1) / 4 == if y % 4 == 0 then 1 else 0
    ensures y / 100 - (y - 1) / 100 == if y % 100 == 0 then 1 else 0
    ensures y / 400 - (y - 1) / 400 == if y % 400 == 0 then 1 else 0
  {}

  lemma Multiples(y: int)
    ensures y % 100 == 0 ==> y % 4 == 0
    ensures y % 400 == 0 ==> y % 100 == 0
  {}

  /** Years are as long as the Gregorian calendar makes them. */
  lemma YearLength(y: int)
    ensures NewYear(y + 1) - NewYear(y) == if IsLeap(y) then 366 else 365
  {
    Quarters(y);
    Multiples(y);
  }

  lemma {:induction false} NewYearGrows(y: int, k: nat)
    ensures NewYear(y) + 365 * k <= NewYear(y + k)
  {
    if k > 0 {
      NewYearGrows(y, k - 1);
      YearLength(y + k - 1);
    }
  }

  function YearUp(day: int, y: int): (r: int)
    requires NewYear(y) <= day
    ensures NewYear(r) <= day < NewYear(r + 1)
    decreases day - NewYear(y)
  {
    YearLength(y);
    if day < NewYear(y + 1) then y else YearUp(day, y + 1)
  }

  function YearDown(day: int, y: int): (r: int)
    requires day < NewYear(y + 1)
    ensures NewYear(r) <= day < NewYear(r + 1)
    decreases NewYear(y + 1) - day
  {
    YearLength(y);
    if NewYear(y) <= day then y else YearDown(day, y - 1)
  }

  /** The calendar year a day lies in. */
  function YearOf(day: int): (r: int)
    ensures NewYear(r) <= day < NewYear(r + 1)
  {
    if day >= NewYear(1970) then YearUp(day, 1970) else YearDown(day, 1969)
  }

  lemma NewYearsInOrder(a: int, b: int)
    ensures a <= b ==> NewYear(a) <= NewYear(b)
  {
    if a <= b { NewYearGrows(a, b - a); }
  }

  lemma YearUnique(day: int, y: int)
    requires NewYear(y) <= day < NewYear(y + 1)
    ensures YearOf(day) == y
  {
    NewYearsInOrder(YearOf(day) + 1, y);
    NewYearsInOrder(y + 1, YearOf(day));
  }

  /** 0 is Sunday; 1 January 1970 was a Thursday. */
  function DayOfWeek(day: int): int {
    (day + 4) % 7
  }

  function Monday(day: int): int {
    day - (day + 3) % 7
  }

  /** A day everybody knows: 1 January 2024, a Monday, 19723 days after 1 January 1970. */
  lemma KnownDay()
    ensures NewYear(1970) == 0 && NewYear(2024) == 19_723 && Monday(19_723) == 19_723
  {
    assert LeapDays(1969) == 477 && LeapDays(2023) == 490;
    assert 19_726 == 7 * 2_818;
  }

  // ---- week keys ----

  datatype Key = Key(year: int, week: int)

  /** The Thursday that decides: `getUTCDay() || 7` counts Sunday last. */
  function Thursday(day: int): int {
    day + 4 - (if DayOfWeek(day) == 0 then 7 else DayOfWeek(day))
  }

  function CeilDiv(a: int, b: int): int
    requires b > 0
  {
    (a + b - 1) / b
  }

  function WeekKey(day: int): Key {
    var d := Thursday(day);
    Key(YearOf(d), CeilDiv(d - NewYear(YearOf(d)) + 1, 7))
  }

  lemma ThursdayOfWeek(day: int)
    ensures Thursday(day) == Monday(day) + 3 && Monday(day) <= day <= Monday(day) + 6 && Monday(day) % 7 == 4
  {}

  lemma CeilDivSeven(a: int)
    ensures 7 * CeilDiv(a, 7) - 6 <= a <= 7 * CeilDiv(a, 7)
  {}

  /** The key is the Thursday's year, and how many Thursdays of that year have come by then: 1 to 53. */
  lemma KeyIsIso(day: int)
    ensures
      var k := WeekKey(day);
      && NewYear(k.year) <= Thursday(day) < NewYear(k.year + 1) && 1 <= k.week <= 53
      && NewYear(k.year) <= Thursday(day) - 7 * (k.week - 1) < NewYear(k.year) + 7
  {
    var k := WeekKey(day);
    CeilDivSeven(Thursday(day) - NewYear(k.year) + 1);
    YearLength(k.year);
  }

  lemma SameKeySameThursday(a: int, b: int)
    requires WeekKey(a) == WeekKey(b)
    ensures Thursday(a) == Thursday(b)
  {
    KeyIsIso(a);
    KeyIsIso(b);
    ThursdayOfWeek(a);
    ThursdayOfWeek(b);
    SameWeekThursdays(Thursday(a), Thursday(b), NewYear(WeekKey(a).year) + 7 * (WeekKey(a).week - 1));
  }

  /** Two dates have one key exactly when they are in one week from Monday to Sunday. */
  lemma SameKeyIffSameWeek(a: int, b: int)
    ensures WeekKey(a) == WeekKey(b) <==> Monday(a) == Monday(b)
  {
    ThursdayOfWeek(a);
    ThursdayOfWeek(b);
    if WeekKey(a) == WeekKey(b) { SameKeySameThursday(a, b); }
  }

  lemma SameWeekThursdays(t: int, u: int, from: int)
    requires from <= t < from + 7 && from <= u < from + 7 && (t - 3) % 7 == 4 && (u - 3) % 7 == 4
    ensures t == u
  {}

  // ---- the key as text ----

  function YearText(year: int): string {
    if year < 0 then "-" + Render(-year) else Render(year)
  }

  function WeekText(week: nat): string {
    if week < 10 then "0" + Render(week) else Render(week)
  }

  function KeyText(k: Key): string
    requires 1 <= k.week <= 53
  {
    YearText(k.year) + "-W" + WeekText(k.week)
  }

  lemma TwoDigits(week: nat)
    requires 1 <= week <= 53
    ensures |WeekText(week)| == 2 && AllDigits(WeekText(week)) && NumberOf(WeekText(week)) == week
  {
    if week < 10 {
      assert WeekText(week)[..1] == "0";
      assert NumberOf("0") == 0;
    } else {
      assert |Render(week / 10)| == 1;
    }
  }

  function Digits(year: int): string {
    if year < 0 then YearText(year)[1..] else YearText(year)
  }

  lemma YearTextParts(year: int)
    ensures YearText(year) != "" && (YearText(year)[0] == '-' <==> year < 0)
    ensures AllDigits(Digits(year)) && NumberOf(Digits(year)) == (if year < 0 then -year else year)
  {
    var n := if year < 0 then -year else year;
    assert IsDigit(Render(n)[0]) && Digits(year) == Render(n);
  }

  lemma YearTextUnique(a: int, b: int)
    requires YearText(a) == YearText(b)
    ensures a == b
  {
    YearTextParts(a);
    YearTextParts(b);
    assert Digits(a) == Digits(b);
  }

  lemma KeyTextParts(k: Key)
    requires 1 <= k.week <= 53
    ensures
      var s := KeyText(k);
      |s| >= 4 && s[..|s| - 4] == YearText(k.year) && s[|s| - 2..] == WeekText(k.week)
  {
    TwoDigits(k.week);
  }

  /** The year, "-W" and two digits for the week, both read as numbers. */
  lemma KeyTextIs(k: Key)
    requires 1 <= k.week <= 53 && k.year >= 0
    ensures
      var s := KeyText(k);
      && |s| > 4 && AllDigits(s[..|s| - 4]) && NumberOf(s[..|s| - 4]) == k.year
      && s[|s| - 4..|s| - 2] == "-W"
      && AllDigits(s[|s| - 2..]) && NumberOf(s[|s| - 2..]) == k.week
  {
    KeyTextParts(k);
    TwoDigits(k.week);
  }

  /** Different weeks are written differently. */
  lemma KeyTextUnique(a: Key, b: Key)
    requires 1 <= a.week <= 53 && 1 <= b.week <= 53
    ensures KeyText(a) == KeyText(b) <==> a == b
  {
    if KeyText(a) == KeyText(b) {
      KeyTextParts(a);
      KeyTextParts(b);
      YearTextUnique(a.year, b.year);
      TwoDigits(a.week);
      TwoDigits(b.week);
    }
  }

  // ---- counting ----

  /** What the counter was told, with the day. */
  datatype Call = Said(channel: int, day: int) | JoinedOn(day: int)

  datatype Counts = Counts(week: Key, messages: map<int, nat>, joined: nat)

  /** One more message in a channel. */
  function Tally(messages: map<int, nat>, channel: int): map<int, nat> {
    messages[channel := (if channel in messages then messages[channel] else 0) + 1]
  }

  /** One more call in the week of the counts. */
  function Counted(c: Counts, call: Call): Counts {
    match call
    case Said(ch, _) => c.(messages := Tally(c.messages, ch))
    case JoinedOn(_) => c.(joined := c.joined + 1)
  }

  /** The calls of one week, counted one by one. */
  function CountsOf(log: seq<Call>, week: Key): Counts {
    if log == [] then Counts(week, map[], 0)
    else
      var c, last := CountsOf(log[..|log| - 1], week), log[|log| - 1];
      if WeekKey(last.day) == week then Counted(c, last) else c
  }

  /** The counts are exactly the calls made in their week. */
  predicate Exact(c: Counts, log: seq<Call>) {
    c == CountsOf(log, c.week)
  }

  function SaidIn(log: seq<Call>, week: Key, channel: int): nat {
    if log == [] then 0
    else
      var last := log[|log| - 1];
      SaidIn(log[..|log| - 1], week, channel)
      + (if last.Said? && last.channel == channel && WeekKey(last.day) == week then 1 else 0)
  }

  function JoinedIn(log: seq<Call>, week: Key): nat {
    if log == [] then 0
    else
      var last := log[|log| - 1];
      JoinedIn(log[..|log| - 1], week) + (if last.JoinedOn? && WeekKey(last.day) == week then 1 else 0)
  }

  /** Channel by channel: how often there was a message in that week; and channels without one are not listed. */
  lemma {:induction false} CountsAre(log: seq<Call>, week: Key, ch: int)
    ensures
      var c := CountsOf(log, week);
      && c.week == week && c.joined == JoinedIn(log, week)
      && (if ch in c.messages then c.messages[ch] else 0) == SaidIn(log, week, ch)
      && (ch in c.messages ==> c.messages[ch] > 0)
  {
    if log != [] { CountsAre(log[..|log| - 1], week, ch); }
  }

  lemma OneMoreExact(c: Counts, log: seq<Call>, call: Call)
    requires Exact(c, log)
    ensures Exact(if WeekKey(call.day) == c.week then Counted(c, call) else c, log + [call])
  {
    assert (log + [call])[..|log|] == log;
  }

  /** Every call so far was on or before `day`. */
  predicate UpTo(log: seq<Call>, day: int) {
    forall i :: 0 <= i < |log| ==> log[i].day <= day
  }

  lemma {:induction false} NothingYet(log: seq<Call>, clock: int, day: int)
    requires UpTo(log, clock) && clock <= day && WeekKey(clock) != WeekKey(day)
    ensures Exact(Counts(WeekKey(day), map[], 0), log)
  {
    if log != [] {
      var n := |log| - 1;
      NothingYet(log[..n], clock, day);
      SameKeyIffSameWeek(clock, day);
      SameKeyIffSameWeek(log[n].day, day);
      WeeksInOrder(log[n].day, clock, day);
    }
  }

  lemma WeeksInOrder(a: int, b: int, c: int)
    requires a <= b <= c
    ensures Monday(a) <= Monday(b) <= Monday(c)
  {
    ThursdayOfWeek(a);
    ThursdayOfWeek(b);
    ThursdayOfWeek(c);
  }

  /** Keys in the order of their years, and weeks within one. */
  predicate KeyLess(a: Key, b: Key) {
    a.year < b.year || (a.year == b.year && a.week < b.week)
  }

  lemma YearsInOrder(a: int, b: int)
    ensures a <= b ==> YearOf(a) <= YearOf(b)
  {
    NewYearsInOrder(YearOf(b) + 1, YearOf(a));
  }

  lemma WeeksDiffer(from: int, a: int, b: int)
    ensures a + 7 <= b ==> CeilDiv(a - from + 1, 7) < CeilDiv(b - from + 1, 7)
  {
    CeilDivSeven(a - from + 1);
    CeilDivSeven(b - from + 1);
  }

  lemma MondaysApart(a: int, b: int)
    ensures Monday(a) < Monday(b) ==> Thursday(a) + 7 <= Thursday(b)
  {
    ThursdayOfWeek(a);
    ThursdayOfWeek(b);
  }

  /** Weeks that come one after the other have keys that do, across years too. */
  lemma KeysInOrder(a: int, b: int)
    requires Monday(a) < Monday(b)
    ensures KeyLess(WeekKey(a), WeekKey(b))
  {
    MondaysApart(a, b);
    YearsInOrder(Thursday(a), Thursday(b));
    WeeksDiffer(NewYear(YearOf(Thursday(a))), Thursday(a), Thursday(b));
  }

  predicate Busy(c: Counts) {
    c.joined > 0 || |c.messages| > 0
  }

  /** Counts of a week are worth a card exactly when anything happened in it. */
  lemma {:induction false} BusyIff(log: seq<Call>, week: Key)
    ensures Busy(CountsOf(log, week)) <==> exists call :: call in log && WeekKey(call.day) == week
    ensures CountsOf(log, week).week == week
  {
    if log != [] {
      var front, last := log[..|log| - 1], log[|log| - 1];
      BusyIff(front, week);
      assert forall call :: call in log <==> call in front || call == last;
      TallyNotEmpty(CountsOf(front, week), last);
    }
  }

  lemma TallyNotEmpty(c: Counts, call: Call)
    ensures Busy(Counted(c, call))
  {
    if call.Said? { assert call.channel in Counted(c, call).messages; }
  }

  /** This week's counts are exact, and so are those of an earlier week waiting for their card. */
  ghost predicate AllExact(data: Counts, previous: Option<Counts>, log: seq<Call>, clock: int) {
    && UpTo(log, clock) && data.week == WeekKey(clock)
    && Exact(data, log)
    && (previous.Some? ==>
          && Exact(previous.value, log)
          && Busy(previous.value)
          && KeyLess(previous.value.week, data.week))
  }

  /** Time passes within the week of the counts. */
  lemma SameWeekExact(data: Counts, previous: Option<Counts>, log: seq<Call>, clock: int, now: int)
    requires AllExact(data, previous, log, clock) && clock <= now && WeekKey(now) == data.week
    ensures AllExact(data, previous, log, now)
  {}

  /** Into another week. */
  lemma NewWeekExact(data: Counts, previous: Option<Counts>, log: seq<Call>, clock: int, now: int)
    requires AllExact(data, previous, log, clock) && clock <= now && WeekKey(now) != data.week
    ensures AllExact(Counts(WeekKey(now), map[], 0), if Busy(data) then Some(data) else None, log, now)
  {
    NothingYet(log, clock, now);
    SameKeyIffSameWeek(clock, now);
    WeeksInOrder(clock, clock, now);
    KeysInOrder(clock, now);
  }

  lemma CallCounted(data: Counts, previous: Option<Counts>, log: seq<Call>, clock: int, call: Call)
    requires AllExact(data, previous, log, clock) && call.day == clock
    ensures AllExact(Counted(data, call), previous, log + [call], clock)
  {
    OneMoreExact(data, log, call);
    if previous.Some? { OneMoreExact(previous.value, log, call); }
  }

  /** On Mondays from the hour given on, on other days at any time; `day` and `hours` are the present. */
  predicate CardDue(day: int, hours: nat, hour: nat) {
    DayOfWeek(day) != 1 || hours >= hour
  }

  lemma MondayIs(day: int)
    ensures DayOfWeek(day) == 1 <==> Monday(day) == day
  {}

  lemma StillPrefix(saved: seq<Call>, log: seq<Call>, call: Call)
    ensures saved <= log ==> saved <= log + [call]
  {}

  /** What the file holds: this week's counts, and those waiting for their card. */
  type Saved = (Counts, Option<Counts>)

  /** Without a file nothing was saved. */
  ghost predicate FileExact(onFile: Option<Saved>, log: seq<Call>, clock: int) {
    if onFile.None? then log == [] else AllExact(onFile.value.0, onFile.value.1, log, clock)
  }

  /** The file is exact for some of the calls made by now. */
  ghost predicate Behind(onFile: Option<Saved>, savedLog: seq<Call>, savedClock: int, log: seq<Call>, clock: int) {
    savedLog <= log && savedClock <= clock && FileExact(onFile, savedLog, savedClock)
  }

  class Counter {
    var data: Counts
    var previous: Option<Counts>
    var dirty: bool
    const hasFile: bool
    var onFile: Option<Saved>
    /** Every message and join counted so far, and the latest day any call named; and as they were at the last save. */
    ghost var log: seq<Call>
    ghost var clock: int
    ghost var savedLog: seq<Call>
    ghost var savedClock: int
    /** The last write of the file did not go through. */
    ghost var failed: bool

    /** Given dates that never go back, the counts are exact. */
    ghost predicate Valid()
      reads this
    {
      AllExact(data, previous, log, clock) && (hasFile ==> FileOk())
    }

    /** And for all of them, unless something is still to be saved or could not be. */
    ghost predicate FileOk()
      reads this
    {
      Behind(onFile, savedLog, savedClock, log, clock) && (!dirty && !failed ==> UpToDate())
    }

    ghost predicate UpToDate()
      reads this
    {
      savedLog == log && (onFile.Some? ==> onFile.value == (data, previous))
    }

    /** `saved` is what could be read from the file: nothing the first time, or when it cannot be read. */
    constructor (hasFile: bool, saved: Option<Saved>, now: int, ghost savedLog: seq<Call>, ghost savedClock: int)
      requires saved.Some? ==> AllExact(saved.value.0, saved.value.1, savedLog, savedClock)
      ensures Valid() && this.hasFile == hasFile && !dirty && !failed
      ensures hasFile && saved.Some? ==> log == savedLog && clock == savedClock && (data, previous) == saved.value
      ensures !(hasFile && saved.Some?) ==> log == [] && clock == now && previous == None
    {
      this.hasFile := hasFile;
      dirty, failed := false, false;
      if hasFile && saved.Some? {
        data, previous, onFile := saved.value.0, saved.value.1, saved;
        this.log, this.clock, this.savedLog, this.savedClock := savedLog, savedClock, savedLog, savedClock;
      } else {
        data, previous, onFile := Counts(WeekKey(now), map[], 0), None, None;
        this.log, this.clock, this.savedLog, this.savedClock := [], now, [], now;
      }
    }

    /** `ok`: whether the file can be written. A write that fails throws, and counts as done: it is not tried again. */
    method Save(ok: bool) returns (threw: bool)
      requires AllExact(data, previous, log, clock)
      requires hasFile ==> Behind(onFile, savedLog, savedClock, log, clock) && (!dirty && !failed ==> UpToDate())
      modifies this`dirty, this`onFile, this`savedLog, this`savedClock, this`failed
      ensures Valid() && (hasFile ==> !dirty) && threw == (hasFile && old(dirty) && !ok)
      ensures threw ==> failed && onFile == old(onFile) && savedLog == old(savedLog)
      ensures hasFile && old(dirty) && ok ==> !failed && savedLog == log && onFile == Some((data, previous))
    {
      if !hasFile || !dirty { return false; }
      dirty, failed, threw := false, !ok, !ok;
      if ok { Write(); }
    }

    method Write()
      requires AllExact(data, previous, log, clock)
      modifies this`onFile, this`savedLog, this`savedClock
      ensures Behind(onFile, savedLog, savedClock, log, clock) && UpToDate() && onFile == Some((data, previous))
    {
      onFile := Some((data, previous));
      savedLog, savedClock := log, clock;
    }

    /** Into another week the old counts are set aside, if there are any, and saved. */
    method Roll(now: int, ok: bool) returns (threw: bool)
      requires Valid() && clock <= now
      modifies this
      ensures Valid() && clock == now && log == old(log)
      ensures WeekKey(now) == old(data).week ==>
        !threw && data == old(data) && previous == old(previous) && dirty == old(dirty) && failed == old(failed)
      ensures WeekKey(now) != old(data).week ==> previous == if Busy(old(data)) then Some(old(data)) else None
      ensures WeekKey(now) != old(data).week && hasFile ==> !dirty && threw == failed == !ok
      ensures threw ==> hasFile && !ok
    {
      if WeekKey(now) == data.week {
        SameWeekExact(data, previous, log, clock, now);
        clock := now;
        threw := false;
      } else {
        NewWeekExact(data, previous, log, clock, now);
        SetAside(Counts(WeekKey(now), map[], 0), now);
        threw := Save(ok);
      }
    }

    method SetAside(next: Counts, ghost now: int)
      requires AllExact(next, if Busy(data) then Some(data) else None, log, now)
      modifies this`data, this`previous, this`dirty, this`clock
      ensures AllExact(data, previous, log, clock) && data == next && clock == now && dirty
      ensures previous == if Busy(old(data)) then Some(old(data)) else None
    {
      previous := if Busy(data) then Some(data) else None;
      data, dirty, clock := next, true, now;
    }

    /** A call in a new week whose counts could not be saved throws and is not counted. */
    method Message(channel: int, now: int, ok: bool) returns (threw: bool)
      requires Valid() && clock <= now
      modifies this
      ensures Valid() && clock == now && (threw ==> hasFile && !ok && WeekKey(now) != old(data).week)
      ensures log == if threw then old(log) else old(log) + [Said(channel, now)]
    {
      threw := Roll(now, ok);
      if !threw { Add(Said(channel, now)); }
    }

    method JoinedOne(now: int, ok: bool) returns (threw: bool)
      requires Valid() && clock <= now
      modifies this
      ensures Valid() && clock == now && (threw ==> hasFile && !ok && WeekKey(now) != old(data).week)
      ensures log == if threw then old(log) else old(log) + [JoinedOn(now)]
    {
      threw := Roll(now, ok);
      if !threw { Add(JoinedOn(now)); }
    }

    /** One call in the week of the counts, saved later. */
    method Add(call: Call)
      requires Valid() && call.day == clock
      modifies this`data, this`dirty, this`log
      ensures Valid() && log == old(log) + [call]
    {
      CallCounted(data, previous, log, clock, call);
      StillPrefix(savedLog, log, call);
      Set(Counted(data, call), log + [call]);
    }

    method Set(next: Counts, ghost more: seq<Call>)
      requires AllExact(next, previous, more, clock) && (hasFile ==> FileOk() && savedLog <= more)
      modifies this`data, this`dirty, this`log
      ensures Valid() && log == more && data == next && dirty
    {
      data, dirty, log := next, true, more;
    }

    /** The counts for the card: exact ones of an earlier week, if any wait and it is late enough. */
    method Due(now: int, hours: nat, hour: nat, ok: bool) returns (card: Option<Counts>, threw: bool)
      requires Valid() && clock <= now
      modifies this
      ensures Valid() && clock == now && log == old(log) && (threw ==> hasFile && !ok)
      ensures card == previous || card == None
      ensures card.None? <==> previous.None? || threw || (Monday(now) == now && hours < hour)
      ensures card.Some? ==> Exact(card.value, log) && Busy(card.value) && KeyLess(card.value.week, WeekKey(now))
    {
      threw := Roll(now, ok);
      MondayIs(now);
      card := if CardDue(now, hours, hour) && !threw then previous else None;
    }

    method Posted(ok: bool) returns (threw: bool)
      requires Valid()
      modifies this
      ensures Valid() && previous == None && data == old(data) && log == old(log) && clock == old(clock)
      ensures threw == (hasFile && !ok) && (hasFile ==> !dirty && failed == !ok)
    {
      previous := None;
      dirty := true;
      threw := Save(ok);
    }
  }

  /** A counter started again from its file counts on exactly; what was not saved is all it has lost. */
  method Restart(was: Counter, now: int) returns (next: Counter)
    requires was.Valid() && was.hasFile
    ensures fresh(next) && next.Valid() && next.log == was.savedLog <= was.log
    ensures !was.dirty && !was.failed ==> next.log == was.log
    ensures !was.dirty && !was.failed && was.onFile.Some? ==> next.data == was.data && next.previous == was.previous
  {
    next := new Counter(true, was.onFile, now, was.savedLog, was.savedClock);
  }
}
