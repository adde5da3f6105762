/** Version precedence, and the newest published release. */
module Versions {
  import opened Common
  import opened Decimal
  import TextOrder

  /** `pre` holds the dot-separated prerelease identifiers; a release has none. */
  datatype Version = Version(major: nat, minor: nat, patch: nat, pre: seq<string>)

  predicate Numeric(id: string) {
    id != "" && AllDigits(id)
  }

  // ---- reading a version: v?N.N.N(-identifiers)? ----

  /** Where the digits that start at `i` end. */
  function DigitsEnd(s: string, i: nat): (r: nat)
    requires i <= |s|
    ensures i <= r <= |s| && AllDigits(s[i..r])
    decreases |s| - i
  {
    if i == |s| || !IsDigit(s[i]) then i
    else
      var r := DigitsEnd(s, i + 1);
      assert s[i..r] == [s[i]] + s[i + 1..r];
      r
  }

  predicate IsPreChar(c: char) {
    IsDigit(c) || 'A' <= c <= 'Z' || 'a' <= c <= 'z' || c == '.' || c == '-'
  }

  function SplitDots(s: string): (r: seq<string>)
    ensures r != []
  {
    if s == "" then [""]
    else
      var rest := SplitDots(s[1..]);
      if s[0] == '.' then [""] + rest else [[s[0]] + rest[0]] + rest[1..]
  }

  /** The three numbers found at i0, i1 + 1 and i2 + 1; what follows i3 must be a prerelease, or nothing. */
  function Numbered(s: string, i0: nat, i1: nat, i2: nat, i3: nat): Option<Version>
    requires i0 <= i1 < i2 < i3 <= |s|
    requires AllDigits(s[i0..i1]) && AllDigits(s[i1 + 1..i2]) && AllDigits(s[i2 + 1..i3])
  {
    var release := Version(NumberOf(s[i0..i1]), NumberOf(s[i1 + 1..i2]), NumberOf(s[i2 + 1..i3]), []);
    if i3 == |s| then Some(release)
    else if s[i3] == '-' && i3 + 1 < |s| && forall k :: i3 < k < |s| ==> IsPreChar(s[k])
    then Some(release.(pre := SplitDots(s[i3 + 1..])))
    else None
  }

  /** There are three numbers with dots between them from `i0` on, which end at these places. */
  predicate Dotted(s: string, i0: nat, ends: (nat, nat, nat)) {
    && i0 < ends.0 && ends.0 + 1 < ends.1 && ends.1 + 1 < ends.2 <= |s| && s[ends.0] == '.' && s[ends.1] == '.'
    && AllDigits(s[i0..ends.0]) && AllDigits(s[ends.0 + 1..ends.1]) && AllDigits(s[ends.1 + 1..ends.2])
  }

  /** Where three numbers with dots between them end. */
  function Ends(s: string, i0: nat): (r: Option<(nat, nat, nat)>)
    requires i0 <= |s|
    ensures r.Some? ==> Dotted(s, i0, r.value)
  {
    var i1 := DigitsEnd(s, i0);
    if i1 == i0 || i1 == |s| || s[i1] != '.' then None
    else
      var i2 := DigitsEnd(s, i1 + 1);
      if i2 == i1 + 1 || i2 == |s| || s[i2] != '.' then None
      else
        var i3 := DigitsEnd(s, i2 + 1);
        if i3 == i2 + 1 then None else Some((i1, i2, i3))
  }

  function Parse(s: string): Option<Version> {
    var i0 := if s != "" && s[0] == 'v' then 1 else 0;
    var ends := Ends(s, i0);
    if ends.None? then None else Numbered(s, i0, ends.value.0, ends.value.1, ends.value.2)
  }

  // ---- reading back a written version ----

  /** A piece of a prerelease; between two dots there may be nothing. */
  predicate PreId(id: string) {
    forall i :: 0 <= i < |id| ==> IsPreChar(id[i]) && id[i] != '.'
  }

  /** Something can follow the dash, or nothing does. */
  predicate PreIds(pre: seq<string>) {
    (forall k :: 0 <= k < |pre| ==> PreId(pre[k])) && pre != [""]
  }

  function JoinDots(ids: seq<string>): string
    requires ids != []
  {
    if |ids| == 1 then ids[0] else ids[0] + "." + JoinDots(ids[1..])
  }

  function Text(v: Version): string {
    Render(v.major) + "." + Render(v.minor) + "." + Render(v.patch) + Tail(v.pre)
  }

  lemma {:induction false} DigitsEndAt(s: string, i: nat, j: nat)
    requires i <= j <= |s| && AllDigits(s[i..j]) && (j < |s| ==> !IsDigit(s[j]))
    ensures DigitsEnd(s, i) == j
    decreases j - i
  {
    if i < j {
      assert s[i..j][0] == s[i];
      assert s[i + 1..j] == s[i..j][1..];
      DigitsEndAt(s, i + 1, j);
    }
  }

  lemma {:induction false} SplitPlain(id: string, rest: string)
    requires forall i :: 0 <= i < |id| ==> id[i] != '.'
    ensures SplitDots(id + "." + rest) == [id] + SplitDots(rest)
    ensures SplitDots(id) == [id]
  {
    if id == "" {
      assert (id + "." + rest)[1..] == rest;
    } else {
      SplitPlain(id[1..], rest);
      assert (id + "." + rest)[1..] == id[1..] + "." + rest;
      assert [id[0]] + id[1..] == id;
    }
  }

  lemma {:induction false} SplitOfJoin(ids: seq<string>)
    requires ids != [] && forall k :: 0 <= k < |ids| ==> PreId(ids[k])
    ensures SplitDots(JoinDots(ids)) == ids
    ensures ids != [""] ==> JoinDots(ids) != ""
    ensures forall i :: 0 <= i < |JoinDots(ids)| ==> IsPreChar(JoinDots(ids)[i])
  {
    if |ids| == 1 {
      SplitPlain(ids[0], "");
    } else {
      SplitOfJoin(ids[1..]);
      SplitPlain(ids[0], JoinDots(ids[1..]));
    }
  }

  lemma Slices(prefix: string, a: string, b: string, c: string, tail: string)
    ensures
      var s := prefix + a + "." + b + "." + c + tail;
      var i0 := |prefix|;
      var i1 := i0 + |a|;
      var i2 := i1 + 1 + |b|;
      var i3 := i2 + 1 + |c|;
      && |s| == i3 + |tail| && s[i0..i1] == a && s[i1] == '.' && s[i1 + 1..i2] == b && s[i2] == '.'
        && s[i2 + 1..i3] == c
      && s[i3..] == tail && (prefix != "" ==> s[0] == prefix[0]) && (prefix == "" && a != "" ==> s[0] == a[0])
  {}

  lemma DotEndsDigits(s: string, i: nat, j: nat)
    requires i < j < |s| && AllDigits(s[i..j]) && s[j] == '.'
    ensures DigitsEnd(s, i) == j
  {
    DigitsEndAt(s, i, j);
  }

  lemma EndsAt(s: string, i0: nat, ends: (nat, nat, nat))
    requires Dotted(s, i0, ends) && (ends.2 < |s| ==> !IsDigit(s[ends.2]))
    ensures Ends(s, i0) == Some(ends)
  {
    DotEndsDigits(s, i0, ends.0);
    DotEndsDigits(s, ends.0 + 1, ends.1);
    DigitsEndAt(s, ends.1 + 1, ends.2);
  }

  lemma ParseAt(s: string, i0: nat, i1: nat, i2: nat, i3: nat)
    requires i0 == if s != "" && s[0] == 'v' then 1 else 0
    requires Dotted(s, i0, (i1, i2, i3)) && (i3 < |s| ==> !IsDigit(s[i3]))
    ensures Parse(s) == Numbered(s, i0, i1, i2, i3)
  {
    EndsAt(s, i0, (i1, i2, i3));
  }

  function Tail(pre: seq<string>): string {
    if pre == [] then "" else "-" + JoinDots(pre)
  }

  predicate Spells(id: string, n: nat) {
    Numeric(id) && NumberOf(id) == n
  }

  lemma NumberedIs(s: string, i0: nat, i1: nat, i2: nat, i3: nat, v: Version)
    requires i0 <= i1 < i2 < i3 <= |s| && PreIds(v.pre)
    requires Spells(s[i0..i1], v.major) && Spells(s[i1 + 1..i2], v.minor) && Spells(s[i2 + 1..i3], v.patch)
    requires s[i3..] == Tail(v.pre)
    ensures Numbered(s, i0, i1, i2, i3) == Some(v)
  {
    if v.pre != [] {
      SplitOfJoin(v.pre);
      assert s[i3] == s[i3..][0] && s[i3 + 1..] == s[i3..][1..] == JoinDots(v.pre);
      forall k | i3 < k < |s| ensures IsPreChar(s[k]) { assert s[k] == s[i3 + 1..][k - i3 - 1]; }
    } else {
      assert |s[i3..]| == 0;
    }
  }

  /** A version written with or without its "v" reads back as it was. */
  lemma ParseOfText(v: Version, prefix: string)
    requires PreIds(v.pre)
    requires prefix == "" || prefix == "v"
    ensures Parse(prefix + Text(v)) == Some(v)
  {
    var a, b, c := Render(v.major), Render(v.minor), Render(v.patch);
    assert prefix + Text(v) == prefix + a + "." + b + "." + c + Tail(v.pre);
    ParseOfPieces(v, prefix, a, b, c);
  }

  lemma ParseOfPieces(v: Version, prefix: string, a: string, b: string, c: string)
    requires PreIds(v.pre)
    requires prefix == "" || prefix == "v"
    requires Spells(a, v.major) && Spells(b, v.minor) && Spells(c, v.patch)
    ensures Parse(prefix + a + "." + b + "." + c + Tail(v.pre)) == Some(v)
  {
    var s := prefix + a + "." + b + "." + c + Tail(v.pre);
    var i0, i1 := |prefix|, |prefix| + |a|;
    var i2 := i1 + 1 + |b|;
    var i3 := i2 + 1 + |c|;
    Slices(prefix, a, b, c, Tail(v.pre));
    NumberedIs(s, i0, i1, i2, i3, v);
    StartsWithV(s, prefix, a);
    TailStart(s, i3, v.pre);
    ParseAt(s, i0, i1, i2, i3);
  }

  lemma StartsWithV(s: string, prefix: string, a: string)
    requires (prefix == "" || prefix == "v") && a != "" && AllDigits(a)
    requires if prefix == "" then s != "" && s[0] == a[0] else s != "" && s[0] == prefix[0]
    ensures |prefix| == if s != "" && s[0] == 'v' then 1 else 0
  {}

  lemma TailStart(s: string, i: nat, pre: seq<string>)
    requires i <= |s| && s[i..] == Tail(pre)
    ensures i < |s| ==> s[i] == '-'
  {
    if i < |s| { assert s[i] == s[i..][0]; }
  }

  // ---- reading nothing else ----

  lemma {:induction false} JoinOfSplit(s: string)
    requires forall i :: 0 <= i < |s| ==> IsPreChar(s[i])
    ensures JoinDots(SplitDots(s)) == s && forall k :: 0 <= k < |SplitDots(s)| ==> PreId(SplitDots(s)[k])
  {
    if s != "" {
      JoinOfSplit(s[1..]);
      var rest := SplitDots(s[1..]);
      assert s == [s[0]] + s[1..];
      if s[0] == '.' {
        assert ([""] + rest)[1..] == rest;
      } else {
        JoinedFirst(s[0], rest);
      }
    }
  }

  lemma JoinedFirst(c: char, ids: seq<string>)
    requires ids != []
    ensures JoinDots([[c] + ids[0]] + ids[1..]) == [c] + JoinDots(ids)
  {
    assert ([[c] + ids[0]] + ids[1..])[1..] == ids[1..];
  }

  /** `s` is a version written out: three numbers and perhaps a prerelease, with or without its "v". */
  predicate Written(s: string, v: Version, prefix: string, a: string, b: string, c: string) {
    && (prefix == "" || prefix == "v") && Spells(a, v.major) && Spells(b, v.minor) && Spells(c, v.patch)
    && PreIds(v.pre) && s == prefix + a + "." + b + "." + c + Tail(v.pre)
  }

  lemma NumberedOnly(s: string, i0: nat, i1: nat, i2: nat, i3: nat, v: Version)
    requires i0 < i1 && i1 + 1 < i2 && i2 + 1 < i3 <= |s| && s[i1] == '.' && s[i2] == '.'
    requires AllDigits(s[i0..i1]) && AllDigits(s[i1 + 1..i2]) && AllDigits(s[i2 + 1..i3])
    requires Numbered(s, i0, i1, i2, i3) == Some(v)
    ensures PreIds(v.pre) && s[i3..] == Tail(v.pre)
    ensures Spells(s[i0..i1], v.major) && Spells(s[i1 + 1..i2], v.minor) && Spells(s[i2 + 1..i3], v.patch)
  {
    if i3 < |s| {
      var pre := s[i3 + 1..];
      JoinOfSplit(pre);
      assert s[i3..] == "-" + pre;
      assert JoinDots([""]) == "";
    }
  }

  lemma Parts(s: string, i0: nat, i1: nat, i2: nat, i3: nat)
    requires i0 <= i1 < i2 < i3 <= |s| && s[i1] == '.' && s[i2] == '.'
    ensures s == s[..i0] + s[i0..i1] + "." + s[i1 + 1..i2] + "." + s[i2 + 1..i3] + s[i3..]
  {}

  lemma WrittenInParts(s: string, i0: nat, i1: nat, i2: nat, i3: nat, v: Version)
    requires i0 < i1 && i1 + 1 < i2 && i2 + 1 < i3 <= |s| && s[i1] == '.' && s[i2] == '.'
    requires s[..i0] == "" || s[..i0] == "v"
    requires PreIds(v.pre) && s[i3..] == Tail(v.pre)
    requires Spells(s[i0..i1], v.major) && Spells(s[i1 + 1..i2], v.minor) && Spells(s[i2 + 1..i3], v.patch)
    ensures Written(s, v, s[..i0], s[i0..i1], s[i1 + 1..i2], s[i2 + 1..i3])
  {
    Parts(s, i0, i1, i2, i3);
  }

  lemma ParseOnly(s: string, v: Version) returns (prefix: string, a: string, b: string, c: string)
    requires Parse(s) == Some(v)
    ensures Written(s, v, prefix, a, b, c)
  {
    var i0: nat := if s != "" && s[0] == 'v' then 1 else 0;
    var (i1, i2, i3) := Ends(s, i0).value;
    prefix, a, b, c := s[..i0], s[i0..i1], s[i1 + 1..i2], s[i2 + 1..i3];
    NumberedOnly(s, i0, i1, i2, i3, v);
    WrittenInParts(s, i0, i1, i2, i3, v);
  }

  /** By their codes: the digits, capital and small letters, the dot and the dash. */
  lemma PreCharIs(c: char)
    ensures
      var n := c as int;
      IsPreChar(c) <==> 48 <= n <= 57 || 65 <= n <= 90 || 97 <= n <= 122 || n == 46 || n == 45
  {}

  /** Exact: which strings are read, and as what. */
  lemma ParseIff(s: string, v: Version)
    ensures Parse(s) == Some(v) <==> exists prefix, a, b, c :: Written(s, v, prefix, a, b, c)
  {
    if Parse(s) == Some(v) { var prefix, a, b, c := ParseOnly(s, v); }
    if prefix, a, b, c :| Written(s, v, prefix, a, b, c) { ParseOfPieces(v, prefix, a, b, c); }
  }

  // ---- comparing ----

  /** Two identifiers: numbers by value, text by character codes, a number before text. */
  function CompareIds(p: string, q: string): int {
    if Numeric(p) && Numeric(q) then NumberOf(p) - NumberOf(q)
    else if Numeric(p) != Numeric(q) then (if Numeric(p) then -1 else 1)
    else if p == q then 0
    else if TextOrder.Less(p, q) then -1
    else 1
  }

  function ComparePre(p: seq<string>, q: seq<string>): int {
    if p == [] || q == [] then (if p == [] then 0 else 1) - (if q == [] then 0 else 1)
    else if CompareIds(p[0], q[0]) != 0 then CompareIds(p[0], q[0])
    else ComparePre(p[1..], q[1..])
  }

  function CompareParsed(x: Version, y: Version): int {
    if x.major != y.major then x.major - y.major
    else if x.minor != y.minor then x.minor - y.minor
    else if x.patch != y.patch then x.patch - y.patch
    else if x.pre == [] || y.pre == [] then (if x.pre == [] then 0 else -1) - (if y.pre == [] then 0 else -1)
    else ComparePre(x.pre, y.pre)
  }

  function Compare(a: string, b: string): int {
    var x, y := Parse(a), Parse(b);
    if x.None? || y.None? then (if x.Some? then 1 else 0) - (if y.Some? then 1 else 0)
    else CompareParsed(x.value, y.value)
  }

  method CompareVersions(a: string, b: string) returns (r: int)
    ensures r == Compare(a, b)
  {
    var x, y := Parse(a), Parse(b);
    if x.None? || y.None? {
      return (if x.Some? then 1 else 0) - (if y.Some? then 1 else 0);
    }
    var xs: seq<int> := [x.value.major, x.value.minor, x.value.patch];
    var ys: seq<int> := [y.value.major, y.value.minor, y.value.patch];
    for i := 0 to 3
      invariant forall k :: 0 <= k < i ==> xs[k] == ys[k]
    {
      assert i == 0 || i == 1 || i == 2;
      assert (i > 0 ==> xs[0] == ys[0]) && (i > 1 ==> xs[1] == ys[1]);
      if xs[i] != ys[i] { return xs[i] - ys[i]; }
    }
    assert xs[0] == ys[0] && xs[1] == ys[1] && xs[2] == ys[2];
    var p, q := x.value.pre, y.value.pre;
    if p == [] || q == [] {
      return (if p == [] then 0 else -1) - (if q == [] then 0 else -1);
    }
    var i := 0;
    while i < |p| || i < |q|
      invariant 0 <= i <= |p| && i <= |q|
      invariant ComparePre(p, q) == ComparePre(p[i..], q[i..])
      decreases |p| - i
    {
      if i >= |p| || i >= |q| { return if i >= |p| then -1 else 1; }
      var pn, qn := Numeric(p[i]), Numeric(q[i]);
      if pn && qn && NumberOf(p[i]) != NumberOf(q[i]) { return NumberOf(p[i]) - NumberOf(q[i]); }
      if pn != qn { return if pn then -1 else 1; }
      if !pn && p[i] != q[i] { return if TextOrder.Less(p[i], q[i]) then -1 else 1; }
      assert p[i..][1..] == p[i + 1..] && q[i..][1..] == q[i + 1..];
      i := i + 1;
    }
    return 0;
  }

  // ---- a total preorder ----

  /** Signs opposite: what comparing the other way round must give. */
  predicate Opposite(c: int, d: int) {
    (c < 0 <==> d > 0) && (c == 0 <==> d == 0)
  }

  /** From a ≤ b and b ≤ c to a ≤ c, strictly when either was strict. */
  predicate Chained(ab: int, bc: int, ac: int) {
    ab <= 0 && bc <= 0 ==> ac <= 0 && (ab < 0 || bc < 0 ==> ac < 0)
  }

  lemma IdsOpposite(p: string, q: string)
    ensures Opposite(CompareIds(p, q), CompareIds(q, p))
  {
    TextOrder.LessTotal(p, q);
    if TextOrder.Less(p, q) { TextOrder.LessAsymmetric(p, q); }
    if TextOrder.Less(q, p) { TextOrder.LessAsymmetric(q, p); }
  }

  lemma IdsChained(p: string, q: string, r: string)
    ensures Chained(CompareIds(p, q), CompareIds(q, r), CompareIds(p, r))
  {
    if TextOrder.Less(p, q) && TextOrder.Less(q, r) {
      TextOrder.LessTransitive(p, q, r);
      TextOrder.LessAsymmetric(p, r);
    }
  }

  lemma {:induction false} PreOpposite(p: seq<string>, q: seq<string>)
    ensures Opposite(ComparePre(p, q), ComparePre(q, p))
  {
    if p != [] && q != [] {
      IdsOpposite(p[0], q[0]);
      PreOpposite(p[1..], q[1..]);
    }
  }

  lemma {:induction false} PreChained(p: seq<string>, q: seq<string>, r: seq<string>)
    ensures Chained(ComparePre(p, q), ComparePre(q, r), ComparePre(p, r))
  {
    if p != [] && q != [] && r != [] {
      IdsChained(p[0], q[0], r[0]);
      IdsOpposite(p[0], q[0]);
      IdsOpposite(q[0], r[0]);
      IdsOpposite(p[0], r[0]);
      IdsChained(r[0], q[0], p[0]);
      PreChained(p[1..], q[1..], r[1..]);
    }
  }

  lemma CompareOpposite(a: string, b: string)
    ensures Opposite(Compare(a, b), Compare(b, a))
  {
    if Parse(a).Some? && Parse(b).Some? { PreOpposite(Parse(a).value.pre, Parse(b).value.pre); }
  }

  /** All strings are in one order, unreadable ones at the bottom: any two compare, and comparisons chain. */
  lemma CompareChained(a: string, b: string, c: string)
    ensures Chained(Compare(a, b), Compare(b, c), Compare(a, c))
  {
    if Parse(a).Some? && Parse(b).Some? && Parse(c).Some? {
      PreChained(Parse(a).value.pre, Parse(b).value.pre, Parse(c).value.pre);
    }
  }

  // ---- section 11 of Semantic Versioning 2.0.0 ----

  /** 11.4.1 to 11.4.3, on two identifiers. */
  predicate IdPrecedes(p: string, q: string) {
    if Numeric(p) then (if Numeric(q) then NumberOf(p) < NumberOf(q) else true)
    else !Numeric(q) && TextOrder.Less(p, q)
  }

  predicate SameId(p: string, q: string) {
    p == q || (Numeric(p) && Numeric(q) && NumberOf(p) == NumberOf(q))
  }

  /** The first `k` identifiers agree, and there `p` is lower: it has run out, or its identifier precedes. */
  ghost predicate LowerAt(p: seq<string>, q: seq<string>, k: nat) {
    && k <= |p| && k < |q|
    && (forall i :: 0 <= i < k ==> SameId(p[i], q[i]))
    && (k < |p| ==> IdPrecedes(p[k], q[k]))
  }

  /** 11.4: by the first identifiers that differ; when all of one are the start of the other, the shorter is lower. */
  ghost predicate PrePrecedes(p: seq<string>, q: seq<string>) {
    exists k: nat :: LowerAt(p, q, k)
  }

  /** 11.2 and 11.3: major, minor and patch numerically, then a prerelease before its release. */
  ghost predicate Precedes(x: Version, y: Version) {
    || x.major < y.major
    || (x.major == y.major && x.minor < y.minor)
    || (x.major == y.major && x.minor == y.minor && x.patch < y.patch)
    || (x.major == y.major && x.minor == y.minor && x.patch == y.patch
        && x.pre != [] && (y.pre == [] || PrePrecedes(x.pre, y.pre)))
  }

  lemma IdsAgree(p: string, q: string)
    ensures CompareIds(p, q) < 0 <==> IdPrecedes(p, q)
    ensures CompareIds(p, q) == 0 <==> SameId(p, q)
  {
    TextOrder.LessTotal(p, q);
    if TextOrder.Less(p, q) { TextOrder.LessAsymmetric(p, q); }
  }

  lemma {:induction false} PreAgrees(p: seq<string>, q: seq<string>)
    ensures ComparePre(p, q) < 0 <==> PrePrecedes(p, q)
  {
    if p == [] || q == [] {
      assert p == [] && q != [] ==> LowerAt(p, q, 0);
    } else {
      IdsAgree(p[0], q[0]);
      PreAgrees(p[1..], q[1..]);
      if PrePrecedes(p, q) {
        var k: nat :| LowerAt(p, q, k);
        if k > 0 {
          LowerAtTail(p, q, k);
        } else {
          IdNotBoth(p[0], q[0]);
        }
      }
      if ComparePre(p, q) < 0 {
        if CompareIds(p[0], q[0]) != 0 {
          assert LowerAt(p, q, 0);
        } else {
          var k: nat :| LowerAt(p[1..], q[1..], k);
          LowerAtTail(p, q, k + 1);
        }
      }
    }
  }

  lemma LowerAtTail(p: seq<string>, q: seq<string>, k: nat)
    requires k > 0 && p != [] && q != []
    ensures LowerAt(p, q, k) <==> SameId(p[0], q[0]) && LowerAt(p[1..], q[1..], k - 1)
  {
    if LowerAt(p, q, k) {
      forall i | 0 <= i < k - 1 ensures SameId(p[1..][i], q[1..][i]) { assert SameId(p[i + 1], q[i + 1]); }
    }
    if SameId(p[0], q[0]) && LowerAt(p[1..], q[1..], k - 1) {
      forall i | 0 <= i < k ensures SameId(p[i], q[i]) {
        if i > 0 { assert SameId(p[1..][i - 1], q[1..][i - 1]); }
      }
    }
  }

  lemma IdNotBoth(p: string, q: string)
    requires IdPrecedes(p, q)
    ensures !SameId(p, q)
  {
    if TextOrder.Less(p, q) { TextOrder.LessAsymmetric(p, q); }
  }

  /** On versions that parse, the comparison is the standard's precedence. */
  lemma AgreesWithSemver(a: string, b: string)
    requires Parse(a).Some? && Parse(b).Some?
    ensures Compare(a, b) < 0 <==> Precedes(Parse(a).value, Parse(b).value)
  {
    PreAgrees(Parse(a).value.pre, Parse(b).value.pre);
  }

  /** On valid identifiers (numbers without leading zeros) only identical ones compare equal. */
  lemma ValidIdsEqual(p: string, q: string)
    requires (Numeric(p) ==> Canonical(p)) && (Numeric(q) ==> Canonical(q))
    ensures CompareIds(p, q) == 0 <==> p == q
  {
    IdsAgree(p, q);
    if Numeric(p) && Numeric(q) && NumberOf(p) == NumberOf(q) { CanonicalUnique(p, q); }
  }

  // ---- the newest release ----

  datatype Release = Release(tag: string, url: string, draft: bool)

  predicate Published(r: Release) {
    !r.draft && Parse(r.tag).Some? && "https://github.com/" <= r.url
  }

  predicate Newer(r: Release, current: string) {
    Published(r) && Compare(r.tag, current) > 0
  }

  function WithoutV(tag: string): string {
    if tag != "" && tag[0] == 'v' then tag[1..] else tag
  }

  /** The first of the newest among the published releases newer than `current`. */
  ghost predicate IsNewest(releases: seq<Release>, current: string, k: nat) {
    && k < |releases| && Newer(releases[k], current)
    && (forall j ::
          0 <= j < |releases| && Newer(releases[j], current) ==> Compare(releases[j].tag, releases[k].tag) <= 0)
    && (forall j :: 0 <= j < k && Newer(releases[j], current) ==> Compare(releases[j].tag, releases[k].tag) < 0)
  }

  ghost predicate NoneNewer(releases: seq<Release>, current: string) {
    forall j :: 0 <= j < |releases| ==> !Newer(releases[j], current)
  }

  /** Which releases count: published ones at GitHub, of a version that can be read and is newer. */
  lemma NewerIs(r: Release, current: string)
    ensures Newer(r, current) <==>
              && !r.draft && Parse(r.tag).Some? && Compare(r.tag, current) > 0
              && |r.url| >= 19 && r.url[..19] == "https://github.com/"
  {}

  /** Without the "v" it begins with, if it does. */
  lemma WithoutVIs(tag: string)
    ensures if tag != "" && tag[0] == 'v' then tag == "v" + WithoutV(tag) else tag == WithoutV(tag)
  {}

  /** The best of the releases so far is the newest, or there is none and none is newer. */
  ghost predicate IsBest(releases: seq<Release>, current: string, best: Option<nat>) {
    if best.None? then NoneNewer(releases, current) else IsNewest(releases, current, best.value)
  }

  method NewerRelease(releases: seq<Release>, current: string) returns (r: Option<(string, string)>)
    ensures r.None? <==> NoneNewer(releases, current)
    ensures r.Some? ==> exists k: nat ::
      IsNewest(releases, current, k) && r.value == (WithoutV(releases[k].tag), releases[k].url)
  {
    var best: Option<nat> := None;
    for i := 0 to |releases|
      invariant (best.Some? ==> best.value < i) && IsBest(releases[..i], current, best)
    {
      var candidate := releases[i];
      var better := false;
      if Published(candidate) {
        var c := CompareVersions(candidate.tag, current);
        if c > 0 {
          better := true;
          if best.Some? {
            c := CompareVersions(candidate.tag, releases[best.value].tag);
            better := c > 0;
          }
        }
      }
      assert releases[..i + 1] == releases[..i] + [candidate];
      OneMore(releases[..i], current, best, candidate);
      if better { best := Some(i); }
    }
    assert releases[..|releases|] == releases;
    r := if best.Some? then Some((WithoutV(releases[best.value].tag), releases[best.value].url)) else None;
  }

  /** One more release: it takes over exactly when it is newer than `current` and than the best so far. */
  lemma OneMore(releases: seq<Release>, current: string, best: Option<nat>, candidate: Release)
    requires IsBest(releases, current, best)
    ensures
      var better := Newer(candidate, current) && (best.None? || Compare(candidate.tag, releases[best.value].tag) > 0);
      IsBest(releases + [candidate], current, if better then Some(|releases|) else best)
  {
    CompareOpposite(candidate.tag, candidate.tag);
    if best.Some? {
      if Newer(candidate, current) && Compare(candidate.tag, releases[best.value].tag) > 0 {
        Overtakes(releases, current, best.value, candidate);
      } else {
        StaysBest(releases, current, best.value, candidate);
      }
    }
  }

  lemma StaysBest(releases: seq<Release>, current: string, k: nat, candidate: Release)
    requires IsNewest(releases, current, k)
    requires Newer(candidate, current) ==> Compare(candidate.tag, releases[k].tag) <= 0
    ensures IsNewest(releases + [candidate], current, k)
  {
    var all := releases + [candidate];
    assert forall j :: 0 <= j < |releases| ==> all[j] == releases[j];
  }

  lemma Overtakes(releases: seq<Release>, current: string, k: nat, candidate: Release)
    requires IsNewest(releases, current, k) && Newer(candidate, current)
    requires Compare(candidate.tag, releases[k].tag) > 0
    ensures IsNewest(releases + [candidate], current, |releases|)
  {
    forall j | 0 <= j < |releases| && Newer(releases[j], current) ensures Compare(releases[j].tag, candidate.tag) < 0 {
      CompareOpposite(candidate.tag, releases[k].tag);
      CompareChained(releases[j].tag, releases[k].tag, candidate.tag);
    }
    CompareOpposite(candidate.tag, candidate.tag);
  }
}
