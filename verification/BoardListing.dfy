/** The visible objects as a list. Whatever order they were found in, a board has exactly one such list. */
module BoardListing {
  import opened Common
  import opened BoardOps
  import TextOrder

  datatype Shown = Shown(id: Id, o: Props)

  function ZOf(o: Props): real {
    if Z in o && o[Z].Num? then o[Z].n else 0.0
  }

  /** The comparator of the sort: by z, ties by id. */
  predicate Below(a: Shown, b: Shown) {
    ZOf(a.o) < ZOf(b.o) || (ZOf(a.o) == ZOf(b.o) && TextOrder.Less(a.id, b.id))
  }

  lemma BelowTotal(a: Shown, b: Shown)
    ensures a.id == b.id || Below(a, b) || Below(b, a)
  {
    TextOrder.LessTotal(a.id, b.id);
  }

  lemma BelowTransitive(a: Shown, b: Shown, c: Shown)
    requires Below(a, b) && Below(b, c)
    ensures Below(a, c)
  {
    if TextOrder.Less(a.id, b.id) && TextOrder.Less(b.id, c.id) {
      TextOrder.LessTransitive(a.id, b.id, c.id);
    }
  }

  lemma BelowAsymmetric(a: Shown, b: Shown)
    requires Below(a, b)
    ensures !Below(b, a) && a != b
  {
    if TextOrder.Less(a.id, b.id) {
      TextOrder.LessAsymmetric(a.id, b.id);
    }
  }

  predicate Sorted(s: seq<Shown>) {
    forall i, j :: 0 <= i < j < |s| ==> Below(s[i], s[j])
  }

  predicate Visible(m: Objects, x: Shown) {
    x.id in m && m[x.id] == x.o && IsShown(x.o)
  }

  /** `s` is the visible part of `m` in strictly increasing (z, id) order. */
  ghost predicate Listing(m: Objects, s: seq<Shown>) {
    Sorted(s) && forall x :: x in s <==> Visible(m, x)
  }

  /** Exactly the objects with a kind that are not marked deleted are listed, with all their fields. */
  lemma ListedExactly(m: Objects, s: seq<Shown>, x: Shown)
    requires Listing(m, s)
    ensures x in s <==>
              && Lookup(m, x.id) == Some(x.o) && Reg(m, x.id, Kind).Some? && Reg(m, x.id, D) != Some(Flag(true))
    ensures forall i, j :: 0 <= i < j < |s| ==> s[i].id != s[j].id
  {
    forall i, j | 0 <= i < j < |s| ensures s[i].id != s[j].id {
      assert s[i] in s && s[j] in s && Below(s[i], s[j]);
      BelowAsymmetric(s[i], s[j]);
    }
  }

  /**
   * What is listed first lies below: its number in the field Z is smaller, or the same and its id is an earlier text,
   * by the first character that differs or as a proper prefix.
   */
  lemma ListedBottomToTop(m: Objects, s: seq<Shown>, i: nat, j: nat, z: real, above: real)
    requires Listing(m, s) && i < j < |s|
    requires NumberIs(s[i].o, Z, 0.0, z) && NumberIs(s[j].o, Z, 0.0, above)
    ensures Lookup(m, s[i].id) == Some(s[i].o) && Lookup(m, s[j].id) == Some(s[j].o)
    ensures z < above || (z == above && exists k: nat :: TextOrder.FirstLess(s[i].id, s[j].id, k))
  {
    assert s[i] in s && s[j] in s && Below(s[i], s[j]);
    TextOrder.LessIs(s[i].id, s[j].id);
  }

  lemma {:induction false} SortedUnique(s: seq<Shown>, t: seq<Shown>)
    requires Sorted(s) && Sorted(t)
    requires forall x :: x in s <==> x in t
    ensures s == t
  {
    assert |s| > 0 ==> s[0] in s;
    assert |t| > 0 ==> t[0] in t;
    if s != [] && t != [] {
      var i :| 0 <= i < |t| && t[i] == s[0] by { assert s[0] in t; }
      var j :| 0 <= j < |s| && s[j] == t[0] by { assert t[0] in s; }
      if i > 0 && j > 0 { BelowAsymmetric(t[0], t[i]); }
      forall x ensures x in s[1..] <==> x in t[1..] {
        if x in s[1..] { BelowAsymmetric(s[0], x); assert x in t; }
        if x in t[1..] { BelowAsymmetric(t[0], x); assert x in s; }
      }
      SortedUnique(s[1..], t[1..]);
      assert s == [s[0]] + s[1..] && t == [t[0]] + t[1..];
    }
  }

  /** Boards that agree in every register list alike, in whatever order their maps were filled. */
  lemma SameViewSameListing(a: Objects, s: seq<Shown>, b: Objects, t: seq<Shown>)
    requires SameView(a, b) && Listing(a, s) && Listing(b, t)
    ensures s == t
  {
    forall x ensures Visible(a, x) <==> Visible(b, x) {
      if Visible(a, x) { VisibleInBoth(a, b, x); }
      if Visible(b, x) { VisibleInBoth(b, a, x); }
    }
    SortedUnique(s, t);
  }

  lemma VisibleInBoth(a: Objects, b: Objects, x: Shown)
    requires SameView(a, b) && Visible(a, x)
    ensures Visible(b, x)
  {
    assert Reg(a, x.id, Kind) == Reg(b, x.id, Kind);
    forall f ensures Lookup(a[x.id], f) == Lookup(b[x.id], f) {
      assert Reg(a, x.id, f) == Reg(b, x.id, f);
    }
    LookupsDecide(a[x.id], b[x.id]);
  }

  // ---- sorting ----

  function Insert(x: Shown, s: seq<Shown>): (r: seq<Shown>)
    ensures multiset(r) == multiset(s) + multiset{x}
  {
    if s == [] || Below(x, s[0]) then [x] + s
    else
      assert s == [s[0]] + s[1..];
      [s[0]] + Insert(x, s[1..])
  }

  /** The library's sort with the comparator above. */
  function Sort(s: seq<Shown>): (r: seq<Shown>)
    ensures multiset(r) == multiset(s)
  {
    if s == [] then []
    else
      assert s == [s[0]] + s[1..];
      Insert(s[0], Sort(s[1..]))
  }

  predicate DistinctIds(s: seq<Shown>) {
    forall i, j :: 0 <= i < j < |s| ==> s[i].id != s[j].id
  }

  lemma SameMembers(a: seq<Shown>, b: seq<Shown>)
    requires multiset(a) == multiset(b)
    ensures forall x :: x in a <==> x in b
  {
    forall x ensures x in a <==> x in b {
      assert x in a <==> x in multiset(a);
      assert x in b <==> x in multiset(b);
    }
  }

  lemma {:induction false} InsertSorted(x: Shown, s: seq<Shown>)
    requires Sorted(s) && forall y :: y in s ==> y.id != x.id
    ensures Sorted(Insert(x, s))
  {
    if s == [] {
    } else if Below(x, s[0]) {
      forall k | 0 <= k < |s| ensures Below(x, s[k]) {
        if k > 0 { BelowTransitive(x, s[0], s[k]); }
      }
    } else {
      assert s[0] in s;
      BelowTotal(x, s[0]);
      InsertSorted(x, s[1..]);
      var r := Insert(x, s[1..]);
      forall y | y in r ensures Below(s[0], y) {
        assert y in multiset(r);
        assert y == x || y in s[1..];
      }
    }
  }

  lemma {:induction false} SortSorted(s: seq<Shown>)
    requires DistinctIds(s)
    ensures Sorted(Sort(s))
  {
    if s != [] {
      SortSorted(s[1..]);
      SameMembers(Sort(s[1..]), s[1..]);
      InsertSorted(s[0], Sort(s[1..]));
    }
  }
}
