/** Shared vocabulary: optional values, flattening, and the ordering of strings. */
module Common {
  datatype Option<+T> = None | Some(value: T)

  /** What `Map.get` answers. */
  function Lookup<K, V>(m: map<K, V>, k: K): Option<V> {
    if k in m then Some(m[k]) else None
  }

  function Flatten<T>(parts: seq<seq<T>>): seq<T> {
    if parts == [] then [] else parts[0] + Flatten(parts[1..])
  }

  lemma {:induction false} FlattenConcat<T>(a: seq<seq<T>>, b: seq<seq<T>>)
    ensures Flatten(a + b) == Flatten(a) + Flatten(b)
  {
    if a == [] {
      assert a + b == b;
    } else {
      assert (a + b)[1..] == a[1..] + b;
      FlattenConcat(a[1..], b);
    }
  }

  lemma FlattenSnoc<T>(a: seq<seq<T>>, last: seq<T>)
    ensures Flatten(a + [last]) == Flatten(a) + last
  {
    FlattenConcat(a, [last]);
    assert Flatten([last]) == last;
  }
}

/** The order JavaScript's `<` puts on strings: by the first character that differs, a prefix first. */
module TextOrder {
  predicate Less(a: string, b: string) {
    b != "" && (a == "" || a[0] < b[0] || (a[0] == b[0] && Less(a[1..], b[1..])))
  }

  /** `a` and `b` begin with the same `k` characters, and there `a` is at its end or has the smaller one. */
  predicate FirstLess(a: string, b: string, k: nat) {
    k < |b| && k <= |a| && a[..k] == b[..k] && (k < |a| ==> a[k] < b[k])
  }

  lemma SameFirst(a: string, b: string, k: nat)
    requires 0 < k <= |a| && k <= |b| && a[..k] == b[..k]
    ensures a[0] == b[0]
  {
    assert a[0] == a[..k][0];
  }

  /** Said of characters: the first one that differs decides, and a proper prefix is less. */
  lemma {:induction false} LessIs(a: string, b: string)
    ensures Less(a, b) <==> exists k: nat :: FirstLess(a, b, k)
  {
    if a == "" || b == "" || a[0] != b[0] {
      assert Less(a, b) ==> FirstLess(a, b, 0);
      forall k: nat | FirstLess(a, b, k) ensures Less(a, b) {
        if k > 0 { SameFirst(a, b, k); }
      }
    } else {
      LessIs(a[1..], b[1..]);
      assert a == [a[0]] + a[1..] && b == [b[0]] + b[1..];
      if k: nat :| FirstLess(a[1..], b[1..], k) {
        assert a[..k + 1] == [a[0]] + a[1..][..k] && b[..k + 1] == [b[0]] + b[1..][..k];
        assert FirstLess(a, b, k + 1);
      }
      if k: nat :| FirstLess(a, b, k) {
        assert k > 0 && a[1..][..k - 1] == a[..k][1..] && b[1..][..k - 1] == b[..k][1..];
        assert FirstLess(a[1..], b[1..], k - 1);
      }
    }
  }

  lemma {:induction false} LessTotal(a: string, b: string)
    ensures a == b || Less(a, b) || Less(b, a)
  {
    if a != "" && b != "" && a[0] == b[0] {
      LessTotal(a[1..], b[1..]);
      if a[1..] == b[1..] {
        assert a == [a[0]] + a[1..];
        assert b == [b[0]] + b[1..];
      }
    }
  }

  lemma {:induction false} LessAsymmetric(a: string, b: string)
    requires Less(a, b)
    ensures !Less(b, a) && a != b
  {
    if a != "" && a[0] == b[0] {
      LessAsymmetric(a[1..], b[1..]);
    }
  }

  lemma {:induction false} LessTransitive(a: string, b: string, c: string)
    requires Less(a, b) && Less(b, c)
    ensures Less(a, c)
  {
    if a != "" && a[0] == b[0] && b[0] == c[0] {
      LessTransitive(a[1..], b[1..], c[1..]);
    }
  }
}

/** Whole numbers in decimal. */
module Decimal {
  predicate IsDigit(c: char) { '0' <= c <= '9' }

  predicate AllDigits(s: string) {
    forall i :: 0 <= i < |s| ==> IsDigit(s[i])
  }

  function DigitOf(c: char): nat
    requires IsDigit(c)
  {
    (c as int) - ('0' as int)
  }

  /** `Number(s)` of a string of digits, unbounded. */
  function NumberOf(s: string): nat
    requires AllDigits(s)
  {
    if s == "" then 0 else 10 * NumberOf(s[..|s| - 1]) + DigitOf(s[|s| - 1])
  }

  /** Written the usual way: no leading zero, except for zero itself. */
  predicate Canonical(s: string) {
    s != "" && AllDigits(s) && (|s| > 1 ==> s[0] != '0')
  }

  lemma {:induction false} CanonicalPositive(s: string)
    requires AllDigits(s) && s != "" && s[0] != '0'
    ensures NumberOf(s) > 0
  {
    if |s| > 1 {
      assert s[..|s| - 1][0] == s[0];
      CanonicalPositive(s[..|s| - 1]);
    }
  }

  lemma LastDigit(a: nat, d: nat, b: nat, e: nat)
    requires 10 * a + d == 10 * b + e && d < 10 && e < 10
    ensures a == b && d == e
  {}

  lemma {:induction false} ZeroIsEmpty(s: string)
    requires AllDigits(s) && (s != "" ==> s[0] != '0')
    ensures NumberOf(s) == 0 <==> s == ""
  {
    if s != "" { CanonicalPositive(s); }
  }

  /** A number has one usual way of being written. */
  lemma {:induction false} CanonicalUnique(s: string, t: string)
    requires Canonical(s) && Canonical(t) && NumberOf(s) == NumberOf(t)
    ensures s == t
  {
    var a, b, c, d := s[..|s| - 1], t[..|t| - 1], s[|s| - 1], t[|t| - 1];
    LastDigit(NumberOf(a), DigitOf(c), NumberOf(b), DigitOf(d));
    ZeroIsEmpty(a);
    ZeroIsEmpty(b);
    if a != "" { CanonicalUnique(a, b); }
    assert s == a + [c] && t == b + [d];
  }

  function Digit(d: nat): char
    requires d < 10
  {
    "0123456789"[d]
  }

  function Render(n: nat): (s: string)
    ensures Canonical(s) && NumberOf(s) == n
  {
    if n < 10 then [Digit(n)]
    else
      var front := Render(n / 10);
      var s := front + [Digit(n % 10)];
      assert s[..|s| - 1] == front;
      assert NumberOf("0") == 0;
      s
  }
}

/** What holds since something started it. */
module Moments {
  /** Something started it before moment `k`, and nothing ended it between the two. */
  ghost predicate Since(starts: nat -> bool, ends: nat -> bool, k: nat) {
    exists i: nat :: i < k && starts(i) && NoneAfter(ends, i, k)
  }

  ghost predicate NoneAfter(ends: nat -> bool, i: nat, k: nat) {
    forall j: nat :: i < j < k ==> !ends(j)
  }

  lemma SinceOneMore(starts: nat -> bool, ends: nat -> bool, k: nat)
    ensures Since(starts, ends, k + 1) <==> starts(k) || (Since(starts, ends, k) && !ends(k))
  {
    if Since(starts, ends, k) && !ends(k) {
      var i: nat :| i < k && starts(i) && NoneAfter(ends, i, k);
      assert NoneAfter(ends, i, k + 1);
    }
    assert NoneAfter(ends, k, k + 1);
    if Since(starts, ends, k + 1) {
      var i: nat :| i < k + 1 && starts(i) && NoneAfter(ends, i, k + 1);
      assert i < k ==> NoneAfter(ends, i, k);
    }
  }
}
