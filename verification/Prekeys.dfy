/** Weekly prekeys: a new one every week, the old ones' secrets kept a month longer and then deleted. */
module Prekeys {
  import opened Common

  const DAY := 24 * 60 * 60 * 1000
  const PREKEY_ROTATE_MS := 7 * DAY
  const PREKEY_GRACE_MS := 30 * DAY

  /** `key` stands for the key pair; one without `retiredAt` is active. */
  datatype Prekey = Prekey(key: nat, created: int, retiredAt: Option<int>)

  predicate Active(p: Prekey) { p.retiredAt.None? }

  predicate Expired(p: Prekey, now: int) {
    p.retiredAt.Some? && now - p.retiredAt.value > PREKEY_GRACE_MS
  }

  /** The newest active of the first `n` prekeys, the first of equals. */
  function NewestActive(prekeys: seq<Prekey>, n: nat): Option<Prekey>
    requires n <= |prekeys|
  {
    if n == 0 then None
    else
      var r := NewestActive(prekeys, n - 1);
      if Active(prekeys[n - 1]) && (r.None? || prekeys[n - 1].created > r.value.created)
      then Some(prekeys[n - 1])
      else r
  }

  /** What the device hands out. */
  function CurrentPrekey(prekeys: seq<Prekey>): Option<Prekey> {
    NewestActive(prekeys, |prekeys|)
  }

  lemma {:induction false} NewestOfSome(prekeys: seq<Prekey>, n: nat)
    requires n <= |prekeys|
    ensures
      var r := NewestActive(prekeys, n);
      && (r.Some? ==> r.value in prekeys && Active(r.value))
      && (r.Some? ==> forall k :: 0 <= k < n && Active(prekeys[k]) ==> prekeys[k].created <= r.value.created)
      && (r.None? ==> forall k :: 0 <= k < n ==> !Active(prekeys[k]))
  {
    if n > 0 { NewestOfSome(prekeys, n - 1); }
  }

  lemma CurrentIsNewest(prekeys: seq<Prekey>)
    ensures
      var r := CurrentPrekey(prekeys);
      && (r.Some? ==> r.value in prekeys && Active(r.value))
      && (r.Some? ==> forall p :: p in prekeys && Active(p) ==> p.created <= r.value.created)
      && (r.None? ==> forall p :: p in prekeys ==> !Active(p))
  {
    NewestOfSome(prekeys, |prekeys|);
  }

  /** The active key at `k` is newer than those before it, and as new as those after it at least. */
  predicate NewestAt(prekeys: seq<Prekey>, n: nat, k: nat) {
    && k < n <= |prekeys| && Active(prekeys[k])
    && (forall j :: 0 <= j < k && Active(prekeys[j]) ==> prekeys[j].created < prekeys[k].created)
    && (forall j :: k < j < n && Active(prekeys[j]) ==> prekeys[j].created <= prekeys[k].created)
  }

  lemma OneMoreKey(prekeys: seq<Prekey>, n: nat, k: nat)
    requires n < |prekeys| && NewestAt(prekeys, n, k)
    ensures
      var newer := Active(prekeys[n]) && prekeys[n].created > prekeys[k].created;
      NewestAt(prekeys, n + 1, if newer then n else k)
  {}

  /** Of equally new active keys it is the first. */
  lemma {:induction false} FirstOfNewest(prekeys: seq<Prekey>, n: nat) returns (k: nat)
    requires n <= |prekeys| && NewestActive(prekeys, n).Some?
    ensures NewestAt(prekeys, n, k) && NewestActive(prekeys, n) == Some(prekeys[k])
  {
    if NewestActive(prekeys, n - 1).Some? {
      k := FirstOfNewest(prekeys, n - 1);
      OneMoreKey(prekeys, n - 1, k);
      if Active(prekeys[n - 1]) && prekeys[n - 1].created > prekeys[k].created { k := n - 1; }
    } else {
      NewestOfSome(prekeys, n - 1);
      k := n - 1;
    }
  }

  /** Those of the first `n` that are not expired. */
  function KeptOf(prekeys: seq<Prekey>, n: nat, now: int): seq<Prekey>
    requires n <= |prekeys|
  {
    if n == 0 then []
    else KeptOf(prekeys, n - 1, now) + (if Expired(prekeys[n - 1], now) then [] else [prekeys[n - 1]])
  }

  function Kept(prekeys: seq<Prekey>, now: int): seq<Prekey> {
    KeptOf(prekeys, |prekeys|, now)
  }

  function Retire(p: Prekey, now: int): Prekey {
    if Active(p) then p.(retiredAt := Some(now)) else p
  }

  function RetireAll(prekeys: seq<Prekey>, now: int): seq<Prekey> {
    seq(|prekeys|, i requires 0 <= i < |prekeys| => Retire(prekeys[i], now))
  }

  predicate Due(prekeys: seq<Prekey>, now: int) {
    var current := CurrentPrekey(prekeys);
    current.None? || now - current.value.created >= PREKEY_ROTATE_MS
  }

  function Rotated(prekeys: seq<Prekey>, now: int, key: nat): seq<Prekey> {
    var kept := Kept(prekeys, now);
    if Due(kept, now) then RetireAll(kept, now) + [Prekey(key, now, None)] else kept
  }

  /** One rotation; `key` is the pair generated if one is needed, `wiped` the secrets overwritten with zeros. */
  method RotatePrekeys(prekeys: seq<Prekey>, now: int, key: nat)
    returns (next: seq<Prekey>, changed: bool, wiped: seq<Prekey>)
    ensures next == Rotated(prekeys, now, key)
    ensures changed <==> next != prekeys
    ensures AreExpired(wiped, prekeys, now)
  {
    next, changed, wiped := DropExpired(prekeys, now);
    var current := CurrentPrekey(next);
    if current.None? || now - current.value.created >= PREKEY_ROTATE_MS {
      RotationChanges(prekeys, now, key);
      next := RetireAll(next, now) + [Prekey(key, now, None)];
      changed := true;
    }
  }

  ghost predicate AreExpired(wiped: seq<Prekey>, prekeys: seq<Prekey>, now: int) {
    forall p :: p in wiped <==> p in prekeys && Expired(p, now)
  }

  /** The filter of a rotation, which also overwrites what it leaves out. */
  method DropExpired(prekeys: seq<Prekey>, now: int) returns (next: seq<Prekey>, changed: bool, wiped: seq<Prekey>)
    ensures next == Kept(prekeys, now)
    ensures changed <==> next != prekeys
    ensures AreExpired(wiped, prekeys, now)
  {
    next, changed, wiped := [], false, [];
    for i := 0 to |prekeys|
      invariant next == KeptOf(prekeys, i, now)
      invariant AreExpired(wiped, prekeys[..i], now)
      invariant if changed then |next| < i else next == prekeys[..i]
    {
      OneMoreExpired(prekeys[..i], prekeys[i], wiped, now);
      assert prekeys[..i + 1] == prekeys[..i] + [prekeys[i]];
      if Expired(prekeys[i], now) {
        wiped := wiped + [prekeys[i]];
        changed := true;
      } else {
        next := next + [prekeys[i]];
      }
    }
    assert prekeys[..|prekeys|] == prekeys;
  }

  lemma OneMoreExpired(prekeys: seq<Prekey>, p: Prekey, wiped: seq<Prekey>, now: int)
    requires AreExpired(wiped, prekeys, now)
    ensures AreExpired(if Expired(p, now) then wiped + [p] else wiped, prekeys + [p], now)
  {}

  lemma {:induction false} KeptOfAre(prekeys: seq<Prekey>, n: nat, now: int)
    requires n <= |prekeys|
    ensures |KeptOf(prekeys, n, now)| <= n
    ensures forall p :: p in KeptOf(prekeys, n, now) <==> p in prekeys[..n] && !Expired(p, now)
  {
    if n > 0 {
      KeptOfAre(prekeys, n - 1, now);
      assert prekeys[..n] == prekeys[..n - 1] + [prekeys[n - 1]];
    }
  }

  lemma KeptAre(prekeys: seq<Prekey>, now: int)
    ensures |Kept(prekeys, now)| <= |prekeys|
    ensures forall p :: p in Kept(prekeys, now) <==> p in prekeys && !Expired(p, now)
  {
    KeptOfAre(prekeys, |prekeys|, now);
    assert prekeys[..|prekeys|] == prekeys;
  }

  /** A rotation never leaves the store as it was: the new key would have to be the current one already. */
  lemma RotationChanges(prekeys: seq<Prekey>, now: int, key: nat)
    requires Due(Kept(prekeys, now), now)
    ensures Rotated(prekeys, now, key) != prekeys
  {
    var next, made := Rotated(prekeys, now, key), Prekey(key, now, None);
    KeptAre(prekeys, now);
    assert next[|next| - 1] == made;
    assert next == prekeys ==> made in prekeys && made in Kept(prekeys, now);
  }

  // ---- over time ----

  /** The store after the first `n` of the calls at `times`, from an empty one. */
  function Store(times: seq<int>, n: nat): seq<Prekey>
    requires n <= |times|
  {
    if n == 0 then [] else Rotated(Store(times, n - 1), times[n - 1], n - 1)
  }

  predicate NonDecreasing(times: seq<int>) {
    forall i, j :: 0 <= i <= j < |times| ==> times[i] <= times[j]
  }

  /** Calls at most `g` apart. */
  predicate Within(times: seq<int>, g: int) {
    forall i :: 0 < i < |times| ==> times[i] - times[i - 1] <= g
  }

  /** Each key was retired when the next one was made, a week or more after it; only the last is active. */
  ghost predicate Chain(store: seq<Prekey>) {
    && (forall k :: 0 < k < |store| ==> store[k - 1].retiredAt == Some(store[k].created))
    && (forall k :: 0 < k < |store| ==> store[k - 1].created + PREKEY_ROTATE_MS <= store[k].created)
    && (store != [] ==> Active(store[|store| - 1]))
  }

  ghost predicate Settled(store: seq<Prekey>, now: int) {
    && Chain(store) && store != []
    && store[|store| - 1].created <= now < store[|store| - 1].created + PREKEY_ROTATE_MS
    && (forall k :: 0 <= k < |store| ==> !Expired(store[k], now))
  }

  lemma {:induction false} ChainOrder(store: seq<Prekey>, i: nat, j: nat)
    requires Chain(store) && i <= j < |store|
    ensures store[i].created + (j - i) * PREKEY_ROTATE_MS <= store[j].created
    ensures i < j ==>
      && store[i].retiredAt.Some?
      && store[i].retiredAt.value + (j - i - 1) * PREKEY_ROTATE_MS <= store[j].created
    decreases j
  {
    if i < j {
      ChainOrder(store, i, j - 1);
    }
  }

  lemma {:induction false} KeptIsSuffix(store: seq<Prekey>, now: int) returns (n: nat)
    requires Chain(store)
    ensures n <= |store| && Kept(store, now) == store[n..]
    ensures store != [] ==> n < |store|
    ensures forall k :: n <= k < |store| ==> !Expired(store[k], now)
  {
    n := 0;
    while n < |store| && Expired(store[n], now)
      invariant n <= |store| && forall k :: 0 <= k < n ==> Expired(store[k], now)
    {
      n := n + 1;
    }
    forall k | n <= k < |store| ensures !Expired(store[k], now) {
      ChainOrder(store, n, k);
      if n < k && k < |store| - 1 { ChainOrder(store, n + 1, k + 1); }
    }
    KeptSplit(store, |store|, now, n);
  }

  /** When exactly the first `n` are expired, the rest is kept. */
  lemma {:induction false} KeptSplit(store: seq<Prekey>, m: nat, now: int, n: nat)
    requires n <= |store| && m <= |store|
    requires forall k :: 0 <= k < n ==> Expired(store[k], now)
    requires forall k :: n <= k < |store| ==> !Expired(store[k], now)
    ensures KeptOf(store, m, now) == if m <= n then [] else store[n..m]
  {
    if m > 0 { KeptSplit(store, m - 1, now, n); }
  }

  lemma CurrentIsLast(store: seq<Prekey>)
    requires Chain(store) && store != []
    ensures CurrentPrekey(store) == Some(store[|store| - 1])
  {
    var r, last := CurrentPrekey(store), |store| - 1;
    CurrentIsNewest(store);
    assert store[last] in store;
    var k :| 0 <= k < |store| && store[k] == r.value;
    if k < last { ChainOrder(store, k, last); }
  }

  /** One call keeps the chain, whatever time has passed. */
  lemma RotateKeepsChain(store: seq<Prekey>, now: int, key: nat)
    requires Chain(store) && (store != [] ==> store[|store| - 1].created <= now)
    ensures Settled(Rotated(store, now, key), now)
  {
    var n := KeptIsSuffix(store, now);
    var kept := store[n..];
    SuffixIsChain(store, n);
    forall k | 0 <= k < |kept| ensures !Expired(kept[k], now) { assert kept[k] == store[n + k]; }
    RotateKept(kept, now, key);
  }

  lemma RotateKept(kept: seq<Prekey>, now: int, key: nat)
    requires Chain(kept) && (kept != [] ==> kept[|kept| - 1].created <= now)
    requires forall k :: 0 <= k < |kept| ==> !Expired(kept[k], now)
    ensures Settled(if Due(kept, now) then RetireAll(kept, now) + [Prekey(key, now, None)] else kept, now)
  {
    if kept != [] {
      CurrentIsLast(kept);
      if Due(kept, now) { RetireLast(kept, now, key); }
    }
  }

  lemma SuffixIsChain(store: seq<Prekey>, n: nat)
    requires Chain(store) && n <= |store|
    ensures Chain(store[n..])
  {
    var kept := store[n..];
    forall k | 0 < k < |kept|
      ensures kept[k - 1].retiredAt == Some(kept[k].created)
        && kept[k - 1].created + PREKEY_ROTATE_MS <= kept[k].created
    {
      assert kept[k] == store[n + k] && kept[k - 1] == store[n + k - 1];
    }
  }

  lemma RetireLast(kept: seq<Prekey>, now: int, key: nat)
    requires Chain(kept) && kept != [] && kept[|kept| - 1].created + PREKEY_ROTATE_MS <= now
    requires forall k :: 0 <= k < |kept| ==> !Expired(kept[k], now)
    ensures Settled(RetireAll(kept, now) + [Prekey(key, now, None)], now)
  {
    var last := |kept| - 1;
    var next := RetireAll(kept, now) + [Prekey(key, now, None)];
    forall k | 0 <= k < last ensures next[k] == kept[k] {
      assert kept[k + 1 - 1].retiredAt == Some(kept[k + 1].created);
    }
    assert next[last] == kept[last].(retiredAt := Some(now)) && next[last + 1] == Prekey(key, now, None);
  }

  lemma FirstKey(now: int, key: nat)
    ensures Rotated([], now, key) == [Prekey(key, now, None)]
  {
    assert Kept([], now) == [];
  }

  lemma {:induction false} StoreSettled(times: seq<int>, n: nat)
    requires NonDecreasing(times) && 0 < n <= |times|
    ensures Settled(Store(times, n), times[n - 1])
  {
    if n > 1 { StoreSettled(times, n - 1); }
    RotateKeepsChain(Store(times, n - 1), times[n - 1], n - 1);
  }

  /** After any call there is exactly one active key, and never more than six keys in all. */
  lemma FewKeys(times: seq<int>, n: nat)
    requires NonDecreasing(times) && 0 < n <= |times|
    ensures 1 <= |Store(times, n)| <= 6
    ensures forall k :: 0 <= k < |Store(times, n)| ==> (Active(Store(times, n)[k]) <==> k == |Store(times, n)| - 1)
    ensures CurrentPrekey(Store(times, n)) == Some(Store(times, n)[|Store(times, n)| - 1])
  {
    var store, last := Store(times, n), |Store(times, n)| - 1;
    StoreSettled(times, n);
    CurrentIsLast(store);
    forall k | 0 <= k < last ensures !Active(store[k]) { ChainOrder(store, k, last); }
    AtMostSix(store, times[n - 1]);
  }

  /** After any call the current key was made by one of the calls, and is less than a week old. */
  lemma CurrentIsFresh(times: seq<int>, n: nat)
    requires NonDecreasing(times) && 0 < n <= |times|
    ensures
      var current := CurrentPrekey(Store(times, n));
      current.Some? && current.value.created <= times[n - 1] < current.value.created + 604_800_000
  {
    StoreSettled(times, n);
    CurrentIsLast(Store(times, n));
  }

  lemma AtMostSix(store: seq<Prekey>, now: int)
    requires Settled(store, now)
    ensures |store| <= 6
  {
    var last := |store| - 1;
    if last > 0 {
      ChainOrder(store, 0, last);
      assert !Expired(store[0], now);
    }
  }

  /** Whether the key pair `key` can still open what was sealed to it. */
  predicate Holds(store: seq<Prekey>, key: nat) {
    exists p :: p in store && p.key == key
  }

  predicate LeftBefore(p: Prekey, t: int) {
    p.retiredAt.Some? && p.retiredAt.value < t
  }

  /** `p` is there, and if it was retired, not before `t`. */
  predicate StillThere(store: seq<Prekey>, p: Prekey, t: int) {
    p in store && !LeftBefore(p, t)
  }

  lemma RetiredIn(kept: seq<Prekey>, now: int, p: Prekey)
    requires p in kept
    ensures Retire(p, now) in RetireAll(kept, now)
  {
    var k :| 0 <= k < |kept| && kept[k] == p;
    assert RetireAll(kept, now)[k] == Retire(p, now);
  }

  lemma RotateKeepsKey(store: seq<Prekey>, now: int, made: nat, p: Prekey, t: int) returns (q: Prekey)
    requires StillThere(store, p, t) && t <= now <= t + PREKEY_GRACE_MS
    ensures StillThere(Rotated(store, now, made), q, t) && q.key == p.key
  {
    KeptAre(store, now);
    var kept := Kept(store, now);
    assert p in kept;
    RetiredIn(kept, now, p);
    q := if Due(kept, now) then Retire(p, now) else p;
  }

  /** A key that was current at `t`, after the `i`-th call, is still there after any call up to thirty days later. */
  lemma CurrentStays(times: seq<int>, i: nat, t: int, j: nat, p: Prekey)
    requires NonDecreasing(times) && 0 < i <= j <= |times|
    requires times[i - 1] <= t && (i < |times| ==> t <= times[i])
    requires times[j - 1] <= t + 2_592_000_000
    requires CurrentPrekey(Store(times, i)) == Some(p)
    ensures Holds(Store(times, j), p.key)
  {
    CurrentIsNewest(Store(times, i));
    forall k | i <= k < j ensures t <= times[k] <= t + PREKEY_GRACE_MS {
      assert times[i] <= times[k] <= times[j - 1];
    }
    assert StillThere(Store(times, i), p, t);
    StaysThrough(times, i, t, j, p);
  }

  /** Whatever is there in one store is there in the next. */
  ghost predicate Carries(store: seq<Prekey>, next: seq<Prekey>, t: int) {
    forall p :: StillThere(store, p, t) ==> Carried(next, p, t)
  }

  ghost predicate Carried(store: seq<Prekey>, p: Prekey, t: int) {
    exists q :: StillThere(store, q, t) && q.key == p.key
  }

  lemma CallCarries(times: seq<int>, j: nat, t: int)
    requires j < |times| && t <= times[j] <= t + PREKEY_GRACE_MS
    ensures Carries(Store(times, j), Store(times, j + 1), t)
  {
    forall p | StillThere(Store(times, j), p, t) ensures Carried(Store(times, j + 1), p, t) {
      var q := RotateKeepsKey(Store(times, j), times[j], j, p, t);
    }
  }

  lemma CarriedOn(store: seq<Prekey>, next: seq<Prekey>, p: Prekey, t: int)
    requires Carried(store, p, t) && Carries(store, next, t)
    ensures Carried(next, p, t)
  {
    var q :| StillThere(store, q, t) && q.key == p.key;
    assert Carried(next, q, t);
  }

  lemma CallStays(times: seq<int>, k: nat, t: int, p: Prekey)
    requires k < |times| && t <= times[k] <= t + PREKEY_GRACE_MS && Carried(Store(times, k), p, t)
    ensures Carried(Store(times, k + 1), p, t)
  {
    CallCarries(times, k, t);
    CarriedOn(Store(times, k), Store(times, k + 1), p, t);
  }

  /** The calls from the `i`-th to before the `j`-th are no more than thirty days after `t`. */
  predicate CallsWithin(times: seq<int>, i: nat, j: nat, t: int) {
    i <= j <= |times| && forall k :: i <= k < j ==> t <= times[k] <= t + PREKEY_GRACE_MS
  }

  lemma {:induction false} StaysThrough(times: seq<int>, i: nat, t: int, j: nat, p: Prekey)
    requires CallsWithin(times, i, j, t) && Carried(Store(times, i), p, t)
    ensures Carried(Store(times, j), p, t)
    decreases j
  {
    if i < j {
      StaysThrough(times, i, t, j - 1, p);
      CallStays(times, j - 1, t, p);
    }
  }

  ghost predicate RetiredInTime(store: seq<Prekey>, g: int) {
    forall k :: 0 <= k < |store| && store[k].retiredAt.Some?
      ==> store[k].retiredAt.value < store[k].created + PREKEY_ROTATE_MS + g
  }

  lemma RetireAllInTime(kept: seq<Prekey>, now: int, key: nat, g: int)
    requires RetiredInTime(kept, g)
    requires forall k :: 0 <= k < |kept| && Active(kept[k]) ==> now < kept[k].created + PREKEY_ROTATE_MS + g
    ensures RetiredInTime(RetireAll(kept, now) + [Prekey(key, now, None)], g)
  {}

  lemma RotateRetiresInTime(was: seq<Prekey>, before: int, now: int, key: nat, g: int)
    requires Settled(was, before) && before <= now <= before + g && RetiredInTime(was, g)
    ensures RetiredInTime(Rotated(was, now, key), g)
  {
    var m := KeptIsSuffix(was, now);
    var kept := was[m..];
    forall k | 0 <= k < |kept|
      ensures Active(kept[k]) ==> now < kept[k].created + PREKEY_ROTATE_MS + g
      ensures kept[k].retiredAt.Some? ==> kept[k].retiredAt.value < kept[k].created + PREKEY_ROTATE_MS + g
    {
      assert kept[k] == was[m + k];
      if m + k < |was| - 1 { ChainOrder(was, m + k, |was| - 1); }
    }
    RetireAllInTime(kept, now, key, g);
  }

  lemma {:induction false} StoreRetiresInTime(times: seq<int>, g: int, n: nat)
    requires NonDecreasing(times) && Within(times, g) && n <= |times|
    ensures RetiredInTime(Store(times, n), g)
  {
    if n == 1 {
      FirstKey(times[0], 0);
    } else if n > 1 {
      StoreRetiresInTime(times, g, n - 1);
      StoreSettled(times, n - 1);
      assert times[n - 1] - times[n - 2] <= g;
      RotateRetiresInTime(Store(times, n - 1), times[n - 2], times[n - 1], n - 1, g);
    }
  }

  /**
   * With calls at most `g` apart, at any moment until the next call every secret still stored is younger than 37 days
   * and twice `g`: that is when forward secrecy takes hold.
   */
  lemma SecretsGoInTime(times: seq<int>, g: int, n: nat, moment: int, p: Prekey)
    requires NonDecreasing(times) && Within(times, g) && 0 < n <= |times| && g >= 0
    requires times[n - 1] <= moment <= times[n - 1] + g
    requires p in Store(times, n)
    ensures moment < p.created + 3_196_800_000 + 2 * g
  {
    StoreSettled(times, n);
    StoreRetiresInTime(times, g, n);
    var store := Store(times, n);
    var k :| 0 <= k < |store| && store[k] == p;
    if k == |store| - 1 { assert Active(p); } else { ChainOrder(store, k, |store| - 1); }
  }
}
