/** One app's board in two layers, what the server said and what waits for it, and the cached view kept of both. */
module BoardStates {
  import opened Common
  import opened BoardOps
  import opened BoardListing

  /** Batch ids are random strings only ever compared; an absent or empty one is `None`. */
  type Cid = nat
  datatype Batch = Batch(cid: Cid, ops: seq<Op>)
  datatype Board = Board(confirmed: Objects, pending: seq<Batch>)

  function PendingOps(pending: seq<Batch>): seq<Op> {
    if pending == [] then [] else pending[0].ops + PendingOps(pending[1..])
  }

  /** The meaning of what is shown: every pending op replayed over the confirmed board. */
  function Show(b: Board): Objects {
    ApplyOps(b.confirmed, PendingOps(b.pending))
  }

  /** `findIndex` of a batch by its id. */
  function IndexOf(pending: seq<Batch>, cid: Cid): (r: Option<nat>)
    ensures r.Some? ==> r.value < |pending| && pending[r.value].cid == cid
    ensures r.Some? ==> forall k :: 0 <= k < r.value ==> pending[k].cid != cid
    ensures r.None? ==> forall k :: 0 <= k < |pending| ==> pending[k].cid != cid
  {
    if pending == [] then None
    else if pending[0].cid == cid then Some(0)
    else
      var r := IndexOf(pending[1..], cid);
      if r.Some? then Some(r.value + 1)
      else
        assert forall k :: 0 < k < |pending| ==> pending[k] == pending[1..][k - 1];
        None
  }

  function Without(pending: seq<Batch>, i: nat): seq<Batch>
    requires i < |pending|
  {
    pending[..i] + pending[i + 1..]
  }

  function WithoutCid(pending: seq<Batch>, cid: Option<Cid>): seq<Batch> {
    if cid.None? then pending
    else
      var i := IndexOf(pending, cid.value);
      if i.Some? then Without(pending, i.value) else pending
  }

  // ---- what each event means ----

  function Loaded(b: Board, objects: Objects): Board { Board(objects, b.pending) }

  function Confirmed(b: Board, ops: seq<Op>, cid: Option<Cid>): Board {
    Board(ApplyOps(b.confirmed, ops), WithoutCid(b.pending, cid))
  }

  function Added(b: Board, cid: Cid, ops: seq<Op>): Board { b.(pending := b.pending + [Batch(cid, ops)]) }

  function Dropped(b: Board, cid: Cid): Board { b.(pending := WithoutCid(b.pending, Some(cid))) }

  lemma {:induction false} PendingOpsConcat(a: seq<Batch>, b: seq<Batch>)
    ensures PendingOps(a + b) == PendingOps(a) + PendingOps(b)
  {
    if a == [] {
      assert a + b == b;
    } else {
      assert (a + b)[1..] == a[1..] + b;
      PendingOpsConcat(a[1..], b);
    }
  }

  lemma PendingOpsSnoc(pending: seq<Batch>, batch: Batch)
    ensures PendingOps(pending + [batch]) == PendingOps(pending) + batch.ops
  {
    PendingOpsConcat(pending, [batch]);
    assert [batch][1..] == [];
    assert PendingOps([batch]) == batch.ops;
  }

  lemma PendingOpsAround(front: seq<Batch>, batch: Batch, back: seq<Batch>)
    ensures PendingOps(front + [batch] + back) == PendingOps(front) + batch.ops + PendingOps(back)
  {
    PendingOpsSnoc(front, batch);
    PendingOpsConcat(front + [batch], back);
  }

  lemma Around<T>(s: seq<T>, i: nat)
    requires i < |s|
    ensures s == s[..i] + [s[i]] + s[i + 1..] && s[..i + 1] == s[..i] + [s[i]]
  {}

  lemma PendingOpsAt(pending: seq<Batch>, i: nat)
    requires i < |pending|
    ensures PendingOps(pending[..i + 1]) == PendingOps(pending[..i]) + pending[i].ops
    ensures PendingOps(pending) == PendingOps(pending[..i]) + pending[i].ops + PendingOps(pending[i + 1..])
    ensures PendingOps(Without(pending, i)) == PendingOps(pending[..i]) + PendingOps(pending[i + 1..])
  {
    Around(pending, i);
    PendingOpsSnoc(pending[..i], pending[i]);
    PendingOpsAround(pending[..i], pending[i], pending[i + 1..]);
    PendingOpsConcat(pending[..i], pending[i + 1..]);
  }

  lemma ShowAt(b: Board, id: Id)
    ensures Lookup(Show(b), id) == ObjectAfter(Lookup(b.confirmed, id), PendingOps(b.pending), id)
  {
    LookupAfter(b.confirmed, PendingOps(b.pending), id);
  }

  /** Dropping the pending batch `i` can only change the objects its ops name. */
  lemma WithoutElsewhere(b: Board, i: nat, id: Id)
    requires i < |b.pending| && id !in Ids(b.pending[i].ops)
    ensures Lookup(Show(b.(pending := Without(b.pending, i))), id) == Lookup(Show(b), id)
  {
    var c := b.(pending := Without(b.pending, i));
    var front, back := PendingOps(b.pending[..i]), PendingOps(b.pending[i + 1..]);
    var o := Lookup(b.confirmed, id);
    PendingOpsAt(b.pending, i);
    ShowAt(b, id);
    ShowAt(c, id);
    ObjectAfterConcat(o, front, back, id);
    ObjectAfterConcat(o, front + b.pending[i].ops, back, id);
    ObjectAfterConcat(o, front, b.pending[i].ops, id);
    ObjectUntouched(ObjectAfter(o, front, id), b.pending[i].ops, id);
  }

  /** Confirmed ops can only change the objects they name. */
  lemma ConfirmedElsewhere(b: Board, ops: seq<Op>, id: Id)
    requires id !in Ids(ops)
    ensures Lookup(Show(b.(confirmed := ApplyOps(b.confirmed, ops))), id) == Lookup(Show(b), id)
  {
    ShowAt(b, id);
    ShowAt(b.(confirmed := ApplyOps(b.confirmed, ops)), id);
    LookupAfter(b.confirmed, ops, id);
    ObjectUntouched(Lookup(b.confirmed, id), ops, id);
  }

  lemma AddedElsewhere(b: Board, cid: Cid, ops: seq<Op>, id: Id)
    requires id !in Ids(ops)
    ensures Lookup(Show(Added(b, cid, ops)), id) == Lookup(Show(b), id)
  {
    PendingOpsSnoc(b.pending, Batch(cid, ops));
    ShowAt(b, id);
    ShowAt(Added(b, cid, ops), id);
    ObjectAfterConcat(Lookup(b.confirmed, id), PendingOps(b.pending), ops, id);
    ObjectUntouched(ObjectAfter(Lookup(b.confirmed, id), PendingOps(b.pending), id), ops, id);
  }

  lemma NowhereElse(b: Board, id: Id)
    requires id !in b.confirmed && id !in Ids(PendingOps(b.pending))
    ensures Lookup(Show(b), id) == None
  {
    ShowAt(b, id);
    ObjectUntouched(None, PendingOps(b.pending), id);
  }

  /** A snapshot keeps what is visible and nothing else. */
  function SnapshotOf(m: Objects): Objects {
    map id | id in m && IsShown(m[id]) :: m[id]
  }

  class BoardState {
    var confirmed: Objects
    var pending: seq<Batch>
    var shown: Objects
    var sorted: Option<seq<Shown>>
    var revision: nat
    var maxZ: real

    ghost function Abs(): Board
      reads this
    {
      Board(confirmed, pending)
    }

    /** The invariant: the maintained map is the replay, a cached list is its listing, and `maxZ` bounds what shows. */
    ghost predicate Valid()
      reads this
    {
      && shown == Show(Abs())
      && (sorted.Some? ==> Listing(shown, sorted.value))
      && MaxZBounds({})
    }

    ghost predicate MaxZBounds(except: set<Id>)
      reads this
    {
      maxZ >= 0.0 && forall id :: id in shown && id !in except && IsShown(shown[id]) ==> ZOf(shown[id]) <= maxZ
    }

    ghost predicate MaxZReached(ids: set<Id>)
      reads this
    {
      exists id :: id in ids && id in shown && IsShown(shown[id]) && maxZ == ZOf(shown[id])
    }

    constructor ()
      ensures Valid() && Abs() == Board(map[], []) && revision == 0 && maxZ == 0.0
    {
      confirmed, pending, shown, sorted, revision, maxZ := map[], [], map[], None, 0, 0.0;
    }

    /** Only the lower layer changes; the view is rebuilt from scratch. */
    method Load(objects: Objects)
      requires Valid()
      modifies this
      ensures Valid() && Abs() == Loaded(old(Abs()), objects)
      ensures revision == old(revision) + 1 && maxZ >= old(maxZ)
    {
      confirmed := objects;
      Rebuild();
    }

    method Clear()
      requires Valid()
      modifies this
      ensures Valid() && Abs() == Board(map[], [])
      ensures revision == old(revision) + 1 && maxZ >= old(maxZ)
    {
      confirmed := map[];
      pending := [];
      Rebuild();
    }

    /** Both layers change at once, yet recomputing the objects named by either change is enough. */
    method ApplyConfirmed(ops: seq<Op>, cid: Option<Cid>)
      requires Valid()
      modifies this
      ensures Valid() && Abs() == Confirmed(old(Abs()), ops, cid)
      ensures revision == old(revision) + 1 && maxZ >= old(maxZ)
    {
      ghost var was := Abs();
      var touched: set<Id> := {};
      for k := 0 to |ops|
        invariant confirmed == ApplyOps(was.confirmed, ops[..k]) && pending == was.pending
        invariant touched == Ids(ops[..k])
        invariant shown == old(shown) && maxZ == old(maxZ) && revision == old(revision)
      {
        ApplyOpsConcat(was.confirmed, ops[..k], [ops[k]]);
        assert ops[..k + 1] == ops[..k] + [ops[k]];
        confirmed := ApplyOp(confirmed, ops[k]);
        touched := touched + {ops[k].id};
      }
      assert ops[..|ops|] == ops;
      ghost var mid := Abs();
      if cid.Some? {
        var i := IndexOf(pending, cid.value);
        if i.Some? {
          touched := touched + Ids(pending[i.value].ops);
          pending := Without(pending, i.value);
        }
      }
      forall id | id !in touched ensures Lookup(shown, id) == Lookup(Show(Abs()), id) {
        ConfirmedElsewhere(was, ops, id);
        if mid != Abs() {
          WithoutElsewhere(mid, IndexOf(mid.pending, cid.value).value, id);
        }
      }
      Refresh(touched);
    }

    /** One more batch on the upper layer: only the objects it names are recomputed. */
    method AddPending(cid: Cid, ops: seq<Op>)
      requires Valid()
      modifies this
      ensures Valid() && Abs() == Added(old(Abs()), cid, ops)
      ensures revision == old(revision) + 1 && maxZ >= old(maxZ)
    {
      pending := pending + [Batch(cid, ops)];
      forall id | id !in Ids(ops) ensures Lookup(shown, id) == Lookup(Show(Abs()), id) {
        AddedElsewhere(old(Abs()), cid, ops, id);
      }
      Refresh(Ids(ops));
    }

    /** Takes a batch out of the upper layer; an id nobody has changes nothing, not even the revision. */
    method DropPending(cid: Cid)
      requires Valid()
      modifies this
      ensures Valid() && Abs() == Dropped(old(Abs()), cid)
      ensures IndexOf(old(pending), cid).None?
        ==> sorted == old(sorted) && revision == old(revision) && maxZ == old(maxZ)
      ensures IndexOf(old(pending), cid).Some? ==> revision == old(revision) + 1 && maxZ >= old(maxZ)
    {
      var i := IndexOf(pending, cid);
      if i.None? { return; }
      var batch := pending[i.value];
      pending := Without(pending, i.value);
      forall id | id !in Ids(batch.ops) ensures Lookup(shown, id) == Lookup(Show(Abs()), id) {
        WithoutElsewhere(old(Abs()), i.value, id);
      }
      Refresh(Ids(batch.ops));
    }

    /** The lower layer's visible part, whatever order the map is walked in. */
    method ConfirmedObjects() returns (out: Objects)
      ensures out == SnapshotOf(confirmed)
    {
      out := map[];
      var left := confirmed.Keys;
      while left != {}
        invariant left <= confirmed.Keys
        invariant out == map id | id in confirmed && id !in left && IsShown(confirmed[id]) :: confirmed[id]
      {
        var id :| id in left;
        if IsShown(confirmed[id]) { out := out[id := confirmed[id]]; }
        left := left - {id};
      }
    }

    /** The one listing of the view, from the cache if there is one, and whatever order the map is walked in. */
    method List() returns (r: seq<Shown>)
      requires Valid()
      modifies this`sorted
      ensures Valid() && Listing(Show(Abs()), r) && sorted == Some(r)
    {
      if sorted.None? {
        var found: seq<Shown> := [];
        var left := shown.Keys;
        while left != {}
          invariant left <= shown.Keys && sorted.None?
          invariant DistinctIds(found)
          invariant forall x :: x in found <==> Visible(shown, x) && x.id !in left
        {
          var id :| id in left;
          left := left - {id};
          if IsShown(shown[id]) { found := found + [Shown(id, shown[id])]; }
        }
        SortSorted(found);
        SameMembers(Sort(found), found);
        sorted := Some(Sort(found));
      }
      r := sorted.value;
    }

    method Rebuild()
      requires maxZ >= 0.0
      modifies this`shown, this`sorted, this`revision, this`maxZ
      ensures Valid() && revision == old(revision) + 1 && maxZ >= old(maxZ)
    {
      shown := map[];
      var ids := confirmed.Keys + Ids(PendingOps(pending));
      forall id | id !in ids ensures Lookup(shown, id) == Lookup(Show(Abs()), id) {
        NowhereElse(Abs(), id);
      }
      Refresh(ids);
    }

    /** Recomputes the objects `ids` from the confirmed board and the pending batches. */
    method Refresh(ids: set<Id>)
      requires forall id :: id !in ids ==> Lookup(shown, id) == Lookup(Show(Abs()), id)
      requires MaxZBounds(ids)
      modifies this`shown, this`sorted, this`revision, this`maxZ
      ensures Valid() && sorted == None && revision == old(revision) + 1
      ensures maxZ >= old(maxZ) && (maxZ == old(maxZ) || MaxZReached(ids))
    {
      var left := ids;
      while left != {}
        invariant left <= ids && maxZ >= old(maxZ) && revision == old(revision)
        invariant forall id :: id !in left ==> Lookup(shown, id) == Lookup(Show(Abs()), id)
        invariant MaxZBounds(left)
        invariant maxZ == old(maxZ) || MaxZReached(ids - left)
      {
        var id :| id in left;
        left := left - {id};
        RefreshOne(id, left);
      }
      LookupsDecide(shown, Show(Abs()));
      sorted := None;
      revision := revision + 1;
    }

    /** One object of a refresh, with the objects `left` still to come. */
    method RefreshOne(id: Id, ghost left: set<Id>)
      requires id !in left && MaxZBounds(left + {id})
      modifies this`shown, this`maxZ
      ensures Lookup(shown, id) == Lookup(Show(Abs()), id)
      ensures forall other :: other != id ==> Lookup(shown, other) == Lookup(old(shown), other)
      ensures MaxZBounds(left) && maxZ >= old(maxZ)
      ensures maxZ == old(maxZ) || MaxZReached({id})
    {
      var o := ShownNow(id);
      if o.Some? {
        shown := shown[id := o.value];
        if IsShown(o.value) && ZOf(o.value) > maxZ { maxZ := ZOf(o.value); }
      } else {
        shown := shown - {id};
      }
    }

    /** One object replayed: the walk over every pending op that names it. */
    method ShownNow(id: Id) returns (o: Option<Props>)
      ensures o == Lookup(Show(Abs()), id)
    {
      o := Lookup(confirmed, id);
      ghost var base := o;
      for i := 0 to |pending|
        invariant o == ObjectAfter(base, PendingOps(pending[..i]), id)
      {
        var ops := pending[i].ops;
        assert PendingOps(pending[..i]) + ops[..0] == PendingOps(pending[..i]);
        for j := 0 to |ops|
          invariant o == ObjectAfter(base, PendingOps(pending[..i]) + ops[..j], id)
        {
          if ops[j].id == id { o := Some(ApplyPatch(o, ops[j].p)); }
          assert PendingOps(pending[..i]) + ops[..j + 1] == PendingOps(pending[..i]) + ops[..j] + [ops[j]];
          ObjectAfterConcat(base, PendingOps(pending[..i]) + ops[..j], [ops[j]], id);
        }
        assert ops[..|ops|] == ops;
        PendingOpsAt(pending, i);
      }
      assert pending[..|pending|] == pending;
      ShowAt(Abs(), id);
    }
  }
}
