/** Everyone ends up with the same board, and confirming one's own changes does not disturb what is on screen. */
module BoardConvergence {
  import opened Common
  import opened BoardOps
  import opened BoardListing
  import opened BoardStates

  // ---- confirming a batch of one's own ----

  /** No register was last written differently by the batches before `own` and by `own`, unless a later one decides. */
  ghost predicate ClashFree(before: seq<Op>, own: seq<Op>, after: seq<Op>) {
    forall id, f :: Writes(before, id, f) && Writes(own, id, f) && !Writes(after, id, f) ==>
      LastWrite(before, id, f) == LastWrite(own, id, f)
  }

  lemma ReorderedRegister(m: Objects, a: seq<Op>, b: seq<Op>, c: seq<Op>, id: Id, f: Field)
    ensures Reg(ApplyOps(m, a + b + c), id, f) == Reg(ApplyOps(m, b + a + c), id, f)
      <==> (LastWrite(c, id, f).None? && LastWrite(a, id, f).Some? && LastWrite(b, id, f).Some?
            ==> LastWrite(a, id, f) == LastWrite(b, id, f))
  {
    RegAfter(m, a + b + c, id, f);
    RegAfter(m, b + a + c, id, f);
    LastWriteConcat(a + b, c, id, f);
    LastWriteConcat(b + a, c, id, f);
    LastWriteConcat(a, b, id, f);
    LastWriteConcat(b, a, id, f);
  }

  lemma Reordered(m: Objects, a: seq<Op>, b: seq<Op>, c: seq<Op>)
    ensures ApplyOps(m, a + b + c) == ApplyOps(m, b + a + c) <==> ClashFree(a, b, c)
  {
    forall id, f ensures
      Reg(ApplyOps(m, a + b + c), id, f) == Reg(ApplyOps(m, b + a + c), id, f)
      <==> (Writes(a, id, f) && Writes(b, id, f) && !Writes(c, id, f) ==> LastWrite(a, id, f) == LastWrite(b, id, f))
    {
      ReorderedRegister(m, a, b, c, id, f);
      LastWriteIffWrites(a, id, f);
      LastWriteIffWrites(b, id, f);
      LastWriteIffWrites(c, id, f);
    }
    if ClashFree(a, b, c) {
      KeysAfter(m, a + b + c);
      KeysAfter(m, b + a + c);
      assert Ids(a + b + c) == Ids(b + a + c) by {
        assert forall op :: op in a + b + c <==> op in b + a + c;
      }
      RegistersDecide(ApplyOps(m, a + b + c), ApplyOps(m, b + a + c));
    }
  }

  /**
   * Confirming the app's own pending batch leaves the screen alone exactly when it does not overtake an earlier
   * pending batch that wrote a different value to a register no later one writes.
   */
  lemma ConfirmOwnIffClashFree(b: Board, cid: Cid)
    requires IndexOf(b.pending, cid).Some?
    ensures
      var i := IndexOf(b.pending, cid).value;
      Show(Confirmed(b, b.pending[i].ops, Some(cid))) == Show(b)
      <==> ClashFree(PendingOps(b.pending[..i]), b.pending[i].ops, PendingOps(b.pending[i + 1..]))
  {
    var i := IndexOf(b.pending, cid).value;
    var before, own, after := PendingOps(b.pending[..i]), b.pending[i].ops, PendingOps(b.pending[i + 1..]);
    PendingOpsAt(b.pending, i);
    ApplyOpsConcat(b.confirmed, own, before + after);
    assert own + (before + after) == own + before + after;
    Reordered(b.confirmed, before, own, after);
  }

  lemma NoClash(before: seq<Op>, own: seq<Op>, after: seq<Op>)
    requires before == [] || forall id, f :: !(Writes(before, id, f) && Writes(own, id, f))
    ensures ClashFree(before, own, after)
  {}

  /** In particular: the oldest pending batch, and any batch whose registers the earlier ones leave alone. */
  lemma ConfirmOwnNoFlicker(b: Board, cid: Cid)
    requires IndexOf(b.pending, cid).Some?
    requires
      var i := IndexOf(b.pending, cid).value;
      i == 0 || forall id, f :: !(Writes(PendingOps(b.pending[..i]), id, f) && Writes(b.pending[i].ops, id, f))
    ensures Show(Confirmed(b, b.pending[IndexOf(b.pending, cid).value].ops, Some(cid))) == Show(b)
  {
    var i := IndexOf(b.pending, cid).value;
    assert PendingOps(b.pending[..0]) == [];
    NoClash(PendingOps(b.pending[..i]), b.pending[i].ops, PendingOps(b.pending[i + 1..]));
    ConfirmOwnIffClashFree(b, cid);
  }

  /** Someone else's batch shows register by register, except where this app has a change of its own waiting. */
  lemma OthersLand(b: Board, ops: seq<Op>, id: Id, f: Field)
    ensures Reg(Show(Confirmed(b, ops, None)), id, f) ==
            if Writes(PendingOps(b.pending), id, f) then Reg(Show(b), id, f)
            else Overlay(LastWrite(ops, id, f), Reg(Show(b), id, f))
  {
    var mine := PendingOps(b.pending);
    RegAfter(b.confirmed, mine, id, f);
    RegAfter(ApplyOps(b.confirmed, ops), mine, id, f);
    RegAfter(b.confirmed, ops, id, f);
    LastWriteIffWrites(mine, id, f);
  }

  lemma PendingWrites(pending: seq<Batch>, q: nat)
    requires q < |pending|
    ensures forall op :: op in pending[q].ops ==> op in PendingOps(pending)
  {
    PendingOpsAt(pending, q);
  }

  /** A pending batch folded in while it stays pending, as a catch-up reply does: the screen does not change. */
  lemma FetchOwnNoFlicker(b: Board, q: nat)
    requires q < |b.pending|
    ensures Show(Confirmed(b, b.pending[q].ops, None)) == Show(b)
  {
    var ops, mine := b.pending[q].ops, PendingOps(b.pending);
    var c := Confirmed(b, ops, None);
    PendingWrites(b.pending, q);
    forall id, f ensures Reg(Show(c), id, f) == Reg(Show(b), id, f) {
      OthersLand(b, ops, id, f);
      LastWriteIffWrites(ops, id, f);
    }
    KeysAfter(b.confirmed, ops);
    KeysAfter(c.confirmed, mine);
    KeysAfter(b.confirmed, mine);
    assert Ids(ops) <= Ids(mine);
    RegistersDecide(Show(c), Show(b));
  }

  // ---- whole runs ----

  datatype Event =
    | Load(objects: Objects)
    | Clear
    | Confirm(ops: seq<Op>, cid: Option<Cid>)
    | Add(newCid: Cid, newOps: seq<Op>)
    | Drop(oldCid: Cid)

  function After(b: Board, e: Event): Board {
    match e
    case Load(objects) => Loaded(b, objects)
    case Clear => Board(map[], [])
    case Confirm(ops, cid) => Confirmed(b, ops, cid)
    case Add(cid, ops) => Added(b, cid, ops)
    case Drop(cid) => Dropped(b, cid)
  }

  function Run(b: Board, events: seq<Event>): Board
    decreases |events|
  {
    if events == [] then b else Run(After(b, events[0]), events[1..])
  }

  /** What the server said, with this app's own batch ids and local changes taken out. */
  function FromServer(events: seq<Event>): seq<Event> {
    if events == [] then []
    else
      var rest := FromServer(events[1..]);
      match events[0]
      case Add(_, _) => rest
      case Drop(_) => rest
      case Confirm(ops, _) => [Confirm(ops, None)] + rest
      case _ => [events[0]] + rest
  }

  lemma {:induction false} OnlyTheServerConfirms(b: Board, c: Board, events: seq<Event>)
    requires b.confirmed == c.confirmed
    ensures Run(b, events).confirmed == Run(c, FromServer(events)).confirmed
    decreases |events|
  {
    if events != [] {
      var tail := events[1..];
      match events[0]
      case Add(_, _) => OnlyTheServerConfirms(After(b, events[0]), c, tail);
      case Drop(_) => OnlyTheServerConfirms(After(b, events[0]), c, tail);
      case Confirm(ops, _) =>
        assert FromServer(events)[1..] == FromServer(tail);
        OnlyTheServerConfirms(After(b, events[0]), After(c, Confirm(ops, None)), tail);
      case _ =>
        assert FromServer(events)[1..] == FromServer(tail);
        OnlyTheServerConfirms(After(b, events[0]), After(c, events[0]), tail);
    }
  }

  /** Two apps the server told the same, with nothing of their own waiting, list the same objects in the same order. */
  lemma Convergence(mine: seq<Event>, theirs: seq<Event>, s: seq<Shown>, t: seq<Shown>)
    requires FromServer(mine) == FromServer(theirs)
    requires Run(Board(map[], []), mine).pending == [] && Run(Board(map[], []), theirs).pending == []
    requires Listing(Show(Run(Board(map[], []), mine)), s) && Listing(Show(Run(Board(map[], []), theirs)), t)
    ensures s == t
  {
    OnlyTheServerConfirms(Board(map[], []), Board(map[], []), mine);
    OnlyTheServerConfirms(Board(map[], []), Board(map[], []), theirs);
    SameViewSameListing(Show(Run(Board(map[], []), mine)), s, Show(Run(Board(map[], []), theirs)), t);
  }

  // ---- snapshots, of apps for encrypted boards and of the server for plain ones ----

  predicate Hidden(m: Objects, id: Id) {
    id in m && !IsShown(m[id])
  }

  /** Every field `o` had is written again. */
  ghost predicate Rewritten(o: Props, ops: seq<Op>, id: Id) {
    forall f :: f in o ==> Writes(ops, id, f)
  }

  /** After `ops` on top of `o` (or on nothing) the object has no kind, or is deleted. */
  ghost predicate StaysHidden(o: Option<Props>, ops: seq<Op>, id: Id) {
    || Overlay(LastWrite(ops, id, Kind), FieldOf(o, Kind)) == None
    || Overlay(LastWrite(ops, id, D), FieldOf(o, D)) == Some(Flag(true))
  }

  /** What the ops after a snapshot must do to an object the snapshot left out, for nobody to notice. */
  ghost predicate LeftOutUnnoticed(o: Props, ops: seq<Op>, id: Id) {
    Rewritten(o, ops, id) || (StaysHidden(Some(o), ops, id) && StaysHidden(None, ops, id))
  }

  lemma {:induction false} FieldAfter(o: Option<Props>, ops: seq<Op>, id: Id, f: Field)
    ensures FieldOf(ObjectAfter(o, ops, id), f) == Overlay(LastWrite(ops, id, f), FieldOf(o, f))
    decreases |ops|
  {
    if ops != [] {
      FieldAfter(if ops[0].id == id then Some(ApplyPatch(o, ops[0].p)) else o, ops[1..], id, f);
    }
  }

  predicate VisibleObject(o: Option<Props>) {
    o.Some? && IsShown(o.value)
  }

  predicate LooksSame(a: Option<Props>, b: Option<Props>) {
    VisibleObject(a) == VisibleObject(b) && (VisibleObject(a) ==> a == b)
  }

  lemma HiddenAfter(o: Option<Props>, ops: seq<Op>, id: Id)
    ensures VisibleObject(ObjectAfter(o, ops, id)) <==> !StaysHidden(o, ops, id)
  {
    FieldAfter(o, ops, id, Kind);
    FieldAfter(o, ops, id, D);
  }

  /** One object left out, deleted or not: looks the same to both apps exactly when its loss goes unnoticed. */
  lemma LeftOutObject(o: Props, ops: seq<Op>, id: Id)
    ensures LooksSame(ObjectAfter(Some(o), ops, id), ObjectAfter(None, ops, id)) <==> LeftOutUnnoticed(o, ops, id)
  {
    var full, bare := ObjectAfter(Some(o), ops, id), ObjectAfter(None, ops, id);
    HiddenAfter(Some(o), ops, id);
    HiddenAfter(None, ops, id);
    forall f ensures FieldOf(full, f) == Overlay(LastWrite(ops, id, f), FieldOf(Some(o), f))
             ensures FieldOf(bare, f) == Overlay(LastWrite(ops, id, f), None)
             ensures LastWrite(ops, id, f).Some? <==> Writes(ops, id, f)
    {
      FieldAfter(Some(o), ops, id, f);
      FieldAfter(None, ops, id, f);
      LastWriteIffWrites(ops, id, f);
    }
    if VisibleObject(full) && VisibleObject(bare) {
      if full == bare {
        forall f | f in o ensures Writes(ops, id, f) {
          assert FieldOf(full, f) == FieldOf(bare, f);
          assert FieldOf(Some(o), f).Some?;
        }
      }
      if Rewritten(o, ops, id) {
        forall f ensures Lookup(full.value, f) == Lookup(bare.value, f) {
          assert FieldOf(full, f) == FieldOf(bare, f);
        }
        LookupsDecide(full.value, bare.value);
      }
    } else if Rewritten(o, ops, id) {
      assert FieldOf(full, Kind) == FieldOf(bare, Kind) && FieldOf(full, D) == FieldOf(bare, D);
    }
  }

  lemma ListingsAgreeIff(a: Objects, s: seq<Shown>, b: Objects, t: seq<Shown>)
    requires Listing(a, s) && Listing(b, t)
    ensures s == t <==> forall id :: LooksSame(Lookup(a, id), Lookup(b, id))
  {
    if s == t {
      forall id ensures LooksSame(Lookup(a, id), Lookup(b, id)) {
        if VisibleObject(Lookup(a, id)) { assert Visible(a, Shown(id, a[id])); assert Shown(id, a[id]) in t; }
        if VisibleObject(Lookup(b, id)) { assert Visible(b, Shown(id, b[id])); assert Shown(id, b[id]) in s; }
      }
    }
    if forall id :: LooksSame(Lookup(a, id), Lookup(b, id)) {
      forall x ensures Visible(a, x) <==> Visible(b, x) {
        assert LooksSame(Lookup(a, x.id), Lookup(b, x.id));
      }
      SortedUnique(s, t);
    }
  }

  /** One object, after the ops on everything and after the same ops on a snapshot. */
  lemma SnapshotLooksSame(m: Objects, ops: seq<Op>, id: Id)
    ensures LooksSame(Lookup(ApplyOps(m, ops), id), Lookup(ApplyOps(SnapshotOf(m), ops), id))
            <==> (Hidden(m, id) && id in Ids(ops) ==> LeftOutUnnoticed(m[id], ops, id))
  {
    LookupAfter(m, ops, id);
    LookupAfter(SnapshotOf(m), ops, id);
    if Hidden(m, id) {
      assert Lookup(SnapshotOf(m), id) == None;
      if id in Ids(ops) {
        LeftOutObject(m[id], ops, id);
      } else {
        ObjectUntouched(Some(m[id]), ops, id);
        ObjectUntouched(None, ops, id);
      }
    } else {
      assert Lookup(SnapshotOf(m), id) == Lookup(m, id);
    }
  }

  /** Every object a snapshot left out goes unnoticed. */
  ghost predicate NobodyNotices(m: Objects, ops: seq<Op>) {
    forall id :: Hidden(m, id) && id in Ids(ops) ==> LeftOutUnnoticed(m[id], ops, id)
  }

  /** Exactly then an app that starts from a snapshot and folds the rest lists what one that folded all does. */
  lemma SnapshotExact(m: Objects, ops: seq<Op>, s: seq<Shown>, t: seq<Shown>)
    requires Listing(ApplyOps(m, ops), s) && Listing(ApplyOps(SnapshotOf(m), ops), t)
    ensures s == t <==> NobodyNotices(m, ops)
  {
    forall id ensures LooksSame(Lookup(ApplyOps(m, ops), id), Lookup(ApplyOps(SnapshotOf(m), ops), id))
                      <==> (Hidden(m, id) && id in Ids(ops) ==> LeftOutUnnoticed(m[id], ops, id))
    {
      SnapshotLooksSame(m, ops, id);
    }
    ListingsAgreeIff(ApplyOps(m, ops), s, ApplyOps(SnapshotOf(m), ops), t);
  }

  lemma SnapshotsAgreeIff(a: Objects, b: Objects)
    ensures SnapshotOf(a) == SnapshotOf(b) <==> forall id :: LooksSame(Lookup(a, id), Lookup(b, id))
  {
    forall id ensures Lookup(SnapshotOf(a), id) == (if VisibleObject(Lookup(a, id)) then Lookup(a, id) else None)
              ensures Lookup(SnapshotOf(b), id) == (if VisibleObject(Lookup(b, id)) then Lookup(b, id) else None)
    {}
    if SnapshotOf(a) == SnapshotOf(b) {
      forall id ensures LooksSame(Lookup(a, id), Lookup(b, id)) {
        assert Lookup(SnapshotOf(a), id) == Lookup(SnapshotOf(b), id);
      }
    }
    if forall id :: LooksSame(Lookup(a, id), Lookup(b, id)) {
      forall id ensures Lookup(SnapshotOf(a), id) == Lookup(SnapshotOf(b), id) {
        assert LooksSame(Lookup(a, id), Lookup(b, id));
      }
      LookupsDecide(SnapshotOf(a), SnapshotOf(b));
    }
  }

  /** And the server's next snapshot, folded from its last one, is the snapshot of everything folded, exactly then. */
  lemma CompactionExact(m: Objects, ops: seq<Op>)
    ensures SnapshotOf(ApplyOps(SnapshotOf(m), ops)) == SnapshotOf(ApplyOps(m, ops)) <==> NobodyNotices(m, ops)
  {
    forall id ensures LooksSame(Lookup(ApplyOps(m, ops), id), Lookup(ApplyOps(SnapshotOf(m), ops), id))
                      <==> (Hidden(m, id) && id in Ids(ops) ==> LeftOutUnnoticed(m[id], ops, id))
    {
      SnapshotLooksSame(m, ops, id);
    }
    SnapshotsAgreeIff(ApplyOps(m, ops), ApplyOps(SnapshotOf(m), ops));
  }

  /** In particular, when no later op names an object that was hidden at the snapshot. */
  lemma SnapshotEnough(m: Objects, ops: seq<Op>, s: seq<Shown>, t: seq<Shown>)
    requires forall id :: Hidden(m, id) ==> id !in Ids(ops)
    requires Listing(ApplyOps(m, ops), s) && Listing(ApplyOps(SnapshotOf(m), ops), t)
    ensures s == t
  {
    SnapshotExact(m, ops, s, t);
  }

  /** It can fail: undoing a delete after a snapshot brings the object back only for those who kept it. */
  lemma SnapshotLosesUndo(id: Id)
    ensures
      var deleted := map[id := map[Kind := KindOf(Note), D := Flag(true)]];
      var undo := [Op(id, map[D := None])];
      VisibleObject(Lookup(ApplyOps(deleted, undo), id))
        && !VisibleObject(Lookup(ApplyOps(SnapshotOf(deleted), undo), id))
  {
    var deleted: Objects := map[id := map[Kind := KindOf(Note), D := Flag(true)]];
    var undo := [Op(id, map[D := None])];
    LookupAfter(deleted, undo, id);
    LookupAfter(SnapshotOf(deleted), undo, id);
    HiddenAfter(Lookup(deleted, id), undo, id);
    HiddenAfter(None, undo, id);
  }
}
