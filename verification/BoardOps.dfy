/**
 * The board as a fold: a map of maps, changed op by op, where `None` in an op takes a field out. What a fold comes to
 * is told register by register, a register being one field of one object.
 */
module BoardOps {
  import opened Common

  type Id = string
  datatype BoardKind = Pen | Hl | Line | Arrow | Rect | Ellipse | TextBox | Note | Image
  datatype Field = Kind | X | Y | W | H | Pts | Color | Fill | Size | Text | Src | Z | D
  datatype Value = KindOf(kind: BoardKind) | Num(n: real) | Points(pts: seq<int>) | Str(s: string) | Flag(b: bool)

  type Props = map<Field, Value>
  type Patch = map<Field, Option<Value>>
  type Objects = map<Id, Props>
  datatype Op = Op(id: Id, p: Patch)

  function ApplyPatch(target: Option<Props>, patch: Patch): Props {
    var base := if target.Some? then target.value else map[];
    map f | f in base.Keys + patch.Keys && (f in patch ==> patch[f].Some?) ::
      if f in patch then patch[f].value else base[f]
  }

  /** The field holds this number, or none and this one is the default. */
  predicate NumberIs(o: Props, f: Field, default: real, n: real) {
    if f in o && o[f].Num? then o[f] == Num(n) else n == default
  }

  /** A kind makes an object visible; the deleted flag hides it again. */
  predicate IsShown(o: Props) {
    Kind in o && !(D in o && o[D] == Flag(true))
  }

  function ApplyOp(m: Objects, op: Op): Objects {
    m[op.id := ApplyPatch(Lookup(m, op.id), op.p)]
  }

  function ApplyOps(m: Objects, ops: seq<Op>): Objects
    decreases |ops|
  {
    if ops == [] then m else ApplyOps(ApplyOp(m, ops[0]), ops[1..])
  }

  lemma {:induction false} ApplyOpsConcat(m: Objects, a: seq<Op>, b: seq<Op>)
    ensures ApplyOps(m, a + b) == ApplyOps(ApplyOps(m, a), b)
    decreases |a|
  {
    if a == [] {
      assert a + b == b;
    } else {
      assert (a + b)[1..] == a[1..] + b;
      ApplyOpsConcat(ApplyOp(m, a[0]), a[1..], b);
    }
  }

  // ---- one object at a time ----

  /** The same fold, kept to one object: what `refresh` recomputes. */
  function ObjectAfter(o: Option<Props>, ops: seq<Op>, id: Id): Option<Props>
    decreases |ops|
  {
    if ops == [] then o
    else ObjectAfter(if ops[0].id == id then Some(ApplyPatch(o, ops[0].p)) else o, ops[1..], id)
  }

  lemma {:induction false} ObjectAfterConcat(o: Option<Props>, a: seq<Op>, b: seq<Op>, id: Id)
    ensures ObjectAfter(o, a + b, id) == ObjectAfter(ObjectAfter(o, a, id), b, id)
    decreases |a|
  {
    if a == [] {
      assert a + b == b;
    } else {
      assert (a + b)[1..] == a[1..] + b;
      ObjectAfterConcat(if a[0].id == id then Some(ApplyPatch(o, a[0].p)) else o, a[1..], b, id);
    }
  }

  function Ids(ops: seq<Op>): set<Id> {
    set op | op in ops :: op.id
  }

  lemma {:induction false} ObjectUntouched(o: Option<Props>, ops: seq<Op>, id: Id)
    requires id !in Ids(ops)
    ensures ObjectAfter(o, ops, id) == o
  {
    if ops != [] {
      assert ops[0] in ops;
      forall op | op in ops[1..] ensures op.id != id { assert op in ops; }
      ObjectUntouched(o, ops[1..], id);
    }
  }

  lemma {:induction false} LookupAfter(m: Objects, ops: seq<Op>, id: Id)
    ensures Lookup(ApplyOps(m, ops), id) == ObjectAfter(Lookup(m, id), ops, id)
    decreases |ops|
  {
    if ops != [] {
      LookupAfter(ApplyOp(m, ops[0]), ops[1..], id);
    }
  }

  /** Maps that answer every lookup alike are one. */
  lemma LookupsDecide<K(!new), V>(a: map<K, V>, b: map<K, V>)
    requires forall k :: Lookup(a, k) == Lookup(b, k)
    ensures a == b
  {
    forall k ensures k in a <==> k in b { assert Lookup(a, k) == Lookup(b, k); }
    forall k | k in a ensures a[k] == b[k] { assert Lookup(a, k) == Lookup(b, k); }
  }

  // ---- one register at a time ----

  function FieldOf(o: Option<Props>, f: Field): Option<Value> {
    if o.Some? then Lookup(o.value, f) else None
  }

  function Reg(m: Objects, id: Id, f: Field): Option<Value> {
    FieldOf(Lookup(m, id), f)
  }

  /** Whether `ops` write (id, f) and, if so, what the last of them leaves there (`None` inside: removed). */
  function LastWrite(ops: seq<Op>, id: Id, f: Field): Option<Option<Value>> {
    if ops == [] then None
    else
      var later := LastWrite(ops[1..], id, f);
      if later.Some? then later
      else if ops[0].id == id && f in ops[0].p then Some(ops[0].p[f])
      else None
  }

  function Overlay(write: Option<Option<Value>>, under: Option<Value>): Option<Value> {
    if write.Some? then write.value else under
  }

  predicate Writes(ops: seq<Op>, id: Id, f: Field) {
    exists op :: op in ops && op.id == id && f in op.p
  }

  /** Folding ops is last-writer-wins on every register: nothing but the last write, or what was there, remains. */
  lemma {:induction false} RegAfter(m: Objects, ops: seq<Op>, id: Id, f: Field)
    ensures Reg(ApplyOps(m, ops), id, f) == Overlay(LastWrite(ops, id, f), Reg(m, id, f))
    decreases |ops|
  {
    if ops != [] {
      RegAfter(ApplyOp(m, ops[0]), ops[1..], id, f);
    }
  }

  lemma {:induction false} LastWriteConcat(a: seq<Op>, b: seq<Op>, id: Id, f: Field)
    ensures LastWrite(a + b, id, f) == (if LastWrite(b, id, f).Some? then LastWrite(b, id, f) else LastWrite(a, id, f))
  {
    if a == [] {
      assert a + b == b;
    } else {
      assert (a + b)[1..] == a[1..] + b;
      LastWriteConcat(a[1..], b, id, f);
    }
  }

  lemma {:induction false} LastWriteIffWrites(ops: seq<Op>, id: Id, f: Field)
    ensures LastWrite(ops, id, f).Some? <==> Writes(ops, id, f)
  {
    if ops != [] {
      LastWriteIffWrites(ops[1..], id, f);
      assert forall op :: op in ops <==> op == ops[0] || op in ops[1..];
    }
  }

  lemma {:induction false} KeysAfter(m: Objects, ops: seq<Op>)
    ensures ApplyOps(m, ops).Keys == m.Keys + Ids(ops)
    decreases |ops|
  {
    if ops != [] {
      KeysAfter(ApplyOp(m, ops[0]), ops[1..]);
      assert ops == [ops[0]] + ops[1..];
      assert Ids(ops) == {ops[0].id} + Ids(ops[1..]);
    }
  }

  /** Two boards that hold the same in every register (they may differ in objects without any field). */
  ghost predicate SameView(a: Objects, b: Objects) {
    forall id, f :: Reg(a, id, f) == Reg(b, id, f)
  }

  lemma RegistersDecide(a: Objects, b: Objects)
    requires a.Keys == b.Keys && SameView(a, b)
    ensures a == b
  {
    forall id | id in a ensures a[id] == b[id] {
      forall f ensures Lookup(a[id], f) == Lookup(b[id], f) {
        assert Reg(a, id, f) == Reg(b, id, f);
      }
      LookupsDecide(a[id], b[id]);
    }
  }

  lemma SameViewApply(a: Objects, b: Objects, ops: seq<Op>)
    requires SameView(a, b)
    ensures SameView(ApplyOps(a, ops), ApplyOps(b, ops))
  {
    forall id, f ensures Reg(ApplyOps(a, ops), id, f) == Reg(ApplyOps(b, ops), id, f) {
      RegAfter(a, ops, id, f);
      RegAfter(b, ops, id, f);
    }
  }
}
