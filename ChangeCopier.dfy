/**
 * Rebuilding a database change so that the objects it refers to are copies in another
 * transaction, keeping every other field of the change as it was.
 */
module ChangeCopier {
  import opened Wrappers

  /** A database object, by its object ID. */
  datatype JObject = JObject(id: nat)
  /** A transaction that objects live in. */
  datatype JTransaction = JTransaction(txId: nat)
  /** The bookkeeping that lets the copies made by one copier avoid copying an object twice. */
  datatype CopyState = CopyState(stateId: nat)

  /** A value held in a change: null, a database object, or any other (non-object) value. */
  datatype Value = Null | Ref(obj: JObject) | Plain(datum: nat)

  /** The fourteen kinds of database change. */
  datatype Change =
    | ObjectCreate(target: Value)
    | ObjectDelete(target: Value)
    | ListFieldAdd(target: Value, storageId: int, fieldName: string, index: int, element: Value)
    | ListFieldClear(target: Value, storageId: int, fieldName: string)
    | ListFieldRemove(target: Value, storageId: int, fieldName: string, index: int, element: Value)
    | ListFieldReplace(target: Value, storageId: int, fieldName: string, index: int, oldValue: Value, newValue: Value)
    | MapFieldAdd(target: Value, storageId: int, fieldName: string, key: Value, value: Value)
    | MapFieldClear(target: Value, storageId: int, fieldName: string)
    | MapFieldRemove(target: Value, storageId: int, fieldName: string, key: Value, value: Value)
    | MapFieldReplace(target: Value, storageId: int, fieldName: string, key: Value, oldValue: Value, newValue: Value)
    | SetFieldAdd(target: Value, storageId: int, fieldName: string, element: Value)
    | SetFieldClear(target: Value, storageId: int, fieldName: string)
    | SetFieldRemove(target: Value, storageId: int, fieldName: string, element: Value)
    | SimpleFieldChange(target: Value, storageId: int, fieldName: string, oldValue: Value, newValue: Value)

  /**
   * A change copier: the destination transaction, its one copy state, and the operations
   * of the object layer it relies on, which are not part of this model: whether an object
   * exists, looking an object up in a transaction, and `copyTo`.
   */
  datatype Copier = Copier(
    dest: JTransaction,
    copyState: CopyState,
    objectExists: JObject -> bool,
    lookup: (JTransaction, JObject) -> JObject,
    copyTo: (JObject, JTransaction, CopyState) -> JObject)

  const NullDestError: string := "null dest"
  const NullObjectError: string := "null jobj"

  /** The copy state a new copier starts with. */
  const InitialCopyState: CopyState := CopyState(0)

  /** The constructor: a null destination is refused; otherwise a copier with a new copy state. */
  function NewCopier(dest: Option<JTransaction>, objectExists: JObject -> bool,
                     lookup: (JTransaction, JObject) -> JObject,
                     copyTo: (JObject, JTransaction, CopyState) -> JObject): (r: Result<Copier>)
    ensures dest.None? <==> r == Failure(NullDestError)
    ensures dest.Some? ==> r.Success? && r.value.dest == dest.value && r.value.copyState == InitialCopyState
    ensures dest.Some? ==> r.value.objectExists == objectExists && r.value.lookup == lookup && r.value.copyTo == copyTo
  {
    if dest.None? then Failure(NullDestError)
    else Success(Copier(dest.value, InitialCopyState, objectExists, lookup, copyTo))
  }

  /** `getDestinationTransaction()`. */
  function DestinationTransaction(c: Copier): (t: JTransaction)
    ensures t == c.dest
  {
    c.dest
  }

  /** `getCopyState()`. */
  function GetCopyState(c: Copier): (s: CopyState)
    ensures s == c.copyState
  {
    c.copyState
  }

  /**
   * The object `copy` produces for a non-null object: its copy in the destination, made
   * with the copier's copy state, or only its counterpart there when it does not exist.
   */
  function CopyObject(c: Copier, jobj: JObject): (r: JObject)
    ensures c.objectExists(jobj) ==> r == c.copyTo(jobj, c.dest, c.copyState)
    ensures !c.objectExists(jobj) ==> r == c.lookup(c.dest, jobj)
  {
    if !c.objectExists(jobj) then c.lookup(c.dest, jobj) else c.copyTo(jobj, c.dest, c.copyState)
  }

  /**
   * `copy(jobj)`: null is refused; an object that does not exist is only looked up in the
   * destination; an existing one is copied there with the copier's own copy state.
   */
  function Copy(c: Copier, jobj: Option<JObject>): (r: Result<JObject>)
    ensures jobj.None? ==> r == Failure(NullObjectError)
    ensures jobj.Some? && !c.objectExists(jobj.value) ==> r == Success(c.lookup(c.dest, jobj.value))
    ensures jobj.Some? && c.objectExists(jobj.value) ==> r == Success(c.copyTo(jobj.value, c.dest, c.copyState))
  {
    if jobj.None? then Failure(NullObjectError) else Success(CopyObject(c, jobj.value))
  }

  /** `copyIfReference(v)`: database objects are replaced by their copies, every other value (null included) is kept. */
  function CopyIfReference(c: Copier, v: Value): (r: Value)
    ensures !v.Ref? ==> r == v
    ensures v.Ref? ==> r.Ref? && Copy(c, Some(v.obj)) == Success(r.obj)
  {
    if v.Ref? then Ref(CopyObject(c, v.obj)) else v
  }

  /** The value slots of a change, in the order its constructor takes them. */
  function Values(ch: Change): seq<Value> {
    match ch
    case ObjectCreate(o) => [o]
    case ObjectDelete(o) => [o]
    case ListFieldAdd(o, _, _, _, e) => [o, e]
    case ListFieldClear(o, _, _) => [o]
    case ListFieldRemove(o, _, _, _, e) => [o, e]
    case ListFieldReplace(o, _, _, _, ov, nv) => [o, ov, nv]
    case MapFieldAdd(o, _, _, k, v) => [o, k, v]
    case MapFieldClear(o, _, _) => [o]
    case MapFieldRemove(o, _, _, k, v) => [o, k, v]
    case MapFieldReplace(o, _, _, k, ov, nv) => [o, k, ov, nv]
    case SetFieldAdd(o, _, _, e) => [o, e]
    case SetFieldClear(o, _, _) => [o]
    case SetFieldRemove(o, _, _, e) => [o, e]
    case SimpleFieldChange(o, _, _, ov, nv) => [o, ov, nv]
  }

  /** The kind of a change. */
  datatype Kind =
    | KObjectCreate | KObjectDelete
    | KListFieldAdd | KListFieldClear | KListFieldRemove | KListFieldReplace
    | KMapFieldAdd | KMapFieldClear | KMapFieldRemove | KMapFieldReplace
    | KSetFieldAdd | KSetFieldClear | KSetFieldRemove
    | KSimpleFieldChange

  /** Everything in a change other than its values: the kind, and the field's storage ID, name and list index where the kind has them. */
  datatype Shape = Shape(kind: Kind, storageId: int, fieldName: string, index: int)

  function ShapeOf(ch: Change): Shape {
    match ch
    case ObjectCreate(_) => Shape(KObjectCreate, 0, "", 0)
    case ObjectDelete(_) => Shape(KObjectDelete, 0, "", 0)
    case ListFieldAdd(_, sid, f, i, _) => Shape(KListFieldAdd, sid, f, i)
    case ListFieldClear(_, sid, f) => Shape(KListFieldClear, sid, f, 0)
    case ListFieldRemove(_, sid, f, i, _) => Shape(KListFieldRemove, sid, f, i)
    case ListFieldReplace(_, sid, f, i, _, _) => Shape(KListFieldReplace, sid, f, i)
    case MapFieldAdd(_, sid, f, _, _) => Shape(KMapFieldAdd, sid, f, 0)
    case MapFieldClear(_, sid, f) => Shape(KMapFieldClear, sid, f, 0)
    case MapFieldRemove(_, sid, f, _, _) => Shape(KMapFieldRemove, sid, f, 0)
    case MapFieldReplace(_, sid, f, _, _, _) => Shape(KMapFieldReplace, sid, f, 0)
    case SetFieldAdd(_, sid, f, _) => Shape(KSetFieldAdd, sid, f, 0)
    case SetFieldClear(_, sid, f) => Shape(KSetFieldClear, sid, f, 0)
    case SetFieldRemove(_, sid, f, _) => Shape(KSetFieldRemove, sid, f, 0)
    case SimpleFieldChange(_, sid, f, _, _) => Shape(KSimpleFieldChange, sid, f, 0)
  }

  /** The number of value slots each kind of change has. */
  function Arity(k: Kind): nat {
    match k
    case KObjectCreate => 1
    case KObjectDelete => 1
    case KListFieldAdd => 2
    case KListFieldClear => 1
    case KListFieldRemove => 2
    case KListFieldReplace => 3
    case KMapFieldAdd => 3
    case KMapFieldClear => 1
    case KMapFieldRemove => 3
    case KMapFieldReplace => 4
    case KSetFieldAdd => 2
    case KSetFieldClear => 1
    case KSetFieldRemove => 2
    case KSimpleFieldChange => 3
  }

  /** Builds the change of the given shape from its values: the inverse of taking a change apart. */
  function Assemble(s: Shape, vs: seq<Value>): (ch: Change)
    requires |vs| == Arity(s.kind)
  {
    match s.kind
    case KObjectCreate => ObjectCreate(vs[0])
    case KObjectDelete => ObjectDelete(vs[0])
    case KListFieldAdd => ListFieldAdd(vs[0], s.storageId, s.fieldName, s.index, vs[1])
    case KListFieldClear => ListFieldClear(vs[0], s.storageId, s.fieldName)
    case KListFieldRemove => ListFieldRemove(vs[0], s.storageId, s.fieldName, s.index, vs[1])
    case KListFieldReplace => ListFieldReplace(vs[0], s.storageId, s.fieldName, s.index, vs[1], vs[2])
    case KMapFieldAdd => MapFieldAdd(vs[0], s.storageId, s.fieldName, vs[1], vs[2])
    case KMapFieldClear => MapFieldClear(vs[0], s.storageId, s.fieldName)
    case KMapFieldRemove => MapFieldRemove(vs[0], s.storageId, s.fieldName, vs[1], vs[2])
    case KMapFieldReplace => MapFieldReplace(vs[0], s.storageId, s.fieldName, vs[1], vs[2], vs[3])
    case KSetFieldAdd => SetFieldAdd(vs[0], s.storageId, s.fieldName, vs[1])
    case KSetFieldClear => SetFieldClear(vs[0], s.storageId, s.fieldName)
    case KSetFieldRemove => SetFieldRemove(vs[0], s.storageId, s.fieldName, vs[1])
    case KSimpleFieldChange => SimpleFieldChange(vs[0], s.storageId, s.fieldName, vs[1], vs[2])
  }

  /** A change is exactly its shape together with its values. */
  lemma AssembleInvertsTakingApart(ch: Change)
    ensures |Values(ch)| == Arity(ShapeOf(ch).kind)
    ensures Assemble(ShapeOf(ch), Values(ch)) == ch
  {
  }

  /** Applies `CopyIfReference` to each value, keeping the order. */
  function CopyAll(c: Copier, vs: seq<Value>): (r: seq<Value>)
    ensures |r| == |vs| && forall i :: 0 <= i < |vs| ==> r[i] == CopyIfReference(c, vs[i])
  {
    if vs == [] then [] else [CopyIfReference(c, vs[0])] + CopyAll(c, vs[1..])
  }

  /**
   * The fourteen `case*` methods: the copied change has the same kind and the same
   * storage ID, field name and list index, and each of its values, slot by slot (so an
   * old value stays the old value and a new value the new one), is the original value
   * passed through `copyIfReference`.
   */
  function CopyChange(c: Copier, ch: Change): (r: Change)
    ensures ShapeOf(r) == ShapeOf(ch)
    ensures Values(r) == CopyAll(c, Values(ch))
  {
    match ch
    case ObjectCreate(o) => ObjectCreate(CopyIfReference(c, o))
    case ObjectDelete(o) => ObjectDelete(CopyIfReference(c, o))
    case ListFieldAdd(o, sid, f, i, e) => ListFieldAdd(CopyIfReference(c, o), sid, f, i, CopyIfReference(c, e))
    case ListFieldClear(o, sid, f) => ListFieldClear(CopyIfReference(c, o), sid, f)
    case ListFieldRemove(o, sid, f, i, e) => ListFieldRemove(CopyIfReference(c, o), sid, f, i, CopyIfReference(c, e))
    case ListFieldReplace(o, sid, f, i, ov, nv) =>
      ListFieldReplace(CopyIfReference(c, o), sid, f, i, CopyIfReference(c, ov), CopyIfReference(c, nv))
    case MapFieldAdd(o, sid, f, k, v) => MapFieldAdd(CopyIfReference(c, o), sid, f, CopyIfReference(c, k), CopyIfReference(c, v))
    case MapFieldClear(o, sid, f) => MapFieldClear(CopyIfReference(c, o), sid, f)
    case MapFieldRemove(o, sid, f, k, v) => MapFieldRemove(CopyIfReference(c, o), sid, f, CopyIfReference(c, k), CopyIfReference(c, v))
    case MapFieldReplace(o, sid, f, k, ov, nv) =>
      MapFieldReplace(CopyIfReference(c, o), sid, f, CopyIfReference(c, k), CopyIfReference(c, ov), CopyIfReference(c, nv))
    case SetFieldAdd(o, sid, f, e) => SetFieldAdd(CopyIfReference(c, o), sid, f, CopyIfReference(c, e))
    case SetFieldClear(o, sid, f) => SetFieldClear(CopyIfReference(c, o), sid, f)
    case SetFieldRemove(o, sid, f, e) => SetFieldRemove(CopyIfReference(c, o), sid, f, CopyIfReference(c, e))
    case SimpleFieldChange(o, sid, f, ov, nv) =>
      SimpleFieldChange(CopyIfReference(c, o), sid, f, CopyIfReference(c, ov), CopyIfReference(c, nv))
  }

  /** The copied change is the original's shape filled with the copied values, whatever its kind. */
  lemma CopyChangeIsAssembled(c: Copier, ch: Change)
    ensures |CopyAll(c, Values(ch))| == Arity(ShapeOf(ch).kind)
    ensures CopyChange(c, ch) == Assemble(ShapeOf(ch), CopyAll(c, Values(ch)))
  {
    AssembleInvertsTakingApart(ch);
    AssembleInvertsTakingApart(CopyChange(c, ch));
  }

  /** A change that refers to no database object is copied as it is. */
  lemma CopyChangeWithoutReferences(c: Copier, ch: Change)
    requires forall v :: v in Values(ch) ==> !v.Ref?
    ensures CopyChange(c, ch) == ch
  {
    AssembleInvertsTakingApart(ch);
    CopyChangeIsAssembled(c, ch);
    assert CopyAll(c, Values(ch)) == Values(ch);
  }

  /** Every database object the copied change refers to was produced by `copy` from one the original refers to. */
  lemma CopiedReferencesComeFromCopy(c: Copier, ch: Change, i: nat)
    requires i < |Values(CopyChange(c, ch))| && Values(CopyChange(c, ch))[i].Ref?
    ensures i < |Values(ch)| && Values(ch)[i].Ref?
    ensures Copy(c, Some(Values(ch)[i].obj)) == Success(Values(CopyChange(c, ch))[i].obj)
  {
  }
}
