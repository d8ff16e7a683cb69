/**
 A transaction: an undo log over heap cells and intern tables. `Txn` is the value of a
 transaction, with one function per recording operation; `Transaction` is the object that the
 runtime updates in place, each method proved against the function of the same purpose.
 */
module Transactions {
  import opened Options
  import opened ManagedHeap
  import opened InternTables
  import opened Relocation

  datatype FieldValue = FieldValue(bits: Word64, kind: Kind, isVolatile: bool)

  /** Old field values of one object, by offset. Nothing is logged for a new object. */
  datatype ObjectLog = ObjectLog(isNewObject: bool, fieldValues: map<nat, FieldValue>) {
    function LogValue(offset: nat, fv: FieldValue): ObjectLog {
      if isNewObject || offset in fieldValues then this
      else this.(fieldValues := fieldValues[offset := fv])
    }
  }

  /** Old element values of one primitive array, by index. */
  datatype ArrayLog = ArrayLog(isNewArray: bool, arrayValues: map<nat, Word64>) {
    function LogValue(index: nat, bits: Word64): ArrayLog {
      if isNewArray || index in arrayValues then this
      else this.(arrayValues := arrayValues[index := bits])
    }
  }

  const EMPTY_OBJECT_LOG := ObjectLog(false, map[])
  const EMPTY_ARRAY_LOG := ArrayLog(false, map[])

  datatype Txn = Txn(
    strict: bool,
    root: Addr,
    objectLogs: map<Addr, ObjectLog>,
    arrayLogs: map<Addr, ArrayLog>,
    internLogs: seq<InternLog>,
    aborted: bool,
    abortMessage: string,
    rollingBack: bool,
    lastAllocated: Addr)

  function NewTxn(strict: bool, root: Addr): Txn {
    Txn(strict, root, map[], map[], [], false, "", false, NULL)
  }

  // --- Recording -----------------------------------------------------------------------------

  function ObjectLogOf(t: Txn, obj: Addr): ObjectLog {
    if obj in t.objectLogs then t.objectLogs[obj] else EMPTY_OBJECT_LOG
  }

  function ArrayLogOf(t: Txn, arr: Addr): ArrayLog {
    if arr in t.arrayLogs then t.arrayLogs[arr] else EMPTY_ARRAY_LOG
  }

  function RecordField(t: Txn, obj: Addr, offset: nat, fv: FieldValue): Txn {
    if obj == t.lastAllocated then t
    else t.(objectLogs := t.objectLogs[obj := ObjectLogOf(t, obj).LogValue(offset, fv)])
  }

  function RecordElem(t: Txn, arr: Addr, index: nat, bits: Word64): Txn {
    if arr == t.lastAllocated then t
    else t.(arrayLogs := t.arrayLogs[arr := ArrayLogOf(t, arr).LogValue(index, bits)])
  }

  /** Records the value a cell holds before it is overwritten. */
  function RecordWrite(t: Txn, loc: Loc, old_: Cell, isVolatile: bool): Txn
    requires Fits(old_.kind, old_.value)
  {
    var bits := Encode(old_.kind, old_.value);
    match loc
    case Field(obj, offset) => RecordField(t, obj, offset, FieldValue(bits, old_.kind, isVolatile))
    case Elem(arr, index) => RecordElem(t, arr, index, bits)
  }

  /** Object arrays are tracked with the objects because their elements are written as fields. */
  function RecordNew(t: Txn, addr: Addr, header: Header): Txn {
    var t' := t.(lastAllocated := addr);
    if header.shape.PrimitiveArray? then
      t'.(arrayLogs := t.arrayLogs[addr := ArrayLog(true, map[])])
    else
      t'.(objectLogs := t.objectLogs[addr := ObjectLog(true, map[])])
  }

  /** Only a transaction that has not been aborted yet keeps the message. */
  function Aborted(t: Txn, message: string): Txn {
    if t.aborted then t else t.(aborted := true, abortMessage := message)
  }

  predicate ObjectNeedsRecords(t: Txn, obj: Addr) {
    obj != t.lastAllocated && !ObjectLogOf(t, obj).isNewObject
  }

  predicate ArrayNeedsRecords(t: Txn, arr: Addr) {
    arr != t.lastAllocated && !ArrayLogOf(t, arr).isNewArray
  }

  /** Recording anything about an object that needs no records changes nothing. */
  lemma NoRecordsNeeded(t: Txn, obj: Addr, at: nat, fv: FieldValue)
    ensures !ObjectNeedsRecords(t, obj) ==> RecordField(t, obj, at, fv) == t
    ensures !ArrayNeedsRecords(t, obj) ==> RecordElem(t, obj, at, fv.bits) == t
  {
  }

  /** An object allocated in a transaction needs no records there, and still none after the next allocation. */
  lemma NewNeedsNoRecords(t: Txn, addr: Addr, header: Header, next: Addr, nextHeader: Header)
    requires next != addr
    ensures var t' := RecordNew(RecordNew(t, addr, header), next, nextHeader);
            if header.shape.PrimitiveArray? then !ArrayNeedsRecords(t', addr) else !ObjectNeedsRecords(t', addr)
    ensures !ObjectNeedsRecords(RecordNew(t, addr, header), addr)
    ensures !ArrayNeedsRecords(RecordNew(t, addr, header), addr)
    ensures forall a :: a != addr && a != t.lastAllocated ==>
              (ObjectNeedsRecords(RecordNew(t, addr, header), a) <==> ObjectNeedsRecords(t, a))
    ensures forall a :: a != addr && a != t.lastAllocated ==>
              (ArrayNeedsRecords(RecordNew(t, addr, header), a) <==> ArrayNeedsRecords(t, a))
  {
  }

  /** The first abort decides the message, and nothing else changes. */
  lemma FirstAbortWins(t: Txn, first: string, second: string)
    ensures var t' := Aborted(t, first);
            && t'.aborted && t'.abortMessage == (if t.aborted then t.abortMessage else first)
            && t' == t.(aborted := t'.aborted, abortMessage := t'.abortMessage)
            && Aborted(t', second) == t'
  {
  }

  /** Records the first `|words|` elements of an array one after another. */
  function RecordElems(t: Txn, arr: Addr, words: seq<Word64>): Txn {
    if words == [] then t
    else
      var n := |words| - 1;
      RecordElem(RecordElems(t, arr, words[..n]), arr, n, words[n])
  }

  lemma {:induction false} NoElementRecordsNeeded(t: Txn, arr: Addr, words: seq<Word64>)
    requires !ArrayNeedsRecords(t, arr)
    ensures RecordElems(t, arr, words) == t
  {
    if words != [] {
      var n := |words| - 1;
      NoElementRecordsNeeded(t, arr, words[..n]);
      NoRecordsNeeded(t, arr, n, FieldValue(words[n], I64, false));
    }
  }

  /** Writes to boot image objects, and in strict mode to classes other than the root, are refused. */
  predicate WriteConstraint(t: Txn, obj: Addr, header: Header) {
    header.inBootImage || (t.strict && header.shape.ClassObject? && obj != t.root)
  }

  // --- Undoing ---------------------------------------------------------------------------------

  /** The class field and the length of an array are never rolled back. */
  predicate KeptOnUndo(header: Header, offset: nat) {
    offset == CLASS_OFFSET || (header.IsArray() && offset == LENGTH_OFFSET)
  }

  function ObjectEntry(log: ObjectLog, header: Header, offset: nat): Option<Cell> {
    if offset in log.fieldValues && !KeptOnUndo(header, offset) then
      var fv := log.fieldValues[offset];
      Some(Cell(fv.kind, Decode(fv.kind, fv.bits)))
    else None
  }

  function ArrayEntry(log: ArrayLog, header: Header, index: nat): Option<Cell> {
    if index in log.arrayValues && header.shape.PrimitiveArray? then
      Some(Cell(header.shape.elem, Decode(header.shape.elem, log.arrayValues[index])))
    else None
  }

  /** What rolling the transaction back writes to a location, if anything. */
  function Recorded(t: Txn, headers: map<Addr, Header>, loc: Loc): Option<Cell> {
    if loc.obj !in headers then None else
    match loc
    case Field(obj, offset) => ObjectEntry(ObjectLogOf(t, obj), headers[obj], offset)
    case Elem(arr, index) => ArrayEntry(ArrayLogOf(t, arr), headers[arr], index)
  }

  function Undone(t: Txn, headers: map<Addr, Header>, loc: Loc, c: Cell): Cell {
    match Recorded(t, headers, loc)
    case Some(c') => c'
    case None => c
  }

  /**
   What rolling back does to a field: it gets its first logged value back, unless it is the class
   of an object, at offset 0, or the length of an array, at offset 8.
   */
  lemma FieldUndoneIff(t: Txn, h: Heap, obj: Addr, offset: nat)
    requires Field(obj, offset) in h.cells && obj in h.headers
    ensures var shape := h.headers[obj].shape;
            var kept := offset == 0 || (offset == 8 && (shape.PrimitiveArray? || shape.ObjectArray?));
            var logged := obj in t.objectLogs && offset in t.objectLogs[obj].fieldValues;
            RolledBack(t, h).cells[Field(obj, offset)] ==
            if logged && !kept then
              var fv := t.objectLogs[obj].fieldValues[offset];
              Cell(fv.kind, Decode(fv.kind, fv.bits))
            else h.cells[Field(obj, offset)]
  {
  }

  /** The object logs undone, the rest of the heap untouched. */
  function UndoObjects(logs: map<Addr, ObjectLog>, h: Heap): Heap {
    h.(cells := map loc | loc in h.cells :: UndoneField(logs, h, loc))
  }

  function UndoneField(logs: map<Addr, ObjectLog>, h: Heap, loc: Loc): Cell
    requires loc in h.cells
  {
    if loc.Field? && loc.obj in logs && loc.obj in h.headers then
      match ObjectEntry(logs[loc.obj], h.headers[loc.obj], loc.offset)
      case Some(c) => c
      case None => h.cells[loc]
    else h.cells[loc]
  }

  /** The array logs undone, the rest of the heap untouched. */
  function UndoArrays(logs: map<Addr, ArrayLog>, h: Heap): Heap {
    h.(cells := map loc | loc in h.cells :: UndoneElem(logs, h, loc))
  }

  function UndoneElem(logs: map<Addr, ArrayLog>, h: Heap, loc: Loc): Cell
    requires loc in h.cells
  {
    if loc.Elem? && loc.obj in logs && loc.obj in h.headers then
      match ArrayEntry(logs[loc.obj], h.headers[loc.obj], loc.index)
      case Some(c) => c
      case None => h.cells[loc]
    else h.cells[loc]
  }

  /** The heap after one transaction has been rolled back. */
  function RolledBack(t: Txn, h: Heap): Heap {
    h.(cells := map loc | loc in h.cells :: Undone(t, h.headers, loc, h.cells[loc]))
  }

  /** Everything in the logs belongs to an existing object and cell; new objects log nothing. */
  predicate LogsWithin(t: Txn, h: Heap) {
    ObjectLogsWithin(t.objectLogs, h) && ArrayLogsWithin(t.arrayLogs, h)
  }

  predicate ObjectLogsWithin(logs: map<Addr, ObjectLog>, h: Heap) {
    forall obj :: obj in logs ==> ObjectLogWithin(logs[obj], obj, h)
  }

  predicate ArrayLogsWithin(logs: map<Addr, ArrayLog>, h: Heap) {
    forall arr :: arr in logs ==> ArrayLogWithin(logs[arr], arr, h)
  }

  predicate ObjectLogWithin(log: ObjectLog, obj: Addr, h: Heap) {
    && obj in h.headers
    && (log.isNewObject ==> log.fieldValues == map[])
    && (forall offset :: offset in log.fieldValues ==>
          Field(obj, offset) in h.cells && FieldValueOk(log.fieldValues[offset], h))
  }

  predicate FieldValueOk(fv: FieldValue, h: Heap) {
    && fv.kind != Float
    && (fv.kind == Reference ==> fv.bits == NULL || fv.bits in h.headers)
  }

  predicate ArrayLogWithin(log: ArrayLog, arr: Addr, h: Heap) {
    && arr in h.headers && h.headers[arr].shape.PrimitiveArray?
    && (log.isNewArray ==> log.arrayValues == map[])
    && (forall index :: index in log.arrayValues ==> Elem(arr, index) in h.cells)
  }

  /** Undoing the objects and then the arrays undoes everything. */
  lemma UndoneInTwoPasses(t: Txn, h: Heap)
    requires LogsWithin(t, h)
    ensures ArrayLogsWithin(t.arrayLogs, UndoObjects(t.objectLogs, h))
    ensures UndoArrays(t.arrayLogs, UndoObjects(t.objectLogs, h)) == RolledBack(t, h)
  {
  }

  // --- Relocation --------------------------------------------------------------------------------

  function MoveFieldValue(m: Move, fv: FieldValue): FieldValue {
    if fv.kind == Reference then fv.(bits := At(m, fv.bits)) else fv
  }

  function MoveObjectLog(m: Move, log: ObjectLog): ObjectLog {
    log.(fieldValues := map offset | offset in log.fieldValues ::
           MoveFieldValue(m, log.fieldValues[offset]))
  }

  function MoveInternLogs(m: Move, logs: seq<InternLog>): seq<InternLog> {
    seq(|logs|, i requires 0 <= i < |logs| =>
      logs[i].(str := logs[i].str.(addr := At(m, logs[i].str.addr))))
  }

  predicate KeysMovable(m: Move, t: Txn) {
    t.objectLogs.Keys <= m.to.Keys && t.arrayLogs.Keys <= m.to.Keys
  }

  /** The keys of both logs can be exchanged without a collision. */
  predicate TxnCanRekey(t: Txn, m: Move) {
    CanRekey(t.objectLogs.Keys, m) && CanRekey(t.arrayLogs.Keys, m)
  }

  /** The transaction after the collector has visited all its roots. */
  function MoveTxn(m: Move, t: Txn): Txn
    requires Inverse(m) && KeysMovable(m, t)
  {
    t.(root := At(m, t.root),
       lastAllocated := At(m, t.lastAllocated),
       objectLogs := Rekey(map obj | obj in t.objectLogs :: MoveObjectLog(m, t.objectLogs[obj]), m),
       arrayLogs := Rekey(t.arrayLogs, m),
       internLogs := MoveInternLogs(m, t.internLogs))
  }

  /** A collection does not change for which objects records are needed. */
  lemma NeedsRecordsMoves(m: Move, t: Txn, a: Addr)
    requires Inverse(m) && KeysMovable(m, t) && a in m.to
    requires t.lastAllocated in m.to || t.lastAllocated !in m.from
    ensures ObjectNeedsRecords(MoveTxn(m, t), m.to[a]) <==> ObjectNeedsRecords(t, a)
    ensures ArrayNeedsRecords(MoveTxn(m, t), m.to[a]) <==> ArrayNeedsRecords(t, a)
  {
    if t.lastAllocated in m.to {
      assert m.from[m.to[t.lastAllocated]] == t.lastAllocated;
    }
  }

  // --- The objects that change -------------------------------------------------------------------

  /** The runtime state that rollback writes, and the flag that turns recording on. */
  class Runtime {
    var heap: Heap
    var interns: Interns
    var active: bool

    constructor (heap: Heap, interns: Interns)
      ensures this.heap == heap && this.interns == interns && !active
    {
      this.heap, this.interns, active := heap, interns, false;
    }

    /** A cell write with transaction checks switched off, as rollback performs it. */
    method SetCell(loc: Loc, c: Cell)
      requires loc in heap.cells
      modifies this`heap
      ensures heap == old(heap).(cells := old(heap.cells)[loc := c])
      ensures heap.cells.Keys == old(heap.cells.Keys)
    {
      heap := heap.(cells := heap.cells[loc := c]);
    }
  }

  class Transaction {
    const strict: bool
    var root: Addr
    var objectLogs: map<Addr, ObjectLog>
    var arrayLogs: map<Addr, ArrayLog>
    var internLogs: seq<InternLog>
    var aborted: bool
    var abortMessage: string
    var rollingBack: bool
    var lastAllocated: Addr

    function View(): Txn
      reads this
    {
      Txn(strict, root, objectLogs, arrayLogs, internLogs, aborted, abortMessage, rollingBack,
          lastAllocated)
    }

    constructor (strict: bool, root: Addr)
      ensures View() == NewTxn(strict, root)
    {
      this.strict, this.root := strict, root;
      objectLogs, arrayLogs, internLogs := map[], map[], [];
      aborted, abortMessage, rollingBack := false, "", false;
      lastAllocated := NULL;
    }

    method Abort(message: string)
      modifies this
      ensures View() == Aborted(old(View()), message)
    {
      if !aborted {
        aborted := true;
        abortMessage := message;
      }
    }

    method RecordNewObject(obj: Addr)
      modifies this
      ensures View() == old(View()).(lastAllocated := obj,
                                     objectLogs := old(objectLogs)[obj := ObjectLog(true, map[])])
    {
      lastAllocated := obj;
      objectLogs := objectLogs[obj := ObjectLog(true, map[])];
    }

    method RecordNewArray(arr: Addr, header: Header)
      requires header.IsArray()
      modifies this
      ensures View() == RecordNew(old(View()), arr, header)
    {
      if header.shape.ObjectArray? {
        RecordNewObject(arr);
        return;
      }
      lastAllocated := arr;
      arrayLogs := arrayLogs[arr := ArrayLog(true, map[])];
    }

    method RecordWriteField(obj: Addr, offset: nat, kind: Kind, value: Value, isVolatile: bool)
      requires Fits(kind, value)
      modifies this
      ensures View() == RecordWrite(old(View()), Field(obj, offset), Cell(kind, value), isVolatile)
    {
      if obj != lastAllocated {
        var log := if obj in objectLogs then objectLogs[obj] else EMPTY_OBJECT_LOG;
        if !log.isNewObject && offset !in log.fieldValues {
          var fv := FieldValue(Encode(kind, value), kind, isVolatile);
          log := log.(fieldValues := log.fieldValues[offset := fv]);
        }
        objectLogs := objectLogs[obj := log];
      }
    }

    method RecordWriteArray(arr: Addr, index: nat, bits: Word64)
      modifies this
      ensures View() == RecordElem(old(View()), arr, index, bits)
    {
      if arr != lastAllocated {
        var log := if arr in arrayLogs then arrayLogs[arr] else EMPTY_ARRAY_LOG;
        if !log.isNewArray && index !in log.arrayValues {
          log := log.(arrayValues := log.arrayValues[index := bits]);
        }
        arrayLogs := arrayLogs[arr := log];
      }
    }

    method LogInternedString(log: InternLog)
      modifies this
      ensures View() == old(View()).(internLogs := [log] + old(internLogs))
    {
      internLogs := [log] + internLogs;
    }

    /** Records the elements that fill-array-data is about to overwrite, unless none are needed. */
    method RecordArrayElements(arr: Addr, words: seq<Word64>)
      modifies this
      ensures View() == RecordElems(old(View()), arr, words)
    {
      if arr == lastAllocated || (arr in arrayLogs && arrayLogs[arr].isNewArray) {
        NoElementRecordsNeeded(View(), arr, words);
        return;
      }
      for i := 0 to |words|
        invariant View() == RecordElems(old(View()), arr, words[..i])
      {
        RecordWriteArray(arr, i, words[i]);
        assert words[..i + 1][..i] == words[..i];
      }
      assert words[..|words|] == words;
    }

    /**
     Visits every root of the transaction with a moving collector. The checks on the log keys
     pass exactly when both key sets can be exchanged, and then every address is the new one.
     */
    method VisitRoots(m: Move) returns (ok: bool)
      requires Inverse(m) && KeysMovable(m, View())
      modifies this
      ensures ok <==> TxnCanRekey(old(View()), m)
      ensures ok ==> View() == MoveTxn(m, old(View()))
    {
      root := At(m, root);
      lastAllocated := At(m, lastAllocated);
      ok := VisitObjectLogs(m);
      if !ok {
        return;
      }
      ok := VisitArrayLogs(m);
      if !ok {
        return;
      }
      internLogs := MoveInternLogs(m, internLogs);
    }

    method VisitObjectLogs(m: Move) returns (ok: bool)
      requires Inverse(m) && objectLogs.Keys <= m.to.Keys
      modifies this`objectLogs
      ensures ok <==> CanRekey(old(objectLogs.Keys), m)
      ensures ok ==> objectLogs == MoveTxn(m, old(View()).(arrayLogs := map[])).objectLogs
    {
      var visited := map obj | obj in objectLogs :: MoveObjectLog(m, objectLogs[obj]);
      assert visited.Keys == objectLogs.Keys;
      var moving := CollectMovingRoots(objectLogs.Keys, m);
      ok, objectLogs := UpdateKeys(moving, visited, m);
    }

    method VisitArrayLogs(m: Move) returns (ok: bool)
      requires Inverse(m) && arrayLogs.Keys <= m.to.Keys
      modifies this`arrayLogs
      ensures ok <==> CanRekey(old(arrayLogs.Keys), m)
      ensures ok ==> arrayLogs == Rekey(old(arrayLogs), m)
    {
      var moving := CollectMovingRoots(arrayLogs.Keys, m);
      ok, arrayLogs := UpdateKeys(moving, arrayLogs, m);
    }

    /** Undoes everything the transaction recorded and empties its logs. */
    method Rollback(rt: Runtime)
      requires !rt.active
      requires LogsWithin(View(), rt.heap)
      modifies this, rt`heap, rt`interns
      ensures rt.heap == RolledBack(old(View()), old(rt.heap))
      ensures rt.interns == UndoAll(old(internLogs), old(rt.interns))
      ensures View() == old(View()).(objectLogs := map[], arrayLogs := map[], internLogs := [],
                                     rollingBack := false)
    {
      UndoneInTwoPasses(View(), rt.heap);
      rollingBack := true;
      UndoObjectModifications(rt);
      UndoArrayModifications(rt);
      UndoInternStringTableModifications(rt);
      rollingBack := false;
    }

    method UndoObjectModifications(rt: Runtime)
      requires ObjectLogsWithin(objectLogs, rt.heap)
      modifies this`objectLogs, rt`heap
      ensures rt.heap == UndoObjects(old(objectLogs), old(rt.heap))
      ensures objectLogs == map[]
    {
      ghost var h := rt.heap;
      var todo := objectLogs.Keys;
      while todo != {}
        invariant todo <= objectLogs.Keys && objectLogs == old(objectLogs)
        invariant rt.heap.headers == h.headers && rt.heap.cells.Keys == h.cells.Keys
        invariant forall loc | loc in h.cells ::
            rt.heap.cells[loc] == if loc.obj !in todo then UndoneField(objectLogs, h, loc) else h.cells[loc]
      {
        var obj :| obj in todo;
        assert ObjectLogWithin(objectLogs[obj], obj, h);
        assert ObjectLogWithin(objectLogs[obj], obj, rt.heap);
        UndoObjectLog(objectLogs[obj], obj, rt);
        todo := todo - {obj};
      }
      assert rt.heap.cells == UndoObjects(objectLogs, h).cells;
      objectLogs := map[];
    }

    /** Writes the logged field values of one object back, except those that are kept. */
    static method UndoObjectLog(log: ObjectLog, obj: Addr, rt: Runtime)
      requires ObjectLogWithin(log, obj, rt.heap)
      modifies rt`heap
      ensures rt.heap.headers == old(rt.heap.headers) && rt.heap.cells.Keys == old(rt.heap.cells.Keys)
      ensures forall loc | loc in rt.heap.cells ::
          rt.heap.cells[loc] ==
          if loc.Field? && loc.obj == obj && ObjectEntry(log, rt.heap.headers[obj], loc.offset).Some?
          then ObjectEntry(log, rt.heap.headers[obj], loc.offset).value else old(rt.heap.cells)[loc]
    {
      ghost var h := rt.heap;
      var todo := log.fieldValues.Keys;
      while todo != {}
        invariant todo <= log.fieldValues.Keys
        invariant rt.heap.headers == h.headers && rt.heap.cells.Keys == h.cells.Keys
        invariant forall loc | loc in h.cells ::
            rt.heap.cells[loc] ==
            if loc.Field? && loc.obj == obj && loc.offset !in todo
               && ObjectEntry(log, h.headers[obj], loc.offset).Some?
            then ObjectEntry(log, h.headers[obj], loc.offset).value else h.cells[loc]
      {
        var offset :| offset in todo;
        todo := todo - {offset};
        if offset == CLASS_OFFSET {
          continue;
        }
        if rt.heap.headers[obj].IsArray() && offset == LENGTH_OFFSET {
          continue;
        }
        var fv := log.fieldValues[offset];
        rt.SetCell(Field(obj, offset), Cell(fv.kind, Decode(fv.kind, fv.bits)));
      }
    }

    method UndoArrayModifications(rt: Runtime)
      requires ArrayLogsWithin(arrayLogs, rt.heap)
      modifies this`arrayLogs, rt`heap
      ensures rt.heap == UndoArrays(old(arrayLogs), old(rt.heap))
      ensures arrayLogs == map[]
    {
      ghost var h := rt.heap;
      var todo := arrayLogs.Keys;
      while todo != {}
        invariant todo <= arrayLogs.Keys && arrayLogs == old(arrayLogs)
        invariant rt.heap.headers == h.headers && rt.heap.cells.Keys == h.cells.Keys
        invariant forall loc | loc in h.cells ::
            rt.heap.cells[loc] == if loc.obj !in todo then UndoneElem(arrayLogs, h, loc) else h.cells[loc]
      {
        var arr :| arr in todo;
        assert ArrayLogWithin(arrayLogs[arr], arr, h);
        assert ArrayLogWithin(arrayLogs[arr], arr, rt.heap);
        UndoArrayLog(arrayLogs[arr], arr, rt);
        todo := todo - {arr};
      }
      assert rt.heap.cells == UndoArrays(arrayLogs, h).cells;
      arrayLogs := map[];
    }

    /** Writes the logged elements of one array back, cast to the array's component type. */
    static method UndoArrayLog(log: ArrayLog, arr: Addr, rt: Runtime)
      requires ArrayLogWithin(log, arr, rt.heap)
      modifies rt`heap
      ensures rt.heap.headers == old(rt.heap.headers) && rt.heap.cells.Keys == old(rt.heap.cells.Keys)
      ensures forall loc | loc in rt.heap.cells ::
          rt.heap.cells[loc] ==
          if loc.Elem? && loc.obj == arr && ArrayEntry(log, rt.heap.headers[arr], loc.index).Some?
          then ArrayEntry(log, rt.heap.headers[arr], loc.index).value else old(rt.heap.cells)[loc]
    {
      ghost var h := rt.heap;
      var kind := rt.heap.headers[arr].shape.elem;
      var todo := log.arrayValues.Keys;
      while todo != {}
        invariant todo <= log.arrayValues.Keys
        invariant rt.heap.headers == h.headers && rt.heap.cells.Keys == h.cells.Keys
        invariant forall loc | loc in h.cells ::
            rt.heap.cells[loc] ==
            if loc.Elem? && loc.obj == arr && loc.index !in todo
               && ArrayEntry(log, h.headers[arr], loc.index).Some?
            then ArrayEntry(log, h.headers[arr], loc.index).value else h.cells[loc]
      {
        var index :| index in todo;
        rt.SetCell(Elem(arr, index), Cell(kind, Decode(kind, log.arrayValues[index])));
        todo := todo - {index};
      }
    }

    method UndoInternStringTableModifications(rt: Runtime)
      modifies this`internLogs, rt`interns
      ensures rt.interns == UndoAll(old(internLogs), old(rt.interns))
      ensures internLogs == []
    {
      var i := 0;
      while i < |internLogs|
        invariant 0 <= i <= |internLogs| && unchanged(this)
        invariant UndoAll(internLogs[i..], rt.interns) == UndoAll(internLogs, old(rt.interns))
      {
        var log := internLogs[i];
        assert internLogs[i..][1..] == internLogs[i + 1..];
        if log.isInsert {
          rt.interns := Remove(rt.interns, log.isStrong, log.str);
        } else {
          rt.interns := Insert(rt.interns, log.isStrong, log.str);
        }
        i := i + 1;
      }
      internLogs := [];
    }
  }
}
