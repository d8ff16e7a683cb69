/**
 Runs of the transactional interpreter: every interleaving of writes, allocations, interning,
 nested transactions, commits, rollbacks and collections, as steps on a `World`.
 */
module TransactionRuns {
  import opened ManagedHeap
  import opened InternTables
  import opened Relocation
  import opened Transactions
  import opened Rollback

  datatype Op =
    | Enter(strict: bool, root: Addr)
    | Exit
    | RollbackAndExit
    | Abort(message: string)
    | Write(loc: Loc, value: Value, isVolatile: bool)
    | Allocate(addr: Addr, header: Header, fields: map<Loc, Cell>, recorded: bool)
    | Intern(s: Str, isStrong: bool)
    | Collect(m: Move)

  function GrownHeap(h: Heap, addr: Addr, header: Header, fields: map<Loc, Cell>): Heap {
    Heap(h.headers[addr := header], h.cells + fields)
  }

  /**
   When an operation can happen: all but entering and collecting need an open transaction, writes
   store a value of the cell's type, allocations use an unused address, and a collection moves
   every object (log keys are among them) in a way that the checks on log keys accept.
   */
  predicate Enabled(w: World, op: Op) {
    match op
    case Enter(_, root) => root == NULL || root in w.heap.headers
    case Write(loc, value, _) =>
      && w.stack != [] && loc in w.heap.cells
      && CellOk(w.heap, loc, w.heap.cells[loc]) && CellOk(w.heap, loc, w.heap.cells[loc].(value := value))
    case Allocate(addr, header, fields, _) =>
      && w.stack != [] && addr != NULL && addr !in w.heap.headers
      && (forall loc :: loc in fields ==>
            loc.obj == addr && CellOk(GrownHeap(w.heap, addr, header, fields), loc, fields[loc]))
    case Intern(s, _) => w.stack != [] && s.addr in w.heap.headers
    case Collect(m) =>
      && WellFormed(w.heap) && IsMove(m, w.heap.headers.Keys)
      && StackMovable(m, w.stack) && StackCanRekey(w.stack, m)
    case _ => w.stack != []
  }

  predicate StackCanRekey(stack: seq<Txn>, m: Move) {
    forall i :: 0 <= i < |stack| ==> TxnCanRekey(stack[i], m)
  }

  function WithTop(w: World, t: Txn): World
    requires w.stack != []
  {
    w.(stack := w.stack[0 := t])
  }

  /** Records the old content in the innermost transaction and stores the new value. */
  function WriteCell(w: World, loc: Loc, value: Value, isVolatile: bool): World
    requires Enabled(w, Write(loc, value, isVolatile))
  {
    var c := w.heap.cells[loc];
    WithTop(w, RecordWrite(w.stack[0], loc, c, isVolatile))
      .(heap := w.heap.(cells := w.heap.cells[loc := c.(value := value)]))
  }

  function Step(w: World, op: Op): World
    requires Enabled(w, op)
  {
    match op
    case Enter(strict, root) => w.(stack := [NewTxn(strict, root)] + w.stack, active := true)
    case Exit => w.(stack := w.stack[1..], active := |w.stack| > 1)
    case RollbackAndExit => RollbackTop(w)
    case Abort(message) => WithTop(w, Aborted(w.stack[0], message))
    case Write(loc, value, isVolatile) => WriteCell(w, loc, value, isVolatile)
    case Allocate(addr, header, fields, recorded) =>
      var t := w.stack[0];
      WithTop(w, if recorded then RecordNew(t, addr, header) else t)
        .(heap := GrownHeap(w.heap, addr, header, fields))
    case Intern(s, isStrong) =>
      var ops := InternOps(w.interns, s, isStrong);
      var t := w.stack[0];
      WithTop(w, t.(internLogs := PushAll(t.internLogs, ops))).(interns := ApplyAll(ops, w.interns))
    case Collect(m) => MoveWorld(m, w)
  }

  /**
   In a good world an operation needs nothing but what it works on: a store needs a cell that can
   hold the value, an allocation an unused address, interning an object.
   */
  lemma EnabledIff(w: World, op: Op)
    requires Good(w)
    ensures op.Write? ==>
              (Enabled(w, op) <==>
               && w.stack != [] && op.loc in w.heap.cells && Fits(w.heap.cells[op.loc].kind, op.value)
               && (op.value.Ref? ==> op.value.addr == NULL || op.value.addr in w.heap.headers))
    ensures op.Enter? ==> (Enabled(w, op) <==> op.root == NULL || op.root in w.heap.headers)
    ensures op.Exit? || op.RollbackAndExit? || op.Abort? ==> (Enabled(w, op) <==> w.stack != [])
    ensures op.Intern? ==> (Enabled(w, op) <==> w.stack != [] && op.s.addr in w.heap.headers)
    ensures op.Allocate? && op.fields == map[] ==>
              (Enabled(w, op) <==> w.stack != [] && op.addr != NULL && op.addr !in w.heap.headers)
  {
    hide TxnOk, InternsWithin;
    if op.Write? && op.loc in w.heap.cells {
      assert CellOk(w.heap, op.loc, w.heap.cells[op.loc]);
    }
  }

  // --- What each operation does to the contents ----------------------------------------------------

  /** Entering, committing and aborting leave heap and tables alone. */
  lemma OnlyStackChanges(w: World, op: Op)
    requires Enabled(w, op) && (op.Enter? || op.Exit? || op.Abort?)
    ensures var r := Step(w, op);
            && r.heap == w.heap && r.interns == w.interns
            && (op.Enter? ==> |r.stack| == |w.stack| + 1 && r.stack[1..] == w.stack
                              && r.stack[0].strict == op.strict && r.stack[0].root == op.root && !r.stack[0].aborted)
            && (op.Exit? ==> r.stack == w.stack[1..])
            && (op.Abort? ==> |r.stack| == |w.stack| && r.stack[1..] == w.stack[1..] && r.stack[0].aborted)
  {
  }

  /** A store is visible at its location, and only there. */
  lemma WriteIsVisible(w: World, loc: Loc, value: Value, isVolatile: bool, x: Loc)
    requires Enabled(w, Write(loc, value, isVolatile))
    ensures var r := Step(w, Write(loc, value, isVolatile));
            && r.heap.headers == w.heap.headers && r.interns == w.interns && r.stack[1..] == w.stack[1..]
            && (x in r.heap.cells <==> x in w.heap.cells)
            && (x == loc ==> r.heap.cells[x] == Cell(w.heap.cells[x].kind, value))
            && (x != loc && x in w.heap.cells ==> r.heap.cells[x] == w.heap.cells[x])
  {
  }

  /** An allocated object has the fields it was given, and nothing else has changed. */
  lemma AllocationIsVisible(
    w: World, addr: Addr, header: Header, fields: map<Loc, Cell>, recorded: bool, x: Loc)
    requires Good(w) && Enabled(w, Allocate(addr, header, fields, recorded))
    ensures var r := Step(w, Allocate(addr, header, fields, recorded));
            && r.heap.headers == w.heap.headers[addr := header]
            && r.interns == w.interns && r.stack[1..] == w.stack[1..]
            && (x.obj == addr ==> (x in r.heap.cells <==> x in fields) && (x in fields ==> r.heap.cells[x] == fields[x]))
            && (x.obj != addr ==> (x in r.heap.cells <==> x in w.heap.cells))
            && (x.obj != addr && x in w.heap.cells ==> r.heap.cells[x] == w.heap.cells[x])
            && (recorded ==> !ObjectNeedsRecords(r.stack[0], addr) && !ArrayNeedsRecords(r.stack[0], addr))
  {
    assert x in w.heap.cells ==> CellOk(w.heap, x, w.heap.cells[x]);
  }

  // --- Filling arrays ------------------------------------------------------------------------------

  predicate CanFill(w: World, arr: Addr, data: seq<Value>) {
    && w.stack != [] && HasElems(w.heap, arr, |data|)
    && (forall i :: 0 <= i < |data| ==>
          CellOk(w.heap, Elem(arr, i), w.heap.cells[Elem(arr, i)].(value := data[i])))
  }

  predicate HasElems(h: Heap, arr: Addr, n: nat) {
    forall i :: 0 <= i < n ==>
      Elem(arr, i) in h.cells && CellOk(h, Elem(arr, i), h.cells[Elem(arr, i)])
  }

  function OldWords(h: Heap, arr: Addr, n: nat): (words: seq<Word64>)
    requires HasElems(h, arr, n)
    ensures |words| == n
  {
    seq(n, i requires 0 <= i < n =>
      Encode(h.cells[Elem(arr, i)].kind, h.cells[Elem(arr, i)].value))
  }

  /** The first `n` elements replaced by the data. */
  function FilledHeap(h: Heap, arr: Addr, data: seq<Value>, n: nat): Heap
    requires n <= |data|
  {
    h.(cells := map loc | loc in h.cells ::
         if loc.Elem? && loc.obj == arr && loc.index < n then h.cells[loc].(value := data[loc.index])
         else h.cells[loc])
  }

  /** All elements recorded first, all elements replaced afterwards. */
  function Filled(w: World, arr: Addr, data: seq<Value>): World
    requires CanFill(w, arr, data)
  {
    WithTop(w, RecordElems(w.stack[0], arr, OldWords(w.heap, arr, |data|)))
      .(heap := FilledHeap(w.heap, arr, data, |data|))
  }

  /** The elements written one by one, each recorded when it is written. */
  function WrittenOneByOne(w: World, arr: Addr, data: seq<Value>): (r: World)
    requires CanFill(w, arr, data)
    ensures r == Filled(w, arr, data)
    decreases |data|
  {
    if data == [] then
      assert FilledHeap(w.heap, arr, data, 0).cells == w.heap.cells;
      w
    else
      var n := |data| - 1;
      var before := WrittenOneByOne(w, arr, data[..n]);
      LastElementUntouched(w, arr, data);
      Step(before, Write(Elem(arr, n), data[n], false))
  }

  lemma LastElementUntouched(w: World, arr: Addr, data: seq<Value>)
    requires CanFill(w, arr, data) && data != []
    ensures var n := |data| - 1;
            && CanFill(w, arr, data[..n])
            && Enabled(Filled(w, arr, data[..n]), Write(Elem(arr, n), data[n], false))
            && Step(Filled(w, arr, data[..n]), Write(Elem(arr, n), data[n], false)) == Filled(w, arr, data)
  {
    var n := |data| - 1;
    var before, after := Filled(w, arr, data[..n]), Filled(w, arr, data);
    LastElementHeap(w.heap, arr, data);
    var words := OldWords(w.heap, arr, |data|);
    assert words[..n] == OldWords(w.heap, arr, n);
    assert after.stack[0] == RecordElem(before.stack[0], arr, n, words[n]);
    assert CellOk(before.heap, Elem(arr, n), w.heap.cells[Elem(arr, n)]);
    assert CellOk(before.heap, Elem(arr, n), w.heap.cells[Elem(arr, n)].(value := data[n]));
  }

  lemma LastElementHeap(h: Heap, arr: Addr, data: seq<Value>)
    requires data != [] && HasElems(h, arr, |data|)
    ensures var n, last := |data| - 1, Elem(arr, |data| - 1);
            var before := FilledHeap(h, arr, data[..n], n);
            && before.cells[last] == h.cells[last]
            && FilledHeap(h, arr, data, |data|).cells == before.cells[last := h.cells[last].(value := data[n])]
  {
  }

  // --- Steps keep worlds good --------------------------------------------------------------------

  lemma LogsWithinGrown(t: Txn, h: Heap, h': Heap)
    requires TxnOk(t, h)
    requires forall a :: a in h.headers ==> a in h'.headers && h'.headers[a] == h.headers[a]
    requires h.cells.Keys <= h'.cells.Keys
    ensures TxnOk(t, h')
  {
  }

  lemma LoggedObjectOk(t: Txn, h: Heap, obj: Addr, offset: nat, fv: FieldValue)
    requires TxnOk(t, h) && Field(obj, offset) in h.cells && obj in h.headers && FieldValueOk(fv, h)
    ensures ObjectLogWithin(ObjectLogOf(t, obj).LogValue(offset, fv), obj, h)
  {
  }

  lemma LoggedArrayOk(t: Txn, h: Heap, arr: Addr, index: nat, bits: Word64)
    requires TxnOk(t, h) && Elem(arr, index) in h.cells
    requires arr in h.headers && h.headers[arr].shape.PrimitiveArray?
    ensures ArrayLogWithin(ArrayLogOf(t, arr).LogValue(index, bits), arr, h)
  {
  }

  lemma RecordWriteOk(t: Txn, h: Heap, loc: Loc, isVolatile: bool)
    requires TxnOk(t, h) && loc in h.cells && CellOk(h, loc, h.cells[loc])
    ensures TxnOk(RecordWrite(t, loc, h.cells[loc], isVolatile), h)
  {
    var c := h.cells[loc];
    var bits := Encode(c.kind, c.value);
    match loc
    case Field(obj, offset) => LoggedObjectOk(t, h, obj, offset, FieldValue(bits, c.kind, isVolatile));
    case Elem(arr, index) => LoggedArrayOk(t, h, arr, index, bits);
  }

  lemma WriteGood(w: World, loc: Loc, value: Value, isVolatile: bool)
    requires Good(w) && Enabled(w, Write(loc, value, isVolatile))
    ensures Good(WriteCell(w, loc, value, isVolatile))
  {
    var r := WriteCell(w, loc, value, isVolatile);
    assert CellOk(w.heap, loc, w.heap.cells[loc]);
    assert WellFormed(r.heap) by {
      forall x | x in r.heap.cells
        ensures CellOk(r.heap, x, r.heap.cells[x])
      {
        assert x != loc ==> CellOk(w.heap, x, w.heap.cells[x]);
      }
    }
    forall i | 0 <= i < |r.stack|
      ensures TxnOk(r.stack[i], r.heap)
    {
      assert TxnOk(w.stack[i], w.heap);
      if i == 0 {
        RecordWriteOk(w.stack[0], w.heap, loc, isVolatile);
      }
      LogsWithinSameCells(r.stack[i], w.heap, r.heap);
    }
  }

  lemma AllocateGood(w: World, addr: Addr, header: Header, fields: map<Loc, Cell>, recorded: bool)
    requires Good(w) && Enabled(w, Allocate(addr, header, fields, recorded))
    ensures Good(Step(w, Allocate(addr, header, fields, recorded)))
  {
    var r := Step(w, Allocate(addr, header, fields, recorded));
    forall x | x in r.heap.cells
      ensures CellOk(r.heap, x, r.heap.cells[x])
    {
      if x !in fields {
        assert CellOk(w.heap, x, w.heap.cells[x]);
      }
    }
    forall i | 0 <= i < |r.stack|
      ensures TxnOk(r.stack[i], r.heap)
    {
      LogsWithinGrown(w.stack[i], w.heap, r.heap);
      if i == 0 {
        RecordNewOk(w.stack[0], r.heap, addr);
      }
    }
  }

  lemma RecordNewOk(t: Txn, h: Heap, addr: Addr)
    requires TxnOk(t, h) && addr in h.headers
    ensures TxnOk(RecordNew(t, addr, h.headers[addr]), h)
  {
    assert ObjectLogWithin(ObjectLog(true, map[]), addr, h);
    assert h.headers[addr].shape.PrimitiveArray? ==> ArrayLogWithin(ArrayLog(true, map[]), addr, h);
  }

  lemma {:induction false} ApplyAllWithin(ops: seq<InternLog>, log: seq<InternLog>, tables: Interns, h: Heap)
    requires InternsWithin(tables, h)
    requires InternLogWithin(ops, h) && InternLogWithin(log, h)
    ensures InternsWithin(ApplyAll(ops, tables), h)
    ensures InternLogWithin(PushAll(log, ops), h)
    decreases |ops|
  {
    if ops != [] {
      ApplyAllWithin(ops[1..], [ops[0]] + log, Apply(ops[0], tables), h);
    }
  }

  lemma InternGood(w: World, s: Str, isStrong: bool)
    requires Good(w) && Enabled(w, Intern(s, isStrong))
    ensures Good(Step(w, Intern(s, isStrong)))
  {
    var r := Step(w, Intern(s, isStrong));
    assert TxnOk(w.stack[0], w.heap);
    assert InternLogWithin(InternOps(w.interns, s, isStrong), w.heap);
    ApplyAllWithin(InternOps(w.interns, s, isStrong), w.stack[0].internLogs, w.interns, w.heap);
    forall i | 0 <= i < |r.stack|
      ensures TxnOk(r.stack[i], r.heap)
    {
      assert TxnOk(w.stack[i], w.heap);
    }
  }

  lemma MoveHeapWellFormed(m: Move, h: Heap)
    requires WellFormed(h) && IsMove(m, h.headers.Keys)
    ensures WellFormed(MoveHeap(m, h))
  {
  }

  lemma MoveObjectLogOk(m: Move, log: ObjectLog, o: Addr, h: Heap)
    requires WellFormed(h) && IsMove(m, h.headers.Keys) && ObjectLogWithin(log, o, h)
    ensures ObjectLogWithin(MoveObjectLog(m, log), m.to[o], MoveHeap(m, h))
  {
  }

  lemma MoveArrayLogOk(m: Move, log: ArrayLog, o: Addr, h: Heap)
    requires WellFormed(h) && IsMove(m, h.headers.Keys) && ArrayLogWithin(log, o, h)
    ensures ArrayLogWithin(log, m.to[o], MoveHeap(m, h))
  {
  }

  lemma MoveObjectLogsOk(m: Move, t: Txn, h: Heap)
    requires WellFormed(h) && IsMove(m, h.headers.Keys) && KeysMovable(m, t)
    requires ObjectLogsWithin(t.objectLogs, h)
    ensures ObjectLogsWithin(MoveTxn(m, t).objectLogs, MoveHeap(m, h))
  {
    var logs := MoveTxn(m, t).objectLogs;
    forall obj | obj in logs
      ensures ObjectLogWithin(logs[obj], obj, MoveHeap(m, h))
    {
      MoveObjectLogOk(m, t.objectLogs[m.from[obj]], m.from[obj], h);
    }
  }

  lemma MoveArrayLogsOk(m: Move, t: Txn, h: Heap)
    requires WellFormed(h) && IsMove(m, h.headers.Keys) && KeysMovable(m, t)
    requires ArrayLogsWithin(t.arrayLogs, h)
    ensures ArrayLogsWithin(MoveTxn(m, t).arrayLogs, MoveHeap(m, h))
  {
    var logs := MoveTxn(m, t).arrayLogs;
    forall arr | arr in logs
      ensures ArrayLogWithin(logs[arr], arr, MoveHeap(m, h))
    {
      MoveArrayLogOk(m, t.arrayLogs[m.from[arr]], m.from[arr], h);
    }
  }

  lemma MoveInternLogsOk(m: Move, log: seq<InternLog>, h: Heap)
    requires WellFormed(h) && IsMove(m, h.headers.Keys) && InternLogWithin(log, h)
    ensures InternLogWithin(MoveInternLogs(m, log), MoveHeap(m, h))
  {
  }

  lemma MoveTxnOk(m: Move, t: Txn, h: Heap)
    requires WellFormed(h) && IsMove(m, h.headers.Keys) && KeysMovable(m, t) && TxnOk(t, h)
    ensures TxnOk(MoveTxn(m, t), MoveHeap(m, h))
  {
    MoveObjectLogsOk(m, t, h);
    MoveArrayLogsOk(m, t, h);
    MoveInternLogsOk(m, t.internLogs, h);
  }

  lemma CollectGood(w: World, m: Move)
    requires Good(w) && Enabled(w, Collect(m))
    ensures Good(Step(w, Collect(m)))
  {
    GoodStackMovable(m, w);
    MoveHeapWellFormed(m, w.heap);
    var r := MoveWorld(m, w);
    forall i | 0 <= i < |r.stack|
      ensures TxnOk(r.stack[i], r.heap)
    {
      assert TxnOk(w.stack[i], w.heap) && KeysMovable(m, w.stack[i]);
      MoveTxnOk(m, w.stack[i], w.heap);
    }
  }

  lemma StepGood(w: World, op: Op)
    requires Good(w) && Enabled(w, op)
    ensures Good(Step(w, op))
  {
    match op
    case Enter(strict, root) =>
      var r := Step(w, op);
      assert forall i :: 0 < i < |r.stack| ==> r.stack[i] == w.stack[i - 1];
    case Exit =>
      var r := Step(w, op);
      assert forall i :: 0 <= i < |r.stack| ==> r.stack[i] == w.stack[i + 1];
    case RollbackAndExit => RollbackTopGood(w);
    case Abort(message) =>
      assert TxnOk(w.stack[0], w.heap);
    case Write(loc, value, isVolatile) => WriteGood(w, loc, value, isVolatile);
    case Allocate(addr, header, fields, recorded) => AllocateGood(w, addr, header, fields, recorded);
    case Intern(s, isStrong) => InternGood(w, s, isStrong);
    case Collect(m) => CollectGood(w, m);
  }
}
