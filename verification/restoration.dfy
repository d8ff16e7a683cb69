/**
 The promise of transactions: after any run, rolling back everything that is still open restores
 every cell of every object that existed at the start, wherever the collector has moved it,
 unless the cell's only record was thrown away by committing a nested transaction.
 */
module Restoration {
  import opened Options
  import opened ManagedHeap
  import opened InternTables
  import opened Relocation
  import opened Transactions
  import opened Rollback
  import opened TransactionRuns

  /**
   A world with the history of the run that led to it: where the objects of the initial heap are
   now, which locations lost their record in a commit, and whether an intern log was lost so.
   */
  datatype History = History(
    w: World, home: map<Addr, Addr>, leaked: set<Loc>, internsLeaked: bool)

  function Begin(w: World): History {
    History(w, map a | a in w.heap.headers :: a, {}, false)
  }

  /** Locations whose record in the innermost transaction is the only one on the stack. */
  function OnlyRecordedOnTop(w: World): set<Loc>
    requires w.stack != []
  {
    set loc | loc in w.heap.cells && Recorded(w.stack[0], w.heap.headers, loc).Some?
              && !RecordedIn(w.stack[1..], w.heap.headers, loc)
  }

  function Next(s: History, op: Op): (r: History)
    requires Good(s.w) && Enabled(s.w, op)
    ensures Good(r.w)
  {
    StepGood(s.w, op);
    var w' := Step(s.w, op);
    match op
    case Exit =>
      s.(w := w', leaked := s.leaked + OnlyRecordedOnTop(s.w),
         internsLeaked := s.internsLeaked || s.w.stack[0].internLogs != [])
    case Collect(m) =>
      s.(w := w', home := map a | a in s.home :: At(m, s.home[a]),
         leaked := set loc | loc in s.leaked :: MoveLoc(m, loc))
    case _ => s.(w := w')
  }

  predicate CanRun(s: History, ops: seq<Op>)
    requires Good(s.w)
    decreases |ops|
  {
    ops == [] || (Enabled(s.w, ops[0]) && CanRun(Next(s, ops[0]), ops[1..]))
  }

  function After(s: History, ops: seq<Op>): (r: History)
    requires Good(s.w) && CanRun(s, ops)
    ensures Good(r.w)
    decreases |ops|
  {
    if ops == [] then s else After(Next(s, ops[0]), ops[1..])
  }

  // --- What every step keeps ---------------------------------------------------------------------

  /**
   The cells that rolling back has to restore: every field except the class, at offset 0, and in
   arrays the length, at offset 8; every integer element, and every float or double element that is
   a whole number from 0 up to 2^64.
   */
  predicate Restorable(h: Heap, loc: Loc) {
    && loc in h.cells && loc.obj in h.headers
    && match loc
       case Field(obj, offset) =>
         offset != 0 && (offset == 8 ==> h.headers[obj].shape.Instance? || h.headers[obj].shape.ClassObject?)
       case Elem(_, _) =>
         var v := h.cells[loc].value;
         v.Fp? ==> 0.0 <= v.r < 0x1_0000_0000_0000_0000 as real && v.r == v.r.Floor as real
  }

  function HomeOf(home: map<Addr, Addr>, a: Addr): Addr {
    if a in home then home[a] else a
  }

  function HomeLoc(home: map<Addr, Addr>, loc: Loc): Loc {
    loc.(obj := HomeOf(home, loc.obj))
  }

  function HomeCell(home: map<Addr, Addr>, c: Cell): Cell {
    if c.value.Ref? then c.(value := Ref(HomeOf(home, c.value.addr))) else c
  }

  function HomeTable(home: map<Addr, Addr>, table: map<string, Addr>): map<string, Addr> {
    map text | text in table :: HomeOf(home, table[text])
  }

  function HomeInterns(home: map<Addr, Addr>, tables: Interns): Interns {
    Interns(HomeTable(home, tables.strong), HomeTable(home, tables.weak))
  }

  /** The transaction skips records for this object because it was allocated meanwhile. */
  predicate SkipsRecords(t: Txn, obj: Addr) {
    !ObjectNeedsRecords(t, obj) || !ArrayNeedsRecords(t, obj)
  }

  /** The object is still there, has the same type, and no transaction skips its records. */
  predicate ObjectKept(s: History, h0: Heap, a: Addr) {
    && a in s.home && a in h0.headers
    && s.home[a] in s.w.heap.headers && s.w.heap.headers[s.home[a]] == h0.headers[a]
    && (forall i :: 0 <= i < |s.w.stack| ==> !SkipsRecords(s.w.stack[i], s.home[a]))
  }

  /** Unwinding all open transactions would give the location its initial content. */
  predicate CellKept(s: History, h0: Heap, loc: Loc) {
    var x := HomeLoc(s.home, loc);
    && x in s.w.heap.cells
    && (Restorable(h0, loc) && x !in s.leaked ==>
          Unwound(s.w.stack, s.w.heap.headers, x, s.w.heap.cells[x]) == HomeCell(s.home, h0.cells[loc]))
  }

  function UnwoundInterns(stack: seq<Txn>, tables: Interns): Interns {
    if stack == [] then tables
    else UnwoundInterns(stack[1..], UndoAll(stack[0].internLogs, tables))
  }

  predicate InternsKept(s: History, tables0: Interns) {
    !s.internsLeaked ==> UnwoundInterns(s.w.stack, s.w.interns) == HomeInterns(s.home, tables0)
  }

  predicate Kept(s: History, w0: World) {
    && Good(s.w)
    && s.home.Keys == w0.heap.headers.Keys
    && ObjectsKept(s, w0.heap)
    && CellsKept(s, w0.heap)
    && InternsKept(s, w0.interns)
  }

  predicate ObjectsKept(s: History, h0: Heap) {
    forall a :: a in h0.headers ==> ObjectKept(s, h0, a)
  }

  predicate CellsKept(s: History, h0: Heap) {
    forall loc :: loc in h0.cells ==> CellKept(s, h0, loc)
  }

  // --- Objects -------------------------------------------------------------------------------------

  lemma RecordWriteSkips(t: Txn, loc: Loc, c: Cell, isVolatile: bool, obj: Addr)
    requires Fits(c.kind, c.value)
    ensures SkipsRecords(RecordWrite(t, loc, c, isVolatile), obj) <==> SkipsRecords(t, obj)
  {
  }

  lemma MoveSkips(m: Move, t: Txn, h: Heap, obj: Addr)
    requires IsMove(m, h.headers.Keys) && KeysMovable(m, t) && TxnOk(t, h)
    requires obj in h.headers && !SkipsRecords(t, obj)
    ensures !SkipsRecords(MoveTxn(m, t), m.to[obj])
  {
  }

  lemma CollectKeepsObject(s: History, h0: Heap, m: Move, a: Addr)
    requires Good(s.w) && Enabled(s.w, Collect(m)) && ObjectKept(s, h0, a)
    ensures ObjectKept(Next(s, Collect(m)), h0, a)
  {
    var r := Next(s, Collect(m));
    GoodStackMovable(m, s.w);
    assert m.from[m.to[s.home[a]]] == s.home[a];
    forall i | 0 <= i < |r.w.stack|
      ensures !SkipsRecords(r.w.stack[i], r.home[a])
    {
      assert KeysMovable(m, s.w.stack[i]) && TxnOk(s.w.stack[i], s.w.heap);
      MoveSkips(m, s.w.stack[i], s.w.heap, s.home[a]);
    }
  }

  /** Changing the innermost transaction and growing the heap keeps an object it does not skip. */
  lemma TopChangeKeepsObject(s: History, r: History, h0: Heap, a: Addr)
    requires ObjectKept(s, h0, a) && r.home == s.home && s.w.stack != []
    requires s.home[a] in r.w.heap.headers
    requires r.w.heap.headers[s.home[a]] == s.w.heap.headers[s.home[a]]
    requires |r.w.stack| == |s.w.stack| && r.w.stack[1..] == s.w.stack[1..]
    requires !SkipsRecords(r.w.stack[0], s.home[a])
    ensures ObjectKept(r, h0, a)
  {
  }

  lemma PopKeepsObject(s: History, r: History, h0: Heap, a: Addr)
    requires ObjectKept(s, h0, a) && r.home == s.home && s.w.stack != []
    requires r.w.heap.headers == s.w.heap.headers && r.w.stack == s.w.stack[1..]
    ensures ObjectKept(r, h0, a)
  {
  }

  lemma EnterKeepsObject(s: History, h0: Heap, strict: bool, root: Addr, a: Addr)
    requires Good(s.w) && Enabled(s.w, Enter(strict, root)) && ObjectKept(s, h0, a)
    ensures ObjectKept(Next(s, Enter(strict, root)), h0, a)
  {
  }

  lemma RecordNewSkips(t: Txn, addr: Addr, header: Header, obj: Addr)
    requires obj != addr && !SkipsRecords(t, obj)
    ensures !SkipsRecords(RecordNew(t, addr, header), obj)
  {
  }

  /** Objects from before the run stay, and no transaction ever skips their records. */
  lemma StepKeepsObject(s: History, h0: Heap, op: Op, a: Addr)
    requires Good(s.w) && Enabled(s.w, op) && ObjectKept(s, h0, a)
    ensures ObjectKept(Next(s, op), h0, a)
  {
    var r, o := Next(s, op), s.home[a];
    match op
    case Collect(m) => CollectKeepsObject(s, h0, m, a);
    case Enter(strict, root) => EnterKeepsObject(s, h0, strict, root, a);
    case RollbackAndExit => PopKeepsObject(s, r, h0, a);
    case Exit => PopKeepsObject(s, r, h0, a);
    case Write(loc, value, isVolatile) =>
      assert CellOk(s.w.heap, loc, s.w.heap.cells[loc]);
      RecordWriteSkips(s.w.stack[0], loc, s.w.heap.cells[loc], isVolatile, o);
      TopChangeKeepsObject(s, r, h0, a);
    case Allocate(addr, header, _, _) =>
      RecordNewSkips(s.w.stack[0], addr, header, o);
      TopChangeKeepsObject(s, r, h0, a);
    case Intern(_, _) => TopChangeKeepsObject(s, r, h0, a);
    case Abort(_) => TopChangeKeepsObject(s, r, h0, a);
  }

  // --- Cells -----------------------------------------------------------------------------------------

  /** Recording one location leaves the record of every other location alone. */
  lemma RecordOther(t: Txn, headers: map<Addr, Header>, loc: Loc, c: Cell, isVolatile: bool, x: Loc)
    requires Fits(c.kind, c.value) && x != loc
    ensures Recorded(RecordWrite(t, loc, c, isVolatile), headers, x) == Recorded(t, headers, x)
  {
  }

  /** The first record of a location is the content at that time; later records change nothing. */
  lemma RecordSame(t: Txn, h: Heap, loc: Loc, isVolatile: bool)
    requires loc in h.cells && CellOk(h, loc, h.cells[loc]) && TxnOk(t, h)
    requires !SkipsRecords(t, loc.obj)
    requires loc.Field? ==> !KeptOnUndo(h.headers[loc.obj], loc.offset)
    ensures var c := h.cells[loc];
            Recorded(RecordWrite(t, loc, c, isVolatile), h.headers, loc) ==
            if Recorded(t, h.headers, loc).Some? then Recorded(t, h.headers, loc)
            else Some(Cell(c.kind, Decode(c.kind, Encode(c.kind, c.value))))
  {
  }

  lemma WriteKeepsCell(s: History, h0: Heap, loc: Loc, value: Value, isVolatile: bool, l: Loc)
    requires Good(s.w) && Enabled(s.w, Write(loc, value, isVolatile))
    requires CellKept(s, h0, l) && (Restorable(h0, l) ==> ObjectKept(s, h0, l.obj))
    ensures CellKept(Next(s, Write(loc, value, isVolatile)), h0, l)
  {
    var r := Next(s, Write(loc, value, isVolatile));
    var x, h, t := HomeLoc(s.home, l), s.w.heap, s.w.stack[0];
    if Restorable(h0, l) && x !in s.leaked {
      var c, rest := h.cells[x], s.w.stack[1..];
      assert r.w.stack[1..] == rest;
      assert CellOk(h, loc, h.cells[loc]) && TxnOk(t, h);
      if x != loc {
        RecordOther(t, h.headers, loc, h.cells[loc], isVolatile, x);
      } else {
        RecordSame(t, h, loc, isVolatile);
        if Recorded(t, h.headers, x).None? {
          UnwoundByRecord(rest, h.headers, x, c, Cell(c.kind, Decode(c.kind, Encode(c.kind, c.value))));
          if !RecordedIn(rest, h.headers, x) {
            EncodeDecode(c.kind, c.value);
          }
        }
      }
    }
  }

  lemma PopKeepsCell(s: History, h0: Heap, l: Loc)
    requires Good(s.w) && s.w.stack != [] && CellKept(s, h0, l)
    ensures CellKept(Next(s, Exit), h0, l) && CellKept(Next(s, RollbackAndExit), h0, l)
  {
    var x, t, rest := HomeLoc(s.home, l), s.w.stack[0], s.w.stack[1..];
    var headers, c := s.w.heap.headers, s.w.heap.cells[x];
    if Restorable(h0, l) && x !in Next(s, Exit).leaked && Recorded(t, headers, x).Some? {
      assert RecordedIn(rest, headers, x);
      UnwoundByRecord(rest, headers, x, c, Undone(t, headers, x, c));
    }
  }

  lemma EnterKeepsCell(s: History, h0: Heap, strict: bool, root: Addr, l: Loc)
    requires Good(s.w) && Enabled(s.w, Enter(strict, root)) && CellKept(s, h0, l)
    ensures CellKept(Next(s, Enter(strict, root)), h0, l)
  {
  }

  /** A step that changes neither the location nor its records keeps it. */
  lemma SameRecordsKeepCell(s: History, r: History, h0: Heap, l: Loc, x: Loc)
    requires CellKept(s, h0, l) && r.home == s.home && r.leaked == s.leaked && x == HomeLoc(s.home, l)
    requires x in r.w.heap.cells && r.w.heap.cells[x] == s.w.heap.cells[x]
    requires x.obj in s.w.heap.headers && x.obj in r.w.heap.headers
    requires r.w.heap.headers[x.obj] == s.w.heap.headers[x.obj]
    requires s.w.stack != [] && r.w.stack != [] && r.w.stack[1..] == s.w.stack[1..]
    requires Recorded(r.w.stack[0], r.w.heap.headers, x) == Recorded(s.w.stack[0], s.w.heap.headers, x)
    ensures CellKept(r, h0, l)
  {
    UnwoundSameHeader(s.w.stack[1..], s.w.heap.headers, r.w.heap.headers, x,
                      Undone(s.w.stack[0], s.w.heap.headers, x, s.w.heap.cells[x]));
  }

  lemma RecordNewOther(t: Txn, headers: map<Addr, Header>, addr: Addr, header: Header, x: Loc)
    requires x.obj != addr
    ensures Recorded(RecordNew(t, addr, header), headers[addr := header], x) == Recorded(t, headers, x)
    ensures Recorded(t, headers[addr := header], x) == Recorded(t, headers, x)
  {
  }

  lemma AllocateKeepsCell(s: History, h0: Heap, op: Op, l: Loc)
    requires Good(s.w) && Enabled(s.w, op) && op.Allocate? && CellKept(s, h0, l)
    ensures CellKept(Next(s, op), h0, l)
  {
    var x := HomeLoc(s.home, l);
    assert CellOk(s.w.heap, x, s.w.heap.cells[x]);
    RecordNewOther(s.w.stack[0], s.w.heap.headers, op.addr, op.header, x);
    SameRecordsKeepCell(s, Next(s, op), h0, l, x);
  }

  /** Unwinding a location depends on no other object's header. */
  lemma {:induction false} UnwoundSameHeader(
    stack: seq<Txn>, headers: map<Addr, Header>, headers': map<Addr, Header>, x: Loc, c: Cell)
    requires x.obj in headers && x.obj in headers' && headers[x.obj] == headers'[x.obj]
    ensures Unwound(stack, headers, x, c) == Unwound(stack, headers', x, c)
  {
    if stack != [] {
      UnwoundSameHeader(stack[1..], headers, headers', x, Undone(stack[0], headers, x, c));
    }
  }

  /** The unwound content of a moved location is the moved unwound content. */
  lemma {:induction false} UnwoundMoves(
    m: Move, stack: seq<Txn>, headers: map<Addr, Header>, x: Loc, c: Cell)
    requires IsMove(m, headers.Keys) && StackMovable(m, stack) && x.obj in headers
    ensures Unwound(MoveStack(m, stack), Rekey(headers, m), MoveLoc(m, x), MoveCell(m, c)) ==
            MoveCell(m, Unwound(stack, headers, x, c))
    decreases |stack|
  {
    if stack != [] {
      assert KeysMovable(m, stack[0]);
      RecordedMoves(m, stack[0], headers, x);
      MoveStackRest(m, stack);
      UnwoundMoves(m, stack[1..], headers, x, Undone(stack[0], headers, x, c));
    }
  }

  lemma CollectKeepsCell(s: History, h0: Heap, m: Move, l: Loc)
    requires Good(s.w) && Enabled(s.w, Collect(m)) && CellKept(s, h0, l)
    requires l.obj in s.home && WellFormed(h0) && s.home.Keys == h0.headers.Keys
    requires forall a :: a in s.home ==> s.home[a] in s.w.heap.headers
    ensures CellKept(Next(s, Collect(m)), h0, l)
  {
    var r, x := Next(s, Collect(m)), HomeLoc(s.home, l);
    GoodStackMovable(m, s.w);
    MoveHeapAt(m, s.w.heap, x);
    assert HomeLoc(r.home, l) == MoveLoc(m, x);
    if Restorable(h0, l) && MoveLoc(m, x) !in r.leaked {
      assert x !in s.leaked;
      UnwoundMoves(m, s.w.stack, s.w.heap.headers, x, s.w.heap.cells[x]);
      assert CellOk(h0, l, h0.cells[l]);
      assert MoveCell(m, HomeCell(s.home, h0.cells[l])) == HomeCell(r.home, h0.cells[l]);
    }
  }

  lemma StepKeepsCell(s: History, h0: Heap, op: Op, l: Loc)
    requires Good(s.w) && Enabled(s.w, op) && WellFormed(h0) && s.home.Keys == h0.headers.Keys
    requires l.obj in s.home && CellKept(s, h0, l) && ObjectKept(s, h0, l.obj)
    requires forall a :: a in s.home ==> s.home[a] in s.w.heap.headers
    ensures CellKept(Next(s, op), h0, l)
  {
    match op
    case Exit => PopKeepsCell(s, h0, l);
    case RollbackAndExit => PopKeepsCell(s, h0, l);
    case Enter(strict, root) => EnterKeepsCell(s, h0, strict, root, l);
    case Write(loc, value, isVolatile) => WriteKeepsCell(s, h0, loc, value, isVolatile, l);
    case Allocate(_, _, _, _) => AllocateKeepsCell(s, h0, op, l);
    case Collect(m) => CollectKeepsCell(s, h0, m, l);
    case Intern(_, _) => SameRecordsKeepCell(s, Next(s, op), h0, l, HomeLoc(s.home, l));
    case Abort(_) => SameRecordsKeepCell(s, Next(s, op), h0, l, HomeLoc(s.home, l));
  }

  // --- Intern tables -------------------------------------------------------------------------------

  lemma {:induction false} UnwoundInternsMoves(m: Move, stack: seq<Txn>, tables: Interns)
    requires Inverse(m) && StackMovable(m, stack)
    ensures UnwoundInterns(MoveStack(m, stack), MoveInterns(m, tables)) ==
            MoveInterns(m, UnwoundInterns(stack, tables))
    decreases |stack|
  {
    if stack != [] {
      assert KeysMovable(m, stack[0]);
      MoveStackRest(m, stack);
      UndoAllMoves(m, stack[0].internLogs, tables);
      UnwoundInternsMoves(m, stack[1..], UndoAll(stack[0].internLogs, tables));
    }
  }

  lemma MoveHomeTable(m: Move, home: map<Addr, Addr>, table: map<string, Addr>)
    requires forall text :: text in table ==> table[text] in home
    ensures MoveTable(m, HomeTable(home, table)) ==
            HomeTable(map a | a in home :: At(m, home[a]), table)
  {
  }

  lemma CollectKeepsInterns(s: History, w0: World, m: Move)
    requires Good(s.w) && Good(w0) && Enabled(s.w, Collect(m))
    requires s.home.Keys == w0.heap.headers.Keys && InternsKept(s, w0.interns)
    ensures InternsKept(Next(s, Collect(m)), w0.interns)
  {
    GoodStackMovable(m, s.w);
    UnwoundInternsMoves(m, s.w.stack, s.w.interns);
    MoveHomeTable(m, s.home, w0.interns.strong);
    MoveHomeTable(m, s.home, w0.interns.weak);
  }

  lemma InternKeepsInterns(s: History, w0: World, str: Str, isStrong: bool)
    requires Good(s.w) && Enabled(s.w, Intern(str, isStrong)) && InternsKept(s, w0.interns)
    ensures InternsKept(Next(s, Intern(str, isStrong)), w0.interns)
  {
    var ops, t := InternOps(s.w.interns, str, isStrong), s.w.stack[0];
    InternOpsEffective(s.w.interns, str, isStrong);
    UndoRestoresTables(t.internLogs, ops, s.w.interns);
    assert Next(s, Intern(str, isStrong)).w.stack[1..] == s.w.stack[1..];
  }

  lemma SameLogKeepsInterns(s: History, r: History, w0: World)
    requires InternsKept(s, w0.interns) && r.home == s.home && r.internsLeaked == s.internsLeaked
    requires r.w.interns == s.w.interns && s.w.stack != [] && r.w.stack != []
    requires r.w.stack[0].internLogs == s.w.stack[0].internLogs && r.w.stack[1..] == s.w.stack[1..]
    ensures InternsKept(r, w0.interns)
  {
  }

  lemma WriteKeepsInterns(s: History, w0: World, op: Op)
    requires Good(s.w) && Enabled(s.w, op) && op.Write? && InternsKept(s, w0.interns)
    ensures InternsKept(Next(s, op), w0.interns)
  {
    SameLogKeepsInterns(s, Next(s, op), w0);
  }

  lemma PopKeepsInterns(s: History, w0: World)
    requires Good(s.w) && s.w.stack != [] && InternsKept(s, w0.interns)
    ensures InternsKept(Next(s, Exit), w0.interns) && InternsKept(Next(s, RollbackAndExit), w0.interns)
  {
  }

  lemma StepKeepsInterns(s: History, w0: World, op: Op)
    requires Good(s.w) && Good(w0) && Enabled(s.w, op)
    requires s.home.Keys == w0.heap.headers.Keys && InternsKept(s, w0.interns)
    ensures InternsKept(Next(s, op), w0.interns)
  {
    hide Good;
    match op
    case Collect(m) => CollectKeepsInterns(s, w0, m);
    case Intern(str, isStrong) => InternKeepsInterns(s, w0, str, isStrong);
    case Enter(_, _) => assert Next(s, op).w.stack[1..] == s.w.stack;
    case Exit => PopKeepsInterns(s, w0);
    case RollbackAndExit => PopKeepsInterns(s, w0);
    case Abort(_) => SameLogKeepsInterns(s, Next(s, op), w0);
    case Write(_, _, _) => WriteKeepsInterns(s, w0, op);
    case Allocate(_, _, _, _) => SameLogKeepsInterns(s, Next(s, op), w0);
  }

  // --- Runs --------------------------------------------------------------------------------------

  lemma StepKeepsObjects(s: History, h0: Heap, op: Op)
    requires Good(s.w) && Enabled(s.w, op) && ObjectsKept(s, h0)
    ensures ObjectsKept(Next(s, op), h0)
  {
    forall a | a in h0.headers
      ensures ObjectKept(Next(s, op), h0, a)
    {
      StepKeepsObject(s, h0, op, a);
    }
  }

  lemma StepKeepsCells(s: History, h0: Heap, op: Op)
    requires Good(s.w) && Enabled(s.w, op) && WellFormed(h0) && s.home.Keys == h0.headers.Keys
    requires ObjectsKept(s, h0) && CellsKept(s, h0)
    ensures CellsKept(Next(s, op), h0)
  {
    assert forall a :: a in s.home ==> ObjectKept(s, h0, a);
    forall l | l in h0.cells
      ensures CellKept(Next(s, op), h0, l)
    {
      assert CellOk(h0, l, h0.cells[l]);
      StepKeepsCell(s, h0, op, l);
    }
  }

  lemma StepKeeps(s: History, w0: World, op: Op)
    requires Good(w0) && Kept(s, w0) && Enabled(s.w, op)
    ensures Kept(Next(s, op), w0)
  {
    StepKeepsObjects(s, w0.heap, op);
    StepKeepsCells(s, w0.heap, op);
    StepKeepsInterns(s, w0, op);
    assert Next(s, op).home.Keys == s.home.Keys;
  }

  lemma BeginKeeps(w0: World)
    requires Good(w0) && w0.stack == []
    ensures Kept(Begin(w0), w0)
  {
  }

  lemma {:induction false} RunKeeps(s: History, w0: World, ops: seq<Op>)
    requires Good(w0) && Kept(s, w0) && CanRun(s, ops)
    ensures Kept(After(s, ops), w0)
    decreases |ops|
  {
    if ops != [] {
      StepKeeps(s, w0, ops[0]);
      RunKeeps(Next(s, ops[0]), w0, ops[1..]);
    }
  }

  lemma {:induction false} RollbackAllInterns(w: World)
    ensures RollbackAll(w).interns == UnwoundInterns(w.stack, w.interns)
    decreases |w.stack|
  {
    if w.stack != [] {
      RollbackAllInterns(RollbackTop(w));
    }
  }

  /**
   The main theorem. Start outside any transaction, run any operations, then roll back all open
   transactions: no transaction is left, every restorable location that did not lose its record
   in a commit has its initial content at its present address, and so have the intern tables
   unless a committed transaction had changed them.
   */
  lemma RollbackRestores(w0: World, ops: seq<Op>)
    requires Good(w0) && w0.stack == [] && CanRun(Begin(w0), ops)
    ensures var s := After(Begin(w0), ops);
            var r := RollbackAll(s.w);
            && r.stack == [] && !r.active
            && s.home.Keys == w0.heap.headers.Keys
            && (forall l :: Restorable(w0.heap, l) && HomeLoc(s.home, l) !in s.leaked ==>
                  HomeLoc(s.home, l) in r.heap.cells
                  && r.heap.cells[HomeLoc(s.home, l)] == HomeCell(s.home, w0.heap.cells[l]))
            && (!s.internsLeaked ==> r.interns == HomeInterns(s.home, w0.interns))
  {
    var s := After(Begin(w0), ops);
    var r := RollbackAll(s.w);
    BeginKeeps(w0);
    RunKeeps(Begin(w0), w0, ops);
    RollbackAllGood(s.w);
    RollbackAllInterns(s.w);
    forall l | Restorable(w0.heap, l) && HomeLoc(s.home, l) !in s.leaked
      ensures HomeLoc(s.home, l) in r.heap.cells
      ensures r.heap.cells[HomeLoc(s.home, l)] == HomeCell(s.home, w0.heap.cells[l])
    {
      assert CellKept(s, w0.heap, l);
      RollbackAllIsUnwinding(s.w, HomeLoc(s.home, l));
    }
  }
}
