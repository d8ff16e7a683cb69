/**
 Rolling back a whole stack of transactions, cell by cell, and why moving objects in between
 makes no difference.
 */
module Rollback {
  import opened Options
  import opened ManagedHeap
  import opened InternTables
  import opened Relocation
  import opened Transactions

  /** Heap, intern tables and the stack of open transactions, innermost first. */
  datatype World = World(heap: Heap, interns: Interns, stack: seq<Txn>, active: bool)

  /** What holds between any two operations. */
  predicate Good(w: World) {
    && WellFormed(w.heap)
    && InternsWithin(w.interns, w.heap)
    && (forall i :: 0 <= i < |w.stack| ==> TxnOk(w.stack[i], w.heap))
    && w.active == (w.stack != [])
  }

  predicate InternsWithin(tables: Interns, h: Heap) {
    && (forall text :: text in tables.strong ==> tables.strong[text] in h.headers)
    && (forall text :: text in tables.weak ==> tables.weak[text] in h.headers)
  }

  predicate TxnOk(t: Txn, h: Heap) {
    && LogsWithin(t, h)
    && !t.rollingBack
    && InternLogWithin(t.internLogs, h)
    && (t.root == NULL || t.root in h.headers)
    && (t.lastAllocated == NULL || t.lastAllocated in h.headers)
  }

  predicate InternLogWithin(log: seq<InternLog>, h: Heap) {
    forall i :: 0 <= i < |log| ==> log[i].str.addr in h.headers
  }

  // --- One location ------------------------------------------------------------------------------

  /** The content of a location after all transactions of a stack have been rolled back. */
  function Unwound(stack: seq<Txn>, headers: map<Addr, Header>, loc: Loc, c: Cell): Cell {
    if stack == [] then c
    else Unwound(stack[1..], headers, loc, Undone(stack[0], headers, loc, c))
  }

  predicate RecordedIn(stack: seq<Txn>, headers: map<Addr, Header>, loc: Loc) {
    exists i :: 0 <= i < |stack| && Recorded(stack[i], headers, loc).Some?
  }

  /** The outermost record of a location decides; without one the location keeps its content. */
  lemma {:induction false} UnwoundByRecord(
    stack: seq<Txn>, headers: map<Addr, Header>, loc: Loc, c: Cell, d: Cell)
    ensures RecordedIn(stack, headers, loc) ==>
              Unwound(stack, headers, loc, c) == Unwound(stack, headers, loc, d)
    ensures !RecordedIn(stack, headers, loc) ==> Unwound(stack, headers, loc, c) == c
  {
    if stack != [] {
      var rest := stack[1..];
      UnwoundByRecord(rest, headers, loc, Undone(stack[0], headers, loc, c), Undone(stack[0], headers, loc, d));
      if RecordedIn(stack, headers, loc) {
        var i :| 0 <= i < |stack| && Recorded(stack[i], headers, loc).Some?;
        if i > 0 {
          assert rest[i - 1] == stack[i];
        }
      }
      if RecordedIn(rest, headers, loc) {
        var i :| 0 <= i < |rest| && Recorded(rest[i], headers, loc).Some?;
        assert stack[i + 1] == rest[i];
      }
      assert !RecordedIn(stack, headers, loc) ==> Recorded(stack[0], headers, loc).None?;
    }
  }

  // --- The whole heap ----------------------------------------------------------------------------

  /** `RollbackAndExitTransactionMode` as a function of the world. */
  function RollbackTop(w: World): (r: World)
    requires w.stack != []
  {
    var t := w.stack[0];
    World(RolledBack(t, w.heap), UndoAll(t.internLogs, w.interns), w.stack[1..], |w.stack| > 1)
  }

  /** `RollbackAllTransactions` as a function of the world. */
  function RollbackAll(w: World): (r: World)
    ensures r.stack == [] && r.heap.headers == w.heap.headers
    ensures r.heap.cells.Keys == w.heap.cells.Keys
    decreases |w.stack|
  {
    if w.stack == [] then w else RollbackAll(RollbackTop(w))
  }

  lemma {:induction false} RollbackAllIsUnwinding(w: World, loc: Loc)
    requires loc in w.heap.cells
    ensures RollbackAll(w).heap.cells[loc] ==
            Unwound(w.stack, w.heap.headers, loc, w.heap.cells[loc])
    decreases |w.stack|
  {
    if w.stack != [] {
      RollbackAllIsUnwinding(RollbackTop(w), loc);
    }
  }

  lemma RolledBackWellFormed(t: Txn, h: Heap)
    requires WellFormed(h) && LogsWithin(t, h)
    ensures WellFormed(RolledBack(t, h))
  {
    var r := RolledBack(t, h);
    forall loc | loc in r.cells
      ensures CellOk(r, loc, r.cells[loc])
    {
      assert CellOk(h, loc, h.cells[loc]);
      if loc.Field? && loc.obj in t.objectLogs {
        assert ObjectLogWithin(t.objectLogs[loc.obj], loc.obj, h);
      }
    }
  }

  lemma LogsWithinSameCells(t: Txn, h: Heap, h': Heap)
    requires TxnOk(t, h)
    requires h'.headers == h.headers && h'.cells.Keys == h.cells.Keys
    ensures TxnOk(t, h')
  {
  }

  lemma {:induction false} UndoAllInternsWithin(log: seq<InternLog>, tables: Interns, h: Heap)
    requires InternsWithin(tables, h)
    requires InternLogWithin(log, h)
    ensures InternsWithin(UndoAll(log, tables), h)
    decreases |log|
  {
    if log != [] {
      UndoAllInternsWithin(log[1..], Undo(log[0], tables), h);
    }
  }

  lemma RollbackTopGood(w: World)
    requires Good(w) && w.stack != []
    ensures Good(RollbackTop(w))
  {
    var r := RollbackTop(w);
    assert TxnOk(w.stack[0], w.heap);
    RolledBackWellFormed(w.stack[0], w.heap);
    UndoAllInternsWithin(w.stack[0].internLogs, w.interns, w.heap);
    assert InternsWithin(r.interns, r.heap);
    forall i | 0 <= i < |r.stack|
      ensures TxnOk(r.stack[i], r.heap)
    {
      LogsWithinSameCells(w.stack[i + 1], w.heap, r.heap);
    }
  }

  // --- Moving objects ------------------------------------------------------------------------------

  predicate StackMovable(m: Move, stack: seq<Txn>) {
    forall i :: 0 <= i < |stack| ==> KeysMovable(m, stack[i])
  }

  function MoveStack(m: Move, stack: seq<Txn>): (r: seq<Txn>)
    requires Inverse(m) && StackMovable(m, stack)
    ensures |r| == |stack|
    ensures forall i :: 0 <= i < |stack| ==> r[i] == MoveTxn(m, stack[i])
  {
    seq(|stack|, i requires 0 <= i < |stack| => MoveTxn(m, stack[i]))
  }

  function MoveTable(m: Move, table: map<string, Addr>): map<string, Addr> {
    map text | text in table :: At(m, table[text])
  }

  function MoveInterns(m: Move, tables: Interns): Interns {
    Interns(MoveTable(m, tables.strong), MoveTable(m, tables.weak))
  }

  /** The world after a collection that moved every object. */
  function MoveWorld(m: Move, w: World): World
    requires WellFormed(w.heap) && IsMove(m, w.heap.headers.Keys) && StackMovable(m, w.stack)
  {
    World(MoveHeap(m, w.heap), MoveInterns(m, w.interns), MoveStack(m, w.stack), w.active)
  }

  lemma GoodStackMovable(m: Move, w: World)
    requires Good(w) && IsMove(m, w.heap.headers.Keys)
    ensures StackMovable(m, w.stack)
  {
  }

  function MoveOption(m: Move, c: Option<Cell>): Option<Cell> {
    match c
    case None => None
    case Some(c) => Some(MoveCell(m, c))
  }

  /** A moved transaction has recorded, for the moved location, the moved content. */
  lemma RecordedMoves(m: Move, t: Txn, headers: map<Addr, Header>, loc: Loc)
    requires IsMove(m, headers.Keys) && KeysMovable(m, t)
    requires loc.obj in headers
    ensures Recorded(MoveTxn(m, t), Rekey(headers, m), MoveLoc(m, loc)) ==
            MoveOption(m, Recorded(t, headers, loc))
  {
    var o := loc.obj;
    var t' := MoveTxn(m, t);
    assert m.from[m.to[o]] == o;
    assert Rekey(headers, m)[m.to[o]] == headers[o];
    match loc
    case Field(_, offset) =>
      assert ObjectLogOf(t', m.to[o]) == MoveObjectLog(m, ObjectLogOf(t, o));
    case Elem(_, index) =>
      assert ArrayLogOf(t', m.to[o]) == ArrayLogOf(t, o);
  }

  lemma MoveHeapAt(m: Move, h: Heap, loc: Loc)
    requires WellFormed(h) && IsMove(m, h.headers.Keys) && loc in h.cells
    ensures MoveLoc(m, loc) in MoveHeap(m, h).cells
    ensures MoveHeap(m, h).cells[MoveLoc(m, loc)] == MoveCell(m, h.cells[loc])
  {
  }

  lemma MoveHeapFrom(m: Move, h: Heap, x: Loc) returns (loc: Loc)
    requires WellFormed(h) && IsMove(m, h.headers.Keys) && x in MoveHeap(m, h).cells
    ensures loc in h.cells && MoveLoc(m, loc) == x
  {
    loc :| loc in h.cells && MoveLoc(m, loc) == x;
  }

  lemma RolledBackMovesAt(m: Move, t: Txn, h: Heap, loc: Loc)
    requires WellFormed(h) && WellFormed(RolledBack(t, h))
    requires IsMove(m, h.headers.Keys) && KeysMovable(m, t)
    requires loc in h.cells
    ensures var x := MoveLoc(m, loc);
            && x in RolledBack(MoveTxn(m, t), MoveHeap(m, h)).cells
            && x in MoveHeap(m, RolledBack(t, h)).cells
            && RolledBack(MoveTxn(m, t), MoveHeap(m, h)).cells[x] == MoveHeap(m, RolledBack(t, h)).cells[x]
  {
    MoveHeapAt(m, h, loc);
    MoveHeapAt(m, RolledBack(t, h), loc);
    assert CellOk(h, loc, h.cells[loc]);
    RecordedMoves(m, t, h.headers, loc);
  }

  lemma RolledBackMovesFrom(m: Move, t: Txn, h: Heap, a: Heap, b: Heap, x: Loc)
    requires WellFormed(h) && WellFormed(RolledBack(t, h))
    requires IsMove(m, h.headers.Keys) && KeysMovable(m, t)
    requires a == RolledBack(MoveTxn(m, t), MoveHeap(m, h)) && b == MoveHeap(m, RolledBack(t, h))
    ensures x in a.cells <==> x in b.cells
    ensures x in a.cells ==> a.cells[x] == b.cells[x]
  {
    if x in a.cells {
      var loc := MoveHeapFrom(m, h, x);
      RolledBackMovesAt(m, t, h, loc);
    } else if x in b.cells {
      var loc := MoveHeapFrom(m, RolledBack(t, h), x);
      RolledBackMovesAt(m, t, h, loc);
    }
  }

  lemma SameHeap(a: Heap, b: Heap)
    requires a.headers == b.headers
    requires forall x: Loc :: x in a.cells <==> x in b.cells
    requires forall x :: x in a.cells ==> a.cells[x] == b.cells[x]
    ensures a == b
  {
  }

  /** Rolling a moved transaction back on a moved heap moves the rolled-back heap. */
  lemma RolledBackMoves(m: Move, t: Txn, h: Heap)
    requires WellFormed(h) && WellFormed(RolledBack(t, h))
    requires IsMove(m, h.headers.Keys) && KeysMovable(m, t)
    ensures RolledBack(MoveTxn(m, t), MoveHeap(m, h)) == MoveHeap(m, RolledBack(t, h))
  {
    var a, b := RolledBack(MoveTxn(m, t), MoveHeap(m, h)), MoveHeap(m, RolledBack(t, h));
    forall x: Loc
      ensures x in a.cells <==> x in b.cells
      ensures x in a.cells ==> a.cells[x] == b.cells[x]
    {
      RolledBackMovesFrom(m, t, h, a, b, x);
    }
    SameHeap(a, b);
  }

  lemma {:induction false} UndoAllMoves(m: Move, log: seq<InternLog>, tables: Interns)
    ensures UndoAll(MoveInternLogs(m, log), MoveInterns(m, tables)) == MoveInterns(m, UndoAll(log, tables))
    decreases |log|
  {
    if log != [] {
      var moved := MoveInternLogs(m, log);
      assert moved[1..] == MoveInternLogs(m, log[1..]);
      UndoMoves(m, log[0], tables);
      UndoAllMoves(m, log[1..], Undo(log[0], tables));
    }
  }

  lemma UndoMoves(m: Move, log: InternLog, tables: Interns)
    ensures Undo(log.(str := log.str.(addr := At(m, log.str.addr))), MoveInterns(m, tables)) ==
            MoveInterns(m, Undo(log, tables))
  {
    var s, table := log.str, tables.Table(log.isStrong);
    if log.isInsert {
      assert MoveTable(m, table - {s.text}) == MoveTable(m, table) - {s.text};
    } else {
      assert MoveTable(m, table[s.text := s.addr]) == MoveTable(m, table)[s.text := At(m, s.addr)];
    }
  }

  lemma MoveStackRest(m: Move, stack: seq<Txn>)
    requires Inverse(m) && StackMovable(m, stack) && stack != []
    ensures StackMovable(m, stack[1..]) && MoveStack(m, stack)[1..] == MoveStack(m, stack[1..])
  {
  }

  lemma RollbackTopMoves(m: Move, w: World)
    requires WellFormed(w.heap) && IsMove(m, w.heap.headers.Keys)
    requires w.stack != [] && StackMovable(m, w.stack)
    requires WellFormed(RollbackTop(w).heap)
    ensures StackMovable(m, w.stack[1..])
    ensures RollbackTop(MoveWorld(m, w)) == MoveWorld(m, RollbackTop(w))
  {
    var t := w.stack[0];
    assert KeysMovable(m, t);
    RolledBackMoves(m, t, w.heap);
    UndoAllMoves(m, t.internLogs, w.interns);
    MoveStackRest(m, w.stack);
  }

  lemma {:induction false} RollbackAllGood(w: World)
    requires Good(w)
    ensures Good(RollbackAll(w)) && !RollbackAll(w).active
    decreases |w.stack|
  {
    if w.stack != [] {
      RollbackTopGood(w);
      RollbackAllGood(RollbackTop(w));
    }
  }

  /**
   Collecting and then rolling back every open transaction gives the same world as rolling back
   first and moving the objects afterwards.
   */
  lemma {:induction false} RollbackCommutesWithMove(m: Move, w: World)
    requires Good(w) && IsMove(m, w.heap.headers.Keys)
    ensures StackMovable(m, w.stack)
    ensures Good(RollbackAll(w))
    ensures RollbackAll(MoveWorld(m, w)) == MoveWorld(m, RollbackAll(w))
    decreases |w.stack|
  {
    GoodStackMovable(m, w);
    RollbackAllGood(w);
    if w.stack != [] {
      RollbackTopGood(w);
      RollbackTopMoves(m, w);
      RollbackCommutesWithMove(m, RollbackTop(w));
    }
  }
}
