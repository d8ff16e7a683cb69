/**
 What committing a nested transaction loses, and why a strict run never loses the static fields
 of a class whose own transaction is still open.
 */
module Commits {
  import opened ManagedHeap
  import opened InternTables
  import opened Relocation
  import opened Transactions
  import opened Rollback
  import opened TransactionRuns
  import opened Restoration

  /**
   Commit the innermost transaction, then roll back the others. A location recorded by one of
   the others ends up as if nothing had been committed; any other location keeps its content.
   */
  lemma CommitThenRollback(w: World, loc: Loc)
    requires Good(w) && w.stack != [] && loc in w.heap.cells
    ensures var r := RollbackAll(Step(w, Exit));
            if RecordedIn(w.stack[1..], w.heap.headers, loc)
            then r.heap.cells[loc] == RollbackAll(w).heap.cells[loc]
            else r.heap.cells[loc] == w.heap.cells[loc]
  {
    var c, rest := w.heap.cells[loc], w.stack[1..];
    RollbackAllIsUnwinding(w, loc);
    RollbackAllIsUnwinding(Step(w, Exit), loc);
    UnwoundByRecord(rest, w.heap.headers, loc, c, Undone(w.stack[0], w.heap.headers, loc, c));
  }

  /** The transaction has logged the location, and would write it when rolled back. */
  predicate HasLogged(t: Txn, headers: map<Addr, Header>, loc: Loc) {
    && loc.obj in headers
    && match loc
       case Field(obj, offset) =>
         && obj in t.objectLogs && offset in t.objectLogs[obj].fieldValues && offset != 0
         && (offset == 8 ==> headers[obj].shape.Instance? || headers[obj].shape.ClassObject?)
       case Elem(arr, index) =>
         arr in t.arrayLogs && index in t.arrayLogs[arr].arrayValues && headers[arr].shape.PrimitiveArray?
  }

  /**
   A record is lost exactly when the transaction that has it is committed and no other open one has
   one for the same location; the intern log is lost exactly if it is not empty.
   */
  lemma LostIff(s: History, op: Op, loc: Loc)
    requires Good(s.w) && Enabled(s.w, op) && !op.Collect?
    ensures loc in Next(s, op).leaked <==>
            loc in s.leaked
            || (op.Exit? && loc in s.w.heap.cells && HasLogged(s.w.stack[0], s.w.heap.headers, loc)
                && forall i :: 0 < i < |s.w.stack| ==> !HasLogged(s.w.stack[i], s.w.heap.headers, loc))
    ensures Next(s, op).internsLeaked <==> s.internsLeaked || (op.Exit? && s.w.stack[0].internLogs != [])
  {
    hide WellFormed, TxnOk, InternsWithin;
    if op.Exit? {
      assert forall i :: 0 <= i < |s.w.stack| ==>
          (Recorded(s.w.stack[i], s.w.heap.headers, loc).Some? <==> HasLogged(s.w.stack[i], s.w.heap.headers, loc));
      assert forall i :: 0 < i < |s.w.stack| ==> s.w.stack[i] == s.w.stack[1..][i - 1];
    }
  }

  /** Without commits nothing is lost, so everything restorable is restored. */
  lemma {:induction false} NoCommitLosesNothing(s: History, ops: seq<Op>)
    requires Good(s.w) && CanRun(s, ops) && s.leaked == {} && !s.internsLeaked
    requires Exit !in ops
    ensures After(s, ops).leaked == {} && !After(s, ops).internsLeaked
    decreases |ops|
  {
    if ops != [] {
      assert ops[0] in ops && forall op :: op in ops[1..] ==> op in ops;
      NoCommitLosesNothing(Next(s, ops[0]), ops[1..]);
    }
  }

  /**
   In every run without commits, however transactions nest and objects move, rolling back gives
   every restorable location of the initial heap its initial content, and both intern tables
   their initial entries.
   */
  lemma RollbackRestoresEverything(w0: World, ops: seq<Op>)
    requires Good(w0) && w0.stack == [] && CanRun(Begin(w0), ops) && Exit !in ops
    ensures var s := After(Begin(w0), ops);
            var r := RollbackAll(s.w);
            && (forall l :: Restorable(w0.heap, l) ==>
                  HomeLoc(s.home, l) in r.heap.cells
                  && r.heap.cells[HomeLoc(s.home, l)] == HomeCell(s.home, w0.heap.cells[l]))
            && r.interns == HomeInterns(s.home, w0.interns)
  {
    NoCommitLosesNothing(Begin(w0), ops);
    RollbackRestores(w0, ops);
  }

  // --- Strict mode ---------------------------------------------------------------------------------

  /**
   A strict run around the class `root`: transactions are strict, the only class written to is the
   root of the innermost one, and no transaction whose root is this class is committed.
   */
  predicate Guarded(s: History, op: Op, root: Addr) {
    match op
    case Enter(strict, _) => strict
    case Write(loc, _, _) =>
      s.w.stack != [] && loc.obj in s.w.heap.headers
      && (s.w.heap.headers[loc.obj].shape.ClassObject? ==> loc.obj == s.w.stack[0].root)
    case Exit => s.w.stack != [] && s.w.stack[0].root != HomeOf(s.home, root)
    case _ => true
  }

  predicate GuardedRun(s: History, ops: seq<Op>, root: Addr)
    requires Good(s.w) && CanRun(s, ops)
    decreases |ops|
  {
    ops == [] || (Guarded(s, ops[0], root) && GuardedRun(Next(s, ops[0]), ops[1..], root))
  }

  /** A strict transaction has recorded fields of no class but its root. */
  predicate RecordsOnlyRoot(t: Txn, headers: map<Addr, Header>) {
    && t.strict
    && (forall obj :: obj in t.objectLogs && obj in headers && headers[obj].shape.ClassObject?
          ==> t.objectLogs[obj].fieldValues == map[] || obj == t.root)
  }

  predicate RootSafe(s: History, root: Addr) {
    && root in s.home && s.home[root] in s.w.heap.headers
    && s.w.heap.headers[s.home[root]].shape.ClassObject?
    && (forall i :: 0 <= i < |s.w.stack| ==> RecordsOnlyRoot(s.w.stack[i], s.w.heap.headers))
    && (forall loc :: loc in s.leaked ==> loc.obj in s.w.heap.headers && loc.obj != s.home[root])
  }

  lemma ExitKeepsRootSafe(s: History, root: Addr)
    requires Good(s.w) && s.w.stack != [] && Guarded(s, Exit, root) && RootSafe(s, root)
    ensures RootSafe(Next(s, Exit), root)
  {
  }

  lemma WriteKeepsRootSafe(s: History, op: Op, root: Addr)
    requires Good(s.w) && Enabled(s.w, op) && op.Write? && Guarded(s, op, root) && RootSafe(s, root)
    ensures RootSafe(Next(s, op), root)
  {
    var r := Next(s, op);
    forall i | 0 <= i < |r.w.stack|
      ensures RecordsOnlyRoot(r.w.stack[i], r.w.heap.headers)
    {
      assert RecordsOnlyRoot(s.w.stack[i], s.w.heap.headers);
    }
  }

  lemma CollectKeepsRootSafe(s: History, m: Move, root: Addr)
    requires Good(s.w) && Enabled(s.w, Collect(m)) && RootSafe(s, root)
    ensures RootSafe(Next(s, Collect(m)), root)
  {
    var r := Next(s, Collect(m));
    GoodStackMovable(m, s.w);
    forall i | 0 <= i < |r.w.stack|
      ensures RecordsOnlyRoot(r.w.stack[i], r.w.heap.headers)
    {
      var t, t' := s.w.stack[i], r.w.stack[i];
      assert KeysMovable(m, t) && RecordsOnlyRoot(t, s.w.heap.headers);
      assert t' == MoveTxn(m, t);
      forall obj | obj in t'.objectLogs && obj in r.w.heap.headers && r.w.heap.headers[obj].shape.ClassObject?
        ensures t'.objectLogs[obj].fieldValues == map[] || obj == t'.root
      {
        var o := m.from[obj];
        assert t'.objectLogs[obj] == MoveObjectLog(m, t.objectLogs[o]);
      }
    }
    forall x | x in r.leaked
      ensures x.obj in r.w.heap.headers && x.obj != r.home[root]
    {
      var loc :| loc in s.leaked && MoveLoc(m, loc) == x;
      assert m.from[m.to[loc.obj]] == loc.obj && m.from[m.to[s.home[root]]] == s.home[root];
    }
  }

  lemma RecordNewOnlyRoot(t: Txn, h: Heap, addr: Addr, header: Header)
    requires RecordsOnlyRoot(t, h.headers) && TxnOk(t, h) && addr !in h.headers
    ensures RecordsOnlyRoot(t, h.headers[addr := header])
    ensures RecordsOnlyRoot(RecordNew(t, addr, header), h.headers[addr := header])
  {
  }

  lemma AllocateKeepsRootSafe(s: History, op: Op, root: Addr)
    requires Good(s.w) && Enabled(s.w, op) && op.Allocate? && RootSafe(s, root)
    ensures RootSafe(Next(s, op), root)
  {
    var r := Next(s, op);
    forall i | 0 <= i < |r.w.stack|
      ensures RecordsOnlyRoot(r.w.stack[i], r.w.heap.headers)
    {
      RecordNewOnlyRoot(s.w.stack[i], s.w.heap, op.addr, op.header);
    }
  }

  lemma EnterKeepsRootSafe(s: History, op: Op, root: Addr)
    requires Good(s.w) && Enabled(s.w, op) && op.Enter? && op.strict && RootSafe(s, root)
    ensures RootSafe(Next(s, op), root)
  {
  }

  lemma RollbackKeepsRootSafe(s: History, root: Addr)
    requires Good(s.w) && s.w.stack != [] && RootSafe(s, root)
    ensures RootSafe(Next(s, RollbackAndExit), root)
  {
  }

  lemma StepKeepsRootSafe(s: History, op: Op, root: Addr)
    requires Good(s.w) && Enabled(s.w, op) && Guarded(s, op, root) && RootSafe(s, root)
    ensures RootSafe(Next(s, op), root)
  {
    match op
    case Enter(_, _) => EnterKeepsRootSafe(s, op, root);
    case Exit => ExitKeepsRootSafe(s, root);
    case RollbackAndExit => RollbackKeepsRootSafe(s, root);
    case Write(_, _, _) => WriteKeepsRootSafe(s, op, root);
    case Allocate(_, _, _, _) => AllocateKeepsRootSafe(s, op, root);
    case Collect(m) => CollectKeepsRootSafe(s, m, root);
    case Abort(_) =>
    case Intern(_, _) =>
  }

  lemma {:induction false} RunKeepsRootSafe(s: History, ops: seq<Op>, root: Addr)
    requires Good(s.w) && CanRun(s, ops) && GuardedRun(s, ops, root) && RootSafe(s, root)
    ensures RootSafe(After(s, ops), root)
    decreases |ops|
  {
    if ops != [] {
      StepKeepsRootSafe(s, ops[0], root);
      RunKeepsRootSafe(Next(s, ops[0]), ops[1..], root);
    }
  }

  /**
   Nested initialisers of other classes may commit in between; in a strict run the fields of a
   class are nevertheless all restored as long as its own transaction was not committed.
   */
  lemma RootClassRestored(w0: World, ops: seq<Op>, root: Addr)
    requires Good(w0) && w0.stack == [] && CanRun(Begin(w0), ops)
    requires root in w0.heap.headers && w0.heap.headers[root].shape.ClassObject?
    requires GuardedRun(Begin(w0), ops, root)
    ensures var s := After(Begin(w0), ops);
            var r := RollbackAll(s.w);
            && root in s.home
            && (forall offset :: offset != CLASS_OFFSET && Field(root, offset) in w0.heap.cells ==>
                  var x := Field(s.home[root], offset);
                  x in r.heap.cells && r.heap.cells[x] == HomeCell(s.home, w0.heap.cells[Field(root, offset)]))
  {
    var s := After(Begin(w0), ops);
    var r := RollbackAll(s.w);
    RunKeepsRootSafe(Begin(w0), ops, root);
    RollbackRestores(w0, ops);
    forall offset | offset != CLASS_OFFSET && Field(root, offset) in w0.heap.cells
      ensures var x := Field(s.home[root], offset);
              x in r.heap.cells && r.heap.cells[x] == HomeCell(s.home, w0.heap.cells[Field(root, offset)])
    {
      var l := Field(root, offset);
      assert CellOk(w0.heap, l, w0.heap.cells[l]);
      assert Restorable(w0.heap, l) && HomeLoc(s.home, l) !in s.leaked;
    }
  }
}
