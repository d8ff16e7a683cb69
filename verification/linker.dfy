/**
 The class linker's stack of transactions: entering, committing and rolling back transactions, the
 interpreter operations that record into the innermost one, and the root visit of a collection.
 Each method takes the linker's world exactly one step of a run further.
 */
module AotLinker {
  import opened ManagedHeap
  import opened InternTables
  import opened Relocation
  import opened Transactions
  import opened Rollback
  import opened TransactionRuns

  function Views(ts: seq<Transaction>): (r: seq<Txn>)
    reads ts
    ensures |r| == |ts| && forall i :: 0 <= i < |ts| ==> r[i] == ts[i].View()
  {
    if ts == [] then [] else [ts[0].View()] + Views(ts[1..])
  }

  predicate Distinct(ts: seq<Transaction>) {
    forall i, j :: 0 <= i < j < |ts| ==> ts[i] != ts[j]
  }

  class AotClassLinker {
    const rt: Runtime
    /** Open transactions, the innermost first. */
    var transactions: seq<Transaction>

    constructor (rt: Runtime)
      requires !rt.active
      ensures this.rt == rt && transactions == []
      ensures View() == World(rt.heap, rt.interns, [], false)
    {
      this.rt, transactions := rt, [];
    }

    function View(): World
      reads this, rt, transactions
    {
      World(rt.heap, rt.interns, Views(transactions), rt.active)
    }

    /** Every transaction is on the stack once. */
    predicate Valid()
      reads this
    {
      Distinct(transactions)
    }

    /** The flag always agrees with the stack: some transaction is open and none is rolling back. */
    method IsActiveTransaction() returns (active: bool)
      requires Good(View())
      ensures active <==> transactions != [] && !transactions[0].rollingBack
      ensures active <==> transactions != []
    {
      active := rt.active;
      assert transactions != [] ==> TxnOk(View().stack[0], rt.heap);
    }

    method IsActiveStrictTransactionMode() returns (strict: bool)
      requires Good(View())
      ensures strict <==> View().stack != [] && View().stack[0].strict
    {
      var active := IsActiveTransaction();
      strict := active && transactions[0].strict;
    }

    method EnterTransactionMode(strict: bool, root: Addr)
      requires Valid() && Enabled(View(), Enter(strict, root))
      modifies this`transactions, rt`active
      ensures Valid() && View() == Step(old(View()), Enter(strict, root))
      ensures transactions[1..] == old(transactions) && fresh(transactions[0])
    {
      hide Enabled, Views;
      ghost var stack := Views(transactions);
      var t := new Transaction(strict, root);
      transactions := [t] + transactions;
      rt.active := true;
      assert transactions[1..] == old(transactions);
      assert forall i :: 0 < i < |transactions| ==> transactions[i] == old(transactions)[i - 1];
      assert Views(transactions) == [NewTxn(strict, root)] + stack;
    }

    /** Commits the innermost transaction by dropping its logs. */
    method ExitTransactionMode()
      requires Valid() && transactions != [] && rt.active
      modifies this`transactions, rt`active
      ensures Valid() && View() == Step(old(View()), Exit)
      ensures transactions == old(transactions)[1..]
    {
      transactions := transactions[1..];
      if transactions == [] {
        rt.active := false;
      }
    }

    method RollbackAndExitTransactionMode()
      requires Valid() && transactions != [] && LogsWithin(transactions[0].View(), rt.heap)
      modifies this`transactions, rt, transactions[0]
      ensures Valid() && View() == RollbackTop(old(View()))
      ensures transactions == old(transactions)[1..]
    {
      hide Views;
      ghost var w := View();
      rt.active := false;
      transactions[0].Rollback(rt);
      assert Views(transactions[1..]) == w.stack[1..];
      transactions := transactions[1..];
      if transactions != [] {
        rt.active := true;
      }
    }

    /** Rolls back until no transaction is open. */
    method RollbackAllTransactions()
      requires Valid() && Good(View())
      modifies this`transactions, rt, transactions
      ensures Valid() && transactions == []
      ensures View() == RollbackAll(old(View()))
    {
      hide Views, WellFormed, InternsWithin, RolledBack, LogsWithin;
      ghost var all := transactions;
      var active := IsActiveTransaction();
      while active
        invariant Valid() && Good(View())
        invariant forall i :: 0 <= i < |transactions| ==> transactions[i] in all
        invariant active <==> transactions != []
        invariant RollbackAll(View()) == RollbackAll(old(View()))
        decreases |transactions|
      {
        RollbackTopGood(View());
        assert TxnOk(View().stack[0], rt.heap);
        RollbackAndExitTransactionMode();
        active := IsActiveTransaction();
      }
    }

    /** A field or element store: the old content is recorded, then the cell is overwritten. */
    method SetCell(loc: Loc, value: Value, isVolatile: bool)
      requires Valid() && Enabled(View(), Write(loc, value, isVolatile))
      modifies rt`heap, transactions[0]
      ensures Valid() && View() == Step(old(View()), Write(loc, value, isVolatile))
    {
      var c := rt.heap.cells[loc];
      RecordOldValue(loc, c, isVolatile);
      rt.SetCell(loc, c.(value := value));
    }

    method RecordOldValue(loc: Loc, c: Cell, isVolatile: bool)
      requires Valid() && transactions != [] && Fits(c.kind, c.value)
      modifies transactions[0]
      ensures Views(transactions) ==
              old(Views(transactions))[0 := RecordWrite(old(transactions[0].View()), loc, c, isVolatile)]
    {
      match loc {
        case Field(obj, offset) =>
          transactions[0].RecordWriteField(obj, offset, c.kind, c.value, isVolatile);
        case Elem(arr, index) =>
          transactions[0].RecordWriteArray(arr, index, Encode(c.kind, c.value));
      }
    }

    /** Allocates an object; the interpreter's own allocations are recorded as new. */
    method NewObject(addr: Addr, header: Header, fields: map<Loc, Cell>, recorded: bool)
      requires Valid() && Enabled(View(), Allocate(addr, header, fields, recorded))
      modifies rt`heap, transactions[0]
      ensures Valid() && View() == Step(old(View()), Allocate(addr, header, fields, recorded))
    {
      hide RecordNew, CellOk, Views;
      ghost var stack := Views(transactions);
      if recorded {
        RecordNewInTop(addr, header);
      } else {
        assert stack[0 := stack[0]] == stack;
      }
      rt.heap := Heap(rt.heap.headers[addr := header], rt.heap.cells + fields);
    }

    method RecordNewInTop(addr: Addr, header: Header)
      requires Valid() && transactions != []
      modifies transactions[0]
      ensures Views(transactions) ==
              old(Views(transactions))[0 := RecordNew(old(transactions[0].View()), addr, header)]
    {
      if header.IsArray() {
        transactions[0].RecordNewArray(addr, header);
      } else {
        transactions[0].RecordNewObject(addr);
      }
    }

    /** Fills the front of a primitive array: all old elements are recorded before any is replaced. */
    method FillArrayData(arr: Addr, data: seq<Value>)
      requires Valid() && CanFill(View(), arr, data)
      modifies rt`heap, transactions[0]
      ensures Valid() && View() == Filled(old(View()), arr, data)
    {
      var words := OldWords(rt.heap, arr, |data|);
      transactions[0].RecordArrayElements(arr, words);
      OverwriteElements(arr, data);
    }

    method OverwriteElements(arr: Addr, data: seq<Value>)
      requires HasElems(rt.heap, arr, |data|)
      modifies rt`heap
      ensures rt.heap == FilledHeap(old(rt.heap), arr, data, |data|)
    {
      ghost var h := rt.heap;
      assert h.cells == FilledHeap(h, arr, data, 0).cells;
      for i := 0 to |data|
        invariant rt.heap == FilledHeap(h, arr, data, i)
      {
        rt.SetCell(Elem(arr, i), rt.heap.cells[Elem(arr, i)].(value := data[i]));
        assert rt.heap.cells == FilledHeap(h, arr, data, i + 1).cells;
      }
    }

    /**
     Visits the roots of every transaction with a moving collector. No check fails exactly when
     every log can exchange its keys, and then every transaction refers to the new addresses.
     */
    method VisitTransactionRoots(m: Move) returns (ok: bool)
      requires Valid() && Inverse(m) && StackMovable(m, Views(transactions))
      modifies transactions
      ensures ok <==> StackCanRekey(old(Views(transactions)), m)
      ensures ok ==> Views(transactions) == MoveStack(m, old(Views(transactions)))
    {
      ok := VisitFrom(transactions, m);
    }

    /** The visit of the remaining part of the list. */
    static method VisitFrom(ts: seq<Transaction>, m: Move) returns (ok: bool)
      requires Distinct(ts) && Inverse(m) && StackMovable(m, Views(ts))
      modifies ts
      ensures ok <==> StackCanRekey(old(Views(ts)), m)
      ensures ok ==> Views(ts) == MoveStack(m, old(Views(ts)))
      decreases |ts|
    {
      hide MoveTxn, TxnCanRekey;
      ghost var stack := Views(ts);
      if ts == [] {
        return true;
      }
      assert KeysMovable(m, stack[0]);
      MoveStackRest(m, stack);
      ok := ts[0].VisitRoots(m);
      if !ok {
        return;
      }
      assert Views(ts[1..]) == stack[1..];
      ok := VisitFrom(ts[1..], m);
      StackCanRekeySplit(stack, m);
      assert ok ==> Views(ts) == [MoveTxn(m, stack[0])] + MoveStack(m, stack[1..]);
    }

    /** A moving collection: heap, intern tables and the roots of every transaction are updated. */
    method CollectGarbage(m: Move)
      requires Valid() && Enabled(View(), Collect(m))
      modifies rt`heap, rt`interns, transactions
      ensures Valid() && View() == Step(old(View()), Collect(m))
    {
      hide MoveTxn, MoveHeap, MoveInterns, WellFormed, IsMove, StackCanRekey, TxnCanRekey, KeysMovable;
      ghost var w := View();
      CanCollect(w, m);
      var ok := VisitTransactionRoots(m);
      MoveHeapAndInterns(m);
      assert View() == MoveWorld(m, w);
    }

    method MoveHeapAndInterns(m: Move)
      requires WellFormed(rt.heap) && IsMove(m, rt.heap.headers.Keys)
      modifies rt`heap, rt`interns
      ensures rt.heap == MoveHeap(m, old(rt.heap)) && rt.interns == MoveInterns(m, old(rt.interns))
    {
      rt.heap, rt.interns := MoveHeap(m, rt.heap), MoveInterns(m, rt.interns);
    }

    method AbortTransaction(message: string)
      requires Valid() && transactions != []
      modifies transactions[0]
      ensures Valid() && View() == Step(old(View()), Abort(message))
    {
      ghost var w := View();
      transactions[0].Abort(message);
      assert View().stack == w.stack[0 := Aborted(w.stack[0], message)];
    }

    /**
     Refuses a store by aborting, exactly for boot image objects and, in strict mode, for classes
     other than the root.
     */
    method TransactionWriteConstraint(obj: Addr) returns (refused: bool)
      requires Valid() && transactions != [] && obj in rt.heap.headers
      modifies transactions[0]
      ensures refused <==>
              rt.heap.headers[obj].inBootImage
              || (transactions[0].strict && rt.heap.headers[obj].shape.ClassObject? && obj != old(transactions[0].root))
      ensures Valid()
      ensures View() == if refused then Step(old(View()), Abort("Can't set fields")) else old(View())
    {
      refused := WriteConstraint(transactions[0].View(), obj, rt.heap.headers[obj]);
      if refused {
        AbortTransaction("Can't set fields");
      }
    }

    /** Interns a string, recording each change of the tables. */
    method InternString(s: Str, isStrong: bool) returns (result: Addr)
      requires Valid() && Enabled(View(), Intern(s, isStrong))
      modifies rt`interns, transactions[0]
      ensures Valid() && View() == Step(old(View()), Intern(s, isStrong))
      ensures result == Interned(old(rt.interns), s)
    {
      ghost var w := View();
      if s.text in rt.interns.strong {
        result := rt.interns.strong[s.text];
      } else if s.text in rt.interns.weak {
        result := rt.interns.weak[s.text];
        if isStrong {
          PromoteWeak(Str(result, s.text));
        }
      } else {
        result := s.addr;
        PerformIntern(InternLog(s, isStrong, true));
        OneOp(w.interns, w.stack[0].internLogs, InternOps(w.interns, s, isStrong));
      }
      assert View().stack == Step(w, Intern(s, isStrong)).stack;
    }

    method PromoteWeak(weak: Str)
      requires Valid() && transactions != []
      modifies rt`interns, transactions[0]
      ensures var ops := [InternLog(weak, false, false), InternLog(weak, true, true)];
              && rt.interns == ApplyAll(ops, old(rt.interns))
              && Views(transactions) == old(Views(transactions))[0 :=
                   old(transactions[0].View()).(internLogs := PushAll(old(transactions[0].internLogs), ops))]
    {
      TwoOps(rt.interns, transactions[0].internLogs,
             [InternLog(weak, false, false), InternLog(weak, true, true)]);
      PerformIntern(InternLog(weak, false, false));
      PerformIntern(InternLog(weak, true, true));
    }

    method PerformIntern(log: InternLog)
      requires Valid() && transactions != []
      modifies rt`interns, transactions[0]
      ensures rt.interns == Apply(log, old(rt.interns))
      ensures Views(transactions) == old(Views(transactions))[0 :=
                old(transactions[0].View()).(internLogs := [log] + old(transactions[0].internLogs))]
    {
      transactions[0].LogInternedString(log);
      if log.isInsert {
        rt.interns := Insert(rt.interns, log.isStrong, log.str);
      } else {
        rt.interns := Remove(rt.interns, log.isStrong, log.str);
      }
    }
  }

  lemma CanCollect(w: World, m: Move)
    requires Enabled(w, Collect(m))
    ensures Inverse(m) && IsMove(m, w.heap.headers.Keys) && WellFormed(w.heap)
    ensures StackMovable(m, w.stack) && StackCanRekey(w.stack, m)
  {
  }

  lemma StackCanRekeySplit(stack: seq<Txn>, m: Move)
    requires stack != []
    ensures StackCanRekey(stack, m) <==> TxnCanRekey(stack[0], m) && StackCanRekey(stack[1..], m)
  {
  }

  lemma OneOp(tables: Interns, log: seq<InternLog>, ops: seq<InternLog>)
    requires |ops| == 1
    ensures ApplyAll(ops, tables) == Apply(ops[0], tables)
    ensures PushAll(log, ops) == [ops[0]] + log
  {
  }

  lemma TwoOps(tables: Interns, log: seq<InternLog>, ops: seq<InternLog>)
    requires |ops| == 2
    ensures ApplyAll(ops, tables) == Apply(ops[1], Apply(ops[0], tables))
    ensures PushAll(log, ops) == [ops[1]] + ([ops[0]] + log)
  {
    OneOp(Apply(ops[0], tables), [ops[0]] + log, ops[1..]);
  }
}
