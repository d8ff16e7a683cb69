/**
 What class initialisation does to the heap: which stores it performs and which it never does, when
 it is refused, which status it leaves, and that an initialiser that does nothing forbidden runs to
 its end.
 */
module InitEffects {
  import opened ManagedHeap
  import opened Relocation
  import opened Transactions
  import opened Rollback
  import opened TransactionRuns
  import opened Restoration
  import opened ClassInit

  // --- Single operations -----------------------------------------------------------------------------

  /** Bytecode may store here: not into the boot image and, in strict mode, into no class but the root. */
  predicate MayStore(w: World, obj: Addr)
    requires w.stack != [] && obj in w.heap.headers
  {
    && !w.heap.headers[obj].inBootImage
    && (w.heap.headers[obj].shape.ClassObject? && w.stack[0].strict ==> obj == w.stack[0].root)
  }

  /** The status of a class is not for bytecode to change. */
  predicate IsStatus(w: World, loc: Loc) {
    loc == Field(loc.obj, 112) && loc.obj in w.heap.headers && w.heap.headers[loc.obj].shape.ClassObject?
  }

  /** A store is performed exactly where bytecode may store, and aborts the transaction elsewhere. */
  lemma StorePerformedIff(s: History, op: Op)
    requires Good(s.w) && s.w.stack != [] && op.Write? && Enabled(s.w, op) && !IsStatus(s.w, op.loc)
    ensures MayStore(s.w, op.loc.obj) ==> Interpret(s, op) == Outcome([op], true, false)
    ensures !MayStore(s.w, op.loc.obj) ==> Interpret(s, op) == Outcome([Abort("Can't set fields")], false, false)
  {
  }

  /** Other operations of the interpreter are performed whenever they are possible. */
  lemma OthersPerformed(s: History, op: Op)
    requires Good(s.w) && s.w.stack != [] && Enabled(s.w, op) && (op.Allocate? || op.Intern? || op.Collect?)
    ensures Interpret(s, op) == Outcome([op], true, false)
  {
  }

  // --- Nothing forbidden is ever done ----------------------------------------------------------------

  predicate Permitted(w: World, op: Op) {
    && !op.RollbackAndExit?
    && (op.Write? ==> w.stack != [] && op.loc.obj in w.heap.headers
                      && (IsStatus(w, op.loc) || MayStore(w, op.loc.obj)))
  }

  predicate PermittedRun(s: History, ops: seq<Op>)
    requires Good(s.w) && CanRun(s, ops)
    decreases |ops|
  {
    ops == [] || (Permitted(s.w, ops[0]) && PermittedRun(Next(s, ops[0]), ops[1..]))
  }

  lemma PermittedOne(s: History, op: Op)
    requires Good(s.w) && Enabled(s.w, op) && Permitted(s.w, op)
    ensures CanRun(s, [op]) && PermittedRun(s, [op])
  {
    hide Good, Next, Enabled, Permitted;
    RunOne(s, op);
    assert [op][1..] == [];
  }

  lemma {:induction false} PermittedConcat(s: History, a: seq<Op>, b: seq<Op>)
    requires Good(s.w) && CanRun(s, a) && CanRun(After(s, a), b)
    requires PermittedRun(s, a) && PermittedRun(After(s, a), b)
    ensures CanRun(s, a + b) && PermittedRun(s, a + b)
    decreases |a|
  {
    hide Good, Next, Enabled, Permitted;
    RunConcat(s, a, b);
    if a == [] {
      assert a + b == b;
    } else {
      var n := RunRest(s, a);
      PermittedConcat(n, a[1..], b);
      assert (a + b)[1..] == a[1..] + b;
    }
  }

  lemma InterpretPermitted(s: History, op: Op)
    requires Good(s.w) && s.w.stack != []
    ensures PermittedRun(s, Interpret(s, op).ops)
  {
    hide WellFormed, TxnOk, InternsWithin, Next;
    if IsInterpreted(s.w, op) && Enabled(s.w, op) {
      PermittedOne(s, if IsRefused(s.w, op) then Abort("Can't set fields") else op);
    }
  }

  lemma {:induction false} BodyPermitted(s: History, body: seq<Action>)
    requires Good(s.w) && s.w.stack != []
    ensures PermittedRun(s, RunBody(s, body).ops)
    decreases body, 1
  {
    hide Good, Next, RunAction;
    if body != [] {
      var first := RunAction(s, body[0]);
      ActionPermitted(s, body[0]);
      if first.ok {
        var s' := After(s, first.ops);
        BodyPermitted(s', body[1..]);
        PermittedConcat(s, first.ops, RunBody(s', body[1..]).ops);
      }
    }
  }

  lemma {:induction false} ActionPermitted(s: History, action: Action)
    requires Good(s.w) && s.w.stack != []
    ensures PermittedRun(s, RunAction(s, action).ops)
    decreases action, 0
  {
    hide Good, Next, RunBody, Initialize, Interpret;
    match action
    case Throw =>
    case Do(op) => InterpretPermitted(s, op);
    case Initialise(nested) => InitPermitted(s, nested);
    case Try(body, handler) =>
      var first := RunBody(s, body);
      BodyPermitted(s, body);
      var s' := After(s, first.ops);
      if !first.ok && !IsAborted(s'.w) {
        BodyPermitted(s', handler);
        PermittedConcat(s, first.ops, RunBody(s', handler).ops);
      }
  }

  lemma {:induction false} InitPermitted(s: History, c: Clinit)
    requires Good(s.w) && s.w.stack != []
    ensures PermittedRun(s, Initialize(s, c).ops)
    decreases c, 3
  {
    hide Good, Next, InitializeStrictly, RunInitializer, Enabled;
    if StatusOf(s.w.heap, c.klass) < INITIALIZING {
      var refusal := Refusal(s.w, c);
      if refusal.Some? {
        AbortEnabled(s.w, refusal.value);
        PermittedOne(s, Abort(refusal.value));
      } else if StrictMode(s.w) {
        StrictPermitted(s, c);
      } else {
        InitializerPermitted(s, c);
      }
    }
  }

  predicate IsClass(w: World, klass: Addr) {
    klass in w.heap.headers && w.heap.headers[klass].shape.ClassObject?
  }

  lemma {:induction false} StrictPermitted(s: History, c: Clinit)
    requires Good(s.w) && s.w.stack != [] && IsClass(s.w, c.klass)
    ensures PermittedRun(s, InitializeStrictly(s, c).ops)
    decreases c, 2
  {
    hide Good, Next, RunInitializer, Enabled, Permitted;
    var enter := Enter(true, c.klass);
    EnterClass(s, c.klass);
    PermittedOne(s, enter);
    RunOne(s, enter);
    var s1 := Next(s, enter);
    InitializerPermitted(s1, c);
    var base := RunInitializer(s1, c);
    PermittedConcat(s, [enter], base.ops);
    RunConcat(s, [enter], base.ops);
    if base.ok {
      var s2 := After(s, [enter] + base.ops);
      RunOne(s2, Exit);
      ExitPermitted(s2);
      PermittedConcat(s, [enter] + base.ops, [Exit]);
    }
  }

  lemma EnterClass(s: History, klass: Addr)
    requires Good(s.w) && IsClass(s.w, klass)
    ensures Enabled(s.w, Enter(true, klass)) && Permitted(s.w, Enter(true, klass))
    ensures IsClass(Next(s, Enter(true, klass)).w, klass) && Next(s, Enter(true, klass)).w.stack != []
  {
    hide WellFormed, TxnOk, InternsWithin;
  }

  lemma ExitPermitted(s: History)
    requires Good(s.w) && s.w.stack != []
    ensures Enabled(s.w, Exit) && Permitted(s.w, Exit) && CanRun(s, [Exit]) && PermittedRun(s, [Exit])
  {
    hide WellFormed, TxnOk, InternsWithin;
    PermittedOne(s, Exit);
  }

  lemma {:induction false} InitializerPermitted(s: History, c: Clinit)
    requires Good(s.w) && s.w.stack != [] && IsClass(s.w, c.klass)
    ensures PermittedRun(s, RunInitializer(s, c).ops)
    decreases c, 1
  {
    hide Good, Next, RunBody, Finish;
    var status := StatusOf(s.w.heap, c.klass);
    var begin := SetStatus(c.klass, INITIALIZING);
    if status != ERROR_RESOLVED && status != ERROR_UNRESOLVED && Enabled(s.w, begin) {
      RunOne(s, begin);
      PermittedOne(s, begin);
      var s1 := Next(s, begin);
      BodyPermitted(s1, c.body);
      var body := RunBody(s1, c.body);
      PermittedConcat(s, [begin], body.ops);
      RunsThen(s, [begin], body.ops);
      FinishPermitted(s, c, Then(One(begin), body));
    }
  }

  lemma FinishPermitted(s: History, c: Clinit, r: Outcome)
    requires Good(s.w) && s.w.stack != [] && Runs(s, r.ops) && PermittedRun(s, r.ops) && IsClass(s.w, c.klass)
    ensures PermittedRun(s, Finish(s, c, r).ops)
  {
    hide Good, Next;
    var s' := After(s, r.ops);
    var ok := r.ok && !IsAborted(s'.w);
    var end := SetStatus(Moved(r.ops, c.klass), if ok then INITIALIZED else ERROR_RESOLVED);
    if Enabled(s'.w, end) {
      HeaderFollows(s, r.ops, c.klass);
      PermittedOne(s', end);
      PermittedConcat(s, r.ops, [end]);
    }
  }

  lemma HeaderStep(s: History, op: Op, a: Addr)
    requires Good(s.w) && Enabled(s.w, op) && a in s.w.heap.headers
    ensures var n := Next(s, op); Moved([op], a) in n.w.heap.headers
                                  && n.w.heap.headers[Moved([op], a)] == s.w.heap.headers[a]
  {
    hide WellFormed, TxnOk, InternsWithin, StackCanRekey, CellOk;
    assert [op][1..] == [];
    if op.Collect? {
      assert op.m.from[op.m.to[a]] == a;
    }
  }

  /** An object keeps its type, wherever it goes. */
  lemma {:induction false} HeaderFollows(s: History, ops: seq<Op>, a: Addr)
    requires Good(s.w) && CanRun(s, ops) && a in s.w.heap.headers
    ensures var n := After(s, ops); Moved(ops, a) in n.w.heap.headers
                                    && n.w.heap.headers[Moved(ops, a)] == s.w.heap.headers[a]
    decreases |ops|
  {
    hide Good, Enabled, Next;
    if ops != [] {
      var n := RunRest(s, ops);
      HeaderStep(s, ops[0], a);
      assert [ops[0]] + ops[1..] == ops;
      MovedConcat([ops[0]], ops[1..], a);
      HeaderFollows(n, ops[1..], Moved([ops[0]], a));
    }
  }

  // --- The boot image --------------------------------------------------------------------------------

  /** A cell of a boot image object other than the status of a class. */
  predicate InBootImage(h: Heap, loc: Loc) {
    && loc in h.cells && loc.obj in h.headers && h.headers[loc.obj].inBootImage
    && !(h.headers[loc.obj].shape.ClassObject? && loc == Field(loc.obj, 112))
  }

  predicate CellUnchanged(s: History, h0: Heap, loc: Loc)
    requires loc in h0.cells
  {
    HomeLoc(s.home, loc) in s.w.heap.cells
    && s.w.heap.cells[HomeLoc(s.home, loc)] == HomeCell(s.home, h0.cells[loc])
  }

  ghost predicate BootImageUnchanged(s: History, h0: Heap) {
    forall loc :: InBootImage(h0, loc) ==> CellUnchanged(s, h0, loc)
  }

  lemma BootCellStep(s: History, w0: World, op: Op, loc: Loc)
    requires Good(w0) && Kept(s, w0) && Enabled(s.w, op) && Permitted(s.w, op)
    requires InBootImage(w0.heap, loc) && CellUnchanged(s, w0.heap, loc)
    ensures CellUnchanged(Next(s, op), w0.heap, loc)
  {
    hide TxnOk, InternsWithin, CellsKept, InternsKept, StackCanRekey, WellFormed;
    var x, c := HomeLoc(s.home, loc), w0.heap.cells[loc];
    assert ObjectKept(s, w0.heap, loc.obj);
    assert CellOk(w0.heap, loc, c) by { GoodCell(w0, loc); }
    assert CellOk(s.w.heap, x, s.w.heap.cells[x]) by { GoodCell(s.w, x); }
    if op.Collect? {
      assert c.value.Ref? && c.value.addr in w0.heap.headers ==> ObjectKept(s, w0.heap, c.value.addr);
      MoveHeapAt(op.m, s.w.heap, x);
    }
  }

  lemma GoodCell(w: World, loc: Loc)
    requires Good(w) && loc in w.heap.cells
    ensures CellOk(w.heap, loc, w.heap.cells[loc])
  {
  }

  lemma {:induction false} PermittedKeepsBootImage(s: History, w0: World, ops: seq<Op>)
    requires Good(w0) && Kept(s, w0) && CanRun(s, ops) && PermittedRun(s, ops) && BootImageUnchanged(s, w0.heap)
    ensures BootImageUnchanged(After(s, ops), w0.heap)
    decreases |ops|
  {
    hide Enabled, Next, Permitted, WellFormed, TxnOk, InternsWithin, ObjectsKept, CellsKept, InternsKept;
    if ops != [] {
      var n := RunRest(s, ops);
      StepKeeps(s, w0, ops[0]);
      forall loc | InBootImage(w0.heap, loc)
        ensures CellUnchanged(n, w0.heap, loc)
      {
        BootCellStep(s, w0, ops[0], loc);
      }
      PermittedKeepsBootImage(n, w0, ops[1..]);
    }
  }

  /**
   Whatever a class initialiser and the initialisers it needs try to do, the boot image stays as it
   is, but for the status of its classes.
   */
  lemma BootImageNeverChanges(w0: World, c: Clinit, strict: bool)
    requires Good(w0) && w0.stack == [] && c.klass in w0.heap.headers
    ensures BootImageUnchanged(After(Begin(w0), Attempt(w0, c, strict).ops), w0.heap)
  {
    hide Next, Initialize, Enabled;
    AttemptRun(w0, c, strict);
    BeginKeeps(w0);
    var enter := Enter(strict, c.klass);
    var s1 := Next(Begin(w0), enter);
    StepKeeps(Begin(w0), w0, enter);
    InitPermitted(s1, c);
    assert BootImageUnchanged(s1, w0.heap);
    PermittedKeepsBootImage(s1, w0, Initialize(s1, c).ops);
  }

  // --- Refusal ---------------------------------------------------------------------------------------

  /** Initialisation that has begun, or is done, is not begun again. */
  lemma BegunOnce(s: History, c: Clinit)
    requires Good(s.w) && s.w.stack != [] && StatusOf(s.w.heap, c.klass) >= 13
    ensures Initialize(s, c) == Outcome([], true, false)
  {
  }

  predicate IsRefusedClass(w: World, c: Clinit)
    requires w.stack != []
  {
    || !IsClass(w, c.klass)
    || (if w.stack[0].strict
        then c.bootLoaded || w.heap.headers[c.klass].inBootImage
             || (!c.isInterface && c.superclass != NULL && StatusOf(w.heap, c.superclass) == 13)
        else c.inBootImageDex)
  }

  /**
   Without strict mode, classes from the boot image's dex files are refused; in strict mode boot
   classes are, and classes whose superclass is still being initialised. Refusing aborts and does
   nothing else; every other class that can be begun is begun.
   */
  lemma RefusedIff(s: History, c: Clinit)
    requires Good(s.w) && s.w.stack != [] && StatusOf(s.w.heap, c.klass) < 13
    ensures IsRefusedClass(s.w, c) ==>
              exists message :: Initialize(s, c) == Outcome([Abort(message)], false, false)
    ensures !IsRefusedClass(s.w, c) && s.w.stack[0].strict ==>
              Initialize(s, c).ops != [] && Initialize(s, c).ops[0] == Enter(true, c.klass)
    ensures !IsRefusedClass(s.w, c) && !s.w.stack[0].strict && CanBegin(s.w, c.klass) ==>
              Initialize(s, c).ops != [] && Initialize(s, c).ops[0] == SetStatus(c.klass, 13)
  {
    hide Good, Next, RunBody, Finish;
    if IsRefusedClass(s.w, c) {
      assert Initialize(s, c) == Outcome([Abort(Refusal(s.w, c).value)], false, false);
    } else if !StrictMode(s.w) && CanBegin(s.w, c.klass) {
      BeginsFirst(s, c);
    }
  }

  /** Not erroneous, and with a status field that can be set. */
  predicate CanBegin(w: World, klass: Addr) {
    var status := StatusOf(w.heap, klass);
    status < 13 && status != 2 && status != 3 && Enabled(w, SetStatus(klass, 13))
  }

  lemma BeginsFirst(s: History, c: Clinit)
    requires Good(s.w) && s.w.stack != [] && CanBegin(s.w, c.klass)
    ensures var begin := SetStatus(c.klass, 13);
            && Runs(s, [begin]) && Next(s, begin).w.stack != []
            && var body := RunBody(Next(s, begin), c.body);
               && Runs(s, [begin] + body.ops)
               && After(s, [begin] + body.ops) == After(Next(s, begin), body.ops)
               && RunInitializer(s, c) == Finish(s, c, Outcome([begin] + body.ops, body.ok, body.nestedFailed))
    ensures RunInitializer(s, c).ops != [] && RunInitializer(s, c).ops[0] == SetStatus(c.klass, 13)
  {
    hide Good, Next, RunBody;
    var begin := SetStatus(c.klass, 13);
    RunOne(s, begin);
    var body := RunBody(Next(s, begin), c.body);
    RunsThen(s, [begin], body.ops);
    assert Then(One(begin), body) == Outcome([begin] + body.ops, body.ok, body.nestedFailed);
  }

  /** A class that is erroneous is not initialised again. */
  lemma ErroneousFails(s: History, c: Clinit)
    requires Good(s.w) && s.w.stack != [] && !IsRefusedClass(s.w, c)
    requires StatusOf(s.w.heap, c.klass) == 2 || StatusOf(s.w.heap, c.klass) == 3
    ensures !Initialize(s, c).ok
    ensures Initialize(s, c).ops == if s.w.stack[0].strict then [Enter(true, c.klass)] else []
  {
    hide Good, Next, RunBody, Finish;
    if StrictMode(s.w) {
      EnterClass(s, c.klass);
      var s1 := Next(s, Enter(true, c.klass));
      SameStatus(s, c.klass);
      assert RunInitializer(s1, c) == FAILURE;
    }
  }

  lemma SameStatus(s: History, klass: Addr)
    requires Good(s.w) && Enabled(s.w, Enter(true, klass))
    ensures StatusOf(Next(s, Enter(true, klass)).w.heap, klass) == StatusOf(s.w.heap, klass)
  {
    hide WellFormed, TxnOk, InternsWithin;
  }

  // --- The status that is left ---------------------------------------------------------------------

  function MovedLoc(ops: seq<Op>, loc: Loc): Loc {
    loc.(obj := Moved(ops, loc.obj))
  }

  lemma CellStep(s: History, op: Op, loc: Loc)
    requires Good(s.w) && Enabled(s.w, op) && Permitted(s.w, op) && loc in s.w.heap.cells
    ensures var n := Next(s, op); MovedLoc([op], loc) in n.w.heap.cells
                                  && n.w.heap.cells[MovedLoc([op], loc)].kind == s.w.heap.cells[loc].kind
  {
    hide TxnOk, InternsWithin, StackCanRekey;
    assert [op][1..] == [];
    assert Moved([op], loc.obj) == if op.Collect? then At(op.m, loc.obj) else loc.obj;
    GoodCell(s.w, loc);
    if op.Collect? {
      MoveHeapAt(op.m, s.w.heap, loc);
      assert MovedLoc([op], loc) == MoveLoc(op.m, loc);
      assert Next(s, op).w.heap == MoveHeap(op.m, s.w.heap);
    }
  }

  /** A cell stays, with its type, wherever its object goes. */
  lemma {:induction false} CellFollows(s: History, ops: seq<Op>, loc: Loc)
    requires Good(s.w) && CanRun(s, ops) && PermittedRun(s, ops) && loc in s.w.heap.cells
    ensures var n := After(s, ops); MovedLoc(ops, loc) in n.w.heap.cells
                                    && n.w.heap.cells[MovedLoc(ops, loc)].kind == s.w.heap.cells[loc].kind
    decreases |ops|
  {
    hide Good, Enabled, Next, Permitted;
    if ops != [] {
      var n := RunRest(s, ops);
      CellStep(s, ops[0], loc);
      assert [ops[0]] + ops[1..] == ops;
      MovedConcat([ops[0]], ops[1..], loc.obj);
      CellFollows(n, ops[1..], MovedLoc([ops[0]], loc));
    }
  }

  lemma StatusSettable(w: World, w': World, klass: Addr, klass': Addr, status: int)
    requires Good(w) && Good(w') && w'.stack != [] && Enabled(w, SetStatus(klass, 13)) && (status == 2 || status == 14)
    requires StatusLoc(klass') in w'.heap.cells
    requires w'.heap.cells[StatusLoc(klass')].kind == w.heap.cells[StatusLoc(klass)].kind
    ensures Enabled(w', SetStatus(klass', status))
  {
    hide TxnOk, InternsWithin;
    GoodCell(w', StatusLoc(klass'));
  }

  lemma StatusSet(s: History, klass: Addr, status: int)
    requires Good(s.w) && Enabled(s.w, SetStatus(klass, status))
    ensures StatusOf(Next(s, SetStatus(klass, status)).w.heap, klass) == status
  {
    hide WellFormed, TxnOk, InternsWithin;
  }

  /** A class whose initialiser was run ends as initialised or as erroneous, as the result says. */
  lemma StatusAfterRun(s: History, c: Clinit)
    requires Good(s.w) && s.w.stack != [] && IsClass(s.w, c.klass) && CanBegin(s.w, c.klass)
    ensures var r := RunInitializer(s, c);
            StatusOf(After(s, r.ops).w.heap, Moved(r.ops, c.klass)) == if r.ok then 14 else 2
  {
    hide Good, Next, RunBody, Enabled;
    BeginsFirst(s, c);
    var begin := SetStatus(c.klass, 13);
    var body := RunBody(Next(s, begin), c.body);
    var r := Outcome([begin] + body.ops, body.ok, body.nestedFailed);
    var s' := After(s, r.ops);
    BeginPermitted(s, c, r.ops);
    BegunCell(s, c.klass);
    CellFollows(s, r.ops, StatusLoc(c.klass));
    var klass' := Moved(r.ops, c.klass);
    var status := if r.ok && !IsAborted(s'.w) then 14 else 2;
    StatusSettable(s.w, s'.w, c.klass, klass', status);
    var end := SetStatus(klass', status);
    RunOne(s', end);
    RunsThen(s, r.ops, [end]);
    StatusSet(s', klass', status);
    MovedConcat(r.ops, [end], c.klass);
    assert [end][1..] == [];
  }

  lemma BegunCell(s: History, klass: Addr)
    requires Enabled(s.w, SetStatus(klass, 13))
    ensures StatusLoc(klass) in s.w.heap.cells
  {
  }

  lemma BeginPermitted(s: History, c: Clinit, ops: seq<Op>)
    requires Good(s.w) && s.w.stack != [] && IsClass(s.w, c.klass) && CanBegin(s.w, c.klass)
    requires Next(s, SetStatus(c.klass, 13)).w.stack != []
    requires ops == [SetStatus(c.klass, 13)] + RunBody(Next(s, SetStatus(c.klass, 13)), c.body).ops
    ensures CanRun(s, ops) && PermittedRun(s, ops)
  {
    hide Good, Next, RunBody;
    var begin := SetStatus(c.klass, 13);
    RunOne(s, begin);
    PermittedOne(s, begin);
    BodyPermitted(Next(s, begin), c.body);
    PermittedConcat(s, [begin], RunBody(Next(s, begin), c.body).ops);
  }

  lemma EnterKeepsClass(s: History, klass: Addr)
    requires Good(s.w) && s.w.stack != [] && IsClass(s.w, klass) && CanBegin(s.w, klass)
    ensures var s1 := Next(s, Enter(true, klass));
            s1.w.stack == [NewTxn(true, klass)] + s.w.stack && s1.w.heap == s.w.heap && CanBegin(s1.w, klass)
  {
    hide WellFormed, TxnOk, InternsWithin;
  }

  lemma ExitKeepsHeap(s: History)
    requires Good(s.w) && s.w.stack != []
    ensures Enabled(s.w, Exit) && Next(s, Exit).w.heap == s.w.heap
  {
    hide WellFormed, TxnOk, InternsWithin;
  }

  lemma StrictStatus(s: History, c: Clinit)
    requires Good(s.w) && s.w.stack != [] && IsClass(s.w, c.klass) && CanBegin(s.w, c.klass)
    ensures var r := InitializeStrictly(s, c);
            StatusOf(After(s, r.ops).w.heap, Moved(r.ops, c.klass)) == if r.ok then 14 else 2
  {
    hide Good, Next, RunInitializer, Enabled;
    var enter := Enter(true, c.klass);
    EnterClass(s, c.klass);
    EnterKeepsClass(s, c.klass);
    RunOne(s, enter);
    var s1 := Next(s, enter);
    var base := RunInitializer(s1, c);
    StatusAfterRun(s1, c);
    RunConcat(s, [enter], base.ops);
    MovedConcat([enter], base.ops, c.klass);
    assert [enter][1..] == [];
    if base.ok {
      var s2 := After(s, [enter] + base.ops);
      ExitKeepsHeap(s2);
      RunOne(s2, Exit);
      RunConcat(s, [enter] + base.ops, [Exit]);
      MovedConcat([enter] + base.ops, [Exit], c.klass);
      assert [Exit][1..] == [];
    }
  }

  /** The result of initialising a class that can be initialised agrees with the status it leaves. */
  lemma StatusTellsResult(s: History, c: Clinit)
    requires Good(s.w) && s.w.stack != [] && CanBegin(s.w, c.klass) && !IsRefusedClass(s.w, c)
    ensures var r := Initialize(s, c);
            StatusOf(After(s, r.ops).w.heap, Moved(r.ops, c.klass)) == if r.ok then 14 else 2
  {
    hide Good, Next, RunInitializer, InitializeStrictly, Enabled;
    if StrictMode(s.w) {
      StrictStatus(s, c);
    } else {
      StatusAfterRun(s, c);
    }
  }

  // --- Initialisers that do nothing forbidden --------------------------------------------------------

  function Script(ops: seq<Op>): (body: seq<Action>)
    ensures |body| == |ops| && forall i :: 0 <= i < |ops| ==> body[i] == Do(ops[i])
  {
    seq(|ops|, i requires 0 <= i < |ops| => Do(ops[i]))
  }

  /** What the interpreter performs when it comes to it. */
  predicate Performable(w: World, op: Op) {
    && w.stack != [] && Enabled(w, op)
    && (op.Allocate? || op.Intern? || op.Collect?
        || (op.Write? && !IsStatus(w, op.loc) && MayStoreAt(w, op.loc)))
  }

  predicate MayStoreAt(w: World, loc: Loc) {
    w.stack != [] && loc.obj in w.heap.headers && MayStore(w, loc.obj)
  }

  predicate PerformableRun(s: History, ops: seq<Op>)
    requires Good(s.w)
    decreases |ops|
  {
    ops == [] || (Performable(s.w, ops[0]) && PerformableRun(Next(s, ops[0]), ops[1..]))
  }

  lemma Performed(s: History, op: Op)
    requires Good(s.w) && Performable(s.w, op)
    ensures Interpret(s, op) == Outcome([op], true, false) && CanRun(s, [op]) && After(s, [op]) == Next(s, op)
    ensures Next(s, op).w.stack != [] && IsAborted(Next(s, op).w) == IsAborted(s.w)
  {
    hide WellFormed, TxnOk, InternsWithin, StackCanRekey, CellOk;
    RunOne(s, op);
    if op.Write? {
      StorePerformedIff(s, op);
    } else {
      OthersPerformed(s, op);
    }
  }

  /** An initialiser made of such operations performs all of them, in order, and completes. */
  lemma {:induction false} ScriptPerformed(s: History, ops: seq<Op>)
    requires Good(s.w) && s.w.stack != [] && PerformableRun(s, ops)
    ensures RunBody(s, Script(ops)) == Outcome(ops, true, false)
    ensures CanRun(s, ops) && IsAborted(After(s, ops).w) == IsAborted(s.w)
    decreases |ops|
  {
    hide Good, Next, Performable, Interpret;
    if ops != [] {
      Performed(s, ops[0]);
      var n := Next(s, ops[0]);
      ScriptPerformed(n, ops[1..]);
      assert Script(ops)[1..] == Script(ops[1..]);
      assert RunAction(s, Script(ops)[0]) == Outcome([ops[0]], true, false);
      assert [ops[0]] + ops[1..] == ops;
      PerformedEnabled(s, ops[0]);
      RunFirst(s, n, ops);
    }
  }

  lemma PerformedEnabled(s: History, op: Op)
    requires Performable(s.w, op)
    ensures Enabled(s.w, op)
  {
  }

  /**
   Initialising a class whose initialiser does nothing forbidden succeeds: the status is set, the
   operations are performed, the status is set again; in strict mode in a transaction of their own.
   */
  lemma UnforbiddenSucceeds(s: History, c: Clinit, ops: seq<Op>)
    requires Good(s.w) && s.w.stack != [] && !IsAborted(s.w)
    requires CanBegin(s.w, c.klass) && !IsRefusedClass(s.w, c) && c.body == Script(ops)
    requires var s1 := if s.w.stack[0].strict then Next(s, Enter(true, c.klass)) else s;
             Enabled(s1.w, SetStatus(c.klass, 13)) && PerformableRun(Next(s1, SetStatus(c.klass, 13)), ops)
    ensures var run := [SetStatus(c.klass, 13)] + ops + [SetStatus(Moved(ops, c.klass), 14)];
            Initialize(s, c) ==
            Outcome(if s.w.stack[0].strict then [Enter(true, c.klass)] + run + [Exit] else run, true, false)
  {
    hide Good, Next, RunInitializer, Enabled, PerformableRun;
    if StrictMode(s.w) {
      EnterClass(s, c.klass);
      var s1 := Next(s, Enter(true, c.klass));
      EnterKeepsClass(s, c.klass);
      UnforbiddenRuns(s1, c, ops);
    } else {
      UnforbiddenRuns(s, c, ops);
    }
  }

  lemma UnforbiddenRuns(s: History, c: Clinit, ops: seq<Op>)
    requires Good(s.w) && s.w.stack != [] && !IsAborted(s.w) && IsClass(s.w, c.klass)
    requires CanBegin(s.w, c.klass) && c.body == Script(ops)
    requires Enabled(s.w, SetStatus(c.klass, 13)) && PerformableRun(Next(s, SetStatus(c.klass, 13)), ops)
    ensures RunInitializer(s, c) ==
            Outcome([SetStatus(c.klass, 13)] + ops + [SetStatus(Moved(ops, c.klass), 14)], true, false)
  {
    hide Good, Next, RunBody, Enabled, PerformableRun;
    BeginsFirst(s, c);
    var begin := SetStatus(c.klass, 13);
    var s1 := Next(s, begin);
    BeginKeepsGoing(s, c.klass);
    ScriptPerformed(s1, ops);
    var r := Outcome([begin] + ops, true, false);
    BeginPermitted(s, c, r.ops);
    BegunCell(s, c.klass);
    CellFollows(s, r.ops, StatusLoc(c.klass));
    MovedConcat([begin], ops, c.klass);
    assert [begin][1..] == [];
    var s' := After(s, r.ops);
    StatusSettable(s.w, s'.w, c.klass, Moved(ops, c.klass), 14);
  }

  lemma BeginKeepsGoing(s: History, klass: Addr)
    requires Good(s.w) && s.w.stack != [] && !IsAborted(s.w) && Enabled(s.w, SetStatus(klass, 13))
    ensures !IsAborted(Next(s, SetStatus(klass, 13)).w) && Next(s, SetStatus(klass, 13)).w.stack != []
  {
    hide WellFormed, TxnOk, InternsWithin;
  }
}
