/**
 Class initialisation on the linker itself: each method changes the linker's world as the script
 semantics of `ClassInit` says. Every method also takes the handles in scope, addresses that
 collections keep up to date.
 */
module ClassInitializer {

  import opened Options
  import opened ManagedHeap
  import opened Relocation
  import opened Transactions
  import opened Rollback
  import opened TransactionRuns
  import opened Restoration
  import opened AotLinker
  import opened ClassInit

  // --- What the scripts do, step by step -------------------------------------------------------------------

  function MovedAll(ops: seq<Op>, handles: seq<Addr>): (r: seq<Addr>)
    ensures |r| == |handles|
  {
    seq(|handles|, i requires 0 <= i < |handles| => Moved(ops, handles[i]))
  }

  lemma MovedAllConcat(a: seq<Op>, b: seq<Op>, handles: seq<Addr>)
    ensures MovedAll(a + b, handles) == MovedAll(b, MovedAll(a, handles))
  {
    forall i | 0 <= i < |handles|
      ensures MovedAll(a + b, handles)[i] == MovedAll(b, MovedAll(a, handles))[i]
    {
      MovedConcat(a, b, handles[i]);
    }
  }

  /** Where a piece of initialisation leads, how it ends, and where the handles then point. */
  datatype Result = Result(s: History, ok: bool, handles: seq<Addr>)

  function Of(s: History, r: Outcome, handles: seq<Addr>): Result
    requires Good(s.w) && Runs(s, r.ops)
  {
    Result(After(s, r.ops), r.ok, MovedAll(r.ops, handles))
  }

  lemma OfThen(s: History, a: Outcome, b: Outcome, h: seq<Addr>)
    requires Good(s.w) && Runs(s, a.ops) && Runs(After(s, a.ops), b.ops)
    ensures Runs(s, Then(a, b).ops) && Of(s, Then(a, b), h) == Of(After(s, a.ops), b, MovedAll(a.ops, h))
  {
    hide Good, Next;
    RunsThen(s, a.ops, b.ops);
    MovedAllConcat(a.ops, b.ops, h);
  }

  lemma RunsOne(s: History, op: Op)
    requires Good(s.w) && Enabled(s.w, op) && !op.Exit? && !op.RollbackAndExit?
    ensures Runs(s, [op]) && After(s, [op]) == Next(s, op)
  {
    hide Good, Enabled, Next;
    RunOne(s, op);
  }

  lemma MovedOne(op: Op, h: seq<Addr>)
    ensures MovedAll([op], h) == if op.Collect? then VisitHandles(op.m, h) else h
  {
    forall i | 0 <= i < |h|
      ensures Moved([op], h[i]) == if op.Collect? then At(op.m, h[i]) else h[i]
    {
      assert [op][1..] == [];
    }
  }

  function VisitHandles(m: Move, handles: seq<Addr>): seq<Addr> {
    seq(|handles|, i requires 0 <= i < |handles| => At(m, handles[i]))
  }

  lemma NeverMoved(s: History, ok: bool, h: seq<Addr>)
    requires Good(s.w)
    ensures Runs(s, []) && Of(s, Outcome([], ok, false), h) == Result(s, ok, h)
  {
    assert MovedAll([], h) == h;
  }

  lemma NextWorld(s: History, op: Op)
    requires Good(s.w) && Enabled(s.w, op)
    ensures Next(s, op).w == Step(s.w, op)
    ensures !op.Exit? && !op.RollbackAndExit? && s.w.stack != [] ==> Next(s, op).w.stack != []
  {
    hide Good;
    RunOne(s, op);
  }

  lemma BodySteps(s: History, body: seq<Action>, h: seq<Addr>)
    requires Good(s.w) && s.w.stack != []
    ensures body == [] ==> Of(s, RunBody(s, body), h) == Result(s, true, h)
    ensures body != [] ==>
              var f := Of(s, RunAction(s, body[0]), h);
              && f.s.w.stack != []
              && Of(s, RunBody(s, body), h) == if f.ok then Of(f.s, RunBody(f.s, body[1..]), f.handles) else f
  {
    hide Good, Next, RunAction;
    if body != [] {
      var first := RunAction(s, body[0]);
      if first.ok {
        OfThen(s, first, RunBody(After(s, first.ops), body[1..]), h);
      }
    }
  }

  lemma TrySteps(s: History, body: seq<Action>, handler: seq<Action>, h: seq<Addr>)
    requires Good(s.w) && s.w.stack != []
    ensures var f := Of(s, RunBody(s, body), h);
            && f.s.w.stack != []
            && Of(s, RunAction(s, Try(body, handler)), h) ==
               if f.ok || IsAborted(f.s.w) then f else Of(f.s, RunBody(f.s, handler), f.handles)
  {
    hide Good, Next, RunBody;
    var first := RunBody(s, body);
    var s' := After(s, first.ops);
    if !first.ok && !IsAborted(s'.w) {
      OfThen(s, first, RunBody(s', handler), h);
    }
  }

  predicate Erroneous(h: Heap, klass: Addr) {
    StatusOf(h, klass) == ERROR_RESOLVED || StatusOf(h, klass) == ERROR_UNRESOLVED
  }

  lemma InitializerSteps(s: History, c: Clinit, h: seq<Addr>)
    requires Good(s.w) && s.w.stack != []
    ensures var begin := SetStatus(c.klass, INITIALIZING);
            if Erroneous(s.w.heap, c.klass) || !Enabled(s.w, begin) then
              Of(s, RunInitializer(s, c), h) == Result(s, false, h)
            else
              var s1 := Next(s, begin);
              && s1.w.stack != []
              && var b := Of(s1, RunBody(s1, c.body), h + [c.klass]);
                 var ok := b.ok && !IsAborted(b.s.w);
                 && b.s.w.stack != [] && |b.handles| == |h| + 1
                 && var end := SetStatus(b.handles[|h|], if ok then INITIALIZED else ERROR_RESOLVED);
                    Of(s, RunInitializer(s, c), h) ==
                    if Enabled(b.s.w, end) then Result(Next(b.s, end), ok, b.handles[..|h|])
                    else Result(b.s, false, b.handles[..|h|])
  {
    hide Good, Next, RunBody, Enabled;
    var begin := SetStatus(c.klass, INITIALIZING);
    if Erroneous(s.w.heap, c.klass) || !Enabled(s.w, begin) {
      NeverMoved(s, false, h);
    } else {
      RunsOne(s, begin);
      var s1 := Next(s, begin);
      var body := RunBody(s1, c.body);
      var r := Then(One(begin), body);
      assert Then(One(begin), body).ops == [begin] + body.ops;
      RunsThen(s, [begin], body.ops);
      MovedOne(begin, h + [c.klass]);
      MovedAllConcat([begin], body.ops, h + [c.klass]);
      assert MovedAll(r.ops, h + [c.klass])[|h|] == Moved(r.ops, c.klass);
      assert MovedAll(r.ops, h + [c.klass])[..|h|] == MovedAll(r.ops, h);
      var b := After(s, r.ops);
      var ok := r.ok && !IsAborted(b.w);
      var end := SetStatus(Moved(r.ops, c.klass), if ok then INITIALIZED else ERROR_RESOLVED);
      if Enabled(b.w, end) {
        RunsOne(b, end);
        MovedOne(end, MovedAll(r.ops, h));
        OfThen(s, r, Outcome([end], ok, false), h);
      }
    }
  }

  lemma StrictSteps(s: History, c: Clinit, h: seq<Addr>)
    requires Good(s.w) && StrictMode(s.w) && c.klass in s.w.heap.headers
    ensures var s1 := Next(s, Enter(true, c.klass));
            && s1.w.stack != []
            && var b := Of(s1, RunInitializer(s1, c), h);
               && |b.s.w.stack| > |s.w.stack|
               && Of(s, InitializeStrictly(s, c), h) == if b.ok then Result(Next(b.s, Exit), true, b.handles) else b
  {
    hide Good, RunInitializer, Next, InitializeStrictly;
    var enter := Enter(true, c.klass);
    RunOne(s, enter);
    var base := RunInitializer(Next(s, enter), c);
    StrictRun(s, c);
    MovedOne(enter, h);
    MovedAllConcat([enter], base.ops, h);
    if base.ok {
      MovedOne(Exit, MovedAll([enter] + base.ops, h));
      MovedAllConcat([enter] + base.ops, [Exit], h);
    } else {
      assert [enter] + base.ops + [] == [enter] + base.ops;
    }
  }

  // --- On the linker -----------------------------------------------------------------------------------------

  /** The linker is in the world of the history, with a transaction open. */
  predicate In(l: AotClassLinker, s: History)
    reads l, l.rt, l.transactions
  {
    l.Valid() && Good(s.w) && l.View() == s.w && s.w.stack != []
  }

  method Refuse(l: AotClassLinker, message: string, ghost s: History)
    requires In(l, s)
    modifies l.transactions[0]
    ensures In(l, Next(s, Abort(message)))
  {
    hide WellFormed, TxnOk, InternsWithin;
    NextWorld(s, Abort(message));
    l.AbortTransaction(message);
  }

  /** The checks that come before the initialisation of a class. */
  method CheckRefusal(l: AotClassLinker, c: Clinit, strictMode: bool) returns (refusal: Option<string>)
    requires strictMode == StrictMode(l.View())
    ensures refusal == Refusal(l.View(), c)
  {
    if c.klass !in l.rt.heap.headers || !l.rt.heap.headers[c.klass].shape.ClassObject? {
      return Some("no such class");
    }
    if !strictMode && c.inBootImageDex {
      return Some("defined in a boot image dex file");
    }
    if strictMode && (c.bootLoaded || l.rt.heap.headers[c.klass].inBootImage) {
      return Some("uninitialized boot class");
    }
    if strictMode && !c.isInterface && c.superclass != NULL
       && StatusOf(l.rt.heap, c.superclass) == INITIALIZING {
      return Some("superclass is not initialized");
    }
    return None;
  }

  /** How a method is to end: in the world, with the result and with the handle that the script gives. */
  predicate Ends(l: AotClassLinker, r: Result, ok: bool, handles: seq<Addr>)
    reads l, l.rt, l.transactions
  {
    In(l, r.s) && ok == r.ok && handles == r.handles
  }

  lemma InitSteps(s: History, c: Clinit, h: seq<Addr>)
    requires Good(s.w) && s.w.stack != []
    ensures StatusOf(s.w.heap, c.klass) >= INITIALIZING ==> Of(s, Initialize(s, c), h) == Result(s, true, h)
    ensures StatusOf(s.w.heap, c.klass) < INITIALIZING ==>
              var refusal := Refusal(s.w, c);
              if refusal.Some? then Of(s, Initialize(s, c), h) == Result(Next(s, Abort(refusal.value)), false, h)
              else c.klass in s.w.heap.headers
                   && Initialize(s, c) == if StrictMode(s.w) then InitializeStrictly(s, c) else RunInitializer(s, c)
  {
    hide Good, Next, InitializeStrictly, RunInitializer;
    if StatusOf(s.w.heap, c.klass) >= INITIALIZING {
      NeverMoved(s, true, h);
    } else if Refusal(s.w, c).Some? {
      RunsOne(s, Abort(Refusal(s.w, c).value));
      MovedOne(Abort(Refusal(s.w, c).value), h);
    }
  }

  /** Wraps the initialisation of a class in a transaction when in strict mode. */
  method InitializeClass(l: AotClassLinker, c: Clinit, handles: seq<Addr>, ghost s: History)
    returns (success: bool, handles': seq<Addr>)
    requires In(l, s)
    modifies l`transactions, l.rt, l.transactions
    ensures Ends(l, Of(s, Initialize(s, c), handles), success, handles')
    ensures forall i :: 0 <= i < |l.transactions| ==>
              l.transactions[i] in old(l.transactions) || fresh(l.transactions[i])
    decreases c, 3
  {
    var strictMode := l.IsActiveStrictTransactionMode();
    hide Of, Initialize, InitializeStrictly, RunInitializer, Next, Good, Step, Refusal;
    InitSteps(s, c, handles);
    if StatusOf(l.rt.heap, c.klass) >= INITIALIZING {
      return true, handles;
    }
    var refusal := CheckRefusal(l, c, strictMode);
    if refusal.Some? {
      Refuse(l, refusal.value, s);
      return false, handles;
    }
    if strictMode {
      success, handles' := InitializeInTransaction(l, c, handles, s);
    } else {
      success, handles' := BaseInitializeClass(l, c, handles, s);
    }
  }

  method InitializeInTransaction(l: AotClassLinker, c: Clinit, handles: seq<Addr>, ghost s: History)
    returns (success: bool, handles': seq<Addr>)
    requires In(l, s) && StrictMode(s.w) && c.klass in s.w.heap.headers
    modifies l`transactions, l.rt, l.transactions
    ensures Ends(l, Of(s, InitializeStrictly(s, c), handles), success, handles')
    ensures forall i :: 0 <= i < |l.transactions| ==>
              l.transactions[i] in old(l.transactions) || fresh(l.transactions[i])
    decreases c, 2
  {
    hide Of, InitializeStrictly, RunInitializer, Next, Good, Step;
    StrictSteps(s, c, handles);
    Open(l, c.klass, s);
    ghost var s1 := Next(s, Enter(true, c.klass));
    success, handles' := BaseInitializeClass(l, c, handles, s1);
    if success {
      Commit(l, Of(s1, RunInitializer(s1, c), handles).s);
    }
  }

  method Open(l: AotClassLinker, klass: Addr, ghost s: History)
    requires In(l, s) && klass in s.w.heap.headers
    modifies l`transactions, l.rt`active
    ensures In(l, Next(s, Enter(true, klass)))
    ensures forall i :: 0 <= i < |l.transactions| ==>
              l.transactions[i] in old(l.transactions) || fresh(l.transactions[i])
  {
    hide Next, Step, Good;
    NextWorld(s, Enter(true, klass));
    l.EnterTransactionMode(true, klass);
    assert forall i :: 0 < i < |l.transactions| ==> l.transactions[i] == l.transactions[1..][i - 1];
  }

  method Commit(l: AotClassLinker, ghost s: History)
    requires In(l, s) && |s.w.stack| > 1
    modifies l`transactions, l.rt`active
    ensures In(l, Next(s, Exit))
    ensures forall i :: 0 <= i < |l.transactions| ==> l.transactions[i] in old(l.transactions)
  {
    hide Next, Step;
    NextWorld(s, Exit);
    RunOne(s, Exit);
    l.ExitTransactionMode();
  }

  /** The class linker's own initialisation: status changes around the initialiser. */
  method BaseInitializeClass(l: AotClassLinker, c: Clinit, handles: seq<Addr>, ghost s: History)
    returns (success: bool, handles': seq<Addr>)
    requires In(l, s)
    modifies l`transactions, l.rt, l.transactions
    ensures Ends(l, Of(s, RunInitializer(s, c), handles), success, handles')
    ensures forall i :: 0 <= i < |l.transactions| ==>
              l.transactions[i] in old(l.transactions) || fresh(l.transactions[i])
    decreases c, 1
  {
    hide Of, RunInitializer, RunBody, Next, Good, Step, Enabled;
    InitializerSteps(s, c, handles);
    if Erroneous(l.rt.heap, c.klass) {
      return false, handles;
    }
    var begun := TrySetStatus(l, c.klass, INITIALIZING, s);
    if !begun {
      return false, handles;
    }
    ghost var s1 := Next(s, SetStatus(c.klass, INITIALIZING));
    var n := |handles|;
    success, handles' := RunActions(l, c.body, handles + [c.klass], s1);
    ghost var b := Of(s1, RunBody(s1, c.body), handles + [c.klass]);
    success := success && !l.transactions[0].aborted;
    var ended := TrySetStatus(l, handles'[n], if success then INITIALIZED else ERROR_RESOLVED, b.s);
    success, handles' := success && ended, handles'[..n];
  }

  method TrySetStatus(l: AotClassLinker, klass: Addr, status: int, ghost s: History) returns (done: bool)
    requires In(l, s)
    modifies l.rt`heap, l.transactions[0]
    ensures done == Enabled(s.w, SetStatus(klass, status))
    ensures In(l, if done then Next(s, SetStatus(klass, status)) else s)
  {
    hide WellFormed, TxnOk, InternsWithin;
    done := Enabled(l.View(), SetStatus(klass, status));
    if done {
      NextWorld(s, SetStatus(klass, status));
      l.SetCell(StatusLoc(klass), Word(status), true);
    }
  }

  /** Runs the initialiser's actions in turn until one of them ends with an exception. */
  method RunActions(l: AotClassLinker, body: seq<Action>, handles: seq<Addr>, ghost s: History)
    returns (ok: bool, handles': seq<Addr>)
    requires In(l, s)
    modifies l`transactions, l.rt, l.transactions
    ensures Ends(l, Of(s, RunBody(s, body), handles), ok, handles')
    ensures forall i :: 0 <= i < |l.transactions| ==>
              l.transactions[i] in old(l.transactions) || fresh(l.transactions[i])
    decreases body, 1
  {
    hide Of, RunBody, RunAction, Next, Good, Step;
    BodySteps(s, body, handles);
    if body == [] {
      return true, handles;
    }
    ok, handles' := Perform(l, body[0], handles, s);
    if ok {
      ok, handles' := RunActions(l, body[1..], handles', Of(s, RunAction(s, body[0]), handles).s);
    }
  }

  /** One action; an exception is caught unless the innermost transaction is aborted. */
  method Perform(l: AotClassLinker, action: Action, handles: seq<Addr>, ghost s: History)
    returns (ok: bool, handles': seq<Addr>)
    requires In(l, s)
    modifies l`transactions, l.rt, l.transactions
    ensures Ends(l, Of(s, RunAction(s, action), handles), ok, handles')
    ensures forall i :: 0 <= i < |l.transactions| ==>
              l.transactions[i] in old(l.transactions) || fresh(l.transactions[i])
    decreases action, 0
  {
    hide Of, RunBody, Initialize, Interpret, Next, Good, Step;
    match action {
      case Throw =>
        NeverMoved(s, false, handles);
        return false, handles;
      case Do(op) =>
        ok, handles' := InterpretOne(l, op, handles, s);
      case Initialise(nested) =>
        NestedSteps(s, nested, handles);
        ok, handles' := InitializeClass(l, nested, handles, s);
      case Try(body, handler) =>
        TrySteps(s, body, handler, handles);
        ok, handles' := RunActions(l, body, handles, s);
        if !ok && !l.transactions[0].aborted {
          ok, handles' := RunActions(l, handler, handles', Of(s, RunBody(s, body), handles).s);
        }
    }
  }

  lemma NestedSteps(s: History, nested: Clinit, h: seq<Addr>)
    requires Good(s.w) && s.w.stack != []
    ensures Of(s, RunAction(s, Initialise(nested)), h) == Of(s, Initialize(s, nested), h)
  {
    hide Good, Next, Initialize;
  }

  /** One operation of the interpreter; a store first has to pass the write constraint. */
  method InterpretOne(l: AotClassLinker, op: Op, handles: seq<Addr>, ghost s: History)
    returns (ok: bool, handles': seq<Addr>)
    requires In(l, s)
    modifies l.rt, l.transactions
    ensures Ends(l, Of(s, Interpret(s, op), handles), ok, handles')
  {
    hide Of, Interpret, Next, Good, Step;
    InterpretSteps(s, op, handles);
    if !IsInterpreted(l.View(), op) || !Enabled(l.View(), op) {
      return false, handles;
    }
    NextWorld(s, op);
    match op {
      case Write(loc, value, isVolatile) =>
        NextWorld(s, Abort("Can't set fields"));
        var refused := l.TransactionWriteConstraint(loc.obj);
        if refused {
          return false, handles;
        }
        l.SetCell(loc, value, isVolatile);
      case Allocate(addr, header, fields, recorded) =>
        l.NewObject(addr, header, fields, recorded);
      case Intern(str, isStrong) =>
        var _ := l.InternString(str, isStrong);
      case Collect(m) =>
        l.CollectGarbage(m);
    }
    return true, if op.Collect? then VisitHandles(op.m, handles) else handles;
  }

  lemma InterpretSteps(s: History, op: Op, h: seq<Addr>)
    requires Good(s.w) && s.w.stack != []
    ensures !IsInterpreted(s.w, op) || !Enabled(s.w, op) ==> Of(s, Interpret(s, op), h) == Result(s, false, h)
    ensures IsInterpreted(s.w, op) && Enabled(s.w, op) ==>
              Of(s, Interpret(s, op), h) ==
              if IsRefused(s.w, op) then Result(Next(s, Abort("Can't set fields")), false, h)
              else Result(Next(s, op), true, if op.Collect? then VisitHandles(op.m, h) else h)
  {
    hide Good, Next, WriteConstraint;
    if !IsInterpreted(s.w, op) || !Enabled(s.w, op) {
      NeverMoved(s, false, h);
    } else if IsRefused(s.w, op) {
      RunsOne(s, Abort("Can't set fields"));
      MovedOne(Abort("Can't set fields"), h);
    } else {
      RunsOne(s, op);
      MovedOne(op, h);
    }
  }

  // --- The compiler driver -----------------------------------------------------------------------------------

  /** The attempt's operations lead where the linker's methods do. */
  lemma AttemptSteps(w0: World, c: Clinit, strict: bool)
    requires Good(w0) && w0.stack == [] && c.klass in w0.heap.headers
    ensures var s1 := Next(Begin(w0), Enter(strict, c.klass));
            var r := Attempt(w0, c, strict);
            && s1.w == Step(w0, Enter(strict, c.klass)) && s1.w.stack != []
            && var s := After(Begin(w0), r.ops);
               && c.klass in s.home && s.w.stack != []
               && Of(s1, Initialize(s1, c), [c.klass]) == Result(s, r.ok, [s.home[c.klass]])
  {
    hide Initialize, Good;
    var enter := Enter(strict, c.klass);
    RunOne(Begin(w0), enter);
    AttemptRun(w0, c, strict);
    var init := Initialize(Next(Begin(w0), enter), c);
    HandlesApart(Begin(w0), Attempt(w0, c, strict).ops, c.klass, c.klass);
    MovedConcat([enter], init.ops, c.klass);
    assert [enter][1..] == [];
  }

  /** Every field of the class except its own class has its old content, and so has its status. */
  ghost predicate ClassAsBefore(h0: Heap, h: Heap, home: map<Addr, Addr>, klass: Addr) {
    && klass in home
    && (forall offset :: offset != CLASS_OFFSET && Field(klass, offset) in h0.cells ==>
          var x := Field(home[klass], offset);
          x in h.cells && h.cells[x] == HomeCell(home, h0.cells[Field(klass, offset)]))
    && (StatusLoc(klass) in h0.cells ==> StatusOf(h, home[klass]) == StatusOf(h0, klass))
  }

  /** All restorable content of the heap and both intern tables are as they were. */
  ghost predicate AllAsBefore(w0: World, w: World, home: map<Addr, Addr>) {
    && (forall l :: Restorable(w0.heap, l) ==>
          HomeLoc(home, l) in w.heap.cells && w.heap.cells[HomeLoc(home, l)] == HomeCell(home, w0.heap.cells[l]))
    && w.interns == HomeInterns(home, w0.interns)
  }

  lemma FailedAttemptRestores(w0: World, c: Clinit, strict: bool)
    requires Good(w0) && w0.stack == [] && c.klass in w0.heap.headers
    requires w0.heap.headers[c.klass].shape.ClassObject? && !Attempt(w0, c, strict).ok
    ensures var s := After(Begin(w0), Attempt(w0, c, strict).ops);
            var r := RollbackAll(s.w);
            && r.stack == [] && !r.active && ClassAsBefore(w0.heap, r.heap, s.home, c.klass)
            && (!strict ==> AllAsBefore(w0, r, s.home))
  {
    hide Good, Next, Attempt;
    FailedInitRestoresClass(w0, c, strict);
    if !strict {
      FailedPlainInitRestoresEverything(w0, c);
    }
  }

  /**
   Initialises a class in transaction mode, strict or not. If initialisation fails, no transaction
   is open afterwards and every field of the class is as it was before; outside strict mode so is
   everything else. Success keeps what the initialisers did. No transaction is open then either,
   except that in strict mode those of nested initialisers that failed, and whose exceptions were
   caught, have not been closed.
   */
  method TryInitialize(l: AotClassLinker, c: Clinit, strict: bool) returns (success: bool, klass': Addr)
    requires l.Valid() && Good(l.View()) && l.transactions == []
    requires c.klass in l.rt.heap.headers && l.rt.heap.headers[c.klass].shape.ClassObject?
    modifies l`transactions, l.rt
    ensures l.Valid() && success == Attempt(old(l.View()), c, strict).ok
    ensures var home := After(Begin(old(l.View())), Attempt(old(l.View()), c, strict).ops).home;
            && c.klass in home && klass' == home[c.klass]
            && (!success ==> ClassAsBefore(old(l.rt.heap), l.rt.heap, home, c.klass))
            && (!success && !strict ==> AllAsBefore(old(l.View()), l.View(), home))
    ensures success ==>
              var w := After(Begin(old(l.View())), Attempt(old(l.View()), c, strict).ops).w;
              l.rt.heap == w.heap && l.rt.interns == w.interns
    ensures !success ==> l.transactions == []
    ensures success ==> (l.transactions == [] <==> !strict || !Attempt(old(l.View()), c, strict).nestedFailed)
    ensures l.rt.active <==> l.transactions != []
  {
    hide Attempt, Of, After, WellFormed, TxnOk, InternsWithin, ClassAsBefore, AllAsBefore;
    ghost var w0 := l.View();
    AttemptSteps(w0, c, strict);
    l.EnterTransactionMode(strict, c.klass);
    ghost var s1 := Next(Begin(w0), Enter(strict, c.klass));
    var handles;
    success, handles := InitializeClass(l, c, [c.klass], s1);
    klass' := handles[0];
    if success {
      DriverLeavesNothingOpenIff(w0, c, strict);
      l.ExitTransactionMode();
    } else {
      FailedAttemptRestores(w0, c, strict);
      l.RollbackAllTransactions();
    }
  }
}
