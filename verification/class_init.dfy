/**
 Class initialisation in transactions: in strict mode every nested initialiser runs in a transaction
 of its own, which is committed on success and left open on failure. An initialiser is given as a
 script of what the base class linker and the interpreter do while it runs.
 */
module ClassInit {
  import opened Options
  import opened ManagedHeap
  import opened Relocation
  import opened Transactions
  import opened Rollback
  import opened TransactionRuns
  import opened Restoration
  import opened Commits

  /** Position of `Class::status_` in a class object. */
  const STATUS_OFFSET: nat := 112

  const ERROR_RESOLVED := 2
  const ERROR_UNRESOLVED := 3
  const INITIALIZING := 13
  const INITIALIZED := 14

  datatype Clinit = Clinit(
    klass: Addr,
    bootLoaded: bool,
    inBootImageDex: bool,
    superclass: Addr,
    isInterface: bool,
    body: seq<Action>)

  /** What an initialiser does; after a collection, scripts name objects by their new addresses. */
  datatype Action =
    | Do(op: Op)
    | Initialise(nested: Clinit)
    | Throw
    | Try(body: seq<Action>, handler: seq<Action>)

  /**
   The operations performed, whether no exception is pending at the end, and whether some class
   whose initialisation was begun on the way could not be initialised.
   */
  datatype Outcome = Outcome(ops: seq<Op>, ok: bool, nestedFailed: bool)

  function StatusLoc(klass: Addr): Loc {
    Field(klass, STATUS_OFFSET)
  }

  function StatusOf(h: Heap, klass: Addr): int {
    if StatusLoc(klass) in h.cells && h.cells[StatusLoc(klass)].value.Word?
    then h.cells[StatusLoc(klass)].value.n else 0
  }

  function SetStatus(klass: Addr, status: int): Op {
    Write(StatusLoc(klass), Word(status), true)
  }

  /** What can happen while bytecode runs; it never touches the status of a class. */
  predicate IsInterpreted(w: World, op: Op) {
    match op
    case Write(loc, _, _) => !IsClassStatus(w, loc)
    case Allocate(_, _, _, _) => true
    case Intern(_, _) => true
    case Collect(_) => true
    case _ => false
  }

  predicate IsClassStatus(w: World, loc: Loc) {
    loc == StatusLoc(loc.obj) && loc.obj in w.heap.headers && w.heap.headers[loc.obj].shape.ClassObject?
  }

  /** Where a handle to an object leads after the collections among the operations. */
  function Moved(ops: seq<Op>, a: Addr): Addr {
    if ops == [] then a else Moved(ops[1..], if ops[0].Collect? then At(ops[0].m, a) else a)
  }

  lemma {:induction false} MovedConcat(a: seq<Op>, b: seq<Op>, x: Addr)
    ensures Moved(a + b, x) == Moved(b, Moved(a, x))
  {
    if a == [] {
      assert a + b == b;
    } else {
      assert (a + b)[1..] == a[1..] + b;
      MovedConcat(a[1..], b, if a[0].Collect? then At(a[0].m, x) else x);
    }
  }

  // --- Concatenating runs ------------------------------------------------------------------------

  lemma {:induction false} RunConcat(s: History, a: seq<Op>, b: seq<Op>)
    requires Good(s.w) && CanRun(s, a) && CanRun(After(s, a), b)
    ensures CanRun(s, a + b) && After(s, a + b) == After(After(s, a), b)
  {
    RunThrough(s, a, After(s, a), b, After(After(s, a), b));
  }

  /** A run to `m` and one from there to `t` make one to `t`. */
  lemma {:induction false} RunThrough(s: History, a: seq<Op>, m: History, b: seq<Op>, t: History)
    requires Good(s.w) && Good(m.w) && Reaches(s, a, m) && Reaches(m, b, t)
    ensures Reaches(s, a + b, t)
    decreases |a|
  {
    hide Next, Enabled, Good;
    if a == [] {
      assert a + b == b;
    } else {
      var n := RunRest(s, a);
      RunThrough(n, a[1..], m, b, t);
      assert (a + b)[1..] == a[1..] + b;
      RunFirst(s, n, a + b);
    }
  }

  predicate Reaches(s: History, ops: seq<Op>, t: History)
    requires Good(s.w)
  {
    CanRun(s, ops) && After(s, ops) == t
  }

  lemma RunRest(s: History, ops: seq<Op>) returns (t: History)
    requires Good(s.w) && CanRun(s, ops) && ops != []
    ensures Enabled(s.w, ops[0]) && t == Next(s, ops[0]) && Good(t.w)
    ensures CanRun(t, ops[1..]) && After(s, ops) == After(t, ops[1..])
  {
    t := Next(s, ops[0]);
  }

  lemma RunFirst(s: History, t: History, ops: seq<Op>)
    requires Good(s.w) && ops != [] && Enabled(s.w, ops[0]) && t == Next(s, ops[0]) && CanRun(t, ops[1..])
    ensures CanRun(s, ops) && After(s, ops) == After(t, ops[1..])
  {
  }

  /** The operations can be performed, and leave at least as many transactions open. */
  predicate Runs(s: History, ops: seq<Op>)
    requires Good(s.w)
  {
    CanRun(s, ops) && |After(s, ops).w.stack| >= |s.w.stack|
  }

  lemma RunNone(s: History)
    requires Good(s.w)
    ensures Runs(s, []) && After(s, []) == s
  {
  }

  lemma RunOne(s: History, op: Op)
    requires Good(s.w) && Enabled(s.w, op)
    ensures CanRun(s, [op]) && After(s, [op]) == Next(s, op)
    ensures !op.Exit? && !op.RollbackAndExit? ==> |Next(s, op).w.stack| >= |s.w.stack|
    ensures op.Exit? ==> |Next(s, op).w.stack| == |s.w.stack| - 1
    ensures op.Enter? ==> |Next(s, op).w.stack| == |s.w.stack| + 1
  {
    assert [op][1..] == [];
  }

  lemma RunsThen(s: History, a: seq<Op>, b: seq<Op>)
    requires Good(s.w) && Runs(s, a) && Runs(After(s, a), b)
    ensures Runs(s, a + b) && After(s, a + b) == After(After(s, a), b)
  {
    RunConcat(s, a, b);
  }

  // --- Running initialisers --------------------------------------------------------------------------

  predicate StrictMode(w: World) {
    w.stack != [] && w.stack[0].strict
  }

  predicate IsAborted(w: World) {
    w.stack != [] && w.stack[0].aborted
  }

  const NOTHING := Outcome([], true, false)
  const FAILURE := Outcome([], false, false)

  function AbortWith(message: string): Outcome {
    Outcome([Abort(message)], false, false)
  }

  /** One thing after another. */
  function Then(first: Outcome, second: Outcome): Outcome {
    Outcome(first.ops + second.ops, second.ok, first.nestedFailed || second.nestedFailed)
  }

  function One(op: Op): Outcome {
    Outcome([op], true, false)
  }

  /** The outcome as it looks to the initialiser that needs the class. */
  function AsNested(r: Outcome): Outcome {
    r.(nestedFailed := r.nestedFailed || !r.ok)
  }

  /** Why initialisation is refused right away, if it is. */
  function Refusal(w: World, c: Clinit): Option<string> {
    if c.klass !in w.heap.headers || !w.heap.headers[c.klass].shape.ClassObject? then Some("no such class")
    else if !StrictMode(w) && c.inBootImageDex then Some("defined in a boot image dex file")
    else if StrictMode(w) && (c.bootLoaded || w.heap.headers[c.klass].inBootImage) then
      Some("uninitialized boot class")
    else if StrictMode(w) && !c.isInterface && c.superclass != NULL
            && StatusOf(w.heap, c.superclass) == INITIALIZING then
      Some("superclass is not initialized")
    else None
  }

  /** The overriding `InitializeClass`. */
  function Initialize(s: History, c: Clinit): (r: Outcome)
    requires Good(s.w) && s.w.stack != []
    ensures Runs(s, r.ops)
    decreases c, 3
  {
    hide Good, Next;
    if StatusOf(s.w.heap, c.klass) >= INITIALIZING then
      RunNone(s);
      NOTHING
    else
      var refusal := Refusal(s.w, c);
      if refusal.Some? then
        RunOne(s, Abort(refusal.value));
        AbortWith(refusal.value)
      else if StrictMode(s.w) then InitializeStrictly(s, c)
      else RunInitializer(s, c)
  }

  /** Success commits the innermost transaction; failure leaves all of them to the compiler driver. */
  function InitializeStrictly(s: History, c: Clinit): (r: Outcome)
    requires Good(s.w) && s.w.stack != [] && c.klass in s.w.heap.headers
    ensures Runs(s, r.ops)
    decreases c, 2
  {
    hide Good, Next;
    var enter := Enter(true, c.klass);
    RunOne(s, enter);
    var base := RunInitializer(Next(s, enter), c);
    RunsThen(s, [enter], base.ops);
    var r := Then(One(enter), base);
    if base.ok then
      RunOne(After(s, r.ops), Exit);
      RunConcat(s, r.ops, [Exit]);
      Then(r, One(Exit))
    else r
  }

  /** The base `InitializeClass`: status changes around the initialiser's own actions. */
  function RunInitializer(s: History, c: Clinit): (r: Outcome)
    requires Good(s.w) && s.w.stack != []
    ensures Runs(s, r.ops)
    decreases c, 1
  {
    hide Good, Next;
    var status := StatusOf(s.w.heap, c.klass);
    var begin := SetStatus(c.klass, INITIALIZING);
    if status == ERROR_RESOLVED || status == ERROR_UNRESOLVED || !Enabled(s.w, begin) then
      RunNone(s);
      FAILURE
    else
      RunOne(s, begin);
      var body := RunBody(Next(s, begin), c.body);
      RunsThen(s, [begin], body.ops);
      Finish(s, c, Then(One(begin), body))
  }

  /**
   An initialiser that returns normally, in a transaction that is not aborted, has initialised the
   class; any other makes it erroneous.
   */
  function Finish(s: History, c: Clinit, r: Outcome): (r': Outcome)
    requires Good(s.w) && s.w.stack != [] && Runs(s, r.ops)
    ensures Runs(s, r'.ops)
  {
    hide Good, Next;
    var s' := After(s, r.ops);
    var ok := r.ok && !IsAborted(s'.w);
    var end := SetStatus(Moved(r.ops, c.klass), if ok then INITIALIZED else ERROR_RESOLVED);
    if Enabled(s'.w, end) then
      RunOne(s', end);
      RunsThen(s, r.ops, [end]);
      Outcome(r.ops + [end], ok, r.nestedFailed)
    else Outcome(r.ops, false, r.nestedFailed)
  }

  /** The actions in order, until one of them ends with an exception. */
  function RunBody(s: History, body: seq<Action>): (r: Outcome)
    requires Good(s.w) && s.w.stack != []
    ensures Runs(s, r.ops)
    decreases body, 1
  {
    hide Good, Next;
    if body == [] then
      RunNone(s);
      NOTHING
    else
      var first := RunAction(s, body[0]);
      if !first.ok then first
      else
        var rest := RunBody(After(s, first.ops), body[1..]);
        RunsThen(s, first.ops, rest.ops);
        Then(first, rest)
  }

  function RunAction(s: History, action: Action): (r: Outcome)
    requires Good(s.w) && s.w.stack != []
    ensures Runs(s, r.ops)
    decreases action, 0
  {
    hide Good, Next;
    match action
    case Throw =>
      RunNone(s);
      FAILURE
    case Do(op) => Interpret(s, op)
    case Initialise(nested) =>
      AsNested(Initialize(s, nested))
    case Try(body, handler) =>
      var first := RunBody(s, body);
      var s' := After(s, first.ops);
      if first.ok || IsAborted(s'.w) then first
      else
        var caught := RunBody(s', handler);
        RunsThen(s, first.ops, caught.ops);
        Then(first, caught)
  }

  /** One operation of the interpreter; a store first has to pass the write constraint. */
  function Interpret(s: History, op: Op): (r: Outcome)
    requires Good(s.w) && s.w.stack != []
    ensures Runs(s, r.ops)
  {
    if !IsInterpreted(s.w, op) || !Enabled(s.w, op) then
      RunNone(s);
      FAILURE
    else if IsRefused(s.w, op) then
      RunOne(s, Abort("Can't set fields"));
      AbortWith("Can't set fields")
    else
      RunOne(s, op);
      One(op)
  }

  predicate IsRefused(w: World, op: Op)
    requires w.stack != [] && Enabled(w, op)
  {
    op.Write? && WriteConstraint(w.stack[0], op.loc.obj, w.heap.headers[op.loc.obj])
  }

  /**
   What passing the checks gives a class in strict mode: in the transaction opened for it, its
   initialiser may store into that class and into no other.
   */
  lemma AcceptedClassOwnsItself(s: History, c: Clinit, op: Op)
    requires Good(s.w) && StrictMode(s.w) && Refusal(s.w, c).None?
    requires var w := Next(s, Enter(true, c.klass)).w;
             op.Write? && IsInterpreted(w, op) && Enabled(w, op) && w.heap.headers[op.loc.obj].shape.ClassObject?
    ensures var s1 := Next(s, Enter(true, c.klass));
            && Good(s1.w) && s1.w.stack != []
            && (Interpret(s1, op).ok <==> op.loc.obj == c.klass)
            && (op.loc.obj != c.klass ==> IsAborted(After(s1, Interpret(s1, op).ops).w))
  {
    hide WellFormed, TxnOk, InternsWithin;
    var s1 := Next(s, Enter(true, c.klass));
    if op.loc.obj != c.klass {
      assert Interpret(s1, op).ops[1..] == [];
    }
  }

  // --- Stack discipline ----------------------------------------------------------------------------

  /** `new_` is the stack `old_` after the collections among the operations, and nothing else. */
  ghost predicate MovedAlong(ops: seq<Op>, old_: seq<Txn>, new_: seq<Txn>) {
    if ops == [] then new_ == old_
    else if ops[0].Collect? then
      Inverse(ops[0].m) && StackMovable(ops[0].m, old_) && MovedAlong(ops[1..], MoveStack(ops[0].m, old_), new_)
    else MovedAlong(ops[1..], old_, new_)
  }

  lemma {:induction false} MovedAlongConcat(a: seq<Op>, b: seq<Op>, x: seq<Txn>, y: seq<Txn>, z: seq<Txn>)
    requires MovedAlong(a, x, y) && MovedAlong(b, y, z)
    ensures MovedAlong(a + b, x, z)
  {
    if a == [] {
      assert a + b == b;
    } else {
      assert (a + b)[1..] == a[1..] + b;
      MovedAlongConcat(a[1..], b, if a[0].Collect? then MoveStack(a[0].m, x) else x, y, z);
    }
  }

  /** Collections change neither the kind nor the state of a transaction. */
  lemma {:induction false} MovedAlongKeeps(ops: seq<Op>, x: seq<Txn>, y: seq<Txn>)
    requires MovedAlong(ops, x, y)
    ensures |y| == |x|
    ensures forall i :: 0 <= i < |x| ==> y[i].strict == x[i].strict && y[i].aborted == x[i].aborted
  {
    if ops != [] {
      MovedAlongKeeps(ops[1..], if ops[0].Collect? then MoveStack(ops[0].m, x) else x, y);
    }
  }

  lemma {:induction false} MovedAlongDrop(ops: seq<Op>, x: seq<Txn>, y: seq<Txn>, k: nat)
    requires MovedAlong(ops, x, y) && k <= |x|
    ensures |y| == |x| && MovedAlong(ops, x[k..], y[k..])
  {
    MovedAlongKeeps(ops, x, y);
    if ops != [] {
      if ops[0].Collect? {
        var m := ops[0].m;
        assert forall i :: 0 <= i < |x| - k ==> x[k..][i] == x[i + k];
        assert MoveStack(m, x)[k..] == MoveStack(m, x[k..]);
        MovedAlongDrop(ops[1..], MoveStack(m, x), y, k);
      } else {
        MovedAlongDrop(ops[1..], x, y, k);
      }
    }
  }

  lemma {:induction false} NothingMoved(ops: seq<Op>, x: seq<Txn>)
    requires forall i :: 0 <= i < |ops| ==> !ops[i].Collect?
    ensures MovedAlong(ops, x, x)
  {
    if ops != [] {
      NothingMoved(ops[1..], x);
    }
  }

  /**
   All transactions but the innermost are still at the bottom; those above are strict; and only a
   strict transaction has others on top of it.
   */
  ghost predicate Grown(ops: seq<Op>, old_: seq<Txn>, new_: seq<Txn>) {
    && 1 <= |old_| <= |new_|
    && MovedAlong(ops, old_[1..], new_[|new_| - |old_| + 1..])
    && new_[|new_| - |old_|].strict == old_[0].strict
    && (forall i :: 0 <= i < |new_| - |old_| ==> new_[i].strict)
    && (!old_[0].strict ==> |new_| == |old_|)
  }

  /** Unless it ends aborted, the stack has grown exactly if a nested initialisation failed. */
  predicate Exact(old_: seq<Txn>, new_: seq<Txn>, ok: bool, nestedFailed: bool)
    requires 1 <= |old_| <= |new_|
  {
    && (ok ==> !new_[0].aborted)
    && (!new_[0].aborted ==> forall i :: 0 <= i <= |new_| - |old_| ==> !new_[i].aborted)
    && (!new_[0].aborted && old_[0].strict ==> (|new_| == |old_| <==> !nestedFailed))
  }

  ghost predicate Tracks(s: History, r: Outcome)
    requires Good(s.w) && s.w.stack != [] && Runs(s, r.ops)
  {
    var stack := After(s, r.ops).w.stack;
    Grown(r.ops, s.w.stack, stack) && (!IsAborted(s.w) ==> Exact(s.w.stack, stack, r.ok, r.nestedFailed))
  }

  lemma GrownTwice(a: seq<Op>, b: seq<Op>, x: seq<Txn>, y: seq<Txn>, z: seq<Txn>)
    requires Grown(a, x, y) && Grown(b, y, z)
    ensures Grown(a + b, x, z)
  {
    var k := |y| - |x|;
    MovedAlongKeeps(b, y[1..], z[|z| - |y| + 1..]);
    MovedAlongDrop(b, y[1..], z[|z| - |y| + 1..], k);
    assert y[1..][k..] == y[k + 1..] && z[|z| - |y| + 1..][k..] == z[|z| - |x| + 1..];
    MovedAlongConcat(a, b, x[1..], y[k + 1..], z[|z| - |x| + 1..]);
    var tail := z[|z| - |y| + 1..];
    assert forall i :: 1 <= i < |y| ==> z[|z| - |y| + i] == tail[i - 1] && y[i] == y[1..][i - 1];
    forall i | 0 <= i < |z| - |x|
      ensures z[i].strict
    {
      if i > |z| - |y| {
        assert z[i] == z[|z| - |y| + (i - |z| + |y|)];
      }
    }
  }

  lemma ExactTwice(b: seq<Op>, x: seq<Txn>, y: seq<Txn>, z: seq<Txn>, ok1: bool, f1: bool, ok2: bool, f2: bool)
    requires 1 <= |x| <= |y| && Grown(b, y, z) && !y[0].aborted && y[|y| - |x|].strict == x[0].strict
    requires (forall i :: 0 <= i < |y| - |x| ==> y[i].strict) && (!x[0].strict ==> |y| == |x|)
    requires Exact(x, y, ok1, f1) && Exact(y, z, ok2, f2)
    ensures Exact(x, z, ok2, f1 || f2)
  {
    MovedAlongKeeps(b, y[1..], z[|z| - |y| + 1..]);
    var tail := z[|z| - |y| + 1..];
    if !z[0].aborted {
      forall i | 0 <= i <= |z| - |x|
        ensures !z[i].aborted
      {
        if i > |z| - |y| {
          assert z[i] == tail[i - |z| + |y| - 1];
          assert y[1..][i - |z| + |y| - 1] == y[i - |z| + |y|];
        }
      }
      assert |y| > |x| ==> y[0].strict;
    }
  }

  /** One thing after another keeps track, if the first ended with nothing aborted. */
  lemma TracksThen(s: History, first: Outcome, second: Outcome)
    requires Good(s.w) && s.w.stack != [] && Runs(s, first.ops) && Runs(After(s, first.ops), second.ops)
    requires Tracks(s, first) && Tracks(After(s, first.ops), second)
    requires first.ok || !IsAborted(After(s, first.ops).w)
    ensures Runs(s, first.ops + second.ops) && Tracks(s, Then(first, second))
  {
    hide Good, Next, Grown, Exact;
    RunsThen(s, first.ops, second.ops);
    var x, y := s.w.stack, After(s, first.ops).w.stack;
    var z := After(After(s, first.ops), second.ops).w.stack;
    GrownTwice(first.ops, second.ops, x, y, z);
    if !IsAborted(s.w) {
      GrownParts(first.ops, x, y);
      ExactEnds(x, y, first.ok, first.nestedFailed);
      ExactTwice(second.ops, x, y, z, first.ok, first.nestedFailed, second.ok, second.nestedFailed);
    }
  }

  lemma GrownParts(ops: seq<Op>, x: seq<Txn>, y: seq<Txn>)
    requires Grown(ops, x, y)
    ensures 1 <= |x| <= |y| && y[|y| - |x|].strict == x[0].strict
    ensures (forall i :: 0 <= i < |y| - |x| ==> y[i].strict) && (!x[0].strict ==> |y| == |x|)
  {
  }

  lemma ExactEnds(x: seq<Txn>, y: seq<Txn>, ok: bool, f: bool)
    requires 1 <= |x| <= |y| && Exact(x, y, ok, f)
    ensures ok ==> !y[0].aborted
  {
  }

  /** Stores, allocations, interning and aborts change only the innermost transaction. */
  lemma StepOnlyTop(s: History, op: Op)
    requires Good(s.w) && Enabled(s.w, op) && (op.Write? || op.Allocate? || op.Intern? || op.Abort?)
    ensures var stack := Next(s, op).w.stack;
            && |stack| == |s.w.stack| && stack[1..] == s.w.stack[1..]
            && stack[0].strict == s.w.stack[0].strict
            && stack[0].aborted == (s.w.stack[0].aborted || op.Abort?)
  {
    hide WellFormed, TxnOk, InternsWithin, CellOk;
  }

  lemma CollectStack(s: History, m: Move)
    requires Good(s.w) && s.w.stack != [] && Enabled(s.w, Collect(m))
    ensures var stack := Next(s, Collect(m)).w.stack;
            && Inverse(m) && StackMovable(m, s.w.stack[1..]) && |stack| == |s.w.stack|
            && stack[1..] == MoveStack(m, s.w.stack[1..])
            && stack[0].strict == s.w.stack[0].strict && stack[0].aborted == s.w.stack[0].aborted
  {
    hide WellFormed, TxnOk;
    MoveStackRest(m, s.w.stack);
  }

  lemma TracksOne(s: History, op: Op, ok: bool)
    requires Good(s.w) && s.w.stack != [] && Enabled(s.w, op)
    requires op.Write? || op.Allocate? || op.Intern? || op.Collect? || (op.Abort? && !ok)
    ensures Runs(s, [op]) && Tracks(s, Outcome([op], ok, false))
  {
    hide Good, Next, Enabled;
    RunOne(s, op);
    var x, y := s.w.stack, Next(s, op).w.stack;
    if op.Collect? {
      CollectStack(s, op.m);
      assert [op][1..] == [] && MovedAlong([], MoveStack(op.m, x[1..]), y[1..]);
      assert MovedAlong([op], x[1..], y[1..]);
    } else {
      StepOnlyTop(s, op);
      NothingMoved([op], x[1..]);
    }
  }

  lemma TracksNone(s: History, ok: bool)
    requires Good(s.w) && s.w.stack != []
    ensures Runs(s, []) && Tracks(s, Outcome([], ok, false))
  {
    RunNone(s);
  }

  lemma InterpretTracks(s: History, op: Op)
    requires Good(s.w) && s.w.stack != []
    ensures Tracks(s, Interpret(s, op))
  {
    hide Good, Next, Tracks, WriteConstraint;
    if !IsInterpreted(s.w, op) || !Enabled(s.w, op) {
      TracksNone(s, false);
    } else if IsRefused(s.w, op) {
      TracksOne(s, Abort("Can't set fields"), false);
    } else {
      TracksOne(s, op, true);
    }
  }

  lemma {:induction false} BodyTracks(s: History, body: seq<Action>)
    requires Good(s.w) && s.w.stack != []
    ensures Tracks(s, RunBody(s, body))
    decreases body, 1
  {
    hide Good, Next, Tracks, RunAction;
    if body == [] {
      TracksNone(s, true);
    } else {
      var first := RunAction(s, body[0]);
      ActionTracks(s, body[0]);
      if first.ok {
        var s' := After(s, first.ops);
        BodyTracks(s', body[1..]);
        TracksThen(s, first, RunBody(s', body[1..]));
      }
    }
  }

  lemma {:induction false} ActionTracks(s: History, action: Action)
    requires Good(s.w) && s.w.stack != []
    ensures Tracks(s, RunAction(s, action))
    decreases action, 0
  {
    hide Good, Next, Tracks, RunBody, Initialize, Interpret;
    match action
    case Throw => TracksNone(s, false);
    case Do(op) => InterpretTracks(s, op);
    case Initialise(nested) => InitTracks(s, nested);
    case Try(body, handler) =>
      var first := RunBody(s, body);
      BodyTracks(s, body);
      var s' := After(s, first.ops);
      if !first.ok && !IsAborted(s'.w) {
        BodyTracks(s', handler);
        TracksThen(s, first, RunBody(s', handler));
      }
  }

  lemma {:induction false} InitializerTracks(s: History, c: Clinit)
    requires Good(s.w) && s.w.stack != []
    ensures Tracks(s, RunInitializer(s, c))
    ensures RunInitializer(s, c).ok ==> !IsAborted(After(s, RunInitializer(s, c).ops).w)
    decreases c, 1
  {
    hide Good, Next, Tracks, RunBody, Finish;
    var status := StatusOf(s.w.heap, c.klass);
    var begin := SetStatus(c.klass, INITIALIZING);
    if status == ERROR_RESOLVED || status == ERROR_UNRESOLVED || !Enabled(s.w, begin) {
      TracksNone(s, false);
    } else {
      RunOne(s, begin);
      TracksOne(s, begin, true);
      BodyTracks(Next(s, begin), c.body);
      var body := RunBody(Next(s, begin), c.body);
      TracksThen(s, One(begin), body);
      FinishTracks(s, c, Then(One(begin), body));
    }
  }

  lemma FinishTracks(s: History, c: Clinit, r: Outcome)
    requires Good(s.w) && s.w.stack != [] && Runs(s, r.ops) && Tracks(s, r)
    ensures Tracks(s, Finish(s, c, r))
    ensures Finish(s, c, r).ok ==> !IsAborted(After(s, Finish(s, c, r).ops).w)
  {
    hide Good, Grown, Next;
    var s' := After(s, r.ops);
    var ok := r.ok && !IsAborted(s'.w);
    var end := SetStatus(Moved(r.ops, c.klass), if ok then INITIALIZED else ERROR_RESOLVED);
    if Enabled(s'.w, end) {
      RunOne(s', end);
      RunsThen(s, r.ops, [end]);
      TracksOne(s', end, ok);
      StepOnlyTop(s', end);
      if IsAborted(s'.w) {
        GrownTwice(r.ops, [end], s.w.stack, s'.w.stack, Next(s', end).w.stack);
      } else {
        TracksThen(s, r, Outcome([end], ok, false));
      }
    }
  }

  lemma {:induction false} InitTracks(s: History, c: Clinit)
    requires Good(s.w) && s.w.stack != []
    ensures Tracks(s, AsNested(Initialize(s, c)))
    decreases c, 3
  {
    hide Good, Next, Tracks, InitializeStrictly, RunInitializer;
    if StatusOf(s.w.heap, c.klass) >= INITIALIZING {
      TracksNone(s, true);
    } else {
      var refusal := Refusal(s.w, c);
      if refusal.Some? {
        TracksOne(s, Abort(refusal.value), false);
        RunOne(s, Abort(refusal.value));
        StepOnlyTop(s, Abort(refusal.value));
        TracksRelabelled(s, AbortWith(refusal.value));
      } else if StrictMode(s.w) {
        StrictTracks(s, c);
      } else {
        InitializerTracks(s, c);
        TracksRelabelled(s, RunInitializer(s, c));
      }
    }
  }

  /** Where nothing is left open, or all is lost, it does not matter whether a class failed. */
  lemma TracksRelabelled(s: History, r: Outcome)
    requires Good(s.w) && s.w.stack != [] && Runs(s, r.ops) && Tracks(s, r)
    requires !StrictMode(s.w) || IsAborted(After(s, r.ops).w)
    ensures Tracks(s, AsNested(r))
  {
    hide Good, Next, Grown;
  }

  /** The whole old stack is at the bottom of the new one. */
  ghost predicate Beneath(ops: seq<Op>, old_: seq<Txn>, new_: seq<Txn>) {
    |old_| <= |new_| && MovedAlong(ops, old_, new_[|new_| - |old_|..])
  }

  /** From the stack `z` after an initialiser in its own transaction `t` on top of `x`. */
  lemma StrictStack(ops: seq<Op>, t: Txn, x: seq<Txn>, z: seq<Txn>, ok: bool, failed: bool)
    requires x != [] && x[0].strict && t.strict && Grown(ops, [t] + x, z) && Exact([t] + x, z, ok, failed)
    ensures var n := if ok then z[1..] else z;
            && Beneath(ops, x, n) && Grown(ops, x, n)
            && (!x[0].aborted ==> Exact(x, n, ok, failed || !ok))
  {
    var n, k := if ok then z[1..] else z, |z| - |x|;
    assert ([t] + x)[1..] == x && MovedAlong(ops, x, z[k..]);
    MovedAlongKeeps(ops, x, z[k..]);
    MovedAlongDrop(ops, x, z[k..], 1);
    assert z[k..][1..] == z[k + 1..] && z[k] == z[k..][0];
    assert n[|n| - |x|..] == z[k..] && n[|n| - |x| + 1..] == z[k + 1..];
    assert n[|n| - |x|] == z[k];
    assert forall i :: 0 <= i < |n| - |x| ==> n[i] == z[if ok then i + 1 else i];
  }

  lemma {:induction false} StrictTracks(s: History, c: Clinit)
    requires Good(s.w) && StrictMode(s.w) && c.klass in s.w.heap.headers
    ensures var r := InitializeStrictly(s, c);
            Tracks(s, AsNested(r)) && Beneath(r.ops, s.w.stack, After(s, r.ops).w.stack)
    decreases c, 2
  {
    hide Good, Grown, Exact, RunInitializer, Beneath;
    var enter := Enter(true, c.klass);
    RunOne(s, enter);
    var s1 := Next(s, enter);
    var x, t := s.w.stack, NewTxn(true, c.klass);
    assert s1.w.stack == [t] + x;
    InitializerTracks(s1, c);
    var base := RunInitializer(s1, c);
    var z := After(s1, base.ops).w.stack;
    StrictStack(base.ops, t, x, z, base.ok, base.nestedFailed);
    StrictRun(s, c);
    BeneathMore([enter], base.ops, if base.ok then [Exit] else [], x, if base.ok then z[1..] else z);
  }

  /** What the strict branch comes to. */
  lemma StrictRun(s: History, c: Clinit)
    requires Good(s.w) && StrictMode(s.w) && c.klass in s.w.heap.headers
    ensures var s1 := Next(s, Enter(true, c.klass));
            var base, r := RunInitializer(s1, c), InitializeStrictly(s, c);
            var s2 := After(s1, base.ops);
            && r.ok == base.ok && r.nestedFailed == base.nestedFailed
            && r.ops == [Enter(true, c.klass)] + base.ops + (if base.ok then [Exit] else [])
            && s2.w.stack != [] && After(s, r.ops) == if base.ok then Next(s2, Exit) else s2
  {
    hide Good, Next, RunInitializer;
    var enter := Enter(true, c.klass);
    RunOne(s, enter);
    var base := RunInitializer(Next(s, enter), c);
    RunsThen(s, [enter], base.ops);
    if base.ok {
      RunOne(After(s, [enter] + base.ops), Exit);
      RunConcat(s, [enter] + base.ops, [Exit]);
    }
  }

  /** Operations other than collections make no difference to what lies beneath. */
  lemma BeneathMore(a: seq<Op>, b: seq<Op>, c: seq<Op>, x: seq<Txn>, n: seq<Txn>)
    requires forall i :: 0 <= i < |a| ==> !a[i].Collect?
    requires forall i :: 0 <= i < |c| ==> !c[i].Collect?
    ensures Beneath(b, x, n) ==> Beneath(a + b + c, x, n)
    ensures Grown(b, x, n) ==> Grown(a + b + c, x, n)
  {
    hide Exact;
    if Beneath(b, x, n) {
      var y := n[|n| - |x|..];
      Padded(a, b, c, x, y);
    }
    if Grown(b, x, n) {
      Padded(a, b, c, x[1..], n[|n| - |x| + 1..]);
    }
  }

  lemma Padded(a: seq<Op>, b: seq<Op>, c: seq<Op>, x: seq<Txn>, y: seq<Txn>)
    requires forall i :: 0 <= i < |a| ==> !a[i].Collect?
    requires forall i :: 0 <= i < |c| ==> !c[i].Collect?
    requires MovedAlong(b, x, y)
    ensures MovedAlong(a + b + c, x, y)
  {
    NothingMoved(a, x);
    NothingMoved(c, y);
    MovedAlongConcat(a, b, x, x, y);
    MovedAlongConcat(a + b, c, x, y, y);
  }

  /**
   Stack discipline, for every nesting of initialisers and with exceptions caught anywhere. In
   strict mode the old stack, with objects moved, stays beneath what remains, unless the class was
   refused and the innermost transaction aborted for it. Success leaves it exactly as it was if and
   only if no nested initialisation failed; a nested one that failed and was caught leaves its
   transaction open. Outside strict mode no transaction is opened or closed.
   */
  lemma InitStack(s: History, c: Clinit)
    requires Good(s.w) && s.w.stack != [] && !IsAborted(s.w)
    ensures var r := Initialize(s, c);
            var old_, new_ := s.w.stack, After(s, r.ops).w.stack;
            && (StrictMode(s.w) ==>
                  Beneath(r.ops, old_, new_)
                  || (exists message :: new_ == old_[0 := Aborted(old_[0], message)] && !r.ok))
            && (StrictMode(s.w) && r.ok ==> (MovedAlong(r.ops, old_, new_) <==> !r.nestedFailed))
            && (!StrictMode(s.w) ==> |new_| == |old_|)
  {
    hide Good, Next, InitializeStrictly, RunInitializer;
    var r := Initialize(s, c);
    InitTracks(s, c);
    var old_, new_ := s.w.stack, After(s, r.ops).w.stack;
    if StrictMode(s.w) {
      if StatusOf(s.w.heap, c.klass) >= INITIALIZING {
        assert new_[|new_| - |old_|..] == old_;
      } else if Refusal(s.w, c).Some? {
        RunOne(s, Abort(Refusal(s.w, c).value));
        AbortedStack(s, Refusal(s.w, c).value);
      } else {
        StrictTracks(s, c);
      }
      if MovedAlong(r.ops, old_, new_) {
        MovedAlongKeeps(r.ops, old_, new_);
      }
      assert |new_| == |old_| ==> new_[|new_| - |old_|..] == new_;
    }
  }

  lemma AbortedStack(s: History, message: string)
    requires Good(s.w) && s.w.stack != []
    ensures Next(s, Abort(message)).w.stack == s.w.stack[0 := Aborted(s.w.stack[0], message)]
  {
  }

  // --- Without strict mode ---------------------------------------------------------------------------

  /** No transaction is entered or committed. */
  predicate InOneTransaction(ops: seq<Op>) {
    forall op :: op in ops ==> !op.Enter? && !op.Exit? && !op.RollbackAndExit?
  }

  lemma StaysNotStrict(s: History, r: Outcome)
    requires Good(s.w) && s.w.stack != [] && Runs(s, r.ops) && Tracks(s, r)
    ensures StrictMode(After(s, r.ops).w) <==> StrictMode(s.w)
  {
    hide Good, Next;
  }

  lemma {:induction false} BodyInOneTransaction(s: History, body: seq<Action>)
    requires Good(s.w) && s.w.stack != [] && !StrictMode(s.w)
    ensures InOneTransaction(RunBody(s, body).ops)
    decreases body, 1
  {
    hide Good, Next, Tracks, RunAction, StrictMode;
    if body != [] {
      var first := RunAction(s, body[0]);
      ActionInOneTransaction(s, body[0]);
      if first.ok {
        ActionTracks(s, body[0]);
        StaysNotStrict(s, first);
        BodyInOneTransaction(After(s, first.ops), body[1..]);
      }
    }
  }

  lemma {:induction false} ActionInOneTransaction(s: History, action: Action)
    requires Good(s.w) && s.w.stack != [] && !StrictMode(s.w)
    ensures InOneTransaction(RunAction(s, action).ops)
    decreases action, 0
  {
    hide Good, Next, Tracks, RunBody, Initialize, StrictMode, WriteConstraint;
    match action
    case Throw =>
    case Do(op) =>
    case Initialise(nested) => InitInOneTransaction(s, nested);
    case Try(body, handler) =>
      var first := RunBody(s, body);
      BodyInOneTransaction(s, body);
      if !first.ok {
        BodyTracks(s, body);
        StaysNotStrict(s, first);
        BodyInOneTransaction(After(s, first.ops), handler);
      }
  }

  /** Outside strict mode everything happens in the transaction that is open already. */
  lemma {:induction false} InitInOneTransaction(s: History, c: Clinit)
    requires Good(s.w) && s.w.stack != [] && !StrictMode(s.w)
    ensures InOneTransaction(Initialize(s, c).ops)
    decreases c, 3
  {
    hide Good, Next, RunBody;
    if StatusOf(s.w.heap, c.klass) < INITIALIZING && Refusal(s.w, c).None? {
      var begin := SetStatus(c.klass, INITIALIZING);
      var status := StatusOf(s.w.heap, c.klass);
      if status != ERROR_RESOLVED && status != ERROR_UNRESOLVED && Enabled(s.w, begin) {
        StepOnlyTop(s, begin);
        BodyInOneTransaction(Next(s, begin), c.body);
      }
    }
  }

  // --- The class under initialisation --------------------------------------------------------------

  /** The transaction has recorded no field of the object. */
  predicate Untouched(t: Txn, obj: Addr) {
    obj !in t.objectLogs || t.objectLogs[obj].fieldValues == map[]
  }

  /**
   The class that was at `root` is being initialised by strict transactions, the last `depth` of
   which are not its nested ones. No nested one has recorded a field of the class, and no field of
   it lost its record in a commit.
   */
  predicate Watched(s: History, root: Addr, depth: nat) {
    && root in s.home && s.home[root] in s.w.heap.headers
    && s.w.heap.headers[s.home[root]].shape.ClassObject?
    && 1 <= depth <= |s.w.stack| && s.w.stack[|s.w.stack| - depth].strict
    && (forall i :: 0 <= i < |s.w.stack| - depth ==>
          s.w.stack[i].strict && s.w.stack[i].root != s.home[root] && Untouched(s.w.stack[i], s.home[root]))
    && StatusOf(s.w.heap, s.home[root]) == INITIALIZING
    && NothingLeaked(s, root)
  }

  predicate NothingLeaked(s: History, root: Addr) {
    root in s.home && forall loc :: loc in s.leaked ==> loc.obj in s.w.heap.headers && loc.obj != s.home[root]
  }

  lemma WatchedWrite(s: History, op: Op, root: Addr, depth: nat)
    requires Good(s.w) && Enabled(s.w, op) && op.Write? && Watched(s, root, depth)
    requires op.loc != StatusLoc(s.home[root])
    requires |s.w.stack| > depth ==> op.loc.obj != s.home[root]
    ensures Watched(Next(s, op), root, depth)
  {
    hide WellFormed, TxnOk, InternsWithin;
  }

  /** The write constraint keeps nested transactions away from the fields of the class. */
  lemma ConstraintProtects(s: History, op: Op, root: Addr, depth: nat)
    requires Good(s.w) && Enabled(s.w, op) && Watched(s, root, depth) && s.w.stack != []
    requires op.Write? && IsInterpreted(s.w, op) && !IsRefused(s.w, op)
    ensures op.loc != StatusLoc(s.home[root])
    ensures |s.w.stack| > depth ==> op.loc.obj != s.home[root]
  {
    hide Good;
  }

  lemma WatchedAllocate(s: History, op: Op, root: Addr, depth: nat)
    requires Good(s.w) && Enabled(s.w, op) && op.Allocate? && Watched(s, root, depth)
    ensures Watched(Next(s, op), root, depth)
  {
    hide TxnOk, InternsWithin;
    var loc := StatusLoc(s.home[root]);
    assert loc in s.w.heap.cells && CellOk(s.w.heap, loc, s.w.heap.cells[loc]);
  }

  lemma WatchedOther(s: History, op: Op, root: Addr, depth: nat)
    requires Good(s.w) && Enabled(s.w, op) && Watched(s, root, depth)
    requires op.Intern? || op.Abort? || (op.Enter? && op.strict && op.root != s.home[root])
    ensures Watched(Next(s, op), root, depth)
  {
    hide WellFormed, TxnOk, InternsWithin;
  }

  /** Committing a nested transaction loses no record of the class. */
  lemma WatchedExit(s: History, root: Addr, depth: nat)
    requires Good(s.w) && Watched(s, root, depth) && |s.w.stack| > depth
    ensures Watched(Next(s, Exit), root, depth)
  {
    hide TxnOk, InternsWithin;
    var r := s.home[root];
    forall loc | loc in OnlyRecordedOnTop(s.w)
      ensures loc.obj in s.w.heap.headers && loc.obj != r
    {
      assert CellOk(s.w.heap, loc, s.w.heap.cells[loc]);
      assert Untouched(s.w.stack[0], r);
    }
    var stack := Next(s, Exit).w.stack;
    assert forall i :: 0 <= i < |stack| ==> stack[i] == s.w.stack[i + 1];
  }

  lemma MovedElsewhere(m: Move, t: Txn, h: Heap, r: Addr)
    requires IsMove(m, h.headers.Keys) && TxnOk(t, h) && KeysMovable(m, t) && r in h.headers
    requires t.root != r && Untouched(t, r)
    ensures MoveTxn(m, t).root != m.to[r] && Untouched(MoveTxn(m, t), m.to[r])
  {
    assert m.from[m.to[r]] == r;
    if t.root in m.to {
      assert m.from[m.to[t.root]] == t.root;
    }
  }

  lemma WatchedCollect(s: History, m: Move, root: Addr, depth: nat)
    requires Good(s.w) && Enabled(s.w, Collect(m)) && Watched(s, root, depth)
    ensures Watched(Next(s, Collect(m)), root, depth)
  {
    hide WellFormed, TxnOk, InternsWithin, StackCanRekey;
    var n, r := Next(s, Collect(m)), s.home[root];
    forall i | 0 <= i < |s.w.stack| - depth
      ensures n.w.stack[i].root != m.to[r] && Untouched(n.w.stack[i], m.to[r])
    {
      MovedElsewhere(m, s.w.stack[i], s.w.heap, r);
    }
    forall x | x in n.leaked
      ensures x.obj in n.w.heap.headers && x.obj != m.to[r]
    {
      var loc :| loc in s.leaked && MoveLoc(m, loc) == x;
      assert m.from[m.to[loc.obj]] == loc.obj && m.from[m.to[r]] == r;
    }
    MoveHeapAt(m, s.w.heap, StatusLoc(r));
    assert m.from[m.to[r]] == r;
  }

  lemma HandleStep(s: History, op: Op, a: Addr)
    requires Good(s.w) && Enabled(s.w, op) && a in s.w.heap.headers
    ensures Moved([op], a) in Next(s, op).w.heap.headers
    ensures forall root :: root in s.home ==>
              root in Next(s, op).home && Next(s, op).home[root] == Moved([op], s.home[root])
    ensures forall b :: b in s.w.heap.headers && b != a ==> Moved([op], b) != Moved([op], a)
  {
    hide WellFormed, TxnOk, InternsWithin, StackCanRekey, CellOk;
    assert [op][1..] == [];
    if op.Collect? {
      assert op.m.from[op.m.to[a]] == a;
      forall b | b in s.w.heap.headers && b != a
        ensures Moved([op], b) != Moved([op], a)
      {
        assert op.m.from[op.m.to[b]] == b;
      }
    }
  }

  /** Handles to different objects stay handles to different objects, and the history knows them. */
  lemma {:induction false} HandlesApart(s: History, ops: seq<Op>, a: Addr, root: Addr)
    requires Good(s.w) && CanRun(s, ops) && a in s.w.heap.headers && root in s.home
    requires s.home[root] in s.w.heap.headers
    ensures Moved(ops, a) in After(s, ops).w.heap.headers
    ensures root in After(s, ops).home && After(s, ops).home[root] == Moved(ops, s.home[root])
    ensures a != s.home[root] ==> Moved(ops, a) != Moved(ops, s.home[root])
    decreases |ops|
  {
    hide Good, Enabled, Next;
    if ops != [] {
      var n := RunRest(s, ops);
      HandleStep(s, ops[0], a);
      HandleStep(s, ops[0], s.home[root]);
      assert [ops[0]] + ops[1..] == ops;
      MovedConcat([ops[0]], ops[1..], a);
      MovedConcat([ops[0]], ops[1..], s.home[root]);
      HandlesApart(n, ops[1..], Moved([ops[0]], a), root);
    }
  }

  lemma InterpretWatched(s: History, op: Op, root: Addr, depth: nat)
    requires Good(s.w) && Watched(s, root, depth)
    ensures Watched(After(s, Interpret(s, op).ops), root, depth)
  {
    hide Good, Next, Watched, Enabled;
    assert s.w.stack != [] by { WatchedStrict(s, root, depth); }
    if IsInterpreted(s.w, op) && Enabled(s.w, op) {
      if IsRefused(s.w, op) {
        AbortEnabled(s.w, "Can't set fields");
        RunOne(s, Abort("Can't set fields"));
        WatchedOther(s, Abort("Can't set fields"), root, depth);
      } else {
        RunOne(s, op);
        match op {
          case Write(_, _, _) =>
            ConstraintProtects(s, op, root, depth);
            WatchedWrite(s, op, root, depth);
          case Allocate(_, _, _, _) => WatchedAllocate(s, op, root, depth);
          case Intern(_, _) => WatchedOther(s, op, root, depth);
          case Collect(m) => WatchedCollect(s, m, root, depth);
        }
      }
    }
  }

  lemma AbortEnabled(w: World, message: string)
    requires w.stack != []
    ensures Enabled(w, Abort(message))
  {
  }

  lemma WatchedStrict(s: History, root: Addr, depth: nat)
    requires Watched(s, root, depth)
    ensures StrictMode(s.w) && depth <= |s.w.stack|
    ensures root in s.home && s.home[root] in s.w.heap.headers && StatusOf(s.w.heap, s.home[root]) == INITIALIZING
  {
  }

  /** Whatever a body does, and whatever it catches, it keeps watch on the class. */
  lemma {:induction false} BodyWatched(s: History, body: seq<Action>, root: Addr, depth: nat)
    requires Good(s.w) && Watched(s, root, depth)
    ensures s.w.stack != [] && Watched(After(s, RunBody(s, body).ops), root, depth)
    decreases body, 1
  {
    hide Good, Next, Watched, RunAction;
    WatchedStrict(s, root, depth);
    if body != [] {
      var first := RunAction(s, body[0]);
      ActionWatched(s, body[0], root, depth);
      if first.ok {
        var s' := After(s, first.ops);
        BodyWatched(s', body[1..], root, depth);
        RunsThen(s, first.ops, RunBody(s', body[1..]).ops);
      }
    }
  }

  lemma {:induction false} ActionWatched(s: History, action: Action, root: Addr, depth: nat)
    requires Good(s.w) && Watched(s, root, depth)
    ensures s.w.stack != [] && Watched(After(s, RunAction(s, action).ops), root, depth)
    decreases action, 0
  {
    hide Good, Next, Watched, RunBody, Initialize, Interpret;
    WatchedStrict(s, root, depth);
    match action
    case Throw =>
    case Do(op) => InterpretWatched(s, op, root, depth);
    case Initialise(nested) => InitWatched(s, nested, root, depth);
    case Try(body, handler) =>
      var first := RunBody(s, body);
      BodyWatched(s, body, root, depth);
      var s' := After(s, first.ops);
      if !first.ok && !IsAborted(s'.w) {
        BodyWatched(s', handler, root, depth);
        RunsThen(s, first.ops, RunBody(s', handler).ops);
      }
  }

  /** The initialisation of another class, successful or not, keeps watch on this one. */
  lemma {:induction false} InitWatched(s: History, c: Clinit, root: Addr, depth: nat)
    requires Good(s.w) && Watched(s, root, depth)
    ensures s.w.stack != [] && Watched(After(s, Initialize(s, c).ops), root, depth)
    decreases c, 3
  {
    hide Good, Next, Watched, InitializeStrictly, RunInitializer, Enabled;
    WatchedStrict(s, root, depth);
    if StatusOf(s.w.heap, c.klass) < INITIALIZING {
      var refusal := Refusal(s.w, c);
      if refusal.Some? {
        AbortEnabled(s.w, refusal.value);
        RunOne(s, Abort(refusal.value));
        WatchedOther(s, Abort(refusal.value), root, depth);
      } else {
        StrictWatched(s, c, root, depth);
      }
    }
  }

  lemma {:induction false} StrictWatched(s: History, c: Clinit, root: Addr, depth: nat)
    requires Good(s.w) && Watched(s, root, depth) && c.klass in s.w.heap.headers && c.klass != s.home[root]
    ensures s.w.stack != [] && Watched(After(s, InitializeStrictly(s, c).ops), root, depth)
    decreases c, 2
  {
    hide Good, Next, Watched, InitializeStrictly, RunInitializer;
    WatchedStrict(s, root, depth);
    var enter := Enter(true, c.klass);
    RunOne(s, enter);
    WatchedOther(s, enter, root, depth);
    var s1 := Next(s, enter);
    HandleStep(s, enter, c.klass);
    assert [enter][1..] == [] && Moved([enter], c.klass) == c.klass && Moved([enter], s.home[root]) == s.home[root];
    InitializerWatched(s1, c, root, depth);
    StrictRun(s, c);
    var base := RunInitializer(s1, c);
    if base.ok {
      WatchedExit(After(s1, base.ops), root, depth);
    }
  }

  lemma {:induction false} InitializerWatched(s: History, c: Clinit, root: Addr, depth: nat)
    requires Good(s.w) && Watched(s, root, depth) && c.klass in s.w.heap.headers && c.klass != s.home[root]
    ensures s.w.stack != [] && Watched(After(s, RunInitializer(s, c).ops), root, depth)
    decreases c, 1
  {
    hide Good, Next, Watched, RunBody, Finish;
    WatchedStrict(s, root, depth);
    var status := StatusOf(s.w.heap, c.klass);
    var begin := SetStatus(c.klass, INITIALIZING);
    if status != ERROR_RESOLVED && status != ERROR_UNRESOLVED && Enabled(s.w, begin) {
      RunOne(s, begin);
      WatchedWrite(s, begin, root, depth);
      BodyWatched(Next(s, begin), c.body, root, depth);
      var body := RunBody(Next(s, begin), c.body);
      RunsThen(s, [begin], body.ops);
      FinishWatched(s, c, Then(One(begin), body), root, depth);
    }
  }

  lemma FinishWatched(s: History, c: Clinit, r: Outcome, root: Addr, depth: nat)
    requires Good(s.w) && s.w.stack != [] && Runs(s, r.ops) && Watched(s, root, depth)
    requires c.klass in s.w.heap.headers && c.klass != s.home[root]
    requires Watched(After(s, r.ops), root, depth)
    ensures Watched(After(s, Finish(s, c, r).ops), root, depth)
  {
    hide Good, Next, Watched, Enabled;
    WatchedStrict(s, root, depth);
    var s' := After(s, r.ops);
    var ok := r.ok && !IsAborted(s'.w);
    var end := SetStatus(Moved(r.ops, c.klass), if ok then INITIALIZED else ERROR_RESOLVED);
    if Enabled(s'.w, end) {
      HandlesApart(s, r.ops, c.klass, root);
      RunOne(s', end);
      RunsThen(s, r.ops, [end]);
      WatchedWrite(s', end, root, depth);
    }
  }

  // --- The compiler driver's use ---------------------------------------------------------------------

  /** The run of the compiler driver up to the end of the initialisation attempt. */
  function Attempt(w0: World, c: Clinit, strict: bool): (r: Outcome)
    requires Good(w0) && w0.stack == [] && c.klass in w0.heap.headers
    ensures CanRun(Begin(w0), r.ops)
  {
    hide Good, Next;
    var enter := Enter(strict, c.klass);
    RunOne(Begin(w0), enter);
    var init := Initialize(Next(Begin(w0), enter), c);
    RunConcat(Begin(w0), [enter], init.ops);
    Then(One(enter), init)
  }

  lemma AttemptRun(w0: World, c: Clinit, strict: bool)
    requires Good(w0) && w0.stack == [] && c.klass in w0.heap.headers
    ensures var s1 := Next(Begin(w0), Enter(strict, c.klass));
            && s1.w.stack == [NewTxn(strict, c.klass)] && s1.home == Begin(w0).home && s1.leaked == {}
            && s1.w.heap == w0.heap
            && After(Begin(w0), Attempt(w0, c, strict).ops) == After(s1, Initialize(s1, c).ops)
            && Attempt(w0, c, strict).ok == Initialize(s1, c).ok
            && Attempt(w0, c, strict).nestedFailed == Initialize(s1, c).nestedFailed
  {
    hide Initialize;
    var enter := Enter(strict, c.klass);
    RunOne(Begin(w0), enter);
    RunConcat(Begin(w0), [enter], Initialize(Next(Begin(w0), enter), c).ops);
  }

  lemma NotACommit(s: History, op: Op, root: Addr)
    requires Good(s.w) && Enabled(s.w, op) && (op.Write? || op.Enter? || op.Abort?) && NothingLeaked(s, root)
    ensures NothingLeaked(Next(s, op), root) && Next(s, op).home == s.home
  {
    hide WellFormed, TxnOk, InternsWithin;
  }

  /** The class's own initialiser, in its own transaction on top of the driver's. */
  lemma OwnInitializer(s: History, c: Clinit)
    requires Good(s.w) && |s.w.stack| == 2 && s.w.stack[0].strict && NothingLeaked(s, c.klass)
    requires c.klass in s.w.heap.headers && s.w.heap.headers[c.klass].shape.ClassObject?
    requires s.home[c.klass] == c.klass
    ensures NothingLeaked(After(s, RunInitializer(s, c).ops), c.klass)
  {
    hide Good, Next, Watched, RunBody, Finish, NothingLeaked;
    var status := StatusOf(s.w.heap, c.klass);
    var begin := SetStatus(c.klass, INITIALIZING);
    if status != ERROR_RESOLVED && status != ERROR_UNRESOLVED && Enabled(s.w, begin) {
      RunOne(s, begin);
      WatchBegins(s, c.klass);
      BodyWatched(Next(s, begin), c.body, c.klass, 2);
      var body := RunBody(Next(s, begin), c.body);
      RunsThen(s, [begin], body.ops);
      WatchedLeaksNothing(After(Next(s, begin), body.ops), c.klass, 2);
      FinishLeaksNothing(s, c, Then(One(begin), body));
    }
  }

  lemma WatchBegins(s: History, klass: Addr)
    requires Good(s.w) && |s.w.stack| == 2 && s.w.stack[0].strict && NothingLeaked(s, klass)
    requires klass in s.w.heap.headers && s.w.heap.headers[klass].shape.ClassObject? && s.home[klass] == klass
    requires Enabled(s.w, SetStatus(klass, INITIALIZING))
    ensures Watched(Next(s, SetStatus(klass, INITIALIZING)), klass, 2)
  {
    hide WellFormed, TxnOk, InternsWithin;
  }

  lemma WatchedLeaksNothing(s: History, root: Addr, depth: nat)
    requires Watched(s, root, depth)
    ensures NothingLeaked(s, root)
  {
  }

  lemma FinishLeaksNothing(s: History, c: Clinit, r: Outcome)
    requires Good(s.w) && s.w.stack != [] && Runs(s, r.ops) && NothingLeaked(After(s, r.ops), c.klass)
    ensures NothingLeaked(After(s, Finish(s, c, r).ops), c.klass)
  {
    hide Good, Next, Enabled, NothingLeaked;
    var s' := After(s, r.ops);
    var ok := r.ok && !IsAborted(s'.w);
    var end := SetStatus(Moved(r.ops, c.klass), if ok then INITIALIZED else ERROR_RESOLVED);
    if Enabled(s'.w, end) {
      NotACommit(s', end, c.klass);
      RunOne(s', end);
      RunsThen(s, r.ops, [end]);
    }
  }

  /** A strict attempt that fails has not committed the class's own transaction. */
  lemma FailedAttemptLeaksNothing(w0: World, c: Clinit)
    requires Good(w0) && w0.stack == [] && c.klass in w0.heap.headers
    requires w0.heap.headers[c.klass].shape.ClassObject? && !Attempt(w0, c, true).ok
    ensures NothingLeaked(After(Begin(w0), Attempt(w0, c, true).ops), c.klass)
  {
    hide Good, Next, RunInitializer, InitializeStrictly;
    AttemptRun(w0, c, true);
    var s1 := Next(Begin(w0), Enter(true, c.klass));
    var refusal := Refusal(s1.w, c);
    if refusal.Some? {
      RunOne(s1, Abort(refusal.value));
      NotACommit(s1, Abort(refusal.value), c.klass);
    } else {
      StrictRun(s1, c);
      EnterAgain(s1, c.klass);
      OwnInitializer(Next(s1, Enter(true, c.klass)), c);
    }
  }

  lemma EnterAgain(s: History, klass: Addr)
    requires Good(s.w) && |s.w.stack| == 1 && klass in s.w.heap.headers && NothingLeaked(s, klass)
    ensures var n := Next(s, Enter(true, klass));
            && |n.w.stack| == 2 && n.w.stack[0].strict && n.w.heap == s.w.heap && n.home == s.home
            && NothingLeaked(n, klass)
  {
  }

  /** Outside strict mode no record is lost at all. */
  lemma PlainAttemptCommitsNothing(w0: World, c: Clinit)
    requires Good(w0) && w0.stack == [] && c.klass in w0.heap.headers
    ensures Exit !in Attempt(w0, c, false).ops
  {
    hide Good, Next, Initialize;
    AttemptRun(w0, c, false);
    InitInOneTransaction(Next(Begin(w0), Enter(false, c.klass)), c);
  }

  lemma FailedInitRestoresField(w0: World, c: Clinit, strict: bool, s: History, offset: nat)
    requires Good(w0) && w0.stack == [] && c.klass in w0.heap.headers
    requires w0.heap.headers[c.klass].shape.ClassObject? && !Attempt(w0, c, strict).ok
    requires s == After(Begin(w0), Attempt(w0, c, strict).ops)
    requires offset != CLASS_OFFSET && Field(c.klass, offset) in w0.heap.cells
    ensures var l, r := Field(c.klass, offset), RollbackAll(s.w);
            && c.klass in s.home && Field(s.home[c.klass], offset) in r.heap.cells
            && r.heap.cells[Field(s.home[c.klass], offset)] == HomeCell(s.home, w0.heap.cells[l])
  {
    hide Next, Attempt, After;
    var l := Field(c.klass, offset);
    if strict {
      FailedAttemptLeaksNothing(w0, c);
    } else {
      PlainAttemptCommitsNothing(w0, c);
      NoCommitLosesNothing(Begin(w0), Attempt(w0, c, strict).ops);
    }
    HandlesApart(Begin(w0), Attempt(w0, c, strict).ops, c.klass, c.klass);
    RollbackRestores(w0, Attempt(w0, c, strict).ops);
    assert CellOk(w0.heap, l, w0.heap.cells[l]);
    assert Restorable(w0.heap, l);
  }

  /**
   A failed attempt to initialise a class, however deeply its initialisers nest, whatever they
   catch, whichever nested ones were committed and however objects move, followed by rolling
   everything back, leaves no transaction open and every field of the class as it was, its status
   among them.
   */
  lemma FailedInitRestoresClass(w0: World, c: Clinit, strict: bool)
    requires Good(w0) && w0.stack == [] && c.klass in w0.heap.headers
    requires w0.heap.headers[c.klass].shape.ClassObject? && !Attempt(w0, c, strict).ok
    ensures var s := After(Begin(w0), Attempt(w0, c, strict).ops);
            var r := RollbackAll(s.w);
            && r.stack == [] && !r.active && c.klass in s.home
            && (forall offset :: offset != CLASS_OFFSET && Field(c.klass, offset) in w0.heap.cells ==>
                  var x := Field(s.home[c.klass], offset);
                  x in r.heap.cells && r.heap.cells[x] == HomeCell(s.home, w0.heap.cells[Field(c.klass, offset)]))
            && (StatusLoc(c.klass) in w0.heap.cells ==>
                  StatusOf(r.heap, s.home[c.klass]) == StatusOf(w0.heap, c.klass))
  {
    hide Good, Next, Attempt;
    var s := After(Begin(w0), Attempt(w0, c, strict).ops);
    var r := RollbackAll(s.w);
    RollbackAllGood(s.w);
    HandlesApart(Begin(w0), Attempt(w0, c, strict).ops, c.klass, c.klass);
    forall offset | offset != CLASS_OFFSET && Field(c.klass, offset) in w0.heap.cells
      ensures var x := Field(s.home[c.klass], offset);
              x in r.heap.cells && r.heap.cells[x] == HomeCell(s.home, w0.heap.cells[Field(c.klass, offset)])
    {
      FailedInitRestoresField(w0, c, strict, s, offset);
    }
  }

  /** Outside strict mode a failed attempt leaves nothing at all behind. */
  lemma FailedPlainInitRestoresEverything(w0: World, c: Clinit)
    requires Good(w0) && w0.stack == [] && c.klass in w0.heap.headers && !Attempt(w0, c, false).ok
    ensures var s := After(Begin(w0), Attempt(w0, c, false).ops);
            var r := RollbackAll(s.w);
            && (forall l :: Restorable(w0.heap, l) ==>
                  HomeLoc(s.home, l) in r.heap.cells
                  && r.heap.cells[HomeLoc(s.home, l)] == HomeCell(s.home, w0.heap.cells[l]))
            && r.interns == HomeInterns(s.home, w0.interns)
  {
    hide Next, Attempt;
    PlainAttemptCommitsNothing(w0, c);
    RollbackRestoresEverything(w0, Attempt(w0, c, false).ops);
  }

  /**
   After a successful strict attempt the driver commits one transaction. No transaction stays open
   if and only if no nested initialisation failed.
   */
  lemma DriverLeavesNothingOpenIff(w0: World, c: Clinit, strict: bool)
    requires Good(w0) && w0.stack == [] && c.klass in w0.heap.headers && Attempt(w0, c, strict).ok
    ensures var stack := After(Begin(w0), Attempt(w0, c, strict).ops).w.stack;
            |stack| >= 1 && (|stack| == 1 <==> !strict || !Attempt(w0, c, strict).nestedFailed)
  {
    hide Good, Next, Initialize;
    AttemptRun(w0, c, strict);
    var s1 := Next(Begin(w0), Enter(strict, c.klass));
    InitStack(s1, c);
    var init := Initialize(s1, c);
    var stack := After(s1, init.ops).w.stack;
    if strict {
      InitHeight(s1, c);
    }
  }

  lemma InitHeight(s: History, c: Clinit)
    requires Good(s.w) && StrictMode(s.w) && !IsAborted(s.w) && Initialize(s, c).ok
    ensures |After(s, Initialize(s, c).ops).w.stack| == |s.w.stack| <==> !Initialize(s, c).nestedFailed
  {
    hide Good, Next, Initialize;
    InitTracks(s, c);
  }
}
