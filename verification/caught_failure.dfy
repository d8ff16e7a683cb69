/**
 An initialiser that catches the failure of a nested one: the nested transaction stays open, so
 that the commits that follow close the wrong ones.
 */
module CaughtFailure {

  import opened Options
  import opened ManagedHeap
  import opened InternTables
  import opened Transactions
  import opened Rollback
  import opened TransactionRuns
  import opened Restoration
  import opened ClassInit

  /** A class that can be initialised: not in the boot image, with a status field for any status. */
  predicate Ready(w: World, klass: Addr) {
    && klass != NULL && klass in w.heap.headers && w.heap.headers[klass] == Header(ClassObject, false)
    && StatusLoc(klass) in w.heap.cells && w.heap.cells[StatusLoc(klass)].kind == U32
  }

  predicate NotBegun(w: World, klass: Addr) {
    var status := StatusOf(w.heap, klass);
    status < INITIALIZING && status != ERROR_RESOLVED && status != ERROR_UNRESOLVED
  }

  /** Strict, not aborted, and every class in `ready` still ready. */
  predicate Going(s: History, ready: set<Addr>) {
    && Good(s.w) && StrictMode(s.w) && !IsAborted(s.w)
    && (forall k :: k in ready ==> Ready(s.w, k))
  }

  lemma SetStatusGoes(s: History, k: Addr, status: nat, ready: set<Addr>)
    requires Going(s, ready) && k in ready && status < TWO_32
    ensures Enabled(s.w, SetStatus(k, status)) && Going(Next(s, SetStatus(k, status)), ready)
    ensures forall j :: j in ready && j != k ==> NotBegun(Next(s, SetStatus(k, status)).w, j) == NotBegun(s.w, j)
  {
    hide TxnOk, InternsWithin;
    assert CellOk(s.w.heap, StatusLoc(k), s.w.heap.cells[StatusLoc(k)]);
    assert Ready(s.w, k);
    StepOnlyTop(s, SetStatus(k, status));
  }

  lemma EnterGoes(s: History, k: Addr, ready: set<Addr>)
    requires Going(s, ready) && k in ready
    ensures Enabled(s.w, Enter(true, k)) && Going(Next(s, Enter(true, k)), ready)
    ensures forall j :: NotBegun(Next(s, Enter(true, k)).w, j) == NotBegun(s.w, j)
  {
    hide TxnOk, InternsWithin, WellFormed;
    assert Ready(s.w, k);
  }

  predicate NoCollections(ops: seq<Op>) {
    forall op :: op in ops ==> !op.Collect?
  }

  lemma {:induction false} HandlesStay(ops: seq<Op>, k: Addr)
    requires NoCollections(ops)
    ensures Moved(ops, k) == k
  {
    if ops != [] {
      assert ops[0] in ops;
      HandlesStay(ops[1..], k);
    }
  }

  function Simple(klass: Addr, body: seq<Action>): Clinit {
    Clinit(klass, false, false, NULL, false, body)
  }

  /** An initialiser that only throws. */
  function Throwing(klass: Addr): Clinit {
    Simple(klass, [Throw])
  }

  /** One that needs that class, and ignores it if it cannot be initialised. */
  function Catching(klass: Addr, other: Addr): Clinit {
    Simple(klass, [Try([Initialise(Throwing(other))], [])])
  }

  lemma ThrowingFails(s: History, k: Addr, ready: set<Addr>)
    requires Going(s, ready) && k in ready && NotBegun(s.w, k)
    ensures s.w.stack != [] && var r := Initialize(s, Throwing(k));
                               !r.ok && Going(After(s, r.ops), ready) && NoCollections(r.ops)
  {
    hide Good, Next, Going;
    GoingOn(s, ready, k);
    var c, s1 := Throwing(k), Next(s, Enter(true, k));
    EnterGoes(s, k, ready);
    GoingOn(s1, ready, k);
    StrictRun(s, c);
    var begin := SetStatus(k, INITIALIZING);
    SetStatusGoes(s1, k, INITIALIZING, ready);
    var s2 := Next(s1, begin);
    GoingOn(s2, ready, k);
    RunOne(s1, begin);
    assert RunBody(s2, [Throw]) == FAILURE;
    var r := Then(One(begin), FAILURE);
    assert r.ops == [begin];
    RunsThen(s1, [begin], []);
    FailedFinish(s1, c, r, ready);
  }

  lemma GoingOn(s: History, ready: set<Addr>, k: Addr)
    requires Going(s, ready) && k in ready
    ensures Good(s.w) && StrictMode(s.w) && !IsAborted(s.w) && s.w.stack != [] && Ready(s.w, k)
    ensures Refusal(s.w, Throwing(k)).None?
    ensures forall body :: Refusal(s.w, Simple(k, body)).None?
  {
  }

  /** The status at the end of an initialiser is written, and nothing else changes. */
  lemma FailedFinish(s: History, c: Clinit, r: Outcome, ready: set<Addr>)
    requires Good(s.w) && s.w.stack != [] && Runs(s, r.ops) && Going(After(s, r.ops), ready)
    requires Moved(r.ops, c.klass) in ready
    ensures var f := Finish(s, c, r);
            && f.ok == r.ok && f.nestedFailed == r.nestedFailed && Going(After(s, f.ops), ready)
            && (NoCollections(r.ops) ==> NoCollections(f.ops))
  {
    hide Good, Next, Enabled;
    var s' := After(s, r.ops);
    var status: nat := if r.ok then INITIALIZED else ERROR_RESOLVED;
    SetStatusGoes(s', Moved(r.ops, c.klass), status, ready);
    var end := SetStatus(Moved(r.ops, c.klass), status);
    RunOne(s', end);
    RunsThen(s, r.ops, [end]);
  }

  /** The nested failure is caught: the class is initialised, but not all transactions are closed. */
  lemma CatchingSucceeds(s: History, k: Addr, other: Addr)
    requires Going(s, {k, other}) && k != other && NotBegun(s.w, k) && NotBegun(s.w, other)
    ensures s.w.stack != [] && var r := Initialize(s, Catching(k, other)); r.ok && r.nestedFailed
  {
    hide Good, Next, Going;
    var ready, c := {k, other}, Catching(k, other);
    GoingOn(s, ready, k);
    EnterGoes(s, k, ready);
    var s1 := Next(s, Enter(true, k));
    GoingOn(s1, ready, k);
    StrictRun(s, c);
    var begin := SetStatus(k, INITIALIZING);
    SetStatusGoes(s1, k, INITIALIZING, ready);
    var s2 := Next(s1, begin);
    GoingOn(s2, ready, k);
    RunOne(s1, begin);
    CaughtBody(s2, other, ready);
    var body := RunBody(s2, c.body);
    var r := Then(One(begin), body);
    RunsThen(s1, [begin], body.ops);
    HandlesStay(r.ops, k);
    FailedFinish(s1, c, r, ready);
  }

  lemma CaughtBody(s: History, other: Addr, ready: set<Addr>)
    requires Going(s, ready) && other in ready && NotBegun(s.w, other)
    ensures s.w.stack != [] && var r := RunBody(s, Catching(NULL, other).body);
                               r.ok && r.nestedFailed && Going(After(s, r.ops), ready) && NoCollections(r.ops)
  {
    hide Good, Next, Going, Initialize;
    GoingOn(s, ready, other);
    ThrowingFails(s, other, ready);
    var nested := Initialize(s, Throwing(other));
    var s' := After(s, nested.ops);
    GoingOn(s', ready, other);
    var needs := Initialise(Throwing(other));
    assert RunAction(s, needs) == AsNested(nested);
    assert RunBody(s, [needs]) == AsNested(nested);
    assert RunBody(s', []) == NOTHING;
    var first := Then(AsNested(nested), NOTHING);
    assert first.ops == nested.ops;
    assert RunAction(s, Try([needs], [])) == first;
    assert Then(first, NOTHING).ops == nested.ops;
  }

  /**
   The compiler driver's run on such a class: initialisation succeeds, and after the commits one
   transaction is still open.
   */
  lemma CaughtFailureStaysOpen(w0: World, k: Addr, other: Addr)
    requires Good(w0) && w0.stack == [] && Ready(w0, k) && Ready(w0, other) && k != other
    requires NotBegun(w0, k) && NotBegun(w0, other)
    ensures var r := Attempt(w0, Catching(k, other), true);
            r.ok && r.nestedFailed && |After(Begin(w0), r.ops).w.stack| > 1
  {
    hide Next, Initialize;
    var c := Catching(k, other);
    AttemptRun(w0, c, true);
    var s1 := Next(Begin(w0), Enter(true, k));
    CatchingSucceeds(s1, k, other);
    DriverLeavesNothingOpenIff(w0, c, true);
  }

  const EXAMPLE: World :=
    World(Heap(map[8 := Header(ClassObject, false), 16 := Header(ClassObject, false)],
               map[StatusLoc(8) := Cell(U32, Word(11)), StatusLoc(16) := Cell(U32, Word(11))]),
          Interns(map[], map[]), [], false)

  /** Two verified classes are enough. */
  lemma ExampleStaysOpen()
    ensures Good(EXAMPLE) && Attempt(EXAMPLE, Catching(8, 16), true).ok
    ensures |After(Begin(EXAMPLE), Attempt(EXAMPLE, Catching(8, 16), true).ops).w.stack| > 1
  {
    ExampleGood();
    CaughtFailureStaysOpen(EXAMPLE, 8, 16);
  }

  lemma ExampleGood()
    ensures Good(EXAMPLE) && Ready(EXAMPLE, 8) && Ready(EXAMPLE, 16)
    ensures NotBegun(EXAMPLE, 8) && NotBegun(EXAMPLE, 16)
  {
  }
}
