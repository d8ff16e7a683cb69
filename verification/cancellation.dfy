/**
 A cancellation signal shared between the client that cancels and the threads that run processes:
 each call holds the signal's lock, so every interleaving is a sequence of whole calls.
 */
module Cancellation {

  type Pid = nat

  /** What happens to a process: registered with the signal, unregistered, killed, its group killed. */
  datatype Event = Started(pid: Pid) | Ended(pid: Pid) | Killed(pid: Pid) | GroupKilled(pid: Pid)

  datatype State = State(cancelled: bool, pids: set<Pid>, log: seq<Event>)

  const INITIAL: State := State(false, {}, [])

  /** A call; `order` is that in which the registered processes happen to be visited. */
  datatype Call = OnStart(pid: Pid) | OnEnd(pid: Pid) | Cancel(order: seq<Pid>)

  predicate Possible(s: State, c: Call) {
    c.Cancel? ==> Elements(c.order) == s.pids && forall i, j :: 0 <= i < j < |c.order| ==> c.order[i] != c.order[j]
  }

  function Elements(order: seq<Pid>): set<Pid> {
    set p | p in order
  }

  function Kills(order: seq<Pid>): seq<Event> {
    if order == [] then []
    else Kills(order[..|order| - 1]) + [Killed(order[|order| - 1]), GroupKilled(order[|order| - 1])]
  }

  function Step(s: State, c: Call): State {
    match c
    case OnStart(p) => State(s.cancelled, s.pids + {p}, s.log + [Started(p)] + if s.cancelled then Kills([p]) else [])
    case OnEnd(p) => State(s.cancelled, s.pids - {p}, s.log + [Ended(p)])
    case Cancel(order) => State(true, s.pids, s.log + Kills(order))
  }

  function After(calls: seq<Call>): State {
    if calls == [] then INITIAL else Step(After(calls[..|calls| - 1]), calls[|calls| - 1])
  }

  predicate IsRun(calls: seq<Call>) {
    calls == [] || (IsRun(calls[..|calls| - 1]) && Possible(After(calls[..|calls| - 1]), calls[|calls| - 1]))
  }

  // --- What a log shows ------------------------------------------------------------------------------------

  /** The processes that have started and not ended. */
  function Registered(log: seq<Event>): set<Pid> {
    if log == [] then {}
    else Updated(Registered(log[..|log| - 1]), log[|log| - 1])
  }

  function Updated(pids: set<Pid>, e: Event): set<Pid> {
    if e.Started? then pids + {e.pid} else if e.Ended? then pids - {e.pid} else pids
  }

  predicate IsKill(e: Event) {
    e.Killed? || e.GroupKilled?
  }

  /** No kill is sent to a process outside its registered period. */
  predicate Safe(log: seq<Event>) {
    forall i :: 0 <= i < |log| && IsKill(log[i]) ==> log[i].pid in Registered(log[..i])
  }

  /** The event is in the log, and the process has neither started nor ended since. */
  ghost predicate Since(log: seq<Event>, e: Event) {
    exists k :: 0 <= k < |log| && log[k] == e && Quiet(log, k, e.pid)
  }

  predicate Quiet(log: seq<Event>, k: nat, p: Pid) {
    forall j :: k < j < |log| ==> log[j] != Started(p) && log[j] != Ended(p)
  }

  ghost predicate Complete(s: State) {
    s.cancelled ==> forall p :: p in s.pids ==> Reached(s.log, p)
  }

  ghost predicate Good(s: State) {
    s.pids == Registered(s.log) && Safe(s.log) && Complete(s)
  }

  // --- Every interleaving ----------------------------------------------------------------------------------

  lemma Appended(log: seq<Event>, e: Event)
    ensures Registered(log + [e]) == Updated(Registered(log), e)
    ensures Safe(log + [e]) <==> Safe(log) && (IsKill(e) ==> e.pid in Registered(log))
  {
    var more := log + [e];
    assert more[..|log|] == log;
    assert forall i :: 0 <= i < |log| ==> more[i] == log[i] && more[..i] == log[..i];
    assert more[|log|] == e;
  }

  /** What has happened stays so until the process starts or ends. */
  lemma SinceStays(log: seq<Event>, e: Event, next: Event)
    requires Since(log, e) && next != Started(e.pid) && next != Ended(e.pid)
    ensures Since(log + [next], e)
  {
    var k :| 0 <= k < |log| && log[k] == e && Quiet(log, k, e.pid);
    assert (log + [next])[k] == e && Quiet(log + [next], k, e.pid);
  }

  lemma SinceNow(log: seq<Event>, e: Event)
    ensures Since(log + [e], e)
  {
    assert (log + [e])[|log|] == e && Quiet(log + [e], |log|, e.pid);
  }

  /** Nothing but kills of registered processes has been added. */
  ghost predicate OnlyKills(log: seq<Event>, more: seq<Event>) {
    && Safe(more) && Registered(more) == Registered(log)
    && (forall e :: Since(log, e) ==> Since(more, e))
  }

  ghost predicate Reached(log: seq<Event>, p: Pid) {
    Since(log, Killed(p)) && Since(log, GroupKilled(p))
  }

  lemma KillsLast(order: seq<Pid>, p: Pid)
    ensures Kills(order + [p]) == Kills(order) + [Killed(p)] + [GroupKilled(p)]
  {
  }

  /** Killing registered processes is safe, reaches each of them, and undoes no earlier kill. */
  lemma {:induction false} KillsReach(log: seq<Event>, order: seq<Pid>)
    requires Safe(log) && forall p :: p in order ==> p in Registered(log)
    ensures OnlyKills(log, log + Kills(order))
    ensures forall p :: p in order ==> Reached(log + Kills(order), p)
  {
    if order == [] {
      assert log + Kills(order) == log;
    } else {
      var before, p := order[..|order| - 1], order[|order| - 1];
      KillsReach(log, before);
      assert p in order && before + [p] == order;
      KillsLast(before, p);
      KillsOne(log, log + Kills(before), p);
      assert log + Kills(order) == log + Kills(before) + [Killed(p)] + [GroupKilled(p)];
    }
  }

  lemma KillsOne(start: seq<Event>, log: seq<Event>, p: Pid)
    requires OnlyKills(start, log) && p in Registered(start)
    ensures var more := log + [Killed(p)] + [GroupKilled(p)];
            OnlyKills(start, more) && Reached(more, p) && forall q :: Reached(log, q) ==> Reached(more, q)
  {
    var more := log + [Killed(p)] + [GroupKilled(p)];
    Appended(log, Killed(p));
    Appended(log + [Killed(p)], GroupKilled(p));
    SinceNow(log, Killed(p));
    SinceStays(log + [Killed(p)], Killed(p), GroupKilled(p));
    SinceNow(log + [Killed(p)], GroupKilled(p));
    forall e | Since(log, e)
      ensures Since(more, e)
    {
      SinceStays(log, e, Killed(p));
      SinceStays(log + [Killed(p)], e, GroupKilled(p));
    }
  }

  lemma StepGood(s: State, c: Call)
    requires Good(s) && Possible(s, c)
    ensures Good(Step(s, c))
  {
    match c {
      case OnStart(p) =>
        StartGood(s, p);
      case OnEnd(p) =>
        Appended(s.log, Ended(p));
        if s.cancelled {
          EventKeeps(s, Ended(p));
        }
      case Cancel(order) =>
        assert forall p :: p in order <==> p in Elements(order);
        KillsReach(s.log, order);
    }
  }

  lemma EventKeeps(s: State, next: Event)
    requires Complete(s) && s.cancelled
    ensures forall p :: p in s.pids && next != Started(p) && next != Ended(p) ==> Reached(s.log + [next], p)
  {
    forall p | p in s.pids && next != Started(p) && next != Ended(p)
      ensures Reached(s.log + [next], p)
    {
      SinceStays(s.log, Killed(p), next);
      SinceStays(s.log, GroupKilled(p), next);
    }
  }

  lemma StartGood(s: State, p: Pid)
    requires Good(s)
    ensures Good(Step(s, OnStart(p)))
  {
    var log := s.log + [Started(p)];
    Appended(s.log, Started(p));
    if s.cancelled {
      EventKeeps(s, Started(p));
      KillsReach(log, [p]);
      assert p in [p];
    } else {
      assert log + [] == log;
    }
  }

  /**
   In every interleaving kills go only to registered processes, and once the signal is cancelled,
   every registered process and its group have been killed since it was registered.
   */
  lemma {:induction false} EveryInterleavingGood(calls: seq<Call>)
    requires IsRun(calls)
    ensures Good(After(calls))
  {
    if calls != [] {
      EveryInterleavingGood(calls[..|calls| - 1]);
      StepGood(After(calls[..|calls| - 1]), calls[|calls| - 1]);
    }
  }

  /** A cancelled signal stays cancelled. */
  lemma {:induction false} NeverReset(calls: seq<Call>, k: nat)
    requires k <= |calls| && After(calls[..k]).cancelled
    ensures After(calls).cancelled
  {
    if k < |calls| {
      assert calls[..|calls| - 1][..k] == calls[..k];
      NeverReset(calls[..|calls| - 1], k);
    } else {
      assert calls[..k] == calls;
    }
  }

  // --- What the calls were ---------------------------------------------------------------------------------

  /** The signal is cancelled exactly if a client has cancelled it. */
  lemma {:induction false} CancelledIff(calls: seq<Call>)
    ensures After(calls).cancelled <==> exists i :: 0 <= i < |calls| && calls[i].Cancel?
  {
    if calls != [] {
      var n := |calls| - 1;
      CancelledIff(calls[..n]);
      if After(calls).cancelled && !calls[n].Cancel? {
        var i :| 0 <= i < n && calls[..n][i].Cancel?;
        assert calls[i].Cancel?;
      }
      if i :| 0 <= i < n && calls[i].Cancel? {
        assert calls[..n][i].Cancel?;
      }
    }
  }

  /** Call `i` reported the start of the process, and no later one its end. */
  predicate RunningSince(calls: seq<Call>, i: nat, p: Pid) {
    i < |calls| && calls[i] == OnStart(p) && forall j :: i < j < |calls| ==> calls[j] != OnEnd(p)
  }

  /** Exactly the processes that were reported to start, and since then not to end, are registered. */
  lemma {:induction false} RegisteredIff(calls: seq<Call>, p: Pid)
    ensures p in After(calls).pids <==> exists i: nat :: RunningSince(calls, i, p)
  {
    if calls != [] {
      var n := |calls| - 1;
      var before := calls[..n];
      RegisteredIff(before, p);
      if calls[n] == OnStart(p) {
        assert RunningSince(calls, n, p);
      }
      if i: nat :| RunningSince(before, i, p) && calls[n] != OnEnd(p) {
        assert RunningSince(calls, i, p);
      }
      if i: nat :| RunningSince(calls, i, p) && i < n {
        assert RunningSince(before, i, p);
      }
    }
  }

  /** Every start and end is noted, and as long as nobody cancels, nothing else happens. */
  lemma {:induction false} NoKillBeforeCancel(calls: seq<Call>)
    requires forall i :: 0 <= i < |calls| ==> !calls[i].Cancel?
    ensures |After(calls).log| == |calls|
    ensures forall i :: 0 <= i < |calls| ==>
              After(calls).log[i] == if calls[i].OnStart? then Started(calls[i].pid) else Ended(calls[i].pid)
  {
    CancelledIff(calls);
    if calls != [] {
      NoKillBeforeCancel(calls[..|calls| - 1]);
      CancelledIff(calls[..|calls| - 1]);
    }
  }

  lemma {:induction false} KillsInOrder(order: seq<Pid>, i: nat)
    requires i < |order|
    ensures |Kills(order)| == 2 * |order|
    ensures Kills(order)[2 * i] == Killed(order[i]) && Kills(order)[2 * i + 1] == GroupKilled(order[i])
  {
    var before := order[..|order| - 1];
    if before != [] {
      KillsInOrder(before, if i < |before| then i else 0);
    }
  }

  /** Each call to cancel kills every registered process, then its group, and does nothing more. */
  lemma CancelKillsEach(s: State, order: seq<Pid>, i: nat)
    requires i < |order|
    ensures var more := Step(s, Cancel(order)).log;
            && |more| == |s.log| + 2 * |order| && s.log <= more
            && more[|s.log| + 2 * i] == Killed(order[i]) && more[|s.log| + 2 * i + 1] == GroupKilled(order[i])
  {
    KillsInOrder(order, i);
  }

  /** A process that starts late is killed once, with its group. */
  lemma LateStartIsKilled(s: State, p: Pid)
    requires s.cancelled
    ensures Step(s, OnStart(p)).log == s.log + [Started(p), Killed(p), GroupKilled(p)]
  {
    KillsLast([], p);
  }

  // --- The signal ------------------------------------------------------------------------------------------

  class ArtdCancellationSignal {
    var isCancelled: bool
    var pids: set<Pid>
    var log: seq<Event>

    function View(): State
      reads this
    {
      State(isCancelled, pids, log)
    }

    constructor ()
      ensures View() == INITIAL && Good(View())
    {
      isCancelled, pids, log := false, {}, [];
    }

    method Kill(pid: Pid)
      modifies this`log
      ensures log == old(log) + [Killed(pid)] + [GroupKilled(pid)]
    {
      log := log + [Killed(pid)];
      log := log + [GroupKilled(pid)];
    }

    method CancelSignal() returns (ghost order: seq<Pid>)
      requires Good(View())
      modifies this
      ensures Possible(old(View()), Cancel(order)) && View() == Step(old(View()), Cancel(order)) && Good(View())
    {
      isCancelled := true;
      var todo := pids;
      order := [];
      while todo != {}
        invariant isCancelled && pids == old(pids) && log == old(log) + Kills(order)
        invariant todo <= pids && Elements(order) == pids - todo
        invariant forall i, j :: 0 <= i < j < |order| ==> order[i] != order[j]
      {
        var pid :| pid in todo;
        KillsLast(order, pid);
        assert Elements(order + [pid]) == Elements(order) + {pid};
        assert forall p :: p in order ==> p in Elements(order);
        Kill(pid);
        order := order + [pid];
        todo := todo - {pid};
      }
      StepGood(old(View()), Cancel(order));
    }

    method Register(pid: Pid)
      requires Good(View())
      modifies this
      ensures View() == Step(old(View()), OnStart(pid)) && Good(View())
    {
      hide Safe, Complete;
      pids := pids + {pid};
      log := log + [Started(pid)];
      if isCancelled {
        KillsLast([], pid);
        Kill(pid);
      }
      StepGood(old(View()), OnStart(pid));
    }

    method Unregister(pid: Pid)
      requires Good(View())
      modifies this
      ensures View() == Step(old(View()), OnEnd(pid)) && Good(View())
    {
      pids := pids - {pid};
      log := log + [Ended(pid)];
      StepGood(old(View()), OnEnd(pid));
    }
  }
}
