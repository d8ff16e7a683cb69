/**
 The control flow graph that dexdump draws: instructions are grouped into basic blocks, and blocks
 are connected by fall-through, taken and exception edges.
 */
module ControlFlowGraph {

  import opened Options

  datatype Kind = Plain | Goto | If | Switch | Return | Throw

  /** A decoded instruction; `targets` are absolute, `handlers` the addresses its exceptions go to. */
  datatype Insn = Insn(pc: nat, size: nat, kind: Kind, targets: seq<nat>, handlers: set<nat>) {
    predicate IsBranch() { kind.Goto? || kind.If? }
    predicate IsBasicBlockEnd() { IsBranch() || kind.Return? || kind.Throw? }
    predicate FallsThrough() { !kind.Goto? && !kind.Return? && !kind.Throw? }

    /** Only branches (one target) and switches have targets. */
    predicate Valid() {
      && size > 0
      && (IsBranch() ==> |targets| == 1)
      && (!IsBranch() && !kind.Switch? ==> targets == [])
    }
  }

  /** Instructions follow one another without gaps, from address 0. */
  predicate IsCode(code: seq<Insn>) {
    && (code != [] ==> code[0].pc == 0)
    && (forall i :: 0 <= i < |code| ==> code[i].Valid())
    && (forall i :: 0 < i < |code| ==> Adjacent(code, i))
  }

  predicate Adjacent(code: seq<Insn>, i: nat)
    requires 0 < i < |code|
  {
    code[i].pc == code[i - 1].pc + code[i - 1].size
  }

  lemma {:induction false} PcsIncrease(code: seq<Insn>, i: nat, j: nat)
    requires IsCode(code) && i < j < |code|
    ensures code[i].pc < code[j].pc
  {
    assert Adjacent(code, j);
    if i < j - 1 {
      PcsIncrease(code, i, j - 1);
    }
  }

  lemma PcsDistinct(code: seq<Insn>, i: nat, j: nat)
    requires IsCode(code) && i < |code| && j < |code| && code[i].pc == code[j].pc
    ensures i == j
  {
    if i < j {
      PcsIncrease(code, i, j);
    } else if j < i {
      PcsIncrease(code, j, i);
    }
  }

  // --- Basic blocks ----------------------------------------------------------------------------------

  predicate IsTarget(code: seq<Insn>, pc: nat) {
    exists i :: 0 <= i < |code| && pc in code[i].targets
  }

  /** Instruction `i` begins a block. */
  predicate IsLeader(code: seq<Insn>, i: nat)
    requires i < |code|
  {
    i == 0 || IsTarget(code, code[i].pc) || code[i - 1].kind.Switch? || code[i - 1].IsBasicBlockEnd()
  }

  /** How many of the first `n` instructions begin a block. */
  function Leaders(code: seq<Insn>, n: nat): (r: nat)
    requires n <= |code|
    ensures n > 0 ==> r > 0
  {
    if n == 0 then 0 else Leaders(code, n - 1) + if IsLeader(code, n - 1) then 1 else 0
  }

  /** The block of instruction `i`. */
  function NodeOf(code: seq<Insn>, i: nat): nat
    requires i < |code|
  {
    Leaders(code, i + 1) - 1
  }

  /** The instruction that begins the block of instruction `i`. */
  function BlockStart(code: seq<Insn>, i: nat): (s: nat)
    requires i < |code|
    ensures s <= i && IsLeader(code, s) && NodeOf(code, s) == NodeOf(code, i)
    ensures forall k :: s < k <= i ==> !IsLeader(code, k)
  {
    if IsLeader(code, i) then i else BlockStart(code, i - 1)
  }

  lemma {:induction false} LeadersGrow(code: seq<Insn>, m: nat, n: nat)
    requires m <= n <= |code|
    ensures Leaders(code, m) <= Leaders(code, n)
    ensures (exists k :: m <= k < n && IsLeader(code, k)) ==> Leaders(code, m) < Leaders(code, n)
    decreases n - m
  {
    if m < n {
      LeadersGrow(code, m, n - 1);
    }
  }

  /**
   Blocks are the maximal runs of instructions without a further block start: two instructions
   share a block exactly when no instruction after the first, up to the second, begins one.
   */
  lemma BlocksPartition(code: seq<Insn>, i: nat, j: nat)
    requires i <= j < |code|
    ensures NodeOf(code, i) <= NodeOf(code, j)
    ensures NodeOf(code, i) == NodeOf(code, j) <==> forall k :: i < k <= j ==> !IsLeader(code, k)
    ensures NodeOf(code, i) == NodeOf(code, j) <==> BlockStart(code, i) == BlockStart(code, j)
  {
    LeadersGrow(code, i + 1, j + 1);
    if forall k :: i < k <= j ==> !IsLeader(code, k) {
      SameBlock(code, i, j);
    }
  }

  lemma {:induction false} SameBlock(code: seq<Insn>, i: nat, j: nat)
    requires i <= j < |code| && forall k :: i < k <= j ==> !IsLeader(code, k)
    ensures NodeOf(code, i) == NodeOf(code, j) && BlockStart(code, i) == BlockStart(code, j)
  {
    if i < j {
      SameBlock(code, i, j - 1);
    }
  }

  /** First pass: the addresses that branches and switches name. */
  method CollectTargets(code: seq<Insn>) returns (targets: set<nat>)
    requires IsCode(code)
    ensures forall pc :: pc in targets <==> IsTarget(code, pc)
  {
    targets := {};
    for i := 0 to |code|
      invariant forall pc :: pc in targets <==> exists k :: 0 <= k < i && pc in code[k].targets
    {
      var insn := code[i];
      if insn.IsBranch() {
        targets := targets + {insn.targets[0]};
      } else if insn.kind.Switch? {
        ghost var before := targets;
        for t := 0 to |insn.targets|
          invariant forall pc :: pc in targets <==> pc in before || pc in insn.targets[..t]
        {
          targets := targets + {insn.targets[t]};
          assert insn.targets[..t + 1] == insn.targets[..t] + [insn.targets[t]];
        }
        assert insn.targets[..|insn.targets|] == insn.targets;
      }
    }
  }

  /** Block numbers of the first `n` instructions, by address. */
  function InclIds(code: seq<Insn>, n: nat): map<nat, nat>
    requires n <= |code|
  {
    if n == 0 then map[] else InclIds(code, n - 1)[code[n - 1].pc := NodeOf(code, n - 1)]
  }

  /** Block numbers of those of the first `n` instructions that begin a block. */
  function NodeIds(code: seq<Insn>, n: nat): map<nat, nat>
    requires n <= |code|
  {
    if n == 0 then map[]
    else if IsLeader(code, n - 1) then NodeIds(code, n - 1)[code[n - 1].pc := NodeOf(code, n - 1)]
    else NodeIds(code, n - 1)
  }

  lemma {:induction false} IdsSound(code: seq<Insn>, n: nat, pc: nat)
    requires IsCode(code) && n <= |code|
    ensures pc in InclIds(code, n) ==>
              exists i :: 0 <= i < n && code[i].pc == pc && InclIds(code, n)[pc] == NodeOf(code, i)
    ensures pc in NodeIds(code, n) ==>
              exists i :: 0 <= i < n && code[i].pc == pc && IsLeader(code, i) && NodeIds(code, n)[pc] == NodeOf(code, i)
  {
    if n > 0 {
      IdsSound(code, n - 1, pc);
      assert code[n - 1].pc == pc || code[n - 1].pc != pc;
    }
  }

  lemma {:induction false} IdsComplete(code: seq<Insn>, n: nat, i: nat)
    requires IsCode(code) && i < n <= |code|
    ensures code[i].pc in InclIds(code, n) && InclIds(code, n)[code[i].pc] == NodeOf(code, i)
    ensures IsLeader(code, i) ==> code[i].pc in NodeIds(code, n) && NodeIds(code, n)[code[i].pc] == NodeOf(code, i)
    ensures code[i].pc in NodeIds(code, n) ==> IsLeader(code, i)
  {
    if i < n - 1 {
      IdsComplete(code, n - 1, i);
      PcsIncrease(code, i, n - 1);
    }
    if code[i].pc in NodeIds(code, n) {
      IdsSound(code, n, code[i].pc);
      var k :| 0 <= k < n && code[k].pc == code[i].pc && IsLeader(code, k);
      PcsDistinct(code, i, k);
    }
  }

  /** Second pass: numbers the blocks and the instructions in them. */
  method NumberBlocks(code: seq<Insn>, targets: set<nat>) returns (nodeIds: map<nat, nat>, inclIds: map<nat, nat>)
    requires IsCode(code) && forall pc :: pc in targets <==> IsTarget(code, pc)
    ensures nodeIds == NodeIds(code, |code|) && inclIds == InclIds(code, |code|)
  {
    nodeIds, inclIds := map[], map[];
    var forceNewBlock := false;
    for i := 0 to |code|
      invariant nodeIds == NodeIds(code, i) && inclIds == InclIds(code, i)
      invariant |nodeIds| == Leaders(code, i)
      invariant i > 0 ==> forceNewBlock == (code[i - 1].kind.Switch? || code[i - 1].IsBasicBlockEnd())
      invariant i == 0 ==> !forceNewBlock
    {
      var pc := code[i].pc;
      NextPcIsNew(code, i);
      if pc == 0 || pc in targets || forceNewBlock {
        nodeIds := nodeIds[pc := |nodeIds|];
        forceNewBlock := false;
      }
      inclIds := inclIds[pc := |nodeIds| - 1];
      forceNewBlock := code[i].kind.Switch? || code[i].IsBasicBlockEnd();
    }
  }

  lemma NextPcIsNew(code: seq<Insn>, i: nat)
    requires IsCode(code) && i < |code|
    ensures code[i].pc == 0 <==> i == 0
    ensures code[i].pc !in NodeIds(code, i)
  {
    if i > 0 {
      PcsIncrease(code, 0, i);
    }
    if code[i].pc in NodeIds(code, i) {
      IdsSound(code, i, code[i].pc);
      var k :| 0 <= k < i && code[k].pc == code[i].pc;
      PcsIncrease(code, k, i);
    }
  }

  // --- Fall-through and taken edges ----------------------------------------------------------------

  datatype Edge = Edge(fromNode: nat, fromPc: nat, toNode: nat, toPc: nat)

  /** Control passes from instruction `i`, the end of its block, to the next instruction. */
  predicate FallsInto(code: seq<Insn>, i: nat) {
    i + 1 < |code| && IsLeader(code, i + 1) && code[i].FallsThrough()
  }

  /** Instruction `i` names the address of instruction `j` as a target. */
  predicate JumpsTo(code: seq<Insn>, i: nat, j: nat) {
    i < |code| && j < |code| && code[j].pc in code[i].targets
  }

  function EdgeBetween(code: seq<Insn>, i: nat, j: nat): Edge
    requires i < |code| && j < |code|
  {
    Edge(NodeOf(code, i), code[i].pc, NodeOf(code, j), code[j].pc)
  }

  ghost predicate IsRegularEdge(code: seq<Insn>, e: Edge) {
    exists i: nat :: FallsInto(code, i) && e == EdgeBetween(code, i, i + 1)
  }

  ghost predicate IsTakenEdge(code: seq<Insn>, e: Edge) {
    exists i: nat, j: nat :: JumpsTo(code, i, j) && e == EdgeBetween(code, i, j)
  }

  /** The fall-through edges into the first `n` instructions, in order. */
  function RegularEdges(code: seq<Insn>, n: nat): seq<Edge>
    requires n <= |code|
  {
    if n <= 1 then []
    else
      var i := n - 2;
      RegularEdges(code, n - 1) + if FallsInto(code, i) then [EdgeBetween(code, i, i + 1)] else []
  }

  lemma {:induction false} RegularEdgesExact(code: seq<Insn>, n: nat, e: Edge)
    requires n <= |code|
    ensures e in RegularEdges(code, n) <==>
            exists i: nat :: i < n - 1 && FallsInto(code, i) && e == EdgeBetween(code, i, i + 1)
  {
    if n > 1 {
      RegularEdgesExact(code, n - 1, e);
    }
  }

  /** The edges for the first `k` targets of instruction `i`. */
  function TakenFrom(code: seq<Insn>, i: nat, k: nat): seq<Edge>
    requires i < |code| && k <= |code[i].targets|
  {
    if k == 0 then []
    else
      var t, nodeIds := code[i].targets[k - 1], NodeIds(code, |code|);
      TakenFrom(code, i, k - 1)
      + if t in nodeIds then [Edge(NodeOf(code, i), code[i].pc, nodeIds[t], t)] else []
  }

  function TakenEdges(code: seq<Insn>, n: nat): seq<Edge>
    requires n <= |code|
  {
    if n == 0 then [] else TakenEdges(code, n - 1) + TakenFrom(code, n - 1, |code[n - 1].targets|)
  }

  /** A target that is the address of an instruction begins a block and has its number. */
  lemma TargetIsLeader(code: seq<Insn>, i: nat, t: nat)
    requires IsCode(code) && i < |code| && t in code[i].targets
    ensures t in NodeIds(code, |code|) <==> exists j :: 0 <= j < |code| && code[j].pc == t
    ensures forall j :: 0 <= j < |code| && code[j].pc == t ==>
              IsLeader(code, j) && t in NodeIds(code, |code|) && NodeIds(code, |code|)[t] == NodeOf(code, j)
  {
    IdsSound(code, |code|, t);
    forall j | 0 <= j < |code| && code[j].pc == t
      ensures IsLeader(code, j) && t in NodeIds(code, |code|) && NodeIds(code, |code|)[t] == NodeOf(code, j)
    {
      assert IsTarget(code, t);
      IdsComplete(code, |code|, j);
    }
  }

  /** Target `m` of instruction `i` is instruction `j`. */
  predicate NamesTarget(code: seq<Insn>, i: nat, m: nat, j: nat) {
    i < |code| && j < |code| && m < |code[i].targets| && code[i].targets[m] == code[j].pc
  }

  ghost predicate TargetEdge(code: seq<Insn>, i: nat, m: nat, e: Edge) {
    exists j: nat :: NamesTarget(code, i, m, j) && e == EdgeBetween(code, i, j)
  }

  lemma TargetEdgeExact(code: seq<Insn>, i: nat, m: nat, e: Edge)
    requires IsCode(code) && i < |code| && m < |code[i].targets|
    ensures var t, ids := code[i].targets[m], NodeIds(code, |code|);
            TargetEdge(code, i, m, e) <==> t in ids && e == Edge(NodeOf(code, i), code[i].pc, ids[t], t)
  {
    var t, ids := code[i].targets[m], NodeIds(code, |code|);
    TargetIsLeader(code, i, t);
    if t in ids {
      var j: nat :| j < |code| && code[j].pc == t;
      assert NamesTarget(code, i, m, j);
    }
  }

  lemma {:induction false} TakenFromExact(code: seq<Insn>, i: nat, k: nat, e: Edge)
    requires IsCode(code) && i < |code| && k <= |code[i].targets|
    ensures e in TakenFrom(code, i, k) <==> exists m: nat :: m < k && TargetEdge(code, i, m, e)
  {
    if k > 0 {
      TakenFromExact(code, i, k - 1, e);
      TargetEdgeExact(code, i, k - 1, e);
    }
  }

  ghost predicate JumpEdgeFrom(code: seq<Insn>, i: nat, e: Edge) {
    exists j: nat :: JumpsTo(code, i, j) && e == EdgeBetween(code, i, j)
  }

  lemma JumpEdgeExact(code: seq<Insn>, i: nat, e: Edge)
    requires IsCode(code) && i < |code|
    ensures e in TakenFrom(code, i, |code[i].targets|) <==> JumpEdgeFrom(code, i, e)
  {
    TakenFromExact(code, i, |code[i].targets|, e);
    if JumpEdgeFrom(code, i, e) {
      var j: nat :| JumpsTo(code, i, j) && e == EdgeBetween(code, i, j);
      var m: nat :| m < |code[i].targets| && code[i].targets[m] == code[j].pc;
      assert NamesTarget(code, i, m, j) && TargetEdge(code, i, m, e);
    }
    if m: nat :| m < |code[i].targets| && TargetEdge(code, i, m, e) {
      var j: nat :| NamesTarget(code, i, m, j) && e == EdgeBetween(code, i, j);
      assert JumpsTo(code, i, j);
    }
  }

  lemma {:induction false} TakenEdgesExact(code: seq<Insn>, n: nat, e: Edge)
    requires IsCode(code) && n <= |code|
    ensures e in TakenEdges(code, n) <==> exists i: nat :: i < n && JumpEdgeFrom(code, i, e)
  {
    hide TakenFrom, JumpEdgeFrom, IsCode;
    if n > 0 {
      TakenEdgesExact(code, n - 1, e);
      JumpEdgeExact(code, n - 1, e);
    }
  }

  /** The two edge lists are exactly what the instructions mean. */
  lemma EdgesExact(code: seq<Insn>, e: Edge)
    requires IsCode(code)
    ensures e in RegularEdges(code, |code|) <==> IsRegularEdge(code, e)
    ensures e in TakenEdges(code, |code|) <==> IsTakenEdge(code, e)
  {
    RegularEdgesExact(code, |code|, e);
    TakenEdgesExact(code, |code|, e);
    if IsTakenEdge(code, e) {
      var i: nat, j: nat :| JumpsTo(code, i, j) && e == EdgeBetween(code, i, j);
      assert JumpEdgeFrom(code, i, e);
    }
  }

  // --- Exception edges -------------------------------------------------------------------------------

  /** From a whole block, or from the one instruction given by its address. */
  datatype ExceptionEdge = ExceptionEdge(node: nat, at: Option<nat>, toNode: nat, handler: nat)

  /** The instruction's exceptions may go to the handler, and the handler is an instruction. */
  predicate ThrowsTo(code: seq<Insn>, i: nat, handler: nat)
    requires i < |code|
  {
    handler in code[i].handlers && handler in InclIds(code, |code|)
  }

  /** The edge stands for an instruction of its block. */
  ghost predicate StandsFor(code: seq<Insn>, e: ExceptionEdge, i: nat) {
    && i < |code| && NodeOf(code, i) == e.node && ThrowsTo(code, i, e.handler)
    && e.toNode == InclIds(code, |code|)[e.handler]
    && (e.at.None? || e.at.value == code[i].pc)
  }

  ghost predicate IsSound(code: seq<Insn>, e: ExceptionEdge) {
    exists i: nat :: StandsFor(code, e, i)
  }

  ghost predicate HasEdge(edges: set<ExceptionEdge>, node: nat, handler: nat) {
    exists e :: e in edges && e.node == node && e.handler == handler
  }

  ghost predicate Covers(code: seq<Insn>, edges: set<ExceptionEdge>, i: nat)
    requires i < |code|
  {
    forall handler :: ThrowsTo(code, i, handler) ==> HasEdge(edges, NodeOf(code, i), handler)
  }

  /** All handlers of the instructions from `s` to `i`. */
  function HandlersIn(code: seq<Insn>, s: nat, i: nat): (r: set<nat>)
    requires s <= i < |code|
    ensures forall k :: s <= k <= i ==> code[k].handlers <= r
    decreases i
  {
    if i == s then code[i].handlers else HandlersIn(code, s, i - 1) + code[i].handlers
  }

  /** An instruction the handler belongs to. */
  function HandlerOwner(code: seq<Insn>, s: nat, i: nat, h: nat): (k: nat)
    requires s <= i < |code| && h in HandlersIn(code, s, i)
    ensures s <= k <= i && h in code[k].handlers
    decreases i
  {
    if h in code[i].handlers then i else HandlerOwner(code, s, i - 1, h)
  }

  function CommonEdges(code: seq<Insn>, node: nat, handlers: set<nat>): set<ExceptionEdge> {
    set h | h in handlers && h in InclIds(code, |code|) ::
      ExceptionEdge(node, None, InclIds(code, |code|)[h], h)
  }

  /** The block of instruction `j` is left to the detailed pass, or its edges are there. */
  ghost predicate Settled(code: seq<Insn>, detailed: set<nat>, edges: set<ExceptionEdge>, j: nat)
    requires j < |code|
  {
    code[BlockStart(code, j)].pc in detailed || Covers(code, edges, j)
  }

  /** Every edge is justified, and detailed blocks are given by their first address. */
  ghost predicate EdgesOk(code: seq<Insn>, detailed: set<nat>, edges: set<ExceptionEdge>) {
    && (forall e :: e in edges ==> IsSound(code, e))
    && (forall pc :: pc in detailed ==> pc in NodeIds(code, |code|))
  }

  /**
   The state after `i` instructions: unless the current block is detailed, `pending` is the union
   of its handlers so far; earlier blocks are settled.
   */
  ghost predicate Pending(
    code: seq<Insn>, i: nat, pending: set<nat>, start: nat, detailed: set<nat>, edges: set<ExceptionEdge>)
    requires 0 < i <= |code|
  {
    var s := BlockStart(code, i - 1);
    && start == code[s].pc
    && pending <= HandlersIn(code, s, i - 1)
    && (start in detailed || pending == HandlersIn(code, s, i - 1))
    && (forall j :: 0 <= j < s ==> Settled(code, detailed, edges, j))
    && EdgesOk(code, detailed, edges)
  }

  /** An instruction of the block that begins at `s`, up to `i`, lacks a handler of an earlier one. */
  ghost predicate Disagrees(code: seq<Insn>, s: nat, k: nat)
    requires s < k < |code|
  {
    BlockStart(code, k) == s && !(HandlersIn(code, s, k - 1) <= code[k].handlers)
  }

  /** Among the first `i` instructions, exactly the blocks with such an instruction are detailed. */
  ghost predicate DetailedSoFar(code: seq<Insn>, detailed: set<nat>, i: nat)
    requires i <= |code|
  {
    forall s :: 0 <= s < i && IsLeader(code, s) ==>
      (code[s].pc in detailed <==> exists k :: s < k < i && Disagrees(code, s, k))
  }

  lemma DetailedStep(
    code: seq<Insn>, i: nat, detailed: set<nat>, detailed': set<nat>)
    requires IsCode(code) && i < |code| && DetailedSoFar(code, detailed, i)
    requires IsLeader(code, i) ==> detailed' == detailed && code[i].pc !in detailed
    requires !IsLeader(code, i) ==>
               var s := BlockStart(code, i);
               detailed' == detailed + if Disagrees(code, s, i) then {code[s].pc} else {}
    ensures DetailedSoFar(code, detailed', i + 1)
  {
    hide IsLeader, BlockStart, Disagrees;
    forall s | 0 <= s < i + 1 && IsLeader(code, s)
      ensures code[s].pc in detailed' <==> exists k :: s < k < i + 1 && Disagrees(code, s, k)
    {
      if s < i {
        DetailedStepAt(code, i, detailed, detailed', s);
      }
    }
  }

  lemma DetailedStepAt(code: seq<Insn>, i: nat, detailed: set<nat>, detailed': set<nat>, s: nat)
    requires IsCode(code) && s < i < |code| && IsLeader(code, s)
    requires code[s].pc in detailed <==> exists k :: s < k < i && Disagrees(code, s, k)
    requires IsLeader(code, i) ==> detailed' == detailed
    requires !IsLeader(code, i) ==>
               var b := BlockStart(code, i);
               detailed' == detailed + if Disagrees(code, b, i) then {code[b].pc} else {}
    ensures code[s].pc in detailed' <==> exists k :: s < k < i + 1 && Disagrees(code, s, k)
  {
    hide IsLeader, HandlersIn;
    var b := BlockStart(code, i);
    if code[s].pc == code[b].pc {
      PcsDistinct(code, s, b);
    }
    if k :| s < k < i + 1 && Disagrees(code, s, k) && k != i {
      assert s < k < i && Disagrees(code, s, k);
    }
  }

  lemma MoreEdgesCover(code: seq<Insn>, edges: set<ExceptionEdge>, more: set<ExceptionEdge>, i: nat)
    requires i < |code| && Covers(code, edges, i) && edges <= more
    ensures Covers(code, more, i)
  {
  }

  /** Each pending handler belongs to an instruction of the current block. */
  lemma CommonEdgeSound(code: seq<Insn>, i: nat, pending: set<nat>, node: nat, e: ExceptionEdge)
    requires 0 < i <= |code| && pending <= HandlersIn(code, BlockStart(code, i - 1), i - 1)
    requires node == NodeOf(code, i - 1) && e in CommonEdges(code, node, pending)
    ensures IsSound(code, e)
  {
    var k := HandlerOwner(code, BlockStart(code, i - 1), i - 1, e.handler);
    SameBlock(code, k, i - 1);
    assert StandsFor(code, e, k);
  }

  /** When the pending handlers are all those of the block, their edges cover it. */
  lemma CommonEdgesCover(code: seq<Insn>, i: nat, j: nat, pending: set<nat>, node: nat)
    requires 0 < i <= |code| && pending == HandlersIn(code, BlockStart(code, i - 1), i - 1)
    requires BlockStart(code, i - 1) <= j < i && node == NodeOf(code, i - 1)
    ensures Covers(code, CommonEdges(code, node, pending), j)
  {
    SameBlock(code, j, i - 1);
    forall h | ThrowsTo(code, j, h)
      ensures HasEdge(CommonEdges(code, node, pending), NodeOf(code, j), h)
    {
      assert ExceptionEdge(node, None, InclIds(code, |code|)[h], h) in CommonEdges(code, node, pending);
    }
  }

  /** Emitting the pending handlers of a block settles it. */
  lemma FlushSettles(
    code: seq<Insn>, i: nat, pending: set<nat>, start: nat, detailed: set<nat>, edges: set<ExceptionEdge>,
    node: nat, flushed: set<ExceptionEdge>)
    requires IsCode(code) && 0 < i <= |code| && Pending(code, i, pending, start, detailed, edges)
    requires node == NodeOf(code, i - 1) && flushed == edges + CommonEdges(code, node, pending)
    ensures EdgesOk(code, detailed, flushed)
    ensures forall j :: 0 <= j < i ==> Settled(code, detailed, flushed, j)
  {
    forall e | e in CommonEdges(code, node, pending)
      ensures IsSound(code, e)
    {
      CommonEdgeSound(code, i, pending, node, e);
    }
    forall j | 0 <= j < i
      ensures Settled(code, detailed, flushed, j)
    {
      FlushSettlesOne(code, i, j, pending, start, detailed, edges, node, flushed);
    }
  }

  lemma FlushSettlesOne(
    code: seq<Insn>, i: nat, j: nat, pending: set<nat>, start: nat, detailed: set<nat>, edges: set<ExceptionEdge>,
    node: nat, flushed: set<ExceptionEdge>)
    requires IsCode(code) && 0 < i <= |code| && Pending(code, i, pending, start, detailed, edges)
    requires node == NodeOf(code, i - 1) && flushed == edges + CommonEdges(code, node, pending) && j < i
    ensures Settled(code, detailed, flushed, j)
  {
    if j < BlockStart(code, i - 1) {
      assert Settled(code, detailed, edges, j);
      if Covers(code, edges, j) {
        MoreEdgesCover(code, edges, flushed, j);
      }
    } else {
      SameBlock(code, j, i - 1);
      if start !in detailed {
        CommonEdgesCover(code, i, j, pending, node);
        MoreEdgesCover(code, CommonEdges(code, node, pending), flushed, j);
      }
    }
  }

  method EmitCommon(node: nat, pending: set<nat>, inclIds: map<nat, nat>, ghost code: seq<Insn>)
    returns (r: set<ExceptionEdge>)
    requires inclIds == InclIds(code, |code|)
    ensures r == CommonEdges(code, node, pending)
  {
    r := set h | h in pending && h in inclIds :: ExceptionEdge(node, None, inclIds[h], h);
  }

  /** At the beginning of a block: the edges of the previous block, if its handlers were common. */
  method BeginBlock(
    code: seq<Insn>, i: nat, nodeIds: map<nat, nat>, inclIds: map<nat, nat>,
    pending: set<nat>, start: nat, ghost detailed: set<nat>, edges: set<ExceptionEdge>)
    returns (edges': set<ExceptionEdge>)
    requires IsCode(code) && i <= |code| && nodeIds == NodeIds(code, |code|) && inclIds == InclIds(code, |code|)
    requires i == 0 ==> pending == {} && edges == {} && detailed == {}
    requires i > 0 ==> Pending(code, i, pending, start, detailed, edges)
    ensures EdgesOk(code, detailed, edges')
    ensures forall j :: 0 <= j < i ==> Settled(code, detailed, edges', j)
    ensures CommonOnly(edges) ==> CommonOnly(edges')
  {
    edges' := edges;
    if pending != {} {
      IdsComplete(code, |code|, BlockStart(code, i - 1));
      var common := EmitCommon(nodeIds[start], pending, inclIds, code);
      edges' := edges' + common;
    }
    if i > 0 {
      var s := BlockStart(code, i - 1);
      assert pending == {} ==> edges' == edges + CommonEdges(code, NodeOf(code, i - 1), pending);
      FlushSettles(code, i, pending, start, detailed, edges, NodeOf(code, i - 1), edges');
    }
  }

  lemma FirstOfBlock(code: seq<Insn>, i: nat, detailed: set<nat>, edges: set<ExceptionEdge>)
    requires IsCode(code) && i < |code| && IsLeader(code, i) && EdgesOk(code, detailed, edges)
    requires forall j :: 0 <= j < i ==> Settled(code, detailed, edges, j)
    ensures Pending(code, i + 1, code[i].handlers, code[i].pc, detailed, edges)
  {
  }

  /** A further instruction of a block either agrees with the pending handlers or makes it detailed. */
  lemma FurtherInBlock(
    code: seq<Insn>, i: nat, pending: set<nat>, start: nat, detailed: set<nat>, edges: set<ExceptionEdge>)
    requires IsCode(code) && 0 < i < |code| && !IsLeader(code, i)
    requires Pending(code, i, pending, start, detailed, edges)
    ensures var more := pending + code[i].handlers;
            if more == code[i].handlers then Pending(code, i + 1, more, start, detailed, edges)
            else Pending(code, i + 1, {}, start, detailed + {start}, edges)
  {
    var s := BlockStart(code, i - 1);
    IdsComplete(code, |code|, s);
    assert BlockStart(code, i) == s;
    assert HandlersIn(code, s, i) == HandlersIn(code, s, i - 1) + code[i].handlers;
    if pending + code[i].handlers != code[i].handlers {
      forall j | 0 <= j < s
        ensures Settled(code, detailed + {start}, edges, j)
      {
        assert Settled(code, detailed, edges, j);
      }
    }
  }

  /** Edges for the targets of one instruction. */
  method EmitTaken(code: seq<Insn>, i: nat, node: nat, nodeIds: map<nat, nat>) returns (r: seq<Edge>)
    requires IsCode(code) && i < |code| && node == NodeOf(code, i) && nodeIds == NodeIds(code, |code|)
    ensures r == TakenFrom(code, i, |code[i].targets|)
  {
    r := [];
    var insn := code[i];
    if insn.IsBranch() {
      var t := insn.targets[0];
      if t in nodeIds {
        r := [Edge(node, insn.pc, nodeIds[t], t)];
      }
      assert TakenFrom(code, i, 0) == [];
    } else if insn.kind.Switch? {
      for k := 0 to |insn.targets|
        invariant r == TakenFrom(code, i, k)
      {
        var t := insn.targets[k];
        if t in nodeIds {
          r := r + [Edge(node, insn.pc, nodeIds[t], t)];
        }
      }
    }
  }

  /** The block that control is in before instruction `i`, unless it cannot fall through. */
  ghost function LastNode(code: seq<Insn>, i: nat): Option<nat>
    requires i <= |code|
  {
    if i > 0 && code[i - 1].FallsThrough() then Some(NodeOf(code, i - 1)) else None
  }

  /** Blocks are detailed only once they have begun. */
  ghost predicate BegunBlocks(code: seq<Insn>, detailed: set<nat>, i: nat)
    requires i <= |code|
  {
    forall pc :: pc in detailed ==> exists s :: 0 <= s < i && IsLeader(code, s) && code[s].pc == pc
  }

  predicate CommonOnly(edges: set<ExceptionEdge>) {
    forall e :: e in edges ==> e.at.None?
  }

  lemma FirstIsLeader(code: seq<Insn>)
    requires code != []
    ensures IsLeader(code, 0)
  {
  }

  lemma PendingMeans(
    code: seq<Insn>, i: nat, pending: set<nat>, start: nat, detailed: set<nat>, edges: set<ExceptionEdge>)
    requires 0 < i <= |code| && Pending(code, i, pending, start, detailed, edges)
    ensures var s := BlockStart(code, i - 1);
            start == code[s].pc && (start in detailed || pending == HandlersIn(code, s, i - 1))
  {
  }

  lemma LeaderNotDetailed(code: seq<Insn>, i: nat, detailed: set<nat>)
    requires IsCode(code) && i < |code| && IsLeader(code, i)
    requires DetailedSoFar(code, detailed, i) && BegunBlocks(code, detailed, i)
    ensures DetailedSoFar(code, detailed, i + 1) && BegunBlocks(code, detailed, i + 1)
  {
    hide DetailedSoFar, IsLeader;
    if code[i].pc in detailed {
      var s :| 0 <= s < i && IsLeader(code, s) && code[s].pc == code[i].pc;
      PcsDistinct(code, s, i);
    }
    DetailedStep(code, i, detailed, detailed);
  }

  /** A further instruction makes its block detailed exactly if it disagrees with the earlier ones. */
  lemma FurtherDetailed(code: seq<Insn>, i: nat, pending: set<nat>, start: nat, detailed: set<nat>)
    requires IsCode(code) && 0 < i < |code| && !IsLeader(code, i)
    requires DetailedSoFar(code, detailed, i) && BegunBlocks(code, detailed, i)
    requires var s := BlockStart(code, i - 1);
             start == code[s].pc && (start in detailed || pending == HandlersIn(code, s, i - 1))
    ensures var detailed' := if pending + code[i].handlers == code[i].handlers then detailed else detailed + {start};
            DetailedSoFar(code, detailed', i + 1) && BegunBlocks(code, detailed', i + 1)
  {
    hide DetailedSoFar, HandlersIn;
    var s := BlockStart(code, i);
    assert s == BlockStart(code, i - 1) && s < i && IsLeader(code, s);
    var detailed' := if pending + code[i].handlers == code[i].handlers then detailed else detailed + {start};
    if start in detailed {
      assert detailed + {start} == detailed;
    } else {
      assert pending + code[i].handlers == code[i].handlers <==> HandlersIn(code, s, i - 1) <= code[i].handlers;
    }
    DetailedStep(code, i, detailed, detailed');
  }

  /** What one instruction does to the pending handlers and the exception edges. */
  method StepExceptions(
    code: seq<Insn>, i: nat, nodeIds: map<nat, nat>, inclIds: map<nat, nat>,
    pending: set<nat>, start: nat, detailed: set<nat>, edges: set<ExceptionEdge>)
    returns (pending': set<nat>, start': nat, detailed': set<nat>, edges': set<ExceptionEdge>)
    requires IsCode(code) && i < |code| && nodeIds == NodeIds(code, |code|) && inclIds == InclIds(code, |code|)
    requires i == 0 ==> pending == {} && edges == {} && detailed == {}
    requires i > 0 ==> Pending(code, i, pending, start, detailed, edges)
    requires DetailedSoFar(code, detailed, i) && BegunBlocks(code, detailed, i) && CommonOnly(edges)
    ensures Pending(code, i + 1, pending', start', detailed', edges')
    ensures DetailedSoFar(code, detailed', i + 1) && BegunBlocks(code, detailed', i + 1) && CommonOnly(edges')
  {
    hide HandlersIn, Pending, DetailedSoFar, BegunBlocks, CommonOnly, IsLeader;
    var insn, pc := code[i], code[i].pc;
    pending', start', detailed', edges' := pending, start, detailed, edges;
    IdsComplete(code, |code|, i);
    if pc in nodeIds {
      edges' := BeginBlock(code, i, nodeIds, inclIds, pending, start, detailed, edges);
      FirstOfBlock(code, i, detailed, edges');
      LeaderNotDetailed(code, i, detailed);
      pending', start' := {}, pc;
      assert {} + insn.handlers == insn.handlers;
    } else {
      FirstIsLeader(code);
      PendingMeans(code, i, pending, start, detailed, edges);
      FurtherInBlock(code, i, pending, start, detailed, edges);
      FurtherDetailed(code, i, pending, start, detailed);
      StartIsEarlier(code, i);
    }
    pending' := pending' + insn.handlers;
    if start' != pc && insn.handlers != pending' {
      pending', detailed' := {}, detailed' + {start'};
    }
  }

  /** What the third pass finds; the blocks in `detailed` are left to a further pass. */
  datatype Connections = Connections(
    regular: seq<Edge>, taken: seq<Edge>, common: set<ExceptionEdge>, detailed: set<nat>)

  lemma NothingDetailed(code: seq<Insn>)
    ensures DetailedSoFar(code, {}, 0) && BegunBlocks(code, {}, 0) && CommonOnly({})
  {
  }

  /** Third pass: fall-through and taken edges, and exception edges of blocks with common handlers. */
  method ConnectBlocks(code: seq<Insn>, nodeIds: map<nat, nat>, inclIds: map<nat, nat>) returns (r: Connections)
    requires IsCode(code) && nodeIds == NodeIds(code, |code|) && inclIds == InclIds(code, |code|)
    ensures r.regular == RegularEdges(code, |code|) && r.taken == TakenEdges(code, |code|)
    ensures EdgesOk(code, r.detailed, r.common) && CommonOnly(r.common)
    ensures DetailedSoFar(code, r.detailed, |code|)
    ensures forall j :: 0 <= j < |code| ==> Settled(code, r.detailed, r.common, j)
  {
    hide Pending, DetailedSoFar, BegunBlocks, CommonOnly, Settled, EdgesOk, IsCode, TakenFrom;
    NothingDetailed(code);
    var regular: seq<Edge>, taken: seq<Edge> := [], [];
    var common: set<ExceptionEdge>, detailed: set<nat> := {}, {};
    var lastNode: Option<nat>, oldPc, start := None, 0, 0;
    var pending: set<nat> := {};
    for i := 0 to |code|
      invariant regular == RegularEdges(code, i) && taken == TakenEdges(code, i)
      invariant lastNode == LastNode(code, i) && (i > 0 ==> oldPc == code[i - 1].pc)
      invariant i == 0 ==> pending == {} && common == {} && detailed == {}
      invariant i > 0 ==> Pending(code, i, pending, start, detailed, common)
      invariant DetailedSoFar(code, detailed, i) && BegunBlocks(code, detailed, i) && CommonOnly(common)
    {
      pending, start, detailed, common :=
        StepExceptions(code, i, nodeIds, inclIds, pending, start, detailed, common);
      var node, incoming := EnterInsn(code, i, nodeIds, lastNode, oldPc);
      regular := regular + incoming;
      var outgoing := EmitTaken(code, i, node, nodeIds);
      taken := taken + outgoing;
      lastNode, oldPc := if code[i].FallsThrough() then Some(node) else None, code[i].pc;
    }
    common := BeginBlock(code, |code|, nodeIds, inclIds, pending, start, detailed, common);
    r := Connections(regular, taken, common, detailed);
  }

  /** The block that instruction `i` is in, and the edge by which control falls into it, if any. */
  method EnterInsn(code: seq<Insn>, i: nat, nodeIds: map<nat, nat>, lastNode: Option<nat>, oldPc: nat)
    returns (node: nat, incoming: seq<Edge>)
    requires IsCode(code) && i < |code| && nodeIds == NodeIds(code, |code|)
    requires lastNode == LastNode(code, i) && (i > 0 ==> oldPc == code[i - 1].pc)
    ensures node == NodeOf(code, i)
    ensures RegularEdges(code, i + 1) == RegularEdges(code, i) + incoming
  {
    incoming := [];
    IdsComplete(code, |code|, i);
    if code[i].pc in nodeIds {
      node := nodeIds[code[i].pc];
      if lastNode.Some? {
        incoming := [Edge(lastNode.value, oldPc, node, code[i].pc)];
      }
    } else {
      StartIsEarlier(code, i);
      node := lastNode.value;
    }
  }

  lemma StartIsEarlier(code: seq<Insn>, i: nat)
    requires IsCode(code) && 0 < i < |code| && !IsLeader(code, i)
    ensures code[BlockStart(code, i - 1)].pc < code[i].pc && code[i - 1].FallsThrough()
  {
    PcsIncrease(code, BlockStart(code, i - 1), i);
  }

  // --- The detailed pass -----------------------------------------------------------------------------

  /** The instruction at an address. */
  method InstructionAt(code: seq<Insn>, pc: nat) returns (i: nat)
    requires IsCode(code) && pc in NodeIds(code, |code|)
    ensures i < |code| && code[i].pc == pc && IsLeader(code, i)
  {
    IdsSound(code, |code|, pc);
    i := 0;
    while code[i].pc != pc
      invariant 0 <= i < |code| && forall k :: 0 <= k < i ==> code[k].pc != pc
      decreases |code| - i
    {
      i := i + 1;
    }
    ghost var k :| 0 <= k < |code| && code[k].pc == pc && IsLeader(code, k);
    PcsDistinct(code, i, k);
  }

  function DetailedEdges(code: seq<Insn>, i: nat): set<ExceptionEdge>
    requires i < |code|
  {
    set h | h in code[i].handlers && h in InclIds(code, |code|) ::
      ExceptionEdge(NodeOf(code, i), Some(code[i].pc), InclIds(code, |code|)[h], h)
  }

  lemma DetailedEdgesExact(code: seq<Insn>, i: nat)
    requires i < |code|
    ensures Covers(code, DetailedEdges(code, i), i)
    ensures forall e :: e in DetailedEdges(code, i) ==> IsSound(code, e)
  {
    forall h | ThrowsTo(code, i, h)
      ensures HasEdge(DetailedEdges(code, i), NodeOf(code, i), h)
    {
      assert ExceptionEdge(NodeOf(code, i), Some(code[i].pc), InclIds(code, |code|)[h], h) in DetailedEdges(code, i);
    }
    forall e | e in DetailedEdges(code, i)
      ensures IsSound(code, e)
    {
      assert StandsFor(code, e, i);
    }
  }

  /** The instruction after `j` begins a block, or there is none. */
  predicate EndsBlock(code: seq<Insn>, j: nat)
    requires j < |code|
  {
    j + 1 == |code| || IsLeader(code, j + 1)
  }

  /** Walks one block and emits the edges of each of its instructions. */
  method DetailBlock(code: seq<Insn>, s: nat, nodeIds: map<nat, nat>, inclIds: map<nat, nat>)
    returns (r: set<ExceptionEdge>, ghost last: nat)
    requires IsCode(code) && s < |code| && IsLeader(code, s)
    requires nodeIds == NodeIds(code, |code|) && inclIds == InclIds(code, |code|)
    ensures s <= last < |code| && EndsBlock(code, last)
    ensures forall e :: e in r ==> IsSound(code, e)
    ensures forall k :: s <= k <= last ==> Covers(code, r, k)
    ensures forall k :: s <= k <= last ==> DetailedEdges(code, k) <= r
    ensures BlockStart(code, last) == s
    ensures forall e :: e in r ==> FromWalk(code, s, last + 1, e)
  {
    hide Covers, IsSound, InclIds, NodeIds;
    r, last := {}, s;
    var j := s;
    IdsComplete(code, |code|, s);
    var node := inclIds[code[s].pc];
    while true
      invariant s <= j < |code| && BlockStart(code, j) == s && NodeOf(code, j) == node
      invariant WalkedBlock(code, s, j, r)
      decreases |code| - j
    {
      hide WalkedBlock;
      var insn := code[j];
      var own := set h | h in insn.handlers && h in inclIds :: ExceptionEdge(node, Some(insn.pc), inclIds[h], h);
      assert own == DetailedEdges(code, j);
      WalkedFurther(code, s, j, r);
      r := r + own;
      last := j;
      if insn.IsBasicBlockEnd() {
        break;
      }
      if j + 1 >= |code| {
        break;
      }
      IdsComplete(code, |code|, j + 1);
      if code[j + 1].pc in nodeIds {
        break;
      }
      j := j + 1;
    }
  }

  /** The edges of the instructions of a block from `s` up to, but without, `j`. */
  ghost predicate WalkedBlock(code: seq<Insn>, s: nat, j: nat, r: set<ExceptionEdge>)
    requires j <= |code|
  {
    && (forall e :: e in r ==> IsSound(code, e))
    && (forall k :: s <= k < j ==> Covers(code, r, k))
    && (forall k :: s <= k < j ==> DetailedEdges(code, k) <= r)
    && (forall e :: e in r ==> FromWalk(code, s, j, e))
  }

  ghost predicate FromWalk(code: seq<Insn>, s: nat, j: nat, e: ExceptionEdge)
    requires j <= |code|
  {
    exists k :: s <= k < j && e in DetailedEdges(code, k)
  }

  lemma WalkedFurther(code: seq<Insn>, s: nat, j: nat, r: set<ExceptionEdge>)
    requires s <= j < |code| && WalkedBlock(code, s, j, r)
    ensures WalkedBlock(code, s, j + 1, r + DetailedEdges(code, j))
  {
    hide DetailedEdges, IsSound, Covers;
    var more := r + DetailedEdges(code, j);
    DetailedEdgesExact(code, j);
    forall k | s <= k < j + 1
      ensures Covers(code, more, k)
    {
      MoreEdgesCover(code, if k == j then DetailedEdges(code, j) else r, more, k);
    }
    forall e | e in more
      ensures FromWalk(code, s, j + 1, e)
    {
      if e in r {
        assert FromWalk(code, s, j, e);
      }
    }
  }

  lemma BlockWithin(code: seq<Insn>, s: nat, last: nat, j: nat)
    requires s <= last < |code| && EndsBlock(code, last) && j < |code| && BlockStart(code, j) == s
    ensures s <= j <= last
  {
  }

  /** The instructions with edges of their own are those of the given blocks. */
  ghost predicate DetailedExactly(code: seq<Insn>, blocks: set<nat>, r: set<ExceptionEdge>) {
    && (forall i :: 0 <= i < |code| && code[BlockStart(code, i)].pc in blocks ==> DetailedEdges(code, i) <= r)
    && (forall e :: e in r && e.at.Some? ==> OwnEdge(code, blocks, e))
  }

  ghost predicate OwnEdge(code: seq<Insn>, blocks: set<nat>, e: ExceptionEdge) {
    exists i :: 0 <= i < |code| && code[BlockStart(code, i)].pc in blocks && e in DetailedEdges(code, i)
  }

  lemma OneMoreDetailed(
    code: seq<Insn>, blocks: set<nat>, r: set<ExceptionEdge>, s: nat, last: nat, own: set<ExceptionEdge>)
    requires IsCode(code) && DetailedExactly(code, blocks, r) && s <= last < |code| && EndsBlock(code, last)
    requires BlockStart(code, last) == s
    requires forall k :: s <= k <= last ==> DetailedEdges(code, k) <= own
    requires forall e :: e in own ==> FromWalk(code, s, last + 1, e)
    ensures DetailedExactly(code, blocks + {code[s].pc}, r + own)
  {
    hide DetailedEdges;
    var blocks' := blocks + {code[s].pc};
    forall i | 0 <= i < |code| && code[BlockStart(code, i)].pc in blocks'
      ensures DetailedEdges(code, i) <= r + own
    {
      if code[BlockStart(code, i)].pc !in blocks {
        PcsDistinct(code, BlockStart(code, i), s);
        BlockWithin(code, s, last, i);
      }
    }
    forall e | e in r + own && e.at.Some?
      ensures OwnEdge(code, blocks', e)
    {
      if e in own {
        var k :| s <= k <= last && e in DetailedEdges(code, k);
        SameBlock(code, k, last);
        assert code[BlockStart(code, k)].pc in blocks';
      } else {
        assert OwnEdge(code, blocks, e);
      }
    }
  }

  /** Adds the edges of every detailed block. */
  method DetailBlocks(
    code: seq<Insn>, nodeIds: map<nat, nat>, inclIds: map<nat, nat>, detailed: set<nat>, edges: set<ExceptionEdge>)
    returns (r: set<ExceptionEdge>)
    requires IsCode(code) && nodeIds == NodeIds(code, |code|) && inclIds == InclIds(code, |code|)
    requires EdgesOk(code, detailed, edges) && CommonOnly(edges)
    requires forall j :: 0 <= j < |code| ==> Settled(code, detailed, edges, j)
    ensures forall e :: e in r ==> IsSound(code, e)
    ensures forall j :: 0 <= j < |code| ==> Covers(code, r, j)
    ensures DetailedExactly(code, detailed, r)
  {
    r := edges;
    var todo := detailed;
    while todo != {}
      invariant todo <= detailed && DetailedExactly(code, detailed - todo, r)
      invariant EdgesOk(code, todo, r)
      invariant forall j :: 0 <= j < |code| ==> Settled(code, todo, r, j)
    {
      var pc :| pc in todo;
      var s := InstructionAt(code, pc);
      var own, last := DetailBlock(code, s, nodeIds, inclIds);
      DetailSettles(code, todo, r, s, last, own);
      OneMoreDetailed(code, detailed - todo, r, s, last, own);
      assert detailed - todo + {pc} == detailed - (todo - {pc});
      r, todo := r + own, todo - {pc};
    }
    assert detailed - todo == detailed;
    forall j | 0 <= j < |code|
      ensures Covers(code, r, j)
    {
      assert Settled(code, todo, r, j);
    }
  }

  lemma DetailSettles(
    code: seq<Insn>, todo: set<nat>, edges: set<ExceptionEdge>, s: nat, last: nat, own: set<ExceptionEdge>)
    requires IsCode(code) && s <= last < |code| && EndsBlock(code, last)
    requires EdgesOk(code, todo, edges) && forall j :: 0 <= j < |code| ==> Settled(code, todo, edges, j)
    requires forall e :: e in own ==> IsSound(code, e)
    requires forall k :: s <= k <= last ==> Covers(code, own, k)
    ensures EdgesOk(code, todo - {code[s].pc}, edges + own)
    ensures forall j :: 0 <= j < |code| ==> Settled(code, todo - {code[s].pc}, edges + own, j)
  {
    forall j | 0 <= j < |code|
      ensures Settled(code, todo - {code[s].pc}, edges + own, j)
    {
      assert Settled(code, todo, edges, j);
      var start := BlockStart(code, j);
      if code[start].pc == code[s].pc {
        PcsDistinct(code, start, s);
        BlockWithin(code, s, last, j);
        MoreEdgesCover(code, own, edges + own, j);
      } else if code[start].pc !in todo {
        MoreEdgesCover(code, edges, edges + own, j);
      }
    }
  }

  // --- The graph -----------------------------------------------------------------------------------------

  datatype Graph = Graph(
    nodeIds: map<nat, nat>, inclIds: map<nat, nat>,
    regular: seq<Edge>, taken: seq<Edge>, exceptions: set<ExceptionEdge>)

  /** Instruction `i` may throw to instruction `j`, at the given address. */
  predicate HandledAt(code: seq<Insn>, i: nat, j: nat, handler: nat) {
    i < |code| && j < |code| && handler in code[i].handlers && code[j].pc == handler
  }

  /** Some instruction of the block may throw to the handler, which is an instruction. */
  ghost predicate BlockThrowsTo(code: seq<Insn>, node: nat, handler: nat) {
    exists i: nat, j: nat :: HandledAt(code, i, j, handler) && NodeOf(code, i) == node
  }

  lemma ExceptionsExact(code: seq<Insn>, edges: set<ExceptionEdge>, node: nat, handler: nat)
    requires IsCode(code)
    requires forall e :: e in edges ==> IsSound(code, e)
    requires forall j :: 0 <= j < |code| ==> Covers(code, edges, j)
    ensures HasEdge(edges, node, handler) <==> BlockThrowsTo(code, node, handler)
  {
    if HasEdge(edges, node, handler) {
      var e :| e in edges && e.node == node && e.handler == handler;
      var i: nat :| StandsFor(code, e, i);
      IdsSound(code, |code|, handler);
      var j: nat :| j < |code| && code[j].pc == handler;
      assert HandledAt(code, i, j, handler);
    }
    if BlockThrowsTo(code, node, handler) {
      var i: nat, j: nat :| HandledAt(code, i, j, handler) && NodeOf(code, i) == node;
      IdsComplete(code, |code|, j);
      assert Covers(code, edges, i) && ThrowsTo(code, i, handler);
    }
  }

  // --- The graph in terms of the instructions ------------------------------------------------------------

  /** Instruction `i` begins a block: the first one, a target, and what follows anything but a plain one. */
  ghost predicate BeginsBlock(code: seq<Insn>, i: nat)
    requires i < |code|
  {
    || i == 0
    || (exists k: nat :: k < |code| && code[i].pc in code[k].targets)
    || code[i - 1].kind.Goto? || code[i - 1].kind.If? || code[i - 1].kind.Switch?
    || code[i - 1].kind.Return? || code[i - 1].kind.Throw?
  }

  /** Every instruction has a block, and blocks are numbered in order, from 0. */
  ghost predicate BlocksNumbered(code: seq<Insn>, g: Graph) {
    && (forall i :: 0 <= i < |code| ==> code[i].pc in g.inclIds && (code[i].pc in g.nodeIds <==> BeginsBlock(code, i)))
    && (forall i :: 0 <= i < |code| && i == 0 ==> g.inclIds[code[i].pc] == 0)
    && (forall i :: 0 < i < |code| ==>
          g.inclIds[code[i].pc] == g.inclIds[code[i - 1].pc] + if BeginsBlock(code, i) then 1 else 0)
    && (forall pc :: pc in g.inclIds ==> exists i :: 0 <= i < |code| && code[i].pc == pc)
    && (forall pc :: pc in g.nodeIds ==> pc in g.inclIds && g.nodeIds[pc] == g.inclIds[pc])
  }

  /** The edge from instruction `i` to instruction `j`. */
  predicate Joins(code: seq<Insn>, g: Graph, e: Edge, i: nat, j: nat) {
    && i < |code| && j < |code| && e.fromPc == code[i].pc && e.toPc == code[j].pc
    && e.fromPc in g.inclIds && e.fromNode == g.inclIds[e.fromPc]
    && e.toPc in g.inclIds && e.toNode == g.inclIds[e.toPc]
  }

  /** Control falls from instruction `i` into the block that the next one begins. */
  ghost predicate IsFallThrough(code: seq<Insn>, g: Graph, e: Edge, i: nat) {
    && Joins(code, g, e, i, i + 1) && BeginsBlock(code, i + 1)
    && (code[i].kind.Plain? || code[i].kind.If? || code[i].kind.Switch?)
  }

  predicate IsJump(code: seq<Insn>, g: Graph, e: Edge, i: nat, j: nat) {
    Joins(code, g, e, i, j) && code[j].pc in code[i].targets
  }

  /** The exceptions of instruction `i` may go to the instruction at the given address. */
  predicate Throws(code: seq<Insn>, g: Graph, i: nat, handler: nat) {
    i < |code| && handler in code[i].handlers && handler in g.inclIds
  }

  predicate InBlock(code: seq<Insn>, g: Graph, i: nat, node: nat) {
    i < |code| && code[i].pc in g.inclIds && g.inclIds[code[i].pc] == node
  }

  /** Some instruction of the block lacks a handler of an earlier one. */
  ghost predicate IsUneven(code: seq<Insn>, g: Graph, node: nat) {
    exists j: nat, k: nat :: j < k && InBlock(code, g, j, node) && InBlock(code, g, k, node)
                             && !(code[j].handlers <= code[k].handlers)
  }

  ghost predicate HasOwnEdge(g: Graph, pc: nat, handler: nat) {
    exists e :: e in g.exceptions && e.at == Some(pc) && e.handler == handler
  }

  lemma LeaderIs(code: seq<Insn>, i: nat)
    requires i < |code|
    ensures IsLeader(code, i) <==> BeginsBlock(code, i)
  {
    if IsTarget(code, code[i].pc) {
      var k :| 0 <= k < |code| && code[i].pc in code[k].targets;
    }
  }

  /** Both tables of the graph are those that the passes agree on. */
  predicate HasTables(code: seq<Insn>, g: Graph) {
    g.nodeIds == NodeIds(code, |code|) && g.inclIds == InclIds(code, |code|)
  }

  lemma NumberedAt(code: seq<Insn>, g: Graph, i: nat)
    requires IsCode(code) && HasTables(code, g) && i < |code|
    ensures code[i].pc in g.inclIds && g.inclIds[code[i].pc] == NodeOf(code, i)
    ensures code[i].pc in g.nodeIds <==> BeginsBlock(code, i)
    ensures i == 0 ==> NodeOf(code, i) == 0
    ensures i > 0 ==> NodeOf(code, i) == NodeOf(code, i - 1) + if BeginsBlock(code, i) then 1 else 0
  {
    hide NodeOf, IsLeader, BeginsBlock, NodeIds, InclIds;
    IdsComplete(code, |code|, i);
    LeaderIs(code, i);
    NextNode(code, i);
  }

  lemma NumberedIs(code: seq<Insn>, g: Graph)
    requires IsCode(code) && HasTables(code, g)
    ensures BlocksNumbered(code, g)
  {
    hide NodeOf, IsLeader, BeginsBlock, NodeIds, InclIds, IsCode, HasTables;
    forall i | 0 <= i < |code|
      ensures code[i].pc in g.inclIds && (code[i].pc in g.nodeIds <==> BeginsBlock(code, i))
      ensures i == 0 ==> g.inclIds[code[i].pc] == 0
    {
      NumberedAt(code, g, i);
    }
    forall i | 0 < i < |code|
      ensures g.inclIds[code[i].pc] == g.inclIds[code[i - 1].pc] + if BeginsBlock(code, i) then 1 else 0
    {
      NumberedAt(code, g, i);
      NumberedAt(code, g, i - 1);
    }
    forall pc: nat
      ensures pc in g.inclIds ==> exists i :: 0 <= i < |code| && code[i].pc == pc
      ensures pc in g.nodeIds ==> pc in g.inclIds && g.nodeIds[pc] == g.inclIds[pc]
    {
      FoundIn(code, g, pc);
    }
  }

  lemma FoundIn(code: seq<Insn>, g: Graph, pc: nat)
    requires IsCode(code) && HasTables(code, g)
    ensures pc in g.inclIds ==> exists i :: 0 <= i < |code| && code[i].pc == pc
    ensures pc in g.nodeIds ==> pc in g.inclIds && g.nodeIds[pc] == g.inclIds[pc]
  {
    hide NodeOf, IsLeader, NodeIds, InclIds;
    IdsSound(code, |code|, pc);
    if pc in g.nodeIds {
      var i :| 0 <= i < |code| && code[i].pc == pc && IsLeader(code, i) && g.nodeIds[pc] == NodeOf(code, i);
      NumberedAt(code, g, i);
    }
  }

  lemma NextNode(code: seq<Insn>, i: nat)
    requires i < |code|
    ensures i == 0 ==> NodeOf(code, i) == 0
    ensures i > 0 ==> NodeOf(code, i) == NodeOf(code, i - 1) + if IsLeader(code, i) then 1 else 0
  {
    assert Leaders(code, i + 1) == Leaders(code, i) + if IsLeader(code, i) then 1 else 0;
    assert Leaders(code, 0) == 0;
  }

  lemma JoinsIs(code: seq<Insn>, g: Graph, e: Edge, i: nat, j: nat)
    requires IsCode(code) && HasTables(code, g) && i < |code| && j < |code|
    ensures Joins(code, g, e, i, j) <==> e == EdgeBetween(code, i, j)
  {
    hide NodeOf, IsCode, HasTables, BeginsBlock;
    NumberedAt(code, g, i);
    NumberedAt(code, g, j);
  }

  lemma FallThroughIs(code: seq<Insn>, g: Graph, e: Edge)
    requires IsCode(code) && HasTables(code, g)
    ensures IsRegularEdge(code, e) <==> exists i: nat :: IsFallThrough(code, g, e, i)
  {
    hide NodeOf, IsLeader, BeginsBlock, IsCode, HasTables, Joins, EdgeBetween;
    if IsRegularEdge(code, e) {
      var i: nat :| FallsInto(code, i) && e == EdgeBetween(code, i, i + 1);
      JoinsIs(code, g, e, i, i + 1);
      LeaderIs(code, i + 1);
      assert IsFallThrough(code, g, e, i);
    }
    if i: nat :| IsFallThrough(code, g, e, i) {
      InRange(code, g, e, i, i + 1);
      JoinsIs(code, g, e, i, i + 1);
      LeaderIs(code, i + 1);
      assert FallsInto(code, i) && e == EdgeBetween(code, i, i + 1);
    }
  }

  lemma InRange(code: seq<Insn>, g: Graph, e: Edge, i: nat, j: nat)
    requires Joins(code, g, e, i, j)
    ensures i < |code| && j < |code|
  {
  }

  lemma JumpIs(code: seq<Insn>, g: Graph, e: Edge)
    requires IsCode(code) && HasTables(code, g)
    ensures IsTakenEdge(code, e) <==> exists i: nat, j: nat :: IsJump(code, g, e, i, j)
  {
    hide NodeOf, IsCode, HasTables, Joins, EdgeBetween;
    if IsTakenEdge(code, e) {
      var i: nat, j: nat :| JumpsTo(code, i, j) && e == EdgeBetween(code, i, j);
      JoinsIs(code, g, e, i, j);
      assert IsJump(code, g, e, i, j);
    }
    if i: nat, j: nat :| IsJump(code, g, e, i, j) {
      InRange(code, g, e, i, j);
      JoinsIs(code, g, e, i, j);
      assert JumpsTo(code, i, j) && e == EdgeBetween(code, i, j);
    }
  }

  lemma BlockThrowsIs(code: seq<Insn>, g: Graph, node: nat, handler: nat)
    requires IsCode(code) && HasTables(code, g)
    ensures BlockThrowsTo(code, node, handler) <==>
            exists i: nat :: Throws(code, g, i, handler) && InBlock(code, g, i, node)
  {
    hide NodeOf, IsCode, HasTables, BeginsBlock;
    if BlockThrowsTo(code, node, handler) {
      var i: nat, j: nat :| HandledAt(code, i, j, handler) && NodeOf(code, i) == node;
      NumberedAt(code, g, i);
      NumberedAt(code, g, j);
      assert Throws(code, g, i, handler) && InBlock(code, g, i, node);
    }
    if i: nat :| Throws(code, g, i, handler) && InBlock(code, g, i, node) {
      NumberedAt(code, g, i);
      FoundIn(code, g, handler);
      var j: nat :| j < |code| && code[j].pc == handler;
      assert HandledAt(code, i, j, handler);
    }
  }

  /** Handlers disagree within a block exactly if some instruction does not have all those of the earlier ones. */
  lemma UnevenIs(code: seq<Insn>, g: Graph, i: nat)
    requires IsCode(code) && HasTables(code, g) && i < |code|
    ensures var s := BlockStart(code, i);
            IsUneven(code, g, NodeOf(code, i)) <==> exists k :: s < k < |code| && Disagrees(code, s, k)
  {
    hide NodeOf, IsCode, HasTables, BeginsBlock, IsLeader, BlockStart, HandlersIn;
    var s, node := BlockStart(code, i), NodeOf(code, i);
    if k :| s < k < |code| && Disagrees(code, s, k) {
      var h :| h in HandlersIn(code, s, k - 1) && h !in code[k].handlers;
      var j := HandlerOwner(code, s, k - 1, h);
      SameBlockAs(code, j, k, s);
      NumberedAt(code, g, j);
      NumberedAt(code, g, k);
      assert NodeOf(code, k) == node && NodeOf(code, j) == node;
      assert InBlock(code, g, j, node) && InBlock(code, g, k, node);
    }
    if IsUneven(code, g, node) {
      var j: nat, k: nat :| j < k && InBlock(code, g, j, node) && InBlock(code, g, k, node)
                            && !(code[j].handlers <= code[k].handlers);
      NumberedAt(code, g, j);
      NumberedAt(code, g, k);
      SameStart(code, j, i);
      SameStart(code, k, i);
      assert code[j].handlers <= HandlersIn(code, s, k - 1);
      assert Disagrees(code, s, k);
    }
  }

  lemma SameBlockAs(code: seq<Insn>, j: nat, k: nat, s: nat)
    requires s <= j < k < |code| && BlockStart(code, k) == s
    ensures NodeOf(code, j) == NodeOf(code, k)
  {
    SameBlock(code, j, k);
  }

  lemma SameStart(code: seq<Insn>, j: nat, i: nat)
    requires j < |code| && i < |code| && NodeOf(code, j) == NodeOf(code, i)
    ensures BlockStart(code, j) == BlockStart(code, i)
  {
    if j <= i {
      BlocksPartition(code, j, i);
    } else {
      BlocksPartition(code, i, j);
    }
  }

  lemma DetailedIffUneven(code: seq<Insn>, g: Graph, detailed: set<nat>, i: nat)
    requires IsCode(code) && HasTables(code, g) && i < |code| && DetailedSoFar(code, detailed, |code|)
    ensures code[BlockStart(code, i)].pc in detailed <==> IsUneven(code, g, NodeOf(code, i))
  {
    hide IsCode, HasTables, NodeOf, IsUneven, IsLeader, BlockStart, Disagrees;
    var s := BlockStart(code, i);
    UnevenIs(code, g, i);
    assert 0 <= s < |code| && IsLeader(code, s);
  }

  lemma OwnEdgeIs(code: seq<Insn>, g: Graph, detailed: set<nat>, i: nat, handler: nat)
    requires IsCode(code) && HasTables(code, g) && i < |code|
    requires DetailedSoFar(code, detailed, |code|) && DetailedExactly(code, detailed, g.exceptions)
    ensures HasOwnEdge(g, code[i].pc, handler) <==>
            Throws(code, g, i, handler) && IsUneven(code, g, NodeOf(code, i))
  {
    hide NodeIds, InclIds, NodeOf, HandlersIn, IsUneven, IsLeader, BlockStart;
    var s := BlockStart(code, i);
    DetailedIffUneven(code, g, detailed, i);
    if HasOwnEdge(g, code[i].pc, handler) {
      var e :| e in g.exceptions && e.at == Some(code[i].pc) && e.handler == handler;
      assert OwnEdge(code, detailed, e);
      var k :| 0 <= k < |code| && code[BlockStart(code, k)].pc in detailed && e in DetailedEdges(code, k);
      PcsDistinct(code, k, i);
    }
    if Throws(code, g, i, handler) && code[s].pc in detailed {
      var e := ExceptionEdge(NodeOf(code, i), Some(code[i].pc), g.inclIds[handler], handler);
      assert e in DetailedEdges(code, i);
    }
  }

  /**
   The graph of a method. Blocks are numbered in order; fall-through and taken edges are exactly
   those the instructions mean; and although exception edges come from two passes, a block has an
   edge to a handler exactly when one of its instructions does, and an instruction has one of its
   own exactly when handlers differ within its block.
   */
  method BuildGraph(code: seq<Insn>) returns (g: Graph)
    requires IsCode(code)
    ensures BlocksNumbered(code, g)
    ensures forall e :: e in g.regular <==> exists i: nat :: IsFallThrough(code, g, e, i)
    ensures forall e :: e in g.taken <==> exists i: nat, j: nat :: IsJump(code, g, e, i, j)
    ensures forall e :: e in g.exceptions ==> e.handler in g.inclIds && e.toNode == g.inclIds[e.handler]
    ensures forall node, handler :: HasEdge(g.exceptions, node, handler) <==>
              exists i: nat :: Throws(code, g, i, handler) && InBlock(code, g, i, node)
    ensures forall i: nat, node, handler :: InBlock(code, g, i, node) ==>
              (HasOwnEdge(g, code[i].pc, handler) <==> Throws(code, g, i, handler) && IsUneven(code, g, node))
  {
    hide NodeIds, InclIds, NodeOf, BlocksNumbered, IsUneven, IsSound, Covers, Settled, EdgesOk, HasEdge, HasOwnEdge,
      IsRegularEdge, IsTakenEdge, BlockThrowsTo, DetailedSoFar, DetailedExactly;
    var targets := CollectTargets(code);
    var nodeIds, inclIds := NumberBlocks(code, targets);
    var c := ConnectBlocks(code, nodeIds, inclIds);
    var exceptions := DetailBlocks(code, nodeIds, inclIds, c.detailed, c.common);
    g := Graph(nodeIds, inclIds, c.regular, c.taken, exceptions);
    NumberedIs(code, g);
    forall e: Edge
      ensures e in g.regular <==> exists i: nat :: IsFallThrough(code, g, e, i)
      ensures e in g.taken <==> exists i: nat, j: nat :: IsJump(code, g, e, i, j)
    {
      EdgesExact(code, e);
      FallThroughIs(code, g, e);
      JumpIs(code, g, e);
    }
    forall e | e in g.exceptions
      ensures e.handler in g.inclIds && e.toNode == g.inclIds[e.handler]
    {
      SoundTarget(code, e);
    }
    forall node, handler
      ensures HasEdge(g.exceptions, node, handler) <==>
              exists i: nat :: Throws(code, g, i, handler) && InBlock(code, g, i, node)
    {
      ExceptionsExact(code, g.exceptions, node, handler);
      BlockThrowsIs(code, g, node, handler);
    }
    forall i: nat, node, handler | InBlock(code, g, i, node)
      ensures HasOwnEdge(g, code[i].pc, handler) <==> Throws(code, g, i, handler) && IsUneven(code, g, node)
    {
      NumberedAt(code, g, i);
      OwnEdgeIs(code, g, c.detailed, i, handler);
    }
  }

  lemma SoundTarget(code: seq<Insn>, e: ExceptionEdge)
    requires IsSound(code, e)
    ensures e.handler in InclIds(code, |code|) && e.toNode == InclIds(code, |code|)[e.handler]
  {
  }
}
