/**
 Moving objects: what the garbage collector's root visitor does to addresses, and how the address
 keys of a log are exchanged for the new addresses.
 */
module Relocation {
  import opened ManagedHeap

  /** New address for every object of a heap, and the way back. */
  datatype Move = Move(to: map<Addr, Addr>, from: map<Addr, Addr>)

  /** An injective move of exactly the given objects; null neither moves nor is moved to. */
  predicate IsMove(m: Move, objects: set<Addr>) {
    && m.to.Keys == objects
    && NULL !in m.to && NULL !in m.from
    && Inverse(m)
  }

  predicate Inverse(m: Move) {
    && (forall a :: a in m.to ==> m.to[a] in m.from && m.from[m.to[a]] == a)
    && (forall b :: b in m.from ==> m.from[b] in m.to && m.to[m.from[b]] == b)
  }

  /** Every injective relocation has such a two-way form. */
  lemma InjectiveHasInverse(to: map<Addr, Addr>) returns (m: Move)
    requires forall a, b :: a in to && b in to && to[a] == to[b] ==> a == b
    ensures m.to == to && Inverse(m)
  {
    m := Move(to, map a | a in to :: to[a] := a);
  }

  function At(m: Move, a: Addr): Addr {
    if a in m.to then m.to[a] else a
  }

  function MoveValue(m: Move, v: Value): Value {
    if v.Ref? then Ref(At(m, v.addr)) else v
  }

  function MoveCell(m: Move, c: Cell): Cell {
    c.(value := MoveValue(m, c.value))
  }

  function MoveLoc(m: Move, loc: Loc): (r: Loc)
    ensures r.Field? == loc.Field? && r.obj == At(m, loc.obj)
  {
    loc.(obj := At(m, loc.obj))
  }

  function MoveHeap(m: Move, h: Heap): Heap
    requires IsMove(m, h.headers.Keys) && WellFormed(h)
  {
    Heap(Rekey(h.headers, m),
         map loc | loc in h.cells :: MoveLoc(m, loc) := MoveCell(m, h.cells[loc]))
  }

  /** Exchanges the keys of a container for the new addresses. */
  function Rekey<V>(c: map<Addr, V>, m: Move): map<Addr, V>
    requires Inverse(m) && c.Keys <= m.to.Keys
  {
    map b | b in m.from && m.from[b] in c :: c[m.from[b]]
  }

  predicate Moves(m: Move, k: Addr) {
    k in m.to && m.to[k] != k
  }

  /**
   The keys can be exchanged one at a time, largest first, without ever meeting a key that is
   still to be exchanged. In particular this holds when no new address is a key.
   */
  predicate CanRekey(keys: set<Addr>, m: Move) {
    forall k :: k in keys && Moves(m, k) && m.to[k] in keys ==> m.to[k] > k
  }

  /** The keys that move, with their new addresses, the largest key first. */
  predicate IsMovingRoots(moving: seq<(Addr, Addr)>, keys: set<Addr>, m: Move) {
    if moving == [] then forall k :: k in keys ==> !Moves(m, k)
    else
      var (oldRoot, newRoot) := moving[0];
      && oldRoot in keys && Moves(m, oldRoot) && newRoot == m.to[oldRoot]
      && (forall k :: k in keys && Moves(m, k) ==> k <= oldRoot)
      && IsMovingRoots(moving[1..], keys - {oldRoot}, m)
  }

  lemma {:induction false} UnmovedKeyIsNoRoot(moving: seq<(Addr, Addr)>, keys: set<Addr>, k: Addr, m: Move)
    requires IsMovingRoots(moving, keys, m) && !Moves(m, k)
    ensures IsMovingRoots(moving, keys + {k}, m)
  {
    if moving != [] {
      var rest := keys - {moving[0].0};
      UnmovedKeyIsNoRoot(moving[1..], rest, k, m);
      assert keys + {k} - {moving[0].0} == rest + {k};
    }
  }

  ghost function Smallest(keys: set<Addr>): (k: Addr)
    requires keys != {}
    ensures k in keys && forall j :: j in keys ==> k <= j
  {
    var x :| x in keys;
    if keys == {x} then x
    else
      var rest := keys - {x};
      var l := Smallest(rest);
      assert keys == rest + {x};
      if x <= l then x else l
  }

  method NextKey(keys: set<Addr>) returns (k: Addr)
    requires keys != {}
    ensures k in keys && forall j :: j in keys ==> k <= j
  {
    ghost var least := Smallest(keys);
    k :| k in keys && forall j :: j in keys ==> k <= j;
  }

  /** Visits the keys of a log in ascending order, pushing those that move to the front of a list. */
  method CollectMovingRoots(keys: set<Addr>, m: Move) returns (moving: seq<(Addr, Addr)>)
    requires keys <= m.to.Keys
    ensures IsMovingRoots(moving, keys, m)
  {
    moving := [];
    var todo := keys;
    ghost var visited: set<Addr> := {};
    while todo != {}
      invariant todo + visited == keys
      invariant forall k, j :: k in visited && j in todo ==> k < j
      invariant IsMovingRoots(moving, visited, m)
    {
      var oldRoot := NextKey(todo);
      var newRoot := m.to[oldRoot];
      if newRoot != oldRoot {
        ghost var tail := moving;
        moving := [(oldRoot, newRoot)] + moving;
        assert moving[1..] == tail && visited + {oldRoot} - {oldRoot} == visited;
      } else {
        UnmovedKeyIsNoRoot(moving, visited, oldRoot, m);
      }
      visited := visited + {oldRoot};
      todo := todo - {oldRoot};
    }
    assert visited == keys;
  }

  /** Where the entry of `k` is while only the keys outside `todo` have been exchanged. */
  ghost function Place(m: Move, todo: set<Addr>, k: Addr): Addr {
    if k in todo then k else At(m, k)
  }

  /** The container while the keys in `todo` are still to be exchanged; `origin` inverts `Place`. */
  ghost predicate PartlyRekeyed<V>(
    cur: map<Addr, V>, origin: map<Addr, Addr>, c: map<Addr, V>, m: Move, todo: set<Addr>)
  {
    && cur.Keys == origin.Keys
    && (forall k :: k in c ==> Place(m, todo, k) in cur && cur[Place(m, todo, k)] == c[k]
                               && origin[Place(m, todo, k)] == k)
    && (forall x :: x in cur ==> origin[x] in c && Place(m, todo, origin[x]) == x)
  }

  /** The exchanged keys are the largest and did not meet a key that was still to be exchanged. */
  ghost predicate DoneSoFar(keys: set<Addr>, m: Move, todo: set<Addr>) {
    && todo <= keys <= m.to.Keys
    && (forall d, k :: d in keys && d !in todo && k in todo && Moves(m, k) ==> d > k)
    && (forall d :: d in keys && d !in todo && m.to[d] in keys ==> m.to[d] > d)
  }

  /**
   Exchanges the moving keys one by one. Both checks of the loop (the old key is found, the new
   key is not taken) hold throughout exactly when `CanRekey` does, and then the container has
   every entry under its new key.
   */
  method UpdateKeys<V>(moving: seq<(Addr, Addr)>, container: map<Addr, V>, ghost m: Move)
    returns (ok: bool, updated: map<Addr, V>)
    requires Inverse(m) && container.Keys <= m.to.Keys
    requires IsMovingRoots(moving, container.Keys, m)
    ensures ok <==> CanRekey(container.Keys, m)
    ensures ok ==> updated == Rekey(container, m)
  {
    updated := container;
    var i := 0;
    ghost var todo := container.Keys;
    ghost var origin: map<Addr, Addr> := map k | k in container :: k;
    while i < |moving|
      invariant 0 <= i <= |moving|
      invariant IsMovingRoots(moving[i..], todo, m)
      invariant DoneSoFar(container.Keys, m, todo)
      invariant PartlyRekeyed(updated, origin, container, m, todo)
    {
      assert moving[i..][1..] == moving[i + 1..];
      ok, updated, origin := UpdateKey(moving[i].0, moving[i].1, updated, origin, container, m, todo);
      if !ok {
        return;
      }
      todo := todo - {moving[i].0};
      i := i + 1;
    }
    AllRekeyed(updated, origin, container, m, todo);
    return true, updated;
  }

  /** One round of the loop: take the entry out, give it the new key, put it back. */
  method UpdateKey<V>(
    oldRoot: Addr, newRoot: Addr, cur: map<Addr, V>,
    ghost origin: map<Addr, Addr>, ghost c: map<Addr, V>, ghost m: Move, ghost todo: set<Addr>)
    returns (ok: bool, next: map<Addr, V>, ghost origin': map<Addr, Addr>)
    requires Inverse(m) && DoneSoFar(c.Keys, m, todo)
    requires PartlyRekeyed(cur, origin, c, m, todo)
    requires oldRoot in todo && Moves(m, oldRoot) && newRoot == m.to[oldRoot]
    requires forall k :: k in todo && Moves(m, k) ==> k <= oldRoot
    ensures !ok ==> !CanRekey(c.Keys, m)
    ensures ok ==> DoneSoFar(c.Keys, m, todo - {oldRoot})
    ensures ok ==> PartlyRekeyed(next, origin', c, m, todo - {oldRoot})
  {
    assert Place(m, todo, oldRoot) in cur;
    var node := cur[oldRoot];
    var rest := cur - {oldRoot};
    if newRoot in rest {
      TakenKeyIsStillToMove(cur, origin, c, m, todo, oldRoot);
      return false, rest, origin;
    }
    StepRekeys(cur, origin, c, m, todo, oldRoot);
    StepKeepsOrder(c.Keys, m, todo, oldRoot);
    return true, rest[newRoot := node], (origin - {oldRoot})[newRoot := oldRoot];
  }

  lemma TakenKeyIsStillToMove<V>(
    cur: map<Addr, V>, origin: map<Addr, Addr>, c: map<Addr, V>, m: Move, todo: set<Addr>, k: Addr)
    requires Inverse(m) && DoneSoFar(c.Keys, m, todo)
    requires PartlyRekeyed(cur, origin, c, m, todo)
    requires k in todo && Moves(m, k) && m.to[k] in cur
    requires forall j :: j in todo && Moves(m, j) ==> j <= k
    ensures !CanRekey(c.Keys, m)
  {
  }

  lemma StepKeepsOrder(keys: set<Addr>, m: Move, todo: set<Addr>, k: Addr)
    requires Inverse(m) && DoneSoFar(keys, m, todo)
    requires k in todo && Moves(m, k) && m.to[k] !in todo
    requires forall j :: j in todo && Moves(m, j) ==> j <= k
    ensures DoneSoFar(keys, m, todo - {k})
  {
  }

  lemma StepRekeys<V>(
    cur: map<Addr, V>, origin: map<Addr, Addr>, c: map<Addr, V>, m: Move, todo: set<Addr>, k: Addr)
    requires Inverse(m) && todo <= c.Keys <= m.to.Keys
    requires PartlyRekeyed(cur, origin, c, m, todo)
    requires k in todo && Moves(m, k) && k in cur && m.to[k] !in cur
    ensures m.to[k] !in todo
    ensures PartlyRekeyed((cur - {k})[m.to[k] := cur[k]], (origin - {k})[m.to[k] := k], c, m, todo - {k})
  {
  }

  lemma AllRekeyed<V>(
    cur: map<Addr, V>, origin: map<Addr, Addr>, c: map<Addr, V>, m: Move, todo: set<Addr>)
    requires Inverse(m) && c.Keys <= m.to.Keys
    requires PartlyRekeyed(cur, origin, c, m, todo)
    requires forall k :: k in todo ==> !Moves(m, k)
    ensures cur == Rekey(c, m)
  {
  }

  /** New addresses that are not keys at all are always accepted. */
  lemma FreshTargetsCanRekey(keys: set<Addr>, m: Move)
    requires forall k :: k in keys && Moves(m, k) ==> m.to[k] !in keys
    ensures CanRekey(keys, m)
  {
  }

  /** Sliding objects down over one another is an injective move that the checks reject. */
  lemma SlidingDownIsRejected()
    ensures var m := Move(map[16 := 8, 24 := 16], map[8 := 16, 16 := 24]);
            IsMove(m, {16, 24}) && !CanRekey({16, 24}, m)
  {
  }
}
