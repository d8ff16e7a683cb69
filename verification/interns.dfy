/**
 The two string intern tables and the log of changes a transaction makes to them. Tables are
 keyed by the string's text; the entry is the address of the interned string object.
 */
module InternTables {
  import opened ManagedHeap

  datatype Str = Str(addr: Addr, text: string)

  datatype Interns = Interns(strong: map<string, Addr>, weak: map<string, Addr>) {
    function Table(isStrong: bool): map<string, Addr> {
      if isStrong then strong else weak
    }

    function With(isStrong: bool, table: map<string, Addr>): Interns {
      if isStrong then this.(strong := table) else this.(weak := table)
    }
  }

  /** One insertion into or removal from one of the tables. */
  datatype InternLog = InternLog(str: Str, isStrong: bool, isInsert: bool)

  function Insert(tables: Interns, isStrong: bool, s: Str): Interns {
    tables.With(isStrong, tables.Table(isStrong)[s.text := s.addr])
  }

  function Remove(tables: Interns, isStrong: bool, s: Str): Interns {
    tables.With(isStrong, tables.Table(isStrong) - {s.text})
  }

  function Apply(log: InternLog, tables: Interns): Interns {
    if log.isInsert then Insert(tables, log.isStrong, log.str)
    else Remove(tables, log.isStrong, log.str)
  }

  function Undo(log: InternLog, tables: Interns): Interns {
    if log.isInsert then Remove(tables, log.isStrong, log.str)
    else Insert(tables, log.isStrong, log.str)
  }

  /** The operation really adds a missing entry or really removes this very entry. */
  predicate Effective(log: InternLog, tables: Interns) {
    var table := tables.Table(log.isStrong);
    if log.isInsert then log.str.text !in table
    else log.str.text in table && table[log.str.text] == log.str.addr
  }

  /** Undo inverts an operation exactly when the operation was effective. */
  lemma UndoInvertsIffEffective(log: InternLog, tables: Interns)
    ensures Undo(log, Apply(log, tables)) == tables <==> Effective(log, tables)
  {
  }

  /** Operations in the order they were performed. */
  function ApplyAll(ops: seq<InternLog>, tables: Interns): Interns {
    if ops == [] then tables else ApplyAll(ops[1..], Apply(ops[0], tables))
  }

  predicate AllEffective(ops: seq<InternLog>, tables: Interns) {
    ops == [] || (Effective(ops[0], tables) && AllEffective(ops[1..], Apply(ops[0], tables)))
  }

  /** A log lists the most recent operation first and is undone in that order. */
  function UndoAll(log: seq<InternLog>, tables: Interns): Interns {
    if log == [] then tables else UndoAll(log[1..], Undo(log[0], tables))
  }

  /** Adds operations one by one at the front of a log. */
  function PushAll(log: seq<InternLog>, ops: seq<InternLog>): (r: seq<InternLog>)
    ensures |r| == |log| + |ops|
    decreases |ops|
  {
    if ops == [] then log else PushAll([ops[0]] + log, ops[1..])
  }

  /**
   For every log and every run of effective operations recorded on top of it, undoing from the
   most recent to the oldest operation gives what undoing the old log gave before the run.
   */
  lemma {:induction false} UndoRestoresTables(log: seq<InternLog>, ops: seq<InternLog>, tables: Interns)
    requires AllEffective(ops, tables)
    ensures UndoAll(PushAll(log, ops), ApplyAll(ops, tables)) == UndoAll(log, tables)
    decreases |ops|
  {
    if ops != [] {
      UndoRestoresTables([ops[0]] + log, ops[1..], Apply(ops[0], tables));
      UndoInvertsIffEffective(ops[0], tables);
      assert ([ops[0]] + log)[1..] == log;
    }
  }

  /**
   The table changes made by interning `s`: none when the text is already strongly interned (or
   weakly interned and only a weak entry is wanted), a promotion from weak to strong, or one
   insertion.
   */
  function InternOps(tables: Interns, s: Str, isStrong: bool): (ops: seq<InternLog>) {
    if s.text in tables.strong then []
    else if s.text in tables.weak then
      if isStrong then
        var weak := Str(tables.weak[s.text], s.text);
        [InternLog(weak, false, false), InternLog(weak, true, true)]
      else []
    else [InternLog(s, isStrong, true)]
  }

  /** The string object that interning returns. */
  function Interned(tables: Interns, s: Str): Addr {
    if s.text in tables.strong then tables.strong[s.text]
    else if s.text in tables.weak then tables.weak[s.text]
    else s.addr
  }

  /**
   Interning only performs effective operations, afterwards the text is found (strongly, if
   asked for), and no text is in both tables if none was before.
   */
  lemma InternOpsEffective(tables: Interns, s: Str, isStrong: bool)
    ensures AllEffective(InternOps(tables, s, isStrong), tables)
    ensures var after := ApplyAll(InternOps(tables, s, isStrong), tables);
            && Interned(after, s) == Interned(tables, s)
            && (isStrong ==> s.text in after.strong)
            && (s.text in after.strong || s.text in after.weak)
            && (tables.strong.Keys !! tables.weak.Keys ==> after.strong.Keys !! after.weak.Keys)
  {
    var ops := InternOps(tables, s, isStrong);
    if |ops| == 2 {
      var mid := Apply(ops[0], tables);
      assert ops[1..] == [ops[1]] && ops[1..][1..] == [];
      assert AllEffective(ops[1..], mid);
      assert ApplyAll(ops[1..], mid) == ApplyAll([], Apply(ops[1], mid));
      assert ApplyAll(ops, tables) == Apply(ops[1], mid);
    } else if |ops| == 1 {
      assert ops[1..] == [];
      assert ApplyAll(ops, tables) == Apply(ops[0], tables);
    }
  }

  /** Which object interning finds, and what it leaves in the tables, case by case. */
  lemma InternFinds(tables: Interns, s: Str, isStrong: bool)
    ensures var after, r := ApplyAll(InternOps(tables, s, isStrong), tables), Interned(tables, s);
            if s.text in tables.strong then r == tables.strong[s.text] && after == tables
            else if s.text in tables.weak then
              && r == tables.weak[s.text]
              && after == if isStrong then Interns(tables.strong[s.text := r], tables.weak - {s.text}) else tables
            else
              && r == s.addr
              && after == if isStrong then Interns(tables.strong[s.text := r], tables.weak)
                          else Interns(tables.strong, tables.weak[s.text := r])
  {
    var ops := InternOps(tables, s, isStrong);
    if |ops| == 2 {
      var mid := Apply(ops[0], tables);
      assert ops[1..] == [ops[1]] && ops[1..][1..] == [];
      assert ApplyAll(ops[1..], mid) == ApplyAll([], Apply(ops[1], mid));
    } else if |ops| == 1 {
      assert ops[1..] == [];
    }
  }

  /** Strings with the same text are interned as the same object from then on. */
  lemma InternedIsCanonical(tables: Interns, s: Str, isStrong: bool, other: Str)
    requires other.text == s.text
    ensures Interned(ApplyAll(InternOps(tables, s, isStrong), tables), other) == Interned(tables, s)
  {
    InternFinds(tables, s, isStrong);
  }
}
