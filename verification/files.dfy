/**
 Replacing a group of files all at once. Every operation on the file system may fail, so the
 outcome of each is left open; best-effort clean-up steps that fail are noted in a flag.
 */
module FileCommit {
  type Path = string

  datatype Node = Regular(content: string) | Directory

  type Files = map<Path, Node>

  /** "<path>.<id>.tmp" */
  function BuildTempPath(finalPath: Path, id: string): Path {
    finalPath + "." + id + ".tmp"
  }

  /** A name that `mkstemps` may give to a temporary file for `path`. */
  predicate IsTempOf(p: Path, path: Path) {
    && |p| == |path| + 11
    && p[..|path|] == path && p[|path|] == '.' && p[|path| + 7..] == ".tmp"
  }

  lemma TempPathIsTemp(path: Path, id: string)
    requires |id| == 6
    ensures IsTempOf(BuildTempPath(path, id), path)
    ensures BuildTempPath(path, id)[|path| + 1..|path| + 7] == id
  {
  }

  // --- Effects -----------------------------------------------------------------------------------

  /** One file renamed, replacing whatever had the new name. */
  function Renamed(f: Files, from: Path, to: Path): Files
    requires from in f
  {
    (f - {from})[to := f[from]]
  }

  /** Several files renamed at once; `names` leads from new names to old names. */
  function RenamedAll(f: Files, names: map<Path, Path>): Files
    requires names.Values <= f.Keys
  {
    (f - names.Values) + map p | p in names :: f[names[p]]
  }

  /** Where a path comes from after several renames. */
  lemma RenamedAllAt(f: Files, names: map<Path, Path>, p: Path)
    requires names.Values <= f.Keys
    ensures p in names ==> p in RenamedAll(f, names) && names[p] in f && RenamedAll(f, names)[p] == f[names[p]]
    ensures p !in names ==> (p in RenamedAll(f, names) <==> p in f && p !in names.Values)
    ensures p !in names && p in RenamedAll(f, names) ==> RenamedAll(f, names)[p] == f[p]
  {
  }

  lemma RenameOneMore(f: Files, names: map<Path, Path>, from: Path, to: Path)
    requires names.Values <= f.Keys && from in f
    requires from !in names && from !in names.Values && to !in names && to !in names.Values
    ensures names[to := from].Values <= f.Keys
    ensures from in RenamedAll(f, names)
    ensures Renamed(RenamedAll(f, names), from, to) == RenamedAll(f, names[to := from])
  {
    var names' := names[to := from];
    assert names'.Values == names.Values + {from} by {
      assert to in names' && names'[to] == from;
      forall v | v in names.Values
        ensures v in names'.Values
      {
        var p :| p in names && names[p] == v;
        assert names'[p] == v;
      }
    }
    assert Renamed(RenamedAll(f, names), from, to) == RenamedAll(f, names');
  }

  // --- The file system ---------------------------------------------------------------------------

  class FileSystem {
    var files: Files
    /** Names that the six random characters of a temporary name are taken never to hit. */
    const neverDrawn: set<Path>
    /** Whether a step that is only logged when it fails has failed. */
    var cleanupFailed: bool
    /** Which calls the system denies although nothing about the files stands in their way. */
    const denies: nat -> bool
    /** The random part of a name that is drawn in a call. */
    const draws: nat -> string
    var calls: nat

    ghost predicate Cooperative() {
      forall n: nat :: !denies(n)
    }

    /** Names drawn for temporary files of the given paths can be used. */
    ghost predicate NamesUnused(f: Files, paths: set<Path>) {
      forall n: nat, p :: p in paths ==> Usable(f, p, draws(n))
    }

    predicate Usable(f: Files, path: Path, id: string) {
      |id| == 6 && BuildTempPath(path, id) !in f && BuildTempPath(path, id) !in neverDrawn
    }

    /** A rename that succeeds only if it can, and then moves exactly one file. */
    method Rename(from: Path, to: Path) returns (ok: bool)
      modifies this`files, this`calls
      ensures ok <==> !denies(old(calls)) && CanRename(old(files), (from, to))
      ensures files == if ok then Renamed(old(files), from, to) else old(files)
    {
      var denied := denies(calls);
      calls := calls + 1;
      if denied || from !in files || (to in files && files[to].Directory?) {
        return false;
      }
      files := Renamed(files, from, to);
      return true;
    }

    method Status(path: Path) returns (known: bool, isDirectory: bool, exists_: bool)
      modifies this`calls
      ensures known <==> !denies(old(calls))
      ensures known ==> exists_ == (path in files) && isDirectory == (path in files && files[path].Directory?)
    {
      known := !denies(calls);
      calls := calls + 1;
      exists_ := path in files;
      isDirectory := exists_ && files[path].Directory?;
    }

    /** `mkstemps`: creates an empty file under a name that was not in use. */
    method MakeTemp(path: Path) returns (ok: bool, temp: Path)
      modifies this`files, this`calls
      ensures ok <==> !denies(old(calls)) && Usable(old(files), path, draws(old(calls)))
      ensures ok ==> IsTempOf(temp, path) && temp !in old(files) && temp !in neverDrawn
      ensures ok ==> files == old(files)[temp := Regular("")]
      ensures !ok ==> files == old(files)
    {
      var denied, id := denies(calls), draws(calls);
      calls := calls + 1;
      temp := BuildTempPath(path, id);
      if denied || |id| != 6 || temp in files || temp in neverDrawn {
        return false, temp;
      }
      TempPathIsTemp(path, id);
      files := files[temp := Regular("")];
      return true, temp;
    }

    /** Removes a file if there is one; a failure is only noted. */
    method UnlinkIfExists(path: Path)
      modifies this`files, this`cleanupFailed, this`calls
      ensures files == if denies(old(calls)) then old(files) else old(files) - {path}
      ensures cleanupFailed == (old(cleanupFailed) || denies(old(calls)))
    {
      var denied := denies(calls);
      calls := calls + 1;
      if denied {
        cleanupFailed := true;
      } else {
        files := files - {path};
      }
    }
  }

  // --- Arguments -----------------------------------------------------------------------------------

  type Move = (Path, Path)

  function Sources(moves: seq<Move>): set<Path> {
    set i | 0 <= i < |moves| :: moves[i].0
  }

  function Destinations(moves: seq<Move>): set<Path> {
    set i | 0 <= i < |moves| :: moves[i].1
  }

  function Elements(paths: seq<Path>): set<Path> {
    set i | 0 <= i < |paths| :: paths[i]
  }

  /** No path is given twice, in whatever role. */
  predicate NoDuplicates(moves: seq<Move>, removes: seq<Path>) {
    && DistinctPairs(moves)
    && (forall i, j :: 0 <= i < j < |removes| ==> removes[i] != removes[j])
    && Elements(removes) !! Sources(moves) && Elements(removes) !! Destinations(moves)
  }

  /** All first components and all second components are different paths. */
  predicate DistinctPairs(moves: seq<Move>) {
    moves == [] ||
      var n := |moves| - 1;
      var used := Sources(moves[..n]) + Destinations(moves[..n]);
      && DistinctPairs(moves[..n])
      && moves[n].0 !in used && moves[n].1 !in used && moves[n].0 != moves[n].1
  }

  lemma {:induction false} DistinctPrefix(moves: seq<Move>, k: nat)
    requires DistinctPairs(moves) && k <= |moves|
    ensures DistinctPairs(moves[..k])
  {
    var n := |moves| - 1;
    if k <= n {
      DistinctPrefix(moves[..n], k);
      assert moves[..n][..k] == moves[..k];
    } else {
      assert moves[..k] == moves;
    }
  }

  /** From second components to first components. */
  function Names(moves: seq<Move>): (m: map<Path, Path>)
    ensures m.Keys == Destinations(moves) && m.Values <= Sources(moves)
  {
    if moves == [] then map[]
    else
      var n := |moves| - 1;
      LastMove(moves);
      Names(moves[..n])[moves[n].1 := moves[n].0]
  }

  lemma LastMove(moves: seq<Move>)
    requires moves != []
    ensures var n := |moves| - 1;
            && Sources(moves) == Sources(moves[..n]) + {moves[n].0}
            && Destinations(moves) == Destinations(moves[..n]) + {moves[n].1}
  {
  }

  function Swapped(moves: seq<Move>): (r: seq<Move>)
    ensures |r| == |moves| && forall i :: 0 <= i < |r| ==> r[i] == (moves[i].1, moves[i].0)
  {
    seq(|moves|, i requires 0 <= i < |moves| => (moves[i].1, moves[i].0))
  }

  lemma {:induction false} NamesAt(moves: seq<Move>, i: nat)
    requires DistinctPairs(moves) && i < |moves|
    ensures moves[i].1 in Names(moves) && Names(moves)[moves[i].1] == moves[i].0
  {
    var n := |moves| - 1;
    if i < n {
      NamesAt(moves[..n], i);
    }
  }

  lemma NamesValues(moves: seq<Move>)
    requires DistinctPairs(moves)
    ensures Names(moves).Values == Sources(moves)
  {
    forall p | p in Sources(moves)
      ensures p in Names(moves).Values
    {
      var i :| 0 <= i < |moves| && moves[i].0 == p;
      NamesAt(moves, i);
    }
  }

  /** Renaming the files of a list one after another renames all of them. */
  lemma RenameNext(f: Files, moves: seq<Move>, k: nat)
    requires DistinctPairs(moves) && k < |moves|
    requires Sources(moves[..k + 1]) <= f.Keys
    ensures Names(moves[..k]).Values <= f.Keys && Names(moves[..k + 1]).Values <= f.Keys
    ensures moves[k].0 in RenamedAll(f, Names(moves[..k]))
    ensures Renamed(RenamedAll(f, Names(moves[..k])), moves[k].0, moves[k].1) ==
            RenamedAll(f, Names(moves[..k + 1]))
  {
    var some, more := moves[..k], moves[..k + 1];
    DistinctPrefix(moves, k + 1);
    assert more[..k] == some && more[k] == moves[k];
    LastMove(more);
    RenameOneMore(f, Names(some), moves[k].0, moves[k].1);
  }

  /** The first `i` files of a list have been renamed, giving `cur`. */
  ghost predicate PartlyRenamed(g: Files, cur: Files, moves: seq<Move>, i: nat) {
    && i <= |moves| && Sources(moves[..i]) <= g.Keys && Names(moves[..i]).Values <= g.Keys
    && cur == RenamedAll(g, Names(moves[..i]))
  }

  lemma NoneRenamed(g: Files, moves: seq<Move>)
    ensures PartlyRenamed(g, g, moves, 0)
  {
  }

  lemma PrefixStep(moves: seq<Move>, i: nat)
    requires i < |moves|
    ensures Sources(moves[..i + 1]) == Sources(moves[..i]) + {moves[i].0}
    ensures Destinations(moves[..i + 1]) == Destinations(moves[..i]) + {moves[i].1}
  {
  }

  lemma RenamedStep(g: Files, cur: Files, moves: seq<Move>, i: nat)
    requires DistinctPairs(moves) && i < |moves| && PartlyRenamed(g, cur, moves, i) && moves[i].0 in cur
    ensures PartlyRenamed(g, Renamed(cur, moves[i].0, moves[i].1), moves, i + 1)
  {
    PrefixStep(moves, i);
    DistinctPrefix(moves, i + 1);
    assert moves[..i + 1][..i] == moves[..i];
    assert moves[i].0 in g;
    RenameNext(g, moves, i);
  }

  // --- All or nothing ------------------------------------------------------------------------------

  /** The old files that have to go: all destinations, then the files to remove. */
  function Targets(moves: seq<Move>, removes: seq<Path>): (r: seq<Path>)
    ensures Elements(r) == Destinations(moves) + Elements(removes)
  {
    var dsts := seq(|moves|, i requires 0 <= i < |moves| => moves[i].1);
    var r := dsts + removes;
    assert forall i :: 0 <= i < |moves| ==> r[i] == moves[i].1;
    assert forall i :: 0 <= i < |removes| ==> r[|moves| + i] == removes[i];
    r
  }

  /**
   A path that may be unused when temporary names are chosen, and looks like a temporary name of a
   target, is never drawn. Sources usually look so; while they exist nothing is assumed of them.
   */
  predicate TempNamesApart(f: Files, neverDrawn: set<Path>, sources: set<Path>, targets: set<Path>) {
    && (forall p, t :: p in targets && t in targets && IsTempOf(p, t) ==> p in neverDrawn)
    && (forall p, t :: p in sources && t in targets && IsTempOf(p, t) ==> p in f || p in neverDrawn)
  }

  /** What the caller owes: distinct paths, usable temporary names, sources that are no directories. */
  predicate Acceptable(f: Files, neverDrawn: set<Path>, moves: seq<Move>, removes: seq<Path>) {
    && NoDuplicates(moves, removes)
    && TempNamesApart(f, neverDrawn, Sources(moves), Destinations(moves) + Elements(removes))
    && (forall p :: p in Sources(moves) && p in f ==> f[p].Regular?)
  }

  /** Every destination has its source's content; the sources and the files to remove are gone. */
  function Committed(f: Files, moves: seq<Move>, removes: seq<Path>): Files
    requires NoDuplicates(moves, removes) && Sources(moves) <= f.Keys
  {
    NamesValues(moves);
    RenamedAll(f, Names(moves)) - Elements(removes)
  }

  /** Old files (first) that have been moved to temporary names (second). */
  predicate IsAside(f: Files, moved: seq<Move>, sources: set<Path>, targets: set<Path>) {
    && DistinctPairs(moved)
    && Sources(moved) <= f.Keys && Sources(moved) <= targets
    && (forall p :: p in Destinations(moved) ==> p !in f && p !in targets && p !in sources)
  }

  /** The files `prefix` among all `targets` have been dealt with, and `cur` is the result. */
  ghost predicate AsideState(
    f: Files, cur: Files, moved: seq<Move>, sources: set<Path>, prefix: set<Path>, targets: set<Path>)
  {
    && IsAside(f, moved, sources, targets) && prefix <= targets
    && Names(moved).Values <= f.Keys && cur == RenamedAll(f, Names(moved))
    && prefix * f.Keys == Sources(moved)
  }

  lemma NothingAside(f: Files, sources: set<Path>, targets: set<Path>)
    ensures AsideState(f, f, [], sources, {}, targets)
  {
  }

  lemma AsideMoved(
    f: Files, cur: Files, moved: seq<Move>, sources: set<Path>, prefix: set<Path>, targets: set<Path>,
    path: Path, temp: Path, neverDrawn: set<Path>)
    requires AsideState(f, cur, moved, sources, prefix, targets) && TempNamesApart(f, neverDrawn, sources, targets)
    requires path in cur && path in targets && path !in prefix
    requires IsTempOf(temp, path) && temp !in cur && temp !in neverDrawn
    ensures AsideState(f, Renamed(cur, path, temp), moved + [(path, temp)], sources, prefix + {path}, targets)
  {
    var more := moved + [(path, temp)];
    NamesValues(moved);
    assert path in f;
    assert temp !in f && temp !in targets && temp !in sources;
    assert more[..|moved|] == moved;
    LastMove(more);
    RenameOneMore(f, Names(moved), path, temp);
  }

  lemma AsideAbsent(
    f: Files, cur: Files, moved: seq<Move>, sources: set<Path>, prefix: set<Path>, targets: set<Path>, path: Path)
    requires AsideState(f, cur, moved, sources, prefix, targets)
    requires path !in cur && path in targets && path !in prefix
    ensures AsideState(f, cur, moved, sources, prefix + {path}, targets)
  {
  }

  /** A file that has not been dealt with is still as it was. */
  lemma AsideSame(
    f: Files, cur: Files, moved: seq<Move>, sources: set<Path>, prefix: set<Path>, targets: set<Path>, path: Path)
    requires AsideState(f, cur, moved, sources, prefix, targets)
    requires path in cur && path in targets && path !in prefix
    ensures path in f && cur[path] == f[path]
  {
    RenamedAllAt(f, Names(moved), path);
  }

  predicate AreTemps(moved: seq<Move>) {
    forall i :: 0 <= i < |moved| ==> IsTempOf(moved[i].1, moved[i].0)
  }

  /** Temporary names of different paths are different, so one is unused until its own path is dealt with. */
  lemma NamesStillUnused(
    fs: FileSystem, f: Files, cur: Files, moved: seq<Move>, sources: set<Path>, prefix: set<Path>, targets: set<Path>,
    path: Path)
    requires AsideState(f, cur, moved, sources, prefix, targets) && AreTemps(moved)
    requires path in targets && path !in prefix && fs.NamesUnused(f, targets)
    ensures fs.NamesUnused(cur, {path})
  {
    forall n: nat
      ensures fs.Usable(cur, path, fs.draws(n))
    {
      assert fs.Usable(f, path, fs.draws(n));
      var temp := BuildTempPath(path, fs.draws(n));
      TempPathIsTemp(path, fs.draws(n));
      RenamedAllAt(f, Names(moved), temp);
      forall i | 0 <= i < |moved|
        ensures moved[i].1 != temp
      {
        assert moved[i].0 in Sources(moved);
        TempsApart(path, moved[i].0, temp);
      }
    }
  }

  lemma TempsApart(p: Path, q: Path, temp: Path)
    requires p != q && IsTempOf(temp, p)
    ensures !IsTempOf(temp, q)
  {
  }

  /** No directory is in the way. */
  predicate NoDirectories(f: Files, paths: set<Path>) {
    forall p :: p in paths && p in f ==> f[p].Regular?
  }

  datatype Aside = Failed | Absent | Moved(temp: Path)

  /** Moves one old file out of the way if it exists. */
  method MoveAside(fs: FileSystem, path: Path) returns (r: Aside)
    modifies fs
    ensures r.Failed? ==> (!fs.cleanupFailed ==> fs.files == old(fs.files))
    ensures fs.Cooperative() && fs.NamesUnused(old(fs.files), {path}) ==>
              (r.Failed? <==> path in old(fs.files) && old(fs.files)[path].Directory?)
    ensures r.Moved? ==> path in old(fs.files) && old(fs.files)[path].Regular?
    ensures fs.Cooperative() ==> fs.cleanupFailed == old(fs.cleanupFailed)
    ensures r.Absent? ==> fs.files == old(fs.files) && path !in fs.files
    ensures r.Moved? ==> path in old(fs.files) && IsTempOf(r.temp, path) && r.temp !in old(fs.files)
                         && r.temp !in fs.neverDrawn && fs.files == Renamed(old(fs.files), path, r.temp)
    ensures !r.Failed? ==> fs.cleanupFailed == old(fs.cleanupFailed)
    ensures old(fs.cleanupFailed) ==> fs.cleanupFailed
  {
    ghost var f := fs.files;
    var known, isDirectory, exists_ := fs.Status(path);
    if !known || isDirectory {
      return Failed;
    }
    if !exists_ {
      return Absent;
    }
    var made, temp := fs.MakeTemp(path);
    if !made {
      return Failed;
    }
    var renamed := fs.Rename(path, temp);
    if !renamed {
      fs.UnlinkIfExists(temp);
      assert f[temp := Regular("")] - {temp} == f;
      return Failed;
    }
    assert Renamed(f[temp := Regular("")], path, temp) == Renamed(f, path, temp);
    return Moved(temp);
  }

  /** Moves the old files that exist out of the way, stopping at the first problem. */
  method MoveOldFilesAside(fs: FileSystem, targets: seq<Path>, ghost sources: set<Path>)
    returns (ok: bool, moved: seq<Move>, ghost prefix: set<Path>)
    requires forall i, j :: 0 <= i < j < |targets| ==> targets[i] != targets[j]
    requires TempNamesApart(fs.files, fs.neverDrawn, sources, Elements(targets))
    modifies fs
    ensures Names(moved).Values <= old(fs.files).Keys
    ensures AsideState(old(fs.files), RenamedAll(old(fs.files), Names(moved)), moved, sources, prefix, Elements(targets))
    ensures !fs.cleanupFailed || ok ==> fs.files == RenamedAll(old(fs.files), Names(moved))
    ensures ok ==> prefix == Elements(targets) && fs.cleanupFailed == old(fs.cleanupFailed)
    ensures old(fs.cleanupFailed) ==> fs.cleanupFailed
    ensures ok ==> NoDirectories(old(fs.files), Elements(targets))
    ensures fs.Cooperative() && fs.NamesUnused(old(fs.files), Elements(targets)) ==>
              (ok <==> NoDirectories(old(fs.files), Elements(targets)))
    ensures fs.Cooperative() ==> fs.cleanupFailed == old(fs.cleanupFailed)
  {
    hide Renamed, IsAside, DistinctPairs, IsTempOf;
    ghost var f, all := fs.files, Elements(targets);
    moved, prefix := [], {};
    NothingAside(f, sources, all);
    for i := 0 to |targets|
      invariant prefix == Elements(targets[..i])
      invariant AsideState(f, fs.files, moved, sources, prefix, all)
      invariant fs.cleanupFailed == old(fs.cleanupFailed)
      invariant NoDirectories(f, prefix) && AreTemps(moved)
    {
      var path := targets[i];
      NextElement(targets, i);
      ghost var cur := fs.files;
      if path in cur {
        AsideSame(f, cur, moved, sources, prefix, all, path);
      }
      if fs.NamesUnused(f, all) {
        NamesStillUnused(fs, f, cur, moved, sources, prefix, all, path);
      }
      var r := MoveAside(fs, path);
      if r.Failed? {
        return false, moved, prefix;
      }
      if r.Moved? {
        AsideMoved(f, cur, moved, sources, prefix, all, path, r.temp, fs.neverDrawn);
        moved := moved + [(path, r.temp)];
      } else {
        AsideAbsent(f, cur, moved, sources, prefix, all, path);
      }
      prefix := prefix + {path};
    }
    assert targets[..|targets|] == targets;
    return true, moved, prefix;
  }

  lemma NextElement(paths: seq<Path>, i: nat)
    requires i < |paths| && forall i, j :: 0 <= i < j < |paths| ==> paths[i] != paths[j]
    ensures Elements(paths[..i + 1]) == Elements(paths[..i]) + {paths[i]}
    ensures paths[i] !in Elements(paths[..i]) && paths[i] in Elements(paths)
  {
  }

  /** Nothing about the files stands in the way of the move. */
  predicate CanRename(f: Files, mv: Move) {
    mv.0 in f && (mv.1 in f ==> f[mv.1].Regular?)
  }

  /** With the old files out of the way, each new file whose source exists can be moved in. */
  lemma CanMoveIn(
    f: Files, moves: seq<Move>, targets: set<Path>, moved: seq<Move>, k: nat, g1: Files, g2: Files)
    requires DistinctPairs(moves) && Sources(moves) !! targets && Destinations(moves) <= targets
    requires AsideState(f, g1, moved, Sources(moves), targets, targets)
    requires PartlyRenamed(g1, g2, moves, k) && k < |moves| && Sources(moves) <= f.Keys
    ensures CanRename(g2, moves[k])
  {
    var (src, dst) := moves[k];
    DistinctPrefix(moves, k + 1);
    assert moves[..k + 1][..k] == moves[..k] && moves[..k + 1][k] == moves[k];
    assert src in Sources(moves) && dst in Destinations(moves);
    NamesValues(moved);
    DistinctPrefix(moves, k);
    NamesValues(moves[..k]);
    RenamedAllAt(f, Names(moved), src);
    RenamedAllAt(f, Names(moved), dst);
    RenamedAllAt(g1, Names(moves[..k]), src);
    RenamedAllAt(g1, Names(moves[..k]), dst);
  }

  /** Moves the new files in, stopping at the first problem; `k` of them have been moved then. */
  method MoveNewFilesIn(fs: FileSystem, moves: seq<Move>)
    returns (ok: bool, committed: set<Path>, ghost k: nat)
    requires DistinctPairs(moves)
    modifies fs`files, fs`calls
    ensures PartlyRenamed(old(fs.files), fs.files, moves, k) && (ok ==> k == |moves|)
    ensures committed == Destinations(moves[..k])
    ensures !ok ==> k < |moves| && (fs.Cooperative() ==> !CanRename(fs.files, moves[k]))
  {
    ghost var g := fs.files;
    committed, k := {}, 0;
    NoneRenamed(g, moves);
    for i := 0 to |moves|
      invariant k == i && committed == Destinations(moves[..i])
      invariant PartlyRenamed(g, fs.files, moves, i)
    {
      ghost var cur := fs.files;
      var renamed := fs.Rename(moves[i].0, moves[i].1);
      if !renamed {
        return false, committed, k;
      }
      RenamedStep(g, cur, moves, i);
      PrefixStep(moves, i);
      committed, k := committed + {moves[i].1}, k + 1;
    }
    return true, committed, k;
  }

  /** The files given up for the new ones that were (destination) or were not (source) moved in. */
  function Discarded(moves: seq<Move>, committed: set<Path>): set<Path> {
    set i | 0 <= i < |moves| :: if moves[i].1 in committed then moves[i].1 else moves[i].0
  }

  method Abandon(fs: FileSystem, moves: seq<Move>, committed: set<Path>)
    modifies fs
    ensures fs.Cooperative() ==> fs.cleanupFailed == old(fs.cleanupFailed)
    ensures !fs.cleanupFailed ==> fs.files == old(fs.files) - Discarded(moves, committed)
    ensures old(fs.cleanupFailed) ==> fs.cleanupFailed
  {
    ghost var g := fs.files;
    assert g == g - Discarded(moves[..0], committed);
    for i := 0 to |moves|
      invariant !fs.cleanupFailed ==> fs.files == g - Discarded(moves[..i], committed)
      invariant fs.Cooperative() ==> fs.cleanupFailed == old(fs.cleanupFailed)
      invariant old(fs.cleanupFailed) ==> fs.cleanupFailed
    {
      var (src, dst) := moves[i];
      if dst in committed {
        fs.UnlinkIfExists(dst);
      } else {
        fs.UnlinkIfExists(src);
      }
      assert forall j :: 0 <= j < i ==> moves[..i + 1][j] == moves[..i][j];
      assert moves[..i + 1][i] == moves[i];
      assert Discarded(moves[..i + 1], committed) ==
             Discarded(moves[..i], committed) + {if dst in committed then dst else src};
    }
    assert moves[..|moves|] == moves;
  }

  /** The files that were moved aside are there, and their old names are free. */
  predicate CanMoveBack(f: Files, moved: seq<Move>) {
    forall i :: 0 <= i < |moved| ==> moved[i].1 in f && moved[i].0 !in f
  }

  lemma CanMoveOneBack(g: Files, cur: Files, moved: seq<Move>, i: nat)
    requires DistinctPairs(Swapped(moved)) && CanMoveBack(g, moved) && i < |moved|
    requires PartlyRenamed(g, cur, Swapped(moved), i)
    ensures CanRename(cur, (moved[i].1, moved[i].0))
  {
    var back := Swapped(moved);
    DistinctPrefix(back, i + 1);
    DistinctPrefix(back, i);
    assert back[..i + 1][..i] == back[..i] && back[..i + 1][i] == back[i] == (moved[i].1, moved[i].0);
    NamesValues(back[..i]);
    RenamedAllAt(g, Names(back[..i]), back[i].0);
    RenamedAllAt(g, Names(back[..i]), back[i].1);
  }

  /** When the new files have been given up, the old ones can be moved back. */
  lemma FailureCanMoveBack(
    f: Files, moves: seq<Move>, targets: set<Path>, moved: seq<Move>, prefix: set<Path>, k: nat,
    g1: Files, g2: Files, g3: Files)
    requires DistinctPairs(moves) && Sources(moves) !! targets && Destinations(moves) <= targets
    requires AsideState(f, g1, moved, Sources(moves), prefix, targets)
    requires PartlyRenamed(g1, g2, moves, k)
    requires g3 == g2 - Discarded(moves, Destinations(moves[..k]))
    ensures CanMoveBack(g3, moved)
  {
    var incoming := Names(moves[..k]);
    DistinctPrefix(moves, k);
    PrefixSubset(moves, k);
    NamesValues(moves[..k]);
    NamesValues(moved);
    forall i | 0 <= i < |moved|
      ensures moved[i].1 in g3 && moved[i].0 !in g3
    {
      var (path, temp) := moved[i];
      NamesAt(moved, i);
      assert path in Sources(moved) && temp in Destinations(moved);
      RenamedAllAt(f, Names(moved), temp);
      RenamedAllAt(f, Names(moved), path);
      RenamedAllAt(g1, incoming, temp);
      RenamedAllAt(g1, incoming, path);
      DiscardedMembers(moves, k, temp);
      DiscardedMembers(moves, k, path);
    }
  }

  /** Moves the old files back to where they were; a failure is only noted. */
  method Restore(fs: FileSystem, moved: seq<Move>)
    requires DistinctPairs(Swapped(moved))
    modifies fs
    ensures !fs.cleanupFailed ==> PartlyRenamed(old(fs.files), fs.files, Swapped(moved), |moved|)
    ensures old(fs.cleanupFailed) ==> fs.cleanupFailed
    ensures fs.Cooperative() && CanMoveBack(old(fs.files), moved) ==> fs.cleanupFailed == old(fs.cleanupFailed)
  {
    hide PartlyRenamed, Renamed, DistinctPairs, CanMoveBack;
    ghost var g, back := fs.files, Swapped(moved);
    NoneRenamed(g, back);
    for i := 0 to |moved|
      invariant !fs.cleanupFailed ==> PartlyRenamed(g, fs.files, back, i)
      invariant old(fs.cleanupFailed) ==> fs.cleanupFailed
      invariant fs.Cooperative() && CanMoveBack(g, moved) ==> fs.cleanupFailed == old(fs.cleanupFailed)
    {
      var (originalPath, tempPath) := moved[i];
      ghost var cur := fs.files;
      if !fs.cleanupFailed && CanMoveBack(g, moved) {
        CanMoveOneBack(g, cur, moved, i);
      }
      var renamed := fs.Rename(tempPath, originalPath);
      if !renamed {
        fs.cleanupFailed := true;
      } else if !fs.cleanupFailed {
        RenamedStep(g, cur, back, i);
      }
    }
  }

  method RemoveOldFiles(fs: FileSystem, moved: seq<Move>)
    modifies fs
    ensures fs.Cooperative() ==> fs.cleanupFailed == old(fs.cleanupFailed)
    ensures !fs.cleanupFailed ==> fs.files == old(fs.files) - Destinations(moved)
    ensures old(fs.cleanupFailed) ==> fs.cleanupFailed
  {
    ghost var g := fs.files;
    assert g == g - Destinations(moved[..0]);
    for i := 0 to |moved|
      invariant !fs.cleanupFailed ==> fs.files == g - Destinations(moved[..i])
      invariant fs.Cooperative() ==> fs.cleanupFailed == old(fs.cleanupFailed)
      invariant old(fs.cleanupFailed) ==> fs.cleanupFailed
    {
      fs.UnlinkIfExists(moved[i].1);
      assert moved[..i + 1][..i] == moved[..i];
      LastMove(moved[..i + 1]);
    }
    assert moved[..|moved|] == moved;
  }

  lemma {:induction false} SwappedDistinct(moves: seq<Move>)
    requires DistinctPairs(moves)
    ensures DistinctPairs(Swapped(moves))
    ensures Sources(Swapped(moves)) == Destinations(moves) && Destinations(Swapped(moves)) == Sources(moves)
  {
    var back := Swapped(moves);
    if moves != [] {
      var n := |moves| - 1;
      SwappedDistinct(moves[..n]);
      assert back[..n] == Swapped(moves[..n]);
      LastMove(moves);
      LastMove(back);
    }
  }

  /** A path that was moved aside finds its content again under the temporary name. */
  lemma AsideRoundTrip(moved: seq<Move>, p: Path)
    requires DistinctPairs(moved) && p in Sources(moved)
    ensures var back := Names(Swapped(moved));
            p in back && back[p] in Names(moved) && Names(moved)[back[p]] == p
  {
    SwappedDistinct(moved);
    var i :| 0 <= i < |moved| && moved[i].0 == p;
    NamesAt(moved, i);
    NamesAt(Swapped(moved), i);
  }

  lemma DiscardedMembers(moves: seq<Move>, k: nat, p: Path)
    requires DistinctPairs(moves) && k <= |moves|
    ensures p in Discarded(moves, Destinations(moves[..k])) ==> p in Sources(moves) || p in Destinations(moves[..k])
    ensures p in Destinations(moves[..k]) ==> p in Discarded(moves, Destinations(moves[..k]))
    ensures p in Sources(moves) && p !in Sources(moves[..k]) ==> p in Discarded(moves, Destinations(moves[..k]))
  {
    var committed := Destinations(moves[..k]);
    if p in committed {
      var i :| 0 <= i < k && moves[..k][i].1 == p;
      assert moves[i].1 == p;
    }
    if p in Sources(moves) && p !in Sources(moves[..k]) {
      var i :| 0 <= i < |moves| && moves[i].0 == p;
      assert i >= k by {
        assert forall j :: 0 <= j < k ==> moves[..k][j].0 == moves[j].0;
      }
      if moves[i].1 in committed {
        var j :| 0 <= j < k && moves[..k][j].1 == moves[i].1;
        DistinctSeconds(moves, j, i);
      }
    }
  }

  lemma {:induction false} DistinctSeconds(moves: seq<Move>, i: nat, j: nat)
    requires DistinctPairs(moves) && i < j < |moves|
    ensures moves[i].1 != moves[j].1 && moves[i].0 != moves[j].0
  {
    var n := |moves| - 1;
    if j < n {
      DistinctSeconds(moves[..n], i, j);
    } else {
      assert moves[..n][i] == moves[i];
    }
  }

  lemma PrefixSubset(moves: seq<Move>, k: nat)
    requires k <= |moves|
    ensures Sources(moves[..k]) <= Sources(moves) && Destinations(moves[..k]) <= Destinations(moves)
  {
  }

  /** The two maps undo each other. */
  ghost predicate MutuallyInverse(aside: map<Path, Path>, back: map<Path, Path>) {
    && (forall t :: t in aside ==> aside[t] in back && back[aside[t]] == t)
    && (forall p :: p in back ==> back[p] in aside && aside[back[p]] == p)
  }

  /**
   What holds of the renamings at a point of failure: `aside` has moved old files of `f` to
   unused names, `incoming` has moved some of the `sources` in, and `gone` is what is given up.
   */
  ghost predicate Undoable(
    f: Files, aside: map<Path, Path>, incoming: map<Path, Path>, sources: set<Path>, gone: set<Path>)
  {
    && aside.Values <= f.Keys && aside.Keys !! f.Keys
    && aside.Keys !! sources && aside.Keys !! incoming.Keys && aside.Values !! sources
    && incoming.Values <= sources && sources !! incoming.Keys
    && incoming.Values <= RenamedAll(f, aside).Keys
    && (forall p :: p in incoming && p in f ==> p in aside.Values)
    && incoming.Keys <= gone && sources - incoming.Values <= gone && gone <= sources + incoming.Keys
  }

  lemma UndonePath(
    f: Files, aside: map<Path, Path>, back: map<Path, Path>, incoming: map<Path, Path>,
    sources: set<Path>, gone: set<Path>, g1: Files, g2: Files, g: Files, p: Path)
    requires Undoable(f, aside, incoming, sources, gone) && MutuallyInverse(aside, back)
    requires g1 == RenamedAll(f, aside) && g2 == RenamedAll(g1, incoming)
    requires back.Values <= (g2 - gone).Keys && g == RenamedAll(g2 - gone, back)
    ensures (p in g <==> p in f && p !in sources) && (p in g ==> g[p] == f[p])
  {
    RenamedAllAt(g2 - gone, back, p);
    if p in back {
      var t := back[p];
      RenamedAllAt(f, aside, t);
      RenamedAllAt(g1, incoming, t);
      assert p in aside.Values;
    } else {
      assert p !in aside.Values;
      RenamedAllAt(f, aside, p);
      RenamedAllAt(g1, incoming, p);
      if p in aside {
        assert back[aside[p]] == p && p in back.Values;
      } else {
        assert p !in back.Values;
      }
    }
  }

  lemma UndoneFiles(
    f: Files, aside: map<Path, Path>, back: map<Path, Path>, incoming: map<Path, Path>,
    sources: set<Path>, gone: set<Path>, g: Files)
    requires Undoable(f, aside, incoming, sources, gone) && MutuallyInverse(aside, back)
    requires back.Values <= (RenamedAll(RenamedAll(f, aside), incoming) - gone).Keys
    requires g == RenamedAll(RenamedAll(RenamedAll(f, aside), incoming) - gone, back)
    ensures g == f - sources
  {
    forall p: Path
      ensures p in g <==> p in f - sources
      ensures p in g ==> g[p] == f[p]
    {
      UndonePath(f, aside, back, incoming, sources, gone, RenamedAll(f, aside),
                 RenamedAll(RenamedAll(f, aside), incoming), g, p);
    }
  }

  lemma SwappedIsInverse(moved: seq<Move>)
    requires DistinctPairs(moved)
    ensures MutuallyInverse(Names(moved), Names(Swapped(moved)))
  {
    SwappedDistinct(moved);
    NamesValues(moved);
    forall p | p in Names(Swapped(moved))
      ensures var t := Names(Swapped(moved))[p]; t in Names(moved) && Names(moved)[t] == p
    {
      AsideRoundTrip(moved, p);
    }
    forall t | t in Names(moved)
      ensures var p := Names(moved)[t]; p in Names(Swapped(moved)) && Names(Swapped(moved))[p] == t
    {
      assert Names(moved)[t] in Names(moved).Values;
      var i :| 0 <= i < |moved| && moved[i].1 == t;
      NamesAt(moved, i);
      NamesAt(Swapped(moved), i);
    }
  }

  /** From any point of failure, if every clean-up step works, only the sources are lost. */
  lemma FailureRestores(
    f: Files, moves: seq<Move>, targets: set<Path>, moved: seq<Move>, prefix: set<Path>, k: nat,
    g1: Files, g2: Files, g3: Files, g4: Files)
    requires DistinctPairs(moves) && Sources(moves) !! targets && Destinations(moves) <= targets
    requires AsideState(f, g1, moved, Sources(moves), prefix, targets) && (prefix == targets || k == 0)
    requires PartlyRenamed(g1, g2, moves, k)
    requires g3 == g2 - Discarded(moves, Destinations(moves[..k]))
    requires PartlyRenamed(g3, g4, Swapped(moved), |moved|)
    ensures g4 == f - Sources(moves)
  {
    var aside, back, incoming := Names(moved), Names(Swapped(moved)), Names(moves[..k]);
    var gone := Discarded(moves, Destinations(moves[..k]));
    SwappedIsInverse(moved);
    assert Swapped(moved)[..|moved|] == Swapped(moved);
    UndoableAtFailure(f, moves, targets, moved, prefix, k, g1, g2);
    UndoneFiles(f, aside, back, incoming, Sources(moves), gone, g4);
  }

  lemma UndoableAtFailure(
    f: Files, moves: seq<Move>, targets: set<Path>, moved: seq<Move>, prefix: set<Path>, k: nat,
    g1: Files, g2: Files)
    requires DistinctPairs(moves) && Sources(moves) !! targets && Destinations(moves) <= targets
    requires AsideState(f, g1, moved, Sources(moves), prefix, targets) && (prefix == targets || k == 0)
    requires PartlyRenamed(g1, g2, moves, k)
    ensures Undoable(f, Names(moved), Names(moves[..k]), Sources(moves),
                     Discarded(moves, Destinations(moves[..k])))
  {
    NamesValues(moved);
    DistinctPrefix(moves, k);
    NamesValues(moves[..k]);
    PrefixSubset(moves, k);
    forall p: Path {
      DiscardedMembers(moves, k, p);
    }
  }

  lemma SuccessPath(
    f: Files, aside: map<Path, Path>, incoming: map<Path, Path>, targets: set<Path>, removes: set<Path>,
    g1: Files, g2: Files, p: Path)
    requires aside.Values == targets * f.Keys && aside.Keys !! f.Keys && aside.Keys !! targets
    requires targets == incoming.Keys + removes && removes !! incoming.Keys
    requires incoming.Values <= f.Keys && incoming.Values !! targets
    requires g1 == RenamedAll(f, aside) && incoming.Values <= g1.Keys && g2 == RenamedAll(g1, incoming)
    ensures var a, b := g2 - aside.Keys, RenamedAll(f, incoming) - removes;
            (p in a <==> p in b) && (p in a ==> a[p] == b[p])
  {
    RenamedAllAt(g1, incoming, p);
    RenamedAllAt(f, incoming, p);
    if p in incoming {
      RenamedAllAt(f, aside, incoming[p]);
      assert incoming[p] in incoming.Values;
    } else {
      RenamedAllAt(f, aside, p);
    }
  }

  lemma SuccessFiles(
    f: Files, aside: map<Path, Path>, incoming: map<Path, Path>, targets: set<Path>, removes: set<Path>,
    g1: Files, g2: Files)
    requires aside.Values == targets * f.Keys && aside.Keys !! f.Keys && aside.Keys !! targets
    requires targets == incoming.Keys + removes && removes !! incoming.Keys
    requires incoming.Values <= f.Keys && incoming.Values !! targets
    requires g1 == RenamedAll(f, aside) && incoming.Values <= g1.Keys && g2 == RenamedAll(g1, incoming)
    ensures g2 - aside.Keys == RenamedAll(f, incoming) - removes
  {
    hide RenamedAll;
    var a, b := g2 - aside.Keys, RenamedAll(f, incoming) - removes;
    forall p: Path
      ensures p in a <==> p in b
      ensures p in a ==> a[p] == b[p]
    {
      SuccessPath(f, aside, incoming, targets, removes, g1, g2, p);
    }
  }

  lemma SuccessCommits(
    f: Files, moves: seq<Move>, removes: seq<Path>, moved: seq<Move>, g1: Files, g2: Files)
    requires NoDuplicates(moves, removes) && Sources(moves) !! Destinations(moves) + Elements(removes)
    requires var targets := Destinations(moves) + Elements(removes);
             AsideState(f, g1, moved, Sources(moves), targets, targets)
    requires PartlyRenamed(g1, g2, moves, |moves|)
    ensures Sources(moves) <= f.Keys && g2 - Destinations(moved) == Committed(f, moves, removes)
  {
    assert moves[..|moves|] == moves;
    NamesValues(moves);
    NamesValues(moved);
    forall p | p in Sources(moves)
      ensures p in f
    {
      RenamedAllAt(f, Names(moved), p);
    }
    SuccessFiles(f, Names(moved), Names(moves), Destinations(moves) + Elements(removes), Elements(removes), g1, g2);
  }

  /**
   Moves files into place and removes others, or abandons the new files and puts the old ones
   back. Unless a clean-up step fails, success gives every destination the content of its source
   and removes exactly the sources and the files to remove; failure, at whatever point, removes
   the sources and changes nothing else. No temporary file remains in either case. If the system
   denies no call, no clean-up step fails, and it succeeds exactly when all sources exist and no
   target is a directory.
   */
  method MoveAllOrAbandon(fs: FileSystem, moves: seq<Move>, removes: seq<Path>) returns (ok: bool)
    requires Acceptable(fs.files, fs.neverDrawn, moves, removes)
    modifies fs
    ensures ok ==> Sources(moves) <= old(fs.files).Keys
    ensures ok ==> NoDirectories(old(fs.files), Destinations(moves) + Elements(removes))
    ensures fs.Cooperative() && fs.NamesUnused(old(fs.files), Destinations(moves) + Elements(removes)) ==>
              Sources(moves) <= old(fs.files).Keys ==>
              (forall p :: p in Destinations(moves) + Elements(removes) && p in old(fs.files) ==>
                 old(fs.files)[p].Regular?) ==> ok
    ensures fs.Cooperative() ==> fs.cleanupFailed == old(fs.cleanupFailed)
    ensures ok && !fs.cleanupFailed ==> fs.files == Committed(old(fs.files), moves, removes)
    ensures !ok && !fs.cleanupFailed ==> fs.files == old(fs.files) - Sources(moves)
    ensures old(fs.cleanupFailed) ==> fs.cleanupFailed
  {
    hide Committed, PartlyRenamed, Discarded, RenamedAll;
    ghost var f, targets := fs.files, Destinations(moves) + Elements(removes);
    var all := Targets(moves, removes);
    TargetsDistinct(moves, removes);
    SourcesApart(moves, removes);
    var aside, moved, prefix := MoveOldFilesAside(fs, all, Sources(moves));
    ghost var g1 := RenamedAll(f, Names(moved));
    var committed: set<Path> := {};
    ghost var k := 0;
    if aside {
      var movedIn, files, n := MoveNewFilesIn(fs, moves);
      committed, k := files, n;
      if movedIn {
        SuccessCommits(f, moves, removes, moved, g1, fs.files);
        RemoveOldFiles(fs, moved);
        return true;
      }
      if Sources(moves) <= f.Keys {
        CanMoveIn(f, moves, targets, moved, k, g1, fs.files);
      }
    } else {
      NoneRenamed(g1, moves);
      assert committed == Destinations(moves[..k]);
    }
    ghost var g2 := fs.files;
    Abandon(fs, moves, committed);
    ghost var g3 := fs.files;
    SwappedDistinct(moved);
    if !fs.cleanupFailed {
      FailureCanMoveBack(f, moves, targets, moved, prefix, k, g1, g2, g3);
    }
    Restore(fs, moved);
    if !fs.cleanupFailed {
      FailureRestores(f, moves, targets, moved, prefix, k, g1, g2, g3, fs.files);
    }
    return false;
  }

  lemma SourcesApart(moves: seq<Move>, removes: seq<Path>)
    requires NoDuplicates(moves, removes)
    ensures Sources(moves) !! Destinations(moves) + Elements(removes)
  {
    SourcesNotDestinations(moves);
  }

  lemma {:induction false} SourcesNotDestinations(moves: seq<Move>)
    requires DistinctPairs(moves)
    ensures Sources(moves) !! Destinations(moves)
  {
    if moves != [] {
      SourcesNotDestinations(moves[..|moves| - 1]);
      LastMove(moves);
    }
  }

  lemma TargetsDistinct(moves: seq<Move>, removes: seq<Path>)
    requires NoDuplicates(moves, removes)
    ensures var all := Targets(moves, removes);
            forall i, j :: 0 <= i < j < |all| ==> all[i] != all[j]
  {
    var all := Targets(moves, removes);
    forall i, j | 0 <= i < j < |all|
      ensures all[i] != all[j]
    {
      if j < |moves| {
        DistinctSeconds(moves, i, j);
      } else if i < |moves| {
        assert all[i] in Destinations(moves) && all[j] in Elements(removes);
      }
    }
  }
}
