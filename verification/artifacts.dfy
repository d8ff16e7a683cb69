/**
 New files that are written under a temporary name until they are committed, and the two places
 that commit whole sets of compilation artifacts.
 */
module ArtifactCommit {
  import opened FileCommit

  /** A file under construction. Its descriptor is negative once the file is closed. */
  class NewFile {
    var fd: int
    const finalPath: Path
    var tempPath: Path
    var tempId: string
    /** Whether the system fails to give the file its mode and owner, and to close it. */
    const denied: bool
    const cannotClose: bool

    constructor (finalPath: Path)
      ensures this.finalPath == finalPath && fd == -1
    {
      this.finalPath, fd, tempPath, tempId := finalPath, -1, "", "";
    }

    /** Open, under the temporary name that its identifier stands for. */
    predicate IsOpen()
      reads this
    {
      fd >= 0 && |tempId| == 6 && tempPath == BuildTempPath(finalPath, tempId)
    }

    /** Creates the temporary file; even when a later step fails, an open file can be cleaned up. */
    method Init(fs: FileSystem) returns (ok: bool)
      requires fd == -1
      modifies this, fs`files, fs`calls
      ensures ok ==> IsOpen()
      ensures fs.Cooperative() && fs.NamesUnused(old(fs.files), {finalPath}) && !denied ==> ok
      ensures IsOpen() ==> tempPath !in old(fs.files) && fs.files == old(fs.files)[tempPath := Regular("")]
      ensures !IsOpen() ==> fs.files == old(fs.files) && fd == -1
    {
      var made, temp := fs.MakeTemp(finalPath);
      if !made {
        return false;
      }
      fd, tempPath := 0, temp;
      tempId := tempPath[|finalPath| + 1..|finalPath| + 7];
      assert tempPath == tempPath[..|finalPath|] + [tempPath[|finalPath|]]
                         + tempPath[|finalPath| + 1..|finalPath| + 7] + tempPath[|finalPath| + 7..];
      return !denied;
    }

    /** Closes the file and leaves it where it is; it will not be cleaned up afterwards. */
    method Keep() returns (ok: bool)
      modifies this`fd
      ensures fd == -1 && ok == !cannotClose
    {
      fd := -1;
      ok := !cannotClose;
    }

    /** Removes the file if it is still open. */
    method Cleanup(fs: FileSystem)
      modifies this`fd, fs
      ensures fd < 0 && (fs.Cooperative() ==> fs.cleanupFailed == old(fs.cleanupFailed))
      ensures old(fd) < 0 ==> fs.files == old(fs.files) && fs.cleanupFailed == old(fs.cleanupFailed)
      ensures old(fd) >= 0 && !fs.cleanupFailed ==> fs.files == old(fs.files) - {tempPath}
      ensures old(fs.cleanupFailed) ==> fs.cleanupFailed
    {
      if fd >= 0 {
        fs.UnlinkIfExists(tempPath);
        fd := -1;
      }
    }

    /** Puts this one file into place, or gives it up. */
    method CommitOrAbandon(fs: FileSystem) returns (ok: bool)
      modifies this`fd, fs
      ensures fd == -1 && (fs.Cooperative() ==> fs.cleanupFailed == old(fs.cleanupFailed))
      ensures fs.Cooperative() && !cannotClose && tempPath in old(fs.files) ==>
                finalPath !in old(fs.files) || old(fs.files)[finalPath].Regular? ==> ok
      ensures ok ==> tempPath in old(fs.files) && fs.files == Renamed(old(fs.files), tempPath, finalPath)
      ensures ok ==> fs.cleanupFailed == old(fs.cleanupFailed)
      ensures !ok && !fs.cleanupFailed ==> fs.files == old(fs.files) - {tempPath}
      ensures old(fs.cleanupFailed) ==> fs.cleanupFailed
    {
      ok := Keep();
      if ok {
        ok := fs.Rename(tempPath, finalPath);
      }
      if !ok {
        fs.UnlinkIfExists(tempPath);
      }
    }
  }

  function MovesOf(newFiles: seq<NewFile>): (moves: seq<Move>)
    reads newFiles
    ensures |moves| == |newFiles|
    ensures forall i :: 0 <= i < |moves| ==> moves[i] == (newFiles[i].tempPath, newFiles[i].finalPath)
  {
    if newFiles == [] then []
    else [(newFiles[0].tempPath, newFiles[0].finalPath)] + MovesOf(newFiles[1..])
  }

  /**
   Commits all new files and removes others, or gives all new files up and leaves the old ones.
   A file that cannot be closed makes the whole commit fail before anything is moved. If all can
   be closed and the system denies no call, the commit succeeds unless a new file is missing or a
   directory is in the way.
   */
  method CommitAllOrAbandon(fs: FileSystem, newFiles: seq<NewFile>, removes: seq<Path>) returns (ok: bool)
    requires Acceptable(fs.files, fs.neverDrawn, MovesOf(newFiles), removes)
    modifies fs, newFiles`fd
    ensures ok ==> Sources(old(MovesOf(newFiles))) <= old(fs.files).Keys
    ensures fs.Cooperative() ==> fs.cleanupFailed == old(fs.cleanupFailed)
    ensures var moves := old(MovesOf(newFiles));
            fs.Cooperative() && fs.NamesUnused(old(fs.files), Destinations(moves) + Elements(removes)) ==>
            (forall i :: 0 <= i < |newFiles| ==> !newFiles[i].cannotClose) ==> Sources(moves) <= old(fs.files).Keys ==>
            NoDirectories(old(fs.files), Destinations(moves) + Elements(removes)) ==> ok
    ensures ok && !fs.cleanupFailed ==> fs.files == Committed(old(fs.files), old(MovesOf(newFiles)), removes)
    ensures !ok && !fs.cleanupFailed ==> fs.files == old(fs.files) - Sources(old(MovesOf(newFiles)))
    ensures old(fs.cleanupFailed) ==> fs.cleanupFailed
  {
    ghost var moves := MovesOf(newFiles);
    var kept, filesToMove := KeepAll(newFiles);
    if !kept {
      UnlinkAll(fs, newFiles, moves);
      return false;
    }
    ok := MoveAllOrAbandon(fs, filesToMove, removes);
  }

  /** Closes the files in turn, stopping at the first that cannot be closed. */
  method KeepAll(newFiles: seq<NewFile>) returns (ok: bool, moves: seq<Move>)
    modifies newFiles`fd
    ensures ok ==> moves == old(MovesOf(newFiles))
    ensures ok <==> forall i :: 0 <= i < |newFiles| ==> !newFiles[i].cannotClose
    ensures ok ==> forall i :: 0 <= i < |newFiles| ==> newFiles[i].fd == -1
  {
    ghost var all := MovesOf(newFiles);
    moves := [];
    for i := 0 to |newFiles|
      invariant moves == all[..i]
      invariant forall j :: 0 <= j < i ==> newFiles[j].fd == -1 && !newFiles[j].cannotClose
    {
      ok := newFiles[i].Keep();
      if !ok {
        return;
      }
      moves := moves + [(newFiles[i].tempPath, newFiles[i].finalPath)];
    }
    ok := true;
  }

  method UnlinkAll(fs: FileSystem, newFiles: seq<NewFile>, ghost moves: seq<Move>)
    requires |moves| == |newFiles| && forall i :: 0 <= i < |moves| ==> moves[i].0 == newFiles[i].tempPath
    modifies fs
    ensures !fs.cleanupFailed ==> fs.files == old(fs.files) - Sources(moves)
    ensures old(fs.cleanupFailed) ==> fs.cleanupFailed
    ensures fs.Cooperative() ==> fs.cleanupFailed == old(fs.cleanupFailed)
  {
    ghost var f := fs.files;
    assert f == f - Sources(moves[..0]);
    for i := 0 to |newFiles|
      invariant !fs.cleanupFailed ==> fs.files == f - Sources(moves[..i])
      invariant fs.Cooperative() ==> fs.cleanupFailed == old(fs.cleanupFailed)
      invariant old(fs.cleanupFailed) ==> fs.cleanupFailed
    {
      fs.UnlinkIfExists(newFiles[i].tempPath);
      PrefixStep(moves, i);
    }
    assert moves[..|moves|] == moves;
  }

  // --- What a commit does to single paths ------------------------------------------------------------

  predicate SameAt(f: Files, f': Files, p: Path) {
    (p in f <==> p in f') && (p in f ==> f'[p] == f[p])
  }

  lemma CommittedAt(f: Files, moves: seq<Move>, removes: seq<Path>, mv: Move)
    requires NoDuplicates(moves, removes) && Sources(moves) <= f.Keys && mv in moves
    ensures mv.0 in f && mv.1 in Committed(f, moves, removes) && Committed(f, moves, removes)[mv.1] == f[mv.0]
  {
    var i :| 0 <= i < |moves| && moves[i] == mv;
    NamesAt(moves, i);
    NamesValues(moves);
    assert mv.0 in Sources(moves) && mv.1 in Destinations(moves);
    RenamedAllAt(f, Names(moves), mv.1);
  }

  lemma CommittedRemoved(f: Files, moves: seq<Move>, removes: seq<Path>, p: Path)
    requires NoDuplicates(moves, removes) && Sources(moves) <= f.Keys && p in removes
    ensures p !in Committed(f, moves, removes)
  {
  }

  lemma CommittedElsewhere(f: Files, moves: seq<Move>, removes: seq<Path>, p: Path)
    requires NoDuplicates(moves, removes) && Sources(moves) <= f.Keys
    ensures p in Sources(moves) ==> p !in Committed(f, moves, removes)
    ensures p !in Sources(moves) && p !in Destinations(moves) && p !in Elements(removes) ==>
              SameAt(f, Committed(f, moves, removes), p)
  {
    SourcesApart(moves, removes);
    NamesValues(moves);
    RenamedAllAt(f, Names(moves), p);
  }

  // --- Artifact sets -----------------------------------------------------------------------------------

  datatype Artifacts = Artifacts(oat: Path, vdex: Path, art: Path)

  /** Nothing about the set has changed. */
  predicate OldSet(f: Files, f': Files, dst: Artifacts) {
    SameAt(f, f', dst.oat) && SameAt(f, f', dst.vdex) && SameAt(f, f', dst.art)
  }

  /** The set consists of the new files, with an image file exactly if there is a new one. */
  predicate NewSet(f: Files, f': Files, src: Artifacts, hasArt: bool, dst: Artifacts) {
    && src.oat in f && dst.oat in f' && f'[dst.oat] == f[src.oat]
    && src.vdex in f && dst.vdex in f' && f'[dst.vdex] == f[src.vdex]
    && if hasArt then src.art in f && dst.art in f' && f'[dst.art] == f[src.art] else dst.art !in f'
  }

  /** The new files of a compilation: code and verification data, and perhaps an image. */
  function NewFiles(oat: NewFile, vdex: NewFile, art: NewFile?): seq<NewFile> {
    if art == null then [oat, vdex] else [oat, vdex, art]
  }

  function OutdatedFiles(art: NewFile?, artPath: Path): seq<Path> {
    if art == null then [artPath] else []
  }

  /** The end of `dexopt`: commits the compiler's output, and removes an image that is out of date. */
  method CommitDexopt(fs: FileSystem, oat: NewFile, vdex: NewFile, art: NewFile?, artPath: Path) returns (ok: bool)
    requires art != null ==> art.finalPath == artPath
    requires Acceptable(fs.files, fs.neverDrawn, MovesOf(NewFiles(oat, vdex, art)), OutdatedFiles(art, artPath))
    modifies fs, NewFiles(oat, vdex, art)`fd
    ensures var src := Artifacts(oat.tempPath, vdex.tempPath, if art == null then "" else art.tempPath);
            var dst := Artifacts(oat.finalPath, vdex.finalPath, artPath);
            && (ok && !fs.cleanupFailed ==> NewSet(old(fs.files), fs.files, src, art != null, dst))
            && (!ok && !fs.cleanupFailed ==> OldSet(old(fs.files), fs.files, dst))
    ensures fs.Cooperative() ==> fs.cleanupFailed == old(fs.cleanupFailed)
    ensures var dsts := {oat.finalPath, vdex.finalPath, artPath};
            fs.Cooperative() && fs.NamesUnused(old(fs.files), dsts) && NoDirectories(old(fs.files), dsts) ==>
            (forall n :: n in NewFiles(oat, vdex, art) ==> !n.cannotClose && n.tempPath in old(fs.files)) ==> ok
  {
    hide Committed, NoDuplicates, TempNamesApart, NewSet, OldSet, NoDirectories, DexoptMoves, Destinations, Sources,
      MovesOf;
    var filesToCommit := [oat, vdex];
    var filesToDelete: seq<Path> := [];
    if art != null {
      filesToCommit := filesToCommit + [art];
    } else {
      filesToDelete := filesToDelete + [artPath];
    }
    assert filesToCommit == NewFiles(oat, vdex, art) && filesToDelete == OutdatedFiles(art, artPath);
    ghost var f, moves := fs.files, MovesOf(filesToCommit);
    ghost var src := Artifacts(oat.tempPath, vdex.tempPath, if art == null then "" else art.tempPath);
    DexoptIsMoves(oat, vdex, art, artPath, src);
    DexoptPaths(src, art != null, Artifacts(oat.finalPath, vdex.finalPath, artPath));
    assert filesToCommit[0] == oat && filesToCommit[1] == vdex && (art != null ==> filesToCommit[2] == art);
    assert oat in filesToCommit && vdex in filesToCommit && (art != null ==> art in filesToCommit);
    assert forall i :: 0 <= i < |filesToCommit| ==> filesToCommit[i] in NewFiles(oat, vdex, art);
    ok := CommitAllOrAbandon(fs, filesToCommit, filesToDelete);
    if !fs.cleanupFailed {
      DexoptOutcome(f, fs.files, src, art != null, Artifacts(oat.finalPath, vdex.finalPath, artPath), ok);
    }
  }

  ghost function DexoptMoves(src: Artifacts, hasArt: bool, dst: Artifacts): seq<Move> {
    [(src.oat, dst.oat), (src.vdex, dst.vdex)] + if hasArt then [(src.art, dst.art)] else []
  }

  lemma DexoptIsMoves(oat: NewFile, vdex: NewFile, art: NewFile?, artPath: Path, src: Artifacts)
    requires art != null ==> art.finalPath == artPath
    requires src == Artifacts(oat.tempPath, vdex.tempPath, if art == null then "" else art.tempPath)
    ensures MovesOf(NewFiles(oat, vdex, art)) ==
            DexoptMoves(src, art != null, Artifacts(oat.finalPath, vdex.finalPath, artPath))
  {
  }

  lemma DexoptPaths(src: Artifacts, hasArt: bool, dst: Artifacts)
    ensures var moves, removes := DexoptMoves(src, hasArt, dst), if hasArt then [] else [dst.art];
            && Sources(moves) == {src.oat, src.vdex} + (if hasArt then {src.art} else {})
            && Destinations(moves) + Elements(removes) == {dst.oat, dst.vdex, dst.art}
  {
    var moves, removes := DexoptMoves(src, hasArt, dst), if hasArt then [] else [dst.art];
    assert moves[0] == (src.oat, dst.oat) && moves[1] == (src.vdex, dst.vdex);
    assert hasArt ==> moves[2] == (src.art, dst.art);
    assert !hasArt ==> removes[0] == dst.art;
  }

  lemma DexoptOutcome(f: Files, f': Files, src: Artifacts, hasArt: bool, dst: Artifacts, ok: bool)
    requires var moves, removes := DexoptMoves(src, hasArt, dst), if hasArt then [] else [dst.art];
             && NoDuplicates(moves, removes)
             && (ok ==> Sources(moves) <= f.Keys && f' == Committed(f, moves, removes))
             && (!ok ==> f' == f - Sources(moves))
    ensures if ok then NewSet(f, f', src, hasArt, dst) else OldSet(f, f', dst)
  {
    var moves, removes := DexoptMoves(src, hasArt, dst), if hasArt then [] else [dst.art];
    assert moves[0] == (src.oat, dst.oat) && moves[1] == (src.vdex, dst.vdex);
    assert hasArt ==> moves[2] == (src.art, dst.art);
    assert !hasArt ==> removes[0] == dst.art;
    SetOutcome(f, f', src, hasArt, dst, moves, removes, ok);
  }

  /** A set that is listed for a commit ends up new on success and old on failure. */
  lemma SetOutcome(
    f: Files, f': Files, src: Artifacts, hasArt: bool, dst: Artifacts,
    moves: seq<Move>, removes: seq<Path>, ok: bool)
    requires NoDuplicates(moves, removes)
    requires ok ==> Sources(moves) <= f.Keys && f' == Committed(f, moves, removes)
    requires !ok ==> f' == f - Sources(moves)
    requires (src.oat, dst.oat) in moves && (src.vdex, dst.vdex) in moves
    requires if hasArt then (src.art, dst.art) in moves else dst.art in removes
    ensures if ok then NewSet(f, f', src, hasArt, dst) else OldSet(f, f', dst)
  {
    SourcesApart(moves, removes);
    if ok {
      CommittedAt(f, moves, removes, (src.oat, dst.oat));
      CommittedAt(f, moves, removes, (src.vdex, dst.vdex));
      if hasArt {
        CommittedAt(f, moves, removes, (src.art, dst.art));
      } else {
        CommittedRemoved(f, moves, removes, dst.art);
      }
    } else {
      IsDestination(moves, (src.oat, dst.oat));
      IsDestination(moves, (src.vdex, dst.vdex));
      if hasArt {
        IsDestination(moves, (src.art, dst.art));
      } else {
        assert dst.art in Elements(removes);
      }
    }
  }

  lemma IsDestination(moves: seq<Move>, mv: Move)
    requires mv in moves
    ensures mv.1 in Destinations(moves)
  {
  }

  // --- Staged files ------------------------------------------------------------------------------------

  /** Where a set of artifacts was staged before a reboot, and where it belongs. */
  datatype Staged = Staged(src: Artifacts, dst: Artifacts)

  function SetMoves(f: Files, s: Staged): seq<Move> {
    if s.src.oat !in f then []
    else [(s.src.oat, s.dst.oat), (s.src.vdex, s.dst.vdex)]
         + if s.src.art in f then [(s.src.art, s.dst.art)] else []
  }

  function SetRemoves(f: Files, s: Staged): seq<Path> {
    if s.src.oat in f && s.src.art !in f then [s.dst.art] else []
  }

  function ArtifactMoves(f: Files, sets: seq<Staged>): seq<Move> {
    if sets == [] then []
    else ArtifactMoves(f, sets[..|sets| - 1]) + SetMoves(f, sets[|sets| - 1])
  }

  function ArtifactRemoves(f: Files, sets: seq<Staged>): seq<Path> {
    if sets == [] then []
    else ArtifactRemoves(f, sets[..|sets| - 1]) + SetRemoves(f, sets[|sets| - 1])
  }

  function ProfileMoves(f: Files, profiles: seq<Move>): seq<Move> {
    if profiles == [] then []
    else
      var n := |profiles| - 1;
      ProfileMoves(f, profiles[..n]) + if profiles[n].0 in f then [profiles[n]] else []
  }

  lemma {:induction false} StagedSetListed(f: Files, sets: seq<Staged>, s: Staged)
    requires s in sets && s.src.oat in f
    ensures (s.src.oat, s.dst.oat) in ArtifactMoves(f, sets) && (s.src.vdex, s.dst.vdex) in ArtifactMoves(f, sets)
    ensures s.src.art in f ==> (s.src.art, s.dst.art) in ArtifactMoves(f, sets)
    ensures s.src.art !in f ==> s.dst.art in ArtifactRemoves(f, sets)
    decreases |sets|
  {
    var n := |sets| - 1;
    if s == sets[n] {
      var own := SetMoves(f, s);
      assert own[0] == (s.src.oat, s.dst.oat) && own[1] == (s.src.vdex, s.dst.vdex);
      assert s.src.art in f ==> own[2] == (s.src.art, s.dst.art);
      assert s.src.art !in f ==> SetRemoves(f, s)[0] == s.dst.art;
    } else {
      assert s in sets[..n];
      StagedSetListed(f, sets[..n], s);
    }
  }

  function StagedMoves(f: Files, sets: seq<Staged>, profiles: seq<Move>): seq<Move> {
    ArtifactMoves(f, sets) + ProfileMoves(f, profiles)
  }

  /** The path of a staged file that is to be committed: artifacts come with their code file. */
  predicate FromSet(f: Files, s: Staged, p: Path) {
    s.src.oat in f && (p == s.src.oat || p == s.src.vdex || (p == s.src.art && p in f))
  }

  predicate IntoSet(f: Files, s: Staged, p: Path) {
    s.src.oat in f && (p == s.dst.oat || p == s.dst.vdex || p == s.dst.art)
  }

  ghost predicate IsStaged(f: Files, sets: seq<Staged>, profiles: seq<Move>, p: Path) {
    (exists s :: s in sets && FromSet(f, s, p)) || (exists mv :: mv in profiles && mv.0 in f && mv.0 == p)
  }

  /** The path of a file that a commit replaces or removes. */
  ghost predicate IsReplaced(f: Files, sets: seq<Staged>, profiles: seq<Move>, p: Path) {
    (exists s :: s in sets && IntoSet(f, s, p)) || (exists mv :: mv in profiles && mv.0 in f && mv.1 == p)
  }

  lemma Concatenated(a: seq<Move>, b: seq<Move>)
    ensures Sources(a + b) == Sources(a) + Sources(b)
    ensures Destinations(a + b) == Destinations(a) + Destinations(b)
  {
    forall p | p in Sources(b)
      ensures p in Sources(a + b)
    {
      var i :| 0 <= i < |b| && b[i].0 == p;
      assert (a + b)[|a| + i] == b[i];
    }
    forall p | p in Destinations(b)
      ensures p in Destinations(a + b)
    {
      var i :| 0 <= i < |b| && b[i].1 == p;
      assert (a + b)[|a| + i] == b[i];
    }
    assert forall i :: 0 <= i < |a| ==> (a + b)[i] == a[i];
  }

  lemma ConcatenatedPaths(a: seq<Path>, b: seq<Path>)
    ensures Elements(a + b) == Elements(a) + Elements(b)
  {
    forall p | p in Elements(b)
      ensures p in Elements(a + b)
    {
      var i :| 0 <= i < |b| && b[i] == p;
      assert (a + b)[|a| + i] == p;
    }
    assert forall i :: 0 <= i < |a| ==> (a + b)[i] == a[i];
  }

  lemma SetPaths(f: Files, s: Staged, p: Path)
    ensures p in Sources(SetMoves(f, s)) <==> FromSet(f, s, p)
    ensures p in Destinations(SetMoves(f, s)) || p in Elements(SetRemoves(f, s)) <==> IntoSet(f, s, p)
  {
    if s.src.oat in f {
      var moves, removes := SetMoves(f, s), SetRemoves(f, s);
      assert moves[0] == (s.src.oat, s.dst.oat) && moves[1] == (s.src.vdex, s.dst.vdex);
      if s.src.art in f {
        assert moves[2] == (s.src.art, s.dst.art);
      } else {
        assert removes[0] == s.dst.art;
      }
    }
  }

  lemma {:induction false} ArtifactPaths(f: Files, sets: seq<Staged>, p: Path)
    ensures p in Sources(ArtifactMoves(f, sets)) <==> exists s :: s in sets && FromSet(f, s, p)
    ensures p in Destinations(ArtifactMoves(f, sets)) || p in Elements(ArtifactRemoves(f, sets)) <==>
            exists s :: s in sets && IntoSet(f, s, p)
  {
    hide FromSet, IntoSet, SetMoves, SetRemoves;
    if sets != [] {
      var before, last := sets[..|sets| - 1], sets[|sets| - 1];
      ArtifactPaths(f, before, p);
      SetPaths(f, last, p);
      Concatenated(ArtifactMoves(f, before), SetMoves(f, last));
      ConcatenatedPaths(ArtifactRemoves(f, before), SetRemoves(f, last));
      assert forall s :: s in sets <==> s in before || s == last;
    }
  }

  lemma {:induction false} ProfilePaths(f: Files, profiles: seq<Move>, p: Path)
    ensures p in Sources(ProfileMoves(f, profiles)) <==> exists mv :: mv in profiles && mv.0 in f && mv.0 == p
    ensures p in Destinations(ProfileMoves(f, profiles)) <==> exists mv :: mv in profiles && mv.0 in f && mv.1 == p
  {
    if profiles != [] {
      var before, last := profiles[..|profiles| - 1], profiles[|profiles| - 1];
      ProfilePaths(f, before, p);
      var own := if last.0 in f then [last] else [];
      Concatenated(ProfileMoves(f, before), own);
      assert own != [] ==> own[0] == last;
      assert forall mv :: mv in profiles <==> mv in before || mv == last;
    }
  }

  lemma StagedPaths(f: Files, sets: seq<Staged>, profiles: seq<Move>, p: Path)
    ensures p in Sources(StagedMoves(f, sets, profiles)) <==> IsStaged(f, sets, profiles, p)
    ensures p in Destinations(StagedMoves(f, sets, profiles)) || p in Elements(ArtifactRemoves(f, sets)) <==>
            IsReplaced(f, sets, profiles, p)
  {
    ArtifactPaths(f, sets, p);
    ProfilePaths(f, profiles, p);
    Concatenated(ArtifactMoves(f, sets), ProfileMoves(f, profiles));
  }

  lemma {:induction false} ProfileListed(f: Files, profiles: seq<Move>, mv: Move)
    requires mv in profiles && mv.0 in f
    ensures mv in ProfileMoves(f, profiles)
  {
    var n := |profiles| - 1;
    if mv != profiles[n] {
      ProfileListed(f, profiles[..n], mv);
    }
  }

  lemma AnythingStaged(f: Files, sets: seq<Staged>, profiles: seq<Move>)
    ensures StagedMoves(f, sets, profiles) != [] <==> exists p :: IsStaged(f, sets, profiles, p)
  {
    var moves := StagedMoves(f, sets, profiles);
    if moves != [] {
      assert moves[0].0 in Sources(moves);
      StagedPaths(f, sets, profiles, moves[0].0);
    }
    if p :| IsStaged(f, sets, profiles, p) {
      StagedPaths(f, sets, profiles, p);
    }
  }

  /**
   Every set whose code file was staged is wholly new on success and wholly old on failure, and so
   is every staged profile. The staged files are gone, and no path that takes no part, on failure
   no other path at all, has changed.
   */
  ghost predicate StagedResult(f: Files, f': Files, sets: seq<Staged>, profiles: seq<Move>, ok: bool) {
    && (forall s :: s in sets && s.src.oat in f ==>
          if ok then NewSet(f, f', s.src, s.src.art in f, s.dst) else OldSet(f, f', s.dst))
    && (forall mv :: mv in profiles && mv.0 in f ==>
          if ok then mv.1 in f' && f'[mv.1] == f[mv.0] else SameAt(f, f', mv.1))
    && (forall p :: IsStaged(f, sets, profiles, p) ==> p !in f')
    && (forall p :: !IsStaged(f, sets, profiles, p) && !(ok && IsReplaced(f, sets, profiles, p)) ==> SameAt(f, f', p))
  }

  /**
   Commits everything staged before the reboot. Unless a clean-up step fails, either nothing but
   the staged files changes, or every set whose code file was staged is wholly the new one and
   every staged profile is in place. If the system denies no call, this fails only if a staged code
   file lacks its verification data or a directory is in the way. The result says whether there was
   anything to commit.
   */
  method CommitPreRebootStagedFiles(fs: FileSystem, sets: seq<Staged>, profiles: seq<Move>)
    returns (ok: bool, any: bool)
    requires Acceptable(
               fs.files, fs.neverDrawn, StagedMoves(fs.files, sets, profiles), ArtifactRemoves(fs.files, sets))
    modifies fs
    ensures !fs.cleanupFailed ==> StagedResult(old(fs.files), fs.files, sets, profiles, ok)
    ensures fs.Cooperative() ==> fs.cleanupFailed == old(fs.cleanupFailed)
    ensures fs.Cooperative() && NothingInTheWay(fs, old(fs.files), sets, profiles) ==> ok
    ensures any <==> exists p :: IsStaged(old(fs.files), sets, profiles, p)
  {
    hide StagedMoves, ArtifactMoves, ArtifactRemoves, NoDuplicates, TempNamesApart, Committed, StagedResult,
      IsStaged, NothingInTheWay;
    ghost var f := fs.files;
    AnythingStaged(f, sets, profiles);
    if NothingInTheWay(fs, f, sets, profiles) {
      StagedCanCommit(fs, f, sets, profiles);
    }
    var filesToMove, filesToRemove := SelectArtifacts(fs.files, sets);
    filesToMove := SelectProfiles(fs.files, sets, profiles, filesToMove);
    ok := MoveAllOrAbandon(fs, filesToMove, filesToRemove);
    any := |filesToMove| > 0;
    if !fs.cleanupFailed {
      StagedOutcome(f, fs.files, sets, profiles, ok);
    }
  }

  /** Staged code files have their verification data, no target is a directory, and there are names to use. */
  ghost predicate NothingInTheWay(fs: FileSystem, f: Files, sets: seq<Staged>, profiles: seq<Move>) {
    && (forall s :: s in sets && s.src.oat in f ==> s.src.vdex in f)
    && (forall p :: IsReplaced(f, sets, profiles, p) ==> fs.NamesUnused(f, {p}) && (p in f ==> f[p].Regular?))
  }

  lemma StagedCanCommit(fs: FileSystem, f: Files, sets: seq<Staged>, profiles: seq<Move>)
    requires NothingInTheWay(fs, f, sets, profiles)
    ensures var moves, removes := StagedMoves(f, sets, profiles), ArtifactRemoves(f, sets);
            && Sources(moves) <= f.Keys
            && fs.NamesUnused(f, Destinations(moves) + Elements(removes))
            && (forall p :: p in Destinations(moves) + Elements(removes) && p in f ==> f[p].Regular?)
  {
    hide StagedMoves, ArtifactRemoves;
    forall p: Path {
      StagedPaths(f, sets, profiles, p);
    }
    var paths := Destinations(StagedMoves(f, sets, profiles)) + Elements(ArtifactRemoves(f, sets));
    forall n: nat, p | p in paths
      ensures fs.Usable(f, p, fs.draws(n))
    {
      assert fs.NamesUnused(f, {p});
    }
  }

  /** Picks the sets whose code file exists; an image that was not staged is to be removed. */
  method SelectArtifacts(f: Files, sets: seq<Staged>) returns (moves: seq<Move>, removes: seq<Path>)
    ensures moves == ArtifactMoves(f, sets) && removes == ArtifactRemoves(f, sets)
  {
    moves, removes := [], [];
    for i := 0 to |sets|
      invariant moves == ArtifactMoves(f, sets[..i]) && removes == ArtifactRemoves(f, sets[..i])
    {
      var Staged(src, dst) := sets[i];
      assert sets[..i + 1][..i] == sets[..i];
      if src.oat in f {
        moves := moves + [(src.oat, dst.oat)];
        moves := moves + [(src.vdex, dst.vdex)];
        if src.art in f {
          moves := moves + [(src.art, dst.art)];
        } else {
          removes := removes + [dst.art];
        }
      }
    }
    assert sets[..|sets|] == sets;
  }

  method SelectProfiles(f: Files, ghost sets: seq<Staged>, profiles: seq<Move>, artifactMoves: seq<Move>)
    returns (moves: seq<Move>)
    requires artifactMoves == ArtifactMoves(f, sets)
    ensures moves == StagedMoves(f, sets, profiles)
  {
    moves := artifactMoves;
    for i := 0 to |profiles|
      invariant moves == artifactMoves + ProfileMoves(f, profiles[..i])
    {
      assert profiles[..i + 1][..i] == profiles[..i];
      if profiles[i].0 in f {
        moves := moves + [profiles[i]];
      }
    }
    assert profiles[..|profiles|] == profiles;
  }

  lemma StagedOutcome(f: Files, f': Files, sets: seq<Staged>, profiles: seq<Move>, ok: bool)
    requires var moves, removes := StagedMoves(f, sets, profiles), ArtifactRemoves(f, sets);
             && NoDuplicates(moves, removes)
             && (ok ==> Sources(moves) <= f.Keys && f' == Committed(f, moves, removes))
             && (!ok ==> f' == f - Sources(moves))
    ensures StagedResult(f, f', sets, profiles, ok)
  {
    hide IsStaged, IsReplaced, NoDuplicates, Committed;
    var moves, removes := StagedMoves(f, sets, profiles), ArtifactRemoves(f, sets);
    SourcesApart(moves, removes);
    forall s | s in sets && s.src.oat in f
      ensures if ok then NewSet(f, f', s.src, s.src.art in f, s.dst) else OldSet(f, f', s.dst)
    {
      StagedSetListed(f, sets, s);
      SetOutcome(f, f', s.src, s.src.art in f, s.dst, moves, removes, ok);
    }
    forall mv | mv in profiles && mv.0 in f
      ensures if ok then mv.1 in f' && f'[mv.1] == f[mv.0] else SameAt(f, f', mv.1)
    {
      ProfileListed(f, profiles, mv);
      IsDestination(moves, mv);
      if ok {
        CommittedAt(f, moves, removes, mv);
      }
    }
    forall p: Path
      ensures IsStaged(f, sets, profiles, p) ==> p !in f'
      ensures !IsStaged(f, sets, profiles, p) && !(ok && IsReplaced(f, sets, profiles, p)) ==> SameAt(f, f', p)
    {
      StagedPaths(f, sets, profiles, p);
      if ok {
        CommittedElsewhere(f, moves, removes, p);
      }
    }
  }
}
