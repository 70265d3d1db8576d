/**
 * The program's driver (`main`): resolve the destination and the new name,
 * discover the candidates, and rename each of them, either next to itself or
 * into one shared destination directory.
 */
module Pipeline {
  import opened Wrappers
  import opened Paths
  import opened Dicom
  import opened Discovery
  import opened Batch

  /** The validated command line: `--src`, `--dst`, `--name`, `--in-place`, `--all-dicoms`. */
  datatype Config = Config(src: string, dst: Option<string>, name: Option<string>, inPlace: bool, allDicoms: bool)

  /** `get_dst_dir`: an explicit destination verbatim, else `parent\folder_anonymous`. */
  function DstDir(dst: Option<string>, parent: string, folder: string): (r: string)
    ensures dst.Some? ==> r == dst.value
    ensures dst.None? ==> r == Join(parent, folder + "_anonymous")
  {
    match dst
    case Some(v) => v
    case None => parent + "\\" + folder + "_anonymous"
  }

  /** `get_new_name`: the given name, or the empty string. */
  function NewName(name: Option<string>): (r: string)
    ensures name.None? ==> r == ""
    ensures name.Some? ==> r == name.value
  {
    match name
    case Some(v) => v
    case None => ""
  }

  /** A component followed by a component is one component. */
  lemma ComponentConcat(a: string, b: string)
    requires IsComponent(a) && IsComponent(b)
    ensures IsComponent(a + b)
  {
    assert forall i :: 0 <= i < |a + b| ==> (a + b)[i] == if i < |a| then a[i] else b[i - |a|];
  }

  /**
   * Without `--dst` the destination is a sibling of the source folder, named
   * after it with `_anonymous` appended; for a backslash-separated source it
   * is the source path with `_anonymous` appended.
   */
  lemma DerivedDestinationIsSibling(src: string)
    requires SplitPath(src).Some?
    ensures var s := SplitPath(src).value;
      SplitPath(DstDir(None, s.parent, s.name)) == Some(Split(s.parent, s.name + "_anonymous"))
      && (BackslashSeparated(src) ==> DstDir(None, s.parent, s.name) == src + "_anonymous")
  {
    var s := SplitPath(src).value;
    SplitNameIsComponent(src);
    assert IsComponent("_anonymous");
    ComponentConcat(s.name, "_anonymous");
    var n := s.name + "_anonymous";
    assert n != ".." by { assert |n| > 2; }
    assert n != "";
    SplitJoin(s.parent, n);
    if BackslashSeparated(src) {
      JoinSplit(src);
    }
  }

  /** The decimal digits of n, as `{}` formats an integer. */
  function Decimal(n: nat): string
  {
    if n < 10 then ["0123456789"[n]] else Decimal(n / 10) + ["0123456789"[n % 10]]
  }

  function FoundLine(count: nat): string { "number of dicoms found: " + Decimal(count) }

  const NothingFoundLine: string := "problem: This folder doesn't have dicom images!"

  function StoredAtLine(dir: string): string { "anonymized dicoms stored at: " + dir }

  /** `--all-dicoms` walks the whole tree; otherwise only the source folder is listed. */
  function Discover(cfg: Config, listing: seq<DirItem>, walk: seq<DirItem>): Option<seq<string>>
  {
    if cfg.allDicoms then Some(RecursiveDicoms(walk)) else ShallowDicoms(listing)
  }

  /** Every discovered path has a file name, so the loops never panic on `file_name().unwrap()`. */
  lemma DiscoveredNameable(cfg: Config, listing: seq<DirItem>, walk: seq<DirItem>)
    requires Discover(cfg, listing, walk).Some?
    ensures Nameable(Discover(cfg, listing, walk).value)
  {
    if cfg.allDicoms {
      forall item | RecursiveMatch(item) ensures item.Listed? && SplitPath(item.path).Some? {
      }
      KeptHaveNames(walk, RecursiveMatch);
    } else {
      forall item | ShallowMatch(item) ensures item.Listed? && SplitPath(item.path).Some? {
        ShallowMatchHasName(item);
      }
      KeptHaveNames(listing, ShallowMatch);
    }
  }

  /** Where the batch writes: in place or with `--all-dicoms` next to each file, else into the destination. */
  function TargetOf(cfg: Config, src: Split): Target
  {
    if cfg.inPlace || cfg.allDicoms then OwnParent else SharedDir(DstDir(cfg.dst, src.parent, src.name))
  }

  /** What the run does once the candidates are known. */
  function AfterDiscovery(cfg: Config, src: Split, found: seq<string>, w: World): Progress
    requires |found| > 0 ==> Nameable(found)
  {
    if |found| == 0 then Start(Emit(Emit(w, FoundLine(0)), NothingFoundLine))
    else Loop(Start(LoopStart(cfg, src, found, w)), CandidatesOf(found), TargetOf(cfg, src), NewName(cfg.name))
  }

  /**
   * The world the batch loop starts from: the count and the target printed,
   * and, for a shared destination, that directory created if nothing is there.
   */
  function LoopStart(cfg: Config, src: Split, found: seq<string>, w: World): World
  {
    var counted := Emit(w, FoundLine(|found|));
    match TargetOf(cfg, src)
    case OwnParent => Emit(counted, StoredAtLine(cfg.src))
    case SharedDir(dst) => CreateIfAbsent(Emit(counted, StoredAtLine(dst)), dst)
  }

  /**
   * The whole run on a world `w`, given the source folder's listing and
   * walk. `aborted` means the program panicked: on a source path without a
   * file name, on an unreadable listing, or at a candidate that does not open.
   */
  function Program(cfg: Config, listing: seq<DirItem>, walk: seq<DirItem>, w: World): Progress
  {
    match SplitPath(cfg.src)
    case None => Progress(w, 0, true)
    case Some(src) =>
      match Discover(cfg, listing, walk)
      case None => Progress(w, 0, true)
      case Some(found) =>
        DiscoveredNameable(cfg, listing, walk);
        AfterDiscovery(cfg, src, found, w)
  }

  /**
   * A run that panics before its loop, or finds nothing, writes no file and
   * creates no directory. Panicking there, it prints nothing and leaves the
   * world as it was; finding nothing, it prints the count and the complaint
   * and ends normally.
   */
  lemma NoCandidatesNoChanges(cfg: Config, listing: seq<DirItem>, walk: seq<DirItem>, w: World)
    requires SplitPath(cfg.src).None? || Discover(cfg, listing, walk).None? || Discover(cfg, listing, walk) == Some([])
    ensures var r := Program(cfg, listing, walk, w);
      r.world.files == w.files && r.world.others == w.others && r.world.dirs == w.dirs
      && r.world.ops == w.ops && r.done == 0
    ensures SplitPath(cfg.src).None? || Discover(cfg, listing, walk).None? ==>
      Program(cfg, listing, walk, w) == Progress(w, 0, true)
    ensures SplitPath(cfg.src).Some? && Discover(cfg, listing, walk) == Some([]) ==>
      var r := Program(cfg, listing, walk, w);
      !r.aborted && r.world.console == w.console + ["number of dicoms found: 0", NothingFoundLine]
  {
    if SplitPath(cfg.src).Some? && Discover(cfg, listing, walk) == Some([]) {
      assert Decimal(0) == "0";
      assert FoundLine(0) == "number of dicoms found: 0";
    }
  }

  /**
   * In place, and with `--all-dicoms`, every renamed candidate is written
   * next to itself: the directories stay as they were, and the filesystem
   * log is one write per renamed candidate, in discovery order.
   */
  lemma OwnParentRun(cfg: Config, listing: seq<DirItem>, walk: seq<DirItem>, w: World, found: seq<string>)
    requires SplitPath(cfg.src).Some? && Discover(cfg, listing, walk) == Some(found) && |found| > 0
    requires cfg.inPlace || cfg.allDicoms
    ensures Nameable(found)
    ensures var r := Program(cfg, listing, walk, w);
      var cands := CandidatesOf(found);
      r.done <= |cands|
      && r.world.dirs == w.dirs
      && r.world.ops == w.ops + Writes(cands[..r.done], OwnParent)
      && r.world.console == w.console + [FoundLine(|found|), StoredAtLine(cfg.src)]
                            + StatusLines(cands[..r.done], NewName(cfg.name))
  {
    DiscoveredNameable(cfg, listing, walk);
    var start := Emit(Emit(w, FoundLine(|found|)), StoredAtLine(cfg.src));
    var cands := CandidatesOf(found);
    var newName := NewName(cfg.name);
    assert RunTarget(cfg) == OwnParent;
    assert LoopStart(cfg, SplitPath(cfg.src).value, found, w) == start;
    ProgramIsLoop(cfg, listing, walk, w, found);
    RunKeepsDirs(start, cands, OwnParent, newName);
    RunLog(start, cands, OwnParent, newName);
    var r := Loop(Start(start), cands, OwnParent, newName);
    var lines := [FoundLine(|found|), StoredAtLine(cfg.src)];
    assert start.console == w.console + lines;
    assert r.world.console == w.console + lines + StatusLines(cands[..r.done], newName);
  }

  /**
   * Into a shared destination, the destination is created once, only if
   * nothing was there, before any write; then one write per renamed
   * candidate follows, in discovery order, each to the destination joined with the file name.
   */
  lemma SharedDirRun(cfg: Config, listing: seq<DirItem>, walk: seq<DirItem>, w: World, found: seq<string>)
    requires SplitPath(cfg.src).Some? && Discover(cfg, listing, walk) == Some(found) && |found| > 0
    requires !cfg.inPlace && !cfg.allDicoms
    ensures Nameable(found)
    ensures var r := Program(cfg, listing, walk, w);
      var src := SplitPath(cfg.src).value;
      var dst := DstDir(cfg.dst, src.parent, src.name);
      var cands := CandidatesOf(found);
      var created := if Exists(w, dst) then [] else [MakeDir(dst)];
      r.done <= |cands|
      && r.world.dirs == w.dirs + (if Exists(w, dst) then {} else {dst})
      && r.world.ops == w.ops + created + Writes(cands[..r.done], SharedDir(dst))
      && r.world.console == w.console + [FoundLine(|found|), StoredAtLine(dst)]
                            + StatusLines(cands[..r.done], NewName(cfg.name))
  {
    DiscoveredNameable(cfg, listing, walk);
    var src := SplitPath(cfg.src).value;
    var dst := DstDir(cfg.dst, src.parent, src.name);
    var announced := Emit(Emit(w, FoundLine(|found|)), StoredAtLine(dst));
    assert Exists(announced, dst) == Exists(w, dst);
    var start := CreateIfAbsent(announced, dst);
    var created := if Exists(w, dst) then [] else [MakeDir(dst)];
    assert start.ops == w.ops + created;
    assert start.dirs == w.dirs + (if Exists(w, dst) then {} else {dst});
    var cands := CandidatesOf(found);
    var newName := NewName(cfg.name);
    assert RunTarget(cfg) == SharedDir(dst);
    assert LoopStart(cfg, SplitPath(cfg.src).value, found, w) == start;
    ProgramIsLoop(cfg, listing, walk, w, found);
    RunKeepsDirs(start, cands, SharedDir(dst), newName);
    RunLog(start, cands, SharedDir(dst), newName);
    var r := Loop(Start(start), cands, SharedDir(dst), newName);
    assert r.world.ops == w.ops + created + Writes(cands[..r.done], SharedDir(dst));
    var lines := [FoundLine(|found|), StoredAtLine(dst)];
    assert start.console == w.console + lines;
    assert r.world.console == w.console + lines + StatusLines(cands[..r.done], newName);
  }

  /** Shorthand for `TargetOf` on the source folder's own split, for the run lemmas. */
  function RunTarget(cfg: Config): Target
    requires SplitPath(cfg.src).Some?
  {
    TargetOf(cfg, SplitPath(cfg.src).value)
  }

  /** A run with candidates is its loop, started after the messages and the destination. */
  lemma ProgramIsLoop(cfg: Config, listing: seq<DirItem>, walk: seq<DirItem>, w: World, found: seq<string>)
    requires SplitPath(cfg.src).Some? && Discover(cfg, listing, walk) == Some(found) && |found| > 0
    ensures Nameable(found)
    ensures Program(cfg, listing, walk, w)
            == Loop(Start(LoopStart(cfg, SplitPath(cfg.src).value, found, w)), CandidatesOf(found), RunTarget(cfg), NewName(cfg.name))
  {
    DiscoveredNameable(cfg, listing, walk);
  }

  /**
   * The run ends normally exactly when every candidate was renamed; it
   * stops early only at a candidate that does not open as a DICOM file.
   */
  lemma ProgramCompletes(cfg: Config, listing: seq<DirItem>, walk: seq<DirItem>, w: World, found: seq<string>)
    requires SplitPath(cfg.src).Some? && Discover(cfg, listing, walk) == Some(found)
    ensures var r := Program(cfg, listing, walk, w);
      r.done <= |found|
      && (r.aborted <==> r.done < |found|)
      && (r.aborted ==> found[r.done] !in r.world.files)
  {
    if |found| > 0 {
      ProgramIsLoop(cfg, listing, walk, w, found);
      var cands := CandidatesOf(found);
      CandidatesOfLength(found);
      RunStopsOnlyAtUnopenable(LoopStart(cfg, SplitPath(cfg.src).value, found, w), cands, RunTarget(cfg), NewName(cfg.name));
      var r := Program(cfg, listing, walk, w);
      if r.aborted {
        CandidatesOfAt(found, r.done);
      }
    }
  }

  /**
   * Every renamed candidate's output holds the new name; and when no
   * earlier write landed on its source and no later one on its output, the
   * output is the source record with only the patient name changed.
   */
  lemma ProgramRewritesPatientName(cfg: Config, listing: seq<DirItem>, walk: seq<DirItem>, w: World, found: seq<string>, i: nat)
    requires SplitPath(cfg.src).Some? && Discover(cfg, listing, walk) == Some(found)
    requires i < |found| && i < Program(cfg, listing, walk, w).done
    ensures Nameable(found)
    ensures var files := Program(cfg, listing, walk, w).world.files;
      var out := OutputPath(RunTarget(cfg), CandidateOf(found[i]));
      out in files && PatientName in files[out] && files[out][PatientName] == Element(PN, NewName(cfg.name))
    ensures var cands := CandidatesOf(found);
      var t := RunTarget(cfg);
      |cands| == |found|
      && ((forall j :: 0 <= j < i ==> OutputPath(t, cands[j]) != found[i])
          && (forall j :: i < j < |cands| ==> OutputPath(t, cands[j]) != OutputPath(t, cands[i]))
          ==> var files := Program(cfg, listing, walk, w).world.files;
              var out := OutputPath(t, cands[i]);
              found[i] in w.files && out in files
              && files[out] == PutPatientName(w.files[found[i]], NewName(cfg.name)))
  {
    ProgramIsLoop(cfg, listing, walk, w, found);
    var cands := CandidatesOf(found);
    var t := RunTarget(cfg);
    var w0 := LoopStart(cfg, SplitPath(cfg.src).value, found, w);
    CandidatesOfAt(found, i);
    RunOutputsRenamed(w0, cands, t, NewName(cfg.name), i);
    if (forall j :: 0 <= j < i ==> OutputPath(t, cands[j]) != found[i])
       && (forall j :: i < j < |cands| ==> OutputPath(t, cands[j]) != OutputPath(t, cands[i])) {
      RunRewritesOneField(w0, cands, t, NewName(cfg.name), i);
    }
  }

  /** A path no candidate is written to keeps its DICOM file, its other file, or its absence. */
  lemma ProgramTouchesOnlyOutputs(cfg: Config, listing: seq<DirItem>, walk: seq<DirItem>, w: World, found: seq<string>, k: string)
    requires SplitPath(cfg.src).Some? && Discover(cfg, listing, walk) == Some(found)
    requires |found| > 0 ==> Nameable(found) && Untouched(k, CandidatesOf(found), RunTarget(cfg))
    ensures var files := Program(cfg, listing, walk, w).world.files;
      (k in files <==> k in w.files) && (k in files ==> files[k] == w.files[k])
    ensures (k in Program(cfg, listing, walk, w).world.others <==> k in w.others)
  {
    if |found| > 0 {
      ProgramIsLoop(cfg, listing, walk, w, found);
      RunLocality(LoopStart(cfg, SplitPath(cfg.src).value, found, w), CandidatesOf(found), RunTarget(cfg), NewName(cfg.name), k);
    }
  }

  /** The program's view of the machine it runs on. */
  class Host {
    var files: map<string, Record>
    var others: set<string>
    var dirs: set<string>
    var console: seq<string>
    var ops: seq<FsOp>

    function State(): World
      reads this
    {
      World(files, others, dirs, console, ops)
    }

    constructor (w: World)
      ensures State() == w
    {
      files, others, dirs, console, ops := w.files, w.others, w.dirs, w.console, w.ops;
    }

    /** `println!` */
    method Print(line: string)
      modifies this
      ensures State() == Emit(old(State()), line)
    {
      console := console + [line];
    }

    /** `create_folder_for_anonymized_dicoms_if_doesnt_exist` */
    method CreateFolderIfAbsent(dir: string)
      modifies this
      ensures State() == CreateIfAbsent(old(State()), dir)
    {
      if !(dir in files || dir in others || dir in dirs) {
        dirs := dirs + {dir};
        ops := ops + [MakeDir(dir)];
      }
    }

    /** `rename`; `ok` is false where `open_file(..).unwrap()` panics, before anything changes. */
    method Rename(path: string, dir: string, fileName: string, newName: string) returns (ok: bool)
      modifies this
      ensures ok == (path in old(files))
      ensures ok ==> State() == RenameEffect(old(State()), path, dir, fileName, newName)
      ensures !ok ==> State() == old(State())
    {
      if path !in files {
        return false;
      }
      var obj := files[path];
      obj := PutPatientName(obj, newName);
      if |newName| == 0 {
        Print(fileName + " anonymized!");
      } else {
        Print(fileName + " renamed!");
      }
      var out := Join(dir, fileName);
      files := files[out := obj];
      others := others - {out};
      ops := ops + [WriteFile(out)];
      return true;
    }

    /** `anonymize_list_of_dicoms`: every path, in order, into `dst`. */
    method AnonymizeList(paths: seq<string>, dst: string, newName: string) returns (completed: bool)
      requires Nameable(paths)
      modifies this
      ensures var b := Loop(Start(old(State())), CandidatesOf(paths), SharedDir(dst), newName);
        State() == b.world && completed == !b.aborted
    {
      ghost var w0 := State();
      ghost var cands := CandidatesOf(paths);
      CandidatesOfLength(paths);
      var i := 0;
      while i < |paths|
        invariant 0 <= i <= |paths|
        invariant Loop(Start(w0), cands[..i], SharedDir(dst), newName) == Progress(State(), i, false)
      {
        var s := SplitPath(paths[i]).value;
        CandidatesOfAt(paths, i);
        assert cands[i] == Candidate(paths[i], s.parent, s.name);
        ghost var before := State();
        var ok := Rename(paths[i], dst, s.name, newName);
        if ok {
          LoopRenames(w0, cands, i, SharedDir(dst), newName, before);
        } else {
          LoopPanics(w0, cands, i, SharedDir(dst), newName, before);
          return false;
        }
        i := i + 1;
      }
      assert cands[..|paths|] == cands;
      return true;
    }

    /** `anonymize_list_of_dicoms_in_place`: every path, in order, into its own parent. */
    method AnonymizeListInPlace(paths: seq<string>, newName: string) returns (completed: bool)
      requires Nameable(paths)
      modifies this
      ensures var b := Loop(Start(old(State())), CandidatesOf(paths), OwnParent, newName);
        State() == b.world && completed == !b.aborted
    {
      ghost var w0 := State();
      ghost var cands := CandidatesOf(paths);
      CandidatesOfLength(paths);
      var i := 0;
      while i < |paths|
        invariant 0 <= i <= |paths|
        invariant Loop(Start(w0), cands[..i], OwnParent, newName) == Progress(State(), i, false)
      {
        var s := SplitPath(paths[i]).value;
        CandidatesOfAt(paths, i);
        assert cands[i] == Candidate(paths[i], s.parent, s.name);
        ghost var before := State();
        var ok := Rename(paths[i], s.parent, s.name, newName);
        if ok {
          LoopRenames(w0, cands, i, OwnParent, newName, before);
        } else {
          LoopPanics(w0, cands, i, OwnParent, newName, before);
          return false;
        }
        i := i + 1;
      }
      assert cands[..|paths|] == cands;
      return true;
    }

    /** `main`; `completed` is false where the program panics. */
    method RunProgram(cfg: Config, listing: seq<DirItem>, walk: seq<DirItem>) returns (completed: bool)
      modifies this
      ensures var r := Program(cfg, listing, walk, old(State()));
        State() == r.world && completed == !r.aborted
    {
      var src := SplitPath(cfg.src);
      if src.None? {
        return false;
      }
      var dst := DstDir(cfg.dst, src.value.parent, src.value.name);
      var newName := NewName(cfg.name);
      var found: seq<string>;
      if cfg.allDicoms {
        found := CollectAllDicoms(walk);
      } else {
        var listed := ShallowDicoms(listing);
        if listed.None? {
          return false;
        }
        found := listed.value;
      }
      assert Discover(cfg, listing, walk) == Some(found);
      DiscoveredNameable(cfg, listing, walk);
      completed := RunFound(cfg, src.value, found, dst, newName);
    }

    /** The rest of `main`, once the candidates are known. */
    method RunFound(cfg: Config, src: Split, found: seq<string>, dst: string, newName: string) returns (completed: bool)
      requires Nameable(found)
      requires dst == DstDir(cfg.dst, src.parent, src.name) && newName == NewName(cfg.name)
      modifies this
      ensures var r := AfterDiscovery(cfg, src, found, old(State()));
        State() == r.world && completed == !r.aborted
    {
      Print(FoundLine(|found|));
      if |found| == 0 {
        Print(NothingFoundLine);
        return true;
      }
      if cfg.inPlace || cfg.allDicoms {
        Print(StoredAtLine(cfg.src));
        completed := AnonymizeListInPlace(found, newName);
      } else {
        Print(StoredAtLine(dst));
        CreateFolderIfAbsent(dst);
        completed := AnonymizeList(found, dst, newName);
      }
    }
  }
}
