/**
 * The per-file rewrite (`rename`) and the batch loops over the candidates
 * (`anonymize_list_of_dicoms`, `anonymize_list_of_dicoms_in_place`), stated
 * as functions on a value of the outside world.
 */
module Batch {
  import opened Wrappers
  import opened Paths
  import opened Dicom

  /** A change to the filesystem, in the order the program makes it. */
  datatype FsOp = MakeDir(dir: string) | WriteFile(path: string)

  /**
   * What the program can observe and change: the DICOM files that can be
   * opened (by path), the paths that hold some other file (one that does not
   * open as DICOM), the directories, the console lines printed so far and
   * the log of filesystem changes.
   */
  datatype World = World(files: map<string, Record>, others: set<string>, dirs: set<string>,
                         console: seq<string>, ops: seq<FsOp>)

  /** `println!` */
  function Emit(w: World, line: string): World
  {
    w.(console := w.console + [line])
  }

  /** `Path::exists`: there is a file or a directory at the path. */
  predicate Exists(w: World, p: string)
  {
    p in w.files || p in w.others || p in w.dirs
  }

  /** `create_folder_for_anonymized_dicoms_if_doesnt_exist`: create the directory only if nothing is there. */
  function CreateIfAbsent(w: World, dir: string): (w': World)
    ensures w'.files == w.files && w'.others == w.others && w'.console == w.console
    ensures Exists(w, dir) ==> w' == w
    ensures !Exists(w, dir) ==> w'.dirs == w.dirs + {dir} && w'.ops == w.ops + [MakeDir(dir)]
    ensures Exists(w', dir)
  {
    if Exists(w, dir) then w
    else w.(dirs := w.dirs + {dir}, ops := w.ops + [MakeDir(dir)])
  }

  /** The status line `rename` prints for a file. */
  function Status(fileName: string, newName: string): string
  {
    if |newName| == 0 then fileName + " anonymized!" else fileName + " renamed!"
  }

  /** The status says `anonymized!` exactly when the new name is empty, and `renamed!` otherwise. */
  lemma StatusWording(fileName: string, newName: string)
    ensures Status(fileName, newName) == fileName + " anonymized!" <==> |newName| == 0
    ensures Status(fileName, newName) == fileName + " renamed!" <==> |newName| != 0
  {
    if |newName| != 0 {
      assert |fileName + " anonymized!"| != |fileName + " renamed!"|;
    }
  }

  /**
   * `rename(path, dir, fileName, newName)` on a file that opens: the record
   * read from `path`, with its patient name replaced, is written to
   * `dir\fileName`, after the status line is printed. Whatever file was at
   * that path is replaced by the written DICOM file.
   */
  function RenameEffect(w: World, path: string, dir: string, fileName: string, newName: string): World
    requires path in w.files
  {
    var out := Join(dir, fileName);
    World(w.files[out := PutPatientName(w.files[path], newName)],
          w.others - {out},
          w.dirs,
          w.console + [Status(fileName, newName)],
          w.ops + [WriteFile(out)])
  }

  /** Where a batch writes: next to each source file, or into one shared directory. */
  datatype Target = OwnParent | SharedDir(dir: string)

  /**
   * A candidate file as the loops see it: its path, and the parent and file
   * name the path library gives for it.
   */
  datatype Candidate = Candidate(path: string, parent: string, name: string)

  /** `file_name().unwrap()` and `parent().unwrap()` on a path that has them. */
  function CandidateOf(p: string): (c: Candidate)
    requires SplitPath(p).Some?
    ensures c.path == p && SplitPath(p) == Some(Split(c.parent, c.name))
  {
    Candidate(p, SplitPath(p).value.parent, SplitPath(p).value.name)
  }

  /** The paths all have a file name (and so a parent). */
  predicate Nameable(paths: seq<string>)
  {
    forall i :: 0 <= i < |paths| ==> SplitPath(paths[i]).Some?
  }

  /** Dropping the first path keeps the rest nameable. */
  lemma NameableTail(paths: seq<string>)
    requires Nameable(paths) && paths != []
    ensures Nameable(paths[1..])
  {
    forall i | 0 <= i < |paths| - 1 ensures SplitPath(paths[1..][i]).Some? {
      assert paths[1..][i] == paths[i + 1];
    }
  }

  /** The candidates for a list of paths, in the same order. */
  function CandidatesOf(paths: seq<string>): seq<Candidate>
    requires Nameable(paths)
  {
    if paths == [] then []
    else
      NameableTail(paths);
      [CandidateOf(paths[0])] + CandidatesOf(paths[1..])
  }

  /** The i-th candidate is the i-th path's. */
  lemma {:induction false} CandidatesOfAt(paths: seq<string>, i: nat)
    requires Nameable(paths) && i < |paths|
    ensures |CandidatesOf(paths)| == |paths| && CandidatesOf(paths)[i] == CandidateOf(paths[i])
  {
    if i > 0 {
      NameableTail(paths);
      CandidatesOfAt(paths[1..], i - 1);
      assert paths[1..][i - 1] == paths[i];
    } else {
      CandidatesOfLength(paths);
    }
  }

  /** There is one candidate per path. */
  lemma {:induction false} CandidatesOfLength(paths: seq<string>)
    requires Nameable(paths)
    ensures |CandidatesOf(paths)| == |paths|
  {
    if paths != [] {
      NameableTail(paths);
      CandidatesOfLength(paths[1..]);
    }
  }

  function OutputDir(t: Target, c: Candidate): string
  {
    match t
    case OwnParent => c.parent
    case SharedDir(dir) => dir
  }

  /** The path a candidate is written to. */
  function OutputPath(t: Target, c: Candidate): string
  {
    Join(OutputDir(t, c), c.name)
  }

  /** In place, a backslash-separated path is written over itself. */
  lemma InPlaceOverwrites(p: string)
    requires SplitPath(p).Some? && BackslashSeparated(p)
    ensures OutputPath(OwnParent, CandidateOf(p)) == p
  {
    JoinSplit(p);
  }

  /** Into a shared directory, a candidate is written there under its own file name. */
  lemma SharedDirKeepsName(dir: string, p: string)
    requires SplitPath(p).Some?
    ensures SplitPath(OutputPath(SharedDir(dir), CandidateOf(p))) == Some(Split(dir, CandidateOf(p).name))
  {
    var c := CandidateOf(p);
    SplitNameIsComponent(p);
    SplitJoin(dir, c.name);
  }

  /** A batch part-way: the world, how many candidates were renamed, and whether the program panicked. */
  datatype Progress = Progress(world: World, done: nat, aborted: bool)

  function Start(w: World): Progress { Progress(w, 0, false) }

  /** One loop iteration: `open_file(..).unwrap()` panics when the candidate does not open. */
  function Step(b: Progress, p: Candidate, t: Target, newName: string): Progress
  {
    if b.aborted then b
    else if p.path !in b.world.files then b.(aborted := true)
    else Progress(RenameEffect(b.world, p.path, OutputDir(t, p), p.name, newName), b.done + 1, false)
  }

  /** The loop over the candidates, in list order. */
  function Loop(b: Progress, cands: seq<Candidate>, t: Target, newName: string): Progress
    decreases |cands|
  {
    if cands == [] then b
    else
      Step(Loop(b, cands[..|cands| - 1], t, newName), cands[|cands| - 1], t, newName)
  }

  /** The status lines of the given candidates, in order. */
  function StatusLines(cands: seq<Candidate>, newName: string): (r: seq<string>)
    ensures |r| == |cands|
    ensures forall i :: 0 <= i < |cands| ==> r[i] == Status(cands[i].name, newName)
  {
    if cands == [] then []
    else
      var init := StatusLines(cands[..|cands| - 1], newName);
      init + [Status(cands[|cands| - 1].name, newName)]
  }

  /** The writes of the given candidates, in order. */
  function Writes(cands: seq<Candidate>, t: Target): (r: seq<FsOp>)
    ensures |r| == |cands|
    ensures forall i :: 0 <= i < |cands| ==> r[i] == WriteFile(OutputPath(t, cands[i]))
  {
    if cands == [] then []
    else
      var init := Writes(cands[..|cands| - 1], t);
      init + [WriteFile(OutputPath(t, cands[|cands| - 1]))]
  }

  /** One more candidate that opens: the loop so far, plus its rename. */
  lemma LoopRenames(w0: World, cands: seq<Candidate>, i: nat, t: Target, newName: string, w: World)
    requires i < |cands| && Loop(Start(w0), cands[..i], t, newName) == Progress(w, i, false)
    requires cands[i].path in w.files
    ensures Loop(Start(w0), cands[..i + 1], t, newName)
            == Progress(RenameEffect(w, cands[i].path, OutputDir(t, cands[i]), cands[i].name, newName), i + 1, false)
  {
    LoopExtend(Start(w0), cands, i, t, newName);
  }

  /** One more candidate that does not open: the program panics there, and the loop ends. */
  lemma LoopPanics(w0: World, cands: seq<Candidate>, i: nat, t: Target, newName: string, w: World)
    requires i < |cands| && Loop(Start(w0), cands[..i], t, newName) == Progress(w, i, false)
    requires cands[i].path !in w.files
    ensures Loop(Start(w0), cands, t, newName) == Progress(w, i, true)
  {
    LoopExtend(Start(w0), cands, i, t, newName);
    RunAfterAbort(Start(w0), cands, i + 1, t, newName);
  }

  /** The loop over one more candidate is one more step. */
  lemma LoopExtend(b: Progress, cands: seq<Candidate>, i: nat, t: Target, newName: string)
    requires i < |cands|
    ensures Loop(b, cands[..i + 1], t, newName) == Step(Loop(b, cands[..i], t, newName), cands[i], t, newName)
  {
    assert cands[..i + 1][..i] == cands[..i];
  }

  /** Once the program has panicked nothing more happens. */
  lemma {:induction false} RunAfterAbort(b: Progress, cands: seq<Candidate>, k: nat, t: Target, newName: string)
    requires k <= |cands|
    requires Loop(b, cands[..k], t, newName).aborted
    ensures Loop(b, cands, t, newName) == Loop(b, cands[..k], t, newName)
    decreases |cands|
  {
    if k < |cands| {
      var init := cands[..|cands| - 1];
      assert init[..k] == cands[..k];
      RunAfterAbort(b, init, k, t, newName);
    } else {
      assert cands[..k] == cands;
    }
  }

  /**
   * The loop renames a prefix of the candidates and stops short only at a
   * candidate that does not open (a panic).
   */
  lemma {:induction false} RunStopsOnlyAtUnopenable(w: World, cands: seq<Candidate>, t: Target, newName: string)
    ensures Loop(Start(w), cands, t, newName).done <= |cands|
    ensures Loop(Start(w), cands, t, newName).aborted <==> Loop(Start(w), cands, t, newName).done < |cands|
    ensures var b := Loop(Start(w), cands, t, newName);
      b.aborted ==> b.done < |cands| && cands[b.done].path !in b.world.files
    decreases |cands|
  {
    if cands != [] {
      var init := cands[..|cands| - 1];
      RunStopsOnlyAtUnopenable(w, init, t, newName);
      var b' := Loop(Start(w), init, t, newName);
      if b'.aborted {
        assert init[b'.done] == cands[b'.done];
      }
    }
  }

  /** Directories are not touched by the loop. */
  lemma {:induction false} RunKeepsDirs(w: World, cands: seq<Candidate>, t: Target, newName: string)
    ensures Loop(Start(w), cands, t, newName).world.dirs == w.dirs
    decreases |cands|
  {
    if cands != [] {
      RunKeepsDirs(w, cands[..|cands| - 1], t, newName);
    }
  }

  /** What one iteration does to the log: one status line and one write, or nothing on a panic. */
  lemma StepLog(b: Progress, p: Candidate, t: Target, newName: string)
    ensures var b2 := Step(b, p, t, newName);
      if b.aborted || p.path !in b.world.files then
        b2.world == b.world && b2.done == b.done
      else
        b2.done == b.done + 1
        && b2.world.console == b.world.console + [Status(p.name, newName)]
        && b2.world.ops == b.world.ops + [WriteFile(OutputPath(t, p))]
  {
  }

  /** What one iteration does to the files: one write to the candidate's output, or nothing on a panic. */
  lemma StepFiles(b: Progress, p: Candidate, t: Target, newName: string)
    ensures var f := Step(b, p, t, newName).world.files;
      if b.aborted || p.path !in b.world.files then f == b.world.files
      else f == b.world.files[OutputPath(t, p) := PutPatientName(b.world.files[p.path], newName)]
  {
  }

  /** A step leaves every path other than its output as it was. */
  lemma StepKeepsOther(b: Progress, p: Candidate, t: Target, newName: string, k: string)
    requires k != OutputPath(t, p)
    ensures var f := Step(b, p, t, newName).world.files;
      (k in f <==> k in b.world.files) && (k in f ==> f[k] == b.world.files[k])
  {
    StepFiles(b, p, t, newName);
  }

  /** A step that renames writes its source record, with the new patient name, to its output. */
  lemma StepRewrites(b: Progress, p: Candidate, t: Target, newName: string)
    requires Step(b, p, t, newName).done > b.done
    ensures !b.aborted && p.path in b.world.files
    ensures var f := Step(b, p, t, newName).world.files;
      OutputPath(t, p) in f && f[OutputPath(t, p)] == PutPatientName(b.world.files[p.path], newName)
  {
    StepFiles(b, p, t, newName);
  }

  /** The console invariant of the loop survives one more step. */
  lemma StepKeepsConsole(b: Progress, init: seq<Candidate>, last: Candidate, t: Target, newName: string, w: World)
    requires b.done <= |init| && (b.aborted <==> b.done < |init|)
    requires b.world.console == w.console + StatusLines(init[..b.done], newName)
    ensures var b2 := Step(b, last, t, newName);
      var cands := init + [last];
      b2.done <= |cands| && b2.world.console == w.console + StatusLines(cands[..b2.done], newName)
  {
    var cands := init + [last];
    StepLog(b, last, t, newName);
    var b2 := Step(b, last, t, newName);
    if b2.done == b.done {
      assert cands[..b2.done] == init[..b.done];
    } else {
      assert cands[..b2.done] == cands;
      assert init[..b.done] == init;
      assert cands[..|cands| - 1] == init;
    }
  }

  /** The write-log invariant of the loop survives one more step. */
  lemma StepKeepsWrites(b: Progress, init: seq<Candidate>, last: Candidate, t: Target, newName: string, w: World)
    requires b.done <= |init| && (b.aborted <==> b.done < |init|)
    requires b.world.ops == w.ops + Writes(init[..b.done], t)
    ensures var b2 := Step(b, last, t, newName);
      var cands := init + [last];
      b2.done <= |cands| && b2.world.ops == w.ops + Writes(cands[..b2.done], t)
  {
    var cands := init + [last];
    StepLog(b, last, t, newName);
    var b2 := Step(b, last, t, newName);
    if b2.done == b.done {
      assert cands[..b2.done] == init[..b.done];
    } else {
      assert cands[..b2.done] == cands;
      assert init[..b.done] == init;
      assert cands[..|cands| - 1] == init;
    }
  }

  /** One status line and one write per renamed candidate, in list order. */
  lemma {:induction false} RunLog(w: World, cands: seq<Candidate>, t: Target, newName: string)
    ensures var b := Loop(Start(w), cands, t, newName);
      b.done <= |cands|
      && b.world.console == w.console + StatusLines(cands[..b.done], newName)
      && b.world.ops == w.ops + Writes(cands[..b.done], t)
    decreases |cands|
  {
    if cands == [] {
      assert cands[..0] == [];
    } else {
      var init := cands[..|cands| - 1];
      var last := cands[|cands| - 1];
      RunLog(w, init, t, newName);
      RunStopsOnlyAtUnopenable(w, init, t, newName);
      var b' := Loop(Start(w), init, t, newName);
      StepKeepsConsole(b', init, last, t, newName, w);
      StepKeepsWrites(b', init, last, t, newName, w);
      assert init + [last] == cands;
    }
  }

  /** A path no candidate is written to. */
  predicate Untouched(k: string, cands: seq<Candidate>, t: Target)
  {
    forall i :: 0 <= i < |cands| ==> OutputPath(t, cands[i]) != k
  }

  /** Only output paths change: every other path keeps its DICOM file, its other file, or its absence. */
  lemma {:induction false} RunLocality(w: World, cands: seq<Candidate>, t: Target, newName: string, k: string)
    requires Untouched(k, cands, t)
    ensures var files := Loop(Start(w), cands, t, newName).world.files;
      (k in files <==> k in w.files) && (k in files ==> files[k] == w.files[k])
    ensures k in Loop(Start(w), cands, t, newName).world.others <==> k in w.others
    decreases |cands|
  {
    if cands != [] {
      var init := cands[..|cands| - 1];
      assert Untouched(k, init, t) by {
        forall i | 0 <= i < |init| ensures OutputPath(t, init[i]) != k {
          assert init[i] == cands[i];
        }
      }
      RunLocality(w, init, t, newName, k);
      assert OutputPath(t, cands[|cands| - 1]) != k;
    }
  }

  /** Every renamed candidate's output holds the new name as a PN element. */
  lemma {:induction false} RunOutputsRenamed(w: World, cands: seq<Candidate>, t: Target, newName: string, i: nat)
    requires i < |cands| && i < Loop(Start(w), cands, t, newName).done
    ensures var files := Loop(Start(w), cands, t, newName).world.files;
      OutputPath(t, cands[i]) in files && PatientName in files[OutputPath(t, cands[i])]
      && files[OutputPath(t, cands[i])][PatientName] == Element(PN, newName)
    decreases |cands|
  {
    var init := cands[..|cands| - 1];
    var b' := Loop(Start(w), init, t, newName);
    RunStopsOnlyAtUnopenable(w, init, t, newName);
    if i < b'.done {
      assert init[i] == cands[i];
      RunOutputsRenamed(w, init, t, newName, i);
    } else {
      assert i == |cands| - 1;
    }
  }

  /**
   * When no earlier candidate was written over a candidate's source and no
   * later one is written to its output, its output is its source record with
   * only the patient name changed.
   */
  lemma {:induction false} RunRewritesOneField(w: World, cands: seq<Candidate>, t: Target, newName: string, i: nat)
    requires i < |cands| && i < Loop(Start(w), cands, t, newName).done
    requires forall j :: 0 <= j < i ==> OutputPath(t, cands[j]) != cands[i].path
    requires forall j :: i < j < |cands| ==> OutputPath(t, cands[j]) != OutputPath(t, cands[i])
    ensures var files := Loop(Start(w), cands, t, newName).world.files;
      cands[i].path in w.files
      && OutputPath(t, cands[i]) in files
      && files[OutputPath(t, cands[i])] == PutPatientName(w.files[cands[i].path], newName)
    decreases |cands|
  {
    var init := cands[..|cands| - 1];
    var b' := Loop(Start(w), init, t, newName);
    RunStopsOnlyAtUnopenable(w, init, t, newName);
    var last := cands[|cands| - 1];
    assert Loop(Start(w), cands, t, newName) == Step(b', last, t, newName);
    if i < b'.done {
      assert init[i] == cands[i];
      assert forall j :: 0 <= j < i ==> init[j] == cands[j];
      assert forall j :: i < j < |init| ==> init[j] == cands[j];
      RunRewritesOneField(w, init, t, newName, i);
      StepKeepsOther(b', last, t, newName, OutputPath(t, cands[i]));
    } else {
      StepRewrites(b', last, t, newName);
      assert i == |init|;
      assert Untouched(cands[i].path, init, t) by {
        forall j | 0 <= j < |init| ensures OutputPath(t, init[j]) != cands[i].path {
          assert init[j] == cands[j];
        }
      }
      RunLocality(w, init, t, newName, cands[i].path);
    }
  }
}
