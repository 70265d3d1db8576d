# anonydcm, modelled in Dafny

`anonydcm` is a command-line tool. It anonymises the DICOM files of a folder
by rewriting each file's Patient's Name element (0010,0010) as a PN element
holding a new name. The new name is the one given with `--name`, or empty.
It finds the candidate files in one of two ways:

- a shallow listing of the source folder keeps every entry whose path ends
  in `dcm`;
- with `--all-dicoms`, a recursive walk keeps every regular file whose
  extension is `dcm`.

Each candidate's rewritten record goes to one of two places:

- next to its source file, with `--in-place` or `--all-dicoms`;
- otherwise into one destination folder. That folder is `--dst`, or else a
  sibling of the source folder named `<folder>_anonymous`, and it is created
  if nothing is at that path.

The program prints the number of files found, where the results go, and one
`anonymized!` or `renamed!` line per file. It panics (the Rust `unwrap`) in
three cases:

- the source path has no file name;
- the shallow listing cannot be read;
- a candidate does not open as a DICOM file.

The model has these parts:

- `wrappers.dfy`: `Option`.
- `paths.dfy`: the path operations the program uses:
  - joining with a literal backslash;
  - `file_name`/`parent` as a split at the last separator;
  - `extension`;
  - `ends_with`.
- `dicom.dfy`: a DICOM data set as a map from tags to elements, and `put_element` for Patient's Name.
- `discovery.dfy`: the two discovery modes over a given listing or walk. `CollectAllDicoms` is the walk's push loop.
- `batch.dfy`: the outside world as a value. It holds:
  - the DICOM files that open, by path;
  - the paths that hold some other file, one that does not open as DICOM;
  - the directories;
  - the console;
  - the log of filesystem changes.

  `rename` is a function on this world, and the two batch loops are a fold
  `Loop` over the candidates. A panic is `aborted`, which keeps the world as
  it was at the panic.
- `pipeline.dfy`: the configuration, `get_dst_dir`, `get_new_name`, and the
  whole run `Program`. It also has the class `Host`, whose fields are the
  world. Its methods do what the program does, step by step:
  - print;
  - create the folder;
  - rename;
  - the two loops;
  - `main`.

  Each method is proved to leave `Host` in the state that the matching
  function gives.

## Model

| member | source | states |
|---|---|---|
| Paths.SplitPath | src/main.rs:68-69 | definition of `file_name()` and `parent()` together; its properties are in the Paths.LastSeparatorSpec, Paths.SplitNameIsComponent, Paths.SplitReassembles, Paths.SplitJoin and Paths.JoinSplit rows |
| Paths.LastSeparatorSpec | src/main.rs:68-69 | the split point is the last separator: either it is a separator and nothing after it is one, or there is no separator at all |
| Paths.SplitNameIsComponent | src/main.rs:68 | a path's file name is never empty or `..` and contains no separator |
| Paths.SplitReassembles | src/main.rs:68-69 | a path is its file name alone (with an empty parent) or its parent, one separator and its file name |
| Paths.SplitJoin | src/main.rs:136 | joining a directory and a proper name with `\` and splitting again gives back that directory and name |
| Paths.JoinSplit | src/main.rs:124-125 | when a path's last separator is `\`, joining its parent and file name gives back the path |
| Paths.Extension | src/main.rs:102 | definition of `extension()`; its properties are in the Paths.DcmExtension and Discovery boundary-case rows |
| Paths.DcmExtension | src/main.rs:102 | a name's extension is `dcm` exactly when it ends in `.dcm` with at least one character before the dot |
| Paths.DcmExtensionEndsWithDcm | src/main.rs:96-106 | every path with a `dcm` extension also ends in `dcm`, so the walk's test is the narrower one |
| Dicom.PutPatientName | src/main.rs:130 | the result has Patient's Name as a PN element with the new name, adds that tag if missing, and keeps every other tag's element |
| Discovery.ShallowDicoms | src/main.rs:83-94 | definition of `get_list_of_dicoms`; its properties are in the Discovery.ShallowDicomsExactly and Discovery.ShallowMatchHasName rows |
| Discovery.RecursiveDicoms | src/main.rs:96-106 | definition of what `get_list_of_all_dicoms_in_directory_and_subdirectories` returns; its properties are in the Discovery.CollectAllDicoms and Discovery.RecursiveDicomsExactly rows |
| Discovery.CollectAllDicoms | src/main.rs:96-106 | the loop's list is the walk's matching paths, as the specification function gives them |
| Discovery.ShallowDicomsExactly | src/main.rs:83-94 | a readable listing yields exactly its entries whose path ends in `dcm`, as a subsequence of the listing |
| Discovery.RecursiveDicomsExactly | src/main.rs:96-106 | the walk yields exactly its regular files with extension `dcm`, skipping unreadable items, as a subsequence of the walk |
| Discovery.ShallowMatchHasName | src/main.rs:84-85 | an entry that passes the shallow test has a file name, so the loops' `file_name().unwrap()` does not panic on it |
| Discovery.RecursiveMatchIsShallowMatch | src/main.rs:102 | an item the walk keeps would also pass the shallow test |
| Discovery.NoDotPassesOnlyShallow | src/main.rs:85 | `src\xdcm` passes the shallow test and is rejected by the walk (no extension) |
| Discovery.LeadingDotPassesOnlyShallow | src/main.rs:102 | `src\.dcm` passes the shallow test and is rejected by the walk (a leading dot is no extension) |
| Discovery.DirectoryPassesOnlyShallow | src/main.rs:101 | a directory named `d.dcm` passes the shallow test and is rejected by the walk (not a regular file) |
| Discovery.DottedDcmPassesBoth | src/main.rs:98-102 | a regular file `src\a.dcm` passes both tests |
| Batch.CreateIfAbsent | src/main.rs:109-113 | when anything exists at the path (a DICOM file, any other file or a directory) nothing changes; otherwise the directory is added and one MakeDir is logged; files and console stay; the path exists afterwards |
| Batch.Status | src/main.rs:131-135 | definition of the status line `rename` prints; its properties are in the Batch.StatusWording row |
| Batch.StatusWording | src/main.rs:131-135 | the status line says `anonymized!` exactly when the new name is empty, and `renamed!` exactly when it is not |
| Batch.RenameEffect | src/main.rs:128-137 | definition of `rename` on a file that opens; its properties are in the Batch.LoopRenames, Batch.RunLog, Batch.RunOutputsRenamed, Batch.RunRewritesOneField and Pipeline.Host.Rename rows |
| Batch.CandidateOf | src/main.rs:117 | a candidate keeps its path and carries the parent and file name the path library gives for it |
| Batch.InPlaceOverwrites | src/main.rs:121-126 | in place, a backslash-separated candidate is written over its own path |
| Batch.SharedDirKeepsName | src/main.rs:115-119 | into a shared directory, a candidate's output lies directly in that directory under the candidate's own file name |
| Batch.Step | src/main.rs:116-118 | definition of one iteration of either batch loop, a panic included; its properties are in the Batch.LoopRenames and Batch.LoopPanics rows |
| Batch.Loop | src/main.rs:115-127 | definition of `anonymize_list_of_dicoms` and `anonymize_list_of_dicoms_in_place`, by target; its properties are in the Batch.Run* rows and the Pipeline.Host.AnonymizeList and Pipeline.Host.AnonymizeListInPlace rows |
| Batch.LoopRenames | src/main.rs:116-118 | a candidate that opens extends the loop by exactly its rename |
| Batch.LoopPanics | src/main.rs:129 | a candidate that does not open ends the whole loop there, panicked, with the world unchanged from before it |
| Batch.RunAfterAbort | src/main.rs:129 | after a panic the rest of the candidates change nothing |
| Batch.RunStopsOnlyAtUnopenable | src/main.rs:115-127 | the loop renames a prefix of the candidates; it ends early exactly when it panics, and then only at a candidate whose path does not open |
| Batch.RunKeepsDirs | src/main.rs:115-127 | the loops create and remove no directories |
| Batch.RunLog | src/main.rs:128-137 | the console gains exactly one status line per renamed candidate, in order; the filesystem log gains exactly one write per renamed candidate, to its output path, in order |
| Batch.RunLocality | src/main.rs:136 | a path no candidate is written to keeps its DICOM file (with its record), its other file, or its absence |
| Batch.RunOutputsRenamed | src/main.rs:129-136 | every renamed candidate's output holds Patient's Name as a PN element with the new name |
| Batch.RunRewritesOneField | src/main.rs:129-136 | when no earlier write landed on a candidate's source and no later write on its output, the output is the source record with only the patient name changed |
| Pipeline.DstDir | src/main.rs:49-62 | an explicit destination is used verbatim; otherwise the destination is the parent joined with `<folder>_anonymous` |
| Pipeline.NewName | src/main.rs:74-81 | the new name is the given one, or empty when none is given |
| Pipeline.DerivedDestinationIsSibling | src/main.rs:55 | the derived destination splits into the source's parent and `<name>_anonymous`; for a backslash-separated source it is the source path followed by `_anonymous` |
| Pipeline.DiscoveredNameable | src/main.rs:146-151 | every discovered path in either mode has a file name, so the loops never panic on `file_name().unwrap()` |
| Pipeline.Program | src/main.rs:139-167 | definition of `main`; its properties are in the Pipeline.NoCandidatesNoChanges, Pipeline.OwnParentRun, Pipeline.SharedDirRun, Pipeline.ProgramCompletes, Pipeline.ProgramRewritesPatientName, Pipeline.ProgramTouchesOnlyOutputs and Pipeline.Host.RunProgram rows |
| Pipeline.AfterDiscovery | src/main.rs:153-166 | definition of the second half of `main`, once the candidates are known; its property is in the Pipeline.Host.RunFound row |
| Pipeline.LoopStart | src/main.rs:153-163 | definition of the world the batch loop starts from: the count and the target printed, and the destination created for a shared target; it is the one place this is written; its properties are in the Pipeline.OwnParentRun and Pipeline.SharedDirRun rows |
| Pipeline.NoCandidatesNoChanges | src/main.rs:139-156 | a run that panics before its loop (no file name in the source path, or an unreadable listing) ends panicked with nothing printed and the world unchanged; one that finds nothing writes no file, changes no other file, creates no directory, prints the count 0 and the complaint and ends normally |
| Pipeline.OwnParentRun | src/main.rs:158-160 | in place or with `--all-dicoms`: the directories are unchanged; the log is one write per renamed candidate; the console is the count, the source folder, then one status line per renamed candidate |
| Pipeline.SharedDirRun | src/main.rs:161-165 | into the destination: it is created, and logged, only when nothing (no file of any kind, no directory) was there, and before any write; then one write per renamed candidate follows; the console is the count, the destination, then the status lines |
| Pipeline.ProgramIsLoop | src/main.rs:139-167 | a run with candidates is the batch loop over them, started from LoopStart (after the two messages and the destination folder) |
| Pipeline.ProgramCompletes | src/main.rs:139-167 | the run ends normally exactly when every candidate was renamed; when it panics, it is at a candidate that does not open |
| Pipeline.ProgramRewritesPatientName | src/main.rs:128-137 | every renamed candidate's output holds the new patient name; without interfering writes it is the source record with only that element changed |
| Pipeline.ProgramTouchesOnlyOutputs | src/main.rs:139-167 | a path no candidate is written to keeps its DICOM file (with its record), its other file, or its absence, through the whole run |
| Pipeline.Host.constructor | src/main.rs:139 | the host starts in the given world |
| Pipeline.Host.Print | src/main.rs:153 | printing appends exactly one console line and changes nothing else |
| Pipeline.Host.CreateFolderIfAbsent | src/main.rs:109-113 | the new state is the old one after CreateIfAbsent: a directory is created only where no file of any kind and no directory exists |
| Pipeline.Host.Rename | src/main.rs:128-137 | the rename succeeds exactly when the path opens; then the state is RenameEffect of the old state, otherwise it is unchanged |
| Pipeline.Host.AnonymizeList | src/main.rs:115-120 | the new state and the completion flag are those of Loop into the shared directory |
| Pipeline.Host.AnonymizeListInPlace | src/main.rs:121-127 | the new state and the completion flag are those of Loop next to each file |
| Pipeline.Host.RunProgram | src/main.rs:139-167 | the new state and the completion flag are those of Program |
| Pipeline.Host.RunFound | src/main.rs:153-166 | after discovery, the new state and the completion flag are those of AfterDiscovery |

## Left out

- Command-line parsing (`commad_line_matches`, clap) is not modelled. The parsed arguments are the datatype `Config`, and `--src` is always present because clap requires it.
- The DICOM codec (`open_file`, `write_to_file`) is not modelled. A file opens exactly when its path is a key of `World.files`; the record read is the map's value; writing stores a record under a path. The binary format, the file meta header and other encoding details are not modelled.
- A file is its exact path string: `World.files`, `World.others` and `World.dirs` are keyed by the text of the path. Other spellings of the same file are different keys, e.g. the other separator (`C:/d/a.dcm` for `C:\d\a.dcm`), other letter case, `.` components or repeated separators. So Batch.RunLocality, Pipeline.ProgramTouchesOnlyOutputs and the side conditions of Batch.RunRewritesOneField and Pipeline.ProgramRewritesPatientName speak of path strings, not of files.
- Writing over a path replaces whatever file was there by the written DICOM file. Writing to a path that is a directory is not modelled as failing.
- Write and directory-creation errors: the source discards both results (`let _ =`), and the model lets both always succeed.
- Walking and listing the filesystem are not modelled. The `read_dir` listing and the `WalkDir` walk are inputs, in the order the operating system would produce them. An item the operating system cannot read is `Unreadable`. An unreadable source folder is a listing holding `Unreadable`.
- Panics are modelled as an abort that keeps the state at the moment of the panic. A panic message and the process exit code are not modelled.
- `to_str().unwrap()` is not modelled. It panics on a path that is not valid UTF-8, and strings here are sequences of characters.
- Paths.SplitPath: the parent and file name are the text around the last `/` or `\`. Rust's component-based normalisation is not modelled. In particular, these differ from Rust:
  - repeated separators and a trailing separator (Rust drops them);
  - `.` components;
  - the root: for a name directly under a root, Rust's parent keeps the root's separator (`C:\` or `/`). Here the parent is the text before the separator: `C:` for `C:\dicom`, and empty for `/dicom`. So for a source folder directly under the root, the model's output differs from Rust's by a doubled separator in three places:
    - Pipeline.DstDir and Pipeline.DerivedDestinationIsSibling give `C:\dicom_anonymous`, where Rust builds and prints `C:\\dicom_anonymous` (src/main.rs:55, 162). So the clause "the source path followed by `_anonymous`" holds in the model but not in Rust.
    - The same holds for the `anonymized dicoms stored at:` line.
    - Batch.InPlaceOverwrites: for a file directly under the root, Rust writes to `C:\\a.dcm`, not to the file's own path spelling.
- Paths.SplitPath: the separators `/` and `\` are both recognised, as on Windows, the platform the tool's help text targets. On other platforms Rust recognises only `/`.
- Console output goes to `World.console` as whole lines; stdout buffering is not modelled.
- Concurrency: nothing else changes the filesystem while the program runs.
