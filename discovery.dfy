/**
 * Finding the candidate files. The two discovery modes use different tests:
 * the shallow listing keeps every entry whose path ends in `dcm`, the
 * recursive walk keeps only regular files whose extension is `dcm`.
 */
module Discovery {
  import opened Wrappers
  import opened Paths

  /**
   * One item of a directory listing or walk as the operating system hands it
   * over: an entry with its path and whether it is a regular file, or an
   * error in place of an entry.
   */
  datatype DirItem = Listed(path: string, isFile: bool) | Unreadable

  /** The shallow test: the full path ends in `dcm`; directories are not excluded. */
  predicate ShallowMatch(item: DirItem)
  {
    item.Listed? && EndsWith(item.path, "dcm")
  }

  /** The recursive test: a regular file whose extension is exactly `dcm`. */
  predicate RecursiveMatch(item: DirItem)
  {
    item.Listed? && item.isFile && HasDcmExtension(item.path)
  }

  /** The paths of the listed items, in order. */
  function ListedPaths(items: seq<DirItem>): seq<string>
  {
    if items == [] then []
    else
      var last := items[|items| - 1];
      ListedPaths(items[..|items| - 1]) + (if last.Listed? then [last.path] else [])
  }

  /** The paths of the listed items that pass `keep`, in order. */
  function Kept(items: seq<DirItem>, keep: DirItem -> bool): seq<string>
  {
    if items == [] then []
    else
      var last := items[|items| - 1];
      Kept(items[..|items| - 1], keep) + (if last.Listed? && keep(last) then [last.path] else [])
  }

  /**
   * `get_list_of_dicoms`: the listing's matching paths. An unreadable
   * directory or entry makes the program panic (`unwrap`), so there is no list.
   */
  function ShallowDicoms(listing: seq<DirItem>): Option<seq<string>>
  {
    if Unreadable in listing then None else Some(Kept(listing, ShallowMatch))
  }

  /** The walk's matching paths; items the walk could not read are skipped. */
  function RecursiveDicoms(walk: seq<DirItem>): seq<string>
  {
    Kept(walk, RecursiveMatch)
  }

  /** `get_list_of_all_dicoms_in_directory_and_subdirectories`: push each matching entry of the walk. */
  method CollectAllDicoms(walk: seq<DirItem>) returns (list: seq<string>)
    ensures list == RecursiveDicoms(walk)
  {
    list := [];
    for i := 0 to |walk|
      invariant list == Kept(walk[..i], RecursiveMatch)
    {
      assert walk[..i + 1][..i] == walk[..i];
      var entry := walk[i];
      if entry.Listed? && entry.isFile && HasDcmExtension(entry.path) {
        list := list + [entry.path];
      }
    }
    assert walk[..|walk|] == walk;
  }

  /** `a` is `b` with some elements left out, the rest in their order. */
  predicate IsSubsequence(a: seq<string>, b: seq<string>)
    decreases |b|
  {
    if a == [] then true
    else if b == [] then false
    else (a[|a| - 1] == b[|b| - 1] && IsSubsequence(a[..|a| - 1], b[..|b| - 1]))
         || IsSubsequence(a, b[..|b| - 1])
  }

  /** A path is kept exactly when some listed item with that path passes the test. */
  lemma {:induction false} KeptMembers(items: seq<DirItem>, keep: DirItem -> bool, p: string)
    ensures p in Kept(items, keep)
            <==> exists i :: 0 <= i < |items| && items[i].Listed? && keep(items[i]) && items[i].path == p
  {
    if items != [] {
      var init := items[..|items| - 1];
      KeptMembers(init, keep, p);
      if exists i :: 0 <= i < |items| && items[i].Listed? && keep(items[i]) && items[i].path == p {
        var i :| 0 <= i < |items| && items[i].Listed? && keep(items[i]) && items[i].path == p;
        if i < |init| {
          assert init[i] == items[i];
        }
      }
      if p in Kept(init, keep) {
        var i :| 0 <= i < |init| && init[i].Listed? && keep(init[i]) && init[i].path == p;
        assert items[i] == init[i];
      }
    }
  }

  /** The kept paths appear in the listing's order. */
  lemma {:induction false} KeptInOrder(items: seq<DirItem>, keep: DirItem -> bool)
    ensures IsSubsequence(Kept(items, keep), ListedPaths(items))
  {
    if items != [] {
      var init := items[..|items| - 1];
      var last := items[|items| - 1];
      KeptInOrder(init, keep);
      if last.Listed? {
        var k := Kept(init, keep);
        if keep(last) {
          assert (k + [last.path])[..|k|] == k;
          assert (ListedPaths(init) + [last.path])[..|ListedPaths(init)|] == ListedPaths(init);
        } else {
          assert Kept(items, keep) == k;
          assert ListedPaths(items) == ListedPaths(init) + [last.path];
          assert (ListedPaths(init) + [last.path])[..|ListedPaths(init)|] == ListedPaths(init);
        }
      } else {
        assert Kept(items, keep) == Kept(init, keep);
        assert ListedPaths(items) == ListedPaths(init);
      }
    }
  }

  /** Both filters keep only paths with a file name, so every candidate can be renamed. */
  lemma {:induction false} KeptHaveNames(items: seq<DirItem>, keep: DirItem -> bool)
    requires forall item :: keep(item) ==> item.Listed? && SplitPath(item.path).Some?
    ensures forall i :: 0 <= i < |Kept(items, keep)| ==> SplitPath(Kept(items, keep)[i]).Some?
  {
    if items != [] {
      KeptHaveNames(items[..|items| - 1], keep);
    }
  }

  /** A path ending in `dcm` has a file name: its last character is `m`, not a separator. */
  lemma ShallowMatchHasName(item: DirItem)
    requires ShallowMatch(item)
    ensures SplitPath(item.path).Some?
  {
    var p := item.path;
    assert p[|p| - 1] == 'm' by {
      assert p[|p| - 3..] == "dcm";
      assert p[|p| - 3..][2] == p[|p| - 1];
    }
    PlainEndHasName(p);
  }

  /** The shallow listing keeps exactly the readable entries whose path ends in `dcm`. */
  lemma ShallowDicomsExactly(listing: seq<DirItem>, p: string)
    requires ShallowDicoms(listing).Some?
    ensures p in ShallowDicoms(listing).value
            <==> exists i :: 0 <= i < |listing| && listing[i].Listed? && listing[i].path == p && EndsWith(p, "dcm")
    ensures IsSubsequence(ShallowDicoms(listing).value, ListedPaths(listing))
  {
    KeptMembers(listing, ShallowMatch, p);
    KeptInOrder(listing, ShallowMatch);
  }

  /** The walk keeps exactly the regular files whose extension is `dcm`. */
  lemma RecursiveDicomsExactly(walk: seq<DirItem>, p: string)
    ensures p in RecursiveDicoms(walk)
            <==> exists i :: 0 <= i < |walk| && walk[i].Listed? && walk[i].isFile && walk[i].path == p
                             && HasDcmExtension(p)
    ensures IsSubsequence(RecursiveDicoms(walk), ListedPaths(walk))
  {
    KeptMembers(walk, RecursiveMatch, p);
    KeptInOrder(walk, RecursiveMatch);
  }

  /** Every entry the walk keeps, the shallow test would keep too. */
  lemma RecursiveMatchIsShallowMatch(item: DirItem)
    ensures RecursiveMatch(item) ==> ShallowMatch(item)
  {
    if RecursiveMatch(item) {
      DcmExtensionEndsWithDcm(item.path);
    }
  }

  /** The converse fails. A name without a dot, such as `xdcm`, passes only the shallow test. */
  lemma NoDotPassesOnlyShallow()
    ensures ShallowMatch(Listed("src\\xdcm", true)) && !RecursiveMatch(Listed("src\\xdcm", true))
  {
    SplitJoin("src", "xdcm");
    assert Join("src", "xdcm") == "src\\xdcm";
    LastDotSpec("xdcm");
    assert LastDot("xdcm") == -1;
    assert EndsWith("src\\xdcm", "dcm") by { assert "src\\xdcm"[5..] == "dcm"; }
  }

  /** A name whose only dot leads it, `.dcm`, has no extension and passes only the shallow test. */
  lemma LeadingDotPassesOnlyShallow()
    ensures ShallowMatch(Listed("src\\.dcm", true)) && !RecursiveMatch(Listed("src\\.dcm", true))
  {
    SplitJoin("src", ".dcm");
    assert Join("src", ".dcm") == "src\\.dcm";
    assert ".dcm"[0] == '.' && ".dcm"[1] == 'd' && ".dcm"[2] == 'c' && ".dcm"[3] == 'm';
    LastDotSpec(".dcm");
    assert LastDot(".dcm") == 0;
    assert EndsWith("src\\.dcm", "dcm") by { assert "src\\.dcm"[5..] == "dcm"; }
  }

  /** A directory named `d.dcm` passes only the shallow test. */
  lemma DirectoryPassesOnlyShallow()
    ensures ShallowMatch(Listed("src\\d.dcm", false)) && !RecursiveMatch(Listed("src\\d.dcm", false))
  {
    assert EndsWith("src\\d.dcm", "dcm") by { assert "src\\d.dcm"[6..] == "dcm"; }
  }

  /** A regular file `a.dcm` passes both tests. */
  lemma DottedDcmPassesBoth()
    ensures ShallowMatch(Listed("src\\a.dcm", true)) && RecursiveMatch(Listed("src\\a.dcm", true))
  {
    SplitJoin("src", "a.dcm");
    assert Join("src", "a.dcm") == "src\\a.dcm";
    assert "a.dcm"[1] == '.' && "a.dcm"[2] == 'd' && "a.dcm"[3] == 'c' && "a.dcm"[4] == 'm';
    LastDotSpec("a.dcm");
    assert LastDot("a.dcm") == 1;
    assert "a.dcm"[2..] == "dcm";
    assert EndsWith("src\\a.dcm", "dcm") by { assert "src\\a.dcm"[6..] == "dcm"; }
  }
}
