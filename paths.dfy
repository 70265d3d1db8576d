/**
 * Path strings as the program builds and takes them apart.
 *
 * The program joins a directory and a name with a literal backslash, and
 * asks its path library for a path's file name, parent and extension. Here a
 * path is split at its last separator (either Windows separator, `/` or `\`),
 * and the extension follows the library's rule for the text after the last dot.
 */
module Paths {
  import opened Wrappers

  /** The separator the program writes between a directory and a file name. */
  const Backslash: char := '\\'

  predicate IsSeparator(c: char) { c == '/' || c == '\\' }

  predicate IsDot(c: char) { c == '.' }

  /** A string with no separator in it: one path component. */
  predicate IsComponent(s: string) { forall i :: 0 <= i < |s| ==> !IsSeparator(s[i]) }

  /** `format!("{}\\{}", dir, name)` */
  function Join(dir: string, name: string): string { dir + [Backslash] + name }

  /** `str::ends_with` */
  predicate EndsWith(s: string, suffix: string) { |suffix| <= |s| && s[|s| - |suffix|..] == suffix }

  /** The index of the last separator in `s`, or -1 when there is none. */
  function LastSeparator(s: string): (r: int)
    ensures -1 <= r < |s|
  {
    if s == [] then -1
    else if IsSeparator(s[|s| - 1]) then |s| - 1
    else LastSeparator(s[..|s| - 1])
  }

  /** `LastSeparator` finds a separator, and none after it. */
  lemma {:induction false} LastSeparatorSpec(s: string)
    ensures var r := LastSeparator(s);
      (r >= 0 ==> IsSeparator(s[r])) && (forall i :: r < i < |s| ==> !IsSeparator(s[i]))
  {
    if s != [] && !IsSeparator(s[|s| - 1]) {
      LastSeparatorSpec(s[..|s| - 1]);
      assert forall i :: 0 <= i < |s| - 1 ==> s[..|s| - 1][i] == s[i];
    }
  }

  /** What follows the last separator is one component. */
  lemma {:induction false} LastSeparatorEndsComponent(s: string)
    ensures IsComponent(s[LastSeparator(s) + 1..])
  {
    if s != [] && !IsSeparator(s[|s| - 1]) {
      var init := s[..|s| - 1];
      LastSeparatorEndsComponent(init);
      var r := LastSeparator(init);
      assert s[r + 1..] == init[r + 1..] + [s[|s| - 1]];
    }
  }

  /** The index of the last dot in `s`, or -1 when there is none. */
  function LastDot(s: string): (r: int)
    ensures -1 <= r < |s|
  {
    if s == [] then -1
    else if IsDot(s[|s| - 1]) then |s| - 1
    else LastDot(s[..|s| - 1])
  }

  /** `LastDot` finds a dot, and none after it. */
  lemma {:induction false} LastDotSpec(s: string)
    ensures var r := LastDot(s);
      (r >= 0 ==> IsDot(s[r])) && (forall i :: r < i < |s| ==> !IsDot(s[i]))
  {
    if s != [] && !IsDot(s[|s| - 1]) {
      LastDotSpec(s[..|s| - 1]);
      assert forall i :: 0 <= i < |s| - 1 ==> s[..|s| - 1][i] == s[i];
    }
  }

  /** A path's parent and its final component. */
  datatype Split = Split(parent: string, name: string)

  /**
   * `Path::file_name` and `Path::parent` together: the final component is the
   * text after the last separator, and the parent the text before it (empty
   * when there is no separator). There is no file name when the final
   * component is empty or `..`.
   */
  function SplitPath(p: string): Option<Split>
  {
    var i := LastSeparator(p);
    var name := p[i + 1..];
    if name == "" || name == ".." then None
    else Some(Split(p[..if i < 0 then 0 else i], name))
  }

  /** A split's name is one proper component. */
  lemma SplitNameIsComponent(p: string)
    requires SplitPath(p).Some?
    ensures var s := SplitPath(p).value;
      s.name != "" && s.name != ".." && IsComponent(s.name)
  {
    LastSeparatorEndsComponent(p);
  }

  /** The path is the name alone (with an empty parent), or the parent, one separator and the name. */
  lemma SplitReassembles(p: string)
    requires SplitPath(p).Some?
    ensures var s := SplitPath(p).value;
      (p == s.name && s.parent == "")
      || (|p| == |s.parent| + 1 + |s.name|
          && IsSeparator(p[|s.parent|])
          && p == s.parent + [p[|s.parent|]] + s.name)
  {
    var i := LastSeparator(p);
    LastSeparatorSpec(p);
    if i >= 0 {
      assert p == p[..i] + [p[i]] + p[i + 1..];
    } else {
      assert p == p[i + 1..];
    }
  }

  /** The path's last separator exists and is a backslash, the one the program joins with. */
  predicate BackslashSeparated(p: string)
  {
    var i := LastSeparator(p);
    i >= 0 && p[i] == Backslash
  }

  /** A path whose last character is neither a separator nor a dot has a file name. */
  lemma PlainEndHasName(p: string)
    requires p != [] && !IsSeparator(p[|p| - 1]) && p[|p| - 1] != '.'
    ensures SplitPath(p).Some?
  {
    var i := LastSeparator(p);
    assert i == LastSeparator(p[..|p| - 1]);
    var name := p[i + 1..];
    assert name[|name| - 1] == p[|p| - 1];
  }

  /** Splitting a joined path gives back the directory and the name. */
  lemma SplitJoin(dir: string, name: string)
    requires name != "" && name != ".." && IsComponent(name)
    ensures SplitPath(Join(dir, name)) == Some(Split(dir, name))
  {
    var p := Join(dir, name);
    var i := LastSeparator(p);
    LastSeparatorSpec(p);
    assert IsSeparator(p[|dir|]);
    assert forall k :: |dir| < k < |p| ==> p[k] == name[k - |dir| - 1];
    assert i == |dir|;
    assert p[i + 1..] == name;
    assert p[..i] == dir;
  }

  /** Joining the parts of a backslash-separated path gives back the path. */
  lemma JoinSplit(p: string)
    requires SplitPath(p).Some? && BackslashSeparated(p)
    ensures Join(SplitPath(p).value.parent, SplitPath(p).value.name) == p
  {
    var i := LastSeparator(p);
    assert p == p[..i] + [p[i]] + p[i + 1..];
  }

  /**
   * `Path::extension` of a file name: the text after the last dot, except
   * that `..`, a name without a dot and a name whose only dot leads it have
   * no extension.
   */
  function Extension(name: string): Option<string>
  {
    if name == ".." then None
    else
      var i := LastDot(name);
      if i <= 0 then None else Some(name[i + 1..])
  }

  /** A path whose file name has the extension `dcm`. */
  predicate HasDcmExtension(p: string)
  {
    match SplitPath(p)
    case None => false
    case Some(s) => Extension(s.name) == Some("dcm")
  }

  /** A name has the extension `dcm` exactly when it ends in `.dcm` with something before the dot. */
  lemma DcmExtension(name: string)
    ensures Extension(name) == Some("dcm") <==> |name| > 4 && EndsWith(name, ".dcm")
  {
    var i := LastDot(name);
    LastDotSpec(name);
    if |name| > 4 && EndsWith(name, ".dcm") {
      var n := |name|;
      assert name[n - 4] == '.' && name[n - 3] == 'd' && name[n - 2] == 'c' && name[n - 1] == 'm' by {
        assert name[n - 4..][0] == '.';
        assert name[n - 4..][1] == 'd';
        assert name[n - 4..][2] == 'c';
        assert name[n - 4..][3] == 'm';
      }
      assert i == n - 4;
      assert name[i + 1..] == "dcm";
    }
    if Extension(name) == Some("dcm") {
      assert name != ".." && i > 0;
      assert name[i + 1..] == "dcm";
      assert |name| == i + 4;
      assert name[|name| - 4..] == [name[i]] + name[i + 1..];
    }
  }

  /** A suffix of a suffix is a suffix. */
  lemma EndsWithTrans(a: string, b: string, c: string)
    requires EndsWith(a, b) && EndsWith(b, c)
    ensures EndsWith(a, c)
  {
    assert a[|a| - |c|..] == a[|a| - |b|..][|b| - |c|..];
  }

  /** A path ends with its own file name. */
  lemma EndsWithName(p: string)
    requires SplitPath(p).Some?
    ensures EndsWith(p, SplitPath(p).value.name)
  {
    var s := SplitPath(p).value;
    SplitReassembles(p);
    if p != s.name {
      assert p[|p| - |s.name|..] == s.name;
    }
  }

  /** A path with a `dcm` extension ends in `dcm`: the recursive test is the narrower one. */
  lemma DcmExtensionEndsWithDcm(p: string)
    requires HasDcmExtension(p)
    ensures EndsWith(p, "dcm")
  {
    var name := SplitPath(p).value.name;
    DcmExtension(name);
    EndsWithTrans(name, ".dcm", "dcm");
    EndsWithName(p);
    EndsWithTrans(p, name, "dcm");
  }
}
