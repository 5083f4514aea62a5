/** Stand-ins for `Path.GetFileName` and `Path.GetExtension`, with both `/` and
    `\` treated as directory separators. */
module FilePaths {
  import opened Wrappers
  import opened Text

  predicate IsDirectorySeparator(c: char) {
    c == '/' || c == '\\'
  }

  /** `Path.GetFileName`: the longest suffix of `path` free of directory separators. */
  function FileName(path: string): (r: string)
    ensures |r| <= |path| && r == path[|path| - |r|..]
    ensures forall k :: 0 <= k < |r| ==> !IsDirectorySeparator(r[k])
    ensures |r| < |path| ==> IsDirectorySeparator(path[|path| - |r| - 1])
  {
    if path == [] || IsDirectorySeparator(path[|path| - 1]) then []
    else FileName(path[..|path| - 1]) + [path[|path| - 1]]
  }

  /** The index of the last '.' of `s` that no directory separator follows. */
  function LastDot(s: string): (o: Option<nat>)
    ensures o.Some? ==> o.value < |s| && s[o.value] == '.'
    ensures o.Some? ==> forall k :: o.value < k < |s| ==> s[k] != '.' && !IsDirectorySeparator(s[k])
    ensures o.None? ==> forall k :: |s| - |FileName(s)| <= k < |s| ==> s[k] != '.'
  {
    if s == [] then None
    else if s[|s| - 1] == '.' then Some(|s| - 1)
    else if IsDirectorySeparator(s[|s| - 1]) then None
    else
      var o := LastDot(s[..|s| - 1]);
      assert FileName(s) == FileName(s[..|s| - 1]) + [s[|s| - 1]];
      o
  }

  /** `Path.GetExtension`: the text from the last '.' of the file name on, or
      empty when the file name has no '.' or ends with one. */
  function Extension(path: string): (r: string)
    ensures r != [] ==> 2 <= |r| <= |path| && r[0] == '.' && r == path[|path| - |r|..]
    ensures r != [] ==> forall k :: 1 <= k < |r| ==> r[k] != '.' && !IsDirectorySeparator(r[k])
    ensures r == [] <==> LastDot(path).None? || path[|path| - 1] == '.'
  {
    match LastDot(path)
    case None => []
    case Some(i) => if i == |path| - 1 then [] else path[i..]
  }

  /** Lower-casing leaves dots and separators where they are, so it does not
      move the last dot. */
  lemma {:induction false} LastDotOfLower(s: string)
    ensures LastDot(ToLower(s)) == LastDot(s)
  {
    if s != [] {
      var t := ToLower(s);
      assert t[..|t| - 1] == ToLower(s[..|s| - 1]);
      LastDotOfLower(s[..|s| - 1]);
    }
  }

  /** The extension of the lower-cased name is the lower-cased extension. */
  lemma ExtensionOfLower(s: string)
    ensures Extension(ToLower(s)) == ToLower(Extension(s))
  {
    LastDotOfLower(s);
    var t := ToLower(s);
    match LastDot(s)
    case None =>
    case Some(i) =>
      if i != |s| - 1 {
        LowerSuffix(s, i);
      }
  }

  /** The extension is a suffix of the file name. */
  lemma ExtensionEndsFileName(path: string)
    ensures EndsWith(FileName(path), Extension(path))
  {
    var r, f := Extension(path), FileName(path);
    if r != [] && |f| < |path| {
      var i := LastDot(path).value;
      forall k | i <= k < |path| ensures !IsDirectorySeparator(path[k]) {
      }
      SeparatorPrecedes(path, i, |path| - |f| - 1);
    }
    ShorterSuffix(path, f, r);
  }

  /** A separator lies before any stretch of `path` free of separators. */
  lemma SeparatorPrecedes(path: string, i: nat, j: nat)
    requires forall k :: i <= k < |path| ==> !IsDirectorySeparator(path[k])
    requires j < |path| && IsDirectorySeparator(path[j])
    ensures j < i
  {
  }
}
