/**
 * The import prefix: the relative path from the generated file's directory to
 * the icons directory, with forward slashes, made to start with ".".
 */
module RelativePrefix {

  /** `s.replace(/\\/g, "/")`: every backslash becomes a forward slash. */
  function ReplaceBackslashes(s: string): (r: string)
    ensures |r| == |s|
    ensures forall k :: 0 <= k < |s| ==> r[k] == (if s[k] == '\\' then '/' else s[k])
  {
    if s == [] then [] else [if s[0] == '\\' then '/' else s[0]] + ReplaceBackslashes(s[1..])
  }

  /** The same path written with the other platform's separator (every `/` a backslash). */
  function WithBackslashes(s: string): (r: string)
    ensures |r| == |s|
    ensures forall k :: 0 <= k < |s| ==> r[k] == (if s[k] == '/' then '\\' else s[k])
  {
    if s == [] then [] else [if s[0] == '/' then '\\' else s[0]] + WithBackslashes(s[1..])
  }

  predicate StartsWithDot(s: string)
  {
    |s| > 0 && s[0] == '.'
  }

  /**
   * The prefix used in the import lines, from the raw result of `path.relative`:
   * separators are made forward slashes, and "./" is put in front unless the
   * path already starts with ".".
   */
  function NormalizePrefix(relative: string): (prefix: string)
    ensures '\\' !in prefix
    ensures StartsWithDot(prefix)
    ensures relative == "" ==> prefix == "./"
    ensures StartsWithDot(relative) ==> prefix == ReplaceBackslashes(relative)
    ensures !StartsWithDot(relative) ==> prefix == "./" + ReplaceBackslashes(relative)
    ensures forall c :: c != '/' && c != '.' && c != '\\' ==> (c in prefix <==> c in relative)
  {
    var slashed := ReplaceBackslashes(relative);
    if StartsWithDot(slashed) then slashed else "./" + slashed
  }

  /** Replacing backslashes changes nothing in a text that has none. */
  lemma ReplaceBackslashesNoop(s: string)
    requires '\\' !in s
    ensures ReplaceBackslashes(s) == s
  {
    var r := ReplaceBackslashes(s);
    forall k | 0 <= k < |s| ensures r[k] == s[k] {
      assert s[k] != '\\';
    }
  }

  /** A normalised prefix is a fixed point of normalisation. */
  lemma NormalizeIdempotent(relative: string)
    ensures NormalizePrefix(NormalizePrefix(relative)) == NormalizePrefix(relative)
  {
    ReplaceBackslashesNoop(NormalizePrefix(relative));
  }

  /** The prefix does not depend on the host's separator convention. */
  lemma NormalizeSeparatorIndependent(posix: string)
    requires '\\' !in posix
    ensures NormalizePrefix(WithBackslashes(posix)) == NormalizePrefix(posix)
  {
    var windows := WithBackslashes(posix);
    var back := ReplaceBackslashes(windows);
    forall k | 0 <= k < |posix| ensures back[k] == posix[k] {
      assert posix[k] != '\\';
    }
    assert back == posix;
    ReplaceBackslashesNoop(posix);
    assert StartsWithDot(windows) <==> StartsWithDot(posix);
  }

  /** A module specifier that is resolved relative to the importing file: ".", "..", or one starting with "./" or "../". */
  predicate IsRelativeSpecifier(p: string)
  {
    p == "." || p == ".." || (|p| >= 2 && p[..2] == "./") || (|p| >= 3 && p[..3] == "../")
  }

  /** A path that does not start with "." is made a relative specifier by the "./" put in front. */
  lemma NormalizeMakesRelative(relative: string)
    requires !StartsWithDot(relative)
    ensures IsRelativeSpecifier(NormalizePrefix(relative))
  {
    assert NormalizePrefix(relative)[..2] == "./";
  }

  /**
   * Only a leading "." is looked at: a path into a directory whose name starts
   * with a dot (such as ".icons") keeps no "./" in front, so the import is not
   * a relative specifier.
   */
  lemma HiddenDirectoryPrefix(dir: string)
    requires '\\' !in dir && |dir| > 0 && dir[0] != '.' && dir[0] != '/'
    ensures NormalizePrefix("." + dir) == "." + dir
    ensures !IsRelativeSpecifier(NormalizePrefix("." + dir))
  {
    var hidden := "." + dir;
    assert '\\' !in hidden by {
      forall k | 0 <= k < |hidden| ensures hidden[k] != '\\' {
        if k > 0 { assert hidden[k] == dir[k - 1]; }
      }
    }
    ReplaceBackslashesNoop(hidden);
    assert hidden[1] == dir[0];
    assert |hidden| >= 2 ==> hidden[..2][1] == dir[0];
    assert |hidden| >= 3 ==> hidden[..3][1] == dir[0];
  }
}
