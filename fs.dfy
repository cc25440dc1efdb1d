/**
 * The part of Node's `fs` module the generator uses, over a filesystem held
 * as a map from absolute paths (lists of segments; the root is `[]` and is not
 * a key) to files and directories.
 */
module Fs {
  import opened Wrappers

  type Path = seq<string>

  datatype Node = File(content: string) | Dir

  type Tree = map<Path, Node>

  /** ENOENT, ENOTDIR, EISDIR and EEXIST. */
  datatype FsError = NoSuchEntry | NotADirectory | IsADirectory | AlreadyExists

  /** `path.dirname`; the root is its own parent. */
  function Dirname(p: Path): (d: Path)
    ensures p != [] ==> d + [p[|p| - 1]] == p
  {
    if p == [] then [] else p[..|p| - 1]
  }

  /** The directories `mkdir -p` must have for `dir`: its non-root prefixes, `dir` included. */
  function Ancestors(dir: Path): (a: set<Path>)
    ensures forall k :: 1 <= k <= |dir| ==> dir[..k] in a
    ensures forall q :: q in a ==> 1 <= |q| <= |dir| && q == dir[..|q|]
  {
    set k | 1 <= k <= |dir| :: dir[..k]
  }

  /** Every path's non-root parents are directories, and the root is not a key. */
  ghost predicate WellFormed(t: Tree)
  {
    && [] !in t
    && forall p, k :: p in t && 1 <= k < |p| ==> p[..k] in t && t[p[..k]].Dir?
  }

  /** `readFileSync(p, "utf8")`, every failure (missing, a directory) read as no content. */
  function ReadFile(t: Tree, p: Path): (r: Option<string>)
    ensures r.Some? <==> p != [] && p in t && t[p].File?
    ensures r.Some? ==> t[p] == File(r.value)
  {
    if p != [] && p in t && t[p].File? then Some(t[p].content) else None
  }

  /** A file stands at `dir` or at one of its ancestors. */
  predicate BlockedByFile(t: Tree, dir: Path)
  {
    exists k :: 1 <= k <= |dir| && dir[..k] in t && t[dir[..k]].File?
  }

  /** A file stands at one of the proper ancestors of `dir`. */
  predicate BlockedAbove(t: Tree, dir: Path)
  {
    exists k :: 1 <= k < |dir| && dir[..k] in t && t[dir[..k]].File?
  }

  /**
   * `mkdirSync(dir, {recursive: true})`: fails, creating nothing, when a file
   * stands where one of the directories should be: with ENOTDIR when it is an
   * ancestor of `dir`, with EEXIST when it is `dir` itself. Otherwise adds
   * every missing directory and changes nothing else.
   */
  function Mkdirp(t: Tree, dir: Path): (r: Result<Tree, FsError>)
    ensures r.Failure? <==> BlockedByFile(t, dir)
    ensures r.Failure? ==> (r.error == NotADirectory <==> BlockedAbove(t, dir))
    ensures r.Failure? ==> (r.error == AlreadyExists <==> !BlockedAbove(t, dir))
    ensures r.Failure? && r.error == AlreadyExists ==> dir in t && t[dir].File?
    ensures r.Success? ==> r.value.Keys == t.Keys + Ancestors(dir)
    ensures r.Success? ==> forall q :: q in t ==> r.value[q] == t[q]
    ensures r.Success? ==> forall q :: q in Ancestors(dir) ==> r.value[q] == Dir
  {
    if BlockedAbove(t, dir) then Failure(NotADirectory)
    else if BlockedByFile(t, dir) then
      assert dir[..|dir|] == dir;
      Failure(AlreadyExists)
    else Success(map q | q in t.Keys + Ancestors(dir) :: if q in t then t[q] else Dir)
  }

  predicate ParentIsDir(t: Tree, p: Path)
  {
    |p| <= 1 || (Dirname(p) in t && t[Dirname(p)].Dir?)
  }

  /**
   * `writeFileSync(p, content)`: fails with EISDIR on a directory, with
   * ENOTDIR when a file stands on the way to `p`, and with ENOENT when a
   * directory on the way is missing; otherwise `p` holds exactly `content`
   * and nothing else changes.
   */
  function WriteFile(t: Tree, p: Path, content: string): (r: Result<Tree, FsError>)
    ensures r.Success? <==> p != [] && !(p in t && t[p].Dir?) && ParentIsDir(t, p)
    ensures r.Success? ==> r.value == t[p := File(content)]
    ensures r.Failure? && r.error == NotADirectory ==> BlockedByFile(t, Dirname(p))
    ensures r.Failure? && r.error == NoSuchEntry ==> !BlockedByFile(t, Dirname(p)) && Dirname(p) !in t
  {
    if p == [] || (p in t && t[p].Dir?) then Failure(IsADirectory)
    else if !ParentIsDir(t, p) then
      if BlockedByFile(t, Dirname(p)) then Failure(NotADirectory)
      else
        assert Dirname(p)[..|Dirname(p)|] == Dirname(p);
        Failure(NoSuchEntry)
    else Success(t[p := File(content)])
  }

  /**
   * After a successful `mkdir -p` of a path's parent, the parent is a
   * directory and the path itself is as it was.
   */
  lemma MkdirpPreparesParent(t: Tree, p: Path)
    requires p != [] && !BlockedByFile(t, Dirname(p))
    ensures var u := Mkdirp(t, Dirname(p)).value;
            && ParentIsDir(u, p)
            && (p in u <==> p in t)
            && (p in t ==> u[p] == t[p])
  {
    var dir := Dirname(p);
    assert p !in Ancestors(dir);
    if |p| >= 2 {
      assert dir[..|dir|] == dir;
      assert dir in Ancestors(dir);
    }
  }

  /** In a well-formed filesystem, `mkdir -p` of a path that is a file fails with EEXIST, not ENOTDIR. */
  lemma MkdirpOnFile(t: Tree, dir: Path)
    requires WellFormed(t) && dir in t && t[dir].File?
    ensures Mkdirp(t, dir) == Failure(AlreadyExists)
  {
    assert dir[..|dir|] == dir;
    forall k | 1 <= k < |dir| ensures dir[..k] in t && t[dir[..k]].Dir? {
    }
  }

  /** Creating missing directories keeps a filesystem well formed. */
  lemma MkdirpWellFormed(t: Tree, dir: Path)
    requires WellFormed(t) && Mkdirp(t, dir).Success?
    ensures WellFormed(Mkdirp(t, dir).value)
  {
    var u := Mkdirp(t, dir).value;
    forall p, k | p in u && 1 <= k < |p| ensures p[..k] in u && u[p[..k]].Dir? {
      if p in t {
        assert p[..k] in t && t[p[..k]].Dir?;
      } else {
        assert p in Ancestors(dir);
        assert p[..k] == dir[..k];
        assert p[..k] in Ancestors(dir);
      }
    }
  }

  /** Writing a file whose parents are directories keeps a filesystem well formed. */
  lemma WriteFileWellFormed(t: Tree, p: Path, content: string)
    requires WellFormed(t) && WriteFile(t, p, content).Success?
    requires forall k :: 1 <= k < |p| ==> p[..k] in t && t[p[..k]].Dir?
    ensures WellFormed(WriteFile(t, p, content).value)
  {
    var u := WriteFile(t, p, content).value;
    forall q, k | q in u && 1 <= k < |q| ensures q[..k] in u && u[q[..k]].Dir? {
      if q == p {
        assert p[..k] in t && t[p[..k]].Dir?;
        assert p[..k] != p;
      } else {
        assert q in t;
        assert q[..k] in t && t[q[..k]].Dir?;
        assert q[..k] != p;
      }
    }
  }

  /** The filesystem as the mutable state that the generator's `fs` calls act on. */
  class FileSystem {
    var tree: Tree

    constructor (initial: Tree)
      ensures tree == initial
    {
      tree := initial;
    }

    method ReadFileSync(p: Path) returns (contents: Option<string>)
      ensures contents.Some? <==> p != [] && p in tree && tree[p].File?
      ensures contents.Some? ==> tree[p] == File(contents.value)
    {
      contents := ReadFile(tree, p);
    }

    method MkdirSync(dir: Path) returns (err: Option<FsError>)
      modifies this
      ensures err.Some? <==> BlockedByFile(old(tree), dir)
      ensures err.Some? ==> err.value == Mkdirp(old(tree), dir).error && tree == old(tree)
      ensures err.None? ==> tree == Mkdirp(old(tree), dir).value
    {
      var r := Mkdirp(tree, dir);
      if r.Failure? {
        err := Some(r.error);
      } else {
        tree := r.value;
        err := None;
      }
    }

    method WriteFileSync(p: Path, content: string) returns (err: Option<FsError>)
      modifies this
      ensures err.Some? <==> WriteFile(old(tree), p, content).Failure?
      ensures err.Some? ==> err.value == WriteFile(old(tree), p, content).error && tree == old(tree)
      ensures err.None? ==> tree == old(tree)[p := File(content)]
    {
      var r := WriteFile(tree, p, content);
      if r.Failure? {
        err := Some(r.error);
      } else {
        tree := r.value;
        err := None;
      }
    }
  }
}
