/**
 * The parts of Python's `posixpath` the program uses to build file names:
 * `basename`, `dirname`, `join` (two arguments), `splitext` and `abspath`.
 */
module PosixPath {
  import opened Strings

  predicate AllSlashes(s: string)
  {
    forall i :: 0 <= i < |s| ==> s[i] == '/'
  }

  /** `os.path.basename(p)`: the longest suffix of `p` without a `/`. */
  function Basename(p: string): (r: string)
    ensures '/' !in r
    ensures |r| <= |p| && r == p[|p| - |r|..]
    ensures |r| < |p| ==> p[|p| - |r| - 1] == '/'
  {
    p[RFind(p, '/') + 1..]
  }

  /** `head.rstrip('/')`. */
  function StripTrailingSlashes(s: string): (r: string)
    ensures |r| <= |s| && r == s[..|r|]
    ensures AllSlashes(s[|r|..])
    ensures r == [] || r[|r| - 1] != '/'
  {
    if s == [] || s[|s| - 1] != '/' then s else StripTrailingSlashes(s[..|s| - 1])
  }

  /**
   * `os.path.dirname(p)`: everything before the basename, without the slashes that
   * separate it from the basename, unless it consists of slashes only.
   */
  function Dirname(p: string): (r: string)
    ensures |r| <= RFind(p, '/') + 1 && r == p[..|r|]
    ensures AllSlashes(p[|r|..RFind(p, '/') + 1])
    ensures r == [] || AllSlashes(r) || r[|r| - 1] != '/'
    ensures var head := p[..RFind(p, '/') + 1]; head == [] || AllSlashes(head) ==> r == head
  {
    var head := p[..RFind(p, '/') + 1];
    if head != [] && !AllSlashes(head) then StripTrailingSlashes(head) else head
  }

  /** `os.path.join(a, b)`. */
  function Join(a: string, b: string): string
  {
    if |b| > 0 && b[0] == '/' then b
    else if a == [] || a[|a| - 1] == '/' then a + b
    else a + "/" + b
  }

  /** Joining different relative names to the same directory gives different paths. */
  lemma JoinInjective(dir: string, a: string, b: string)
    requires |a| > 0 && a[0] != '/' && |b| > 0 && b[0] != '/'
    requires Join(dir, a) == Join(dir, b)
    ensures a == b
  {
    var pre := if dir == [] || dir[|dir| - 1] == '/' then dir else dir + "/";
    assert Join(dir, a) == pre + a && Join(dir, b) == pre + b;
    assert a == (pre + a)[|pre|..] && b == (pre + b)[|pre|..];
  }

  /** A name joined to a directory is the basename of the result. */
  lemma BasenameOfJoin(dir: string, name: string)
    requires '/' !in name
    ensures Basename(Join(dir, name)) == name
  {
    var p := Join(dir, name);
    if p != name {
      var k := |p| - |name| - 1;
      assert p == p[..k + 1] + name;
      assert p[k] == '/';
      forall i | k < i < |p|
        ensures p[i] != '/'
      {
        assert p[i] == name[i - k - 1];
      }
      RFindAt(p, '/', k);
    }
  }

  /** A name joined under the `dirname` of a path lies in that directory and keeps its name. */
  lemma JoinUnderDirname(p: string, name: string)
    requires '/' !in name
    ensures Dirname(Join(Dirname(p), name)) == Dirname(p)
    ensures Basename(Join(Dirname(p), name)) == name
  {
    var dir := Dirname(p);
    assert dir == [] || AllSlashes(dir) || dir[|dir| - 1] != '/';
    BasenameOfJoin(dir, name);
    DirnameOfJoin(dir, name);
  }

  /**
   * Joining a name to a directory as `dirname` returns it (no trailing slash unless it
   * is all slashes) and taking `dirname` of the result gives the directory back.
   */
  lemma DirnameOfJoin(dir: string, name: string)
    requires dir == [] || AllSlashes(dir) || dir[|dir| - 1] != '/'
    requires '/' !in name
    ensures Dirname(Join(dir, name)) == dir
  {
    var p := Join(dir, name);
    BasenameOfJoin(dir, name);
    var k := RFind(p, '/');
    if dir == [] {
      assert p == name;
      assert k == -1;
    } else if dir[|dir| - 1] == '/' {
      assert p == dir + name;
      RFindAt(p, '/', |dir| - 1);
      assert p[..k + 1] == dir;
    } else {
      assert p == dir + "/" + name;
      RFindAt(p, '/', |dir|);
      assert p[..k + 1] == dir + "/";
      var head := dir + "/";
      assert !AllSlashes(head) by { assert head[|dir| - 1] != '/'; }
      assert head[..|head| - 1] == dir;
    }
  }

  /**
   * `os.path.splitext(p)[0]`: `p` without its extension. The extension starts at the
   * last `.` of the last path component, provided some character before that dot in
   * the component is not a dot (so `.bashrc` has no extension).
   */
  function SplitExtRoot(p: string): (r: string)
    ensures |r| <= |p| && r == p[..|r|]
    ensures r != p ==> p[|r|] == '.' && forall i :: |r| < i < |p| ==> p[i] != '.' && p[i] != '/'
    ensures r == p || |r| == RFind(p, '.')
    ensures (forall i :: RFind(p, '/') + 1 <= i < RFind(p, '.') ==> p[i] == '.') ==> r == p
    ensures RFind(p, '.') > RFind(p, '/') && (exists i :: RFind(p, '/') + 1 <= i < RFind(p, '.') && p[i] != '.') ==> r != p
  {
    var sep := RFind(p, '/');
    var dot := RFind(p, '.');
    if dot > sep && exists i :: sep + 1 <= i < dot && p[i] != '.' then p[..dot] else p
  }

  /** The extension of `root + "." + ext` is `ext` when `ext` has no `.` or `/` and `root` has a non-dot. */
  lemma SplitExtRootOf(root: string, ext: string, k: nat)
    requires k < |root| && root[k] != '.' && '/' !in root[k..]
    requires '.' !in ext && '/' !in ext
    ensures SplitExtRoot(root + "." + ext) == root
  {
    var p := root + "." + ext;
    RFindAt(p, '.', |root|);
    assert p[k] == root[k];
    forall i | k <= i < |p|
      ensures p[i] != '/'
    {
      if i < |root| {
        assert p[i] == root[k..][i - k];
      } else if i > |root| {
        assert p[i] == ext[i - |root| - 1];
      }
    }
    assert p[..|root|] == root;
  }

  predicate IsAbs(p: string)
  {
    |p| > 0 && p[0] == '/'
  }

  /** `os.path.abspath(p)` with the current directory `cwd`, without `normpath`. */
  function AbsPath(cwd: string, p: string): string
  {
    if IsAbs(p) then p else Join(cwd, p)
  }
}
