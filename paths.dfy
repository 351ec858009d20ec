/**
 * POSIX path handling as the source uses it: `os.path.join` of a directory
 * and one name, and `os.path.basename`.
 */
module Paths {

  /**
   * `os.path.join(dir, name)`: a name that starts with '/' is absolute and
   * replaces the directory; otherwise a '/' is inserted unless the directory
   * is empty or already ends with one.
   */
  function Join(dir: string, name: string): string
  {
    if |name| > 0 && name[0] == '/' then name
    else if dir == [] || dir[|dir| - 1] == '/' then dir + name
    else dir + "/" + name
  }

  /** The joined path ends with `name`, and starts with `dir` unless `name` is absolute. */
  lemma JoinKeepsParts(dir: string, name: string)
    ensures var p := Join(dir, name);
      && |name| <= |p| && p[|p| - |name|..] == name
      && ((name == [] || name[0] != '/') ==> dir <= p)
  {
    if !(|name| > 0 && name[0] == '/') && !(dir == [] || dir[|dir| - 1] == '/') {
      assert Join(dir, name) == (dir + "/") + name;
    }
  }

  /** `os.path.basename(p)`: everything after the last '/' of `p`. */
  function Basename(p: string): (r: string)
    ensures |r| <= |p| && '/' !in r
  {
    if p == [] then []
    else if p[|p| - 1] == '/' then []
    else Basename(p[..|p| - 1]) + [p[|p| - 1]]
  }

  /** The basename is the suffix of `p` that follows its last '/' (all of `p` when it has none). */
  lemma {:induction false} BasenameIsLastComponent(p: string)
    ensures var r := Basename(p);
      p[|p| - |r|..] == r && (r == p || p[|p| - |r| - 1] == '/')
  {
    if p != [] && p[|p| - 1] != '/' {
      var q := p[..|p| - 1];
      BasenameIsLastComponent(q);
      var r := Basename(q);
      assert p[|p| - |r| - 1..] == q[|q| - |r|..] + [p[|p| - 1]];
      if r != q {
        assert p[|p| - |r| - 2] == q[|q| - |r| - 1];
      }
    }
  }

  /** A name without '/' placed after a directory part is its own basename. */
  lemma {:induction false} BasenameAfterDirectory(pre: string, name: string)
    requires pre == [] || pre[|pre| - 1] == '/'
    requires '/' !in name
    ensures Basename(pre + name) == name
  {
    if name == [] {
      assert pre + name == pre;
    } else {
      var p := pre + name;
      var init := name[..|name| - 1];
      var last := name[|name| - 1];
      assert last in name;
      assert last != '/';
      assert p[|p| - 1] == last;
      assert p[..|p| - 1] == pre + init;
      assert '/' !in init by {
        forall c | c in init ensures c != '/' {
          assert c in name;
        }
      }
      BasenameAfterDirectory(pre, init);
      calc {
        Basename(p);
        Basename(p[..|p| - 1]) + [last];
        init + [last];
        { assert name == init + [last]; }
        name;
      }
    }
  }

  /** Joining a plain name (no '/') to any directory keeps the name as the basename. */
  lemma BasenameOfJoin(dir: string, name: string)
    requires '/' !in name
    ensures Basename(Join(dir, name)) == name
  {
    if dir == [] || dir[|dir| - 1] == '/' {
      BasenameAfterDirectory(dir, name);
    } else {
      assert Join(dir, name) == (dir + "/") + name;
      BasenameAfterDirectory(dir + "/", name);
    }
  }

  /** Whatever precedes a '/' (or nothing) does not change the basename of what follows it. */
  lemma {:induction false} BasenameIgnoresDirectory(pre: string, p: string)
    requires pre == [] || pre[|pre| - 1] == '/'
    ensures Basename(pre + p) == Basename(p)
  {
    if p == [] {
      assert pre + p == pre;
    } else {
      var q := pre + p;
      assert q[|q| - 1] == p[|p| - 1];
      if p[|p| - 1] != '/' {
        assert q[..|q| - 1] == pre + p[..|p| - 1];
        BasenameIgnoresDirectory(pre, p[..|p| - 1]);
      }
    }
  }

  /** Joining any path to a directory leaves its basename as it was. */
  lemma BasenameOfJoinedPath(dir: string, p: string)
    ensures Basename(Join(dir, p)) == Basename(p)
  {
    if |p| > 0 && p[0] == '/' {
    } else if dir == [] || dir[|dir| - 1] == '/' {
      BasenameIgnoresDirectory(dir, p);
    } else {
      assert Join(dir, p) == (dir + "/") + p;
      BasenameIgnoresDirectory(dir + "/", p);
    }
  }

  /** For one directory, joining is injective on plain names. */
  lemma JoinInjective(dir: string, a: string, b: string)
    requires '/' !in a && '/' !in b
    requires Join(dir, a) == Join(dir, b)
    ensures a == b
  {
    BasenameOfJoin(dir, a);
    BasenameOfJoin(dir, b);
  }
}
