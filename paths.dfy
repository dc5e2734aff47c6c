/** File-system paths as sequences of components. `PathBuf::push` and
    `Path::join` of a relative component append it. */
module Paths {
  type Path = seq<string>

  /** `Path::new(s)` / `PathBuf::from(s)`: the empty string is the empty path,
      any other string is a path of one component (separators inside it are not
      interpreted). */
  function PathOf(s: string): (p: Path)
    ensures |p| <= 1
    ensures p == [] <==> s == ""
    ensures s != "" ==> p[0] == s
  {
    if s == "" then [] else [s]
  }

  /** The non-empty prefixes of `p`: `p` and every ancestor of it, which is what
      `fs::create_dir_all(p)` makes sure exist. */
  function Prefixes(p: Path): (r: set<Path>)
    ensures p != [] ==> p in r
    ensures forall q :: q in r ==> q != [] && q <= p
  {
    assert p != [] ==> p[..|p|] == p;
    set i | 1 <= i <= |p| :: p[..i]
  }

  /** Creating a child also creates its parent's ancestors, and nothing else. */
  lemma {:induction false} PrefixesOfChild(p: Path, c: string)
    ensures Prefixes(p + [c]) == Prefixes(p) + {p + [c]}
  {
    var child := p + [c];
    forall q | q in Prefixes(child) ensures q in Prefixes(p) + {child} {
      var i :| 1 <= i <= |child| && q == child[..i];
      if i <= |p| {
        assert q == p[..i];
      } else {
        assert q == child;
      }
    }
    forall q | q in Prefixes(p) ensures q in Prefixes(child) {
      var i :| 1 <= i <= |p| && q == p[..i];
      assert q == child[..i];
    }
  }
}
