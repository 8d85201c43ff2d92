/** Filesystem paths as sequences of components, absolute ones anchored at
    the filesystem root. */
module Paths {
  import opened Strings

  type Path = seq<string>

  /** `p.relative_to(dir)` succeeds: `dir` is a component-wise prefix of `p`. */
  predicate IsUnder(p: Path, dir: Path) {
    |dir| <= |p| && p[..|dir|] == dir
  }

  /** `p.relative_to(dir)`, defined when `p` lies under `dir`. */
  function RelativeTo(p: Path, dir: Path): (r: Path)
    requires IsUnder(p, dir)
    ensures dir + r == p
  {
    assert p == p[..|dir|] + p[|dir|..];
    p[|dir|..]
  }

  /** `root / rel` for a relative path `rel`. */
  function JoinPath(root: Path, rel: Path): (r: Path)
    ensures IsUnder(r, root) && RelativeTo(r, root) == rel
  {
    assert (root + rel)[..|root|] == root;
    root + rel
  }

  /** `str(p)` of an absolute path. */
  function AbsStr(p: Path): string {
    "/" + Join("/", p)
  }

  /** `str(p)` of a relative path; the empty relative path prints as ".". */
  function RelStr(p: Path): string {
    if p == [] then "." else Join("/", p)
  }

  /** `p.name`: the final component, or "" for the root. */
  function BaseName(p: Path): string {
    if p == [] then "" else p[|p| - 1]
  }
}
