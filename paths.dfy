/**
 * File-system paths as sequences of components, and the `path.join` of a directory with
 * a relative name: every `/` in the name starts a new component.
 */
module Paths {
  import opened Text

  type Path = seq<string>

  function Parent(p: Path): Path
    requires |p| > 0
  {
    p[..|p| - 1]
  }

  /** `path.join(dir, name)` for a name made of plain components. */
  function Join(dir: Path, name: string): (p: Path)
    ensures |p| > |dir| && p[..|dir|] == dir
  {
    dir + Split(name, '/')
  }

  /** A name without `/` is one more component under the directory. */
  lemma JoinPlain(dir: Path, name: string)
    requires '/' !in name
    ensures Join(dir, name) == dir + [name]
  {
    SplitWithoutSeparator(name, '/');
  }

  /** A name `a/b` is two more components: the directory `a`, then `b` inside it. */
  lemma JoinNested(dir: Path, a: string, b: string)
    requires '/' !in a && '/' !in b
    ensures Join(dir, a + "/" + b) == dir + [a, b]
  {
    SplitAfterPiece(a, b, '/');
    SplitWithoutSeparator(b, '/');
  }
}
