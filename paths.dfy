/** Paths as sequences of segments below the root directory. */
module Paths {

  /** One segment of a path, such as ".vimrc" or ".config". */
  type Segment = string

  /** An absolute, canonical path: its segments below the root; [] is the root. */
  type Path = seq<Segment>

  /** Pathname#basename: the last segment. */
  function Basename(p: Path): Segment
    requires p != []
  {
    p[|p| - 1]
  }

  /** Pathname#dirname: the path without its last segment. */
  function Dirname(p: Path): (r: Path)
    requires p != []
    ensures |r| == |p| - 1
    ensures r + [Basename(p)] == p
  {
    p[..|p| - 1]
  }

  /** The ancestors of p below the root, p itself included. */
  function Ancestors(p: Path): (r: set<Path>)
    ensures forall q :: q in r <==> q != [] && q <= p
  {
    var r := set i | 1 <= i <= |p| :: p[..i];
    assert forall q :: q != [] && q <= p ==> q == p[..|q|];
    r
  }

  /** The path that `within`, a path at or below `from`, has when `from` is moved to `to`. */
  function Rebase(within: Path, from: Path, to: Path): (r: Path)
    requires from <= within
    ensures to <= r && |r| == |to| + |within| - |from|
    ensures r[|to|..] == within[|from|..]
  {
    to + within[|from|..]
  }

  /** Rebasing from `from` to `to` is undone by rebasing back. */
  lemma RebaseInverse(within: Path, from: Path, to: Path)
    requires from <= within
    ensures Rebase(Rebase(within, from, to), to, from) == within
  {
  }

  /** Distinct paths below `from` stay distinct when rebased. */
  lemma RebaseInjective(from: Path, to: Path)
    ensures forall p, q :: from <= p && from <= q && Rebase(p, from, to) == Rebase(q, from, to) ==> p == q
  {
    forall p, q | from <= p && from <= q && Rebase(p, from, to) == Rebase(q, from, to)
      ensures p == q
    {
      assert p == from + p[|from|..];
      assert q == from + q[|from|..];
    }
  }

  /** Two ancestors of the same path are ancestors of one another. */
  lemma PrefixesOfOnePath(p: Path, q: Path, r: Path)
    requires p <= r && q <= r
    ensures p <= q || q <= p
  {
    if |p| <= |q| {
      assert q[..|p|] == r[..|p|];
    } else {
      assert p[..|q|] == r[..|q|];
    }
  }
}
