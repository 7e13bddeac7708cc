/** Control flow graphs and their paths. */
module ControlFlow {

  type Block = nat

  /** Block b has the successors succs[b], in the order of its terminator; block 0 is the entry. */
  datatype Cfg = Cfg(succs: seq<seq<Block>>) {
    ghost predicate Valid() {
      |succs| > 0 && forall a :: 0 <= a < |succs| ==> forall b :: b in succs[a] ==> b < |succs|
    }

    predicate Edge(a: Block, b: Block) {
      a < |succs| && b in succs[a]
    }
  }

  const ENTRY: Block := 0

  ghost predicate IsPath(g: Cfg, p: seq<Block>) {
    p != [] && (forall k :: 0 <= k < |p| ==> p[k] < |g.succs|) && forall k :: 0 <= k < |p| - 1 ==> g.Edge(p[k], p[k + 1])
  }

  ghost predicate PathBetween(g: Cfg, p: seq<Block>, a: Block, b: Block) {
    IsPath(g, p) && p[0] == a && p[|p| - 1] == b
  }

  /** There is a path from a to b, maybe of no edges. */
  ghost predicate Reaches(g: Cfg, a: Block, b: Block) {
    exists p :: PathBetween(g, p, a, b)
  }

  lemma ReachesSelf(g: Cfg, a: Block)
    requires a < |g.succs|
    ensures Reaches(g, a, a)
  {
    assert PathBetween(g, [a], a, a);
  }

  lemma ReachesOn(g: Cfg, a: Block, b: Block, c: Block)
    requires Reaches(g, a, b) && Reaches(g, b, c)
    ensures Reaches(g, a, c)
  {
    var p :| PathBetween(g, p, a, b);
    var q :| PathBetween(g, q, b, c);
    var r := p + q[1..];
    forall k | 0 <= k < |r| - 1 ensures g.Edge(r[k], r[k + 1]) {
      if k < |p| - 1 {
        assert g.Edge(p[k], p[k + 1]);
      } else {
        assert r[k] == q[k - |p| + 1] && g.Edge(q[k - |p| + 1], q[k - |p| + 2]);
      }
    }
    assert PathBetween(g, r, a, c);
  }

  lemma ReachesEdge(g: Cfg, a: Block, b: Block)
    requires g.Valid() && g.Edge(a, b)
    ensures Reaches(g, a, b)
  {
    assert PathBetween(g, [a, b], a, b);
  }

  /** A set of blocks that is closed under successors holds whatever its blocks reach. */
  lemma {:induction false} ClosedHolds(g: Cfg, inside: set<Block>, p: seq<Block>)
    requires IsPath(g, p) && p[0] in inside && forall a, b :: a in inside && g.Edge(a, b) ==> b in inside
    ensures p[|p| - 1] in inside
    decreases |p|
  {
    if |p| > 1 {
      assert g.Edge(p[0], p[1]);
      forall k | 0 <= k < |p[1..]| - 1 ensures g.Edge(p[1..][k], p[1..][k + 1]) {
        assert g.Edge(p[k + 1], p[k + 2]);
      }
      ClosedHolds(g, inside, p[1..]);
    }
  }
}
