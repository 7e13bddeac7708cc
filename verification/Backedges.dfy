/** The back edges that a depth-first walk finds. */
module Backedges {
  import opened ControlFlow

  type Edges = seq<(Block, Block)>

  ghost predicate Unreported(p: seq<Block>, edges: Edges) {
    forall k :: 0 <= k < |p| - 1 ==> (p[k], p[k + 1]) !in edges
  }

  /** What remains of the reachable blocks without the given edges has no cycle. */
  ghost predicate AcyclicWithout(g: Cfg, edges: Edges) {
    forall p :: IsPath(g, p) && Reaches(g, ENTRY, p[0]) && |p| > 1 && p[0] == p[|p| - 1] ==> !Unreported(p, edges)
  }

  /** Each edge closes a cycle with none other of them on it: none can be spared. */
  ghost predicate NoneSpare(g: Cfg, edges: Edges) {
    forall e :: e in edges ==> exists p :: PathBetween(g, p, e.1, e.0) && Unreported(p, edges)
  }

  // ----- The search as a recursion ----------------------------------------------------------

  /** Searches on from block u, from its i-th successor, with the blocks between the entry and u on the way: the blocks
      seen in the end, and the edges found, among them those that lead back to a block on the way. */
  ghost function Search(g: Cfg, u: Block, i: nat, seen: set<Block>, way: set<Block>, found: Edges): (r: (set<Block>, Edges))
    requires g.Valid() && u < |g.succs| && i <= |g.succs[u]|
    ensures seen <= r.0
    decreases Left(g, seen), |g.succs[u]| - i
  {
    if i == |g.succs[u]| then (seen, found)
    else
      var b := g.succs[u][i];
      assert b in g.succs[u];
      if b in seen then Search(g, u, i + 1, seen, way, if b in way then found + [(u, b)] else found)
      else
        FewerLeft(g, seen, b);
        var deeper := Search(g, b, 0, seen + {b}, way + {b}, found);
        NoMoreLeft(g, seen + {b}, deeper.0);
        Search(g, u, i + 1, deeper.0, way, deeper.1)
  }

  lemma NoMoreLeft(g: Cfg, seen: set<Block>, more: set<Block>)
    requires seen <= more
    ensures Left(g, more) <= Left(g, seen)
  {
    var a, b := set c: Block | c < |g.succs| && c !in more, set c: Block | c < |g.succs| && c !in seen;
    SubsetIsSmaller(a, b);
  }

  lemma {:induction false} SubsetIsSmaller(a: set<Block>, b: set<Block>)
    requires a <= b
    ensures |a| <= |b|
  {
    if a != {} {
      var x :| x in a;
      SubsetIsSmaller(a - {x}, b - {x});
    }
  }

  /** Finds the edges that lead back into the stack of a depth-first walk, those that the recursive search finds. Each
      closes a cycle that has no other of them, no cycle is without one, and an edge that is there twice is reported twice. */
  method FindFunctionBackedges(g: Cfg) returns (result: Edges, ghost visited: set<Block>)
    requires g.Valid()
    ensures forall b :: b in visited <==> Reaches(g, ENTRY, b)
    ensures forall e :: e in result ==> e.0 < |g.succs| && g.Edge(e.0, e.1) && Reaches(g, ENTRY, e.0) && Reaches(g, e.1, e.0)
    ensures AcyclicWithout(g, result) && NoneSpare(g, result)
    ensures forall e :: e in result ==> Reported(result, e.0, e.1) == Times(g.succs[e.0], |g.succs[e.0]|, e.1)
    ensures g.Valid() && ENTRY < |g.succs| && (visited, result) == Search(g, ENTRY, 0, {ENTRY}, {ENTRY}, [])
  {
    hide *;
    result := [];
    HasEntry(g);
    if g.succs[ENTRY] == [] {
      visited := {ENTRY};
      NothingToDo(g);
      return;
    }
    var seen: set<Block> := {ENTRY};
    var stack: Stack := [(ENTRY, 0)];
    var inStack: set<Block> := {ENTRY};
    ghost var done: seq<Block> := [];
    ghost var tree: Tree := {};
    Begins(g);
    SearchBegins(g);
    while stack != []
      invariant Walk(g, seen, stack, inStack, result, done) && Grown(g, stack, result, done, tree)
      invariant Searching(g, seen, stack, result)
      decreases Left(g, seen), |stack|
    {
      var top := |stack| - 1;
      var parent := stack[top].0;
      var b := parent;
      var foundNew := false;
      ghost var height, seen0 := |stack|, seen;
      TopIs(g, seen, stack, inStack, result, done);
      while stack[top].1 < |g.succs[parent]|
        invariant !foundNew && seen == seen0 && |stack| == height && stack[top].0 == parent && parent < |g.succs| && stack[top].1 <= |g.succs[parent]|
        invariant Walk(g, seen, stack, inStack, result, done) && Grown(g, stack, result, done, tree)
        invariant Searching(g, seen, stack, result)
        decreases |g.succs[parent]| - stack[top].1
      {
        b := g.succs[parent][stack[top].1];
        ghost var before := stack;
        stack := stack[top := (parent, stack[top].1 + 1)];
        Advances(g, before, stack, b);
        if b !in seen {
          TreeDescends(g, seen, before, inStack, result, done, stack, b, tree);
          SearchDescends(g, seen, before, result, stack, b);
          tree := tree + {(parent, b)};
          Descends(g, seen, before, inStack, result, done, stack, b);
          seen := seen + {b};
          foundNew := true;
          break;
        }
        if b in inStack {
          TreeReports(g, seen, before, inStack, result, done, stack, b, tree);
          SearchReports(g, seen, before, inStack, result, done, stack, b);
          Reports(g, seen, before, inStack, result, done, stack, b);
          result := result + [(parent, b)];
        } else {
          TreePasses(g, before, result, done, stack, tree);
          SearchPasses(g, seen, before, inStack, result, done, stack, b);
          Passes(g, seen, before, inStack, result, done, stack, b);
        }
      }
      if foundNew {
        inStack := inStack + {b};
        stack := stack + [(b, 0)];
      } else {
        TreeAscends(g, stack, result, done, tree);
        SearchAscends(g, seen, stack, result);
        Ascends(g, seen, stack, inStack, result, done);
        done := done + [parent];
        inStack := inStack - {parent};
        stack := stack[..top];
      }
    }
    Ends(g, seen, inStack, result, done);
    TreeEnds(g, result, done, tree);
    SearchEnds(g, seen, result);
    visited := seen;
  }

  // ----- The state of the walk -----------------------------------------------------------

  type Stack = seq<(Block, nat)>

  ghost predicate Walk(g: Cfg, seen: set<Block>, stack: Stack, inStack: set<Block>, result: Edges, done: seq<Block>) {
    && Placed(g, seen, stack, inStack, done) && Chained(g, stack) && Handled(g, stack, result, done)
    && Finished(g, result, done) && Closing(g, seen, result) && Counted(g, stack, result)
  }

  /** Seen blocks are reachable, and either on the stack or done. */
  ghost predicate Placed(g: Cfg, seen: set<Block>, stack: Stack, inStack: set<Block>, done: seq<Block>) {
    && ENTRY in seen && (forall b :: b in seen ==> b < |g.succs| && Reaches(g, ENTRY, b))
    && (forall b :: b in inStack <==> exists k :: 0 <= k < |stack| && stack[k].0 == b)
    && (forall j, k :: 0 <= j < k < |stack| ==> stack[j].0 != stack[k].0)
    && (forall b :: b in seen <==> b in inStack || b in done)
    && (forall b :: b in done ==> b !in inStack)
    && (forall j, k :: 0 <= j < k < |done| ==> done[j] != done[k])
  }

  /** Each block on the stack was reached over the last edge tried by the one below. */
  ghost predicate Chained(g: Cfg, stack: Stack) {
    && (forall k :: 0 <= k < |stack| ==> stack[k].0 < |g.succs| && stack[k].1 <= |g.succs[stack[k].0]|)
    && (forall k :: 0 <= k < |stack| - 1 ==> stack[k].1 > 0 && g.succs[stack[k].0][stack[k].1 - 1] == stack[k + 1].0)
  }

  /** An edge already tried leads to a block that is done, was reported, or leads to the block above. */
  ghost predicate Handled(g: Cfg, stack: Stack, result: Edges, done: seq<Block>)
    requires Chained(g, stack)
  {
    forall k, j :: 0 <= k < |stack| && 0 <= j < stack[k].1 ==>
      var u, v := stack[k].0, g.succs[stack[k].0][j];
      v in done || (u, v) in result || (k + 1 < |stack| && v == stack[k + 1].0)
  }

  /** Blocks that are done lead to blocks done before them, but for reported edges. */
  ghost predicate Finished(g: Cfg, result: Edges, done: seq<Block>) {
    forall i: int, v: Block :: 0 <= i < |done| && g.Edge(done[i], v) ==> (done[i], v) in result || v in done[..i]
  }

  ghost predicate Closing(g: Cfg, seen: set<Block>, result: Edges) {
    forall e :: e in result ==> g.Edge(e.0, e.1) && e.0 in seen && e.1 in seen && Reaches(g, e.1, e.0)
  }

  /** An edge from the stack was reported as often as it was tried, if it leads to its own block or one below;
      an edge from a block off the stack was reported as often as it is there, or never. */
  ghost predicate Counted(g: Cfg, stack: Stack, result: Edges)
    requires Chained(g, stack)
  {
    && (forall k: int, v: Block {:trigger CountedAt(g, stack, result, k, v)} :: 0 <= k < |stack| ==> CountedAt(g, stack, result, k, v))
    && (forall u: Block, v: Block :: (u, v) in result && u < |g.succs| && !OnStack(stack, u) ==>
          Reported(result, u, v) == Times(g.succs[u], |g.succs[u]|, v))
  }

  ghost predicate CountedAt(g: Cfg, stack: Stack, result: Edges, k: int, v: Block)
    requires 0 <= k < |stack| && Chained(g, stack)
  {
    var (u, i) := stack[k];
    Reported(result, u, v) == if Below(stack, k, v) then Times(g.succs[u], i, v) else 0
  }

  /** How often the edge was reported. */
  ghost function Reported(result: Edges, u: Block, v: Block): nat {
    multiset(result)[(u, v)]
  }

  /** How often v is among the first i successors. */
  ghost function Times(s: seq<Block>, i: nat, v: Block): nat
    requires i <= |s|
  {
    multiset(s[..i])[v]
  }

  ghost predicate Below(stack: Stack, k: int, v: Block) {
    exists m :: 0 <= m <= k < |stack| && stack[m].0 == v
  }

  ghost predicate OnStack(stack: Stack, u: Block) {
    exists k :: 0 <= k < |stack| && stack[k].0 == u
  }

  /** The blocks not seen yet. */
  ghost function Left(g: Cfg, seen: set<Block>): nat {
    |set b: Block | b < |g.succs| && b !in seen|
  }

  // ----- Steps of the walk ----------------------------------------------------------------

  lemma HasEntry(g: Cfg)
    requires g.Valid()
    ensures ENTRY < |g.succs|
  {
  }

  lemma NothingToDo(g: Cfg)
    requires g.Valid() && g.succs[ENTRY] == []
    ensures forall b :: b == ENTRY <==> Reaches(g, ENTRY, b)
    ensures AcyclicWithout(g, []) && NoneSpare(g, [])
    ensures Search(g, ENTRY, 0, {ENTRY}, {ENTRY}, []) == ({ENTRY}, [])
  {
    ReachesSelf(g, ENTRY);
    forall b, p | PathBetween(g, p, ENTRY, b) ensures |p| == 1 {
      assert |p| > 1 ==> g.Edge(p[0], p[1]);
    }
    forall p | IsPath(g, p) && Reaches(g, ENTRY, p[0]) ensures |p| == 1 {
      assert |p| > 1 ==> g.Edge(p[0], p[1]);
    }
  }

  lemma Begins(g: Cfg)
    requires g.Valid()
    ensures Walk(g, {ENTRY}, [(ENTRY, 0)], {ENTRY}, [], [])
  {
    ReachesSelf(g, ENTRY);
    assert [(ENTRY, 0)][0].0 == ENTRY;
  }

  lemma TopIs(g: Cfg, seen: set<Block>, stack: Stack, inStack: set<Block>, result: Edges, done: seq<Block>)
    requires Walk(g, seen, stack, inStack, result, done) && stack != []
    ensures var (u, i) := stack[|stack| - 1]; u < |g.succs| && i <= |g.succs[u]|
  {
  }

  /** The top block was reached from any block below. */
  lemma {:induction false} StackReaches(g: Cfg, stack: Stack, k: nat)
    requires g.Valid() && Chained(g, stack) && k < |stack|
    ensures Reaches(g, stack[k].0, stack[|stack| - 1].0)
    decreases |stack| - k
  {
    if k == |stack| - 1 {
      ReachesSelf(g, stack[k].0);
    } else {
      assert g.Edge(stack[k].0, stack[k + 1].0);
      ReachesEdge(g, stack[k].0, stack[k + 1].0);
      StackReaches(g, stack, k + 1);
      ReachesOn(g, stack[k].0, stack[k + 1].0, stack[|stack| - 1].0);
    }
  }

  /** b is at the end of the edge that the top block tries next. */
  ghost predicate AtEdge(g: Cfg, stack: Stack, b: Block) {
    && stack != [] && var (u, i) := stack[|stack| - 1];
    u < |g.succs| && i < |g.succs[u]| && g.succs[u][i] == b
  }

  ghost predicate IsAdvanced(stack: Stack, stack': Stack) {
    && stack != [] && |stack'| == |stack| && (forall k :: 0 <= k < |stack| - 1 ==> stack'[k] == stack[k])
    && stack'[|stack| - 1] == (stack[|stack| - 1].0, stack[|stack| - 1].1 + 1)
  }

  lemma Advances(g: Cfg, stack: Stack, stack': Stack, b: Block)
    requires stack != [] && var (u, i) := stack[|stack| - 1]; u < |g.succs| && i < |g.succs[u]| && g.succs[u][i] == b
    requires stack' == stack[|stack| - 1 := (stack[|stack| - 1].0, stack[|stack| - 1].1 + 1)]
    ensures AtEdge(g, stack, b) && IsAdvanced(stack, stack')
  {
  }

  lemma Reports(g: Cfg, seen: set<Block>, stack: Stack, inStack: set<Block>, result: Edges, done: seq<Block>, stack': Stack, b: Block)
    requires g.Valid() && Walk(g, seen, stack, inStack, result, done) && AtEdge(g, stack, b) && b in inStack
    requires IsAdvanced(stack, stack')
    ensures Walk(g, seen, stack', inStack, result + [(stack[|stack| - 1].0, b)], done)
  {
    var u := stack[|stack| - 1].0;
    var result' := result + [(u, b)];
    hide Counted, IsAdvanced, AtEdge, Reaches;
    AdvancePlaced(g, seen, stack, inStack, done, stack', b);
    AdvanceHandled(g, stack, result, done, stack', result', done, b);
    TopIs(g, seen, stack, inStack, result, done);
    hide Handled, Chained;
    ReportClosing(g, seen, stack, inStack, result, done, b);
    ReportCounted(g, stack, result, stack', b);
  }

  lemma ReportClosing(g: Cfg, seen: set<Block>, stack: Stack, inStack: set<Block>, result: Edges, done: seq<Block>, b: Block)
    requires g.Valid() && Placed(g, seen, stack, inStack, done) && Chained(g, stack) && Closing(g, seen, result)
    requires AtEdge(g, stack, b) && b in inStack
    ensures Closing(g, seen, result + [(stack[|stack| - 1].0, b)])
    ensures Below(stack, |stack| - 1, b)
  {
    var k :| 0 <= k < |stack| && stack[k].0 == b;
    StackReaches(g, stack, k);
    assert stack[|stack| - 1].0 in inStack;
  }

  lemma AdvancePlaced(g: Cfg, seen: set<Block>, stack: Stack, inStack: set<Block>, done: seq<Block>, stack': Stack, b: Block)
    requires Placed(g, seen, stack, inStack, done) && Chained(g, stack) && AtEdge(g, stack, b) && IsAdvanced(stack, stack')
    ensures Placed(g, seen, stack', inStack, done) && Chained(g, stack')
  {
    hide Reaches;
    assert forall k :: 0 <= k < |stack| ==> stack'[k].0 == stack[k].0;
  }

  lemma AdvanceHandled(g: Cfg, stack: Stack, result: Edges, done: seq<Block>, stack': Stack, result': Edges, done': seq<Block>, b: Block)
    requires Chained(g, stack) && Handled(g, stack, result, done) && AtEdge(g, stack, b) && IsAdvanced(stack, stack') && Chained(g, stack')
    requires (forall e :: e in result ==> e in result') && done' == done
    requires b in done || (stack[|stack| - 1].0, b) in result'
    ensures Handled(g, stack', result', done')
  {
  }

  /** The counts of the edges that were not tried just now stay, as their number of tries does. */
  lemma OthersCounted(g: Cfg, stack: Stack, result: Edges, stack': Stack, result': Edges, k: int, v: Block)
    requires Chained(g, stack) && Chained(g, stack') && 0 <= k < |stack| && k < |stack'| && stack'[k].0 == stack[k].0
    requires CountedAt(g, stack, result, k, v) && forall m :: 0 <= m <= k ==> stack'[m].0 == stack[m].0
    requires Reported(result', stack[k].0, v) == Reported(result, stack[k].0, v)
    requires Below(stack, k, v) ==> Times(g.succs[stack[k].0], stack'[k].1, v) == Times(g.succs[stack[k].0], stack[k].1, v)
    ensures CountedAt(g, stack', result', k, v)
  {
    hide Reported, Times;
    assert Below(stack', k, v) <==> Below(stack, k, v);
  }

  lemma OneMore(result: Edges, u: Block, b: Block, w: Block, v: Block)
    ensures Reported(result + [(u, b)], w, v) == Reported(result, w, v) + (if (w, v) == (u, b) then 1 else 0)
  {
    assert multiset(result + [(u, b)]) == multiset(result) + multiset{(u, b)};
  }

  lemma OneTry(s: seq<Block>, i: nat, v: Block)
    requires i < |s|
    ensures Times(s, i + 1, v) == Times(s, i, v) + (if v == s[i] then 1 else 0)
  {
    assert s[..i + 1] == s[..i] + [s[i]];
  }

  lemma ReportCounted(g: Cfg, stack: Stack, result: Edges, stack': Stack, b: Block)
    requires Chained(g, stack) && Counted(g, stack, result) && AtEdge(g, stack, b) && Below(stack, |stack| - 1, b)
    requires IsAdvanced(stack, stack') && Chained(g, stack') && forall j, k :: 0 <= j < k < |stack| ==> stack[j].0 != stack[k].0
    ensures Counted(g, stack', result + [(stack[|stack| - 1].0, b)])
  {
    var top := |stack| - 1;
    var (u, i) := stack[top];
    var result' := result + [(u, b)];
    assert forall k :: 0 <= k < |stack| ==> stack'[k].0 == stack[k].0;
    hide Reported, Times, Below;
    forall k: int, v: Block | 0 <= k < |stack'| ensures CountedAt(g, stack', result', k, v) {
      assert CountedAt(g, stack, result, k, v);
      OneMore(result, u, b, stack[k].0, v);
      OneTry(g.succs[u], i, v);
      if k == top && v == b {
        BelowStays(stack, stack', k, v);
      } else {
        OthersCounted(g, stack, result, stack', result', k, v);
      }
    }
    forall w: Block, v: Block | (w, v) in result' && w < |g.succs| && !OnStack(stack', w)
      ensures Reported(result', w, v) == Times(g.succs[w], |g.succs[w]|, v)
    {
      assert stack'[top].0 == u;
      assert OnStack(stack', w) <==> OnStack(stack, w);
      OneMore(result, u, b, w, v);
    }
  }

  lemma BelowStays(stack: Stack, stack': Stack, k: int, v: Block)
    requires 0 <= k < |stack| && k < |stack'| && forall m :: 0 <= m <= k ==> stack'[m].0 == stack[m].0
    ensures Below(stack', k, v) <==> Below(stack, k, v)
  {
  }

  lemma Passes(g: Cfg, seen: set<Block>, stack: Stack, inStack: set<Block>, result: Edges, done: seq<Block>, stack': Stack, b: Block)
    requires g.Valid() && Walk(g, seen, stack, inStack, result, done) && AtEdge(g, stack, b) && b in seen && b !in inStack
    requires IsAdvanced(stack, stack')
    ensures Walk(g, seen, stack', inStack, result, done)
  {
    assert b in done && !Below(stack, |stack| - 1, b);
    hide Counted, IsAdvanced, AtEdge, Reaches;
    AdvancePlaced(g, seen, stack, inStack, done, stack', b);
    AdvanceHandled(g, stack, result, done, stack', result, done, b);
    hide Handled, Chained;
    PassCounted(g, stack, result, stack', b);
  }

  lemma PassCounted(g: Cfg, stack: Stack, result: Edges, stack': Stack, b: Block)
    requires Chained(g, stack) && Counted(g, stack, result) && AtEdge(g, stack, b) && !Below(stack, |stack| - 1, b)
    requires IsAdvanced(stack, stack') && Chained(g, stack')
    ensures Counted(g, stack', result)
  {
    var top := |stack| - 1;
    var (u, i) := stack[top];
    assert forall k :: 0 <= k < |stack| ==> stack'[k].0 == stack[k].0;
    hide Reported, Times, Below;
    forall k: int, v: Block | 0 <= k < |stack'| ensures CountedAt(g, stack', result, k, v) {
      assert CountedAt(g, stack, result, k, v);
      OneTry(g.succs[u], i, v);
      OthersCounted(g, stack, result, stack', result, k, v);
    }
    forall w: Block, v: Block | (w, v) in result && w < |g.succs| && !OnStack(stack', w)
      ensures Reported(result, w, v) == Times(g.succs[w], |g.succs[w]|, v)
    {
      assert OnStack(stack', w) <==> OnStack(stack, w);
    }
  }

  lemma Descends(g: Cfg, seen: set<Block>, stack: Stack, inStack: set<Block>, result: Edges, done: seq<Block>, stack': Stack, b: Block)
    requires g.Valid() && Walk(g, seen, stack, inStack, result, done) && AtEdge(g, stack, b) && b !in seen
    requires IsAdvanced(stack, stack')
    ensures Walk(g, seen + {b}, stack' + [(b, 0)], inStack + {b}, result, done) && Left(g, seen + {b}) < Left(g, seen)
  {
    var u := stack[|stack| - 1].0;
    assert g.Edge(u, b) && u in inStack && b < |g.succs| && !Below(stack, |stack| - 1, b);
    hide Counted, Reaches, Left;
    ReachesEdge(g, u, b);
    ReachesOn(g, ENTRY, u, b);
    FewerLeft(g, seen, b);
    AdvancePlaced(g, seen, stack, inStack, done, stack', b);
    PassCounted(g, stack, result, stack', b);
    DescendPlaced(g, seen, stack', inStack, done, b);
    DescendHandled(g, stack, result, done, stack', b);
    DescendCounted(g, seen, stack', inStack, result, done, b);
  }

  lemma FewerLeft(g: Cfg, seen: set<Block>, b: Block)
    requires b < |g.succs| && b !in seen
    ensures Left(g, seen + {b}) < Left(g, seen)
  {
    var s := set c: Block | c < |g.succs| && c !in seen;
    assert b in s && (set c: Block | c < |g.succs| && c !in seen + {b}) == s - {b};
  }

  lemma DescendPlaced(g: Cfg, seen: set<Block>, stack: Stack, inStack: set<Block>, done: seq<Block>, b: Block)
    requires Placed(g, seen, stack, inStack, done) && b !in seen && b < |g.succs| && Reaches(g, ENTRY, b)
    ensures Placed(g, seen + {b}, stack + [(b, 0)], inStack + {b}, done)
  {
    hide Reaches;
    var stack2 := stack + [(b, 0)];
    forall c ensures c in inStack + {b} <==> exists k :: 0 <= k < |stack2| && stack2[k].0 == c {
      if c == b {
        assert stack2[|stack|].0 == b;
      } else if c in inStack {
        var k :| 0 <= k < |stack| && stack[k].0 == c;
        assert stack2[k].0 == c;
      }
    }
    forall k | 0 <= k < |stack| ensures stack[k].0 != b {
      assert stack[k].0 in inStack;
    }
  }

  lemma DescendHandled(g: Cfg, stack: Stack, result: Edges, done: seq<Block>, stack': Stack, b: Block)
    requires Chained(g, stack) && Handled(g, stack, result, done) && AtEdge(g, stack, b) && b < |g.succs|
    requires IsAdvanced(stack, stack') && Chained(g, stack')
    ensures Chained(g, stack' + [(b, 0)]) && Handled(g, stack' + [(b, 0)], result, done)
  {
  }

  lemma DescendCounted(g: Cfg, seen: set<Block>, stack: Stack, inStack: set<Block>, result: Edges, done: seq<Block>, b: Block)
    requires Placed(g, seen, stack, inStack, done) && Chained(g, stack) && Counted(g, stack, result) && Closing(g, seen, result)
    requires b !in seen && Chained(g, stack + [(b, 0)])
    ensures Counted(g, stack + [(b, 0)], result)
  {
    var stack2 := stack + [(b, 0)];
    assert forall k :: 0 <= k < |stack| ==> stack2[k] == stack[k];
    forall k: int, v: Block | 0 <= k < |stack2| ensures CountedAt(g, stack2, result, k, v) {
      if k < |stack| {
        hide Reported, Times, Below, Closing;
        assert CountedAt(g, stack, result, k, v);
        OthersCounted(g, stack, result, stack2, result, k, v);
      } else {
        assert (b, v) !in result;
      }
    }
    forall w: Block, v: Block | (w, v) in result && w < |g.succs| && !OnStack(stack2, w)
      ensures Reported(result, w, v) == Times(g.succs[w], |g.succs[w]|, v)
    {
      hide Reported, Times;
      assert !OnStack(stack, w) by {
        assert forall k :: 0 <= k < |stack| ==> stack2[k].0 == stack[k].0;
      }
    }
  }

  lemma Ascends(g: Cfg, seen: set<Block>, stack: Stack, inStack: set<Block>, result: Edges, done: seq<Block>)
    requires g.Valid() && Walk(g, seen, stack, inStack, result, done) && stack != []
    requires var (u, i) := stack[|stack| - 1]; u < |g.succs| && i == |g.succs[u]|
    ensures var u := stack[|stack| - 1].0;
            Walk(g, seen, stack[..|stack| - 1], inStack - {u}, result, done + [u])
  {
    hide Placed, Counted, Handled, Finished, Closing, Reaches;
    AscendPlaced(g, seen, stack, inStack, done);
    AscendHandled(g, stack, result, done);
    AscendFinished(g, stack, result, done);
    AscendCounted(g, stack, result);
  }

  lemma AscendHandled(g: Cfg, stack: Stack, result: Edges, done: seq<Block>)
    requires Chained(g, stack) && Handled(g, stack, result, done) && stack != []
    ensures Chained(g, stack[..|stack| - 1]) && Handled(g, stack[..|stack| - 1], result, done + [stack[|stack| - 1].0])
  {
    var stack' := stack[..|stack| - 1];
    assert forall k :: 0 <= k < |stack'| ==> stack'[k] == stack[k];
  }

  lemma AscendFinished(g: Cfg, stack: Stack, result: Edges, done: seq<Block>)
    requires Chained(g, stack) && Handled(g, stack, result, done) && stack != [] && Finished(g, result, done)
    requires var (u, i) := stack[|stack| - 1]; i == |g.succs[u]|
    ensures Finished(g, result, done + [stack[|stack| - 1].0])
  {
    var u := stack[|stack| - 1].0;
    var done' := done + [u];
    forall j: int, v: Block | 0 <= j < |done'| && g.Edge(done'[j], v) ensures (done'[j], v) in result || v in done'[..j] {
      if j < |done| {
        assert g.Edge(done[j], v) && done'[..j] == done[..j];
      } else {
        var x :| 0 <= x < |g.succs[u]| && g.succs[u][x] == v;
        assert done'[..j] == done;
      }
    }
  }

  lemma AscendPlaced(g: Cfg, seen: set<Block>, stack: Stack, inStack: set<Block>, done: seq<Block>)
    requires Placed(g, seen, stack, inStack, done) && stack != []
    ensures var u := stack[|stack| - 1].0; Placed(g, seen, stack[..|stack| - 1], inStack - {u}, done + [u])
  {
    hide Reaches;
    var u, stack', done' := stack[|stack| - 1].0, stack[..|stack| - 1], done + [stack[|stack| - 1].0];
    assert u in inStack;
    forall c ensures c in inStack - {u} <==> exists k :: 0 <= k < |stack'| && stack'[k].0 == c {
      if c in inStack - {u} {
        var k :| 0 <= k < |stack| && stack[k].0 == c;
        assert stack'[k].0 == c;
      }
    }
    forall j | 0 <= j < |done| ensures done[j] != u {
      assert done[j] in done;
    }
  }

  lemma AscendCounted(g: Cfg, stack: Stack, result: Edges)
    requires Chained(g, stack) && Counted(g, stack, result) && stack != []
    requires var (u, i) := stack[|stack| - 1]; i == |g.succs[u]|
    requires Chained(g, stack[..|stack| - 1])
    ensures Counted(g, stack[..|stack| - 1], result)
  {
    var top := |stack| - 1;
    var u, stack' := stack[top].0, stack[..top];
    assert forall k :: 0 <= k < top ==> stack'[k] == stack[k];
    forall k: int, v: Block | 0 <= k < |stack'| ensures CountedAt(g, stack', result, k, v) {
      hide Reported, Times, Below;
      assert CountedAt(g, stack, result, k, v);
      OthersCounted(g, stack, result, stack', result, k, v);
    }
    forall w: Block, v: Block | (w, v) in result && w < |g.succs| && !OnStack(stack', w)
      ensures Reported(result, w, v) == Times(g.succs[w], |g.succs[w]|, v)
    {
      assert Reported(result, w, v) > 0;
      if w == u {
        assert CountedAt(g, stack, result, top, v);
      } else {
        hide Reported, Times;
        assert !OnStack(stack, w) by {
          assert forall k :: 0 <= k < |stack| ==> k == top || stack[k] == stack'[k];
        }
      }
    }
  }

  // ----- The edges walked over ------------------------------------------------------------------

  type Tree = set<(Block, Block)>

  /** p runs over edges of the tree alone. */
  ghost predicate InTree(p: seq<Block>, tree: Tree) {
    forall k :: 0 <= k < |p| - 1 ==> (p[k], p[k + 1]) in tree
  }

  /** The edge leads from the stack to the block above or a finished one, or from a finished block. */
  ghost predicate Passed(stack: Stack, done: seq<Block>, x: Block, y: Block) {
    x in done || exists k :: 0 <= k < |stack| && stack[k].0 == x && (y in done || (k + 1 < |stack| && stack[k + 1].0 == y))
  }

  /** The edges that the walk went down by were not reported and never will be, and close a cycle with each reported edge. */
  ghost predicate Grown(g: Cfg, stack: Stack, result: Edges, done: seq<Block>, tree: Tree) {
    && (forall x: Block, y: Block :: (x, y) in tree ==> g.Edge(x, y) && (x, y) !in result && Passed(stack, done, x, y))
    && (forall k :: 0 <= k < |stack| - 1 ==> (stack[k].0, stack[k + 1].0) in tree)
    && (forall e :: e in result ==> exists p :: PathBetween(g, p, e.1, e.0) && InTree(p, tree))
  }

  lemma PassedStays(stack: Stack, stack': Stack, done: seq<Block>, x: Block, y: Block)
    requires Passed(stack, done, x, y) && IsAdvanced(stack, stack')
    ensures Passed(stack', done, x, y)
  {
    assert forall k :: 0 <= k < |stack| ==> stack'[k].0 == stack[k].0;
  }

  lemma TreePasses(g: Cfg, stack: Stack, result: Edges, done: seq<Block>, stack': Stack, tree: Tree)
    requires Grown(g, stack, result, done, tree) && IsAdvanced(stack, stack')
    ensures Grown(g, stack', result, done, tree)
  {
    assert forall k :: 0 <= k < |stack| ==> stack'[k].0 == stack[k].0;
    hide PathBetween, InTree, Passed, IsAdvanced;
    forall x: Block, y: Block | (x, y) in tree ensures Passed(stack', done, x, y) {
      PassedStays(stack, stack', done, x, y);
    }
  }

  /** The stack from a block on is a path of the tree. */
  lemma StackPath(g: Cfg, stack: Stack, result: Edges, done: seq<Block>, tree: Tree, k: nat)
    requires g.Valid() && Chained(g, stack) && Grown(g, stack, result, done, tree) && k < |stack|
    ensures exists p :: PathBetween(g, p, stack[k].0, stack[|stack| - 1].0) && InTree(p, tree)
  {
    var p := seq(|stack| - k, i requires 0 <= i < |stack| - k => stack[k + i].0);
    hide Passed;
    forall i | 0 <= i < |p| - 1 ensures g.Edge(p[i], p[i + 1]) && (p[i], p[i + 1]) in tree {
      assert (stack[k + i].0, stack[k + i + 1].0) in tree;
    }
    assert PathBetween(g, p, stack[k].0, stack[|stack| - 1].0) && InTree(p, tree);
  }

  lemma TreeReports(g: Cfg, seen: set<Block>, stack: Stack, inStack: set<Block>, result: Edges, done: seq<Block>, stack': Stack, b: Block,
                    tree: Tree)
    requires g.Valid() && Walk(g, seen, stack, inStack, result, done) && AtEdge(g, stack, b) && b in inStack
    requires IsAdvanced(stack, stack') && Grown(g, stack, result, done, tree)
    ensures Grown(g, stack', result + [(stack[|stack| - 1].0, b)], done, tree)
  {
    hide Handled, Finished, Closing, Counted, Reaches, PathBetween, InTree;
    var k :| 0 <= k < |stack| && stack[k].0 == b;
    StackPath(g, stack, result, done, tree, k);
    NotPassed(g, seen, stack, inStack, done, b);
    hide Placed, Chained, Passed, AtEdge;
    TreePasses(g, stack, result, done, stack', tree);
  }

  lemma NotPassed(g: Cfg, seen: set<Block>, stack: Stack, inStack: set<Block>, done: seq<Block>, b: Block)
    requires Placed(g, seen, stack, inStack, done) && stack != [] && b in inStack
    ensures !Passed(stack, done, stack[|stack| - 1].0, b)
  {
    assert stack[|stack| - 1].0 in inStack;
  }

  lemma TreeDescends(g: Cfg, seen: set<Block>, stack: Stack, inStack: set<Block>, result: Edges, done: seq<Block>, stack': Stack, b: Block,
                     tree: Tree)
    requires g.Valid() && Walk(g, seen, stack, inStack, result, done) && AtEdge(g, stack, b) && b !in seen
    requires IsAdvanced(stack, stack') && Grown(g, stack, result, done, tree)
    ensures Grown(g, stack' + [(b, 0)], result, done, tree + {(stack[|stack| - 1].0, b)})
  {
    hide Handled, Finished, Counted, Reaches, PathBetween, Placed, Passed;
    var u, above, more := stack[|stack| - 1].0, stack' + [(b, 0)], tree + {(stack[|stack| - 1].0, b)};
    assert g.Edge(u, b) && (u, b) !in result;
    hide Closing, Chained, AtEdge;
    TreePasses(g, stack, result, done, stack', tree);
    forall x: Block, y: Block | (x, y) in more ensures Passed(above, done, x, y) {
      if (x, y) in tree {
        PassedAbove(stack', done, b, x, y);
      } else {
        PassedNow(stack', done, b);
      }
    }
    forall k | 0 <= k < |above| - 1 ensures (above[k].0, above[k + 1].0) in more {
    }
    forall e | e in result ensures exists p :: PathBetween(g, p, e.1, e.0) && InTree(p, more) {
      var p :| PathBetween(g, p, e.1, e.0) && InTree(p, tree);
      assert InTree(p, more);
    }
  }

  lemma PassedAbove(stack: Stack, done: seq<Block>, b: Block, x: Block, y: Block)
    requires Passed(stack, done, x, y)
    ensures Passed(stack + [(b, 0)], done, x, y)
  {
    if x !in done {
      var k :| 0 <= k < |stack| && stack[k].0 == x && (y in done || (k + 1 < |stack| && stack[k + 1].0 == y));
      var above := stack + [(b, 0)];
      assert above[k].0 == x && (k + 1 < |stack| ==> above[k + 1] == stack[k + 1]);
    }
  }

  lemma PassedNow(stack: Stack, done: seq<Block>, b: Block)
    requires stack != []
    ensures Passed(stack + [(b, 0)], done, stack[|stack| - 1].0, b)
  {
    var above := stack + [(b, 0)];
    assert above[|stack| - 1] == stack[|stack| - 1] && above[|stack|].0 == b;
  }

  lemma TreeAscends(g: Cfg, stack: Stack, result: Edges, done: seq<Block>, tree: Tree)
    requires Grown(g, stack, result, done, tree) && stack != []
    ensures Grown(g, stack[..|stack| - 1], result, done + [stack[|stack| - 1].0], tree)
  {
    hide PathBetween, InTree, Passed;
    var below, more := stack[..|stack| - 1], done + [stack[|stack| - 1].0];
    forall x: Block, y: Block | (x, y) in tree ensures Passed(below, more, x, y) {
      PassedBelow(stack, done, x, y);
    }
  }

  lemma PassedBelow(stack: Stack, done: seq<Block>, x: Block, y: Block)
    requires Passed(stack, done, x, y) && stack != []
    ensures Passed(stack[..|stack| - 1], done + [stack[|stack| - 1].0], x, y)
  {
    if x !in done {
      var k :| 0 <= k < |stack| && stack[k].0 == x && (y in done || (k + 1 < |stack| && stack[k + 1].0 == y));
      var below := stack[..|stack| - 1];
      if k < |stack| - 1 {
        assert below[k].0 == x && (k + 1 < |below| ==> below[k + 1] == stack[k + 1]);
      }
    }
  }

  lemma TreeEnds(g: Cfg, result: Edges, done: seq<Block>, tree: Tree)
    requires Grown(g, [], result, done, tree)
    ensures NoneSpare(g, result)
  {
    hide PathBetween, Passed;
    forall e | e in result ensures exists p :: PathBetween(g, p, e.1, e.0) && Unreported(p, result) {
      var p :| PathBetween(g, p, e.1, e.0) && InTree(p, tree);
      assert Unreported(p, result);
    }
  }

  // ----- The walk is the search --------------------------------------------------------------------

  ghost predicate InRange(g: Cfg, stack: Stack) {
    forall k :: 0 <= k < |stack| ==> stack[k].0 < |g.succs| && stack[k].1 <= |g.succs[stack[k].0]|
  }

  ghost function Way(stack: Stack): set<Block> {
    set k | 0 <= k < |stack| :: stack[k].0
  }

  /** What comes of going on with a stack: of searching on from its top, then from the block below, and so on. */
  ghost function Remaining(g: Cfg, stack: Stack, seen: set<Block>, found: Edges): (set<Block>, Edges)
    requires g.Valid() && InRange(g, stack)
    decreases |stack|
  {
    if stack == [] then (seen, found)
    else
      var (u, i) := stack[|stack| - 1];
      var now := Search(g, u, i, seen, Way(stack), found);
      Remaining(g, stack[..|stack| - 1], now.0, now.1)
  }

  /** Going on comes to the same as the recursive search. */
  ghost predicate Searching(g: Cfg, seen: set<Block>, stack: Stack, result: Edges) {
    && g.Valid() && InRange(g, stack) && ENTRY < |g.succs|
    && Remaining(g, stack, seen, result) == Search(g, ENTRY, 0, {ENTRY}, {ENTRY}, [])
  }

  lemma SearchBegins(g: Cfg)
    requires g.Valid()
    ensures Searching(g, {ENTRY}, [(ENTRY, 0)], []) && Grown(g, [(ENTRY, 0)], [], [], {})
  {
    hide Search;
    var stack: Stack := [(ENTRY, 0)];
    assert Way(stack) == {ENTRY} by {
      assert stack[0].0 == ENTRY;
    }
    var now := Search(g, ENTRY, 0, {ENTRY}, {ENTRY}, []);
    assert stack[..0] == [] && Remaining(g, [], now.0, now.1) == now;
  }

  lemma SearchEnds(g: Cfg, seen: set<Block>, result: Edges)
    requires Searching(g, seen, [], result)
    ensures ENTRY < |g.succs| && (seen, result) == Search(g, ENTRY, 0, {ENTRY}, {ENTRY}, [])
  {
    hide Search;
  }

  lemma RemainingIs(g: Cfg, stack: Stack, seen: set<Block>, found: Edges, below: Stack, u: Block, i: nat)
    requires g.Valid() && InRange(g, stack) && stack == below + [(u, i)]
    ensures u < |g.succs| && i <= |g.succs[u]| && InRange(g, below)
    ensures var now := Search(g, u, i, seen, Way(stack), found);
            Remaining(g, stack, seen, found) == Remaining(g, below, now.0, now.1)
  {
    hide Search, Way;
    assert stack[|stack| - 1] == (u, i) && stack[..|stack| - 1] == below;
  }

  lemma TopAdvances(g: Cfg, stack: Stack, stack': Stack, b: Block) returns (below: Stack, u: Block, i: nat)
    requires g.Valid() && InRange(g, stack) && AtEdge(g, stack, b) && IsAdvanced(stack, stack')
    ensures stack == below + [(u, i)] && stack' == below + [(u, i + 1)] && InRange(g, stack') && u == stack[|stack| - 1].0
    ensures u < |g.succs| && i < |g.succs[u]| && g.succs[u][i] == b && b < |g.succs|
    ensures Way(stack') == Way(stack)
  {
    below := stack[..|stack| - 1];
    u, i := stack[|stack| - 1].0, stack[|stack| - 1].1;
    assert b in g.succs[u];
    assert forall k :: 0 <= k < |stack| ==> stack'[k].0 == stack[k].0;
  }

  /** Trying an edge to a block seen before is one step of the search. */
  lemma SearchSteps(g: Cfg, seen: set<Block>, stack: Stack, result: Edges, stack': Stack, b: Block)
    requires Searching(g, seen, stack, result) && AtEdge(g, stack, b) && IsAdvanced(stack, stack') && b in seen
    ensures Searching(g, seen, stack', if b in Way(stack) then result + [(stack[|stack| - 1].0, b)] else result)
  {
    var below, u, i := TopAdvances(g, stack, stack', b);
    hide Way, Remaining, AtEdge, IsAdvanced, InRange;
    RemainingIs(g, stack, seen, result, below, u, i);
    RemainingIs(g, stack', seen, if b in Way(stack) then result + [(u, b)] else result, below, u, i + 1);
  }

  lemma SearchReports(g: Cfg, seen: set<Block>, stack: Stack, inStack: set<Block>, result: Edges, done: seq<Block>, stack': Stack, b: Block)
    requires Searching(g, seen, stack, result) && AtEdge(g, stack, b) && IsAdvanced(stack, stack')
    requires Walk(g, seen, stack, inStack, result, done) && b in inStack
    ensures Searching(g, seen, stack', result + [(stack[|stack| - 1].0, b)])
  {
    assert b in seen && b in Way(stack);
    hide *;
    SearchSteps(g, seen, stack, result, stack', b);
  }

  lemma SearchPasses(g: Cfg, seen: set<Block>, stack: Stack, inStack: set<Block>, result: Edges, done: seq<Block>, stack': Stack, b: Block)
    requires Searching(g, seen, stack, result) && AtEdge(g, stack, b) && IsAdvanced(stack, stack')
    requires Walk(g, seen, stack, inStack, result, done) && b in seen && b !in inStack
    ensures Searching(g, seen, stack', result)
  {
    assert b !in Way(stack);
    hide *;
    SearchSteps(g, seen, stack, result, stack', b);
  }

  lemma SearchDescends(g: Cfg, seen: set<Block>, stack: Stack, result: Edges, stack': Stack, b: Block)
    requires Searching(g, seen, stack, result) && AtEdge(g, stack, b) && IsAdvanced(stack, stack') && b !in seen
    ensures Searching(g, seen + {b}, stack' + [(b, 0)], result)
  {
    var above := stack' + [(b, 0)];
    var below, u, i := TopAdvances(g, stack, stack', b);
    Onward(g, stack', b);
    hide Way, Remaining, AtEdge, IsAdvanced, InRange;
    var deeper := Search(g, b, 0, seen + {b}, Way(stack) + {b}, result);
    RemainingIs(g, stack, seen, result, below, u, i);
    RemainingIs(g, above, seen + {b}, result, stack', b, 0);
    RemainingIs(g, stack', deeper.0, deeper.1, below, u, i + 1);
  }

  lemma Onward(g: Cfg, stack: Stack, b: Block)
    requires InRange(g, stack) && b < |g.succs|
    ensures InRange(g, stack + [(b, 0)]) && Way(stack + [(b, 0)]) == Way(stack) + {b}
  {
    var above := stack + [(b, 0)];
    assert above[|stack|].0 == b && forall k :: 0 <= k < |stack| ==> above[k] == stack[k];
  }

  lemma SearchAscends(g: Cfg, seen: set<Block>, stack: Stack, result: Edges)
    requires Searching(g, seen, stack, result) && stack != []
    requires var (u, i) := stack[|stack| - 1]; u < |g.succs| && i == |g.succs[u]|
    ensures Searching(g, seen, stack[..|stack| - 1], result)
  {
    hide Way, Remaining;
    RemainingIs(g, stack, seen, result, stack[..|stack| - 1], stack[|stack| - 1].0, stack[|stack| - 1].1);
  }

  // ----- The end of the walk ------------------------------------------------------------------

  lemma Ends(g: Cfg, seen: set<Block>, inStack: set<Block>, result: Edges, done: seq<Block>)
    requires g.Valid() && Walk(g, seen, [], inStack, result, done)
    ensures forall b :: b in seen <==> Reaches(g, ENTRY, b)
    ensures forall e :: e in result ==> e.0 < |g.succs| && g.Edge(e.0, e.1) && Reaches(g, ENTRY, e.0) && Reaches(g, e.1, e.0)
    ensures AcyclicWithout(g, result)
    ensures forall e :: e in result ==> Reported(result, e.0, e.1) == Times(g.succs[e.0], |g.succs[e.0]|, e.1)
  {
    forall e | e in result ensures Reported(result, e.0, e.1) == Times(g.succs[e.0], |g.succs[e.0]|, e.1) {
      assert (e.0, e.1) in result && !OnStack([], e.0);
    }
    hide Counted;
    forall a, b | a in seen && g.Edge(a, b) ensures b in seen {
      var i :| 0 <= i < |done| && done[i] == a;
      if b in done[..i] {
        assert b in done;
      } else {
        assert (a, b) in result;
      }
    }
    forall b | Reaches(g, ENTRY, b) ensures b in seen {
      var p :| PathBetween(g, p, ENTRY, b);
      ClosedHolds(g, seen, p);
    }
    forall p | IsPath(g, p) && Reaches(g, ENTRY, p[0]) && |p| > 1 && p[0] == p[|p| - 1] ensures !Unreported(p, result) {
      assert p[0] in done;
      var i :| 0 <= i < |done| && done[i] == p[0];
      if Unreported(p, result) {
        GoesDown(g, result, done, p, i);
      }
    }
  }

  /** A path without reported edges leads to blocks done ever earlier. */
  lemma {:induction false} GoesDown(g: Cfg, result: Edges, done: seq<Block>, p: seq<Block>, i: nat)
    requires Finished(g, result, done) && IsPath(g, p) && Unreported(p, result) && |p| > 1
    requires i < |done| && done[i] == p[0]
    ensures p[|p| - 1] in done[..i]
    decreases |p|
  {
    assert g.Edge(p[0], p[1]) && (p[0], p[1]) !in result;
    var j :| 0 <= j < i && done[j] == p[1];
    if |p| > 2 {
      var q := p[1..];
      forall k | 0 <= k < |q| - 1 ensures g.Edge(q[k], q[k + 1]) && (q[k], q[k + 1]) !in result {
        assert g.Edge(p[k + 1], p[k + 2]) && (p[k + 1], p[k + 2]) !in result;
      }
      GoesDown(g, result, done, q, j);
      var x :| 0 <= x < j && done[x] == p[|p| - 1];
    }
  }
}
