/** Whether one place in a function may be reached from another, by a walk over blocks that skips
    over loops and gives up after a while. */
module Reachability {
  import opened Wrappers
  import opened ControlFlow

  type Loop = nat

  // ----- Dominators and loops, as the walk is told of them --------------------------------------

  datatype DomTree = DomTree(reachable: Block -> bool, dominates: (Block, Block) -> bool)

  ghost predicate Dominates(g: Cfg, a: Block, b: Block) {
    forall p :: PathBetween(g, p, ENTRY, b) ==> a in p
  }

  ghost predicate IsDomTree(g: Cfg, dt: DomTree) {
    && (forall b: Block :: dt.reachable(b) <==> Reaches(g, ENTRY, b))
    && (forall a: Block, b: Block :: dt.reachable(b) ==> (dt.dominates(a, b) <==> Dominates(g, a, b)))
  }

  /** The innermost loop of each block in one, the loop around each inner loop, and the blocks that
      the outermost loops are left to. */
  datatype LoopInfo = LoopInfo(loopFor: map<Block, Loop>, parent: map<Loop, Loop>, exits: map<Loop, seq<Block>>)

  ghost predicate Nested(li: LoopInfo) {
    forall l :: l in li.parent ==> li.parent[l] < l
  }

  function Outermost(li: LoopInfo, l: Loop): Loop
    requires Nested(li)
    decreases l
  {
    if l in li.parent then Outermost(li, li.parent[l]) else l
  }

  function OuterOf(li: LoopInfo, b: Block): Option<Loop>
    requires Nested(li)
  {
    if b in li.loopFor then Some(Outermost(li, li.loopFor[b])) else None
  }

  /** A path of at least one edge. */
  ghost predicate Follows(g: Cfg, a: Block, b: Block) {
    exists c :: g.Edge(a, c) && Reaches(g, c, b)
  }

  ghost predicate InLoop(li: LoopInfo, l: Loop, b: Block)
    requires Nested(li)
  {
    OuterOf(li, b) == Some(l)
  }

  /** e is where some edge leaves the outermost loop l. */
  ghost predicate ExitOf(g: Cfg, li: LoopInfo, l: Loop, e: Block)
    requires Nested(li)
  {
    !InLoop(li, l, e) && exists a :: InLoop(li, l, a) && g.Edge(a, e)
  }

  ghost predicate IsLoopInfo(g: Cfg, li: LoopInfo) {
    && Nested(li)
    && (forall a, b, l :: InLoop(li, l, a) && InLoop(li, l, b) ==> Follows(g, a, b))
    && (forall a, l :: InLoop(li, l, a) ==> l in li.exits)
    && (forall l, e :: l in li.exits ==> (e in li.exits[l] <==> ExitOf(g, li, l, e)))
  }

  lemma FollowsReaches(g: Cfg, a: Block, b: Block)
    requires g.Valid() && Follows(g, a, b)
    ensures Reaches(g, a, b)
  {
    var c :| g.Edge(a, c) && Reaches(g, c, b);
    ReachesEdge(g, a, c);
    ReachesOn(g, a, c, b);
  }

  lemma ReachesFollows(g: Cfg, a: Block, b: Block)
    requires Reaches(g, a, b)
    ensures a == b || Follows(g, a, b)
  {
    var p :| PathBetween(g, p, a, b);
    if |p| > 1 {
      assert g.Edge(p[0], p[1]);
      var q := p[1..];
      forall k | 0 <= k < |q| - 1 ensures g.Edge(q[k], q[k + 1]) {
        assert g.Edge(p[k + 1], p[k + 2]);
      }
      assert PathBetween(g, q, p[1], b);
    }
  }

  lemma DominatorReaches(g: Cfg, a: Block, b: Block)
    requires Reaches(g, ENTRY, b) && Dominates(g, a, b)
    ensures Reaches(g, a, b)
  {
    var p :| PathBetween(g, p, ENTRY, b);
    var k :| 0 <= k < |p| && p[k] == a;
    var q := p[k..];
    forall j | 0 <= j < |q| - 1 ensures g.Edge(q[j], q[j + 1]) {
      assert g.Edge(p[k + j], p[k + j + 1]);
    }
    assert PathBetween(g, q, a, b);
  }

  // ----- The walk ---------------------------------------------------------------------------------

  /** Each loop of the chain is inside of the next. */
  ghost predicate Chain(li: LoopInfo, c: seq<Loop>) {
    c != [] && forall k :: 0 <= k < |c| - 1 ==> c[k] in li.parent && li.parent[c[k]] == c[k + 1]
  }

  /** The loop at the end of the chain that begins with the innermost loop of b. */
  method GetOutermostLoop(li: LoopInfo, b: Block) returns (l: Option<Loop>)
    requires Nested(li)
    ensures l == OuterOf(li, b) && (l.Some? <==> b in li.loopFor)
    ensures l.Some? ==> l.value !in li.parent && exists c :: Chain(li, c) && c[0] == li.loopFor[b] && c[|c| - 1] == l.value
  {
    if b !in li.loopFor {
      return None;
    }
    var i := li.loopFor[b];
    ghost var c := [i];
    while i in li.parent
      invariant Outermost(li, i) == Outermost(li, li.loopFor[b])
      invariant Chain(li, c) && c[0] == li.loopFor[b] && c[|c| - 1] == i
      decreases i
    {
      i := li.parent[i];
      c := c + [i];
    }
    return Some(i);
  }

  method LoopContainsBoth(li: LoopInfo, a: Block, b: Block) returns (both: bool)
    requires Nested(li)
    ensures both <==> exists l :: InLoop(li, l, a) && InLoop(li, l, b)
  {
    var l1 := GetOutermostLoop(li, a);
    var l2 := GetOutermostLoop(li, b);
    both := l1 != None && l1 == l2;
    assert both ==> InLoop(li, l1.value, a);
  }

  ghost predicate FromSome(g: Cfg, starts: seq<Block>, b: Block) {
    exists a :: a in starts && Reaches(g, a, b)
  }

  ghost function ReachableFrom(g: Cfg, starts: seq<Block>): set<Block> {
    set b: Block | b < |g.succs| && FromSome(g, starts, b)
  }

  ghost predicate InRange(g: Cfg, s: seq<Block>) {
    forall b :: b in s ==> b < |g.succs|
  }

  /** So many blocks other than stop can be reached that the walk may use up its budget without an answer. */
  ghost predicate TooMany(g: Cfg, starts: seq<Block>, stop: Block) {
    |ReachableFrom(g, starts) - {stop}| >= 32
  }

  /** The block tells that stop can be reached: it is stop, dominates it, or is in an outermost loop with it. */
  ghost predicate Tells(stop: Block, domTree: Option<DomTree>, li: Option<LoopInfo>, b: Block) {
    || b == stop
    || (domTree.Some? && domTree.value.reachable(stop) && domTree.value.dominates(b, stop))
    || (li.Some? && Nested(li.value) && exists l :: InLoop(li.value, l, b) && InLoop(li.value, l, stop))
  }

  /** The walk goes from a to b: to where the outermost loop around a is left, or to a successor outside of loops. */
  ghost predicate GoesTo(g: Cfg, li: Option<LoopInfo>, a: Block, b: Block) {
    if li.Some? && Nested(li.value) && OuterOf(li.value, a).Some? then
      OuterOf(li.value, a).value in li.value.exits && b in li.value.exits[OuterOf(li.value, a).value]
    else g.Edge(a, b)
  }

  /** The walk comes to b, first of all or from a block in visited. */
  ghost predicate Came(g: Cfg, starts: seq<Block>, li: Option<LoopInfo>, visited: set<Block>, b: Block) {
    b in starts || exists a :: a in visited && GoesTo(g, li, a, b)
  }

  /** What the walk has been to when it answers: no more than it had to, 32 blocks at most. */
  ghost predicate HasBeenTo(g: Cfg, starts: seq<Block>, stop: Block, domTree: Option<DomTree>, li: Option<LoopInfo>,
                            r: bool, gaveUp: bool, visited: set<Block>) {
    && (forall b :: b in visited ==> Came(g, starts, li, visited, b))
    && (r && !gaveUp <==> exists b :: b in visited && Tells(stop, domTree, li, b))
    && (if gaveUp then |visited| == 32 else if r then |visited| <= 32 else |visited| < 32)
  }

  /** Whether a path leads from some block of the worklist to stop. Every answer is right but the yes that the walk
      gives up with, which takes 32 other blocks within reach. It goes past loops without going into them, and says yes as
      soon as it comes to a block that tells; it gives up just when it has been to 32 blocks that do not. */
  method IsPotentiallyReachableFromMany(g: Cfg, starts: seq<Block>, stop: Block, domTree: Option<DomTree>, li: Option<LoopInfo>)
    returns (r: bool, ghost gaveUp: bool, ghost visits: set<Block>)
    requires g.Valid() && starts != [] && InRange(g, starts) && stop < |g.succs|
    requires (domTree.Some? ==> IsDomTree(g, domTree.value)) && (li.Some? ==> IsLoopInfo(g, li.value))
    ensures !r ==> !FromSome(g, starts, stop)
    ensures r && !gaveUp ==> FromSome(g, starts, stop)
    ensures gaveUp ==> r && TooMany(g, starts, stop)
    ensures HasBeenTo(g, starts, stop, domTree, li, r, gaveUp, visits)
  {
    hide *;
    var dt := domTree;
    if dt.Some? && !dt.value.reachable(stop) {
      dt := None;
    }
    var limit := 32;
    var visited: set<Block> := {};
    var worklist := starts;
    Starts(g, starts, stop, li);
    KeptStarts(g, starts, stop, domTree, li);
    while worklist != []
      invariant Walked(g, starts, stop, li, visited, worklist)
      invariant Kept(g, starts, stop, domTree, li, visited, worklist)
      invariant limit > 0 && |visited| + limit == 32
      decreases limit, |worklist|
    {
      var b := worklist[|worklist| - 1];
      ghost var before := worklist;
      worklist := worklist[..|worklist| - 1];
      if b in visited {
        PopsSeen(g, starts, stop, li, visited, before, worklist, b);
        KeptPops(g, starts, stop, domTree, li, visited, before, worklist);
        continue;
      }
      visited := visited + {b};
      Popped(g, starts, stop, li, visited - {b}, before, b);
      KeptVisits(g, starts, stop, domTree, li, visited - {b}, before, b);
      TellsMeans(stop, domTree, li, b);
      if b == stop {
        Told(g, starts, stop, domTree, li, visited, b);
        return true, false, visited;
      }
      if dt.Some? && dt.value.dominates(b, stop) {
        DominatorAnswers(g, starts, stop, dt.value, b);
        Told(g, starts, stop, domTree, li, visited, b);
        return true, false, visited;
      }
      if li.Some? {
        NestedLoops(g, li.value);
        var both := LoopContainsBoth(li.value, b, stop);
        if both {
          LoopAnswers(g, starts, stop, li.value, b);
          Told(g, starts, stop, domTree, li, visited, b);
          return true, false, visited;
        }
      }
      limit := limit - 1;
      if limit == 0 {
        GivesUp(g, starts, stop, li, visited, before, b);
        NoneTold(g, starts, stop, domTree, li, visited, b);
        return true, true, visited;
      }
      var outer := None;
      if li.Some? {
        outer := GetOutermostLoop(li.value, b);
      }
      if outer.Some? {
        ExitsKnown(g, li.value, b, outer.value);
        worklist := worklist + li.value.exits[outer.value];
        SkipsLoop(g, starts, stop, li, visited, before, worklist, b, outer.value);
        GoesOn(g, li, b);
        KeptExpands(g, starts, stop, domTree, li, visited, before, worklist, b, li.value.exits[outer.value]);
      } else {
        worklist := worklist + g.succs[b];
        Expands(g, starts, stop, li, visited, before, worklist, b);
        GoesOn(g, li, b);
        KeptExpands(g, starts, stop, domTree, li, visited, before, worklist, b, g.succs[b]);
      }
    }
    Exhausted(g, starts, stop, li, visited);
    NoneLeft(g, starts, stop, domTree, li, visited);
    return false, false, visited;
  }

  /** Whether a path leads from one block to another. */
  method IsPotentiallyReachable(g: Cfg, a: Block, b: Block, dt: Option<DomTree>, li: Option<LoopInfo>)
    returns (r: bool, ghost gaveUp: bool, ghost visits: set<Block>)
    requires g.Valid() && a < |g.succs| && b < |g.succs|
    requires (dt.Some? ==> IsDomTree(g, dt.value)) && (li.Some? ==> IsLoopInfo(g, li.value))
    ensures !r ==> !Reaches(g, a, b)
    ensures r && !gaveUp ==> Reaches(g, a, b)
    ensures gaveUp ==> r && TooMany(g, [a], b)
    ensures HasBeenTo(g, [a], b, dt, li, r, gaveUp, visits)
  {
    hide Reaches, IsDomTree, IsLoopInfo, ReachableFrom, TooMany, HasBeenTo;
    assert a in [a];
    r, gaveUp, visits := IsPotentiallyReachableFromMany(g, [a], b, dt, li);
  }

  // ----- Instructions -----------------------------------------------------------------------------

  /** An instruction, by its block and its place there. */
  datatype Place = Place(block: Block, index: nat)

  /** Running on from a, b may come to be executed. */
  ghost predicate MayRun(g: Cfg, a: Place, b: Place) {
    (a.block == b.block && a.index <= b.index) || Follows(g, a.block, b.block)
  }

  ghost predicate NothingLeadsToEntry(g: Cfg) {
    forall a :: !g.Edge(a, ENTRY)
  }

  /** Whether instruction b may run after instruction a; lengths are the numbers of instructions of the blocks. */
  method IsInstructionReachable(g: Cfg, lengths: seq<nat>, a: Place, b: Place, dt: Option<DomTree>, li: Option<LoopInfo>)
    returns (r: bool, ghost gaveUp: bool)
    requires g.Valid() && |lengths| == |g.succs| && NothingLeadsToEntry(g)
    requires a.block < |lengths| && a.index < lengths[a.block] && b.block < |lengths| && b.index < lengths[b.block]
    requires (dt.Some? ==> IsDomTree(g, dt.value)) && (li.Some? ==> IsLoopInfo(g, li.value))
    ensures !r ==> !MayRun(g, a, b)
    ensures r && !gaveUp ==> MayRun(g, a, b) || (a.block == ENTRY != b.block)
    ensures gaveUp ==> r && TooMany(g, [a.block], b.block)
    ensures a.block == ENTRY != b.block ==> r
    ensures a.block == b.block && (a.index <= b.index || (li.Some? && OuterOf(li.value, a.block).Some?)) ==> r && !gaveUp
  {
    hide *;
    InSomeLoop(g, li, a.block);
    var worklist: seq<Block>;
    if a.block == b.block {
      if li.Some? && a.block in li.value.loopFor {
        LoopRepeats(g, li.value, a, b);
        return true, false;
      }
      for i := a.index to lengths[a.block]
        invariant b.index < a.index || i <= b.index
      {
        if i == b.index {
          RunsOn(g, a, b);
          return true, false;
        }
      }
      worklist := g.succs[a.block];
      SuccessorsRun(g, a, b, worklist);
      if a.block == ENTRY {
        NotBackToEntry(g, a, b);
        return false, false;
      }
      if worklist == [] {
        NothingFollows(g, a, b);
        return false, false;
      }
    } else {
      worklist := [a.block];
      BlockRuns(g, a, b);
      if a.block == ENTRY {
        return true, false;
      }
      if b.block == ENTRY {
        NotBackToEntry(g, a, b);
        return false, false;
      }
    }
    ghost var visits;
    r, gaveUp, visits := IsPotentiallyReachableFromMany(g, worklist, b.block, dt, li);
  }

  // ----- What the walk keeps ------------------------------------------------------------------------

  /** What follows a visited block, or the loop it is in, is visited or will be. */
  ghost predicate Expanded(g: Cfg, li: Option<LoopInfo>, visited: set<Block>, worklist: seq<Block>, v: Block)
    requires li.Some? ==> IsLoopInfo(g, li.value)
  {
    if li.Some? && OuterOf(li.value, v).Some? then
      forall e :: ExitOf(g, li.value, OuterOf(li.value, v).value, e) ==> e in visited || e in worklist
    else forall e :: g.Edge(v, e) ==> e in visited || e in worklist
  }

  ghost predicate Walked(g: Cfg, starts: seq<Block>, stop: Block, li: Option<LoopInfo>, visited: set<Block>, worklist: seq<Block>) {
    && (li.Some? ==> IsLoopInfo(g, li.value)) && InRange(g, worklist)
    && (forall b :: b in starts ==> b in visited || b in worklist)
    && (forall b :: b in worklist ==> FromSome(g, starts, b))
    && (forall v :: v in visited ==> v < |g.succs| && FromSome(g, starts, v) && v != stop && Expanded(g, li, visited, worklist, v)
                                     && (li.Some? ==> !exists l :: InLoop(li.value, l, v) && InLoop(li.value, l, stop)))
  }

  lemma Starts(g: Cfg, starts: seq<Block>, stop: Block, li: Option<LoopInfo>)
    requires InRange(g, starts) && (li.Some? ==> IsLoopInfo(g, li.value))
    ensures Walked(g, starts, stop, li, {}, starts)
  {
    forall b | b in starts ensures FromSome(g, starts, b) {
      ReachesSelf(g, b);
    }
  }

  lemma NestedLoops(g: Cfg, li: LoopInfo)
    requires IsLoopInfo(g, li)
    ensures Nested(li)
  {
  }

  lemma Popped(g: Cfg, starts: seq<Block>, stop: Block, li: Option<LoopInfo>, visited: set<Block>, worklist: seq<Block>, b: Block)
    requires Walked(g, starts, stop, li, visited, worklist) && worklist != [] && b == worklist[|worklist| - 1]
    ensures b < |g.succs| && FromSome(g, starts, b)
    ensures li.Some? ==> IsLoopInfo(g, li.value)
  {
    assert b in worklist;
  }

  lemma PopsSeen(g: Cfg, starts: seq<Block>, stop: Block, li: Option<LoopInfo>, visited: set<Block>,
                 before: seq<Block>, worklist: seq<Block>, b: Block)
    requires Walked(g, starts, stop, li, visited, before) && before == worklist + [b] && b in visited
    ensures Walked(g, starts, stop, li, visited, worklist)
  {
    hide FromSome, IsLoopInfo, OuterOf, InLoop;
    assert forall e :: e in before <==> e == b || e in worklist;
    forall v | v in visited ensures Expanded(g, li, visited, worklist, v) {
      assert Expanded(g, li, visited, before, v);
    }
  }

  lemma FromSomeOn(g: Cfg, starts: seq<Block>, b: Block, c: Block)
    requires FromSome(g, starts, b) && Reaches(g, b, c)
    ensures FromSome(g, starts, c)
  {
    var a :| a in starts && Reaches(g, a, b);
    ReachesOn(g, a, b, c);
  }

  lemma DominatorAnswers(g: Cfg, starts: seq<Block>, stop: Block, dt: DomTree, b: Block)
    requires IsDomTree(g, dt) && dt.reachable(stop) && dt.dominates(b, stop) && FromSome(g, starts, b)
    ensures FromSome(g, starts, stop)
  {
    DominatorReaches(g, b, stop);
    FromSomeOn(g, starts, b, stop);
  }

  lemma LoopAnswers(g: Cfg, starts: seq<Block>, stop: Block, li: LoopInfo, b: Block)
    requires g.Valid() && IsLoopInfo(g, li) && FromSome(g, starts, b) && exists l :: InLoop(li, l, b) && InLoop(li, l, stop)
    ensures FromSome(g, starts, stop)
  {
    FollowsReaches(g, b, stop);
    FromSomeOn(g, starts, b, stop);
  }

  lemma GivesUp(g: Cfg, starts: seq<Block>, stop: Block, li: Option<LoopInfo>, visited: set<Block>, worklist: seq<Block>, b: Block)
    requires Walked(g, starts, stop, li, visited - {b}, worklist) && FromSome(g, starts, b) && b < |g.succs|
    requires b != stop && |visited| == 32
    ensures TooMany(g, starts, stop)
  {
    forall v | v in visited ensures v in ReachableFrom(g, starts) - {stop} {
      assert v == b || v in visited - {b};
    }
    Subsets(visited, ReachableFrom(g, starts) - {stop});
  }

  lemma {:induction false} Subsets(s: set<Block>, t: set<Block>)
    requires s <= t
    ensures |s| <= |t|
  {
    if s != {} {
      var b :| b in s;
      Subsets(s - {b}, t - {b});
    }
  }

  lemma ExitsKnown(g: Cfg, li: LoopInfo, b: Block, l: Loop)
    requires IsLoopInfo(g, li) && OuterOf(li, b) == Some(l)
    ensures l in li.exits && InLoop(li, l, b)
  {
    assert InLoop(li, l, b);
  }

  lemma SkipsLoop(g: Cfg, starts: seq<Block>, stop: Block, li: Option<LoopInfo>, visited: set<Block>,
                  before: seq<Block>, worklist: seq<Block>, b: Block, l: Loop)
    requires g.Valid() && Walked(g, starts, stop, li, visited - {b}, before) && FromSome(g, starts, b) && b < |g.succs| && b in visited
    requires b != stop && li.Some? && IsLoopInfo(g, li.value) && OuterOf(li.value, b) == Some(l) && before != [] && b == before[|before| - 1]
    requires !exists l :: InLoop(li.value, l, b) && InLoop(li.value, l, stop)
    requires l in li.value.exits && worklist == before[..|before| - 1] + li.value.exits[l]
    ensures Walked(g, starts, stop, li, visited, worklist)
  {
    var exits := li.value.exits[l];
    assert InLoop(li.value, l, b);
    forall e | e in exits ensures e < |g.succs| && FromSome(g, starts, e) {
      assert ExitOf(g, li.value, l, e);
      var a :| InLoop(li.value, l, a) && g.Edge(a, e);
      FollowsReaches(g, b, a);
      ReachesEdge(g, a, e);
      ReachesOn(g, b, a, e);
      FromSomeOn(g, starts, b, e);
    }
    hide FromSome, Walked;
    assert forall e :: ExitOf(g, li.value, l, e) ==> e in exits;
    Visits(g, starts, stop, li, visited, before, worklist, b, exits);
  }

  lemma Visits(g: Cfg, starts: seq<Block>, stop: Block, li: Option<LoopInfo>, visited: set<Block>,
               before: seq<Block>, worklist: seq<Block>, b: Block, more: seq<Block>)
    requires Walked(g, starts, stop, li, visited - {b}, before) && FromSome(g, starts, b) && b < |g.succs| && b in visited
    requires b != stop && before != [] && b == before[|before| - 1] && worklist == before[..|before| - 1] + more
    requires forall e :: e in more ==> e < |g.succs| && FromSome(g, starts, e)
    requires li.Some? ==> IsLoopInfo(g, li.value) && !exists l :: InLoop(li.value, l, b) && InLoop(li.value, l, stop)
    requires Expanded(g, li, visited, worklist, b)
    ensures Walked(g, starts, stop, li, visited, worklist)
  {
    hide FromSome, OuterOf, InLoop;
    assert forall e :: e in before ==> e == b || e in before[..|before| - 1];
    forall v | v in visited && v != b ensures Expanded(g, li, visited, worklist, v) {
      assert v in visited - {b} && Expanded(g, li, visited - {b}, before, v);
    }
    forall v | v in visited
      ensures v < |g.succs| && FromSome(g, starts, v) && v != stop
              && (li.Some? ==> !exists l :: InLoop(li.value, l, v) && InLoop(li.value, l, stop))
    {
      assert v == b || v in visited - {b};
    }
    assert forall s :: s in starts ==> s in visited - {b} || s in before;
    assert forall e :: e in worklist ==> e in before || e in more;
  }

  lemma Expands(g: Cfg, starts: seq<Block>, stop: Block, li: Option<LoopInfo>, visited: set<Block>,
                before: seq<Block>, worklist: seq<Block>, b: Block)
    requires g.Valid() && Walked(g, starts, stop, li, visited - {b}, before) && FromSome(g, starts, b) && b < |g.succs| && b in visited
    requires b != stop && (li.Some? ==> IsLoopInfo(g, li.value) && OuterOf(li.value, b) == None) && before != [] && b == before[|before| - 1]
    requires worklist == before[..|before| - 1] + g.succs[b]
    ensures Walked(g, starts, stop, li, visited, worklist)
  {
    forall e | e in g.succs[b] ensures FromSome(g, starts, e) {
      ReachesEdge(g, b, e);
      FromSomeOn(g, starts, b, e);
    }
    hide FromSome, Walked;
    OutsideLoops(li, b, stop);
    Visits(g, starts, stop, li, visited, before, worklist, b, g.succs[b]);
  }

  lemma OutsideLoops(li: Option<LoopInfo>, b: Block, stop: Block)
    requires li.Some? ==> Nested(li.value) && OuterOf(li.value, b) == None
    ensures li.Some? ==> !exists l :: InLoop(li.value, l, b) && InLoop(li.value, l, stop)
  {
  }

  /** When nothing is left to visit, no path leads to stop: the visited blocks and their loops are closed. */
  lemma Exhausted(g: Cfg, starts: seq<Block>, stop: Block, li: Option<LoopInfo>, visited: set<Block>)
    requires g.Valid() && Walked(g, starts, stop, li, visited, [])
    ensures !FromSome(g, starts, stop)
  {
    var S := set b: Block | b < |g.succs| && Swept(li, visited, b);
    forall a, b | a in S && g.Edge(a, b) ensures b in S {
      SweptClosed(g, starts, stop, li, visited, a, b);
    }
    forall a | a in starts ensures !Reaches(g, a, stop) {
      if Reaches(g, a, stop) {
        var p :| PathBetween(g, p, a, stop);
        ClosedHolds(g, S, p);
        assert false;
      }
    }
  }

  /** b is visited, or in one outermost loop with a visited block. */
  ghost predicate Swept(li: Option<LoopInfo>, visited: set<Block>, b: Block)
  {
    b in visited || (li.Some? && Nested(li.value) && exists v, l :: v in visited && InLoop(li.value, l, v) && InLoop(li.value, l, b))
  }

  lemma SweptClosed(g: Cfg, starts: seq<Block>, stop: Block, li: Option<LoopInfo>, visited: set<Block>, a: Block, b: Block)
    requires g.Valid() && Walked(g, starts, stop, li, visited, []) && Swept(li, visited, a) && g.Edge(a, b)
    ensures b < |g.succs| && Swept(li, visited, b)
  {
    if li.Some? && OuterOf(li.value, a).Some? {
      var l := OuterOf(li.value, a).value;
      var v :| v in visited && InLoop(li.value, l, v);
      assert Expanded(g, li, visited, [], v);
      assert InLoop(li.value, l, b) || ExitOf(g, li.value, l, b);
    } else {
      assert Expanded(g, li, visited, [], a);
    }
  }

  // ----- Where the walk has been ------------------------------------------------------------------------

  /** The walk has come to what it has visited and is to visit, and none of the visited blocks told. */
  ghost predicate Kept(g: Cfg, starts: seq<Block>, stop: Block, domTree: Option<DomTree>, li: Option<LoopInfo>,
                       visited: set<Block>, worklist: seq<Block>) {
    && (forall b :: b in visited ==> Came(g, starts, li, visited, b) && !Tells(stop, domTree, li, b))
    && (forall b :: b in worklist ==> Came(g, starts, li, visited, b))
  }

  lemma KeptStarts(g: Cfg, starts: seq<Block>, stop: Block, domTree: Option<DomTree>, li: Option<LoopInfo>)
    ensures Kept(g, starts, stop, domTree, li, {}, starts)
  {
  }

  lemma KeptPops(g: Cfg, starts: seq<Block>, stop: Block, domTree: Option<DomTree>, li: Option<LoopInfo>, visited: set<Block>,
                 before: seq<Block>, worklist: seq<Block>)
    requires Kept(g, starts, stop, domTree, li, visited, before) && before != [] && worklist == before[..|before| - 1]
    ensures Kept(g, starts, stop, domTree, li, visited, worklist)
  {
    hide Came, Tells;
    assert forall b :: b in worklist ==> b in before;
  }

  lemma CameStill(g: Cfg, starts: seq<Block>, li: Option<LoopInfo>, visited: set<Block>, more: set<Block>, b: Block)
    requires Came(g, starts, li, visited, b) && visited <= more
    ensures Came(g, starts, li, more, b)
  {
  }

  /** All that the walk has come to when it comes to b. */
  ghost predicate AllCame(g: Cfg, starts: seq<Block>, stop: Block, domTree: Option<DomTree>, li: Option<LoopInfo>,
                          visited: set<Block>, b: Block) {
    b in visited && forall v :: v in visited ==> Came(g, starts, li, visited, v) && (v != b ==> !Tells(stop, domTree, li, v))
  }

  lemma KeptVisits(g: Cfg, starts: seq<Block>, stop: Block, domTree: Option<DomTree>, li: Option<LoopInfo>, visited: set<Block>,
                   worklist: seq<Block>, b: Block)
    requires Kept(g, starts, stop, domTree, li, visited, worklist) && worklist != [] && b == worklist[|worklist| - 1]
    ensures AllCame(g, starts, stop, domTree, li, visited + {b}, b)
  {
    hide Came, Tells;
    assert b in worklist;
    forall v | v in visited + {b} ensures Came(g, starts, li, visited + {b}, v) {
      CameStill(g, starts, li, visited, visited + {b}, v);
    }
  }

  lemma GoesOn(g: Cfg, li: Option<LoopInfo>, b: Block)
    requires b < |g.succs| && (li.Some? ==> IsLoopInfo(g, li.value))
    ensures if li.Some? && Nested(li.value) && OuterOf(li.value, b).Some? then
              var l := OuterOf(li.value, b).value;
              l in li.value.exits && forall e :: e in li.value.exits[l] ==> GoesTo(g, li, b, e)
            else forall e :: e in g.succs[b] ==> GoesTo(g, li, b, e)
  {
    if li.Some? && Nested(li.value) && OuterOf(li.value, b).Some? {
      ExitsKnown(g, li.value, b, OuterOf(li.value, b).value);
    }
  }

  lemma TellsMeans(stop: Block, domTree: Option<DomTree>, li: Option<LoopInfo>, b: Block)
    ensures Tells(stop, domTree, li, b) <==>
            || b == stop
            || (domTree.Some? && domTree.value.reachable(stop) && domTree.value.dominates(b, stop))
            || (li.Some? && Nested(li.value) && exists l :: InLoop(li.value, l, b) && InLoop(li.value, l, stop))
  {
  }

  lemma Told(g: Cfg, starts: seq<Block>, stop: Block, domTree: Option<DomTree>, li: Option<LoopInfo>, visited: set<Block>, b: Block)
    requires AllCame(g, starts, stop, domTree, li, visited, b) && Tells(stop, domTree, li, b) && |visited| <= 32
    ensures HasBeenTo(g, starts, stop, domTree, li, true, false, visited)
  {
    hide Came, Tells;
  }

  lemma NoneTold(g: Cfg, starts: seq<Block>, stop: Block, domTree: Option<DomTree>, li: Option<LoopInfo>, visited: set<Block>, b: Block)
    requires AllCame(g, starts, stop, domTree, li, visited, b) && !Tells(stop, domTree, li, b) && |visited| == 32
    ensures HasBeenTo(g, starts, stop, domTree, li, true, true, visited)
  {
    hide Came, Tells;
  }

  lemma NoneLeft(g: Cfg, starts: seq<Block>, stop: Block, domTree: Option<DomTree>, li: Option<LoopInfo>, visited: set<Block>)
    requires Kept(g, starts, stop, domTree, li, visited, []) && |visited| < 32
    ensures HasBeenTo(g, starts, stop, domTree, li, false, false, visited)
  {
    hide Came, Tells;
  }

  lemma KeptExpands(g: Cfg, starts: seq<Block>, stop: Block, domTree: Option<DomTree>, li: Option<LoopInfo>, visited: set<Block>,
                    before: seq<Block>, worklist: seq<Block>, b: Block, more: seq<Block>)
    requires Kept(g, starts, stop, domTree, li, visited - {b}, before) && AllCame(g, starts, stop, domTree, li, visited, b)
    requires !Tells(stop, domTree, li, b) && before != [] && worklist == before[..|before| - 1] + more
    requires forall e :: e in more ==> GoesTo(g, li, b, e)
    ensures Kept(g, starts, stop, domTree, li, visited, worklist)
  {
    hide GoesTo, Tells;
    forall e | e in worklist ensures Came(g, starts, li, visited, e) {
      if e !in more {
        assert e in before;
        CameStill(g, starts, li, visited - {b}, visited, e);
      }
    }
  }

  // ----- Runs of instructions --------------------------------------------------------------------------

  lemma InSomeLoop(g: Cfg, li: Option<LoopInfo>, b: Block)
    requires li.Some? ==> IsLoopInfo(g, li.value)
    ensures li.Some? ==> Nested(li.value) && (OuterOf(li.value, b).Some? <==> b in li.value.loopFor)
  {
  }

  lemma LoopRepeats(g: Cfg, li: LoopInfo, a: Place, b: Place)
    requires IsLoopInfo(g, li) && a.block in li.loopFor && a.block == b.block
    ensures MayRun(g, a, b)
  {
    assert InLoop(li, OuterOf(li, a.block).value, a.block);
  }

  lemma RunsOn(g: Cfg, a: Place, b: Place)
    requires a.block == b.block && a.index <= b.index
    ensures MayRun(g, a, b)
  {
  }

  lemma SuccessorsRun(g: Cfg, a: Place, b: Place, worklist: seq<Block>)
    requires g.Valid() && a.block == b.block < |g.succs| && b.index < a.index && worklist == g.succs[a.block]
    ensures MayRun(g, a, b) <==> FromSome(g, worklist, b.block)
    ensures InRange(g, worklist) && (TooMany(g, worklist, b.block) ==> TooMany(g, [a.block], b.block))
  {
    forall c | c in ReachableFrom(g, worklist) ensures c in ReachableFrom(g, [a.block]) {
      var d :| d in worklist && Reaches(g, d, c);
      assert g.Edge(a.block, d);
      ReachesEdge(g, a.block, d);
      ReachesOn(g, a.block, d, c);
      assert a.block in [a.block];
    }
    Subsets(ReachableFrom(g, worklist) - {b.block}, ReachableFrom(g, [a.block]) - {b.block});
  }

  lemma NothingFollows(g: Cfg, a: Place, b: Place)
    requires MayRun(g, a, b) <==> FromSome(g, [], b.block)
    ensures !MayRun(g, a, b)
  {
  }

  lemma NotBackToEntry(g: Cfg, a: Place, b: Place)
    requires g.Valid() && NothingLeadsToEntry(g) && b.block == ENTRY && (a.block == b.block ==> b.index < a.index)
    ensures !MayRun(g, a, b)
  {
    forall c | g.Edge(a.block, c) ensures !Reaches(g, c, ENTRY) {
      forall p ensures !PathBetween(g, p, c, ENTRY) {
        assert |p| > 1 && IsPath(g, p) ==> g.Edge(p[|p| - 2], p[|p| - 2 + 1]);
      }
    }
  }

  lemma BlockRuns(g: Cfg, a: Place, b: Place)
    requires g.Valid() && a.block < |g.succs| && b.block < |g.succs| && a.block != b.block
    ensures MayRun(g, a, b) <==> FromSome(g, [a.block], b.block)
    ensures InRange(g, [a.block])
  {
    assert a.block in [a.block];
    if Reaches(g, a.block, b.block) {
      ReachesFollows(g, a.block, b.block);
    }
    if Follows(g, a.block, b.block) {
      FollowsReaches(g, a.block, b.block);
    }
  }
}
