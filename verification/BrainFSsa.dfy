/** The builder's operations on a module under construction, the invariant that keeps the
    module in SSA form, and the proof that the invariant gives well-formed code. */
module BrainFSsa {
  import opened Wrappers
  import opened BrainFLang
  import opened BrainFIR

  // ----- Builder operations ---------------------------------------------------------

  function Append(m: Module, l: Label, i: Instr): Module
    requires l < |m|
  {
    m[l := m[l].(body := m[l].body + [i])]
  }

  function Terminate(m: Module, l: Label, t: Term): Module
    requires l < |m|
  {
    m[l := m[l].(term := t)]
  }

  function AddBlock(m: Module): Module {
    m + [Block(None, [], NoTerm)]
  }

  /** Ends block l with t, which leads to a new block whose phi takes register h into r. */
  function TerminateToNew(m: Module, l: Label, t: Term, r: Reg, h: Reg): Module
    requires l < |m|
  {
    Terminate(m, l, t) + [Block(Some(Phi(r, [(l, h)])), [], NoTerm)]
  }

  /** Ends block l with a jump to a block whose phi gets one more entry. */
  function JumpBack(m: Module, l: Label, to: Label, h: Reg): Module
    requires l < |m| && to < |m| && m[to].phi.Some?
  {
    var n := Terminate(m, l, Br(to));
    n[to := n[to].(phi := Some(Phi(n[to].phi.value.r, n[to].phi.value.incoming + [(l, h)])))]
  }

  // ----- The invariant --------------------------------------------------------------

  /** The registers that are certainly defined at the end of block l. */
  ghost function Known(m: Module, avail: seq<set<Reg>>, l: Label): set<Reg>
    requires l < |m| && l < |avail|
  {
    avail[l] + BlockDefs(m[l])
  }

  ghost predicate DefsBelow(m: Module, next: Reg) {
    forall r: Reg, l: Label, k: int :: DefinedAt(m, r, l, k) ==> r < next
  }

  ghost predicate TargetsExist(m: Module) {
    forall l, k :: 0 <= l < |m| && k in Targets(m[l].term) ==> k < |m|
  }

  ghost predicate Flows(m: Module, avail: seq<set<Reg>>)
    requires |avail| == |m|
  {
    forall p: Label, l: Label :: Edge(m, p, l) ==> avail[l] <= Known(m, avail, p)
  }

  ghost predicate Covered(m: Module, avail: seq<set<Reg>>)
    requires |avail| == |m|
  {
    forall l :: 0 <= l < |m| ==> BlockCovered(m[l], avail[l])
  }

  ghost predicate PhiUsesKnown(m: Module, avail: seq<set<Reg>>)
    requires |avail| == |m|
  {
    forall l :: 0 <= l < |m| && m[l].phi.Some? ==> IncomingKnown(m, avail, m[l].phi.value.incoming)
  }

  ghost predicate IncomingKnown(m: Module, avail: seq<set<Reg>>, inc: seq<(Label, Reg)>)
    requires |avail| == |m|
  {
    forall k :: 0 <= k < |inc| ==> inc[k].0 < |m| && inc[k].1 in Known(m, avail, inc[k].0)
  }

  /** Single definitions, phis that match the edges, and definitions that reach all uses,
      where avail[l] lists registers defined on every way to block l. */
  ghost predicate Ssa(m: Module, avail: seq<set<Reg>>, next: Reg) {
    && |avail| == |m| && |m| > 0 && avail[0] == {}
    && DefsBelow(m, next) && SingleAssignment(m)
    && TargetsExist(m) && PhisMatch(m)
    && Flows(m, avail) && Covered(m, avail) && PhiUsesKnown(m, avail)
  }

  // ----- Each operation keeps it ----------------------------------------------------

  lemma BodyDefsAppend(body: seq<Instr>, i: Instr)
    ensures BodyDefs(body + [i]) == BodyDefs(body) + Defs(i)
  {
    var n := body + [i];
    forall r | r in BodyDefs(body) + Defs(i) ensures r in BodyDefs(n) {
      if r in Defs(i) {
        assert n[|body|] == i;
      } else {
        var k :| 0 <= k < |body| && r in Defs(body[k]);
        assert n[k] == body[k];
      }
    }
  }

  lemma AppendKeepsDefs(m: Module, next: Reg, l: Label, i: Instr)
    requires l < |m| && Defs(i) <= {next}
    requires DefsBelow(m, next) && SingleAssignment(m)
    ensures DefsBelow(Append(m, l, i), next + |Defs(i)|) && SingleAssignment(Append(m, l, i))
  {
    var m' := Append(m, l, i);
    assert Defs(i) == {} || (Defs(i) == {next} && |Defs(i)| == 1);
    forall r: Reg, b: Label, k: int | DefinedAt(m', r, b, k)
      ensures DefinedAt(m, r, b, k) || (r == next && r in Defs(i) && b == l && k == |m[l].body|)
    {
    }
  }

  lemma AppendKeepsCover(b: Block, before: set<Reg>, i: Instr)
    requires BlockCovered(b, before) && Uses(i) <= before + BlockDefs(b)
    ensures BlockCovered(b.(body := b.body + [i]), before)
  {
    var b' := b.(body := b.body + [i]);
    BodyDefsAppend(b.body, i);
    forall k | 0 <= k < |b'.body| ensures Uses(b'.body[k]) <= before + PhiDefs(b') + BodyDefs(b'.body[..k]) {
      if k < |b.body| {
        assert b'.body[..k] == b.body[..k];
      } else {
        assert b'.body[..k] == b.body;
      }
    }
  }

  lemma AppendKeepsEdges(m: Module, l: Label, i: Instr)
    requires l < |m| && PhisMatch(m) && TargetsExist(m)
    ensures PhisMatch(Append(m, l, i)) && TargetsExist(Append(m, l, i))
    ensures forall p: Label, k: Label :: Edge(Append(m, l, i), p, k) <==> Edge(m, p, k)
  {
    var m' := Append(m, l, i);
    assert forall p: Label, k: Label :: Edge(m', p, k) <==> Edge(m, p, k);
    forall k | 0 <= k < |m'| && m'[k].phi.Some? ensures PhiMatches(m', k, m'[k].phi.value.incoming) {
      assert PhiMatches(m, k, m[k].phi.value.incoming);
    }
  }

  lemma AppendKeepsSsa(m: Module, avail: seq<set<Reg>>, next: Reg, l: Label, i: Instr)
    requires Ssa(m, avail, next) && l < |m|
    requires Uses(i) <= Known(m, avail, l) && Defs(i) <= {next}
    ensures Ssa(Append(m, l, i), avail, next + |Defs(i)|)
    ensures Known(Append(m, l, i), avail, l) == Known(m, avail, l) + Defs(i)
  {
    AppendKeepsDefs(m, next, l, i);
    AppendKeepsEdges(m, l, i);
    AppendKeepsUses(m, avail, l, i);
  }

  lemma AppendKeepsUses(m: Module, avail: seq<set<Reg>>, l: Label, i: Instr)
    requires l < |m| == |avail| && Uses(i) <= Known(m, avail, l)
    requires PhisMatch(m) && TargetsExist(m) && Flows(m, avail) && Covered(m, avail) && PhiUsesKnown(m, avail)
    ensures var m' := Append(m, l, i); Flows(m', avail) && Covered(m', avail) && PhiUsesKnown(m', avail)
    ensures Known(Append(m, l, i), avail, l) == Known(m, avail, l) + Defs(i)
  {
    var m' := Append(m, l, i);
    AppendKeepsEdges(m, l, i);
    BodyDefsAppend(m[l].body, i);
    assert forall b :: 0 <= b < |m| ==> Known(m, avail, b) <= Known(m', avail, b);
    forall b | 0 <= b < |m'| ensures BlockCovered(m'[b], avail[b]) {
      assert BlockCovered(m[b], avail[b]);
      if b == l {
        AppendKeepsCover(m[l], avail[l], i);
      }
    }
    forall b | 0 <= b < |m'| && m'[b].phi.Some? ensures IncomingKnown(m', avail, m'[b].phi.value.incoming) {
      assert IncomingKnown(m, avail, m[b].phi.value.incoming);
    }
  }

  lemma AddBlockKeepsSsa(m: Module, avail: seq<set<Reg>>, next: Reg, before: set<Reg>)
    requires Ssa(m, avail, next)
    ensures Ssa(AddBlock(m), avail + [before], next)
    ensures Known(AddBlock(m), avail + [before], |m|) == before
  {
    var m', avail' := AddBlock(m), avail + [before];
    assert forall r: Reg, b: Label, k: int :: DefinedAt(m', r, b, k) <==> DefinedAt(m, r, b, k);
    assert forall p: Label, k: Label :: Edge(m', p, k) <==> Edge(m, p, k);
    assert forall b :: 0 <= b < |m| ==> Known(m', avail', b) == Known(m, avail, b);
    forall k | 0 <= k < |m'| && m'[k].phi.Some?
      ensures PhiMatches(m', k, m'[k].phi.value.incoming) && IncomingKnown(m', avail', m'[k].phi.value.incoming)
    {
      assert PhiMatches(m, k, m[k].phi.value.incoming) && IncomingKnown(m, avail, m[k].phi.value.incoming);
    }
    forall b | 0 <= b < |m'| ensures BlockCovered(m'[b], avail'[b]) {
      if b < |m| {
        assert BlockCovered(m[b], avail[b]);
      }
    }
  }

  /** What a terminator must respect: its register is known, and what its targets count on is known. */
  ghost predicate MayEnd(m: Module, avail: seq<set<Reg>>, l: Label, t: Term)
    requires |avail| == |m|
  {
    && l < |m| && m[l].term == NoTerm && TermUses(t) <= Known(m, avail, l)
    && forall k :: k in Targets(t) && k < |m| ==> avail[k] <= Known(m, avail, l)
  }

  lemma TerminateKeepsDefs(m: Module, next: Reg, l: Label, t: Term)
    requires l < |m| && DefsBelow(m, next) && SingleAssignment(m)
    ensures DefsBelow(Terminate(m, l, t), next) && SingleAssignment(Terminate(m, l, t))
  {
    var m' := Terminate(m, l, t);
    assert forall r: Reg, b: Label, k: int :: DefinedAt(m', r, b, k) <==> DefinedAt(m, r, b, k);
  }

  lemma TerminateKeepsUses(m: Module, avail: seq<set<Reg>>, l: Label, t: Term)
    requires |avail| == |m| && MayEnd(m, avail, l, t) && Flows(m, avail) && Covered(m, avail) && PhiUsesKnown(m, avail)
    ensures var m' := Terminate(m, l, t); Flows(m', avail) && Covered(m', avail) && PhiUsesKnown(m', avail)
    ensures forall b :: 0 <= b < |m| ==> Known(Terminate(m, l, t), avail, b) == Known(m, avail, b)
  {
    var m' := Terminate(m, l, t);
    assert forall b :: 0 <= b < |m| ==> Known(m', avail, b) == Known(m, avail, b);
    forall p: Label, k: Label | Edge(m', p, k) ensures avail[k] <= Known(m', avail, p) {
      assert p != l ==> Edge(m, p, k);
    }
    forall b | 0 <= b < |m'| ensures BlockCovered(m'[b], avail[b]) {
      assert BlockCovered(m[b], avail[b]);
    }
    forall k | 0 <= k < |m'| && m'[k].phi.Some? ensures IncomingKnown(m', avail, m'[k].phi.value.incoming) {
      assert IncomingKnown(m, avail, m[k].phi.value.incoming);
    }
  }

  lemma TerminateKeepsSsa(m: Module, avail: seq<set<Reg>>, next: Reg, l: Label, t: Term)
    requires Ssa(m, avail, next) && MayEnd(m, avail, l, t)
    requires forall k :: k in Targets(t) ==> k < |m| && m[k].phi == None
    ensures Ssa(Terminate(m, l, t), avail, next)
    ensures Known(Terminate(m, l, t), avail, l) == Known(m, avail, l)
  {
    var m' := Terminate(m, l, t);
    TerminateKeepsDefs(m, next, l, t);
    TerminateKeepsUses(m, avail, l, t);
    forall k | 0 <= k < |m'| && m'[k].phi.Some? ensures PhiMatches(m', k, m'[k].phi.value.incoming) {
      assert PhiMatches(m, k, m[k].phi.value.incoming);
      assert forall p: Label :: Edge(m', p, k) <==> Edge(m, p, k);
    }
  }

  lemma NewTargetMatches(m: Module, next: Reg, l: Label, t: Term, h: Reg)
    requires l < |m| && m[l].term == NoTerm && PhisMatch(m) && TargetsExist(m)
    requires |m| in Targets(t) && forall k :: k in Targets(t) && k != |m| ==> k < |m| && m[k].phi == None
    ensures PhisMatch(TerminateToNew(m, l, t, next, h))
  {
    var m' := TerminateToNew(m, l, t, next, h);
    forall k | 0 <= k < |m'| && m'[k].phi.Some? ensures PhiMatches(m', k, m'[k].phi.value.incoming) {
      if k < |m| {
        assert PhiMatches(m, k, m[k].phi.value.incoming);
        assert forall p: Label :: Edge(m', p, k) <==> Edge(m, p, k);
      } else {
        assert m'[k].phi.value.incoming[0].0 == l && m'[l].term == t;
        assert Edge(m', l, k);
      }
    }
  }

  lemma TerminateToNewKeepsSsa(m: Module, avail: seq<set<Reg>>, next: Reg, l: Label, t: Term, h: Reg, before: set<Reg>)
    requires Ssa(m, avail, next) && MayEnd(m, avail, l, t)
    requires |m| in Targets(t) && forall k :: k in Targets(t) && k != |m| ==> k < |m| && m[k].phi == None
    requires h in Known(m, avail, l) && before <= Known(m, avail, l)
    ensures Ssa(TerminateToNew(m, l, t, next, h), avail + [before], next + 1)
    ensures Known(TerminateToNew(m, l, t, next, h), avail + [before], |m|) == before + {next}
  {
    var m', avail' := TerminateToNew(m, l, t, next, h), avail + [before];
    forall r: Reg, b: Label, k: int | DefinedAt(m', r, b, k) ensures DefinedAt(m, r, b, k) || (r == next && b == |m| && k == -1) {
    }
    assert BodyDefs([]) == {};
    assert forall b :: 0 <= b < |m| ==> Known(m', avail', b) == Known(m, avail, b);
    forall p: Label, k: Label | Edge(m', p, k) ensures (p != l && k < |m| && Edge(m, p, k)) || (p == l && k in Targets(t)) {
      if p != l {
        assert k in Targets(m[p].term);
      }
    }
    NewTargetMatches(m, next, l, t, h);
    forall k | 0 <= k < |m'| && m'[k].phi.Some? ensures IncomingKnown(m', avail', m'[k].phi.value.incoming) {
      if k < |m| {
        assert IncomingKnown(m, avail, m[k].phi.value.incoming);
      }
    }
    forall b | 0 <= b < |m'| ensures BlockCovered(m'[b], avail'[b]) {
      if b < |m| {
        assert BlockCovered(m[b], avail[b]);
      }
    }
  }

  lemma JumpBackKeepsSsa(m: Module, avail: seq<set<Reg>>, next: Reg, l: Label, to: Label, h: Reg)
    requires Ssa(m, avail, next) && MayEnd(m, avail, l, Br(to)) && to < |m| && to != l && m[to].phi.Some?
    requires h in Known(m, avail, l)
    ensures Ssa(JumpBack(m, l, to, h), avail, next)
    ensures forall b :: 0 <= b < |m| ==> Known(JumpBack(m, l, to, h), avail, b) == Known(m, avail, b)
  {
    var m' := JumpBack(m, l, to, h);
    var n := Terminate(m, l, Br(to));
    TerminateKeepsDefs(m, next, l, Br(to));
    TerminateKeepsUses(m, avail, l, Br(to));
    assert forall r: Reg, b: Label, k: int :: DefinedAt(m', r, b, k) <==> DefinedAt(n, r, b, k);
    assert forall p: Label, k: Label :: Edge(m', p, k) <==> Edge(n, p, k);
    assert forall b :: 0 <= b < |m| ==> Known(m', avail, b) == Known(m, avail, b);
    forall b | 0 <= b < |m'| ensures BlockCovered(m'[b], avail[b]) {
      assert BlockCovered(n[b], avail[b]);
    }
    BackEdgeKeepsPhis(m, avail, l, to, h);
  }

  lemma BackEdgeKeepsPhis(m: Module, avail: seq<set<Reg>>, l: Label, to: Label, h: Reg)
    requires |avail| == |m| && l < |m| && m[l].term == NoTerm && to < |m| && to != l && m[to].phi.Some?
    requires PhisMatch(m) && PhiUsesKnown(m, avail) && h in Known(m, avail, l)
    ensures PhisMatch(JumpBack(m, l, to, h)) && PhiUsesKnown(JumpBack(m, l, to, h), avail)
  {
    var m' := JumpBack(m, l, to, h);
    assert forall b :: 0 <= b < |m| ==> Known(m', avail, b) == Known(m, avail, b);
    forall k | 0 <= k < |m'| && m'[k].phi.Some?
      ensures PhiMatches(m', k, m'[k].phi.value.incoming) && IncomingKnown(m', avail, m'[k].phi.value.incoming)
    {
      assert PhiMatches(m, k, m[k].phi.value.incoming) && IncomingKnown(m, avail, m[k].phi.value.incoming);
      if k == to {
        BackEdgeMatches(m, m', l, to, h);
      } else {
        assert forall p: Label :: Edge(m', p, k) <==> Edge(m, p, k);
      }
    }
  }

  lemma BackEdgeMatches(m: Module, m': Module, l: Label, to: Label, h: Reg)
    requires l < |m| && m[l].term == NoTerm && to < |m| && to != l && m[to].phi.Some?
    requires m' == JumpBack(m, l, to, h) && PhiMatches(m, to, m[to].phi.value.incoming)
    ensures PhiMatches(m', to, m'[to].phi.value.incoming)
  {
    var inc := m[to].phi.value.incoming;
    var inc' := m'[to].phi.value.incoming;
    assert inc' == inc + [(l, h)];
    assert !Edge(m, l, to);
    forall p: Label ensures Edge(m', p, to) <==> exists k :: 0 <= k < |inc'| && inc'[k].0 == p {
      assert Edge(m', p, to) <==> Edge(m, p, to) || p == l;
      if Edge(m, p, to) {
        var k :| 0 <= k < |inc| && inc[k].0 == p;
        assert inc'[k].0 == p;
      }
      if p == l {
        assert inc'[|inc|].0 == p;
      }
    }
  }

  // ----- The invariant gives well-formed code -----------------------------------------

  /** What a block counts on is defined along every walk that leads to it. */
  lemma {:induction false} WalkProvides(m: Module, avail: seq<set<Reg>>, next: Reg, path: seq<Label>)
    requires Ssa(m, avail, next) && Walk(m, path)
    ensures path[|path| - 1] < |m|
    ensures avail[path[|path| - 1]] <= WalkDefs(m, path[..|path| - 1])
    ensures Known(m, avail, path[|path| - 1]) <= WalkDefs(m, path)
    decreases |path|
  {
    var n := |path| - 1;
    var init := path[..n];
    if n > 0 {
      var p := path[n - 1];
      assert Edge(m, p, path[n]);
      assert Walk(m, init) by {
        forall k | 0 < k < n ensures Edge(m, init[k - 1], init[k]) {
          assert Edge(m, path[k - 1], path[k]);
        }
      }
      WalkProvides(m, avail, next, init);
    }
    forall r | r in WalkDefs(m, init) ensures r in WalkDefs(m, path) {
      var k :| 0 <= k < n && init[k] < |m| && r in BlockDefs(m[init[k]]);
      assert path[k] == init[k];
    }
  }

  /** Code built under the invariant is well formed once every block has its terminator. */
  lemma SsaIsWellFormed(m: Module, avail: seq<set<Reg>>, next: Reg)
    requires Ssa(m, avail, next)
    requires forall l :: 0 <= l < |m| ==> m[l].term != NoTerm
    ensures WellFormed(m)
  {
    forall path | Walk(m, path) ensures UsesCovered(m, path) {
      var n := |path| - 1;
      var before := WalkDefs(m, path[..n]);
      WalkProvides(m, avail, next, path);
      assert BlockCovered(m[path[n]], avail[path[n]]);
      if n > 0 {
        PhiProvided(m, avail, next, path);
      }
    }
  }

  lemma PhiProvided(m: Module, avail: seq<set<Reg>>, next: Reg, path: seq<Label>)
    requires Ssa(m, avail, next) && Walk(m, path) && |path| > 1
    ensures path[|path| - 1] < |m|
    ensures PhiCovered(m[path[|path| - 1]], path[|path| - 2], WalkDefs(m, path[..|path| - 1]))
  {
    var n := |path| - 1;
    var init := path[..n];
    assert Edge(m, path[n - 1], path[n]);
    assert Walk(m, init) by {
      forall k | 0 < k < n ensures Edge(m, init[k - 1], init[k]) {
        assert Edge(m, path[k - 1], path[k]);
      }
    }
    WalkProvides(m, avail, next, init);
    if m[path[n]].phi.Some? {
      assert IncomingKnown(m, avail, m[path[n]].phi.value.incoming);
    }
  }
}
