/** A translation that is under way: how modules grow, and that what was translated stays so. */
module BrainFProgress {
  import opened Wrappers
  import opened BrainFLang
  import opened BrainFIR
  import opened BrainFTranslation
  import opened BrainFSsa

  // ----- Growth ---------------------------------------------------------------------

  ghost predicate PhiGrows(p: Option<Phi>, p': Option<Phi>) {
    if p.None? then p'.None?
    else p'.Some? && p'.value.r == p.value.r && p.value.incoming <= p'.value.incoming
  }

  /** Blocks only get more instructions, until their terminator settles them. */
  ghost predicate Grows(b: Block, b': Block) {
    && b.body <= b'.body && PhiGrows(b.phi, b'.phi)
    && (b.term != NoTerm ==> b'.body == b.body && b'.term == b.term)
  }

  ghost predicate Extends(m: Module, m': Module) {
    |m| <= |m'| && forall l :: 0 <= l < |m| ==> Grows(m[l], m'[l])
  }

  /** Nothing but block l is touched; new blocks may appear. */
  ghost predicate OnlyAt(m: Module, m': Module, l: Label) {
    |m| <= |m'| && forall k :: 0 <= k < |m| && k != l ==> m'[k] == m[k]
  }

  ghost predicate LayoutExtends(lay: Layout, lay': Layout) {
    && lay'.end == lay.end && lay'.err == lay.err
    && (forall p :: p in lay.points ==> p in lay'.points && lay'.points[p] == lay.points[p])
    && (forall i :: i in lay.loops ==> i in lay'.loops && lay'.loops[i] == lay.loops[i])
  }

  lemma {:induction false} IncomingStays(inc: seq<(Label, Reg)>, inc': seq<(Label, Reg)>, p: Label)
    requires inc <= inc' && Incoming(inc, p).Some?
    ensures Incoming(inc', p) == Incoming(inc, p)
    decreases |inc|
  {
    if inc[0].0 != p {
      assert inc[1..] <= inc'[1..];
      IncomingStays(inc[1..], inc'[1..], p);
    }
  }

  lemma FoundStays(m: Module, m': Module, pt: Point, code: seq<Instr>)
    requires Extends(m, m') && Found(m, pt, code)
    ensures Found(m', pt, code)
  {
    assert Grows(m[pt.block], m'[pt.block]);
    var a, b := m[pt.block].body, m'[pt.block].body;
    forall k | 0 <= k < |code| ensures b[pt.idx + k] == code[k] {
      assert a[pt.idx + k] == code[k];
      assert b[pt.idx + k] == a[pt.idx + k];
    }
  }

  lemma FoundLastStays(m: Module, m': Module, pt: Point, code: seq<Instr>, t: Term)
    requires Extends(m, m') && FoundLast(m, pt, code, t) && t != NoTerm
    ensures FoundLast(m', pt, code, t)
  {
    FoundStays(m, m', pt, code);
    assert Grows(m[pt.block], m'[pt.block]);
  }

  lemma EntersLoopStays(m: Module, m': Module, pt: Point, lp: Loop)
    requires Extends(m, m') && EntersLoop(m, pt, lp)
    ensures EntersLoop(m', pt, lp)
  {
    FoundLastStays(m, m', pt, [], Br(lp.test));
    assert Grows(m[lp.test], m'[lp.test]);
    IncomingStays(m[lp.test].phi.value.incoming, m'[lp.test].phi.value.incoming, pt.block);
  }

  lemma MoveStays(m: Module, m': Module, o: Options, lay: Layout, lay': Layout, pt: Point, k: int, e: nat)
    requires Extends(m, m') && LayoutExtends(lay, lay') && MoveDone(m, o, lay, pt, k, e)
    ensures MoveDone(m', o, lay', pt, k, e)
  {
    var code := MoveCode(pt.head, pt.next, k, o);
    FoundStays(m, m', pt, code);
    if o.checked {
      var b := lay.points[e].block;
      FoundLastStays(m, m', pt, code, CondBr(pt.next + 3, lay.err, b));
      assert Grows(m[b], m'[b]);
    }
  }

  lemma PlainStays(m: Module, m': Module, s: string, o: Options, lay: Layout, lay': Layout, p: nat)
    requires Extends(m, m') && LayoutExtends(lay, lay')
    requires p in lay.points && PlainDone(m, s, o, lay, p)
    ensures PlainDone(m', s, o, lay', p)
  {
    var pt := lay.points[p];
    var q := NextCmd(s, p);
    if q == |s| {
      FoundLastStays(m, m', pt, [], Br(lay.end));
    } else if IsMove(s[q]) {
      var e := RunEnd(s, q, true);
      MoveStays(m, m', o, lay, lay', pt, RunSum(s, q, e, true), e);
    } else if IsChange(s[q]) {
      FoundStays(m, m', pt, ChangeCode(pt.head, pt.next, RunSum(s, q, RunEnd(s, q, false), false)));
    } else if s[q] == ',' {
      FoundStays(m, m', pt, ReadCode(pt.head, pt.next));
    } else if s[q] == '.' {
      FoundStays(m, m', pt, WriteCode(pt.head, pt.next));
    } else if s[q] == '[' {
      EntersLoopStays(m, m', pt, lay.loops[q]);
    } else {
      EntersLoopStays(m, m', pt, lay.loops[OpenOf(s, q, 0)]);
    }
  }

  lemma LoopStays(m: Module, m': Module, s: string, o: Options, lay: Layout, lay': Layout, i: nat)
    requires Extends(m, m') && LayoutExtends(lay, lay')
    requires i in lay.loops && LoopDone(m, s, o, lay, i)
    ensures LoopDone(m', s, o, lay', i)
  {
    var lp := lay.loops[i];
    var out := lay.points[CloseOf(s, i + 1, 0) + 1];
    assert Grows(m[lp.test], m'[lp.test]);
    assert Grows(m[lp.body], m'[lp.body]);
    assert Grows(m[out.block], m'[out.block]);
    IncomingStays(m[out.block].phi.value.incoming, m'[out.block].phi.value.incoming, lp.test);
  }

  lemma FooterStays(m: Module, m': Module, o: Options, lay: Layout, lay': Layout)
    requires Extends(m, m') && LayoutExtends(lay, lay') && FooterDone(m, o, lay)
    ensures FooterDone(m', o, lay')
  {
    assert Grows(m[lay.end], m'[lay.end]);
    if o.checked {
      assert Grows(m[lay.err], m'[lay.err]);
    }
  }

  // ----- The state of a translation ------------------------------------------------------

  /** A loop whose closing bracket has not been met: its test block is empty and has one entry. */
  ghost predicate LoopOpen(m: Module, s: string, o: Options, lay: Layout, i: nat, cur: Label) {
    && i < |s| && s[i] == '[' && i in lay.loops
    && var lp := lay.loops[i];
    && lp.test < |m| && lp.test != cur && HeadReg(o) < lp.phi
    && m[lp.test].body == [] && m[lp.test].term == NoTerm
    && m[lp.test].phi.Some? && m[lp.test].phi.value.r == lp.phi
    && |m[lp.test].phi.value.incoming| == 1
    && m[lp.test].phi.value.incoming[0].0 < |m| && m[m[lp.test].phi.value.incoming[0].0].term != NoTerm
    && NoPhi(m, lp.body)
    && i + 1 in lay.points && lay.points[i + 1].block == lp.body && lay.points[i + 1].idx == 0 && lay.points[i + 1].head == lp.phi
  }

  ghost predicate PartsDone(m: Module, s: string, o: Options, lay: Layout, open: set<nat>, pc: nat) {
    && HeaderDone(m, o, lay) && FooterDone(m, o, lay)
    && (forall p {:trigger PlainDone(m, s, o, lay, p)} :: p in lay.points && p != pc ==> PlainDone(m, s, o, lay, p))
    && (forall i {:trigger LoopDone(m, s, o, lay, i)} :: i in lay.loops && i !in open ==> LoopDone(m, s, o, lay, i))
  }

  /** The translation goes on at the end of block cur, which is the code of text position pc. */
  ghost predicate FrontAt(m: Module, o: Options, lay: Layout, pc: nat, cur: Label, head: Reg, next: Reg) {
    && pc in lay.points && (forall p :: p in lay.points ==> p <= pc)
    && cur < |m| && m[cur].term == NoTerm && lay.points[pc] == Point(cur, |m[cur].body|, head, next)
    && HeadReg(o) <= head < next
  }

  ghost predicate LoopsApart(m: Module, lay: Layout, pc: nat) {
    && (forall i :: i in lay.loops ==> i < pc && lay.loops[i].test < |m|)
    && (forall i, j :: i in lay.loops && j in lay.loops && i != j ==> lay.loops[i].test != lay.loops[j].test)
  }

  ghost predicate EndsMissing(m: Module, lay: Layout, open: set<nat>, cur: Label) {
    forall l :: 0 <= l < |m| && m[l].term == NoTerm ==> l == cur || exists i :: i in open && i in lay.loops && lay.loops[i].test == l
  }

  /** Everything before text position pc is translated, but for the tests of the open loops. */
  ghost predicate InProgress(m: Module, s: string, o: Options, lay: Layout, open: set<nat>,
                             pc: nat, cur: Label, head: Reg, next: Reg) {
    && PartsDone(m, s, o, lay, open, pc) && FrontAt(m, o, lay, pc, cur, head, next)
    && (forall i :: i in open ==> LoopOpen(m, s, o, lay, i, cur))
    && LoopsApart(m, lay, pc) && EndsMissing(m, lay, open, cur)
  }

  lemma PartsStay(m: Module, m': Module, s: string, o: Options, lay: Layout, lay': Layout,
                  open: set<nat>, open': set<nat>, pc: nat, pc': nat)
    requires PartsDone(m, s, o, lay, open, pc) && pc in lay.points
    requires Extends(m, m') && LayoutExtends(lay, lay')
    requires forall p :: p in lay'.points ==> p in lay.points || p == pc'
    requires pc in lay'.points && PlainDone(m', s, o, lay', pc)
    requires forall i :: i in lay'.loops && i !in open' ==> (i in lay.loops && i !in open) || LoopDone(m', s, o, lay', i)
    ensures PartsDone(m', s, o, lay', open', pc')
  {
    FoundStays(m, m', Point(0, 0, 0, 0), HeaderCode(o));
    FooterStays(m, m', o, lay, lay');
    forall p | p in lay'.points && p != pc' ensures PlainDone(m', s, o, lay', p) {
      if p != pc {
        assert PlainDone(m, s, o, lay, p);
        PlainStays(m, m', s, o, lay, lay', p);
      }
    }
    forall i | i in lay'.loops && i !in open' ensures LoopDone(m', s, o, lay', i) {
      if i in lay.loops && i !in open {
        assert LoopDone(m, s, o, lay, i);
        LoopStays(m, m', s, o, lay, lay', i);
      }
    }
  }

  function At(lay: Layout, p: nat, pt: Point): Layout {
    lay.(points := lay.points[p := pt])
  }

  /** Translating one more command: nothing but the current block changed, and control moved on to pt. */
  lemma Proceeds(m: Module, m': Module, s: string, o: Options, lay: Layout, open: set<nat>, pc: nat,
                 cur: Label, head: Reg, next: Reg, pc': nat, pt: Point)
    requires InProgress(m, s, o, lay, open, pc, cur, head, next)
    requires Extends(m, m') && OnlyAt(m, m', cur)
    requires pc < pc' && HeadReg(o) <= pt.head < pt.next
    requires pt.block < |m'| && m'[pt.block].term == NoTerm && pt.idx == |m'[pt.block].body|
    requires pt.block == cur || pt.block >= |m|
    requires forall l :: |m| <= l < |m'| && m'[l].term == NoTerm ==> l == pt.block
    requires pt.block != cur ==> m'[cur].term != NoTerm
    requires PlainDone(m', s, o, At(lay, pc', pt), pc)
    ensures InProgress(m', s, o, At(lay, pc', pt), open, pc', pt.block, pt.head, pt.next)
  {
    var lay' := At(lay, pc', pt);
    assert LayoutExtends(lay, lay');
    PartsStay(m, m', s, o, lay, lay', open, open, pc, pc');
    forall i | i in open ensures LoopOpen(m', s, o, lay', i, pt.block) {
      OpenStays(m, m', s, o, lay, lay', i, cur, pt.block);
    }
    forall l | 0 <= l < |m'| && m'[l].term == NoTerm
      ensures l == pt.block || exists i :: i in open && lay'.loops[i].test == l
    {
      if l < |m| && l != cur {
        assert m[l].term == NoTerm;
      }
    }
  }

  lemma OpenStays(m: Module, m': Module, s: string, o: Options, lay: Layout, lay': Layout, i: nat, cur: Label, cur': Label)
    requires LoopOpen(m, s, o, lay, i, cur) && Extends(m, m') && LayoutExtends(lay, lay')
    requires m'[lay.loops[i].test] == m[lay.loops[i].test] && cur' != lay.loops[i].test
    ensures LoopOpen(m', s, o, lay', i, cur')
  {
    var lp := lay.loops[i];
    var p := m[lp.test].phi.value.incoming[0].0;
    assert Grows(m[p], m'[p]);
    assert Grows(m[lp.body], m'[lp.body]);
  }

  /** The module in which a loop has just been opened, and its layout. */
  function WithLoop(m: Module, cur: Label, head: Reg, next: Reg): Module
    requires cur < |m|
  {
    AddBlock(TerminateToNew(m, cur, Br(|m|), next, head))
  }

  function WithLoopLayout(m: Module, lay: Layout, q: nat, next: Reg): Layout {
    At(lay, q + 1, Point(|m| + 1, 0, next, next + 1)).(loops := lay.loops[q := Loop(|m|, |m| + 1, next)])
  }

  lemma OpensExtend(m: Module, cur: Label, head: Reg, next: Reg)
    requires cur < |m| && m[cur].term == NoTerm
    ensures Extends(m, WithLoop(m, cur, head, next)) && OnlyAt(m, WithLoop(m, cur, head, next), cur)
  {
  }

  lemma OpensEntered(m: Module, s: string, o: Options, lay: Layout, pc: nat, cur: Label, head: Reg, next: Reg, q: nat)
    requires FrontAt(m, o, lay, pc, cur, head, next)
    requires pc <= |s| && q == NextCmd(s, pc) && q < |s| && s[q] == '['
    ensures PlainDone(WithLoop(m, cur, head, next), s, o, WithLoopLayout(m, lay, q, next), pc)
  {
    var m', lay' := WithLoop(m, cur, head, next), WithLoopLayout(m, lay, q, next);
    assert m'[|m|].phi == Some(Phi(next, [(cur, head)]));
    assert Incoming([(cur, head)], cur) == Some(head) by {
      assert [(cur, head)][0] == (cur, head);
    }
    assert m'[cur] == m[cur].(term := Br(|m|));
    assert EntersLoop(m', lay'.points[pc], lay'.loops[q]);
  }

  lemma Opens(m: Module, s: string, o: Options, lay: Layout, open: set<nat>, pc: nat,
              cur: Label, head: Reg, next: Reg, q: nat)
    requires InProgress(m, s, o, lay, open, pc, cur, head, next)
    requires pc <= |s| && q == NextCmd(s, pc) && q < |s| && s[q] == '['
    ensures InProgress(WithLoop(m, cur, head, next), s, o, WithLoopLayout(m, lay, q, next), open + {q}, q + 1,
                       |m| + 1, next, next + 1)
  {
    hide PlainDone, LoopDone, Found, FoundLast, NextCmd, Extends, PartsDone, EndsMissing, LoopOpen;
    var m', lay' := WithLoop(m, cur, head, next), WithLoopLayout(m, lay, q, next);
    OpensExtend(m, cur, head, next);
    assert LayoutExtends(lay, lay');
    OpensEntered(m, s, o, lay, pc, cur, head, next, q);
    PartsStay(m, m', s, o, lay, lay', open, open + {q}, pc, q + 1);
    OpensOpen(m, s, o, lay, open, cur, head, next, q);
    OpensEnds(m, lay, open, cur, head, next, q);
  }

  lemma OpensOpen(m: Module, s: string, o: Options, lay: Layout, open: set<nat>, cur: Label, head: Reg, next: Reg, q: nat)
    requires q < |s| && s[q] == '[' && cur < |m| && m[cur].term == NoTerm && HeadReg(o) < next
    requires forall i :: i in open ==> LoopOpen(m, s, o, lay, i, cur)
    requires LayoutExtends(lay, WithLoopLayout(m, lay, q, next))
    ensures forall i :: i in open + {q} ==>
              LoopOpen(WithLoop(m, cur, head, next), s, o, WithLoopLayout(m, lay, q, next), i, |m| + 1)
  {
    var m', lay' := WithLoop(m, cur, head, next), WithLoopLayout(m, lay, q, next);
    OpensExtend(m, cur, head, next);
    forall i | i in open + {q} ensures LoopOpen(m', s, o, lay', i, |m| + 1) {
      if i in open {
        OpenStays(m, m', s, o, lay, lay', i, cur, |m| + 1);
      }
    }
  }

  lemma OpensEnds(m: Module, lay: Layout, open: set<nat>, cur: Label, head: Reg, next: Reg, q: nat)
    requires EndsMissing(m, lay, open, cur) && cur < |m| && m[cur].term == NoTerm && q !in lay.loops
    ensures EndsMissing(WithLoop(m, cur, head, next), WithLoopLayout(m, lay, q, next), open + {q}, |m| + 1)
  {
    var m', lay' := WithLoop(m, cur, head, next), WithLoopLayout(m, lay, q, next);
    forall l | 0 <= l < |m'| && m'[l].term == NoTerm
      ensures l == |m| + 1 || exists i :: i in open + {q} && i in lay'.loops && lay'.loops[i].test == l
    {
      if l < |m| {
        assert m[l].term == NoTerm && l != cur;
        var i :| i in open && i in lay.loops && lay.loops[i].test == l;
        assert lay'.loops[i].test == l;
      } else if l == |m| {
        assert lay'.loops[q].test == l;
      }
    }
  }

  /** The module in which a loop has just been closed: the jump back, the test, the way out. */
  function WithTest(m: Module, cur: Label, head: Reg, next: Reg, lp: Loop): Module
    requires cur < |m| && lp.test < |m| && m[lp.test].phi.Some?
  {
    var back := JumpBack(m, cur, lp.test, head);
    var tested := Append(Append(back, lp.test, Load(next, lp.phi)), lp.test, CmpZero(next + 1, next));
    TerminateToNew(tested, lp.test, CondBr(next + 1, |m|, lp.body), next + 2, lp.phi)
  }

  lemma TestShape(m: Module, s: string, o: Options, lay: Layout, i: nat, cur: Label, head: Reg, next: Reg)
    requires LoopOpen(m, s, o, lay, i, cur) && cur < |m| && m[cur].term == NoTerm
    ensures var lp := lay.loops[i];
            var m' := WithTest(m, cur, head, next, lp);
            && Extends(m, m') && |m'| == |m| + 1
            && (forall l :: 0 <= l < |m| && l != cur && l != lp.test ==> m'[l] == m[l])
            && m'[cur] == m[cur].(term := Br(lp.test))
            && m'[lp.test].body == [Load(next, lp.phi), CmpZero(next + 1, next)]
            && m'[lp.test].term == CondBr(next + 1, |m|, lp.body)
            && m'[lp.test].phi.Some? && m'[lp.test].phi.value.r == lp.phi
            && Incoming(m'[lp.test].phi.value.incoming, cur) == Some(head)
            && m'[|m|] == Block(Some(Phi(next + 2, [(lp.test, lp.phi)])), [], NoTerm)
  {
    var lp := lay.loops[i];
    var m' := WithTest(m, cur, head, next, lp);
    var inc := m[lp.test].phi.value.incoming;
    var inc' := m'[lp.test].phi.value.incoming;
    assert inc' == inc + [(cur, head)];
    assert inc'[0] == inc[0] && inc'[1] == (cur, head) && inc'[0].0 != cur;
    assert inc'[1..] == [(cur, head)];
    assert Incoming(inc', cur) == Incoming(inc'[1..], cur);
  }

  lemma TestDone(m: Module, m': Module, s: string, o: Options, lay: Layout, i: nat, cur: Label, head: Reg, next: Reg, q: nat)
    requires LoopOpen(m, s, o, lay, i, cur) && cur < |m| && m[cur].term == NoTerm
    requires HeadReg(o) <= head < next && lay.loops[i].phi < next
    requires m' == WithTest(m, cur, head, next, lay.loops[i]) && CloseOf(s, i + 1, 0) == q && i < q
    ensures LoopDone(m', s, o, At(lay, q + 1, Point(|m|, 0, next + 2, next + 3)), i)
  {
    var lp := lay.loops[i];
    TestShape(m, s, o, lay, i, cur, head, next);
    assert Incoming([(lp.test, lp.phi)], lp.test) == Some(lp.phi) by {
      assert [(lp.test, lp.phi)][0] == (lp.test, lp.phi);
    }
    assert Grows(m[lp.body], m'[lp.body]);
  }

  lemma Closes(m: Module, s: string, o: Options, lay: Layout, open: set<nat>, pc: nat,
               cur: Label, head: Reg, next: Reg, q: nat, i: nat)
    requires InProgress(m, s, o, lay, open, pc, cur, head, next)
    requires pc <= |s| && q == NextCmd(s, pc) && q < |s| && s[q] == ']'
    requires i in open && lay.loops[i].phi < next && OpenOf(s, q, 0) == i && CloseOf(s, i + 1, 0) == q
    ensures InProgress(WithTest(m, cur, head, next, lay.loops[i]), s, o,
                       At(lay, q + 1, Point(|m|, 0, next + 2, next + 3)), open - {i}, q + 1, |m|, next + 2, next + 3)
  {
    var m', lay' := WithTest(m, cur, head, next, lay.loops[i]), At(lay, q + 1, Point(|m|, 0, next + 2, next + 3));
    assert LoopOpen(m, s, o, lay, i, cur);
    hide NextCmd, EndsMissing, PartsDone, LoopsApart;
    ClosesParts(m, s, o, lay, open, pc, cur, head, next, q, i);
    forall k | k in open - {i} ensures LoopOpen(m', s, o, lay', k, |m|) {
      assert LoopOpen(m, s, o, lay, k, cur);
      ClosesOther(m, s, o, lay, open, pc, cur, head, next, q, i, k);
    }
    hide WithTest;
    TestShape(m, s, o, lay, i, cur, head, next);
    ClosesEnds(m, m', lay, lay', open, cur, i);
    ClosesFront(m, o, lay, pc, cur, head, next, q, i);
    hide LoopOpen, FrontAt, Extends;
  }

  lemma ClosesParts(m: Module, s: string, o: Options, lay: Layout, open: set<nat>, pc: nat,
                    cur: Label, head: Reg, next: Reg, q: nat, i: nat)
    requires PartsDone(m, s, o, lay, open, pc) && FrontAt(m, o, lay, pc, cur, head, next) && LoopOpen(m, s, o, lay, i, cur)
    requires pc <= |s| && q == NextCmd(s, pc) && q < |s| && s[q] == ']'
    requires i in open && lay.loops[i].phi < next && OpenOf(s, q, 0) == i && CloseOf(s, i + 1, 0) == q && i < pc
    ensures PartsDone(WithTest(m, cur, head, next, lay.loops[i]), s, o, At(lay, q + 1, Point(|m|, 0, next + 2, next + 3)),
                      open - {i}, q + 1)
  {
    hide LoopDone, NextCmd, Extends, PartsDone;
    var lp := lay.loops[i];
    var m', lay' := WithTest(m, cur, head, next, lp), At(lay, q + 1, Point(|m|, 0, next + 2, next + 3));
    TestShape(m, s, o, lay, i, cur, head, next);
    TestDone(m, m', s, o, lay, i, cur, head, next, q);
    assert LayoutExtends(lay, lay');
    assert EntersLoop(m', lay'.points[pc], lp);
    assert PlainDone(m', s, o, lay', pc);
    PartsStay(m, m', s, o, lay, lay', open, open - {i}, pc, q + 1);
  }

  lemma ClosesOther(m: Module, s: string, o: Options, lay: Layout, open: set<nat>, pc: nat,
                    cur: Label, head: Reg, next: Reg, q: nat, i: nat, k: nat)
    requires FrontAt(m, o, lay, pc, cur, head, next) && LoopsApart(m, lay, pc) && pc <= q
    requires LoopOpen(m, s, o, lay, i, cur) && LoopOpen(m, s, o, lay, k, cur) && i != k
    ensures LoopOpen(WithTest(m, cur, head, next, lay.loops[i]), s, o, At(lay, q + 1, Point(|m|, 0, next + 2, next + 3)), k, |m|)
  {
    hide Extends;
    var m', lay' := WithTest(m, cur, head, next, lay.loops[i]), At(lay, q + 1, Point(|m|, 0, next + 2, next + 3));
    TestShape(m, s, o, lay, i, cur, head, next);
    OpenStays(m, m', s, o, lay, lay', k, cur, |m|);
  }

  lemma ClosesFront(m: Module, o: Options, lay: Layout, pc: nat, cur: Label, head: Reg, next: Reg, q: nat, i: nat)
    requires FrontAt(m, o, lay, pc, cur, head, next) && LoopsApart(m, lay, pc) && pc <= q
    requires i in lay.loops && lay.loops[i].test < |m| && m[lay.loops[i].test].phi.Some? && lay.loops[i].test != cur
    ensures var m', lay' := WithTest(m, cur, head, next, lay.loops[i]), At(lay, q + 1, Point(|m|, 0, next + 2, next + 3));
            FrontAt(m', o, lay', q + 1, |m|, next + 2, next + 3) && LoopsApart(m', lay', q + 1)
  {
  }

  lemma ClosesEnds(m: Module, m': Module, lay: Layout, lay': Layout, open: set<nat>, cur: Label, i: nat)
    requires EndsMissing(m, lay, open, cur) && i in lay.loops && lay'.loops == lay.loops && |m'| == |m| + 1
    requires cur < |m| && m'[cur].term != NoTerm && lay.loops[i].test < |m| && m'[lay.loops[i].test].term != NoTerm
    requires forall l :: 0 <= l < |m| && l != cur && l != lay.loops[i].test ==> m'[l] == m[l]
    ensures EndsMissing(m', lay', open - {i}, |m|)
  {
    forall l | 0 <= l < |m'| && m'[l].term == NoTerm
      ensures l == |m| || exists k :: k in open - {i} && k in lay'.loops && lay'.loops[k].test == l
    {
      if l < |m| {
        var k :| k in open && k in lay.loops && lay.loops[k].test == l;
        assert k in open - {i} && lay'.loops[k].test == l;
      }
    }
  }

  /** At the end of the text the whole module is a translation and every block has its terminator. */
  lemma Finishes(m: Module, s: string, o: Options, lay: Layout, pc: nat, cur: Label, head: Reg, next: Reg)
    requires InProgress(m, s, o, lay, {}, pc, cur, head, next)
    requires pc <= |s| && NextCmd(s, pc) == |s|
    ensures Translates(Terminate(m, cur, Br(lay.end)), s, o, lay)
    ensures forall l :: 0 <= l < |m| ==> Terminate(m, cur, Br(lay.end))[l].term != NoTerm
  {
    var m' := Terminate(m, cur, Br(lay.end));
    assert Extends(m, m');
    assert PlainDone(m', s, o, lay, pc);
    PartsStay(m, m', s, o, lay, lay, {}, {}, pc, pc);
  }
}
