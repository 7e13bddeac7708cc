/** The full invariant of a compilation under way, and what each emission does to it. */
module BrainFEmission {
  import opened Wrappers
  import opened BrainFLang
  import opened BrainFIR
  import opened BrainFTranslation
  import opened BrainFSsa
  import opened BrainFProgress

  /** The registers every command may need. */
  function Basics(o: Options): set<Reg> {
    if o.checked then {ARR, ARRMAX} else {ARR}
  }

  /** The head, the tape bounds, and all an open loop's test counts on, are known where code is added. */
  ghost predicate Alive(m: Module, avail: seq<set<Reg>>, o: Options, lay: Layout, open: set<nat>,
                        cur: Label, head: Reg, next: Reg)
  {
    && |avail| == |m| && cur < |m|
    && Basics(o) + {head} <= Known(m, avail, cur)
    && lay.end < |m| && avail[lay.end] <= {ARR}
    && (o.checked ==> lay.err < |m| && avail[lay.err] <= {ARR})
    && forall i :: i in open ==> LoopAlive(m, avail, o, lay, i, cur, next)
  }

  ghost predicate LoopAlive(m: Module, avail: seq<set<Reg>>, o: Options, lay: Layout, i: nat, cur: Label, next: Reg)
    requires |avail| == |m| && cur < |m|
  {
    && i in lay.loops && lay.loops[i].phi < next && lay.loops[i].test < |m| && lay.loops[i].body < |m|
    && Basics(o) <= avail[lay.loops[i].test] <= Known(m, avail, cur)
    && avail[lay.loops[i].body] <= avail[lay.loops[i].test] + {lay.loops[i].phi}
  }

  ghost predicate Sound(m: Module, avail: seq<set<Reg>>, s: string, o: Options, lay: Layout, open: set<nat>,
                        pc: nat, cur: Label, head: Reg, next: Reg)
  {
    && Ssa(m, avail, next) && InProgress(m, s, o, lay, open, pc, cur, head, next)
    && Alive(m, avail, o, lay, open, cur, head, next) && PhisSized(m)
  }

  // ----- Sizes of phis ----------------------------------------------------------------

  predicate TestsNothing(code: seq<Instr>) {
    forall k :: 0 <= k < |code| ==> !code[k].CmpZero?
  }

  /** Code without a loop test makes no block one. */
  lemma AppendedSized(m: Module, m': Module, l: Label, code: seq<Instr>)
    requires PhisSized(m) && TestsNothing(code) && l < |m| <= |m'|
    requires m'[l].phi == m[l].phi && m'[l].body == m[l].body + code
    requires forall k :: 0 <= k < |m'| && k != l ==> if k < |m| then m'[k] == m[k] else m'[k].phi.None?
    ensures PhisSized(m')
  {
    if IsTest(m[l]) {
      var k :| 0 <= k < |m[l].body| && m[l].body[k].CmpZero?;
      assert m'[l].body[k].CmpZero?;
    }
    assert IsTest(m'[l]) <==> IsTest(m[l]);
  }

  lemma LoopSized(m: Module, cur: Label, head: Reg, next: Reg)
    requires PhisSized(m) && cur < |m|
    ensures PhisSized(WithLoop(m, cur, head, next))
  {
    var m' := WithLoop(m, cur, head, next);
    assert m'[cur].body == m[cur].body;
    forall l | 0 <= l < |m'| && m'[l].phi.Some? ensures |m'[l].phi.value.incoming| == if IsTest(m'[l]) then 2 else 1 {
      assert l < |m| ==> (IsTest(m'[l]) <==> IsTest(m[l]));
    }
  }

  /** The test block gets its comparison together with the second entry of its phi. */
  lemma TestSized(m: Module, cur: Label, head: Reg, next: Reg, lp: Loop)
    requires PhisSized(m) && cur < |m| && lp.test < |m| && lp.test != cur
    requires m[lp.test].phi.Some? && |m[lp.test].phi.value.incoming| == 1 && m[lp.test].body == []
    ensures PhisSized(WithTest(m, cur, head, next, lp))
  {
    var m' := WithTest(m, cur, head, next, lp);
    assert m'[lp.test].body == [Load(next, lp.phi), CmpZero(next + 1, next)] && m'[lp.test].body[1].CmpZero?;
    forall l | 0 <= l < |m'| && m'[l].phi.Some? ensures |m'[l].phi.value.incoming| == if IsTest(m'[l]) then 2 else 1 {
      assert l < |m| && l != lp.test ==> (IsTest(m'[l]) <==> IsTest(m[l]));
    }
  }

  // ----- Straight-line code ---------------------------------------------------------

  function AppendAll(m: Module, l: Label, code: seq<Instr>): Module
    requires l < |m|
    decreases |code|
  {
    if code == [] then m else AppendAll(Append(m, l, code[0]), l, code[1..])
  }

  function RegsAfter(next: Reg, code: seq<Instr>): Reg
    decreases |code|
  {
    if code == [] then next else RegsAfter(next + |Defs(code[0])|, code[1..])
  }

  /** Code that numbers its registers from next on and uses only known ones. */
  ghost predicate CodeFits(known: set<Reg>, next: Reg, code: seq<Instr>)
    decreases |code|
  {
    code == [] ||
    (Uses(code[0]) <= known && Defs(code[0]) <= {next} &&
     CodeFits(known + Defs(code[0]), next + |Defs(code[0])|, code[1..]))
  }

  lemma {:induction false} AppendAllShape(m: Module, l: Label, code: seq<Instr>)
    requires l < |m|
    ensures AppendAll(m, l, code) == m[l := m[l].(body := m[l].body + code)]
    decreases |code|
  {
    if code == [] {
      assert m[l].body + [] == m[l].body;
    } else {
      AppendAllShape(Append(m, l, code[0]), l, code[1..]);
      assert m[l].body + [code[0]] + code[1..] == m[l].body + code;
    }
  }

  lemma {:induction false} AppendAllKeepsSsa(m: Module, avail: seq<set<Reg>>, next: Reg, l: Label, code: seq<Instr>)
    requires Ssa(m, avail, next) && l < |m| && CodeFits(Known(m, avail, l), next, code)
    ensures Ssa(AppendAll(m, l, code), avail, RegsAfter(next, code))
    ensures |AppendAll(m, l, code)| == |m|
    ensures Known(m, avail, l) <= Known(AppendAll(m, l, code), avail, l)
    decreases |code|
  {
    hide Ssa, Known;
    if code != [] {
      AppendKeepsSsa(m, avail, next, l, code[0]);
      AppendAllKeepsSsa(Append(m, l, code[0]), avail, next + |Defs(code[0])|, l, code[1..]);
    }
  }

  lemma {:induction false} AppendedIsKnown(m: Module, avail: seq<set<Reg>>, l: Label, code: seq<Instr>, k: nat)
    requires l < |m| == |avail| && k < |code|
    ensures Defs(code[k]) <= Known(m[l := m[l].(body := m[l].body + code)], avail, l)
  {
    var body := m[l].body + code;
    assert body[|m[l].body| + k] == code[k];
  }

  lemma AppendAllIsFound(m: Module, l: Label, code: seq<Instr>, idx: nat, h: Reg, f: Reg)
    requires l < |m| && idx == |m[l].body|
    ensures Found(AppendAll(m, l, code), Point(l, idx, h, f), code)
  {
    AppendAllShape(m, l, code);
  }

  lemma AliveStays(m: Module, m': Module, avail: seq<set<Reg>>, o: Options, lay: Layout, lay': Layout, open: set<nat>,
                   cur: Label, head: Reg, next: Reg, head': Reg, next': Reg)
    requires Alive(m, avail, o, lay, open, cur, head, next)
    requires |m'| == |m| && next <= next' && LayoutExtends(lay, lay')
    requires Known(m, avail, cur) + {head'} <= Known(m', avail, cur)
    ensures Alive(m', avail, o, lay', open, cur, head', next')
  {
    forall i | i in open ensures LoopAlive(m', avail, o, lay', i, cur, next') {
      assert LoopAlive(m, avail, o, lay, i, cur, next);
    }
  }

  /** A command whose code stays in the current block keeps the invariant. */
  lemma EmitKeeps(m: Module, avail: seq<set<Reg>>, s: string, o: Options, lay: Layout, open: set<nat>,
                  pc: nat, cur: Label, head: Reg, next: Reg, code: seq<Instr>, pc': nat, head': Reg)
    requires Sound(m, avail, s, o, lay, open, pc, cur, head, next)
    requires CodeFits(Known(m, avail, cur), next, code) && TestsNothing(code) && pc < pc' && pc <= |s|
    requires HeadReg(o) <= head' < RegsAfter(next, code)
    requires head' == head || exists k :: 0 <= k < |code| && head' in Defs(code[k])
    requires var m' := AppendAll(m, cur, code);
             PlainDone(m', s, o, At(lay, pc', Point(cur, |m[cur].body| + |code|, head', RegsAfter(next, code))), pc)
    ensures Sound(AppendAll(m, cur, code), avail, s, o,
                  At(lay, pc', Point(cur, |m[cur].body| + |code|, head', RegsAfter(next, code))), open,
                  pc', cur, head', RegsAfter(next, code))
  {
    assert cur < |m|;
    hide Ssa, InProgress, Alive, PlainDone, CodeFits, PhisSized, TestsNothing, Known;
    AppendAllShape(m, cur, code);
    AppendedSized(m, AppendAll(m, cur, code), cur, code);
    AppendAllKeepsSsa(m, avail, next, cur, code);
    EmitProceeds(m, s, o, lay, open, pc, cur, head, next, code, pc', head');
    EmitIsAlive(m, avail, s, o, lay, open, pc, cur, head, next, code, pc', head');
  }

  lemma EmitProceeds(m: Module, s: string, o: Options, lay: Layout, open: set<nat>,
                     pc: nat, cur: Label, head: Reg, next: Reg, code: seq<Instr>, pc': nat, head': Reg)
    requires InProgress(m, s, o, lay, open, pc, cur, head, next) && cur < |m| && pc < pc' && pc <= |s|
    requires HeadReg(o) <= head' < RegsAfter(next, code)
    requires var m' := AppendAll(m, cur, code);
             PlainDone(m', s, o, At(lay, pc', Point(cur, |m[cur].body| + |code|, head', RegsAfter(next, code))), pc)
    ensures InProgress(AppendAll(m, cur, code), s, o,
                       At(lay, pc', Point(cur, |m[cur].body| + |code|, head', RegsAfter(next, code))), open,
                       pc', cur, head', RegsAfter(next, code))
  {
    hide PartsDone, LoopOpen, LoopsApart, EndsMissing, PlainDone;
    AppendAllShape(m, cur, code);
    Proceeds(m, AppendAll(m, cur, code), s, o, lay, open, pc, cur, head, next, pc',
             Point(cur, |m[cur].body| + |code|, head', RegsAfter(next, code)));
  }

  lemma EmitIsAlive(m: Module, avail: seq<set<Reg>>, s: string, o: Options, lay: Layout, open: set<nat>,
                    pc: nat, cur: Label, head: Reg, next: Reg, code: seq<Instr>, pc': nat, head': Reg)
    requires Ssa(m, avail, next) && Alive(m, avail, o, lay, open, cur, head, next) && pc < pc'
    requires InProgress(m, s, o, lay, open, pc, cur, head, next) && CodeFits(Known(m, avail, cur), next, code)
    requires head' == head || exists k :: 0 <= k < |code| && head' in Defs(code[k])
    ensures Alive(AppendAll(m, cur, code), avail, o, At(lay, pc', Point(cur, |m[cur].body| + |code|, head', RegsAfter(next, code))),
                  open, cur, head', RegsAfter(next, code))
  {
    hide Ssa, PartsDone, LoopOpen, LoopsApart, EndsMissing, LoopAlive, CodeFits;
    var next' := RegsAfter(next, code);
    AppendAllShape(m, cur, code);
    AppendAllKeepsSsa(m, avail, next, cur, code);
    RegsGrow(next, code);
    if head' != head {
      var k :| 0 <= k < |code| && head' in Defs(code[k]);
      AppendedIsKnown(m, avail, cur, code, k);
    }
    AliveStays(m, AppendAll(m, cur, code), avail, o, lay, At(lay, pc', Point(cur, |m[cur].body| + |code|, head', next')), open, cur,
               head, next, head', next');
  }

  lemma {:induction false} RegsGrow(next: Reg, code: seq<Instr>)
    ensures next <= RegsAfter(next, code)
    decreases |code|
  {
    if code != [] {
      RegsGrow(next + |Defs(code[0])|, code[1..]);
    }
  }

  lemma ThreeFit(known: set<Reg>, next: Reg, a: Instr, b: Instr, c: Instr)
    requires Uses(a) <= known && Uses(b) <= known + {next} && Uses(c) <= known + {next, next + 1}
    requires Defs(a) == {next} && Defs(b) == {next + 1} && Defs(c) == {}
    ensures CodeFits(known, next, [a, b, c]) && RegsAfter(next, [a, b, c]) == next + 2
  {
    assert [a, b, c][1..] == [b, c] && [b, c][1..] == [c] && [c][1..] == [];
    assert CodeFits(known + {next} + {next + 1}, next + 2, [c]);
    assert RegsAfter(next + 2, [c]) == next + 2;
    assert CodeFits(known + {next}, next + 1, [b, c]);
  }

  /** What a command may rely on. */
  lemma SoundFront(m: Module, avail: seq<set<Reg>>, s: string, o: Options, lay: Layout, open: set<nat>,
                   pc: nat, cur: Label, head: Reg, next: Reg)
    requires Sound(m, avail, s, o, lay, open, pc, cur, head, next)
    ensures FrontAt(m, o, lay, pc, cur, head, next) && |avail| == |m|
    ensures Basics(o) + {head} <= Known(m, avail, cur)
  {
  }

  lemma CodeIsDone(m: Module, s: string, o: Options, lay: Layout, pc: nat, cur: Label, head: Reg, next: Reg,
                   code: seq<Instr>, e: nat, to: Point)
    requires FrontAt(m, o, lay, pc, cur, head, next) && pc < e
    ensures var m', lay' := AppendAll(m, cur, code), At(lay, e, to);
            CodeDone(m', lay', lay.points[pc], code, e, to) && lay'.points[pc] == lay.points[pc]
            && HeadReg(o) <= lay.points[pc].head < lay.points[pc].next
  {
    AppendAllIsFound(m, cur, code, |m[cur].body|, head, next);
  }

  lemma ReadKeeps(m: Module, avail: seq<set<Reg>>, s: string, o: Options, lay: Layout, open: set<nat>,
                  pc: nat, cur: Label, head: Reg, next: Reg, q: nat)
    requires Sound(m, avail, s, o, lay, open, pc, cur, head, next)
    requires pc <= |s| && q == NextCmd(s, pc) && q < |s| && s[q] == ','
    ensures Sound(AppendAll(m, cur, ReadCode(head, next)), avail, s, o,
                  At(lay, q + 1, Point(cur, |m[cur].body| + 3, head, next + 2)), open, q + 1, cur, head, next + 2)
  {
    hide Sound, Known, Found, RunEnd, RunSum, NextCmd, OpenOf, CodeFits, RegsAfter, AppendAll;
    SoundFront(m, avail, s, o, lay, open, pc, cur, head, next);
    var code := ReadCode(head, next);
    ThreeFit(Known(m, avail, cur), next, code[0], code[1], code[2]);
    CodeIsDone(m, s, o, lay, pc, cur, head, next, code, q + 1, Point(cur, |m[cur].body| + 3, head, next + 2));
    EmitKeeps(m, avail, s, o, lay, open, pc, cur, head, next, code, q + 1, head);
  }

  lemma WriteKeeps(m: Module, avail: seq<set<Reg>>, s: string, o: Options, lay: Layout, open: set<nat>,
                   pc: nat, cur: Label, head: Reg, next: Reg, q: nat)
    requires Sound(m, avail, s, o, lay, open, pc, cur, head, next)
    requires pc <= |s| && q == NextCmd(s, pc) && q < |s| && s[q] == '.'
    ensures Sound(AppendAll(m, cur, WriteCode(head, next)), avail, s, o,
                  At(lay, q + 1, Point(cur, |m[cur].body| + 3, head, next + 2)), open, q + 1, cur, head, next + 2)
  {
    hide Sound, Known, Found, RunEnd, RunSum, NextCmd, OpenOf, CodeFits, RegsAfter, AppendAll;
    SoundFront(m, avail, s, o, lay, open, pc, cur, head, next);
    var code := WriteCode(head, next);
    ThreeFit(Known(m, avail, cur), next, code[0], code[1], code[2]);
    CodeIsDone(m, s, o, lay, pc, cur, head, next, code, q + 1, Point(cur, |m[cur].body| + 3, head, next + 2));
    EmitKeeps(m, avail, s, o, lay, open, pc, cur, head, next, code, q + 1, head);
  }

  lemma ChangeKeeps(m: Module, avail: seq<set<Reg>>, s: string, o: Options, lay: Layout, open: set<nat>,
                    pc: nat, cur: Label, head: Reg, next: Reg, q: nat, e: nat, k: int)
    requires Sound(m, avail, s, o, lay, open, pc, cur, head, next)
    requires pc <= |s| && q == NextCmd(s, pc) && q < |s| && IsChange(s[q])
    requires e == RunEnd(s, q, false) && k == RunSum(s, q, e, false)
    ensures Sound(AppendAll(m, cur, ChangeCode(head, next, k)), avail, s, o,
                  At(lay, e, Point(cur, |m[cur].body| + 3, head, next + 2)), open, e, cur, head, next + 2)
  {
    hide Sound, Known, Found, RunEnd, RunSum, NextCmd, OpenOf, CodeFits, RegsAfter, AppendAll;
    SoundFront(m, avail, s, o, lay, open, pc, cur, head, next);
    var code := ChangeCode(head, next, k);
    ThreeFit(Known(m, avail, cur), next, code[0], code[1], code[2]);
    CodeIsDone(m, s, o, lay, pc, cur, head, next, code, e, Point(cur, |m[cur].body| + 3, head, next + 2));
    EmitKeeps(m, avail, s, o, lay, open, pc, cur, head, next, code, e, head);
  }

  lemma PlainMoveKeeps(m: Module, avail: seq<set<Reg>>, s: string, o: Options, lay: Layout, open: set<nat>,
                       pc: nat, cur: Label, head: Reg, next: Reg, q: nat, e: nat, k: int)
    requires Sound(m, avail, s, o, lay, open, pc, cur, head, next) && !o.checked
    requires pc <= |s| && q == NextCmd(s, pc) && q < |s| && IsMove(s[q])
    requires e == RunEnd(s, q, true) && k == RunSum(s, q, e, true)
    ensures Sound(AppendAll(m, cur, [Gep(next, head, k)]), avail, s, o,
                  At(lay, e, Point(cur, |m[cur].body| + 1, next, next + 1)), open, e, cur, next, next + 1)
  {
    hide Sound, Known, Found, RunEnd, RunSum, NextCmd, OpenOf, CodeFits, RegsAfter, AppendAll;
    SoundFront(m, avail, s, o, lay, open, pc, cur, head, next);
    var code := [Gep(next, head, k)];
    assert MoveCode(head, next, k, o) == code;
    OneFits(Known(m, avail, cur), next, code[0]);
    CodeIsDone(m, s, o, lay, pc, cur, head, next, code, e, Point(cur, |m[cur].body| + 1, next, next + 1));
    assert next in Defs(code[0]);
    EmitKeeps(m, avail, s, o, lay, open, pc, cur, head, next, code, e, next);
  }

  lemma OneFits(known: set<Reg>, next: Reg, a: Instr)
    requires Uses(a) <= known && Defs(a) == {next}
    ensures CodeFits(known, next, [a]) && RegsAfter(next, [a]) == next + 1
  {
    assert [a][1..] == [];
    assert RegsAfter(next + 1, []) == next + 1;
  }

  // ----- Commands that end a block ----------------------------------------------------

  lemma FitsCons(known: set<Reg>, next: Reg, a: Instr, rest: seq<Instr>)
    requires Uses(a) <= known && Defs(a) == {next} && CodeFits(known + {next}, next + 1, rest)
    ensures CodeFits(known, next, [a] + rest) && RegsAfter(next, [a] + rest) == RegsAfter(next + 1, rest)
  {
    assert ([a] + rest)[1..] == rest;
  }

  lemma MoveCodeFits(known: set<Reg>, next: Reg, head: Reg, k: int, o: Options)
    requires o.checked && {ARR, ARRMAX, head} <= known
    ensures CodeFits(known, next, MoveCode(head, next, k, o)) && RegsAfter(next, MoveCode(head, next, k, o)) == next + 4
  {
    hide CodeFits, RegsAfter;
    var f := next;
    var a, b, c, d := Gep(f, head, k), CmpUGE(f + 1, f, ARRMAX), CmpULT(f + 2, f, ARR), OrI1(f + 3, f + 1, f + 2);
    OneFits(known + {f} + {f + 1} + {f + 2}, f + 3, d);
    FitsCons(known + {f} + {f + 1}, f + 2, c, [d]);
    FitsCons(known + {f}, f + 1, b, [c] + [d]);
    FitsCons(known, f, a, [b] + ([c] + [d]));
    assert MoveCode(head, next, k, o) == [a] + ([b] + ([c] + [d]));
  }

  /** The module after a checked move: the comparisons, the branch and the block to go on in. */
  function WithCheck(m: Module, o: Options, lay: Layout, cur: Label, head: Reg, next: Reg, k: int): Module
    requires cur < |m|
  {
    AppendAllShape(m, cur, MoveCode(head, next, k, o));
    Terminate(AddBlock(AppendAll(m, cur, MoveCode(head, next, k, o))), cur, CondBr(next + 3, lay.err, |m|))
  }

  lemma CheckIsSsa(m: Module, avail: seq<set<Reg>>, o: Options, lay: Layout, open: set<nat>,
                   cur: Label, head: Reg, next: Reg, k: int) returns (before: set<Reg>)
    requires o.checked && Ssa(m, avail, next) && Alive(m, avail, o, lay, open, cur, head, next)
    requires m[cur].term == NoTerm && FooterDone(m, o, lay)
    ensures Ssa(WithCheck(m, o, lay, cur, head, next, k), avail + [before], next + 4)
    ensures Known(WithCheck(m, o, lay, cur, head, next, k), avail + [before], |m|) == before
    ensures Known(m, avail, cur) + {next} <= before
  {
    hide Ssa, CodeFits, RegsAfter, Known;
    var code := MoveCode(head, next, k, o);
    MoveCodeFits(Known(m, avail, cur), next, head, k, o);
    AppendAllShape(m, cur, code);
    AppendAllKeepsSsa(m, avail, next, cur, code);
    AppendedIsKnown(m, avail, cur, code, 0);
    AppendedIsKnown(m, avail, cur, code, 3);
    var m1 := AppendAll(m, cur, code);
    before := Known(m1, avail, cur);
    AddBlockKeepsSsa(m1, avail, next + 4, before);
    var m2, avail2 := AddBlock(m1), avail + [before];
    KnownOld(m1, avail, before, cur);
    TerminateKeepsSsa(m2, avail2, next + 4, cur, CondBr(next + 3, lay.err, |m|));
    KnownOther(m2, avail2, cur, CondBr(next + 3, lay.err, |m|), |m|);
  }

  lemma KnownOld(m: Module, avail: seq<set<Reg>>, before: set<Reg>, l: Label)
    requires l < |m| == |avail|
    ensures Known(AddBlock(m), avail + [before], l) == Known(m, avail, l)
  {
  }

  lemma KnownOther(m: Module, avail: seq<set<Reg>>, l: Label, t: Term, k: Label)
    requires l < |m| == |avail| && k < |m|
    ensures Known(Terminate(m, l, t), avail, k) == Known(m, avail, k)
  {
  }

  lemma AliveMoves(m: Module, m': Module, avail: seq<set<Reg>>, avail': seq<set<Reg>>, o: Options, lay: Layout, lay': Layout,
                   open: set<nat>, cur: Label, head: Reg, next: Reg, cur': Label, head': Reg, next': Reg)
    requires Alive(m, avail, o, lay, open, cur, head, next)
    requires |m| <= |m'| == |avail'| && avail <= avail' && next <= next' && LayoutExtends(lay, lay') && cur' < |m'|
    requires Known(m, avail, cur) + {head'} <= Known(m', avail', cur')
    ensures Alive(m', avail', o, lay', open, cur', head', next')
  {
    hide Known;
    forall i | i in open ensures LoopAlive(m', avail', o, lay', i, cur', next') {
      assert LoopAlive(m, avail, o, lay, i, cur, next);
    }
  }

  lemma CheckShape(m: Module, o: Options, lay: Layout, cur: Label, head: Reg, next: Reg, k: int)
    requires cur < |m| && m[cur].term == NoTerm
    ensures var m' := WithCheck(m, o, lay, cur, head, next, k);
            && m' == m[cur := Block(m[cur].phi, m[cur].body + MoveCode(head, next, k, o), CondBr(next + 3, lay.err, |m|))]
                     + [Block(None, [], NoTerm)]
            && Extends(m, m') && OnlyAt(m, m', cur)
  {
    AppendAllShape(m, cur, MoveCode(head, next, k, o));
  }

  lemma CheckIsDone(m: Module, s: string, o: Options, lay: Layout, pc: nat,
                    cur: Label, head: Reg, next: Reg, q: nat, e: nat, k: int)
    requires o.checked && FrontAt(m, o, lay, pc, cur, head, next)
    requires pc <= |s| && q == NextCmd(s, pc) && q < |s| && IsMove(s[q])
    requires e == RunEnd(s, q, true) && k == RunSum(s, q, e, true) && pc < e
    ensures PlainDone(WithCheck(m, o, lay, cur, head, next, k), s, o, At(lay, e, Point(|m|, 0, next, next + 4)), pc)
  {
    hide NextCmd, RunEnd, RunSum, Extends, OnlyAt, WithCheck, CheckCode;
    var code := MoveCode(head, next, k, o);
    var m', pt := WithCheck(m, o, lay, cur, head, next, k), Point(|m|, 0, next, next + 4);
    CheckShape(m, o, lay, cur, head, next, k);
    assert FoundLast(m', lay.points[pc], code, CondBr(next + 3, lay.err, |m|));
    assert MoveDone(m', o, At(lay, e, pt), lay.points[pc], k, e);
  }

  lemma CheckProceeds(m: Module, s: string, o: Options, lay: Layout, open: set<nat>, pc: nat,
                      cur: Label, head: Reg, next: Reg, q: nat, e: nat, k: int)
    requires o.checked && InProgress(m, s, o, lay, open, pc, cur, head, next)
    requires pc <= |s| && q == NextCmd(s, pc) && q < |s| && IsMove(s[q])
    requires e == RunEnd(s, q, true) && k == RunSum(s, q, e, true)
    ensures InProgress(WithCheck(m, o, lay, cur, head, next, k), s, o, At(lay, e, Point(|m|, 0, next, next + 4)), open,
                       e, |m|, next, next + 4)
  {
    hide PartsDone, LoopOpen, LoopsApart, EndsMissing, PlainDone, NextCmd, RunEnd, RunSum, WithCheck, MoveCode, Extends, OnlyAt;
    SeriesMoves(s, q, e);
    CheckShape(m, o, lay, cur, head, next, k);
    CheckIsDone(m, s, o, lay, pc, cur, head, next, q, e, k);
    Proceeds(m, WithCheck(m, o, lay, cur, head, next, k), s, o, lay, open, pc, cur, head, next, e, Point(|m|, 0, next, next + 4));
  }

  lemma SeriesMoves(s: string, q: nat, e: nat)
    requires q < |s| && IsMove(s[q]) && e == RunEnd(s, q, true)
    ensures q < e
  {
  }

  lemma CheckedSize(m: Module, o: Options, lay: Layout, cur: Label, head: Reg, next: Reg, k: int)
    requires cur < |m|
    ensures |WithCheck(m, o, lay, cur, head, next, k)| == |m| + 1
  {
    AppendAllShape(m, cur, MoveCode(head, next, k, o));
  }

  lemma CheckedMoveKeeps(m: Module, avail: seq<set<Reg>>, s: string, o: Options, lay: Layout, open: set<nat>,
                         pc: nat, cur: Label, head: Reg, next: Reg, q: nat, e: nat, k: int) returns (before: set<Reg>)
    requires Sound(m, avail, s, o, lay, open, pc, cur, head, next) && o.checked
    requires pc <= |s| && q == NextCmd(s, pc) && q < |s| && IsMove(s[q])
    requires e == RunEnd(s, q, true) && k == RunSum(s, q, e, true)
    ensures Sound(WithCheck(m, o, lay, cur, head, next, k), avail + [before], s, o,
                  At(lay, e, Point(|m|, 0, next, next + 4)), open, e, |m|, next, next + 4)
  {
    SoundFooter(m, avail, s, o, lay, open, pc, cur, head, next);
    SoundFront(m, avail, s, o, lay, open, pc, cur, head, next);
    hide Ssa, InProgress, LoopAlive, Known, PhisSized, FooterDone, FrontAt, Basics;
    CheckShape(m, o, lay, cur, head, next, k);
    AppendedSized(m, WithCheck(m, o, lay, cur, head, next, k), cur, MoveCode(head, next, k, o));
    CheckedSize(m, o, lay, cur, head, next, k);
    hide WithCheck, MoveCode, Extends, OnlyAt;
    before := CheckIsSsa(m, avail, o, lay, open, cur, head, next, k);
    CheckProceeds(m, s, o, lay, open, pc, cur, head, next, q, e, k);
    AliveMoves(m, WithCheck(m, o, lay, cur, head, next, k), avail, avail + [before], o, lay,
               At(lay, e, Point(|m|, 0, next, next + 4)), open, cur, head, next, |m|, next, next + 4);
  }

  lemma SoundFooter(m: Module, avail: seq<set<Reg>>, s: string, o: Options, lay: Layout, open: set<nat>,
                    pc: nat, cur: Label, head: Reg, next: Reg)
    requires Sound(m, avail, s, o, lay, open, pc, cur, head, next)
    ensures FooterDone(m, o, lay) && m[cur].term == NoTerm && pc in lay.points
    ensures forall e, pt :: e > pc ==> LayoutExtends(lay, At(lay, e, pt))
  {
  }

  // ----- Loops ----------------------------------------------------------------------

  lemma OpenIsSsa(m: Module, avail: seq<set<Reg>>, next: Reg, cur: Label, head: Reg)
    requires Ssa(m, avail, next) && cur < |m| && m[cur].term == NoTerm && head in Known(m, avail, cur)
    ensures var before := Known(m, avail, cur);
            var avail' := avail + [before] + [before + {next}];
            && Ssa(WithLoop(m, cur, head, next), avail', next + 1)
            && Known(WithLoop(m, cur, head, next), avail', |m| + 1) == before + {next}
  {
    SsaLength(m, avail, next);
    hide Ssa, Known;
    var before := Known(m, avail, cur);
    TerminateToNewKeepsSsa(m, avail, next, cur, Br(|m|), head, before);
    AddBlockKeepsSsa(TerminateToNew(m, cur, Br(|m|), next, head), avail + [before], next + 1, before + {next});
  }

  lemma SsaLength(m: Module, avail: seq<set<Reg>>, next: Reg)
    requires Ssa(m, avail, next)
    ensures |avail| == |m|
  {
  }

  lemma OpenKeeps(m: Module, avail: seq<set<Reg>>, s: string, o: Options, lay: Layout, open: set<nat>,
                  pc: nat, cur: Label, head: Reg, next: Reg, q: nat) returns (avail': seq<set<Reg>>)
    requires Sound(m, avail, s, o, lay, open, pc, cur, head, next)
    requires pc <= |s| && q == NextCmd(s, pc) && q < |s| && s[q] == '['
    ensures Sound(WithLoop(m, cur, head, next), avail', s, o, WithLoopLayout(m, lay, q, next), open + {q}, q + 1,
                  |m| + 1, next, next + 1)
    ensures avail <= avail' && |m| < |avail'| && avail'[|m|] == Known(m, avail, cur)
    ensures forall i :: i in open ==> i in lay.loops && lay.loops[i].test < |avail| && avail[lay.loops[i].test] <= avail'[|m|]
    ensures forall i :: i in lay.loops ==> i < pc
  {
    SoundFooter(m, avail, s, o, lay, open, pc, cur, head, next);
    SoundLoops(m, avail, s, o, lay, open, pc, cur, head, next);
    hide Ssa, InProgress, Known, LoopAlive, PhisSized;
    LoopSized(m, cur, head, next);
    var before := Known(m, avail, cur);
    avail' := avail + [before] + [before + {next}];
    OpenIsSsa(m, avail, next, cur, head);
    Opens(m, s, o, lay, open, pc, cur, head, next, q);
    OpenIsAlive(m, avail, o, lay, open, pc, cur, head, next, q);
    forall i | i in open ensures i in lay.loops && lay.loops[i].test < |avail| && avail[lay.loops[i].test] <= before {
      LoopAliveMeans(m, avail, o, lay, i, cur, next);
    }
  }

  lemma LoopAliveMeans(m: Module, avail: seq<set<Reg>>, o: Options, lay: Layout, i: nat, cur: Label, next: Reg)
    requires |avail| == |m| && cur < |m| && LoopAlive(m, avail, o, lay, i, cur, next)
    ensures i in lay.loops && lay.loops[i].test < |avail| && avail[lay.loops[i].test] <= Known(m, avail, cur)
  {
  }

  lemma OpenIsAlive(m: Module, avail: seq<set<Reg>>, o: Options, lay: Layout, open: set<nat>, pc: nat,
                    cur: Label, head: Reg, next: Reg, q: nat)
    requires Alive(m, avail, o, lay, open, cur, head, next) && pc <= q
    requires (forall p :: p in lay.points ==> p <= pc) && forall i :: i in lay.loops ==> i < pc
    requires var before := Known(m, avail, cur);
             Known(WithLoop(m, cur, head, next), avail + [before] + [before + {next}], |m| + 1) == before + {next}
    ensures var before := Known(m, avail, cur);
            Alive(WithLoop(m, cur, head, next), avail + [before] + [before + {next}], o, WithLoopLayout(m, lay, q, next),
                  open + {q}, |m| + 1, next, next + 1)
  {
    hide Known;
    var before := Known(m, avail, cur);
    var m', avail', lay' := WithLoop(m, cur, head, next), avail + [before] + [before + {next}], WithLoopLayout(m, lay, q, next);
    forall i | i in open + {q} ensures LoopAlive(m', avail', o, lay', i, |m| + 1, next + 1) {
      if i in open {
        assert LoopAlive(m, avail, o, lay, i, cur, next);
      }
    }
  }

  lemma SoundLoops(m: Module, avail: seq<set<Reg>>, s: string, o: Options, lay: Layout, open: set<nat>,
                   pc: nat, cur: Label, head: Reg, next: Reg)
    requires Sound(m, avail, s, o, lay, open, pc, cur, head, next)
    ensures forall i :: i in lay.loops ==> i < pc
    ensures forall i :: i in open ==> i in lay.loops && LoopOpen(m, s, o, lay, i, cur)
    ensures |avail| == |m| && pc in lay.points && forall p :: p in lay.points ==> p <= pc
  {
  }

  lemma CloseIsSsa(m: Module, avail: seq<set<Reg>>, s: string, o: Options, lay: Layout, open: set<nat>,
                   cur: Label, head: Reg, next: Reg, i: nat) returns (before: set<Reg>)
    requires Ssa(m, avail, next) && Alive(m, avail, o, lay, open, cur, head, next) && m[cur].term == NoTerm
    requires i in open && LoopOpen(m, s, o, lay, i, cur)
    ensures var m' := WithTest(m, cur, head, next, lay.loops[i]);
            Ssa(m', avail + [before], next + 3) && |m'| == |m| + 1 && Known(m', avail + [before], |m|) == before + {next + 2}
    ensures avail[lay.loops[i].test] <= before
  {
    hide Ssa, Known;
    var lp := lay.loops[i];
    assert LoopAlive(m, avail, o, lay, i, cur, next);
    JumpBackKeepsSsa(m, avail, next, cur, lp.test, head);
    var m1 := JumpBack(m, cur, lp.test, head);
    PhiIsKnown(m, avail, lp.test);
    var m3 := TestAppended(m1, avail, next, lp.test, lp.phi);
    before := Known(m3, avail, lp.test);
    TerminateToNewKeepsSsa(m3, avail, next + 2, lp.test, CondBr(next + 1, |m|, lp.body), lp.phi, before);
  }

  lemma TestAppended(m: Module, avail: seq<set<Reg>>, next: Reg, l: Label, phi: Reg) returns (m': Module)
    requires Ssa(m, avail, next) && l < |m| && phi in Known(m, avail, l)
    ensures m' == Append(Append(m, l, Load(next, phi)), l, CmpZero(next + 1, next)) && Ssa(m', avail, next + 2)
    ensures Known(m', avail, l) == Known(m, avail, l) + {next} + {next + 1}
    ensures |m'| == |m| && m'[l].term == m[l].term && forall b :: 0 <= b < |m| && b != l ==> m'[b] == m[b]
  {
    hide Ssa, Known;
    AppendKeepsSsa(m, avail, next, l, Load(next, phi));
    var n := Append(m, l, Load(next, phi));
    AppendKeepsSsa(n, avail, next + 1, l, CmpZero(next + 1, next));
    m' := Append(n, l, CmpZero(next + 1, next));
  }

  lemma PhiIsKnown(m: Module, avail: seq<set<Reg>>, l: Label)
    requires l < |m| == |avail| && m[l].phi.Some?
    ensures avail[l] + {m[l].phi.value.r} <= Known(m, avail, l)
  {
  }

  lemma CloseKeeps(m: Module, avail: seq<set<Reg>>, s: string, o: Options, lay: Layout, open: set<nat>,
                   pc: nat, cur: Label, head: Reg, next: Reg, q: nat, i: nat) returns (avail': seq<set<Reg>>)
    requires Sound(m, avail, s, o, lay, open, pc, cur, head, next)
    requires pc <= |s| && q == NextCmd(s, pc) && q < |s| && s[q] == ']'
    requires i in open && i in lay.loops && OpenOf(s, q, 0) == i && CloseOf(s, i + 1, 0) == q
    requires lay.loops[i].test < |avail|
    requires forall k :: k in open ==> k in lay.loops && lay.loops[k].test < |avail| && avail[lay.loops[k].test] <= avail[lay.loops[i].test]
    ensures lay.loops[i].test < |m| && m[lay.loops[i].test].phi.Some?
    ensures Sound(WithTest(m, cur, head, next, lay.loops[i]), avail', s, o,
                  At(lay, q + 1, Point(|m|, 0, next + 2, next + 3)), open - {i}, q + 1, |m|, next + 2, next + 3)
    ensures avail <= avail'
  {
    SoundFooter(m, avail, s, o, lay, open, pc, cur, head, next);
    SoundLoops(m, avail, s, o, lay, open, pc, cur, head, next);
    hide Ssa, InProgress, Known, PhisSized;
    TestSized(m, cur, head, next, lay.loops[i]);
    assert LoopAlive(m, avail, o, lay, i, cur, next);
    var before := CloseIsSsa(m, avail, s, o, lay, open, cur, head, next, i);
    avail' := avail + [before];
    Closes(m, s, o, lay, open, pc, cur, head, next, q, i);
    var m', lay' := WithTest(m, cur, head, next, lay.loops[i]), At(lay, q + 1, Point(|m|, 0, next + 2, next + 3));
    forall k | k in open - {i} ensures LoopAlive(m', avail', o, lay', k, |m|, next + 3) {
      assert LoopAlive(m, avail, o, lay, k, cur, next);
    }
    assert Alive(m', avail', o, lay', open - {i}, |m|, next + 2, next + 3);
  }
}
