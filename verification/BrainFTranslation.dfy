/** What it means for a module to be a translation of a BrainF text, and the proof
    that every translation behaves like the text. */
module BrainFTranslation {
  import opened Wrappers
  import opened BrainFLang
  import opened BrainFIR

  /** A place in the code: a position in a block, the register that holds the head there,
      and the first register that is still unused. */
  datatype Point = Point(block: Label, idx: nat, head: Reg, next: Reg)

  /** The blocks and the phi of a loop. */
  datatype Loop = Loop(test: Label, body: Label, phi: Reg)

  /** Where each translated text position lives in the code. */
  datatype Layout = Layout(points: map<nat, Point>, loops: map<nat, Loop>, end: Label, err: Label)

  const ARR: Reg := 0
  const ARRMAX: Reg := 1

  function HeadReg(o: Options): Reg {
    if o.checked then 2 else 1
  }

  function HeaderCode(o: Options): seq<Instr> {
    [Malloc(ARR, o.mem), Memset(ARR, 0, o.mem)]
    + (if o.checked then [Gep(ARRMAX, ARR, o.mem)] else [])
    + [Gep(HeadReg(o), ARR, o.mem / 2)]
  }

  function ReadCode(h: Reg, f: Reg): seq<Instr> {
    [GetCharI32(f), Trunc(f + 1, f), Store(f + 1, h)]
  }

  function WriteCode(h: Reg, f: Reg): seq<Instr> {
    [Load(f, h), SExt(f + 1, f), PutCharI32(f + 1)]
  }

  function ChangeCode(h: Reg, f: Reg, k: int): seq<Instr> {
    [Load(f, h), AddI8(f + 1, f, k), Store(f + 1, h)]
  }

  function CheckCode(f: Reg): seq<Instr> {
    [CmpUGE(f + 1, f, ARRMAX), CmpULT(f + 2, f, ARR), OrI1(f + 3, f + 1, f + 2)]
  }

  function MoveCode(h: Reg, f: Reg, k: int, o: Options): seq<Instr> {
    [Gep(f, h, k)] + (if o.checked then CheckCode(f) else [])
  }

  /** The code is found at pt. */
  ghost predicate Found(m: Module, pt: Point, code: seq<Instr>) {
    && pt.block < |m| && pt.idx + |code| <= |m[pt.block].body|
    && forall k :: 0 <= k < |code| ==> m[pt.block].body[pt.idx + k] == code[k]
  }

  /** The code is found at pt and is the end of its block. */
  ghost predicate FoundLast(m: Module, pt: Point, code: seq<Instr>, t: Term) {
    Found(m, pt, code) && |m[pt.block].body| == pt.idx + |code| && m[pt.block].term == t
  }

  ghost predicate NoPhi(m: Module, l: Label) {
    l < |m| && m[l].phi == None
  }

  ghost predicate EntersLoop(m: Module, pt: Point, lp: Loop) {
    && FoundLast(m, pt, [], Br(lp.test))
    && lp.test < |m| && m[lp.test].phi.Some? && m[lp.test].phi.value.r == lp.phi
    && Incoming(m[lp.test].phi.value.incoming, pt.block) == Some(pt.head)
  }

  /** The code at pt, and the place where control stands after it. */
  ghost predicate CodeDone(m: Module, lay: Layout, pt: Point, code: seq<Instr>, after: nat, to: Point) {
    Found(m, pt, code) && after in lay.points && lay.points[after] == to
  }

  function Past(pt: Point, instrs: nat, regs: nat): Point {
    pt.(idx := pt.idx + instrs, next := pt.next + regs)
  }

  ghost predicate MoveDone(m: Module, o: Options, lay: Layout, pt: Point, k: int, e: nat) {
    var f := pt.next;
    if o.checked then
      && e in lay.points && NoPhi(m, lay.points[e].block)
      && FoundLast(m, pt, MoveCode(pt.head, f, k, o), CondBr(f + 3, lay.err, lay.points[e].block))
      && lay.points[e] == Point(lay.points[e].block, 0, f, f + 4)
    else
      CodeDone(m, lay, pt, MoveCode(pt.head, f, k, o), e, Point(pt.block, pt.idx + 1, f, f + 1))
  }

  /** The code at pt does what the command at q asks for, and control then stands at the
      code of the text position behind that command. */
  ghost predicate CommandDone(m: Module, s: string, o: Options, lay: Layout, pt: Point, q: nat)
    requires q <= |s|
  {
    if q == |s| then FoundLast(m, pt, [], Br(lay.end))
    else if IsMove(s[q]) then
      var e := RunEnd(s, q, true);
      MoveDone(m, o, lay, pt, RunSum(s, q, e, true), e)
    else if IsChange(s[q]) then
      var e := RunEnd(s, q, false);
      CodeDone(m, lay, pt, ChangeCode(pt.head, pt.next, RunSum(s, q, e, false)), e, Past(pt, 3, 2))
    else if s[q] == ',' then CodeDone(m, lay, pt, ReadCode(pt.head, pt.next), q + 1, Past(pt, 3, 2))
    else if s[q] == '.' then CodeDone(m, lay, pt, WriteCode(pt.head, pt.next), q + 1, Past(pt, 3, 2))
    else if s[q] == '[' then q in lay.loops && EntersLoop(m, pt, lay.loops[q])
    else OpenOf(s, q, 0) in lay.loops && EntersLoop(m, pt, lay.loops[OpenOf(s, q, 0)])
  }

  ghost predicate PlainDone(m: Module, s: string, o: Options, lay: Layout, p: nat)
    requires p in lay.points
  {
    && p <= |s| && HeadReg(o) <= lay.points[p].head < lay.points[p].next
    && CommandDone(m, s, o, lay, lay.points[p], NextCmd(s, p))
  }

  /** The test block of the loop that opens at i. */
  ghost predicate LoopDone(m: Module, s: string, o: Options, lay: Layout, i: nat)
    requires i in lay.loops
  {
    && i < |s| && s[i] == '['
    && var lp := lay.loops[i];
    && var j := CloseOf(s, i + 1, 0);
    && HeadReg(o) < lp.phi
    && lp.test < |m| && |m[lp.test].body| == 2
    && var x, y := m[lp.test].body[0], m[lp.test].body[1];
    && x.Load? && x.p == lp.phi && y.CmpZero? && y.a == x.r
    && HeadReg(o) < x.r && HeadReg(o) < y.r && lp.phi != x.r && lp.phi != y.r
    && j + 1 in lay.points && i + 1 in lay.points
    && var out := lay.points[j + 1];
    && HeadReg(o) < out.head
    && m[lp.test].term == CondBr(y.r, out.block, lp.body)
    && out.idx == 0 && out.block < |m|
    && m[out.block].phi.Some? && m[out.block].phi.value.r == out.head
    && Incoming(m[out.block].phi.value.incoming, lp.test) == Some(lp.phi)
    && NoPhi(m, lp.body)
    && lay.points[i + 1].block == lp.body && lay.points[i + 1].idx == 0 && lay.points[i + 1].head == lp.phi
  }

  ghost predicate FooterDone(m: Module, o: Options, lay: Layout) {
    && lay.end < |m| && m[lay.end] == Block(None, [Free(ARR)], Ret)
    && (o.checked ==> lay.err < |m| && m[lay.err] == Block(None, [PutsError], Br(lay.end)))
  }

  ghost predicate HeaderDone(m: Module, o: Options, lay: Layout) {
    && Found(m, Point(0, 0, 0, 0), HeaderCode(o))
    && 0 in lay.points && lay.points[0] == Point(0, |HeaderCode(o)|, HeadReg(o), HeadReg(o) + 1)
  }

  ghost predicate Translates(m: Module, s: string, o: Options, lay: Layout) {
    && HeaderDone(m, o, lay) && FooterDone(m, o, lay)
    && (forall p {:trigger PlainDone(m, s, o, lay, p)} :: p in lay.points ==> PlainDone(m, s, o, lay, p))
    && (forall i {:trigger LoopDone(m, s, o, lay, i)} :: i in lay.loops ==> LoopDone(m, s, o, lay, i))
  }

  // ----- What the pieces of code do ---------------------------------------------

  /** Text and code agree on all that a program can see. */
  ghost predicate SameView(o: Options, c: Config, t: Machine) {
    && c.status == Running && t.status == Running && !t.freed && |c.tape| == o.mem
    && c.tape == t.tape && c.inpos == t.inpos && c.out == t.out
  }

  ghost predicate HoldsHead(o: Options, w: World, env: map<Reg, int>, r: Reg, head: int) {
    && r in env && env[r] == w.base + head
    && ARR in env && env[ARR] == w.base
    && (o.checked ==> ARRMAX in env && env[ARRMAX] == w.base + o.mem)
  }

  ghost predicate StandsAt(o: Options, w: World, pt: Point, c: Config, t: Machine) {
    && SameView(o, c, t)
    && t.block == pt.block && t.idx == pt.idx && HoldsHead(o, w, t.env, pt.head, c.head)
  }

  /** Both are over, in the same way, after the same output and with the head at the same place. */
  ghost predicate BothOver(o: Options, w: World, c: Config, t: Machine) {
    && c.status == t.status && c.status != Running
    && c.tape == t.tape && c.inpos == t.inpos && c.out == t.out
    && KnowsHead(o, w, t.env, c.head)
    && (t.status == Halted ==> t.freed)
  }

  /** Some register, the current head of the code, holds the head. */
  ghost predicate KnowsHead(o: Options, w: World, env: map<Reg, int>, head: int) {
    exists r :: HeadReg(o) <= r && r in env && env[r] == w.base + head
  }

  ghost predicate HeadBelowNext(o: Options, pt: Point) {
    HeadReg(o) <= pt.head < pt.next
  }

  /** Straight-line code, run to its end or to a fault. */
  function ExecAll(code: seq<Instr>, w: World, t: Machine): Machine {
    if code == [] || t.status != Running then t else ExecAll(code[1..], w, Exec(code[0], w, t))
  }

  /** Found code runs as straight-line code. */
  lemma {:induction false} RunsFound(m: Module, w: World, t: Machine, pt: Point, code: seq<Instr>)
    requires Found(m, pt, code) && t.status == Running && t.block == pt.block && t.idx == pt.idx
    ensures Go(m, w, t, |code|) == ExecAll(code, w, t)
    decreases |code|
  {
    if code != [] {
      assert m[pt.block].body[pt.idx + 0] == code[0];
      var d := Exec(code[0], w, t);
      assert Tick(m, w, t) == d;
      if d.status == Running {
        var rest := pt.(idx := pt.idx + 1);
        assert Found(m, rest, code[1..]) by {
          forall k | 0 <= k < |code[1..]| ensures m[rest.block].body[rest.idx + k] == code[1..][k] {
            assert m[pt.block].body[pt.idx + (k + 1)] == code[k + 1];
          }
        }
        RunsFound(m, w, d, rest, code[1..]);
      } else {
        GoStays(m, w, d, |code| - 1);
      }
    }
  }

  lemma ExecOne(a: Instr, w: World, t: Machine)
    requires t.status == Running
    ensures ExecAll([a], w, t) == Exec(a, w, t)
  {
    assert [a][1..] == [];
    assert ExecAll([a], w, t) == ExecAll([], w, Exec(a, w, t));
  }

  lemma ExecTwo(a: Instr, b: Instr, w: World, t: Machine)
    ensures var t1 := if t.status == Running then Exec(a, w, t) else t;
            ExecAll([a, b], w, t) == if t1.status == Running then Exec(b, w, t1) else t1
  {
    assert [a, b][1..] == [b];
    if t.status == Running {
      assert ExecAll([a, b], w, t) == ExecAll([b], w, Exec(a, w, t));
      if Exec(a, w, t).status == Running {
        ExecOne(b, w, Exec(a, w, t));
      }
    }
  }

  lemma ExecThree(a: Instr, b: Instr, c: Instr, w: World, t: Machine)
    requires t.status == Running
    ensures var t1 := Exec(a, w, t);
            var t2 := if t1.status == Running then Exec(b, w, t1) else t1;
            ExecAll([a, b, c], w, t) == if t2.status == Running then Exec(c, w, t2) else t2
  {
    assert [a, b, c][1..] == [b, c];
    ExecTwo(b, c, w, Exec(a, w, t));
  }

  lemma HeadKnown(o: Options, w: World, pt: Point, c: Config, t: Machine, env: map<Reg, int>)
    requires StandsAt(o, w, pt, c, t) && HeadReg(o) <= pt.head && pt.head in env && env[pt.head] == t.env[pt.head]
    ensures KnowsHead(o, w, env, c.head)
  {
  }

  function Read(c: Config, stdin: seq<Byte>, pc: nat): Config {
    var ended := c.inpos >= |stdin|;
    var d := c.(pc := pc, inpos := if ended then c.inpos else c.inpos + 1);
    if OnTape(c) then d.(tape := c.tape[c.head := if ended then 255 else stdin[c.inpos]]) else d.(status := Faulted)
  }

  lemma ReadRuns(o: Options, w: World, pt: Point, c: Config, t: Machine, pc: nat)
    requires StandsAt(o, w, pt, c, t) && HeadBelowNext(o, pt)
    ensures var c', t' := Read(c, w.stdin, pc), ExecAll(ReadCode(pt.head, pt.next), w, t);
            if OnTape(c) then StandsAt(o, w, Past(pt, 3, 2), c', t') else BothOver(o, w, c', t')
  {
    var f, v := pt.next, if c.inpos >= |w.stdin| then -1 else w.stdin[c.inpos] as int;
    ReadExecuted(o, w, pt, c, t, v);
    hide Exec, ExecAll;
    if !OnTape(c) {
      HeadKnown(o, w, pt, c, t, t.env[f := v][f + 1 := v % 256]);
    }
  }

  lemma ReadExecuted(o: Options, w: World, pt: Point, c: Config, t: Machine, v: int)
    requires StandsAt(o, w, pt, c, t) && HeadBelowNext(o, pt)
    requires v == if c.inpos >= |w.stdin| then -1 else w.stdin[c.inpos] as int
    ensures var f, next := pt.next, if c.inpos >= |w.stdin| then c.inpos else c.inpos + 1;
            var t2 := t.(idx := t.idx + 2, env := t.env[f := v][f + 1 := v % 256], inpos := next);
            ExecAll(ReadCode(pt.head, f), w, t)
            == if OnTape(c) then t2.(idx := t.idx + 3, tape := c.tape[c.head := v % 256]) else Fault(t2)
  {
    var h, f := pt.head, pt.next;
    ExecThree(GetCharI32(f), Trunc(f + 1, f), Store(f + 1, h), w, t);
    hide ExecAll;
  }

  function Write(c: Config, pc: nat): Config {
    if OnTape(c) then c.(pc := pc, out := c.out + [PutChar(SignExtend(c.tape[c.head]))])
    else c.(pc := pc, status := Faulted)
  }

  lemma WriteRuns(o: Options, w: World, pt: Point, c: Config, t: Machine, pc: nat)
    requires StandsAt(o, w, pt, c, t) && HeadBelowNext(o, pt)
    ensures var c', t' := Write(c, pc), ExecAll(WriteCode(pt.head, pt.next), w, t);
            if OnTape(c) then StandsAt(o, w, Past(pt, 3, 2), c', t') else BothOver(o, w, c', t')
  {
    WriteExecuted(o, w, pt, c, t);
    hide Exec, ExecAll;
    if !OnTape(c) {
      HeadKnown(o, w, pt, c, t, t.env);
    }
  }

  lemma WriteExecuted(o: Options, w: World, pt: Point, c: Config, t: Machine)
    requires StandsAt(o, w, pt, c, t) && HeadBelowNext(o, pt)
    ensures ExecAll(WriteCode(pt.head, pt.next), w, t)
         == if !OnTape(c) then Fault(t)
            else
              var f, v := pt.next, c.tape[c.head];
              t.(idx := t.idx + 3, env := t.env[f := v as int][f + 1 := SignExtend(v)], out := c.out + [PutChar(SignExtend(v))])
  {
    var h, f := pt.head, pt.next;
    ExecThree(Load(f, h), SExt(f + 1, f), PutCharI32(f + 1), w, t);
    hide ExecAll;
  }

  function Change(c: Config, k: int, pc: nat): Config {
    if OnTape(c) then c.(pc := pc, tape := c.tape[c.head := (c.tape[c.head] + k) % 256])
    else c.(pc := pc, status := Faulted)
  }

  lemma ChangeRuns(o: Options, w: World, pt: Point, c: Config, t: Machine, k: int, pc: nat)
    requires StandsAt(o, w, pt, c, t) && HeadBelowNext(o, pt)
    ensures var c', t' := Change(c, k, pc), ExecAll(ChangeCode(pt.head, pt.next, k), w, t);
            if OnTape(c) then StandsAt(o, w, Past(pt, 3, 2), c', t') else BothOver(o, w, c', t')
  {
    ChangeExecuted(o, w, pt, c, t, k);
    hide Exec, ExecAll;
    if !OnTape(c) {
      HeadKnown(o, w, pt, c, t, t.env);
    }
  }

  lemma ChangeExecuted(o: Options, w: World, pt: Point, c: Config, t: Machine, k: int)
    requires StandsAt(o, w, pt, c, t) && HeadBelowNext(o, pt)
    ensures ExecAll(ChangeCode(pt.head, pt.next, k), w, t)
         == if !OnTape(c) then Fault(t)
            else
              var f, v := pt.next, (c.tape[c.head] + k) % 256;
              t.(idx := t.idx + 3, env := t.env[f := c.tape[c.head] as int][f + 1 := v], tape := c.tape[c.head := v])
  {
    var h, f := pt.head, pt.next;
    if OnTape(c) {
      var t1 := t.(idx := t.idx + 1, env := t.env[f := c.tape[c.head] as int]);
      var t2 := t1.(idx := t1.idx + 1, env := t1.env[f + 1 := (c.tape[c.head] + k) % 256]);
      assert Exec(Load(f, h), w, t) == t1;
      assert Exec(AddI8(f + 1, f, k), w, t1) == t2;
      ExecOn(Load(f, h), AddI8(f + 1, f, k), Store(f + 1, h), w, t, t1, t2);
    } else {
      ExecThree(Load(f, h), AddI8(f + 1, f, k), Store(f + 1, h), w, t);
    }
    hide ExecAll;
  }

  lemma GepRuns(o: Options, w: World, pt: Point, c: Config, t: Machine, k: int, pc: nat)
    requires StandsAt(o, w, pt, c, t) && HeadBelowNext(o, pt)
    ensures StandsAt(o, w, Point(pt.block, pt.idx + 1, pt.next, pt.next + 1), c.(pc := pc, head := c.head + k),
                     ExecAll([Gep(pt.next, pt.head, k)], w, t))
  {
    ExecOne(Gep(pt.next, pt.head, k), w, t);
  }

  /** The comparisons behind a checked move leave 1 in register f+3 exactly when the head is off the tape. */
  lemma CheckRuns(o: Options, w: World, pt: Point, c: Config, t: Machine)
    requires o.checked && StandsAt(o, w, pt, c, t) && pt.next == pt.head + 1 && HeadReg(o) <= pt.head
    ensures var t' := ExecAll(CheckCode(pt.head), w, t);
            && StandsAt(o, w, Past(pt, 3, 3), c, t')
            && pt.head + 3 in t'.env && t'.env[pt.head + 3] == Flag(!OnTape(c))
  {
    CheckExecuted(o, w, pt, c, t);
    hide Exec, ExecAll, Flag;
  }

  lemma CheckExecuted(o: Options, w: World, pt: Point, c: Config, t: Machine)
    requires o.checked && StandsAt(o, w, pt, c, t) && HeadReg(o) <= pt.head
    ensures var f := pt.head;
            ExecAll(CheckCode(f), w, t)
            == t.(idx := t.idx + 3,
                  env := t.env[f + 1 := Flag(c.head >= o.mem)][f + 2 := Flag(c.head < 0)][f + 3 := Flag(!OnTape(c))])
  {
    var f := pt.head;
    hide ExecAll, Exec;
    var t1 := t.(idx := t.idx + 1, env := t.env[f + 1 := Flag(c.head >= o.mem)]);
    var t2 := t1.(idx := t1.idx + 1, env := t1.env[f + 2 := Flag(c.head < 0)]);
    Compares(w, t, f + 1, f, ARRMAX);
    Compares(w, t1, f + 2, f, ARR);
    Compares(w, t2, f + 3, f + 1, f + 2);
    ExecOn(CmpUGE(f + 1, f, ARRMAX), CmpULT(f + 2, f, ARR), OrI1(f + 3, f + 1, f + 2), w, t, t1, t2);
  }

  lemma ExecOn(a: Instr, b: Instr, c: Instr, w: World, t: Machine, t1: Machine, t2: Machine)
    requires t.status == Running && Exec(a, w, t) == t1 && t1.status == Running && Exec(b, w, t1) == t2 && t2.status == Running
    ensures ExecAll([a, b, c], w, t) == Exec(c, w, t2)
  {
    ExecThree(a, b, c, w, t);
  }

  lemma Compares(w: World, t: Machine, r: Reg, a: Reg, b: Reg)
    requires a in t.env && b in t.env
    ensures Exec(CmpUGE(r, a, b), w, t) == t.(idx := t.idx + 1, env := t.env[r := Flag(t.env[a] >= t.env[b])])
    ensures Exec(CmpULT(r, a, b), w, t) == t.(idx := t.idx + 1, env := t.env[r := Flag(t.env[a] < t.env[b])])
    ensures Exec(OrI1(r, a, b), w, t) == t.(idx := t.idx + 1, env := t.env[r := Flag(t.env[a] != 0 || t.env[b] != 0)])
  {
  }

  lemma GoSplits(m: Module, w: World, t: Machine, a: nat, t': Machine, b: nat)
    requires t' == Go(m, w, t, a)
    ensures Go(m, w, t, a + b) == Go(m, w, t', b)
  {
    GoAdds(m, w, t, a, b);
  }

  lemma GoOne(m: Module, w: World, t: Machine)
    ensures Go(m, w, t, 1) == Tick(m, w, t)
  {
    assert Go(m, w, t, 1) == Go(m, w, Tick(m, w, t), 0);
  }

  lemma GoTwo(m: Module, w: World, t: Machine)
    ensures Go(m, w, t, 2) == Tick(m, w, Tick(m, w, t))
  {
    GoOne(m, w, Tick(m, w, t));
  }

  /** From the start of the last block the tape is freed and the function returns. */
  lemma EndRuns(m: Module, o: Options, w: World, lay: Layout, c: Config, t: Machine)
    requires FooterDone(m, o, lay)
    requires SameView(o, c, t) && HoldsArr(w, t.env) && KnowsHead(o, w, t.env, c.head) && t.block == lay.end && t.idx == 0
    ensures BothOver(o, w, c.(status := Halted), Go(m, w, t, 2))
  {
    GoTwo(m, w, t);
    assert Tick(m, w, t) == Exec(Free(ARR), w, t);
  }

  ghost predicate HoldsArr(w: World, env: map<Reg, int>) {
    ARR in env && env[ARR] == w.base
  }

  /** From the start of the error block the message is shown, then the program ends. */
  lemma ErrorRuns(m: Module, o: Options, w: World, lay: Layout, c: Config, t: Machine)
    requires o.checked && FooterDone(m, o, lay)
    requires SameView(o, c, t) && HoldsArr(w, t.env) && KnowsHead(o, w, t.env, c.head) && t.block == lay.err && t.idx == 0
    ensures BothOver(o, w, c.(out := c.out + [HeadLeftTape], status := Halted), Go(m, w, t, 4))
  {
    var c' := c.(out := c.out + [HeadLeftTape]);
    GoTwo(m, w, t);
    var t' := Go(m, w, t, 2);
    assert Tick(m, w, t) == Exec(PutsError, w, t);
    assert SameView(o, c', t') && t'.block == lay.end && t'.idx == 0;
    EndRuns(m, o, w, lay, c', t');
    GoSplits(m, w, t, 2, t', 2);
  }

  lemma CheckedCodeRuns(m: Module, o: Options, w: World, pt: Point, c: Config, t: Machine, k: int, e: nat)
    requires o.checked && Found(m, pt, MoveCode(pt.head, pt.next, k, o))
    requires StandsAt(o, w, pt, c, t) && HeadBelowNext(o, pt)
    ensures var t' := Go(m, w, t, 4);
            var c' := c.(pc := e, head := c.head + k);
            && StandsAt(o, w, Point(pt.block, pt.idx + 4, pt.next, pt.next + 4), c', t')
            && pt.next + 3 in t'.env && t'.env[pt.next + 3] == Flag(!OnTape(c'))
  {
    hide Go, Found;
    var f := pt.next;
    var code := MoveCode(pt.head, f, k, o);
    RunsFound(m, w, t, pt, code);
    GepRuns(o, w, pt, c, t, k, e);
    assert code[0] == Gep(f, pt.head, k) && code[1..] == CheckCode(f);
    ExecOne(code[0], w, t);
    CheckRuns(o, w, Point(pt.block, pt.idx + 1, f, f + 1), c.(pc := e, head := c.head + k), Exec(code[0], w, t));
  }

  lemma CheckedJump(m: Module, o: Options, w: World, lay: Layout, pt: Point, k: int, e: nat, c: Config, t: Machine)
    requires o.checked && FooterDone(m, o, lay) && MoveDone(m, o, lay, pt, k, e)
    requires StandsAt(o, w, Point(pt.block, pt.idx + 4, pt.next, pt.next + 4), c, t)
    requires pt.next + 3 in t.env && t.env[pt.next + 3] == Flag(!OnTape(c))
    ensures var t' := Tick(m, w, t);
            if OnTape(c) then StandsAt(o, w, lay.points[e], c, t')
            else t' == t.(block := lay.err, idx := 0)
  {
    var to := if OnTape(c) then lay.points[e].block else lay.err;
    assert Tick(m, w, t) == Exit(m, t, m[pt.block].term);
    assert Exit(m, t, m[pt.block].term) == Jump(m, t, to);
    assert NoPhi(m, to);
    assert Jump(m, t, to) == t.(block := to, idx := 0);
  }

  /** The whole code of a checked move: either on in the next block, or over with the error. */
  lemma CheckedMoveRuns(m: Module, o: Options, w: World, lay: Layout, pt: Point, c: Config, t: Machine,
                        k: int, e: nat) returns (n: nat)
    requires o.checked && FooterDone(m, o, lay) && MoveDone(m, o, lay, pt, k, e)
    requires StandsAt(o, w, pt, c, t) && HeadBelowNext(o, pt)
    ensures n >= 1
    ensures var c' := c.(pc := e, head := c.head + k);
            if OnTape(c') then StandsAt(o, w, lay.points[e], c', Go(m, w, t, n))
            else BothOver(o, w, c'.(out := c.out + [HeadLeftTape], status := Halted), Go(m, w, t, n))
  {
    var c' := c.(pc := e, head := c.head + k);
    CheckedCodeRuns(m, o, w, pt, c, t, k, e);
    var t2 := Go(m, w, t, 4);
    var t3 := Tick(m, w, t2);
    GoOne(m, w, t2);
    GoSplits(m, w, t, 4, t2, 1);
    CheckedJump(m, o, w, lay, pt, k, e, c', t2);
    n := 5;
    if !OnTape(c') {
      ErrorRuns(m, o, w, lay, c', t3);
      GoSplits(m, w, t, 5, t3, 4);
      n := 9;
    }
  }

  /** From the end of the block at pt, control enters the loop: its phi takes the head over. */
  lemma EnterRuns(m: Module, o: Options, w: World, pt: Point, c: Config, t: Machine, lp: Loop)
    requires EntersLoop(m, pt, lp) && HeadReg(o) < lp.phi
    requires StandsAt(o, w, pt, c, t)
    ensures StandsAt(o, w, Point(lp.test, 0, lp.phi, 0), c, Tick(m, w, t))
  {
  }

  /** The loop test: with a zero cell control leaves through the exit phi, otherwise it enters the body. */
  lemma TestRuns(m: Module, s: string, o: Options, w: World, lay: Layout, c: Config, t: Machine, i: nat) returns (n: nat)
    requires i in lay.loops && LoopDone(m, s, o, lay, i)
    requires StandsAt(o, w, Point(lay.loops[i].test, 0, lay.loops[i].phi, 0), c, t)
    ensures n >= 1
    ensures var t' := Go(m, w, t, n);
            if !OnTape(c) then BothOver(o, w, c.(status := Faulted), t')
            else if c.tape[c.head] == 0 then StandsAt(o, w, lay.points[CloseOf(s, i + 1, 0) + 1], c, t')
            else StandsAt(o, w, lay.points[i + 1], c, t')
  {
    var lp := lay.loops[i];
    var x, y := m[lp.test].body[0], m[lp.test].body[1];
    GoOne(m, w, t);
    n := 1;
    assert Tick(m, w, t) == Exec(x, w, t);
    if OnTape(c) {
      GoTwo(m, w, t);
      var t2 := Go(m, w, t, 2);
      GoOne(m, w, t2);
      GoSplits(m, w, t, 2, t2, 1);
      n := 3;
      TestedJump(m, o, w, lay, c, t, t2, i, s);
    }
  }

  lemma TestedJump(m: Module, o: Options, w: World, lay: Layout, c: Config, t: Machine, t2: Machine, i: nat, s: string)
    requires i in lay.loops && LoopDone(m, s, o, lay, i) && OnTape(c)
    requires StandsAt(o, w, Point(lay.loops[i].test, 0, lay.loops[i].phi, 0), c, t)
    requires t2 == Tick(m, w, Tick(m, w, t))
    ensures if c.tape[c.head] == 0 then StandsAt(o, w, lay.points[CloseOf(s, i + 1, 0) + 1], c, Tick(m, w, t2))
            else StandsAt(o, w, lay.points[i + 1], c, Tick(m, w, t2))
  {
    var lp := lay.loops[i];
    var x, y := m[lp.test].body[0], m[lp.test].body[1];
    var t1 := Tick(m, w, t);
    assert t1 == Exec(x, w, t);
    assert t2 == Exec(y, w, t1);
    assert StandsAt(o, w, Point(lp.test, 2, lp.phi, 0), c, t2);
    assert y.r in t2.env && t2.env[y.r] == Flag(c.tape[c.head] == 0);
  }

  // ----- Text and code in step -----------------------------------------------------

  ghost predicate InStep(o: Options, w: World, lay: Layout, c: Config, t: Machine) {
    c.pc in lay.points && StandsAt(o, w, lay.points[c.pc], c, t)
  }

  ghost predicate AtLoopTest(o: Options, w: World, lay: Layout, c: Config, t: Machine) {
    c.pc in lay.loops && StandsAt(o, w, Point(lay.loops[c.pc].test, 0, lay.loops[c.pc].phi, 0), c, t)
  }

  ghost predicate Related(o: Options, w: World, lay: Layout, c: Config, t: Machine) {
    InStep(o, w, lay, c, t) || AtLoopTest(o, w, lay, c, t) || BothOver(o, w, c, t)
  }

  /** Both sides make at least one step, to a pair that is related again. */
  ghost predicate Advances(m: Module, s: string, o: Options, w: World, lay: Layout, c: Config, t: Machine, a: nat, b: nat) {
    a >= 1 && b >= 1 && Related(o, w, lay, Run(s, o, w.stdin, c, a), Go(m, w, t, b))
  }

  lemma StepOnce(s: string, o: Options, w: World, c: Config)
    ensures Run(s, o, w.stdin, c, 1) == Step(s, o, w.stdin, c)
  {
    assert Run(s, o, w.stdin, c, 1) == Run(s, o, w.stdin, Step(s, o, w.stdin, c), 0);
  }

  lemma FromLoopTest(m: Module, s: string, o: Options, w: World, lay: Layout, c: Config, t: Machine) returns (a: nat, b: nat)
    requires Translates(m, s, o, lay) && AtLoopTest(o, w, lay, c, t)
    ensures Advances(m, s, o, w, lay, c, t, a, b)
  {
    assert LoopDone(m, s, o, lay, c.pc);
    b := TestRuns(m, s, o, w, lay, c, t, c.pc);
    a := 1;
    StepOnce(s, o, w, c);
  }

  /** From a position whose code is known, skip the comments: the command is next. */
  lemma AtCommand(s: string, o: Options, w: World, c: Config, d: Config, a: nat) returns (k: nat)
    requires c.status == Running && c.pc <= |s| && d == c.(pc := NextCmd(s, c.pc))
    ensures Run(s, o, w.stdin, c, k + a) == Run(s, o, w.stdin, d, a)
  {
    k := d.pc - c.pc;
    RunComments(s, o, w.stdin, c, d.pc);
    RunResumes(s, o, w.stdin, c, k, d, a);
  }

  lemma SimEnd(m: Module, s: string, o: Options, w: World, lay: Layout, c: Config, t: Machine)
    requires c.pc == |s| && FooterDone(m, o, lay)
    requires exists pt :: FoundLast(m, pt, [], Br(lay.end)) && StandsAt(o, w, pt, c, t) && HeadReg(o) <= pt.head
    ensures BothOver(o, w, Step(s, o, w.stdin, c), Go(m, w, t, 3))
  {
    GoOne(m, w, t);
    EndRuns(m, o, w, lay, c, Tick(m, w, t));
    GoSplits(m, w, t, 1, Tick(m, w, t), 2);
  }

  lemma SimMove(m: Module, s: string, o: Options, w: World, lay: Layout, pt: Point, c: Config, t: Machine) returns (a: nat, b: nat)
    requires c.pc < |s| && IsMove(s[c.pc]) && FooterDone(m, o, lay) && HeadBelowNext(o, pt)
    requires var e := RunEnd(s, c.pc, true); MoveDone(m, o, lay, pt, RunSum(s, c.pc, e, true), e)
    requires StandsAt(o, w, pt, c, t)
    ensures Advances(m, s, o, w, lay, c, t, a, b)
  {
    var e := RunEnd(s, c.pc, true);
    var k := RunSum(s, c.pc, e, true);
    a := RunMoves(s, o, w.stdin, c, e);
    if o.checked {
      b := CheckedMoveRuns(m, o, w, lay, pt, c, t, k, e);
    } else {
      b := 1;
      RunsFound(m, w, t, pt, MoveCode(pt.head, pt.next, k, o));
      assert MoveCode(pt.head, pt.next, k, o) == [Gep(pt.next, pt.head, k)];
      GepRuns(o, w, pt, c, t, k, e);
    }
  }

  lemma SimChange(m: Module, s: string, o: Options, w: World, lay: Layout, pt: Point, c: Config, t: Machine) returns (a: nat)
    requires c.pc < |s| && IsChange(s[c.pc]) && HeadBelowNext(o, pt)
    requires var e := RunEnd(s, c.pc, false);
             CodeDone(m, lay, pt, ChangeCode(pt.head, pt.next, RunSum(s, c.pc, e, false)), e, Past(pt, 3, 2))
    requires StandsAt(o, w, pt, c, t)
    ensures Advances(m, s, o, w, lay, c, t, a, 3)
  {
    hide ExecAll, Go, Found, RunSum, NextCmd;
    var e := RunEnd(s, c.pc, false);
    var k := RunSum(s, c.pc, e, false);
    RunsFound(m, w, t, pt, ChangeCode(pt.head, pt.next, k));
    if OnTape(c) {
      a := e - c.pc;
      RunChanges(s, o, w.stdin, c, e);
      ChangeRuns(o, w, pt, c, t, k, e);
    } else {
      a := 1;
      StepOnce(s, o, w, c);
      ChangeRuns(o, w, pt, c, t, k, c.pc);
    }
  }

  lemma SimRead(m: Module, s: string, o: Options, w: World, lay: Layout, pt: Point, c: Config, t: Machine)
    requires c.pc < |s| && s[c.pc] == ',' && HeadBelowNext(o, pt)
    requires CodeDone(m, lay, pt, ReadCode(pt.head, pt.next), c.pc + 1, Past(pt, 3, 2))
    requires StandsAt(o, w, pt, c, t)
    ensures Advances(m, s, o, w, lay, c, t, 1, 3)
  {
    hide ExecAll, Go, Run, Found, NextCmd, RunEnd, CloseOf, OpenOf, MovesEnd;
    StepOnce(s, o, w, c);
    RunsFound(m, w, t, pt, ReadCode(pt.head, pt.next));
    ReadRuns(o, w, pt, c, t, c.pc + 1);
    assert Step(s, o, w.stdin, c) == Read(c, w.stdin, c.pc + 1);
  }

  lemma SimWrite(m: Module, s: string, o: Options, w: World, lay: Layout, pt: Point, c: Config, t: Machine)
    requires c.pc < |s| && s[c.pc] == '.' && HeadBelowNext(o, pt)
    requires CodeDone(m, lay, pt, WriteCode(pt.head, pt.next), c.pc + 1, Past(pt, 3, 2))
    requires StandsAt(o, w, pt, c, t)
    ensures Advances(m, s, o, w, lay, c, t, 1, 3)
  {
    hide ExecAll, Go, Run, Found, NextCmd, RunEnd, CloseOf, OpenOf, MovesEnd;
    StepOnce(s, o, w, c);
    RunsFound(m, w, t, pt, WriteCode(pt.head, pt.next));
    WriteRuns(o, w, pt, c, t, if OnTape(c) then c.pc + 1 else c.pc);
    assert Step(s, o, w.stdin, c) == Write(c, if OnTape(c) then c.pc + 1 else c.pc);
  }

  /** A related pair stays related: both sides move on, whatever the next command is. */
  lemma Advance(m: Module, s: string, o: Options, w: World, lay: Layout, c: Config, t: Machine) returns (a: nat, b: nat)
    requires Translates(m, s, o, lay) && InStep(o, w, lay, c, t)
    ensures Advances(m, s, o, w, lay, c, t, a, b)
  {
    hide Run, Go, Found, FoundLast, EntersLoop, HoldsHead, ReadCode, WriteCode, ChangeCode, RunSum, Step;
    assert PlainDone(m, s, o, lay, c.pc);
    var pt := lay.points[c.pc];
    var q := NextCmd(s, c.pc);
    var d := c.(pc := q);
    if q == |s| {
      SimEnd(m, s, o, w, lay, d, t);
      StepOnce(s, o, w, d);
      a, b := 1, 3;
    } else if IsMove(s[q]) {
      a, b := SimMove(m, s, o, w, lay, pt, d, t);
    } else if IsChange(s[q]) {
      a := SimChange(m, s, o, w, lay, pt, d, t);
      b := 3;
    } else if s[q] == ',' {
      SimRead(m, s, o, w, lay, pt, d, t);
      a, b := 1, 3;
    } else if s[q] == '.' {
      SimWrite(m, s, o, w, lay, pt, d, t);
      a, b := 1, 3;
    } else {
      a, b := SimBracket(m, s, o, w, lay, pt, d, t);
    }
    var k := AtCommand(s, o, w, c, d, a);
    a := k + a;
  }

  lemma SimBracket(m: Module, s: string, o: Options, w: World, lay: Layout, pt: Point, c: Config, t: Machine) returns (a: nat, b: nat)
    requires Translates(m, s, o, lay) && StandsAt(o, w, pt, c, t)
    requires c.pc < |s| && (s[c.pc] == '[' || s[c.pc] == ']')
    requires var i := if s[c.pc] == '[' then c.pc else OpenOf(s, c.pc, 0); i in lay.loops && EntersLoop(m, pt, lay.loops[i])
    ensures Advances(m, s, o, w, lay, c, t, a, b)
  {
    var i := if s[c.pc] == '[' then c.pc else OpenOf(s, c.pc, 0);
    assert LoopDone(m, s, o, lay, i);
    EnterRuns(m, o, w, pt, c, t, lay.loops[i]);
    GoOne(m, w, t);
    var t' := Tick(m, w, t);
    if s[c.pc] == '[' {
      a, b := FromLoopTest(m, s, o, w, lay, c, t');
      GoSplits(m, w, t, 1, t', b);
      b := b + 1;
    } else {
      StepOnce(s, o, w, c);
      a, b := 1, 1;
    }
  }

  // ----- Whole runs -------------------------------------------------------------

  /** The text after n characters, and the code after k instructions. */
  function TextAfter(s: string, o: Options, w: World, n: nat): Config {
    Run(s, o, w.stdin, Start(o), n)
  }

  function CodeAfter(m: Module, w: World, k: nat): Machine {
    Go(m, w, Boot(), k)
  }

  /** The world gives malloc's memory of the size the program asks for. */
  predicate Fits(o: Options, w: World) {
    |w.junk| == o.mem
  }

  lemma HeaderRuns(m: Module, s: string, o: Options, w: World, lay: Layout)
    requires HeaderDone(m, o, lay) && Fits(o, w)
    ensures InStep(o, w, lay, Start(o), CodeAfter(m, w, |HeaderCode(o)|))
  {
    var code := HeaderCode(o);
    var t := Boot();
    RunsFound(m, w, t, Point(0, 0, 0, 0), code);
    var t1 := Exec(Malloc(ARR, o.mem), w, t);
    var t2 := Exec(Memset(ARR, 0, o.mem), w, t1);
    assert t2.tape == Zeros(o.mem);
    if o.checked {
      var a, b := Gep(ARRMAX, ARR, o.mem), Gep(HeadReg(o), ARR, o.mem / 2);
      assert code == [Malloc(ARR, o.mem), Memset(ARR, 0, o.mem), a, b];
      assert code[1..] == [Memset(ARR, 0, o.mem), a, b];
      ExecThree(Memset(ARR, 0, o.mem), a, b, w, t1);
    } else {
      assert code == [Malloc(ARR, o.mem), Memset(ARR, 0, o.mem), Gep(HeadReg(o), ARR, o.mem / 2)];
      ExecThree(Malloc(ARR, o.mem), Memset(ARR, 0, o.mem), Gep(HeadReg(o), ARR, o.mem / 2), w, t);
    }
  }

  /** After however many steps of either side there is a later moment at which they are related. */
  lemma {:induction false} Follow(m: Module, s: string, o: Options, w: World, lay: Layout, n: nat) returns (a: nat, b: nat)
    requires Translates(m, s, o, lay) && Fits(o, w)
    ensures a >= n && b >= n && Related(o, w, lay, TextAfter(s, o, w, a), CodeAfter(m, w, b))
  {
    if n == 0 {
      a, b := 0, |HeaderCode(o)|;
      HeaderRuns(m, s, o, w, lay);
    } else {
      a, b := Follow(m, s, o, w, lay, n - 1);
      var c, t := TextAfter(s, o, w, a), CodeAfter(m, w, b);
      var x, y := FollowOnce(m, s, o, w, lay, c, t);
      RunResumes(s, o, w.stdin, Start(o), a, c, x);
      GoSplits(m, w, Boot(), b, t, y);
      a, b := a + x, b + y;
    }
  }

  lemma FollowOnce(m: Module, s: string, o: Options, w: World, lay: Layout, c: Config, t: Machine) returns (a: nat, b: nat)
    requires Translates(m, s, o, lay) && Related(o, w, lay, c, t)
    ensures Advances(m, s, o, w, lay, c, t, a, b)
  {
    if InStep(o, w, lay, c, t) {
      a, b := Advance(m, s, o, w, lay, c, t);
    } else if AtLoopTest(o, w, lay, c, t) {
      a, b := FromLoopTest(m, s, o, w, lay, c, t);
    } else {
      a, b := 1, 1;
      StepOnce(s, o, w, c);
      GoOne(m, w, t);
    }
  }

  /** What the text has come to after n characters, the code comes to as well. */
  ghost predicate TextMatched(m: Module, s: string, o: Options, w: World, n: nat) {
    exists k: nat ::
      && (TextAfter(s, o, w, n).status != Running ==> BothOver(o, w, TextAfter(s, o, w, n), CodeAfter(m, w, k)))
      && TextAfter(s, o, w, n).out <= CodeAfter(m, w, k).out
  }

  /** What the code has come to after k instructions, the text comes to as well. */
  ghost predicate CodeMatched(m: Module, s: string, o: Options, w: World, k: nat) {
    exists n: nat ::
      && (CodeAfter(m, w, k).status != Running ==> BothOver(o, w, TextAfter(s, o, w, n), CodeAfter(m, w, k)))
      && CodeAfter(m, w, k).out <= TextAfter(s, o, w, n).out
  }

  /** The code behaves like the text: one ends exactly when the other does, in the same way, with
      the same tape, input position and output; and while they run, or if they never end, neither
      shows anything the other does not show too. */
  ghost predicate SameBehaviour(m: Module, s: string, o: Options, w: World) {
    && (forall n: nat :: TextMatched(m, s, o, w, n))
    && (forall k: nat :: CodeMatched(m, s, o, w, k))
  }

  lemma TextWaits(s: string, o: Options, w: World, n: nat, a: nat)
    requires n <= a
    ensures TextAfter(s, o, w, n).out <= TextAfter(s, o, w, a).out
    ensures TextAfter(s, o, w, n).status != Running ==> TextAfter(s, o, w, a) == TextAfter(s, o, w, n)
  {
    var c := TextAfter(s, o, w, n);
    RunResumes(s, o, w.stdin, Start(o), n, c, a - n);
    RunOutputGrows(s, o, w.stdin, c, a - n);
    if c.status != Running {
      RunStays(s, o, w.stdin, c, a - n);
    }
  }

  lemma CodeWaits(m: Module, w: World, k: nat, b: nat)
    requires k <= b
    ensures CodeAfter(m, w, k).out <= CodeAfter(m, w, b).out
    ensures CodeAfter(m, w, k).status != Running ==> CodeAfter(m, w, b) == CodeAfter(m, w, k)
  {
    var t := CodeAfter(m, w, k);
    GoSplits(m, w, Boot(), k, t, b - k);
    GoOutputGrows(m, w, t, b - k);
    if t.status != Running {
      GoStays(m, w, t, b - k);
    }
  }

  /** Every translation behaves like its text, for every input and every placement of the tape. */
  lemma TranslationPreservesMeaning(m: Module, s: string, o: Options, w: World, lay: Layout)
    requires Translates(m, s, o, lay) && Fits(o, w)
    ensures SameBehaviour(m, s, o, w)
  {
    forall n: nat ensures TextMatched(m, s, o, w, n) {
      var a, b := Follow(m, s, o, w, lay, n);
      TextWaits(s, o, w, n, a);
      assert TextAfter(s, o, w, n).out <= CodeAfter(m, w, b).out;
    }
    forall k: nat ensures CodeMatched(m, s, o, w, k) {
      var a, b := Follow(m, s, o, w, lay, k);
      CodeWaits(m, w, k, b);
      assert CodeAfter(m, w, k).out <= TextAfter(s, o, w, a).out;
    }
  }

  lemma CodeEndsLikeText(m: Module, s: string, o: Options, w: World, k: nat)
    requires SameBehaviour(m, s, o, w)
    ensures CodeAfter(m, w, k).status != Running ==>
              exists n: nat :: Run(s, o, w.stdin, Start(o), n).status == CodeAfter(m, w, k).status
  {
    assert CodeMatched(m, s, o, w, k);
    var n: nat :| (CodeAfter(m, w, k).status != Running ==> BothOver(o, w, TextAfter(s, o, w, n), CodeAfter(m, w, k)))
      && CodeAfter(m, w, k).out <= TextAfter(s, o, w, n).out;
    assert TextAfter(s, o, w, n) == Run(s, o, w.stdin, Start(o), n);
  }

  /** Code compiled with checking on never touches memory off the tape, whatever it reads. */
  lemma CheckedCodeIsSafe(m: Module, s: string, o: Options, w: World)
    requires SameBehaviour(m, s, o, w) && o.checked && Balanced(s) && (o.mem > 0 || MovesOrEnds(s))
    ensures forall k: nat :: CodeAfter(m, w, k).status != Faulted
  {
    CheckedProgramsStayOnTape(s, o);
    forall k: nat ensures CodeAfter(m, w, k).status != Faulted {
      CodeEndsLikeText(m, s, o, w, k);
    }
  }
}
