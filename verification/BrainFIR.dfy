/** The part of LLVM IR that the BrainF compiler emits: basic blocks in SSA form,
    their step-by-step execution, and what it means for them to be well formed. */
module BrainFIR {
  import opened Wrappers
  import opened BrainFLang

  type Reg = nat
  type Label = nat

  datatype Instr =
    | Malloc(r: Reg, size: nat)
    | Memset(p: Reg, v: Byte, size: nat)
    | Gep(r: Reg, p: Reg, k: int)          // getelementptr i8, i32 k
    | GetCharI32(r: Reg)
    | Trunc(r: Reg, a: Reg)                // i32 to i8
    | Store(a: Reg, p: Reg)
    | Load(r: Reg, p: Reg)
    | SExt(r: Reg, a: Reg)                 // i8 to i32
    | PutCharI32(a: Reg)
    | AddI8(r: Reg, a: Reg, k: int)
    | CmpUGE(r: Reg, a: Reg, b: Reg)
    | CmpULT(r: Reg, a: Reg, b: Reg)
    | OrI1(r: Reg, a: Reg, b: Reg)
    | CmpZero(r: Reg, a: Reg)
    | PutsError
    | Free(p: Reg)

  datatype Phi = Phi(r: Reg, incoming: seq<(Label, Reg)>)
  datatype Term = NoTerm | Br(to: Label) | CondBr(c: Reg, yes: Label, no: Label) | Ret

  /** A BrainF block has at most one phi. A block without terminator has NoTerm. */
  datatype Block = Block(phi: Option<Phi>, body: seq<Instr>, term: Term)

  type Module = seq<Block>

  function Defs(i: Instr): set<Reg> {
    match i
    case Malloc(r, _) => {r}
    case Gep(r, _, _) => {r}
    case GetCharI32(r) => {r}
    case Trunc(r, _) => {r}
    case Load(r, _) => {r}
    case SExt(r, _) => {r}
    case AddI8(r, _, _) => {r}
    case CmpUGE(r, _, _) => {r}
    case CmpULT(r, _, _) => {r}
    case OrI1(r, _, _) => {r}
    case CmpZero(r, _) => {r}
    case _ => {}
  }

  function Uses(i: Instr): set<Reg> {
    match i
    case Memset(p, _, _) => {p}
    case Gep(_, p, _) => {p}
    case Trunc(_, a) => {a}
    case Store(a, p) => {a, p}
    case Load(_, p) => {p}
    case SExt(_, a) => {a}
    case PutCharI32(a) => {a}
    case AddI8(_, a, _) => {a}
    case CmpUGE(_, a, b) => {a, b}
    case CmpULT(_, a, b) => {a, b}
    case OrI1(_, a, b) => {a, b}
    case CmpZero(_, a) => {a}
    case Free(p) => {p}
    case _ => {}
  }

  function TermUses(t: Term): set<Reg> {
    if t.CondBr? then {t.c} else {}
  }

  function Targets(t: Term): set<Label> {
    match t
    case Br(l) => {l}
    case CondBr(_, l, k) => {l, k}
    case _ => {}
  }

  // ----- Execution ------------------------------------------------------------

  /** What the program meets at run time: where malloc puts the tape, what the fresh memory
      holds, and standard input. */
  datatype World = World(base: int, junk: seq<Byte>, stdin: seq<Byte>)

  datatype Machine = Machine(block: Label, idx: nat, env: map<Reg, int>, tape: seq<Byte>, freed: bool,
                             inpos: nat, out: seq<Event>, status: Status)

  function Boot(): Machine {
    Machine(0, 0, map[], [], false, 0, [], Running)
  }

  predicate Accessible(w: World, t: Machine, addr: int) {
    !t.freed && 0 <= addr - w.base < |t.tape|
  }

  function Filled(n: nat, v: Byte): (z: seq<Byte>)
    ensures |z| == n && forall k :: 0 <= k < n ==> z[k] == v
  {
    if n == 0 then [] else Filled(n - 1, v) + [v]
  }

  function Flag(b: bool): int {
    if b then 1 else 0
  }

  function Fault(t: Machine): Machine {
    t.(status := Faulted)
  }

  /** Addresses are integers, i8 values lie in 0..255, i32 and i1 values are integers.
      Touching memory that is not the live tape is undefined, shown as Faulted. */
  function Exec(i: Instr, w: World, t: Machine): Machine {
    if !(Uses(i) <= t.env.Keys) then Fault(t)
    else
      var n := t.(idx := t.idx + 1);
      var e := t.env;
      match i
      case Malloc(r, size) => if size == |w.junk| then n.(env := e[r := w.base], tape := w.junk) else Fault(t)
      case Memset(p, v, size) =>
        if e[p] == w.base && size == |t.tape| && !t.freed then n.(tape := Filled(size, v)) else Fault(t)
      case Gep(r, p, k) => n.(env := e[r := e[p] + k])
      case GetCharI32(r) =>
        if t.inpos < |w.stdin| then n.(env := e[r := w.stdin[t.inpos] as int], inpos := t.inpos + 1)
        else n.(env := e[r := -1])
      case Trunc(r, a) => n.(env := e[r := e[a] % 256])
      case Store(a, p) =>
        if Accessible(w, t, e[p]) then n.(tape := t.tape[e[p] - w.base := e[a] % 256]) else Fault(t)
      case Load(r, p) =>
        if Accessible(w, t, e[p]) then n.(env := e[r := t.tape[e[p] - w.base] as int]) else Fault(t)
      case SExt(r, a) => n.(env := e[r := SignExtend(e[a] % 256)])
      case PutCharI32(a) => n.(out := t.out + [PutChar(e[a])])
      case AddI8(r, a, k) => n.(env := e[r := (e[a] + k) % 256])
      case CmpUGE(r, a, b) => n.(env := e[r := Flag(e[a] >= e[b])])
      case CmpULT(r, a, b) => n.(env := e[r := Flag(e[a] < e[b])])
      case OrI1(r, a, b) => n.(env := e[r := Flag(e[a] != 0 || e[b] != 0)])
      case CmpZero(r, a) => n.(env := e[r := Flag(e[a] == 0)])
      case PutsError => n.(out := t.out + [HeadLeftTape])
      case Free(p) => if e[p] == w.base && !t.freed then n.(freed := true) else Fault(t)
  }

  /** The register a phi takes when control comes from block p. */
  function Incoming(inc: seq<(Label, Reg)>, p: Label): Option<Reg> {
    if inc == [] then None else if inc[0].0 == p then Some(inc[0].1) else Incoming(inc[1..], p)
  }

  function Jump(m: Module, t: Machine, l: Label): Machine {
    if l >= |m| then Fault(t)
    else
      var n := t.(block := l, idx := 0);
      match m[l].phi
      case None => n
      case Some(phi) =>
        var v := Incoming(phi.incoming, t.block);
        if v.Some? && v.value in t.env then n.(env := t.env[phi.r := t.env[v.value]]) else Fault(t)
  }

  function Exit(m: Module, t: Machine, term: Term): Machine {
    match term
    case NoTerm => Fault(t)
    case Br(l) => Jump(m, t, l)
    case CondBr(c, yes, no) => if c in t.env then Jump(m, t, if t.env[c] != 0 then yes else no) else Fault(t)
    case Ret => t.(status := Halted)
  }

  function Tick(m: Module, w: World, t: Machine): Machine {
    if t.status != Running then t
    else if t.block >= |m| then Fault(t)
    else if t.idx < |m[t.block].body| then Exec(m[t.block].body[t.idx], w, t)
    else Exit(m, t, m[t.block].term)
  }

  function Go(m: Module, w: World, t: Machine, n: nat): Machine
    decreases n
  {
    if n == 0 then t else Go(m, w, Tick(m, w, t), n - 1)
  }

  lemma {:induction false} GoAdds(m: Module, w: World, t: Machine, a: nat, b: nat)
    ensures Go(m, w, t, a + b) == Go(m, w, Go(m, w, t, a), b)
    decreases a
  {
    if a > 0 {
      GoAdds(m, w, Tick(m, w, t), a - 1, b);
    }
  }

  lemma {:induction false} GoStays(m: Module, w: World, t: Machine, n: nat)
    requires t.status != Running
    ensures Go(m, w, t, n) == t
    decreases n
  {
    if n > 0 {
      GoStays(m, w, t, n - 1);
    }
  }

  lemma {:induction false} GoOutputGrows(m: Module, w: World, t: Machine, n: nat)
    ensures t.out <= Go(m, w, t, n).out
    decreases n
  {
    if n > 0 {
      var d := Tick(m, w, t);
      assert t.out <= d.out;
      GoOutputGrows(m, w, d, n - 1);
    }
  }

  // ----- Well-formed SSA --------------------------------------------------------

  ghost predicate Edge(m: Module, p: Label, l: Label) {
    p < |m| && l < |m| && l in Targets(m[p].term)
  }

  function PhiDefs(b: Block): set<Reg> {
    if b.phi.Some? then {b.phi.value.r} else {}
  }

  ghost function BodyDefs(body: seq<Instr>): set<Reg> {
    set k, r | 0 <= k < |body| && r in Defs(body[k]) :: r
  }

  ghost function BlockDefs(b: Block): set<Reg> {
    PhiDefs(b) + BodyDefs(b.body)
  }

  /** Every block ends, and only in blocks of the function. */
  ghost predicate Terminated(m: Module) {
    forall l :: 0 <= l < |m| ==> m[l].term != NoTerm && forall k :: k in Targets(m[l].term) ==> k < |m|
  }

  /** Each phi has exactly one entry for each predecessor of its block, and no other. */
  ghost predicate PhisMatch(m: Module) {
    forall l :: 0 <= l < |m| && m[l].phi.Some? ==> PhiMatches(m, l, m[l].phi.value.incoming)
  }

  /** The block of a loop test compares the cell with zero, and no other block compares anything with zero. */
  predicate IsTest(b: Block) {
    exists k :: 0 <= k < |b.body| && b.body[k].CmpZero?
  }

  /** The phi of a loop test has two entries, one for the way in and one for the way back; that of a loop exit has one. */
  ghost predicate PhisSized(m: Module) {
    forall l :: 0 <= l < |m| && m[l].phi.Some? ==> |m[l].phi.value.incoming| == if IsTest(m[l]) then 2 else 1
  }

  ghost predicate PhiMatches(m: Module, l: Label, inc: seq<(Label, Reg)>) {
    && (forall p: Label :: Edge(m, p, l) <==> exists k :: 0 <= k < |inc| && inc[k].0 == p)
    && (forall j, k :: 0 <= j < k < |inc| ==> inc[j].0 != inc[k].0)
  }

  /** The places that define r: index -1 stands for the phi. */
  ghost predicate DefinedAt(m: Module, r: Reg, l: Label, k: int) {
    l < |m| && ((k == -1 && r in PhiDefs(m[l])) || (0 <= k < |m[l].body| && r in Defs(m[l].body[k])))
  }

  /** Static single assignment: a register is defined at one place only. */
  ghost predicate SingleAssignment(m: Module) {
    forall r, l, k, l', k' :: DefinedAt(m, r, l, k) && DefinedAt(m, r, l', k') ==> l == l' && k == k'
  }

  /** A walk through the control-flow graph that starts at the entry block. */
  ghost predicate Walk(m: Module, path: seq<Label>) {
    && |path| > 0 && path[0] == 0 && 0 < |m|
    && forall k :: 0 < k < |path| ==> Edge(m, path[k - 1], path[k])
  }

  ghost function WalkDefs(m: Module, path: seq<Label>): set<Reg> {
    set k, r | 0 <= k < |path| && path[k] < |m| && r in BlockDefs(m[path[k]]) :: r
  }

  /** Whatever the blocks before b have defined, b uses nothing else before it defines it itself. */
  ghost predicate BlockCovered(b: Block, before: set<Reg>) {
    && (forall k :: 0 <= k < |b.body| ==> Uses(b.body[k]) <= before + PhiDefs(b) + BodyDefs(b.body[..k]))
    && TermUses(b.term) <= before + BlockDefs(b)
  }

  ghost predicate PhiCovered(b: Block, pred: Label, before: set<Reg>) {
    b.phi.Some? ==> forall k :: 0 <= k < |b.phi.value.incoming| && b.phi.value.incoming[k].0 == pred ==>
      b.phi.value.incoming[k].1 in before
  }

  /** Definitions dominate uses: along every walk from the entry, each register used in the last
      block, or by its phi for the last edge, was defined earlier on that walk. */
  ghost predicate DefsDominateUses(m: Module) {
    forall path :: Walk(m, path) ==> UsesCovered(m, path)
  }

  ghost predicate UsesCovered(m: Module, path: seq<Label>)
    requires Walk(m, path)
  {
    var last := |path| - 1;
    var before := WalkDefs(m, path[..last]);
    && path[last] < |m|
    && BlockCovered(m[path[last]], before)
    && (last > 0 ==> PhiCovered(m[path[last]], path[last - 1], before))
  }

  ghost predicate WellFormed(m: Module) {
    Terminated(m) && PhisMatch(m) && SingleAssignment(m) && DefsDominateUses(m)
  }
}
