/** What calls and other instructions do to memory, and what it means for an analysis to be right about it. */
module ModRefs {
  import opened AliasResults

  // ----- Mod/ref answers: three bits, of which the first tells that Must is not set ----------------

  datatype ModRefInfo = ModRefInfo(noMust: bool, mod: bool, ref: bool)

  const MOD_REF := ModRefInfo(true, true, true)
  const MOD := ModRefInfo(true, true, false)
  const REF := ModRefInfo(true, false, true)
  const NO_MOD_REF := ModRefInfo(true, false, false)

  function Union(a: ModRefInfo, b: ModRefInfo): ModRefInfo {
    ModRefInfo(a.noMust || b.noMust, a.mod || b.mod, a.ref || b.ref)
  }

  function Intersect(a: ModRefInfo, b: ModRefInfo): ModRefInfo {
    ModRefInfo(a.noMust && b.noMust, a.mod && b.mod, a.ref && b.ref)
  }

  predicate IsNoModRef(a: ModRefInfo) {
    !a.mod && !a.ref
  }

  // ----- How a function behaves: whether it writes and reads, and where ------------------------------

  datatype Behavior = Behavior(mod: bool, ref: bool, args: bool, inaccessible: bool, other: bool)

  const DOES_NOT_ACCESS_MEMORY := Behavior(false, false, false, false, false)
  const ONLY_ACCESSES_INACCESSIBLE_MEM := Behavior(true, true, false, true, false)
  const UNKNOWN_BEHAVIOR := Behavior(true, true, true, true, true)

  function Both(a: Behavior, b: Behavior): Behavior {
    Behavior(a.mod && b.mod, a.ref && b.ref, a.args && b.args, a.inaccessible && b.inaccessible, a.other && b.other)
  }

  predicate OnlyReadsMemory(b: Behavior) {
    !b.mod
  }

  predicate DoesNotReadMemory(b: Behavior) {
    !b.ref
  }

  predicate OnlyAccessesArgPointees(b: Behavior) {
    !b.inaccessible && !b.other
  }

  predicate OnlyAccessesInaccessibleOrArgMem(b: Behavior) {
    !b.other
  }

  predicate DoesAccessArgPointees(b: Behavior) {
    (b.mod || b.ref) && b.args
  }

  // ----- Analyses ----------------------------------------------------------------------------------

  type Loc = nat   // names of memory locations
  type Call = nat  // names of call sites
  type Addr = int

  datatype Analysis = Analysis(
    alias: (Loc, Loc) -> AliasResult,
    constant: Loc -> bool,
    argModRef: (Call, nat) -> ModRefInfo,
    callLoc: (Call, Loc) -> ModRefInfo,
    callCall: (Call, Call) -> ModRefInfo,
    behavior: Call -> Behavior)

  // ----- Memory --------------------------------------------------------------------------------------

  /** How a call comes by an address: through a pointer argument, out of memory that no location names, or else. */
  datatype Way = Arg(i: nat) | Inaccessible | Elsewhere

  datatype Touch = Touch(addr: Addr, way: Way)

  /** What calls really read and write, and which bytes locations are. */
  datatype World = World(
    bytes: Loc -> iset<Addr>,
    start: Loc -> Addr,
    constant: iset<Addr>,
    hidden: iset<Addr>,
    loads: Call -> iset<Touch>,
    stores: Call -> iset<Touch>)

  ghost predicate Disjoint(s: iset<Addr>, t: iset<Addr>) {
    forall x :: x in s ==> x !in t
  }

  ghost predicate Wrote(w: World, c: Call, x: Addr) {
    exists t :: t in w.stores(c) && t.addr == x
  }

  ghost predicate Read(w: World, c: Call, x: Addr) {
    exists t :: t in w.loads(c) && t.addr == x
  }

  ghost predicate PossibleTouch(w: World, args: Call -> seq<bool>, argLoc: (Call, nat) -> Loc, c: Call, t: Touch) {
    match t.way
    case Arg(i) => i < |args(c)| && args(c)[i] && t.addr in w.bytes(argLoc(c, i))
    case Inaccessible => t.addr in w.hidden
    case Elsewhere => true
  }

  /** Touches are as their ways say, no location has hidden bytes, and nothing writes constants. */
  ghost predicate Possible(w: World, args: Call -> seq<bool>, argLoc: (Call, nat) -> Loc) {
    && (forall c, t :: t in w.loads(c) || t in w.stores(c) ==> PossibleTouch(w, args, argLoc, c, t))
    && (forall l :: Disjoint(w.bytes(l), w.hidden))
    && (forall c, t :: t in w.stores(c) ==> t.addr !in w.constant)
  }

  // ----- Right answers -----------------------------------------------------------------------------------

  ghost predicate RightAlias(w: World, a: Loc, b: Loc, r: AliasResult) {
    && (r == NoAlias ==> Disjoint(w.bytes(a), w.bytes(b)))
    && (r == PartialAlias ==> !Disjoint(w.bytes(a), w.bytes(b)))
    && (r == MustAlias ==> w.start(a) == w.start(b))
  }

  ghost predicate RightArg(w: World, c: Call, i: nat, r: ModRefInfo) {
    && (!r.mod ==> forall t :: t in w.stores(c) ==> t.way != Arg(i))
    && (!r.ref ==> forall t :: t in w.loads(c) ==> t.way != Arg(i))
  }

  ghost predicate RightCallLoc(w: World, c: Call, l: Loc, r: ModRefInfo) {
    && (!r.mod ==> forall x :: x in w.bytes(l) ==> !Wrote(w, c, x))
    && (!r.ref ==> forall x :: x in w.bytes(l) ==> !Read(w, c, x))
  }

  /** Without Mod, c1 writes nothing that c2 reads or writes; without Ref, c1 reads nothing that c2 writes. */
  ghost predicate RightCallCall(w: World, c1: Call, c2: Call, r: ModRefInfo) {
    && (!r.mod ==> forall x :: Wrote(w, c1, x) ==> !Wrote(w, c2, x) && !Read(w, c2, x))
    && (!r.ref ==> forall x :: Read(w, c1, x) ==> !Wrote(w, c2, x))
  }

  ghost predicate Allowed(b: Behavior, way: Way) {
    match way
    case Arg(_) => b.args
    case Inaccessible => b.inaccessible
    case Elsewhere => b.other
  }

  ghost predicate RightBehavior(w: World, c: Call, b: Behavior) {
    && (!b.mod ==> w.stores(c) == iset{})
    && (!b.ref ==> w.loads(c) == iset{})
    && (forall t :: t in w.loads(c) || t in w.stores(c) ==> Allowed(b, t.way))
  }

  ghost predicate RightConstant(w: World, l: Loc, r: bool) {
    r ==> w.bytes(l) <= w.constant
  }

  ghost predicate Right(w: World, a: Analysis) {
    && (forall l, m :: RightAlias(w, l, m, a.alias(l, m)))
    && (forall l :: RightConstant(w, l, a.constant(l)))
    && (forall c, i: nat :: RightArg(w, c, i, a.argModRef(c, i)))
    && (forall c, l :: RightCallLoc(w, c, l, a.callLoc(c, l)))
    && (forall c1, c2 :: RightCallCall(w, c1, c2, a.callCall(c1, c2)))
    && (forall c :: RightBehavior(w, c, a.behavior(c)))
  }

  // ----- Other instructions --------------------------------------------------------------------------------

  /** Instructions as far as they matter to memory. An atomic access is ordered if it also constrains accesses
      elsewhere; Plain stands for the instructions that do not touch memory. */
  datatype Instr =
    | Load(loc: Loc, ordered: bool)
    | Store(loc: Loc, ordered: bool)
    | VAArg(loc: Loc)
    | CmpXchg(loc: Loc, ordered: bool)
    | AtomicRMW(loc: Loc, ordered: bool)
    | Fence
    | CatchPad
    | CatchRet
    | CallSite(call: Call)
    | Plain

  /** What an instruction may load and store. */
  datatype Footprint = Footprint(loads: iset<Addr>, stores: iset<Addr>)

  /** f may be what the instruction does. Loads from constants do not count as accesses, but those of a load
      instruction or a call may be among the loads. */
  ghost predicate MayDo(w: World, i: Instr, f: Footprint) {
    && Disjoint(f.stores, w.constant)
    && match i
       case Load(l, ordered) => !ordered ==> f.loads <= w.bytes(l) && f.stores == iset{}
       case Store(l, ordered) => Disjoint(f.loads, w.constant) && (!ordered ==> f.stores <= w.bytes(l) && f.loads == iset{})
       case VAArg(l) => Disjoint(f.loads, w.constant) && f.loads <= w.bytes(l) && f.stores <= w.bytes(l)
       case CmpXchg(l, ordered) => !ordered ==> f.loads <= w.bytes(l) && f.stores <= w.bytes(l)
       case AtomicRMW(l, ordered) => !ordered ==> f.loads <= w.bytes(l) && f.stores <= w.bytes(l)
       case Fence => true
       case CatchPad => Disjoint(f.loads, w.constant)
       case CatchRet => Disjoint(f.loads, w.constant)
       case CallSite(c) => (forall x :: x in f.loads ==> Read(w, c, x)) && forall x :: x in f.stores ==> Wrote(w, c, x)
       case Plain => f.loads == iset{} && f.stores == iset{}
  }

  ghost predicate RightInstr(w: World, i: Instr, l: Loc, r: ModRefInfo) {
    forall f :: MayDo(w, i, f) ==>
      (!r.mod ==> Disjoint(f.stores, w.bytes(l))) && (!r.ref ==> Disjoint(f.loads, w.bytes(l)))
  }
}
