/** Functions generated to call another one within catch clauses and a finally block, and what
    happens when one is called inside the other and an exception is thrown. */
module ExceptionFrames {
  import opened Wrappers
  import opened Personality

  // ----- Generated code ------------------------------------------------------------------------

  /** ours tells a generated exception from a foreign one. */
  datatype Exc = Exc(ours: bool, typ: int)

  datatype Mark = NoException | Foreign | Catch(clause: nat) | Finally | End

  type Label = nat

  datatype Op =
    | Print(mark: Mark)
    | StoreFlag(v: nat)      // to the exceptionCaught flag
    | StoreCaught            // the landing pad's result, to both storages
    | DeleteStored           // deleteOurException of what is in the exception storage

  datatype Term =
    | Unset
    | Br(to: Label)
    | Invoke(normal: Label, unwind: Label)
    | SwitchFlag(default: Label, cases: seq<(nat, Label)>)
    | SwitchSelector(default: Label, cases: seq<(nat, Label)>)
    | BrIfOurs(thenTo: Label, elseTo: Label)
    | Resume
    | RetVoid

  datatype BasicBlock = BasicBlock(ops: seq<Op>, term: Term)

  const NOT_THROWN: nat := 0
  const THROWN: nat := 1
  const CAUGHT: nat := 2

  const ENTRY: Label := 0
  const NORMAL: Label := 1
  const EXCEPTION: Label := 2
  const ROUTE: Label := 3
  const EXTERNAL: Label := 4
  const RESUME: Label := 5
  const END: Label := 6
  const FINALLY: Label := 7
  const FIRST_CATCH: Label := 8

  ghost predicate IsCatch(b: BasicBlock, i: nat) {
    b == BasicBlock([Print(Catch(i)), StoreFlag(CAUGHT)], Br(FINALLY))
  }

  /** A function with n catch clauses. */
  ghost predicate IsWrapper(f: seq<BasicBlock>, n: nat) {
    && |f| == FIRST_CATCH + n
    && f[ENTRY] == BasicBlock([], Invoke(NORMAL, EXCEPTION))
    && f[NORMAL] == BasicBlock([Print(NoException)], Br(FINALLY))
    && f[EXCEPTION] == BasicBlock([StoreCaught, StoreFlag(THROWN)], BrIfOurs(ROUTE, EXTERNAL))
    && f[ROUTE].ops == [] && f[ROUTE].term.SwitchSelector? && f[ROUTE].term.default == FINALLY
    && IsCases(f[ROUTE].term.cases, n)
    && f[EXTERNAL] == BasicBlock([Print(Foreign)], Br(FINALLY))
    && f[RESUME] == BasicBlock([], Resume)
    && f[END] == BasicBlock([Print(End), DeleteStored], RetVoid)
    && f[FINALLY] == BasicBlock([Print(Finally)], SwitchFlag(END, [(CAUGHT, END), (THROWN, RESUME)]))
    && AreCatches(f)
  }

  ghost predicate AreCatches(f: seq<BasicBlock>) {
    forall b :: FIRST_CATCH <= b < |f| ==> IsCatch(f[b], b - FIRST_CATCH)
  }

  ghost predicate IsCases(cases: seq<(nat, Label)>, n: nat) {
    |cases| == n && forall i :: 0 <= i < n ==> cases[i] == (i + 1, FIRST_CATCH + i)
  }

  class FunctionBuilder {
    var blocks: seq<BasicBlock>

    constructor ()
      ensures blocks == []
    {
      blocks := [];
    }

    method CreateBlock() returns (b: Label)
      modifies this
      ensures b == |old(blocks)| && blocks == old(blocks) + [BasicBlock([], Unset)]
    {
      b := |blocks|;
      blocks := blocks + [BasicBlock([], Unset)];
    }

    /** The block that runs whatever way control leaves the function. */
    method CreateFinallyBlock(terminator: Label, unwindResume: Label) returns (b: Label)
      modifies this
      ensures b == |old(blocks)|
      ensures blocks == old(blocks) + [BasicBlock([Print(Finally)], SwitchFlag(terminator, [(CAUGHT, terminator), (THROWN, unwindResume)]))]
    {
      b := CreateBlock();
      var cases: seq<(nat, Label)> := [(CAUGHT, terminator)];
      cases := cases + [(THROWN, unwindResume)];
      assert cases == [(CAUGHT, terminator), (THROWN, unwindResume)];
      blocks := blocks[b := BasicBlock([Print(Finally)], SwitchFlag(terminator, cases))];
    }

    method CreateCatchBlock(clause: nat, terminator: Label) returns (b: Label)
      modifies this
      ensures b == |old(blocks)|
      ensures blocks == old(blocks) + [BasicBlock([Print(Catch(clause)), StoreFlag(CAUGHT)], Br(terminator))]
    {
      b := CreateBlock();
      blocks := blocks[b := BasicBlock([Print(Catch(clause)), StoreFlag(CAUGHT)], Br(terminator))];
    }

    method CreateCatchWrappedInvokeFunction(catches: seq<int>)
      requires blocks == []
      modifies this
      ensures IsWrapper(blocks, |catches|)
    {
      hide IsWrapper, IsCases, IsCatch, AreCatches;
      var entryBlock := CreateBlock();
      var normalBlock := CreateBlock();
      var exceptionBlock := CreateBlock();
      var routeBlock := CreateBlock();
      var externalBlock := CreateBlock();
      var resumeBlock := CreateBlock();
      var endBlock := CreateBlock();
      var finallyBlock := CreateFinallyBlock(endBlock, resumeBlock);
      assert finallyBlock == FINALLY && endBlock == END && resumeBlock == RESUME;
      ghost var start := blocks;
      NoCatches(blocks);
      var catchBlocks := [];
      for i := 0 to |catches|
        invariant |catchBlocks| == i && |blocks| == FIRST_CATCH + i && blocks[..FIRST_CATCH] == start
        invariant forall j :: 0 <= j < i ==> catchBlocks[j] == FIRST_CATCH + j
        invariant AreCatches(blocks)
      {
        MoreCatches(blocks, i);
        var b := CreateCatchBlock(i, finallyBlock);
        catchBlocks := catchBlocks + [b];
      }
      assert blocks[FINALLY] == start[FINALLY];
      ghost var created := blocks;
      blocks := blocks[entryBlock := BasicBlock([], Invoke(normalBlock, exceptionBlock))];
      blocks := blocks[endBlock := BasicBlock([Print(End), DeleteStored], RetVoid)];
      blocks := blocks[normalBlock := BasicBlock([Print(NoException)], Br(finallyBlock))];
      blocks := blocks[resumeBlock := BasicBlock([], Resume)];
      blocks := blocks[exceptionBlock := BasicBlock([StoreCaught, StoreFlag(THROWN)], BrIfOurs(routeBlock, externalBlock))];
      blocks := blocks[externalBlock := BasicBlock([Print(Foreign)], Br(finallyBlock))];
      var cases: seq<(nat, Label)> := [];
      NoCases();
      ghost var written := blocks;
      for i := 1 to |catches| + 1
        invariant IsCases(cases, i - 1) && blocks == written
      {
        var nextTypeToCatch := i - 1;
        NextCase(cases, i - 1);
        cases := cases + [(i, catchBlocks[nextTypeToCatch])];
      }
      blocks := blocks[routeBlock := BasicBlock([], SwitchSelector(finallyBlock, cases))];
      Filled(created, cases, |catches|);
    }
  }

  lemma NoCatches(f: seq<BasicBlock>)
    requires |f| == FIRST_CATCH
    ensures AreCatches(f)
  {
  }

  lemma MoreCatches(f: seq<BasicBlock>, i: nat)
    requires AreCatches(f) && |f| == FIRST_CATCH + i
    ensures AreCatches(f + [BasicBlock([Print(Catch(i)), StoreFlag(CAUGHT)], Br(FINALLY))])
  {
  }

  lemma NoCases()
    ensures IsCases([], 0)
  {
  }

  lemma NextCase(cases: seq<(nat, Label)>, n: nat)
    requires IsCases(cases, n)
    ensures IsCases(cases + [(n + 1, FIRST_CATCH + n)], n + 1)
  {
  }

  /** With its blocks filled in, the function is a wrapper. */
  lemma Filled(f: seq<BasicBlock>, cases: seq<(nat, Label)>, n: nat)
    requires |f| == FIRST_CATCH + n && IsCases(cases, n) && AreCatches(f)
    requires f[FINALLY] == BasicBlock([Print(Finally)], SwitchFlag(END, [(CAUGHT, END), (THROWN, RESUME)]))
    ensures IsWrapper(f[ENTRY := BasicBlock([], Invoke(NORMAL, EXCEPTION))]
                       [END := BasicBlock([Print(End), DeleteStored], RetVoid)]
                       [NORMAL := BasicBlock([Print(NoException)], Br(FINALLY))]
                       [RESUME := BasicBlock([], Resume)]
                       [EXCEPTION := BasicBlock([StoreCaught, StoreFlag(THROWN)], BrIfOurs(ROUTE, EXTERNAL))]
                       [EXTERNAL := BasicBlock([Print(Foreign)], Br(FINALLY))]
                       [ROUTE := BasicBlock([], SwitchSelector(FINALLY, cases))], n)
  {
    hide IsCatch, IsCases;
  }

  // ----- Running a generated function ---------------------------------------------------------------

  datatype Event = At(frame: nat, mark: Mark) | Deleted(e: Exc)

  /** How the invoked function came back: it returned, or the unwinder entered block pad with a selector. */
  datatype Invocation = Returned | Unwound(e: Exc, selector: nat, pad: Label)

  datatype Outcome = Normally | Unwinding(e: Exc)

  datatype Local = Local(flag: nat, stored: Option<Exc>)

  datatype Machine = Running(block: Label, l: Local, trace: seq<Event>) | Done(outcome: Outcome, trace: seq<Event>)

  function RunOp(op: Op, inv: Invocation, frame: nat, l: Local, trace: seq<Event>): (Local, seq<Event>) {
    match op
    case Print(m) => (l, trace + [At(frame, m)])
    case StoreFlag(v) => (l.(flag := v), trace)
    case StoreCaught => (if inv.Unwound? then l.(stored := Some(inv.e)) else l, trace)
    case DeleteStored => (l, if l.stored.Some? && l.stored.value.ours then trace + [Deleted(l.stored.value)] else trace)
  }

  function RunOps(ops: seq<Op>, inv: Invocation, frame: nat, l: Local, trace: seq<Event>): (Local, seq<Event>) {
    if ops == [] then (l, trace)
    else
      var r := RunOp(ops[0], inv, frame, l, trace);
      RunOps(ops[1..], inv, frame, r.0, r.1)
  }

  function CaseOf(cases: seq<(nat, Label)>, v: nat, default: Label): Label {
    if cases == [] then default else if cases[0].0 == v then cases[0].1 else CaseOf(cases[1..], v, default)
  }

  function Step(f: seq<BasicBlock>, inv: Invocation, frame: nat, m: Machine): Machine {
    if m.Done? || m.block >= |f| then m
    else
      var r := RunOps(f[m.block].ops, inv, frame, m.l, m.trace);
      var l, trace := r.0, r.1;
      match f[m.block].term
      case Br(to) => Running(to, l, trace)
      case Invoke(normal, unwind) => Running(if inv.Unwound? then inv.pad else normal, l, trace)
      case SwitchFlag(default, cases) => Running(CaseOf(cases, l.flag, default), l, trace)
      case SwitchSelector(default, cases) => Running(CaseOf(cases, if inv.Unwound? then inv.selector else 0, default), l, trace)
      case BrIfOurs(thenTo, elseTo) => Running(if inv.Unwound? && inv.e.ours then thenTo else elseTo, l, trace)
      case Resume => if inv.Unwound? then Done(Unwinding(inv.e), trace) else m
      case RetVoid => Done(Normally, trace)
      case Unset => m
  }

  function Run(f: seq<BasicBlock>, inv: Invocation, frame: nat, m: Machine, steps: nat): Machine
    decreases steps
  {
    if steps == 0 then m else Run(f, inv, frame, Step(f, inv, frame, m), steps - 1)
  }

  function Fresh(trace: seq<Event>): Machine {
    Running(ENTRY, Local(NOT_THROWN, None), trace)
  }

  const STEPS: nat := 6

  lemma {:induction false} CaseIs(cases: seq<(nat, Label)>, first: nat, to: Label, v: nat, default: Label)
    requires forall i :: 0 <= i < |cases| ==> cases[i] == (first + i, to + i)
    ensures CaseOf(cases, v, default) == if first <= v < first + |cases| then to + (v - first) else default
    decreases |cases|
  {
    if cases != [] && v != first {
      CaseIs(cases[1..], first + 1, to + 1, v, default);
    }
  }

  // ----- One block at a time

  lemma TwoOps(a: Op, b: Op, inv: Invocation, frame: nat, l: Local, trace: seq<Event>)
    ensures var r := RunOp(a, inv, frame, l, trace); RunOps([a, b], inv, frame, l, trace) == RunOp(b, inv, frame, r.0, r.1)
  {
    assert [a, b][1..] == [b];
    var r := RunOp(a, inv, frame, l, trace);
    OneOp(b, inv, frame, r.0, r.1);
  }

  lemma OneOp(op: Op, inv: Invocation, frame: nat, l: Local, trace: seq<Event>)
    ensures RunOps([op], inv, frame, l, trace) == RunOp(op, inv, frame, l, trace)
  {
    assert [op][1..] == [];
  }

  lemma StepEntry(f: seq<BasicBlock>, n: nat, inv: Invocation, frame: nat, l: Local, trace: seq<Event>)
    requires IsWrapper(f, n)
    ensures Step(f, inv, frame, Running(ENTRY, l, trace)) == Running(if inv.Returned? then NORMAL else inv.pad, l, trace)
  {
  }

  lemma StepNormal(f: seq<BasicBlock>, n: nat, inv: Invocation, frame: nat, l: Local, trace: seq<Event>)
    requires IsWrapper(f, n)
    ensures Step(f, inv, frame, Running(NORMAL, l, trace)) == Running(FINALLY, l, trace + [At(frame, NoException)])
  {
    OneOp(Print(NoException), inv, frame, l, trace);
  }

  lemma StepException(f: seq<BasicBlock>, n: nat, inv: Invocation, frame: nat, l: Local, trace: seq<Event>)
    requires IsWrapper(f, n) && inv.Unwound?
    ensures Step(f, inv, frame, Running(EXCEPTION, l, trace))
         == Running(if inv.e.ours then ROUTE else EXTERNAL, Local(THROWN, Some(inv.e)), trace)
  {
    TwoOps(StoreCaught, StoreFlag(THROWN), inv, frame, l, trace);
  }

  lemma StepExternal(f: seq<BasicBlock>, n: nat, inv: Invocation, frame: nat, l: Local, trace: seq<Event>)
    requires IsWrapper(f, n)
    ensures Step(f, inv, frame, Running(EXTERNAL, l, trace)) == Running(FINALLY, l, trace + [At(frame, Foreign)])
  {
    OneOp(Print(Foreign), inv, frame, l, trace);
  }

  lemma StepRoute(f: seq<BasicBlock>, n: nat, inv: Invocation, frame: nat, l: Local, trace: seq<Event>)
    requires IsWrapper(f, n) && inv.Unwound? && inv.selector <= n
    ensures Step(f, inv, frame, Running(ROUTE, l, trace))
         == Running(if inv.selector == 0 then FINALLY else FIRST_CATCH + inv.selector - 1, l, trace)
  {
    CaseIs(f[ROUTE].term.cases, 1, FIRST_CATCH, inv.selector, FINALLY);
  }

  lemma StepCatch(f: seq<BasicBlock>, n: nat, inv: Invocation, frame: nat, l: Local, trace: seq<Event>, i: nat)
    requires IsWrapper(f, n) && i < n
    ensures Step(f, inv, frame, Running(FIRST_CATCH + i, l, trace)) == Running(FINALLY, l.(flag := CAUGHT), trace + [At(frame, Catch(i))])
  {
    assert IsCatch(f[FIRST_CATCH + i], i);
    TwoOps(Print(Catch(i)), StoreFlag(CAUGHT), inv, frame, l, trace);
  }

  lemma TwoCases(v: nat)
    ensures CaseOf([(CAUGHT, END), (THROWN, RESUME)], v, END) == if v == THROWN then RESUME else END
  {
    var one: seq<(nat, Label)> := [(THROWN, RESUME)];
    assert [(CAUGHT, END), (THROWN, RESUME)][1..] == one;
    assert CaseOf(one, v, END) == if v == THROWN then RESUME else CaseOf(one[1..], v, END);
    assert one[1..] == [];
  }

  lemma StepFinally(f: seq<BasicBlock>, n: nat, inv: Invocation, frame: nat, l: Local, trace: seq<Event>)
    requires IsWrapper(f, n)
    ensures Step(f, inv, frame, Running(FINALLY, l, trace))
         == Running(if l.flag == THROWN then RESUME else END, l, trace + [At(frame, Finally)])
  {
    OneOp(Print(Finally), inv, frame, l, trace);
    TwoCases(l.flag);
  }

  lemma StepEnd(f: seq<BasicBlock>, n: nat, inv: Invocation, frame: nat, l: Local, trace: seq<Event>)
    requires IsWrapper(f, n)
    ensures Step(f, inv, frame, Running(END, l, trace))
         == Done(Normally, trace + [At(frame, End)] + if l.stored.Some? && l.stored.value.ours then [Deleted(l.stored.value)] else [])
  {
    TwoOps(Print(End), DeleteStored, inv, frame, l, trace);
  }

  lemma StepResume(f: seq<BasicBlock>, n: nat, inv: Invocation, frame: nat, l: Local, trace: seq<Event>)
    requires IsWrapper(f, n) && inv.Unwound?
    ensures Step(f, inv, frame, Running(RESUME, l, trace)) == Done(Unwinding(inv.e), trace)
  {
  }

  lemma SixSteps(f: seq<BasicBlock>, inv: Invocation, frame: nat, m: Machine)
    ensures Run(f, inv, frame, m, STEPS)
         == Step(f, inv, frame, Step(f, inv, frame, Step(f, inv, frame, Step(f, inv, frame, Step(f, inv, frame, Step(f, inv, frame, m))))))
  {
    hide Step;
    var m2 := Step(f, inv, frame, Step(f, inv, frame, m));
    var m4 := Step(f, inv, frame, Step(f, inv, frame, m2));
    assert Run(f, inv, frame, m, 6) == Run(f, inv, frame, m2, 4);
    assert Run(f, inv, frame, m2, 4) == Run(f, inv, frame, m4, 2);
  }

  lemma DoneStays(f: seq<BasicBlock>, inv: Invocation, frame: nat, m: Machine)
    requires m.Done?
    ensures Step(f, inv, frame, m) == m
  {
  }

  /** From the finally block on. */
  lemma AfterFinally(f: seq<BasicBlock>, n: nat, inv: Invocation, frame: nat, l: Local, trace: seq<Event>)
    requires IsWrapper(f, n) && (l.flag == THROWN ==> inv.Unwound?)
    ensures Step(f, inv, frame, Step(f, inv, frame, Running(FINALLY, l, trace)))
         == if l.flag == THROWN then Done(Unwinding(inv.e), trace + [At(frame, Finally)])
            else Done(Normally, trace + [At(frame, Finally)] + [At(frame, End)]
                                + if l.stored.Some? && l.stored.value.ours then [Deleted(l.stored.value)] else [])
  {
    hide IsWrapper, Step;
    StepFinally(f, n, inv, frame, l, trace);
    if l.flag == THROWN {
      StepResume(f, n, inv, frame, l, trace + [At(frame, Finally)]);
    } else {
      StepEnd(f, n, inv, frame, l, trace + [At(frame, Finally)]);
    }
  }

  /** Every way through a generated function passes the finally block once. A function that returned is done; an
      exception with a clause is caught and, after the finally block, deleted; any other goes on. */
  lemma WrapperRuns(f: seq<BasicBlock>, n: nat, inv: Invocation, frame: nat, trace: seq<Event>)
    requires IsWrapper(f, n) && (inv.Unwound? ==> inv.selector <= n && (!inv.e.ours ==> inv.selector == 0))
    requires inv.Unwound? ==> f[ENTRY].term.Invoke? && inv.pad == f[ENTRY].term.unwind
    ensures Run(f, inv, frame, Fresh(trace), STEPS) == Done(Leaves(inv), trace + Passes(inv, frame))
  {
    assert inv.Unwound? ==> inv.pad == EXCEPTION;
    hide IsWrapper, Run, Step;
    SixSteps(f, inv, frame, Fresh(trace));
    var l0 := Local(NOT_THROWN, None);
    StepEntry(f, n, inv, frame, l0, trace);
    match inv
    case Returned =>
      var tr := trace + [At(frame, NoException)];
      StepNormal(f, n, inv, frame, l0, trace);
      AfterFinally(f, n, inv, frame, l0, tr);
      assert tr + [At(frame, Finally)] + [At(frame, End)] + [] == trace + Passes(inv, frame);
      DoneStays(f, inv, frame, Done(Normally, trace + Passes(inv, frame)));
    case Unwound(e, selector, _) =>
      var l := Local(THROWN, Some(e));
      StepException(f, n, inv, frame, l0, trace);
      if !e.ours {
        var tr := trace + [At(frame, Foreign)];
        StepExternal(f, n, inv, frame, l, trace);
        AfterFinally(f, n, inv, frame, l, tr);
        assert tr + [At(frame, Finally)] == trace + Passes(inv, frame);
        DoneStays(f, inv, frame, Done(Unwinding(e), trace + Passes(inv, frame)));
      } else if selector == 0 {
        StepRoute(f, n, inv, frame, l, trace);
        AfterFinally(f, n, inv, frame, l, trace);
        DoneStays(f, inv, frame, Done(Unwinding(e), trace + Passes(inv, frame)));
      } else {
        var tr := trace + [At(frame, Catch(selector - 1))];
        StepRoute(f, n, inv, frame, l, trace);
        StepCatch(f, n, inv, frame, l, trace, selector - 1);
        AfterFinally(f, n, inv, frame, l.(flag := CAUGHT), tr);
        assert tr + [At(frame, Finally)] + [At(frame, End)] + [Deleted(e)] == trace + Passes(inv, frame);
      }
  }

  ghost function Leaves(inv: Invocation): Outcome {
    if inv.Unwound? && inv.selector == 0 then Unwinding(inv.e) else Normally
  }

  ghost function Passes(inv: Invocation, frame: nat): seq<Event> {
    match inv
    case Returned => [At(frame, NoException), At(frame, Finally), At(frame, End)]
    case Unwound(e, selector, _) =>
      if !e.ours then [At(frame, Foreign), At(frame, Finally)]
      else if selector == 0 then [At(frame, Finally)]
      else [At(frame, Catch(selector - 1)), At(frame, Finally), At(frame, End), Deleted(e)]
  }

  // ----- Functions inside functions --------------------------------------------------------------------

  /** A generated function that is being executed: what it catches, its blocks and where they start, its exception
      table, and where in it the invoke is. */
  datatype Frame = Frame(catches: seq<int>, code: seq<BasicBlock>, places: seq<nat>, lsda: Lsda, ghost chains: seq<seq<int>>, pc: nat)

  /** The table sends the invoke to the landing pad, with the clauses in order and a cleanup. */
  ghost predicate Describes(l: Lsda, chains: seq<seq<int>>, pc: nat, catches: seq<int>, pad: nat) {
    && Readable(l, chains) && SiteFrom(l.sites, 0, pc).Some?
    && var k := SiteFrom(l.sites, 0, pc).value;
    && l.sites[k].landingPad == pad
    && if l.sites[k].action == 0 then catches == [] else IsClauses(chains[k], l.types, catches)
  }

  ghost predicate IsClauses(chain: seq<int>, types: seq<int>, catches: seq<int>) {
    && |chain| == |catches| + 1 && chain[|catches|] == 0
    && forall i :: 0 <= i < |catches| ==> 0 < chain[i] <= |types| && types[chain[i] - 1] == catches[i]
  }

  /** The landing pad in the table is where the block that the invoke unwinds to starts, and no other block does. */
  ghost predicate Generated(fr: Frame) {
    && IsWrapper(fr.code, |fr.catches|) && |fr.places| == |fr.code|
    && (forall i, j :: 0 <= i < j < |fr.places| ==> fr.places[i] != fr.places[j])
    && fr.code[ENTRY].term.Invoke? && fr.code[ENTRY].term.unwind < |fr.places|
    && Describes(fr.lsda, fr.chains, fr.pc, fr.catches, fr.places[fr.code[ENTRY].term.unwind])
  }

  /** The block that starts at a place. */
  function BlockAt(places: seq<nat>, place: nat): (b: Label)
    ensures b <= |places| && (b < |places| ==> places[b] == place) && (b == |places| ==> place !in places)
  {
    if places == [] then 0 else if places[0] == place then 0 else 1 + BlockAt(places[1..], place)
  }

  /** The place of a type in a list, counted from 1, or 0. */
  function Clause(catches: seq<int>, typ: int): (r: nat)
    ensures r <= |catches| && (r > 0 ==> catches[r - 1] == typ && typ !in catches[..r - 1]) && (r == 0 ==> typ !in catches)
  {
    if catches == [] then 0
    else if catches[0] == typ then 1
    else
      var r := Clause(catches[1..], typ);
      if r == 0 then 0 else r + 1
  }

  lemma {:induction false} ClauseMatches(chain: seq<int>, types: seq<int>, catches: seq<int>, typ: int)
    requires IsClauses(chain, types, catches)
    ensures FirstMatch(chain, types, typ) == Clause(catches, typ)
    decreases |catches|
  {
    if catches == [] {
      assert chain[1..] == [];
    } else {
      ClauseMatches(chain[1..], types, catches[1..], typ);
    }
  }

  /** The search phase finds a handler in a frame exactly if the frame lists the exception's type; the cleanup phase
      enters every frame, with the number of the clause. */
  lemma FrameDecides(fr: Frame, e: Exc)
    requires Generated(fr)
    ensures |fr.chains| == |fr.lsda.sites|
    ensures Decision(fr.lsda, fr.chains, fr.pc, true, e.ours, e.typ) == HandlerFound <==> e.ours && e.typ in fr.catches
    ensures var d := Decision(fr.lsda, fr.chains, fr.pc, false, e.ours, e.typ);
            && d.InstallContext? && (d.selector == if e.ours then Clause(fr.catches, e.typ) else 0)
            && d.landingPad >= 0 && BlockAt(fr.places, d.landingPad) == fr.code[ENTRY].term.unwind
  {
    PadIsEntered(fr);
    hide IsWrapper, BlockAt;
    var k := SiteFrom(fr.lsda.sites, 0, fr.pc).value;
    if fr.lsda.sites[k].action > 0 {
      ClauseMatches(fr.chains[k], fr.lsda.types, fr.catches, e.typ);
    }
  }

  lemma PadIsEntered(fr: Frame)
    requires Generated(fr)
    ensures |fr.code| > 0 && fr.code[ENTRY].term.Invoke? && fr.code[ENTRY].term.unwind == EXCEPTION < |fr.places|
    ensures BlockAt(fr.places, fr.places[EXCEPTION]) == EXCEPTION
  {
    hide Describes;
    assert fr.places[EXCEPTION] in fr.places;
  }

  /** The search phase asks the frames from the innermost out; frames[0] is the outermost, the innermost is number 0. */
  ghost function SearchPhase(frames: seq<Frame>, e: Exc): Option<nat>
    requires forall k :: 0 <= k < |frames| ==> Generated(frames[k])
  {
    if frames == [] then None
    else
      var inner := SearchPhase(frames[1..], e);
      if inner.Some? then inner
      else if (FrameDecides(frames[0], e); Decision(frames[0].lsda, frames[0].chains, frames[0].pc, true, e.ours, e.typ)) == HandlerFound
      then Some(|frames| - 1)
      else None
  }

  /** What a frame's invoke comes back with, by the cleanup phase, when the frames inside it leave as they do. */
  ghost function Invoked(fr: Frame, inner: Outcome): (inv: Invocation)
    requires Generated(fr)
    ensures inv == match inner
                   case Normally => Returned
                   case Unwinding(e) => Unwound(e, if e.ours then Clause(fr.catches, e.typ) else 0, fr.code[ENTRY].term.unwind)
  {
    match inner
    case Normally => Returned
    case Unwinding(e) =>
      FrameDecides(fr, e);
      var decision := Decision(fr.lsda, fr.chains, fr.pc, false, e.ours, e.typ);
      Unwound(e, decision.selector, BlockAt(fr.places, decision.landingPad))
  }

  /** Runs the frames when what the innermost invokes ends as given. */
  ghost function Execute(frames: seq<Frame>, ends: Outcome): (Outcome, seq<Event>)
    requires forall k :: 0 <= k < |frames| ==> Generated(frames[k])
  {
    if frames == [] then (ends, [])
    else
      var inside := Execute(frames[1..], ends);
      var m := Run(frames[0].code, Invoked(frames[0], inside.0), |frames| - 1, Fresh(inside.1), STEPS);
      (if m.Done? then m.outcome else ends, m.trace)
  }

  /** The innermost frame that lists the type of a generated exception. */
  function Catcher(frames: seq<Frame>, e: Exc): (c: Option<nat>)
    ensures c.Some? ==> c.value < |frames|
  {
    if frames == [] then None
    else
      var inner := Catcher(frames[1..], e);
      if inner.Some? then inner
      else if e.ours && e.typ in frames[0].catches then Some(|frames| - 1)
      else None
  }

  lemma {:induction false} CatcherIsInnermost(frames: seq<Frame>, e: Exc)
    ensures var c := Catcher(frames, e);
            if c.Some? then
              && e.ours && e.typ in frames[|frames| - 1 - c.value].catches
              && forall k :: |frames| - 1 - c.value < k < |frames| ==> e.typ !in frames[k].catches
            else !e.ours || forall k :: 0 <= k < |frames| ==> e.typ !in frames[k].catches
  {
    if frames != [] {
      CatcherIsInnermost(frames[1..], e);
    }
  }

  /** How often something happened. */
  ghost function Count(trace: seq<Event>, ev: Event): nat {
    multiset(trace)[ev]
  }

  lemma CountAdds(a: seq<Event>, b: seq<Event>, ev: Event)
    ensures Count(a + b, ev) == Count(a, ev) + Count(b, ev)
  {
    assert multiset(a + b) == multiset(a) + multiset(b);
  }

  ghost predicate CaughtAt(frames: seq<Frame>, e: Exc, c: Option<nat>, frame: nat, clause: nat) {
    c == Some(frame) && frame < |frames| && clause + 1 == Clause(frames[|frames| - 1 - frame].catches, e.typ)
  }

  lemma ExecuteStep(frames: seq<Frame>, ends: Outcome)
    requires frames != [] && forall k :: 0 <= k < |frames| ==> Generated(frames[k])
    ensures var inside := Execute(frames[1..], ends);
            var inv := Invoked(frames[0], inside.0);
            Execute(frames, ends) == (Leaves(inv), inside.1 + Passes(inv, |frames| - 1))
  {
    hide IsWrapper, Describes, Run, Leaves, Passes;
    var inside := Execute(frames[1..], ends);
    WrapperRuns(frames[0].code, |frames[0].catches|, Invoked(frames[0], inside.0), |frames| - 1, inside.1);
  }

  /** Whatever the depth: if no exception is thrown, every function returns, every finally block runs once, nothing is
      caught and nothing is deleted. */
  lemma {:induction false} NestedReturns(frames: seq<Frame>)
    requires forall k :: 0 <= k < |frames| ==> Generated(frames[k])
    ensures var (outcome, trace) := Execute(frames, Normally);
            && outcome == Normally
            && (forall frame: nat :: Count(trace, At(frame, Finally)) == if frame < |frames| then 1 else 0)
            && forall ev :: ev in trace ==> ReturnsWith(ev)
    decreases |frames|
  {
    hide Generated, Count, ReturnsWith;
    if frames == [] {
      NothingCounted();
    } else {
      NestedReturns(frames[1..]);
      ExecuteStep(frames, Normally);
      var trace, top := Execute(frames[1..], Normally).1, |frames| - 1;
      PassesReturning(top);
      hide Execute, Passes;
      forall frame: nat ensures Count(trace + Passes(Returned, top), At(frame, Finally)) == if frame < |frames| then 1 else 0 {
        CountAdds(trace, Passes(Returned, top), At(frame, Finally));
        PassesFinally(Returned, top, frame);
      }
    }
  }

  /** What happens in functions that are left without an exception. */
  predicate ReturnsWith(ev: Event) {
    ev.At? && (ev.mark == NoException || ev.mark == Finally || ev.mark == End)
  }

  lemma PassesReturning(top: nat)
    ensures forall ev :: ev in Passes(Returned, top) ==> ReturnsWith(ev) && ev.frame == top
  {
  }

  /** Whatever the depth and the catch lists: the exception is caught by the innermost function that lists its type, in
      its first clause for it, which is where the search phase found a handler; every function's finally block runs once;
      a caught exception is deleted once, and one that is not caught, or foreign, is not. */
  lemma {:induction false} NestedFunctions(frames: seq<Frame>, e: Exc)
    requires forall k :: 0 <= k < |frames| ==> Generated(frames[k])
    ensures SearchPhase(frames, e) == Catcher(frames, e)
    ensures Execute(frames, Unwinding(e)).0 == if Catcher(frames, e).Some? then Normally else Unwinding(e)
    ensures forall frame: nat :: Count(Execute(frames, Unwinding(e)).1, At(frame, Finally)) == if frame < |frames| then 1 else 0
    ensures forall frame: nat, clause: nat :: Count(Execute(frames, Unwinding(e)).1, At(frame, Catch(clause)))
                                   == if CaughtAt(frames, e, Catcher(frames, e), frame, clause) then 1 else 0
    ensures forall x :: Count(Execute(frames, Unwinding(e)).1, Deleted(x)) == if x == e && Catcher(frames, e).Some? then 1 else 0
    decreases |frames|
  {
    hide Generated, CaughtAt, Count, Passes;
    if frames == [] {
      NothingHappened(e);
    } else {
      NestedFunctions(frames[1..], e);
      FrameDecides(frames[0], e);
      PadIsEntered(frames[0]);
      ExecuteStep(frames, Unwinding(e));
      var inner := Execute(frames[1..], Unwinding(e));
      hide Execute, SearchPhase;
      FramePasses(frames, e, inner.1, Invoked(frames[0], inner.0));
    }
  }

  /** What the outermost function adds to the counts of what happened inside. */
  lemma FramePasses(frames: seq<Frame>, e: Exc, trace: seq<Event>, inv: Invocation)
    requires frames != [] && var rest := frames[1..];
             && (forall frame: nat :: Count(trace, At(frame, Finally)) == if frame < |rest| then 1 else 0)
             && (forall frame: nat, clause: nat :: Count(trace, At(frame, Catch(clause)))
                                       == if CaughtAt(rest, e, Catcher(rest, e), frame, clause) then 1 else 0)
             && (forall x :: Count(trace, Deleted(x)) == if x == e && Catcher(rest, e).Some? then 1 else 0)
    requires inv == if Catcher(frames[1..], e).Some? then Returned
                    else Unwound(e, if e.ours then Clause(frames[0].catches, e.typ) else 0, EXCEPTION)
    ensures var all := trace + Passes(inv, |frames| - 1);
            && (forall frame: nat :: Count(all, At(frame, Finally)) == if frame < |frames| then 1 else 0)
            && (forall frame: nat, clause: nat :: Count(all, At(frame, Catch(clause)))
                                      == if CaughtAt(frames, e, Catcher(frames, e), frame, clause) then 1 else 0)
            && (forall x :: Count(all, Deleted(x)) == if x == e && Catcher(frames, e).Some? then 1 else 0)
  {
    hide CaughtAt, Count, Passes, Catcher, Clause;
    var top, all := |frames| - 1, trace + Passes(inv, |frames| - 1);
    CatcherStep(frames, e);
    forall frame: nat ensures Count(all, At(frame, Finally)) == if frame < |frames| then 1 else 0 {
      CountAdds(trace, Passes(inv, top), At(frame, Finally));
      PassesFinally(inv, top, frame);
    }
    forall frame: nat, clause: nat
      ensures Count(all, At(frame, Catch(clause))) == if CaughtAt(frames, e, Catcher(frames, e), frame, clause) then 1 else 0
    {
      CountAdds(trace, Passes(inv, top), At(frame, Catch(clause)));
      PassesCatch(inv, top, frame, clause);
      CaughtInside(frames, e, frame, clause);
    }
    forall x ensures Count(all, Deleted(x)) == if x == e && Catcher(frames, e).Some? then 1 else 0 {
      CountAdds(trace, Passes(inv, top), Deleted(x));
      PassesDeletion(inv, top, x);
      ClauseOf(frames[0].catches, e.typ);
    }
  }

  lemma NothingCounted()
    ensures forall ev :: Count([], ev) == 0
  {
  }

  lemma NothingHappened(e: Exc)
    ensures forall ev :: Count([], ev) == 0
    ensures forall frame: nat, clause: nat :: !CaughtAt([], e, None, frame, clause)
  {
  }

  lemma PassesFinally(inv: Invocation, top: nat, frame: nat)
    ensures Count(Passes(inv, top), At(frame, Finally)) == if frame == top then 1 else 0
  {
    PassesCounted(inv, top, At(frame, Finally));
  }

  lemma PassesCatch(inv: Invocation, top: nat, frame: nat, clause: nat)
    ensures Count(Passes(inv, top), At(frame, Catch(clause)))
         == if frame == top && inv.Unwound? && inv.e.ours && inv.selector == clause + 1 then 1 else 0
  {
    PassesCounted(inv, top, At(frame, Catch(clause)));
  }

  lemma PassesDeletion(inv: Invocation, top: nat, x: Exc)
    ensures Count(Passes(inv, top), Deleted(x)) == if inv.Unwound? && inv.e.ours && inv.selector > 0 && x == inv.e then 1 else 0
  {
    PassesCounted(inv, top, Deleted(x));
  }

  function One(b: bool): nat {
    if b then 1 else 0
  }

  lemma PassesCounted(inv: Invocation, top: nat, ev: Event)
    ensures Count(Passes(inv, top), ev)
         == match inv
            case Returned => One(ev == At(top, NoException)) + One(ev == At(top, Finally)) + One(ev == At(top, End))
            case Unwound(e, selector, _) =>
              if !e.ours then One(ev == At(top, Foreign)) + One(ev == At(top, Finally))
              else if selector == 0 then One(ev == At(top, Finally))
              else One(ev == At(top, Catch(selector - 1))) + One(ev == At(top, Finally)) + One(ev == At(top, End)) + One(ev == Deleted(e))
  {
  }

  lemma CaughtInside(frames: seq<Frame>, e: Exc, frame: nat, clause: nat)
    requires frames != []
    ensures CaughtAt(frames, e, Catcher(frames, e), frame, clause)
       <==> (CaughtAt(frames[1..], e, Catcher(frames[1..], e), frame, clause)
             || (Catcher(frames[1..], e).None? && e.ours && frame == |frames| - 1 && clause + 1 == Clause(frames[0].catches, e.typ)))
    ensures Catcher(frames[1..], e).None? ==> !CaughtAt(frames[1..], e, Catcher(frames[1..], e), frame, clause)
  {
    hide Clause, Catcher;
    var rest := frames[1..];
    CatcherStep(frames, e);
    ClauseOf(frames[0].catches, e.typ);
    if frame < |rest| {
      assert rest[|rest| - 1 - frame] == frames[|frames| - 1 - frame];
    }
  }

  lemma CatcherStep(frames: seq<Frame>, e: Exc)
    requires frames != []
    ensures Catcher(frames, e) == if Catcher(frames[1..], e).Some? then Catcher(frames[1..], e)
                                  else if e.ours && e.typ in frames[0].catches then Some(|frames| - 1) else None
  {
  }

  lemma ClauseOf(catches: seq<int>, typ: int)
    ensures Clause(catches, typ) > 0 <==> typ in catches
  {
  }

  lemma LeavesBy(frames: seq<Frame>, e: Exc)
    requires forall k :: 0 <= k < |frames| ==> Generated(frames[k])
    ensures Execute(frames, Unwinding(e)).0 == if Catcher(frames, e).Some? then Normally else Unwinding(e)
  {
    hide Execute, Catcher, Generated;
    NestedFunctions(frames, e);
  }

  lemma PassesCatching(e: Exc, clause: nat, top: nat)
    requires e.ours && clause > 0
    ensures Passes(Unwound(e, clause, EXCEPTION), top) == [At(top, Catch(clause - 1))] + [At(top, Finally), At(top, End), Deleted(e)]
  {
  }

  // ----- All that happens ----------------------------------------------------------------------------

  /** Functions lo to hi - 1 return one after the other. */
  ghost function Returning(lo: nat, hi: nat): seq<Event> {
    if hi <= lo then [] else Returning(lo, hi - 1) + [At(hi - 1, NoException), At(hi - 1, Finally), At(hi - 1, End)]
  }

  /** The n innermost functions let the exception pass, one after the other. */
  ghost function LettingPass(n: nat, e: Exc): seq<Event> {
    if n == 0 then []
    else LettingPass(n - 1, e) + if e.ours then [At(n - 1, Finally)] else [At(n - 1, Foreign), At(n - 1, Finally)]
  }

  /** Without an exception all functions return, the innermost first. */
  lemma {:induction false} ReturningTrace(frames: seq<Frame>)
    requires forall k :: 0 <= k < |frames| ==> Generated(frames[k])
    ensures Execute(frames, Normally) == (Normally, Returning(0, |frames|))
  {
    if frames != [] {
      ReturningTrace(frames[1..]);
      hide Generated, Execute;
      ExecuteStep(frames, Normally);
    }
  }

  ghost predicate FirstClause(catches: seq<int>, typ: int, clause: nat) {
    clause < |catches| && catches[clause] == typ && typ !in catches[..clause]
  }

  /** All that happens in n functions: they let the exception pass, or those inside of c do, c catches it and deletes it at
      its end, and the functions outside return. */
  ghost predicate Happens(n: nat, e: Exc, c: Option<nat>, clause: nat, trace: seq<Event>) {
    match c
    case None => trace == LettingPass(n, e)
    case Some(c) => trace == LettingPass(c, e) + [At(c, Catch(clause)), At(c, Finally), At(c, End), Deleted(e)] + Returning(c + 1, n)
  }

  /** When an exception is thrown, this and nothing else happens, with the innermost function that lists the type and its
      first clause for it. */
  lemma {:induction false} ThrownTrace(frames: seq<Frame>, e: Exc) returns (clause: nat)
    requires forall k :: 0 <= k < |frames| ==> Generated(frames[k])
    ensures Happens(|frames|, e, Catcher(frames, e), clause, Execute(frames, Unwinding(e)).1)
    ensures Catcher(frames, e).Some? ==> FirstClause(frames[|frames| - 1 - Catcher(frames, e).value].catches, e.typ, clause)
  {
    hide *;
    clause := 0;
    if frames == [] {
      NothingThrown(frames, e);
    } else {
      var rest, top := frames[1..], |frames| - 1;
      clause := ThrownTrace(rest, e);
      TraceStep(frames, e);
      CatcherStep(frames, e);
      ClauseOf(frames[0].catches, e.typ);
      var trace := Execute(rest, Unwinding(e)).1;
      if Catcher(rest, e).Some? {
        var c := Catcher(rest, e).value;
        assert rest[|rest| - 1 - c] == frames[|frames| - 1 - c];
        StillReturns(top, e, c, clause, trace);
      } else if e.ours && e.typ in frames[0].catches {
        var now := Clause(frames[0].catches, e.typ) - 1;
        FirstClauseIs(frames[0].catches, e.typ);
        NowCaught(top, e, clause, now, trace);
        clause := now;
      } else {
        LetPass(top, e, clause, trace);
      }
    }
  }

  lemma NothingThrown(frames: seq<Frame>, e: Exc)
    requires frames == []
    ensures Catcher(frames, e) == None && Happens(0, e, None, 0, Execute(frames, Unwinding(e)).1)
  {
  }

  lemma FirstClauseIs(catches: seq<int>, typ: int)
    requires typ in catches
    ensures Clause(catches, typ) > 0 && FirstClause(catches, typ, Clause(catches, typ) - 1)
  {
  }

  /** What the outermost function does, once those inside have been left. */
  lemma TraceStep(frames: seq<Frame>, e: Exc)
    requires frames != [] && forall k :: 0 <= k < |frames| ==> Generated(frames[k])
    ensures var inv := if Catcher(frames[1..], e).Some? then Returned
                       else Unwound(e, if e.ours then Clause(frames[0].catches, e.typ) else 0, EXCEPTION);
            Execute(frames, Unwinding(e)).1 == Execute(frames[1..], Unwinding(e)).1 + Passes(inv, |frames| - 1)
  {
    hide Generated, Clause, Catcher, Passes, Leaves, Execute;
    ExecuteStep(frames, Unwinding(e));
    PadIsEntered(frames[0]);
    LeavesBy(frames[1..], e);
  }

  lemma StillReturns(n: nat, e: Exc, c: nat, clause: nat, trace: seq<Event>)
    requires Happens(n, e, Some(c), clause, trace) && c < n
    ensures Happens(n + 1, e, Some(c), clause, trace + Passes(Returned, n))
  {
    hide LettingPass;
    assert Returning(c + 1, n + 1) == Returning(c + 1, n) + Passes(Returned, n);
  }

  lemma NowCaught(n: nat, e: Exc, before: nat, clause: nat, trace: seq<Event>)
    requires Happens(n, e, None, before, trace) && e.ours
    ensures Happens(n + 1, e, Some(n), clause, trace + Passes(Unwound(e, clause + 1, EXCEPTION), n))
  {
    hide LettingPass;
    assert Returning(n + 1, n + 1) == [];
  }

  lemma LetPass(n: nat, e: Exc, clause: nat, trace: seq<Event>)
    requires Happens(n, e, None, clause, trace)
    ensures Happens(n + 1, e, None, clause, trace + Passes(Unwound(e, 0, EXCEPTION), n))
  {
  }

  /** The deletion comes right after the finally block of the function that caught the exception, and nothing that
      happens later has to do with the exception: the functions outside return normally. */
  lemma NothingAfterDeletion(frames: seq<Frame>, e: Exc) returns (before: seq<Event>, after: seq<Event>)
    requires (forall k :: 0 <= k < |frames| ==> Generated(frames[k])) && Catcher(frames, e).Some?
    ensures var c := Catcher(frames, e).value;
            Execute(frames, Unwinding(e)).1 == before + [At(c, Finally), At(c, End), Deleted(e)] + after
    ensures forall ev :: ev in after ==> ReturnsWith(ev) && ev.frame > Catcher(frames, e).value
  {
    hide *;
    var clause := ThrownTrace(frames, e);
    var c := Catcher(frames, e).value;
    before, after := LettingPass(c, e) + [At(c, Catch(clause))], Returning(c + 1, |frames|);
    ReturningReturns(c + 1, |frames|);
    DeletedLast(|frames|, e, c, clause, Execute(frames, Unwinding(e)).1);
  }

  lemma DeletedLast(n: nat, e: Exc, c: nat, clause: nat, trace: seq<Event>)
    requires Happens(n, e, Some(c), clause, trace)
    ensures trace == LettingPass(c, e) + [At(c, Catch(clause))] + [At(c, Finally), At(c, End), Deleted(e)] + Returning(c + 1, n)
  {
    hide LettingPass, Returning;
    assert LettingPass(c, e) + [At(c, Catch(clause)), At(c, Finally), At(c, End), Deleted(e)]
        == LettingPass(c, e) + [At(c, Catch(clause))] + [At(c, Finally), At(c, End), Deleted(e)];
  }

  lemma {:induction false} ReturningReturns(lo: nat, hi: nat)
    ensures forall ev :: ev in Returning(lo, hi) ==> ReturnsWith(ev) && lo <= ev.frame < hi
  {
    if lo < hi {
      ReturningReturns(lo, hi - 1);
    }
  }
}
