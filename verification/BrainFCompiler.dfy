/** The BrainF compiler: a reader with one symbol of lookahead that folds series of moves and
    changes, and emits basic blocks while it reads, calling itself for each loop. */
module BrainFCompiler {
  import opened Wrappers
  import opened BrainFLang
  import opened BrainFIR
  import opened BrainFTranslation
  import opened BrainFSsa
  import opened BrainFProgress
  import opened BrainFEmission

  datatype Symbol = SymNone | SymRead | SymWrite | SymMove | SymChange | SymLoop | SymEndLoop | SymEof

  function SymbolOf(c: char): Symbol {
    if IsMove(c) then SymMove
    else if IsChange(c) then SymChange
    else if c == ',' then SymRead
    else if c == '.' then SymWrite
    else if c == '[' then SymLoop
    else if c == ']' then SymEndLoop
    else SymNone
  }

  predicate IsSeries(sym: Symbol) {
    sym.SymMove? || sym.SymChange?
  }

  /** sym is what has been read ahead, with pc the text position of the first character that
      is not translated yet and pos the position of the first one not read yet. */
  predicate Ahead(s: string, pc: nat, pos: nat, sym: Symbol, value: int) {
    && pc <= pos <= |s|
    && if sym.SymNone? then pos == pc
       else if sym.SymEof? then pc == pos == |s|
       else pos == pc + 1 && IsCommand(s[pc]) && sym == SymbolOf(s[pc]) && (IsSeries(sym) ==> value == Direction(s[pc]))
  }

  /** sym is the next symbol after pc, a whole series with its sum, and what was read beyond it is nextsym. */
  predicate Lexed(s: string, pc: nat, pos: nat, sym: Symbol, value: int, nextsym: Symbol, nextvalue: int) {
    && pc <= |s| && pos <= |s|
    && var q := NextCmd(s, pc);
    && if sym.SymEof? then q == pos == |s| && nextsym.SymNone?
       else
         && q < |s| && sym == SymbolOf(s[q])
         && if IsSeries(sym) then
              var e := RunEnd(s, q, sym.SymMove?);
              value == RunSum(s, q, e, sym.SymMove?) && !nextsym.SymNone? && Ahead(s, e, pos, nextsym, nextvalue)
            else pos == q + 1 && nextsym.SymNone?
  }

  /** Where the next symbol after pc stops. */
  function After(s: string, pc: nat): (e: nat)
    requires pc <= |s|
    ensures pc <= e <= |s| && (NextCmd(s, pc) < |s| ==> pc < e)
  {
    var q := NextCmd(s, pc);
    if q == |s| then q
    else if IsMove(s[q]) then (assert InRun(s[q], true); RunEnd(s, q + 1, true))
    else if IsChange(s[q]) then (assert InRun(s[q], false); RunEnd(s, q + 1, false))
    else q + 1
  }

  /** Part of the next symbol after pc has been read, up to pos. */
  predicate Reading(s: string, pc: nat, pos: nat, sym: Symbol, value: int) {
    && pc <= pos <= |s|
    && if sym.SymNone? then forall k :: pc <= k < pos ==> !IsCommand(s[k])
       else
         && IsSeries(sym)
         && var q := NextCmd(s, pc);
         && q < pos && SymbolOf(s[q]) == sym
         && (forall k :: q <= k < pos ==> InRun(s[k], sym.SymMove?) || !IsCommand(s[k]))
         && value == RunSum(s, q, pos, sym.SymMove?)
  }

  lemma {:induction false} NextCmdIs(s: string, p: nat, q: nat)
    requires p <= q <= |s| && (q < |s| ==> IsCommand(s[q]))
    requires forall k :: p <= k < q ==> !IsCommand(s[k])
    ensures NextCmd(s, p) == q
    decreases q - p
  {
    if p < q {
      NextCmdIs(s, p + 1, q);
    }
  }

  lemma {:induction false} RunEndIs(s: string, p: nat, e: nat, moves: bool)
    requires p <= e <= |s| && (e < |s| ==> IsCommand(s[e]) && !InRun(s[e], moves))
    requires forall k :: p <= k < e ==> InRun(s[k], moves) || !IsCommand(s[k])
    ensures RunEnd(s, p, moves) == e
    decreases e - p
  {
    if p < e {
      RunEndIs(s, p + 1, e, moves);
    }
  }

  /** A character that belongs to the series, or starts it, or is a comment, is taken in. */
  lemma ReadOn(s: string, pc: nat, pos: nat, sym: Symbol, value: int, sym': Symbol, value': int)
    requires Reading(s, pc, pos, sym, value) && pos < |s|
    requires
      || (!IsCommand(s[pos]) && sym' == sym && value' == value)
      || (IsSeries(SymbolOf(s[pos])) && sym' == SymbolOf(s[pos])
          && (sym.SymNone? || sym == sym') && value' == (if sym.SymNone? then 0 else value) + Direction(s[pos]))
    ensures Reading(s, pc, pos + 1, sym', value')
  {
    if sym.SymNone? {
      if IsCommand(s[pos]) {
        NextCmdIs(s, pc, pos);
        RunSumOne(s, pos, sym'.SymMove?);
      }
    } else {
      var q := NextCmd(s, pc);
      assert RunSum(s, q, pos + 1, sym.SymMove?)
          == RunSum(s, q, pos, sym.SymMove?) + (if InRun(s[pos], sym.SymMove?) then Direction(s[pos]) else 0);
    }
  }

  lemma RunSumOne(s: string, p: nat, moves: bool)
    requires p < |s| && InRun(s[p], moves)
    ensures RunSum(s, p, p + 1, moves) == Direction(s[p])
  {
    assert RunSum(s, p, p, moves) == 0;
  }

  /** The end of the text, or a command of another kind, completes the symbol. */
  lemma ReadEnds(s: string, pc: nat, pos: nat, sym: Symbol, value: int, nextvalue: int)
    requires Reading(s, pc, pos, sym, value) && IsSeries(sym)
    requires pos < |s| ==> IsCommand(s[pos]) && SymbolOf(s[pos]) != sym
    requires pos < |s| && IsSeries(SymbolOf(s[pos])) ==> nextvalue == Direction(s[pos])
    ensures if pos == |s| then Lexed(s, pc, pos, sym, value, SymEof, nextvalue)
            else Lexed(s, pc, pos + 1, sym, value, SymbolOf(s[pos]), nextvalue)
  {
    RunEndIs(s, NextCmd(s, pc), pos, sym.SymMove?);
  }

  lemma ReadOne(s: string, pc: nat, pos: nat, value: int, nextvalue: int)
    requires Reading(s, pc, pos, SymNone, value)
    requires pos < |s| ==> IsCommand(s[pos]) && !IsSeries(SymbolOf(s[pos]))
    ensures if pos == |s| then Lexed(s, pc, pos, SymEof, value, SymNone, nextvalue)
            else Lexed(s, pc, pos + 1, SymbolOf(s[pos]), value, SymNone, nextvalue)
  {
    NextCmdIs(s, pc, pos);
  }

  lemma AppendThree(m: Module, l: Label, a: Instr, b: Instr, c: Instr)
    requires l < |m|
    ensures AppendAll(m, l, [a, b, c]) == Append(Append(Append(m, l, a), l, b), l, c)
  {
    AppendAllShape(m, l, [a, b, c]);
    assert m[l].body + [a] + [b] + [c] == m[l].body + [a, b, c];
  }

  class BrainF {
    const src: string
    const opts: Options
    var pos: nat              // how far the input is read
    var blocks: Module
    var cur: Label            // where the builder inserts
    var curhead: Reg          // holds the head at the insertion point
    var nextReg: Reg
    var endbb: Label
    var aberrorbb: Label

    ghost var lay: Layout
    ghost var avail: seq<set<Reg>>
    ghost var open: set<nat>  // positions of the brackets whose loops are being compiled

    ghost predicate Inv(pc: nat)
      reads `blocks, `avail, `lay, `open, `cur, `curhead, `nextReg, `endbb, `aberrorbb
    {
      && Sound(blocks, avail, src, opts, lay, open, pc, cur, curhead, nextReg)
      && lay.end == endbb && lay.err == aberrorbb
    }

    /** Sets up the tape and the blocks that every compiled program has. */
    constructor (source: string, o: Options)
      ensures src == source && opts == o && pos == 0 && open == {} && lay.loops == map[]
      ensures Inv(0)
    {
      src, opts, pos := source, o, 0;
      cur, curhead, nextReg := 0, HeadReg(o), HeadReg(o) + 1;
      endbb, aberrorbb := 1, 2;
      blocks := [Block(None, HeaderCode(o), NoTerm), Block(None, [Free(ARR)], Ret)]
                + (if o.checked then [Block(None, [PutsError], Br(1))] else []);
      avail := StartAvail(o);
      lay := StartLayout(o);
      open := {};
      new;
      HeaderIsSound(src, opts);
    }

    method Insert(i: Instr)
      requires cur < |blocks|
      modifies `blocks, `nextReg
      ensures blocks == Append(old(blocks), cur, i) && |blocks| == |old(blocks)| && nextReg == old(nextReg) + |Defs(i)|
    {
      blocks := blocks[cur := blocks[cur].(body := blocks[cur].body + [i])];
      nextReg := nextReg + |Defs(i)|;
    }

    /** Reads up to the end of the next symbol, and one symbol further behind a series. */
    method NextSymbol(sym: Symbol, value: int, ghost pc: nat)
      returns (cursym: Symbol, curvalue: int, nextsym: Symbol, nextvalue: int)
      requires Ahead(src, pc, pos, sym, value)
      modifies `pos
      ensures old(pos) <= pos <= |src|
      ensures Lexed(src, pc, pos, cursym, curvalue, nextsym, nextvalue)
    {
      cursym, curvalue, nextsym, nextvalue := sym, value, SymNone, 0;
      var loop := cursym.SymNone? || cursym.SymMove? || cursym.SymChange?;
      FirstSymbol(src, pc, pos, sym, value);
      hide Lexed, Ahead;
      assert loop ==> Reading(src, pc, pos, cursym, curvalue);
      hide Reading, IsCommand, SymbolOf, Direction;
      while loop
        invariant old(pos) <= pos <= |src|
        invariant loop ==> nextsym.SymNone? && (cursym.SymNone? || IsSeries(cursym)) && Reading(src, pc, pos, cursym, curvalue)
        invariant !loop ==> Lexed(src, pc, pos, cursym, curvalue, nextsym, nextvalue)
        decreases |src| - pos + (if loop then 1 else 0)
      {
        if pos == |src| {
          if cursym.SymNone? {
            cursym := SymEof;
            ReadOne(src, pc, pos, curvalue, nextvalue);
          } else {
            nextsym := SymEof;
            ReadEnds(src, pc, pos, cursym, curvalue, nextvalue);
          }
          loop := false;
        } else {
          cursym, curvalue, nextsym, nextvalue, loop := TakeChar(src[pos], cursym, curvalue, nextvalue, src, pc, pos);
          pos := pos + 1;
        }
      }
    }

    method EmitRead(ghost pc: nat)
      requires Inv(pc) && pc <= |src| && NextCmd(src, pc) < |src| && src[NextCmd(src, pc)] == ','
      modifies `blocks, `nextReg, `lay
      ensures Inv(After(src, pc)) && lay.loops == old(lay.loops)
    {
      hide Sound, RunEnd, RunSum;
      ghost var q, m := NextCmd(src, pc), blocks;
      ReadKeeps(m, avail, src, opts, lay, open, pc, cur, curhead, nextReg, q);
      SoundCur(m, avail, src, opts, lay, open, pc, cur, curhead, nextReg);
      var tape0 := nextReg;
      Insert(GetCharI32(tape0));
      var tape1 := nextReg;
      Insert(Trunc(tape1, tape0));
      Insert(Store(tape1, curhead));
      AppendThree(m, cur, GetCharI32(tape0), Trunc(tape1, tape0), Store(tape1, curhead));
      lay := At(lay, q + 1, Point(cur, |m[cur].body| + 3, curhead, nextReg));
    }

    method EmitWrite(ghost pc: nat)
      requires Inv(pc) && pc <= |src| && NextCmd(src, pc) < |src| && src[NextCmd(src, pc)] == '.'
      modifies `blocks, `nextReg, `lay
      ensures Inv(After(src, pc)) && lay.loops == old(lay.loops)
    {
      hide Sound, RunEnd, RunSum;
      ghost var q, m := NextCmd(src, pc), blocks;
      WriteKeeps(m, avail, src, opts, lay, open, pc, cur, curhead, nextReg, q);
      SoundCur(m, avail, src, opts, lay, open, pc, cur, curhead, nextReg);
      var tape0 := nextReg;
      Insert(Load(tape0, curhead));
      var tape1 := nextReg;
      Insert(SExt(tape1, tape0));
      Insert(PutCharI32(tape1));
      AppendThree(m, cur, Load(tape0, curhead), SExt(tape1, tape0), PutCharI32(tape1));
      lay := At(lay, q + 1, Point(cur, |m[cur].body| + 3, curhead, nextReg));
    }

    method EmitChange(curvalue: int, ghost pc: nat)
      requires Inv(pc) && pc <= |src| && NextCmd(src, pc) < |src| && IsChange(src[NextCmd(src, pc)])
      requires curvalue == RunSum(src, NextCmd(src, pc), After(src, pc), false)
      modifies `blocks, `nextReg, `lay
      ensures Inv(After(src, pc)) && lay.loops == old(lay.loops)
    {
      hide Sound, RunEnd, RunSum;
      ghost var q, m, e := NextCmd(src, pc), blocks, After(src, pc);
      AfterSeries(src, pc);
      ChangeKeeps(m, avail, src, opts, lay, open, pc, cur, curhead, nextReg, q, e, curvalue);
      SoundCur(m, avail, src, opts, lay, open, pc, cur, curhead, nextReg);
      var tape0 := nextReg;
      Insert(Load(tape0, curhead));
      var tape1 := nextReg;
      Insert(AddI8(tape1, tape0, curvalue));
      Insert(Store(tape1, curhead));
      AppendThree(m, cur, Load(tape0, curhead), AddI8(tape1, tape0, curvalue), Store(tape1, curhead));
      lay := At(lay, e, Point(cur, |m[cur].body| + 3, curhead, nextReg));
    }

    method EmitMove(curvalue: int, ghost pc: nat)
      requires Inv(pc) && pc <= |src| && NextCmd(src, pc) < |src| && IsMove(src[NextCmd(src, pc)])
      requires curvalue == RunSum(src, NextCmd(src, pc), After(src, pc), true)
      modifies `blocks, `nextReg, `lay, `cur, `curhead, `avail
      ensures Inv(After(src, pc)) && lay.loops == old(lay.loops) && old(avail) <= avail
    {
      hide Sound, RunEnd, RunSum;
      if opts.checked {
        EmitCheckedMove(curvalue, pc);
      } else {
        ghost var q, m, e, h := NextCmd(src, pc), blocks, After(src, pc), curhead;
        AfterSeries(src, pc);
        SoundCur(m, avail, src, opts, lay, open, pc, cur, curhead, nextReg);
        PlainMoveKeeps(m, avail, src, opts, lay, open, pc, cur, curhead, nextReg, q, e, curvalue);
        var f := nextReg;
        Insert(Gep(f, curhead, curvalue));
        curhead := f;
        AppendOne(m, cur, Gep(f, h, curvalue));
        lay := At(lay, e, Point(cur, |m[cur].body| + 1, curhead, nextReg));
      }
    }

    /** With checking on, code that has left the tape goes to the error block. */
    method EmitCheckedMove(curvalue: int, ghost pc: nat)
      requires opts.checked
      requires Inv(pc) && pc <= |src| && NextCmd(src, pc) < |src| && IsMove(src[NextCmd(src, pc)])
      requires curvalue == RunSum(src, NextCmd(src, pc), After(src, pc), true)
      modifies `blocks, `nextReg, `lay, `cur, `curhead, `avail
      ensures Inv(After(src, pc)) && lay.loops == old(lay.loops) && old(avail) <= avail
    {
      hide *;
      InvMeans(pc);
      ghost var m, h := blocks, curhead;
      ghost var before, e := CheckedMoveSound(m, avail, src, opts, lay, open, pc, cur, curhead, nextReg, curvalue);
      var f := nextReg;
      MoveDefines(f, curhead, curvalue);
      Insert(Gep(f, curhead, curvalue));
      curhead := f;
      var test0 := nextReg;
      Insert(CmpUGE(test0, curhead, ARRMAX));
      var test1 := nextReg;
      Insert(CmpULT(test1, curhead, ARR));
      var test2 := nextReg;
      Insert(OrI1(test2, test0, test1));
      AppendMove(m, opts, cur, h, f, curvalue);
      var nextbb := |blocks|;
      CheckWritten(m, blocks, opts, lay, cur, h, f, curvalue);
      blocks := blocks + [Block(None, [], NoTerm)];
      blocks := blocks[cur := blocks[cur].(term := CondBr(test2, aberrorbb, nextbb))];
      cur := nextbb;
      avail := avail + [before];
      lay := At(lay, e, Point(cur, 0, curhead, nextReg));
      InvHolds(e);
    }

    lemma InvMeans(pc: nat)
      requires Inv(pc)
      ensures Sound(blocks, avail, src, opts, lay, open, pc, cur, curhead, nextReg)
      ensures lay.end == endbb && lay.err == aberrorbb && cur < |blocks|
    {
    }

    lemma InvHolds(pc: nat)
      requires Sound(blocks, avail, src, opts, lay, open, pc, cur, curhead, nextReg)
      requires lay.end == endbb && lay.err == aberrorbb
      ensures Inv(pc)
    {
    }

    /** Branches to a new test block, whose phi is completed when the loop is closed. */
    method BeginLoop(ghost pc: nat) returns (phi: Reg, oldbb: Label, testbb: Label)
      requires Inv(pc) && pc <= |src| && NextCmd(src, pc) < |src| && src[NextCmd(src, pc)] == '['
      modifies `blocks, `nextReg, `lay, `cur, `curhead, `avail, `open
      ensures Inv(After(src, pc)) && old(avail) <= avail
      ensures var i := NextCmd(src, pc);
              && i !in old(open) && open == old(open) + {i}
              && lay.loops == old(lay.loops)[i := Loop(testbb, oldbb, phi)]
              && i !in old(lay.loops) && testbb < |avail|
      ensures forall k :: k in open ==> k in lay.loops && lay.loops[k].test < |avail| && avail[lay.loops[k].test] <= avail[testbb]
    {
      hide Sound, RunEnd, RunSum;
      ghost var q, m := NextCmd(src, pc), blocks;
      SoundCur(m, avail, src, opts, lay, open, pc, cur, curhead, nextReg);
      ghost var avail' := OpenKeeps(m, avail, src, opts, lay, open, pc, cur, curhead, nextReg, q);
      testbb := |blocks|;
      phi := nextReg;
      var bb0 := cur;
      blocks := blocks[bb0 := blocks[bb0].(term := Br(testbb))] + [Block(Some(Phi(phi, [(bb0, curhead)])), [], NoTerm)];
      oldbb := |blocks|;
      blocks := blocks + [Block(None, [], NoTerm)];
      nextReg := nextReg + 1;
      cur, curhead := oldbb, phi;
      lay := WithLoopLayout(m, lay, q, phi);
      open, avail := open + {q}, avail';
    }

    /** Completes the test of the loop that opened at i: jump back, compare, leave or go round. */
    method FinishLoop(phi: Reg, oldbb: Label, testbb: Label, ghost pc: nat, ghost i: nat)
      requires Inv(pc) && pc <= |src| && NextCmd(src, pc) < |src| && src[NextCmd(src, pc)] == ']'
      requires i in open && i in lay.loops && lay.loops[i] == Loop(testbb, oldbb, phi) && testbb < |avail|
      requires OpenOf(src, NextCmd(src, pc), 0) == i && CloseOf(src, i + 1, 0) == NextCmd(src, pc)
      requires forall k :: k in open ==> k in lay.loops && lay.loops[k].test < |avail| && avail[lay.loops[k].test] <= avail[testbb]
      modifies `blocks, `nextReg, `lay, `cur, `curhead, `avail, `open
      ensures Inv(After(src, pc)) && old(avail) <= avail && open == old(open) - {i} && lay.loops == old(lay.loops)
    {
      hide Sound, RunEnd, RunSum;
      ghost var q, m, lp := NextCmd(src, pc), blocks, lay.loops[i];
      SoundCur(m, avail, src, opts, lay, open, pc, cur, curhead, nextReg);
      ghost var avail' := CloseKeeps(m, avail, src, opts, lay, open, pc, cur, curhead, nextReg, q, i);
      blocks := blocks[cur := blocks[cur].(term := Br(testbb))];
      var head0 := blocks[testbb].phi.value;
      blocks := blocks[testbb := blocks[testbb].(phi := Some(Phi(head0.r, head0.incoming + [(cur, curhead)])))];
      var tape0 := nextReg;
      blocks := blocks[testbb := blocks[testbb].(body := blocks[testbb].body + [Load(tape0, phi)])];
      var test0 := nextReg + 1;
      blocks := blocks[testbb := blocks[testbb].(body := blocks[testbb].body + [CmpZero(test0, tape0)])];
      var bb0 := |blocks|;
      blocks := blocks[testbb := blocks[testbb].(term := CondBr(test0, bb0, oldbb))];
      var phi1 := nextReg + 2;
      blocks := blocks + [Block(Some(Phi(phi1, [(testbb, phi)])), [], NoTerm)];
      assert blocks == WithTest(m, cur, curhead, tape0, lp);
      nextReg := nextReg + 3;
      cur, curhead := bb0, phi1;
      lay := At(lay, q + 1, Point(cur, 0, curhead, nextReg));
      open, avail := open - {i}, avail';
    }

    /** Writes out a command that is neither a loop nor the end of one. */
    method WriteCommand(cursym: Symbol, curvalue: int, ghost pc: nat, nextsym: Symbol, nextvalue: int)
      requires Inv(pc) && Lexed(src, pc, pos, cursym, curvalue, nextsym, nextvalue)
      requires cursym.SymRead? || cursym.SymWrite? || IsSeries(cursym)
      modifies `blocks, `nextReg, `lay, `cur, `curhead, `avail
      ensures Inv(After(src, pc)) && lay.loops == old(lay.loops) && old(avail) <= avail
      ensures Ahead(src, After(src, pc), pos, nextsym, nextvalue)
    {
      LexedMeans(src, pc, pos, cursym, curvalue, nextsym, nextvalue);
      hide Lexed, Inv, Sound, RunSum, RunEnd, Ahead, After, NextCmd;
      match cursym
      case SymRead => EmitRead(pc);
      case SymWrite => EmitWrite(pc);
      case SymMove => EmitMove(curvalue, pc);
      case SymChange => EmitChange(curvalue, pc);
    }

    /** Compiles the loop that opens next, with everything inside it. */
    method NestedLoop(ghost pc: nat, ghost a: nat, ghost value: int, nextsym: Symbol, nextvalue: int)
      returns (ghost pc': nat, ok: bool)
      requires Inv(pc) && Lexed(src, pc, pos, SymLoop, value, nextsym, nextvalue) && Level(src, a, pc)
      modifies this
      ensures !ok ==> !Balanced(src)
      ensures ok ==> Inv(pc') && pc < pc' && Level(src, a, pc') && Ahead(src, pc', pos, nextsym, nextvalue)
      ensures ok ==> open == old(open) && old(avail) <= avail && SameLoops(open, old(lay), lay)
      decreases |src| - pos, 1
    {
      hide Inv, Lexed, Level, Closed, RunSum, RunEnd, Balanced;
      LexedMeans(src, pc, pos, SymLoop, value, nextsym, nextvalue);
      LevelIn(src, a, pc);
      pc' := pc;
      ghost var i := NextCmd(src, pc);
      var phi, oldbb, testbb := BeginLoop(pc);
      ok := Readloop(Some(phi), oldbb, testbb);
      if ok {
        LevelOut(src, a, pc, pos);
        NothingAhead(src, pos, nextvalue);
        pc' := pos;
      }
    }

    /** Writes out the symbol that has been read, a loop with everything inside it. */
    method WriteOut(cursym: Symbol, curvalue: int, ghost pc: nat, ghost a: nat, nextsym: Symbol, nextvalue: int)
      returns (ghost pc': nat, ok: bool)
      requires Inv(pc) && Lexed(src, pc, pos, cursym, curvalue, nextsym, nextvalue) && Level(src, a, pc)
      requires cursym != SymEof && cursym != SymEndLoop && open <= lay.loops.Keys
      modifies this
      ensures !ok ==> !Balanced(src)
      ensures ok ==> Inv(pc') && pc < pc' && Level(src, a, pc') && Ahead(src, pc', pos, nextsym, nextvalue)
      ensures ok ==> open == old(open) && old(avail) <= avail && SameLoops(open, old(lay), lay)
      decreases |src| - pos, 2
    {
      hide Sound, Lexed, Level, Closed, RunSum, RunEnd, Balanced, After, Ahead;
      LexedMeans(src, pc, pos, cursym, curvalue, nextsym, nextvalue);
      if cursym == SymLoop {
        pc', ok := NestedLoop(pc, a, curvalue, nextsym, nextvalue);
      } else {
        ok := true;
        WriteCommand(cursym, curvalue, pc, nextsym, nextvalue);
        LevelOn(src, a, pc);
        pc' := After(src, pc);
      }
    }

    /** Compiles from where the input stands, the start of the program or of the body of a loop, up
        to the end of it. Stops with ok false, where the source calls abort, when brackets do not match. */
    method Readloop(phi: Option<Reg>, oldbb: Label, testbb: Label) returns (ok: bool)
      requires Inv(pos) && LoopOfCall(lay, open, avail, phi, oldbb, testbb, pos)
      requires Level(src, pos, pos) && (Depth(src, pos) > 0 <==> phi.Some?)
      modifies this
      ensures !ok ==> !Balanced(src)
      ensures ok && phi.None? ==> Balanced(src) && Translates(blocks, src, opts, lay) && WellFormed(blocks) && PhisSized(blocks)
      ensures ok && phi.Some? ==> Inv(pos) && Closed(src, old(pos), pos) && open == old(open) - {old(pos) - 1}
      ensures ok && phi.Some? ==> old(avail) <= avail && SameLoops(open, old(lay), lay)
      decreases |src| - pos, 0
    {
      hide Sound, Lexed, Ahead, Level, Closed, After, Balanced, NextCmd, LoopOfCall, SameLoops;
      LevelBound(src, pos, pos);
      SoundCur(blocks, avail, src, opts, lay, open, pos, cur, curhead, nextReg);
      SameLoopsSelf(open, lay);
      ghost var a, pc := pos, pos;
      var cursym, curvalue, nextsym, nextvalue := SymNone, 0, SymNone, 0;
      while cursym != SymEof && cursym != SymEndLoop
        invariant Inv(pc) && LoopOfCall(lay, open, avail, phi, oldbb, testbb, a) && Level(src, a, pc)
        invariant open == old(open) && old(avail) <= avail && SameLoops(open, old(lay), lay) && open <= lay.loops.Keys
        invariant if cursym.SymNone? then nextsym.SymNone? && pos == pc == a
                  else Lexed(src, pc, pos, cursym, curvalue, nextsym, nextvalue)
        invariant a <= pc <= |src|
        invariant cursym.SymEof? ==> NextCmd(src, pc) == |src|
        invariant !cursym.SymNone? && !cursym.SymEof? ==> a <= pc < pos <= |src|
        decreases |src| - pc, if cursym.SymNone? then 1 else 0
      {
        if cursym == SymNone {
          NothingAhead(src, pc, nextvalue);
        } else {
          ghost var lay0, avail0 := lay, avail;
          pc, ok := WriteOut(cursym, curvalue, pc, a, nextsym, nextvalue);
          if !ok {
            return;
          }
          LevelBound(src, a, pc);
          LoopOfCallStays(lay0, lay, open, avail0, avail, phi, oldbb, testbb, a);
          SameLoopsTwice(open, old(lay), lay0, lay);
        }
        cursym, curvalue, nextsym, nextvalue := NextSymbol(nextsym, nextvalue, pc);
        LexedIsSymbol(src, pc, pos, cursym, curvalue, nextsym, nextvalue);
      }
      if cursym == SymEndLoop {
        ghost var lay0, open0 := lay, open;
        ok := EndLoop(phi, oldbb, testbb, pc, a, nextsym, curvalue, nextvalue);
        if ok {
          SameLoopsLess(open0, open, old(lay), lay0, lay);
        }
      } else {
        OutermostCall(lay, open, avail, phi, oldbb, testbb, a);
        ok := EndProgram(phi, pc, a);
      }
    }

    /** A closing bracket: ends the loop of this call, or has no partner. */
    method EndLoop(phi: Option<Reg>, oldbb: Label, testbb: Label, ghost pc: nat, ghost a: nat,
                   ghost nextsym: Symbol, ghost value: int, ghost nextvalue: int) returns (ok: bool)
      requires Inv(pc) && LoopOfCall(lay, open, avail, phi, oldbb, testbb, a) && Level(src, a, pc)
      requires Depth(src, a) > 0 <==> phi.Some?
      requires Lexed(src, pc, pos, SymEndLoop, value, nextsym, nextvalue)
      modifies `blocks, `nextReg, `lay, `cur, `curhead, `avail, `open
      ensures ok <==> phi.Some?
      ensures !ok ==> !Balanced(src)
      ensures ok ==> Inv(pos) && Closed(src, a, pos) && open == old(open) - {a - 1}
      ensures ok ==> old(avail) <= avail && lay.loops == old(lay.loops)
    {
      hide Sound, Lexed, Level, Closed, RunSum, RunEnd, Balanced, OpenOf, CloseOf;
      LexedMeans(src, pc, pos, SymEndLoop, value, nextsym, nextvalue);
      LevelEnds(src, a, pc);
      ok := phi.Some?;
      if ok {
        SoundOpens(blocks, avail, src, opts, lay, open, pc, cur, curhead, nextReg, a - 1);
        BracketsMeet(src, a, pc);
        FinishLoop(phi.value, oldbb, testbb, pc, a - 1);
      }
    }

    /** The end of the text: on to the last block, unless a loop is still open. */
    method EndProgram(phi: Option<Reg>, ghost pc: nat, ghost a: nat) returns (ok: bool)
      requires Inv(pc) && pc <= |src| && NextCmd(src, pc) == |src| && Level(src, a, pc)
      requires phi.None? ==> open == {}
      requires Depth(src, a) > 0 <==> phi.Some?
      modifies `blocks
      ensures ok <==> phi.None?
      ensures !ok ==> !Balanced(src)
      ensures ok ==> Balanced(src) && Translates(blocks, src, opts, lay) && WellFormed(blocks) && PhisSized(blocks)
    {
      LevelEnds(src, a, pc);
      ok := phi.None?;
      ghost var m := blocks;
      if ok {
        FinishKeeps(m, avail, src, opts, lay, pc, cur, curhead, nextReg);
      }
      SoundCur(m, avail, src, opts, lay, open, pc, cur, curhead, nextReg);
      hide Sound;
      blocks := blocks[cur := blocks[cur].(term := Br(endbb))];
    }
  }

  /** Compiles a program. The source aborts where this gives None. */
  method Parse(source: string, o: Options) returns (r: Option<Module>)
    ensures r.Some? <==> Balanced(source)
    ensures r.Some? ==> WellFormed(r.value) && PhisSized(r.value) && forall w :: Fits(o, w) ==> SameBehaviour(r.value, source, o, w)
  {
    var brainf := new BrainF(source, o);
    assert Level(source, 0, 0);
    var ok := brainf.Readloop(None, 0, 0);
    if ok {
      forall w | Fits(o, w) ensures SameBehaviour(brainf.blocks, source, o, w) {
        TranslationPreservesMeaning(brainf.blocks, source, o, w, brainf.lay);
      }
      return Some(brainf.blocks);
    }
    return None;
  }

  /** What one character does to the symbol under construction. */
  method TakeChar(c: char, sym: Symbol, value: int, nextvalue0: int, ghost s: string, ghost pc: nat, ghost pos: nat)
    returns (cursym: Symbol, curvalue: int, nextsym: Symbol, nextvalue: int, loop: bool)
    requires pos < |s| && s[pos] == c && (sym.SymNone? || IsSeries(sym)) && Reading(s, pc, pos, sym, value)
    ensures loop ==> nextsym.SymNone? && (cursym.SymNone? || IsSeries(cursym)) && Reading(s, pc, pos + 1, cursym, curvalue)
    ensures !loop ==> Lexed(s, pc, pos + 1, cursym, curvalue, nextsym, nextvalue)
  {
    hide Reading, IsCommand, SymbolOf, Direction, Lexed;
    CharKinds(c);
    cursym, curvalue, nextsym, nextvalue, loop := sym, value, SymNone, nextvalue0, true;
    var direction := if c == '-' || c == '<' then -1 else 1;
    if IsChange(c) || IsMove(c) {
      var kind := if IsChange(c) then SymChange else SymMove;
      if cursym == kind {
        curvalue := curvalue + direction;
        ReadOn(s, pc, pos, sym, value, cursym, curvalue);
      } else if cursym.SymNone? {
        cursym, curvalue := kind, direction;
        ReadOn(s, pc, pos, sym, value, cursym, curvalue);
      } else {
        nextsym, nextvalue, loop := kind, direction, false;
        ReadEnds(s, pc, pos, cursym, curvalue, nextvalue);
      }
    } else if c == ',' || c == '.' || c == '[' || c == ']' {
      var kind := if c == ',' then SymRead else if c == '.' then SymWrite else if c == '[' then SymLoop else SymEndLoop;
      loop := false;
      if cursym.SymNone? {
        cursym := kind;
        ReadOne(s, pc, pos, curvalue, nextvalue);
      } else {
        nextsym := kind;
        ReadEnds(s, pc, pos, cursym, curvalue, nextvalue);
      }
    } else {
      ReadOn(s, pc, pos, sym, value, cursym, curvalue);
    }
  }

  lemma CharKinds(c: char)
    ensures IsChange(c) ==> SymbolOf(c) == SymChange
    ensures IsMove(c) ==> SymbolOf(c) == SymMove
    ensures SymbolOf(c) == if IsMove(c) then SymMove else if IsChange(c) then SymChange else if c == ',' then SymRead
                           else if c == '.' then SymWrite else if c == '[' then SymLoop else if c == ']' then SymEndLoop
                           else SymNone
    ensures IsCommand(c) <==> !SymbolOf(c).SymNone?
    ensures Direction(c) == if c == '-' || c == '<' then -1 else 1
  {
  }

  lemma FirstSymbol(s: string, pc: nat, pos: nat, sym: Symbol, value: int)
    requires Ahead(s, pc, pos, sym, value)
    ensures if sym.SymNone? || IsSeries(sym) then Reading(s, pc, pos, sym, value)
            else Lexed(s, pc, pos, sym, value, SymNone, 0)
  {
    if sym.SymEof? || !sym.SymNone? {
      NextCmdIs(s, pc, pc);
    }
    if IsSeries(sym) {
      RunSumOne(s, pc, sym.SymMove?);
    }
  }

  function StartBlocks(o: Options, code: seq<Instr>): Module {
    [Block(None, code, NoTerm), Block(None, [Free(ARR)], Ret)]
    + (if o.checked then [Block(None, [PutsError], Br(1))] else [])
  }

  ghost function StartAvail(o: Options): seq<set<Reg>> {
    [{}, {ARR}] + (if o.checked then [{ARR}] else [])
  }

  function StartLayout(o: Options): Layout {
    Layout(map[0 := Point(0, |HeaderCode(o)|, HeadReg(o), HeadReg(o) + 1)], map[], 1, 2)
  }

  lemma EmptyStartIsSsa(o: Options)
    ensures Ssa(StartBlocks(o, []), StartAvail(o), 0)
    ensures Known(StartBlocks(o, []), StartAvail(o), 0) == {}
  {
    var m := StartBlocks(o, []);
    assert forall r: Reg, l: Label, k: int :: !DefinedAt(m, r, l, k);
    assert DefsBelow(m, 0) && SingleAssignment(m);
    assert TargetsExist(m) && PhisMatch(m) && PhiUsesKnown(m, StartAvail(o));
    hide DefinedAt, PhisMatch, PhiUsesKnown, DefsBelow, SingleAssignment;
  }

  lemma HeaderFits(o: Options)
    ensures CodeFits({}, 0, HeaderCode(o)) && RegsAfter(0, HeaderCode(o)) == HeadReg(o) + 1
  {
    var a, b, d := Malloc(ARR, o.mem), Memset(ARR, 0, o.mem), Gep(HeadReg(o), ARR, o.mem / 2);
    OneFits(if o.checked then {} + {ARR} + {} + {ARRMAX} else {} + {ARR} + {}, HeadReg(o), d);
    assert [d][1..] == [];
    if o.checked {
      var c := Gep(ARRMAX, ARR, o.mem);
      assert HeaderCode(o) == [a, b, c, d];
      assert [c, d][1..] == [d] && CodeFits({} + {ARR} + {}, 1, [c, d]) && RegsAfter(1, [c, d]) == 3;
      assert [b, c, d][1..] == [c, d] && CodeFits({} + {ARR}, 1, [b, c, d]) && RegsAfter(1, [b, c, d]) == 3;
      assert [a, b, c, d][1..] == [b, c, d];
    } else {
      assert HeaderCode(o) == [a, b, d];
      assert [b, d][1..] == [d] && CodeFits({} + {ARR}, 1, [b, d]) && RegsAfter(1, [b, d]) == 2;
      assert [a, b, d][1..] == [b, d];
    }
  }

  lemma StartWritten(o: Options)
    ensures var m, code := StartBlocks(o, []), HeaderCode(o);
            AppendAll(m, 0, code) == m[0 := m[0].(body := m[0].body + code)] == StartBlocks(o, code)
  {
    AppendAllShape(StartBlocks(o, []), 0, HeaderCode(o));
    hide HeaderCode;
    assert [] + HeaderCode(o) == HeaderCode(o);
  }

  lemma HeaderIsSound(s: string, o: Options)
    ensures Sound(StartBlocks(o, HeaderCode(o)), StartAvail(o), s, o, StartLayout(o), {}, 0, 0, HeadReg(o), HeadReg(o) + 1)
  {
    HeaderIsSsa(o);
    HeaderInProgress(s, o);
    hide Ssa, InProgress, Known;
  }

  lemma HeaderIsSsa(o: Options)
    ensures var m := StartBlocks(o, HeaderCode(o));
            && Ssa(m, StartAvail(o), HeadReg(o) + 1) && PhisSized(m)
            && Basics(o) + {HeadReg(o)} <= Known(m, StartAvail(o), 0)
  {
    var m0, code := StartBlocks(o, []), HeaderCode(o);
    EmptyStartIsSsa(o);
    HeaderFits(o);
    hide Ssa, CodeFits, RegsAfter, Known;
    AppendAllKeepsSsa(m0, StartAvail(o), 0, 0, code);
    StartWritten(o);
    hide AppendAll;
    AppendedIsKnown(m0, StartAvail(o), 0, code, 0);
    AppendedIsKnown(m0, StartAvail(o), 0, code, |code| - 1);
    if o.checked {
      AppendedIsKnown(m0, StartAvail(o), 0, code, 2);
    }
  }

  lemma HeaderInProgress(s: string, o: Options)
    ensures InProgress(StartBlocks(o, HeaderCode(o)), s, o, StartLayout(o), {}, 0, 0, HeadReg(o), HeadReg(o) + 1)
  {
    var m, lay := StartBlocks(o, HeaderCode(o)), StartLayout(o);
    assert HeaderDone(m, o, lay) && FooterDone(m, o, lay);
    assert FrontAt(m, o, lay, 0, 0, HeadReg(o), HeadReg(o) + 1);
    assert EndsMissing(m, lay, {}, 0);
  }

  lemma SoundCur(m: Module, avail: seq<set<Reg>>, s: string, o: Options, lay: Layout, open: set<nat>,
                 pc: nat, cur: Label, head: Reg, next: Reg)
    requires Sound(m, avail, s, o, lay, open, pc, cur, head, next)
    ensures cur < |m| && |avail| == |m| && open <= lay.loops.Keys
    ensures forall i :: i in lay.loops ==> i < pc
  {
    assert forall i :: i in open ==> LoopOpen(m, s, o, lay, i, cur);
  }

  lemma AfterSeries(s: string, pc: nat)
    requires pc <= |s| && NextCmd(s, pc) < |s|
    ensures var q := NextCmd(s, pc);
            && (IsMove(s[q]) ==> After(s, pc) == RunEnd(s, q, true))
            && (IsChange(s[q]) ==> After(s, pc) == RunEnd(s, q, false))
  {
  }

  lemma AppendOne(m: Module, l: Label, a: Instr)
    requires l < |m|
    ensures AppendAll(m, l, [a]) == Append(m, l, a)
  {
    AppendAllShape(m, l, [a]);
  }

  lemma AppendMove(m: Module, o: Options, l: Label, h: Reg, f: Reg, k: int)
    requires l < |m| && o.checked
    ensures AppendAll(m, l, MoveCode(h, f, k, o))
         == Append(Append(Append(Append(m, l, Gep(f, h, k)), l, CmpUGE(f + 1, f, ARRMAX)), l, CmpULT(f + 2, f, ARR)), l,
                   OrI1(f + 3, f + 1, f + 2))
  {
    var code := MoveCode(h, f, k, o);
    AppendAllShape(m, l, code);
    assert m[l].body + [code[0]] + [code[1]] + [code[2]] + [code[3]] == m[l].body + code;
  }

  lemma CheckedMoveSound(m: Module, avail: seq<set<Reg>>, s: string, o: Options, lay: Layout, open: set<nat>,
                         pc: nat, cur: Label, head: Reg, next: Reg, k: int) returns (before: set<Reg>, e: nat)
    requires Sound(m, avail, s, o, lay, open, pc, cur, head, next) && o.checked
    requires pc <= |s| && NextCmd(s, pc) < |s| && IsMove(s[NextCmd(s, pc)]) && k == RunSum(s, NextCmd(s, pc), After(s, pc), true)
    ensures cur < |m| && e == After(s, pc)
    ensures var lay' := At(lay, e, Point(|m|, 0, next, next + 4));
            && Sound(WithCheck(m, o, lay, cur, head, next, k), avail + [before], s, o, lay', open, e, |m|, next, next + 4)
            && lay'.end == lay.end && lay'.err == lay.err && lay'.loops == lay.loops
  {
    hide Sound, NextCmd, RunSum, RunEnd, WithCheck;
    e := After(s, pc);
    AfterSeries(s, pc);
    SoundCur(m, avail, s, o, lay, open, pc, cur, head, next);
    before := CheckedMoveKeeps(m, avail, s, o, lay, open, pc, cur, head, next, NextCmd(s, pc), e, k);
  }

  lemma MoveDefines(f: Reg, h: Reg, k: int)
    ensures |Defs(Gep(f, h, k))| == 1 && |Defs(CmpUGE(f + 1, f, ARRMAX))| == 1 && |Defs(CmpULT(f + 2, f, ARR))| == 1
    ensures |Defs(OrI1(f + 3, f + 1, f + 2))| == 1
  {
  }

  lemma CheckWritten(m: Module, n: Module, o: Options, lay: Layout, l: Label, h: Reg, f: Reg, k: int)
    requires l < |m| && n == AppendAll(m, l, MoveCode(h, f, k, o))
    ensures |n| == |m|
    ensures (n + [Block(None, [], NoTerm)])[l := (n + [Block(None, [], NoTerm)])[l].(term := CondBr(f + 3, lay.err, |m|))] == WithCheck(m, o, lay, l, h, f, k)
  {
    AppendAllShape(m, l, MoveCode(h, f, k, o));
  }

  // ----- Brackets while compiling ---------------------------------------------------------

  /** Between a and pc brackets balance, and before pc none closes too early. */
  ghost predicate Level(s: string, a: nat, pc: nat) {
    && a <= pc <= |s| && NeverBelow(s, 0, pc, 0)
    && NeverBelow(s, a, pc, Depth(s, a)) && Depth(s, pc) == Depth(s, a)
  }

  /** The loop body that starts at a ends with the bracket just before e. */
  ghost predicate Closed(s: string, a: nat, e: nat) {
    && a < e <= |s| && s[e - 1] == ']' && NeverBelow(s, 0, e, 0)
    && NeverBelow(s, a, e - 1, Depth(s, a)) && Depth(s, e - 1) == Depth(s, a)
  }

  ghost predicate SameLoops(open: set<nat>, lay: Layout, lay': Layout) {
    forall k :: k in open ==> k in lay.loops && k in lay'.loops && lay'.loops[k] == lay.loops[k]
  }

  /** What the loop that is being compiled from a on looks like. */
  ghost predicate LoopOfCall(lay: Layout, open: set<nat>, avail: seq<set<Reg>>,
                             phi: Option<Reg>, oldbb: Label, testbb: Label, a: nat)
  {
    if phi.None? then a == 0 && open == {}
    else
      && a > 0 && a - 1 in open && a - 1 in lay.loops && lay.loops[a - 1] == Loop(testbb, oldbb, phi.value)
      && testbb < |avail|
      && forall k :: k in open ==> k in lay.loops && lay.loops[k].test < |avail| && avail[lay.loops[k].test] <= avail[testbb]
  }

  lemma LoopOfCallStays(lay: Layout, lay': Layout, open: set<nat>, avail: seq<set<Reg>>, avail': seq<set<Reg>>,
                        phi: Option<Reg>, oldbb: Label, testbb: Label, a: nat)
    requires LoopOfCall(lay, open, avail, phi, oldbb, testbb, a)
    requires avail <= avail' && SameLoops(open, lay, lay')
    ensures LoopOfCall(lay', open, avail', phi, oldbb, testbb, a)
  {
  }

  lemma SameLoopsTwice(open: set<nat>, lay: Layout, lay': Layout, lay'': Layout)
    requires SameLoops(open, lay, lay') && SameLoops(open, lay', lay'')
    ensures SameLoops(open, lay, lay'') && open <= lay''.loops.Keys
  {
  }

  lemma SameLoopsLess(open: set<nat>, open': set<nat>, lay: Layout, lay': Layout, lay'': Layout)
    requires SameLoops(open, lay, lay') && open' <= open && lay''.loops == lay'.loops
    ensures SameLoops(open', lay, lay'')
  {
  }

  lemma OutermostCall(lay: Layout, open: set<nat>, avail: seq<set<Reg>>, phi: Option<Reg>, oldbb: Label, testbb: Label, a: nat)
    requires LoopOfCall(lay, open, avail, phi, oldbb, testbb, a)
    ensures phi.None? ==> open == {}
  {
  }

  lemma SameLoopsSelf(open: set<nat>, lay: Layout)
    requires open <= lay.loops.Keys
    ensures SameLoops(open, lay, lay)
  {
  }

  lemma LevelBound(s: string, a: nat, pc: nat)
    requires Level(s, a, pc)
    ensures a <= pc <= |s|
  {
  }

  /** The bracket that closes the body that starts at a is the partner of the one before a. */
  lemma BracketsMeet(s: string, a: nat, pc: nat)
    requires Level(s, a, pc) && a > 0 && s[a - 1] == '['
    requires NextCmd(s, pc) < |s| && s[NextCmd(s, pc)] == ']'
    ensures var q := NextCmd(s, pc); OpenOf(s, q, 0) == a - 1 && CloseOf(s, a, 0) == q
  {
    DepthSkips(s, pc, NextCmd(s, pc));
    ScansMeet(s, a - 1, NextCmd(s, pc));
  }

  lemma NothingAhead(s: string, pc: nat, value: int)
    requires pc <= |s|
    ensures Ahead(s, pc, pc, SymNone, value)
  {
  }

  lemma LexedIsSymbol(s: string, pc: nat, pos: nat, sym: Symbol, value: int, nextsym: Symbol, nextvalue: int)
    requires Lexed(s, pc, pos, sym, value, nextsym, nextvalue)
    ensures !sym.SymNone? && pc <= |s| && if sym.SymEof? then NextCmd(s, pc) == |s| else pc < pos <= |s|
  {
    if !sym.SymEof? {
      LexedMeans(s, pc, pos, sym, value, nextsym, nextvalue);
    }
  }

  lemma LexedMeans(s: string, pc: nat, pos: nat, sym: Symbol, value: int, nextsym: Symbol, nextvalue: int)
    requires Lexed(s, pc, pos, sym, value, nextsym, nextvalue) && !sym.SymEof?
    ensures pc <= |s| && NextCmd(s, pc) < |s| && pc < After(s, pc) <= pos
    ensures var c := s[NextCmd(s, pc)];
            && (sym.SymMove? <==> IsMove(c)) && (sym.SymChange? <==> IsChange(c))
            && (sym.SymRead? <==> c == ',') && (sym.SymWrite? <==> c == '.')
            && (sym.SymLoop? <==> c == '[') && (sym.SymEndLoop? <==> c == ']') && !sym.SymNone?
    ensures IsSeries(sym) ==> value == RunSum(s, NextCmd(s, pc), After(s, pc), sym.SymMove?)
    ensures Ahead(s, After(s, pc), pos, nextsym, nextvalue)
    ensures !IsSeries(sym) ==> pos == After(s, pc) == NextCmd(s, pc) + 1 && nextsym.SymNone?
  {
    CharKinds(s[NextCmd(s, pc)]);
    AfterSeries(s, pc);
  }

  lemma LevelOn(s: string, a: nat, pc: nat)
    requires Level(s, a, pc)
    requires NextCmd(s, pc) < |s| && s[NextCmd(s, pc)] != '[' && s[NextCmd(s, pc)] != ']'
    ensures Level(s, a, After(s, pc))
  {
    var q, e := NextCmd(s, pc), After(s, pc);
    AfterSeries(s, pc);
    forall k | pc <= k < e ensures s[k] != '[' && s[k] != ']' {
      assert q <= k ==> k == q || InRun(s[k], true) || InRun(s[k], false) || !IsCommand(s[k]);
    }
    DepthSkips(s, pc, e);
  }

  lemma LevelIn(s: string, a: nat, pc: nat)
    requires Level(s, a, pc) && NextCmd(s, pc) < |s| && s[NextCmd(s, pc)] == '['
    ensures var q := NextCmd(s, pc); Level(s, q + 1, q + 1) && Depth(s, q + 1) == Depth(s, a) + 1 > 0
  {
    DepthSkips(s, pc, NextCmd(s, pc));
    assert Depth(s, a) >= 0;
  }

  lemma LevelOut(s: string, a: nat, pc: nat, e: nat)
    requires Level(s, a, pc) && NextCmd(s, pc) < |s| && s[NextCmd(s, pc)] == '['
    requires Closed(s, NextCmd(s, pc) + 1, e)
    ensures Level(s, a, e) && pc < e <= |s|
  {
    var q := NextCmd(s, pc);
    DepthSkips(s, pc, q);
    assert Depth(s, q + 1) == Depth(s, a) + 1;
    forall k | a <= k <= e ensures Depth(s, k) >= Depth(s, a) {
      if q + 1 <= k < e {
        assert Depth(s, k) >= Depth(s, q + 1);
      }
    }
  }

  /** What the end of the text, or a closing bracket, says about balance. */
  lemma LevelEnds(s: string, a: nat, pc: nat)
    requires Level(s, a, pc)
    ensures NextCmd(s, pc) == |s| ==> (Balanced(s) <==> Depth(s, a) == 0)
    ensures var q := NextCmd(s, pc); q < |s| && s[q] == ']' ==>
              && (Depth(s, a) <= 0 ==> !Balanced(s))
              && (Depth(s, a) > 0 ==> Closed(s, a, q + 1))
  {
    var q := NextCmd(s, pc);
    DepthSkips(s, pc, q);
    if q < |s| && s[q] == ']' {
      assert Depth(s, q + 1) == Depth(s, a) - 1;
    }
  }

  lemma SoundOpens(m: Module, avail: seq<set<Reg>>, s: string, o: Options, lay: Layout, open: set<nat>,
                   pc: nat, cur: Label, head: Reg, next: Reg, i: nat)
    requires Sound(m, avail, s, o, lay, open, pc, cur, head, next) && i in open
    ensures i < |s| && s[i] == '['
  {
    assert LoopOpen(m, s, o, lay, i, cur);
  }

  lemma FinishKeeps(m: Module, avail: seq<set<Reg>>, s: string, o: Options, lay: Layout,
                    pc: nat, cur: Label, head: Reg, next: Reg)
    requires Sound(m, avail, s, o, lay, {}, pc, cur, head, next)
    requires pc <= |s| && NextCmd(s, pc) == |s|
    ensures cur < |m| && var m' := Terminate(m, cur, Br(lay.end)); Translates(m', s, o, lay) && WellFormed(m') && PhisSized(m')
  {
    SoundFooter(m, avail, s, o, lay, {}, pc, cur, head, next);
    assert m[cur].body + [] == m[cur].body;
    AppendedSized(m, Terminate(m, cur, Br(lay.end)), cur, []);
    hide Ssa, InProgress, Known, PhisSized;
    Finishes(m, s, o, lay, pc, cur, head, next);
    TerminateKeepsSsa(m, avail, next, cur, Br(lay.end));
    SsaIsWellFormed(Terminate(m, cur, Br(lay.end)), avail, next);
  }
}
