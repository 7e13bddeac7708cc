/** The BrainF language: its character-by-character meaning.

    This is the reference the compiler is proved against. It works on the raw
    text: it has no folded runs, no basic blocks and no syntax tree. */
module BrainFLang {

  type Byte = x: int | 0 <= x < 256

  /** What a running program shows to the outside world. */
  datatype Event = PutChar(c: int) | HeadLeftTape

  /** Tape size, and whether the compiler was asked to check the head. */
  datatype Options = Options(mem: nat, checked: bool)

  datatype Status = Running | Halted | Faulted

  datatype Config = Config(pc: nat, head: int, tape: seq<Byte>, inpos: nat, out: seq<Event>, status: Status)

  predicate IsCommand(c: char) {
    c in "-+<>,.[]"
  }

  predicate IsChange(c: char) {
    c == '+' || c == '-'
  }

  predicate IsMove(c: char) {
    c == '<' || c == '>'
  }

  function Direction(c: char): int {
    if c == '-' || c == '<' then -1 else 1
  }

  /** The first command character at or after p; other characters are comments. */
  function NextCmd(s: string, p: nat): (q: nat)
    requires p <= |s|
    ensures p <= q <= |s|
    ensures q < |s| ==> IsCommand(s[q])
    ensures forall k :: p <= k < q ==> !IsCommand(s[k])
    decreases |s| - p
  {
    if p == |s| || IsCommand(s[p]) then p else NextCmd(s, p + 1)
  }

  // ----- Brackets ---------------------------------------------------------

  /** Open brackets minus closed ones in the first k characters. */
  function Depth(s: string, k: nat): int
    requires k <= |s|
  {
    if k == 0 then 0
    else Depth(s, k - 1) + (if s[k - 1] == '[' then 1 else if s[k - 1] == ']' then -1 else 0)
  }

  ghost predicate NeverBelow(s: string, a: nat, b: nat, d: int)
    requires b <= |s|
  {
    forall k :: a <= k <= b ==> Depth(s, k) >= d
  }

  /** Brackets balance when comments are ignored. */
  ghost predicate Balanced(s: string) {
    NeverBelow(s, 0, |s|, 0) && Depth(s, |s|) == 0
  }

  /** Scans forward for the bracket that closes the d+1 open ones. */
  function CloseOf(s: string, p: nat, d: nat): nat
    decreases |s| - p
  {
    if p >= |s| then p
    else if s[p] == '[' then CloseOf(s, p + 1, d + 1)
    else if s[p] == ']' then (if d == 0 then p else CloseOf(s, p + 1, d - 1))
    else CloseOf(s, p + 1, d)
  }

  /** Scans backward, from just before p, for the bracket that opens the d+1 closed ones. */
  function OpenOf(s: string, p: nat, d: nat): nat
    requires p <= |s|
  {
    if p == 0 then 0
    else if s[p - 1] == ']' then OpenOf(s, p - 1, d + 1)
    else if s[p - 1] == '[' then (if d == 0 then p - 1 else OpenOf(s, p - 1, d - 1))
    else OpenOf(s, p - 1, d)
  }

  /** The scans of the interpreter agree with nesting: both ends of a bracket pair find each other. */
  lemma {:induction false} ScansMeet(s: string, i: nat, j: nat)
    requires i < j < |s| && s[i] == '[' && s[j] == ']'
    requires NeverBelow(s, i + 1, j, Depth(s, i + 1)) && Depth(s, j) == Depth(s, i + 1)
    ensures CloseOf(s, i + 1, 0) == j
    ensures OpenOf(s, j, 0) == i
  {
    CloseFinds(s, i, j, i + 1);
    OpenFinds(s, i, j, j);
  }

  lemma {:induction false} CloseFinds(s: string, i: nat, j: nat, p: nat)
    requires i < p <= j < |s| && s[i] == '[' && s[j] == ']'
    requires NeverBelow(s, i + 1, j, Depth(s, i + 1)) && Depth(s, j) == Depth(s, i + 1)
    ensures CloseOf(s, p, Depth(s, p) - Depth(s, i + 1)) == j
    decreases j - p
  {
    assert Depth(s, p) >= Depth(s, i + 1);
    if p < j {
      assert Depth(s, p + 1) >= Depth(s, i + 1);
      CloseFinds(s, i, j, p + 1);
    }
  }

  lemma {:induction false} OpenFinds(s: string, i: nat, j: nat, p: nat)
    requires i < p <= j < |s| && s[i] == '[' && s[j] == ']'
    requires NeverBelow(s, i + 1, j, Depth(s, i + 1)) && Depth(s, j) == Depth(s, i + 1)
    ensures OpenOf(s, p, Depth(s, p) - Depth(s, i + 1)) == i
    decreases p
  {
    assert Depth(s, p) >= Depth(s, i + 1);
    if p > i + 1 {
      assert Depth(s, p - 1) >= Depth(s, i + 1);
      OpenFinds(s, i, j, p - 1);
    }
  }

  /** Comments do not nest. */
  lemma {:induction false} DepthSkips(s: string, p: nat, q: nat)
    requires p <= q <= |s|
    requires forall k :: p <= k < q ==> s[k] != '[' && s[k] != ']'
    ensures Depth(s, q) == Depth(s, p)
    ensures forall k :: p <= k <= q ==> Depth(s, k) == Depth(s, p)
    decreases q
  {
    if p < q {
      DepthSkips(s, p, q - 1);
    }
  }

  // ----- Meaning ------------------------------------------------------------

  function Zeros(n: nat): (z: seq<Byte>)
    ensures |z| == n && forall k :: 0 <= k < n ==> z[k] == 0
  {
    if n == 0 then [] else Zeros(n - 1) + [0]
  }

  function Start(o: Options): Config {
    Config(0, o.mem / 2, Zeros(o.mem), 0, [], Running)
  }

  predicate OnTape(c: Config) {
    0 <= c.head < |c.tape|
  }

  function SignExtend(v: Byte): int {
    if v >= 128 then v - 256 else v
  }

  /** True when the command after p, comments skipped, does not move the head. */
  predicate MovesEnd(s: string, p: nat)
    requires p <= |s|
  {
    var q := NextCmd(s, p);
    q == |s| || !IsMove(s[q])
  }

  /** One character of the program. Using a cell off the tape is undefined, shown as Faulted.
      With checking on, the head is looked at where a maximal series of moves ends. */
  function Step(s: string, o: Options, stdin: seq<Byte>, c: Config): Config {
    if c.status != Running then c
    else if c.pc >= |s| then c.(status := Halted)
    else
      var ch := s[c.pc];
      var n := c.(pc := c.pc + 1);
      if IsMove(ch) then
        var m := n.(head := c.head + Direction(ch));
        if o.checked && MovesEnd(s, m.pc) && !OnTape(m) then m.(out := m.out + [HeadLeftTape], status := Halted) else m
      else if IsChange(ch) then
        if OnTape(c) then n.(tape := c.tape[c.head := (c.tape[c.head] + Direction(ch)) % 256]) else c.(status := Faulted)
      else if ch == ',' then
        var ended := c.inpos >= |stdin|;
        var v := if ended then 255 else stdin[c.inpos];
        var m := n.(inpos := if ended then c.inpos else c.inpos + 1);
        if OnTape(c) then m.(tape := c.tape[c.head := v]) else m.(status := Faulted)
      else if ch == '.' then
        if OnTape(c) then n.(out := c.out + [PutChar(SignExtend(c.tape[c.head]))]) else c.(status := Faulted)
      else if ch == '[' then
        if !OnTape(c) then c.(status := Faulted)
        else if c.tape[c.head] == 0 then c.(pc := CloseOf(s, c.pc + 1, 0) + 1)
        else n
      else if ch == ']' then c.(pc := OpenOf(s, c.pc, 0))
      else n
  }

  function Run(s: string, o: Options, stdin: seq<Byte>, c: Config, n: nat): Config
    decreases n
  {
    if n == 0 then c else Run(s, o, stdin, Step(s, o, stdin, c), n - 1)
  }

  lemma {:induction false} RunAdds(s: string, o: Options, stdin: seq<Byte>, c: Config, a: nat, b: nat)
    ensures Run(s, o, stdin, c, a + b) == Run(s, o, stdin, Run(s, o, stdin, c, a), b)
    decreases a
  {
    if a > 0 {
      RunAdds(s, o, stdin, Step(s, o, stdin, c), a - 1, b);
    }
  }

  lemma RunResumes(s: string, o: Options, stdin: seq<Byte>, c: Config, a: nat, d: Config, b: nat)
    requires d == Run(s, o, stdin, c, a)
    ensures Run(s, o, stdin, c, a + b) == Run(s, o, stdin, d, b)
  {
    RunAdds(s, o, stdin, c, a, b);
  }

  lemma {:induction false} RunStays(s: string, o: Options, stdin: seq<Byte>, c: Config, n: nat)
    requires c.status != Running
    ensures Run(s, o, stdin, c, n) == c
    decreases n
  {
    if n > 0 {
      RunStays(s, o, stdin, c, n - 1);
    }
  }

  /** Output only grows. */
  lemma {:induction false} RunOutputGrows(s: string, o: Options, stdin: seq<Byte>, c: Config, n: nat)
    ensures c.out <= Run(s, o, stdin, c, n).out
    decreases n
  {
    if n > 0 {
      var d := Step(s, o, stdin, c);
      assert c.out <= d.out;
      RunOutputGrows(s, o, stdin, d, n - 1);
    }
  }

  // ----- Series of moves or changes -----------------------------------------

  predicate InRun(c: char, moves: bool) {
    if moves then IsMove(c) else IsChange(c)
  }

  /** Where a series that is under way at p stops: the next command of another kind, or the end. */
  function RunEnd(s: string, p: nat, moves: bool): (e: nat)
    requires p <= |s|
    ensures p <= e <= |s|
    ensures e < |s| ==> IsCommand(s[e]) && !InRun(s[e], moves)
    ensures forall k :: p <= k < e ==> InRun(s[k], moves) || !IsCommand(s[k])
    decreases |s| - p
  {
    if p == |s| || (IsCommand(s[p]) && !InRun(s[p], moves)) then p else RunEnd(s, p + 1, moves)
  }

  /** The net effect of the series between p and q. */
  function RunSum(s: string, p: nat, q: nat, moves: bool): int
    requires p <= q <= |s|
    decreases q
  {
    if p == q then 0
    else RunSum(s, p, q - 1, moves) + (if InRun(s[q - 1], moves) then Direction(s[q - 1]) else 0)
  }

  lemma {:induction false} RunSumSplits(s: string, p: nat, q: nat, r: nat, moves: bool)
    requires p <= q <= r <= |s|
    ensures RunSum(s, p, r, moves) == RunSum(s, p, q, moves) + RunSum(s, q, r, moves)
    decreases r
  {
    if q < r {
      RunSumSplits(s, p, q, r - 1, moves);
    }
  }

  lemma {:induction false} CommentsSumToZero(s: string, p: nat, q: nat, moves: bool)
    requires p <= q <= |s| && forall k :: p <= k < q ==> !IsCommand(s[k])
    ensures RunSum(s, p, q, moves) == 0
    decreases q
  {
    if p < q {
      CommentsSumToZero(s, p, q - 1, moves);
    }
  }

  /** Comments take steps and change nothing but the position. */
  lemma {:induction false} RunComments(s: string, o: Options, stdin: seq<Byte>, c: Config, q: nat)
    requires c.status == Running && c.pc <= q <= |s|
    requires forall k :: c.pc <= k < q ==> !IsCommand(s[k])
    ensures Run(s, o, stdin, c, q - c.pc) == c.(pc := q)
    decreases q - c.pc
  {
    if c.pc < q {
      assert !IsCommand(s[c.pc]);
      RunComments(s, o, stdin, Step(s, o, stdin, c), q);
    }
  }

  /** A series of changes on a cell of the tape adds its sum, modulo 256. */
  lemma {:induction false} RunChanges(s: string, o: Options, stdin: seq<Byte>, c: Config, e: nat)
    requires c.status == Running && c.pc <= e <= |s| && OnTape(c)
    requires forall k :: c.pc <= k < e ==> IsChange(s[k]) || !IsCommand(s[k])
    ensures Run(s, o, stdin, c, e - c.pc)
         == c.(pc := e, tape := c.tape[c.head := (c.tape[c.head] + RunSum(s, c.pc, e, false)) % 256])
    decreases e - c.pc
  {
    if c.pc < e {
      var sum, rest := RunSum(s, c.pc, e, false), RunSum(s, c.pc + 1, e, false);
      var d := ChangeOne(s, o, stdin, c);
      RunSumSplits(s, c.pc, c.pc + 1, e, false);
      RunChanges(s, o, stdin, d, e);
      assert Run(s, o, stdin, c, e - c.pc) == Run(s, o, stdin, d, e - d.pc);
      hide Run, RunSum, Step;
      SumsModulo(c.tape[c.head] as int, RunSum(s, c.pc, c.pc + 1, false), rest);
      assert d.tape[c.head := (c.tape[c.head] + sum) % 256] == c.tape[c.head := (c.tape[c.head] + sum) % 256];
    } else {
      assert c.tape == c.tape[c.head := c.tape[c.head]];
    }
  }

  lemma ChangeOne(s: string, o: Options, stdin: seq<Byte>, c: Config) returns (d: Config)
    requires c.status == Running && c.pc < |s| && OnTape(c) && (IsChange(s[c.pc]) || !IsCommand(s[c.pc]))
    ensures d == Step(s, o, stdin, c)
         == c.(pc := c.pc + 1, tape := c.tape[c.head := (c.tape[c.head] + RunSum(s, c.pc, c.pc + 1, false)) % 256])
  {
    d := Step(s, o, stdin, c);
    assert RunSum(s, c.pc, c.pc, false) == 0;
    if !IsChange(s[c.pc]) {
      assert c.tape == c.tape[c.head := c.tape[c.head]];
    }
  }

  lemma SumsModulo(x: int, a: int, b: int)
    ensures ((x + a) % 256 + b) % 256 == (x + (a + b)) % 256
  {
  }

  /** r is the error stop of a checked program that was at c when the series began. */
  predicate StoppedAt(r: Config, c: Config, h: int) {
    r.status == Halted && r.head == h && r.tape == c.tape && r.inpos == c.inpos && r.out == c.out + [HeadLeftTape]
  }

  /** r is c after a series of moves that ends before e and would put the head at h. */
  predicate MovedTo(o: Options, c: Config, h: int, e: nat, r: Config) {
    if o.checked && !(0 <= h < |c.tape|) then StoppedAt(r, c, h) else r == c.(pc := e, head := h)
  }

  lemma MovedOn(o: Options, c: Config, d: Config, h: int, e: nat, r: Config)
    requires d == c.(pc := d.pc, head := d.head)
    ensures MovedTo(o, d, h, e, r) <==> MovedTo(o, c, h, e, r)
  {
  }

  /** A maximal series of moves adds its sum to the head; with checking on, the program stops
      with the error exactly when that sum leaves the tape. */
  lemma {:induction false} RunMoves(s: string, o: Options, stdin: seq<Byte>, c: Config, e: nat) returns (n: nat)
    requires c.status == Running && c.pc < e <= |s| && IsMove(s[c.pc])
    requires e == RunEnd(s, c.pc, true)
    ensures n >= 1
    ensures MovedTo(o, c, c.head + RunSum(s, c.pc, e, true), e, Run(s, o, stdin, c, n))
    decreases e - c.pc
  {
    MoveSum(s, c.pc, e);
    hide Run, RunSum, RunEnd, Step, MovesEnd, NextCmd, MovedTo;
    if MovesEnd(s, c.pc + 1) {
      n := MoveLast(s, o, stdin, c, e);
    } else {
      var d := MoveOn(s, o, stdin, c);
      var k := RunMoves(s, o, stdin, d, e);
      n := d.pc - c.pc + k;
      RunAdds(s, o, stdin, c, d.pc - c.pc, k);
      MovedOn(o, c, d, d.head + RunSum(s, d.pc, e, true), e, Run(s, o, stdin, d, k));
    }
  }

  lemma {:induction false} MoveOn(s: string, o: Options, stdin: seq<Byte>, c: Config) returns (d: Config)
    requires c.status == Running && c.pc < |s| && IsMove(s[c.pc]) && !MovesEnd(s, c.pc + 1)
    ensures d == c.(pc := NextCmd(s, c.pc + 1), head := c.head + Direction(s[c.pc]))
    ensures d == Run(s, o, stdin, c, d.pc - c.pc)
  {
    var m := Step(s, o, stdin, c);
    d := m.(pc := NextCmd(s, c.pc + 1));
    RunComments(s, o, stdin, m, d.pc);
  }

  lemma {:induction false} MoveLast(s: string, o: Options, stdin: seq<Byte>, c: Config, e: nat) returns (n: nat)
    requires c.status == Running && c.pc < |s| && IsMove(s[c.pc]) && MovesEnd(s, c.pc + 1)
    requires e == NextCmd(s, c.pc + 1)
    ensures n >= 1
    ensures MovedTo(o, c, c.head + Direction(s[c.pc]), e, Run(s, o, stdin, c, n))
  {
    var d := Step(s, o, stdin, c);
    if d.status == Running {
      RunComments(s, o, stdin, d, e);
      n := 1 + (e - d.pc);
    } else {
      n := 1;
      assert Run(s, o, stdin, c, 1) == Run(s, o, stdin, d, 0);
    }
  }

  lemma {:induction false} MoveSum(s: string, p: nat, e: nat)
    requires p < |s| && IsMove(s[p]) && e == RunEnd(s, p, true)
    ensures var q := NextCmd(s, p + 1);
            if MovesEnd(s, p + 1) then e == q && RunSum(s, p, e, true) == Direction(s[p])
            else q < e && e == RunEnd(s, q, true) && RunSum(s, p, e, true) == Direction(s[p]) + RunSum(s, q, e, true)
  {
    var q := NextCmd(s, p + 1);
    RunEndSkips(s, p + 1, q, true);
    RunSumSplits(s, p, p + 1, q, true);
    RunSumSplits(s, p, q, e, true);
    CommentsSumToZero(s, p + 1, q, true);
    assert RunSum(s, p, p + 1, true) == Direction(s[p]);
  }

  lemma {:induction false} RunEndSkips(s: string, p: nat, q: nat, moves: bool)
    requires p <= q <= |s| && forall k :: p <= k < q ==> !IsCommand(s[k])
    ensures RunEnd(s, p, moves) == RunEnd(s, q, moves)
    decreases q - p
  {
    if p < q {
      RunEndSkips(s, p + 1, q, moves);
    }
  }

  // ----- Checking keeps the head on the tape ------------------------------------------

  /** The head is on the tape, or a series of moves is under way. */
  predicate TapeInHand(s: string, c: Config) {
    c.status == Running ==> OnTape(c) || (c.pc <= |s| && !MovesEnd(s, c.pc))
  }

  lemma StepKeepsTape(s: string, o: Options, stdin: seq<Byte>, c: Config)
    requires o.checked && TapeInHand(s, c) && c.status != Faulted
    ensures TapeInHand(s, Step(s, o, stdin, c)) && Step(s, o, stdin, c).status != Faulted
  {
    if c.status == Running && c.pc < |s| && !IsCommand(s[c.pc]) {
      assert NextCmd(s, c.pc) == NextCmd(s, c.pc + 1);
    }
  }

  lemma {:induction false} RunKeepsTape(s: string, o: Options, stdin: seq<Byte>, c: Config, n: nat)
    requires o.checked && TapeInHand(s, c) && c.status != Faulted
    ensures Run(s, o, stdin, c, n).status != Faulted
    decreases n
  {
    if n > 0 {
      StepKeepsTape(s, o, stdin, c);
      RunKeepsTape(s, o, stdin, Step(s, o, stdin, c), n - 1);
    }
  }

  /** With checking on, a program uses no cell off the tape on any input, exactly when there is
      a tape at all or the program does not begin with a command that needs a cell. */
  lemma CheckedProgramsStayOnTape(s: string, o: Options)
    requires o.checked && Balanced(s)
    ensures (forall stdin, n: nat :: Run(s, o, stdin, Start(o), n).status != Faulted) <==> o.mem > 0 || MovesOrEnds(s)
  {
    if o.mem > 0 || MovesOrEnds(s) {
      forall stdin, n: nat ensures Run(s, o, stdin, Start(o), n).status != Faulted {
        if o.mem > 0 || NextCmd(s, 0) < |s| {
          RunKeepsTape(s, o, stdin, Start(o), n);
        } else {
          NoCommandsNoFault(s, o, stdin, Start(o), n);
        }
      }
    } else {
      var q, c := NextCmd(s, 0), Start(o);
      RunComments(s, o, [], c, q);
      RunAdds(s, o, [], c, q, 1);
      DepthSkips(s, 0, q);
      assert Depth(s, q + 1) >= 0;
      assert Run(s, o, [], c.(pc := q), 1) == Run(s, o, [], Step(s, o, [], c.(pc := q)), 0);
      assert Run(s, o, [], c, q + 1).status == Faulted;
    }
  }

  /** The first command of the program, if it has one, is a move. */
  predicate MovesOrEnds(s: string) {
    NextCmd(s, 0) == |s| || IsMove(s[NextCmd(s, 0)])
  }

  lemma {:induction false} NoCommandsNoFault(s: string, o: Options, stdin: seq<Byte>, c: Config, n: nat)
    requires c.status != Faulted && c.pc <= |s| && NextCmd(s, c.pc) == |s|
    ensures Run(s, o, stdin, c, n).status != Faulted
    decreases n
  {
    if n > 0 {
      NoCommandsNoFault(s, o, stdin, Step(s, o, stdin, c), n - 1);
    }
  }

  /** The error message speaks of a head that has left the tape, but only where a series of moves
      ends does anybody look: a head that comes back in time goes unnoticed. */
  lemma ExcursionsGoUnnoticed(stdin: seq<Byte>)
    ensures var o := Options(1, true);
            && Run("<>", o, stdin, Start(o), 1).head == -1
            && Run("<>", o, stdin, Start(o), 3).status == Halted
            && Run("<>", o, stdin, Start(o), 3).out == []
  {
    var o, s := Options(1, true), "<>";
    var c1 := Step(s, o, stdin, Start(o));
    assert NextCmd(s, 1) == 1 && NextCmd(s, 2) == 2;
    var c2 := Step(s, o, stdin, c1);
    RunAdds(s, o, stdin, Start(o), 1, 2);
    assert Run(s, o, stdin, Start(o), 1) == Run(s, o, stdin, c1, 0);
    assert Run(s, o, stdin, c1, 2) == Run(s, o, stdin, c2, 1) == Run(s, o, stdin, Step(s, o, stdin, c2), 0);
  }
}
