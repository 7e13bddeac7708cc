/** What compiled programs show, for texts whose meaning can be said without the interpreter. */
module BrainFPrograms {
  import opened BrainFLang
  import opened BrainFIR
  import opened BrainFTranslation

  function Repeat(k: nat, c: char): string {
    seq(k, _ => c)
  }

  /** The code comes to its end and has shown this. */
  ghost predicate EndsWith(m: Module, w: World, out: seq<Event>) {
    exists k: nat :: CodeAfter(m, w, k).status == Halted && CodeAfter(m, w, k).out == out
  }

  lemma EndsAlike(m: Module, s: string, o: Options, w: World, n: nat)
    requires SameBehaviour(m, s, o, w) && Run(s, o, w.stdin, Start(o), n).status == Halted
    ensures EndsWith(m, w, Run(s, o, w.stdin, Start(o), n).out)
  {
    hide Run, Go;
    assert TextMatched(m, s, o, w, n);
    assert TextAfter(s, o, w, n) == Run(s, o, w.stdin, Start(o), n);
    var k: nat :| (TextAfter(s, o, w, n).status != Running ==> BothOver(o, w, TextAfter(s, o, w, n), CodeAfter(m, w, k)))
      && TextAfter(s, o, w, n).out <= CodeAfter(m, w, k).out;
    assert CodeAfter(m, w, k).out == TextAfter(s, o, w, n).out;
  }

  // ----- Moves alone -----------------------------------------------------------------------------

  lemma {:induction false} RepeatedSum(k: nat, c: char, q: nat, moves: bool)
    requires q <= k && InRun(c, moves)
    ensures RunSum(Repeat(k, c), 0, q, moves) == q * Direction(c)
  {
    if q > 0 {
      RepeatedSum(k, c, q - 1, moves);
    }
  }

  lemma {:induction false} RepeatedEnd(k: nat, c: char, p: nat, moves: bool)
    requires p <= k && InRun(c, moves)
    ensures RunEnd(Repeat(k, c), p, moves) == k
    decreases k - p
  {
    if p < k {
      RepeatedEnd(k, c, p + 1, moves);
    }
  }

  /** The head starts in the middle: going left, it is on the tape for half of its cells. */
  lemma MovesFromTheMiddle(k: nat, c: char, o: Options, stdin: seq<Byte>) returns (n: nat)
    requires o.checked && (c == '<' || c == '>')
    ensures var r := Run(Repeat(k, c), o, stdin, Start(o), n);
            r.status == Halted && r.out == if k == 0 || (if c == '<' then k <= o.mem / 2 else o.mem / 2 + k < o.mem) then [] else [HeadLeftTape]
  {
    var s, c0 := Repeat(k, c), Start(o);
    n := 0;
    var d := c0;
    if k > 0 {
      RepeatedEnd(k, c, 0, true);
      RepeatedSum(k, c, k, true);
      assert IsMove(s[0]);
      n := RunMoves(s, o, stdin, c0, k);
      d := Run(s, o, stdin, c0, n);
      assert MovedTo(o, c0, o.mem / 2 + k * Direction(c), k, d);
    }
    hide Run, RunSum, RunEnd, Repeat;
    assert k == |s| by { RepeatLength(k, c); }
    n := StopsThere(s, o, stdin, n, d);
  }

  lemma RepeatLength(k: nat, c: char)
    ensures |Repeat(k, c)| == k
  {
  }

  lemma StopsThere(s: string, o: Options, stdin: seq<Byte>, x: nat, d: Config) returns (n: nat)
    requires Run(s, o, stdin, Start(o), x) == d && (d.status == Halted || (d.status == Running && d.pc >= |s|))
    ensures Run(s, o, stdin, Start(o), n) == d.(status := Halted)
  {
    RunAdds(s, o, stdin, Start(o), x, 1);
    var e := Step(s, o, stdin, d);
    assert Run(s, o, stdin, d, 1) == Run(s, o, stdin, e, 0);
    n := x + 1;
  }

  /** Compiled with checking, k moves to the left end without the message exactly if k is no more than half of the cells. */
  lemma LeftMovesEnd(m: Module, k: nat, o: Options, w: World)
    requires o.checked && SameBehaviour(m, Repeat(k, '<'), o, w)
    ensures EndsWith(m, w, if k <= o.mem / 2 then [] else [HeadLeftTape])
  {
    var n := MovesFromTheMiddle(k, '<', o, w.stdin);
    EndsAlike(m, Repeat(k, '<'), o, w, n);
  }

  lemma RightMovesEnd(m: Module, k: nat, o: Options, w: World)
    requires o.checked && SameBehaviour(m, Repeat(k, '>'), o, w)
    ensures EndsWith(m, w, if k == 0 || o.mem / 2 + k < o.mem then [] else [HeadLeftTape])
  {
    var n := MovesFromTheMiddle(k, '>', o, w.stdin);
    EndsAlike(m, Repeat(k, '>'), o, w, n);
  }

  // ----- Counting ----------------------------------------------------------------------------------

  /** A byte as the signed character that is written. */
  function Signed(b: int): int {
    if b < 128 then b else b - 256
  }

  lemma CountShows(k: nat, c: char, o: Options, stdin: seq<Byte>) returns (n: nat)
    requires o.mem > 0 && (c == '+' || c == '-')
    ensures var r := Run(Repeat(k, c) + ".", o, stdin, Start(o), n);
            r.status == Halted && r.out == [PutChar(if c == '+' then Signed(k % 256) else Signed(-(k as int) % 256))]
  {
    var s := Repeat(k, c) + ".";
    CountedSum(k, c, k);
    RunChanges(s, o, stdin, Start(o), k);
    var d := Run(s, o, stdin, Start(o), k);
    var e := Step(s, o, stdin, d);
    RunAdds(s, o, stdin, Start(o), k, 1);
    assert Run(s, o, stdin, d, 1) == Run(s, o, stdin, e, 0);
    hide Run, RunSum, Repeat;
    n := StopsThere(s, o, stdin, k + 1, e);
  }

  lemma {:induction false} CountedSum(k: nat, c: char, q: nat)
    requires q <= k && IsChange(c)
    ensures RunSum(Repeat(k, c) + ".", 0, q, false) == q * Direction(c)
  {
    if q > 0 {
      CountedSum(k, c, q - 1);
    }
  }

  /** k plus signs, or minus signs, and a dot: the code writes k, or -k, as a signed byte. */
  lemma CountIsWritten(m: Module, k: nat, c: char, o: Options, w: World)
    requires o.mem > 0 && (c == '+' || c == '-') && SameBehaviour(m, Repeat(k, c) + ".", o, w)
    ensures EndsWith(m, w, [PutChar(if c == '+' then Signed(k % 256) else Signed(-(k as int) % 256))])
  {
    var n := CountShows(k, c, o, w.stdin);
    EndsAlike(m, Repeat(k, c) + ".", o, w, n);
  }

  // ----- Copying the input ----------------------------------------------------------------------------

  const COPY := ",[.,]"

  function Written(bytes: seq<Byte>): seq<Event> {
    seq(|bytes|, i requires 0 <= i < |bytes| => PutChar(Signed(bytes[i])))
  }

  /** At the loop test, with the i-th byte of the input in the cell and those before it written. */
  ghost predicate Copying(o: Options, stdin: seq<Byte>, i: nat, c: Config) {
    && i < |stdin| && c.pc == 1 && c.status == Running && c.inpos == i + 1
    && OnTape(c) && c.tape[c.head] == stdin[i] && c.out == Written(stdin[..i])
  }

  lemma CopyBegins(o: Options, stdin: seq<Byte>)
    requires o.mem > 0 && stdin != []
    ensures Copying(o, stdin, 0, Run(COPY, o, stdin, Start(o), 1))
  {
    assert Run(COPY, o, stdin, Start(o), 1) == Run(COPY, o, stdin, Step(COPY, o, stdin, Start(o)), 0);
  }

  lemma CopyScans()
    ensures CloseOf(COPY, 2, 0) == 4 && OpenOf(COPY, 4, 0) == 1
  {
    assert CloseOf(COPY, 3, 0) == 4;
    assert OpenOf(COPY, 3, 0) == 1;
  }

  lemma CopyGoesOn(o: Options, stdin: seq<Byte>, i: nat, c: Config)
    requires Copying(o, stdin, i, c) && stdin[i] != 0 && i + 1 < |stdin|
    ensures Copying(o, stdin, i + 1, Run(COPY, o, stdin, c, 4))
  {
    CopyScans();
    var c1 := Step(COPY, o, stdin, c);
    var c2 := Step(COPY, o, stdin, c1);
    var c3 := Step(COPY, o, stdin, c2);
    var c4 := Step(COPY, o, stdin, c3);
    assert Run(COPY, o, stdin, c, 4) == Run(COPY, o, stdin, c1, 3) == Run(COPY, o, stdin, c2, 2)
        == Run(COPY, o, stdin, c3, 1) == Run(COPY, o, stdin, c4, 0) == c4;
    assert Written(stdin[..i + 1]) == Written(stdin[..i]) + [PutChar(Signed(stdin[i]))];
  }

  lemma {:induction false} CopyEnds(o: Options, stdin: seq<Byte>, i: nat, z: nat, c: Config) returns (n: nat)
    requires Copying(o, stdin, i, c) && i <= z < |stdin| && stdin[z] == 0 && forall j :: i <= j < z ==> stdin[j] != 0
    ensures var r := Run(COPY, o, stdin, c, n); r.status == Halted && r.out == Written(stdin[..z])
    decreases z - i
  {
    if i == z {
      CopyScans();
      var c1 := Step(COPY, o, stdin, c);
      assert Run(COPY, o, stdin, c, 2) == Run(COPY, o, stdin, c1, 1) == Run(COPY, o, stdin, Step(COPY, o, stdin, c1), 0);
      n := 2;
    } else {
      CopyGoesOn(o, stdin, i, c);
      var d := Run(COPY, o, stdin, c, 4);
      var x := CopyEnds(o, stdin, i + 1, z, d);
      RunAdds(COPY, o, stdin, c, 4, x);
      n := 4 + x;
    }
  }

  /** The text ,[.,] compiled: the code writes what it reads up to the first zero byte, and ends. */
  lemma InputIsCopied(m: Module, o: Options, w: World, z: nat)
    requires o.mem > 0 && SameBehaviour(m, COPY, o, w)
    requires z < |w.stdin| && w.stdin[z] == 0 && forall j :: 0 <= j < z ==> w.stdin[j] != 0
    ensures EndsWith(m, w, Written(w.stdin[..z]))
  {
    CopyBegins(o, w.stdin);
    var c := Run(COPY, o, w.stdin, Start(o), 1);
    var x := CopyEnds(o, w.stdin, 0, z, c);
    RunAdds(COPY, o, w.stdin, Start(o), 1, x);
    EndsAlike(m, COPY, o, w, 1 + x);
  }

  /** The text ,. compiled: the code writes the first byte of its input, or -1 if there is none. */
  lemma FirstByteIsWritten(m: Module, o: Options, w: World)
    requires o.mem > 0 && SameBehaviour(m, ",.", o, w)
    ensures EndsWith(m, w, [PutChar(if w.stdin == [] then -1 else Signed(w.stdin[0]))])
  {
    var s, c := ",.", Start(o);
    var d := Step(s, o, w.stdin, c);
    var e := Step(s, o, w.stdin, d);
    assert Run(s, o, w.stdin, c, 2) == Run(s, o, w.stdin, d, 1) == Run(s, o, w.stdin, e, 0) == e;
    assert e.status == Running && e.pc == 2 && e.out == [PutChar(if w.stdin == [] then -1 else Signed(w.stdin[0]))];
    hide Run;
    var n := StopsThere(s, o, w.stdin, 2, e);
    EndsAlike(m, s, o, w, n);
  }
}
