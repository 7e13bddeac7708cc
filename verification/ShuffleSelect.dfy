/** Random shuffle and select instructions, with the value that they are expected to compute. */
module ShuffleSelect {
  datatype Name = Inp(i: nat) | Shuf(i: nat) | Sel(i: nat) | ZeroInitializer

  const UNDEF: int := -1

  /** A variable and the lanes it is expected to have, UNDEF where anything may come out. */
  datatype Value = Value(name: Name, lanes: seq<int>)

  datatype Instr =
    | ShufInstr(name: Name, op0: Name, op1: Name, mask: seq<int>)
    | SelectInstr(name: Name, op0: Name, op1: Name, mask: seq<int>)

  // ----- Expected values -----------------------------------------------------------------------

  ghost predicate ShufMask(mask: seq<int>, n: nat) {
    |mask| == n && forall i :: 0 <= i < n ==> UNDEF <= mask[i] < 2 * n
  }

  ghost predicate SelMask(mask: seq<int>, n: nat) {
    |mask| == n && forall i :: 0 <= i < n ==> UNDEF <= mask[i] <= 1
  }

  method CalcShuffle(n: nat, op0: seq<int>, op1: seq<int>, mask: seq<int>) returns (result: seq<int>)
    requires ShufMask(mask, n) && |op0| == n && |op1| == n
    ensures |result| == n
    ensures forall i :: 0 <= i < n ==> result[i] == if mask[i] == UNDEF then UNDEF else (op0 + op1)[mask[i]]
  {
    result := [];
    for i := 0 to |mask|
      invariant |result| == i
      invariant forall j :: 0 <= j < i ==> result[j] == if mask[j] == UNDEF then UNDEF else (op0 + op1)[mask[j]]
    {
      var index := mask[i];
      if index < n && index >= 0 {
        result := result + [op0[index]];
      } else if index >= n {
        assert index % n == index - n by { Wraps(index, n); }
        index := index % n;
        result := result + [op1[index]];
      } else {
        result := result + [UNDEF];
      }
    }
  }

  lemma Wraps(index: int, n: nat)
    requires n <= index < 2 * n
    ensures index % n == index - n
  {
  }

  method CalcSelect(n: nat, op0: seq<int>, op1: seq<int>, mask: seq<int>) returns (result: seq<int>)
    requires SelMask(mask, n) && |op0| == n && |op1| == n
    ensures |result| == n
    ensures forall i :: 0 <= i < n ==> result[i] == if mask[i] == 1 then op0[i] else if mask[i] == 0 then op1[i] else UNDEF
  {
    result := [];
    for i := 0 to |mask|
      invariant |result| == i
      invariant forall j :: 0 <= j < i ==> result[j] == if mask[j] == 1 then op0[j] else if mask[j] == 0 then op1[j] else UNDEF
    {
      var index := mask[i];
      if index == 1 {
        result := result + [op0[i]];
      } else if index == 0 {
        result := result + [op1[i]];
      } else {
        result := result + [UNDEF];
      }
    }
  }

  // ----- Executing the instructions ----------------------------------------------------------------

  type Env = map<Name, seq<int>>

  /** What comes out of an undefined lane of an instruction. */
  type Resolution = (Name, nat) -> int

  /** An undefined lane left undefined. */
  function Undefined(x: Name, lane: nat): int {
    UNDEF
  }

  function LaneAt(env: Env, x: Name, j: nat): int {
    if x in env && j < |env[x]| then env[x][j] else 0
  }

  function LaneOf(n: nat, i: Instr, env: Env, resolve: Resolution, lane: nat): int {
    var index := if lane < |i.mask| then i.mask[lane] else UNDEF;
    match i
    case ShufInstr(_, _, _, _) =>
      if 0 <= index < n then LaneAt(env, i.op0, index)
      else if n <= index < 2 * n then LaneAt(env, i.op1, index - n)
      else resolve(i.name, lane)
    case SelectInstr(_, _, _, _) =>
      if index == 1 then LaneAt(env, i.op0, lane) else if index == 0 then LaneAt(env, i.op1, lane) else resolve(i.name, lane)
  }

  function Execute(n: nat, insts: seq<Instr>, env: Env, resolve: Resolution): Env {
    if insts == [] then env
    else
      var last := insts[|insts| - 1];
      var e := Execute(n, insts[..|insts| - 1], env, resolve);
      e[last.name := seq(n, lane requires 0 <= lane < n => LaneOf(n, last, e, resolve, lane))]
  }

  ghost function NamesOf(insts: seq<Instr>): set<Name> {
    if insts == [] then {} else NamesOf(insts[..|insts| - 1]) + {insts[|insts| - 1].name}
  }

  /** Uses nothing but what is defined, and defines something new. */
  ghost predicate Executable(n: nat, i: Instr, defined: set<Name>) {
    i.op0 in defined && i.op1 in defined && i.name !in defined
    && if i.ShufInstr? then ShufMask(i.mask, n) else SelMask(i.mask, n)
  }

  ghost predicate AllExecutable(n: nat, insts: seq<Instr>, defined: set<Name>) {
    insts != [] ==>
      var before := insts[..|insts| - 1];
      AllExecutable(n, before, defined) && Executable(n, insts[|insts| - 1], defined + NamesOf(before))
  }

  lemma {:induction false} ExecutedKeys(n: nat, insts: seq<Instr>, env: Env, resolve: Resolution)
    ensures Execute(n, insts, env, resolve).Keys == env.Keys + NamesOf(insts)
  {
    if insts != [] {
      ExecutedKeys(n, insts[..|insts| - 1], env, resolve);
    }
  }

  lemma OneMore(n: nat, insts: seq<Instr>, i: Instr, env: Env, resolve: Resolution)
    ensures NamesOf(insts + [i]) == NamesOf(insts) + {i.name}
    ensures forall defined :: AllExecutable(n, insts + [i], defined) <==>
                                AllExecutable(n, insts, defined) && Executable(n, i, defined + NamesOf(insts))
    ensures var e := Execute(n, insts, env, resolve);
            Execute(n, insts + [i], env, resolve) == e[i.name := seq(n, lane requires 0 <= lane < n => LaneOf(n, i, e, resolve, lane))]
  {
    var more := insts + [i];
    assert more[..|more| - 1] == insts && more[|more| - 1] == i;
  }

  // ----- Generating the instructions ----------------------------------------------------------------

  method GenShufMask(n: nat) returns (mask: seq<int>)
    ensures ShufMask(mask, n)
  {
    mask := [];
    for i := 0 to n
      invariant |mask| == i && forall j :: 0 <= j < i ==> UNDEF <= mask[j] < 2 * n
    {
      var index: int :| UNDEF <= index < 2 * n;
      mask := mask + [index];
    }
  }

  method GenSelMask(n: nat) returns (mask: seq<int>)
    ensures SelMask(mask, n)
  {
    mask := [];
    for i := 0 to n
      invariant |mask| == i && forall j :: 0 <= j < i ==> UNDEF <= mask[j] <= 1
    {
      var index: int :| UNDEF <= index <= 1;
      mask := mask + [index];
    }
  }

  /** The lanes that a value is expected to have are those it has. */
  ghost predicate Agrees(v: Value, env: Env) {
    v.name in env && |env[v.name]| == |v.lanes| && forall j :: 0 <= j < |v.lanes| ==> v.lanes[j] != UNDEF ==> env[v.name][j] == v.lanes[j]
  }

  /** The value has the lanes that come out when undefined lanes are left undefined. */
  ghost predicate IsExact(v: Value, env: Env) {
    v.name in env && env[v.name] == v.lanes
  }

  /** The inputs and the zero vector. */
  ghost function Initial(n: nat, inputs: seq<Value>): Env {
    map x | x in (set v | v in inputs :: v.name) + {ZeroInitializer} :: if x == ZeroInitializer then Zeros(n) else LanesOf(inputs, x)
  }

  function Zeros(n: nat): seq<int> {
    seq(n, _ => 0)
  }

  ghost function LanesOf(inputs: seq<Value>, x: Name): seq<int>
    requires exists v :: v in inputs && v.name == x
  {
    var v :| v in inputs && v.name == x;
    v.lanes
  }

  ghost predicate AreInputs(n: nat, inputs: seq<Value>) {
    forall k :: 0 <= k < |inputs| ==> inputs[k].name == Inp(k) && |inputs[k].lanes| == n
  }

  /** Generates instructions, whatever is chosen at random, that use only what is defined before them and leave one
      value; however undefined lanes are resolved, the instructions compute that value but for its undefined lanes, and
      no other lane of it is undefined than what comes out undefined when undefined lanes are left so. */
  method GenInsts(n: nat, inputs: seq<Value>) returns (insts: seq<Instr>, result: Value)
    requires AreInputs(n, inputs) && inputs != []
    ensures AllExecutable(n, insts, Initial(n, inputs).Keys)
    ensures forall resolve :: Agrees(result, Execute(n, insts, Initial(n, inputs), resolve))
    ensures IsExact(result, Execute(n, insts, Initial(n, inputs), Undefined))
    ensures |result.lanes| == n && (|inputs| > 1 ==> insts != [] && result.name == insts[|insts| - 1].name)
    ensures |inputs| - 1 <= |insts| <= 2 * (|inputs| - 1)
  {
    hide *;
    var values := inputs;
    insts := [];
    var nameIdx := 0;
    var zeroInit := Value(ZeroInitializer, Zeros(n));
    ghost var known := inputs + [zeroInit];
    Begins(n, inputs, zeroInit);
    while |values| > 1
      invariant 0 < |values| == |inputs| - nameIdx && nameIdx >= 0
      invariant Generated(n, inputs, insts, known, nameIdx, nameIdx)
      invariant zeroInit in known && forall v :: v in values ==> v in known
      invariant nameIdx <= |insts| <= 2 * nameIdx
      invariant nameIdx > 0 ==> insts != [] && values[|values| - 1].name == insts[|insts| - 1].name
      decreases |values|
    {
      var idx0: nat, idx1: nat :| idx0 < idx1 < |values|;
      var op0, op1 := values[idx0], values[idx1];
      var shufMask := GenShufMask(n);
      KnownHaveLanes(n, inputs, insts, known, nameIdx, nameIdx);
      var lanes := CalcShuffle(n, op0.lanes, op1.lanes, shufMask);
      var shuf := Value(Shuf(nameIdx), lanes);
      Shuffles(n, inputs, insts, known, nameIdx, op0, op1, shufMask, lanes);
      insts := insts + [ShufInstr(shuf.name, op0.name, op1.name, shufMask)];
      known := known + [shuf];
      var added := shuf;
      var addSelect: bool :| true;
      if addSelect {
        var op2 := zeroInit;
        var merge: bool :| true;
        if merge {
          var idx2: nat :| idx2 < |values|;
          op2 := values[idx2];
        }
        var selectMask := GenSelMask(n);
        KnownHaveLanes(n, inputs, insts, known, nameIdx + 1, nameIdx);
        var selected := CalcSelect(n, lanes, op2.lanes, selectMask);
        added := Value(Sel(nameIdx), selected);
        Selects(n, inputs, insts, known, nameIdx, shuf, op2, selectMask, selected);
        insts := insts + [SelectInstr(added.name, shuf.name, op2.name, selectMask)];
        known := known + [added];
      }
      NextRound(n, inputs, insts, known, nameIdx);
      ghost var before := values;
      values := values + [added];
      values := values[..idx1] + values[idx1 + 1..];
      values := values[..idx0] + values[idx0 + 1..];
      RemovesOperands(before, added, idx0, idx1, values);
      assert multiset(values) + multiset{op0, op1} == multiset(before) + multiset{added};
      nameIdx := nameIdx + 1;
    }
    result := values[0];
    Ends(n, inputs, insts, known, nameIdx, result);
  }

  /** The instructions so far can be executed, all values known agree with what comes out, and no name of a later round
      is taken. */
  ghost predicate Generated(n: nat, inputs: seq<Value>, insts: seq<Instr>, known: seq<Value>, shufs: nat, sels: nat) {
    && AllExecutable(n, insts, Initial(n, inputs).Keys)
    && (forall v: Value, resolve: Resolution :: v in known ==> Agrees(v, Execute(n, insts, Initial(n, inputs), resolve)))
    && (forall v :: v in known ==> IsExact(v, Execute(n, insts, Initial(n, inputs), Undefined)))
    && (forall v :: v in known ==> |v.lanes| == n)
    && (forall x :: x in Initial(n, inputs) ==> x.Inp? || x.ZeroInitializer?)
    && (forall x :: x in NamesOf(insts) ==> (x.Shuf? && x.i < shufs) || (x.Sel? && x.i < sels))
  }

  lemma Begins(n: nat, inputs: seq<Value>, zeroInit: Value)
    requires AreInputs(n, inputs) && zeroInit == Value(ZeroInitializer, Zeros(n))
    ensures Generated(n, inputs, [], inputs + [zeroInit], 0, 0)
  {
    var env := Initial(n, inputs);
    forall v | v in inputs ensures v.name in env && env[v.name] == v.lanes && v.name.Inp? && |v.lanes| == n {
      var u :| u in inputs && u.name == v.name && LanesOf(inputs, v.name) == u.lanes;
      var i :| 0 <= i < |inputs| && inputs[i] == u;
      var j :| 0 <= j < |inputs| && inputs[j] == v;
      assert inputs[i].name == Inp(i) && inputs[j].name == Inp(j);
    }
    forall x | x in env ensures (x.Inp? || x.ZeroInitializer?) && |env[x]| == n {
      if x != ZeroInitializer {
        var v :| v in inputs && v.name == x;
      }
    }
    assert ZeroInitializer in env && env[ZeroInitializer] == Zeros(n);
  }

  lemma KnownHaveLanes(n: nat, inputs: seq<Value>, insts: seq<Instr>, known: seq<Value>, shufs: nat, sels: nat)
    requires Generated(n, inputs, insts, known, shufs, sels)
    ensures forall v :: v in known ==> |v.lanes| == n
  {
  }

  /** Adding an instruction whose expected lanes follow from those of its operands. */
  lemma Extends(n: nat, inputs: seq<Value>, insts: seq<Instr>, known: seq<Value>, shufs: nat, sels: nat, i: Instr, v: Value,
                shufs': nat, sels': nat, a: Value, b: Value)
    requires Generated(n, inputs, insts, known, shufs, sels) && a in known && b in known && i.op0 == a.name && i.op1 == b.name
    requires (i.ShufInstr? && ShufMask(i.mask, n)) || (i.SelectInstr? && SelMask(i.mask, n))
    requires v.name == i.name && |v.lanes| == n && Expects(n, i, a, b, v)
    requires (i.name == Shuf(shufs) && shufs' == shufs + 1 && sels' == sels) || (i.name == Sel(sels) && shufs' == shufs && sels' == sels + 1)
    ensures Generated(n, inputs, insts + [i], known + [v], shufs', sels')
  {
    hide AllExecutable, Agrees, IsExact, Expects, Execute, Initial, NamesOf;
    var env := Initial(n, inputs);
    var any: Resolution := (x, l) => 0;
    OneMore(n, insts, i, env, any);
    ExecutedKeys(n, insts, env, any);
    KnownNames(a, Execute(n, insts, env, any));
    KnownNames(b, Execute(n, insts, env, any));
    forall u: Value, resolve: Resolution | u in known + [v] ensures Agrees(u, Execute(n, insts + [i], env, resolve)) {
      OneMore(n, insts, i, env, resolve);
      ExecutedKeys(n, insts, env, resolve);
      var e := Execute(n, insts, env, resolve);
      if u in known {
        StillAgrees(u, e, i.name, Execute(n, insts + [i], env, resolve));
      } else {
        NewAgrees(n, e, i, resolve, a, b, v);
      }
    }
    OneMore(n, insts, i, env, Undefined);
    ExecutedKeys(n, insts, env, Undefined);
    var e := Execute(n, insts, env, Undefined);
    forall u | u in known + [v] ensures IsExact(u, Execute(n, insts + [i], env, Undefined)) {
      if u in known {
        StillExact(u, e, i.name, Execute(n, insts + [i], env, Undefined));
      } else {
        NewExact(n, e, i, a, b, v);
      }
    }
  }

  lemma KnownNames(v: Value, env: Env)
    requires Agrees(v, env)
    ensures v.name in env
  {
  }

  lemma StillAgrees(u: Value, e: Env, x: Name, e': Env)
    requires Agrees(u, e) && x !in e && forall y :: y in e ==> y in e' && (y != x ==> e'[y] == e[y])
    ensures Agrees(u, e')
  {
  }

  lemma StillExact(u: Value, e: Env, x: Name, e': Env)
    requires IsExact(u, e) && x !in e && forall y :: y in e ==> y in e' && (y != x ==> e'[y] == e[y])
    ensures IsExact(u, e')
  {
  }

  /** The lanes that v is expected to have are those that its mask takes from the operands. */
  ghost predicate Expects(n: nat, i: Instr, a: Value, b: Value, v: Value)
    requires |v.lanes| == n && |i.mask| == n
  {
    && |a.lanes| == n && |b.lanes| == n
    && forall j :: 0 <= j < n ==>
         v.lanes[j] == if i.ShufInstr? then if 0 <= i.mask[j] < 2 * n then (a.lanes + b.lanes)[i.mask[j]] else UNDEF
                       else if i.mask[j] == 1 then a.lanes[j] else if i.mask[j] == 0 then b.lanes[j] else UNDEF
  }

  lemma NewAgrees(n: nat, e: Env, i: Instr, resolve: Resolution, a: Value, b: Value, v: Value)
    requires i.op0 == a.name && i.op1 == b.name && |i.mask| == n && v.name == i.name && |v.lanes| == n && Expects(n, i, a, b, v)
    requires Agrees(a, e) && Agrees(b, e)
    ensures Agrees(v, e[i.name := seq(n, lane requires 0 <= lane < n => LaneOf(n, i, e, resolve, lane))])
  {
    forall j | 0 <= j < n && v.lanes[j] != UNDEF ensures LaneOf(n, i, e, resolve, j) == v.lanes[j] {
    }
  }

  lemma NewExact(n: nat, e: Env, i: Instr, a: Value, b: Value, v: Value)
    requires i.op0 == a.name && i.op1 == b.name && |i.mask| == n && v.name == i.name && |v.lanes| == n && Expects(n, i, a, b, v)
    requires IsExact(a, e) && IsExact(b, e)
    ensures IsExact(v, e[i.name := seq(n, lane requires 0 <= lane < n => LaneOf(n, i, e, Undefined, lane))])
  {
    var lanes := seq(n, lane requires 0 <= lane < n => LaneOf(n, i, e, Undefined, lane));
    forall j | 0 <= j < n ensures lanes[j] == v.lanes[j] {
    }
    assert lanes == v.lanes;
  }

  lemma Shuffles(n: nat, inputs: seq<Value>, insts: seq<Instr>, known: seq<Value>, idx: nat, op0: Value, op1: Value,
                 mask: seq<int>, lanes: seq<int>)
    requires Generated(n, inputs, insts, known, idx, idx) && op0 in known && op1 in known && ShufMask(mask, n) && |lanes| == n
    requires |op0.lanes| == n && |op1.lanes| == n
    requires forall i :: 0 <= i < n ==> lanes[i] == if mask[i] == UNDEF then UNDEF else (op0.lanes + op1.lanes)[mask[i]]
    ensures Generated(n, inputs, insts + [ShufInstr(Shuf(idx), op0.name, op1.name, mask)], known + [Value(Shuf(idx), lanes)], idx + 1, idx)
  {
    hide Generated;
    Extends(n, inputs, insts, known, idx, idx, ShufInstr(Shuf(idx), op0.name, op1.name, mask), Value(Shuf(idx), lanes), idx + 1, idx, op0, op1);
  }

  lemma Selects(n: nat, inputs: seq<Value>, insts: seq<Instr>, known: seq<Value>, idx: nat, op0: Value, op1: Value,
                mask: seq<int>, lanes: seq<int>)
    requires Generated(n, inputs, insts, known, idx + 1, idx) && op0 in known && op1 in known && SelMask(mask, n) && |lanes| == n
    requires |op0.lanes| == n && |op1.lanes| == n
    requires forall i :: 0 <= i < n ==> lanes[i] == if mask[i] == 1 then op0.lanes[i] else if mask[i] == 0 then op1.lanes[i] else UNDEF
    ensures Generated(n, inputs, insts + [SelectInstr(Sel(idx), op0.name, op1.name, mask)], known + [Value(Sel(idx), lanes)], idx + 1, idx + 1)
  {
    hide Generated;
    Extends(n, inputs, insts, known, idx + 1, idx, SelectInstr(Sel(idx), op0.name, op1.name, mask), Value(Sel(idx), lanes), idx + 1, idx + 1, op0, op1);
  }

  lemma NextRound(n: nat, inputs: seq<Value>, insts: seq<Instr>, known: seq<Value>, idx: nat)
    requires Generated(n, inputs, insts, known, idx + 1, idx) || Generated(n, inputs, insts, known, idx + 1, idx + 1)
    ensures Generated(n, inputs, insts, known, idx + 1, idx + 1)
  {
    hide Agrees, IsExact, Execute, AllExecutable, Initial;
  }

  lemma Ends(n: nat, inputs: seq<Value>, insts: seq<Instr>, known: seq<Value>, idx: nat, result: Value)
    requires Generated(n, inputs, insts, known, idx, idx) && result in known
    ensures AllExecutable(n, insts, Initial(n, inputs).Keys) && |result.lanes| == n
    ensures forall resolve :: Agrees(result, Execute(n, insts, Initial(n, inputs), resolve))
    ensures IsExact(result, Execute(n, insts, Initial(n, inputs), Undefined))
  {
    hide Agrees, IsExact, Execute, AllExecutable, Initial;
  }

  /** A round takes out the two operands, and nothing else, and puts in the value computed from them. */
  lemma RemovesOperands(before: seq<Value>, added: Value, idx0: nat, idx1: nat, values: seq<Value>)
    requires idx0 < idx1 < |before|
    requires var s := before + [added]; var t := s[..idx1] + s[idx1 + 1..]; values == t[..idx0] + t[idx0 + 1..]
    ensures multiset(values) + multiset{before[idx0], before[idx1]} == multiset(before) + multiset{added}
    ensures |values| == |before| - 1 && values[|values| - 1] == added
    ensures forall v :: v in values ==> v in before || v == added
  {
    var s := before + [added];
    var t := s[..idx1] + s[idx1 + 1..];
    RemovesAt(s, idx1);
    RemovesAt(t, idx0);
    assert t[idx0] == before[idx0] && s[idx1] == before[idx1];
    assert multiset(s) == multiset(before) + multiset{added};
    forall v | v in values ensures v in before || v == added {
      assert v in t;
      assert v in s;
    }
  }

  lemma RemovesAt(s: seq<Value>, k: nat)
    requires k < |s|
    ensures multiset(s[..k] + s[k + 1..]) + multiset{s[k]} == multiset(s)
  {
    assert s == s[..k] + [s[k]] + s[k + 1..];
  }
}
