/** A table of case mappings, compiled into a sequence of decisions (simple case folding, section
    3.13 of the Unicode Standard). */
module UnicodeCaseFold {
  import opened Wrappers

  /** A line of the database that has the expected form. */
  datatype Record = Record(code: nat, status: char, to: nat)

  datatype Mapping = Mapping(from: nat, to: nat)

  // ----- Reading the table -----------------------------------------------------------------------

  predicate Selected(r: Record) {
    r.status == 'C' || r.status == 'S'
  }

  function Selection(rs: seq<Record>): seq<Mapping> {
    if rs == [] then []
    else Selection(rs[..|rs| - 1]) + if Selected(rs[|rs| - 1]) then [Mapping(rs[|rs| - 1].code, rs[|rs| - 1].to)] else []
  }

  ghost predicate Increasing(ms: seq<Mapping>) {
    forall i, j :: 0 <= i < j < |ms| ==> ms[i].from < ms[j].from
  }

  lemma NothingSelected(rs: seq<Record>)
    ensures Selection(rs[..0]) == [] && Increasing([])
  {
  }

  lemma SelectsNext(rs: seq<Record>, k: nat, found: seq<Mapping>)
    requires k < |rs| && found == Selection(rs[..k]) && Increasing(found)
    ensures var next := Selection(rs[..k + 1]);
            if Selected(rs[k]) then
              next == found + [Mapping(rs[k].code, rs[k].to)]
              && (Increasing(next) <==> found == [] || found[|found| - 1].from < rs[k].code)
            else next == found
  {
    assert rs[..k + 1][..k] == rs[..k];
    var next := Selection(rs[..k + 1]);
    hide Selection;
    if Selected(rs[k]) {
      assert next == found + [Mapping(rs[k].code, rs[k].to)];
      LastInOrder(found, Mapping(rs[k].code, rs[k].to));
      forall x | x in found ensures x.from <= found[|found| - 1].from {
        var i :| 0 <= i < |found| && found[i] == x;
      }
    }
  }

  /** m is in the table as a common or simple mapping. */
  ghost predicate Listed(rs: seq<Record>, m: Mapping) {
    exists k :: 0 <= k < |rs| && rs[k].status in "CS" && m == Mapping(rs[k].code, rs[k].to)
  }

  /** Two common or simple mappings are the wrong way round, or of one character. */
  ghost predicate Unordered(rs: seq<Record>) {
    exists i, j :: 0 <= i < j < |rs| && rs[i].status in "CS" && rs[j].status in "CS" && rs[j].code <= rs[i].code
  }

  /** The common and simple mappings; none if they are not in order. */
  method Mappings(rs: seq<Record>) returns (ms: Option<seq<Mapping>>)
    ensures ms.Some? <==> Increasing(Selection(rs))
    ensures ms.Some? ==> ms.value == Selection(rs) && Increasing(ms.value) && forall m :: m in ms.value <==> Listed(rs, m)
    ensures ms.None? <==> Unordered(rs)
  {
    SelectionListed(rs);
    SelectionOrder(rs);
    hide Listed, Unordered, Increasing, Selection;
    NothingSelected(rs);
    var found: seq<Mapping> := [];
    var previousFrom: int := -1;
    for k := 0 to |rs|
      invariant found == Selection(rs[..k]) && Increasing(found)
      invariant previousFrom == if found == [] then -1 else found[|found| - 1].from
    {
      var r := rs[k];
      SelectsNext(rs, k, found);
      if !Selected(r) {
        continue;
      }
      if r.code <= previousFrom {
        StaysUnsorted(rs, k + 1);
        return None;
      }
      found := found + [Mapping(r.code, r.to)];
      previousFrom := r.code;
    }
    assert rs[..|rs|] == rs;
    return Some(found);
  }

  lemma {:induction false} SelectionListed(rs: seq<Record>)
    ensures forall m :: m in Selection(rs) <==> Listed(rs, m)
  {
    if rs != [] {
      var before, r := rs[..|rs| - 1], rs[|rs| - 1];
      SelectionListed(before);
      assert Selection(rs) == Selection(before) + if r.status in "CS" then [Mapping(r.code, r.to)] else [];
      forall m ensures m in Selection(rs) <==> Listed(rs, m) {
        ListedGrows(rs, m);
      }
    }
  }

  lemma ListedGrows(rs: seq<Record>, m: Mapping)
    requires rs != []
    ensures var before, r := rs[..|rs| - 1], rs[|rs| - 1];
            Listed(rs, m) <==> Listed(before, m) || (r.status in "CS" && m == Mapping(r.code, r.to))
  {
    var before, r := rs[..|rs| - 1], rs[|rs| - 1];
    if k :| 0 <= k < |before| && before[k].status in "CS" && m == Mapping(before[k].code, before[k].to) {
      assert rs[k] == before[k];
    }
    if Listed(rs, m) {
      var k :| 0 <= k < |rs| && rs[k].status in "CS" && m == Mapping(rs[k].code, rs[k].to);
      assert k < |before| ==> before[k] == rs[k];
    }
  }

  lemma {:induction false} SelectionOrder(rs: seq<Record>)
    ensures Increasing(Selection(rs)) <==> !Unordered(rs)
  {
    if rs != [] {
      var before, r := rs[..|rs| - 1], rs[|rs| - 1];
      SelectionOrder(before);
      SelectionListed(before);
      UnorderedGrows(rs);
      var s := Selection(before);
      assert Selection(rs) == s + if r.status in "CS" then [Mapping(r.code, r.to)] else [];
      hide Selection, Listed, Unordered, Increasing;
      if r.status in "CS" {
        LastInOrder(s, Mapping(r.code, r.to));
      }
    }
  }

  lemma UnorderedGrows(rs: seq<Record>)
    requires rs != []
    ensures var before, r := rs[..|rs| - 1], rs[|rs| - 1];
            Unordered(rs) <==> Unordered(before) || (r.status in "CS" && exists m :: Listed(before, m) && r.code <= m.from)
  {
    var before, r := rs[..|rs| - 1], rs[|rs| - 1];
    if Unordered(rs) {
      var i, j :| 0 <= i < j < |rs| && rs[i].status in "CS" && rs[j].status in "CS" && rs[j].code <= rs[i].code;
      assert before[i] == rs[i];
      if j < |before| {
        assert before[j] == rs[j];
      } else {
        assert Listed(before, Mapping(rs[i].code, rs[i].to));
      }
    }
    hide Unordered;
    if Unordered(before) {
      StillUnordered(rs);
    }
    if m :| r.status in "CS" && Listed(before, m) && r.code <= m.from {
      LastUnordered(rs, m);
    }
  }

  lemma StillUnordered(rs: seq<Record>)
    requires rs != [] && Unordered(rs[..|rs| - 1])
    ensures Unordered(rs)
  {
    var before := rs[..|rs| - 1];
    var i, j :| 0 <= i < j < |before| && before[i].status in "CS" && before[j].status in "CS" && before[j].code <= before[i].code;
    assert rs[i] == before[i] && rs[j] == before[j];
  }

  lemma LastUnordered(rs: seq<Record>, m: Mapping)
    requires rs != [] && rs[|rs| - 1].status in "CS" && Listed(rs[..|rs| - 1], m) && rs[|rs| - 1].code <= m.from
    ensures Unordered(rs)
  {
    var before := rs[..|rs| - 1];
    var i :| 0 <= i < |before| && before[i].status in "CS" && m == Mapping(before[i].code, before[i].to);
    assert rs[i] == before[i];
  }

  lemma LastInOrder(s: seq<Mapping>, m: Mapping)
    ensures Increasing(s + [m]) <==> Increasing(s) && forall x :: x in s ==> x.from < m.from
  {
    var t := s + [m];
    assert forall i :: 0 <= i < |s| ==> t[i] == s[i];
    if Increasing(t) {
      forall i, j | 0 <= i < j < |s| ensures s[i].from < s[j].from {
        assert t[i].from < t[j].from;
      }
      forall x | x in s ensures x.from < m.from {
        var i :| 0 <= i < |s| && s[i] == x;
        assert t[i].from < t[|s|].from;
      }
    }
  }

  lemma {:induction false} StaysUnsorted(rs: seq<Record>, k: nat)
    requires k <= |rs| && !Increasing(Selection(rs[..k]))
    ensures !Increasing(Selection(rs))
    decreases |rs| - k
  {
    if k == |rs| {
      assert rs[..k] == rs;
    } else {
      assert rs[..k + 1][..k] == rs[..k];
      var s, t := Selection(rs[..k]), Selection(rs[..k + 1]);
      assert forall i :: 0 <= i < |s| ==> t[i] == s[i];
      StaysUnsorted(rs, k + 1);
    }
  }

  // ----- Generated decisions -------------------------------------------------------------------------

  datatype Rule =
    | IfEqual(c: int, result: int)                            // if (C == c) return result;
    | IfBelow(first: int)                                     // if (C < first) return C;
    | IfUpToModulo(last: int, stride: int, modulo: int, shift: int)
    | IfUpToOr1(last: int)                                    // if (C <= last) return C | 1;
    | IfUpTo(last: int, shift: int)                           // if (C <= last) return C + shift;

  /** The remainder of the generated code's language, which has the sign of the dividend. */
  function Rem(a: int, b: int): int
    requires b > 0
  {
    if a >= 0 then a % b else -((-a) % b)
  }

  function Or1(c: int): int {
    if c % 2 == 0 then c + 1 else c
  }

  predicate WellFormed(rules: seq<Rule>) {
    forall k :: 0 <= k < |rules| ==> rules[k].IfUpToModulo? ==> rules[k].stride > 0
  }

  /** What a decision returns, if it does. */
  function Fires(r: Rule, c: int): Option<int>
    requires r.IfUpToModulo? ==> r.stride > 0
  {
    match r
    case IfEqual(x, result) => if c == x then Some(result) else None
    case IfBelow(first) => if c < first then Some(c) else None
    case IfUpToModulo(last, stride, modulo, shift) => if c <= last && Rem(c, stride) == modulo then Some(c + shift) else None
    case IfUpToOr1(last) => if c <= last then Some(Or1(c)) else None
    case IfUpTo(last, shift) => if c <= last then Some(c + shift) else None
  }

  function FirstFire(rules: seq<Rule>, c: int): Option<int>
    requires WellFormed(rules)
  {
    if rules == [] then None
    else if Fires(rules[0], c).Some? then Fires(rules[0], c)
    else FirstFire(rules[1..], c)
  }

  /** The generated function. */
  function FoldCharSimple(rules: seq<Rule>, c: int): int
    requires WellFormed(rules)
  {
    if FirstFire(rules, c).Some? then FirstFire(rules, c).value else c
  }

  ghost predicate Maps(ms: seq<Mapping>, c: int) {
    exists i :: 0 <= i < |ms| && ms[i].from == c
  }

  /** The mapped character, or the character itself. */
  ghost function Folded(ms: seq<Mapping>, c: int): int {
    if i :| 0 <= i < |ms| && ms[i].from == c then ms[i].to else c
  }

  // ----- Blocks -----------------------------------------------------------------------------------------

  function Shift(m: Mapping): int {
    m.to - m.from
  }

  function Stride2(m: Mapping, n: Mapping): int {
    n.from - m.from
  }

  function Stride(b: seq<Mapping>): int
    requires |b| >= 2
  {
    Stride2(b[0], b[1])
  }

  /** One shift, one stride. */
  ghost predicate IsBlock(b: seq<Mapping>) {
    && b != [] && (forall i :: 0 <= i < |b| ==> Shift(b[i]) == Shift(b[0]))
    && (|b| > 1 ==> Stride(b) > 0 && forall i {:trigger b[i]} :: 0 <= i < |b| ==> b[i].from == b[0].from + i * Stride(b))
  }

  /** m would have gone into block b. */
  predicate Fits(b: seq<Mapping>, m: Mapping) {
    b != [] && Shift(b[0]) == Shift(m) && (|b| == 1 || Stride(b) == Stride2(b[|b| - 1], m))
  }

  function BlockRules(b: seq<Mapping>): seq<Rule> {
    if b == [] then []
    else if |b| == 1 then [IfEqual(b[0].from, b[0].to)]
    else
      var first, stride, shift := b[0].from, Stride(b), Shift(b[0]);
      var last := first + stride * (|b| - 1);
      if stride <= 0 then []
      else
        [IfBelow(first),
         if stride == 2 && shift == 1 && first % stride == 0 then IfUpToOr1(last)
         else if stride == 1 then IfUpTo(last, shift)
         else IfUpToModulo(last, stride, first % stride, shift)]
  }

  function AllRules(blocks: seq<seq<Mapping>>): seq<Rule> {
    if blocks == [] then [] else AllRules(blocks[..|blocks| - 1]) + BlockRules(blocks[|blocks| - 1])
  }

  function Concat(blocks: seq<seq<Mapping>>): seq<Mapping> {
    if blocks == [] then [] else Concat(blocks[..|blocks| - 1]) + blocks[|blocks| - 1]
  }

  // ----- The generator ---------------------------------------------------------------------------------------

  class Generator {
    var body: seq<Rule>

    constructor ()
      ensures body == []
    {
      body := [];
    }

    /** Appends the decisions for a block: one for a single mapping, else what lets smaller characters alone and then the
        simplest test that tells the others of the block. */
    method DumpBlock(b: seq<Mapping>)
      requires IsBlock(b)
      modifies this
      ensures body == old(body) + BlockRules(b)
      ensures |b| == 1 ==> body == old(body) + [IfEqual(b[0].from, b[0].to)]
      ensures |b| > 1 ==>
                var last, stride, shift := b[|b| - 1].from, b[1].from - b[0].from, b[0].to - b[0].from;
                && |body| == |old(body)| + 2 && body[|old(body)|] == IfBelow(b[0].from)
                && body[|old(body)| + 1] == if stride == 1 then IfUpTo(last, shift)
                                            else if stride == 2 && shift == 1 && b[0].from % 2 == 0 then IfUpToOr1(last)
                                            else IfUpToModulo(last, stride, b[0].from % stride, shift)
    {
      if |b| == 1 {
        body := body + [IfEqual(b[0].from, b[0].to)];
        return;
      }
      var first := b[0].from;
      var last := first + Stride(b) * (|b| - 1);
      var modulo := first % Stride(b);
      body := body + [IfBelow(first)];
      var pattern := IfUpToModulo(last, Stride(b), modulo, Shift(b[0]));
      if Stride(b) == 2 && Shift(b[0]) == 1 && modulo == 0 {
        pattern := IfUpToOr1(last);
      } else if Stride(b) == 1 {
        pattern := IfUpTo(last, Shift(b[0]));
      }
      body := body + [pattern];
      assert BlockRules(b) == [IfBelow(first), pattern];
    }

    /** Compiles a table: the generated function folds every character as the table says, and no two neighbouring
        blocks could have been one. */
    method Generate(ms: seq<Mapping>) returns (ghost blocks: seq<seq<Mapping>>)
      requires ms != [] && Increasing(ms) && body == []
      modifies this
      ensures WellFormed(body) && forall c: int :: FoldCharSimple(body, c) == Folded(ms, c)
      ensures (forall k :: 0 <= k < |blocks| ==> IsBlock(blocks[k])) && Concat(blocks) == ms && body == AllRules(blocks)
      ensures forall k :: 0 <= k < |blocks| - 1 ==> SeparateAt(blocks, k)
    {
      hide *;
      blocks := [];
      var currentBlock: seq<Mapping> := [];
      Begins(ms);
      for k := 0 to |ms|
        invariant Grouped(blocks, currentBlock, ms, k, body)
      {
        var m := ms[k];
        if |currentBlock| == 0 {
          Adds(blocks, currentBlock, ms, k, body);
          currentBlock := currentBlock + [m];
          continue;
        }
        Current(blocks, currentBlock, ms, k, body);
        if Shift(currentBlock[0]) != Shift(m) {
          Starts(blocks, currentBlock, ms, k, body);
          DumpBlock(currentBlock);
          blocks := blocks + [currentBlock];
          currentBlock := [m];
          continue;
        }
        if |currentBlock| == 1 || Stride(currentBlock) == Stride2(currentBlock[|currentBlock| - 1], m) {
          Adds(blocks, currentBlock, ms, k, body);
          currentBlock := currentBlock + [m];
          continue;
        }
        Starts(blocks, currentBlock, ms, k, body);
        DumpBlock(currentBlock);
        blocks := blocks + [currentBlock];
        currentBlock := [m];
      }
      Ends(blocks, currentBlock, ms, body);
      DumpBlock(currentBlock);
      blocks := blocks + [currentBlock];
    }
  }

  /** No block would have taken the first mapping of the next. */
  ghost predicate Separate(blocks: seq<seq<Mapping>>) {
    forall k :: 0 <= k < |blocks| - 1 ==> SeparateAt(blocks, k)
  }

  ghost predicate SeparateAt(blocks: seq<seq<Mapping>>, k: nat)
    requires k < |blocks| - 1
  {
    && blocks[k] != [] && blocks[k + 1] != []
    && var b, m := blocks[k], blocks[k + 1][0];
       || m.to - m.from != b[0].to - b[0].from
       || (|b| > 1 && m.from - b[|b| - 1].from != b[1].from - b[0].from)
  }

  lemma SeparateGrows(a: seq<seq<Mapping>>, b: seq<Mapping>)
    requires Separate(a) && b != [] && (a != [] ==> a[|a| - 1] != [] && !Fits(a[|a| - 1], b[0]))
    ensures Separate(a + [b])
  {
    forall k | 0 <= k < |a| ensures SeparateAt(a + [b], k) {
      assert k < |a| - 1 ==> SeparateAt(a, k);
    }
  }

  lemma SeparateStays(blocks: seq<seq<Mapping>>, b: seq<Mapping>, c: seq<Mapping>)
    requires Separate(blocks + [b]) && b != [] && c != [] && b[0] == c[0]
    ensures Separate(blocks + [c])
  {
    hide Fits;
    forall k | 0 <= k < |blocks| ensures SeparateAt(blocks + [c], k) {
      assert SeparateAt(blocks + [b], k);
    }
  }

  /** The first k mappings are in blocks, all but the last of which have been compiled. */
  ghost predicate Grouped(blocks: seq<seq<Mapping>>, current: seq<Mapping>, ms: seq<Mapping>, k: nat, body: seq<Rule>) {
    && k <= |ms| && Concat(blocks) + current == ms[..k] && body == AllRules(blocks)
    && (forall j :: 0 <= j < |blocks| ==> IsBlock(blocks[j]))
    && (if k > 0 then IsBlock(current) && Separate(blocks + [current]) else blocks == [] && current == [])
    && WellFormed(body) && Right(body, Concat(blocks))
  }

  lemma Begins(ms: seq<Mapping>)
    ensures Grouped([], [], ms, 0, [])
  {
  }

  lemma Current(blocks: seq<seq<Mapping>>, current: seq<Mapping>, ms: seq<Mapping>, k: nat, body: seq<Rule>)
    requires Grouped(blocks, current, ms, k, body) && current != [] && k < |ms|
    ensures k > 0
    ensures Fits(current, ms[k]) <==> Shift(current[0]) == Shift(ms[k])
                                      && (|current| == 1 || Stride(current) == Stride2(current[|current| - 1], ms[k]))
  {
  }

  lemma Adds(blocks: seq<seq<Mapping>>, current: seq<Mapping>, ms: seq<Mapping>, k: nat, body: seq<Rule>)
    requires Grouped(blocks, current, ms, k, body) && k < |ms| && Increasing(ms) && (current == [] || Fits(current, ms[k]))
    ensures Grouped(blocks, current + [ms[k]], ms, k + 1, body)
  {
    hide FirstFire, WellFormed, Right, AllRules;
    var m := ms[k];
    assert ms[..k + 1] == ms[..k] + [m];
    if k == 0 {
      assert current + [m] == [m];
    } else {
      Grows(current, m, ms, k, Concat(blocks));
      hide Fits, Separate, Concat;
      assert (current + [m])[0] == current[0];
      SeparateStays(blocks, current, current + [m]);
    }
  }

  lemma Starts(blocks: seq<seq<Mapping>>, current: seq<Mapping>, ms: seq<Mapping>, k: nat, body: seq<Rule>)
    requires Grouped(blocks, current, ms, k, body) && 0 < k < |ms| && Increasing(ms) && !Fits(current, ms[k])
    ensures IsBlock(current) && Grouped(blocks + [current], [ms[k]], ms, k + 1, body + BlockRules(current))
  {
    hide FirstFire, WellFormed, Right, AllRules, BlockRules, Separate, Fits, Concat;
    Dumped(body, blocks, current, ms, k);
    assert ms[..k + 1] == ms[..k] + [ms[k]];
    assert IsBlock([ms[k]]) && current != [];
    hide IsBlock;
    SeparateGrows(blocks + [current], [ms[k]]);
  }

  lemma Ends(blocks: seq<seq<Mapping>>, current: seq<Mapping>, ms: seq<Mapping>, body: seq<Rule>)
    requires Grouped(blocks, current, ms, |ms|, body) && ms != [] && Increasing(ms)
    ensures var blocks', body' := blocks + [current], body + BlockRules(current);
            && IsBlock(current) && (forall k :: 0 <= k < |blocks'| ==> IsBlock(blocks'[k]))
            && Concat(blocks') == ms && body' == AllRules(blocks') && (forall k :: 0 <= k < |blocks'| - 1 ==> SeparateAt(blocks', k))
            && WellFormed(body') && forall c: int :: FoldCharSimple(body', c) == Folded(ms, c)
  {
    hide FirstFire, WellFormed, Right, AllRules, BlockRules;
    assert ms[..|ms|] == ms;
    Dumped(body, blocks, current, ms, |ms|);
    RightFolds(body + BlockRules(current), ms);
  }

  // ----- What the decisions so far do -------------------------------------------------------------------------

  /** The decisions are right about the characters in ms, leave any other alone, and say nothing of those behind. */
  ghost predicate Right(rules: seq<Rule>, ms: seq<Mapping>)
    requires WellFormed(rules)
  {
    && (forall i :: 0 <= i < |ms| ==> FirstFire(rules, ms[i].from) == Some(ms[i].to))
    && (forall c: int :: FirstFire(rules, c).Some? && !Maps(ms, c) ==> FirstFire(rules, c).value == c)
    && (forall c: int :: FirstFire(rules, c).Some? ==> ms != [] && c <= ms[|ms| - 1].from)
  }

  lemma {:induction false} FireAppends(a: seq<Rule>, b: seq<Rule>, c: int)
    requires WellFormed(a) && WellFormed(b)
    ensures WellFormed(a + b) && FirstFire(a + b, c) == if FirstFire(a, c).Some? then FirstFire(a, c) else FirstFire(b, c)
  {
    if a == [] {
      assert a + b == b;
    } else {
      assert (a + b)[1..] == a[1..] + b;
      assert WellFormed(a[1..]) by {
        assert forall k :: 0 <= k < |a[1..]| ==> a[1..][k] == a[k + 1];
      }
      FireAppends(a[1..], b, c);
      assert WellFormed(a + b) by {
        assert forall k :: 0 <= k < |a + b| ==> (a + b)[k] == if k < |a| then a[k] else b[k - |a|];
      }
    }
  }

  lemma RightFolds(rules: seq<Rule>, ms: seq<Mapping>)
    requires WellFormed(rules) && Right(rules, ms) && Increasing(ms)
    ensures forall c: int :: FoldCharSimple(rules, c) == Folded(ms, c)
  {
    hide FirstFire, WellFormed;
    forall c: int ensures FoldCharSimple(rules, c) == Folded(ms, c) {
      if Maps(ms, c) {
        var i :| 0 <= i < |ms| && ms[i].from == c;
        var j :| 0 <= j < |ms| && ms[j].from == c && Folded(ms, c) == ms[j].to;
        assert i == j;
      }
    }
  }

  lemma Grows(b: seq<Mapping>, m: Mapping, ms: seq<Mapping>, k: nat, before: seq<Mapping>)
    requires IsBlock(b) && Increasing(ms) && k < |ms| && m == ms[k] && before + b == ms[..k] && Fits(b, m)
    ensures IsBlock(b + [m])
  {
    assert b[|b| - 1] == ms[k - 1] by {
      assert (before + b)[k - 1] == b[|b| - 1];
    }
    var b' := b + [m];
    assert forall i :: 0 <= i < |b| ==> b'[i] == b[i];
    if |b| > 1 {
      var stride := Stride(b);
      forall i | 0 <= i < |b'| ensures b'[i].from == b[0].from + i * stride {
        if i == |b| {
          assert b[|b| - 1].from == b[0].from + (|b| - 1) * stride;
          NextStep(|b| - 1, stride);
        }
      }
    }
  }

  lemma NextStep(n: int, stride: int)
    ensures n * stride + stride == (n + 1) * stride
  {
  }

  lemma Dumped(rules: seq<Rule>, blocks: seq<seq<Mapping>>, b: seq<Mapping>, ms: seq<Mapping>, k: nat)
    requires (forall j :: 0 <= j < |blocks| ==> IsBlock(blocks[j])) && rules == AllRules(blocks)
    requires WellFormed(rules) && Right(rules, Concat(blocks)) && IsBlock(b) && k <= |ms| && Concat(blocks) + b == ms[..k] && Increasing(ms)
    ensures var blocks' := blocks + [b];
            && AllRules(blocks') == rules + BlockRules(b) && Concat(blocks') == Concat(blocks) + b
            && WellFormed(rules + BlockRules(b)) && Right(rules + BlockRules(b), Concat(blocks'))
  {
    hide Right, WellFormed, IsBlock, BlockRules;
    assert (blocks + [b])[..|blocks|] == blocks;
    FollowsOn(Concat(blocks), b, ms, k);
    RightAppends(rules, Concat(blocks), b);
  }

  lemma FollowsOn(before: seq<Mapping>, b: seq<Mapping>, ms: seq<Mapping>, k: nat)
    requires k <= |ms| && before + b == ms[..k] && Increasing(ms)
    ensures Increasing(before + b)
  {
    assert forall i :: 0 <= i < k ==> (before + b)[i] == ms[i];
  }

  /** The decisions for a block do what they should behind those for the blocks before it. */
  lemma RightAppends(rules: seq<Rule>, before: seq<Mapping>, b: seq<Mapping>)
    requires WellFormed(rules) && Right(rules, before) && IsBlock(b) && Increasing(before + b)
    ensures WellFormed(rules + BlockRules(b)) && Right(rules + BlockRules(b), before + b)
  {
    var all, ms := rules + BlockRules(b), before + b;
    BlockIsWellFormed(b);
    hide FirstFire, WellFormed, BlockRules, IsBlock;
    FireAppends(rules, BlockRules(b), 0);
    forall i | 0 <= i < |ms| ensures FirstFire(all, ms[i].from) == Some(ms[i].to) {
      FireAppends(rules, BlockRules(b), ms[i].from);
      if i >= |before| {
        assert ms[i] == b[i - |before|];
        BlockFires(b, i - |before|);
        assert before != [] ==> ms[|before| - 1].from < ms[i].from;
      }
    }
    forall c: int | FirstFire(all, c).Some?
      ensures c <= ms[|ms| - 1].from && (!Maps(ms, c) ==> FirstFire(all, c).value == c)
    {
      FireAppends(rules, BlockRules(b), c);
      BlockLeaves(b, c);
      if before != [] {
        assert ms[|before| - 1].from < ms[|ms| - 1].from;
      }
      assert ms[|ms| - 1] == b[|b| - 1];
      if Maps(before, c) {
        var i :| 0 <= i < |before| && before[i].from == c;
        assert ms[i] == before[i];
      }
      if Maps(b, c) {
        var i :| 0 <= i < |b| && b[i].from == c;
        assert ms[|before| + i] == b[i];
      }
    }
  }

  lemma BlockIsWellFormed(b: seq<Mapping>)
    requires IsBlock(b)
    ensures WellFormed(BlockRules(b))
  {
  }

  lemma TwoRules(a: Rule, b: Rule, c: int)
    requires WellFormed([a, b])
    ensures (a.IfUpToModulo? ==> a.stride > 0) && (b.IfUpToModulo? ==> b.stride > 0)
    ensures FirstFire([a, b], c) == if Fires(a, c).Some? then Fires(a, c) else Fires(b, c)
  {
    assert [a, b][0] == a && [a, b][1] == b && [a, b][1..] == [b];
    OneRule(b, c);
  }

  lemma OneRule(a: Rule, c: int)
    requires WellFormed([a])
    ensures (a.IfUpToModulo? ==> a.stride > 0) && FirstFire([a], c) == Fires(a, c)
  {
    assert [a][0] == a && [a][1..] == [];
  }

  /** A block's decisions map its characters. */
  lemma BlockFires(b: seq<Mapping>, i: nat)
    requires IsBlock(b) && i < |b| && WellFormed(BlockRules(b))
    ensures FirstFire(BlockRules(b), b[i].from) == Some(b[i].to)
  {
    var rules := BlockRules(b);
    if |b| == 1 {
      OneRule(rules[0], b[i].from);
    } else {
      assert rules == [rules[0], rules[1]];
      TwoRules(rules[0], rules[1], b[i].from);
      var s := Stride(b);
      assert b[i].from == b[0].from + i * s;
      InOrder(i, |b| - 1, s);
      SameRemainder(b[0].from, i, s);
      assert Shift(b[i]) == Shift(b[0]);
    }
  }

  /** A block's decisions leave other characters alone, and say nothing of those behind it. */
  lemma BlockLeaves(b: seq<Mapping>, c: int)
    requires IsBlock(b) && WellFormed(BlockRules(b))
    ensures FirstFire(BlockRules(b), c).Some? ==> c <= b[|b| - 1].from && (!Maps(b, c) ==> FirstFire(BlockRules(b), c).value == c)
  {
    var rules := BlockRules(b);
    if |b| == 1 {
      OneRule(rules[0], c);
      assert c == b[0].from ==> Maps(b, c);
    } else {
      assert rules == [rules[0], rules[1]];
      TwoRules(rules[0], rules[1], c);
      var first, s := b[0].from, Stride(b);
      assert b[|b| - 1].from == first + (|b| - 1) * s;
      InOrder(0, |b| - 1, s);
      if first <= c <= first + s * (|b| - 1) && c % s == first % s {
        var i := SomeStep(first, c, s, |b|);
        assert b[i].from == c && Maps(b, c);
      }
    }
  }

  lemma InOrder(i: nat, n: nat, s: int)
    requires i <= n && s > 0
    ensures 0 <= i * s <= n * s == s * n
  {
    assert (n - i) * s >= 0;
    assert n * s == i * s + (n - i) * s;
  }

  lemma SameRemainder(first: nat, i: nat, s: int)
    requires s > 0
    ensures (first + i * s) % s == first % s
    decreases i
  {
    if i > 0 {
      SameRemainder(first, i - 1, s);
      assert first + i * s == (first + (i - 1) * s) + s;
      OneStride(first + (i - 1) * s, s);
    }
  }

  lemma OneStride(a: int, s: int)
    requires s > 0
    ensures (a + s) % s == a % s
  {
    var q, r := a / s, a % s;
    assert a + s == s * (q + 1) + r;
    Unique(a + s, s, q + 1, r);
  }

  lemma Unique(a: int, s: int, q: int, r: int)
    requires s > 0 && 0 <= r < s && a == s * q + r
    ensures a % s == r
  {
    var q', r' := a / s, a % s;
    assert s * (q - q') == r' - r;
    Multiple(s, q - q');
  }

  lemma Multiple(s: int, d: int)
    requires s > 0
    ensures (d >= 1 ==> s * d >= s) && (d <= -1 ==> s * d <= -s)
  {
  }

  lemma SomeStep(first: nat, c: int, s: int, n: nat) returns (i: nat)
    requires s > 0 && n > 0 && first <= c <= first + s * (n - 1) && c % s == first % s
    ensures i < n && c == first + i * s
  {
    var q := c / s - first / s;
    assert c - first == s * q;
    Multiple(s, q);
    Multiple(s, q - (n - 1));
    assert s * q == s * (n - 1) + s * (q - (n - 1));
    i := q;
  }
}
