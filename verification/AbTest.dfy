/** Finding the choices that make a test fail: all at once by bisection, or one by one. */
module AbTest {

  type Name = string

  /** Whether the test passes when these names are picked from B and all others from A. */
  type Test = set<Name> -> bool

  function Names(partition: seq<Name>): set<Name> {
    set n | n in partition
  }

  method CheckSequentially(choices: seq<Name>, test: Test) returns (knownGood: set<Name>)
    ensures knownGood == set n | n in choices && test({n})
  {
    knownGood := {};
    for k := 0 to |choices|
      invariant knownGood == set n | n in choices[..k] && test({n})
    {
      assert choices[..k + 1] == choices[..k] + [choices[k]];
      var picks := {choices[k]};
      if test(picks) {
        knownGood := knownGood + {choices[k]};
      }
    }
    assert choices[..|choices|] == choices;
  }

  /** How many tests it can take at most to deal with the partitions that failed. */
  function StepsFor(partitions: seq<seq<Name>>): int {
    if partitions == [] then 0 else (|partitions[0]| - 1) * 2 + StepsFor(partitions[1..])
  }

  lemma {:induction false} StepsAdd(a: seq<seq<Name>>, b: seq<seq<Name>>)
    ensures StepsFor(a + b) == StepsFor(a) + StepsFor(b)
  {
    if a == [] {
      assert a + b == b;
    } else {
      assert (a + b)[1..] == a[1..] + b;
      StepsAdd(a[1..], b);
    }
  }

  ghost predicate InSome(partitions: seq<seq<Name>>, n: Name) {
    exists p :: p in partitions && n in p
  }

  lemma {:induction false} StepsNotNegative(partitions: seq<seq<Name>>)
    requires forall p :: p in partitions ==> p != []
    ensures StepsFor(partitions) >= 0
  {
    if partitions != [] {
      assert partitions[0] in partitions && forall p :: p in partitions[1..] ==> p in partitions;
      StepsNotNegative(partitions[1..]);
    }
  }

  // ----- Few tests ------------------------------------------------------------------------------------

  /** A pick fails exactly if it contains a culprit. */
  ghost predicate FailsByCulprits(test: Test, culprits: set<Name>) {
    forall s :: test(s) <==> s !! culprits
  }

  function Count(partition: seq<Name>, culprits: set<Name>): nat {
    if partition == [] then 0 else (if partition[0] in culprits then 1 else 0) + Count(partition[1..], culprits)
  }

  /** How often n can be halved, rounding up, until one is left. */
  function Log(n: nat): nat {
    if n <= 1 then 0 else 1 + Log((n + 1) / 2)
  }

  function Pow2(n: nat): (r: nat)
    ensures r > 0
  {
    if n == 0 then 1 else 2 * Pow2(n - 1)
  }

  /** Log(n) is the exponent of the least power of two that is not below n. */
  lemma {:induction false} LogIsLeast(n: nat, k: nat)
    ensures n <= Pow2(k) <==> Log(n) <= k
    decreases k
  {
    if n > 1 && k > 0 {
      LogIsLeast((n + 1) / 2, k - 1);
    }
  }

  lemma {:induction false} LogGrows(m: nat, n: nat)
    requires m <= n
    ensures Log(m) <= Log(n)
  {
    if m > 1 {
      LogGrows((m + 1) / 2, (n + 1) / 2);
    }
  }

  lemma {:induction false} CountAdds(a: seq<Name>, b: seq<Name>, culprits: set<Name>)
    ensures Count(a + b, culprits) == Count(a, culprits) + Count(b, culprits)
  {
    if a == [] {
      assert a + b == b;
    } else {
      assert (a + b)[1..] == a[1..] + b;
      CountAdds(a[1..], b, culprits);
    }
  }

  lemma {:induction false} CountsCulprits(partition: seq<Name>, culprits: set<Name>)
    ensures Count(partition, culprits) == 0 <==> Names(partition) !! culprits
  {
    if partition != [] {
      CountsCulprits(partition[1..], culprits);
      assert partition == [partition[0]] + partition[1..];
      assert Names(partition) == {partition[0]} + Names(partition[1..]);
    }
  }

  /** The tests that a failed partition may still take: two for each culprit and each halving. */
  function Work(partition: seq<Name>, culprits: set<Name>): nat {
    2 * Count(partition, culprits) * Log(|partition|)
  }

  function AllWork(partitions: seq<seq<Name>>, culprits: set<Name>): nat {
    if partitions == [] then 0 else Work(partitions[0], culprits) + AllWork(partitions[1..], culprits)
  }

  lemma {:induction false} AllWorkAdds(a: seq<seq<Name>>, b: seq<seq<Name>>, culprits: set<Name>)
    ensures AllWork(a + b, culprits) == AllWork(a, culprits) + AllWork(b, culprits)
  {
    if a == [] {
      assert a + b == b;
    } else {
      assert (a + b)[1..] == a[1..] + b;
      AllWorkAdds(a[1..], b, culprits);
    }
  }

  /** The most tests it takes to find so many culprits among the choices. */
  function MostTests(choices: seq<Name>, culprits: set<Name>): int {
    if |choices| <= 1 then |choices| else 2 + 2 * Count(choices, culprits) * (Log(|choices|) - 1)
  }

  /** Halving a partition leaves less work, by two tests for each culprit. */
  lemma HalvesWork(partition: seq<Name>, left: seq<Name>, right: seq<Name>, culprits: set<Name>)
    requires partition == left + right && |partition| > 1 && |left| == |partition| / 2
    ensures Log(|partition|) >= 1
    ensures Work(left, culprits) + Work(right, culprits) <= 2 * Count(partition, culprits) * (Log(|partition|) - 1)
    ensures Work(partition, culprits) == 2 * Count(partition, culprits) * (Log(|partition|) - 1) + 2 * Count(partition, culprits)
  {
    CountAdds(left, right, culprits);
    LogGrows(|left|, (|partition| + 1) / 2);
    LogGrows(|right|, (|partition| + 1) / 2);
    var l := Log((|partition| + 1) / 2);
    assert Log(|partition|) == l + 1;
    hide Log, Count;
    Shares(Count(left, culprits), Count(right, culprits), Log(|left|), Log(|right|), l);
  }

  lemma Shares(a: nat, b: nat, x: nat, y: nat, l: nat)
    requires x <= l && y <= l
    ensures 2 * a * x + 2 * b * y <= 2 * (a + b) * l
    ensures 2 * (a + b) * (l + 1) == 2 * (a + b) * l + 2 * (a + b)
  {
    Scaled(2 * a, x, l);
    Scaled(2 * b, y, l);
    assert 2 * (a + b) * l == 2 * a * l + 2 * b * l;
  }

  lemma Scaled(a: nat, x: nat, y: nat)
    requires x <= y
    ensures a * x <= a * y
  {
  }

  class Bisection {
    const choices: seq<Name>
    const test: Test
    var knownGood: set<Name>
    var partitionsToSplit: seq<seq<Name>>
    var announced: seq<int>   // the bound on the remaining tests that was announced with each test

    constructor (choices: seq<Name>, test: Test)
      ensures this.choices == choices && this.test == test
      ensures knownGood == {} && partitionsToSplit == [] && announced == []
    {
      this.choices, this.test := choices, test;
      knownGood, partitionsToSplit, announced := {}, [], [];
    }

    /** A passing set vouches for each good name. */
    ghost predicate Vouched()
      reads this
    {
      forall n :: n in knownGood ==> exists s :: Passes(s, n)
    }

    ghost predicate Passes(s: set<Name>, n: Name) {
      n in s && s <= Names(choices) && test(s)
    }

    /** Each choice is known to be good, fails alone, or is in a partition still to be split or tested. */
    ghost predicate Covered(pending: seq<seq<Name>>)
      reads this
    {
      forall n :: n in choices ==> n in knownGood || !test({n}) || InSome(pending, n)
    }

    /** Each bound that was announced still holds if as many tests are to come as the failed partitions can take. */
    ghost predicate Bounded(toCome: int)
      reads this
    {
      forall i :: 0 <= i < |announced| ==> |announced| - i + toCome <= announced[i]
    }

    ghost predicate Splittable(partitions: seq<seq<Name>>) {
      forall k :: 0 <= k < |partitions| ==> |partitions[k]| > 1 && Names(partitions[k]) <= Names(choices) && !test(Names(partitions[k]))
    }

    /** With so many tests to come, and with what is pending if it fails, the tests are no more than it takes. */
    ghost predicate Few(tests: nat, pending: seq<seq<Name>>)
      reads this
    {
      forall culprits :: FailsByCulprits(test, culprits) ==>
        |announced| + tests + AllWork(partitionsToSplit + pending, culprits) <= MostTests(choices, culprits)
    }

    /** Tests a partition; the bound covers this test, the upcoming partition and all that failed before. */
    method TestPartition(partition: seq<Name>, upcoming: seq<Name>)
      requires partition != [] && Names(partition) <= Names(choices)
      requires Splittable(partitionsToSplit) && Vouched() && Covered(partitionsToSplit + [partition, upcoming])
      requires Bounded(|partition| * 2 - 1 + (if upcoming != [] then |upcoming| * 2 - 1 else 0) + StepsFor(partitionsToSplit))
      requires Few(if upcoming != [] then 2 else 1, [partition, upcoming])
      modifies this
      ensures Splittable(partitionsToSplit) && Vouched() && Covered(partitionsToSplit + [upcoming])
      ensures Few(if upcoming != [] then 1 else 0, [upcoming])
      ensures Bounded((if upcoming != [] then |upcoming| * 2 - 1 else 0) + StepsFor(partitionsToSplit))
      ensures |announced| == |old(announced)| + 1
      ensures StepsFor(partitionsToSplit) <= StepsFor(old(partitionsToSplit)) + (|partition| - 1) * 2
    {
      var maxRemainingSteps := |partition| * 2 - 1;
      if upcoming != [] {
        maxRemainingSteps := maxRemainingSteps + |upcoming| * 2 - 1;
      }
      ghost var start := maxRemainingSteps;
      for k := 0 to |partitionsToSplit|
        invariant maxRemainingSteps + StepsFor(partitionsToSplit[k..]) == start + StepsFor(partitionsToSplit)
      {
        assert partitionsToSplit[k..][1..] == partitionsToSplit[k + 1..];
        maxRemainingSteps := maxRemainingSteps + (|partitionsToSplit[k]| - 1) * 2;
      }
      announced := announced + [maxRemainingSteps];
      var picks := Names(partition);
      ghost var good := knownGood;
      if test(picks) {
        knownGood := knownGood + picks;
        assert forall n :: n in picks ==> Passes(picks, n);
      } else if |partition| > 1 {
        partitionsToSplit := [partition] + partitionsToSplit;
        assert partitionsToSplit[1..] == old(partitionsToSplit);
      } else {
        assert picks == {partition[0]};
      }
      Left(old(partitionsToSplit), good, partition, upcoming);
      forall culprits
        ensures AllWork(partitionsToSplit + [upcoming], culprits) <= AllWork(old(partitionsToSplit) + [partition, upcoming], culprits)
      {
        WorkLeft(old(partitionsToSplit), partition, upcoming, culprits);
      }
    }

    lemma WorkLeft(failed: seq<seq<Name>>, partition: seq<Name>, upcoming: seq<Name>, culprits: set<Name>)
      requires partitionsToSplit == failed || partitionsToSplit == [partition] + failed
      ensures AllWork(partitionsToSplit + [upcoming], culprits) <= AllWork(failed + [partition, upcoming], culprits)
    {
      AllWorkAdds(failed, [partition] + [upcoming], culprits);
      AllWorkAdds([partition], [upcoming], culprits);
      AllWorkAdds([partition], failed, culprits);
      AllWorkAdds(partitionsToSplit, [upcoming], culprits);
      assert [partition] + [upcoming] == [partition, upcoming];
    }

    /** What is left to be covered after a partition was tested. */
    lemma Left(failed: seq<seq<Name>>, good: set<Name>, partition: seq<Name>, upcoming: seq<Name>)
      requires forall n :: n in choices ==> n in good || !test({n}) || InSome(failed + [partition, upcoming], n)
      requires good <= knownGood
      requires || (Names(partition) <= knownGood && partitionsToSplit == failed)
               || partitionsToSplit == [partition] + failed
               || (|partition| == 1 && !test({partition[0]}) && partitionsToSplit == failed)
      ensures Covered(partitionsToSplit + [upcoming])
    {
      forall n | n in choices && n !in knownGood && test({n}) ensures InSome(partitionsToSplit + [upcoming], n) {
        var p :| p in failed + [partition, upcoming] && n in p;
        assert p in failed || p == partition || p == upcoming;
        if p == partition {
          assert n in Names(partition);
          assert p in partitionsToSplit;
        }
        assert p in partitionsToSplit + [upcoming];
      }
    }

    /** Whatever the test, a name that is not in the result fails alone, and each announced bound was kept. Where single
        names are to blame, there are two tests, and at most two more for each of them and each halving after the first. */
    method CheckBisect() returns (result: set<Name>)
      requires knownGood == {} && partitionsToSplit == [] && announced == []
      modifies this
      ensures result == knownGood && result <= Names(choices)
      ensures forall n :: n in choices && n !in result ==> !test({n})
      ensures forall n :: n in result ==> exists s :: Passes(s, n)
      ensures forall i :: 0 <= i < |announced| ==> |announced| - i <= announced[i]
      ensures choices != [] ==> 0 < |announced| <= 2 * |choices|
      ensures forall culprits :: FailsByCulprits(test, culprits) ==> |announced| <= MostTests(choices, culprits)
    {
      if |choices| == 0 {
        return knownGood;
      }
      partitionsToSplit := [choices];
      ghost var first := true;
      while |partitionsToSplit| > 0
        invariant first ==> partitionsToSplit == [choices] && announced == [] && knownGood == {}
        invariant !first ==> Splittable(partitionsToSplit) && announced != []
        invariant Vouched() && Covered(partitionsToSplit)
        invariant Bounded(StepsFor(partitionsToSplit))
        invariant |announced| + StepsFor(partitionsToSplit) <= 2 * |choices| - (if first then 2 else 0)
        invariant !first ==> Few(0, [])
        decreases first, StepsFor(partitionsToSplit)
      {
        var partition := partitionsToSplit[|partitionsToSplit| - 1];
        ghost var before := partitionsToSplit;
        assert before + [] == before;
        StepsAdd(partitionsToSplit[..|partitionsToSplit| - 1], [partition]);
        assert partitionsToSplit == partitionsToSplit[..|partitionsToSplit| - 1] + [partition];
        partitionsToSplit := partitionsToSplit[..|partitionsToSplit| - 1];
        var middle := |partition| / 2;
        var left := partition[0..middle];
        var right := partition[middle..];
        Splits(before, partition, left, right);
        FewHalves(before, partition, left, right, first);
        if |left| > 0 {
          TestPartition(left, right);
        }
        TakesEmpty(right);
        FewEmpty(1, right);
        TestPartition(right, []);
        DropsEmpty();
        FewDone();
        StepsNotNegative(partitionsToSplit);
        first := false;
      }
      forall n | n in knownGood ensures n in Names(choices) {
        var s :| Passes(s, n);
      }
      assert partitionsToSplit + [] == [];
      return knownGood;
    }

    /** Halving a partition that failed, or the choices, takes no more tests than may be. */
    lemma FewHalves(before: seq<seq<Name>>, partition: seq<Name>, left: seq<Name>, right: seq<Name>, first: bool)
      requires before == partitionsToSplit + [partition] && partition == left + right && |left| == |partition| / 2 && partition != []
      requires if first then partition == choices && partitionsToSplit == [] && announced == []
               else |partition| > 1 && !test(Names(partition)) && forall culprits :: FailsByCulprits(test, culprits) ==>
                      |announced| + AllWork(before, culprits) <= MostTests(choices, culprits)
      ensures if left != [] then Few(2, [left, right]) else Few(1, [right])
    {
      forall culprits | FailsByCulprits(test, culprits)
        ensures |announced| + (if left != [] then 2 else 1)
                + AllWork(partitionsToSplit + (if left != [] then [left, right] else [right]), culprits) <= MostTests(choices, culprits)
      {
        AllWorkAdds(partitionsToSplit, [partition], culprits);
        AllWorkAdds(partitionsToSplit, [left, right], culprits);
        AllWorkAdds(partitionsToSplit, [right], culprits);
        assert [left, right][1..] == [right];
        CountsCulprits(partition, culprits);
        if |partition| > 1 {
          HalvesWork(partition, left, right, culprits);
        } else {
          assert right == partition;
        }
      }
    }

    lemma FewEmpty(tests: nat, right: seq<Name>)
      requires Few(tests, [right])
      ensures Few(tests, [right, []])
    {
      forall culprits ensures AllWork(partitionsToSplit + [right, []], culprits) == AllWork(partitionsToSplit + [right], culprits) {
        AllWorkAdds(partitionsToSplit + [right], [[]], culprits);
        assert partitionsToSplit + [right, []] == partitionsToSplit + [right] + [[]];
      }
    }

    lemma FewDone()
      requires Few(0, [[]])
      ensures Few(0, [])
    {
      forall culprits ensures AllWork(partitionsToSplit + [], culprits) == AllWork(partitionsToSplit + [[]], culprits) {
        AllWorkAdds(partitionsToSplit, [[]], culprits);
        assert partitionsToSplit + [] == partitionsToSplit;
      }
    }

    lemma Splits(before: seq<seq<Name>>, partition: seq<Name>, left: seq<Name>, right: seq<Name>)
      requires before == partitionsToSplit + [partition] && partition == left + right && Covered(before)
      ensures Covered(partitionsToSplit + [left, right])
      ensures left == [] ==> Covered(partitionsToSplit + [right])
    {
      forall n | InSome(before, n)
        ensures InSome(partitionsToSplit + [left, right], n) && (left == [] ==> InSome(partitionsToSplit + [right], n))
      {
        var p :| p in before && n in p;
        if p == partition {
          assert n in left || n in right;
          assert left in partitionsToSplit + [left, right] && right in partitionsToSplit + [left, right];
          assert right in partitionsToSplit + [right];
        } else {
          assert p in partitionsToSplit + [left, right] && p in partitionsToSplit + [right];
        }
      }
    }

    lemma TakesEmpty(right: seq<Name>)
      requires Covered(partitionsToSplit + [right])
      ensures Covered(partitionsToSplit + [right, []])
    {
      forall n | InSome(partitionsToSplit + [right], n) ensures InSome(partitionsToSplit + [right, []], n) {
        var p :| p in partitionsToSplit + [right] && n in p;
        assert p in partitionsToSplit + [right, []];
      }
    }

    lemma DropsEmpty()
      requires Covered(partitionsToSplit + [[]])
      ensures Covered(partitionsToSplit)
    {
      forall n | InSome(partitionsToSplit + [[]], n) ensures InSome(partitionsToSplit, n) {
        var p :| p in partitionsToSplit + [[]] && n in p;
        assert p in partitionsToSplit;
      }
    }
  }

  // ----- Bisection and single tests ---------------------------------------------------------------

  /** What a bisection found holds all names that pass alone; where single names are to blame for every failure, it
      holds no others. */
  lemma BisectionAgainstSingles(choices: seq<Name>, test: Test, bisected: set<Name>, singles: set<Name>)
    requires singles == set n | n in choices && test({n})
    requires bisected <= Names(choices) && forall n :: n in choices && n !in bisected ==> !test({n})
    requires forall n :: n in bisected ==> exists s :: n in s && s <= Names(choices) && test(s)
    ensures singles <= bisected
    ensures forall culprits :: FailsByCulprits(test, culprits) ==> singles == bisected
  {
    forall culprits | FailsByCulprits(test, culprits) ensures singles == bisected {
      forall n | n in bisected ensures n in singles {
        var s :| n in s && s <= Names(choices) && test(s);
        assert s !! culprits;
        assert test({n}) <==> {n} !! culprits;
      }
    }
  }
}
