/** Alias partitions over memory: pointers have addresses, and accesses conflict if they overlap. */
module AliasMemory {
  import opened Wrappers
  import opened AliasResults
  import opened AliasLocations
  import opened AliasPartitions

  /** Two accesses touch a common byte; an access of unknown size may touch any. */
  predicate Overlaps(addr: Ptr -> int, a: Loc, b: Loc) {
    && !Empty(a.size) && !Empty(b.size)
    && (a.size.Unknown? || b.size.Unknown? || (addr(a.p) < addr(b.p) + b.size.n && addr(b.p) < addr(a.p) + a.size.n))
  }

  ghost function Overlap(addr: Ptr -> int): Relation {
    (a, b) => Overlaps(addr, a, b)
  }

  // ----- Oracles --------------------------------------------------------------------------------

  /** The oracle never errs about a memory layout. */
  ghost predicate Right(aa: Oracle, addr: Ptr -> int) {
    && (forall a, b :: aa(a, b) == NoAlias ==> !Overlaps(addr, a, b))
    && (forall a, b :: aa(a, b) == MustAlias ==> addr(a.p) == addr(b.p) && Overlaps(addr, a, b))
  }

  /** Whatever is asked of the oracle and of the conflicts is met by memory. */
  lemma RightIsConsistent(aa: Oracle, addr: Ptr -> int)
    requires Right(aa, addr)
    ensures Consistent(aa, Overlap(addr))
  {
    var rel := Overlap(addr);
    forall a, b | aa(a, b) == MustAlias ensures SameStart(rel, a.p, b.p) {
      SameAddress(addr, a.p, b.p);
    }
  }

  lemma SameAddress(addr: Ptr -> int, p: Ptr, q: Ptr)
    ensures SameStart(Overlap(addr), p, q) <==> addr(p) == addr(q)
  {
    var rel := Overlap(addr);
    if SameStart(rel, p, q) {
      assert rel(Loc(p, Precise(1)), Loc(p, Precise(1))) <==> rel(Loc(q, Precise(1)), Loc(p, Precise(1)));
    }
    if addr(p) == addr(q) {
      forall s, x ensures rel(Loc(p, s), x) <==> rel(Loc(q, s), x) {
      }
    }
  }

  /** The oracle's own answers as conflicts: all that it does not say to be NoAlias. */
  ghost function OwnAnswers(aa: Oracle): Relation {
    (a, b) => aa(a, b) != NoAlias
  }

  /** What an oracle has to meet for its own answers: they are symmetric, hold of larger accesses too and of every two
      accesses through one pointer, unless an access is empty; and no third location tells apart what must alias. */
  ghost predicate Sensible(aa: Oracle) {
    && (forall a, b :: aa(a, b) == NoAlias ==> aa(b, a) == NoAlias)
    && (forall p, s, t, x :: Leq(s, t) && aa(Loc(p, t), x) == NoAlias ==> aa(Loc(p, s), x) == NoAlias)
    && (forall p, s, t :: aa(Loc(p, s), Loc(p, t)) == NoAlias ==> Empty(s) || Empty(t))
    && (forall a: Loc, b: Loc :: Empty(a.size) ==> aa(a, b) == NoAlias)
    && forall a, b, s, x :: aa(a, b) == MustAlias ==> (aa(Loc(a.p, s), x) == NoAlias <==> aa(Loc(b.p, s), x) == NoAlias)
  }

  lemma OwnAnswersAreConsistent(aa: Oracle)
    ensures Consistent(aa, OwnAnswers(aa)) <==> Sensible(aa)
  {
    var rel := OwnAnswers(aa);
    if Consistent(aa, rel) {
      assert forall a, b :: rel(a, b) <==> aa(a, b) != NoAlias;
      forall a, b, s, x | aa(a, b) == MustAlias ensures aa(Loc(a.p, s), x) == NoAlias <==> aa(Loc(b.p, s), x) == NoAlias {
        MustAliasHolds(aa, rel, a, b);
        assert rel(Loc(a.p, s), x) <==> rel(Loc(b.p, s), x);
      }
    }
  }

  /** An oracle that knows the layout of memory. */
  function Knowing(addr: Ptr -> int): Oracle {
    (a, b) => if !Overlaps(addr, a, b) then NoAlias else if addr(a.p) == addr(b.p) then MustAlias else MayAlias
  }

  // ----- The guard on growing accesses --------------------------------------------------------

  /** Every address has a pointer to it that has not been added yet. */
  ghost predicate AllAddressed(addr: Ptr -> int, known: Sizes) {
    forall a :: Addressed(addr, known, a)
  }

  ghost predicate Addressed(addr: Ptr -> int, known: Sizes, a: int) {
    exists p: Ptr :: p !in known && addr(p) == a
  }

  /** No new pointer, whatever it accesses, is told apart from a group that it conflicts with. */
  ghost predicate NothingIsMissed(s: Partition, aa: Oracle, rel: Relation)
    requires WellFormed(s)
  {
    forall y: Loc :: y.p !in s.sizes ==> Apart(After(s, aa, y).groups, After(s, aa, y).sizes, rel)
  }

  ghost function After(s: Partition, aa: Oracle, x: Loc): (s': Partition)
    requires WellFormed(s)
    ensures WellFormed(s') && s' == Added(s, aa, x)
  {
    AddedWellFormed(s, aa, x);
    Added(s, aa, x)
  }

  /** An addition keeps the guard exactly if afterwards no pointer that comes next is told apart wrongly. */
  lemma GuardIsExact(addr: Ptr -> int, s: Partition, x: Loc)
    requires var rel := Overlap(addr); WellFormed(s) && Begun(s.groups, rel) && SoundPartition(s, rel)
    requires AllAddressed(addr, After(s, Knowing(addr), x).sizes)
    ensures Guarded(s, Knowing(addr), x) <==> NothingIsMissed(After(s, Knowing(addr), x), Knowing(addr), Overlap(addr))
  {
    var aa, rel := Knowing(addr), Overlap(addr);
    RightIsConsistent(aa, addr);
    var s' := After(s, aa, x);
    AdditionIsSound(s, aa, rel, x);
    hide Consistent, Added, Begun, Guarded;
    if Guarded(s, aa, x) {
      forall y: Loc | y.p !in s'.sizes ensures Apart(After(s', aa, y).groups, After(s', aa, y).sizes, rel) {
        NewIsSound(s', aa, rel, y);
      }
    } else {
      UnguardedLoses(s, aa, x);
      var y := LostLocation(addr, s');
    }
  }

  /** Where a must-alias group has a pointer that is larger than the first one, a location just behind the first one
      is told apart from the group. */
  lemma LostLocation(addr: Ptr -> int, s: Partition) returns (y: Loc)
    requires WellFormed(s) && Begun(s.groups, Overlap(addr)) && !Largest(s.groups, s.sizes) && AllAddressed(addr, s.sizes)
    ensures y.p !in s.sizes
    ensures var s' := After(s, Knowing(addr), y); !Apart(s'.groups, s'.sizes, Overlap(addr))
  {
    hide Knowing, Overlaps;
    var i :| i in s.groups && !s.groups[i].may && !FirstIsLargest(s.groups[i], s.sizes);
    var q :| q in s.groups[i].members && !Leq(s.sizes[q], FirstSize(s.groups[i], s.sizes));
    var f := s.groups[i].members[0];
    assert f in s.groups[i].members && StartsTogether(s.groups[i], Overlap(addr));
    SameAddress(addr, f, q);
    y := JustBehind(addr, s.sizes, f, q);
    hide Leq, FirstIsLargest, SameStart;
    assert !GroupAliases(s.groups[i], s.sizes, Knowing(addr), y);
    StaysAlone(s, Knowing(addr), y, i);
    var s' := After(s, Knowing(addr), y);
    var j :| j in s'.groups && j != i && y.p in s'.groups[j].members;
    hide After, GroupAliases;
    assert At(s'.sizes, q) == At(s.sizes, q) && At(s'.sizes, y.p) == y;
    assert Overlap(addr)(At(s'.sizes, q), At(s'.sizes, y.p));
  }

  lemma JustBehind(addr: Ptr -> int, sizes: Sizes, f: Ptr, q: Ptr) returns (y: Loc)
    requires f in sizes && q in sizes && addr(f) == addr(q) && !Leq(sizes[q], sizes[f]) && AllAddressed(addr, sizes)
    ensures y.p !in sizes && Knowing(addr)(At(sizes, f), y) == NoAlias && Overlaps(addr, At(sizes, q), y)
  {
    assert Addressed(addr, sizes, addr(f) + sizes[f].n);
    var p: Ptr :| p !in sizes && addr(p) == addr(f) + sizes[f].n;
    y := Loc(p, Precise(1));
  }

  /** A new pointer does not come into a group that is not said to alias it. */
  lemma StaysAlone(s: Partition, aa: Oracle, y: Loc, i: Id)
    requires WellFormed(s) && y.p !in s.sizes && i in s.groups && !GroupHit(s.groups, s.sizes, aa, y, i)
    ensures var s' := After(s, aa, y);
            && i in s'.groups && s'.groups[i] == s.groups[i] && y.p in s'.sizes && s'.sizes[y.p] == y.size
            && (exists j :: j in s'.groups && j != i && y.p in s'.groups[j].members)
            && forall q :: q in s.groups[i].members ==> q in s'.sizes && s'.sizes[q] == s.sizes[q]
  {
    GroupsGathered(s.groups, s.sizes, aa, y, s.next);
    var (g, found) := GatheredGroups(s.groups, s.sizes, aa, y, s.next);
    hide GatheredGroups, GroupAliases, Mixed, ToldMust;
    if found.Some? {
      var f := found.value;
      GatheredFirst(s.groups, s.sizes, aa, y, s.next, g, f);
      GatheredSeparate(s, aa, y, g, f);
      assert i in g && g[i] == s.groups[i] && i != f;
      JoinedOther(g, s.sizes, aa, f, y, i);
      assert y.p in After(s, aa, y).groups[f].members;
    } else {
      assert y.p in After(s, aa, y).groups[s.next].members;
    }
  }

  // ----- Two runs that lose an alias -----------------------------------------------------------------

  function Address(p: Ptr): int {
    if p == 2 then 4 else 0
  }

  lemma NoneHit(s: Partition, aa: Oracle, x: Loc)
    requires Tracked(s.groups, s.sizes) && x.p !in s.sizes && forall i: Id :: i < s.next ==> !GroupHit(s.groups, s.sizes, aa, x, i)
    ensures Added(s, aa, x) == Partition(s.groups[s.next := Group(false, [x.p])], s.sizes[x.p := x.size], s.next + 1)
  {
    GroupsGathered(s.groups, s.sizes, aa, x, s.next);
  }

  lemma OneHit(groups: Groups, sizes: Sizes, aa: Oracle, x: Loc)
    requires Tracked(groups, sizes) && GroupHit(groups, sizes, aa, x, 0)
    ensures GatheredGroups(groups, sizes, aa, x, 1) == (groups, Some(0))
  {
    GatheredStep(groups, sizes, aa, x, 0);
    assert GatheredGroups(groups, sizes, aa, x, 0) == (groups, None);
  }

  lemma TwoHit(groups: Groups, sizes: Sizes, aa: Oracle, x: Loc)
    requires Tracked(groups, sizes) && GroupHit(groups, sizes, aa, x, 0) && GroupHit(groups, sizes, aa, x, 1)
    ensures GatheredGroups(groups, sizes, aa, x, 2) == (Merged(groups, sizes, aa, 0, 1), Some(0))
  {
    OneHit(groups, sizes, aa, x);
    GatheredStep(groups, sizes, aa, x, 1);
  }

  /** Pointers 0 and 1, tracked with 4 bytes and the given size, in groups as given. */
  function Two(groups: Groups, size: Size, next: Id): Partition {
    Partition(groups, map[0 := Precise(4), 1 := size], next)
  }

  /** A pointer of a must-alias group grows past the first one: 4 bytes at address 0 through pointers 0 and 1, then 8
      bytes through pointer 1. The bytes 4 to 7, accessed through pointer 2, end in another group. */
  lemma GrowthLosesAnAlias()
    ensures var locs := [Loc(0, Precise(4)), Loc(1, Precise(4)), Loc(1, Precise(8)), Loc(2, Precise(4))];
            var s := AddedAll(Knowing(Address), locs);
            Overlaps(Address, locs[2], locs[3]) && !OneGroup(s.groups, 1, 2) && 1 in s.sizes && 2 in s.sizes
  {
    var g := map[0 := Group(false, [0, 1])];
    FourAdded(Knowing(Address), Loc(0, Precise(4)), Loc(1, Precise(4)), Loc(1, Precise(8)), Loc(2, Precise(4)));
    FirstAdded();
    SecondJoins();
    assert Tracked(g, Two(g, UpTo(8), 1).sizes);
    SecondGrows();
    ThirdMisses(g, 1);
    hide *;
  }

  /** An empty access grows: 4 bytes at address 0 through pointer 0, none and then 8 through pointer 1. The group of
      pointer 1 is merged into that of pointer 0, which must alias it but is smaller, and the bytes 4 to 7 end in another. */
  lemma EmptyGrowthLosesAnAlias()
    ensures var locs := [Loc(0, Precise(4)), Loc(1, Precise(0)), Loc(1, Precise(8)), Loc(2, Precise(4))];
            var s := AddedAll(Knowing(Address), locs);
            Overlaps(Address, locs[2], locs[3]) && !OneGroup(s.groups, 1, 2) && 1 in s.sizes && 2 in s.sizes
  {
    FourAdded(Knowing(Address), Loc(0, Precise(4)), Loc(1, Precise(0)), Loc(1, Precise(8)), Loc(2, Precise(4)));
    FirstAdded();
    EmptyIsAlone();
    EmptyGrows();
    ThirdMisses(map[0 := Group(false, [0, 1])], 2);
    hide *;
  }

  lemma Answers()
    ensures Knowing(Address)(Loc(0, Precise(4)), Loc(1, Precise(4))) == MustAlias
    ensures Knowing(Address)(Loc(0, Precise(4)), Loc(1, Precise(8))) == MustAlias
    ensures Knowing(Address)(Loc(1, UpTo(8)), Loc(1, Precise(8))) == MustAlias
    ensures Knowing(Address)(Loc(0, Precise(4)), Loc(1, UpTo(8))) == MustAlias
    ensures Knowing(Address)(Loc(0, Precise(4)), Loc(1, Precise(0))) == NoAlias
    ensures Knowing(Address)(Loc(0, Precise(4)), Loc(2, Precise(4))) == NoAlias
  {
    KnowingSays(Address, Loc(0, Precise(4)), Loc(1, Precise(4)));
    KnowingSays(Address, Loc(0, Precise(4)), Loc(1, Precise(8)));
    KnowingSays(Address, Loc(1, UpTo(8)), Loc(1, Precise(8)));
    KnowingSays(Address, Loc(0, Precise(4)), Loc(1, UpTo(8)));
    KnowingSays(Address, Loc(0, Precise(4)), Loc(1, Precise(0)));
    KnowingSays(Address, Loc(0, Precise(4)), Loc(2, Precise(4)));
    hide Knowing;
  }

  lemma KnowingSays(addr: Ptr -> int, a: Loc, b: Loc)
    requires !a.size.Unknown? && !b.size.Unknown?
    ensures Knowing(addr)(a, b)
         == if Empty(a.size) || Empty(b.size) || addr(a.p) + a.size.n <= addr(b.p) || addr(b.p) + b.size.n <= addr(a.p) then NoAlias
            else if addr(a.p) == addr(b.p) then MustAlias else MayAlias
  {
  }

  const FIRST := Partition(map[0 := Group(false, [0])], map[0 := Precise(4)], 1)

  lemma FirstAdded()
    ensures Added(NOTHING, Knowing(Address), Loc(0, Precise(4))) == FIRST
  {
    NoneHit(NOTHING, Knowing(Address), Loc(0, Precise(4)));
  }

  lemma SecondJoins()
    ensures Added(FIRST, Knowing(Address), Loc(1, Precise(4))) == Two(map[0 := Group(false, [0, 1])], Precise(4), 1)
  {
    var aa, x := Knowing(Address), Loc(1, Precise(4));
    Answers();
    OneHit(FIRST.groups, FIRST.sizes, aa, x);
    hide GatheredGroups, Knowing;
    assert [0] + [1] == [0, 1];
  }

  lemma SecondGrows()
    ensures var g := map[0 := Group(false, [0, 1])];
            Added(Two(g, Precise(4), 1), Knowing(Address), Loc(1, Precise(8))) == Two(g, UpTo(8), 1)
  {
    var aa, x, g := Knowing(Address), Loc(1, Precise(8)), map[0 := Group(false, [0, 1])];
    var sizes := Two(g, UpTo(8), 1).sizes;
    Answers();
    OneHit(g, sizes, aa, x);
    hide GatheredGroups, Knowing;
    assert Grown(Two(g, Precise(4), 1).sizes, x) == sizes;
  }

  lemma EmptyIsAlone()
    ensures Added(FIRST, Knowing(Address), Loc(1, Precise(0)))
         == Two(map[0 := Group(false, [0]), 1 := Group(false, [1])], Precise(0), 2)
  {
    var aa, x := Knowing(Address), Loc(1, Precise(0));
    Answers();
    NoneHit(FIRST, aa, x);
  }

  lemma EmptyGrows()
    ensures Added(Two(map[0 := Group(false, [0]), 1 := Group(false, [1])], Precise(0), 2), Knowing(Address), Loc(1, Precise(8)))
         == Two(map[0 := Group(false, [0, 1])], UpTo(8), 2)
  {
    var aa, x, g := Knowing(Address), Loc(1, Precise(8)), map[0 := Group(false, [0]), 1 := Group(false, [1])];
    var sizes := Two(g, UpTo(8), 2).sizes;
    Answers();
    TwoHit(g, sizes, aa, x);
    hide GatheredGroups, Knowing;
    assert [0] + [1] == [0, 1];
    assert Grown(Two(g, Precise(0), 2).sizes, x) == sizes;
  }

  lemma ThirdMisses(g: Groups, next: Id)
    requires g == map[0 := Group(false, [0, 1])] && next > 0
    ensures Tracked(g, Two(g, UpTo(8), next).sizes)
    ensures var s := Added(Two(g, UpTo(8), next), Knowing(Address), Loc(2, Precise(4)));
            !OneGroup(s.groups, 1, 2) && 1 in s.sizes && 2 in s.sizes
    ensures Overlaps(Address, Loc(1, Precise(8)), Loc(2, Precise(4)))
  {
    var aa, x := Knowing(Address), Loc(2, Precise(4));
    Answers();
    NoneHit(Two(g, UpTo(8), next), aa, x);
  }

  lemma FourAdded(aa: Oracle, a: Loc, b: Loc, c: Loc, d: Loc)
    ensures AddedAll(aa, [a, b, c, d]) == After(After(After(After(NOTHING, aa, a), aa, b), aa, c), aa, d)
  {
    assert [a, b, c, d][..3] == [a, b, c] && [a, b, c][..2] == [a, b] && [a, b][..1] == [a] && [a][..0] == [];
    AddedLast(aa, [a, b, c, d]);
    AddedLast(aa, [a, b, c]);
    AddedLast(aa, [a, b]);
    AddedLast(aa, [a]);
    assert AddedAll(aa, []) == NOTHING;
  }
}
