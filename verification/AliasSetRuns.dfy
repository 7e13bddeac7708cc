/** Whole runs of the alias set tracker. */
module AliasSetRuns {
  import opened Wrappers
  import opened AliasResults
  import opened AliasLocations
  import opened AliasPartitions
  import opened AliasMemory
  import opened AliasComponents
  import opened AliasSetModel
  import opened AliasSetTrackers

  function Locs(reqs: seq<Request>): (locs: seq<Loc>)
    ensures |locs| == |reqs| && forall i :: 0 <= i < |reqs| ==> locs[i] == reqs[i].loc
  {
    seq(|reqs|, i requires 0 <= i < |reqs| => reqs[i].loc)
  }

  ghost predicate Together(t: AliasSetTracker, p: Ptr, q: Ptr)
    reads t
  {
    && p in t.ptrs && q in t.ptrs && t.ptrs[p].aset in t.root && t.ptrs[q].aset in t.root
    && SetOf(t.ptrs, t.root, p) == SetOf(t.ptrs, t.root, q)
  }

  ghost predicate ConflictsTogetherIn(t: AliasSetTracker, conflict: Relation, reqs: seq<Request>)
    reads t
  {
    forall i, j :: 0 <= i < |reqs| && 0 <= j < |reqs| && conflict(reqs[i].loc, reqs[j].loc) ==>
      Together(t, reqs[i].loc.p, reqs[j].loc.p)
  }

  /** Pointers are together only through answers that they may alias, and a set is a may-alias set only if two of its
      pointers were not told to must-alias. */
  ghost predicate NoMoreThanSaid(t: AliasSetTracker)
    reads t
  {
    && (forall side, p, q :: Divides(t.aa, t.View().sizes, side) && Together(t, p, q) ==> (p in side <==> q in side))
    && MaysDoubted(t.View().groups, t.aa, t.View().sizes)
  }

  /** The sets are exactly what the accesses that may alias connect. */
  ghost predicate SetsAreComponents(t: AliasSetTracker)
    reads t
  {
    forall p, q :: p in t.ptrs && q in t.ptrs ==> (Together(t, p, q) <==> Connected(t.aa, t.View().sizes, p, q))
  }

  /** After none of the first k requests has the partition more pointers in may-alias groups than the threshold. */
  ghost predicate NeverFull(aa: Oracle, reqs: seq<Request>, k: nat, threshold: nat)
    requires k <= |reqs|
  {
    forall j: nat :: j <= k ==> |MayPtrs(AddedAll(aa, Locs(reqs[..j])).groups)| <= threshold
  }

  /** Adding any accesses comes to the partition that the locations make one by one, or saturates. Accesses that conflict
      end in one set if every addition keeps the guard, as all do if each pointer has one size, and in any case once the
      tracker is saturated. With the oracle's own answers as the conflicts, what it does not say to be NoAlias conflicts.
      Before saturation nothing is together without an answer that lets it be; with a sensible oracle and guarded additions
      the sets are the components of what may alias. */
  method AddAll(aa: Oracle, threshold: nat, ghost conflict: Relation, reqs: seq<Request>) returns (t: AliasSetTracker)
    requires Consistent(aa, conflict)
    ensures t.Valid() && t.aa == aa && t.conflict == conflict && t.asked == (set a | a in reqs)
    ensures t.anyAS.None? ==> t.View() == AddedAll(aa, Locs(reqs))
    ensures t.anyAS.Some? ==> |reqs| > threshold
    ensures t.anyAS.None? <==> NeverFull(aa, reqs, |reqs|, threshold)
    ensures EachGuarded(aa, Locs(reqs)) || FixedSizes(Locs(reqs)) ==> t.Sound() && ConflictsTogetherIn(t, conflict, reqs)
    ensures t.anyAS.Some? ==> forall i, j :: 0 <= i < |reqs| && 0 <= j < |reqs| ==> Together(t, reqs[i].loc.p, reqs[j].loc.p)
    ensures t.anyAS.None? ==> NoMoreThanSaid(t)
    ensures t.anyAS.None? && Sensible(aa) && (EachGuarded(aa, Locs(reqs)) || FixedSizes(Locs(reqs))) ==> SetsAreComponents(t)
  {
    hide *;
    t := new AliasSetTracker(aa, threshold, conflict);
    NothingAdded(aa, reqs);
    for k := 0 to |reqs|
      invariant fresh(t) && t.Valid() && t.asked == (set a | a in reqs[..k])
      invariant t.aa == aa && t.conflict == conflict
      invariant t.anyAS.None? ==> t.View() == AddedAll(aa, Locs(reqs[..k]))
      invariant t.anyAS.None? <==> NeverFull(aa, reqs, k, threshold)
      invariant t.threshold == threshold && |t.ptrs| <= k && (t.anyAS.Some? ==> k > threshold)
    {
      var a := reqs[k];
      ghost var before := t.ptrs;
      var _ := t.AddPointer(a.loc, a.access);
      FullLater(aa, reqs, k, threshold);
      OneMorePointer(before, t.ptrs, a.loc.p);
      OneMore(aa, reqs, k);
      assert Request(a.loc, a.access) == a && reqs[..k + 1] == reqs[..k] + [a];
    }
    assert reqs[..|reqs|] == reqs;
    RunEnds(t, reqs);
    if t.anyAS.None? {
      OnlyWhatIsSaid(t, Locs(reqs));
    }
  }

  lemma OnlyWhatIsSaid(t: AliasSetTracker, locs: seq<Loc>)
    requires t.Valid() && t.anyAS.None? && t.View() == AddedAll(t.aa, locs)
    ensures NoMoreThanSaid(t)
    ensures Sensible(t.aa) && (EachGuarded(t.aa, locs) || FixedSizes(locs)) ==> SetsAreComponents(t)
  {
    hide *;
    RunKeepsMust(t.aa, locs);
    TogetherOneSided(t, locs);
    SaidMeans(t);
    if Sensible(t.aa) && (EachGuarded(t.aa, locs) || FixedSizes(locs)) {
      if FixedSizes(locs) {
        FixedSizesAreGuarded(t.aa, locs);
      }
      TogetherConnected(t, locs);
    }
  }

  lemma SaidMeans(t: AliasSetTracker)
    requires forall side, p, q :: Divides(t.aa, t.View().sizes, side) && Together(t, p, q) ==> (p in side <==> q in side)
    requires MaysDoubted(t.View().groups, t.aa, t.View().sizes)
    ensures NoMoreThanSaid(t)
  {
  }

  lemma TogetherOneSided(t: AliasSetTracker, locs: seq<Loc>)
    requires t.Valid() && t.anyAS.None? && t.View() == AddedAll(t.aa, locs)
    ensures forall side, p, q :: Divides(t.aa, t.View().sizes, side) && Together(t, p, q) ==> (p in side <==> q in side)
  {
    forall side, p, q | Divides(t.aa, t.View().sizes, side) && Together(t, p, q) ensures p in side <==> q in side {
      OneGroupIsTogether(t, p, q);
      RunStaysDivided(t.aa, locs, side);
      hide Divides;
      var s := t.View();
      var i :| i in s.groups && p in s.groups[i].members && q in s.groups[i].members;
    }
  }

  lemma TogetherConnected(t: AliasSetTracker, locs: seq<Loc>)
    requires t.Valid() && t.anyAS.None? && t.View() == AddedAll(t.aa, locs) && Sensible(t.aa) && EachGuarded(t.aa, locs)
    ensures SetsAreComponents(t)
  {
    hide Sensible, EachGuarded, Connected, Together, AddedAll;
    forall p, q | p in t.ptrs && q in t.ptrs ensures Together(t, p, q) <==> Connected(t.aa, t.View().sizes, p, q) {
      OneGroupIsTogether(t, p, q);
      GroupsAreComponents(t.aa, locs, p, q);
      SizesTracked(t.ptrs, p);
      SizesTracked(t.ptrs, q);
    }
  }

  lemma NothingAdded(aa: Oracle, reqs: seq<Request>)
    ensures reqs[..0] == [] && NOTHING == AddedAll(aa, Locs(reqs[..0])) && forall threshold: nat :: NeverFull(aa, reqs, 0, threshold)
  {
    assert Locs(reqs[..0]) == [] && MayPtrs(NOTHING.groups) == {};
  }

  lemma OneMorePointer(before: Ptrs, ptrs: Ptrs, p: Ptr)
    requires ptrs.Keys == before.Keys + {p}
    ensures |ptrs| <= |before| + 1
  {
    assert ptrs.Keys == if p in before then before.Keys else before.Keys + {p};
  }

  lemma FullLater(aa: Oracle, reqs: seq<Request>, k: nat, threshold: nat)
    requires k < |reqs|
    ensures NeverFull(aa, reqs, k + 1, threshold) <==>
            NeverFull(aa, reqs, k, threshold) && |MayPtrs(AddedAll(aa, Locs(reqs[..k + 1])).groups)| <= threshold
  {
    hide AddedAll, MayPtrs;
  }

  lemma OneMore(aa: Oracle, reqs: seq<Request>, k: nat)
    requires k < |reqs|
    ensures Tracked(AddedAll(aa, Locs(reqs[..k])).groups, AddedAll(aa, Locs(reqs[..k])).sizes)
    ensures AddedAll(aa, Locs(reqs[..k + 1])) == Added(AddedAll(aa, Locs(reqs[..k])), aa, reqs[k].loc)
  {
    var locs := Locs(reqs[..k + 1]);
    AddedLast(aa, locs);
    assert locs[..|locs| - 1] == Locs(reqs[..k]);
    hide AddedAll, Added;
  }

  lemma RunEnds(t: AliasSetTracker, reqs: seq<Request>)
    requires t.Valid() && t.asked == (set a | a in reqs) && (t.anyAS.None? ==> t.View() == AddedAll(t.aa, Locs(reqs)))
    ensures EachGuarded(t.aa, Locs(reqs)) || FixedSizes(Locs(reqs)) ==> t.Sound() && ConflictsTogetherIn(t, t.conflict, reqs)
    ensures t.anyAS.Some? ==> forall i, j :: 0 <= i < |reqs| && 0 <= j < |reqs| ==> Together(t, reqs[i].loc.p, reqs[j].loc.p)
  {
    hide Consistent, Stable, Begun, EachGuarded, FixedSizes, AddedAll, SoundPartition, Summarized, Accounted;
    var locs := Locs(reqs);
    if EachGuarded(t.aa, locs) || FixedSizes(locs) {
      if t.anyAS.None? {
        if FixedSizes(locs) {
          FixedSizesAreGuarded(t.aa, locs);
        }
        RunIsSound(t.aa, t.conflict, locs);
      }
      forall i, j | 0 <= i < |reqs| && 0 <= j < |reqs| && t.conflict(reqs[i].loc, reqs[j].loc)
        ensures Together(t, reqs[i].loc.p, reqs[j].loc.p)
      {
        t.ConflictsTogether(reqs[i], reqs[j]);
      }
    }
    if t.anyAS.Some? {
      forall i, j | 0 <= i < |reqs| && 0 <= j < |reqs| ensures Together(t, reqs[i].loc.p, reqs[j].loc.p) {
        RequestMeans(t.asked, t.sets, t.ptrs, t.root, reqs[i]);
        RequestMeans(t.asked, t.sets, t.ptrs, t.root, reqs[j]);
        AllInOne(t.sets, t.ptrs, t.next, t.anyAS, t.root, t.total, reqs[i].loc.p, reqs[j].loc.p);
      }
    }
  }

  /** Until the tracker is saturated, two pointers are in one set exactly if they are in one group of its partition. */
  lemma OneGroupIsTogether(t: AliasSetTracker, p: Ptr, q: Ptr)
    requires t.Valid() && t.anyAS.None? && p in t.ptrs && q in t.ptrs
    ensures OneGroup(t.View().groups, p, q) <==> Together(t, p, q)
  {
    hide *;
    t.ValidMeans();
    t.ViewMeans(Loc(p, Unknown));
    StableMeans(t.sets, t.ptrs, t.next, None, t.root, t.total);
    OneGroupIsOneSet(t.sets, t.ptrs, t.next, t.root, p, q);
    SameTogether(t, p, q);
  }

  lemma SameTogether(t: AliasSetTracker, p: Ptr, q: Ptr)
    requires p in t.ptrs && q in t.ptrs && t.ptrs[p].aset in t.root && t.ptrs[q].aset in t.root
    ensures Together(t, p, q) <==> SetOf(t.ptrs, t.root, p) == SetOf(t.ptrs, t.root, q)
  {
  }

  lemma OneGroupIsOneSet(sets: Sets, ptrs: Ptrs, next: Id, root: Roots, p: Ptr, q: Ptr)
    requires Core(sets, ptrs, next, None, root) && p in ptrs && q in ptrs
    ensures ptrs[p].aset in root && ptrs[q].aset in root
    ensures OneGroup(GroupsOf(sets), p, q) <==> SetOf(ptrs, root, p) == SetOf(ptrs, root, q)
  {
    CoreLinks(sets, ptrs, next, None, root, p);
    CoreLinks(sets, ptrs, next, None, root, q);
    CoreMembers(sets, ptrs, next, None, root);
    hide Core;
    var i, j := SetOf(ptrs, root, p), SetOf(ptrs, root, q);
    assert p in GroupsOf(sets)[i].members && q in GroupsOf(sets)[j].members;
  }

  /** The two runs that lose an alias, in a tracker: too few pointers to saturate it, and the last two requests overlap
      and are in different sets. */
  lemma LostInTracker(t: AliasSetTracker, reqs: seq<Request>)
    requires t.Valid() && t.anyAS.None? && t.View() == AddedAll(Knowing(Address), Locs(reqs)) && |reqs| == 4
    requires reqs[0].loc == Loc(0, Precise(4)) && (reqs[1].loc == Loc(1, Precise(4)) || reqs[1].loc == Loc(1, Precise(0)))
    requires reqs[2].loc == Loc(1, Precise(8)) && reqs[3].loc == Loc(2, Precise(4))
    ensures Overlaps(Address, reqs[2].loc, reqs[3].loc) && !Together(t, reqs[2].loc.p, reqs[3].loc.p)
  {
    hide *;
    t.ViewMeans(reqs[0].loc);
    FourLocs(reqs);
    if reqs[1].loc == Loc(1, Precise(4)) {
      GrowthLosesAnAlias();
    } else {
      EmptyGrowthLosesAnAlias();
    }
    SizesTracked(t.ptrs, 1);
    SizesTracked(t.ptrs, 2);
    OneGroupIsTogether(t, 1, 2);
  }

  lemma FourLocs(reqs: seq<Request>)
    requires |reqs| == 4
    ensures Locs(reqs) == [reqs[0].loc, reqs[1].loc, reqs[2].loc, reqs[3].loc]
  {
  }

  lemma SizesTracked(ptrs: Ptrs, p: Ptr)
    ensures p in SizesOf(ptrs) <==> p in ptrs
  {
  }

  ghost predicate ListedAt(t: AliasSetTracker, p: Ptr, i: Id, k: int)
    reads t
  {
    i in t.sets && 0 <= k < |t.sets[i].members| && t.sets[i].members[k] == p
  }

  /** Merging loses no pointer and doubles none: each is listed once, in the set that it is in. */
  lemma EachPointerListedOnce(t: AliasSetTracker, p: Ptr)
    requires t.Valid() && p in t.ptrs
    ensures exists k :: ListedAt(t, p, t.root[t.ptrs[p].aset], k)
    ensures forall i, k, j, l :: ListedAt(t, p, i, k) && ListedAt(t, p, j, l) ==> i == j && k == l
  {
    hide Consistent, Counts, Begun, Summarized;
    CoreLinks(t.sets, t.ptrs, t.next, t.anyAS, t.root, p);
    var s := SetOf(t.ptrs, t.root, p);
    var k :| 0 <= k < |t.sets[s].members| && t.sets[s].members[k] == p;
    assert ListedAt(t, p, s, k);
    forall i, k, j, l | ListedAt(t, p, i, k) && ListedAt(t, p, j, l) ensures i == j && k == l {
      assert p in t.sets[i].members && p in t.sets[j].members;
      assert NoDup(t.sets[i].members);
    }
  }
}
