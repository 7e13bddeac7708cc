/** The alias set tracker: a partition of pointers into sets that may alias, kept with forwarding
    sets, reference counts and, past a threshold, one set that takes everything. */
module AliasSetTrackers {
  import opened Wrappers
  import opened AliasResults
  import opened AliasLocations
  import opened AliasPartitions
  import opened AliasSetModel

  class AliasSetTracker {
    const aa: Oracle
    const threshold: nat             // SaturationThreshold
    ghost const conflict: Relation
    var sets: Sets                   // AliasSets; a freed set is no longer in the map
    var next: Id
    var ptrs: Ptrs                   // PointerMap
    var total: int                   // TotalMayAliasSetSize
    var anyAS: Option<Id>            // AliasAnyAS

    ghost var root: Roots            // where forwarding ends
    ghost var asked: set<Request>    // the additions so far

    /** The invariant between two additions. The tracker is saturated exactly when it is past the threshold. */
    ghost predicate Valid()
      reads this
    {
      && Stable(sets, ptrs, next, anyAS, root, total)
      && (anyAS.None? <==> total <= threshold)
      && Consistent(aa, conflict) && (anyAS.None? ==> Begun(GroupsOf(sets), conflict))
      && Summarized(asked, sets, ptrs, root) && (anyAS.None? ==> Accounted(asked, sets, ptrs, root))
    }

    /** The sets as a partition, of which forwarding, counting and access bits are left out. */
    ghost function View(): Partition
      reads this
    {
      Partition(GroupsOf(sets), SizesOf(ptrs), next)
    }

    /** The first pointers of must-alias sets are the largest, and pointers of different sets do not conflict. */
    ghost predicate Sound()
      reads this
    {
      anyAS.None? ==> WellFormed(View()) && SoundPartition(View(), conflict)
    }

    /** The guard of an addition, by the sets as they are. */
    ghost predicate Guards(x: Loc)
      reads this
    {
      anyAS.None? ==> WellFormed(View()) && Guarded(View(), aa, x)
    }

    constructor (aa: Oracle, threshold: nat, ghost conflict: Relation)
      requires Consistent(aa, conflict)
      ensures Valid() && Sound() && View() == NOTHING && asked == {} && ptrs == map[] && anyAS.None?
      ensures this.aa == aa && this.threshold == threshold && this.conflict == conflict
    {
      this.aa, this.threshold, this.conflict := aa, threshold, conflict;
      sets, next, ptrs, total, anyAS, root, asked := map[], 0, map[], 0, None, map[], {};
    }

    // ----- Additions -----------------------------------------------------------------------

    /** Records an access to location x, and merges everything once there are too many pointers in
        may-alias sets. A sound tracker stays sound exactly if the addition keeps the guard, or saturates it. */
    method AddPointer(x: Loc, e: Access) returns (r: Id)
      requires Valid()
      modifies this
      ensures Valid() && asked == old(asked) + {Request(x, e)} && ptrs.Keys == old(ptrs).Keys + {x.p}
      ensures PlacedIn(sets, ptrs, root, x, r) && Includes(sets[r].access, e)
      ensures anyAS.None? ==> WellFormed(old(View())) && View() == Added(old(View()), aa, x)
      ensures Regrouped(old(sets), old(ptrs), old(root), aa, x, anyAS, ptrs, root)
      ensures Kept(old(sets), old(ptrs), old(root), sets, ptrs, root)
      ensures if old(anyAS).Some? then anyAS == old(anyAS) else anyAS.Some? ==> |ptrs| > threshold
      ensures old(anyAS).None? ==>
                WellFormed(old(View())) && (anyAS.Some? <==> |MayPtrs(Added(old(View()), aa, x).groups)| > threshold)
      ensures old(Sound()) ==> (Sound() <==> old(Guards(x)) || anyAS.Some?)
    {
      hide *;
      ghost var sets0, ptrs0, root0, any0, view0, sound0, guards0 := sets, ptrs, root, anyAS, View(), Sound(), Guards(x);
      ValidMeans();
      ViewMeans(x);
      ghost var next0 := next;
      r := GetAliasSetFor(x);
      ghost var sets1 := sets;
      if any0.None? {
        TotalFollows(sets0, ptrs0, next0, aa, x, sets, ptrs, next, root, total);
      }
      PlacedMeans(sets, ptrs, root, x, r);
      AccessJoins(sets, ptrs, next, anyAS, root, total, r, e);
      sets := sets[r := sets[r].(access := Join(sets[r].access, e))];
      AccessKeeps(sets0, ptrs0, root0, sets1, sets, ptrs, root, x, r, e);
      AccessGroups(sets1, r, sets);
      if any0.None? {
        NowAccounted(asked, sets0, ptrs0, root0, sets1, sets, ptrs, root, x, e, r);
      }
      if anyAS.None? && total > threshold {
        ghost var sets2, root2 := sets, root;
        StableMeans(sets, ptrs, next, anyAS, root, total);
        TotalBounded(sets, ptrs, next, root);
        r := MergeAllAliasSets();
        AllKeeps(sets0, ptrs0, root0, sets2, root2, sets, ptrs, next, root, aa, anyAS, total, x, r, e);
      }
      asked := asked + {Request(x, e)};
      NowSummarized(old(asked), sets0, ptrs0, root0, sets, ptrs, root, x, e, r);
      ViewMeans(x);
      if anyAS.None? {
        AddedBegun(view0, aa, conflict, x);
      }
      IsValid();
      SoundMeans(view0, any0, sound0, guards0, x);
    }

    lemma ViewMeans(x: Loc)
      ensures View() == Partition(GroupsOf(sets), SizesOf(ptrs), next)
      ensures Sound() <==> (anyAS.None? ==> WellFormed(View()) && SoundPartition(View(), conflict))
      ensures Guards(x) <==> (anyAS.None? ==> WellFormed(View()) && Guarded(View(), aa, x))
    {
    }

    /** What the new view says of soundness. */
    lemma SoundMeans(view0: Partition, any0: Option<Id>, sound0: bool, guards0: bool, x: Loc)
      requires Valid() && (any0.Some? ==> anyAS.Some?)
      requires sound0 == (any0.None? ==> WellFormed(view0) && SoundPartition(view0, conflict))
      requires guards0 == (any0.None? ==> WellFormed(view0) && Guarded(view0, aa, x))
      requires anyAS.None? ==> WellFormed(view0) && Begun(view0.groups, conflict) && View() == Added(view0, aa, x)
      ensures sound0 ==> (Sound() <==> guards0 || anyAS.Some?)
    {
      hide Consistent, Begun, Added, Guarded, SoundPartition, WellFormed, Stable;
      if sound0 && anyAS.None? {
        AdditionIsSound(view0, aa, conflict, x);
        AddedWellFormed(view0, aa, x);
      }
    }

    /** In a sound tracker, two requested locations that conflict are in one set, before saturation and after. */
    lemma ConflictsTogether(a: Request, b: Request)
      requires Valid() && Sound() && a in asked && b in asked && conflict(a.loc, b.loc)
      ensures a.loc.p in ptrs && b.loc.p in ptrs && ptrs[a.loc.p].aset in root && ptrs[b.loc.p].aset in root
      ensures SetOf(ptrs, root, a.loc.p) == SetOf(ptrs, root, b.loc.p)
    {
      hide *;
      ValidMeans();
      RequestMeans(asked, sets, ptrs, root, a);
      RequestMeans(asked, sets, ptrs, root, b);
      if anyAS.Some? {
        AllInOne(sets, ptrs, next, anyAS, root, total, a.loc.p, b.loc.p);
      } else {
        SoundApart();
        StableMeans(sets, ptrs, next, anyAS, root, total);
        TogetherIn(sets, ptrs, next, root, aa, conflict, a.loc, b.loc);
      }
    }

    lemma SoundApart()
      requires Valid() && Sound() && anyAS.None?
      ensures Consistent(aa, conflict) && WellFormed(View()) && View() == Partition(GroupsOf(sets), SizesOf(ptrs), next)
      ensures Tracked(GroupsOf(sets), SizesOf(ptrs)) && Apart(GroupsOf(sets), SizesOf(ptrs), conflict)
    {
      hide Consistent, Stable, Begun;
    }

    /** The set that a location was put in says that it is accessed as was requested. */
    lemma AccessesRecorded(a: Request)
      requires Valid() && a in asked
      ensures a.loc.p in ptrs && ptrs[a.loc.p].aset in root && SetOf(ptrs, root, a.loc.p) in sets
      ensures Includes(sets[SetOf(ptrs, root, a.loc.p)].access, a.access)
    {
      hide Stable;
    }

    /** Until the tracker is saturated, a set is said to be read or written exactly if one of its pointers was
        requested to be. */
    lemma AccessesExact(i: Id, mod: bool)
      requires Valid() && anyAS.None? && i in sets && sets[i].fwd.None?
      ensures HasBit(sets[i].access, mod) <==> RequestedIn(asked, ptrs, root, i, mod)
    {
      hide Stable;
      if RequestedIn(asked, ptrs, root, i, mod) {
        var a :| a in asked && HasBit(a.access, mod) && a.loc.p in ptrs && ptrs[a.loc.p].aset in root && SetOf(ptrs, root, a.loc.p) == i;
      }
    }

    lemma ValidMeans()
      requires Valid()
      ensures Stable(sets, ptrs, next, anyAS, root, total) && Consistent(aa, conflict)
      ensures Summarized(asked, sets, ptrs, root) && (anyAS.None? <==> total <= threshold)
      ensures anyAS.None? ==> Accounted(asked, sets, ptrs, root) && Begun(GroupsOf(sets), conflict)
    {
    }

    lemma IsValid()
      requires Stable(sets, ptrs, next, anyAS, root, total) && Consistent(aa, conflict)
      requires Summarized(asked, sets, ptrs, root) && (anyAS.None? <==> total <= threshold)
      requires anyAS.None? ==> Accounted(asked, sets, ptrs, root) && Begun(GroupsOf(sets), conflict)
      ensures Valid()
    {
    }

    // ----- Reference counting ----------------------------------------------------------

    /** Gives up one reference to set i, which frees it if it was the last. */
    method DropRef(i: Id, ghost t: Id)
      requires Graph(sets, next, anyAS, root) && PtrsLive(sets, ptrs) && i in sets
      requires Counts(sets, ptrs, i, 1) && AllUsed(sets, anyAS)
      requires Anchored(sets, ptrs, root[i], t) && (t > i || sets[i].fwd.None?)
      modifies `sets
      ensures Graph(sets, next, anyAS, root) && PtrsLive(sets, ptrs)
      ensures Counts(sets, ptrs, i, 0) && AllUsed(sets, anyAS) && Shrunk(old(sets), sets, ptrs, i)
      ensures old(sets)[i].fwd.None? ==> sets.Keys == old(sets).Keys
      decreases if sets[i].fwd.Some? then i + 1 else 0
    {
      hide Graph, PtrsLive, Counts, AllUsed, Anchored, Shrunk, RefCount;
      DropRefHere(sets, ptrs, next, anyAS, root, i, t);
      ghost var was := sets;
      sets := sets[i := sets[i].(refs := sets[i].refs - 1)];
      if sets[i].refs == 0 {
        var fwd := sets[i].fwd;
        ghost var mid := sets;
        sets := sets - {i};
        DropRef(fwd.value, t);
        ShrunkFurther(was, mid, i, sets, ptrs, fwd.value);
        CountsAnyway(sets, ptrs, fwd.value, i);
      }
    }

    // ----- Following forwarding pointers --------------------------------------------------

    /** Finds the set that i stands for, and lets every set on the way forward to it directly. */
    method GetForwardedTarget(i: Id) returns (d: Id)
      requires Wired(sets, ptrs, next, anyAS, root) && i in sets
      modifies `sets
      ensures Wired(sets, ptrs, next, anyAS, root) && i in sets && Rewired(old(sets), sets)
      ensures i in root && d == root[i] && d in sets && sets[d].fwd.None?
      ensures sets[i].fwd.None? || sets[i].fwd == Some(d)
      ensures old(sets)[i].fwd.None? ==> sets == old(sets)
      ensures forall k :: k in old(sets) && k > i ==> k in sets && sets[k].fwd == old(sets)[k].fwd
      decreases if sets[i].fwd.Some? then i + 1 else 0
    {
      var fwd := sets[i].fwd;
      hide Graph, PtrsLive, Counts, AllUsed, Rewired;
      LinkedSet(sets, ptrs, next, anyAS, root, i);
      if fwd.None? {
        RewiredSelf(sets);
        return i;
      }
      LinkedSet(sets, ptrs, next, anyAS, root, fwd.value);
      d := GetForwardedTarget(fwd.value);
      if d != fwd.value {
        ghost var was := sets;
        LinkedSet(sets, ptrs, next, anyAS, root, i);
        Redirect(i, fwd.value, d);
        RewiredTwice(old(sets), was, sets);
      }
    }

    /** The set that holds pointer p, which p is made to name directly. */
    method GetAliasSet(p: Ptr) returns (d: Id)
      requires Wired(sets, ptrs, next, anyAS, root) && p in ptrs
      modifies `sets, `ptrs
      ensures Wired(sets, ptrs, next, anyAS, root) && Rewired(old(sets), sets)
      ensures old(ptrs)[p].aset in root && d == root[old(ptrs)[p].aset] && d in sets && sets[d].fwd.None?
      ensures ptrs == old(ptrs)[p := old(ptrs)[p].(aset := d)]
    {
      var i := ptrs[p].aset;
      WiredPtr(sets, ptrs, next, anyAS, root, p);
      hide Wired, Graph, PtrsLive, Counts, AllUsed, Rewired, Shrunk, Anchored;
      d := i;
      if sets[i].fwd.Some? {
        d := GetForwardedTarget(i);
        ghost var was := sets;
        WiredLinks(sets, ptrs, next, anyAS, root, i);
        Resettle(p, i, d);
        RewiredTwice(old(sets), was, sets);
      } else {
        RewiredSelf(sets);
        NamesDirectly(ptrs, p);
      }
    }

    /** Moves pointer p's reference from set i to set d. */
    method Resettle(p: Ptr, i: Id, d: Id)
      requires Wired(sets, ptrs, next, anyAS, root) && p in ptrs && ptrs[p].aset == i && i in sets && sets[i].fwd == Some(d)
      requires d in sets && sets[d].fwd.None? && i in root && d == root[i] && d != i
      modifies `sets, `ptrs
      ensures Wired(sets, ptrs, next, anyAS, root) && Rewired(old(sets), sets) && d in sets
      ensures ptrs == old(ptrs)[p := old(ptrs)[p].(aset := d)]
    {
      hide Graph, Counts, AllUsed, Rewired, Shrunk, Anchored;
      ResettleCounts(sets, ptrs, next, anyAS, root, p, i, d);
      ptrs := ptrs[p := ptrs[p].(aset := d)];
      sets := sets[d := sets[d].(refs := sets[d].refs + 1)];
      DropRef(i, i + 1);
      CountsAnyway(sets, ptrs, i, 0);
      DropRewires(old(sets), old(sets)[d := old(sets)[d].(refs := old(sets)[d].refs + 1)], sets, ptrs, i);
    }

    /** Lets set i, which forwards to f, forward to d. The source drops the old reference before it
        stores the new one; nothing looks at the pointer in between. */
    method Redirect(i: Id, f: Id, d: Id)
      requires Wired(sets, ptrs, next, anyAS, root) && i in sets && sets[i].fwd == Some(f) && f < i
      requires i in root && d == root[i] && d in sets && d != f && d != i && sets[d].fwd.None?
      modifies `sets
      ensures Wired(sets, ptrs, next, anyAS, root) && Rewired(old(sets), sets)
      ensures i in sets && sets[i].fwd == Some(d) && d in sets && sets[d].fwd.None?
      ensures forall k :: k in old(sets) && k > i ==> k in sets && sets[k].fwd == old(sets)[k].fwd
      ensures forall k :: k in sets && k != i ==> k in old(sets) && sets[k].fwd == old(sets)[k].fwd
    {
      hide Graph, PtrsLive, Counts, AllUsed, Rewired, Shrunk, Anchored;
      RedirectWires(sets, ptrs, next, anyAS, root, i, f, d);
      sets := sets[d := sets[d].(refs := sets[d].refs + 1)];
      sets := sets[i := sets[i].(fwd := Some(d))];
      ghost var mid := sets;
      IsAnchored(sets, ptrs, d, i);
      DropRef(f, i);
      CountsAnyway(sets, ptrs, f, 0);
      DropRewires(old(sets), mid, sets, ptrs, f);
    }

    // ----- Merging and adding ----------------------------------------------------------------

    /** Merges set j into set i. Two must-alias sets stay one only if the oracle says so of their first pointers. */
    method MergeSetIn(i: Id, j: Id)
      requires Core(sets, ptrs, next, anyAS, root) && MayMerge(sets, anyAS, i, j) && total == MayTotal(sets, next)
      modifies `sets, `root, `total
      ensures Core(sets, ptrs, next, anyAS, root) && total == MayTotal(sets, next) && total >= old(total)
      ensures sets == MergedSets(old(sets), i, j, FirstsMust(old(sets), ptrs, aa, i, j)) && root == MergedRoots(old(root), i, j)
    {
      hide Core;
      ghost var sets0, must := sets, FirstsMust(sets, ptrs, aa, i, j);
      MergeKeeps(sets, ptrs, next, anyAS, root, i, j, must);
      CoreBounds(sets, ptrs, next, anyAS, root);
      MergeTotal(sets, i, j, must, next);
      var a, b := sets[i], sets[j];
      var wasMust := !a.may;
      a := a.(access := Join(a.access, b.access), may := a.may || b.may);
      if !a.may {
        MustFirsts(sets, ptrs, next, anyAS, root, i);
        MustFirsts(sets, ptrs, next, anyAS, root, j);
        var l, r := a.members[0], b.members[0];
        if aa(LocOf(ptrs, l), LocOf(ptrs, r)) != MustAlias {
          a := a.(may := true);
        }
      }
      if a.may {
        if wasMust {
          total := total + a.size;
        }
        if !b.may {
          total := total + b.size;
        }
      }
      a := a.(refs := a.refs + 1, members := a.members + b.members, size := a.size + b.size);
      b := b.(fwd := Some(i), members := [], size := 0);
      sets := sets[i := a][j := b];
      root := MergedRoots(root, i, j);
      assert sets == MergedSets(sets0, i, j, must);
    }

    /** Adds the untracked pointer p to set i; the oracle does not say that it aliases no pointer of a must-alias set. */
    method AddToSet(i: Id, p: Ptr, size: Size)
      requires Core(sets, ptrs, next, anyAS, root) && total == MayTotal(sets, next)
      requires i in sets && sets[i].fwd.None? && p !in ptrs && MayJoin(sets[i], ptrs, aa, Loc(p, size))
      modifies `sets, `ptrs, `total
      ensures Core(sets, ptrs, next, anyAS, root) && total == MayTotal(sets, next)
      ensures Joined(old(sets), old(ptrs), aa, sets, ptrs, i, p, size) && total >= old(total)
    {
      hide Core, PtrsLive, Union;
      CoreMembers(sets, ptrs, next, anyAS, root);
      CoreBounds(sets, ptrs, next, anyAS, root);
      var result, a := NoAlias, sets[i];
      if !a.may && a.members != [] {
        result := aa(LocOf(ptrs, a.members[0]), Loc(p, size));
        assert result != NoAlias;
      }
      ghost var sets0, ptrs0 := sets, ptrs;
      JoinKeeps(sets, ptrs, next, anyAS, root, i, p, size, result, total);
      if !a.may && a.members != [] {
        var f := a.members[0];
        if result != MustAlias {
          a := a.(may := true);
          total := total + a.size;
        } else {
          ptrs := ptrs[f := ptrs[f].(size := Union(ptrs[f].size, size))];
        }
      }
      ptrs := ptrs[p := Rec(size, i)];
      a := a.(size := a.size + 1, members := a.members + [p], refs := a.refs + 1);
      sets := sets[i := a];
      if a.may {
        total := total + 1;
      }
      assert sets == JoinedSets(sets0, i, p, result) && ptrs == JoinedPtrs(sets0, ptrs0, i, p, size, result);
      hide JoinedSets, JoinedPtrs, MayTotal;
    }

    /** Whether the oracle says that x aliases something in set i; must-alias sets are asked through
        their first pointer only. */
    method AliasesPointer(i: Id, x: Loc) returns (b: bool)
      requires i in sets && (forall q :: q in sets[i].members ==> q in ptrs)
      requires !sets[i].any && !sets[i].may ==> sets[i].members != []
      ensures b == Aliases(sets[i], ptrs, aa, x)
    {
      var a := sets[i];
      if a.any {
        return true;
      }
      if !a.may {
        var f := a.members[0];
        return aa(LocOf(ptrs, f), x) != NoAlias;
      }
      for k := 0 to |a.members|
        invariant forall j :: 0 <= j < k ==> aa(x, LocOf(ptrs, a.members[j])) == NoAlias
      {
        if aa(x, LocOf(ptrs, a.members[k])) != NoAlias {
          return true;
        }
      }
      return false;
    }

    /** Merges all sets that alias x into the first of them. */
    method MergeAliasSetsForPointer(x: Loc) returns (found: Option<Id>)
      requires Core(sets, ptrs, next, anyAS, root) && total == MayTotal(sets, next) && anyAS.None?
      modifies `sets, `root, `total
      ensures Core(sets, ptrs, next, anyAS, root) && total == MayTotal(sets, next)
      ensures Gathered(old(sets), old(root), sets, root, ptrs, aa, x, found, next)
      ensures GatheredAccess(old(sets), sets, ptrs, aa, x, found, next)
      ensures GathersGroups(old(sets), sets, ptrs, aa, x, found, next)
    {
      hide Core, Gathered, GatheredAccess, GathersGroups;
      found := None;
      ghost var sets0, root0 := sets, root;
      GatheredNothing(sets, root, ptrs, aa, x);
      GroupsTracked(sets, ptrs, next, root);
      GroupsNothing(sets, ptrs, aa, x);
      for k := 0 to next
        invariant Core(sets, ptrs, next, anyAS, root) && total == MayTotal(sets, next)
        invariant Gathered(sets0, root0, sets, root, ptrs, aa, x, found, k)
        invariant GatheredAccess(sets0, sets, ptrs, aa, x, found, k)
        invariant GathersGroups(sets0, sets, ptrs, aa, x, found, k)
      {
        ghost var sets1, root1, found1 := sets, root, found;
        CoreMembers(sets, ptrs, next, anyAS, root);
        NoneTakes(sets, ptrs, next, root);
        if k in sets && sets[k].fwd.None? {
          CoreNonempty(sets, ptrs, next, anyAS, root, k);
          var b := AliasesPointer(k, x);
          if b && found.None? {
            found := Some(k);
          } else if b {
            FoundMayTake(sets0, root0, sets, root, ptrs, next, anyAS, aa, x, found.value, k);
            MergeSetIn(found.value, k);
          }
        }
        GatheredMore(sets0, root0, sets1, root1, found1, sets, root, ptrs, aa, x, found, k);
        GatheredAccessMore(sets0, root0, sets1, root1, found1, sets, ptrs, aa, x, found, k);
        GroupsMore(sets0, sets1, found1, sets, ptrs, aa, x, found, k);
      }
    }

    /** Adds the untracked pointer p to a set made for it. The set has no first pointer to ask about. */
    method AddToNewSet(p: Ptr, size: Size) returns (i: Id)
      requires Core(sets, ptrs, next, anyAS, root)
      requires total == MayTotal(sets, next) && anyAS.None? && p !in ptrs
      modifies `sets, `ptrs, `next, `root
      ensures Core(sets, ptrs, next, anyAS, root)
      ensures total == MayTotal(sets, next) && i == old(next) && next == i + 1 && i !in old(sets)
      ensures sets == old(sets)[i := Single(p)] && ptrs == old(ptrs)[p := Rec(size, i)] && root == old(root)[i := i]
    {
      hide Core;
      NewSetKeeps(sets, ptrs, next, root, p, size);
      i := next;
      sets := sets[i := ASet(None, false, Access(false, false), false, [], 0, 0)];
      next := next + 1;
      root := root[i := i];
      ptrs := ptrs[p := Rec(size, i)];
      sets := sets[i := sets[i].(size := sets[i].size + 1, members := sets[i].members + [p], refs := sets[i].refs + 1)];
      assert [] + [p] == [p];
      assert sets == old(sets)[i := Single(p)] && ptrs == old(ptrs)[p := Rec(size, i)];
    }

    /** With one set left, that is the set. */
    method GetSaturated(x: Loc) returns (r: Id)
      requires Stable(sets, ptrs, next, anyAS, root, total) && anyAS.Some?
      modifies `sets, `ptrs, `total
      ensures Stable(sets, ptrs, next, anyAS, root, total)
      ensures PlacedIn(sets, ptrs, root, x, r) && ptrs.Keys == old(ptrs).Keys + {x.p}
      ensures Regrouped(old(sets), old(ptrs), old(root), aa, x, anyAS, ptrs, root)
      ensures AccessFrom(old(sets), old(ptrs), old(root), sets, ptrs, root)
      ensures Kept(old(sets), old(ptrs), old(root), sets, ptrs, root) && total >= old(total)
    {
      hide *;
      ghost var sets0, ptrs0 := sets, ptrs;
      r := anyAS.value;
      SaturatedTakes(sets, ptrs, next, anyAS, root, total, x);
      if x.p in ptrs {
        SaturatedGrows(sets, ptrs, next, anyAS, root, total, x);
        ptrs := ptrs[x.p := ptrs[x.p].(size := Union(ptrs[x.p].size, x.size))];
        ghost var ptrs1 := ptrs;
        var d := GetAliasSet(x.p);
        Settled(sets0, ptrs1, sets, ptrs, next, anyAS, root, total, x.p, d);
        assert d == r;
        SaturatedSettled(sets0, ptrs0, sets, ptrs1, ptrs, next, anyAS, root, x, d);
      } else {
        TakerMayJoin(sets, ptrs, next, anyAS, root, total, aa, x);
        AddToSet(r, x.p, x.size);
        SaturatedJoined(sets0, ptrs0, aa, sets, ptrs, next, anyAS, root, total, x);
      }
      SaturatedDone(sets0, ptrs0, sets, ptrs, next, anyAS, root, aa, total, x);
    }

    /** A tracked pointer stays where it is; only when its recorded size changes are the sets that
        alias the requested location merged. */
    method GetKnown(x: Loc) returns (r: Id)
      requires Stable(sets, ptrs, next, anyAS, root, total)
      requires anyAS.None? && x.p in ptrs
      modifies `sets, `ptrs, `root, `total
      ensures Stable(sets, ptrs, next, anyAS, root, total)
      ensures PlacedIn(sets, ptrs, root, x, r) && ptrs.Keys == old(ptrs).Keys + {x.p}
      ensures Regrouped(old(sets), old(ptrs), old(root), aa, x, anyAS, ptrs, root)
      ensures AccessFrom(old(sets), old(ptrs), old(root), sets, ptrs, root)
      ensures Kept(old(sets), old(ptrs), old(root), sets, ptrs, root)
      ensures Follows(old(sets), old(ptrs), old(next), aa, x, sets, ptrs, next)
    {
      hide *;
      ghost var sets0, ptrs0, root0 := sets, ptrs, root;
      StableMeans(sets, ptrs, next, anyAS, root, total);
      GrowKeeps(sets, ptrs, next, root, total, x);
      GroupsTracked(sets, ptrs, next, root);
      var was := ptrs[x.p].size;
      ptrs := ptrs[x.p := ptrs[x.p].(size := Union(was, x.size))];
      ghost var ptrs1 := ptrs;
      if ptrs[x.p].size != was {
        var found := MergeAliasSetsForPointer(x);
        GrowSettles(sets0, root0, sets, root, ptrs0, ptrs1, next, aa, total, x, found);
        GrowFollows(sets0, ptrs0, sets, ptrs1, next, aa, x, found);
      } else {
        GrowsNot(sets0, root0, ptrs0, next, aa, total, x);
        SameFollows(sets0, ptrs0, ptrs1, next, aa, x);
      }
      ghost var sets1 := sets;
      StableMeans(sets, ptrs, next, anyAS, root, total);
      LinkedPtrs(sets, ptrs, next, root);
      var d := GetAliasSet(x.p);
      r := GetForwardedTarget(d);
      Settled(sets1, ptrs1, sets, ptrs, next, anyAS, root, total, x.p, d);
      SettledKeeps(sets0, ptrs0, root0, sets1, ptrs1, sets, ptrs, root, aa, x, d);
      SettledFollows(sets0, ptrs0, sets1, ptrs1, sets, ptrs, next, aa, x, d);
    }

    /** A new pointer joins the set that all sets that alias it are merged into, or gets its own. */
    method GetNew(x: Loc) returns (r: Id)
      requires Stable(sets, ptrs, next, anyAS, root, total)
      requires anyAS.None? && x.p !in ptrs
      modifies `sets, `ptrs, `next, `root, `total
      ensures Stable(sets, ptrs, next, anyAS, root, total)
      ensures PlacedIn(sets, ptrs, root, x, r) && ptrs.Keys == old(ptrs).Keys + {x.p}
      ensures Regrouped(old(sets), old(ptrs), old(root), aa, x, anyAS, ptrs, root)
      ensures AccessFrom(old(sets), old(ptrs), old(root), sets, ptrs, root)
      ensures Kept(old(sets), old(ptrs), old(root), sets, ptrs, root)
      ensures Follows(old(sets), old(ptrs), old(next), aa, x, sets, ptrs, next)
    {
      hide *;
      ghost var sets0, ptrs0, root0 := sets, ptrs, root;
      StableMeans(sets, ptrs, next, anyAS, root, total);
      GroupsTracked(sets, ptrs, next, root);
      var found := MergeAliasSetsForPointer(x);
      GatheredMeans(sets0, root0, sets, root, ptrs, next, aa, x, found);
      AccessGathered(sets0, root0, sets, root, ptrs, next, aa, x, found);
      ghost var sets1, root1 := sets, root;
      if found.Some? {
        r := found.value;
        FoundMayJoin(sets0, sets, ptrs, aa, x, r, next);
        AddToSet(r, x.p, x.size);
        JoinedFollows(sets0, ptrs0, sets1, sets, ptrs, next, aa, x, r);
        JoinedNew(sets0, root0, ptrs0, sets1, root, sets, ptrs, next, aa, x, r, total);
      } else {
        r := AddToNewSet(x.p, x.size);
        AloneFollows(sets0, ptrs0, sets1, sets, ptrs, r, aa, x);
        AloneNew(sets0, root0, ptrs0, sets1, root1, sets, ptrs, root, r, aa, x, total);
      }
    }

    /** The set for a location, which joins together all sets that alias it. A tracked pointer may come
        back with another size. */
    method GetAliasSetFor(x: Loc) returns (r: Id)
      requires Stable(sets, ptrs, next, anyAS, root, total)
      modifies `sets, `ptrs, `next, `root, `total
      ensures Stable(sets, ptrs, next, anyAS, root, total)
      ensures PlacedIn(sets, ptrs, root, x, r) && ptrs.Keys == old(ptrs).Keys + {x.p}
      ensures Regrouped(old(sets), old(ptrs), old(root), aa, x, anyAS, ptrs, root)
      ensures AccessFrom(old(sets), old(ptrs), old(root), sets, ptrs, root)
      ensures Kept(old(sets), old(ptrs), old(root), sets, ptrs, root) && (anyAS.Some? ==> total >= old(total))
      ensures anyAS.None? ==> Follows(old(sets), old(ptrs), old(next), aa, x, sets, ptrs, next)
    {
      if anyAS.Some? {
        r := GetSaturated(x);
      } else if x.p in ptrs {
        r := GetKnown(x);
      } else {
        r := GetNew(x);
      }
    }

    // ----- Saturation ------------------------------------------------------------------------

    /** The names of all sets, in the order of the list. */
    method ListSets() returns (ids: seq<Id>)
      requires forall k :: k in sets ==> k < next
      ensures Ascending(ids) && forall k :: k in ids <==> k in sets
    {
      ids := [];
      for k := 0 to next
        invariant Ascending(ids) && (forall j :: 0 <= j < |ids| ==> ids[j] < k)
        invariant forall i :: i in ids <==> i in sets && i < k
      {
        if k in sets {
          ids := ids + [k];
        }
      }
    }

    /** Past the threshold one set takes all pointers, and every other set forwards to it. */
    method MergeAllAliasSets() returns (a: Id)
      requires Stable(sets, ptrs, next, anyAS, root, total) && anyAS.None? && total > threshold
      modifies `sets, `root, `total, `next, `anyAS
      ensures Stable(sets, ptrs, next, anyAS, root, total) && anyAS == Some(a)
      ensures a in sets && sets[a].access == Access(true, true)
      ensures forall k :: k in sets ==> k in root && root[k] == a
      ensures total >= old(total)
    {
      hide *;
      StableMeans(sets, ptrs, next, anyAS, root, total);
      CoreBounds(sets, ptrs, next, anyAS, root);
      var ids := ListSets();
      StartAll(sets, ptrs, next, root, total);
      assert ids != [] by {
        var k :| k in sets;
        assert k in ids;
      }
      a := next;
      sets := sets[a := Taker()];
      anyAS, next := Some(a), next + 1;
      root := root[a := a];
      AllBegins(old(sets), sets, ptrs, old(next), old(root), ids);
      for n := 0 to |ids|
        invariant Core(sets, ptrs, next, anyAS, root)
        invariant total == MayTotal(sets, next) && anyAS == Some(a) && total >= old(total)
        invariant AllUpTo(sets, a, ids, n)
      {
        ghost var before := sets;
        var cur := ids[n];
        AllNext(sets, ptrs, next, anyAS, root, a, ids, n);
        var fwd := sets[cur].fwd;
        if fwd.Some? {
          Redirect(cur, fwd.value, a);
          RewiredCore(before, sets, ptrs, next, anyAS, root);
          AllRedirected(before, sets, a, ids, n);
        } else {
          MergeSetIn(a, cur);
          AllMerged(before, sets, a, ids, n, FirstsMust(before, ptrs, aa, a, cur));
        }
      }
      AllMeans(sets, a, ids);
      AllEnds(sets, ptrs, next, anyAS, root, a, ids, total);
    }
  }

  /** The invariant between two additions, but for the threshold. */
  ghost predicate Stable(sets: Sets, ptrs: Ptrs, next: Id, any: Option<Id>, root: Roots, total: int) {
    && Core(sets, ptrs, next, any, root) && AllUsed(sets, None)
    && total == MayTotal(sets, next)
    && (any.Some? ==> forall i :: i in sets && sets[i].fwd.None? ==> any == Some(i))
  }

  ghost predicate Ascending(ids: seq<Id>) {
    forall j, k :: 0 <= j < k < |ids| ==> ids[j] < ids[k]
  }

  /** The first n sets of the list forward to a; the others are alive and forward as they did. */
  ghost predicate AllUpTo(sets: Sets, a: Id, ids: seq<Id>, n: nat) {
    && n <= |ids| && Ascending(ids) && a in sets && sets[a].fwd.None? && sets[a].may && sets[a].access == Access(true, true)
    && (forall j :: 0 <= j < |ids| ==> ids[j] < a) && (n > 0 ==> ids[n - 1] in sets)
    && (forall j {:trigger ids[j]} :: n <= j < |ids| ==>
          ids[j] in sets && (sets[ids[j]].fwd.Some? ==> sets[ids[j]].fwd.value < ids[j]))
    && (forall k :: k in sets && k != a && (k !in ids || (exists j :: 0 <= j < n && ids[j] == k)) ==> sets[k].fwd == Some(a))
  }

  lemma StartAll(sets: Sets, ptrs: Ptrs, next: Id, root: Roots, total: int)
    requires Stable(sets, ptrs, next, None, root, total)
    ensures var s, r := sets[next := Taker()], root[next := next];
            && Core(s, ptrs, next + 1, Some(next), r) && MayTotal(s, next + 1) == total
    ensures total > 0 ==> sets != map[]
  {
    hide Graph, Counts, Contents, AllUsed, PtrsLive, MayTotal;
    WiredKeys(sets, ptrs, next, None, root);
    TotalStarts(sets, next);
    RootsBelow(sets, ptrs, next, root);
    StartGraph(sets, ptrs, next, root, Taker(), Some(next));
    StartCounts(sets, ptrs, next, root, Taker());
    StartRest(sets, ptrs, next, root);
  }

  lemma RootsBelow(sets: Sets, ptrs: Ptrs, next: Id, root: Roots)
    requires Graph(sets, next, None, root)
    ensures forall k :: k in sets ==> k in root && root[k] != next
  {
    forall k | k in sets ensures k in root && root[k] != next {
      assert Linked(sets, next, None, root, k);
      assert Linked(sets, next, None, root, root[k]);
    }
  }

  lemma TotalStarts(sets: Sets, next: Id)
    requires next !in sets
    ensures MayTotal(sets[next := Taker()], next + 1) == MayTotal(sets, next)
    ensures MayTotal(sets, next) > 0 ==> sets != map[]
  {
    TotalUpdates(sets, next, Taker(), next + 1);
    if sets == map[] {
      NothingTotal(next);
    }
  }

  /** The set that will take all pointers, before it has any. */
  function Taker(): ASet {
    ASet(None, true, Access(true, true), true, [], 0, 0)
  }

  lemma StartGraph(sets: Sets, ptrs: Ptrs, next: Id, root: Roots, a: ASet, any: Option<Id>)
    requires Graph(sets, next, None, root) && a.fwd.None? && (any.Some? ==> any == Some(next) && a.may) && a.any == any.Some?
    ensures Graph(sets[next := a], next + 1, any, root[next := next])
  {
    var s, r := sets[next := a], root[next := next];
    forall k | k in s ensures Linked(s, next + 1, any, r, k) {
      if k in sets {
        assert Linked(sets, next, None, root, k);
        assert Linked(sets, next, None, root, root[k]);
      }
    }
  }

  lemma StartCounts(sets: Sets, ptrs: Ptrs, next: Id, root: Roots, a: ASet)
    requires Graph(sets, next, None, root) && PtrsLive(sets, ptrs) && Counts(sets, ptrs, 0, 0) && next !in sets
    requires a.fwd.None? && a.refs == 0
    ensures Counts(sets[next := a], ptrs, 0, 0)
  {
    var s := sets[next := a];
    forall i | i in s ensures s[i].refs == RefCount(s, ptrs, i) {
      assert FwdRefs(s, i) == FwdRefs(sets, i);
      if i == next {
        forall k | k in sets ensures sets[k].fwd != Some(next) {
          assert Linked(sets, next, None, root, k);
        }
        assert FwdRefs(sets, i) == {} && PtrRefs(ptrs, i) == {};
      }
    }
  }

  lemma StartRest(sets: Sets, ptrs: Ptrs, next: Id, root: Roots)
    requires PtrsLive(sets, ptrs) && sets.Keys <= root.Keys && next !in sets
    requires forall k :: k in sets ==> root[k] != next
    requires Contents(sets, ptrs, root) && AllUsed(sets, None)
    ensures var s, r := sets[next := Taker()], root[next := next];
            && PtrsLive(s, ptrs) && Contents(s, ptrs, r) && AllUsed(s, Some(next))
  {
  }

  lemma {:induction false} NothingTotal(n: Id)
    ensures MayTotal(map[], n) == 0
  {
    if n > 0 {
      NothingTotal(n - 1);
    }
  }

  lemma AllBegins(sets0: Sets, sets: Sets, ptrs: Ptrs, next: Id, root: Roots, ids: seq<Id>)
    requires Core(sets0, ptrs, next, None, root) && Ascending(ids) && forall k :: k in ids <==> k in sets0
    requires sets == sets0[next := Taker()]
    ensures AllUpTo(sets, next, ids, 0)
  {
    WiredKeys(sets0, ptrs, next, None, root);
    forall j | 0 <= j < |ids| ensures ids[j] < next && ids[j] in sets && (sets[ids[j]].fwd.Some? ==> sets[ids[j]].fwd.value < ids[j]) {
      assert ids[j] in ids;
      assert Linked(sets0, next, None, root, ids[j]);
    }
  }

  lemma AllNext(sets: Sets, ptrs: Ptrs, next: Id, any: Option<Id>, root: Roots, a: Id, ids: seq<Id>, n: nat)
    requires Core(sets, ptrs, next, any, root) && any == Some(a) && AllUpTo(sets, a, ids, n) && n < |ids|
    ensures var cur := ids[n];
            && cur in sets && a in sets && sets[a].may && sets[a].fwd.None? && cur < a && cur in root && PtrsLive(sets, ptrs)
            && Wired(sets, ptrs, next, any, root)
            && (sets[cur].fwd.None? ==> MayMerge(sets, any, a, cur))
            && (sets[cur].fwd.Some? ==> sets[cur].fwd.value < cur && sets[cur].fwd.value != a && root[cur] == a)
  {
    var cur := ids[n];
    assert Linked(sets, next, any, root, cur) && Linked(sets, next, any, root, a);
    if sets[cur].fwd.Some? {
      var f := sets[cur].fwd.value;
      assert Linked(sets, next, any, root, f);
      if f in ids {
        var j :| 0 <= j < |ids| && ids[j] == f;
        assert j < n;
      }
      assert sets[f].fwd == Some(a);
    }
  }

  lemma RewiredCore(sets: Sets, sets': Sets, ptrs: Ptrs, next: Id, any: Option<Id>, root: Roots)
    requires Core(sets, ptrs, next, any, root) && Rewired(sets, sets') && Wired(sets', ptrs, next, any, root)
    ensures Core(sets', ptrs, next, any, root) && MayTotal(sets', next) == MayTotal(sets, next)
  {
    WiredKeys(sets, ptrs, next, any, root);
    WiredKeys(sets', ptrs, next, any, root);
    hide Wired;
    RewiredContents(sets, sets', ptrs, root);
    RewiredTotal(sets, sets', next);
  }

  lemma AllRedirected(sets: Sets, sets': Sets, a: Id, ids: seq<Id>, n: nat)
    requires AllUpTo(sets, a, ids, n) && n < |ids| && Rewired(sets, sets')
    requires ids[n] in sets' && sets'[ids[n]].fwd == Some(a)
    requires forall k :: k in sets && k > ids[n] ==> k in sets' && sets'[k].fwd == sets[k].fwd
    requires forall k :: k in sets' && k != ids[n] ==> k in sets && sets'[k].fwd == sets[k].fwd
    ensures AllUpTo(sets', a, ids, n + 1)
  {
    forall j {:trigger ids[j]} | n + 1 <= j < |ids|
      ensures ids[j] in sets' && (sets'[ids[j]].fwd.Some? ==> sets'[ids[j]].fwd.value < ids[j])
    {
      assert ids[n] < ids[j];
    }
  }

  lemma AllMerged(sets: Sets, sets': Sets, a: Id, ids: seq<Id>, n: nat, must: bool)
    requires AllUpTo(sets, a, ids, n) && n < |ids| && ids[n] in sets && sets' == MergedSets(sets, a, ids[n], must)
    ensures AllUpTo(sets', a, ids, n + 1)
  {
    forall j {:trigger ids[j]} | n + 1 <= j < |ids|
      ensures ids[j] in sets' && (sets'[ids[j]].fwd.Some? ==> sets'[ids[j]].fwd.value < ids[j])
    {
      assert ids[n] < ids[j];
    }
  }

  lemma AllMeans(sets: Sets, a: Id, ids: seq<Id>)
    requires AllUpTo(sets, a, ids, |ids|)
    ensures a in sets && sets[a].access == Access(true, true)
  {
  }

  lemma AllEnds(sets: Sets, ptrs: Ptrs, next: Id, any: Option<Id>, root: Roots, a: Id, ids: seq<Id>, total: int)
    requires Core(sets, ptrs, next, any, root) && total == MayTotal(sets, next)
    requires any == Some(a) && AllUpTo(sets, a, ids, |ids|) && ids != []
    ensures Stable(sets, ptrs, next, any, root, total)
    ensures forall k :: k in sets ==> k in root && root[k] == a
  {
    forall k | k in sets ensures k in root && root[k] == a {
      assert Linked(sets, next, any, root, k);
      assert Linked(sets, next, any, root, a);
    }
    var last := ids[|ids| - 1];
    assert sets[last].fwd == Some(a);
    HeldIsCounted(sets, ptrs, a);
  }

  // ----- Saturated trackers ----------------------------------------------------------------

  lemma SaturatedRoots(sets: Sets, ptrs: Ptrs, next: Id, any: Option<Id>, root: Roots, total: int)
    requires Stable(sets, ptrs, next, any, root, total) && any.Some?
    ensures forall k :: k in sets ==> k in root && root[k] == any.value
    ensures PtrsLive(sets, ptrs) && any.value in sets && sets[any.value].fwd.None? && sets[any.value].may
    ensures Wired(sets, ptrs, next, any, root) && Core(sets, ptrs, next, any, root)
  {
    forall k | k in sets ensures k in root && root[k] == any.value {
      assert Linked(sets, next, any, root, k);
    }
  }

  lemma GrowsCore(sets: Sets, ptrs: Ptrs, next: Id, any: Option<Id>, root: Roots, x: Loc)
    requires Core(sets, ptrs, next, any, root) && x.p in ptrs
    ensures Core(sets, AskedPtrs(ptrs, x), next, any, root)
  {
    hide Union, Contents, Graph, AllUsed, RefCount;
    WiredKeys(sets, ptrs, next, any, root);
    SizeKeepsRefs(sets, ptrs, x.p, Union(ptrs[x.p].size, x.size));
    GrowContents(sets, ptrs, root, x);
  }

  lemma GrowContents(sets: Sets, ptrs: Ptrs, root: Roots, x: Loc)
    requires PtrsLive(sets, ptrs) && sets.Keys <= root.Keys && Contents(sets, ptrs, root)
    ensures PtrsLive(sets, AskedPtrs(ptrs, x)) && Contents(sets, AskedPtrs(ptrs, x), root)
  {
    hide Union;
  }

  lemma SaturatedGrows(sets: Sets, ptrs: Ptrs, next: Id, any: Option<Id>, root: Roots, total: int, x: Loc)
    requires Stable(sets, ptrs, next, any, root, total) && any.Some? && x.p in ptrs
    ensures var m := ptrs[x.p := ptrs[x.p].(size := Union(ptrs[x.p].size, x.size))];
            Stable(sets, m, next, any, root, total) && Wired(sets, m, next, any, root)
    ensures ptrs[x.p].aset in root && root[ptrs[x.p].aset] == any.value
  {
    SaturatedRoots(sets, ptrs, next, any, root, total);
    hide Core, Wired, MayTotal, AllUsed, Union;
    GrowsCore(sets, ptrs, next, any, root, x);
    CoreBounds(sets, AskedPtrs(ptrs, x), next, any, root);
    CoreIsWired(sets, AskedPtrs(ptrs, x), next, any, root);
  }

  /** The taker keeps its access; recorded sizes only grow. */
  ghost predicate Taken(sets: Sets, ptrs: Ptrs, sets': Sets, ptrs': Ptrs, any: Option<Id>, x: Loc) {
    && any.Some? && any.value in sets && any.value in sets' && sets'[any.value].access == sets[any.value].access
    && ptrs'.Keys == ptrs.Keys + {x.p} && x.p in ptrs' && Leq(x.size, ptrs'[x.p].size)
    && forall q :: q in ptrs ==> q in ptrs' && Leq(ptrs[q].size, ptrs'[q].size)
  }

  lemma SaturatedSettled(sets: Sets, ptrs: Ptrs, sets': Sets, ptrs1: Ptrs, ptrs': Ptrs, next: Id, any: Option<Id>, root: Roots,
                         x: Loc, d: Id)
    requires Rewired(sets, sets') && any == Some(d) && d in sets' && x.p in ptrs
    requires ptrs1 == ptrs[x.p := ptrs[x.p].(size := Union(ptrs[x.p].size, x.size))]
    requires ptrs' == ptrs1[x.p := ptrs1[x.p].(aset := d)]
    ensures Taken(sets, ptrs, sets', ptrs', any, x)
  {
  }

  lemma SaturatedTakes(sets: Sets, ptrs: Ptrs, next: Id, any: Option<Id>, root: Roots, total: int, x: Loc)
    requires Stable(sets, ptrs, next, any, root, total) && any.Some?
    ensures any.value in sets && sets[any.value].fwd.None? && PtrsLive(sets, ptrs) && sets.Keys <= root.Keys
    ensures Core(sets, ptrs, next, any, root) && total == MayTotal(sets, next)
    ensures Graph(sets, next, any, root) && forall i :: i in sets && sets[i].fwd.None? ==> any == Some(i)
    ensures forall q :: q in ptrs ==> root[ptrs[q].aset] == any.value
  {
    SaturatedRoots(sets, ptrs, next, any, root, total);
  }

  lemma SaturatedJoined(sets: Sets, ptrs: Ptrs, aa: Oracle, sets': Sets, ptrs': Ptrs, next: Id, any: Option<Id>, root: Roots,
                        total: int, x: Loc)
    requires any.Some? && any.value in sets && x.p !in ptrs && Joined(sets, ptrs, aa, sets', ptrs', any.value, x.p, x.size)
    requires Core(sets', ptrs', next, any, root) && total == MayTotal(sets', next)
    requires forall i :: i in sets && sets[i].fwd.None? ==> any == Some(i)
    ensures Stable(sets', ptrs', next, any, root, total) && Taken(sets, ptrs, sets', ptrs', any, x)
  {
    hide MayTotal, Graph, Contents, Joined;
    JoinedMeans(sets, ptrs, aa, sets', ptrs', any.value, x.p, x.size);
    HeldIsCounted(sets', ptrs', any.value);
  }

  lemma SaturatedDone(sets: Sets, ptrs: Ptrs, sets': Sets, ptrs': Ptrs, next: Id, any: Option<Id>, root: Roots, aa: Oracle,
                      total: int, x: Loc)
    requires Taken(sets, ptrs, sets', ptrs', any, x) && Graph(sets, next, any, root) && PtrsLive(sets, ptrs)
    requires Stable(sets', ptrs', next, any, root, total)
    requires forall q :: q in ptrs ==> ptrs[q].aset in root && root[ptrs[q].aset] == any.value
    ensures PlacedIn(sets', ptrs', root, x, any.value) && ptrs'.Keys == ptrs.Keys + {x.p}
    ensures Regrouped(sets, ptrs, root, aa, x, any, ptrs', root) && Kept(sets, ptrs, root, sets', ptrs', root)
    ensures AccessFrom(sets, ptrs, root, sets', ptrs', root)
  {
    hide *;
    TakenMeans(sets, ptrs, sets', ptrs', any, x);
    StableAlone(sets', ptrs', next, any, root, total);
    SaturatedAccess(sets, ptrs, sets', ptrs', next, any, root, x);
    SaturatedTogether(sets, ptrs, sets', ptrs', any, root, aa, x);
  }

  lemma SaturatedTogether(sets: Sets, ptrs: Ptrs, sets': Sets, ptrs': Ptrs, any: Option<Id>, root: Roots, aa: Oracle, x: Loc)
    requires Taken(sets, ptrs, sets', ptrs', any, x) && PtrsLive(sets, ptrs) && any.value in sets' && sets'[any.value].fwd.None?
    requires forall q :: q in ptrs ==> ptrs[q].aset in root && root[ptrs[q].aset] == any.value
    requires forall q :: q in ptrs' ==> ptrs'[q].aset in root && root[ptrs'[q].aset] == any.value
    ensures PlacedIn(sets', ptrs', root, x, any.value) && ptrs'.Keys == ptrs.Keys + {x.p}
    ensures Regrouped(sets, ptrs, root, aa, x, any, ptrs', root) && Kept(sets, ptrs, root, sets', ptrs', root)
  {
    hide Leq, BroughtIn;
  }

  lemma TakenMeans(sets: Sets, ptrs: Ptrs, sets': Sets, ptrs': Ptrs, any: Option<Id>, x: Loc)
    requires Taken(sets, ptrs, sets', ptrs', any, x)
    ensures any.Some?
  {
  }

  lemma StableAlone(sets: Sets, ptrs: Ptrs, next: Id, any: Option<Id>, root: Roots, total: int)
    requires Stable(sets, ptrs, next, any, root, total) && any.Some?
    ensures PtrsLive(sets, ptrs) && any.value in sets && sets[any.value].fwd.None?
    ensures forall i :: i in sets && sets[i].fwd.None? ==> any == Some(i)
    ensures forall q :: q in ptrs ==> ptrs[q].aset in root && root[ptrs[q].aset] == any.value
  {
    SaturatedRoots(sets, ptrs, next, any, root, total);
  }

  lemma SaturatedAccess(sets: Sets, ptrs: Ptrs, sets': Sets, ptrs': Ptrs, next: Id, any: Option<Id>, root: Roots, x: Loc)
    requires Taken(sets, ptrs, sets', ptrs', any, x) && Graph(sets, next, any, root)
    requires forall i :: i in sets' && sets'[i].fwd.None? ==> any == Some(i)
    requires forall q :: q in ptrs' ==> ptrs'[q].aset in root && root[ptrs'[q].aset] == any.value
    ensures AccessFrom(sets, ptrs, root, sets', ptrs', root)
  {
    hide Linked, Leq;
    forall i, mod | i in sets' && sets'[i].fwd.None? && HasBit(sets'[i].access, mod) ensures DidBefore(sets, ptrs, root, ptrs', root, i, mod) {
      assert WentTo(ptrs, root, ptrs', root, i, i);
    }
  }

  lemma CoreIsWired(sets: Sets, ptrs: Ptrs, next: Id, any: Option<Id>, root: Roots)
    requires Core(sets, ptrs, next, any, root)
    ensures Wired(sets, ptrs, next, any, root) && Graph(sets, next, any, root) && PtrsLive(sets, ptrs)
  {
  }

  /** Letting a pointer name its set directly changes nothing that matters. */
  lemma Settled(sets: Sets, ptrs: Ptrs, sets': Sets, ptrs': Ptrs, next: Id, any: Option<Id>, root: Roots,
                total: int, p: Ptr, d: Id)
    requires Stable(sets, ptrs, next, any, root, total) && p in ptrs && Rewired(sets, sets')
    requires Wired(sets', ptrs', next, any, root) && d in sets' && sets'[d].fwd.None?
    requires ptrs[p].aset in root && d == root[ptrs[p].aset] && ptrs' == ptrs[p := ptrs[p].(aset := d)]
    ensures Stable(sets', ptrs', next, any, root, total)
  {
    StableMeans(sets, ptrs, next, any, root, total);
    WiredMeans(sets', ptrs', next, any, root);
    SettledUsed(sets', ptrs', next, any, root, p, d);
    LinkedSet(sets', ptrs', next, any, root, d);
    hide Graph, Wired, MayTotal, Contents, AllUsed, Counts;
    RewiredTotal(sets, sets', next);
    SettledContents(sets, ptrs, sets', ptrs', root, p, d);
  }

  lemma SettledUsed(sets: Sets, ptrs: Ptrs, next: Id, any: Option<Id>, root: Roots, p: Ptr, d: Id)
    requires Wired(sets, ptrs, next, any, root) && p in ptrs && ptrs[p].aset == d
    ensures any.None? || any == Some(d) ==> AllUsed(sets, None)
  {
    HeldIsCounted(sets, ptrs, d);
  }

  lemma SettledContents(sets: Sets, ptrs: Ptrs, sets': Sets, ptrs': Ptrs, root: Roots, p: Ptr, d: Id)
    requires Rewired(sets, sets') && PtrsLive(sets, ptrs) && PtrsLive(sets', ptrs') && sets.Keys <= root.Keys
    requires Contents(sets, ptrs, root) && p in ptrs && d in root && root[d] == d == root[ptrs[p].aset]
    requires ptrs' == ptrs[p := ptrs[p].(aset := d)]
    ensures sets'.Keys <= root.Keys && Contents(sets', ptrs', root)
  {
    forall q | q in ptrs ensures root[ptrs'[q].aset] == root[ptrs[q].aset] {
    }
  }

  lemma WiredMeans(sets: Sets, ptrs: Ptrs, next: Id, any: Option<Id>, root: Roots)
    requires Wired(sets, ptrs, next, any, root)
    ensures Graph(sets, next, any, root) && PtrsLive(sets, ptrs) && Counts(sets, ptrs, 0, 0) && AllUsed(sets, any)
    ensures sets.Keys <= root.Keys
  {
  }

  lemma StableMeans(sets: Sets, ptrs: Ptrs, next: Id, any: Option<Id>, root: Roots, total: int)
    requires Stable(sets, ptrs, next, any, root, total)
    ensures Core(sets, ptrs, next, any, root) && total == MayTotal(sets, next)
    ensures Wired(sets, ptrs, next, any, root) && Graph(sets, next, any, root) && sets.Keys <= root.Keys
    ensures PtrsLive(sets, ptrs) && AllUsed(sets, None)
    ensures forall q :: q in ptrs ==> ptrs[q].aset in root && SetOf(ptrs, root, q) in sets
  {
    hide Counts, Contents, MayTotal, AllUsed;
    forall q | q in ptrs ensures ptrs[q].aset in root && SetOf(ptrs, root, q) in sets {
      assert Linked(sets, next, any, root, ptrs[q].aset);
    }
  }

  // ----- What an addition does --------------------------------------------------------------

  function Single(p: Ptr): ASet {
    ASet(None, false, Access(false, false), false, [p], 1, 1)
  }

  lemma NewSetKeeps(sets: Sets, ptrs: Ptrs, next: Id, root: Roots, p: Ptr, size: Size)
    requires Core(sets, ptrs, next, None, root) && p !in ptrs
    ensures next !in sets
    ensures var s, m, r := sets[next := Single(p)], ptrs[p := Rec(size, next)], root[next := next];
            && Core(s, m, next + 1, None, r) && MayTotal(s, next + 1) == MayTotal(sets, next)
  {
    WiredKeys(sets, ptrs, next, None, root);
    RootsBelow(sets, ptrs, next, root);
    hide Graph, Counts, Contents, MayTotal;
    StartGraph(sets, ptrs, next, root, Single(p), None);
    NewCounts(sets, ptrs, next, root, p, size);
    NewRest(sets, ptrs, next, root, p, size);
    NewTotal(sets, next, p);
  }

  lemma NewTotal(sets: Sets, next: Id, p: Ptr)
    requires next !in sets
    ensures MayTotal(sets[next := Single(p)], next + 1) == MayTotal(sets, next)
  {
    TotalUpdates(sets, next, Single(p), next + 1);
  }

  lemma NewCounts(sets: Sets, ptrs: Ptrs, next: Id, root: Roots, p: Ptr, size: Size)
    requires Graph(sets, next, None, root) && PtrsLive(sets, ptrs) && Counts(sets, ptrs, 0, 0) && next !in sets && p !in ptrs
    ensures Counts(sets[next := Single(p)], ptrs[p := Rec(size, next)], 0, 0)
  {
    var a := Single(p).(refs := 0);
    StartCounts(sets, ptrs, next, root, a);
    hide RefCount, Graph;
    var s := sets[next := a];
    PointerMoves(s, ptrs, p, Rec(size, next));
    RefsChange(s, ptrs[p := Rec(size, next)], next, Single(p));
    assert s[next := Single(p)] == sets[next := Single(p)];
  }

  lemma NewRest(sets: Sets, ptrs: Ptrs, next: Id, root: Roots, p: Ptr, size: Size)
    requires PtrsLive(sets, ptrs) && sets.Keys <= root.Keys && next !in sets && p !in ptrs
    requires forall k :: k in sets ==> root[k] != next
    requires Contents(sets, ptrs, root) && AllUsed(sets, None)
    ensures var s, m, r := sets[next := Single(p)], ptrs[p := Rec(size, next)], root[next := next];
            && PtrsLive(s, m) && Contents(s, m, r) && AllUsed(s, None)
  {
    var s, m, r := sets[next := Single(p)], ptrs[p := Rec(size, next)], root[next := next];
    hide Leq;
    assert forall q :: q in ptrs ==> r[m[q].aset] == root[ptrs[q].aset];
    assert Contents(s, m, r);
  }

  /** The set that p is in. */
  function SetOf(ptrs: Ptrs, root: Roots, p: Ptr): Id
    requires p in ptrs && ptrs[p].aset in root
  {
    root[ptrs[p].aset]
  }

  ghost predicate PlacedIn(sets: Sets, ptrs: Ptrs, root: Roots, x: Loc, r: Id) {
    && x.p in ptrs && ptrs[x.p].aset in root && SetOf(ptrs, root, x.p) == r && r in sets && sets[r].fwd.None?
    && Leq(x.size, ptrs[x.p].size)
  }

  /** The records that the oracle is asked about while x is added. */
  function AskedPtrs(ptrs: Ptrs, x: Loc): Ptrs {
    if x.p in ptrs then ptrs[x.p := ptrs[x.p].(size := Union(ptrs[x.p].size, x.size))] else ptrs
  }

  /** The set of q is one of those that the addition of x brings together. */
  ghost predicate BroughtIn(sets: Sets, ptrs: Ptrs, root: Roots, aa: Oracle, x: Loc, q: Ptr)
    requires q in ptrs && ptrs[q].aset in root
  {
    (x.p in ptrs ==> Union(ptrs[x.p].size, x.size) != ptrs[x.p].size)
    && Hit(sets, AskedPtrs(ptrs, x), aa, x, SetOf(ptrs, root, q))
  }

  /** The new partition: two pointers are together exactly when they were before or the sets of both
      alias x; a new pointer is with those whose sets alias x. A saturated tracker keeps all together. */
  ghost predicate Regrouped(sets: Sets, ptrs: Ptrs, root: Roots, aa: Oracle, x: Loc, any: Option<Id>, ptrs': Ptrs, root': Roots) {
    && (forall q :: q in ptrs ==> q in ptrs' && ptrs[q].aset in root && ptrs'[q].aset in root')
    && x.p in ptrs' && ptrs'[x.p].aset in root'
    && if any.Some? then forall q :: q in ptrs' ==> ptrs'[q].aset in root' && SetOf(ptrs', root', q) == any.value
       else
         && (forall q, q' :: q in ptrs && q' in ptrs ==>
               (SetOf(ptrs', root', q) == SetOf(ptrs', root', q') <==>
                || SetOf(ptrs, root, q) == SetOf(ptrs, root, q')
                || (BroughtIn(sets, ptrs, root, aa, x, q) && BroughtIn(sets, ptrs, root, aa, x, q'))))
         && (x.p !in ptrs ==> forall q :: q in ptrs ==>
               (SetOf(ptrs', root', x.p) == SetOf(ptrs', root', q) <==> BroughtIn(sets, ptrs, root, aa, x, q)))
  }

  predicate HasBit(a: Access, mod: bool) {
    if mod then a.mod else a.ref
  }

  /** What a set is said to do, some set was said to do before whose pointers are all in it now. */
  ghost predicate AccessFrom(sets: Sets, ptrs: Ptrs, root: Roots, sets': Sets, ptrs': Ptrs, root': Roots) {
    forall i, mod :: i in sets' && sets'[i].fwd.None? && HasBit(sets'[i].access, mod) ==>
      DidBefore(sets, ptrs, root, ptrs', root', i, mod)
  }

  ghost predicate DidBefore(sets: Sets, ptrs: Ptrs, root: Roots, ptrs': Ptrs, root': Roots, i: Id, mod: bool) {
    exists i0 :: i0 in sets && sets[i0].fwd.None? && HasBit(sets[i0].access, mod) && WentTo(ptrs, root, ptrs', root', i0, i)
  }

  ghost predicate WentTo(ptrs: Ptrs, root: Roots, ptrs': Ptrs, root': Roots, i0: Id, i: Id) {
    forall q :: q in ptrs && ptrs[q].aset in root && SetOf(ptrs, root, q) == i0 ==>
      q in ptrs' && ptrs'[q].aset in root' && SetOf(ptrs', root', q) == i
  }

  lemma AccessSame(sets: Sets, ptrs: Ptrs, root: Roots)
    ensures AccessFrom(sets, ptrs, root, sets, ptrs, root)
  {
    forall i, mod | i in sets && sets[i].fwd.None? && HasBit(sets[i].access, mod) ensures DidBefore(sets, ptrs, root, ptrs, root, i, mod) {
      assert WentTo(ptrs, root, ptrs, root, i, i);
    }
  }

  /** A step that neither adds to what sets are said to do nor moves pointers that are in one. */
  lemma AccessOn(sets0: Sets, ptrs0: Ptrs, root0: Roots, sets: Sets, ptrs: Ptrs, root: Roots, sets': Sets, ptrs': Ptrs, root': Roots)
    requires AccessFrom(sets0, ptrs0, root0, sets, ptrs, root)
    requires forall i :: i in sets' && sets'[i].fwd.None? ==>
               (i in sets && sets[i].fwd.None? && sets'[i].access == sets[i].access) || sets'[i].access == Access(false, false)
    requires forall q :: q in ptrs && ptrs[q].aset in root ==> q in ptrs' && ptrs'[q].aset in root' && SetOf(ptrs', root', q) == SetOf(ptrs, root, q)
    ensures AccessFrom(sets0, ptrs0, root0, sets', ptrs', root')
  {
    forall i, mod | i in sets' && sets'[i].fwd.None? && HasBit(sets'[i].access, mod)
      ensures DidBefore(sets0, ptrs0, root0, ptrs', root', i, mod)
    {
      assert DidBefore(sets0, ptrs0, root0, ptrs, root, i, mod);
      var i0 :| i0 in sets0 && sets0[i0].fwd.None? && HasBit(sets0[i0].access, mod) && WentTo(ptrs0, root0, ptrs, root, i0, i);
      assert WentTo(ptrs0, root0, ptrs', root', i0, i);
    }
  }

  lemma AccessGathered(sets0: Sets, root0: Roots, sets: Sets, root: Roots, ptrs: Ptrs, next: Id, aa: Oracle, x: Loc,
                       found: Option<Id>)
    requires Gathered(sets0, root0, sets, root, ptrs, aa, x, found, next) && GatheredAccess(sets0, sets, ptrs, aa, x, found, next)
    requires Regathered(sets0, root0, sets, root, ptrs, aa, x, found)
    requires Core(sets, ptrs, next, None, root) && Core(sets0, ptrs, next, None, root0)
    ensures AccessFrom(sets0, ptrs, root0, sets, ptrs, root)
  {
    CoreBounds(sets, ptrs, next, None, root);
    RegatheredRoots(sets0, root0, sets, root, ptrs, aa, x, found);
    hide Core, Regathered, Gathered, GatheredAccess, RootsAfter, HasBit, DidBefore;
    forall i, mod | i in sets && sets[i].fwd.None? && HasBit(sets[i].access, mod) ensures DidBefore(sets0, ptrs, root0, ptrs, root, i, mod) {
      if found == Some(i) {
        FoundDidBefore(sets0, root0, sets, root, ptrs, next, aa, x, i, mod);
      } else {
        OtherDidBefore(sets0, root0, sets, root, ptrs, next, aa, x, found, i, mod);
      }
    }
  }

  ghost predicate RootsAfter(sets0: Sets, root0: Roots, root: Roots, ptrs: Ptrs, aa: Oracle, x: Loc, found: Option<Id>) {
    forall q :: q in ptrs ==>
      && ptrs[q].aset in root0 && ptrs[q].aset in root
      && (if Hit(sets0, ptrs, aa, x, SetOf(ptrs, root0, q)) then found == Some(SetOf(ptrs, root, q))
          else SetOf(ptrs, root, q) == SetOf(ptrs, root0, q))
  }

  lemma FoundDidBefore(sets0: Sets, root0: Roots, sets: Sets, root: Roots, ptrs: Ptrs, next: Id, aa: Oracle, x: Loc, i: Id, mod: bool)
    requires GatheredAccess(sets0, sets, ptrs, aa, x, Some(i), next) && RootsAfter(sets0, root0, root, ptrs, aa, x, Some(i))
    requires i in sets && HasBit(sets[i].access, mod)
    ensures DidBefore(sets0, ptrs, root0, ptrs, root, i, mod)
  {
    hide Aliases;
    assert HitDoes(sets0, ptrs, aa, x, next, mod);
    var i0: Id :| i0 < next && Hit(sets0, ptrs, aa, x, i0) && HasBit(sets0[i0].access, mod);
    assert i0 in sets0 && sets0[i0].fwd.None?;
    hide Hit;
    assert WentTo(ptrs, root0, ptrs, root, i0, i);
  }

  lemma OtherDidBefore(sets0: Sets, root0: Roots, sets: Sets, root: Roots, ptrs: Ptrs, next: Id, aa: Oracle, x: Loc,
                       found: Option<Id>, i: Id, mod: bool)
    requires Gathered(sets0, root0, sets, root, ptrs, aa, x, found, next) && RootsAfter(sets0, root0, root, ptrs, aa, x, found)
    requires i in sets && i < next && sets[i].fwd.None? && found != Some(i) && HasBit(sets[i].access, mod)
    ensures DidBefore(sets0, ptrs, root0, ptrs, root, i, mod)
  {
    hide Hit;
    assert sets[i] == sets0[i] && !Hit(sets0, ptrs, aa, x, i);
    assert WentTo(ptrs, root0, ptrs, root, i, i);
  }

  lemma RegatheredRoots(sets0: Sets, root0: Roots, sets: Sets, root: Roots, ptrs: Ptrs, aa: Oracle, x: Loc, found: Option<Id>)
    requires Regathered(sets0, root0, sets, root, ptrs, aa, x, found)
    ensures RootsAfter(sets0, root0, root, ptrs, aa, x, found)
  {
    hide Hit;
    assert forall q :: q in ptrs ==> RegatheredAt(sets0, root0, sets, root, ptrs, aa, x, found, q);
  }

  /** No pointer is lost, no recorded size shrinks, and no set forgets an access of its pointers. */
  ghost predicate Kept(sets: Sets, ptrs: Ptrs, root: Roots, sets': Sets, ptrs': Ptrs, root': Roots) {
    forall q :: q in ptrs ==>
      && q in ptrs' && Leq(ptrs[q].size, ptrs'[q].size) && ptrs[q].aset in root && ptrs'[q].aset in root'
      && SetOf(ptrs, root, q) in sets && SetOf(ptrs', root', q) in sets'
      && Includes(sets'[SetOf(ptrs', root', q)].access, sets[SetOf(ptrs, root, q)].access)
  }

  lemma LinkedPtrs(sets: Sets, ptrs: Ptrs, next: Id, root: Roots)
    requires Graph(sets, next, None, root) && PtrsLive(sets, ptrs)
    ensures forall q :: q in ptrs ==> ptrs[q].aset in root && SetOf(ptrs, root, q) in sets && sets[SetOf(ptrs, root, q)].fwd.None?
                                      && SetOf(ptrs, root, q) == root[ptrs[q].aset]
    ensures forall k :: k in sets && sets[k].fwd.None? ==> k in root && root[k] == k
  {
    forall k | k in sets ensures k in root && root[k] in sets && sets[root[k]].fwd.None? && (sets[k].fwd.None? ==> root[k] == k) {
      assert Linked(sets, next, None, root, k);
    }
  }

  lemma GrowKeeps(sets: Sets, ptrs: Ptrs, next: Id, root: Roots, total: int, x: Loc)
    requires Stable(sets, ptrs, next, None, root, total) && x.p in ptrs
    ensures Core(sets, AskedPtrs(ptrs, x), next, None, root)
    ensures total == MayTotal(sets, next)
    ensures AskedPtrs(ptrs, x) == ptrs[x.p := ptrs[x.p].(size := Union(ptrs[x.p].size, x.size))]
  {
    hide Core, MayTotal, Wired, Graph, AllUsed, Stable;
    StableMeans(sets, ptrs, next, None, root, total);
    GrowsCore(sets, ptrs, next, None, root, x);
  }

  /** What the sets and roots are once those that alias x are one. */
  lemma GatheredMeans(sets0: Sets, root0: Roots, sets: Sets, root: Roots, ptrs: Ptrs, next: Id, aa: Oracle, x: Loc,
                      found: Option<Id>)
    requires Gathered(sets0, root0, sets, root, ptrs, aa, x, found, next)
    requires Core(sets0, ptrs, next, None, root0) && Core(sets, ptrs, next, None, root)
    ensures Regathered(sets0, root0, sets, root, ptrs, aa, x, found)
    ensures found.Some? ==> found.value in sets && sets[found.value].fwd.None?
    ensures forall q :: q in ptrs ==> ptrs[q].aset in sets
  {
    CoreBounds(sets, ptrs, next, None, root);
    CoreBounds(sets0, ptrs, next, None, root0);
    hide Core, Hit, Contents, Counts, Gathered, RegatheredAt;
    GatheredFound(sets0, root0, sets, root, ptrs, aa, x, found, next);
    forall q | q in ptrs ensures RegatheredAt(sets0, root0, sets, root, ptrs, aa, x, found, q) {
      CoreLinks(sets0, ptrs, next, None, root0, q);
      CoreLinks(sets, ptrs, next, None, root, q);
      RegathersAt(sets0, root0, sets, root, ptrs, next, aa, x, found, q);
    }
  }

  lemma GatheredFound(sets0: Sets, root0: Roots, sets: Sets, root: Roots, ptrs: Ptrs, aa: Oracle, x: Loc, found: Option<Id>, next: Id)
    requires Gathered(sets0, root0, sets, root, ptrs, aa, x, found, next)
    ensures found.Some? ==> found.value in sets && sets[found.value].fwd.None?
  {
    hide Hit;
  }

  lemma RegathersAt(sets0: Sets, root0: Roots, sets: Sets, root: Roots, ptrs: Ptrs, next: Id, aa: Oracle, x: Loc,
                    found: Option<Id>, q: Ptr)
    requires Gathered(sets0, root0, sets, root, ptrs, aa, x, found, next) && q in ptrs
    requires ptrs[q].aset in root0 && SetOf(ptrs, root0, q) in sets0 && SetOf(ptrs, root0, q) < next
    requires ptrs[q].aset in root && SetOf(ptrs, root, q) in sets && sets[SetOf(ptrs, root, q)].fwd.None?
    ensures RegatheredAt(sets0, root0, sets, root, ptrs, aa, x, found, q)
  {
    hide Hit;
  }

  lemma CoreLinks(sets: Sets, ptrs: Ptrs, next: Id, any: Option<Id>, root: Roots, q: Ptr)
    requires Core(sets, ptrs, next, any, root) && q in ptrs
    ensures ptrs[q].aset in sets && ptrs[q].aset in root && SetOf(ptrs, root, q) in sets
    ensures sets[SetOf(ptrs, root, q)].fwd.None? && q in sets[SetOf(ptrs, root, q)].members && SetOf(ptrs, root, q) < next
  {
    assert Linked(sets, next, any, root, ptrs[q].aset);
    assert Linked(sets, next, any, root, root[ptrs[q].aset]);
  }

  ghost predicate Regathered(sets0: Sets, root0: Roots, sets: Sets, root: Roots, ptrs: Ptrs, aa: Oracle, x: Loc, found: Option<Id>) {
    forall q {:trigger RegatheredAt(sets0, root0, sets, root, ptrs, aa, x, found, q)} :: q in ptrs ==>
      RegatheredAt(sets0, root0, sets, root, ptrs, aa, x, found, q)
  }

  ghost predicate RegatheredAt(sets0: Sets, root0: Roots, sets: Sets, root: Roots, ptrs: Ptrs, aa: Oracle, x: Loc,
                               found: Option<Id>, q: Ptr)
    requires q in ptrs
  {
    && ptrs[q].aset in root0 && ptrs[q].aset in root
    && var i0, i := SetOf(ptrs, root0, q), SetOf(ptrs, root, q);
    && i0 in sets0 && i in sets && Includes(sets[i].access, sets0[i0].access)
    && (if Hit(sets0, ptrs, aa, x, i0) then found == Some(i) else i == i0 && found != Some(i))
  }

  lemma GrowSettles(sets0: Sets, root0: Roots, sets: Sets, root: Roots, ptrs0: Ptrs, ptrs: Ptrs, next: Id, aa: Oracle,
                    total: int, x: Loc, found: Option<Id>)
    requires Gathered(sets0, root0, sets, root, ptrs, aa, x, found, next) && Core(sets0, ptrs, next, None, root0)
    requires Core(sets, ptrs, next, None, root) && total == MayTotal(sets, next) && GatheredAccess(sets0, sets, ptrs, aa, x, found, next)
    requires x.p in ptrs0 && ptrs == AskedPtrs(ptrs0, x)
    requires ptrs[x.p].size != ptrs0[x.p].size
    ensures Stable(sets, ptrs, next, None, root, total)
    ensures Regrouped(sets0, ptrs0, root0, aa, x, None, ptrs, root) && Kept(sets0, ptrs0, root0, sets, ptrs, root)
    ensures Leq(x.size, ptrs[x.p].size) && AccessFrom(sets0, ptrs0, root0, sets, ptrs, root)
  {
    hide *;
    GatheredMeans(sets0, root0, sets, root, ptrs, next, aa, x, found);
    GrowRegroups(sets0, root0, sets, root, ptrs0, ptrs, aa, x, found);
    AccessGathered(sets0, root0, sets, root, ptrs, next, aa, x, found);
    AccessGrown(sets0, root0, sets, root, ptrs0, ptrs, x);
    CoreUsed(sets, ptrs, next, root);
    IsStable(sets, ptrs, next, root, total);
  }

  lemma AccessGrown(sets0: Sets, root0: Roots, sets: Sets, root: Roots, ptrs0: Ptrs, ptrs: Ptrs, x: Loc)
    requires ptrs == AskedPtrs(ptrs0, x) && AccessFrom(sets0, ptrs, root0, sets, ptrs, root)
    ensures AccessFrom(sets0, ptrs0, root0, sets, ptrs, root)
  {
    forall i, mod | i in sets && sets[i].fwd.None? && HasBit(sets[i].access, mod) ensures DidBefore(sets0, ptrs0, root0, ptrs, root, i, mod) {
      assert DidBefore(sets0, ptrs, root0, ptrs, root, i, mod);
      var i0 :| i0 in sets0 && sets0[i0].fwd.None? && HasBit(sets0[i0].access, mod) && WentTo(ptrs, root0, ptrs, root, i0, i);
      hide HasBit, Union;
      assert WentTo(ptrs0, root0, ptrs, root, i0, i);
    }
  }

  lemma IsStable(sets: Sets, ptrs: Ptrs, next: Id, root: Roots, total: int)
    requires Core(sets, ptrs, next, None, root) && AllUsed(sets, None) && total == MayTotal(sets, next)
    ensures Stable(sets, ptrs, next, None, root, total)
  {
    hide Core, AllUsed, MayTotal;
  }

  lemma CoreUsed(sets: Sets, ptrs: Ptrs, next: Id, root: Roots)
    requires Core(sets, ptrs, next, None, root)
    ensures AllUsed(sets, None)
  {
  }

  lemma GrowRegroups(sets0: Sets, root0: Roots, sets: Sets, root: Roots, ptrs0: Ptrs, ptrs: Ptrs, aa: Oracle, x: Loc, found: Option<Id>)
    requires Regathered(sets0, root0, sets, root, ptrs, aa, x, found) && x.p in ptrs0 && ptrs == AskedPtrs(ptrs0, x)
    requires ptrs[x.p].size != ptrs0[x.p].size
    ensures Regrouped(sets0, ptrs0, root0, aa, x, None, ptrs, root) && Kept(sets0, ptrs0, root0, sets, ptrs, root)
    ensures Leq(x.size, ptrs[x.p].size)
  {
    hide Hit, Regrouped, Kept, Union, Regathered;
    UnionHolds(ptrs0[x.p].size, x.size);
    GrowTogether(sets0, root0, sets, root, ptrs0, ptrs, aa, x, found);
    GrowKept(sets0, root0, sets, root, ptrs0, ptrs, aa, x, found);
  }

  lemma UnionHolds(a: Size, b: Size)
    ensures Leq(a, Union(a, b)) && Leq(b, Union(a, b))
  {
  }

  lemma GrowTogether(sets0: Sets, root0: Roots, sets: Sets, root: Roots, ptrs0: Ptrs, ptrs: Ptrs, aa: Oracle, x: Loc, found: Option<Id>)
    requires Regathered(sets0, root0, sets, root, ptrs, aa, x, found) && x.p in ptrs0 && ptrs == AskedPtrs(ptrs0, x)
    requires ptrs[x.p].size != ptrs0[x.p].size
    ensures Regrouped(sets0, ptrs0, root0, aa, x, None, ptrs, root)
  {
    hide Hit, Includes, Union;
    forall q | q in ptrs0
      ensures && ptrs0[q].aset in root0 && q in ptrs && ptrs[q].aset in root
              && (if BroughtIn(sets0, ptrs0, root0, aa, x, q) then found == Some(SetOf(ptrs, root, q))
                  else SetOf(ptrs, root, q) == SetOf(ptrs0, root0, q) && found != Some(SetOf(ptrs, root, q)))
      ensures BroughtIn(sets0, ptrs0, root0, aa, x, q) <==> Hit(sets0, ptrs, aa, x, SetOf(ptrs0, root0, q))
    {
      assert RegatheredAt(sets0, root0, sets, root, ptrs, aa, x, found, q);
    }
    hide BroughtIn, RegatheredAt, Regathered, AskedPtrs;
  }

  lemma GrowKept(sets0: Sets, root0: Roots, sets: Sets, root: Roots, ptrs0: Ptrs, ptrs: Ptrs, aa: Oracle, x: Loc, found: Option<Id>)
    requires Regathered(sets0, root0, sets, root, ptrs, aa, x, found) && x.p in ptrs0 && ptrs == AskedPtrs(ptrs0, x)
    ensures Kept(sets0, ptrs0, root0, sets, ptrs, root)
  {
    UnionHolds(ptrs0[x.p].size, x.size);
    hide Hit, Includes, Union;
    assert forall s: Size :: Leq(s, s);
    hide Leq;
    assert forall q :: q in ptrs0 ==> RegatheredAt(sets0, root0, sets, root, ptrs, aa, x, found, q);
  }

  lemma GrowsNot(sets: Sets, root: Roots, ptrs: Ptrs, next: Id, aa: Oracle, total: int, x: Loc)
    requires Stable(sets, ptrs, next, None, root, total) && x.p in ptrs && Union(ptrs[x.p].size, x.size) == ptrs[x.p].size
    ensures var m := ptrs[x.p := ptrs[x.p].(size := Union(ptrs[x.p].size, x.size))];
            && Stable(sets, m, next, None, root, total) && Leq(x.size, m[x.p].size)
            && Regrouped(sets, ptrs, root, aa, x, None, m, root) && Kept(sets, ptrs, root, sets, m, root)
            && AccessFrom(sets, ptrs, root, sets, m, root)
  {
    hide *;
    StableMeans(sets, ptrs, next, None, root, total);
    assert ptrs[x.p := ptrs[x.p].(size := Union(ptrs[x.p].size, x.size))] == ptrs;
    StaysSame(sets, root, ptrs, aa, x);
    AccessSame(sets, ptrs, root);
  }

  lemma StaysSame(sets: Sets, root: Roots, ptrs: Ptrs, aa: Oracle, x: Loc)
    requires forall q :: q in ptrs ==> ptrs[q].aset in root && SetOf(ptrs, root, q) in sets
    requires x.p in ptrs && Union(ptrs[x.p].size, x.size) == ptrs[x.p].size
    ensures Leq(x.size, ptrs[x.p].size)
    ensures Regrouped(sets, ptrs, root, aa, x, None, ptrs, root) && Kept(sets, ptrs, root, sets, ptrs, root)
  {
    hide Hit;
  }

  lemma SettledKeeps(sets0: Sets, ptrs0: Ptrs, root0: Roots, sets: Sets, ptrs: Ptrs, sets': Sets, ptrs': Ptrs, root: Roots,
                     aa: Oracle, x: Loc, d: Id)
    requires Regrouped(sets0, ptrs0, root0, aa, x, None, ptrs, root) && Kept(sets0, ptrs0, root0, sets, ptrs, root)
    requires Rewired(sets, sets') && x.p in ptrs && d in sets' && sets'[d].fwd.None? && d in root && root[d] == d
    requires ptrs[x.p].aset in root && d == root[ptrs[x.p].aset] && ptrs' == ptrs[x.p := ptrs[x.p].(aset := d)]
    requires Leq(x.size, ptrs[x.p].size) && ptrs.Keys == ptrs0.Keys && AccessFrom(sets0, ptrs0, root0, sets, ptrs, root)
    requires forall q :: q in ptrs ==> ptrs[q].aset in root && SetOf(ptrs, root, q) in sets && sets[SetOf(ptrs, root, q)].fwd.None?
    ensures Regrouped(sets0, ptrs0, root0, aa, x, None, ptrs', root) && Kept(sets0, ptrs0, root0, sets', ptrs', root)
    ensures PlacedIn(sets', ptrs', root, x, d) && ptrs'.Keys == ptrs0.Keys + {x.p} && AccessFrom(sets0, ptrs0, root0, sets', ptrs', root)
  {
    hide Hit, BroughtIn, Includes, Leq, AccessFrom;
    AccessOn(sets0, ptrs0, root0, sets, ptrs, root, sets', ptrs', root);
    SettledSame(sets, ptrs, sets', ptrs', root, x.p, d);
    SettledRegroups(sets0, ptrs0, root0, ptrs, ptrs', root, aa, x);
    hide Regrouped, Rewired;
  }

  lemma SettledSame(sets: Sets, ptrs: Ptrs, sets': Sets, ptrs': Ptrs, root: Roots, p: Ptr, d: Id)
    requires Rewired(sets, sets') && p in ptrs && ptrs[p].aset in root && d in root && root[d] == d == root[ptrs[p].aset]
    requires ptrs' == ptrs[p := ptrs[p].(aset := d)]
    requires forall q :: q in ptrs ==> ptrs[q].aset in root && SetOf(ptrs, root, q) in sets && sets[SetOf(ptrs, root, q)].fwd.None?
    ensures ptrs'.Keys == ptrs.Keys
    ensures forall q :: q in ptrs ==>
              && ptrs'[q].aset in root && SetOf(ptrs', root, q) == SetOf(ptrs, root, q) && ptrs'[q].size == ptrs[q].size
              && SetOf(ptrs, root, q) in sets' && sets'[SetOf(ptrs, root, q)].access == sets[SetOf(ptrs, root, q)].access
  {
  }

  lemma SettledRegroups(sets0: Sets, ptrs0: Ptrs, root0: Roots, ptrs: Ptrs, ptrs': Ptrs, root: Roots, aa: Oracle, x: Loc)
    requires Regrouped(sets0, ptrs0, root0, aa, x, None, ptrs, root) && ptrs'.Keys == ptrs.Keys
    requires forall q :: q in ptrs ==> ptrs[q].aset in root && ptrs'[q].aset in root && SetOf(ptrs', root, q) == SetOf(ptrs, root, q)
    ensures Regrouped(sets0, ptrs0, root0, aa, x, None, ptrs', root)
  {
    hide BroughtIn;
  }

  /** A new pointer is put into set r, with the sets that alias it if there are any. */
  lemma NewRegroups(sets0: Sets, ptrs0: Ptrs, root0: Roots, sets1: Sets, root1: Roots, sets: Sets, ptrs: Ptrs, root: Roots,
                    aa: Oracle, x: Loc, found: Option<Id>, r: Id)
    requires Regathered(sets0, root0, sets1, root1, ptrs0, aa, x, found) && x.p !in ptrs0
    requires ptrs.Keys == ptrs0.Keys + {x.p} && ptrs[x.p] == Rec(x.size, r) && r in root && root[r] == r
    requires r in sets && sets[r].fwd.None?
    requires forall q :: q in ptrs0 ==> ptrs[q].aset == ptrs0[q].aset && Leq(ptrs0[q].size, ptrs[q].size)
    requires forall i :: i in root1 ==> i in root && (i != r ==> root[i] == root1[i])
    requires forall i :: i in sets1 ==> i in sets && sets[i].access == sets1[i].access
    requires if found.Some? then found == Some(r) && r in root1 && root1[r] == r else r !in sets1 && forall q :: q in ptrs0 ==> ptrs0[q].aset in sets1
    ensures Regrouped(sets0, ptrs0, root0, aa, x, None, ptrs, root) && Kept(sets0, ptrs0, root0, sets, ptrs, root)
    ensures PlacedIn(sets, ptrs, root, x, r)
  {
    hide Hit;
    assert AskedPtrs(ptrs0, x) == ptrs0;
    forall q | q in ptrs0
      ensures && ptrs[q].aset in root && ptrs0[q].aset in root0 && SetOf(ptrs0, root0, q) in sets0 && SetOf(ptrs, root, q) in sets
              && (if Hit(sets0, ptrs0, aa, x, SetOf(ptrs0, root0, q)) then SetOf(ptrs, root, q) == r
                  else SetOf(ptrs, root, q) == SetOf(ptrs0, root0, q) != r)
              && Includes(sets[SetOf(ptrs, root, q)].access, sets0[SetOf(ptrs0, root0, q)].access)
    {
      assert RegatheredAt(sets0, root0, sets1, root1, ptrs0, aa, x, found, q);
    }
  }

  lemma JoinedNew(sets0: Sets, root0: Roots, ptrs0: Ptrs, sets1: Sets, root: Roots, sets: Sets, ptrs: Ptrs, next: Id, aa: Oracle,
                  x: Loc, r: Id, total: int)
    requires Regathered(sets0, root0, sets1, root, ptrs0, aa, x, Some(r)) && x.p !in ptrs0 && r in sets1 && sets1[r].fwd.None?
    requires Joined(sets1, ptrs0, aa, sets, ptrs, r, x.p, x.size) && AccessFrom(sets0, ptrs0, root0, sets1, ptrs0, root)
    requires Core(sets, ptrs, next, None, root) && total == MayTotal(sets, next)
    ensures Stable(sets, ptrs, next, None, root, total)
    ensures Regrouped(sets0, ptrs0, root0, aa, x, None, ptrs, root) && Kept(sets0, ptrs0, root0, sets, ptrs, root)
    ensures PlacedIn(sets, ptrs, root, x, r) && ptrs.Keys == ptrs0.Keys + {x.p} && AccessFrom(sets0, ptrs0, root0, sets, ptrs, root)
  {
    hide Regathered, MayTotal, Regrouped, Kept, PlacedIn;
    CoreUsed(sets, ptrs, next, root);
    CoreMembers(sets, ptrs, next, None, root);
    hide Core, AllUsed;
    JoinedMeans(sets1, ptrs0, aa, sets, ptrs, r, x.p, x.size);
    hide AccessFrom;
    AccessOn(sets0, ptrs0, root0, sets1, ptrs0, root, sets, ptrs, root);
    NewRegroups(sets0, ptrs0, root0, sets1, root, sets, ptrs, root, aa, x, Some(r), r);
  }

  lemma JoinedMeans(sets: Sets, ptrs: Ptrs, aa: Oracle, sets': Sets, ptrs': Ptrs, i: Id, p: Ptr, size: Size)
    requires Joined(sets, ptrs, aa, sets', ptrs', i, p, size) && p !in ptrs
    ensures ptrs'.Keys == ptrs.Keys + {p} && ptrs'[p] == Rec(size, i) && sets'.Keys == sets.Keys
    ensures forall q :: q in ptrs ==> ptrs'[q].aset == ptrs[q].aset && Leq(ptrs[q].size, ptrs'[q].size)
    ensures forall k :: k in sets ==> sets'[k].access == sets[k].access && sets'[k].fwd == sets[k].fwd
  {
    assert forall k :: k in sets[i].members ==> k in ptrs;
    assert sets[i].members != [] ==> sets[i].members[0] in sets[i].members;
  }

  lemma AloneNew(sets0: Sets, root0: Roots, ptrs0: Ptrs, sets1: Sets, root1: Roots, sets: Sets, ptrs: Ptrs, root: Roots, r: Id,
                 aa: Oracle, x: Loc, total: int)
    requires Regathered(sets0, root0, sets1, root1, ptrs0, aa, x, None) && x.p !in ptrs0 && r !in sets1
    requires sets == sets1[r := Single(x.p)] && ptrs == ptrs0[x.p := Rec(x.size, r)] && root == root1[r := r]
    requires forall q :: q in ptrs0 ==> ptrs0[q].aset in sets1
    requires AccessFrom(sets0, ptrs0, root0, sets1, ptrs0, root1)
    requires Core(sets, ptrs, r + 1, None, root) && total == MayTotal(sets, r + 1)
    ensures Stable(sets, ptrs, r + 1, None, root, total)
    ensures Regrouped(sets0, ptrs0, root0, aa, x, None, ptrs, root) && Kept(sets0, ptrs0, root0, sets, ptrs, root)
    ensures PlacedIn(sets, ptrs, root, x, r) && ptrs.Keys == ptrs0.Keys + {x.p} && AccessFrom(sets0, ptrs0, root0, sets, ptrs, root)
  {
    hide *;
    CoreUsed(sets, ptrs, r + 1, root);
    IsStable(sets, ptrs, r + 1, root, total);
    AloneMeans(sets1, sets, ptrs0, ptrs, root1, root, r, x);
    AloneAccess(sets0, root0, sets1, sets, ptrs0, ptrs, root1, root, r, x);
    NewRegroups(sets0, ptrs0, root0, sets1, root1, sets, ptrs, root, aa, x, None, r);
  }

  lemma AloneAccess(sets0: Sets, root0: Roots, sets1: Sets, sets: Sets, ptrs0: Ptrs, ptrs: Ptrs, root1: Roots, root: Roots, r: Id, x: Loc)
    requires sets == sets1[r := Single(x.p)] && ptrs == ptrs0[x.p := Rec(x.size, r)] && root == root1[r := r]
    requires x.p !in ptrs0 && r !in sets1 && forall q :: q in ptrs0 ==> ptrs0[q].aset in sets1
    requires AccessFrom(sets0, ptrs0, root0, sets1, ptrs0, root1)
    ensures AccessFrom(sets0, ptrs0, root0, sets, ptrs, root)
  {
    hide AccessFrom;
    AccessOn(sets0, ptrs0, root0, sets1, ptrs0, root1, sets, ptrs, root);
  }

  lemma AloneMeans(sets1: Sets, sets: Sets, ptrs0: Ptrs, ptrs: Ptrs, root1: Roots, root: Roots, r: Id, x: Loc)
    requires sets == sets1[r := Single(x.p)] && ptrs == ptrs0[x.p := Rec(x.size, r)] && root == root1[r := r]
    requires x.p !in ptrs0 && r !in sets1
    ensures ptrs.Keys == ptrs0.Keys + {x.p} && ptrs[x.p] == Rec(x.size, r) && r in root && root[r] == r
    ensures r in sets && sets[r].fwd.None?
    ensures forall q :: q in ptrs0 ==> ptrs[q].aset == ptrs0[q].aset && Leq(ptrs0[q].size, ptrs[q].size)
    ensures forall i :: i in root1 ==> i in root && (i != r ==> root[i] == root1[i])
    ensures forall i :: i in sets1 ==> i in sets && sets[i].access == sets1[i].access
  {
  }

  // ----- What the requests so far have come to -----------------------------------------------

  datatype Request = Request(loc: Loc, access: Access)

  ghost predicate Summarized(asked: set<Request>, sets: Sets, ptrs: Ptrs, root: Roots) {
    && (forall a :: a in asked ==>
          && a.loc.p in ptrs && Leq(a.loc.size, ptrs[a.loc.p].size) && ptrs[a.loc.p].aset in root
          && SetOf(ptrs, root, a.loc.p) in sets && Includes(sets[SetOf(ptrs, root, a.loc.p)].access, a.access))
    && (forall p :: p in ptrs ==> exists a :: a in asked && a.loc.p == p)
  }

  /** Some pointer of set i was requested to be written (or read). */
  ghost predicate RequestedIn(asked: set<Request>, ptrs: Ptrs, root: Roots, i: Id, mod: bool) {
    exists a :: a in asked && HasBit(a.access, mod) && a.loc.p in ptrs && ptrs[a.loc.p].aset in root && SetOf(ptrs, root, a.loc.p) == i
  }

  ghost predicate Accounted(asked: set<Request>, sets: Sets, ptrs: Ptrs, root: Roots) {
    forall i, mod :: i in sets && sets[i].fwd.None? && HasBit(sets[i].access, mod) ==> RequestedIn(asked, ptrs, root, i, mod)
  }

  lemma NowAccounted(asked: set<Request>, sets0: Sets, ptrs0: Ptrs, root0: Roots, sets1: Sets, sets: Sets, ptrs: Ptrs, root: Roots,
                     x: Loc, e: Access, r: Id)
    requires Accounted(asked, sets0, ptrs0, root0) && AccessFrom(sets0, ptrs0, root0, sets1, ptrs, root)
    requires PlacedIn(sets1, ptrs, root, x, r) && sets == sets1[r := sets1[r].(access := Join(sets1[r].access, e))]
    ensures Accounted(asked + {Request(x, e)}, sets, ptrs, root)
  {
    forall i, mod | i in sets && sets[i].fwd.None? && HasBit(sets[i].access, mod)
      ensures RequestedIn(asked + {Request(x, e)}, ptrs, root, i, mod)
    {
      if HasBit(sets1[i].access, mod) {
        assert DidBefore(sets0, ptrs0, root0, ptrs, root, i, mod);
        RequestedBefore(asked, sets0, ptrs0, root0, ptrs, root, i, mod, Request(x, e));
      } else {
        assert Request(x, e) in asked + {Request(x, e)} && i == r;
      }
    }
  }

  lemma RequestedBefore(asked: set<Request>, sets0: Sets, ptrs0: Ptrs, root0: Roots, ptrs: Ptrs, root: Roots, i: Id, mod: bool, now: Request)
    requires Accounted(asked, sets0, ptrs0, root0) && DidBefore(sets0, ptrs0, root0, ptrs, root, i, mod)
    ensures RequestedIn(asked + {now}, ptrs, root, i, mod)
  {
    var i0 :| i0 in sets0 && sets0[i0].fwd.None? && HasBit(sets0[i0].access, mod) && WentTo(ptrs0, root0, ptrs, root, i0, i);
    hide HasBit;
    assert RequestedIn(asked, ptrs0, root0, i0, mod);
    var a :| a in asked && HasBit(a.access, mod) && a.loc.p in ptrs0 && ptrs0[a.loc.p].aset in root0 && SetOf(ptrs0, root0, a.loc.p) == i0;
    assert a in asked + {now};
  }

  lemma PlacedMeans(sets: Sets, ptrs: Ptrs, root: Roots, x: Loc, r: Id)
    requires PlacedIn(sets, ptrs, root, x, r)
    ensures r in sets && sets[r].fwd.None? && x.p in ptrs
  {
  }

  lemma AccessJoins(sets: Sets, ptrs: Ptrs, next: Id, any: Option<Id>, root: Roots, total: int, r: Id, e: Access)
    requires Stable(sets, ptrs, next, any, root, total) && r in sets && sets[r].fwd.None?
    ensures Stable(sets[r := sets[r].(access := Join(sets[r].access, e))], ptrs, next, any, root, total)
  {
    hide Graph, MayTotal, Counts, Contents, AllUsed, Core, Wired, Stable;
    var a := sets[r].(access := Join(sets[r].access, e));
    StableMeans(sets, ptrs, next, any, root, total);
    AccessTotal(sets, r, a, next);
    AccessCore(sets, ptrs, next, any, root, r, a);
    AccessStable(sets, ptrs, next, any, root, total, r, a);
  }

  lemma AccessStable(sets: Sets, ptrs: Ptrs, next: Id, any: Option<Id>, root: Roots, total: int, r: Id, a: ASet)
    requires Stable(sets, ptrs, next, any, root, total) && r in sets && a == sets[r].(access := a.access)
    requires Core(sets[r := a], ptrs, next, any, root) && MayTotal(sets[r := a], next) == MayTotal(sets, next)
    ensures Stable(sets[r := a], ptrs, next, any, root, total)
  {
    hide Core, MayTotal;
  }

  lemma AccessCore(sets: Sets, ptrs: Ptrs, next: Id, any: Option<Id>, root: Roots, r: Id, a: ASet)
    requires Core(sets, ptrs, next, any, root) && r in sets && a == sets[r].(access := a.access)
    ensures Core(sets[r := a], ptrs, next, any, root)
  {
    hide Graph, Counts, Contents;
    WiredKeys(sets, ptrs, next, any, root);
    AccessCounts(sets, ptrs, r, a);
    GraphKeeps(sets, sets[r := a], next, any, root);
    AccessContents(sets, ptrs, root, r, a);
  }

  lemma AccessCounts(sets: Sets, ptrs: Ptrs, r: Id, a: ASet)
    requires r in sets && a == sets[r].(access := a.access) && Counts(sets, ptrs, 0, 0)
    ensures Counts(sets[r := a], ptrs, 0, 0)
  {
    hide RefCount;
    RefsChange(sets, ptrs, r, a);
  }

  lemma AccessContents(sets: Sets, ptrs: Ptrs, root: Roots, r: Id, a: ASet)
    requires r in sets && a == sets[r].(access := a.access) && PtrsLive(sets, ptrs) && sets.Keys <= root.Keys
    requires Contents(sets, ptrs, root)
    ensures Contents(sets[r := a], ptrs, root)
  {
  }

  lemma AccessTotal(sets: Sets, r: Id, a: ASet, n: Id)
    requires r in sets && a == sets[r].(access := a.access)
    ensures MayTotal(sets[r := a], n) == MayTotal(sets, n)
  {
    TotalAgrees(sets, sets[r := a], n);
  }

  lemma AccessKeeps(sets0: Sets, ptrs0: Ptrs, root0: Roots, sets1: Sets, sets: Sets, ptrs: Ptrs, root: Roots, x: Loc, r: Id, e: Access)
    requires Kept(sets0, ptrs0, root0, sets1, ptrs, root) && PlacedIn(sets1, ptrs, root, x, r)
    requires sets == sets1[r := sets1[r].(access := Join(sets1[r].access, e))]
    ensures Kept(sets0, ptrs0, root0, sets, ptrs, root) && PlacedIn(sets, ptrs, root, x, r) && Includes(sets[r].access, e)
  {
    hide Leq;
  }

  lemma AllKeeps(sets0: Sets, ptrs0: Ptrs, root0: Roots, sets2: Sets, root2: Roots, sets: Sets, ptrs: Ptrs, next: Id, root: Roots,
                 aa: Oracle, any: Option<Id>, total: int, x: Loc, a: Id, e: Access)
    requires Kept(sets0, ptrs0, root0, sets2, ptrs, root2) && x.p in ptrs && Leq(x.size, ptrs[x.p].size)
    requires Stable(sets, ptrs, next, any, root, total) && any == Some(a) && sets[a].access == Access(true, true)
    requires Regrouped(sets0, ptrs0, root0, aa, x, None, ptrs, root2)
    ensures Kept(sets0, ptrs0, root0, sets, ptrs, root) && PlacedIn(sets, ptrs, root, x, a) && Includes(sets[a].access, e)
    ensures Regrouped(sets0, ptrs0, root0, aa, x, any, ptrs, root)
  {
    hide *;
    SaturatedRoots(sets, ptrs, next, any, root, total);
    AllTaken(sets0, ptrs0, root0, sets2, root2, sets, ptrs, root, x, a, e);
    AllRegrouped(sets0, ptrs0, root0, root2, sets, ptrs, root, aa, any, x, a);
  }

  lemma AllTaken(sets0: Sets, ptrs0: Ptrs, root0: Roots, sets2: Sets, root2: Roots, sets: Sets, ptrs: Ptrs, root: Roots,
                 x: Loc, a: Id, e: Access)
    requires Kept(sets0, ptrs0, root0, sets2, ptrs, root2) && x.p in ptrs && Leq(x.size, ptrs[x.p].size)
    requires a in sets && sets[a].access == Access(true, true) && sets[a].fwd.None? && PtrsLive(sets, ptrs)
    requires forall k :: k in sets ==> k in root && root[k] == a
    ensures Kept(sets0, ptrs0, root0, sets, ptrs, root) && PlacedIn(sets, ptrs, root, x, a) && Includes(sets[a].access, e)
  {
    hide Leq;
  }

  lemma AllRegrouped(sets0: Sets, ptrs0: Ptrs, root0: Roots, root2: Roots, sets: Sets, ptrs: Ptrs, root: Roots, aa: Oracle,
                     any: Option<Id>, x: Loc, a: Id)
    requires Regrouped(sets0, ptrs0, root0, aa, x, None, ptrs, root2) && any == Some(a) && PtrsLive(sets, ptrs)
    requires forall k :: k in sets ==> k in root && root[k] == a
    ensures Regrouped(sets0, ptrs0, root0, aa, x, any, ptrs, root)
  {
    hide BroughtIn;
  }

  lemma NowSummarized(asked: set<Request>, sets0: Sets, ptrs0: Ptrs, root0: Roots, sets: Sets, ptrs: Ptrs, root: Roots,
                      x: Loc, e: Access, r: Id)
    requires Summarized(asked, sets0, ptrs0, root0) && Kept(sets0, ptrs0, root0, sets, ptrs, root)
    requires PlacedIn(sets, ptrs, root, x, r) && Includes(sets[r].access, e) && ptrs.Keys == ptrs0.Keys + {x.p}
    ensures Summarized(asked + {Request(x, e)}, sets, ptrs, root)
  {
    forall p | p in ptrs ensures exists a :: a in asked + {Request(x, e)} && a.loc.p == p {
      if p in ptrs0 {
        var a :| a in asked && a.loc.p == p;
        assert a in asked + {Request(x, e)};
      } else {
        assert Request(x, e) in asked + {Request(x, e)} && Request(x, e).loc.p == p;
      }
    }
  }

  // ----- Gathering the sets that alias a location ----------------------------------------------

  /** The set i stands for itself and is said to alias x. */
  ghost predicate Hit(sets: Sets, ptrs: Ptrs, aa: Oracle, x: Loc, i: Id) {
    i in sets && sets[i].fwd.None? && (forall q :: q in sets[i].members ==> q in ptrs) && Aliases(sets[i], ptrs, aa, x)
  }

  /** Of the sets created before k, exactly those that alias x are now one, named found. */
  ghost predicate Gathered(sets0: Sets, root0: Roots, sets: Sets, root: Roots, ptrs: Ptrs, aa: Oracle, x: Loc,
                           found: Option<Id>, k: Id)
  {
    && sets.Keys == sets0.Keys && root.Keys == root0.Keys
    && (forall c :: c in root0 ==>
          root[c] == if found.Some? && root0[c] < k && Hit(sets0, ptrs, aa, x, root0[c]) then found.value else root0[c])
    && (found.Some? ==> found.value < k && found.value in sets && sets[found.value].fwd.None?
                        && Hit(sets0, ptrs, aa, x, found.value))
    && (found.None? ==> sets == sets0)
    && (found.Some? ==> forall i: Id :: i < k && Hit(sets0, ptrs, aa, x, i) ==>
          Includes(sets[found.value].access, sets0[i].access))
    && (forall i :: i in sets && i >= k ==> sets[i] == sets0[i])
    && (forall i :: i in sets && i < k && sets[i].fwd.None? && found != Some(i) ==>
          sets[i] == sets0[i] && !Hit(sets0, ptrs, aa, x, i))
  }

  /** What the gathered set is said to do, one of the sets that it took was said to do. */
  ghost predicate GatheredAccess(sets0: Sets, sets: Sets, ptrs: Ptrs, aa: Oracle, x: Loc, found: Option<Id>, k: Id) {
    found.Some? ==> found.value in sets && forall mod :: HasBit(sets[found.value].access, mod) ==> HitDoes(sets0, ptrs, aa, x, k, mod)
  }

  ghost predicate HitDoes(sets0: Sets, ptrs: Ptrs, aa: Oracle, x: Loc, k: Id, mod: bool) {
    exists i: Id :: i < k && Hit(sets0, ptrs, aa, x, i) && HasBit(sets0[i].access, mod)
  }

  lemma GatheredAccessMore(sets0: Sets, root0: Roots, sets1: Sets, root1: Roots, found1: Option<Id>, sets: Sets, ptrs: Ptrs,
                           aa: Oracle, x: Loc, found: Option<Id>, k: Id)
    requires Gathered(sets0, root0, sets1, root1, ptrs, aa, x, found1, k) && GatheredAccess(sets0, sets1, ptrs, aa, x, found1, k)
    requires if Hit(sets1, ptrs, aa, x, k) then
               if found1.None? then found == Some(k) && sets == sets1
               else found == found1 && found.value in sets1 && found.value != k && sets == MergedSets(sets1, found.value, k, FirstsMust(sets1, ptrs, aa, found.value, k))
             else found == found1 && sets == sets1
    ensures GatheredAccess(sets0, sets, ptrs, aa, x, found, k + 1)
  {
    assert k in sets1 ==> k in sets0 && sets1[k] == sets0[k];
    hide Aliases, Gathered, MergedSets;
    assert Hit(sets1, ptrs, aa, x, k) ==> Hit(sets0, ptrs, aa, x, k);
    hide Hit;
    if found.Some? {
      forall mod | HasBit(sets[found.value].access, mod) ensures HitDoes(sets0, ptrs, aa, x, k + 1, mod) {
        if found1.Some? && HasBit(sets1[found.value].access, mod) {
          var i: Id :| i < k && Hit(sets0, ptrs, aa, x, i) && HasBit(sets0[i].access, mod);
        } else if found1.Some? {
          MergedAccess(sets1, found.value, k, FirstsMust(sets1, ptrs, aa, found.value, k), mod);
        }
      }
    }
  }

  lemma MergedAccess(sets: Sets, i: Id, j: Id, must: bool, mod: bool)
    requires i in sets && j in sets && i != j
    ensures HasBit(MergedSets(sets, i, j, must)[i].access, mod) ==> HasBit(sets[i].access, mod) || HasBit(sets[j].access, mod)
  {
  }

  lemma GatheredNothing(sets: Sets, root: Roots, ptrs: Ptrs, aa: Oracle, x: Loc)
    ensures Gathered(sets, root, sets, root, ptrs, aa, x, None, 0)
    ensures GatheredAccess(sets, sets, ptrs, aa, x, None, 0)
  {
  }

  lemma CoreNonempty(sets: Sets, ptrs: Ptrs, next: Id, any: Option<Id>, root: Roots, k: Id)
    requires Core(sets, ptrs, next, any, root) && k in sets && sets[k].fwd.None?
    ensures !sets[k].may ==> sets[k].members != []
  {
  }

  lemma FoundMayTake(sets0: Sets, root0: Roots, sets: Sets, root: Roots, ptrs: Ptrs, next: Id, any: Option<Id>,
                     aa: Oracle, x: Loc, f: Id, k: Id)
    requires Gathered(sets0, root0, sets, root, ptrs, aa, x, Some(f), k) && k in sets && sets[k].fwd.None? && any.None?
    ensures MayMerge(sets, any, f, k)
  {
  }

  lemma GatheredMore(sets0: Sets, root0: Roots, sets1: Sets, root1: Roots, found1: Option<Id>, sets: Sets, root: Roots,
                     ptrs: Ptrs, aa: Oracle, x: Loc, found: Option<Id>, k: Id)
    requires Gathered(sets0, root0, sets1, root1, ptrs, aa, x, found1, k)
    requires if Hit(sets1, ptrs, aa, x, k) then
               if found1.None? then found == Some(k) && sets == sets1 && root == root1
               else found == found1 && found.value in sets1 && found.value != k
                    && sets == MergedSets(sets1, found.value, k, FirstsMust(sets1, ptrs, aa, found.value, k)) && root == MergedRoots(root1, found.value, k)
             else found == found1 && sets == sets1 && root == root1
    ensures Gathered(sets0, root0, sets, root, ptrs, aa, x, found, k + 1)
  {
    hide Aliases;
    assert Hit(sets1, ptrs, aa, x, k) <==> Hit(sets0, ptrs, aa, x, k);
    hide Hit;
    if Hit(sets1, ptrs, aa, x, k) && found1.Some? {
      GatheredMerge(sets0, root0, sets1, root1, sets, root, ptrs, aa, x, found.value, k, FirstsMust(sets1, ptrs, aa, found.value, k));
    }
  }

  lemma GatheredMerge(sets0: Sets, root0: Roots, sets1: Sets, root1: Roots, sets: Sets, root: Roots,
                      ptrs: Ptrs, aa: Oracle, x: Loc, f: Id, k: Id, must: bool)
    requires Gathered(sets0, root0, sets1, root1, ptrs, aa, x, Some(f), k)
    requires Hit(sets0, ptrs, aa, x, k) && f in sets1 && k in sets1 && f != k
    requires sets == MergedSets(sets1, f, k, must) && root == MergedRoots(root1, f, k)
    ensures Gathered(sets0, root0, sets, root, ptrs, aa, x, Some(f), k + 1)
  {
    hide Hit;
    forall c | c in root0 ensures root[c] == if root0[c] < k + 1 && Hit(sets0, ptrs, aa, x, root0[c]) then f else root0[c] {
      assert root1[c] == if root0[c] < k && Hit(sets0, ptrs, aa, x, root0[c]) then f else root0[c];
    }
  }

  /** The first pointers of two sets are told to must-alias. */
  predicate FirstsMust(sets: Sets, ptrs: Ptrs, aa: Oracle, i: Id, j: Id)
    requires i in sets && j in sets
  {
    && sets[i].members != [] && sets[j].members != [] && sets[i].members[0] in ptrs && sets[j].members[0] in ptrs
    && aa(LocOf(ptrs, sets[i].members[0]), LocOf(ptrs, sets[j].members[0])) == MustAlias
  }

  lemma MustFirsts(sets: Sets, ptrs: Ptrs, next: Id, any: Option<Id>, root: Roots, i: Id)
    requires Core(sets, ptrs, next, any, root) && i in sets && sets[i].fwd.None? && !sets[i].may
    ensures sets[i].members != [] && sets[i].members[0] in ptrs
  {
    assert sets[i].members != [] ==> sets[i].members[0] in sets[i].members;
  }

  // ----- How many pointers it takes to saturate ---------------------------------------------------

  ghost function PtrsBelow(ptrs: Ptrs, root: Roots, n: Id): set<Ptr> {
    set p | p in ptrs && ptrs[p].aset in root && root[ptrs[p].aset] < n
  }

  /** TotalMayAliasSetSize counts tracked pointers, none twice. */
  lemma TotalBounded(sets: Sets, ptrs: Ptrs, next: Id, root: Roots)
    requires Core(sets, ptrs, next, None, root)
    ensures MayTotal(sets, next) <= |ptrs|
  {
    CoreMembers(sets, ptrs, next, None, root);
    CoreBounds(sets, ptrs, next, None, root);
    TotalBelow(sets, ptrs, root, next);
    Fewer(PtrsBelow(ptrs, root, next), ptrs.Keys);
  }

  lemma {:induction false} TotalBelow(sets: Sets, ptrs: Ptrs, root: Roots, n: Id)
    requires PtrsLive(sets, ptrs) && sets.Keys <= root.Keys && Contents(sets, ptrs, root)
    ensures MayTotal(sets, n) <= |PtrsBelow(ptrs, root, n)|
  {
    if n > 0 {
      TotalBelow(sets, ptrs, root, n - 1);
      var here := PtrsBelow(ptrs, root, n) - PtrsBelow(ptrs, root, n - 1);
      assert PtrsBelow(ptrs, root, n) == PtrsBelow(ptrs, root, n - 1) + here;
      if n - 1 in sets {
        var m := sets[n - 1].members;
        forall p ensures p in m <==> p in here {
          assert p in m <==> p in ptrs && root[ptrs[p].aset] == n - 1;
        }
        Distinct(m, here);
      }
    }
  }

  /** The total of an unsaturated tracker is the number of pointers in may-alias groups of the partition that an addition makes. */
  lemma TotalFollows(sets0: Sets, ptrs0: Ptrs, next0: Id, aa: Oracle, x: Loc, sets: Sets, ptrs: Ptrs, next: Id, root: Roots, total: int)
    requires Follows(sets0, ptrs0, next0, aa, x, sets, ptrs, next) && Stable(sets, ptrs, next, None, root, total)
    ensures var before := Partition(GroupsOf(sets0), SizesOf(ptrs0), next0);
            WellFormed(before) && total == |MayPtrs(Added(before, aa, x).groups)|
  {
    hide Added, WellFormed, GroupsOf, Core, MayPtrs, Contents, Stable;
    StableMeans(sets, ptrs, next, None, root, total);
    CoreBounds(sets, ptrs, next, None, root);
    TotalIsMayPtrs(sets, ptrs, next, root);
  }

  lemma TotalIsMayPtrs(sets: Sets, ptrs: Ptrs, next: Id, root: Roots)
    requires Core(sets, ptrs, next, None, root)
    ensures MayTotal(sets, next) == |MayPtrs(GroupsOf(sets))|
  {
    CoreMembers(sets, ptrs, next, None, root);
    CoreBounds(sets, ptrs, next, None, root);
    TotalCounts(sets, ptrs, root, next);
    hide *;
    forall p ensures p in MayBelow(sets, next) <==> p in MayPtrs(GroupsOf(sets)) {
      BelowHas(sets, next, p);
      MayPtrsHas(sets, p);
    }
    assert MayBelow(sets, next) == MayPtrs(GroupsOf(sets));
  }

  /** The pointers of a live may-alias set. */
  ghost function MayOf(a: ASet): set<Ptr> {
    if a.fwd.None? && a.may then set p | p in a.members else {}
  }

  /** The pointers in live may-alias sets created before n. */
  ghost function MayBelow(sets: Sets, n: Id): set<Ptr> {
    if n == 0 then {} else MayBelow(sets, n - 1) + if n - 1 in sets then MayOf(sets[n - 1]) else {}
  }

  lemma {:induction false} BelowHas(sets: Sets, n: Id, p: Ptr)
    ensures p in MayBelow(sets, n) <==> exists i :: i in sets && i < n && p in MayOf(sets[i])
  {
    hide MayOf;
    if n > 0 {
      BelowHas(sets, n - 1, p);
    }
  }

  lemma MayPtrsHas(sets: Sets, p: Ptr)
    ensures p in MayPtrs(GroupsOf(sets)) <==> exists i :: i in sets && p in MayOf(sets[i])
  {
    if i :| i in sets && p in MayOf(sets[i]) {
      assert GroupsOf(sets)[i].may && p in GroupsOf(sets)[i].members;
    }
  }

  lemma {:induction false} TotalCounts(sets: Sets, ptrs: Ptrs, root: Roots, n: Id)
    requires PtrsLive(sets, ptrs) && sets.Keys <= root.Keys && Contents(sets, ptrs, root)
    ensures MayTotal(sets, n) == |MayBelow(sets, n)|
  {
    hide Contents, PtrsLive, MayOf, Weight;
    if n > 0 {
      TotalCounts(sets, ptrs, root, n - 1);
      if n - 1 in sets {
        WeightCounts(sets, ptrs, root, n - 1);
        NotBelow(sets, ptrs, root, n - 1);
      }
    }
  }

  lemma NotBelow(sets: Sets, ptrs: Ptrs, root: Roots, n: Id)
    requires PtrsLive(sets, ptrs) && sets.Keys <= root.Keys && Contents(sets, ptrs, root) && n in sets
    ensures MayBelow(sets, n) !! MayOf(sets[n])
  {
    hide Contents, MayOf, MayBelow;
    forall p | p in MayOf(sets[n]) ensures p !in MayBelow(sets, n) {
      BelowHas(sets, n, p);
      if i :| i in sets && i < n && p in MayOf(sets[i]) {
        InOneSet(sets, ptrs, root, i, n, p);
      }
    }
  }

  lemma InOneSet(sets: Sets, ptrs: Ptrs, root: Roots, i: Id, j: Id, p: Ptr)
    requires PtrsLive(sets, ptrs) && sets.Keys <= root.Keys && Contents(sets, ptrs, root)
    requires i in sets && j in sets && p in MayOf(sets[i]) && p in MayOf(sets[j])
    ensures i == j
  {
    assert p in sets[i].members && p in sets[j].members;
    assert root[ptrs[p].aset] == i && root[ptrs[p].aset] == j;
  }

  lemma WeightCounts(sets: Sets, ptrs: Ptrs, root: Roots, i: Id)
    requires PtrsLive(sets, ptrs) && sets.Keys <= root.Keys && Contents(sets, ptrs, root) && i in sets
    ensures Weight(sets[i]) == |MayOf(sets[i])|
  {
    Distinct(sets[i].members, set p | p in sets[i].members);
  }

  lemma {:induction false} Distinct(s: seq<Ptr>, t: set<Ptr>)
    requires NoDup(s) && forall p :: p in s <==> p in t
    ensures |s| == |t|
  {
    if s == [] {
      assert t == {};
    } else {
      var rest, last := s[..|s| - 1], s[|s| - 1];
      assert s == rest + [last];
      Distinct(rest, t - {last});
    }
  }

  lemma {:induction false} Fewer(s: set<Ptr>, t: set<Ptr>)
    requires s <= t
    ensures |s| <= |t|
  {
    if s != {} {
      var p :| p in s;
      Fewer(s - {p}, t - {p});
    }
  }

  // ----- The tracker as a partition -------------------------------------------------------------

  /** The groups are gathered as their partition is. */
  ghost predicate GathersGroups(sets0: Sets, sets: Sets, ptrs: Ptrs, aa: Oracle, x: Loc, found: Option<Id>, k: Id) {
    && Tracked(GroupsOf(sets0), SizesOf(ptrs))
    && GatheredGroups(GroupsOf(sets0), SizesOf(ptrs), aa, x, k) == (GroupsOf(sets), found)
  }

  /** An addition does to the sets what it does to their partition. */
  ghost predicate Follows(sets: Sets, ptrs: Ptrs, next: Id, aa: Oracle, x: Loc, sets': Sets, ptrs': Ptrs, next': Id) {
    && WellFormed(Partition(GroupsOf(sets), SizesOf(ptrs), next))
    && Partition(GroupsOf(sets'), SizesOf(ptrs'), next') == Added(Partition(GroupsOf(sets), SizesOf(ptrs), next), aa, x)
  }

  lemma GroupsTracked(sets: Sets, ptrs: Ptrs, next: Id, root: Roots)
    requires Core(sets, ptrs, next, None, root)
    ensures WellFormed(Partition(GroupsOf(sets), SizesOf(ptrs), next)) && Tracked(GroupsOf(sets), SizesOf(ptrs))
  {
    CoreMembers(sets, ptrs, next, None, root);
    GroupsCover(sets, ptrs, next, root);
    forall k | k in sets && sets[k].fwd.None? ensures sets[k].may || sets[k].members != [] {
      CoreNonempty(sets, ptrs, next, None, root, k);
    }
    hide Core, Grouped, Separate;
    GroupsSeparate(sets);
    GroupsKnown(sets, ptrs);
    hide Known;
  }

  lemma GroupsKnown(sets: Sets, ptrs: Ptrs)
    requires forall k, q :: k in sets && q in sets[k].members ==> q in ptrs
    ensures Tracked(GroupsOf(sets), SizesOf(ptrs))
  {
  }

  lemma GroupsSeparate(sets: Sets)
    requires forall k, l, q :: k in sets && l in sets && k != l && q in sets[k].members ==> q !in sets[l].members
    ensures Separate(GroupsOf(sets))
  {
  }

  lemma GroupsCover(sets: Sets, ptrs: Ptrs, next: Id, root: Roots)
    requires Core(sets, ptrs, next, None, root)
    ensures forall p :: p in SizesOf(ptrs) ==> Grouped(GroupsOf(sets), p)
  {
    hide Core;
    forall p | p in SizesOf(ptrs) ensures Grouped(GroupsOf(sets), p) {
      CoreLinks(sets, ptrs, next, None, root, p);
      assert p in GroupsOf(sets)[SetOf(ptrs, root, p)].members;
    }
  }

  lemma NoneTakes(sets: Sets, ptrs: Ptrs, next: Id, root: Roots)
    requires Core(sets, ptrs, next, None, root)
    ensures forall k :: k in sets ==> !sets[k].any
  {
    forall k | k in sets ensures !sets[k].any {
      assert Linked(sets, next, None, root, k);
    }
  }

  lemma GroupsNothing(sets: Sets, ptrs: Ptrs, aa: Oracle, x: Loc)
    requires Tracked(GroupsOf(sets), SizesOf(ptrs))
    ensures GathersGroups(sets, sets, ptrs, aa, x, None, 0)
  {
  }

  lemma GroupsMore(sets0: Sets, sets1: Sets, found1: Option<Id>, sets: Sets, ptrs: Ptrs, aa: Oracle, x: Loc, found: Option<Id>, k: Id)
    requires GathersGroups(sets0, sets1, ptrs, aa, x, found1, k) && (k in sets1 ==> !sets1[k].any)
    requires k in sets1 ==> forall q :: q in sets1[k].members ==> q in ptrs
    requires if Hit(sets1, ptrs, aa, x, k) then
               if found1.None? then found == Some(k) && sets == sets1
               else found == found1 && found.value in sets1 && found.value != k && sets1[found.value].fwd.None?
                    && sets == MergedSets(sets1, found.value, k, FirstsMust(sets1, ptrs, aa, found.value, k))
             else found == found1 && sets == sets1
    ensures GathersGroups(sets0, sets, ptrs, aa, x, found, k + 1)
  {
    GroupAsked(sets1, ptrs, aa, x, k);
    if Hit(sets1, ptrs, aa, x, k) && found1.Some? {
      assert found.value in GroupsOf(sets1) && k in GroupsOf(sets1);
      GroupsMerged(sets1, ptrs, aa, found.value, k);
    }
    hide GroupAliases, Aliases, MergedSets, Merged, Known, GroupsOf;
  }

  /** A set aliases a location if its group does. */
  lemma GroupAsked(sets: Sets, ptrs: Ptrs, aa: Oracle, x: Loc, k: Id)
    requires Tracked(GroupsOf(sets), SizesOf(ptrs)) && (k in sets ==> !sets[k].any && forall q :: q in sets[k].members ==> q in ptrs)
    ensures Hit(sets, ptrs, aa, x, k) <==> k in GroupsOf(sets) && GroupAliases(GroupsOf(sets)[k], SizesOf(ptrs), aa, x)
  {
    if k in sets && sets[k].fwd.None? {
      var m := sets[k].members;
      assert forall j :: 0 <= j < |m| ==> m[j] in m && LocOf(ptrs, m[j]) == At(SizesOf(ptrs), m[j]);
    }
  }

  lemma GroupsMerged(sets: Sets, ptrs: Ptrs, aa: Oracle, i: Id, j: Id)
    requires Tracked(GroupsOf(sets), SizesOf(ptrs)) && i in sets && j in sets && i != j && sets[i].fwd.None? && sets[j].fwd.None?
    ensures GroupsOf(MergedSets(sets, i, j, FirstsMust(sets, ptrs, aa, i, j))) == Merged(GroupsOf(sets), SizesOf(ptrs), aa, i, j)
  {
    var a, b := GroupsOf(sets)[i], GroupsOf(sets)[j];
    assert Known(a, SizesOf(ptrs)) && Known(b, SizesOf(ptrs));
    assert a.members != [] ==> a.members[0] in a.members;
    assert b.members != [] ==> b.members[0] in b.members;
    assert FirstsMust(sets, ptrs, aa, i, j) == ToldMust(a, b, SizesOf(ptrs), aa);
    hide ToldMust, FirstsMust;
  }

  lemma GrowFollows(sets0: Sets, ptrs0: Ptrs, sets: Sets, ptrs: Ptrs, next: Id, aa: Oracle, x: Loc, found: Option<Id>)
    requires WellFormed(Partition(GroupsOf(sets0), SizesOf(ptrs0), next)) && GathersGroups(sets0, sets, ptrs, aa, x, found, next)
    requires x.p in ptrs0 && ptrs == ptrs0[x.p := ptrs0[x.p].(size := Union(ptrs0[x.p].size, x.size))]
    requires ptrs[x.p].size != ptrs0[x.p].size
    ensures Follows(sets0, ptrs0, next, aa, x, sets, ptrs, next)
  {
    hide Union, Separate, Grouped, Known, GatheredGroups;
    assert SizesOf(ptrs) == Grown(SizesOf(ptrs0), x);
  }

  lemma SameFollows(sets: Sets, ptrs0: Ptrs, ptrs: Ptrs, next: Id, aa: Oracle, x: Loc)
    requires WellFormed(Partition(GroupsOf(sets), SizesOf(ptrs0), next)) && x.p in ptrs0
    requires ptrs == ptrs0[x.p := ptrs0[x.p].(size := Union(ptrs0[x.p].size, x.size))] && ptrs[x.p].size == ptrs0[x.p].size
    ensures Follows(sets, ptrs0, next, aa, x, sets, ptrs, next)
  {
    hide Union, Separate, Grouped, Known, GatheredGroups;
    assert SizesOf(ptrs) == SizesOf(ptrs0);
  }

  lemma SettledFollows(sets0: Sets, ptrs0: Ptrs, sets: Sets, ptrs: Ptrs, sets': Sets, ptrs': Ptrs, next: Id, aa: Oracle, x: Loc, d: Id)
    requires Follows(sets0, ptrs0, next, aa, x, sets, ptrs, next)
    requires Rewired(sets, sets') && x.p in ptrs && ptrs' == ptrs[x.p := ptrs[x.p].(aset := d)]
    ensures Follows(sets0, ptrs0, next, aa, x, sets', ptrs', next)
  {
    hide WellFormed, Added;
    assert GroupsOf(sets') == GroupsOf(sets) && SizesOf(ptrs') == SizesOf(ptrs);
  }

  lemma JoinedFollows(sets0: Sets, ptrs0: Ptrs, sets1: Sets, sets: Sets, ptrs: Ptrs, next: Id, aa: Oracle, x: Loc, r: Id)
    requires WellFormed(Partition(GroupsOf(sets0), SizesOf(ptrs0), next)) && GathersGroups(sets0, sets1, ptrs0, aa, x, Some(r), next)
    requires x.p !in ptrs0 && r in sets1 && sets1[r].fwd.None? && Joined(sets1, ptrs0, aa, sets, ptrs, r, x.p, x.size)
    ensures Follows(sets0, ptrs0, next, aa, x, sets, ptrs, next)
  {
    GroupJoined(sets1, ptrs0, sets, ptrs, aa, x, r);
    hide Separate, Grouped, Known, GatheredGroups, WellFormed, Joined, JoinedGroup, JoinedSizes, GroupsOf;
  }

  lemma GroupJoined(sets: Sets, ptrs: Ptrs, sets': Sets, ptrs': Ptrs, aa: Oracle, x: Loc, r: Id)
    requires x.p !in ptrs && r in sets && sets[r].fwd.None? && Joined(sets, ptrs, aa, sets', ptrs', r, x.p, x.size)
    ensures var g := GroupOf(sets[r]);
            && r in GroupsOf(sets) && g == GroupsOf(sets)[r] && Known(g, SizesOf(ptrs))
            && GroupsOf(sets') == GroupsOf(sets)[r := JoinedGroup(g, SizesOf(ptrs), aa, x)]
            && SizesOf(ptrs') == JoinedSizes(g, SizesOf(ptrs), aa, x)
  {
    hide Union;
    var g := GroupOf(sets[r]);
    assert g.members != [] ==> g.members[0] in g.members && LocOf(ptrs, g.members[0]) == At(SizesOf(ptrs), g.members[0]);
    assert JoinedGroup(g, SizesOf(ptrs), aa, x) == GroupOf(sets'[r]);
  }

  lemma AloneFollows(sets0: Sets, ptrs0: Ptrs, sets1: Sets, sets: Sets, ptrs: Ptrs, next: Id, aa: Oracle, x: Loc)
    requires WellFormed(Partition(GroupsOf(sets0), SizesOf(ptrs0), next)) && GathersGroups(sets0, sets1, ptrs0, aa, x, None, next)
    requires x.p !in ptrs0 && sets == sets1[next := Single(x.p)] && ptrs == ptrs0[x.p := Rec(x.size, next)]
    ensures Follows(sets0, ptrs0, next, aa, x, sets, ptrs, next + 1)
  {
    hide Union, Separate, Grouped, Known, GatheredGroups, WellFormed;
    assert GroupsOf(sets) == GroupsOf(sets1)[next := Group(false, [x.p])];
    assert SizesOf(ptrs) == SizesOf(ptrs0)[x.p := x.size];
  }

  lemma AccessGroups(sets: Sets, r: Id, sets': Sets)
    requires r in sets && r in sets' && sets' == sets[r := sets'[r]] && sets'[r] == sets[r].(access := sets'[r].access)
    ensures GroupsOf(sets') == GroupsOf(sets)
  {
  }

  lemma AllInOne(sets: Sets, ptrs: Ptrs, next: Id, any: Option<Id>, root: Roots, total: int, p: Ptr, q: Ptr)
    requires Stable(sets, ptrs, next, any, root, total) && any.Some? && p in ptrs && q in ptrs
    ensures ptrs[p].aset in root && ptrs[q].aset in root && SetOf(ptrs, root, p) == SetOf(ptrs, root, q)
  {
    SaturatedRoots(sets, ptrs, next, any, root, total);
  }

  lemma RequestMeans(asked: set<Request>, sets: Sets, ptrs: Ptrs, root: Roots, a: Request)
    requires Summarized(asked, sets, ptrs, root) && a in asked
    ensures a.loc.p in ptrs && Leq(a.loc.size, ptrs[a.loc.p].size) && ptrs[a.loc.p].aset in root
  {
  }

  /** Two accesses that conflict are in one set if those in different ones do not. */
  lemma TogetherIn(sets: Sets, ptrs: Ptrs, next: Id, root: Roots, aa: Oracle, rel: Relation, a: Loc, b: Loc)
    requires Core(sets, ptrs, next, None, root) && Consistent(aa, rel) && rel(a, b)
    requires Tracked(GroupsOf(sets), SizesOf(ptrs)) && Apart(GroupsOf(sets), SizesOf(ptrs), rel)
    requires a.p in ptrs && b.p in ptrs && Leq(a.size, ptrs[a.p].size) && Leq(b.size, ptrs[b.p].size)
    ensures ptrs[a.p].aset in root && ptrs[b.p].aset in root && SetOf(ptrs, root, a.p) == SetOf(ptrs, root, b.p)
  {
    CoreLinks(sets, ptrs, next, None, root, a.p);
    CoreLinks(sets, ptrs, next, None, root, b.p);
    hide Core, Consistent;
    LargerConflicts(aa, rel, a.p, a.size, ptrs[a.p].size, b);
    LargerConflicts(aa, rel, b.p, b.size, ptrs[b.p].size, LocOf(ptrs, a.p));
    var i, j := SetOf(ptrs, root, a.p), SetOf(ptrs, root, b.p);
    assert a.p in GroupsOf(sets)[i].members && b.p in GroupsOf(sets)[j].members;
    assert rel(At(SizesOf(ptrs), a.p), At(SizesOf(ptrs), b.p));
  }

  /** A must-alias set that x is to join is not said to be apart from it. */
  predicate MayJoin(a: ASet, ptrs: Ptrs, aa: Oracle, x: Loc) {
    a.may || a.members == [] || (a.members[0] in ptrs && aa(LocOf(ptrs, a.members[0]), x) != NoAlias)
  }

  lemma FoundMayJoin(sets0: Sets, sets: Sets, ptrs: Ptrs, aa: Oracle, x: Loc, r: Id, next: Id)
    requires GathersGroups(sets0, sets, ptrs, aa, x, Some(r), next) && r in sets && sets[r].fwd.None?
    ensures MayJoin(sets[r], ptrs, aa, x)
  {
    GroupsGathered(GroupsOf(sets0), SizesOf(ptrs), aa, x, next);
    var g := GroupsOf(sets);
    GatheredFirst(GroupsOf(sets0), SizesOf(ptrs), aa, x, next, g, r);
    MayStays(GroupsOf(sets0), SizesOf(ptrs), aa, x, next, g, r);
    hide GatheredGroups, Mixed, InHit, TakesAll, OthersKept;
    assert g[r] == GroupOf(sets[r]);
    assert g[r].members[0] in g[r].members;
  }

  lemma TakerMayJoin(sets: Sets, ptrs: Ptrs, next: Id, any: Option<Id>, root: Roots, total: int, aa: Oracle, x: Loc)
    requires Stable(sets, ptrs, next, any, root, total) && any.Some?
    ensures any.value in sets && MayJoin(sets[any.value], ptrs, aa, x)
  {
    SaturatedRoots(sets, ptrs, next, any, root, total);
  }

  /** What the oracle says about x and the first pointer of a must-alias set. */
  function Answer(a: ASet, ptrs: Ptrs, aa: Oracle, x: Loc): AliasResult
    requires forall q :: q in a.members ==> q in ptrs
  {
    if !a.may && a.members != [] then aa(LocOf(ptrs, a.members[0]), x) else NoAlias
  }

  /** p has joined set i: everything else is as it was, but that the set may have lost its must, and
      its first pointer may have grown. */
  ghost predicate Joined(sets: Sets, ptrs: Ptrs, aa: Oracle, sets': Sets, ptrs': Ptrs, i: Id, p: Ptr, size: Size) {
    && i in sets && (forall q :: q in sets[i].members ==> q in ptrs)
    && var result := Answer(sets[i], ptrs, aa, Loc(p, size));
    && sets' == JoinedSets(sets, i, p, result) && ptrs' == JoinedPtrs(sets, ptrs, i, p, size, result)
  }

  lemma CoreBounds(sets: Sets, ptrs: Ptrs, next: Id, any: Option<Id>, root: Roots)
    requires Core(sets, ptrs, next, any, root)
    ensures forall k :: k in sets ==> k < next && k in root
    ensures PtrsLive(sets, ptrs) && sets.Keys <= root.Keys
  {
    WiredKeys(sets, ptrs, next, any, root);
  }

  lemma CoreMembers(sets: Sets, ptrs: Ptrs, next: Id, any: Option<Id>, root: Roots)
    requires Core(sets, ptrs, next, any, root)
    ensures forall k, q :: k in sets && q in sets[k].members ==> q in ptrs
    ensures forall k :: k in sets ==> k < next && k in root
    ensures forall k :: k in sets && sets[k].fwd.None? ==> root[k] == k
    ensures forall k, l, q :: k in sets && l in sets && k != l && q in sets[k].members ==> q !in sets[l].members
  {
    hide Graph, Linked, Counts, Contents, AllUsed;
    WiredKeys(sets, ptrs, next, any, root);
    GraphRoots(sets, next, any, root);
    ContentsApart(sets, ptrs, root);
  }

  lemma GraphRoots(sets: Sets, next: Id, any: Option<Id>, root: Roots)
    requires Graph(sets, next, any, root)
    ensures forall k :: k in sets && sets[k].fwd.None? ==> k in root && root[k] == k
  {
    forall k | k in sets && sets[k].fwd.None? ensures k in root && root[k] == k {
      assert Linked(sets, next, any, root, k);
    }
  }

  lemma ContentsApart(sets: Sets, ptrs: Ptrs, root: Roots)
    requires PtrsLive(sets, ptrs) && sets.Keys <= root.Keys && Contents(sets, ptrs, root)
    ensures forall k, q :: k in sets && q in sets[k].members ==> q in ptrs
    ensures forall k, l, q :: k in sets && l in sets && k != l && q in sets[k].members ==> q !in sets[l].members
  {
    forall k, l, q | k in sets && l in sets && k != l && q in sets[k].members ensures q !in sets[l].members {
      assert root[ptrs[q].aset] == k;
    }
  }

  lemma JoinKeeps(sets: Sets, ptrs: Ptrs, next: Id, any: Option<Id>, root: Roots,
                  i: Id, p: Ptr, size: Size, result: AliasResult, total: int)
    requires Core(sets, ptrs, next, any, root) && total == MayTotal(sets, next)
    requires PtrsLive(sets, ptrs) && sets.Keys <= root.Keys
    requires i in sets && sets[i].fwd.None? && p !in ptrs
    requires forall q :: q in sets[i].members ==> q in ptrs
    requires sets[i].may || sets[i].members == [] ==> result == NoAlias
    ensures var s, m := JoinedSets(sets, i, p, result), JoinedPtrs(sets, ptrs, i, p, size, result);
            && Core(s, m, next, any, root) && PtrsLive(s, m)
            && MayTotal(s, next) == total + (if !s[i].may then 0 else if sets[i].may then 1 else sets[i].size + 1)
  {
    CoreMembers(sets, ptrs, next, any, root);
    hide Contents, Graph, Counts, AllUsed, JoinedSets, JoinedPtrs, PtrsLive;
    JoinContents(sets, ptrs, root, i, p, size, result);
    JoinWired(sets, ptrs, next, any, root, i, p, size, result);
    JoinTotal(sets, i, p, result, next);
  }

  lemma JoinWired(sets: Sets, ptrs: Ptrs, next: Id, any: Option<Id>, root: Roots, i: Id, p: Ptr, size: Size, result: AliasResult)
    requires Wired(sets, ptrs, next, any, root) && i in sets && p !in ptrs
    requires forall q :: q in sets[i].members ==> q in ptrs
    requires PtrsLive(JoinedSets(sets, i, p, result), JoinedPtrs(sets, ptrs, i, p, size, result))
    ensures Wired(JoinedSets(sets, i, p, result), JoinedPtrs(sets, ptrs, i, p, size, result), next, any, root)
  {
    hide Graph, Counts, JoinedPtrs;
    JoinCounts(sets, ptrs, i, p, size, result);
    GraphKeeps(sets, JoinedSets(sets, i, p, result), next, any, root);
  }

  lemma ResettleCounts(sets: Sets, ptrs: Ptrs, next: Id, any: Option<Id>, root: Roots, p: Ptr, i: Id, d: Id)
    requires Wired(sets, ptrs, next, any, root) && p in ptrs && ptrs[p].aset == i && i in sets && d in sets && d != i
    requires i in root && d == root[i]
    ensures var s, q := sets[d := sets[d].(refs := sets[d].refs + 1)], ptrs[p := ptrs[p].(aset := d)];
            && Graph(s, next, any, root) && PtrsLive(s, q) && Counts(s, q, i, 1) && AllUsed(s, any)
            && Rewired(sets, s) && Anchored(s, q, d, i + 1)
  {
    hide Counts, Graph, PtrRefs, RefCount;
    var s := sets[d := sets[d].(refs := sets[d].refs + 1)];
    ResettleHolds(sets, ptrs, any, p, d);
    hide PtrsLive, Rewired, AllUsed, Anchored;
    ResettleRefs(sets, ptrs, p, i, d);
    GraphKeeps(sets, s, next, any, root);
  }

  lemma ResettleHolds(sets: Sets, ptrs: Ptrs, any: Option<Id>, p: Ptr, d: Id)
    requires PtrsLive(sets, ptrs) && AllUsed(sets, any) && p in ptrs && d in sets
    ensures var s, q := sets[d := sets[d].(refs := sets[d].refs + 1)], ptrs[p := ptrs[p].(aset := d)];
            PtrsLive(s, q) && Rewired(sets, s) && AllUsed(s, any) && Anchored(s, q, d, d + 1) && PtrRefs(q, d) != {}
  {
    assert p in PtrRefs(ptrs[p := ptrs[p].(aset := d)], d);
  }

  lemma ResettleRefs(sets: Sets, ptrs: Ptrs, p: Ptr, i: Id, d: Id)
    requires Counts(sets, ptrs, 0, 0) && p in ptrs && ptrs[p].aset == i && i in sets && d in sets && d != i
    ensures Counts(sets[d := sets[d].(refs := sets[d].refs + 1)], ptrs[p := ptrs[p].(aset := d)], i, 1)
  {
    hide RefCount;
    var q := ptrs[p := ptrs[p].(aset := d)];
    PointerMoves(sets, ptrs, p, q[p]);
    RefsChange(sets, q, d, sets[d].(refs := sets[d].refs + 1));
  }

  lemma WiredLinks(sets: Sets, ptrs: Ptrs, next: Id, any: Option<Id>, root: Roots, i: Id)
    requires Wired(sets, ptrs, next, any, root) && i in sets
    ensures i in root && root[i] in sets && sets[root[i]].fwd.None? && (sets[i].fwd.None? ==> root[i] == i)
    ensures sets[i].fwd.Some? ==> root[i] != i
  {
    LinkedSet(sets, ptrs, next, any, root, i);
  }

  lemma WiredPtr(sets: Sets, ptrs: Ptrs, next: Id, any: Option<Id>, root: Roots, p: Ptr)
    requires Wired(sets, ptrs, next, any, root) && p in ptrs
    ensures ptrs[p].aset in sets && ptrs[p].aset in root && (sets[ptrs[p].aset].fwd.None? ==> root[ptrs[p].aset] == ptrs[p].aset)
  {
    LinkedSet(sets, ptrs, next, any, root, ptrs[p].aset);
  }

  lemma NamesDirectly(ptrs: Ptrs, p: Ptr)
    requires p in ptrs
    ensures ptrs == ptrs[p := ptrs[p].(aset := ptrs[p].aset)]
  {
  }

  lemma RewiredSelf(sets: Sets)
    ensures Rewired(sets, sets)
  {
  }

  lemma DropRewires(a: Sets, b: Sets, c: Sets, ptrs: Ptrs, f: Id)
    requires Rewired(a, b) && Shrunk(b, c, ptrs, f)
    ensures Rewired(a, c) && forall k :: k in b && (k > f || b[k].fwd.None?) ==> k in c && c[k].fwd == b[k].fwd
    ensures forall k :: k in c ==> k in b && c[k].fwd == b[k].fwd
  {
  }

  /** What giving up one reference leaves: all in order, or, if it was the last one, all in order
      but for the reference that the freed set held. */
  lemma DropRefHere(sets: Sets, ptrs: Ptrs, next: Id, any: Option<Id>, root: Roots, i: Id, t: Id)
    requires Graph(sets, next, any, root) && PtrsLive(sets, ptrs) && i in sets
    requires Counts(sets, ptrs, i, 1) && AllUsed(sets, any)
    requires Anchored(sets, ptrs, root[i], t) && (t > i || sets[i].fwd.None?)
    ensures sets[i].refs >= 1
    ensures var s := sets[i := sets[i].(refs := sets[i].refs - 1)];
            if s[i].refs > 0 then
              && Graph(s, next, any, root) && PtrsLive(s, ptrs) && Counts(s, ptrs, i, 0) && AllUsed(s, any)
              && Shrunk(sets, s, ptrs, i)
            else
              && s[i].fwd.Some? && PtrRefs(ptrs, i) == {}
              && var f, s' := s[i].fwd.value, s - {i};
              && Graph(s', next, any, root) && PtrsLive(s', ptrs) && f in s' && i in root && root[f] == root[i]
              && Counts(s', ptrs, f, 1) && AllUsed(s', any) && Anchored(s', ptrs, root[f], t)
              && (f < i || s'[f].fwd.None?) && (t > f || s'[f].fwd.None?)
  {
    hide Graph, PtrsLive, Counts, AllUsed, Anchored, Shrunk, RefCount, PtrRefs;
    DropOne(sets, ptrs, next, any, root, i, t);
    var s := sets[i := sets[i].(refs := sets[i].refs - 1)];
    if s[i].refs == 0 {
      DropLast(sets, s, ptrs, next, any, root, i, t);
    } else {
      DropOther(sets, s, ptrs, any, i);
    }
  }

  lemma DropOne(sets: Sets, ptrs: Ptrs, next: Id, any: Option<Id>, root: Roots, i: Id, t: Id)
    requires Graph(sets, next, any, root) && PtrsLive(sets, ptrs) && i in sets
    requires Counts(sets, ptrs, i, 1) && Anchored(sets, ptrs, root[i], t)
    ensures sets[i].refs >= 1
    ensures var s := sets[i := sets[i].(refs := sets[i].refs - 1)];
            && Graph(s, next, any, root) && PtrsLive(s, ptrs) && Counts(s, ptrs, i, 0)
            && Anchored(s, ptrs, root[i], t) && RefCount(s, ptrs, root[i]) > 0
  {
    AnchorCounts(sets, ptrs, root[i], t);
    var s := sets[i := sets[i].(refs := sets[i].refs - 1)];
    RefsChange(sets, ptrs, i, s[i]);
    GraphKeeps(sets, s, next, any, root);
  }

  lemma DropOther(sets: Sets, s: Sets, ptrs: Ptrs, any: Option<Id>, i: Id)
    requires i in sets && AllUsed(sets, any) && sets[i].refs > 1
    requires s == sets[i := sets[i].(refs := sets[i].refs - 1)]
    ensures AllUsed(s, any) && Shrunk(sets, s, ptrs, i)
  {
  }

  lemma GraphKeeps(sets: Sets, s: Sets, next: Id, any: Option<Id>, root: Roots)
    requires Graph(sets, next, any, root) && s.Keys == sets.Keys
    requires forall k :: k in s ==> s[k].fwd == sets[k].fwd && s[k].any == sets[k].any && (sets[k].may ==> s[k].may)
    ensures Graph(s, next, any, root)
  {
    forall k | k in s ensures Linked(s, next, any, root, k) {
      assert Linked(sets, next, any, root, k);
    }
  }

  lemma DropLast(sets: Sets, s: Sets, ptrs: Ptrs, next: Id, any: Option<Id>, root: Roots, i: Id, t: Id)
    requires Graph(s, next, any, root) && PtrsLive(s, ptrs) && i in s && s.Keys == sets.Keys
    requires Counts(s, ptrs, i, 0) && AllUsed(sets, any) && s[i].refs == 0
    requires forall k :: k in s && k != i ==> s[k] == sets[k]
    requires Anchored(s, ptrs, root[i], t) && (t > i || s[i].fwd.None?)
    requires RefCount(s, ptrs, root[i]) > 0
    ensures s[i].fwd.Some? && PtrRefs(ptrs, i) == {}
    ensures var f, s' := s[i].fwd.value, s - {i};
            && Graph(s', next, any, root) && PtrsLive(s', ptrs) && f in s' && i in root && root[f] == root[i]
            && Counts(s', ptrs, f, 1) && AllUsed(s', any) && Anchored(s', ptrs, root[f], t)
            && (f < i || s'[f].fwd.None?) && (t > f || s'[f].fwd.None?)
  {
    LastForwards(s, ptrs, next, any, root, i);
    var f := s[i].fwd.value;
    hide Graph, PtrsLive, Counts, AllUsed, RefCount, PtrRefs;
    RemovalKeepsGraph(s, ptrs, next, any, root, i);
    RemovalCounts(s, ptrs, i, f);
    RemovalUsed(sets, s, any, i);
    hide Anchored;
    RemovalAnchored(s, ptrs, root[i], t, i);
  }

  lemma LastForwards(s: Sets, ptrs: Ptrs, next: Id, any: Option<Id>, root: Roots, i: Id)
    requires Graph(s, next, any, root) && i in s && Counts(s, ptrs, i, 0) && s[i].refs == 0
    requires i in root && RefCount(s, ptrs, root[i]) > 0
    ensures RefCount(s, ptrs, i) == 0 && PtrRefs(ptrs, i) == {} && s[i].fwd.Some?
    ensures var f := s[i].fwd.value;
            f in s && f != i && f in root && root[f] == root[i] && (f < i || s[f].fwd.None?)
  {
    assert Linked(s, next, any, root, i);
    var f := s[i].fwd.value;
    assert Linked(s, next, any, root, f);
  }

  lemma RemovalCounts(s: Sets, ptrs: Ptrs, i: Id, f: Id)
    requires i in s && s[i].fwd == Some(f) && Counts(s, ptrs, i, 0)
    ensures Counts(s - {i}, ptrs, f, 1)
  {
    hide RefCount;
    RemovalDrops(s, ptrs, i, f);
  }

  lemma RemovalUsed(sets: Sets, s: Sets, any: Option<Id>, i: Id)
    requires AllUsed(sets, any) && s.Keys == sets.Keys && forall k :: k in s && k != i ==> s[k] == sets[k]
    ensures AllUsed(s - {i}, any)
  {
  }

  lemma RemovalAnchored(s: Sets, ptrs: Ptrs, d: Id, t: Id, i: Id)
    requires Anchored(s, ptrs, d, t) && t > i
    ensures Anchored(s - {i}, ptrs, d, t)
  {
  }

  lemma CountsAnyway(sets: Sets, ptrs: Ptrs, x: Id, y: Id)
    requires Counts(sets, ptrs, x, 0)
    ensures Counts(sets, ptrs, y, 0)
  {
  }

  lemma ShrunkFurther(sets: Sets, mid: Sets, i: Id, sets': Sets, ptrs: Ptrs, f: Id)
    requires i in sets && mid == sets[i := sets[i].(refs := 0)] && sets[i].fwd == Some(f) && PtrRefs(ptrs, i) == {}
    requires Shrunk(mid - {i}, sets', ptrs, f) && (f < i || sets'.Keys == (mid - {i}).Keys)
    ensures Shrunk(sets, sets', ptrs, i)
  {
  }

  /** Something that is not about to go away refers to set d: a pointer, or set t. */
  ghost predicate Anchored(sets: Sets, ptrs: Ptrs, d: Id, t: Id) {
    PtrRefs(ptrs, d) != {} || (t in sets && sets[t].fwd == Some(d))
  }

  lemma IsAnchored(sets: Sets, ptrs: Ptrs, d: Id, t: Id)
    requires t in sets && sets[t].fwd == Some(d)
    ensures Anchored(sets, ptrs, d, t)
  {
  }

  lemma AnchorCounts(sets: Sets, ptrs: Ptrs, d: Id, t: Id)
    requires Anchored(sets, ptrs, d, t)
    ensures RefCount(sets, ptrs, d) > 0
  {
    HeldIsCounted(sets, ptrs, d);
    if PtrRefs(ptrs, d) != {} {
      var p :| p in PtrRefs(ptrs, d);
    }
  }

  lemma RemovalKeepsGraph(sets: Sets, ptrs: Ptrs, next: Id, any: Option<Id>, root: Roots, i: Id)
    requires Graph(sets, next, any, root) && PtrsLive(sets, ptrs) && i in sets && sets[i].fwd.Some?
    requires RefCount(sets, ptrs, i) == 0
    ensures Graph(sets - {i}, next, any, root) && PtrsLive(sets - {i}, ptrs)
  {
    HeldIsCounted(sets, ptrs, i);
    var s := sets - {i};
    forall k | k in s ensures Linked(s, next, any, root, k) {
      assert Linked(sets, next, any, root, k);
    }
  }
}
