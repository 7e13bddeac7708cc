/** Alias sets as a partition of pointers into groups, without forwarding and counting: what an addition does
    to the groups, and exactly when pointers that conflict stay together. */
module AliasPartitions {
  import opened Wrappers
  import opened AliasResults
  import opened AliasLocations

  type Id = nat  // groups are named in the order of their creation

  datatype Group = Group(may: bool, members: seq<Ptr>)

  type Groups = map<Id, Group>
  type Sizes = map<Ptr, Size>

  datatype Partition = Partition(groups: Groups, sizes: Sizes, next: Id)

  const NOTHING := Partition(map[], map[], 0)

  ghost predicate Known(g: Group, sizes: Sizes) {
    forall q :: q in g.members ==> q in sizes
  }

  ghost predicate Tracked(groups: Groups, sizes: Sizes) {
    forall i :: i in groups ==> Known(groups[i], sizes)
  }

  function At(sizes: Sizes, p: Ptr): Loc
    requires p in sizes
  {
    Loc(p, sizes[p])
  }

  /** The pointers in may-alias groups. */
  ghost function MayPtrs(groups: Groups): set<Ptr> {
    set i, p | i in groups && groups[i].may && p in groups[i].members :: p
  }

  // ----- Adding a location ------------------------------------------------------------------

  /** Whether x is said to alias a group; a must-alias group is asked through its first pointer only. */
  predicate GroupAliases(g: Group, sizes: Sizes, aa: Oracle, x: Loc)
    requires Known(g, sizes)
  {
    if g.may then exists k :: 0 <= k < |g.members| && aa(x, At(sizes, g.members[k])) != NoAlias
    else g.members != [] && aa(At(sizes, g.members[0]), x) != NoAlias
  }

  /** The first pointers of two groups are told to must-alias. */
  predicate ToldMust(a: Group, b: Group, sizes: Sizes, aa: Oracle)
    requires Known(a, sizes) && Known(b, sizes)
  {
    a.members != [] && b.members != [] && aa(At(sizes, a.members[0]), At(sizes, b.members[0])) == MustAlias
  }

  function MergedGroup(a: Group, b: Group, sizes: Sizes, aa: Oracle): Group
    requires Known(a, sizes) && Known(b, sizes)
  {
    Group(a.may || b.may || !ToldMust(a, b, sizes, aa), a.members + b.members)
  }

  function Merged(groups: Groups, sizes: Sizes, aa: Oracle, i: Id, j: Id): Groups
    requires Tracked(groups, sizes) && i in groups && j in groups && i != j
  {
    (groups - {j})[i := MergedGroup(groups[i], groups[j], sizes, aa)]
  }

  /** The groups created before k that alias x, merged into the first of them. */
  function GatheredGroups(groups: Groups, sizes: Sizes, aa: Oracle, x: Loc, k: Id): (r: (Groups, Option<Id>))
    requires Tracked(groups, sizes)
    ensures Tracked(r.0, sizes) && (r.1.Some? ==> r.1.value < k && r.1.value in r.0)
    ensures forall i :: i >= k ==> (i in r.0 <==> i in groups) && (i in groups ==> r.0[i] == groups[i])
  {
    if k == 0 then (groups, None)
    else
      var (g, found) := GatheredGroups(groups, sizes, aa, x, k - 1);
      if k - 1 !in g || !GroupAliases(g[k - 1], sizes, aa, x) then (g, found)
      else if found.None? then (g, Some(k - 1))
      else (Merged(g, sizes, aa, found.value, k - 1), found)
  }

  /** The group g after x has joined, and the sizes; the first pointer of a must-alias group grows with it. */
  function JoinedGroup(g: Group, sizes: Sizes, aa: Oracle, x: Loc): Group
    requires Known(g, sizes)
  {
    Group(g.may || (g.members != [] && aa(At(sizes, g.members[0]), x) != MustAlias), g.members + [x.p])
  }

  function JoinedSizes(g: Group, sizes: Sizes, aa: Oracle, x: Loc): Sizes
    requires Known(g, sizes)
  {
    if !g.may && g.members != [] && aa(At(sizes, g.members[0]), x) == MustAlias then
      Grown(sizes, Loc(g.members[0], x.size))[x.p := x.size]
    else sizes[x.p := x.size]
  }

  function Grown(sizes: Sizes, x: Loc): Sizes
    requires x.p in sizes
  {
    sizes[x.p := Union(sizes[x.p], x.size)]
  }

  /** The partition after an access to x: a new pointer joins the groups that alias it, or makes a group; a tracked
      one stays, and brings the groups that alias it together if its recorded size changes. */
  function Added(s: Partition, aa: Oracle, x: Loc): Partition
    requires Tracked(s.groups, s.sizes)
  {
    if x.p in s.sizes then
      var sizes := Grown(s.sizes, x);
      if sizes[x.p] == s.sizes[x.p] then s else s.(groups := GatheredGroups(s.groups, sizes, aa, x, s.next).0, sizes := sizes)
    else
      var (groups, found) := GatheredGroups(s.groups, s.sizes, aa, x, s.next);
      if found.None? then Partition(groups[s.next := Group(false, [x.p])], s.sizes[x.p := x.size], s.next + 1)
      else
        var g := groups[found.value];
        Partition(groups[found.value := JoinedGroup(g, s.sizes, aa, x)], JoinedSizes(g, s.sizes, aa, x), s.next)
  }

  // ----- What gathering does -----------------------------------------------------------------

  predicate GroupHit(groups: Groups, sizes: Sizes, aa: Oracle, x: Loc, i: Id)
    requires Tracked(groups, sizes)
  {
    i in groups && GroupAliases(groups[i], sizes, aa, x)
  }

  /** Pointer p is in a group that aliases x and was created before k. */
  ghost predicate InHit(groups: Groups, sizes: Sizes, aa: Oracle, x: Loc, k: Id, p: Ptr)
    requires Tracked(groups, sizes)
  {
    exists i: Id :: i < k && GroupHit(groups, sizes, aa, x, i) && p in groups[i].members
  }

  /** The groups that alias x cannot make one must-alias group with the first pointer of group f. */
  ghost predicate Mixed(groups: Groups, sizes: Sizes, aa: Oracle, x: Loc, f: Id, k: Id)
    requires Tracked(groups, sizes) && f in groups
  {
    exists i: Id :: i < k && GroupHit(groups, sizes, aa, x, i)
                    && (groups[i].may || (i != f && !ToldMust(groups[f], groups[i], sizes, aa)))
  }

  /** Group f is the first that aliases x. */
  ghost predicate FirstHit(groups: Groups, sizes: Sizes, aa: Oracle, x: Loc, f: Id)
    requires Tracked(groups, sizes)
  {
    GroupHit(groups, sizes, aa, x, f) && forall i: Id :: i < f ==> !GroupHit(groups, sizes, aa, x, i)
  }

  /** All groups are as they were but for those before k that alias x, of which only f is left. */
  ghost predicate OthersKept(groups: Groups, sizes: Sizes, aa: Oracle, x: Loc, k: Id, g: Groups, f: Id)
    requires Tracked(groups, sizes)
  {
    && (forall i :: i in g ==> i in groups && (i == f || (g[i] == groups[i] && !(i < k && GroupHit(groups, sizes, aa, x, i)))))
    && (forall i :: i in groups ==> i in g || (i < k && GroupHit(groups, sizes, aa, x, i)))
  }

  /** Group f has taken the pointers of all groups before k that alias x. */
  ghost predicate TakesAll(groups: Groups, sizes: Sizes, aa: Oracle, x: Loc, k: Id, g: Groups, f: Id)
    requires Tracked(groups, sizes) && f in groups && f in g
  {
    groups[f].members <= g[f].members && forall p :: p in g[f].members <==> InHit(groups, sizes, aa, x, k, p)
  }

  /** g is what the groups become when those before k that alias x have gone into the first of them, f. */
  ghost predicate IsGathered(groups: Groups, sizes: Sizes, aa: Oracle, x: Loc, k: Id, g: Groups, f: Id)
    requires Tracked(groups, sizes)
  {
    && f < k && FirstHit(groups, sizes, aa, x, f) && f in g
    && OthersKept(groups, sizes, aa, x, k, g, f) && TakesAll(groups, sizes, aa, x, k, g, f)
    && (g[f].may <==> Mixed(groups, sizes, aa, x, f, k))
  }

  lemma {:induction false} GroupsGathered(groups: Groups, sizes: Sizes, aa: Oracle, x: Loc, k: Id)
    requires Tracked(groups, sizes)
    ensures var (g, found) := GatheredGroups(groups, sizes, aa, x, k);
            match found
            case None => g == groups && forall i: Id :: i < k ==> !GroupHit(groups, sizes, aa, x, i)
            case Some(f) => IsGathered(groups, sizes, aa, x, k, g, f)
    decreases k
  {
    hide *;
    if k == 0 {
      GatherNothing(groups, sizes, aa, x);
    } else {
      GroupsGathered(groups, sizes, aa, x, k - 1);
      GatheredStep(groups, sizes, aa, x, k - 1);
      var (g, found) := GatheredGroups(groups, sizes, aa, x, k - 1);
      if GroupHit(groups, sizes, aa, x, k - 1) {
        if found.None? {
          GatherFirst(groups, sizes, aa, x, k - 1);
        } else {
          IsGatheredMeans(groups, sizes, aa, x, k - 1, g, found.value);
          GatherNext(groups, sizes, aa, x, k - 1, g, found.value);
        }
      } else if found.Some? {
        GatherNone(groups, sizes, aa, x, k - 1, g, found.value);
      }
    }
  }

  lemma GatherNothing(groups: Groups, sizes: Sizes, aa: Oracle, x: Loc)
    requires Tracked(groups, sizes)
    ensures GatheredGroups(groups, sizes, aa, x, 0) == (groups, None)
  {
  }

  lemma IsGatheredMeans(groups: Groups, sizes: Sizes, aa: Oracle, x: Loc, k: Id, g: Groups, f: Id)
    requires Tracked(groups, sizes) && IsGathered(groups, sizes, aa, x, k, g, f)
    ensures f in groups && f in g && f < k
  {
  }

  lemma GatheredStep(groups: Groups, sizes: Sizes, aa: Oracle, x: Loc, k: Id)
    requires Tracked(groups, sizes)
    ensures var (g, found) := GatheredGroups(groups, sizes, aa, x, k);
            && Tracked(g, sizes) && (GroupHit(groups, sizes, aa, x, k) ==> k in groups && k in g && g[k] == groups[k]) && (found.Some? ==> found.value < k && found.value in g)
            && GatheredGroups(groups, sizes, aa, x, k + 1) == if !GroupHit(groups, sizes, aa, x, k) then (g, found)
                                                        else if found.None? then (g, Some(k))
                                                        else (Merged(g, sizes, aa, found.value, k), found)
  {
    hide Known, GroupAliases, Merged;
  }

  lemma GatherFirst(groups: Groups, sizes: Sizes, aa: Oracle, x: Loc, k: Id)
    requires Tracked(groups, sizes) && GroupHit(groups, sizes, aa, x, k) && forall i: Id :: i < k ==> !GroupHit(groups, sizes, aa, x, i)
    ensures IsGathered(groups, sizes, aa, x, k + 1, groups, k)
  {
    hide GroupAliases, Known, ToldMust;
    forall p ensures p in groups[k].members <==> InHit(groups, sizes, aa, x, k + 1, p) {
    }
  }

  lemma GatherNone(groups: Groups, sizes: Sizes, aa: Oracle, x: Loc, k: Id, g: Groups, f: Id)
    requires Tracked(groups, sizes) && IsGathered(groups, sizes, aa, x, k, g, f) && !GroupHit(groups, sizes, aa, x, k)
    ensures IsGathered(groups, sizes, aa, x, k + 1, g, f)
  {
    hide GroupAliases, Known, ToldMust;
    forall p ensures InHit(groups, sizes, aa, x, k, p) <==> InHit(groups, sizes, aa, x, k + 1, p) {
    }
    assert Mixed(groups, sizes, aa, x, f, k) <==> Mixed(groups, sizes, aa, x, f, k + 1);
  }

  lemma GatherNext(groups: Groups, sizes: Sizes, aa: Oracle, x: Loc, k: Id, g: Groups, f: Id)
    requires Tracked(groups, sizes) && Tracked(g, sizes) && IsGathered(groups, sizes, aa, x, k, g, f)
    requires GroupHit(groups, sizes, aa, x, k) && k in g && g[k] == groups[k]
    ensures IsGathered(groups, sizes, aa, x, k + 1, Merged(g, sizes, aa, f, k), f)
  {
    hide Mixed, Known;
    FirstStays(groups[f], g[f], groups[k], sizes, aa, x);
    MixedNext(groups, sizes, aa, x, f, k);
    hide ToldMust, GroupAliases, InHit;
    forall p ensures InHit(groups, sizes, aa, x, k + 1, p) <==> InHit(groups, sizes, aa, x, k, p) || p in groups[k].members {
      InHitNext(groups, sizes, aa, x, k, p);
    }
  }

  lemma InHitNext(groups: Groups, sizes: Sizes, aa: Oracle, x: Loc, k: Id, p: Ptr)
    requires Tracked(groups, sizes) && GroupHit(groups, sizes, aa, x, k)
    ensures InHit(groups, sizes, aa, x, k + 1, p) <==> InHit(groups, sizes, aa, x, k, p) || p in groups[k].members
  {
    hide GroupAliases, Known;
    if InHit(groups, sizes, aa, x, k, p) {
      var i: Id :| i < k && GroupHit(groups, sizes, aa, x, i) && p in groups[i].members;
      assert i < k + 1;
    }
  }

  lemma MixedNext(groups: Groups, sizes: Sizes, aa: Oracle, x: Loc, f: Id, k: Id)
    requires Tracked(groups, sizes) && f in groups && f < k && GroupHit(groups, sizes, aa, x, k)
    ensures Mixed(groups, sizes, aa, x, f, k + 1)
       <==> Mixed(groups, sizes, aa, x, f, k) || groups[k].may || !ToldMust(groups[f], groups[k], sizes, aa)
  {
    hide GroupAliases, Known, ToldMust;
    if Mixed(groups, sizes, aa, x, f, k) {
      var i: Id :| i < k && GroupHit(groups, sizes, aa, x, i) && (groups[i].may || (i != f && !ToldMust(groups[f], groups[i], sizes, aa)));
      assert i < k + 1;
    }
  }

  lemma FirstStays(a: Group, b: Group, c: Group, sizes: Sizes, aa: Oracle, x: Loc)
    requires Known(a, sizes) && Known(b, sizes) && Known(c, sizes) && a.members <= b.members && GroupAliases(a, sizes, aa, x)
    ensures a.members != [] && (ToldMust(b, c, sizes, aa) <==> ToldMust(a, c, sizes, aa))
  {
  }

  // ----- What makes a partition sound -----------------------------------------------------------

  ghost predicate Separate(groups: Groups) {
    forall i, j, p :: i in groups && j in groups && p in groups[i].members && p in groups[j].members ==> i == j
  }

  /** What holds of every partition: each tracked pointer is in one group. */
  ghost predicate WellFormed(s: Partition) {
    && Tracked(s.groups, s.sizes) && Separate(s.groups)
    && (forall i :: i in s.groups ==> i < s.next && (s.groups[i].may || s.groups[i].members != []))
    && forall p :: p in s.sizes ==> Grouped(s.groups, p)
  }

  ghost predicate Grouped(groups: Groups, p: Ptr) {
    exists i :: i in groups && p in groups[i].members
  }

  ghost predicate StartsTogether(g: Group, rel: Relation) {
    forall q :: q in g.members ==> SameStart(rel, g.members[0], q)
  }

  ghost predicate FirstIsLargest(g: Group, sizes: Sizes)
    requires Known(g, sizes)
  {
    forall q :: q in g.members ==> Leq(sizes[q], FirstSize(g, sizes))
  }

  function FirstSize(g: Group, sizes: Sizes): Size
    requires Known(g, sizes)
  {
    if g.members == [] then Precise(0) else sizes[g.members[0]]
  }

  /** The pointers of a must-alias group start where its first one does: no addition ever changes that. */
  ghost predicate Begun(groups: Groups, rel: Relation) {
    forall i :: i in groups && !groups[i].may ==> StartsTogether(groups[i], rel)
  }

  /** None is larger than the first one. */
  ghost predicate Largest(groups: Groups, sizes: Sizes)
    requires Tracked(groups, sizes)
  {
    forall i :: i in groups && !groups[i].may ==> FirstIsLargest(groups[i], sizes)
  }

  /** Pointers of different groups do not conflict. */
  ghost predicate Apart(groups: Groups, sizes: Sizes, rel: Relation)
    requires Tracked(groups, sizes)
  {
    forall i, j, p, q :: i in groups && j in groups && i != j && p in groups[i].members && q in groups[j].members ==>
      !rel(At(sizes, p), At(sizes, q))
  }

  ghost predicate SoundPartition(s: Partition, rel: Relation)
    requires Tracked(s.groups, s.sizes)
  {
    Largest(s.groups, s.sizes) && Apart(s.groups, s.sizes, rel)
  }

  /** The guard of an addition: if the pointer of x is in a must-alias group and its recorded size changes, what it
      grows to is not larger than the first pointer of the group that it comes to be in, nor is the first pointer of
      a group that is merged; or that group is no must-alias group any more. */
  ghost predicate Guarded(s: Partition, aa: Oracle, x: Loc)
    requires Tracked(s.groups, s.sizes)
  {
    x.p in s.sizes && Grown(s.sizes, x)[x.p] != s.sizes[x.p] ==>
      forall i :: i in s.groups && x.p in s.groups[i].members && !s.groups[i].may ==>
        GrowsWell(s.groups, Grown(s.sizes, x), aa, x, s.next, i)
  }

  ghost predicate GrowsWell(groups: Groups, sizes: Sizes, aa: Oracle, x: Loc, next: Id, i: Id)
    requires Tracked(groups, sizes) && i in groups && x.p in sizes
  {
    if !GroupHit(groups, sizes, aa, x, i) then Leq(sizes[x.p], FirstSize(groups[i], sizes))
    else forall f :: FirstHit(groups, sizes, aa, x, f) && !Mixed(groups, sizes, aa, x, f, next) ==>
           && Leq(sizes[x.p], FirstSize(groups[f], sizes))
           && forall k: Id :: k < next && GroupHit(groups, sizes, aa, x, k) ==> Leq(FirstSize(groups[k], sizes), FirstSize(groups[f], sizes))
  }

  // ----- Groups that are gathered ------------------------------------------------------------------

  /** Where a pointer of a gathered group was before. */
  lemma Home(groups: Groups, sizes: Sizes, aa: Oracle, x: Loc, k: Id, g: Groups, f: Id, j: Id, p: Ptr) returns (i: Id)
    requires Tracked(groups, sizes) && IsGathered(groups, sizes, aa, x, k, g, f) && j in g && p in g[j].members
    requires forall i :: i in groups ==> i < k
    ensures i in groups && p in groups[i].members && (if GroupHit(groups, sizes, aa, x, i) then j == f else i == j && g[j] == groups[j])
  {
    hide GroupAliases, Known, Mixed;
    if j == f {
      assert InHit(groups, sizes, aa, x, k, p);
      i :| i < k && GroupHit(groups, sizes, aa, x, i) && p in groups[i].members;
    } else {
      i := j;
    }
  }

  lemma GatheredFirst(groups: Groups, sizes: Sizes, aa: Oracle, x: Loc, k: Id, g: Groups, f: Id)
    requires Tracked(groups, sizes) && Tracked(g, sizes) && IsGathered(groups, sizes, aa, x, k, g, f)
    ensures f in groups && groups[f].members != [] && g[f].members != [] && g[f].members[0] == groups[f].members[0]
    ensures FirstSize(g[f], sizes) == FirstSize(groups[f], sizes)
  {
  }

  /** A group that is merged into a must-alias group starts where that does. */
  lemma MergedStart(groups: Groups, sizes: Sizes, aa: Oracle, rel: Relation, x: Loc, k: Id, f: Id, i: Id)
    requires Tracked(groups, sizes) && Consistent(aa, rel) && Begun(groups, rel)
    requires f in groups && groups[f].members != [] && !Mixed(groups, sizes, aa, x, f, k)
    requires i < k && GroupHit(groups, sizes, aa, x, i)
    ensures !groups[i].may && groups[i].members != [] && (i != f ==> ToldMust(groups[f], groups[i], sizes, aa))
    ensures forall q :: q in groups[i].members ==> SameStart(rel, groups[f].members[0], q)
  {
    hide Consistent, SameStart;
    assert !groups[i].may && groups[i].members != [];
    assert StartsTogether(groups[i], rel);
    if i != f {
      assert ToldMust(groups[f], groups[i], sizes, aa);
      var a, b := groups[f].members[0], groups[i].members[0];
      MustAliasHolds(aa, rel, At(sizes, a), At(sizes, b));
      forall q | q in groups[i].members ensures SameStart(rel, a, q) {
        SameStartTwice(rel, a, b, q);
      }
    }
  }

  lemma MayStays(groups: Groups, sizes: Sizes, aa: Oracle, x: Loc, k: Id, g: Groups, f: Id)
    requires Tracked(groups, sizes) && IsGathered(groups, sizes, aa, x, k, g, f)
    ensures f in groups && f in g && (groups[f].may ==> g[f].may)
  {
    hide GroupAliases;
  }

  lemma GatheredBegun(groups: Groups, sizes: Sizes, aa: Oracle, rel: Relation, x: Loc, k: Id, g: Groups, f: Id)
    requires Tracked(groups, sizes) && Tracked(g, sizes) && IsGathered(groups, sizes, aa, x, k, g, f)
    requires Consistent(aa, rel) && Begun(groups, rel) && forall i :: i in groups ==> i < k
    ensures Begun(g, rel)
  {
    GatheredFirst(groups, sizes, aa, x, k, g, f);
    hide Consistent, SameStart, GroupAliases, Known, Mixed;
    forall j | j in g && !g[j].may ensures StartsTogether(g[j], rel) {
      if j == f {
        forall q | q in g[f].members ensures SameStart(rel, g[f].members[0], q) {
          var i := Home(groups, sizes, aa, x, k, g, f, f, q);
          MergedStart(groups, sizes, aa, rel, x, k, f, i);
        }
      }
    }
  }

  /** A group that is not said to alias x holds no pointer that conflicts with x, although of a must-alias group only
      the first pointer was looked at. */
  lemma UnaliasedIsApart(g: Group, sizes: Sizes, aa: Oracle, rel: Relation, x: Loc, q: Ptr)
    requires Known(g, sizes) && Consistent(aa, rel) && q in g.members && !GroupAliases(g, sizes, aa, x)
    requires !g.may ==> StartsTogether(g, rel) && FirstIsLargest(g, sizes)
    ensures !rel(At(sizes, q), x) && !rel(x, At(sizes, q))
  {
    var k :| 0 <= k < |g.members| && g.members[k] == q;
    hide Consistent;
    if g.may {
      NoAliasHolds(aa, rel, x, At(sizes, q));
    } else {
      var f := g.members[0];
      NoAliasHolds(aa, rel, At(sizes, f), x);
      LargerConflicts(aa, rel, f, sizes[q], sizes[f], x);
      assert rel(Loc(f, sizes[q]), x) <==> rel(Loc(q, sizes[q]), x);
      Symmetric(aa, rel, At(sizes, q), x);
    }
  }

  /** Two groups whose pointers do not conflict are never told to must-alias. */
  lemma NotMust(groups: Groups, sizes: Sizes, aa: Oracle, rel: Relation, i: Id, j: Id)
    requires Tracked(groups, sizes) && Consistent(aa, rel) && Apart(groups, sizes, rel) && i in groups && j in groups && i != j
    ensures !ToldMust(groups[i], groups[j], sizes, aa)
  {
    hide Consistent;
    if ToldMust(groups[i], groups[j], sizes, aa) {
      MustAliasHolds(aa, rel, At(sizes, groups[i].members[0]), At(sizes, groups[j].members[0]));
    }
  }

  // ----- A new pointer -----------------------------------------------------------------------------

  /** Without a change of sizes, what was sound stays sound: groups are only merged to a may-alias group. */
  lemma GatheredSound(groups: Groups, sizes: Sizes, aa: Oracle, rel: Relation, x: Loc, k: Id, g: Groups, f: Id)
    requires Tracked(groups, sizes) && Tracked(g, sizes) && IsGathered(groups, sizes, aa, x, k, g, f)
    requires Consistent(aa, rel) && Begun(groups, rel) && Largest(groups, sizes) && Apart(groups, sizes, rel)
    requires forall i :: i in groups ==> i < k
    ensures Largest(g, sizes) && Apart(g, sizes, rel)
  {
    GatheredFirst(groups, sizes, aa, x, k, g, f);
    hide Consistent, GroupAliases, Known, Mixed, IsGathered, FirstSize;
    forall j | j in g && !g[j].may ensures FirstIsLargest(g[j], sizes) {
      forall q | q in g[j].members ensures Leq(sizes[q], FirstSize(g[j], sizes)) {
        OneSource(groups, sizes, aa, rel, x, k, g, f, j, q);
      }
    }
    forall i, j, p, q | i in g && j in g && i != j && p in g[i].members && q in g[j].members
      ensures !rel(At(sizes, p), At(sizes, q))
    {
      var a := Home(groups, sizes, aa, x, k, g, f, i, p);
      var b := Home(groups, sizes, aa, x, k, g, f, j, q);
    }
  }

  /** A pointer of a must-alias group that was gathered was in the group of the same name. */
  lemma OneSource(groups: Groups, sizes: Sizes, aa: Oracle, rel: Relation, x: Loc, k: Id, g: Groups, f: Id, j: Id, q: Ptr)
    requires Tracked(groups, sizes) && Tracked(g, sizes) && IsGathered(groups, sizes, aa, x, k, g, f)
    requires Consistent(aa, rel) && Begun(groups, rel) && Largest(groups, sizes) && Apart(groups, sizes, rel)
    requires (forall i :: i in groups ==> i < k) && j in g && !g[j].may && q in g[j].members
    ensures Leq(sizes[q], FirstSize(g[j], sizes))
  {
    GatheredFirst(groups, sizes, aa, x, k, g, f);
    MayStays(groups, sizes, aa, x, k, g, f);
    var i := Home(groups, sizes, aa, x, k, g, f, j, q);
    hide Consistent, GroupAliases, FirstSize, Begun;
    if i != j {
      assert Begun(groups, rel);
      MergedStart(groups, sizes, aa, rel, x, k, f, i);
      NotMust(groups, sizes, aa, rel, f, i);
    } else {
      hide Known;
      assert FirstIsLargest(groups[j], sizes);
    }
  }

  /** A new pointer that joins a group, and that conflicts with no other group. */
  lemma JoinedSound(groups: Groups, sizes: Sizes, aa: Oracle, rel: Relation, f: Id, x: Loc)
    requires Tracked(groups, sizes) && Separate(groups) && f in groups && groups[f].members != [] && x.p !in sizes
    requires Consistent(aa, rel) && Begun(groups, rel) && Largest(groups, sizes) && Apart(groups, sizes, rel)
    requires forall j, q :: j in groups && j != f && q in groups[j].members ==> !rel(At(sizes, q), x)
    ensures var groups', sizes' := groups[f := JoinedGroup(groups[f], sizes, aa, x)], JoinedSizes(groups[f], sizes, aa, x);
            Tracked(groups', sizes') && Begun(groups', rel) && Largest(groups', sizes') && Apart(groups', sizes', rel)
  {
    var groups', sizes' := groups[f := JoinedGroup(groups[f], sizes, aa, x)], JoinedSizes(groups[f], sizes, aa, x);
    JoinedTracked(groups, sizes, aa, f, x);
    hide Consistent, SameStart;
    forall j | j in groups' && !groups'[j].may
      ensures StartsTogether(groups'[j], rel) && FirstIsLargest(groups'[j], sizes')
    {
      if j == f {
        JoinedFirst(groups[f], sizes, aa, rel, x);
      } else {
        JoinedOther(groups, sizes, aa, f, x, j);
      }
    }
    forall i, j, p, q | i in groups' && j in groups' && i != j && p in groups'[i].members && q in groups'[j].members
      ensures !rel(At(sizes', p), At(sizes', q))
    {
      if j != f {
        JoinedApart(groups, sizes, aa, rel, f, x, i, j, p, q);
      } else {
        JoinedApart(groups, sizes, aa, rel, f, x, j, i, q, p);
        Symmetric(aa, rel, At(sizes', p), At(sizes', q));
      }
    }
  }

  lemma JoinedTracked(groups: Groups, sizes: Sizes, aa: Oracle, f: Id, x: Loc)
    requires Tracked(groups, sizes) && f in groups && x.p !in sizes
    ensures Tracked(groups[f := JoinedGroup(groups[f], sizes, aa, x)], JoinedSizes(groups[f], sizes, aa, x))
    ensures forall q :: q in JoinedSizes(groups[f], sizes, aa, x) ==> q in sizes || q == x.p
    ensures forall q :: q in sizes ==> q in JoinedSizes(groups[f], sizes, aa, x)
  {
    assert groups[f].members != [] ==> groups[f].members[0] in groups[f].members;
  }

  lemma JoinedFirst(g: Group, sizes: Sizes, aa: Oracle, rel: Relation, x: Loc)
    requires Known(g, sizes) && g.members != [] && x.p !in sizes && Consistent(aa, rel)
    requires !g.may ==> StartsTogether(g, rel) && FirstIsLargest(g, sizes)
    ensures var g', sizes' := JoinedGroup(g, sizes, aa, x), JoinedSizes(g, sizes, aa, x);
            !g'.may ==> Known(g', sizes') && StartsTogether(g', rel) && FirstIsLargest(g', sizes')
  {
    var f := g.members[0];
    hide Consistent, SameStart;
    assert f in g.members && f != x.p;
    if !g.may && aa(At(sizes, f), x) == MustAlias {
      MustAliasHolds(aa, rel, At(sizes, f), x);
    }
  }

  lemma JoinedOther(groups: Groups, sizes: Sizes, aa: Oracle, f: Id, x: Loc, j: Id)
    requires Tracked(groups, sizes) && Separate(groups) && f in groups && j in groups && j != f && x.p !in sizes
    ensures forall q :: q in groups[j].members ==>
              q in JoinedSizes(groups[f], sizes, aa, x) && JoinedSizes(groups[f], sizes, aa, x)[q] == sizes[q]
  {
    assert groups[f].members != [] ==> groups[f].members[0] in groups[f].members;
  }

  /** Other groups stay apart from group f, also from its first pointer, whose recorded size may have grown. */
  lemma JoinedApart(groups: Groups, sizes: Sizes, aa: Oracle, rel: Relation, f: Id, x: Loc, i: Id, j: Id, p: Ptr, q: Ptr)
    requires Tracked(groups, sizes) && Separate(groups) && f in groups && groups[f].members != [] && x.p !in sizes
    requires Consistent(aa, rel) && Apart(groups, sizes, rel)
    requires forall j, q :: j in groups && j != f && q in groups[j].members ==> !rel(At(sizes, q), x)
    requires i in groups && j in groups && i != j && j != f && q in groups[j].members
    requires p in groups[i].members || (i == f && p == x.p)
    ensures var sizes' := JoinedSizes(groups[f], sizes, aa, x); p in sizes' && q in sizes' && !rel(At(sizes', p), At(sizes', q))
  {
    var sizes' := JoinedSizes(groups[f], sizes, aa, x);
    JoinedOther(groups, sizes, aa, f, x, j);
    hide Consistent;
    Symmetric(aa, rel, At(sizes, q), x);
    var first := groups[f].members[0];
    assert first in groups[f].members && first != x.p;
    assert At(sizes', q) == At(sizes, q);
    if p == x.p {
      assert At(sizes', p) == x;
    } else if sizes'[p] == sizes[p] {
      assert !rel(At(sizes, p), At(sizes, q));
    } else {
      assert p == first;
      MustAliasHolds(aa, rel, At(sizes, first), x);
      if Leq(x.size, sizes[first]) {
        LargerConflicts(aa, rel, first, sizes'[first], sizes[first], At(sizes, q));
      } else {
        LargerConflicts(aa, rel, first, sizes'[first], x.size, At(sizes, q));
      }
    }
  }

  lemma NewIsSound(s: Partition, aa: Oracle, rel: Relation, x: Loc)
    requires WellFormed(s) && Consistent(aa, rel) && x.p !in s.sizes && Begun(s.groups, rel)
    ensures var s' := Added(s, aa, x);
            Tracked(s'.groups, s'.sizes) && Begun(s'.groups, rel) && (SoundPartition(s, rel) ==> SoundPartition(s', rel))
  {
    GroupsGathered(s.groups, s.sizes, aa, x, s.next);
    var (g, found) := GatheredGroups(s.groups, s.sizes, aa, x, s.next);
    hide GatheredGroups;
    if found.Some? {
      var f := found.value;
      GatheredFirst(s.groups, s.sizes, aa, x, s.next, g, f);
      GatheredBegun(s.groups, s.sizes, aa, rel, x, s.next, g, f);
      GatheredSeparate(s, aa, x, g, f);
      JoinedTracked(g, s.sizes, aa, f, x);
      JoinedBegun(g, s.sizes, aa, rel, f, x);
      if SoundPartition(s, rel) {
        GatheredSound(s.groups, s.sizes, aa, rel, x, s.next, g, f);
        NewApart(s, aa, rel, x, g, f);
        JoinedSound(g, s.sizes, aa, rel, f, x);
      }
    } else {
      AloneSound(s, aa, rel, x);
    }
  }

  lemma JoinedBegun(groups: Groups, sizes: Sizes, aa: Oracle, rel: Relation, f: Id, x: Loc)
    requires Tracked(groups, sizes) && f in groups && groups[f].members != [] && Consistent(aa, rel) && Begun(groups, rel)
    ensures Begun(groups[f := JoinedGroup(groups[f], sizes, aa, x)], rel)
  {
    hide SameStart, Consistent;
    var g := groups[f];
    assert g.members[0] in g.members;
    if !g.may && aa(At(sizes, g.members[0]), x) == MustAlias {
      MustAliasHolds(aa, rel, At(sizes, g.members[0]), x);
    }
  }

  lemma GatheredSeparate(s: Partition, aa: Oracle, x: Loc, g: Groups, f: Id)
    requires WellFormed(s) && IsGathered(s.groups, s.sizes, aa, x, s.next, g, f)
    ensures Separate(g)
  {
    SeparateStays(s.groups, s.sizes, aa, x, s.next, g, f);
  }

  lemma SeparateStays(groups: Groups, sizes: Sizes, aa: Oracle, x: Loc, k: Id, g: Groups, f: Id)
    requires Tracked(groups, sizes) && Separate(groups) && IsGathered(groups, sizes, aa, x, k, g, f)
    requires forall i :: i in groups ==> i < k
    ensures Separate(g)
  {
    hide GroupAliases, Known, Mixed, IsGathered;
    forall i, j, p | i in g && j in g && p in g[i].members && p in g[j].members ensures i == j {
      var a := Home(groups, sizes, aa, x, k, g, f, i, p);
      var b := Home(groups, sizes, aa, x, k, g, f, j, p);
    }
  }

  /** x does not conflict with groups that were not gathered. */
  lemma NewApart(s: Partition, aa: Oracle, rel: Relation, x: Loc, g: Groups, f: Id)
    requires WellFormed(s) && IsGathered(s.groups, s.sizes, aa, x, s.next, g, f) && Consistent(aa, rel)
    requires Begun(s.groups, rel) && Largest(s.groups, s.sizes)
    ensures forall j, q :: j in g && j != f && q in g[j].members ==> q in s.sizes && !rel(At(s.sizes, q), x)
  {
    hide Consistent, GroupAliases, Mixed, FirstSize, SameStart;
    forall j, q | j in g && j != f && q in g[j].members ensures q in s.sizes && !rel(At(s.sizes, q), x) {
      assert g[j] == s.groups[j] && !GroupHit(s.groups, s.sizes, aa, x, j);
      UnaliasedIsApart(g[j], s.sizes, aa, rel, x, q);
    }
  }

  lemma AloneSound(s: Partition, aa: Oracle, rel: Relation, x: Loc)
    requires WellFormed(s) && Consistent(aa, rel) && x.p !in s.sizes && Begun(s.groups, rel)
    requires forall i: Id :: i < s.next ==> !GroupHit(s.groups, s.sizes, aa, x, i)
    ensures var groups', sizes' := s.groups[s.next := Group(false, [x.p])], s.sizes[x.p := x.size];
            Tracked(groups', sizes') && Begun(groups', rel)
            && (SoundPartition(s, rel) ==> Largest(groups', sizes') && Apart(groups', sizes', rel))
  {
    var groups', sizes' := s.groups[s.next := Group(false, [x.p])], s.sizes[x.p := x.size];
    StartsAlone(rel, x.p);
    hide Consistent, SameStart, GroupAliases;
    assert forall q :: q in s.sizes ==> At(sizes', q) == At(s.sizes, q);
    assert At(sizes', x.p) == x;
    assert Tracked(groups', sizes') && Begun(groups', rel);
    if SoundPartition(s, rel) {
      assert Largest(groups', sizes');
      AloneApart(s, aa, rel, x);
    }
  }

  lemma AloneApart(s: Partition, aa: Oracle, rel: Relation, x: Loc)
    requires WellFormed(s) && Consistent(aa, rel) && x.p !in s.sizes && Begun(s.groups, rel) && SoundPartition(s, rel)
    requires forall i: Id :: i < s.next ==> !GroupHit(s.groups, s.sizes, aa, x, i)
    ensures Tracked(s.groups[s.next := Group(false, [x.p])], s.sizes[x.p := x.size])
    ensures Apart(s.groups[s.next := Group(false, [x.p])], s.sizes[x.p := x.size], rel)
  {
    hide Consistent, GroupAliases, SameStart, FirstSize;
    forall i, q | i in s.groups && q in s.groups[i].members ensures q in s.sizes && !rel(At(s.sizes, q), x) && !rel(x, At(s.sizes, q)) {
      assert !GroupHit(s.groups, s.sizes, aa, x, i);
      UnaliasedIsApart(s.groups[i], s.sizes, aa, rel, x, q);
    }
    hide GroupHit, Largest, Begun, Separate, Grouped;
  }

  lemma StartsAlone(rel: Relation, p: Ptr)
    ensures SameStart(rel, p, p)
  {
  }

  // ----- A tracked pointer that grows ------------------------------------------------------------------

  /** Outside the guard the addition leaves a must-alias group whose first pointer is not the largest. */
  lemma UnguardedLoses(s: Partition, aa: Oracle, x: Loc)
    requires WellFormed(s) && !Guarded(s, aa, x)
    ensures var s' := Added(s, aa, x); Tracked(s'.groups, s'.sizes) && !Largest(s'.groups, s'.sizes)
  {
    var sizes := Grown(s.sizes, x);
    assert Tracked(s.groups, sizes);
    var i :| i in s.groups && x.p in s.groups[i].members && !s.groups[i].may && !GrowsWell(s.groups, sizes, aa, x, s.next, i);
    GroupsGathered(s.groups, sizes, aa, x, s.next);
    var (g, found) := GatheredGroups(s.groups, sizes, aa, x, s.next);
    hide GatheredGroups, GroupAliases, Separate, Grouped, Union, Mixed;
    if !GroupHit(s.groups, sizes, aa, x, i) {
      assert i in g && g[i] == s.groups[i];
      assert !FirstIsLargest(g[i], sizes);
    } else {
      JoinedLoses(s.groups, sizes, aa, x, s.next, g, found.value, i);
    }
  }

  lemma JoinedLoses(groups: Groups, sizes: Sizes, aa: Oracle, x: Loc, next: Id, g: Groups, f: Id, i: Id)
    requires Tracked(groups, sizes) && Tracked(g, sizes) && IsGathered(groups, sizes, aa, x, next, g, f) && x.p in sizes
    requires i in groups && i < next && x.p in groups[i].members && GroupHit(groups, sizes, aa, x, i)
    requires !GrowsWell(groups, sizes, aa, x, next, i)
    ensures f in g && !g[f].may && !FirstIsLargest(g[f], sizes)
  {
    GatheredFirst(groups, sizes, aa, x, next, g, f);
    hide GroupAliases, Mixed;
    if !Leq(sizes[x.p], FirstSize(groups[f], sizes)) {
      assert InHit(groups, sizes, aa, x, next, x.p);
    } else {
      var k: Id :| k < next && GroupHit(groups, sizes, aa, x, k) && !Leq(FirstSize(groups[k], sizes), FirstSize(groups[f], sizes));
      HitHasFirst(groups, sizes, aa, x, k);
      assert InHit(groups, sizes, aa, x, next, groups[k].members[0]);
    }
  }

  lemma HitHasFirst(groups: Groups, sizes: Sizes, aa: Oracle, x: Loc, k: Id)
    requires Tracked(groups, sizes) && GroupHit(groups, sizes, aa, x, k)
    ensures groups[k].members != [] && groups[k].members[0] in groups[k].members
  {
  }

  /** Inside the guard the first pointers stay the largest. */
  lemma GuardedLargest(s: Partition, aa: Oracle, rel: Relation, x: Loc)
    requires WellFormed(s) && Consistent(aa, rel) && Begun(s.groups, rel) && SoundPartition(s, rel)
    requires x.p in s.sizes && Grown(s.sizes, x)[x.p] != s.sizes[x.p] && Guarded(s, aa, x)
    ensures var s' := Added(s, aa, x); Tracked(s'.groups, s'.sizes) && Largest(s'.groups, s'.sizes)
  {
    var sizes := Grown(s.sizes, x);
    assert Tracked(s.groups, sizes);
    GroupsGathered(s.groups, sizes, aa, x, s.next);
    var (g, found) := GatheredGroups(s.groups, sizes, aa, x, s.next);
    hide GatheredGroups, Consistent, IsGathered;
    forall j | j in g && !g[j].may ensures FirstIsLargest(g[j], sizes) {
      if found.Some? && j == found.value {
        forall q | q in g[j].members ensures Leq(sizes[q], FirstSize(g[j], sizes)) {
          JoinedFits(s, aa, rel, x, g, j, q);
        }
      } else {
        OtherFits(s, aa, x, g, found, j);
      }
    }
  }

  /** A group that is not gathered. */
  lemma OtherFits(s: Partition, aa: Oracle, x: Loc, g: Groups, found: Option<Id>, j: Id)
    requires WellFormed(s) && Largest(s.groups, s.sizes)
    requires x.p in s.sizes && Grown(s.sizes, x)[x.p] != s.sizes[x.p] && Guarded(s, aa, x)
    requires Tracked(s.groups, Grown(s.sizes, x)) && Tracked(g, Grown(s.sizes, x)) && j in g && !g[j].may && found != Some(j)
    requires match found
             case None => g == s.groups && forall i: Id :: i < s.next ==> !GroupHit(s.groups, Grown(s.sizes, x), aa, x, i)
             case Some(f) => IsGathered(s.groups, Grown(s.sizes, x), aa, x, s.next, g, f)
    ensures FirstIsLargest(g[j], Grown(s.sizes, x))
  {
    var sizes := Grown(s.sizes, x);
    hide GroupAliases, Mixed, Union;
    assert j in s.groups && g[j] == s.groups[j] && !GroupHit(s.groups, sizes, aa, x, j);
    var m := g[j].members;
    assert m[0] in m && FirstIsLargest(s.groups[j], s.sizes);
    GrownBounds(s.sizes, x);
    if x.p in m {
      assert GrowsWell(s.groups, sizes, aa, x, s.next, j);
    }
  }

  lemma GrownBounds(sizes: Sizes, x: Loc)
    requires x.p in sizes
    ensures var sizes' := Grown(sizes, x);
            && sizes'.Keys == sizes.Keys && Leq(sizes[x.p], sizes'[x.p]) && Leq(x.size, sizes'[x.p])
            && (Leq(sizes'[x.p], x.size) || Leq(sizes'[x.p], sizes[x.p])) && (Leq(x.size, sizes[x.p]) ==> Leq(sizes'[x.p], sizes[x.p]))
            && forall q :: q in sizes && q != x.p ==> sizes'[q] == sizes[q]
  {
  }

  /** A pointer of the group that is gathered. */
  lemma JoinedFits(s: Partition, aa: Oracle, rel: Relation, x: Loc, g: Groups, f: Id, q: Ptr)
    requires WellFormed(s) && Consistent(aa, rel) && Begun(s.groups, rel) && SoundPartition(s, rel)
    requires x.p in s.sizes && Grown(s.sizes, x)[x.p] != s.sizes[x.p] && Guarded(s, aa, x)
    requires Tracked(s.groups, Grown(s.sizes, x)) && Tracked(g, Grown(s.sizes, x))
    requires IsGathered(s.groups, Grown(s.sizes, x), aa, x, s.next, g, f) && !g[f].may && q in g[f].members
    ensures q in Grown(s.sizes, x) && Leq(Grown(s.sizes, x)[q], FirstSize(g[f], Grown(s.sizes, x)))
  {
    var sizes := Grown(s.sizes, x);
    GrownBounds(s.sizes, x);
    GatheredFirst(s.groups, sizes, aa, x, s.next, g, f);
    MayStays(s.groups, sizes, aa, x, s.next, g, f);
    var i := Home(s.groups, sizes, aa, x, s.next, g, f, f, q);
    assert Grouped(s.groups, x.p);
    var home :| home in s.groups && x.p in s.groups[home].members;
    hide Consistent, Union, Mixed, Grouped;
    assert !Mixed(s.groups, sizes, aa, x, f, s.next);
    MergedStart(s.groups, sizes, aa, rel, x, s.next, f, i);
    assert s.groups[i].members[0] in s.groups[i].members && FirstIsLargest(s.groups[i], s.sizes);
    if GroupHit(s.groups, sizes, aa, x, home) {
      MergedStart(s.groups, sizes, aa, rel, x, s.next, f, home);
      assert GrowsWell(s.groups, sizes, aa, x, s.next, home) && FirstHit(s.groups, sizes, aa, x, f);
      GroupFits(s.groups[i], s.sizes, x, q);
    } else if i != f {
      NotMustEither(s, aa, rel, x, f, i);
    } else {
      assert x.p !in s.groups[f].members;
    }
  }

  /** The first pointer of a group covers a pointer that has not grown. */
  lemma GroupFits(g: Group, sizes: Sizes, x: Loc, q: Ptr)
    requires Known(g, sizes) && x.p in sizes && q in g.members && FirstIsLargest(g, sizes)
    ensures Known(g, Grown(sizes, x)) && (q != x.p ==> Leq(Grown(sizes, x)[q], FirstSize(g, Grown(sizes, x))))
  {
    GrownBounds(sizes, x);
    assert g.members[0] in g.members;
  }

  /** Groups without the grown pointer are not told to must-alias. */
  lemma NotMustEither(s: Partition, aa: Oracle, rel: Relation, x: Loc, i: Id, j: Id)
    requires WellFormed(s) && Consistent(aa, rel) && Apart(s.groups, s.sizes, rel) && x.p in s.sizes
    requires Tracked(s.groups, Grown(s.sizes, x)) && i in s.groups && j in s.groups && i != j
    requires x.p !in s.groups[i].members && x.p !in s.groups[j].members
    ensures !ToldMust(s.groups[i], s.groups[j], Grown(s.sizes, x), aa)
  {
    hide Consistent;
    NotMust(s.groups, s.sizes, aa, rel, i, j);
    assert forall k :: k in s.groups && s.groups[k].members != [] ==> s.groups[k].members[0] in s.groups[k].members;
  }

  /** Inside the guard the grown pointer does not conflict with other groups: its own group was among those that
      alias x, so all that conflict have come to it. */
  lemma GuardedApart(s: Partition, aa: Oracle, rel: Relation, x: Loc)
    requires WellFormed(s) && Consistent(aa, rel) && Begun(s.groups, rel) && SoundPartition(s, rel)
    requires x.p in s.sizes && Grown(s.sizes, x)[x.p] != s.sizes[x.p] && Guarded(s, aa, x)
    ensures var s' := Added(s, aa, x); Tracked(s'.groups, s'.sizes) && Apart(s'.groups, s'.sizes, rel)
  {
    var sizes := Grown(s.sizes, x);
    assert Tracked(s.groups, sizes);
    GroupsGathered(s.groups, sizes, aa, x, s.next);
    var (g, found) := GatheredGroups(s.groups, sizes, aa, x, s.next);
    hide GatheredGroups, Consistent, IsGathered, Guarded, Union, Begun;
    forall i, j, p, q | i in g && j in g && i != j && p in g[i].members && q in g[j].members
      ensures !rel(At(sizes, p), At(sizes, q))
    {
      var a, b := i, j;
      if found.Some? {
        a := Home(s.groups, sizes, aa, x, s.next, g, found.value, i, p);
        b := Home(s.groups, sizes, aa, x, s.next, g, found.value, j, q);
      }
      OldApart(s, aa, rel, x, a, b, p, q);
    }
  }

  /** Pointers of two groups of which not both alias x do not conflict when the pointer of x has grown. */
  lemma OldApart(s: Partition, aa: Oracle, rel: Relation, x: Loc, a: Id, b: Id, p: Ptr, q: Ptr)
    requires WellFormed(s) && Consistent(aa, rel) && Begun(s.groups, rel) && SoundPartition(s, rel)
    requires x.p in s.sizes && Grown(s.sizes, x)[x.p] != s.sizes[x.p] && Guarded(s, aa, x) && Tracked(s.groups, Grown(s.sizes, x))
    requires a in s.groups && b in s.groups && a != b && p in s.groups[a].members && q in s.groups[b].members
    requires !GroupHit(s.groups, Grown(s.sizes, x), aa, x, a) || !GroupHit(s.groups, Grown(s.sizes, x), aa, x, b)
    ensures !rel(At(Grown(s.sizes, x), p), At(Grown(s.sizes, x), q))
  {
    var sizes := Grown(s.sizes, x);
    GrownBounds(s.sizes, x);
    hide Consistent, Guarded, Union, Begun, Largest;
    assert !rel(At(s.sizes, p), At(s.sizes, q)) && !rel(At(s.sizes, q), At(s.sizes, p));
    if p == x.p {
      GrownApart(s, aa, rel, x, a, b, q);
    } else if q == x.p {
      GrownApart(s, aa, rel, x, b, a, p);
      Symmetric(aa, rel, At(sizes, q), At(sizes, p));
    }
  }

  lemma GrownApart(s: Partition, aa: Oracle, rel: Relation, x: Loc, a: Id, b: Id, q: Ptr)
    requires WellFormed(s) && Consistent(aa, rel) && Begun(s.groups, rel) && SoundPartition(s, rel)
    requires x.p in s.sizes && Grown(s.sizes, x)[x.p] != s.sizes[x.p] && Guarded(s, aa, x) && Tracked(s.groups, Grown(s.sizes, x))
    requires a in s.groups && b in s.groups && a != b && x.p in s.groups[a].members && q in s.groups[b].members
    requires !GroupHit(s.groups, Grown(s.sizes, x), aa, x, a) || !GroupHit(s.groups, Grown(s.sizes, x), aa, x, b)
    ensures !rel(At(Grown(s.sizes, x), x.p), At(Grown(s.sizes, x), q))
  {
    var sizes := Grown(s.sizes, x);
    GrownBounds(s.sizes, x);
    hide Consistent, Union, GrowsWell;
    assert q != x.p && !rel(At(s.sizes, x.p), At(s.sizes, q));
    if Leq(x.size, s.sizes[x.p]) {
      LargerConflicts(aa, rel, x.p, sizes[x.p], s.sizes[x.p], At(sizes, q));
    } else {
      GrownIsHit(s, aa, rel, x, a);
      FirstUnchanged(s.groups[b], s.sizes, x);
      UnaliasedIsApart(s.groups[b], sizes, aa, rel, x, q);
      LargerConflicts(aa, rel, x.p, sizes[x.p], x.size, At(sizes, q));
    }
  }

  lemma FirstUnchanged(g: Group, sizes: Sizes, x: Loc)
    requires Known(g, sizes) && x.p in sizes && x.p !in g.members
    ensures Known(g, Grown(sizes, x)) && (FirstIsLargest(g, sizes) ==> FirstIsLargest(g, Grown(sizes, x)))
  {
    assert g.members != [] ==> g.members[0] in g.members;
  }

  /** Inside the guard the group of a pointer that really grows is found to alias what it grows to. */
  lemma GrownIsHit(s: Partition, aa: Oracle, rel: Relation, x: Loc, a: Id)
    requires WellFormed(s) && Consistent(aa, rel) && Begun(s.groups, rel)
    requires x.p in s.sizes && Grown(s.sizes, x)[x.p] != s.sizes[x.p] && Guarded(s, aa, x) && Tracked(s.groups, Grown(s.sizes, x))
    requires a in s.groups && x.p in s.groups[a].members && !Leq(x.size, s.sizes[x.p])
    ensures GroupHit(s.groups, Grown(s.sizes, x), aa, x, a)
  {
    var sizes := Grown(s.sizes, x);
    GrownBounds(s.sizes, x);
    hide Consistent, Union;
    var m := s.groups[a].members;
    assert m[0] in m;
    if s.groups[a].may {
      SelfConflicts(aa, rel, x.p, x.size, sizes[x.p]);
      ConflictIsSeen(aa, rel, x, At(sizes, x.p));
      var k :| 0 <= k < |m| && m[k] == x.p;
      assert aa(x, At(sizes, m[k])) != NoAlias;
    } else if Leq(sizes[x.p], sizes[m[0]]) {
      var f := m[0];
      SelfConflicts(aa, rel, x.p, sizes[f], x.size);
      assert StartsTogether(s.groups[a], rel) && SameStart(rel, f, x.p);
      assert rel(Loc(f, sizes[f]), x) <==> rel(Loc(x.p, sizes[f]), x);
      ConflictIsSeen(aa, rel, At(sizes, f), x);
    } else {
      assert GrowsWell(s.groups, sizes, aa, x, s.next, a);
    }
  }

  lemma GrowthBegun(s: Partition, aa: Oracle, rel: Relation, x: Loc)
    requires WellFormed(s) && Consistent(aa, rel) && Begun(s.groups, rel) && x.p in s.sizes
    ensures Begun(Added(s, aa, x).groups, rel)
  {
    var sizes := Grown(s.sizes, x);
    assert Tracked(s.groups, sizes);
    GroupsGathered(s.groups, sizes, aa, x, s.next);
    var (g, found) := GatheredGroups(s.groups, sizes, aa, x, s.next);
    hide GatheredGroups, Consistent;
    if found.Some? {
      GatheredBegun(s.groups, sizes, aa, rel, x, s.next, g, found.value);
    }
  }

  // ----- Additions and runs of additions -----------------------------------------------------------------

  /** An addition to a sound partition leaves a sound partition exactly if it keeps the guard. */
  lemma AdditionIsSound(s: Partition, aa: Oracle, rel: Relation, x: Loc)
    requires WellFormed(s) && Consistent(aa, rel) && Begun(s.groups, rel) && SoundPartition(s, rel)
    ensures var s' := Added(s, aa, x);
            Tracked(s'.groups, s'.sizes) && Begun(s'.groups, rel) && (SoundPartition(s', rel) <==> Guarded(s, aa, x))
  {
    assert Tracked(s.groups, s.sizes);
    hide Consistent, Begun, Largest, Apart, Added, GrowsWell, WellFormed;
    if x.p !in s.sizes {
      NewIsSound(s, aa, rel, x);
    } else {
      GrowthBegun(s, aa, rel, x);
      AddedTracked(s, aa, x);
      if Grown(s.sizes, x)[x.p] == s.sizes[x.p] {
        AddedSame(s, aa, x);
      } else if Guarded(s, aa, x) {
        GuardedLargest(s, aa, rel, x);
        GuardedApart(s, aa, rel, x);
      } else {
        UnguardedLoses(s, aa, x);
      }
    }
  }

  /** No addition puts pointers that start apart into a must-alias group. */
  lemma AddedBegun(s: Partition, aa: Oracle, rel: Relation, x: Loc)
    requires WellFormed(s) && Consistent(aa, rel) && Begun(s.groups, rel)
    ensures Begun(Added(s, aa, x).groups, rel)
  {
    hide Consistent, Begun, Added;
    if x.p in s.sizes {
      GrowthBegun(s, aa, rel, x);
    } else {
      NewIsSound(s, aa, rel, x);
    }
  }

  lemma AddedTracked(s: Partition, aa: Oracle, x: Loc)
    requires Tracked(s.groups, s.sizes) && x.p in s.sizes
    ensures Tracked(Added(s, aa, x).groups, Added(s, aa, x).sizes)
  {
    assert Tracked(s.groups, Grown(s.sizes, x));
  }

  lemma AddedSame(s: Partition, aa: Oracle, x: Loc)
    requires Tracked(s.groups, s.sizes) && x.p in s.sizes && Grown(s.sizes, x)[x.p] == s.sizes[x.p]
    ensures Added(s, aa, x) == s
  {
  }

  lemma AddedWellFormed(s: Partition, aa: Oracle, x: Loc)
    requires WellFormed(s)
    ensures WellFormed(Added(s, aa, x))
  {
    var sizes := if x.p in s.sizes then Grown(s.sizes, x) else s.sizes;
    assert Tracked(s.groups, sizes);
    GroupsGathered(s.groups, sizes, aa, x, s.next);
    var (g, found) := GatheredGroups(s.groups, sizes, aa, x, s.next);
    if found.Some? {
      GatheredWellFormed(s.groups, sizes, aa, x, s.next, g, found.value);
    }
    hide GatheredGroups, GroupAliases, Known, Grown, ToldMust, IsGathered, Separate, Grouped, GroupHit;
    if x.p in s.sizes {
      GrownBounds(s.sizes, x);
      KnowsSame(g, sizes);
    } else if found.None? {
      AloneWellFormed(s, x);
    } else {
      JoinedWellFormed(Partition(g, s.sizes, s.next), aa, found.value, x);
    }
  }

  lemma KnowsSame(groups: Groups, sizes: Sizes)
    requires Tracked(groups, sizes)
    ensures forall i, q :: i in groups && q in groups[i].members ==> q in sizes
  {
  }

  lemma GatheredWellFormed(groups: Groups, sizes: Sizes, aa: Oracle, x: Loc, k: Id, g: Groups, f: Id)
    requires Tracked(groups, sizes) && Tracked(g, sizes) && Separate(groups) && IsGathered(groups, sizes, aa, x, k, g, f)
    requires forall i :: i in groups ==> i < k && (groups[i].may || groups[i].members != [])
    ensures Separate(g) && (forall i :: i in g ==> i < k && (g[i].may || g[i].members != []))
    ensures forall p :: Grouped(groups, p) ==> Grouped(g, p)
  {
    SeparateStays(groups, sizes, aa, x, k, g, f);
    GatheredFirst(groups, sizes, aa, x, k, g, f);
    hide GroupAliases, Known, Mixed;
    forall p | Grouped(groups, p) ensures Grouped(g, p) {
      var i :| i in groups && p in groups[i].members;
      if i !in g || i == f {
        assert InHit(groups, sizes, aa, x, k, p);
        assert p in g[f].members;
      } else {
        assert g[i] == groups[i];
      }
    }
  }

  lemma AloneWellFormed(s: Partition, x: Loc)
    requires WellFormed(s) && x.p !in s.sizes
    ensures WellFormed(Partition(s.groups[s.next := Group(false, [x.p])], s.sizes[x.p := x.size], s.next + 1))
  {
    var groups := s.groups[s.next := Group(false, [x.p])];
    forall p | p in s.sizes || p == x.p ensures Grouped(groups, p) {
      if p == x.p {
        assert p in groups[s.next].members;
      } else {
        assert Grouped(s.groups, p);
        var i :| i in s.groups && p in s.groups[i].members;
        assert p in groups[i].members;
      }
    }
  }

  lemma JoinedWellFormed(s: Partition, aa: Oracle, f: Id, x: Loc)
    requires WellFormed(s) && x.p !in s.sizes && f in s.groups
    ensures WellFormed(Partition(s.groups[f := JoinedGroup(s.groups[f], s.sizes, aa, x)], JoinedSizes(s.groups[f], s.sizes, aa, x), s.next))
  {
    JoinedTracked(s.groups, s.sizes, aa, f, x);
    var groups := s.groups[f := JoinedGroup(s.groups[f], s.sizes, aa, x)];
    assert Separate(groups);
    hide JoinedSizes, Separate, Tracked;
    forall p | p in s.sizes || p == x.p ensures Grouped(groups, p) {
      if p == x.p {
        assert p in groups[f].members;
      } else {
        assert Grouped(s.groups, p);
        var i :| i in s.groups && p in s.groups[i].members;
        assert p in groups[i].members;
      }
    }
  }

  /** The partition after a run of additions. */
  ghost function AddedAll(aa: Oracle, locs: seq<Loc>): (s: Partition)
    ensures WellFormed(s)
  {
    if locs == [] then NOTHING
    else
      var s := AddedAll(aa, locs[..|locs| - 1]);
      AddedWellFormed(s, aa, locs[|locs| - 1]);
      Added(s, aa, locs[|locs| - 1])
  }

  lemma AddedLast(aa: Oracle, locs: seq<Loc>)
    requires locs != []
    ensures WellFormed(AddedAll(aa, locs[..|locs| - 1])) && WellFormed(AddedAll(aa, locs))
    ensures AddedAll(aa, locs) == Added(AddedAll(aa, locs[..|locs| - 1]), aa, locs[|locs| - 1])
  {
  }

  /** The recorded size of a pointer has taken in the size of a location. */
  predicate Absorbs(sizes: Sizes, x: Loc) {
    x.p in sizes && Union(sizes[x.p], x.size) == sizes[x.p]
  }

  lemma AddedAbsorbs(s: Partition, aa: Oracle, x: Loc, y: Loc)
    requires WellFormed(s)
    ensures Absorbs(Added(s, aa, x).sizes, x)
    ensures Absorbs(s.sizes, y) ==> Absorbs(Added(s, aa, x).sizes, y)
  {
    var sizes := if x.p in s.sizes then Grown(s.sizes, x) else s.sizes;
    assert Tracked(s.groups, sizes);
    var (g, found) := GatheredGroups(s.groups, sizes, aa, x, s.next);
    hide GatheredGroups;
    if x.p !in s.sizes && found.Some? {
      assert g[found.value].members != [] ==> g[found.value].members[0] in g[found.value].members;
    }
  }

  lemma {:induction false} RunAbsorbs(aa: Oracle, locs: seq<Loc>, i: nat)
    requires i < |locs|
    ensures Absorbs(AddedAll(aa, locs).sizes, locs[i])
  {
    hide *;
    var before := locs[..|locs| - 1];
    AddedLast(aa, locs);
    AddedAbsorbs(AddedAll(aa, before), aa, locs[|locs| - 1], locs[i]);
    if i < |before| {
      RunAbsorbs(aa, before, i);
      assert before[i] == locs[i];
    }
  }

  ghost predicate EachGuarded(aa: Oracle, locs: seq<Loc>) {
    forall k :: 0 <= k < |locs| ==> Guarded(AddedAll(aa, locs[..k]), aa, locs[k])
  }

  ghost predicate OneGroup(groups: Groups, p: Ptr, q: Ptr) {
    exists i :: i in groups && p in groups[i].members && q in groups[i].members
  }

  /** In a sound partition, accesses that conflict are in one group. */
  lemma SoundTogether(s: Partition, aa: Oracle, rel: Relation, a: Loc, b: Loc)
    requires WellFormed(s) && Consistent(aa, rel) && Apart(s.groups, s.sizes, rel)
    requires Absorbs(s.sizes, a) && Absorbs(s.sizes, b) && rel(a, b)
    ensures OneGroup(s.groups, a.p, b.p)
  {
    hide Consistent;
    assert Leq(a.size, s.sizes[a.p]) && Leq(b.size, s.sizes[b.p]);
    LargerConflicts(aa, rel, a.p, a.size, s.sizes[a.p], b);
    LargerConflicts(aa, rel, b.p, b.size, s.sizes[b.p], At(s.sizes, a.p));
    assert rel(At(s.sizes, a.p), At(s.sizes, b.p));
    assert Grouped(s.groups, a.p) && Grouped(s.groups, b.p);
    var i :| i in s.groups && a.p in s.groups[i].members;
    var j :| j in s.groups && b.p in s.groups[j].members;
  }

  lemma {:induction false} RunIsSound(aa: Oracle, rel: Relation, locs: seq<Loc>)
    requires Consistent(aa, rel) && EachGuarded(aa, locs)
    ensures var s := AddedAll(aa, locs); WellFormed(s) && Begun(s.groups, rel) && SoundPartition(s, rel)
  {
    hide *;
    if locs == [] {
      NothingIsSound(aa, rel);
    } else {
      AddedLast(aa, locs);
      GuardedLast(aa, locs);
      RunIsSound(aa, rel, locs[..|locs| - 1]);
      AdditionIsSound(AddedAll(aa, locs[..|locs| - 1]), aa, rel, locs[|locs| - 1]);
    }
  }

  lemma GuardedLast(aa: Oracle, locs: seq<Loc>)
    requires locs != [] && EachGuarded(aa, locs)
    ensures var before := locs[..|locs| - 1]; EachGuarded(aa, before) && Guarded(AddedAll(aa, before), aa, locs[|locs| - 1])
  {
    hide Guarded, AddedAll;
    var before := locs[..|locs| - 1];
    assert forall k :: 0 <= k < |before| ==> before[..k] == locs[..k] && before[k] == locs[k];
  }

  lemma NothingIsSound(aa: Oracle, rel: Relation)
    ensures var s := AddedAll(aa, []); WellFormed(s) && Begun(s.groups, rel) && SoundPartition(s, rel)
  {
  }

  /** In a run that keeps the guard all that conflicts comes together, although must-alias groups are asked through
      their first pointer only. */
  lemma {:induction false} ConflictsTogether(aa: Oracle, rel: Relation, locs: seq<Loc>)
    requires Consistent(aa, rel) && EachGuarded(aa, locs)
    ensures forall i, j :: 0 <= i < |locs| && 0 <= j < |locs| && rel(locs[i], locs[j]) ==>
              OneGroup(AddedAll(aa, locs).groups, locs[i].p, locs[j].p)
  {
    var s := AddedAll(aa, locs);
    RunIsSound(aa, rel, locs);
    hide Consistent, OneGroup, Absorbs, AddedAll, EachGuarded, Largest, Begun;
    forall i, j | 0 <= i < |locs| && 0 <= j < |locs| && rel(locs[i], locs[j]) ensures OneGroup(s.groups, locs[i].p, locs[j].p) {
      RunAbsorbs(aa, locs, i);
      RunAbsorbs(aa, locs, j);
      SoundTogether(s, aa, rel, locs[i], locs[j]);
    }
  }

  /** Every pointer is always accessed with the same size. */
  ghost predicate FixedSizes(locs: seq<Loc>) {
    forall i, j :: 0 <= i < |locs| && 0 <= j < |locs| && locs[i].p == locs[j].p ==> locs[i].size == locs[j].size
  }

  lemma {:induction false} FixedSizesAreGuarded(aa: Oracle, locs: seq<Loc>)
    requires FixedSizes(locs)
    ensures EachGuarded(aa, locs)
  {
    hide GrowsWell;
    forall k | 0 <= k < |locs| ensures Guarded(AddedAll(aa, locs[..k]), aa, locs[k]) {
      var s := AddedAll(aa, locs[..k]);
      if locs[k].p in s.sizes {
        var i := AskedBefore(aa, locs[..k], locs[k].p);
        RunAbsorbs(aa, locs[..k], i);
      }
    }
  }

  lemma {:induction false} AskedBefore(aa: Oracle, locs: seq<Loc>, p: Ptr) returns (i: nat)
    requires p in AddedAll(aa, locs).sizes
    ensures i < |locs| && locs[i].p == p
  {
    NothingTracked(aa, locs, p);
    hide *;
    var before, x := locs[..|locs| - 1], locs[|locs| - 1];
    AddedLast(aa, locs);
    if x.p == p {
      i := |locs| - 1;
    } else {
      AddedKeys(AddedAll(aa, before), aa, x);
      i := AskedBefore(aa, before, p);
    }
  }

  lemma NothingTracked(aa: Oracle, locs: seq<Loc>, p: Ptr)
    requires p in AddedAll(aa, locs).sizes
    ensures locs != []
  {
  }

  lemma AddedKeys(s: Partition, aa: Oracle, x: Loc)
    requires WellFormed(s)
    ensures Added(s, aa, x).sizes.Keys == s.sizes.Keys + {x.p}
  {
    var sizes := if x.p in s.sizes then Grown(s.sizes, x) else s.sizes;
    assert Tracked(s.groups, sizes);
    var (g, found) := GatheredGroups(s.groups, sizes, aa, x, s.next);
    hide GatheredGroups;
    if x.p !in s.sizes && found.Some? {
      assert g[found.value].members != [] ==> g[found.value].members[0] in g[found.value].members;
    }
  }
}
