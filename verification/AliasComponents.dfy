/** What alias sets do not do: pointers come together only through answers that they may alias, and a set is a may-alias
    set only if two of its pointers were not told to must-alias. */
module AliasComponents {
  import opened Wrappers
  import opened AliasResults
  import opened AliasLocations
  import opened AliasPartitions
  import opened AliasMemory

  /** These accesses, each within what is recorded for its pointer, are not told apart, asked one way round or the other. */
  ghost predicate LinkedBy(aa: Oracle, sizes: Sizes, p: Ptr, s: Size, q: Ptr, t: Size) {
    && p in sizes && q in sizes && Leq(s, sizes[p]) && Leq(t, sizes[q])
    && (aa(Loc(p, s), Loc(q, t)) != NoAlias || aa(Loc(q, t), Loc(p, s)) != NoAlias)
  }

  /** No link leads from the side to the other pointers. */
  ghost predicate Divides(aa: Oracle, sizes: Sizes, side: set<Ptr>) {
    forall p, s, q, t :: LinkedBy(aa, sizes, p, s, q, t) ==> (p in side <==> q in side)
  }

  ghost predicate SameSide(g: Group, side: set<Ptr>, here: bool) {
    forall p :: p in g.members ==> (p in side <==> here)
  }

  /** No group has pointers on both sides. */
  ghost predicate OneSided(groups: Groups, side: set<Ptr>) {
    forall i :: i in groups ==> SameSide(groups[i], side, true) || SameSide(groups[i], side, false)
  }

  /** Two accesses, each within what is recorded for its pointer, were not told to must-alias. */
  ghost predicate DoubtedBy(aa: Oracle, sizes: Sizes, p: Ptr, s: Size, q: Ptr, t: Size) {
    p in sizes && q in sizes && Leq(s, sizes[p]) && Leq(t, sizes[q]) && aa(Loc(p, s), Loc(q, t)) != MustAlias
  }

  ghost predicate Doubted(g: Group, aa: Oracle, sizes: Sizes) {
    exists p, s, q, t :: p in g.members && q in g.members && p != q && DoubtedBy(aa, sizes, p, s, q, t)
  }

  ghost predicate MaysDoubted(groups: Groups, aa: Oracle, sizes: Sizes) {
    forall i :: i in groups && groups[i].may ==> Doubted(groups[i], aa, sizes)
  }

  // ----- One addition ----------------------------------------------------------------------------

  ghost predicate Within(sizes: Sizes, more: Sizes) {
    forall p :: p in sizes ==> p in more && Leq(sizes[p], more[p])
  }

  lemma LinkStays(aa: Oracle, sizes: Sizes, more: Sizes, side: set<Ptr>)
    requires Within(sizes, more) && Divides(aa, more, side)
    ensures Divides(aa, sizes, side)
  {
    forall p, s, q, t | LinkedBy(aa, sizes, p, s, q, t) ensures p in side <==> q in side {
      assert LinkedBy(aa, more, p, s, q, t);
    }
  }

  lemma DoubtStays(g: Group, aa: Oracle, sizes: Sizes, more: Sizes)
    requires Within(sizes, more) && Doubted(g, aa, sizes)
    ensures Doubted(g, aa, more)
  {
    var p, s, q, t :| p in g.members && q in g.members && p != q && DoubtedBy(aa, sizes, p, s, q, t);
    assert DoubtedBy(aa, more, p, s, q, t);
  }

  /** A group that is said to alias x is on the side of its pointer. */
  lemma HitSide(g: Group, sizes: Sizes, more: Sizes, aa: Oracle, x: Loc, side: set<Ptr>)
    requires Known(g, sizes) && GroupAliases(g, sizes, aa, x) && Within(sizes, more)
    requires x.p in more && Leq(x.size, more[x.p]) && Divides(aa, more, side)
    requires SameSide(g, side, true) || SameSide(g, side, false)
    ensures SameSide(g, side, x.p in side)
  {
    var m: Ptr;
    if g.may {
      var k :| 0 <= k < |g.members| && aa(x, At(sizes, g.members[k])) != NoAlias;
      m := g.members[k];
    } else {
      m := g.members[0];
    }
    assert m in g.members && LinkedBy(aa, more, x.p, x.size, m, sizes[m]);
  }

  lemma GatheredSides(groups: Groups, sizes: Sizes, more: Sizes, aa: Oracle, x: Loc, k: Id, g: Groups, f: Id, side: set<Ptr>)
    requires Tracked(groups, sizes) && IsGathered(groups, sizes, aa, x, k, g, f) && Within(sizes, more)
    requires x.p in more && Leq(x.size, more[x.p]) && Divides(aa, more, side) && OneSided(groups, side)
    ensures OneSided(g, side) && SameSide(g[f], side, x.p in side)
  {
    forall p | p in g[f].members ensures p in side <==> x.p in side {
      assert InHit(groups, sizes, aa, x, k, p);
      var i: Id :| i < k && GroupHit(groups, sizes, aa, x, i) && p in groups[i].members;
      HitSide(groups[i], sizes, more, aa, x, side);
    }
    hide Divides, InHit, GroupHit, Mixed, FirstHit;
  }

  lemma GatheredDoubts(groups: Groups, sizes: Sizes, more: Sizes, aa: Oracle, x: Loc, k: Id, g: Groups, f: Id)
    requires Tracked(groups, sizes) && Separate(groups) && IsGathered(groups, sizes, aa, x, k, g, f) && Within(sizes, more)
    requires MaysDoubted(groups, aa, more)
    ensures MaysDoubted(g, aa, more)
  {
    if g[f].may {
      var i: Id :| i < k && GroupHit(groups, sizes, aa, x, i) && (groups[i].may || (i != f && !ToldMust(groups[f], groups[i], sizes, aa)));
      forall p | p in groups[i].members || p in groups[f].members ensures p in g[f].members {
        assert InHit(groups, sizes, aa, x, k, p);
      }
      hide InHit, Mixed, GroupHit, ToldMust, OthersKept, TakesAll;
      if groups[i].may {
        DoubtSpreads(groups[i], g[f], aa, more);
      } else {
        FirstsDoubted(groups, sizes, more, aa, x, f, i, g[f]);
      }
    }
    hide Doubted, InHit, Mixed, FirstHit, GroupHit, TakesAll;
  }

  lemma DoubtSpreads(a: Group, b: Group, aa: Oracle, sizes: Sizes)
    requires Doubted(a, aa, sizes) && forall p :: p in a.members ==> p in b.members
    ensures Doubted(b, aa, sizes)
  {
    var p, s, q, t :| p in a.members && q in a.members && p != q && DoubtedBy(aa, sizes, p, s, q, t);
    assert p in b.members && q in b.members;
  }

  lemma FirstsDoubted(groups: Groups, sizes: Sizes, more: Sizes, aa: Oracle, x: Loc, i: Id, j: Id, g: Group)
    requires Tracked(groups, sizes) && Separate(groups) && Within(sizes, more) && i != j
    requires GroupHit(groups, sizes, aa, x, i) && GroupHit(groups, sizes, aa, x, j) && !ToldMust(groups[i], groups[j], sizes, aa)
    requires forall p :: p in groups[i].members || p in groups[j].members ==> p in g.members
    ensures Doubted(g, aa, more)
  {
    var p, q := groups[i].members[0], groups[j].members[0];
    assert p in groups[i].members && q in groups[j].members;
    assert p in g.members && q in g.members;
    assert DoubtedBy(aa, more, p, sizes[p], q, sizes[q]);
  }

  /** What is recorded only grows, and takes in the size of the access. */
  lemma AddedWithin(s: Partition, aa: Oracle, x: Loc)
    requires WellFormed(s)
    ensures Within(s.sizes, Added(s, aa, x).sizes) && x.p in Added(s, aa, x).sizes && Leq(x.size, Added(s, aa, x).sizes[x.p])
    ensures x.p in s.sizes ==> Added(s, aa, x).sizes == Grown(s.sizes, x)
  {
    var sizes := if x.p in s.sizes then Grown(s.sizes, x) else s.sizes;
    assert Tracked(s.groups, sizes);
    var (g, found) := GatheredGroups(s.groups, sizes, aa, x, s.next);
    hide GatheredGroups, JoinedSizes, JoinedGroup, Separate, Grouped, Known, Grown, Union, Leq;
    if x.p in s.sizes {
      GrownBounds(s.sizes, x);
    } else if found.Some? {
      JoinedWithin(g[found.value], s.sizes, aa, x);
    } else {
      AloneWithin(s.sizes, x);
    }
    assert forall p :: p in s.sizes ==> Leq(s.sizes[p], s.sizes[p]) by { WithinSelf(s.sizes); }
  }

  lemma WithinSelf(sizes: Sizes)
    ensures Within(sizes, sizes) && forall p :: p in sizes ==> Leq(sizes[p], sizes[p])
  {
  }

  lemma AloneWithin(sizes: Sizes, x: Loc)
    requires x.p !in sizes
    ensures Within(sizes, sizes[x.p := x.size]) && Leq(x.size, x.size)
  {
  }

  lemma JoinedWithin(g: Group, sizes: Sizes, aa: Oracle, x: Loc)
    requires Known(g, sizes) && x.p !in sizes
    ensures Within(sizes, JoinedSizes(g, sizes, aa, x)) && x.p in JoinedSizes(g, sizes, aa, x)
    ensures Leq(x.size, JoinedSizes(g, sizes, aa, x)[x.p])
  {
    if g.members != [] {
      var m := g.members[0];
      assert m in g.members;
      GrownBounds(sizes, Loc(m, x.size));
    }
  }

  lemma AddedSides(s: Partition, aa: Oracle, x: Loc, side: set<Ptr>)
    requires WellFormed(s) && OneSided(s.groups, side) && Divides(aa, Added(s, aa, x).sizes, side)
    ensures OneSided(Added(s, aa, x).groups, side)
  {
    AddedWithin(s, aa, x);
    var more := Added(s, aa, x).sizes;
    var sizes := if x.p in s.sizes then Grown(s.sizes, x) else s.sizes;
    assert Tracked(s.groups, sizes) && Within(sizes, more);
    GroupsGathered(s.groups, sizes, aa, x, s.next);
    var (g, found) := GatheredGroups(s.groups, sizes, aa, x, s.next);
    hide GatheredGroups, IsGathered, Divides, GroupHit;
    if found.Some? {
      GatheredSides(s.groups, sizes, more, aa, x, s.next, g, found.value, side);
      if x.p !in s.sizes {
        JoinedSide(g[found.value], s.sizes, aa, x, side);
      }
    }
    hide SameSide, Grown;
    if x.p !in s.sizes && found.None? {
      AloneSide(x.p, side);
    }
  }

  lemma JoinedSide(g: Group, sizes: Sizes, aa: Oracle, x: Loc, side: set<Ptr>)
    requires Known(g, sizes) && SameSide(g, side, x.p in side)
    ensures SameSide(JoinedGroup(g, sizes, aa, x), side, x.p in side)
  {
  }

  lemma AloneSide(p: Ptr, side: set<Ptr>)
    ensures SameSide(Group(false, [p]), side, p in side)
  {
  }

  lemma AddedDoubts(s: Partition, aa: Oracle, x: Loc)
    requires WellFormed(s) && MaysDoubted(s.groups, aa, s.sizes)
    ensures MaysDoubted(Added(s, aa, x).groups, aa, Added(s, aa, x).sizes)
  {
    AddedWithin(s, aa, x);
    var more := Added(s, aa, x).sizes;
    hide *;
    var g, found := AddedGroups(s, aa, x, more);
    if x.p !in s.sizes {
      if found.Some? {
        JoinedDoubts(g[found.value], s.sizes, more, aa, x);
        OneMay(g, aa, more, found.value, JoinedGroup(g[found.value], s.sizes, aa, x));
      } else {
        OneMay(g, aa, more, s.next, Group(false, [x.p]));
      }
    }
  }

  lemma OneMay(groups: Groups, aa: Oracle, sizes: Sizes, i: Id, g: Group)
    requires MaysDoubted(groups, aa, sizes) && (g.may ==> Doubted(g, aa, sizes))
    ensures MaysDoubted(groups[i := g], aa, sizes)
    ensures i in groups && groups[i].may ==> Doubted(groups[i], aa, sizes)
  {
  }

  /** The groups after gathering, and what the addition then makes of them. */
  lemma AddedGroups(s: Partition, aa: Oracle, x: Loc, more: Sizes) returns (g: Groups, found: Option<Id>)
    requires WellFormed(s) && MaysDoubted(s.groups, aa, s.sizes) && Within(s.sizes, more)
    requires more == Added(s, aa, x).sizes
    ensures MaysDoubted(g, aa, more) && (found.Some? ==> found.value in g && Known(g[found.value], s.sizes))
    ensures x.p !in s.sizes && found.Some? && g[found.value].may ==> Doubted(g[found.value], aa, more)
    ensures x.p in s.sizes ==> Added(s, aa, x).groups == g
    ensures x.p !in s.sizes ==>
              Added(s, aa, x).groups == if found.None? then g[s.next := Group(false, [x.p])]
                                        else g[found.value := JoinedGroup(g[found.value], s.sizes, aa, x)]
  {
    MaysGrow(s.groups, aa, s.sizes, more);
    var sizes := if x.p in s.sizes then Grown(s.sizes, x) else s.sizes;
    assert Tracked(s.groups, sizes) && Within(sizes, more) by {
      AddedWithin(s, aa, x);
    }
    GroupsGathered(s.groups, sizes, aa, x, s.next);
    var r := GatheredGroups(s.groups, sizes, aa, x, s.next);
    g, found := r.0, r.1;
    hide GatheredGroups, IsGathered, MaysDoubted, Doubted, GroupHit, Grown, JoinedGroup, JoinedSizes, Separate, Grouped;
    if x.p in s.sizes && sizes[x.p] == s.sizes[x.p] {
      g, found := s.groups, None;
    } else if found.Some? {
      GatheredDoubts(s.groups, sizes, more, aa, x, s.next, g, found.value);
      OneMay(g, aa, more, found.value, Group(false, []));
    }
  }

  lemma MaysGrow(groups: Groups, aa: Oracle, sizes: Sizes, more: Sizes)
    requires Within(sizes, more) && MaysDoubted(groups, aa, sizes)
    ensures MaysDoubted(groups, aa, more)
  {
    hide Doubted;
    forall i | i in groups && groups[i].may ensures Doubted(groups[i], aa, more) {
      DoubtStays(groups[i], aa, sizes, more);
    }
  }

  lemma JoinedDoubts(g: Group, sizes: Sizes, more: Sizes, aa: Oracle, x: Loc)
    requires Known(g, sizes) && x.p !in sizes && Within(sizes, more) && x.p in more && Leq(x.size, more[x.p])
    requires g.may ==> Doubted(g, aa, more)
    ensures JoinedGroup(g, sizes, aa, x).may ==> Doubted(JoinedGroup(g, sizes, aa, x), aa, more)
  {
    var j := JoinedGroup(g, sizes, aa, x);
    if g.may {
      var p, s, q, t :| p in g.members && q in g.members && p != q && DoubtedBy(aa, more, p, s, q, t);
      assert p in j.members && q in j.members;
    } else if j.may {
      var p := g.members[0];
      assert p in g.members && p in j.members && x.p in j.members;
      assert DoubtedBy(aa, more, p, sizes[p], x.p, x.size);
    }
  }

  // ----- Whole runs --------------------------------------------------------------------------------

  /** Whatever is added: where nothing was ever said to alias across a division of the pointers, no group is on both sides. */
  lemma {:induction false} RunStaysDivided(aa: Oracle, locs: seq<Loc>, side: set<Ptr>)
    requires Divides(aa, AddedAll(aa, locs).sizes, side)
    ensures OneSided(AddedAll(aa, locs).groups, side)
  {
    if locs != [] {
      AddedLast(aa, locs);
      var s, x := AddedAll(aa, locs[..|locs| - 1]), locs[|locs| - 1];
      hide AddedAll, Divides, OneSided, Added;
      AddedWithin(s, aa, x);
      LinkStays(aa, s.sizes, Added(s, aa, x).sizes, side);
      RunStaysDivided(aa, locs[..|locs| - 1], side);
      AddedSides(s, aa, x, side);
    }
  }

  /** Whatever is added: a group is a may-alias group only if two of its pointers were not told to must-alias. */
  lemma {:induction false} RunKeepsMust(aa: Oracle, locs: seq<Loc>)
    ensures MaysDoubted(AddedAll(aa, locs).groups, aa, AddedAll(aa, locs).sizes)
  {
    if locs != [] {
      AddedLast(aa, locs);
      hide AddedAll, MaysDoubted, Added;
      RunKeepsMust(aa, locs[..|locs| - 1]);
      AddedDoubts(AddedAll(aa, locs[..|locs| - 1]), aa, locs[|locs| - 1]);
    }
  }

  /** p and q are connected: every set of tracked pointers that has p, and is told apart from all others, has q. */
  ghost predicate Connected(aa: Oracle, sizes: Sizes, p: Ptr, q: Ptr) {
    forall side: set<Ptr> :: side <= sizes.Keys && p in side && ToldApart(aa, sizes, side) ==> q in side
  }

  ghost predicate ToldApart(aa: Oracle, sizes: Sizes, side: set<Ptr>) {
    forall a, b :: a in side && b in sizes && b !in side && a in sizes ==> aa(At(sizes, a), At(sizes, b)) == NoAlias
  }

  /** With an oracle whose answers can be taken as the conflicts, and additions that keep the guard, the groups are exactly
      what the accesses that may alias connect. */
  lemma GroupsAreComponents(aa: Oracle, locs: seq<Loc>, p: Ptr, q: Ptr)
    requires Sensible(aa) && EachGuarded(aa, locs)
    ensures var s := AddedAll(aa, locs);
            OneGroup(s.groups, p, q) <==> p in s.sizes && q in s.sizes && Connected(aa, s.sizes, p, q)
  {
    var s := AddedAll(aa, locs);
    OwnAnswersAreConsistent(aa);
    RunIsSound(aa, OwnAnswers(aa), locs);
    hide EachGuarded, AddedAll, Sensible, Consistent;
    if OneGroup(s.groups, p, q) {
      var i :| i in s.groups && p in s.groups[i].members && q in s.groups[i].members;
      forall side: set<Ptr> | side <= s.sizes.Keys && p in side && ToldApart(aa, s.sizes, side) ensures q in side {
        ToldApartDivides(aa, s.sizes, side);
        RunStaysDivided(aa, locs, side);
      }
    }
    if p in s.sizes && q in s.sizes && Connected(aa, s.sizes, p, q) {
      assert Grouped(s.groups, p);
      var i :| i in s.groups && p in s.groups[i].members;
      var side := set m | m in s.groups[i].members;
      GroupToldApart(s, aa, i, side);
      assert q in side;
    }
  }

  lemma ToldApartDivides(aa: Oracle, sizes: Sizes, side: set<Ptr>)
    requires Consistent(aa, OwnAnswers(aa)) && side <= sizes.Keys && ToldApart(aa, sizes, side)
    ensures Divides(aa, sizes, side)
  {
    var rel := OwnAnswers(aa);
    forall p, s, q, t | LinkedBy(aa, sizes, p, s, q, t) ensures p in side <==> q in side {
      LinkRecorded(aa, sizes, p, s, q, t);
    }
  }

  lemma LinkRecorded(aa: Oracle, sizes: Sizes, p: Ptr, s: Size, q: Ptr, t: Size)
    requires Consistent(aa, OwnAnswers(aa)) && LinkedBy(aa, sizes, p, s, q, t)
    ensures aa(At(sizes, p), At(sizes, q)) != NoAlias && aa(At(sizes, q), At(sizes, p)) != NoAlias
  {
    var rel := OwnAnswers(aa);
    hide Consistent;
    Symmetric(aa, rel, Loc(p, s), Loc(q, t));
    LargerConflicts(aa, rel, p, s, sizes[p], Loc(q, t));
    LargerConflicts(aa, rel, q, t, sizes[q], At(sizes, p));
    Symmetric(aa, rel, At(sizes, p), At(sizes, q));
  }

  lemma GroupToldApart(s: Partition, aa: Oracle, i: Id, side: set<Ptr>)
    requires WellFormed(s) && Apart(s.groups, s.sizes, OwnAnswers(aa)) && i in s.groups && side == set m | m in s.groups[i].members
    ensures side <= s.sizes.Keys && ToldApart(aa, s.sizes, side)
  {
    assert Known(s.groups[i], s.sizes);
    forall a, b | a in side && b in s.sizes && b !in side && a in s.sizes ensures aa(At(s.sizes, a), At(s.sizes, b)) == NoAlias {
      assert Grouped(s.groups, b);
      var j :| j in s.groups && b in s.groups[j].members;
      assert j != i && a in s.groups[i].members;
    }
  }
}
