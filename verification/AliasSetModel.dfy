/** Alias sets as values: the records the tracker keeps, its invariants, and the lemmas
    that say what each update of a record does to them. */
module AliasSetModel {
  import opened Wrappers
  import opened AliasResults
  import opened AliasLocations
  import opened AliasPartitions

  // ----- Records -------------------------------------------------------------------------

  datatype Access = Access(ref: bool, mod: bool)

  function Join(a: Access, b: Access): Access {
    Access(a.ref || b.ref, a.mod || b.mod)
  }

  predicate Includes(a: Access, b: Access) {
    (b.ref ==> a.ref) && (b.mod ==> a.mod)
  }

  datatype ASet = ASet(fwd: Option<Id>, may: bool, access: Access, any: bool, members: seq<Ptr>, size: nat, refs: nat)

  datatype Rec = Rec(size: Size, aset: Id)

  type Sets = map<Id, ASet>
  type Ptrs = map<Ptr, Rec>
  type Roots = map<Id, Id>

  function LocOf(ptrs: Ptrs, p: Ptr): Loc
    requires p in ptrs
  {
    Loc(p, ptrs[p].size)
  }

  /** The groups that the live sets are, and the recorded sizes. */
  function GroupsOf(sets: Sets): Groups {
    map i | i in sets && sets[i].fwd.None? :: GroupOf(sets[i])
  }

  function GroupOf(a: ASet): Group {
    Group(a.may, a.members)
  }

  function SizesOf(ptrs: Ptrs): Sizes {
    map p | p in ptrs :: ptrs[p].size
  }

  // ----- Invariants ----------------------------------------------------------------------

  /** Forwarding is well founded, leads to live sets only, and root[i] is where it ends. Before
      saturation a set forwards to one created earlier, afterwards to the set that takes all. */
  ghost predicate Graph(sets: Sets, next: Id, any: Option<Id>, root: Roots) {
    && sets.Keys <= root.Keys
    && (forall i {:trigger Linked(sets, next, any, root, i)} :: i in sets ==> Linked(sets, next, any, root, i))
    && (any.Some? ==> any.value in sets && sets[any.value].fwd.None? && sets[any.value].may)
  }

  ghost predicate Linked(sets: Sets, next: Id, any: Option<Id>, root: Roots, i: Id)
    requires i in sets
  {
    && i < next && i in root && root[i] in sets && sets[root[i]].fwd.None?
    && (sets[i].any <==> any == Some(i))
    && match sets[i].fwd
       case None => root[i] == i
       case Some(f) => f in sets && f in root && f != i && root[f] == root[i] && (f < i || any == Some(f))
  }

  ghost predicate PtrsLive(sets: Sets, ptrs: Ptrs) {
    forall p :: p in ptrs ==> ptrs[p].aset in sets
  }

  ghost predicate NoDup(s: seq<Ptr>) {
    forall j, k :: 0 <= j < k < |s| ==> s[j] != s[k]
  }

  /** Each set lists exactly the pointers that end in it, once each. */
  ghost predicate Contents(sets: Sets, ptrs: Ptrs, root: Roots)
    requires PtrsLive(sets, ptrs) && sets.Keys <= root.Keys
  {
    && (forall i :: i in sets ==> sets[i].size == |sets[i].members| && NoDup(sets[i].members))
    && (forall i, p :: i in sets ==> (p in sets[i].members <==> p in ptrs && root[ptrs[p].aset] == i))
    && (forall i :: i in sets && sets[i].fwd.None? && !sets[i].may ==> sets[i].members != [])
  }

  ghost function PtrRefs(ptrs: Ptrs, i: Id): set<Ptr> {
    set p | p in ptrs && ptrs[p].aset == i
  }

  ghost function FwdRefs(sets: Sets, i: Id): set<Id> {
    set j | j in sets && sets[j].fwd == Some(i)
  }

  ghost function RefCount(sets: Sets, ptrs: Ptrs, i: Id): nat {
    |PtrRefs(ptrs, i)| + |FwdRefs(sets, i)|
  }

  /** Reference counts are exact, but for a surplus of extra on set x. */
  ghost predicate Counts(sets: Sets, ptrs: Ptrs, x: Id, extra: nat) {
    forall i :: i in sets ==> sets[i].refs == RefCount(sets, ptrs, i) + (if i == x then extra else 0)
  }

  /** Every set is still in use. */
  ghost predicate AllUsed(sets: Sets, but: Option<Id>) {
    forall i :: i in sets && but != Some(i) ==> sets[i].refs > 0
  }

  function Weight(a: ASet): nat {
    if a.fwd.None? && a.may then a.size else 0
  }

  /** The summed sizes of the non-forwarding may-alias sets created before n. */
  ghost function MayTotal(sets: Sets, n: Id): nat {
    if n == 0 then 0 else MayTotal(sets, n - 1) + (if n - 1 in sets then Weight(sets[n - 1]) else 0)
  }

  // ----- Reference counts ------------------------------------------------------------------

  /** A set like b but for its reference count. */
  predicate SameButRefs(a: ASet, b: ASet) {
    a == b.(refs := a.refs)
  }

  /** sets' is sets after some forwarding sets, none above top, ran out of references. */
  ghost predicate Shrunk(sets: Sets, sets': Sets, ptrs: Ptrs, top: Id) {
    && (forall k :: k in sets' ==> k in sets && SameButRefs(sets'[k], sets[k]))
    && (forall k :: k in sets && k !in sets' ==> k <= top && sets[k].fwd.Some? && PtrRefs(ptrs, k) == {})
  }

  lemma RefsChange(sets: Sets, ptrs: Ptrs, i: Id, a: ASet)
    requires i in sets && a.fwd == sets[i].fwd
    ensures forall k :: RefCount(sets[i := a], ptrs, k) == RefCount(sets, ptrs, k)
  {
    forall k ensures FwdRefs(sets[i := a], k) == FwdRefs(sets, k) {
    }
  }

  lemma RemovalDrops(sets: Sets, ptrs: Ptrs, i: Id, f: Id)
    requires i in sets && sets[i].fwd == Some(f)
    ensures forall k :: RefCount(sets, ptrs, k) == RefCount(sets - {i}, ptrs, k) + (if k == f then 1 else 0)
  {
    forall k ensures |FwdRefs(sets, k)| == |FwdRefs(sets - {i}, k)| + (if k == f then 1 else 0) {
      if k == f {
        assert FwdRefs(sets, k) == FwdRefs(sets - {i}, k) + {i};
      } else {
        assert FwdRefs(sets, k) == FwdRefs(sets - {i}, k);
      }
    }
  }

  /** Redirecting set i from where it forwards to, if it does, to d. */
  lemma RedirectMoves(sets: Sets, ptrs: Ptrs, i: Id, d: Id)
    requires i in sets && sets[i].fwd != Some(d)
    ensures var s := sets[i := sets[i].(fwd := Some(d))];
            forall k :: RefCount(s, ptrs, k) == RefCount(sets, ptrs, k) + (if k == d then 1 else 0)
                                              - (if sets[i].fwd == Some(k) then 1 else 0)
  {
    var s := sets[i := sets[i].(fwd := Some(d))];
    forall k ensures |FwdRefs(s, k)| == |FwdRefs(sets, k)| + (if k == d then 1 else 0) - (if sets[i].fwd == Some(k) then 1 else 0) {
      if k == d {
        assert FwdRefs(s, k) == FwdRefs(sets, k) + {i};
      } else if sets[i].fwd == Some(k) {
        assert FwdRefs(sets, k) == FwdRefs(s, k) + {i};
      } else {
        assert FwdRefs(s, k) == FwdRefs(sets, k);
      }
    }
  }

  /** Pointing pointer p, tracked or new, to another set. */
  lemma PointerMoves(sets: Sets, ptrs: Ptrs, p: Ptr, r: Rec)
    requires p in ptrs ==> ptrs[p].aset != r.aset
    ensures forall k :: RefCount(sets, ptrs[p := r], k) == RefCount(sets, ptrs, k) + (if k == r.aset then 1 else 0)
                                                         - (if p in ptrs && ptrs[p].aset == k then 1 else 0)
  {
    hide FwdRefs;
    forall k ensures |PtrRefs(ptrs[p := r], k)| == |PtrRefs(ptrs, k)| + (if k == r.aset then 1 else 0)
                                                 - (if p in ptrs && ptrs[p].aset == k then 1 else 0)
    {
      PointerMovesAt(ptrs, p, r, k);
    }
  }

  lemma PointerMovesAt(ptrs: Ptrs, p: Ptr, r: Rec, k: Id)
    requires p in ptrs ==> ptrs[p].aset != r.aset
    ensures |PtrRefs(ptrs[p := r], k)| == |PtrRefs(ptrs, k)| + (if k == r.aset then 1 else 0)
                                        - (if p in ptrs && ptrs[p].aset == k then 1 else 0)
  {
    var s := ptrs[p := r];
    assert p in PtrRefs(s, k) <==> k == r.aset;
    assert p in PtrRefs(ptrs, k) <==> p in ptrs && ptrs[p].aset == k;
    OthersStay(ptrs, p, r, k);
    hide PtrRefs;
    Without(PtrRefs(s, k), p);
    Without(PtrRefs(ptrs, k), p);
  }

  lemma Without(s: set<Ptr>, p: Ptr)
    ensures |s| == |s - {p}| + (if p in s then 1 else 0)
  {
    assert p in s ==> s == s - {p} + {p};
    assert p !in s ==> s == s - {p};
  }

  lemma OthersStay(ptrs: Ptrs, p: Ptr, r: Rec, k: Id)
    ensures PtrRefs(ptrs[p := r], k) - {p} == PtrRefs(ptrs, k) - {p}
  {
  }

  lemma SizeKeepsRefs(sets: Sets, ptrs: Ptrs, p: Ptr, size: Size)
    requires p in ptrs
    ensures forall k :: RefCount(sets, ptrs[p := ptrs[p].(size := size)], k) == RefCount(sets, ptrs, k)
  {
    forall k ensures PtrRefs(ptrs[p := ptrs[p].(size := size)], k) == PtrRefs(ptrs, k) {
    }
  }

  lemma HeldIsCounted(sets: Sets, ptrs: Ptrs, i: Id)
    ensures forall p :: p in ptrs && ptrs[p].aset == i ==> RefCount(sets, ptrs, i) > 0
    ensures forall j :: j in sets && sets[j].fwd == Some(i) ==> RefCount(sets, ptrs, i) > 0
  {
    forall p | p in ptrs && ptrs[p].aset == i ensures RefCount(sets, ptrs, i) > 0 {
      assert p in PtrRefs(ptrs, i);
    }
    forall j | j in sets && sets[j].fwd == Some(i) ensures RefCount(sets, ptrs, i) > 0 {
      assert j in FwdRefs(sets, i);
    }
  }

  // ----- Sums ------------------------------------------------------------------------------

  lemma {:induction false} TotalUpdates(sets: Sets, i: Id, a: ASet, n: Id)
    requires i < n
    ensures MayTotal(sets[i := a], n) == MayTotal(sets, n) + Weight(a) - (if i in sets then Weight(sets[i]) else 0)
    decreases n
  {
    if i < n - 1 {
      TotalUpdates(sets, i, a, n - 1);
    } else {
      TotalAgrees(sets, sets[i := a], n - 1);
    }
  }

  lemma {:induction false} TotalAgrees(sets: Sets, sets': Sets, n: Id)
    requires forall k :: k < n ==> (if k in sets then Weight(sets[k]) else 0) == (if k in sets' then Weight(sets'[k]) else 0)
    ensures MayTotal(sets', n) == MayTotal(sets, n)
    decreases n
  {
    if n > 0 {
      TotalAgrees(sets, sets', n - 1);
    }
  }

  // ----- Following forwarding pointers -------------------------------------------------------

  /** References are sound: what is referred to is alive, and what is alive is referred to. */
  ghost predicate Wired(sets: Sets, ptrs: Ptrs, next: Id, any: Option<Id>, root: Roots) {
    Graph(sets, next, any, root) && PtrsLive(sets, ptrs) && Counts(sets, ptrs, 0, 0) && AllUsed(sets, any)
  }

  /** sets' differs from sets in where forwarding sets point, in counts, and in freed forwarding sets only. */
  ghost predicate Rewired(sets: Sets, sets': Sets) {
    && (forall k :: k in sets' ==> k in sets && sets'[k] == sets[k].(refs := sets'[k].refs, fwd := sets'[k].fwd)
                                   && (sets'[k].fwd.None? <==> sets[k].fwd.None?))
    && (forall k :: k in sets && sets[k].fwd.None? ==> k in sets')
  }

  lemma RewiredTwice(a: Sets, b: Sets, c: Sets)
    requires Rewired(a, b) && Rewired(b, c)
    ensures Rewired(a, c)
  {
  }

  lemma RewiredTotal(sets: Sets, sets': Sets, n: Id)
    requires Rewired(sets, sets')
    ensures MayTotal(sets', n) == MayTotal(sets, n)
  {
    TotalAgrees(sets, sets', n);
  }

  lemma RewiredContents(sets: Sets, sets': Sets, ptrs: Ptrs, root: Roots)
    requires Rewired(sets, sets') && PtrsLive(sets, ptrs) && PtrsLive(sets', ptrs) && sets.Keys <= root.Keys
    requires Contents(sets, ptrs, root)
    ensures Contents(sets', ptrs, root)
  {
  }

  /** The two counts and the pointer that make set i forward to d rather than to f. */
  function Redirected(sets: Sets, i: Id, d: Id): Sets
    requires i in sets && d in sets && i != d
  {
    sets[d := sets[d].(refs := sets[d].refs + 1)][i := sets[i].(fwd := Some(d))]
  }

  lemma RedirectWires(sets: Sets, ptrs: Ptrs, next: Id, any: Option<Id>, root: Roots, i: Id, f: Id, d: Id)
    requires Wired(sets, ptrs, next, any, root) && i in sets && sets[i].fwd == Some(f)
    requires i in root && d == root[i] && d in sets && d != f && d != i
    ensures var s := Redirected(sets, i, d);
            && Graph(s, next, any, root) && PtrsLive(s, ptrs) && Counts(s, ptrs, f, 1) && AllUsed(s, any)
            && Rewired(sets, s) && s[i].fwd == Some(d) && f in s && f in root && root[f] == d && f < i
  {
    hide Graph, Counts, RefCount;
    LinkedSet(sets, ptrs, next, any, root, i);
    LinkedSet(sets, ptrs, next, any, root, f);
    RedirectCounts(sets, ptrs, i, f, d);
    RedirectKeepsGraph(sets, Redirected(sets, i, d), next, any, root, i, d);
  }

  lemma LinkedSet(sets: Sets, ptrs: Ptrs, next: Id, any: Option<Id>, root: Roots, i: Id)
    requires Graph(sets, next, any, root) && i in sets
    ensures i in root && root[i] in sets && sets[root[i]].fwd.None?
    ensures sets[i].fwd.None? ==> root[i] == i
    ensures sets[i].fwd.Some? ==>
              var f := sets[i].fwd.value;
              f in sets && f in root && f != i && root[f] == root[i] && (f < i || (any == Some(f) && sets[f].fwd.None?))
  {
    assert Linked(sets, next, any, root, i);
  }

  lemma RedirectCounts(sets: Sets, ptrs: Ptrs, i: Id, f: Id, d: Id)
    requires i in sets && d in sets && i != d && d != f && sets[i].fwd == Some(f) && Counts(sets, ptrs, 0, 0)
    ensures Counts(Redirected(sets, i, d), ptrs, f, 1)
  {
    hide RefCount;
    var s1 := sets[d := sets[d].(refs := sets[d].refs + 1)];
    RefsChange(sets, ptrs, d, s1[d]);
    RedirectMoves(s1, ptrs, i, d);
    assert Redirected(sets, i, d) == s1[i := s1[i].(fwd := Some(d))];
  }

  lemma RedirectKeepsGraph(sets: Sets, s: Sets, next: Id, any: Option<Id>, root: Roots, i: Id, d: Id)
    requires Graph(sets, next, any, root) && i in sets && sets[i].fwd.Some? && i in root && d == root[i] && d in sets && d != i
    requires s == Redirected(sets, i, d)
    ensures Graph(s, next, any, root)
  {
    assert Linked(sets, next, any, root, i) && Linked(sets, next, any, root, d);
    RootBefore(sets, next, any, root, i);
    forall k | k in s ensures Linked(s, next, any, root, k) {
      assert Linked(sets, next, any, root, k);
    }
  }

  /** Forwarding leads to earlier sets, or to the one that takes all. */
  lemma {:induction false} RootBefore(sets: Sets, next: Id, any: Option<Id>, root: Roots, i: Id)
    requires Graph(sets, next, any, root) && i in sets && sets[i].fwd.Some?
    ensures i in root && (root[i] < i || any == Some(root[i]))
    decreases i
  {
    assert Linked(sets, next, any, root, i);
    var f := sets[i].fwd.value;
    assert Linked(sets, next, any, root, f);
    if sets[f].fwd.Some? {
      RootBefore(sets, next, any, root, f);
    }
  }

  // ----- Merging two sets ----------------------------------------------------------------------

  /** What holds of the sets at all times: references and contents. */
  ghost predicate Core(sets: Sets, ptrs: Ptrs, next: Id, any: Option<Id>, root: Roots) {
    Wired(sets, ptrs, next, any, root) && Contents(sets, ptrs, root)
  }

  /** Set j merged into set i; must is whether the oracle says that their first pointers must-alias. */
  function MergedSets(sets: Sets, i: Id, j: Id, must: bool): Sets
    requires i in sets && j in sets && i != j
  {
    var a, b := sets[i], sets[j];
    sets[i := a.(may := a.may || b.may || !must, access := Join(a.access, b.access), members := a.members + b.members,
                 size := a.size + b.size, refs := a.refs + 1)]
        [j := b.(fwd := Some(i), members := [], size := 0)]
  }

  ghost function MergedRoots(root: Roots, i: Id, j: Id): Roots {
    map k | k in root :: if root[k] == j then i else root[k]
  }

  ghost predicate MayMerge(sets: Sets, any: Option<Id>, i: Id, j: Id) {
    && i in sets && j in sets && i != j && sets[i].fwd.None? && sets[j].fwd.None?
    && any != Some(j) && (i < j || any == Some(i))
  }

  lemma MergeKeepsGraph(sets: Sets, next: Id, any: Option<Id>, root: Roots, i: Id, j: Id, must: bool)
    requires Graph(sets, next, any, root) && MayMerge(sets, any, i, j)
    ensures Graph(MergedSets(sets, i, j, must), next, any, MergedRoots(root, i, j))
  {
    var s, r := MergedSets(sets, i, j, must), MergedRoots(root, i, j);
    assert Linked(sets, next, any, root, i) && Linked(sets, next, any, root, j);
    forall k | k in s ensures Linked(s, next, any, r, k) {
      assert Linked(sets, next, any, root, k);
    }
  }

  lemma MergeCounts(sets: Sets, ptrs: Ptrs, i: Id, j: Id, must: bool)
    requires Counts(sets, ptrs, 0, 0) && i in sets && j in sets && i != j && sets[j].fwd.None? && sets[i].fwd.None?
    ensures Counts(MergedSets(sets, i, j, must), ptrs, 0, 0)
  {
    hide RefCount;
    var a, b := sets[i], sets[j];
    var s1 := sets[i := MergedSets(sets, i, j, must)[i]];
    RefsChange(sets, ptrs, i, s1[i]);
    var s2 := s1[j := b.(fwd := Some(i))];
    RedirectMoves(s1, ptrs, j, i);
    RefsChange(s2, ptrs, j, b.(fwd := Some(i), members := [], size := 0));
    assert MergedSets(sets, i, j, must) == s2[j := b.(fwd := Some(i), members := [], size := 0)];
  }

  lemma MergeContents(sets: Sets, ptrs: Ptrs, root: Roots, i: Id, j: Id, must: bool)
    requires PtrsLive(sets, ptrs) && sets.Keys <= root.Keys && Contents(sets, ptrs, root)
    requires i in sets && j in sets && i != j
    ensures Contents(MergedSets(sets, i, j, must), ptrs, MergedRoots(root, i, j))
  {
    var s, r := MergedSets(sets, i, j, must), MergedRoots(root, i, j);
    var a, b := sets[i].members, sets[j].members;
    assert NoDup(a + b) by {
      assert NoDup(a) && NoDup(b);
      forall x, y | 0 <= x < |a| && 0 <= y < |b| ensures a[x] != b[y] {
        var p, q := a[x], b[y];
        assert p in sets[i].members && root[ptrs[p].aset] == i;
        assert q in sets[j].members && root[ptrs[q].aset] == j;
      }
    }
  }

  lemma MergeTotal(sets: Sets, i: Id, j: Id, must: bool, n: Id)
    requires i in sets && j in sets && i != j && i < n && j < n && sets[i].fwd.None? && sets[j].fwd.None?
    ensures MayTotal(MergedSets(sets, i, j, must), n)
         == MayTotal(sets, n) + if sets[i].may || sets[j].may || !must then
                                  (if sets[i].may then 0 else sets[i].size) + (if sets[j].may then 0 else sets[j].size)
                                else 0
  {
    var s := MergedSets(sets, i, j, must);
    TotalUpdates(sets, i, s[i], n);
    TotalUpdates(sets[i := s[i]], j, s[j], n);
    assert s == sets[i := s[i]][j := s[j]];
  }

  lemma MergeKeeps(sets: Sets, ptrs: Ptrs, next: Id, any: Option<Id>, root: Roots, i: Id, j: Id, must: bool)
    requires Core(sets, ptrs, next, any, root) && MayMerge(sets, any, i, j)
    ensures Core(MergedSets(sets, i, j, must), ptrs, next, any, MergedRoots(root, i, j))
  {
    hide Graph, Counts, Contents, Linked;
    LinkedSet(sets, ptrs, next, any, root, i);
    MergeKeepsGraph(sets, next, any, root, i, j, must);
    MergeCounts(sets, ptrs, i, j, must);
    WiredKeys(sets, ptrs, next, any, root);
    MergeContents(sets, ptrs, root, i, j, must);
  }

  lemma WiredKeys(sets: Sets, ptrs: Ptrs, next: Id, any: Option<Id>, root: Roots)
    requires Wired(sets, ptrs, next, any, root)
    ensures sets.Keys <= root.Keys && PtrsLive(sets, ptrs)
    ensures forall k :: k in sets ==> k < next
  {
    forall k | k in sets ensures k < next {
      assert Linked(sets, next, any, root, k);
    }
  }

  // ----- Asking whether a set aliases a location --------------------------------------------------

  /** What aliasesPointer answers for a set. */
  predicate Aliases(a: ASet, ptrs: Ptrs, aa: Oracle, x: Loc)
    requires forall q :: q in a.members ==> q in ptrs
  {
    a.any ||
    (if a.may then exists k :: 0 <= k < |a.members| && aa(x, LocOf(ptrs, a.members[k])) != NoAlias
     else a.members != [] && aa(LocOf(ptrs, a.members[0]), x) != NoAlias)
  }

  // ----- Adding a pointer to a set ------------------------------------------------------------------

  /** The records after pointer p, of the given size, joined set i; result is what the oracle said
      about p and the first pointer of a must-alias set. */
  function JoinedPtrs(sets: Sets, ptrs: Ptrs, i: Id, p: Ptr, size: Size, result: AliasResult): Ptrs
    requires i in sets && forall q :: q in sets[i].members ==> q in ptrs
  {
    var a := sets[i];
    var grown := if !a.may && a.members != [] && result == MustAlias then
                   ptrs[a.members[0] := ptrs[a.members[0]].(size := Union(ptrs[a.members[0]].size, size))]
                 else ptrs;
    grown[p := Rec(size, i)]
  }

  function JoinedSets(sets: Sets, i: Id, p: Ptr, result: AliasResult): Sets
    requires i in sets
  {
    var a := sets[i];
    sets[i := a.(may := a.may || (a.members != [] && result != MustAlias), members := a.members + [p],
                 size := a.size + 1, refs := a.refs + 1)]
  }

  lemma JoinCounts(sets: Sets, ptrs: Ptrs, i: Id, p: Ptr, size: Size, result: AliasResult)
    requires Counts(sets, ptrs, 0, 0) && i in sets && p !in ptrs && forall q :: q in sets[i].members ==> q in ptrs
    ensures Counts(JoinedSets(sets, i, p, result), JoinedPtrs(sets, ptrs, i, p, size, result), 0, 0)
  {
    hide RefCount;
    var grown := JoinedPtrs(sets, ptrs, i, p, size, result) - {p};
    var a := sets[i];
    if !a.may && a.members != [] && result == MustAlias {
      var f := a.members[0];
      SizeKeepsRefs(sets, ptrs, f, Union(ptrs[f].size, size));
      assert grown == ptrs[f := ptrs[f].(size := Union(ptrs[f].size, size))];
    } else {
      assert grown == ptrs;
    }
    PointerMoves(sets, grown, p, Rec(size, i));
    assert grown[p := Rec(size, i)] == JoinedPtrs(sets, ptrs, i, p, size, result);
    RefsChange(sets, JoinedPtrs(sets, ptrs, i, p, size, result), i, JoinedSets(sets, i, p, result)[i]);
  }

  lemma JoinContents(sets: Sets, ptrs: Ptrs, root: Roots, i: Id, p: Ptr, size: Size, result: AliasResult)
    requires PtrsLive(sets, ptrs) && sets.Keys <= root.Keys && Contents(sets, ptrs, root)
    requires i in sets && root[i] == i && p !in ptrs
    ensures forall q :: q in sets[i].members ==> q in ptrs
    ensures var s, m := JoinedSets(sets, i, p, result), JoinedPtrs(sets, ptrs, i, p, size, result);
            PtrsLive(s, m) && Contents(s, m, root)
  {
    var s, m := JoinedSets(sets, i, p, result), JoinedPtrs(sets, ptrs, i, p, size, result);
    assert forall q :: q in ptrs ==> q in m && m[q].aset == ptrs[q].aset;
    assert forall q :: q in m ==> q in ptrs || q == p;
    assert NoDup(s[i].members);
    forall k, q | k in s ensures q in s[k].members <==> q in m && root[m[q].aset] == k {
      assert q in sets[k].members <==> q in ptrs && root[ptrs[q].aset] == k;
    }
  }

  lemma JoinTotal(sets: Sets, i: Id, p: Ptr, result: AliasResult, n: Id)
    requires i in sets && i < n && sets[i].fwd.None?
    ensures var s := JoinedSets(sets, i, p, result);
            MayTotal(s, n) == MayTotal(sets, n) + (if !s[i].may then 0 else if sets[i].may then 1 else sets[i].size + 1)
  {
    TotalUpdates(sets, i, JoinedSets(sets, i, p, result)[i], n);
  }
}
