/** Memory locations, what an alias oracle says about them, and when it is right. */
module AliasLocations {
  import opened AliasResults

  type Ptr = nat

  // ----- Locations and the alias oracle ------------------------------------------------

  datatype Size = Precise(n: nat) | UpTo(n: nat) | Unknown

  function Union(a: Size, b: Size): Size {
    if a == b then a
    else if a.Unknown? || b.Unknown? then Unknown
    else
      var m := if a.n < b.n then b.n else a.n;
      if m == 0 then Precise(0) else UpTo(m)
  }

  predicate Leq(a: Size, b: Size) {
    b.Unknown? || (!a.Unknown? && a.n <= b.n)
  }

  predicate Empty(s: Size) {
    !s.Unknown? && s.n == 0
  }

  datatype Loc = Loc(p: Ptr, size: Size)

  type Oracle = (Loc, Loc) -> AliasResult
  type Relation = (Loc, Loc) -> bool

  /** Two pointers that no size and no third location tells apart. */
  ghost predicate SameStart(rel: Relation, p: Ptr, q: Ptr) {
    forall s, x :: rel(Loc(p, s), x) <==> rel(Loc(q, s), x)
  }

  /** The oracle is right about the conflicts between locations: NoAlias excludes them, MustAlias is
      about one start and proves a conflict; larger accesses conflict with more, two accesses through
      one pointer always conflict unless they are empty, and empty ones conflict with nothing. */
  ghost predicate Consistent(aa: Oracle, rel: Relation) {
    && (forall a, b :: rel(a, b) ==> rel(b, a))
    && (forall a, b :: aa(a, b) == NoAlias ==> !rel(a, b))
    && (forall a, b :: aa(a, b) == MustAlias ==> rel(a, b) && SameStart(rel, a.p, b.p))
    && (forall p, s, t, x :: Leq(s, t) && rel(Loc(p, s), x) ==> rel(Loc(p, t), x))
    && (forall p, s, t :: !Empty(s) && !Empty(t) ==> rel(Loc(p, s), Loc(p, t)))
    && (forall a: Loc, b: Loc :: Empty(a.size) ==> !rel(a, b))
  }

  lemma NoAliasHolds(aa: Oracle, rel: Relation, a: Loc, b: Loc)
    requires Consistent(aa, rel) && (aa(a, b) == NoAlias || aa(b, a) == NoAlias)
    ensures !rel(a, b) && !rel(b, a)
  {
  }

  lemma ConflictIsSeen(aa: Oracle, rel: Relation, a: Loc, b: Loc)
    requires Consistent(aa, rel) && rel(a, b)
    ensures aa(a, b) != NoAlias && aa(b, a) != NoAlias
  {
  }

  lemma MustAliasHolds(aa: Oracle, rel: Relation, a: Loc, b: Loc)
    requires Consistent(aa, rel) && aa(a, b) == MustAlias
    ensures rel(a, b) && SameStart(rel, a.p, b.p)
  {
  }

  lemma LargerConflicts(aa: Oracle, rel: Relation, p: Ptr, s: Size, t: Size, x: Loc)
    requires Consistent(aa, rel) && Leq(s, t)
    ensures rel(Loc(p, s), x) ==> rel(Loc(p, t), x)
    ensures rel(x, Loc(p, s)) ==> rel(x, Loc(p, t))
    ensures Leq(t, s) ==> (rel(Loc(p, s), x) <==> rel(Loc(p, t), x))
  {
  }

  lemma SelfConflicts(aa: Oracle, rel: Relation, p: Ptr, s: Size, t: Size)
    requires Consistent(aa, rel) && !Empty(s) && !Empty(t)
    ensures rel(Loc(p, s), Loc(p, t))
  {
  }

  lemma Symmetric(aa: Oracle, rel: Relation, a: Loc, b: Loc)
    requires Consistent(aa, rel)
    ensures rel(a, b) <==> rel(b, a)
  {
  }

  lemma SameStartTwice(rel: Relation, p: Ptr, q: Ptr, r: Ptr)
    requires SameStart(rel, p, q) && (SameStart(rel, q, r) || SameStart(rel, r, q))
    ensures SameStart(rel, p, r)
  {
  }
}
