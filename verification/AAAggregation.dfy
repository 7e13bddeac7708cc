/** The aggregate of alias analyses: it asks all of them and combines what they say. */
module AAAggregation {
  import opened AliasResults
  import opened ModRefs

  class AAResults {
    const aas: seq<Analysis>
    const args: Call -> seq<bool>         // for each argument of a call, whether it is a pointer
    const argLoc: (Call, nat) -> Loc      // the location that a pointer argument gives access to

    constructor (aas: seq<Analysis>, args: Call -> seq<bool>, argLoc: (Call, nat) -> Loc)
      ensures this.aas == aas && this.args == args && this.argLoc == argLoc
    {
      this.aas, this.args, this.argLoc := aas, args, argLoc;
    }

    // ----- What the combined answers are ---------------------------------------------------------

    /** The first answer from analysis k on that is not MayAlias. */
    ghost function AliasFrom(k: nat, a: Loc, b: Loc): AliasResult
      requires k <= |aas|
      decreases |aas| - k
    {
      if k == |aas| then MayAlias
      else if aas[k].alias(a, b) != MayAlias then aas[k].alias(a, b)
      else AliasFrom(k + 1, a, b)
    }

    ghost predicate Aliases(a: Loc, b: Loc) {
      AliasFrom(0, a, b) != NoAlias
    }

    ghost predicate Constant(l: Loc) {
      exists k :: 0 <= k < |aas| && aas[k].constant(l)
    }

    ghost predicate ArgMod(c: Call, i: nat) {
      forall k :: 0 <= k < |aas| ==> aas[k].argModRef(c, i).mod
    }

    ghost predicate ArgRef(c: Call, i: nat) {
      forall k :: 0 <= k < |aas| ==> aas[k].argModRef(c, i).ref
    }

    /** What all analyses agree that a call may do. */
    ghost function BehaviorOf(c: Call): Behavior {
      BehaviorUpTo(|aas|, c)
    }

    ghost function BehaviorUpTo(n: nat, c: Call): Behavior
      requires n <= |aas|
    {
      if n == 0 then UNKNOWN_BEHAVIOR else Both(BehaviorUpTo(n - 1, c), aas[n - 1].behavior(c))
    }

    ghost predicate PointerArg(c: Call, i: nat) {
      i < |args(c)| && args(c)[i]
    }

    /** All analyses say that c may write l; if it works through its arguments only, some argument that may alias l
        may be written; and l is not constant. */
    ghost predicate LocMod(c: Call, l: Loc) {
      && (forall k :: 0 <= k < |aas| ==> aas[k].callLoc(c, l).mod)
      && BehaviorOf(c).mod && ThroughArgs(c, l, true) && !Constant(l)
    }

    ghost predicate LocRef(c: Call, l: Loc) {
      && (forall k :: 0 <= k < |aas| ==> aas[k].callLoc(c, l).ref)
      && (BehaviorOf(c).ref || !BehaviorOf(c).mod) && BehaviorOf(c) != DOES_NOT_ACCESS_MEMORY && ThroughArgs(c, l, false)
    }

    ghost predicate ThroughArgs(c: Call, l: Loc, mod: bool) {
      BehaviorOf(c).other
      || (DoesAccessArgPointees(BehaviorOf(c)) && exists i :: 0 <= i < |args(c)| && ArgTouches(c, i, l, mod))
    }

    ghost predicate ArgTouches(c: Call, i: nat, l: Loc, mod: bool) {
      PointerArg(c, i) && Aliases(argLoc(c, i), l) && if mod then ArgMod(c, i) else ArgRef(c, i)
    }

    /** Argument i of c2 makes c1's writing matter, or (with mod false) its reading. */
    ghost predicate DependsOn(c1: Call, c2: Call, i: nat, mod: bool) {
      PointerArg(c2, i) &&
      if mod then (ArgMod(c2, i) || ArgRef(c2, i)) && LocMod(c1, argLoc(c2, i))
      else ArgMod(c2, i) && LocRef(c1, argLoc(c2, i))
    }

    /** Argument i of c1 is written (with mod false: read) and what is done with it matters to c2. */
    ghost predicate Provides(c1: Call, c2: Call, i: nat, mod: bool) {
      && PointerArg(c1, i) && (if mod then ArgMod(c1, i) else ArgRef(c1, i))
      && ((ArgMod(c1, i) && (LocMod(c2, argLoc(c1, i)) || LocRef(c2, argLoc(c1, i))))
          || (ArgRef(c1, i) && LocMod(c2, argLoc(c1, i))))
    }

    ghost predicate BetweenCalls(c1: Call, c2: Call, mod: bool) {
      var b1, b2 := BehaviorOf(c1), BehaviorOf(c2);
      && b1 != DOES_NOT_ACCESS_MEMORY && b2 != DOES_NOT_ACCESS_MEMORY && !(OnlyReadsMemory(b1) && OnlyReadsMemory(b2))
      && (if mod then b1.mod else b1.ref || !b1.mod)
      && if OnlyAccessesArgPointees(b2) then DoesAccessArgPointees(b2) && exists i :: 0 <= i < |args(c2)| && DependsOn(c1, c2, i, mod)
         else if OnlyAccessesArgPointees(b1) then DoesAccessArgPointees(b1) && exists i :: 0 <= i < |args(c1)| && Provides(c1, c2, i, mod)
         else true
    }

    ghost predicate CallMod(c1: Call, c2: Call) {
      (forall k :: 0 <= k < |aas| ==> aas[k].callCall(c1, c2).mod) && BetweenCalls(c1, c2, true)
    }

    ghost predicate CallRef(c1: Call, c2: Call) {
      (forall k :: 0 <= k < |aas| ==> aas[k].callCall(c1, c2).ref) && BetweenCalls(c1, c2, false)
    }

    // ----- What the analyses say, one by one ------------------------------------------------------------

    /** No analysis says that c does not write. */
    ghost predicate Writes(c: Call) {
      forall k :: 0 <= k < |aas| ==> aas[k].behavior(c).mod
    }

    ghost predicate Reads(c: Call) {
      forall k :: 0 <= k < |aas| ==> aas[k].behavior(c).ref
    }

    /** No analysis says that c does not come by memory through its arguments. */
    ghost predicate UsesArgs(c: Call) {
      forall k :: 0 <= k < |aas| ==> aas[k].behavior(c).args
    }

    ghost predicate UsesHidden(c: Call) {
      forall k :: 0 <= k < |aas| ==> aas[k].behavior(c).inaccessible
    }

    ghost predicate UsesOther(c: Call) {
      forall k :: 0 <= k < |aas| ==> aas[k].behavior(c).other
    }

    /** Some analysis says that c uses no memory that no location names, and some that it uses none by other ways
        than its arguments. */
    ghost predicate OnlyByArgs(c: Call) {
      !UsesHidden(c) && !UsesOther(c)
    }

    /** All analyses leave it open that c accesses memory through its arguments. */
    ghost predicate AccessesByArgs(c: Call) {
      (Writes(c) || Reads(c)) && UsesArgs(c)
    }

    /** Analysis k is the first that has more to say about a and b than MayAlias. */
    ghost predicate FirstToTell(k: nat, a: Loc, b: Loc) {
      k < |aas| && aas[k].alias(a, b) != MayAlias && forall j :: 0 <= j < k ==> aas[j].alias(a, b) == MayAlias
    }

    /** The first analysis with more to say than MayAlias does not say NoAlias, if there is one. */
    ghost predicate NotApart(a: Loc, b: Loc) {
      forall k: nat :: FirstToTell(k, a, b) ==> aas[k].alias(a, b) != NoAlias
    }

    /** Through some pointer argument that is not apart from l, all analyses say, c may write (or read). */
    ghost predicate SomeArgTouches(c: Call, l: Loc, mod: bool) {
      exists i: nat :: PointerArg(c, i) && NotApart(argLoc(c, i), l)
                       && forall k :: 0 <= k < |aas| ==> if mod then aas[k].argModRef(c, i).mod else aas[k].argModRef(c, i).ref
    }

    /** Behind some pointer argument of c2, which it may access, c1 may write; or c2 may write and c1 may read. */
    ghost predicate SecondMatters(c1: Call, c2: Call, mod: bool) {
      exists i: nat :: PointerArg(c2, i) &&
                       if mod then (ArgMod(c2, i) || ArgRef(c2, i)) && LocMod(c1, argLoc(c2, i))
                       else ArgMod(c2, i) && LocRef(c1, argLoc(c2, i))
    }

    /** Behind some pointer argument of c1, which it may write, c2 may write or read; or c1 may read and c2 write, or c1
        may read and write and c2 read. */
    ghost predicate FirstMatters(c1: Call, c2: Call, mod: bool) {
      exists i: nat :: PointerArg(c1, i) &&
                       if mod then ArgMod(c1, i) && (LocMod(c2, argLoc(c1, i)) || LocRef(c2, argLoc(c1, i)))
                       else ArgRef(c1, i) && (LocMod(c2, argLoc(c1, i)) || (ArgMod(c1, i) && LocRef(c2, argLoc(c1, i))))
    }

    /** When a location may be written (or read) by a call, in terms of what each analysis says. */
    lemma LocationAnswer(c: Call, l: Loc)
      ensures LocMod(c, l) <==>
           && (forall k :: 0 <= k < |aas| ==> aas[k].callLoc(c, l).mod && !aas[k].constant(l)) && Writes(c)
           && (UsesOther(c) || (AccessesByArgs(c) && SomeArgTouches(c, l, true)))
      ensures LocRef(c, l) <==>
           && (forall k :: 0 <= k < |aas| ==> aas[k].callLoc(c, l).ref) && (Reads(c) || !Writes(c))
           && (UsesOther(c) || (AccessesByArgs(c) && SomeArgTouches(c, l, false)))
    {
      BehaviorIs(c);
      ArgsTouch(c, l, true);
      ArgsTouch(c, l, false);
      hide SomeArgTouches, ArgTouches, Writes, Reads, UsesArgs, UsesHidden, UsesOther, BehaviorOf;
    }

    lemma ArgsTouch(c: Call, l: Loc, mod: bool)
      ensures SomeArgTouches(c, l, mod) <==> exists i :: 0 <= i < |args(c)| && ArgTouches(c, i, l, mod)
    {
      hide NotApart, AliasFrom;
      forall i: nat ensures Aliases(argLoc(c, i), l) <==> NotApart(argLoc(c, i), l) {
        AliasIsFirst(0, argLoc(c, i), l);
      }
      hide Aliases;
      if SomeArgTouches(c, l, mod) {
        var i: nat :| PointerArg(c, i) && NotApart(argLoc(c, i), l)
                      && forall k :: 0 <= k < |aas| ==> if mod then aas[k].argModRef(c, i).mod else aas[k].argModRef(c, i).ref;
        assert ArgTouches(c, i, l, mod);
      }
    }

    /** When two calls may get into each other's way, in these terms and those of calls and locations. */
    lemma CallsAnswer(c1: Call, c2: Call)
      ensures CallMod(c1, c2) <==>
           && (forall k :: 0 <= k < |aas| ==> aas[k].callCall(c1, c2).mod) && Writes(c1)
           && (OnlyByArgs(c2) ==> AccessesByArgs(c2) && SecondMatters(c1, c2, true))
           && (OnlyByArgs(c1) && !OnlyByArgs(c2) ==> AccessesByArgs(c1) && FirstMatters(c1, c2, true))
      ensures CallRef(c1, c2) <==>
           && (forall k :: 0 <= k < |aas| ==> aas[k].callCall(c1, c2).ref) && (Reads(c1) || !Writes(c1)) && (Writes(c1) || Writes(c2))
           && (OnlyByArgs(c2) ==> AccessesByArgs(c2) && SecondMatters(c1, c2, false))
           && (OnlyByArgs(c1) && !OnlyByArgs(c2) ==> AccessesByArgs(c1) && FirstMatters(c1, c2, false))
    {
      BehaviorIs(c1);
      BehaviorIs(c2);
      SecondWitness(c1, c2, true);
      SecondWitness(c1, c2, false);
      FirstWitness(c1, c2, true);
      FirstWitness(c1, c2, false);
      SecondNeedsFirst(c1, c2);
      hide Writes, Reads, UsesArgs, UsesHidden, UsesOther, BehaviorOf, SecondMatters, FirstMatters, DependsOn, Provides;
    }

    lemma SecondNeedsFirst(c1: Call, c2: Call)
      ensures SecondMatters(c1, c2, false) ==> BehaviorOf(c1) != DOES_NOT_ACCESS_MEMORY
    {
    }

    lemma SecondWitness(c1: Call, c2: Call, mod: bool)
      ensures (exists i :: 0 <= i < |args(c2)| && DependsOn(c1, c2, i, mod)) <==> SecondMatters(c1, c2, mod)
    {
      hide ArgMod, ArgRef, LocMod, LocRef;
      if SecondMatters(c1, c2, mod) {
        var i: nat :| PointerArg(c2, i) &&
                      if mod then (ArgMod(c2, i) || ArgRef(c2, i)) && LocMod(c1, argLoc(c2, i))
                      else ArgMod(c2, i) && LocRef(c1, argLoc(c2, i));
        assert DependsOn(c1, c2, i, mod);
      }
    }

    lemma FirstWitness(c1: Call, c2: Call, mod: bool)
      ensures (exists i :: 0 <= i < |args(c1)| && Provides(c1, c2, i, mod)) <==> FirstMatters(c1, c2, mod)
    {
      hide ArgMod, ArgRef, LocMod, LocRef;
      if FirstMatters(c1, c2, mod) {
        var i: nat :| PointerArg(c1, i) &&
                      if mod then ArgMod(c1, i) && (LocMod(c2, argLoc(c1, i)) || LocRef(c2, argLoc(c1, i)))
                      else ArgRef(c1, i) && (LocMod(c2, argLoc(c1, i)) || (ArgMod(c1, i) && LocRef(c2, argLoc(c1, i))));
        assert Provides(c1, c2, i, mod);
      }
    }

    // ----- Asking ------------------------------------------------------------------------------------

    method Alias(a: Loc, b: Loc) returns (r: AliasResult)
      ensures r == AliasFrom(0, a, b)
      ensures r == MayAlias <==> forall k :: 0 <= k < |aas| ==> aas[k].alias(a, b) == MayAlias
      ensures forall k: nat :: FirstToTell(k, a, b) ==> r == aas[k].alias(a, b)
    {
      for k := 0 to |aas|
        invariant AliasFrom(0, a, b) == AliasFrom(k, a, b)
        invariant forall j :: 0 <= j < k ==> aas[j].alias(a, b) == MayAlias
      {
        var result := aas[k].alias(a, b);
        if result != MayAlias {
          return result;
        }
      }
      return MayAlias;
    }

    method PointsToConstantMemory(l: Loc) returns (r: bool)
      ensures r <==> exists k :: 0 <= k < |aas| && aas[k].constant(l)
      ensures r <==> Constant(l)
    {
      for k := 0 to |aas|
        invariant forall j :: 0 <= j < k ==> !aas[j].constant(l)
      {
        if aas[k].constant(l) {
          return true;
        }
      }
      return false;
    }

    method GetArgModRefInfo(c: Call, i: nat) returns (r: ModRefInfo)
      ensures r.mod <==> forall k :: 0 <= k < |aas| ==> aas[k].argModRef(c, i).mod
      ensures r.ref <==> forall k :: 0 <= k < |aas| ==> aas[k].argModRef(c, i).ref
      ensures (r.mod <==> ArgMod(c, i)) && (r.ref <==> ArgRef(c, i))
    {
      r := MOD_REF;
      for k := 0 to |aas|
        invariant r.mod <==> forall j :: 0 <= j < k ==> aas[j].argModRef(c, i).mod
        invariant r.ref <==> forall j :: 0 <= j < k ==> aas[j].argModRef(c, i).ref
      {
        r := Intersect(r, aas[k].argModRef(c, i));
        if IsNoModRef(r) {
          return NO_MOD_REF;
        }
      }
    }

    method GetModRefBehavior(c: Call) returns (r: Behavior)
      ensures r == BehaviorOf(c)
      ensures r == Behavior(Writes(c), Reads(c), UsesArgs(c), UsesHidden(c), UsesOther(c))
    {
      BehaviorBits(|aas|, c);
      r := UNKNOWN_BEHAVIOR;
      for k := 0 to |aas|
        invariant r == BehaviorUpTo(k, c)
      {
        r := Both(r, aas[k].behavior(c));
        if r == DOES_NOT_ACCESS_MEMORY {
          NothingLeft(k + 1, |aas|, c);
          return;
        }
      }
    }

    lemma {:induction false} BehaviorBits(n: nat, c: Call)
      requires n <= |aas|
      ensures var b := BehaviorUpTo(n, c);
              && (b.mod <==> forall k :: 0 <= k < n ==> aas[k].behavior(c).mod)
              && (b.ref <==> forall k :: 0 <= k < n ==> aas[k].behavior(c).ref)
              && (b.args <==> forall k :: 0 <= k < n ==> aas[k].behavior(c).args)
              && (b.inaccessible <==> forall k :: 0 <= k < n ==> aas[k].behavior(c).inaccessible)
              && (b.other <==> forall k :: 0 <= k < n ==> aas[k].behavior(c).other)
    {
      if n > 0 {
        BehaviorBits(n - 1, c);
      }
    }

    lemma BehaviorIs(c: Call)
      ensures BehaviorOf(c) == Behavior(Writes(c), Reads(c), UsesArgs(c), UsesHidden(c), UsesOther(c))
    {
      BehaviorBits(|aas|, c);
    }

    lemma {:induction false} AliasIsFirst(k: nat, a: Loc, b: Loc)
      requires k <= |aas| && forall j :: 0 <= j < k ==> aas[j].alias(a, b) == MayAlias
      ensures AliasFrom(k, a, b) != NoAlias <==> NotApart(a, b)
      decreases |aas| - k
    {
      if k < |aas| && aas[k].alias(a, b) == MayAlias {
        AliasIsFirst(k + 1, a, b);
      } else {
        assert k < |aas| ==> FirstToTell(k, a, b);
        assert forall j: nat :: FirstToTell(j, a, b) ==> j == k;
      }
    }

    lemma {:induction false} NothingLeft(k: nat, n: nat, c: Call)
      requires k <= n <= |aas| && BehaviorUpTo(k, c) == DOES_NOT_ACCESS_MEMORY
      ensures BehaviorUpTo(n, c) == DOES_NOT_ACCESS_MEMORY
    {
      if k < n {
        NothingLeft(k, n - 1, c);
      }
    }

    // ----- A call and a location -----------------------------------------------------------------------

    method GetCallLocation(c: Call, l: Loc) returns (r: ModRefInfo)
      ensures (r.mod <==> LocMod(c, l)) && (r.ref <==> LocRef(c, l))
      ensures r.mod <==>
           && (forall k :: 0 <= k < |aas| ==> aas[k].callLoc(c, l).mod && !aas[k].constant(l)) && Writes(c)
           && (UsesOther(c) || (AccessesByArgs(c) && SomeArgTouches(c, l, true)))
      ensures r.ref <==>
           && (forall k :: 0 <= k < |aas| ==> aas[k].callLoc(c, l).ref) && (Reads(c) || !Writes(c))
           && (UsesOther(c) || (AccessesByArgs(c) && SomeArgTouches(c, l, false)))
    {
      LocationAnswer(c, l);
      hide Writes, Reads, UsesArgs, UsesHidden, UsesOther, SomeArgTouches;
      hide Aliases, Constant, ArgMod, ArgRef, BehaviorOf, AliasFrom;
      r := MOD_REF;
      for k := 0 to |aas|
        invariant r.mod <==> forall j :: 0 <= j < k ==> aas[j].callLoc(c, l).mod
        invariant r.ref <==> forall j :: 0 <= j < k ==> aas[j].callLoc(c, l).ref
      {
        r := Intersect(r, aas[k].callLoc(c, l));
        if IsNoModRef(r) {
          return NO_MOD_REF;
        }
      }
      var b := GetModRefBehavior(c);
      if b == DOES_NOT_ACCESS_MEMORY || b == ONLY_ACCESSES_INACCESSIBLE_MEM {
        return NO_MOD_REF;
      }
      if OnlyReadsMemory(b) {
        r := r.(mod := false);
      } else if DoesNotReadMemory(b) {
        r := r.(ref := false);
      }
      if OnlyAccessesArgPointees(b) || OnlyAccessesInaccessibleOrArgMem(b) {
        var isMustAlias := true;
        var allArgsMask := NO_MOD_REF;
        if DoesAccessArgPointees(b) {
          for i := 0 to |args(c)|
            invariant allArgsMask.mod <==> exists j :: 0 <= j < i && ArgTouches(c, j, l, true)
            invariant allArgsMask.ref <==> exists j :: 0 <= j < i && ArgTouches(c, j, l, false)
          {
            if !args(c)[i] {
              assert !ArgTouches(c, i, l, true) && !ArgTouches(c, i, l, false);
              continue;
            }
            var argAlias := Alias(argLoc(c, i), l);
            assert argAlias != NoAlias <==> Aliases(argLoc(c, i), l) by { AliasesMeans(argLoc(c, i), l); }
            if argAlias != NoAlias {
              var argMask := GetArgModRefInfo(c, i);
              allArgsMask := Union(allArgsMask, argMask);
              assert (argMask.mod <==> ArgTouches(c, i, l, true)) && (argMask.ref <==> ArgTouches(c, i, l, false));
            } else {
              assert !ArgTouches(c, i, l, true) && !ArgTouches(c, i, l, false);
            }
            isMustAlias := isMustAlias && argAlias == MustAlias;
          }
        }
        if IsNoModRef(allArgsMask) {
          return NO_MOD_REF;
        }
        r := Intersect(r, allArgsMask);
        r := r.(noMust := !isMustAlias);
      }
      if r.mod {
        var constant := PointsToConstantMemory(l);
        if constant {
          r := r.(mod := false);
        }
      }
    }

    lemma AliasesMeans(a: Loc, b: Loc)
      ensures Aliases(a, b) <==> AliasFrom(0, a, b) != NoAlias
    {
    }

    // ----- Two calls -----------------------------------------------------------------------------------

    method GetCallCall(c1: Call, c2: Call) returns (r: ModRefInfo)
      ensures (r.mod <==> CallMod(c1, c2)) && (r.ref <==> CallRef(c1, c2))
      ensures r.mod <==>
           && (forall k :: 0 <= k < |aas| ==> aas[k].callCall(c1, c2).mod) && Writes(c1)
           && (OnlyByArgs(c2) ==> AccessesByArgs(c2) && SecondMatters(c1, c2, true))
           && (OnlyByArgs(c1) && !OnlyByArgs(c2) ==> AccessesByArgs(c1) && FirstMatters(c1, c2, true))
      ensures r.ref <==>
           && (forall k :: 0 <= k < |aas| ==> aas[k].callCall(c1, c2).ref) && (Reads(c1) || !Writes(c1)) && (Writes(c1) || Writes(c2))
           && (OnlyByArgs(c2) ==> AccessesByArgs(c2) && SecondMatters(c1, c2, false))
           && (OnlyByArgs(c1) && !OnlyByArgs(c2) ==> AccessesByArgs(c1) && FirstMatters(c1, c2, false))
    {
      CallsAnswer(c1, c2);
      hide Writes, Reads, UsesArgs, UsesHidden, UsesOther;
      hide ArgMod, ArgRef, BehaviorOf, LocMod, LocRef, DependsOn, Provides;
      var result := MOD_REF;
      for k := 0 to |aas|
        invariant result.mod <==> forall j :: 0 <= j < k ==> aas[j].callCall(c1, c2).mod
        invariant result.ref <==> forall j :: 0 <= j < k ==> aas[j].callCall(c1, c2).ref
      {
        result := Intersect(result, aas[k].callCall(c1, c2));
        if IsNoModRef(result) {
          return NO_MOD_REF;
        }
      }
      var b1 := GetModRefBehavior(c1);
      if b1 == DOES_NOT_ACCESS_MEMORY {
        return NO_MOD_REF;
      }
      var b2 := GetModRefBehavior(c2);
      if b2 == DOES_NOT_ACCESS_MEMORY {
        return NO_MOD_REF;
      }
      if OnlyReadsMemory(b1) && OnlyReadsMemory(b2) {
        return NO_MOD_REF;
      }
      if OnlyReadsMemory(b1) {
        result := result.(mod := false);
      } else if DoesNotReadMemory(b1) {
        result := result.(ref := false);
      }
      if OnlyAccessesArgPointees(b2) {
        if !DoesAccessArgPointees(b2) {
          return NO_MOD_REF;
        }
        r := ThroughSecond(c1, c2, result);
      } else if OnlyAccessesArgPointees(b1) {
        if !DoesAccessArgPointees(b1) {
          return NO_MOD_REF;
        }
        r := ThroughFirst(c1, c2, result);
      } else {
        r := result;
      }
    }

    /** What the first call does to the arguments of the second. */
    method ThroughSecond(c1: Call, c2: Call, result: ModRefInfo) returns (r: ModRefInfo)
      ensures r.mod <==> result.mod && exists i :: 0 <= i < |args(c2)| && DependsOn(c1, c2, i, true)
      ensures r.ref <==> result.ref && exists i :: 0 <= i < |args(c2)| && DependsOn(c1, c2, i, false)
    {
      hide ArgMod, ArgRef, LocMod, LocRef;
      r := NO_MOD_REF;
      var isMustAlias := true;
      for i := 0 to |args(c2)|
        invariant r.mod <==> result.mod && exists j :: 0 <= j < i && DependsOn(c1, c2, j, true)
        invariant r.ref <==> result.ref && exists j :: 0 <= j < i && DependsOn(c1, c2, j, false)
      {
        if !args(c2)[i] {
          continue;
        }
        var argModRefC2 := GetArgModRefInfo(c2, i);
        var argMask := NO_MOD_REF;
        if argModRefC2.mod {
          argMask := MOD_REF;
        } else if argModRefC2.ref {
          argMask := MOD;
        }
        var modRefC1 := GetCallLocation(c1, argLoc(c2, i));
        argMask := Intersect(argMask, modRefC1);
        isMustAlias := isMustAlias && !modRefC1.noMust;
        r := Intersect(Union(r, argMask), result);
        if r == result {
          if i + 1 != |args(c2)| {
            isMustAlias := false;
          }
          assert (argMask.mod <==> DependsOn(c1, c2, i, true)) && (argMask.ref <==> DependsOn(c1, c2, i, false));
          break;
        }
        assert (argMask.mod <==> DependsOn(c1, c2, i, true)) && (argMask.ref <==> DependsOn(c1, c2, i, false));
      }
      if IsNoModRef(r) {
        return NO_MOD_REF;
      }
      r := r.(noMust := !isMustAlias);
    }

    /** What the second call does to the arguments of the first. */
    method ThroughFirst(c1: Call, c2: Call, result: ModRefInfo) returns (r: ModRefInfo)
      ensures r.mod <==> result.mod && exists i :: 0 <= i < |args(c1)| && Provides(c1, c2, i, true)
      ensures r.ref <==> result.ref && exists i :: 0 <= i < |args(c1)| && Provides(c1, c2, i, false)
    {
      hide ArgMod, ArgRef, LocMod, LocRef;
      r := NO_MOD_REF;
      var isMustAlias := true;
      for i := 0 to |args(c1)|
        invariant r.mod <==> result.mod && exists j :: 0 <= j < i && Provides(c1, c2, j, true)
        invariant r.ref <==> result.ref && exists j :: 0 <= j < i && Provides(c1, c2, j, false)
      {
        if !args(c1)[i] {
          continue;
        }
        var argModRefC1 := GetArgModRefInfo(c1, i);
        var modRefC2 := GetCallLocation(c2, argLoc(c1, i));
        if (argModRefC1.mod && (modRefC2.mod || modRefC2.ref)) || (argModRefC1.ref && modRefC2.mod) {
          r := Intersect(Union(r, argModRefC1), result);
          assert (argModRefC1.mod <==> Provides(c1, c2, i, true)) && (argModRefC1.ref <==> Provides(c1, c2, i, false));
        } else {
          assert !Provides(c1, c2, i, true) && !Provides(c1, c2, i, false);
        }
        isMustAlias := isMustAlias && !modRefC2.noMust;
        if r == result {
          if i + 1 != |args(c1)| {
            isMustAlias := false;
          }
          break;
        }
      }
      if IsNoModRef(r) {
        return NO_MOD_REF;
      }
      r := r.(noMust := !isMustAlias);
    }

    // ----- Other instructions --------------------------------------------------------------------------

    /** What the combined answers say that an instruction may do to a location. */
    ghost predicate InstrMod(i: Instr, l: Loc) {
      match i
      case Load(_, ordered) => ordered
      case Store(m, ordered) => ordered || (Aliases(m, l) && !Constant(l))
      case VAArg(m) => Aliases(m, l) && !Constant(l)
      case CmpXchg(m, ordered) => ordered || Aliases(m, l)
      case AtomicRMW(m, ordered) => ordered || Aliases(m, l)
      case Fence => !Constant(l)
      case CatchPad => !Constant(l)
      case CatchRet => !Constant(l)
      case CallSite(c) => LocMod(c, l)
      case Plain => false
    }

    ghost predicate InstrRef(i: Instr, l: Loc) {
      match i
      case Load(m, ordered) => ordered || Aliases(m, l)
      case Store(_, ordered) => ordered
      case VAArg(m) => Aliases(m, l) && !Constant(l)
      case CmpXchg(m, ordered) => ordered || Aliases(m, l)
      case AtomicRMW(m, ordered) => ordered || Aliases(m, l)
      case Fence => true
      case CatchPad => !Constant(l)
      case CatchRet => !Constant(l)
      case CallSite(c) => LocRef(c, l)
      case Plain => false
    }

    ghost predicate InstrDoes(i: Instr, l: Loc, mode: ModRefInfo) {
      (mode.mod && InstrMod(i, l)) || (mode.ref && InstrRef(i, l))
    }

    /** An access to one location that does not order others. */
    predicate Unordered(i: Instr) {
      i.VAArg? || ((i.Load? || i.Store? || i.CmpXchg? || i.AtomicRMW?) && !i.ordered)
    }

    method GetInstructionLocation(i: Instr, l: Loc) returns (r: ModRefInfo)
      ensures (r.mod <==> InstrMod(i, l)) && (r.ref <==> InstrRef(i, l))
      ensures (i.Load? || i.Store? || i.CmpXchg? || i.AtomicRMW?) && i.ordered ==> r.mod && r.ref
      ensures Unordered(i) ==>
           && (r.mod <==> NotApart(i.loc, l) && !i.Load? && (i.Store? || i.VAArg? ==> forall k :: 0 <= k < |aas| ==> !aas[k].constant(l)))
           && (r.ref <==> NotApart(i.loc, l) && !i.Store? && (i.VAArg? ==> forall k :: 0 <= k < |aas| ==> !aas[k].constant(l)))
      ensures i.Fence? || i.CatchPad? || i.CatchRet? ==>
           && (r.mod <==> forall k :: 0 <= k < |aas| ==> !aas[k].constant(l))
           && (r.ref <==> i.Fence? || forall k :: 0 <= k < |aas| ==> !aas[k].constant(l))
      ensures i.Plain? ==> !r.mod && !r.ref
    {
      if Unordered(i) {
        AliasIsFirst(0, i.loc, l);
      }
      hide AliasFrom, NotApart, LocMod, LocRef;
      match i
      case Load(m, ordered) =>
        if ordered {
          return MOD_REF;
        }
        var ar := Alias(m, l);
        if ar == NoAlias {
          return NO_MOD_REF;
        }
        return REF.(noMust := ar != MustAlias);
      case Store(m, ordered) =>
        if ordered {
          return MOD_REF;
        }
        var ar := Alias(m, l);
        if ar == NoAlias {
          return NO_MOD_REF;
        }
        var constant := PointsToConstantMemory(l);
        if constant {
          return NO_MOD_REF;
        }
        return MOD.(noMust := ar != MustAlias);
      case VAArg(m) =>
        var ar := Alias(m, l);
        if ar == NoAlias {
          return NO_MOD_REF;
        }
        var constant := PointsToConstantMemory(l);
        if constant {
          return NO_MOD_REF;
        }
        return MOD_REF.(noMust := ar != MustAlias);
      case CmpXchg(m, ordered) =>
        if ordered {
          return MOD_REF;
        }
        var ar := Alias(m, l);
        if ar == NoAlias {
          return NO_MOD_REF;
        }
        return MOD_REF.(noMust := ar != MustAlias);
      case AtomicRMW(m, ordered) =>
        if ordered {
          return MOD_REF;
        }
        var ar := Alias(m, l);
        if ar == NoAlias {
          return NO_MOD_REF;
        }
        return MOD_REF.(noMust := ar != MustAlias);
      case Fence =>
        var constant := PointsToConstantMemory(l);
        if constant {
          return REF;
        }
        return MOD_REF;
      case CatchPad =>
        var constant := PointsToConstantMemory(l);
        if constant {
          return NO_MOD_REF;
        }
        return MOD_REF;
      case CatchRet =>
        var constant := PointsToConstantMemory(l);
        if constant {
          return NO_MOD_REF;
        }
        return MOD_REF;
      case CallSite(c) =>
        r := GetCallLocation(c, l);
      case Plain =>
        return NO_MOD_REF;
    }

    /** Whether some instruction of a range of a block, ends included, may do to l what mode says. */
    method CanInstructionRangeModRef(block: seq<Instr>, first: nat, last: nat, l: Loc, mode: ModRefInfo) returns (r: bool)
      requires first <= last < |block|
      ensures r <==> exists k :: first <= k <= last && InstrDoes(block[k], l, mode)
    {
      hide InstrMod, InstrRef;
      for k := first to last + 1
        invariant forall j :: first <= j < k ==> !InstrDoes(block[j], l, mode)
      {
        var answer := GetInstructionLocation(block[k], l);
        if !IsNoModRef(Intersect(answer, mode)) {
          return true;
        }
      }
      return false;
    }

    /** How an instruction that accesses memory and a call may get into each other's way: for one that is not a
        call itself the answer is all or nothing. */
    method GetInstructionCall(i: Instr, c: Call) returns (r: ModRefInfo)
      requires !i.Plain?
      ensures i.CallSite? ==> (r.mod <==> CallMod(i.call, c)) && (r.ref <==> CallRef(i.call, c))
      ensures !i.CallSite? ==>
                (r.mod <==> r.ref) && (r.mod <==> i.Fence? || i.CatchPad? || i.CatchRet? || LocMod(c, i.loc) || LocRef(c, i.loc))
    {
      hide LocMod, LocRef, CallMod, CallRef;
      if i.CallSite? {
        r := GetCallCall(i.call, c);
        return;
      }
      if i.Fence? || i.CatchPad? || i.CatchRet? {
        return MOD_REF;
      }
      var mr := GetCallLocation(c, i.loc);
      if !IsNoModRef(mr) {
        return mr.(mod := true, ref := true);
      }
      return NO_MOD_REF;
    }

    // ----- Right analyses make a right aggregate -----------------------------------------------------------

    ghost predicate AllRight(w: World) {
      Possible(w, args, argLoc) && forall k :: 0 <= k < |aas| ==> Right(w, aas[k])
    }

    lemma {:induction false} AliasIsRight(w: World, k: nat, a: Loc, b: Loc)
      requires AllRight(w) && k <= |aas|
      ensures RightAlias(w, a, b, AliasFrom(k, a, b))
      decreases |aas| - k
    {
      if k < |aas| {
        AliasIsRight(w, k + 1, a, b);
        assert Right(w, aas[k]);
      }
    }

    lemma {:induction false} BehaviorIsRight(w: World, n: nat, c: Call)
      requires AllRight(w) && n <= |aas|
      ensures RightBehavior(w, c, BehaviorUpTo(n, c))
    {
      if n > 0 {
        BehaviorIsRight(w, n - 1, c);
        assert Right(w, aas[n - 1]);
      }
    }

    lemma ArgIsRight(w: World, c: Call, i: nat, t: Touch)
      requires AllRight(w) && t.way == Arg(i)
      ensures t in w.stores(c) ==> ArgMod(c, i) && PointerArg(c, i)
      ensures t in w.loads(c) ==> ArgRef(c, i) && PointerArg(c, i)
      ensures t in w.stores(c) || t in w.loads(c) ==> t.addr in w.bytes(argLoc(c, i))
    {
      forall k | 0 <= k < |aas| ensures RightArg(w, c, i, aas[k].argModRef(c, i)) {
        assert Right(w, aas[k]);
      }
      assert t in w.stores(c) || t in w.loads(c) ==> PossibleTouch(w, args, argLoc, c, t);
    }

    /** A write to a byte of l shows in the combined answer about l. */
    lemma WriteShows(w: World, c: Call, l: Loc, t: Touch)
      requires AllRight(w) && t in w.stores(c) && t.addr in w.bytes(l)
      ensures LocMod(c, l)
    {
      hide Right;
      BehaviorIsRight(w, |aas|, c);
      forall k | 0 <= k < |aas| ensures aas[k].callLoc(c, l).mod && !aas[k].constant(l) {
        RightAbout(w, aas[k], c, l);
        assert Wrote(w, c, t.addr);
      }
      TouchShows(w, c, l, t, true);
    }

    lemma ReadShows(w: World, c: Call, l: Loc, t: Touch)
      requires AllRight(w) && t in w.loads(c) && t.addr in w.bytes(l)
      ensures LocRef(c, l)
    {
      hide Right;
      BehaviorIsRight(w, |aas|, c);
      forall k | 0 <= k < |aas| ensures aas[k].callLoc(c, l).ref {
        RightAbout(w, aas[k], c, l);
        assert Read(w, c, t.addr);
      }
      TouchShows(w, c, l, t, false);
    }

    lemma RightAbout(w: World, a: Analysis, c: Call, l: Loc)
      requires Right(w, a)
      ensures RightCallLoc(w, c, l, a.callLoc(c, l)) && RightConstant(w, l, a.constant(l))
    {
    }

    lemma TouchShows(w: World, c: Call, l: Loc, t: Touch, mod: bool)
      requires AllRight(w) && (if mod then t in w.stores(c) else t in w.loads(c)) && t.addr in w.bytes(l)
      ensures ThroughArgs(c, l, mod)
    {
      hide Right, RightAlias, AliasFrom, ArgMod, ArgRef;
      BehaviorIsRight(w, |aas|, c);
      assert Allowed(BehaviorOf(c), t.way) && PossibleTouch(w, args, argLoc, c, t);
      assert Disjoint(w.bytes(l), w.hidden);
      if t.way.Arg? {
        var i := t.way.i;
        ArgIsRight(w, c, i, t);
        NoAliasIsRight(w, argLoc(c, i), l, t.addr);
        assert ArgTouches(c, i, l, mod);
      }
    }

    lemma NoAliasIsRight(w: World, a: Loc, b: Loc, x: Addr)
      requires AllRight(w) && x in w.bytes(a) && x in w.bytes(b)
      ensures Aliases(a, b)
    {
      AliasIsRight(w, 0, a, b);
    }

    /** The combined answer about a call and a location is right if every analysis is. */
    lemma CallLocationIsRight(w: World, c: Call, l: Loc, r: ModRefInfo)
      requires AllRight(w) && (r.mod <==> LocMod(c, l)) && (r.ref <==> LocRef(c, l))
      ensures RightCallLoc(w, c, l, r)
    {
      hide AllRight, LocMod, LocRef;
      forall x | x in w.bytes(l) ensures (Wrote(w, c, x) ==> r.mod) && (Read(w, c, x) ==> r.ref) {
        if Wrote(w, c, x) {
          var t :| t in w.stores(c) && t.addr == x;
          WriteShows(w, c, l, t);
        }
        if Read(w, c, x) {
          var t :| t in w.loads(c) && t.addr == x;
          ReadShows(w, c, l, t);
        }
      }
    }

    /** The combined answer about two calls is right if every analysis is. */
    lemma CallCallIsRight(w: World, c1: Call, c2: Call, r: ModRefInfo)
      requires AllRight(w) && (r.mod <==> CallMod(c1, c2)) && (r.ref <==> CallRef(c1, c2))
      ensures RightCallCall(w, c1, c2, r)
    {
      hide AllRight, CallMod, CallRef;
      forall x | Wrote(w, c1, x) && (Wrote(w, c2, x) || Read(w, c2, x)) ensures r.mod {
        var t :| t in w.stores(c1) && t.addr == x;
        var u :| (u in w.stores(c2) || u in w.loads(c2)) && u.addr == x;
        ConflictShows(w, c1, c2, t, u);
      }
      forall x | Read(w, c1, x) && Wrote(w, c2, x) ensures r.ref {
        var t :| t in w.loads(c1) && t.addr == x;
        var u :| u in w.stores(c2) && u.addr == x;
        DependenceShows(w, c1, c2, t, u);
      }
    }

    /** c1 writes what c2 reads or writes. */
    lemma ConflictShows(w: World, c1: Call, c2: Call, t: Touch, u: Touch)
      requires AllRight(w) && t in w.stores(c1) && (u in w.stores(c2) || u in w.loads(c2)) && t.addr == u.addr
      ensures CallMod(c1, c2)
    {
      hide Right, LocMod, LocRef, ArgMod, ArgRef;
      BehaviorIsRight(w, |aas|, c1);
      BehaviorIsRight(w, |aas|, c2);
      forall k | 0 <= k < |aas| ensures aas[k].callCall(c1, c2).mod {
        RightBetween(w, aas[k], c1, c2);
        assert Wrote(w, c1, t.addr) && (Wrote(w, c2, t.addr) || Read(w, c2, t.addr));
      }
      assert Allowed(BehaviorOf(c1), t.way) && Allowed(BehaviorOf(c2), u.way);
      hide AllRight, RightBehavior, Allowed;
      if OnlyAccessesArgPointees(BehaviorOf(c2)) {
        SecondShows(w, c1, c2, t, u, true);
      } else if OnlyAccessesArgPointees(BehaviorOf(c1)) {
        FirstShows(w, c1, c2, t, u, true);
      }
    }

    /** c1 reads what c2 writes. */
    lemma DependenceShows(w: World, c1: Call, c2: Call, t: Touch, u: Touch)
      requires AllRight(w) && t in w.loads(c1) && u in w.stores(c2) && t.addr == u.addr
      ensures CallRef(c1, c2)
    {
      hide Right, LocMod, LocRef, ArgMod, ArgRef;
      BehaviorIsRight(w, |aas|, c1);
      BehaviorIsRight(w, |aas|, c2);
      forall k | 0 <= k < |aas| ensures aas[k].callCall(c1, c2).ref {
        RightBetween(w, aas[k], c1, c2);
        assert Read(w, c1, t.addr) && Wrote(w, c2, t.addr);
      }
      assert Allowed(BehaviorOf(c1), t.way) && Allowed(BehaviorOf(c2), u.way);
      hide AllRight, RightBehavior, Allowed;
      if OnlyAccessesArgPointees(BehaviorOf(c2)) {
        SecondShows(w, c1, c2, t, u, false);
      } else if OnlyAccessesArgPointees(BehaviorOf(c1)) {
        FirstShows(w, c1, c2, t, u, false);
      }
    }

    lemma RightBetween(w: World, a: Analysis, c1: Call, c2: Call)
      requires Right(w, a)
      ensures RightCallCall(w, c1, c2, a.callCall(c1, c2))
    {
    }

    lemma WayIsArg(w: World, c: Call, t: Touch)
      requires AllRight(w) && (t in w.stores(c) || t in w.loads(c)) && OnlyAccessesArgPointees(BehaviorOf(c))
      ensures t.way.Arg? && DoesAccessArgPointees(BehaviorOf(c))
    {
      hide Right;
      BehaviorIsRight(w, |aas|, c);
      assert Allowed(BehaviorOf(c), t.way);
    }

    lemma SecondShows(w: World, c1: Call, c2: Call, t: Touch, u: Touch, mod: bool)
      requires AllRight(w) && t.addr == u.addr && OnlyAccessesArgPointees(BehaviorOf(c2))
      requires if mod then t in w.stores(c1) && (u in w.stores(c2) || u in w.loads(c2)) else t in w.loads(c1) && u in w.stores(c2)
      ensures DoesAccessArgPointees(BehaviorOf(c2)) && exists i :: 0 <= i < |args(c2)| && DependsOn(c1, c2, i, mod)
    {
      hide AllRight, LocMod, LocRef, ArgMod, ArgRef;
      WayIsArg(w, c2, u);
      var i := u.way.i;
      ArgIsRight(w, c2, i, u);
      if mod {
        WriteShows(w, c1, argLoc(c2, i), t);
      } else {
        ReadShows(w, c1, argLoc(c2, i), t);
      }
      assert DependsOn(c1, c2, i, mod);
    }

    lemma FirstShows(w: World, c1: Call, c2: Call, t: Touch, u: Touch, mod: bool)
      requires AllRight(w) && t.addr == u.addr && OnlyAccessesArgPointees(BehaviorOf(c1))
      requires if mod then t in w.stores(c1) && (u in w.stores(c2) || u in w.loads(c2)) else t in w.loads(c1) && u in w.stores(c2)
      ensures DoesAccessArgPointees(BehaviorOf(c1)) && exists i :: 0 <= i < |args(c1)| && Provides(c1, c2, i, mod)
    {
      hide AllRight, LocMod, LocRef, ArgMod, ArgRef;
      WayIsArg(w, c1, t);
      var i := t.way.i;
      ArgIsRight(w, c1, i, t);
      if u in w.stores(c2) {
        WriteShows(w, c2, argLoc(c1, i), u);
      } else {
        ReadShows(w, c2, argLoc(c1, i), u);
      }
      assert Provides(c1, c2, i, mod);
    }

    // ----- Right answers about instructions ------------------------------------------------------------------

    /** The combined answer about an instruction and a location is right if every analysis is. */
    lemma InstructionIsRight(w: World, i: Instr, l: Loc, r: ModRefInfo)
      requires AllRight(w) && (r.mod <==> InstrMod(i, l)) && (r.ref <==> InstrRef(i, l))
      ensures RightInstr(w, i, l, r)
    {
      hide AllRight, Aliases, Constant, LocMod, LocRef;
      if Constant(l) {
        ConstantIsRight(w, l);
      }
      match i
      case Load(m, _) => ApartUnlessAliased(w, m, l);
      case Store(m, _) => ApartUnlessAliased(w, m, l);
      case VAArg(m) => ApartUnlessAliased(w, m, l);
      case CmpXchg(m, _) => ApartUnlessAliased(w, m, l);
      case AtomicRMW(m, _) => ApartUnlessAliased(w, m, l);
      case CallSite(c) => CallLocationIsRight(w, c, l, r);
      case _ =>
    }

    lemma ApartUnlessAliased(w: World, a: Loc, b: Loc)
      requires AllRight(w)
      ensures Aliases(a, b) || Disjoint(w.bytes(a), w.bytes(b))
    {
      AliasIsRight(w, 0, a, b);
    }

    lemma ConstantIsRight(w: World, l: Loc)
      requires AllRight(w) && Constant(l)
      ensures w.bytes(l) <= w.constant
    {
      var k :| 0 <= k < |aas| && aas[k].constant(l);
      assert Right(w, aas[k]);
    }

    /** If the answer about a range of instructions is no, none of them does to l what was asked about. */
    lemma RangeIsRight(w: World, block: seq<Instr>, first: nat, last: nat, l: Loc, mode: ModRefInfo, k: nat, f: Footprint)
      requires AllRight(w) && first <= k <= last < |block| && MayDo(w, block[k], f)
      requires !exists j :: first <= j <= last && InstrDoes(block[j], l, mode)
      ensures (mode.mod ==> Disjoint(f.stores, w.bytes(l))) && (mode.ref ==> Disjoint(f.loads, w.bytes(l)))
    {
      hide AllRight, InstrMod, InstrRef, MayDo, Disjoint;
      InstructionIsRight(w, block[k], l, ModRefInfo(true, InstrMod(block[k], l), InstrRef(block[k], l)));
    }

    /** If a call and an instruction do not get into each other's way, the call writes and reads nothing of the location
        that the instruction accesses. */
    lemma InstructionCallIsRight(w: World, i: Instr, c: Call)
      requires AllRight(w) && !i.Plain? && !i.CallSite? && !i.Fence? && !i.CatchPad? && !i.CatchRet?
      ensures !LocMod(c, i.loc) && !LocRef(c, i.loc) ==>
                forall x :: x in w.bytes(i.loc) ==> !Wrote(w, c, x) && !Read(w, c, x)
    {
      hide AllRight, LocMod, LocRef;
      CallLocationIsRight(w, c, i.loc, ModRefInfo(true, LocMod(c, i.loc), LocRef(c, i.loc)));
    }
  }

  // ----- One more analysis ---------------------------------------------------------------------------------

  /** b asks one analysis more than a does, after all others. */
  ghost predicate AsksMore(a: AAResults, b: AAResults, x: Analysis) {
    b.aas == a.aas + [x] && b.args == a.args && b.argLoc == a.argLoc
  }

  lemma MoreIsSaid(a: AAResults, b: AAResults, x: Analysis, c: Call)
    requires AsksMore(a, b, x)
    ensures b.Writes(c) <==> a.Writes(c) && x.behavior(c).mod
    ensures b.Reads(c) <==> a.Reads(c) && x.behavior(c).ref
    ensures b.UsesArgs(c) ==> a.UsesArgs(c)
    ensures b.UsesHidden(c) ==> a.UsesHidden(c)
    ensures b.UsesOther(c) ==> a.UsesOther(c)
    ensures forall i: nat :: (b.ArgMod(c, i) ==> a.ArgMod(c, i)) && (b.ArgRef(c, i) ==> a.ArgRef(c, i))
  {
    assert b.aas[|a.aas|] == x && forall k :: 0 <= k < |a.aas| ==> b.aas[k] == a.aas[k];
  }

  lemma MoreIsApart(a: AAResults, b: AAResults, x: Analysis, l: Loc, m: Loc)
    requires AsksMore(a, b, x) && b.NotApart(l, m)
    ensures a.NotApart(l, m)
  {
    forall k: nat | a.FirstToTell(k, l, m) ensures a.aas[k].alias(l, m) != NoAlias {
      assert b.aas[k] == a.aas[k] && b.FirstToTell(k, l, m);
    }
  }

  lemma FewerArgsTouch(a: AAResults, b: AAResults, x: Analysis, c: Call, l: Loc, mod: bool)
    requires AsksMore(a, b, x) && b.SomeArgTouches(c, l, mod)
    ensures a.SomeArgTouches(c, l, mod)
  {
    var i: nat :| b.PointerArg(c, i) && b.NotApart(b.argLoc(c, i), l)
                  && forall k :: 0 <= k < |b.aas| ==> if mod then b.aas[k].argModRef(c, i).mod else b.aas[k].argModRef(c, i).ref;
    MoreIsApart(a, b, x, a.argLoc(c, i), l);
    assert forall k :: 0 <= k < |a.aas| ==> b.aas[k] == a.aas[k];
    assert a.PointerArg(c, i);
  }

  /** Another analysis never sets Mod in the answer about a call and a location; it sets Ref only if the others say that
      the call does not read, but not that it does not write, and it says so itself. */
  lemma LocationAnswersShrink(a: AAResults, b: AAResults, x: Analysis, c: Call, l: Loc)
    requires AsksMore(a, b, x)
    ensures b.LocMod(c, l) ==> a.LocMod(c, l)
    ensures b.LocRef(c, l) ==> (a.LocRef(c, l) <==> a.Reads(c) || !a.Writes(c))
  {
    a.LocationAnswer(c, l);
    b.LocationAnswer(c, l);
    MoreIsSaid(a, b, x, c);
    forall mod | b.SomeArgTouches(c, l, mod) ensures a.SomeArgTouches(c, l, mod) {
      FewerArgsTouch(a, b, x, c, l, mod);
    }
    assert forall k :: 0 <= k < |a.aas| ==> b.aas[k] == a.aas[k];
  }

  /** What the answers about two calls turn on: if only the first works through its arguments alone, they are asked;
      if the second does, its arguments are asked instead. */
  ghost predicate FirstIsAsked(a: AAResults, c1: Call, c2: Call) {
    a.OnlyByArgs(c1) && !a.OnlyByArgs(c2)
  }

  /** Another analysis sets a bit in the answer about two calls exactly in these cases: it is set in the new answer, and
      the first call was said not to read, but not said not to write (for Ref), or its arguments were asked, to no
      avail, and those of the second are asked now. */
  lemma CallAnswersShrink(a: AAResults, b: AAResults, x: Analysis, c1: Call, c2: Call)
    requires AsksMore(a, b, x)
    ensures b.CallMod(c1, c2) ==>
              (a.CallMod(c1, c2) <==> (FirstIsAsked(a, c1, c2) ==> a.AccessesByArgs(c1) && a.FirstMatters(c1, c2, true)))
    ensures b.CallRef(c1, c2) ==>
              (a.CallRef(c1, c2) <==>
               && (a.Reads(c1) || !a.Writes(c1))
               && (FirstIsAsked(a, c1, c2) ==> a.AccessesByArgs(c1) && a.FirstMatters(c1, c2, false)))
  {
    a.CallsAnswer(c1, c2);
    b.CallsAnswer(c1, c2);
    MoreIsSaid(a, b, x, c1);
    MoreIsSaid(a, b, x, c2);
    SecondMattersLess(a, b, x, c1, c2);
    assert forall k :: 0 <= k < |a.aas| ==> b.aas[k] == a.aas[k];
  }

  lemma SecondMattersLess(a: AAResults, b: AAResults, x: Analysis, c1: Call, c2: Call)
    requires AsksMore(a, b, x)
    ensures b.SecondMatters(c1, c2, true) ==> a.SecondMatters(c1, c2, true)
    ensures b.SecondMatters(c1, c2, false) && (a.Reads(c1) || !a.Writes(c1)) ==> a.SecondMatters(c1, c2, false)
  {
    MoreIsSaid(a, b, x, c2);
    forall l ensures b.LocMod(c1, l) ==> a.LocMod(c1, l)
             ensures b.LocRef(c1, l) && (a.Reads(c1) || !a.Writes(c1)) ==> a.LocRef(c1, l)
    {
      LocationAnswersShrink(a, b, x, c1, l);
    }
    assert forall i: nat :: b.PointerArg(c2, i) ==> a.PointerArg(c2, i);
  }

  // ----- Another analysis may set a bit -------------------------------------------------------------------

  /** An analysis that leaves everything open, but for how calls behave and whether they touch one location. */
  ghost function Open(behavior: Call -> Behavior, but: Call, apart: Loc): Analysis {
    Analysis((l, m) => MayAlias, l => false, (c, i) => MOD_REF, (c, l) => if c == but && l == apart then NO_MOD_REF else MOD_REF,
             (c, d) => MOD_REF, behavior)
  }

  /** One analysis says that calls only write, the next that they only read: with the second, Ref is answered. */
  lemma ReadOnlySetsRef(a: AAResults, b: AAResults, c: Call, l: Loc)
    requires a.aas == [Open(c => Behavior(true, false, true, true, true), 0, 0)]
    requires AsksMore(a, b, Open(c => Behavior(false, true, true, true, true), 0, 0)) && c > 0
    ensures !a.LocRef(c, l) && b.LocRef(c, l)
  {
    a.LocationAnswer(c, l);
    b.LocationAnswer(c, l);
    assert !b.aas[1].behavior(c).mod && !a.aas[0].behavior(c).ref;
  }

  /** Call 0 works through its argument, behind which, at location 10, call 1 does nothing: no interaction. Told that
      call 1 works through its argument too, at location 20, the aggregate asks about that instead, and answers Mod. */
  lemma OtherArgumentsSetMod(a: AAResults, b: AAResults)
    requires a.args == (c => [true]) && a.argLoc == ((c, i) => if c == 0 then 10 else 20)
    requires a.aas == [Open(c => if c == 0 then Behavior(true, true, true, false, false) else UNKNOWN_BEHAVIOR, 1, 10)]
    requires AsksMore(a, b, Open(c => Behavior(true, true, true, false, false), 1, 10))
    ensures !a.CallMod(0, 1) && b.CallMod(0, 1)
  {
    FirstIsInvolved(a);
    SecondIsInvolved(b);
    assert b.aas[0] == a.aas[0];
  }

  lemma FirstIsInvolved(a: AAResults)
    requires a.args == (c => [true]) && a.argLoc == ((c, i) => if c == 0 then 10 else 20)
    requires a.aas == [Open(c => if c == 0 then Behavior(true, true, true, false, false) else UNKNOWN_BEHAVIOR, 1, 10)]
    ensures !a.CallMod(0, 1)
  {
    hide *;
    a.CallsAnswer(0, 1);
    NothingBehind(a);
    NothingElse(a);
  }

  lemma NothingElse(a: AAResults)
    requires a.aas == [Open(c => if c == 0 then Behavior(true, true, true, false, false) else UNKNOWN_BEHAVIOR, 1, 10)]
    ensures a.OnlyByArgs(0) && !a.OnlyByArgs(1)
  {
    assert !a.aas[0].behavior(0).inaccessible && !a.aas[0].behavior(0).other && a.aas[0].behavior(1).other;
  }

  lemma NothingBehind(a: AAResults)
    requires a.args == (c => [true]) && a.argLoc == ((c, i) => if c == 0 then 10 else 20)
    requires a.aas == [Open(c => if c == 0 then Behavior(true, true, true, false, false) else UNKNOWN_BEHAVIOR, 1, 10)]
    ensures !a.FirstMatters(0, 1, true)
  {
    a.LocationAnswer(1, 10);
    assert !a.aas[0].callLoc(1, 10).mod && !a.aas[0].callLoc(1, 10).ref;
  }

  lemma SecondIsInvolved(b: AAResults)
    requires b.args == (c => [true]) && b.argLoc == ((c, i) => if c == 0 then 10 else 20)
    requires |b.aas| == 2 && b.aas[0] == Open(c => if c == 0 then Behavior(true, true, true, false, false) else UNKNOWN_BEHAVIOR, 1, 10)
    requires b.aas[1] == Open(c => Behavior(true, true, true, false, false), 1, 10)
    ensures b.CallMod(0, 1)
  {
    assert forall k :: 0 <= k < |b.aas| ==> var a := b.aas[k];
      && a.callLoc(0, 20) == MOD_REF && !a.constant(20) && a.callCall(0, 1) == MOD_REF && a.alias(10, 20) == MayAlias
      && a.argModRef(0, 0) == MOD_REF && a.argModRef(1, 0) == MOD_REF
      && a.behavior(0) == Behavior(true, true, true, false, false) && a.behavior(1).mod && a.behavior(1).args;
    assert !b.aas[1].behavior(1).inaccessible && !b.aas[1].behavior(1).other;
    assert b.PointerArg(0, 0) && b.PointerArg(1, 0) && b.argLoc(0, 0) == 10 && b.argLoc(1, 0) == 20;
    hide Open;
    BothInvolved(b);
  }

  lemma BothInvolved(b: AAResults)
    requires b.PointerArg(0, 0) && b.PointerArg(1, 0) && b.argLoc(0, 0) == 10 && b.argLoc(1, 0) == 20
    requires |b.aas| == 2 && !b.aas[1].behavior(1).inaccessible && !b.aas[1].behavior(1).other
    requires forall k :: 0 <= k < |b.aas| ==> var a := b.aas[k];
      && a.callLoc(0, 20) == MOD_REF && !a.constant(20) && a.callCall(0, 1) == MOD_REF && a.alias(10, 20) == MayAlias
      && a.argModRef(0, 0) == MOD_REF && a.argModRef(1, 0) == MOD_REF
      && a.behavior(0) == Behavior(true, true, true, false, false) && a.behavior(1).mod && a.behavior(1).args
    ensures b.CallMod(0, 1)
  {
    assert b.LocMod(0, 20) by {
      b.LocationAnswer(0, 20);
      assert b.NotApart(10, 20);
      assert b.SomeArgTouches(0, 20, true);
    }
    b.CallsAnswer(0, 1);
    assert b.ArgMod(1, 0);
    assert b.SecondMatters(0, 1, true);
    assert !b.UsesHidden(1) && !b.UsesOther(1);
  }
}
