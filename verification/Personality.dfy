/** The personality routine: what a frame does about an exception, read off its exception table. */
module Personality {
  import opened Wrappers
  import opened Leb128

  /** An entry of the call-site table. Offsets are relative to the start of the function; action is one more than an
      offset into the action table, or 0. */
  datatype Site = Site(start: nat, length: nat, landingPad: nat, action: nat)

  /** A table of call sites, the bytes of the action table, and the types that type infos stand for. */
  datatype Lsda = Lsda(sites: seq<Site>, actions: seq<Byte>, types: seq<int>)

  datatype Reason = ContinueUnwind | HandlerFound | InstallContext(selector: int, landingPad: nat)

  // ----- Action chains ---------------------------------------------------------------------------

  /** The action records linked from pos on name these type infos; 0 is a cleanup. */
  ghost predicate Chain(actions: seq<Byte>, pos: nat, chain: seq<int>)
    decreases |chain|
  {
    && chain != [] && chain[0] >= 0 && NumberAt(actions, pos) && SValue(BytesAt(actions, pos)) == chain[0]
    && var p := End(actions, pos);
    && NumberAt(actions, p)
    && var offset := SValue(BytesAt(actions, p));
    if |chain| == 1 then offset == 0
    else offset != 0 && p + offset >= 0 && Chain(actions, p + offset, chain[1..])
  }

  ghost predicate Listed(chain: seq<int>, types: seq<int>) {
    forall k :: 0 <= k < |chain| ==> chain[k] <= |types|
  }

  ghost predicate Matches(chain: seq<int>, types: seq<int>, k: int, thrown: int) {
    0 <= k < |chain| && 0 < chain[k] <= |types| && types[chain[k] - 1] == thrown
  }

  /** The place, counted from 1, of the first type info that is of the type thrown, or 0. */
  ghost function FirstMatch(chain: seq<int>, types: seq<int>, thrown: int): (r: nat)
    ensures r <= |chain|
  {
    if chain == [] then 0
    else if Matches(chain, types, 0, thrown) then 1
    else
      var r := FirstMatch(chain[1..], types, thrown);
      if r == 0 then 0 else r + 1
  }

  lemma {:induction false} FirstMatchIsFirst(chain: seq<int>, types: seq<int>, thrown: int)
    ensures var r := FirstMatch(chain, types, thrown);
            && (r > 0 ==> Matches(chain, types, r - 1, thrown))
            && forall k :: 0 <= k < (if r > 0 then r - 1 else |chain|) ==> !Matches(chain, types, k, thrown)
  {
    if chain != [] && !Matches(chain, types, 0, thrown) {
      FirstMatchIsFirst(chain[1..], types, thrown);
      forall k | 1 <= k < |chain| ensures Matches(chain, types, k, thrown) <==> Matches(chain[1..], types, k - 1, thrown) {
      }
    }
  }

  /** Walks an action chain to the first type info of the thrown exception's type. */
  method HandleActionValue(actions: seq<Byte>, types: seq<int>, actionEntry: nat, ours: bool, thrown: int, ghost chain: seq<int>)
    returns (found: bool, value: int)
    requires Chain(actions, actionEntry, chain) && Listed(chain, types)
    ensures found <==> ours && FirstMatch(chain, types, thrown) > 0
    ensures value == if found then FirstMatch(chain, types, thrown) else 0
  {
    hide SValue, End;
    found, value := false, 0;
    if !ours {
      return;
    }
    var actionPos: nat := actionEntry;
    var i := 0;
    ghost var left := chain;
    while true
      invariant Chain(actions, actionPos, left) && Listed(left, types) && i >= 0 && !found && value == 0
      invariant FirstMatch(chain, types, thrown) == if FirstMatch(left, types, thrown) > 0 then FirstMatch(left, types, thrown) + i else 0
      decreases |left|
    {
      var typeOffset, actionOffset;
      typeOffset, actionPos := ReadSLEB128(actions, actionPos);
      typeOffset := ToInt64(typeOffset);
      var tempActionPos: nat;
      actionOffset, tempActionPos := ReadSLEB128(actions, actionPos);
      actionOffset := ToInt64(actionOffset);
      assert typeOffset >= 0;
      if typeOffset > 0 {
        if types[typeOffset - 1] == thrown {
          value := i + 1;
          found := true;
          break;
        }
      }
      if actionOffset == 0 {
        assert left[1..] == [];
        break;
      }
      actionPos := actionPos + actionOffset;
      i := i + 1;
      left := left[1..];
    }
  }

  // ----- The language-specific data area ------------------------------------------------------------

  /** The action table can be read, and chains are what it holds for each call site. */
  ghost predicate Readable(l: Lsda, chains: seq<seq<int>>) {
    && |chains| == |l.sites|
    && forall k :: 0 <= k < |l.sites| && l.sites[k].action > 0 ==>
         Chain(l.actions, l.sites[k].action - 1, chains[k]) && Listed(chains[k], l.types)
  }

  predicate Covers(s: Site, pc: nat) {
    s.landingPad != 0 && s.start <= pc < s.start + s.length
  }

  /** The first call site from k on that has a landing pad and the place pc. */
  function SiteFrom(sites: seq<Site>, k: nat, pc: nat): (r: Option<nat>)
    requires k <= |sites|
    ensures r.Some? ==> k <= r.value < |sites| && Covers(sites[r.value], pc) && forall j :: k <= j < r.value ==> !Covers(sites[j], pc)
    ensures r.None? ==> forall j :: k <= j < |sites| ==> !Covers(sites[j], pc)
    decreases |sites| - k
  {
    if k == |sites| then None else if Covers(sites[k], pc) then Some(k) else SiteFrom(sites, k + 1, pc)
  }

  /** Which clause of the call site's landing pad catches the exception, counted from 1; 0 if none does. */
  ghost function Selector(l: Lsda, chains: seq<seq<int>>, k: nat, ours: bool, thrown: int): nat
    requires k < |l.sites| && k < |chains|
  {
    if ours && l.sites[k].action > 0 then FirstMatch(chains[k], l.types, thrown) else 0
  }

  /** In the search phase a frame is asked for a handler, in the cleanup phase any landing pad is run. */
  ghost function Decision(l: Lsda, chains: seq<seq<int>>, pc: nat, search: bool, ours: bool, thrown: int): Reason
    requires |chains| == |l.sites|
  {
    match SiteFrom(l.sites, 0, pc)
    case None => ContinueUnwind
    case Some(k) =>
      var selector := Selector(l, chains, k, ours, thrown);
      if !search then InstallContext(selector, l.sites[k].landingPad)
      else if selector > 0 then HandlerFound
      else ContinueUnwind
  }

  /** Call site k is the first in the table that has a landing pad and takes in the place pc. */
  ghost predicate EntersAt(sites: seq<Site>, k: int, pc: nat) {
    && 0 <= k < |sites| && sites[k].landingPad > 0 && sites[k].start <= pc && pc - sites[k].start < sites[k].length
    && forall j :: 0 <= j < k ==> sites[j].landingPad == 0 || pc < sites[j].start || sites[j].start + sites[j].length <= pc
  }

  /** Clause c of call site k is its first for the type that was thrown, and the exception is a generated one. */
  ghost predicate Catches(l: Lsda, chains: seq<seq<int>>, k: int, ours: bool, thrown: int, c: int) {
    && ours && 0 <= k < |l.sites| && k < |chains| && l.sites[k].action > 0 && 0 <= c < |chains[k]|
    && 0 < chains[k][c] <= |l.types| && l.types[chains[k][c] - 1] == thrown
    && forall j :: 0 <= j < c && 0 < chains[k][j] <= |l.types| ==> l.types[chains[k][j] - 1] != thrown
  }

  /** The decision rests with the first call site that has a landing pad for the place: in the cleanup phase that pad is
      entered, with the number of the first clause that catches; in the search phase a handler is found if one does. */
  lemma DecisionIsFirst(l: Lsda, chains: seq<seq<int>>, pc: nat, search: bool, ours: bool, thrown: int)
    requires Readable(l, chains)
    ensures var ret := Decision(l, chains, pc, search, ours, thrown);
            && ((forall k :: !EntersAt(l.sites, k, pc)) ==> ret == ContinueUnwind)
            && forall k :: EntersAt(l.sites, k, pc) ==>
                 if search then ret == if exists c :: Catches(l, chains, k, ours, thrown, c) then HandlerFound else ContinueUnwind
                 else && ret.InstallContext? && ret.landingPad == l.sites[k].landingPad
                      && (forall c :: Catches(l, chains, k, ours, thrown, c) ==> ret.selector == c + 1)
                      && ((forall c :: !Catches(l, chains, k, ours, thrown, c)) ==> ret.selector == 0)
  {
    var s := SiteFrom(l.sites, 0, pc);
    if s.Some? {
      var k := s.value;
      assert EntersAt(l.sites, k, pc);
      forall j | EntersAt(l.sites, j, pc) ensures j == k {
        assert Covers(l.sites[j], pc);
      }
      SelectorIsFirst(l, chains, k, ours, thrown);
      hide EntersAt, Catches, Selector, Readable;
    } else {
      forall k ensures !EntersAt(l.sites, k, pc) {
        assert 0 <= k < |l.sites| ==> !Covers(l.sites[k], pc);
      }
      hide EntersAt, Catches;
    }
  }

  lemma SelectorIsFirst(l: Lsda, chains: seq<seq<int>>, k: nat, ours: bool, thrown: int)
    requires k < |l.sites| == |chains|
    ensures var selector := Selector(l, chains, k, ours, thrown);
            && (selector > 0 ==> Catches(l, chains, k, ours, thrown, selector - 1))
            && forall c :: Catches(l, chains, k, ours, thrown, c) ==> selector == c + 1
  {
    if ours && l.sites[k].action > 0 {
      FirstMatchIsFirst(chains[k], l.types, thrown);
      var r := FirstMatch(chains[k], l.types, thrown);
      forall c | Catches(l, chains, k, ours, thrown, c) ensures r == c + 1 {
        assert Matches(chains[k], l.types, c, thrown);
      }
      if r > 0 {
        forall j | 0 <= j < r - 1 && 0 < chains[k][j] <= |l.types| ensures l.types[chains[k][j] - 1] != thrown {
          assert !Matches(chains[k], l.types, j, thrown);
        }
      }
    }
  }

  method HandleLsda(lsda: Option<Lsda>, pcOffset: nat, search: bool, ours: bool, thrown: int, ghost chains: seq<seq<int>>)
    returns (ret: Reason)
    requires lsda.Some? ==> Readable(lsda.value, chains)
    ensures ret == if lsda.None? then ContinueUnwind else Decision(lsda.value, chains, pcOffset, search, ours, thrown)
    ensures lsda.None? || (forall k :: !EntersAt(lsda.value.sites, k, pcOffset)) ==> ret == ContinueUnwind
    ensures lsda.Some? && search ==> forall k :: EntersAt(lsda.value.sites, k, pcOffset) ==>
              ret == if exists c :: Catches(lsda.value, chains, k, ours, thrown, c) then HandlerFound else ContinueUnwind
    ensures lsda.Some? && !search ==> forall k :: EntersAt(lsda.value.sites, k, pcOffset) ==>
              && ret.InstallContext? && ret.landingPad == lsda.value.sites[k].landingPad
              && (forall c :: Catches(lsda.value, chains, k, ours, thrown, c) ==> ret.selector == c + 1)
              && ((forall c :: !Catches(lsda.value, chains, k, ours, thrown, c)) ==> ret.selector == 0)
  {
    if lsda.Some? {
      DecisionIsFirst(lsda.value, chains, pcOffset, search, ours, thrown);
    }
    hide EntersAt, Catches;
    ret := ContinueUnwind;
    if lsda.None? {
      return;
    }
    var l := lsda.value;
    var k := 0;
    while k < |l.sites|
      invariant k <= |l.sites| && ret == ContinueUnwind && SiteFrom(l.sites, 0, pcOffset) == SiteFrom(l.sites, k, pcOffset)
    {
      var site := l.sites[k];
      k := k + 1;
      var actionEntry := site.action;
      if !ours {
        actionEntry := 0;
      }
      if site.landingPad == 0 {
        continue;
      }
      var exceptionMatched := false;
      if site.start <= pcOffset && pcOffset < site.start + site.length {
        var actionValue := 0;
        if actionEntry != 0 {
          exceptionMatched, actionValue := HandleActionValue(l.actions, l.types, actionEntry - 1, ours, thrown, chains[k - 1]);
        }
        if !search {
          if actionEntry == 0 || !exceptionMatched {
            ret := InstallContext(0, site.landingPad);
          } else {
            ret := InstallContext(actionValue, site.landingPad);
          }
        } else if exceptionMatched {
          ret := HandlerFound;
        }
        break;
      }
    }
  }

  /** Clause c of the landing pad for pc is its first for the type thrown. */
  ghost predicate CatchesAs(l: Lsda, chains: seq<seq<int>>, pc: nat, thrown: int, c: int)
    requires |chains| == |l.sites|
  {
    exists k :: 0 <= k < |l.sites| && Covers(l.sites[k], pc) && FirstOf(chains[k], l.types, c, thrown)
  }

  ghost predicate FirstOf(chain: seq<int>, types: seq<int>, c: int, thrown: int) {
    Matches(chain, types, c, thrown) && forall j :: 0 <= j < c ==> !Matches(chain, types, j, thrown)
  }

  /** A handler is found in the search phase exactly if the cleanup phase then enters a landing pad with the selector of a
      clause; and that clause is the first of the thrown type. */
  lemma PhasesAgree(l: Lsda, chains: seq<seq<int>>, pc: nat, ours: bool, thrown: int)
    requires Readable(l, chains)
    ensures var searched, cleaned := Decision(l, chains, pc, true, ours, thrown), Decision(l, chains, pc, false, ours, thrown);
            && (searched == HandlerFound <==> cleaned.InstallContext? && cleaned.selector != 0)
            && (searched == HandlerFound ==> ours && CatchesAs(l, chains, pc, thrown, cleaned.selector - 1))
  {
    var k := SiteFrom(l.sites, 0, pc);
    if k.Some? {
      FirstMatchIsFirst(chains[k.value], l.types, thrown);
    }
  }

  // ----- Tables that describe a chain --------------------------------------------------------------------

  /** One way to lay out the records of a chain: one behind the other, the cleanup last. */
  function EncodeChain(ids: seq<int>): seq<Byte> {
    if ids == [] then EncodeS(0) + EncodeS(0) else EncodeS(ids[0]) + EncodeS(1) + EncodeChain(ids[1..])
  }

  lemma LastRecord(actions: seq<Byte>, pos: nat, id: int)
    requires id >= 0 && NumberAt(actions, pos) && SValue(BytesAt(actions, pos)) == id
    requires var p := End(actions, pos); NumberAt(actions, p) && SValue(BytesAt(actions, p)) == 0
    ensures Chain(actions, pos, [id])
  {
  }

  lemma LinkedRecord(actions: seq<Byte>, pos: nat, id: int, next: nat, rest: seq<int>)
    requires id >= 0 && NumberAt(actions, pos) && SValue(BytesAt(actions, pos)) == id && Chain(actions, next, rest)
    requires var p := End(actions, pos); NumberAt(actions, p) && SValue(BytesAt(actions, p)) == next - p && next != p
    ensures Chain(actions, pos, [id] + rest)
  {
    assert ([id] + rest)[1..] == rest;
  }

  /** The walk reads back what was laid out. */
  lemma {:induction false} EncodedChain(ids: seq<int>, before: seq<Byte>)
    requires forall k :: 0 <= k < |ids| ==> 0 < ids[k] < 0x800_0000
    ensures Chain(before + EncodeChain(ids), |before|, ids + [0])
    decreases |ids|
  {
    hide SValue, End, EncodeS, Chain, NumberAt, BytesAt;
    Small();
    var data := before + EncodeChain(ids);
    if ids == [] {
      SignedRoundTrip(0, before, EncodeS(0));
      assert before + EncodeS(0) + EncodeS(0) == data;
      SignedRoundTrip(0, before + EncodeS(0), []);
      assert before + EncodeS(0) + EncodeS(0) + [] == data;
      LastRecord(data, |before|, 0);
      assert ids + [0] == [0];
    } else {
      var rest := EncodeChain(ids[1..]);
      SignedRoundTrip(ids[0], before, EncodeS(1) + rest);
      assert before + EncodeS(ids[0]) + (EncodeS(1) + rest) == data;
      SignedRoundTrip(1, before + EncodeS(ids[0]), rest);
      assert before + EncodeS(ids[0]) + EncodeS(1) + rest == data;
      EncodedChain(ids[1..], before + EncodeS(ids[0]) + EncodeS(1));
      LinkedRecord(data, |before|, ids[0], |before| + |EncodeS(ids[0])| + 1, ids[1..] + [0]);
      assert [ids[0]] + (ids[1..] + [0]) == ids + [0];
    }
  }

  lemma Small()
    ensures EncodeS(0) == [0] && EncodeS(1) == [1]
  {
  }
}
