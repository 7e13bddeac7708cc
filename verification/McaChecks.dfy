/** Which check prefixes stand for a block of output when several runs print different ones. */
module McaChecks {

  type Prefix = nat  // check prefixes, numbered in their sorted order
  type Line = string
  type Text = seq<Line>

  /** What one run of the tool printed for a block, and the prefixes it is checked with. */
  datatype Run = Run(prefixes: set<Prefix>, text: Text)

  /** A text and the prefix sets of the runs that printed it. */
  datatype Entry = Entry(text: Text, sets: seq<set<Prefix>>)

  // ----- Collecting the texts of a block ---------------------------------------------------------

  ghost predicate Distinct(infos: seq<Entry>) {
    forall i, j :: 0 <= i < j < |infos| ==> infos[i].text != infos[j].text
  }

  ghost predicate Has(infos: seq<Entry>, run: Run) {
    exists i :: 0 <= i < |infos| && infos[i].text == run.text && run.prefixes in infos[i].sets
  }

  ghost predicate Collected(runs: seq<Run>, infos: seq<Entry>) {
    && Distinct(infos) && (forall run :: run in runs ==> Has(infos, run))
    && (forall i :: 0 <= i < |infos| ==> infos[i].sets != [])
    && (forall i, s :: 0 <= i < |infos| && s in infos[i].sets ==> Run(s, infos[i].text) in runs)
  }

  method Collect(runs: seq<Run>) returns (infos: seq<Entry>)
    ensures Collected(runs, infos)
  {
    infos := [];
    for k := 0 to |runs|
      invariant Collected(runs[..k], infos)
    {
      var run := runs[k];
      ghost var before := infos;
      var i := 0;
      while i < |infos| && infos[i].text != run.text
        invariant i <= |infos| && forall j :: 0 <= j < i ==> infos[j].text != run.text
      {
        i := i + 1;
      }
      if i < |infos| {
        infos := infos[i := Entry(run.text, infos[i].sets + [run.prefixes])];
      } else {
        infos := infos + [Entry(run.text, [run.prefixes])];
      }
      assert runs[..k + 1] == runs[..k] + [run];
      Appended(runs[..k], before, run, i, infos);
    }
    assert runs[..|runs|] == runs;
  }

  lemma Appended(runs: seq<Run>, before: seq<Entry>, run: Run, i: nat, infos: seq<Entry>)
    requires Collected(runs, before) && i <= |before| && forall j :: 0 <= j < i ==> before[j].text != run.text
    requires i < |before| ==> before[i].text == run.text
    requires infos == if i < |before| then before[i := Entry(run.text, before[i].sets + [run.prefixes])]
                      else before + [Entry(run.text, [run.prefixes])]
    ensures Collected(runs + [run], infos)
  {
    forall r | r in runs + [run] ensures Has(infos, r) {
      if r == run && r !in runs {
        assert infos[i].text == run.text && run.prefixes in infos[i].sets;
      } else {
        var j :| 0 <= j < |before| && before[j].text == r.text && r.prefixes in before[j].sets;
        assert infos[j].text == r.text && r.prefixes in infos[j].sets;
      }
    }
    forall j, s | 0 <= j < |infos| && s in infos[j].sets ensures Run(s, infos[j].text) in runs + [run] {
      if j < |before| && s in before[j].sets {
        assert Run(s, before[j].text) in runs;
      } else {
        assert Run(s, infos[j].text) == run;
      }
    }
  }

  // ----- Pruning the prefixes ------------------------------------------------------------------------

  /** p belongs to no run that printed another text. */
  ghost predicate Private(runs: seq<Run>, text: Text, p: Prefix) {
    forall run :: run in runs && run.text != text ==> p !in run.prefixes
  }

  ghost predicate HasPrivate(runs: seq<Run>, run: Run) {
    exists p :: p in run.prefixes && Private(runs, run.text, p)
  }

  /** What may be kept for a text: prefixes that no run with another text has, enough to check every run that has such a one. */
  ghost predicate Serves(runs: seq<Run>, text: Text, kept: seq<Prefix>) {
    && (forall j, k :: 0 <= j < k < |kept| ==> kept[j] < kept[k])
    && (forall p :: p in kept ==> Private(runs, text, p) && exists run :: run in runs && run.text == text && p in run.prefixes)
    && (forall run :: run in runs && run.text == text && HasPrivate(runs, run) ==> exists p :: p in kept && p in run.prefixes)
  }

  ghost predicate Captured(runs: seq<Run>, text: Text) {
    exists run :: run in runs && run.text == text && HasPrivate(runs, run)
  }

  function Others(infos: seq<Entry>, i: nat): set<Prefix> {
    set j, k, p | 0 <= j < |infos| && j != i && 0 <= k < |infos[j].sets| && p in infos[j].sets[k] :: p
  }

  lemma OthersArePublic(runs: seq<Run>, infos: seq<Entry>, i: nat, p: Prefix)
    requires Collected(runs, infos) && i < |infos|
    ensures p in Others(infos, i) <==> !Private(runs, infos[i].text, p)
  {
    if p in Others(infos, i) {
      var j, k :| 0 <= j < |infos| && j != i && 0 <= k < |infos[j].sets| && p in infos[j].sets[k];
      assert infos[j].sets[k] in infos[j].sets;
      assert Run(infos[j].sets[k], infos[j].text) in runs;
      assert infos[j].text != infos[i].text;
    }
    if !Private(runs, infos[i].text, p) {
      var run :| run in runs && run.text != infos[i].text && p in run.prefixes;
      assert Has(infos, run);
      var j :| 0 <= j < |infos| && infos[j].text == run.text && run.prefixes in infos[j].sets;
      var k :| 0 <= k < |infos[j].sets| && infos[j].sets[k] == run.prefixes;
    }
  }

  predicate IsMin(s: set<Prefix>, m: Prefix) {
    m in s && forall x :: x in s ==> m <= x
  }

  function Min(s: set<Prefix>): (m: Prefix)
    requires s != {}
    ensures IsMin(s, m)
  {
    HasMin(s);
    var m :| IsMin(s, m);
    m
  }

  lemma {:induction false} HasMin(s: set<Prefix>)
    requires s != {}
    ensures exists m :: IsMin(s, m)
  {
    var y :| y in s;
    if s == {y} {
      assert IsMin(s, y);
    } else {
      HasMin(s - {y});
      var m :| IsMin(s - {y}, m);
      var least := if y <= m then y else m;
      forall x | x in s ensures least <= x {
        assert x == y || x in s - {y};
      }
      assert IsMin(s, least);
    }
  }

  method Sorted(s: set<Prefix>) returns (r: seq<Prefix>)
    ensures (forall j, k :: 0 <= j < k < |r| ==> r[j] < r[k]) && forall p :: p in r <==> p in s
  {
    r := [];
    var left := s;
    while left != {}
      invariant left <= s && (forall j, k :: 0 <= j < k < |r| ==> r[j] < r[k])
      invariant forall p :: p in s <==> p in r || p in left
      invariant forall p, q :: p in r && q in left ==> p < q
      decreases left
    {
      var m := Min(left);
      assert forall j :: 0 <= j < |r| ==> r[j] in r;
      r := r + [m];
      left := left - {m};
    }
  }

  /** p is in all sets of entry i, and in none of another. */
  ghost predicate CommonTo(infos: seq<Entry>, i: nat, p: Prefix)
    requires i < |infos|
  {
    (forall j :: 0 <= j < |infos[i].sets| ==> p in infos[i].sets[j]) && p !in Others(infos, i)
  }

  ghost predicate IsPruned(infos: seq<Entry>, i: nat, pruned: seq<set<Prefix>>)
    requires i < |infos|
  {
    if exists p :: CommonTo(infos, i, p) then |pruned| == 1 && forall p :: p in pruned[0] <==> CommonTo(infos, i, p)
    else |pruned| == |infos[i].sets| && forall k :: 0 <= k < |pruned| ==> pruned[k] == infos[i].sets[k] - Others(infos, i)
  }

  /** No pruned set has a prefix of another text, all have prefixes of this one, and each set of this one that has a
      prefix of its own has one that was pruned within it. */
  lemma PrunedMeans(infos: seq<Entry>, i: nat, pruned: seq<set<Prefix>>)
    requires i < |infos| && infos[i].sets != [] && IsPruned(infos, i, pruned)
    ensures pruned != [] && forall k :: 0 <= k < |pruned| ==> pruned[k] !! Others(infos, i)
    ensures forall k, p :: 0 <= k < |pruned| && p in pruned[k] ==> exists j :: 0 <= j < |infos[i].sets| && p in infos[i].sets[j]
    ensures forall j :: 0 <= j < |infos[i].sets| && infos[i].sets[j] - Others(infos, i) != {} ==>
              exists k :: 0 <= k < |pruned| && pruned[k] != {} && pruned[k] <= infos[i].sets[j]
  {
    hide Others;
    if exists p :: CommonTo(infos, i, p) {
      var p :| CommonTo(infos, i, p);
      assert p in infos[i].sets[0];
      forall j | 0 <= j < |infos[i].sets| ensures pruned[0] != {} && pruned[0] <= infos[i].sets[j] {
      }
    }
  }

  /** Of each set the prefixes that no other text has; of these, where there are some, only those common to all sets. */
  method PruneText(infos: seq<Entry>, i: nat) returns (pruned: seq<set<Prefix>>)
    requires i < |infos| && infos[i].sets != []
    ensures IsPruned(infos, i, pruned)
  {
    var otherSetValues: set<Prefix> := {};
    for j := 0 to |infos|
      invariant otherSetValues == Others(infos[..j], i)
    {
      assert infos[..j + 1] == infos[..j] + [infos[j]];
      if j != i {
        for k := 0 to |infos[j].sets|
          invariant otherSetValues == Others(infos[..j], i) + set l, p | 0 <= l < k && p in infos[j].sets[l] :: p
        {
          otherSetValues := otherSetValues + infos[j].sets[k];
        }
      }
      OneMoreOther(infos, i, j);
    }
    assert infos[..|infos|] == infos;
    var sets := infos[i].sets;
    pruned := [];
    for k := 0 to |sets|
      invariant |pruned| == k && forall j :: 0 <= j < k ==> pruned[j] == sets[j] - otherSetValues
    {
      pruned := pruned + [sets[k] - otherSetValues];
    }
    var commonValues := pruned[0];
    for k := 1 to |pruned|
      invariant forall j :: 0 <= j < k ==> commonValues <= pruned[j]
      invariant forall p :: (forall j :: 0 <= j < k ==> p in pruned[j]) ==> p in commonValues
    {
      commonValues := commonValues * pruned[k];
    }
    AllHave(infos, i, pruned, commonValues);
    if commonValues != {} {
      ghost var all := pruned;
      pruned := [commonValues];
      forall j | 0 <= j < |sets| ensures pruned[0] <= sets[j] {
        assert commonValues <= all[j];
      }
    }
  }

  lemma AllHave(infos: seq<Entry>, i: nat, pruned: seq<set<Prefix>>, common: set<Prefix>)
    requires i < |infos| && infos[i].sets != [] && |pruned| == |infos[i].sets|
    requires forall j :: 0 <= j < |pruned| ==> pruned[j] == infos[i].sets[j] - Others(infos, i)
    requires forall j :: 0 <= j < |pruned| ==> common <= pruned[j]
    requires forall p :: (forall j :: 0 <= j < |pruned| ==> p in pruned[j]) ==> p in common
    ensures forall p :: p in common <==> CommonTo(infos, i, p)
  {
    forall p ensures p in common <==> CommonTo(infos, i, p) {
      if p in common {
        assert p in pruned[0];
        forall j | 0 <= j < |infos[i].sets| ensures p in infos[i].sets[j] {
          assert common <= pruned[j];
        }
      }
    }
  }

  lemma OneMoreOther(infos: seq<Entry>, i: nat, j: nat)
    requires j < |infos|
    ensures Others(infos[..j + 1], i)
         == Others(infos[..j], i) + if j == i then {} else set l, p | 0 <= l < |infos[j].sets| && p in infos[j].sets[l] :: p
  {
    var a, b := infos[..j + 1], infos[..j];
    forall p ensures p in Others(a, i) <==>
      p in Others(b, i) || (j != i && p in set l, p | 0 <= l < |infos[j].sets| && p in infos[j].sets[l] :: p)
    {
      if p in Others(a, i) {
        var x, k :| 0 <= x < |a| && x != i && 0 <= k < |a[x].sets| && p in a[x].sets[k];
        if x < j {
          assert b[x] == a[x] && p in b[x].sets[k];
        }
      }
      if p in Others(b, i) {
        var x, k :| 0 <= x < |b| && x != i && 0 <= k < |b[x].sets| && p in b[x].sets[k];
        assert a[x] == b[x] && p in a[x].sets[k];
      }
      if j != i && p in set l, p | 0 <= l < |infos[j].sets| && p in infos[j].sets[l] :: p {
        var l :| 0 <= l < |infos[j].sets| && p in infos[j].sets[l];
        assert a[j] == infos[j] && p in a[j].sets[l];
      }
    }
  }

  datatype Result = Kept(prefixes: seq<seq<Prefix>>) | NotCaptured(text: Text)

  /** Prunes the prefixes of a block's texts. What is kept for a text belongs to no run that printed another; it fails
      exactly if some text that is not empty has no run with a prefix of its own. */
  method PruneBlock(ghost runs: seq<Run>, infos: seq<Entry>) returns (r: Result)
    requires Collected(runs, infos)
    ensures r.Kept? ==> |r.prefixes| == |infos| && forall i :: 0 <= i < |infos| ==>
              Serves(runs, infos[i].text, r.prefixes[i]) && (infos[i].text != [] ==> r.prefixes[i] != [])
    ensures r.Kept? ==> forall i, p :: 0 <= i < |infos| ==> (p in r.prefixes[i] <==> IsKept(runs, infos[i].text, p))
    ensures r.Kept? <==> forall i :: 0 <= i < |infos| && infos[i].text != [] ==> Captured(runs, infos[i].text)
  {
    var prefixes: seq<seq<Prefix>> := [];
    for i := 0 to |infos|
      invariant |prefixes| == i
      invariant forall j :: 0 <= j < i ==> Serves(runs, infos[j].text, prefixes[j]) && (infos[j].text != [] ==> prefixes[j] != [])
      invariant forall j, p :: 0 <= j < i ==> (p in prefixes[j] <==> IsKept(runs, infos[j].text, p))
      invariant forall j :: 0 <= j < i && infos[j].text != [] ==> Captured(runs, infos[j].text)
    {
      hide Serves, Captured, Collected, IsKept;
      var kept := KeepFor(runs, infos, i);
      if infos[i].text != [] && kept == [] {
        return NotCaptured(infos[i].text);
      }
      prefixes := prefixes + [kept];
    }
    return Kept(prefixes);
  }

  /** What is kept for one text. */
  method KeepFor(ghost runs: seq<Run>, infos: seq<Entry>, i: nat) returns (kept: seq<Prefix>)
    requires Collected(runs, infos) && i < |infos|
    ensures Serves(runs, infos[i].text, kept) && (kept != [] <==> Captured(runs, infos[i].text))
    ensures forall p :: p in kept <==> IsKept(runs, infos[i].text, p)
  {
    hide Serves, ServesAsSet, Captured, Collected, IsPruned, IsKept;
    EntryHasRuns(runs, infos, i);
    var pruned := PruneText(infos, i);
    var currentSet: set<Prefix> := {};
    for k := 0 to |pruned|
      invariant currentSet == Least(pruned[..k])
    {
      assert pruned[..k + 1] == pruned[..k] + [pruned[k]];
      LeastAdds(pruned[..k], pruned[k]);
      if pruned[k] != {} {
        currentSet := currentSet + {Min(pruned[k])};
      }
    }
    assert pruned[..|pruned|] == pruned;
    LeastServes(runs, infos, i, pruned, currentSet);
    LeastIsKept(runs, infos, i, pruned, currentSet);
    hide Least;
    kept := Sorted(currentSet);
    KeptServes(runs, infos[i].text, currentSet, kept);
    assert kept != [] ==> kept[0] in kept;
  }

  /** p is in every run that printed the text, and in no other. */
  ghost predicate InEvery(runs: seq<Run>, text: Text, p: Prefix) {
    Private(runs, text, p) && forall run :: run in runs && run.text == text ==> p in run.prefixes
  }

  /** p is the least prefix of a run that no run with another text has. */
  ghost predicate LeastOwn(runs: seq<Run>, run: Run, p: Prefix) {
    p in run.prefixes && Private(runs, run.text, p) && forall q :: q in run.prefixes && Private(runs, run.text, q) ==> p <= q
  }

  /** What is kept for a text: the least of the prefixes that every run of it has and no other run, if there are any;
      otherwise the least of each run's own. */
  ghost predicate IsKept(runs: seq<Run>, text: Text, p: Prefix) {
    if exists q :: InEvery(runs, text, q) then InEvery(runs, text, p) && forall q :: InEvery(runs, text, q) ==> p <= q
    else exists run :: run in runs && run.text == text && LeastOwn(runs, run, p)
  }

  lemma LeastIsKept(runs: seq<Run>, infos: seq<Entry>, i: nat, pruned: seq<set<Prefix>>, kept: set<Prefix>)
    requires Collected(runs, infos) && i < |infos| && kept == Least(pruned)
    requires IsPruned(infos, i, pruned)
    ensures forall p :: p in kept <==> IsKept(runs, infos[i].text, p)
  {
    var text := infos[i].text;
    forall p ensures CommonTo(infos, i, p) <==> InEvery(runs, text, p) {
      CommonIsInEvery(runs, infos, i, p);
    }
    hide Collected, CommonTo, InEvery, Others, LeastOwn;
    if exists q :: InEvery(runs, text, q) {
      var q :| InEvery(runs, text, q);
      assert CommonTo(infos, i, q);
      assert pruned[0] != {} && pruned == [pruned[0]];
      assert kept == {Min(pruned[0])};
    } else {
      assert !exists p :: CommonTo(infos, i, p);
      forall p ensures p in kept <==> exists run :: run in runs && run.text == text && LeastOwn(runs, run, p) {
        LeastOfRun(runs, infos, i, pruned, kept, p);
      }
    }
  }

  /** The sets of an entry are those of the runs that printed its text. */
  lemma EntryIsRuns(runs: seq<Run>, infos: seq<Entry>, i: nat, s: set<Prefix>)
    requires Collected(runs, infos) && i < |infos|
    ensures s in infos[i].sets <==> Run(s, infos[i].text) in runs
  {
    if Run(s, infos[i].text) in runs {
      assert Has(infos, Run(s, infos[i].text));
    }
  }

  lemma CommonIsInEvery(runs: seq<Run>, infos: seq<Entry>, i: nat, p: Prefix)
    requires Collected(runs, infos) && i < |infos|
    ensures CommonTo(infos, i, p) <==> InEvery(runs, infos[i].text, p)
  {
    OthersArePublic(runs, infos, i, p);
    forall s ensures s in infos[i].sets <==> Run(s, infos[i].text) in runs {
      EntryIsRuns(runs, infos, i, s);
    }
    hide Collected, Others, Private;
    forall run | run in runs && run.text == infos[i].text ensures run.prefixes in infos[i].sets {
      assert run == Run(run.prefixes, infos[i].text);
    }
    forall j | 0 <= j < |infos[i].sets| ensures Run(infos[i].sets[j], infos[i].text) in runs {
      assert infos[i].sets[j] in infos[i].sets;
    }
  }

  lemma LeastOfRun(runs: seq<Run>, infos: seq<Entry>, i: nat, pruned: seq<set<Prefix>>, kept: set<Prefix>, p: Prefix)
    requires Collected(runs, infos) && i < |infos| && kept == Least(pruned)
    requires |pruned| == |infos[i].sets| && forall k :: 0 <= k < |pruned| ==> pruned[k] == infos[i].sets[k] - Others(infos, i)
    ensures p in kept <==> exists run :: run in runs && run.text == infos[i].text && LeastOwn(runs, run, p)
  {
    var text := infos[i].text;
    forall q ensures q in Others(infos, i) <==> !Private(runs, text, q) {
      OthersArePublic(runs, infos, i, q);
    }
    hide Collected, Others, Private;
    if p in kept {
      var s :| s in pruned && s != {} && Min(s) == p;
      var k :| 0 <= k < |pruned| && pruned[k] == s;
      assert infos[i].sets[k] in infos[i].sets;
      EntryIsRuns(runs, infos, i, infos[i].sets[k]);
      assert IsMin(s, p) && forall q :: q in s <==> q in infos[i].sets[k] && Private(runs, text, q);
      assert LeastOwn(runs, Run(infos[i].sets[k], text), p);
    }
    if run :| run in runs && run.text == text && LeastOwn(runs, run, p) {
      EntryIsRuns(runs, infos, i, run.prefixes);
      assert run == Run(run.prefixes, text);
      var k :| 0 <= k < |infos[i].sets| && infos[i].sets[k] == run.prefixes;
      assert pruned[k] in pruned && p in pruned[k];
      assert Min(pruned[k]) == p;
    }
  }

  lemma EntryHasRuns(runs: seq<Run>, infos: seq<Entry>, i: nat)
    requires Collected(runs, infos) && i < |infos|
    ensures infos[i].sets != []
  {
  }

  ghost function Least(pruned: seq<set<Prefix>>): set<Prefix> {
    set s | s in pruned && s != {} :: Min(s)
  }

  lemma LeastAdds(pruned: seq<set<Prefix>>, s: set<Prefix>)
    ensures Least(pruned + [s]) == Least(pruned) + if s != {} then {Min(s)} else {}
  {
  }

  /** The chosen prefixes as a set. */
  ghost predicate ServesAsSet(runs: seq<Run>, text: Text, kept: set<Prefix>) {
    && (forall p :: p in kept ==> Private(runs, text, p) && exists run :: run in runs && run.text == text && p in run.prefixes)
    && (forall run :: run in runs && run.text == text && HasPrivate(runs, run) ==> exists p :: p in kept && p in run.prefixes)
  }

  lemma LeastServes(runs: seq<Run>, infos: seq<Entry>, i: nat, pruned: seq<set<Prefix>>, kept: set<Prefix>)
    requires Collected(runs, infos) && i < |infos| && kept == Least(pruned) && infos[i].sets != [] && IsPruned(infos, i, pruned)
    ensures ServesAsSet(runs, infos[i].text, kept)
    ensures kept != {} <==> Captured(runs, infos[i].text)
  {
    var text := infos[i].text;
    PrunedMeans(infos, i, pruned);
    hide Others, Private, Collected, Least, Captured, HasPrivate, IsPruned;
    forall p | p in kept ensures Private(runs, text, p) && exists run :: run in runs && run.text == text && p in run.prefixes {
      KeptIsPrivate(runs, infos, i, pruned, kept, p);
    }
    forall run | run in runs && run.text == text && HasPrivate(runs, run) ensures exists p :: p in kept && p in run.prefixes {
      RunCovered(runs, infos, i, pruned, kept, run);
    }
    hide HasPrivate;
    CapturedIfServed(runs, text, kept);
  }

  lemma CapturedIfServed(runs: seq<Run>, text: Text, kept: set<Prefix>)
    requires ServesAsSet(runs, text, kept)
    ensures kept != {} <==> Captured(runs, text)
  {
    hide Private;
    if kept != {} {
      var p :| p in kept;
      var run :| run in runs && run.text == text && p in run.prefixes;
      assert HasPrivate(runs, run);
    }
  }

  lemma KeptIsPrivate(runs: seq<Run>, infos: seq<Entry>, i: nat, pruned: seq<set<Prefix>>, kept: set<Prefix>, p: Prefix)
    requires Collected(runs, infos) && i < |infos| && kept == Least(pruned) && p in kept
    requires forall k :: 0 <= k < |pruned| ==> pruned[k] !! Others(infos, i)
    requires forall k, p :: 0 <= k < |pruned| && p in pruned[k] ==> exists j :: 0 <= j < |infos[i].sets| && p in infos[i].sets[j]
    ensures Private(runs, infos[i].text, p) && exists run :: run in runs && run.text == infos[i].text && p in run.prefixes
  {
    hide Others, Private;
    var s :| s in pruned && s != {} && Min(s) == p;
    var k :| 0 <= k < |pruned| && pruned[k] == s;
    OthersArePublic(runs, infos, i, p);
    var j :| 0 <= j < |infos[i].sets| && p in infos[i].sets[j];
    assert infos[i].sets[j] in infos[i].sets;
    assert Run(infos[i].sets[j], infos[i].text) in runs;
  }

  lemma RunCovered(runs: seq<Run>, infos: seq<Entry>, i: nat, pruned: seq<set<Prefix>>, kept: set<Prefix>, run: Run)
    requires Collected(runs, infos) && i < |infos| && kept == Least(pruned)
    requires forall j :: 0 <= j < |infos[i].sets| && infos[i].sets[j] - Others(infos, i) != {} ==>
               exists k :: 0 <= k < |pruned| && pruned[k] != {} && pruned[k] <= infos[i].sets[j]
    requires run in runs && run.text == infos[i].text && HasPrivate(runs, run)
    ensures exists p :: p in kept && p in run.prefixes
  {
    hide Others, Private;
    var p :| p in run.prefixes && Private(runs, run.text, p);
    OthersArePublic(runs, infos, i, p);
    assert Has(infos, run);
    var x :| 0 <= x < |infos| && infos[x].text == run.text && run.prefixes in infos[x].sets;
    assert x == i;
    var j :| 0 <= j < |infos[i].sets| && infos[i].sets[j] == run.prefixes;
    assert p in infos[i].sets[j] - Others(infos, i);
    var k :| 0 <= k < |pruned| && pruned[k] != {} && pruned[k] <= infos[i].sets[j];
    assert pruned[k] in pruned && Min(pruned[k]) in kept;
  }

  lemma KeptServes(runs: seq<Run>, text: Text, kept: set<Prefix>, sorted: seq<Prefix>)
    requires ServesAsSet(runs, text, kept) && (forall j, k :: 0 <= j < k < |sorted| ==> sorted[j] < sorted[k])
    requires forall p :: p in sorted <==> p in kept
    ensures Serves(runs, text, sorted) && (kept != {} ==> sorted != [])
  {
    if kept != {} {
      var p :| p in kept;
      assert p in sorted;
    }
  }

  // ----- Breaking a block down line by line ------------------------------------------------------------

  datatype Checked = Checked(prefix: Prefix, line: Line)

  /** The lines that are checked for a run with these prefixes. */
  function Project(out: seq<Checked>, prefixes: set<Prefix>): Text {
    if out == [] then []
    else Project(out[..|out| - 1], prefixes) + if out[|out| - 1].prefix in prefixes then [out[|out| - 1].line] else []
  }

  ghost predicate SameLine(texts: seq<Text>, k: nat)
    requires forall t :: t in texts ==> k < |t|
  {
    forall i, j :: 0 <= i < |texts| && 0 <= j < |texts| ==> texts[i][k] == texts[j][k]
  }

  /** The lines before k that all texts have in the same place. */
  ghost function Shared(texts: seq<Text>, k: nat): Text
    requires texts != [] && forall t :: t in texts ==> k <= |t|
  {
    if k == 0 then [] else Shared(texts, k - 1) + if SameLine(texts, k - 1) then [texts[0][k - 1]] else []
  }

  lemma {:induction false} ProjectAdds(a: seq<Checked>, b: seq<Checked>, prefixes: set<Prefix>)
    ensures Project(a + b, prefixes) == Project(a, prefixes) + Project(b, prefixes)
    decreases |b|
  {
    if b == [] {
      assert a + b == a;
    } else {
      var last := |b| - 1;
      assert (a + b)[..|a + b| - 1] == a + b[..last];
      ProjectAdds(a, b[..last], prefixes);
    }
  }

  type Batches = map<Prefix, seq<Checked>>

  /** The lines batched up for p. */
  function Batched(batches: Batches, p: Prefix): Text {
    if p in batches then Project(batches[p], {p}) else []
  }

  ghost predicate Labelled(batches: Batches) {
    forall q, c :: q in batches && c in batches[q] ==> c.prefix == q
  }

  /** p is the y-th prefix of text i, and no other text's. */
  ghost predicate Owner(prefixes: seq<seq<Prefix>>, i: nat, y: nat, p: Prefix) {
    && i < |prefixes| && y < |prefixes[i]| && prefixes[i][y] == p
    && forall j, z :: 0 <= j < |prefixes| && 0 <= z < |prefixes[j]| && prefixes[j][z] == p ==> j == i && z == y
  }

  ghost predicate NoneIs(prefixes: seq<seq<Prefix>>, common: Prefix) {
    forall j :: 0 <= j < |prefixes| ==> common !in prefixes[j]
  }

  /** out holds what is batched up, in the order of the prefixes, and nothing else. */
  ghost predicate WritesOut(batches: Batches, out: seq<Checked>) {
    && (forall common: Prefix, p: Prefix :: common !in batches && p != common ==> Project(out, {common, p}) == Batched(batches, p))
    && (forall common: Prefix :: common !in batches ==> Project(out, {common}) == [])
    && (forall i, j :: 0 <= i < j < |out| ==> out[i].prefix <= out[j].prefix)
  }

  /** Writes out the batches, one prefix at a time. */
  method Flush(batches: Batches) returns (out: seq<Checked>)
    requires Labelled(batches)
    ensures WritesOut(batches, out)
  {
    var keys := Sorted(batches.Keys);
    out := [];
    for k := 0 to |keys|
      invariant FlushesTo(batches, keys[..k], out)
    {
      hide FlushesTo, Labelled;
      assert keys[k] in batches;
      FlushOne(batches, keys, k, out);
      out := out + batches[keys[k]];
    }
    assert keys[..|keys|] == keys;
    FlushMeans(batches, keys, out);
    hide FlushesTo, Batched, Project, WritesOut;
  }

  /** The batches for the given prefixes have been written out, one prefix at a time. */
  ghost predicate FlushesTo(batches: Batches, keys: seq<Prefix>, out: seq<Checked>) {
    && (forall common: Prefix, p: Prefix :: common !in batches && p != common ==>
          Project(out, {common, p}) == if p in keys then Batched(batches, p) else [])
    && (forall common: Prefix :: common !in batches ==> Project(out, {common}) == [])
    && (forall i, j :: 0 <= i < j < |out| ==> out[i].prefix <= out[j].prefix)
    && forall c :: c in out ==> c.prefix in keys
  }

  lemma FlushMeans(batches: Batches, keys: seq<Prefix>, out: seq<Checked>)
    requires FlushesTo(batches, keys, out) && forall p :: p in keys <==> p in batches
    ensures WritesOut(batches, out)
  {
    hide Project;
  }

  lemma FlushOne(batches: Batches, keys: seq<Prefix>, k: nat, out: seq<Checked>)
    requires Labelled(batches) && k < |keys| && (forall i, j :: 0 <= i < j < |keys| ==> keys[i] < keys[j]) && keys[k] in batches
    requires FlushesTo(batches, keys[..k], out)
    ensures FlushesTo(batches, keys[..k + 1], out + batches[keys[k]])
  {
    var batch := batches[keys[k]];
    assert forall c :: c in batch ==> c.prefix == keys[k];
    InOrder(out, batch, keys, k);
    hide Project, Labelled, Batched;
    forall common: Prefix, p: Prefix | common !in batches && p != common
      ensures Project(out + batch, {common, p}) == if p in keys[..k + 1] then Batched(batches, p) else []
    {
      FlushFor(batches, keys, k, out, common, p);
    }
    forall common: Prefix | common !in batches ensures Project(out + batch, {common}) == [] {
      ProjectAdds(out, batch, {common});
      ProjectLabelled(batch, keys[k], {common});
    }
  }

  lemma FlushFor(batches: Batches, keys: seq<Prefix>, k: nat, out: seq<Checked>, common: Prefix, p: Prefix)
    requires k < |keys| && (forall i, j :: 0 <= i < j < |keys| ==> keys[i] < keys[j]) && keys[k] in batches
    requires forall c :: c in batches[keys[k]] ==> c.prefix == keys[k]
    requires common !in batches && p != common && Project(out, {common, p}) == if p in keys[..k] then Batched(batches, p) else []
    ensures Project(out + batches[keys[k]], {common, p}) == if p in keys[..k + 1] then Batched(batches, p) else []
  {
    hide Project;
    var batch := batches[keys[k]];
    assert keys[..k + 1] == keys[..k] + [keys[k]] && keys[k] !in keys[..k];
    ProjectAdds(out, batch, {common, p});
    ProjectLabelled(batch, keys[k], {common, p});
    ProjectLabelled(batch, keys[k], {p});
  }

  lemma InOrder(out: seq<Checked>, batch: seq<Checked>, keys: seq<Prefix>, k: nat)
    requires k < |keys| && (forall i, j :: 0 <= i < j < |keys| ==> keys[i] < keys[j])
    requires (forall i, j :: 0 <= i < j < |out| ==> out[i].prefix <= out[j].prefix) && forall c :: c in out ==> c.prefix in keys[..k]
    requires forall c :: c in batch ==> c.prefix == keys[k]
    ensures var all := out + batch;
            (forall i, j :: 0 <= i < j < |all| ==> all[i].prefix <= all[j].prefix) && forall c :: c in all ==> c.prefix in keys[..k + 1]
  {
    assert keys[..k + 1] == keys[..k] + [keys[k]];
    forall i | 0 <= i < |out| ensures out[i].prefix < keys[k] {
      assert out[i] in out;
    }
    forall i | 0 <= i < |batch| ensures batch[i].prefix == keys[k] {
      assert batch[i] in batch;
    }
  }

  lemma {:induction false} ProjectLabelled(out: seq<Checked>, q: Prefix, prefixes: set<Prefix>)
    requires forall c :: c in out ==> c.prefix == q
    ensures Project(out, prefixes) == if q in prefixes then Project(out, {q}) else []
    decreases |out|
  {
    if out != [] {
      assert forall c :: c in out[..|out| - 1] ==> c in out;
      assert out[|out| - 1] in out;
      ProjectLabelled(out[..|out| - 1], q, prefixes);
    }
  }

  /** Breaks texts of as many lines down into lines for all and lines for some. What is checked for all and with a prefix of
      one text only is, in order, the lines of that text. Without a common first line, or without a prefix to tell lines
      apart, nothing comes out. */
  method BreakDownBlock(texts: seq<Text>, prefixes: seq<seq<Prefix>>, common: Prefix) returns (result: seq<Checked>)
    requires |texts| == |prefixes| > 0 && texts[0] != [] && forall t :: t in texts ==> |t| == |texts[0]|
    ensures result != [] <==> SameLine(texts, 0) && (prefixes[0] != [] || forall k :: 0 <= k < |texts[0]| ==> SameLine(texts, k))
    ensures result != [] && NoneIs(prefixes, common) ==>
              forall i: nat, y: nat, p: Prefix :: Owner(prefixes, i, y, p) ==> Project(result, {common, p}) == texts[i]
    ensures result != [] && NoneIs(prefixes, common) ==> Project(result, {common}) == Shared(texts, |texts[0]|)
  {
    hide *;
    var same := IsSame(texts, 0);
    if !same {
      return [];
    }
    result := [];
    var batches: Batches := map[];
    NothingWritten(texts, prefixes, common);
    for k := 0 to |texts[0]|
      invariant Written(texts, prefixes, common, result, batches, k)
      invariant k > 0 ==> result != []
      invariant prefixes[0] == [] ==> forall j :: 0 <= j < k ==> SameLine(texts, j)
    {
      same := IsSame(texts, k);
      BatchesLabelled(texts, prefixes, common, result, batches, k);
      if same {
        var out := Flush(batches);
        CommonWritten(texts, prefixes, common, result, batches, k, out);
        result := result + out;
        batches := map[];
        result := result + [Checked(common, texts[0][k])];
      } else {
        if prefixes[0] == [] {
          return [];
        }
        var more := AddToBatches(texts, prefixes, batches, k);
        BatchWritten(texts, prefixes, common, result, batches, k, more);
        batches := more;
      }
    }
    BatchesLabelled(texts, prefixes, common, result, batches, |texts[0]|);
    var out := Flush(batches);
    AllWritten(texts, prefixes, common, result, batches, out);
    result := result + out;
  }

  method IsSame(texts: seq<Text>, k: nat) returns (same: bool)
    requires texts != [] && forall t :: t in texts ==> k < |t|
    ensures same <==> SameLine(texts, k)
  {
    for i := 0 to |texts|
      invariant forall j :: 0 <= j < i ==> texts[j][k] == texts[0][k]
    {
      if texts[i][k] != texts[0][k] {
        return false;
      }
    }
    return true;
  }

  /** Line k has been batched for the first a texts, and for the first b prefixes of the next. */
  ghost predicate Batching(texts: seq<Text>, prefixes: seq<seq<Prefix>>, before: Batches, batches: Batches, k: nat, a: nat, b: nat)
    requires |texts| == |prefixes| && forall t :: t in texts ==> k < |t|
  {
    && Labelled(batches) && (forall q :: q in batches ==> q in before || exists j :: 0 <= j < |prefixes| && q in prefixes[j])
    && forall i: nat, y: nat, p: Prefix :: Owner(prefixes, i, y, p) ==>
         Batched(batches, p) == Batched(before, p) + if i < a || (i == a && y < b) then [texts[i][k]] else []
  }

  method AddToBatches(texts: seq<Text>, prefixes: seq<seq<Prefix>>, before: Batches, k: nat) returns (batches: Batches)
    requires |texts| == |prefixes| && (forall t :: t in texts ==> k < |t|) && Labelled(before)
    ensures Batching(texts, prefixes, before, batches, k, |texts|, 0)
  {
    batches := before;
    for a := 0 to |texts|
      invariant Batching(texts, prefixes, before, batches, k, a, 0)
    {
      for b := 0 to |prefixes[a]|
        invariant Batching(texts, prefixes, before, batches, k, a, b)
      {
        var q := prefixes[a][b];
        var batch := if q in batches then batches[q] else [];
        BatchOne(texts, prefixes, before, batches, k, a, b);
        batches := batches[q := batch + [Checked(q, texts[a][k])]];
      }
      NextText(texts, prefixes, before, batches, k, a);
    }
  }

  lemma BatchOne(texts: seq<Text>, prefixes: seq<seq<Prefix>>, before: Batches, batches: Batches, k: nat, a: nat, b: nat)
    requires |texts| == |prefixes| && (forall t :: t in texts ==> k < |t|) && a < |texts| && b < |prefixes[a]|
    requires Batching(texts, prefixes, before, batches, k, a, b)
    ensures var q := prefixes[a][b];
            var batch := if q in batches then batches[q] else [];
            Batching(texts, prefixes, before, batches[q := batch + [Checked(q, texts[a][k])]], k, a, b + 1)
  {
    hide Labelled, Batched, Owner;
    var q := prefixes[a][b];
    assert q in prefixes[a];
    LabelledGrows(batches, q, texts[a][k]);
    var more := batches[q := (if q in batches then batches[q] else []) + [Checked(q, texts[a][k])]];
    forall i: nat, y: nat, p: Prefix | Owner(prefixes, i, y, p)
      ensures i < |texts| && texts[i] in texts
              && Batched(more, p) == Batched(before, p) + if i < a || (i == a && y < b + 1) then [texts[i][k]] else []
    {
      OwnerIs(prefixes, i, y, p, a, b);
      BatchedGrows(batches, q, texts[a][k], p);
    }
  }

  lemma LabelledGrows(batches: Batches, q: Prefix, line: Line)
    requires Labelled(batches)
    ensures Labelled(batches[q := (if q in batches then batches[q] else []) + [Checked(q, line)]])
  {
  }

  lemma BatchedGrows(batches: Batches, q: Prefix, line: Line, p: Prefix)
    ensures Batched(batches[q := (if q in batches then batches[q] else []) + [Checked(q, line)]], p)
         == Batched(batches, p) + if p == q then [line] else []
  {
    hide Project;
    BatchGrows(if q in batches then batches[q] else [], q, line);
  }

  lemma OwnerIs(prefixes: seq<seq<Prefix>>, i: nat, y: nat, p: Prefix, a: nat, b: nat)
    requires Owner(prefixes, i, y, p) && a < |prefixes| && b < |prefixes[a]|
    ensures i < |prefixes| && (prefixes[a][b] == p <==> i == a && y == b)
  {
  }

  lemma BatchGrows(batch: seq<Checked>, q: Prefix, line: Line)
    ensures Project(batch + [Checked(q, line)], {q}) == Project(batch, {q}) + [line] && Project([], {q}) == []
  {
    assert (batch + [Checked(q, line)])[..|batch|] == batch;
  }

  lemma NextText(texts: seq<Text>, prefixes: seq<seq<Prefix>>, before: Batches, batches: Batches, k: nat, a: nat)
    requires |texts| == |prefixes| && (forall t :: t in texts ==> k < |t|) && a < |texts|
    requires Batching(texts, prefixes, before, batches, k, a, |prefixes[a]|)
    ensures Batching(texts, prefixes, before, batches, k, a + 1, 0)
  {
    hide Batched, Labelled;
  }

  /** The first k lines of each text are in the output or in the batches for its own prefixes, those that all have are
      in the output for the common prefix. */
  ghost predicate Written(texts: seq<Text>, prefixes: seq<seq<Prefix>>, common: Prefix, result: seq<Checked>, batches: Batches, k: nat)
    requires |texts| == |prefixes| > 0 && forall t :: t in texts ==> k <= |t|
  {
    && (NoneIs(prefixes, common) ==> Project(result, {common}) == Shared(texts, k))
    && Labelled(batches) && (forall q :: q in batches ==> exists j :: 0 <= j < |prefixes| && q in prefixes[j])
    && (NoneIs(prefixes, common) ==> forall i: nat, y: nat, p: Prefix :: Owner(prefixes, i, y, p) ==>
          Project(result, {common, p}) + Batched(batches, p) == texts[i][..k])
  }

  lemma NothingWritten(texts: seq<Text>, prefixes: seq<seq<Prefix>>, common: Prefix)
    requires |texts| == |prefixes| > 0
    ensures Written(texts, prefixes, common, [], map[], 0)
  {
  }

  lemma BatchesLabelled(texts: seq<Text>, prefixes: seq<seq<Prefix>>, common: Prefix, result: seq<Checked>, batches: Batches, k: nat)
    requires |texts| == |prefixes| > 0 && (forall t :: t in texts ==> k <= |t|) && Written(texts, prefixes, common, result, batches, k)
    ensures Labelled(batches)
  {
  }

  lemma Flushed(texts: seq<Text>, prefixes: seq<seq<Prefix>>, common: Prefix, result: seq<Checked>, batches: Batches, k: nat,
                out: seq<Checked>, i: nat, y: nat, p: Prefix)
    requires |texts| == |prefixes| > 0 && (forall t :: t in texts ==> k <= |t|) && Written(texts, prefixes, common, result, batches, k)
    requires WritesOut(batches, out) && NoneIs(prefixes, common) && Owner(prefixes, i, y, p)
    ensures p != common && Project(result + out, {common, p}) == texts[i][..k]
  {
    hide Project, Batched, Labelled;
    assert prefixes[i][y] in prefixes[i];
    ProjectAdds(result, out, {common, p});
  }

  lemma CommonWritten(texts: seq<Text>, prefixes: seq<seq<Prefix>>, common: Prefix, result: seq<Checked>, batches: Batches, k: nat,
                      out: seq<Checked>)
    requires |texts| == |prefixes| > 0 && (forall t :: t in texts ==> k < |t|) && Written(texts, prefixes, common, result, batches, k)
    requires WritesOut(batches, out) && SameLine(texts, k)
    ensures Written(texts, prefixes, common, result + out + [Checked(common, texts[0][k])], map[], k + 1)
  {
    hide Labelled, Owner;
    var all := result + out + [Checked(common, texts[0][k])];
    if NoneIs(prefixes, common) {
      SharedWritten(texts, prefixes, common, result, batches, k, out);
      forall i: nat, y: nat, p: Prefix | Owner(prefixes, i, y, p)
        ensures i < |texts| && texts[i] in texts && Project(all, {common, p}) + Batched(map[], p) == texts[i][..k + 1]
      {
        OwnerInRange(prefixes, i, y, p);
        Flushed(texts, prefixes, common, result, batches, k, out, i, y, p);
        assert all[..|all| - 1] == result + out;
        assert texts[i] in texts && texts[i][..k + 1] == texts[i][..k] + [texts[i][k]];
      }
    }
    NothingLabelled();
  }

  lemma SharedWritten(texts: seq<Text>, prefixes: seq<seq<Prefix>>, common: Prefix, result: seq<Checked>, batches: Batches, k: nat,
                      out: seq<Checked>)
    requires |texts| == |prefixes| > 0 && (forall t :: t in texts ==> k < |t|) && Written(texts, prefixes, common, result, batches, k)
    requires SameLine(texts, k) && WritesOut(batches, out) && NoneIs(prefixes, common)
    ensures Project(result + out + [Checked(common, texts[0][k])], {common}) == Shared(texts, k + 1)
  {
    hide Owner, Batched, SameLine, Labelled;
    var all := result + out + [Checked(common, texts[0][k])];
    ProjectAdds(result, out, {common});
    assert all[..|all| - 1] == result + out;
  }

  lemma NothingLabelled()
    ensures Labelled(map[])
  {
  }

  lemma OwnerInRange(prefixes: seq<seq<Prefix>>, i: nat, y: nat, p: Prefix)
    requires Owner(prefixes, i, y, p)
    ensures i < |prefixes|
  {
  }

  lemma BatchWritten(texts: seq<Text>, prefixes: seq<seq<Prefix>>, common: Prefix, result: seq<Checked>, batches: Batches, k: nat,
                     more: Batches)
    requires |texts| == |prefixes| > 0 && (forall t :: t in texts ==> k < |t|) && Written(texts, prefixes, common, result, batches, k)
    requires Batching(texts, prefixes, batches, more, k, |texts|, 0) && !SameLine(texts, k)
    ensures Written(texts, prefixes, common, result, more, k + 1)
  {
    hide Labelled, Project, Batched, Owner;
    if NoneIs(prefixes, common) {
      forall i: nat, y: nat, p: Prefix | Owner(prefixes, i, y, p)
        ensures i < |texts| && texts[i] in texts && Project(result, {common, p}) + Batched(more, p) == texts[i][..k + 1]
      {
        OwnerInRange(prefixes, i, y, p);
        assert texts[i] in texts && texts[i][..k + 1] == texts[i][..k] + [texts[i][k]];
      }
    }
  }

  lemma AllWritten(texts: seq<Text>, prefixes: seq<seq<Prefix>>, common: Prefix, result: seq<Checked>, batches: Batches, out: seq<Checked>)
    requires |texts| == |prefixes| > 0 && (forall t :: t in texts ==> |t| == |texts[0]|)
    requires Written(texts, prefixes, common, result, batches, |texts[0]|)
    requires WritesOut(batches, out)
    ensures NoneIs(prefixes, common) ==>
              forall i: nat, y: nat, p: Prefix :: Owner(prefixes, i, y, p) ==> i < |texts| && Project(result + out, {common, p}) == texts[i]
    ensures NoneIs(prefixes, common) ==> Project(result + out, {common}) == Shared(texts, |texts[0]|)
  {
    ProjectAdds(result, out, {common});
    hide Project, Batched, Owner, Labelled;
    if NoneIs(prefixes, common) {
      forall i: nat, y: nat, p: Prefix | Owner(prefixes, i, y, p) ensures i < |texts| && Project(result + out, {common, p}) == texts[i] {
        OwnerInRange(prefixes, i, y, p);
        Flushed(texts, prefixes, common, result, batches, |texts[0]|, out, i, y, p);
        assert texts[i] in texts && texts[i][..|texts[0]|] == texts[i];
      }
    }
  }

  /** What pruning keeps is what breaking down needs: each prefix is one text's only, and the prefix that is common to all
      runs is none of them. */
  lemma PrunedPrefixesAreOwned(runs: seq<Run>, infos: seq<Entry>, kept: seq<seq<Prefix>>, common: Prefix)
    requires Collected(runs, infos) && |kept| == |infos| > 1 && forall i :: 0 <= i < |infos| ==> Serves(runs, infos[i].text, kept[i])
    requires forall run :: run in runs ==> common in run.prefixes
    ensures NoneIs(kept, common)
    ensures forall i: nat, y: nat :: i < |kept| && y < |kept[i]| ==> Owner(kept, i, y, kept[i][y])
  {
    forall i | 0 <= i < |kept| ensures common !in kept[i] {
      var j := if i == 0 then 1 else 0;
      RunOf(runs, infos, j);
      var run :| run in runs && run.text == infos[j].text;
      assert infos[j].text != infos[i].text;
      assert common in run.prefixes && (Private(runs, infos[i].text, common) ==> common !in run.prefixes);
    }
    forall i: nat, y: nat | i < |kept| && y < |kept[i]| ensures Owner(kept, i, y, kept[i][y]) {
      var p := kept[i][y];
      assert p in kept[i] && Private(runs, infos[i].text, p);
      forall j, z | 0 <= j < |kept| && 0 <= z < |kept[j]| && kept[j][z] == p ensures j == i && z == y {
        assert p in kept[j] && Private(runs, infos[j].text, p);
        var run :| run in runs && run.text == infos[j].text && p in run.prefixes;
        assert infos[j].text == infos[i].text;
      }
    }
  }

  lemma RunOf(runs: seq<Run>, infos: seq<Entry>, j: nat)
    requires Collected(runs, infos) && j < |infos|
    ensures exists run :: run in runs && run.text == infos[j].text
  {
    assert infos[j].sets[0] in infos[j].sets;
    assert Run(infos[j].sets[0], infos[j].text) in runs;
  }
}
