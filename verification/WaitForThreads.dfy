/** Threads that meet at a condition variable: workers that block until they are released together. */
module WaitForThreads {
  import opened Wrappers

  /** Where a thread is. Between Entered and Leaving it holds the mutex, but for Waiting and Woken. */
  datatype Pc =
    | Start          // before pthread_mutex_lock
    | Entered        // with the mutex
    | Counted        // block: after n++
    | Asking         // releaseThreads: not enough threads are blocked
    | Parking        // before pthread_cond_wait
    | Waiting        // in pthread_cond_wait
    | Woken          // signalled, to take the mutex again
    | ResetN         // unblockThreads: before n = 0
    | ResetWaitFor   // before waitFor = 0
    | Broadcasting   // before pthread_cond_broadcast
    | Leaving        // before pthread_mutex_unlock
    | Finished

  type Thread = nat

  /** The workers come first, the last thread is the one that releases them. */
  datatype State = State(n: nat, waitFor: nat, owner: Option<Thread>, pc: seq<Pc>)

  function Init(workers: nat): State {
    State(0, 0, None, seq(workers + 1, _ => Start))
  }

  function Releaser(s: State): int {
    |s.pc| - 1
  }

  predicate Enabled(s: State, t: Thread) {
    t < |s.pc| && match s.pc[t]
                  case Start => s.owner.None?
                  case Woken => s.owner.None?
                  case Waiting => false
                  case Finished => false
                  case _ => true
  }

  function Goto(s: State, t: Thread, pc: Pc): State
    requires t < |s.pc|
  {
    s.(pc := s.pc[t := pc])
  }

  function WakeAll(pcs: seq<Pc>): seq<Pc> {
    seq(|pcs|, i requires 0 <= i < |pcs| => if pcs[i] == Waiting then Woken else pcs[i])
  }

  /** What thread t does next. */
  function Step(s: State, num: nat, t: Thread): State
    requires Enabled(s, t)
  {
    match s.pc[t]
    case Start => Goto(s, t, Entered).(owner := Some(t))
    case Entered =>
      if t != Releaser(s) then Goto(s, t, Counted).(n := s.n + 1)
      else if s.n >= num then Goto(s, t, ResetN)
      else Goto(s, t, Asking)
    case Counted => if s.waitFor > 0 && s.n == s.waitFor then Goto(s, t, ResetN) else Goto(s, t, Parking)
    case Asking => Goto(s, t, Parking).(waitFor := num)
    case Parking => Goto(s, t, Waiting).(owner := None)
    case Woken => Goto(s, t, Leaving).(owner := Some(t))
    case ResetN => Goto(s, t, ResetWaitFor).(n := 0)
    case ResetWaitFor => Goto(s, t, Broadcasting).(waitFor := 0)
    case Broadcasting => s.(pc := WakeAll(s.pc)[t := Leaving])
    case Leaving => Goto(s, t, Finished).(owner := None)
    case _ => s
  }

  /** An order in which threads take steps. */
  predicate Runs(s: State, num: nat, order: seq<Thread>)
    decreases |order|
  {
    order == [] || (Enabled(s, order[0]) && Runs(Step(s, num, order[0]), num, order[1..]))
  }

  function After(s: State, num: nat, order: seq<Thread>): State
    requires Runs(s, num, order)
    decreases |order|
  {
    if order == [] then s else After(Step(s, num, order[0]), num, order[1..])
  }

  predicate Stuck(s: State) {
    forall t :: 0 <= t < |s.pc| ==> !Enabled(s, t)
  }

  predicate AllFinished(s: State) {
    forall t :: 0 <= t < |s.pc| ==> s.pc[t] == Finished
  }

  // ----- What all runs keep ----------------------------------------------------------------

  predicate Critical(pc: Pc) {
    pc != Start && pc != Waiting && pc != Woken && pc != Finished
  }

  predicate Opening(pc: Pc) {
    pc == ResetN || pc == ResetWaitFor || pc == Broadcasting
  }

  predicate Gone(pc: Pc) {
    pc == Woken || pc == Leaving || pc == Finished
  }

  /** Whoever is in a critical section holds the mutex. */
  ghost predicate Exclusive(s: State) {
    && (forall t: Thread :: t < |s.pc| ==> (Critical(s.pc[t]) <==> s.owner == Some(t)))
    && (s.owner.Some? ==> s.owner.value < |s.pc|)
  }

  ghost predicate HasArrived(s: State, t: Thread) {
    t < |s.pc| - 1 && (s.pc[t] == Counted || s.pc[t] == Parking || s.pc[t] == Waiting)
  }

  /** The workers that have been counted. */
  ghost function Arrived(s: State): set<Thread> {
    set t: Thread | t < |s.pc| && HasArrived(s, t)
  }

  /** Nobody has been released: n counts the workers that wait, and the releaser, once it has asked for num, waits for more. */
  ghost predicate Closed(s: State, num: nat) {
    && (forall t :: 0 <= t < |s.pc| ==> !Opening(s.pc[t]) && !Gone(s.pc[t]) && (s.pc[t] == Asking ==> t == |s.pc| - 1))
    && s.n == |Arrived(s)| && |s.pc| > 0
    && var pc := s.pc[|s.pc| - 1];
    && pc != Counted && (s.waitFor == if pc == Parking || pc == Waiting then num else 0) && (pc == Asking ==> s.n < num)
    && (pc == Parking || pc == Waiting ==>
          num > 0 && (s.n < num || (s.n == num && exists t :: 0 <= t < |s.pc| - 1 && s.pc[t] == Counted)))
  }

  /** One thread is about to release the others, at least num of which are there. */
  ghost predicate Opened(s: State, num: nat) {
    && |s.pc| > 0 && (exists t :: 0 <= t < |s.pc| && Opening(s.pc[t]))
    && (forall t :: 0 <= t < |s.pc| ==> Opening(s.pc[t]) || s.pc[t] == Start || s.pc[t] == Waiting)
    && s.pc[|s.pc| - 1] != Start
    && (|s.pc| - 1 == num ==> forall t :: 0 <= t < |s.pc| ==> s.pc[t] != Start)
    && num < |s.pc| && (forall t :: 0 <= t < |s.pc| && s.pc[t] == Broadcasting ==> s.waitFor == 0)
    && (forall t :: 0 <= t < |s.pc| && (s.pc[t] == ResetWaitFor || s.pc[t] == Broadcasting) ==> s.n == 0)
  }

  /** The others have been released; nobody will be again. n counts the workers that come late. */
  ghost predicate Released(s: State, num: nat) {
    && |s.pc| > 0 && s.waitFor == 0 && Gone(s.pc[|s.pc| - 1]) && (forall t :: 0 <= t < |s.pc| ==> !Opening(s.pc[t]) && s.pc[t] != Asking)
    && (|s.pc| - 1 == num ==> forall t :: 0 <= t < |s.pc| ==> Gone(s.pc[t]))
    && num < |s.pc| && s.n == |Arrived(s)|
  }

  ghost predicate Inv(s: State, num: nat) {
    |s.pc| > 0 && Exclusive(s) && (Closed(s, num) || Opened(s, num) || Released(s, num))
  }

  lemma InitHolds(workers: nat, num: nat)
    ensures Inv(Init(workers), num)
  {
    assert Arrived(Init(workers)) == {};
  }

  lemma StepKeepsMutex(s: State, num: nat, t: Thread)
    requires Exclusive(s) && Enabled(s, t)
    ensures Exclusive(Step(s, num, t))
  {
    assert Critical(s.pc[t]) <==> s.owner == Some(t);
  }

  lemma StepKeeps(s: State, num: nat, t: Thread)
    requires Inv(s, num) && Enabled(s, t)
    ensures Inv(Step(s, num, t), num)
  {
    StepKeepsMutex(s, num, t);
    if Closed(s, num) {
      ClosedStep(s, num, t);
    } else if Opened(s, num) {
      OpenedStep(s, num, t);
    } else {
      ReleasedStep(s, num, t);
    }
  }

  lemma ClosedStep(s: State, num: nat, t: Thread)
    requires |s.pc| > 0 && Exclusive(s) && Closed(s, num) && Enabled(s, t)
    ensures Closed(Step(s, num, t), num) || Opened(Step(s, num, t), num)
  {
    assert Critical(s.pc[t]) <==> s.owner == Some(t);
    assert !Opening(s.pc[t]) && !Gone(s.pc[t]);
    var s' := Step(s, num, t);
    if Opening(s'.pc[t]) {
      Opens(s, num, t);
    } else if s.pc[t] == Entered && t != Releaser(s) {
      Counts(s, num, t);
    } else {
      StaysClosed(s, num, t);
    }
  }

  lemma StaysClosed(s: State, num: nat, t: Thread)
    requires |s.pc| > 0 && Closed(s, num) && Enabled(s, t)
    requires !(s.pc[t] == Entered && t != Releaser(s)) && !Opening(Step(s, num, t).pc[t])
    ensures Closed(Step(s, num, t), num)
  {
    var s' := Step(s, num, t);
    ArrivedSame(s, num, t);
    NoneOpens(s, num, t);
    hide Arrived, HasArrived, Opening, Gone;
    assert forall i: Thread :: i < |s.pc| && i != t ==> s'.pc[i] == s.pc[i];
    if s.pc[t] == Counted {
      assert s'.pc[|s.pc| - 1] == s.pc[|s.pc| - 1];
    }
  }

  lemma NoneOpens(s: State, num: nat, t: Thread)
    requires |s.pc| > 0 && Closed(s, num) && Enabled(s, t) && !Opening(Step(s, num, t).pc[t])
    ensures var s' := Step(s, num, t);
            && !Opening(s.pc[t]) && !Gone(s.pc[t])
            && forall i: Thread :: i < |s'.pc| ==> !Opening(s'.pc[i]) && !Gone(s'.pc[i]) && (s'.pc[i] == Asking ==> i == |s'.pc| - 1)
  {
    hide Arrived;
    assert !Opening(s.pc[t]) && !Gone(s.pc[t]);
  }

  lemma Counts(s: State, num: nat, t: Thread)
    requires |s.pc| > 0 && Exclusive(s) && Closed(s, num) && Enabled(s, t) && s.pc[t] == Entered && t != Releaser(s)
    ensures Closed(Step(s, num, t), num)
  {
    NobodyElseCounts(s, t);
    ArrivedMore(s, num, t);
    hide Arrived, Exclusive, Enabled, HasArrived;
    var s' := Step(s, num, t);
    assert s' == Goto(s, t, Counted).(n := s.n + 1);
    hide Step;
    assert forall i: Thread :: i < |s.pc| && i != t ==> s'.pc[i] == s.pc[i];
    assert s'.pc[t] == Counted;
  }

  lemma NobodyElseCounts(s: State, t: Thread)
    requires Exclusive(s) && t < |s.pc| && s.pc[t] == Entered
    ensures forall i: Thread :: i < |s.pc| ==> s.pc[i] != Counted
  {
    assert Critical(s.pc[t]) <==> s.owner == Some(t);
    forall i: Thread | i < |s.pc| ensures s.pc[i] != Counted {
      assert Critical(s.pc[i]) <==> s.owner == Some(i);
    }
  }

  lemma ArrivedMore(s: State, num: nat, t: Thread)
    requires Enabled(s, t) && s.pc[t] == Entered && t != Releaser(s)
    ensures |Arrived(Step(s, num, t))| == |Arrived(s)| + 1
  {
    assert Arrived(Step(s, num, t)) == Arrived(s) + {t} && t !in Arrived(s);
  }

  lemma ArrivedSame(s: State, num: nat, t: Thread)
    requires |s.pc| > 0 && Closed(s, num) && Enabled(s, t)
    requires !(s.pc[t] == Entered && t != Releaser(s)) && !Opening(Step(s, num, t).pc[t])
    ensures Arrived(Step(s, num, t)) == Arrived(s)
  {
    assert !Opening(s.pc[t]) && !Gone(s.pc[t]);
    assert forall i: Thread :: i < |s.pc| ==> (HasArrived(Step(s, num, t), i) <==> HasArrived(s, i));
  }

  lemma Opens(s: State, num: nat, t: Thread)
    requires |s.pc| > 0 && Exclusive(s) && Closed(s, num) && Enabled(s, t) && Opening(Step(s, num, t).pc[t])
    ensures Opened(Step(s, num, t), num)
  {
    OthersOut(s, num, t);
    OpenerCounts(s, num, t);
    EnoughArrived(s, num);
    var s' := Step(s, num, t);
    assert s'.pc == s.pc[t := ResetN];
    hide Exclusive, Enabled, Arrived, HasArrived, Step, Closed;
    assert Opening(s'.pc[t]);
  }

  lemma OthersOut(s: State, num: nat, t: Thread)
    requires Exclusive(s) && Closed(s, num) && t < |s.pc| && Critical(s.pc[t])
    ensures forall i: Thread :: i < |s.pc| && i != t ==> s.pc[i] == Start || s.pc[i] == Waiting
  {
    assert Critical(s.pc[t]) <==> s.owner == Some(t);
    hide Arrived;
    forall i: Thread | i < |s.pc| && i != t ensures s.pc[i] == Start || s.pc[i] == Waiting {
      assert Critical(s.pc[i]) <==> s.owner == Some(i);
      assert !Gone(s.pc[i]);
    }
  }

  lemma OpenerCounts(s: State, num: nat, t: Thread)
    requires Closed(s, num) && Enabled(s, t) && Opening(Step(s, num, t).pc[t])
    ensures s.n >= num && Critical(s.pc[t]) && Step(s, num, t).pc[t] == ResetN && Step(s, num, t).waitFor == s.waitFor
    ensures s.pc[|s.pc| - 1] != Start || t == |s.pc| - 1
  {
    hide Arrived;
    assert !Opening(s.pc[t]) && !Gone(s.pc[t]);
  }

  lemma EnoughArrived(s: State, num: nat)
    requires Closed(s, num) && s.n >= num
    ensures num < |s.pc| && (|s.pc| - 1 == num ==> forall i: Thread :: i < |s.pc| - 1 ==> s.pc[i] != Start)
  {
    var workers := FirstThreads(|s.pc| - 1);
    assert Arrived(s) <= workers;
    SubsetCounts(Arrived(s), workers);
    if |s.pc| - 1 == num {
      forall i: Thread | i < |s.pc| - 1 ensures s.pc[i] != Start {
        assert i in Arrived(s);
      }
    }
  }

  ghost function FirstThreads(k: nat): (s: set<Thread>)
    ensures |s| == k && forall t: Thread :: t in s <==> t < k
  {
    if k == 0 then {} else FirstThreads(k - 1) + {k - 1}
  }

  lemma {:induction false} SubsetCounts(a: set<Thread>, b: set<Thread>)
    requires a <= b
    ensures |a| <= |b| && (|a| == |b| ==> a == b)
  {
    if a != {} {
      var x :| x in a;
      SubsetCounts(a - {x}, b - {x});
    }
  }

  lemma OpenedStep(s: State, num: nat, t: Thread)
    requires |s.pc| > 0 && Exclusive(s) && Opened(s, num) && Enabled(s, t)
    ensures Opened(Step(s, num, t), num) || Released(Step(s, num, t), num)
  {
    var o :| 0 <= o < |s.pc| && Opening(s.pc[o]);
    OnlyOpener(s, num, t, o);
    if s.pc[o] == Broadcasting {
      Broadcasts(s, num, o);
    } else {
      assert Opening(Step(s, num, t).pc[o]);
    }
  }

  lemma OnlyOpener(s: State, num: nat, t: Thread, o: Thread)
    requires |s.pc| > 0 && Exclusive(s) && Opened(s, num) && Enabled(s, t) && o < |s.pc| && Opening(s.pc[o])
    ensures t == o && forall i: Thread :: i < |s.pc| && i != o ==> s.pc[i] == Start || s.pc[i] == Waiting
  {
    assert Critical(s.pc[t]) <==> s.owner == Some(t);
    assert Critical(s.pc[o]) <==> s.owner == Some(o);
    forall i: Thread | i < |s.pc| && i != o ensures s.pc[i] == Start || s.pc[i] == Waiting {
      assert Critical(s.pc[i]) <==> s.owner == Some(i);
    }
  }

  lemma Broadcasts(s: State, num: nat, o: Thread)
    requires |s.pc| > 0 && Opened(s, num) && o < |s.pc| && s.pc[o] == Broadcasting
    requires forall i: Thread :: i < |s.pc| && i != o ==> s.pc[i] == Start || s.pc[i] == Waiting
    requires s.waitFor == 0
    ensures Released(Step(s, num, o), num)
  {
    var s' := Step(s, num, o);
    assert forall i: Thread :: i < |s.pc| && i != o ==> s'.pc[i] == if s.pc[i] == Waiting then Woken else Start;
    assert Arrived(s') == {};
  }

  lemma ReleasedStep(s: State, num: nat, t: Thread)
    requires |s.pc| > 0 && Exclusive(s) && Released(s, num) && Enabled(s, t)
    ensures Released(Step(s, num, t), num)
  {
    LateComers(s, num, t);
    hide Arrived;
  }

  /** After the release n still counts who comes. */
  lemma LateComers(s: State, num: nat, t: Thread)
    requires |s.pc| > 0 && Released(s, num) && Enabled(s, t)
    ensures Step(s, num, t).n == |Arrived(Step(s, num, t))|
  {
    var s' := Step(s, num, t);
    if s.pc[t] == Entered && t != Releaser(s) {
      ArrivedMore(s, num, t);
    } else {
      assert Arrived(s') == Arrived(s) by {
        assert forall i: Thread :: i < |s.pc| ==> (HasArrived(s', i) <==> HasArrived(s, i));
      }
    }
  }

  lemma {:induction false} RunKeeps(s: State, num: nat, order: seq<Thread>)
    requires Inv(s, num) && Runs(s, num, order)
    ensures Inv(After(s, num, order), num) && |After(s, num, order).pc| == |s.pc|
    decreases |order|
  {
    hide Inv;
    if order != [] {
      StepKeeps(s, num, order[0]);
      RunKeeps(Step(s, num, order[0]), num, order[1..]);
    }
  }

  // ----- What runs guarantee ------------------------------------------------------------------

  /** The assertion on n and waitFor in block never fails, whatever the numbers of workers. */
  lemma AssertionHolds(workers: nat, num: nat, order: seq<Thread>, t: Thread)
    requires Runs(Init(workers), num, order) && t <= workers
    ensures var s := After(Init(workers), num, order);
            t < |s.pc| && (s.pc[t] == Counted ==> s.waitFor == 0 || s.n <= s.waitFor)
  {
    InitHolds(workers, num);
    RunKeeps(Init(workers), num, order);
    var s := After(Init(workers), num, order);
    assert Opened(s, num) ==> Opening(s.pc[t]) || s.pc[t] == Start || s.pc[t] == Waiting;
  }

  /** Released with exactly the number of workers there are, no thread passes before all workers have come. */
  lemma NobodyPassesEarly(num: nat, order: seq<Thread>, t: Thread, worker: Thread)
    requires Runs(Init(num), num, order) && t <= num && worker < num
    ensures var s := After(Init(num), num, order);
            && t < |s.pc| && worker < |s.pc|
            && (s.pc[t] == Leaving || s.pc[t] == Finished ==> Gone(s.pc[worker]))
  {
    InitHolds(num, num);
    RunKeeps(Init(num), num, order);
    var s := After(Init(num), num, order);
    if s.pc[t] == Leaving || s.pc[t] == Finished {
      assert Gone(s.pc[t]);
    }
  }

  /** No wakeup is lost: when no thread can go on, all are done. */
  lemma NobodyIsLeft(num: nat, order: seq<Thread>)
    requires Runs(Init(num), num, order) && Stuck(After(Init(num), num, order))
    ensures AllFinished(After(Init(num), num, order))
  {
    InitHolds(num, num);
    RunKeeps(Init(num), num, order);
    var s := After(Init(num), num, order);
    Settled(s, num);
    if Closed(s, num) {
      AllCounted(s, num, FirstThreads(num));
    }
  }

  /** Before anybody is released, the waiting workers are counted. */
  lemma AllCounted(s: State, num: nat, waiting: set<Thread>)
    requires Closed(s, num) && forall t :: t in waiting ==> t < |s.pc| - 1 && s.pc[t] == Waiting
    ensures s.n >= |waiting|
  {
    SubsetCounts(waiting, Arrived(s));
  }

  /** Where nobody can go on, the mutex is free and everybody waits or is done. */
  lemma Settled(s: State, num: nat)
    requires Inv(s, num) && Stuck(s)
    ensures !Opened(s, num) && s.owner.None? && forall t: Thread :: t < |s.pc| ==> s.pc[t] == Waiting || s.pc[t] == Finished
  {
    assert s.owner.Some? ==> Enabled(s, s.owner.value);
    forall t: Thread | t < |s.pc| ensures s.pc[t] == Waiting || s.pc[t] == Finished {
      assert !Enabled(s, t);
    }
  }

  /** Where a run can go on no further, n is the number of the workers that wait, and waitFor is what the releaser, if it
      waits too, waits for. After a full release everything is as at the start, but that the threads are done. */
  lemma WhatIsLeft(workers: nat, num: nat, order: seq<Thread>)
    requires Runs(Init(workers), num, order) && Stuck(After(Init(workers), num, order))
    ensures var s := After(Init(workers), num, order);
            && |s.pc| == workers + 1 && s.owner == None
            && s.n == |set t: Thread | t < workers && s.pc[t] == Waiting|
            && s.waitFor == if s.pc[workers] == Waiting then num else 0
    ensures workers == num ==> After(Init(workers), num, order).(pc := Init(workers).pc) == Init(workers)
  {
    InitHolds(workers, num);
    RunKeeps(Init(workers), num, order);
    var s := After(Init(workers), num, order);
    Settled(s, num);
    LeftWaiting(s);
    hide Runs, After, Exclusive, Opened, Arrived;
    if workers == num {
      NobodyIsLeft(num, order);
      assert (set t: Thread | t < workers && s.pc[t] == Waiting) == {};
    }
  }

  lemma LeftWaiting(s: State)
    requires |s.pc| > 0 && forall t: Thread :: t < |s.pc| ==> s.pc[t] == Waiting || s.pc[t] == Finished
    ensures Arrived(s) == set t: Thread | t < |s.pc| - 1 && s.pc[t] == Waiting
  {
  }

  // ----- Every run ends -----------------------------------------------------------------------

  function Rank(pc: Pc): nat {
    match pc
    case Start => 9
    case Entered => 8
    case Counted => 7
    case Asking => 7
    case Parking => 6
    case Waiting => 3
    case Woken => 2
    case ResetN => 5
    case ResetWaitFor => 4
    case Broadcasting => 3
    case Leaving => 1
    case Finished => 0
  }

  function Total(pcs: seq<Pc>): (r: nat)
    ensures r <= 9 * |pcs|
  {
    if pcs == [] then 0 else Rank(pcs[0]) + Total(pcs[1..])
  }

  lemma {:induction false} TotalDrops(a: seq<Pc>, b: seq<Pc>, t: Thread)
    requires |a| == |b| && t < |a| && Rank(b[t]) < Rank(a[t])
    requires forall i :: 0 <= i < |a| ==> Rank(b[i]) <= Rank(a[i])
    ensures Total(b) < Total(a)
  {
    if t > 0 {
      TotalDrops(a[1..], b[1..], t - 1);
    } else {
      TotalFalls(a[1..], b[1..]);
    }
  }

  lemma {:induction false} TotalFalls(a: seq<Pc>, b: seq<Pc>)
    requires |a| == |b| && forall i :: 0 <= i < |a| ==> Rank(b[i]) <= Rank(a[i])
    ensures Total(b) <= Total(a)
  {
    if a != [] {
      TotalFalls(a[1..], b[1..]);
    }
  }

  lemma StepDrops(s: State, num: nat, t: Thread)
    requires Enabled(s, t)
    ensures Total(Step(s, num, t).pc) < Total(s.pc)
  {
    TotalDrops(s.pc, Step(s, num, t).pc, t);
  }

  lemma {:induction false} RunsAreShort(s: State, num: nat, order: seq<Thread>)
    requires Runs(s, num, order)
    ensures |order| <= Total(s.pc)
    decreases |order|
  {
    if order != [] {
      StepDrops(s, num, order[0]);
      RunsAreShort(Step(s, num, order[0]), num, order[1..]);
    }
  }

  /** Whatever the interleaving, the threads take at most nine steps each. */
  lemma EveryRunEnds(workers: nat, num: nat, order: seq<Thread>)
    requires Runs(Init(workers), num, order)
    ensures |order| <= 9 * (workers + 1)
  {
    RunsAreShort(Init(workers), num, order);
  }

  // ----- Other numbers of workers ----------------------------------------------------------------

  /** The threads but one may go on until none of them can. */
  lemma {:induction false} OthersRun(s: State, num: nat, but: Thread) returns (order: seq<Thread>)
    requires Inv(s, num) && (but < |s.pc| ==> s.pc[but] == Start)
    ensures Runs(s, num, order) && Inv(After(s, num, order), num) && |After(s, num, order).pc| == |s.pc|
    ensures forall t: Thread :: t < |s.pc| && t != but ==> !Enabled(After(s, num, order), t)
    ensures but < |s.pc| ==> After(s, num, order).pc[but] == Start
    decreases Total(s.pc)
  {
    if t: Thread :| t < |s.pc| && t != but && Enabled(s, t) {
      StepDrops(s, num, t);
      StepKeeps(s, num, t);
      hide Inv;
      var rest := OthersRun(Step(s, num, t), num, but);
      order := [t] + rest;
      assert order[1..] == rest;
    } else {
      order := [];
    }
  }

  /** With too few workers nobody is ever released. */
  lemma TooFewWorkers(workers: nat, num: nat, order: seq<Thread>, t: Thread)
    requires workers < num && Runs(Init(workers), num, order) && t <= workers
    ensures var s := After(Init(workers), num, order);
            t < |s.pc| && s.pc[t] != Leaving && s.pc[t] != Finished
  {
    InitHolds(workers, num);
    RunKeeps(Init(workers), num, order);
    var s := After(Init(workers), num, order);
    assert Closed(s, num);
    assert !Gone(s.pc[t]);
  }

  /** With too many workers, one that comes late waits for ever. */
  lemma TooManyWorkers(workers: nat, num: nat) returns (order: seq<Thread>)
    requires workers > num
    ensures Runs(Init(workers), num, order) && Stuck(After(Init(workers), num, order)) && !AllFinished(After(Init(workers), num, order))
  {
    InitHolds(workers, num);
    var first := OthersRun(Init(workers), num, 0);
    var s := After(Init(workers), num, first);
    OthersSettled(s, num);
    order := first + [0, 0, 0, 0];
    LateComerWaits(s, num);
    RunsOn(Init(workers), num, first, [0, 0, 0, 0]);
  }

  lemma {:induction false} RunsOn(s: State, num: nat, first: seq<Thread>, more: seq<Thread>)
    requires Runs(s, num, first) && Runs(After(s, num, first), num, more)
    ensures Runs(s, num, first + more) && After(s, num, first + more) == After(After(s, num, first), num, more)
    decreases |first|
  {
    if first == [] {
      assert first + more == more;
    } else {
      RunsOn(Step(s, num, first[0]), num, first[1..], more);
      assert (first + more)[1..] == first[1..] + more;
    }
  }

  lemma OthersSettled(s: State, num: nat)
    requires Inv(s, num) && num < |s.pc| - 1 && s.pc[0] == Start && forall t: Thread :: 0 < t < |s.pc| ==> !Enabled(s, t)
    ensures s.owner.None? && s.waitFor == 0
    ensures forall t: Thread :: 0 < t < |s.pc| ==> s.pc[t] == Waiting || s.pc[t] == Finished
  {
    OthersIdle(s);
    NobodyOpens(s, num);
    hide Arrived, Enabled, Exclusive, Opened;
    var others := FirstThreads(|s.pc| - 1) - {0};
    assert FirstThreads(|s.pc| - 1) == others + {0};
    if Closed(s, num) {
      OthersCounted(s, num, others);
    }
  }

  lemma OthersIdle(s: State)
    requires |s.pc| > 0 && Exclusive(s) && s.pc[0] == Start && forall t: Thread :: 0 < t < |s.pc| ==> !Enabled(s, t)
    ensures s.owner.None? && forall t: Thread :: 0 < t < |s.pc| ==> s.pc[t] == Waiting || s.pc[t] == Finished
  {
    assert Critical(s.pc[0]) <==> s.owner == Some(0);
    assert s.owner.Some? ==> Enabled(s, s.owner.value);
    forall t: Thread | 0 < t < |s.pc| ensures s.pc[t] == Waiting || s.pc[t] == Finished {
      assert !Enabled(s, t);
    }
  }

  lemma NobodyOpens(s: State, num: nat)
    requires |s.pc| > 0 && s.pc[0] == Start && forall t: Thread :: 0 < t < |s.pc| ==> s.pc[t] == Waiting || s.pc[t] == Finished
    ensures !Opened(s, num)
  {
  }

  lemma OthersCounted(s: State, num: nat, others: set<Thread>)
    requires Closed(s, num) && others == FirstThreads(|s.pc| - 1) - {0} && |others| >= num
    requires forall t: Thread :: 0 < t < |s.pc| ==> s.pc[t] == Waiting || s.pc[t] == Finished
    requires s.pc[0] == Start
    ensures s.pc[|s.pc| - 1] == Start
  {
    forall t | t in others ensures s.pc[t] == Waiting {
      assert !Gone(s.pc[t]);
    }
    AllCounted(s, num, others);
  }

  lemma LateComerWaits(s: State, num: nat)
    requires |s.pc| > 1 && s.pc[0] == Start && s.owner.None? && s.waitFor == 0
    requires forall t: Thread :: 0 < t < |s.pc| ==> s.pc[t] == Waiting || s.pc[t] == Finished
    ensures Runs(s, num, [0, 0, 0, 0]) && Stuck(After(s, num, [0, 0, 0, 0])) && !AllFinished(After(s, num, [0, 0, 0, 0]))
  {
    var s1 := Step(s, num, 0);
    var s2 := Step(s1, num, 0);
    var s3 := Step(s2, num, 0);
    var s4 := Step(s3, num, 0);
    assert Runs(s4, num, []) && Runs(s3, num, [0]) && Runs(s2, num, [0, 0]) && Runs(s1, num, [0, 0, 0]);
    assert s4.pc[0] == Waiting;
  }

  /** All threads are sure to finish exactly if as many are released as there are workers. */
  lemma AllFinishIffNumbersAgree(workers: nat, num: nat)
    ensures (forall order :: Runs(Init(workers), num, order) && Stuck(After(Init(workers), num, order)) ==>
               AllFinished(After(Init(workers), num, order)))
       <==> workers == num
  {
    if workers == num {
      forall order | Runs(Init(workers), num, order) && Stuck(After(Init(workers), num, order))
        ensures AllFinished(After(Init(workers), num, order))
      {
        NobodyIsLeft(num, order);
      }
    } else if workers > num {
      var order := TooManyWorkers(workers, num);
    } else {
      InitHolds(workers, num);
      var order := OthersRun(Init(workers), num, workers + 1);
      TooFewWorkers(workers, num, order, 0);
    }
  }

  // ----- Spurious wakeups -----------------------------------------------------------------------------

  /** A thread takes its next step, or its wait returns without a signal. */
  datatype Move = Takes(t: Thread) | Wakes(t: Thread)

  predicate CanMove(s: State, m: Move) {
    match m
    case Takes(t) => Enabled(s, t)
    case Wakes(t) => t < |s.pc| && s.pc[t] == Waiting
  }

  function Moved(s: State, num: nat, m: Move): State
    requires CanMove(s, m)
  {
    match m
    case Takes(t) => Step(s, num, t)
    case Wakes(t) => Goto(s, t, Woken)
  }

  /** A run in which waits may return without a signal. */
  predicate LooseRuns(s: State, num: nat, moves: seq<Move>)
    decreases |moves|
  {
    moves == [] || (CanMove(s, moves[0]) && LooseRuns(Moved(s, num, moves[0]), num, moves[1..]))
  }

  function LooseAfter(s: State, num: nat, moves: seq<Move>): State
    requires LooseRuns(s, num, moves)
    decreases |moves|
  {
    if moves == [] then s else LooseAfter(Moved(s, num, moves[0]), num, moves[1..])
  }

  /** Some thread has passed although some worker has not even come. */
  predicate PassedEarly(s: State) {
    exists t, worker :: 0 <= t < |s.pc| && 0 <= worker < |s.pc| - 1 && s.pc[t] == Finished && s.pc[worker] == Start
  }

  lemma LooseStep(s: State, num: nat, m: Move, rest: seq<Move>)
    requires CanMove(s, m) && LooseRuns(Moved(s, num, m), num, rest)
    ensures LooseRuns(s, num, [m] + rest) && LooseAfter(s, num, [m] + rest) == LooseAfter(Moved(s, num, m), num, rest)
  {
    assert ([m] + rest)[1..] == rest;
  }

  /** The releaser is at pc while no worker has come. */
  function ReleaserAt(num: nat, pc: Pc, waitFor: nat): State {
    State(0, waitFor, if Critical(pc) then Some(num) else None, Init(num).pc[num := pc])
  }

  /** The releaser goes to its wait, wakes up unasked and passes while no worker has come. */
  lemma ReleaserPasses(num: nat) returns (moves: seq<Move>)
    requires num > 0
    ensures LooseRuns(Init(num), num, moves) && LooseAfter(Init(num), num, moves) == ReleaserAt(num, Finished, num)
  {
    moves := [];
    assert LooseRuns(ReleaserAt(num, Finished, num), num, []) && LooseAfter(ReleaserAt(num, Finished, num), num, []) == ReleaserAt(num, Finished, num);
    hide LooseRuns, LooseAfter;
    var go := Takes(num);
    ReleaserSteps(num);
    hide Moved, CanMove, ReleaserAt, Init;
    moves := ReleaserGoes(num, go, Leaving, num, Finished, num, moves);
    moves := ReleaserGoes(num, go, Woken, num, Leaving, num, moves);
    moves := ReleaserGoes(num, Wakes(num), Waiting, num, Woken, num, moves);
    moves := ReleaserGoes(num, go, Parking, num, Waiting, num, moves);
    moves := ReleaserGoes(num, go, Asking, 0, Parking, num, moves);
    moves := ReleaserGoes(num, go, Entered, 0, Asking, 0, moves);
    moves := ReleaserGoes(num, go, Start, 0, Entered, 0, moves);
  }

  ghost predicate GoesTo(num: nat, m: Move, pc: Pc, waitFor: nat, pc': Pc, waitFor': nat) {
    && CanMove(ReleaserAt(num, pc, waitFor), m)
    && Moved(ReleaserAt(num, pc, waitFor), num, m) == ReleaserAt(num, pc', waitFor')
  }

  lemma ReleaserSteps(num: nat)
    requires num > 0
    ensures Init(num) == ReleaserAt(num, Start, 0)
    ensures GoesTo(num, Takes(num), Start, 0, Entered, 0) && GoesTo(num, Takes(num), Entered, 0, Asking, 0)
    ensures GoesTo(num, Takes(num), Asking, 0, Parking, num) && GoesTo(num, Takes(num), Parking, num, Waiting, num)
    ensures GoesTo(num, Wakes(num), Waiting, num, Woken, num)
    ensures GoesTo(num, Takes(num), Woken, num, Leaving, num) && GoesTo(num, Takes(num), Leaving, num, Finished, num)
  {
    ReleaserStep(num, Takes(num), Start, 0, Entered, 0);
    ReleaserStep(num, Takes(num), Entered, 0, Asking, 0);
    ReleaserStep(num, Takes(num), Asking, 0, Parking, num);
    ReleaserStep(num, Takes(num), Parking, num, Waiting, num);
    ReleaserStep(num, Wakes(num), Waiting, num, Woken, num);
    ReleaserStep(num, Takes(num), Woken, num, Leaving, num);
    ReleaserStep(num, Takes(num), Leaving, num, Finished, num);
    hide GoesTo;
    assert Init(num) == ReleaserAt(num, Start, 0);
  }

  lemma ReleaserStep(num: nat, m: Move, pc: Pc, waitFor: nat, pc': Pc, waitFor': nat)
    requires num > 0 && m == if pc == Waiting then Wakes(num) else Takes(num)
    requires match pc
             case Start => waitFor == 0 && pc' == Entered && waitFor' == 0
             case Entered => waitFor == 0 && pc' == Asking && waitFor' == 0
             case Asking => waitFor == 0 && pc' == Parking && waitFor' == num
             case Parking => pc' == Waiting && waitFor' == waitFor
             case Waiting => pc' == Woken && waitFor' == waitFor
             case Woken => pc' == Leaving && waitFor' == waitFor
             case Leaving => pc' == Finished && waitFor' == waitFor
             case _ => false
    ensures GoesTo(num, m, pc, waitFor, pc', waitFor')
  {
    assert ReleaserAt(num, pc, waitFor).pc[num := pc'] == ReleaserAt(num, pc', waitFor').pc;
  }

  lemma ReleaserGoes(num: nat, m: Move, pc: Pc, waitFor: nat, pc': Pc, waitFor': nat, rest: seq<Move>) returns (moves: seq<Move>)
    requires GoesTo(num, m, pc, waitFor, pc', waitFor')
    requires LooseRuns(ReleaserAt(num, pc', waitFor'), num, rest)
    ensures LooseRuns(ReleaserAt(num, pc, waitFor), num, moves)
    ensures LooseAfter(ReleaserAt(num, pc, waitFor), num, moves) == LooseAfter(ReleaserAt(num, pc', waitFor'), num, rest)
  {
    LooseStep(ReleaserAt(num, pc, waitFor), num, m, rest);
    moves := [m] + rest;
  }

  /** If waits may return without a signal, somebody may pass before all workers have come, unless there are none:
      neither block nor releaseThreads tests again what it waits for. NobodyPassesEarly is about the other runs. */
  lemma SpuriousWakeupsBreakIt(num: nat)
    ensures (exists moves :: LooseRuns(Init(num), num, moves) && PassedEarly(LooseAfter(Init(num), num, moves))) <==> num > 0
  {
    if num > 0 {
      var moves := ReleaserPasses(num);
      var s := ReleaserAt(num, Finished, num);
      assert s.pc[num] == Finished && s.pc[0] == Start;
    } else {
      forall moves | LooseRuns(Init(num), num, moves) ensures !PassedEarly(LooseAfter(Init(num), num, moves)) {
        LooseKeepsThreads(Init(num), num, moves);
      }
    }
  }

  lemma {:induction false} LooseKeepsThreads(s: State, num: nat, moves: seq<Move>)
    requires LooseRuns(s, num, moves)
    ensures |LooseAfter(s, num, moves).pc| == |s.pc|
    decreases |moves|
  {
    if moves != [] {
      LooseKeepsThreads(Moved(s, num, moves[0]), num, moves[1..]);
    }
  }
}
