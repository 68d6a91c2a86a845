/** The sense-reversing barrier of util.h as a machine of atomic steps, one shared
    access to a step, run by n threads under an arbitrary schedule. */
module Barrier {

  /** Where a thread stands: outside any call, past the flip of its private sense,
      spinning on the shared sense, or (the last one in) about to reset the
      counter and then about to publish the new sense. */
  datatype Pc = Outside | Entered | Spinning | Resetting | Publishing

  /** `arrived` and `left` are history variables: the number of counter increments
      and of returns this thread has made.  No guard reads them. */
  datatype Thread = Thread(pc: Pc, threadsense: bool, arrived: nat, left: nat)

  /** `flips` is a history variable too: how often the shared sense was published. */
  datatype State = State(sense: bool, count: int, threads: seq<Thread>, flips: nat)

  function Init(n: nat): State {
    State(false, 0, seq(n, _ => Thread(Outside, false, 0, 0)), 0)
  }

  /** One atomic step of thread t. */
  function Step(s: State, t: nat): State
    requires t < |s.threads|
  {
    var th := s.threads[t];
    match th.pc
    case Outside =>
      s.(threads := s.threads[t := th.(pc := Entered, threadsense := !th.threadsense)])
    case Entered =>
      var next := if s.count == |s.threads| - 1 then Resetting else Spinning;
      s.(count := s.count + 1, threads := s.threads[t := th.(pc := next, arrived := th.arrived + 1)])
    case Resetting =>
      s.(count := 0, threads := s.threads[t := th.(pc := Publishing)])
    case Publishing =>
      s.(sense := th.threadsense, flips := s.flips + 1,
         threads := s.threads[t := th.(pc := Outside, left := th.left + 1)])
    case Spinning =>
      if s.sense != th.threadsense then s
      else s.(threads := s.threads[t := th.(pc := Outside, left := th.left + 1)])
  }

  /** Any sequence of turns of n threads. */
  predicate Schedule(n: nat, schedule: seq<nat>) {
    n > 0 && forall i | 0 <= i < |schedule| :: schedule[i] < n
  }

  /** The state after the threads named in `schedule` have taken one step each, in
      that order. */
  function Run(n: nat, schedule: seq<nat>): (s: State)
    requires Schedule(n, schedule)
    ensures |s.threads| == n
  {
    if schedule == [] then Init(n)
    else
      var last := |schedule| - 1;
      Step(Run(n, schedule[..last]), schedule[last])
  }

  /** A thread that has incremented the counter of the round in progress. */
  predicate InRound(th: Thread, flips: nat) { th.arrived > flips }

  function Arrivals(threads: seq<Thread>, flips: nat): (c: nat)
    ensures c <= |threads|
  {
    if threads == [] then 0
    else
      var last := |threads| - 1;
      Arrivals(threads[..last], flips) + if InRound(threads[last], flips) then 1 else 0
  }

  predicate IsLast(th: Thread) { th.pc == Resetting || th.pc == Publishing }

  predicate Odd(k: nat) { k % 2 == 1 }

  /** What holds of one thread while the shared sense has been published `flips` times. */
  predicate ThreadInv(th: Thread, flips: nat) {
    match th.pc
    case Outside => th.arrived == th.left == flips && th.threadsense == Odd(th.arrived)
    case Entered => th.arrived == th.left == flips && th.threadsense == Odd(th.arrived + 1)
    case Spinning => flips <= th.arrived <= flips + 1 && th.arrived == th.left + 1 && th.threadsense == Odd(th.arrived)
    case _ => th.arrived == flips + 1 && th.left == flips && th.threadsense == Odd(th.arrived)
  }

  ghost predicate NoLast(s: State) {
    forall t | 0 <= t < |s.threads| :: !IsLast(s.threads[t])
  }

  ghost predicate OthersSpin(s: State, t: nat) {
    forall u | 0 <= u < |s.threads| && u != t :: s.threads[u].pc == Spinning && InRound(s.threads[u], s.flips)
  }

  ghost predicate LastInv(s: State, t: nat)
    requires t < |s.threads|
  {
    IsLast(s.threads[t]) ==>
      OthersSpin(s, t) && s.count == if s.threads[t].pc == Resetting then |s.threads| else 0
  }

  ghost predicate Inv(s: State) {
    && s.sense == Odd(s.flips)
    && (forall t | 0 <= t < |s.threads| :: ThreadInv(s.threads[t], s.flips))
    && (forall t | 0 <= t < |s.threads| :: LastInv(s, t))
    && (NoLast(s) ==> s.count == Arrivals(s.threads, s.flips) && s.count < |s.threads|)
  }

  // ---- counting arrivals

  lemma {:induction false} ArrivalsUpdate(threads: seq<Thread>, flips: nat, t: nat, th: Thread)
    requires t < |threads|
    ensures Arrivals(threads[t := th], flips) ==
            Arrivals(threads, flips) +
              (if InRound(th, flips) then 1 else 0) - (if InRound(threads[t], flips) then 1 else 0)
  {
    var last := |threads| - 1;
    if t == last {
      assert threads[t := th][..last] == threads[..last];
    } else {
      assert threads[t := th][..last] == threads[..last][t := th];
      ArrivalsUpdate(threads[..last], flips, t, th);
    }
  }

  lemma {:induction false} ArrivalsAll(threads: seq<Thread>, flips: nat)
    ensures Arrivals(threads, flips) == |threads| <==> forall t | 0 <= t < |threads| :: InRound(threads[t], flips)
    ensures (forall t | 0 <= t < |threads| :: !InRound(threads[t], flips)) ==> Arrivals(threads, flips) == 0
  {
    if threads != [] {
      var last := |threads| - 1;
      ArrivalsAll(threads[..last], flips);
      assert forall t | 0 <= t < |threads| :: t == last || threads[t] == threads[..last][t];
    }
  }

  // ---- every run keeps the invariant

  lemma InitInv(n: nat)
    requires n > 0
    ensures Inv(Init(n))
  {
    ArrivalsAll(Init(n).threads, 0);
  }

  /** While a last thread is resetting or publishing, the others can only spin. */
  lemma LastBlocks(s: State, t: nat, u: nat)
    requires Inv(s) && t < |s.threads| && u < |s.threads| && t != u && IsLast(s.threads[u])
    ensures s.threads[t].pc == Spinning && Step(s, t) == s
  {
    assert LastInv(s, u);
    assert ThreadInv(s.threads[t], s.flips);
  }

  lemma StepInv(s: State, t: nat)
    requires t < |s.threads| && Inv(s)
    ensures Inv(Step(s, t))
  {
    if u: nat :| u < |s.threads| && u != t && IsLast(s.threads[u]) {
      LastBlocks(s, t, u);
    } else if IsLast(s.threads[t]) {
      LastStepInv(s, t);
    } else {
      assert NoLast(s);
      if s.threads[t].pc == Entered { ArriveInv(s, t); } else { OpenStepInv(s, t); }
    }
  }

  lemma OpenStepInv(s: State, t: nat)
    requires t < |s.threads| && Inv(s) && NoLast(s) && s.threads[t].pc != Entered
    ensures Inv(Step(s, t))
  {
    var th, th' := s.threads[t], Step(s, t).threads[t];
    assert ThreadInv(th, s.flips) && !IsLast(th);
    assert ThreadInv(th', s.flips) && !IsLast(th') && InRound(th, s.flips) == InRound(th', s.flips);
    ArrivalsUpdate(s.threads, s.flips, t, th');
    OpenUpdate(s, t, th');
  }

  lemma OpenUpdate(s: State, t: nat, th: Thread)
    requires t < |s.threads| && Inv(s) && NoLast(s) && ThreadInv(th, s.flips) && !IsLast(th)
    requires Arrivals(s.threads[t := th], s.flips) == Arrivals(s.threads, s.flips)
    ensures Inv(s.(threads := s.threads[t := th]))
  {
    hide ThreadInv, Arrivals;
    var s' := s.(threads := s.threads[t := th]);
    assert forall u | 0 <= u < |s.threads| :: s'.threads[u] == if u == t then th else s.threads[u];
    assert NoLast(s');
  }

  lemma ArriveInv(s: State, t: nat)
    requires t < |s.threads| && Inv(s) && NoLast(s) && s.threads[t].pc == Entered
    ensures Inv(Step(s, t))
  {
    var s' := Step(s, t);
    ArrivalsUpdate(s.threads, s.flips, t, s'.threads[t]);
    assert ThreadInv(s.threads[t], s.flips);
    assert ThreadInv(s'.threads[t], s.flips);
    assert forall u | 0 <= u < |s.threads| && u != t ::
             s'.threads[u] == s.threads[u] && ThreadInv(s.threads[u], s.flips);
    if s'.threads[t].pc == Resetting {
      AllArrived(s', t);
    } else {
      assert NoLast(s');
    }
  }

  lemma AllArrived(s: State, t: nat)
    requires t < |s.threads| && Arrivals(s.threads, s.flips) == |s.threads|
    requires forall u | 0 <= u < |s.threads| :: ThreadInv(s.threads[u], s.flips)
    requires forall u | 0 <= u < |s.threads| && u != t :: !IsLast(s.threads[u])
    ensures OthersSpin(s, t)
  {
    ArrivalsAll(s.threads, s.flips);
    forall u | 0 <= u < |s.threads| && u != t ensures s.threads[u].pc == Spinning {
      assert InRound(s.threads[u], s.flips) && ThreadInv(s.threads[u], s.flips) && !IsLast(s.threads[u]);
    }
  }

  lemma LastStepInv(s: State, t: nat)
    requires t < |s.threads| && Inv(s) && IsLast(s.threads[t])
    ensures Inv(Step(s, t))
  {
    if s.threads[t].pc == Publishing { PublishInv(s, t); } else { ResetInv(s, t); }
  }

  /** A step of the last thread while the others spin. */
  lemma LastThreads(s: State, t: nat)
    requires t < |s.threads| && Inv(s) && IsLast(s.threads[t])
    ensures LastInv(s, t) && ThreadInv(s.threads[t], s.flips)
    ensures var s' := Step(s, t);
            |s'.threads| == |s.threads| && forall u | 0 <= u < |s.threads| && u != t ::
              s'.threads[u] == s.threads[u] && ThreadInv(s.threads[u], s.flips)
  {
  }

  lemma ResetInv(s: State, t: nat)
    requires t < |s.threads| && Inv(s) && s.threads[t].pc == Resetting
    ensures Inv(Step(s, t))
  {
    hide Arrivals;
    LastThreads(s, t);
    var s' := Step(s, t);
    assert IsLast(s'.threads[t]) && OthersSpin(s', t);
  }

  lemma PublishInv(s: State, t: nat)
    requires t < |s.threads| && Inv(s) && s.threads[t].pc == Publishing
    ensures Inv(Step(s, t))
  {
    hide Arrivals;
    LastThreads(s, t);
    var s' := Step(s, t);
    ArrivalsAll(s'.threads, s'.flips);
  }

  lemma {:induction false} RunInv(n: nat, schedule: seq<nat>)
    requires Schedule(n, schedule)
    ensures Inv(Run(n, schedule))
  {
    if schedule == [] {
      InitInv(n);
    } else {
      var last := |schedule| - 1;
      RunInv(n, schedule[..last]);
      StepInv(Run(n, schedule[..last]), schedule[last]);
    }
  }

  // ---- what the barrier promises, over every run

  /** In every run no thread has returned from more barriers than every other thread
      has arrived at, so nobody leaves the k-th barrier before all n are in it; and no
      two threads are ever more than one barrier apart. */
  lemma NoEarlyExit(n: nat, schedule: seq<nat>, t: nat, u: nat)
    requires Schedule(n, schedule)
    requires t < n && u < n
    ensures var s := Run(n, schedule);
            s.threads[t].left <= s.threads[u].arrived && s.threads[t].left <= s.threads[u].left + 1
  {
    RunInv(n, schedule);
  }

  /** The counter stays between 0 and n; it is back at 0, with no thread yet in the
      next round, at the moment the new sense is published. */
  lemma SafeReuse(n: nat, schedule: seq<nat>)
    requires Schedule(n, schedule)
    ensures var s := Run(n, schedule);
            && 0 <= s.count <= n
            && forall t | 0 <= t < n && s.threads[t].pc == Publishing ::
                 s.count == 0 && forall u | 0 <= u < n && u != t ::
                   s.threads[u].pc == Spinning && s.threads[u].arrived == s.threads[t].arrived
  {
    RunInv(n, schedule);
    var s := Run(n, schedule);
    forall t | 0 <= t < n ensures LastInv(s, t) && ThreadInv(s.threads[t], s.flips) {}
    if t: nat :| t < n && IsLast(s.threads[t]) {
      assert LastInv(s, t);
    } else {
      assert NoLast(s);
    }
  }

  /** A step that is neither a failed look at the shared sense nor a new call. */
  predicate Productive(s: State, t: nat)
    requires t < |s.threads|
  {
    var th := s.threads[t];
    th.pc != Outside && !(th.pc == Spinning && s.sense != th.threadsense)
  }

  /** While a thread waits, some thread inside a call has a step to take, or else
      some thread has not yet called the barrier the waiting one is in. */
  lemma NoDeadlock(n: nat, schedule: seq<nat>, t: nat)
    requires Schedule(n, schedule)
    requires t < n && Run(n, schedule).threads[t].pc != Outside
    ensures var s := Run(n, schedule);
            (exists u | 0 <= u < n :: Productive(s, u)) ||
            (exists u | 0 <= u < n :: s.threads[u].pc == Outside && s.threads[u].arrived + 1 == s.threads[t].arrived)
  {
    var s := Run(n, schedule);
    RunInv(n, schedule);
    if forall u | 0 <= u < n :: !Productive(s, u) {
      SomeoneOutside(s, t);
    }
  }

  lemma SomeoneOutside(s: State, t: nat)
    requires Inv(s) && t < |s.threads| && s.threads[t].pc != Outside
    requires forall u | 0 <= u < |s.threads| :: !Productive(s, u)
    ensures exists u | 0 <= u < |s.threads| ::
              s.threads[u].pc == Outside && s.threads[u].arrived + 1 == s.threads[t].arrived
  {
    assert !Productive(s, t) && ThreadInv(s.threads[t], s.flips);
    assert NoLast(s) by {
      forall u | 0 <= u < |s.threads| ensures !IsLast(s.threads[u]) {
        assert !Productive(s, u);
      }
    }
    ArrivalsAll(s.threads, s.flips);
    var u :| 0 <= u < |s.threads| && !InRound(s.threads[u], s.flips);
    assert !Productive(s, u) && ThreadInv(s.threads[u], s.flips);
  }

  /** Productive steps still to be taken before every thread now inside is out. */
  function Work(threads: seq<Thread>): nat {
    if threads == [] then 0
    else
      var last := |threads| - 1;
      Work(threads[..last]) + WorkOf(threads[last].pc)
  }

  function WorkOf(pc: Pc): nat {
    match pc
    case Outside => 0
    case Spinning => 1
    case Publishing => 2
    case Resetting => 3
    case Entered => 4
  }

  lemma {:induction false} WorkUpdate(threads: seq<Thread>, t: nat, th: Thread)
    requires t < |threads|
    ensures Work(threads[t := th]) == Work(threads) + WorkOf(th.pc) - WorkOf(threads[t].pc)
  {
    var last := |threads| - 1;
    if t == last {
      assert threads[t := th][..last] == threads[..last];
    } else {
      assert threads[t := th][..last] == threads[..last][t := th];
      WorkUpdate(threads[..last], t, th);
    }
  }

  /** No livelock: a productive step uses up work that nothing but a new call adds. */
  lemma ProductiveStepsRunOut(s: State, t: nat)
    requires t < |s.threads|
    ensures Productive(s, t) ==> Work(Step(s, t).threads) < Work(s.threads)
    ensures !Productive(s, t) && s.threads[t].pc != Outside ==> Step(s, t) == s
  {
    WorkUpdate(s.threads, t, Step(s, t).threads[t]);
  }
}
