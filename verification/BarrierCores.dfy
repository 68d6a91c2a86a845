/** Cores on one shared memory whose barrier is the one of util.h: a core that has come to a
    barrier takes the atomic steps of Barrier, between any steps of the others.  Each of its
    runs is a run of the machine of Interleaving, so what holds there of every interleaving
    holds over the real barrier. */
module BarrierCores {
  import opened Interleaving
  import Barrier

  /** The shared memory, how far each core is, and the barrier. */
  datatype Cores = Cores(mem: seq<real>, at: seq<nat>, barrier: Barrier.State)

  /** The machine of Interleaving that this one stands for. */
  function Abs(m: Cores): Machine { Machine(m.mem, m.at, m.barrier.flips) }

  predicate Fits(ts: seq<seq<Event>>, m: Cores) {
    Within(ts, Abs(m)) && |m.barrier.threads| == |ts|
  }

  predicate InBarrier(m: Cores, c: nat)
    requires c < |m.barrier.threads|
  {
    m.barrier.threads[c].pc != Barrier.Outside
  }

  /** One step of core c: an access, or a step of the barrier code, from which the core goes
      on when it returns. */
  function Turn(ts: seq<seq<Event>>, m: Cores, c: nat): (m': Cores)
    requires Fits(ts, m) && c < |ts|
    ensures Fits(ts, m')
  {
    if m.at[c] == |ts[c]| then m
    else
      var at := m.at[c := m.at[c] + 1];
      match ts[c][m.at[c]]
      case Load(_, _) => m.(at := at)
      case Store(x, v) => m.(mem := if x < |m.mem| then m.mem[x := v] else m.mem, at := at)
      case Sync =>
        var m' := m.(barrier := Barrier.Step(m.barrier, c));
        if InBarrier(m, c) && !InBarrier(m', c) then m'.(at := at) else m'
  }

  function Begin(plan: Plan, cores: nat): Cores {
    Cores(plan.mem(0), seq(cores, _ => 0), Barrier.Init(cores))
  }

  function After(plan: Plan, ts: seq<seq<Event>>, schedule: seq<nat>): (m: Cores)
    requires Schedule(|ts|, schedule)
    ensures Fits(ts, m)
  {
    if schedule == [] then Begin(plan, |ts|)
    else Turn(ts, After(plan, ts, schedule[..|schedule| - 1]), schedule[|schedule| - 1])
  }

  // ---- the invariant

  /** A core has returned from as many barriers as it has passed, and is in the code of a
      barrier only where its trace has one. */
  predicate Placed(ts: seq<seq<Event>>, m: Cores, c: nat)
    requires Fits(ts, m) && c < |ts|
  {
    && m.barrier.threads[c].left == Epoch(Past(ts, Abs(m), c))
    && (InBarrier(m, c) ==> AtSync(ts, Abs(m), c))
  }

  ghost predicate CoresInv(ts: seq<seq<Event>>, m: Cores) {
    Fits(ts, m) && Barrier.Inv(m.barrier) && forall c | 0 <= c < |ts| :: Placed(ts, m, c)
  }

  lemma BeginInv(plan: Plan, ts: seq<seq<Event>>)
    requires |ts| > 0
    ensures CoresInv(ts, Begin(plan, |ts|))
  {
    Barrier.InitInv(|ts|);
  }

  predicate Returns(m: Cores, c: nat)
    requires c < |m.barrier.threads|
  {
    InBarrier(m, c) && Barrier.Step(m.barrier, c).threads[c].pc == Barrier.Outside
  }

  /** Nobody returns from a barrier that some core has yet to come to. */
  lemma ReturnsWhenAllowed(ts: seq<seq<Event>>, m: Cores, c: nat)
    requires CoresInv(ts, m) && c < |ts| && Returns(m, c)
    ensures CanPass(ts, Abs(m), c)
    ensures var b, b' := m.barrier, Barrier.Step(m.barrier, c);
            b'.threads[c].left == b.threads[c].left + 1 &&
              b'.flips == if b.threads[c].left + 1 > b.flips then b.threads[c].left + 1 else b.flips
  {
    hide Epoch;
    var b := m.barrier;
    assert Placed(ts, m, c) && Barrier.ThreadInv(b.threads[c], b.flips) && Barrier.LastInv(b, c);
    forall d | 0 <= d < |ts|
      ensures Epoch(Past(ts, Abs(m), c)) < Epoch(Past(ts, Abs(m), d)) + if AtSync(ts, Abs(m), d) then 1 else 0
    {
      assert Placed(ts, m, d) && Barrier.ThreadInv(b.threads[d], b.flips);
    }
  }

  lemma BarrierStep(b: Barrier.State, c: nat)
    requires c < |b.threads|
    ensures var b' := Barrier.Step(b, c);
            |b'.threads| == |b.threads| && forall d | 0 <= d < |b.threads| && d != c :: b'.threads[d] == b.threads[d]
    ensures var th, b' := b.threads[c], Barrier.Step(b, c);
            !(th.pc != Barrier.Outside && b'.threads[c].pc == Barrier.Outside) ==>
              b'.flips == b.flips && b'.threads[c].left == th.left
  {
  }

  /** Every step is one of Interleaving's machine or none. */
  lemma TurnRefines(ts: seq<seq<Event>>, m: Cores, c: nat)
    requires CoresInv(ts, m) && c < |ts|
    ensures Abs(Turn(ts, m, c)) == Abs(m) || (Enabled(ts, Abs(m), c) && Abs(Turn(ts, m, c)) == Step(ts, Abs(m), c))
    ensures Abs(Turn(ts, m, c)) == Abs(m) <==> m.at[c] == |ts[c]| || (AtSync(ts, Abs(m), c) && !Returns(m, c))
  {
    hide Epoch, Barrier.Step, Barrier.Inv, CanPass;
    assert Placed(ts, m, c);
    BarrierStep(m.barrier, c);
    if m.at[c] < |ts[c]| && Returns(m, c) { ReturnsWhenAllowed(ts, m, c); }
  }

  lemma TurnInv(ts: seq<seq<Event>>, m: Cores, c: nat)
    requires CoresInv(ts, m) && c < |ts|
    ensures CoresInv(ts, Turn(ts, m, c))
  {
    var m' := Turn(ts, m, c);
    assert Barrier.Inv(m'.barrier) by {
      hide Barrier.Inv, Barrier.Step, Placed;
      Barrier.StepInv(m.barrier, c);
    }
    forall d | 0 <= d < |ts| ensures Placed(ts, m', d) {
      if d == c { TurnPlaced(ts, m, c); } else { OthersPlaced(ts, m, c, d); }
    }
  }

  lemma OthersPlaced(ts: seq<seq<Event>>, m: Cores, c: nat, d: nat)
    requires CoresInv(ts, m) && c < |ts| && d < |ts| && d != c
    ensures Placed(ts, Turn(ts, m, c), d)
  {
    hide Epoch, Barrier.Step, Barrier.Inv;
    assert Placed(ts, m, d);
    BarrierStep(m.barrier, c);
  }

  lemma TurnPlaced(ts: seq<seq<Event>>, m: Cores, c: nat)
    requires CoresInv(ts, m) && c < |ts|
    ensures Placed(ts, Turn(ts, m, c), c)
  {
    hide Epoch, Barrier.Step, Barrier.Inv, CanPass;
    assert Placed(ts, m, c);
    BarrierStep(m.barrier, c);
    if m.at[c] < |ts[c]| {
      PrefixStep(ts[c], m.at[c]);
      if Returns(m, c) { ReturnsWhenAllowed(ts, m, c); }
    }
  }

  lemma {:induction false} AfterInv(plan: Plan, ts: seq<seq<Event>>, schedule: seq<nat>)
    requires |ts| > 0 && Schedule(|ts|, schedule)
    ensures CoresInv(ts, After(plan, ts, schedule))
  {
    if schedule == [] {
      BeginInv(plan, ts);
    } else {
      var last := |schedule| - 1;
      AfterInv(plan, ts, schedule[..last]);
      TurnInv(ts, After(plan, ts, schedule[..last]), schedule[last]);
    }
  }

  // ---- every run is a run over the barrier that is taken for granted

  /** The turns that `schedule` gives to the cores, without those spent in the barrier. */
  lemma {:induction false} Refines(plan: Plan, ts: seq<seq<Event>>, schedule: seq<nat>) returns (turns: seq<nat>)
    requires |ts| > 0 && Schedule(|ts|, schedule)
    ensures Schedule(|ts|, turns) && Abs(After(plan, ts, schedule)) == Run(plan, ts, turns)
  {
    if schedule == [] {
      turns := [];
    } else {
      var last := |schedule| - 1;
      turns := Refines(plan, ts, schedule[..last]);
      var m := After(plan, ts, schedule[..last]);
      AfterInv(plan, ts, schedule[..last]);
      TurnRefines(ts, m, schedule[last]);
      if Abs(Turn(ts, m, schedule[last])) != Abs(m) {
        turns := RunOn(plan, ts, turns, schedule[last]);
      }
    }
  }

  /** Replay and Finish of Interleaving, over the real barrier. */
  lemma ReplayOver(plan: Plan, ts: seq<seq<Event>>, epochs: nat, schedule: seq<nat>, c: nat)
    requires Team(plan, ts, epochs) && Schedule(|ts|, schedule) && c < |ts|
    ensures Faithful(ts, Abs(After(plan, ts, schedule)), c)
  {
    var turns := Refines(plan, ts, schedule);
    Replay(plan, ts, epochs, turns, c);
  }

  ghost predicate Done(ts: seq<seq<Event>>, m: Cores) { Fits(ts, m) && Finished(ts, Abs(m)) }

  lemma FinishOver(plan: Plan, ts: seq<seq<Event>>, epochs: nat, schedule: seq<nat>)
    requires Team(plan, ts, epochs) && Schedule(|ts|, schedule) && |ts| > 0 && Done(ts, After(plan, ts, schedule))
    ensures Outcome(plan, ts, epochs, After(plan, ts, schedule).mem)
  {
    var turns := Refines(plan, ts, schedule);
    Finish(plan, ts, epochs, turns);
  }

  // ---- no run gets stuck, in the barrier or before it

  /** A turn of core c that is not a failed look at the sense, and not after its end. */
  predicate Moves(ts: seq<seq<Event>>, m: Cores, c: nat)
    requires Fits(ts, m) && c < |ts|
  {
    m.at[c] < |ts[c]| && (AtSync(ts, Abs(m), c) ==> !InBarrier(m, c) || Barrier.Productive(m.barrier, c))
  }

  /** While some core has not finished, some core moves. */
  lemma SomeoneTurns(plan: Plan, ts: seq<seq<Event>>, epochs: nat, schedule: seq<nat>) returns (d: nat)
    requires Team(plan, ts, epochs) && Schedule(|ts|, schedule) && !Done(ts, After(plan, ts, schedule))
    ensures d < |ts| && Moves(ts, After(plan, ts, schedule), d)
  {
    var m := After(plan, ts, schedule);
    AfterInv(plan, ts, schedule);
    var turns := Refines(plan, ts, schedule);
    NoDeadlock(plan, ts, epochs, turns);
    var c :| 0 <= c < |ts| && Enabled(ts, Abs(m), c);
    d := SomeoneInside(ts, m, c);
  }

  /** If core c may go on, it or a core that it waits for in the barrier moves. */
  lemma SomeoneInside(ts: seq<seq<Event>>, m: Cores, c: nat) returns (d: nat)
    requires CoresInv(ts, m) && c < |ts| && Enabled(ts, Abs(m), c)
    ensures d < |ts| && Moves(ts, m, d)
  {
    hide Epoch;
    var b := m.barrier;
    if Moves(ts, m, c) {
      d := c;
    } else if u: nat :| u < |ts| && Barrier.Productive(b, u) {
      d := u;
      assert Placed(ts, m, u);
    } else {
      Barrier.SomeoneOutside(b, c);
      var u: nat :| u < |ts| && b.threads[u].pc == Barrier.Outside && b.threads[u].arrived + 1 == b.threads[c].arrived;
      assert Placed(ts, m, u) && Placed(ts, m, c) && Barrier.ThreadInv(b.threads[u], b.flips) &&
             Barrier.ThreadInv(b.threads[c], b.flips);
      d := u;
    }
  }

  /** What is left to do: accesses, and steps in the barrier. */
  function ToDo(ts: seq<seq<Event>>, m: Cores): int
    requires Fits(ts, m)
  {
    6 * Left(ts, m.at) + Steps(m.barrier.threads)
  }

  function Steps(threads: seq<Barrier.Thread>): nat {
    if threads == [] then 0
    else
      var last := |threads| - 1;
      Steps(threads[..last]) + StepsOf(threads[last].pc)
  }

  function StepsOf(pc: Barrier.Pc): nat { if pc == Barrier.Outside then 5 else Barrier.WorkOf(pc) }

  lemma {:induction false} StepsUpdate(threads: seq<Barrier.Thread>, t: nat, th: Barrier.Thread)
    requires t < |threads|
    ensures Steps(threads[t := th]) == Steps(threads) + StepsOf(th.pc) - StepsOf(threads[t].pc)
  {
    var last := |threads| - 1;
    if t == last {
      assert threads[t := th][..last] == threads[..last];
    } else {
      assert threads[t := th][..last] == threads[..last][t := th];
      StepsUpdate(threads[..last], t, th);
    }
  }

  lemma MovesRunOut(ts: seq<seq<Event>>, m: Cores, c: nat)
    requires Fits(ts, m) && c < |ts| && Moves(ts, m, c)
    ensures 0 <= ToDo(ts, Turn(ts, m, c)) < ToDo(ts, m)
  {
    hide Left, Steps;
    var m' := Turn(ts, m, c);
    LeftMoves(ts, m.at, c);
    LeftNat(ts, m'.at);
    if AtSync(ts, Abs(m), c) {
      assert m'.barrier.threads == m.barrier.threads[c := m'.barrier.threads[c]];
      StepsUpdate(m.barrier.threads, c, m'.barrier.threads[c]);
    }
  }

  /** Every schedule goes on to one after which all cores have finished. */
  ghost predicate CanFinish(plan: Plan, ts: seq<seq<Event>>, schedule: seq<nat>) {
    exists more :: Finishes(plan, ts, schedule, more)
  }

  ghost predicate Finishes(plan: Plan, ts: seq<seq<Event>>, schedule: seq<nat>, more: seq<nat>) {
    Schedule(|ts|, schedule + more) && Done(ts, After(plan, ts, schedule + more))
  }

  lemma {:induction false} GoesOn(plan: Plan, ts: seq<seq<Event>>, epochs: nat, schedule: seq<nat>)
    requires Team(plan, ts, epochs) && Schedule(|ts|, schedule)
    ensures CanFinish(plan, ts, schedule)
    decreases ToDo(ts, After(plan, ts, schedule))
  {
    hide *;
    var m := After(plan, ts, schedule);
    if Done(ts, m) {
      assert schedule + [] == schedule;
      FinishesNow(plan, ts, schedule, []);
    } else {
      var d := SomeoneTurns(plan, ts, epochs, schedule);
      MovesRunOut(ts, m, d);
      var on := TurnOn(plan, ts, schedule, d);
      GoesOn(plan, ts, epochs, on);
      FinishesLater(plan, ts, schedule, d);
    }
  }

  lemma TurnOn(plan: Plan, ts: seq<seq<Event>>, schedule: seq<nat>, c: nat) returns (on: seq<nat>)
    requires Schedule(|ts|, schedule) && c < |ts|
    ensures on == schedule + [c] && Schedule(|ts|, on)
    ensures After(plan, ts, on) == Turn(ts, After(plan, ts, schedule), c)
  {
    hide Turn;
    on := schedule + [c];
    assert on[..|on| - 1] == schedule;
  }

  lemma FinishesNow(plan: Plan, ts: seq<seq<Event>>, schedule: seq<nat>, more: seq<nat>)
    requires Schedule(|ts|, schedule + more) && Done(ts, After(plan, ts, schedule + more))
    ensures CanFinish(plan, ts, schedule)
  {
    hide After, Done;
    assert Finishes(plan, ts, schedule, more);
  }

  lemma FinishesLater(plan: Plan, ts: seq<seq<Event>>, schedule: seq<nat>, c: nat)
    requires CanFinish(plan, ts, schedule + [c])
    ensures CanFinish(plan, ts, schedule)
  {
    hide After, Done;
    var more :| Finishes(plan, ts, schedule + [c], more);
    assert schedule + [c] + more == schedule + ([c] + more);
    FinishesNow(plan, ts, schedule, [c] + more);
  }
}
