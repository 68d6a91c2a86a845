/** Cores on one shared memory, in every interleaving of their single accesses.

    A plan says what the memory holds each time all cores have met at a barrier, and for
    each location between two barriers whether everybody only reads it, one core has it to
    itself, or cores only store one agreed value there.  Cores that each keep to the plan
    cannot disturb one another: whatever the schedule, every load finds the value that its
    core found when it ran the plan alone. */
module Interleaving {

  datatype Event = Load(x: nat, v: real) | Store(x: nat, v: real) | Sync

  datatype Kind = Frozen | Owned(core: nat) | Broadcast(v: real)

  datatype Plan = Plan(cores: nat, size: nat, mem: nat -> seq<real>, kind: (nat, nat) -> Kind)

  /** The barriers a core has passed. */
  function Epoch(tr: seq<Event>): nat {
    if tr == [] then 0 else Epoch(tr[..|tr| - 1]) + if tr[|tr| - 1].Sync? then 1 else 0
  }

  /** The memory as a core sees it that only knows the plan and its own stores. */
  function View(plan: Plan, tr: seq<Event>): seq<real> {
    if tr == [] then plan.mem(0)
    else
      var s, ev := View(plan, tr[..|tr| - 1]), tr[|tr| - 1];
      if ev.Sync? then plan.mem(Epoch(tr)) else if ev.Store? && ev.x < |s| then s[ev.x := ev.v] else s
  }

  /** What core c may do next: load what is frozen or its own, store what is its own or
      agreed, and come to a barrier with its own locations as planned. */
  ghost predicate Allowed(plan: Plan, c: nat, tr: seq<Event>, ev: Event) {
    match ev
    case Load(x, v) =>
      x < plan.size && |View(plan, tr)| == plan.size && v == View(plan, tr)[x] &&
        plan.kind(Epoch(tr), x) in {Frozen, Owned(c)}
    case Store(x, v) =>
      x < plan.size && plan.kind(Epoch(tr), x) in {Owned(c), Broadcast(v)}
    case Sync =>
      |View(plan, tr)| == plan.size == |plan.mem(Epoch(tr) + 1)| &&
      forall x | 0 <= x < plan.size && plan.kind(Epoch(tr), x) == Owned(c) ::
        View(plan, tr)[x] == plan.mem(Epoch(tr) + 1)[x]
  }

  ghost predicate Follows(plan: Plan, c: nat, tr: seq<Event>) {
    forall i | 0 <= i < |tr| :: Allowed(plan, c, tr[..i], tr[i])
  }

  /** From one barrier to the next a location that nobody may store to stays, and an agreed value arrives. */
  ghost predicate Settled(plan: Plan, e: nat, x: nat) {
    x < |plan.mem(e)| && x < |plan.mem(e + 1)| ==>
      && (plan.kind(e, x) == Frozen || (plan.kind(e, x).Owned? && plan.kind(e, x).core >= plan.cores) ==>
          plan.mem(e + 1)[x] == plan.mem(e)[x])
      && (plan.kind(e, x).Broadcast? ==> plan.mem(e + 1)[x] == plan.kind(e, x).v)
  }

  ghost predicate Sound(plan: Plan) {
    (forall e: nat :: |plan.mem(e)| == plan.size) && (forall e: nat, x: nat :: Settled(plan, e, x))
  }

  predicate StoresAt(tr: seq<Event>, i: nat, e: nat, x: nat)
    requires i < |tr|
  {
    tr[i].Store? && tr[i].x == x && Epoch(tr[..i]) == e
  }

  ghost predicate HasStored(tr: seq<Event>, e: nat, x: nat) {
    exists i | 0 <= i < |tr| :: StoresAt(tr, i, e, x)
  }

  /** Someone stores the agreed values. */
  ghost predicate Filled(plan: Plan, ts: seq<seq<Event>>, e: nat) {
    forall x: nat | x < plan.size && plan.kind(e, x).Broadcast? :: AnyStored(ts, e, x)
  }

  /** Cores that all follow the plan through the same number of barriers. */
  ghost predicate Team(plan: Plan, ts: seq<seq<Event>>, epochs: nat) {
    && Sound(plan) && |ts| == plan.cores
    && (forall c | 0 <= c < |ts| :: Follows(plan, c, ts[c]) && Epoch(ts[c]) == epochs)
    && (forall e: nat | e < epochs :: Filled(plan, ts, e))
  }

  // ---- the machine

  /** The shared memory, and how far each core is.  `epoch` is a history variable: the
      number of barriers that anyone has passed. */
  datatype Machine = Machine(mem: seq<real>, at: seq<nat>, epoch: nat)

  function Past(ts: seq<seq<Event>>, m: Machine, c: nat): seq<Event>
    requires c < |ts| == |m.at| && m.at[c] <= |ts[c]|
  {
    ts[c][..m.at[c]]
  }

  predicate AtSync(ts: seq<seq<Event>>, m: Machine, c: nat)
    requires c < |ts| == |m.at|
  {
    m.at[c] < |ts[c]| && ts[c][m.at[c]].Sync?
  }

  predicate Within(ts: seq<seq<Event>>, m: Machine) {
    |ts| == |m.at| && forall c | 0 <= c < |ts| :: m.at[c] <= |ts[c]|
  }

  /** A core leaves its k-th barrier only after every core has arrived at its own k-th.
      BarrierCores proves this of cores that take the steps of the barrier itself. */
  predicate CanPass(ts: seq<seq<Event>>, m: Machine, c: nat)
    requires Within(ts, m) && c < |ts|
  {
    forall d | 0 <= d < |ts| :: Epoch(Past(ts, m, c)) < Epoch(Past(ts, m, d)) + if AtSync(ts, m, d) then 1 else 0
  }

  predicate Enabled(ts: seq<seq<Event>>, m: Machine, c: nat)
    requires Within(ts, m) && c < |ts|
  {
    m.at[c] < |ts[c]| && (AtSync(ts, m, c) ==> CanPass(ts, m, c))
  }

  /** One access of core c, or nothing while it has to wait or has finished. */
  function Step(ts: seq<seq<Event>>, m: Machine, c: nat): (m': Machine)
    requires Within(ts, m) && c < |ts|
    ensures Within(ts, m')
  {
    if !Enabled(ts, m, c) then m
    else
      var ev, at := ts[c][m.at[c]], m.at[c := m.at[c] + 1];
      match ev
      case Load(_, _) => Machine(m.mem, at, m.epoch)
      case Store(x, v) => Machine(if x < |m.mem| then m.mem[x := v] else m.mem, at, m.epoch)
      case Sync =>
        var e := Epoch(Past(ts, m, c)) + 1;
        Machine(m.mem, at, if e > m.epoch then e else m.epoch)
  }

  function Start(plan: Plan, cores: nat): Machine { Machine(plan.mem(0), seq(cores, _ => 0), 0) }

  predicate Schedule(cores: nat, schedule: seq<nat>) {
    forall i | 0 <= i < |schedule| :: schedule[i] < cores
  }

  function Run(plan: Plan, ts: seq<seq<Event>>, schedule: seq<nat>): (m: Machine)
    requires Schedule(|ts|, schedule)
    ensures Within(ts, m)
  {
    if schedule == [] then Start(plan, |ts|)
    else Step(ts, Run(plan, ts, schedule[..|schedule| - 1]), schedule[|schedule| - 1])
  }

  /** The load that core c is about to make, if it is, finds the value recorded. */
  predicate Faithful(ts: seq<seq<Event>>, m: Machine, c: nat)
    requires Within(ts, m) && c < |ts|
  {
    m.at[c] < |ts[c]| && ts[c][m.at[c]].Load? ==>
      ts[c][m.at[c]].x < |m.mem| && m.mem[ts[c][m.at[c]].x] == ts[c][m.at[c]].v
  }

  predicate Finished(ts: seq<seq<Event>>, m: Machine)
    requires Within(ts, m)
  {
    forall c | 0 <= c < |ts| :: m.at[c] == |ts[c]|
  }

  // ---- the invariant

  ghost predicate CoreInv(ts: seq<seq<Event>>, m: Machine, c: nat)
    requires Within(ts, m) && c < |ts|
  {
    Epoch(Past(ts, m, c)) == m.epoch || (Epoch(Past(ts, m, c)) + 1 == m.epoch && AtSync(ts, m, c))
  }

  /** A location holds what its kind says. */
  ghost predicate LocInv(plan: Plan, ts: seq<seq<Event>>, m: Machine, x: nat)
    requires Within(ts, m) && Sound(plan) && x < |m.mem| == plan.size
  {
    match plan.kind(m.epoch, x)
    case Frozen => m.mem[x] == plan.mem(m.epoch)[x]
    case Owned(c) =>
      m.mem[x] == if c < |ts| && Epoch(Past(ts, m, c)) == m.epoch then ViewAt(plan, Past(ts, m, c), x)
        else plan.mem(m.epoch)[x]
    case Broadcast(v) =>
      (m.mem[x] == v || m.mem[x] == plan.mem(m.epoch)[x]) && (StoredYet(ts, m, x) ==> m.mem[x] == v)
  }

  function ViewAt(plan: Plan, tr: seq<Event>, x: nat): real {
    if x < |View(plan, tr)| then View(plan, tr)[x] else 0.0
  }

  ghost predicate StoredYet(ts: seq<seq<Event>>, m: Machine, x: nat)
    requires Within(ts, m)
  {
    exists c, i | 0 <= c < |ts| && 0 <= i < m.at[c] :: StoresAt(ts[c], i, m.epoch, x)
  }

  ghost predicate Inv(plan: Plan, ts: seq<seq<Event>>, m: Machine)
    requires Sound(plan)
  {
    && Within(ts, m) && |m.mem| == plan.size
    && (forall c | 0 <= c < |ts| :: CoreInv(ts, m, c))
    && (forall x | 0 <= x < |m.mem| :: LocInv(plan, ts, m, x))
  }

  // ---- traces

  lemma PrefixStep(tr: seq<Event>, i: nat)
    requires i < |tr|
    ensures tr[..i + 1] == tr[..i] + [tr[i]] && tr[..i + 1][..i] == tr[..i]
    ensures Epoch(tr[..i + 1]) == Epoch(tr[..i]) + if tr[i].Sync? then 1 else 0
  {
    assert tr[..i + 1][..i] == tr[..i];
  }

  lemma ViewStep(plan: Plan, tr: seq<Event>, i: nat, x: nat)
    requires i < |tr| && |View(plan, tr[..i])| == plan.size && x < plan.size
    ensures ViewAt(plan, tr[..i + 1], x) ==
            match tr[i]
            case Load(_, _) => ViewAt(plan, tr[..i], x)
            case Store(y, v) => if y == x then v else ViewAt(plan, tr[..i], x)
            case Sync => if x < |plan.mem(Epoch(tr[..i]) + 1)| then plan.mem(Epoch(tr[..i]) + 1)[x] else 0.0
  {
    PrefixStep(tr, i);
  }

  lemma {:induction false} ViewSize(plan: Plan, tr: seq<Event>)
    requires Sound(plan)
    ensures |View(plan, tr)| == plan.size
  {
    if tr != [] { ViewSize(plan, tr[..|tr| - 1]); }
  }

  lemma {:induction false} EpochMonotone(tr: seq<Event>, i: nat, j: nat)
    requires i <= j <= |tr|
    ensures Epoch(tr[..i]) <= Epoch(tr[..j])
  {
    if i < j {
      EpochMonotone(tr, i, j - 1);
      PrefixStep(tr, j - 1);
    }
  }

  /** A core sees frozen locations, and those of others, as they were at the last barrier. */
  lemma {:induction false} ViewFrozen(plan: Plan, c: nat, tr: seq<Event>, i: nat, x: nat)
    requires Sound(plan) && Follows(plan, c, tr) && i <= |tr| && x < plan.size
    requires !(plan.kind(Epoch(tr[..i]), x) in {Owned(c)}) && !plan.kind(Epoch(tr[..i]), x).Broadcast?
    ensures ViewAt(plan, tr[..i], x) == plan.mem(Epoch(tr[..i]))[x]
  {
    if i == 0 {
    } else {
      PrefixStep(tr, i - 1);
      ViewSize(plan, tr[..i - 1]);
      ViewStep(plan, tr, i - 1, x);
      assert Allowed(plan, c, tr[..i - 1], tr[i - 1]);
      if !tr[i - 1].Sync? { ViewFrozen(plan, c, tr, i - 1, x); }
    }
  }

  // ---- every step keeps the invariant

  lemma StartInv(plan: Plan, ts: seq<seq<Event>>)
    requires Sound(plan)
    ensures Inv(plan, ts, Start(plan, |ts|))
  {
    var m := Start(plan, |ts|);
    forall c | 0 <= c < |ts| ensures CoreInv(ts, m, c) {}
    forall x | 0 <= x < |m.mem| ensures LocInv(plan, ts, m, x) {}
  }

  /** A core with an access to make is in the newest epoch. */
  lemma Newest(plan: Plan, ts: seq<seq<Event>>, m: Machine, c: nat)
    requires Sound(plan) && Inv(plan, ts, m) && c < |ts| && m.at[c] < |ts[c]| && !AtSync(ts, m, c)
    ensures Epoch(Past(ts, m, c)) == m.epoch
  {
    assert CoreInv(ts, m, c);
  }

  lemma OthersStay(ts: seq<seq<Event>>, m: Machine, c: nat, d: nat)
    requires Within(ts, m) && c < |ts| && d < |ts| && c != d
    ensures Past(ts, Step(ts, m, c), d) == Past(ts, m, d) && AtSync(ts, Step(ts, m, c), d) == AtSync(ts, m, d)
    ensures Step(ts, m, c).at[d] == m.at[d]
  {
  }

  /** Stores made in the epoch, after a step within it. */
  lemma StoredAfter(ts: seq<seq<Event>>, m: Machine, c: nat, x: nat)
    requires Within(ts, m) && c < |ts| && Enabled(ts, m, c) && !AtSync(ts, m, c)
    ensures StoredYet(ts, Step(ts, m, c), x) ==> StoredYet(ts, m, x) || (ts[c][m.at[c]].Store? && ts[c][m.at[c]].x == x)
  {
    var m' := Step(ts, m, c);
    if StoredYet(ts, m', x) {
      var d, i :| 0 <= d < |ts| && 0 <= i < m'.at[d] && StoresAt(ts[d], i, m'.epoch, x);
      if d != c { OthersStay(ts, m, c, d); }
    }
  }

  lemma AccessCores(plan: Plan, ts: seq<seq<Event>>, m: Machine, c: nat, d: nat)
    requires Sound(plan) && Inv(plan, ts, m) && c < |ts| && d < |ts| && Enabled(ts, m, c) && !AtSync(ts, m, c)
    ensures CoreInv(ts, Step(ts, m, c), d) && Epoch(Past(ts, Step(ts, m, c), d)) == Epoch(Past(ts, m, d))
  {
    assert CoreInv(ts, m, d);
    if d == c {
      Newest(plan, ts, m, c);
      PrefixStep(ts[c], m.at[c]);
    } else {
      OthersStay(ts, m, c, d);
    }
  }

  /** A load or a store leaves every location as its kind says. */
  lemma AccessLoc(plan: Plan, ts: seq<seq<Event>>, m: Machine, c: nat, x: nat)
    requires Sound(plan) && Inv(plan, ts, m) && c < |ts| && Enabled(ts, m, c) && !AtSync(ts, m, c)
    requires x < |m.mem| && Follows(plan, c, ts[c])
    ensures LocInv(plan, ts, Step(ts, m, c), x)
  {
    var m' := Step(ts, m, c);
    assert LocInv(plan, ts, m, x) && Allowed(plan, c, ts[c][..m.at[c]], ts[c][m.at[c]]);
    Newest(plan, ts, m, c);
    StoredAfter(ts, m, c, x);
    match plan.kind(m.epoch, x)
    case Frozen =>
    case Broadcast(_) =>
    case Owned(d) =>
      if d < |ts| {
        AccessCores(plan, ts, m, c, d);
        ViewSize(plan, Past(ts, m, d));
        if d == c { ViewStep(plan, ts[c], m.at[c], x); } else { OthersStay(ts, m, c, d); }
        hide View, Epoch, StoredYet, ViewAt;
      }
  }

  lemma AccessInv(plan: Plan, ts: seq<seq<Event>>, m: Machine, c: nat)
    requires Sound(plan) && Inv(plan, ts, m) && c < |ts| && Enabled(ts, m, c) && !AtSync(ts, m, c) &&
             Follows(plan, c, ts[c])
    ensures Inv(plan, ts, Step(ts, m, c))
  {
    var m' := Step(ts, m, c);
    forall d | 0 <= d < |ts| ensures CoreInv(ts, m', d) { AccessCores(plan, ts, m, c, d); }
    assert |m'.mem| == |m.mem|;
    forall x | 0 <= x < |m'.mem| ensures LocInv(plan, ts, m', x) { AccessLoc(plan, ts, m, c, x); }
    hide Step, LocInv, CoreInv;
  }

  /** When the first core passes a barrier all are at it. */
  lemma AllAtSync(plan: Plan, ts: seq<seq<Event>>, m: Machine, c: nat)
    requires Sound(plan) && Inv(plan, ts, m) && c < |ts| && CanPass(ts, m, c) && Epoch(Past(ts, m, c)) == m.epoch
    ensures forall d | 0 <= d < |ts| :: AtSync(ts, m, d) && Epoch(Past(ts, m, d)) == m.epoch
  {
    forall d | 0 <= d < |ts| ensures AtSync(ts, m, d) && Epoch(Past(ts, m, d)) == m.epoch {
      assert CoreInv(ts, m, d);
    }
  }

  /** What a core stored in an epoch it stored before the barrier that ends it. */
  lemma StoredBefore(tr: seq<Event>, e: nat, x: nat, p: nat) returns (i: nat)
    requires p < |tr| && tr[p].Sync? && Epoch(tr[..p]) == e && HasStored(tr, e, x)
    ensures i < p && StoresAt(tr, i, e, x)
  {
    i :| 0 <= i < |tr| && StoresAt(tr, i, e, x);
    if i >= p {
      PrefixStep(tr, p);
      if i > p { EpochMonotone(tr, p + 1, i); }
    }
  }

  /** With all cores at the barrier the memory is as planned for the next epoch. */
  lemma Boundary(plan: Plan, ts: seq<seq<Event>>, m: Machine, x: nat)
    requires Sound(plan) && Inv(plan, ts, m) && |ts| == plan.cores && x < |m.mem| && Filled(plan, ts, m.epoch)
    requires forall c | 0 <= c < |ts| :: Follows(plan, c, ts[c]) && AtSync(ts, m, c) && Epoch(Past(ts, m, c)) == m.epoch
    ensures m.mem[x] == plan.mem(m.epoch + 1)[x]
  {
    assert LocInv(plan, ts, m, x) && Settled(plan, m.epoch, x);
    match plan.kind(m.epoch, x)
    case Frozen =>
    case Owned(c) =>
      if c < |ts| {
        assert Allowed(plan, c, ts[c][..m.at[c]], ts[c][m.at[c]]);
        assert ViewAt(plan, Past(ts, m, c), x) == plan.mem(m.epoch + 1)[x];
      }
    case Broadcast(v) =>
      assert StoredYet(ts, m, x) by {
        var c :| 0 <= c < |ts| && HasStored(ts[c], m.epoch, x);
        var i := StoredBefore(ts[c], m.epoch, x, m.at[c]);
      }
  }

  lemma NoneStoredYet(ts: seq<seq<Event>>, m: Machine, c: nat, i: nat)
    requires Within(ts, m) && c < |ts| && i < m.at[c]
    ensures Epoch(ts[c][..i]) <= Epoch(Past(ts, m, c))
  {
    EpochMonotone(ts[c], i, m.at[c]);
  }

  lemma SyncCore(plan: Plan, ts: seq<seq<Event>>, m: Machine, c: nat)
    requires Sound(plan) && Inv(plan, ts, m) && c < |ts| && AtSync(ts, m, c) && CanPass(ts, m, c)
    ensures Epoch(Past(ts, Step(ts, m, c), c)) == Epoch(Past(ts, m, c)) + 1 == Step(ts, m, c).epoch
    ensures forall x | 0 <= x < plan.size ::
              ViewAt(plan, Past(ts, Step(ts, m, c), c), x) == plan.mem(Step(ts, m, c).epoch)[x]
  {
    assert CoreInv(ts, m, c);
    PrefixStep(ts[c], m.at[c]);
    ViewSize(plan, Past(ts, m, c));
    forall x | 0 <= x < plan.size
      ensures ViewAt(plan, Past(ts, Step(ts, m, c), c), x) == plan.mem(Step(ts, m, c).epoch)[x]
    {
      ViewStep(plan, ts[c], m.at[c], x);
    }
  }

  /** The first core to pass a barrier opens the next epoch. */
  lemma FirstLeaves(plan: Plan, ts: seq<seq<Event>>, m: Machine, c: nat)
    requires Sound(plan) && Inv(plan, ts, m) && c < |ts| == plan.cores && AtSync(ts, m, c) && CanPass(ts, m, c)
    requires Epoch(Past(ts, m, c)) == m.epoch && Filled(plan, ts, m.epoch) &&
             forall d | 0 <= d < |ts| :: Follows(plan, d, ts[d])
    ensures Inv(plan, ts, Step(ts, m, c))
  {
    var m' := Step(ts, m, c);
    AllAtSync(plan, ts, m, c);
    SyncCore(plan, ts, m, c);
    forall d | 0 <= d < |ts|
      ensures CoreInv(ts, m', d) && Epoch(Past(ts, m', d)) == if d == c then m'.epoch else m.epoch
    {
      if d != c { OthersStay(ts, m, c, d); }
    }
    assert m'.mem == m.mem;
    forall x | 0 <= x < |m'.mem| ensures LocInv(plan, ts, m', x) {
      Boundary(plan, ts, m, x);
      NothingStored(ts, m, m', c, x);
    }
    hide Step, View, Epoch, LocInv, CoreInv;
  }

  lemma NothingStored(ts: seq<seq<Event>>, m: Machine, m': Machine, c: nat, x: nat)
    requires Within(ts, m) && c < |ts| && Enabled(ts, m, c) && AtSync(ts, m, c) && m' == Step(ts, m, c) &&
             m'.epoch == m.epoch + 1
    requires forall d | 0 <= d < |ts| :: Epoch(Past(ts, m, d)) <= m.epoch
    ensures !StoredYet(ts, m', x)
  {
    if StoredYet(ts, m', x) {
      var d, i :| 0 <= d < |ts| && 0 <= i < m'.at[d] && StoresAt(ts[d], i, m'.epoch, x);
      if d != c { OthersStay(ts, m, c, d); }
      if i < m.at[d] { NoneStoredYet(ts, m, d, i); }
    }
  }

  /** A core that passes a barrier after others have. */
  lemma LaterLeaves(plan: Plan, ts: seq<seq<Event>>, m: Machine, c: nat)
    requires Sound(plan) && Inv(plan, ts, m) && c < |ts| && AtSync(ts, m, c) && CanPass(ts, m, c)
    requires Epoch(Past(ts, m, c)) + 1 == m.epoch
    ensures Inv(plan, ts, Step(ts, m, c))
  {
    var m' := Step(ts, m, c);
    SyncCore(plan, ts, m, c);
    assert m'.epoch == m.epoch && m'.mem == m.mem;
    forall d | 0 <= d < |ts| ensures CoreInv(ts, m', d) && (d != c ==> Past(ts, m', d) == Past(ts, m, d)) {
      assert CoreInv(ts, m, d);
      if d != c { OthersStay(ts, m, c, d); }
    }
    forall x | 0 <= x < |m'.mem| ensures LocInv(plan, ts, m', x) {
      assert LocInv(plan, ts, m, x);
      StoredNoMore(ts, m, m', c, x);
    }
    hide Step, View, Epoch, LocInv, CoreInv;
  }

  lemma StoredNoMore(ts: seq<seq<Event>>, m: Machine, m': Machine, c: nat, x: nat)
    requires Within(ts, m) && c < |ts| && Enabled(ts, m, c) && AtSync(ts, m, c) && m' == Step(ts, m, c) &&
             m'.epoch == m.epoch
    ensures StoredYet(ts, m', x) ==> StoredYet(ts, m, x)
  {
    if StoredYet(ts, m', x) {
      var d, i :| 0 <= d < |ts| && 0 <= i < m'.at[d] && StoresAt(ts[d], i, m'.epoch, x);
      if d != c { OthersStay(ts, m, c, d); }
    }
  }

  lemma InvWhere(plan: Plan, ts: seq<seq<Event>>, m: Machine, c: nat)
    requires Sound(plan) && Inv(plan, ts, m) && c < |ts|
    ensures Within(ts, m) && CoreInv(ts, m, c)
  {
  }

  lemma WaitingStep(ts: seq<seq<Event>>, m: Machine, c: nat)
    requires Within(ts, m) && c < |ts| && !Enabled(ts, m, c)
    ensures Step(ts, m, c) == m
  {
  }

  lemma StillToPass(tr: seq<Event>, p: nat)
    requires p < |tr| && tr[p].Sync?
    ensures Epoch(tr[..p]) < Epoch(tr)
  {
    PrefixStep(tr, p);
    EpochMonotone(tr, p + 1, |tr|);
    assert tr[..|tr|] == tr;
  }

  lemma StepInv(plan: Plan, ts: seq<seq<Event>>, epochs: nat, m: Machine, c: nat)
    requires Team(plan, ts, epochs) && Inv(plan, ts, m) && c < |ts|
    ensures Inv(plan, ts, Step(ts, m, c))
  {
    hide Inv, Step, Filled;
    InvWhere(plan, ts, m, c);
    if Enabled(ts, m, c) {
      if !AtSync(ts, m, c) {
        AccessInv(plan, ts, m, c);
      } else if Epoch(Past(ts, m, c)) == m.epoch {
        StillToPass(ts[c], m.at[c]);
        FirstLeaves(plan, ts, m, c);
      } else {
        LaterLeaves(plan, ts, m, c);
      }
    } else {
      WaitingStep(ts, m, c);
    }
  }

  // ---- over every schedule

  lemma {:induction false} RunInv(plan: Plan, ts: seq<seq<Event>>, epochs: nat, schedule: seq<nat>)
    requires Team(plan, ts, epochs) && Schedule(|ts|, schedule)
    ensures Inv(plan, ts, Run(plan, ts, schedule))
  {
    if schedule == [] {
      StartInv(plan, ts);
    } else {
      var last := |schedule| - 1;
      RunInv(plan, ts, epochs, schedule[..last]);
      StepInv(plan, ts, epochs, Run(plan, ts, schedule[..last]), schedule[last]);
    }
  }

  /** In every interleaving each load finds what its core found alone. */
  lemma Replay(plan: Plan, ts: seq<seq<Event>>, epochs: nat, schedule: seq<nat>, c: nat)
    requires Team(plan, ts, epochs) && Schedule(|ts|, schedule) && c < |ts|
    ensures Faithful(ts, Run(plan, ts, schedule), c)
  {
    RunInv(plan, ts, epochs, schedule);
    LoadFaithful(plan, ts, Run(plan, ts, schedule), c);
  }

  lemma LoadFaithful(plan: Plan, ts: seq<seq<Event>>, m: Machine, c: nat)
    requires Sound(plan) && Inv(plan, ts, m) && c < |ts| && Follows(plan, c, ts[c])
    ensures Faithful(ts, m, c)
  {
    if m.at[c] < |ts[c]| && ts[c][m.at[c]].Load? {
      var x := ts[c][m.at[c]].x;
      assert Allowed(plan, c, ts[c][..m.at[c]], ts[c][m.at[c]]) && CoreInv(ts, m, c) && LocInv(plan, ts, m, x);
      if plan.kind(m.epoch, x) == Frozen { ViewFrozen(plan, c, ts[c], m.at[c], x); }
    }
  }

  /** What the memory holds at the end: a core's own locations as it left them, the agreed
      values where they were stored, and the rest as it was at the last barrier. */
  ghost predicate Outcome(plan: Plan, ts: seq<seq<Event>>, epochs: nat, s: seq<real>) {
    |s| == plan.size && forall x | 0 <= x < |s| :: OutcomeAt(plan, ts, epochs, s, x)
  }

  ghost predicate OutcomeAt(plan: Plan, ts: seq<seq<Event>>, epochs: nat, s: seq<real>, x: nat)
    requires x < |s|
  {
    match plan.kind(epochs, x)
    case Owned(c) => c < |ts| ==> s[x] == ViewAt(plan, ts[c], x)
    case Frozen => x < |plan.mem(epochs)| && s[x] == plan.mem(epochs)[x]
    case Broadcast(v) => AnyStored(ts, epochs, x) ==> s[x] == v
  }

  ghost predicate AnyStored(ts: seq<seq<Event>>, e: nat, x: nat) {
    exists c | 0 <= c < |ts| :: HasStored(ts[c], e, x)
  }

  lemma Finish(plan: Plan, ts: seq<seq<Event>>, epochs: nat, schedule: seq<nat>)
    requires Team(plan, ts, epochs) && Schedule(|ts|, schedule) && |ts| > 0 && Finished(ts, Run(plan, ts, schedule))
    ensures Outcome(plan, ts, epochs, Run(plan, ts, schedule).mem)
  {
    RunInv(plan, ts, epochs, schedule);
    FinishedOutcome(plan, ts, epochs, Run(plan, ts, schedule));
  }

  lemma FinishedOutcome(plan: Plan, ts: seq<seq<Event>>, epochs: nat, m: Machine)
    requires Team(plan, ts, epochs) && Inv(plan, ts, m) && |ts| > 0 && Finished(ts, m)
    ensures Outcome(plan, ts, epochs, m.mem)
  {
    forall c | 0 <= c < |ts| ensures Past(ts, m, c) == ts[c] && m.epoch == epochs {
      assert CoreInv(ts, m, c) && ts[c][..m.at[c]] == ts[c];
    }
    assert Past(ts, m, 0) == ts[0];
    forall x | 0 <= x < |m.mem| ensures OutcomeAt(plan, ts, epochs, m.mem, x) {
      assert LocInv(plan, ts, m, x);
      if AnyStored(ts, epochs, x) {
        var c :| 0 <= c < |ts| && HasStored(ts[c], epochs, x);
        var i :| 0 <= i < |ts[c]| && StoresAt(ts[c], i, epochs, x);
        assert StoredYet(ts, m, x);
      }
    }
  }

  /** No schedule gets stuck: while some core has not finished, some core can move. */
  lemma NoDeadlock(plan: Plan, ts: seq<seq<Event>>, epochs: nat, schedule: seq<nat>)
    requires Team(plan, ts, epochs) && Schedule(|ts|, schedule)
    ensures var m := Run(plan, ts, schedule); Finished(ts, m) || exists c | 0 <= c < |ts| :: Enabled(ts, m, c)
  {
    var m := Run(plan, ts, schedule);
    RunInv(plan, ts, epochs, schedule);
    if !Finished(ts, m) {
      var c :| 0 <= c < |ts| && m.at[c] != |ts[c]|;
      var d := SomeoneMoves(plan, ts, epochs, m, c);
    }
  }

  lemma SomeoneMoves(plan: Plan, ts: seq<seq<Event>>, epochs: nat, m: Machine, c: nat) returns (d: nat)
    requires Team(plan, ts, epochs) && Inv(plan, ts, m) && c < |ts| && m.at[c] < |ts[c]|
    ensures d < |ts| && Enabled(ts, m, d)
  {
    d := c;
    if !Enabled(ts, m, c) {
      d :| 0 <= d < |ts| && Epoch(Past(ts, m, c)) >= Epoch(Past(ts, m, d)) + if AtSync(ts, m, d) then 1 else 0;
      assert CoreInv(ts, m, c) && CoreInv(ts, m, d);
      StillToPass(ts[c], m.at[c]);
      NotAtEnd(ts, m, d, epochs);
      if AtSync(ts, m, d) { Behind(plan, ts, m, d); }
    }
  }

  lemma NotAtEnd(ts: seq<seq<Event>>, m: Machine, d: nat, epochs: nat)
    requires Within(ts, m) && d < |ts| && Epoch(Past(ts, m, d)) < epochs == Epoch(ts[d])
    ensures m.at[d] < |ts[d]|
  {
    assert ts[d][..|ts[d]|] == ts[d];
  }

  /** A core at a barrier that others have left can leave. */
  lemma Behind(plan: Plan, ts: seq<seq<Event>>, m: Machine, d: nat)
    requires Sound(plan) && Inv(plan, ts, m) && d < |ts| && AtSync(ts, m, d) && Epoch(Past(ts, m, d)) + 1 == m.epoch
    ensures Enabled(ts, m, d)
  {
    forall b | 0 <= b < |ts| ensures Epoch(Past(ts, m, d)) < Epoch(Past(ts, m, b)) + if AtSync(ts, m, b) then 1 else 0 {
      assert CoreInv(ts, m, b);
    }
  }

  /** The accesses that are left. */
  function Left(ts: seq<seq<Event>>, at: seq<nat>): int
    requires |ts| == |at|
  {
    if ts == [] then 0 else Left(ts[..|ts| - 1], at[..|ts| - 1]) + |ts[|ts| - 1]| - at[|ts| - 1]
  }

  lemma {:induction false} LeftMoves(ts: seq<seq<Event>>, at: seq<nat>, c: nat)
    requires c < |ts| == |at|
    ensures Left(ts, at[c := at[c] + 1]) == Left(ts, at) - 1
  {
    var last := |ts| - 1;
    if c == last {
      assert at[c := at[c] + 1][..last] == at[..last];
    } else {
      assert at[c := at[c] + 1][..last] == at[..last][c := at[c] + 1];
      LeftMoves(ts[..last], at[..last], c);
    }
  }

  lemma {:induction false} LeftNat(ts: seq<seq<Event>>, at: seq<nat>)
    requires |ts| == |at| && forall c | 0 <= c < |ts| :: at[c] <= |ts[c]|
    ensures Left(ts, at) >= 0
  {
    if ts != [] { LeftNat(ts[..|ts| - 1], at[..|ts| - 1]); }
  }

  /** Nor does it run for ever: a turn taken by a core that can move uses up an access. */
  lemma TurnsRunOut(ts: seq<seq<Event>>, m: Machine, c: nat)
    requires Within(ts, m) && c < |ts|
    ensures Enabled(ts, m, c) ==> 0 <= Left(ts, Step(ts, m, c).at) < Left(ts, m.at)
    ensures !Enabled(ts, m, c) ==> Step(ts, m, c) == m
  {
    hide *;
    if Enabled(ts, m, c) {
      StepAt(ts, m, c);
      LeftMoves(ts, m.at, c);
      LeftNat(ts, Step(ts, m, c).at);
    } else {
      WaitingStep(ts, m, c);
    }
  }

  lemma StepAt(ts: seq<seq<Event>>, m: Machine, c: nat)
    requires Within(ts, m) && c < |ts| && Enabled(ts, m, c)
    ensures |ts| == |m.at| && Step(ts, m, c).at == m.at[c := m.at[c] + 1]
    ensures forall d | 0 <= d < |ts| :: Step(ts, m, c).at[d] <= |ts[d]|
  {
  }

  /** One more turn at the end of a schedule. */
  lemma RunOn(plan: Plan, ts: seq<seq<Event>>, schedule: seq<nat>, c: nat) returns (on: seq<nat>)
    requires Schedule(|ts|, schedule) && c < |ts|
    ensures on == schedule + [c] && Schedule(|ts|, on)
    ensures Run(plan, ts, on) == Step(ts, Run(plan, ts, schedule), c)
  {
    hide Step;
    on := schedule + [c];
    assert on[..|on| - 1] == schedule;
  }

  /** Every schedule goes on to one after which all cores have finished. */
  lemma {:induction false} Finishable(plan: Plan, ts: seq<seq<Event>>, epochs: nat, schedule: seq<nat>)
    returns (more: seq<nat>)
    requires Team(plan, ts, epochs) && Schedule(|ts|, schedule)
    ensures Schedule(|ts|, schedule + more) && Finished(ts, Run(plan, ts, schedule + more))
    decreases Left(ts, Run(plan, ts, schedule).at)
  {
    hide *;
    var m := Run(plan, ts, schedule);
    if Finished(ts, m) {
      more := [];
      assert schedule + more == schedule;
    } else {
      NoDeadlock(plan, ts, epochs, schedule);
      var c :| 0 <= c < |ts| && Enabled(ts, m, c);
      TurnsRunOut(ts, m, c);
      var on := RunOn(plan, ts, schedule, c);
      var rest := Finishable(plan, ts, epochs, on);
      more := [c] + rest;
      assert on + rest == schedule + more;
    }
  }
}
