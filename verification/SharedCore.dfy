/** One core's run of a kernel: it loads, stores and meets the others at barriers, and its
    trace records what it did. */
module SharedCore {
  import opened Interleaving

  class Core {
    const id: nat
    const plan: Plan
    /** The shared memory as the core sees it. */
    var mem: seq<real>
    var epoch: nat
    ghost var trace: seq<Event>

    ghost predicate Valid()
      reads this
    {
      Sound(plan) && |mem| == plan.size && mem == View(plan, trace) && Follows(plan, id, trace) && epoch == Epoch(trace)
    }

    constructor (id: nat, plan: Plan)
      requires Sound(plan)
      ensures Valid() && this.id == id && this.plan == plan && mem == plan.mem(0) && epoch == 0 && trace == []
    {
      this.id, this.plan, mem, epoch, trace := id, plan, plan.mem(0), 0, [];
    }

    method Load(x: nat) returns (v: real)
      requires Valid() && x < |mem| && plan.kind(epoch, x) in {Frozen, Owned(id)}
      modifies this`trace
      ensures Valid() && trace == old(trace) + [Event.Load(x, v)] && v == mem[x]
      ensures plan.kind(epoch, x) == Frozen ==> v == plan.mem(epoch)[x]
    {
      v := mem[x];
      AccessAllowed(plan, id, trace, Event.Load(x, v));
      SeenFrozen(plan, id, trace, x);
      trace := trace + [Event.Load(x, v)];
    }

    method Store(x: nat, v: real)
      requires Valid() && x < |mem| && plan.kind(epoch, x) in {Owned(id), Broadcast(v)}
      modifies this`trace, this`mem
      ensures Valid() && trace == old(trace) + [Event.Store(x, v)] && mem == old(mem)[x := v]
      ensures HasStored(trace, epoch, x)
    {
      AccessAllowed(plan, id, trace, Event.Store(x, v));
      StoreRecorded(trace, x, v);
      mem := mem[x := v];
      trace := trace + [Event.Store(x, v)];
    }

    /** The barrier: everybody's stores are there when the core leaves it. */
    method Barrier()
      requires Valid() && forall x | 0 <= x < |mem| && plan.kind(epoch, x) == Owned(id) ::
                 mem[x] == plan.mem(epoch + 1)[x]
      modifies this
      ensures Valid() && trace == old(trace) + [Sync] && epoch == old(epoch) + 1 && mem == plan.mem(epoch)
    {
      SyncAllowed(plan, id, trace);
      epoch := epoch + 1;
      mem := plan.mem(epoch);
      trace := trace + [Sync];
    }
  }

  lemma Appended(tr: seq<Event>, ev: Event)
    ensures (tr + [ev])[..|tr|] == tr
    ensures forall i | 0 <= i < |tr| :: (tr + [ev])[..i] == tr[..i] && (tr + [ev])[i] == tr[i]
  {
  }

  lemma FollowsOn(plan: Plan, c: nat, tr: seq<Event>, ev: Event)
    requires Follows(plan, c, tr) && Allowed(plan, c, tr, ev)
    ensures Follows(plan, c, tr + [ev])
  {
    var tr' := tr + [ev];
    Appended(tr, ev);
    forall i | 0 <= i < |tr'| ensures Allowed(plan, c, tr'[..i], tr'[i]) {
      if i < |tr| { assert Allowed(plan, c, tr[..i], tr[i]); }
    }
  }

  lemma AccessAllowed(plan: Plan, c: nat, tr: seq<Event>, ev: Event)
    requires Follows(plan, c, tr) && Allowed(plan, c, tr, ev) && !ev.Sync?
    ensures Follows(plan, c, tr + [ev]) && Epoch(tr + [ev]) == Epoch(tr)
    ensures View(plan, tr + [ev]) == if ev.Store? && ev.x < |View(plan, tr)| then View(plan, tr)[ev.x := ev.v]
              else View(plan, tr)
  {
    FollowsOn(plan, c, tr, ev);
    Appended(tr, ev);
  }

  lemma SyncAllowed(plan: Plan, c: nat, tr: seq<Event>)
    requires Sound(plan) && Follows(plan, c, tr) && |View(plan, tr)| == plan.size
    requires forall x | 0 <= x < plan.size && plan.kind(Epoch(tr), x) == Owned(c) ::
               View(plan, tr)[x] == plan.mem(Epoch(tr) + 1)[x]
    ensures Follows(plan, c, tr + [Sync]) && Epoch(tr + [Sync]) == Epoch(tr) + 1 &&
            |plan.mem(Epoch(tr) + 1)| == plan.size
    ensures View(plan, tr + [Sync]) == plan.mem(Epoch(tr) + 1)
  {
    assert |plan.mem(Epoch(tr) + 1)| == plan.size;
    FollowsOn(plan, c, tr, Sync);
    Appended(tr, Sync);
  }

  lemma SeenFrozen(plan: Plan, c: nat, tr: seq<Event>, x: nat)
    requires Sound(plan) && Follows(plan, c, tr) && |View(plan, tr)| == plan.size && x < plan.size
    ensures plan.kind(Epoch(tr), x) == Frozen ==> View(plan, tr)[x] == plan.mem(Epoch(tr))[x]
  {
    assert tr[..|tr|] == tr;
    if plan.kind(Epoch(tr), x) == Frozen { ViewFrozen(plan, c, tr, |tr|, x); }
  }

  lemma StoreRecorded(tr: seq<Event>, x: nat, v: real)
    ensures HasStored(tr + [Event.Store(x, v)], Epoch(tr), x)
  {
    var tr' := tr + [Event.Store(x, v)];
    Appended(tr, Event.Store(x, v));
    assert StoresAt(tr', |tr|, Epoch(tr), x);
  }

  lemma StillStored(tr: seq<Event>, tr': seq<Event>, e: nat, x: nat)
    requires tr <= tr' && HasStored(tr, e, x)
    ensures HasStored(tr', e, x)
  {
    var i :| 0 <= i < |tr| && StoresAt(tr, i, e, x);
    assert tr'[..i] == tr[..i];
    assert StoresAt(tr', i, e, x);
  }
}
