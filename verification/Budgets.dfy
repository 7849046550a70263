/**
 * Connection budgets: each tenant's relays draw permits from a semaphore that is
 * replaced when the tenant's limit changes, and forgotten when the tenant is.
 */
module Budgets {
  import opened Basics
  import opened Steps

  /** One semaphore ever made: whose it is, how large, and how many permits are left. */
  datatype Sem = Sem(tenant: string, cap: nat, available: int)

  datatype Budget = Budget(cap: nat, sem: nat)

  /** A relay has picked its tenant's semaphore, holds one of its permits, or is over. */
  datatype Phase = Picked | Open | Over

  datatype Relay = Relay(tenant: string, sem: nat, phase: Phase)

  datatype State = State(budgets: map<string, Budget>, sems: seq<Sem>, relays: map<nat, Relay>)

  datatype Action =
    | Pick(r: nat, tenant: string, cap: nat)
    | TryTake(r: nat)
    | End(r: nat)
    | Trim(known: set<string>)

  predicate Enabled(s: State, a: Action) {
    match a
    case Pick(r, _, _) => r !in s.relays
    case TryTake(r) => r in s.relays && s.relays[r].phase.Picked? && s.relays[r].sem < |s.sems|
    case End(r) => r in s.relays && s.relays[r].phase.Open? && s.relays[r].sem < |s.sems|
    case Trim(_) => true
  }

  function Do(s: State, a: Action): State
    requires Enabled(s, a)
  {
    match a
    case Pick(r, tenant, cap) =>
      if tenant in s.budgets && s.budgets[tenant].cap == cap
      then s.(relays := s.relays[r := Relay(tenant, s.budgets[tenant].sem, Picked)])
      else
        State(s.budgets[tenant := Budget(cap, |s.sems|)],
              s.sems + [Sem(tenant, cap, cap)],
              s.relays[r := Relay(tenant, |s.sems|, Picked)])
    case TryTake(r) =>
      var x := s.relays[r];
      var sem := s.sems[x.sem];
      if sem.available > 0
      then s.(sems := s.sems[x.sem := sem.(available := sem.available - 1)], relays := s.relays[r := x.(phase := Open)])
      else s.(relays := s.relays[r := x.(phase := Over)])
    case End(r) =>
      var x := s.relays[r];
      var sem := s.sems[x.sem];
      s.(sems := s.sems[x.sem := sem.(available := sem.available + 1)], relays := s.relays[r := x.(phase := Over)])
    case Trim(known) => s.(budgets := map n | n in s.budgets && n in known :: s.budgets[n])
  }

  const EMPTY := State(map[], [], map[])

  /** The open relays that hold a permit of semaphore `k`. */
  function Holders(s: State, k: nat): set<nat> {
    set r | r in s.relays && Holds(s.relays[r], k)
  }

  /** A budget of this limit has a permit left; one made afresh has them all. */
  predicate HasRoom(budgets: map<string, Budget>, sems: seq<Sem>, tenant: string, cap: nat) {
    if tenant in budgets && budgets[tenant].cap == cap
    then budgets[tenant].sem < |sems| && sems[budgets[tenant].sem].available > 0
    else cap > 0
  }

  predicate HasOpen(s: State, r: nat) {
    r in s.relays && s.relays[r].phase.Open?
  }

  function OpenRelays(s: State, tenant: string): set<nat> {
    set r | r in s.relays && s.relays[r].phase.Open? && s.relays[r].tenant == tenant
  }

  ghost predicate RelaysOk(s: State) {
    && (forall r :: r in s.relays ==>
      s.relays[r].sem < |s.sems| && s.sems[s.relays[r].sem].tenant == s.relays[r].tenant)
    && forall n :: n in s.budgets ==>
         s.budgets[n].sem < |s.sems| && s.sems[s.budgets[n].sem].tenant == n
           && s.sems[s.budgets[n].sem].cap == s.budgets[n].cap
  }

  ghost predicate PermitsOk(s: State) {
    forall k :: 0 <= k < |s.sems| ==> s.sems[k].available >= 0 && s.sems[k].available + |Holders(s, k)| == s.sems[k].cap
  }

  ghost predicate Inv(s: State) {
    RelaysOk(s) && PermitsOk(s)
  }

  predicate Holds(x: Relay, k: nat) {
    x.phase.Open? && x.sem == k
  }

  lemma HoldersAfterUpdate(s: State, r: nat, x: Relay, k: nat)
    ensures |Holders(s.(relays := s.relays[r := x]), k)|
         == |Holders(s, k)| - (if r in s.relays && Holds(s.relays[r], k) then 1 else 0) + if Holds(x, k) then 1 else 0
  {
    hide Holds;
    var t := s.(relays := s.relays[r := x]);
    assert Holders(t, k) - {r} == Holders(s, k) - {r};
    OneChanges(Holders(s, k), Holders(t, k), r);
  }

  lemma SameRelaysSameHolders(s: State, t: State, k: nat)
    requires s.relays == t.relays
    ensures Holders(s, k) == Holders(t, k)
  {
  }

  lemma HoldersAfter(s: State, a: Action, k: nat)
    requires Enabled(s, a) && RelaysOk(s)
    ensures var t := Do(s, a);
      |Holders(t, k)| == |Holders(s, k)|
        + (if a.TryTake? && s.relays[a.r].sem == k && t.relays[a.r].phase.Open? then 1 else 0)
        - if a.End? && s.relays[a.r].sem == k then 1 else 0
  {
    hide Holders;
    var t := Do(s, a);
    if a.Trim? {
      SameRelaysSameHolders(s, t, k);
    } else {
      HoldersAfterUpdate(s, a.r, t.relays[a.r], k);
      SameRelaysSameHolders(s.(relays := s.relays[a.r := t.relays[a.r]]), t, k);
    }
  }

  lemma NewSemHasNoHolders(s: State)
    requires RelaysOk(s)
    ensures Holders(s, |s.sems|) == {}
  {
  }

  lemma RelaysStayOk(s: State, a: Action)
    requires RelaysOk(s) && Enabled(s, a)
    ensures RelaysOk(Do(s, a))
  {
    hide Holders, RelaysOk;
    if a.Pick? {
      PickKeepsRelaysOk(s, a);
    } else {
      OtherKeepsRelaysOk(s, a);
    }
  }

  lemma PickKeepsRelaysOk(s: State, a: Action)
    requires RelaysOk(s) && Enabled(s, a) && a.Pick?
    ensures RelaysOk(Do(s, a))
  {
  }

  lemma OtherKeepsRelaysOk(s: State, a: Action)
    requires RelaysOk(s) && Enabled(s, a) && !a.Pick?
    ensures RelaysOk(Do(s, a))
  {
  }

  lemma StepKeepsInv(s: State, a: Action)
    requires Inv(s) && Enabled(s, a)
    ensures Inv(Do(s, a))
  {
    RelaysStayOk(s, a);
    NewSemHasNoHolders(s);
    hide Holders, RelaysOk;
    var t := Do(s, a);
    forall k | 0 <= k < |t.sems|
      ensures t.sems[k].available >= 0 && t.sems[k].available + |Holders(t, k)| == t.sems[k].cap
    {
      HoldersAfter(s, a, k);
      if k < |s.sems| {
        assert s.sems[k].available + |Holders(s, k)| == s.sems[k].cap;
      }
    }
  }

  lemma RunKeepsInv(s: State, actions: seq<Action>)
    requires Inv(s) && Runs(Do, s, actions)
    ensures Inv(Exec(Do, s, actions))
  {
    var inv := (t: State) => Inv(t);
    forall t, a | inv(t) && Enabled(t, a)
      ensures inv(Do(t, a))
    {
      StepKeepsInv(t, a);
    }
    hide Inv, Do;
    RunsKeep(Do, inv, s, actions);
  }

  // ---------- What every interleaving guarantees

  /** For every semaphore ever made, permits left and permits held add up to its capacity. */
  lemma PermitsAreConserved(actions: seq<Action>)
    requires Runs(Do, EMPTY, actions)
    ensures var s := Exec(Do, EMPTY, actions);
      forall k :: 0 <= k < |s.sems| ==>
        0 <= s.sems[k].available && s.sems[k].available + |Holders(s, k)| == s.sems[k].cap
  {
    RunKeepsInv(EMPTY, actions);
  }

  /** The capacities of the first `n` semaphores that are `tenant`'s and still have a holder. */
  function HeldCapacity(s: State, tenant: string, n: nat): nat
    requires n <= |s.sems|
  {
    if n == 0 then 0
    else if s.sems[n - 1].tenant == tenant && Holders(s, n - 1) != {}
    then HeldCapacity(s, tenant, n - 1) + s.sems[n - 1].cap
    else HeldCapacity(s, tenant, n - 1)
  }

  function OpenBelow(s: State, tenant: string, n: nat): set<nat> {
    set r | r in OpenRelays(s, tenant) && s.relays[r].sem < n
  }

  lemma OpenBelowGrows(s: State, tenant: string, n: nat)
    requires RelaysOk(s) && 0 < n <= |s.sems|
    ensures |OpenBelow(s, tenant, n)|
         == |OpenBelow(s, tenant, n - 1)|
          + if s.sems[n - 1].tenant == tenant then |Holders(s, n - 1)| else 0
  {
    if s.sems[n - 1].tenant == tenant {
      assert OpenBelow(s, tenant, n) == OpenBelow(s, tenant, n - 1) + Holders(s, n - 1);
      assert OpenBelow(s, tenant, n - 1) !! Holders(s, n - 1);
    } else {
      assert OpenBelow(s, tenant, n) == OpenBelow(s, tenant, n - 1);
    }
  }

  lemma {:induction false} OpenWithinCapacity(s: State, tenant: string, n: nat)
    requires Inv(s) && n <= |s.sems|
    ensures |OpenBelow(s, tenant, n)| <= HeldCapacity(s, tenant, n)
  {
    if n == 0 {
      assert OpenBelow(s, tenant, n) == {};
    } else {
      OpenWithinCapacity(s, tenant, n - 1);
      OpenBelowGrows(s, tenant, n);
      assert s.sems[n - 1].available + |Holders(s, n - 1)| == s.sems[n - 1].cap;
      hide RelaysOk, Holders, OpenBelow;
    }
  }

  /** Across changes of its limit, a tenant's relays never exceed the limits still in use, added up. */
  lemma RelaysWithinHeldCapacity(actions: seq<Action>, tenant: string)
    requires Runs(Do, EMPTY, actions)
    ensures var s := Exec(Do, EMPTY, actions); |OpenRelays(s, tenant)| <= HeldCapacity(s, tenant, |s.sems|)
  {
    RunKeepsInv(EMPTY, actions);
    var s := Exec(Do, EMPTY, actions);
    OpenWithinCapacity(s, tenant, |s.sems|);
    assert OpenBelow(s, tenant, |s.sems|) == OpenRelays(s, tenant);
  }

  /**
   * A trim forgets exactly the budgets of unknown tenants: they get a fresh full
   * semaphore next time, while a known one goes on with the one it has; relays
   * and semaphores are as before.
   */
  lemma TrimForgets(s: State, known: set<string>, r: nat, tenant: string)
    requires Inv(s) && r !in s.relays && tenant in s.budgets
    ensures var t := Do(s, Trim(known));
            var cap := s.budgets[tenant].cap;
            var picked := Do(t, Pick(r, tenant, cap));
      && t.relays == s.relays && t.sems == s.sems
      && picked.relays[r].sem == (if tenant in known then s.budgets[tenant].sem else |s.sems|)
      && (tenant !in known ==> picked.sems[|s.sems|] == Sem(tenant, cap, cap))
  {
  }

  /** Every request for `tenant` asks for `cap`, and no trim forgets it. */
  predicate Steady(actions: seq<Action>, tenant: string, cap: nat) {
    forall a :: a in actions ==> (a.Pick? && a.tenant == tenant ==> a.cap == cap) && (a.Trim? ==> tenant in a.known)
  }

  ghost predicate OneSem(s: State, tenant: string, cap: nat) {
    forall k :: 0 <= k < |s.sems| && s.sems[k].tenant == tenant ==>
      s.sems[k].cap == cap && tenant in s.budgets && s.budgets[tenant] == Budget(cap, k)
  }

  lemma {:induction false} SteadyKeepsOneSem(s: State, actions: seq<Action>, tenant: string, cap: nat)
    requires Inv(s) && Runs(Do, s, actions) && Steady(actions, tenant, cap) && OneSem(s, tenant, cap)
    ensures OneSem(Exec(Do, s, actions), tenant, cap)
    decreases |actions|
  {
    if actions != [] {
      StepKeepsInv(s, actions[0]);
      SteadyStep(s, actions[0], tenant, cap);
      assert forall a :: a in actions[1..] ==> a in actions;
      hide Inv, Enabled, Do, OneSem;
      SteadyKeepsOneSem(Do(s, actions[0]), actions[1..], tenant, cap);
    }
  }

  lemma SteadyStep(s: State, a: Action, tenant: string, cap: nat)
    requires Inv(s) && Enabled(s, a) && OneSem(s, tenant, cap) && Steady([a], tenant, cap)
    ensures OneSem(Do(s, a), tenant, cap)
  {
    hide Holders;
    assert a in [a];
    if a.Pick? && a.tenant == tenant && tenant in s.budgets {
      assert s.sems[s.budgets[tenant].sem].tenant == tenant;
    }
  }

  /** While its limit does not change and it is not forgotten, a tenant never has more relays than its limit. */
  lemma RelaysWithinLimit(actions: seq<Action>, tenant: string, cap: nat)
    requires Runs(Do, EMPTY, actions) && Steady(actions, tenant, cap)
    ensures |OpenRelays(Exec(Do, EMPTY, actions), tenant)| <= cap
  {
    RunKeepsInv(EMPTY, actions);
    SteadyKeepsOneSem(EMPTY, actions, tenant, cap);
    var s := Exec(Do, EMPTY, actions);
    if k :| 0 <= k < |s.sems| && s.sems[k].tenant == tenant {
      assert OpenRelays(s, tenant) == Holders(s, k);
      assert s.sems[k].available + |Holders(s, k)| == cap;
    } else {
      assert OpenRelays(s, tenant) == {};
    }
  }

  /** The open relays of a tenant that hold permits of its earlier semaphores. */
  function OldRelays(s: State, tenant: string): set<nat>
    requires tenant in s.budgets
  {
    OpenRelays(s, tenant) - Holders(s, s.budgets[tenant].sem)
  }

  /**
   * A tenant is within its current limit exactly while no more relays are left from earlier
   * limits than the current semaphore has permits left.
   */
  lemma WithinLimitExactly(actions: seq<Action>, tenant: string)
    requires Runs(Do, EMPTY, actions) && tenant in Exec(Do, EMPTY, actions).budgets
    ensures var s := Exec(Do, EMPTY, actions);
            var b := s.budgets[tenant];
      && b.sem < |s.sems|
      && |OpenRelays(s, tenant)| == b.cap - s.sems[b.sem].available + |OldRelays(s, tenant)|
      && (|OpenRelays(s, tenant)| <= b.cap <==> |OldRelays(s, tenant)| <= s.sems[b.sem].available)
  {
    RunKeepsInv(EMPTY, actions);
    var s := Exec(Do, EMPTY, actions);
    var k := s.budgets[tenant].sem;
    assert s.sems[k].available + |Holders(s, k)| == s.sems[k].cap;
    assert OpenRelays(s, tenant) == Holders(s, k) + OldRelays(s, tenant);
  }

  /**
   * Between a limit of 1 and a limit of 2, three relays may run at once: the change is what
   * the limit does not survive.
   */
  lemma ChangingLimitsAddUp(n: string) returns (run: seq<Action>)
    ensures forall a :: a in run && a.Pick? ==> a.tenant == n && a.cap in {1, 2}
    ensures Runs(Do, EMPTY, run) && OpenRelays(Exec(Do, EMPTY, run), n) == {0, 1, 2}
  {
    hide Holders, OpenRelays;
    var one, two := map[n := Budget(1, 0)], map[n := Budget(2, 1)];
    var first, second, third := Relay(n, 0, Open), Relay(n, 1, Open), Relay(n, 1, Picked);
    run := Then([], Pick(0, n, 1), State(one, [Sem(n, 1, 1)], map[0 := Relay(n, 0, Picked)]));
    run := Then(run, TryTake(0), State(one, [Sem(n, 1, 0)], map[0 := first]));
    run := Then(run, Pick(1, n, 2), State(two, [Sem(n, 1, 0), Sem(n, 2, 2)], map[0 := first, 1 := third]));
    run := Then(run, TryTake(1), State(two, [Sem(n, 1, 0), Sem(n, 2, 1)], map[0 := first, 1 := second]));
    run := Then(run, Pick(2, n, 2), State(two, [Sem(n, 1, 0), Sem(n, 2, 1)], map[0 := first, 1 := second, 2 := third]));
    run := Then(run, TryTake(2), State(two, [Sem(n, 1, 0), Sem(n, 2, 0)], map[0 := first, 1 := second, 2 := second]));
    ThreeOpen(n);
  }

  lemma ThreeOpen(n: string)
    ensures OpenRelays(State(map[n := Budget(2, 1)], [Sem(n, 1, 0), Sem(n, 2, 0)],
                             map[0 := Relay(n, 0, Open), 1 := Relay(n, 1, Open), 2 := Relay(n, 1, Open)]), n)
                               == {0, 1, 2}
  {
  }

  lemma Then(actions: seq<Action>, a: Action, t: State) returns (more: seq<Action>)
    requires Runs(Do, EMPTY, actions) && Enabled(Exec(Do, EMPTY, actions), a) && Do(Exec(Do, EMPTY, actions), a) == t
    ensures more == actions + [a] && Runs(Do, EMPTY, more) && Exec(Do, EMPTY, more) == t
  {
    more := Next(Do, EMPTY, actions, a, t);
  }

  /** The budgets map and the semaphores, updated in place; a relay keeps the semaphore it was handed. */
  class BudgetTable {
    var budgets: map<string, Budget>
    var sems: seq<Sem>
    var relays: map<nat, Relay>

    constructor ()
      ensures View() == EMPTY
    {
      budgets, sems, relays := map[], [], map[];
    }

    ghost function View(): State
      reads this
    {
      State(budgets, sems, relays)
    }

    /**
     * Under the lock: makes the tenant's semaphore if it has none, replaces it if the limit
     * changed, and hands it out.
     */
    method PickSemaphore(tenant: string, cap: nat) returns (sem: nat)
      modifies this`budgets, this`sems
      ensures
        if tenant in old(budgets) && old(budgets)[tenant].cap == cap
        then sem == old(budgets)[tenant].sem && budgets == old(budgets) && sems == old(sems)
        else
          && sem == |old(sems)| && budgets == old(budgets)[tenant := Budget(cap, sem)]
          && sems == old(sems) + [Sem(tenant, cap, cap)]
    {
      if tenant !in budgets {
        budgets := budgets[tenant := Budget(cap, |sems|)];
        sems := sems + [Sem(tenant, cap, cap)];
      }
      if budgets[tenant].cap != cap {
        budgets := budgets[tenant := Budget(cap, |sems|)];
        sems := sems + [Sem(tenant, cap, cap)];
      }
      sem := budgets[tenant].sem;
    }

    method Perform(a: Action)
      requires Inv(View()) && Enabled(View(), a)
      modifies this
      ensures View() == Do(old(View()), a) && Inv(View())
    {
      StepKeepsInv(View(), a);
      match a {
        case Pick(r, tenant, cap) =>
          var sem := PickSemaphore(tenant, cap);
          relays := relays[r := Relay(tenant, sem, Picked)];
        case TryTake(r) =>
          var x := relays[r];
          if sems[x.sem].available > 0 {
            sems := sems[x.sem := sems[x.sem].(available := sems[x.sem].available - 1)];
            relays := relays[r := x.(phase := Open)];
          } else {
            relays := relays[r := x.(phase := Over)];
          }
        case End(r) =>
          var x := relays[r];
          sems := sems[x.sem := sems[x.sem].(available := sems[x.sem].available + 1)];
          relays := relays[r := x.(phase := Over)];
        case Trim(known) =>
          budgets := map n | n in budgets && n in known :: budgets[n];
      }
    }
  }
}
