/**
 * The tenant hub: tunnel sessions come and go while new tenant sets are
 * published and swept in. Every lock region and every access to the published
 * set is one step; any number of sessions and of `apply` calls interleave.
 */
module Hub {
  import opened Basics
  import opened Steps
  import opened Tenants

  datatype Entry = Entry(id: nat, psk: Psk)

  /** A tenant set lets a session of `name` holding `psk` run. */
  predicate Allows(tenants: TenantSet, name: string, psk: Psk) {
    var t := Lookup(tenants, name);
    t.Some? && !t.value.disabled && t.value.psk == psk
  }

  /** In a valid set exactly the one enabled tenant of that name is let run, and only under its PSK. */
  lemma AllowsExactly(tenants: TenantSet, name: string, psk: Psk)
    requires Valid(tenants)
    ensures Allows(tenants, name, psk)
       <==> exists t :: t in tenants.tenants && t.name == name && !t.disabled && t.psk == psk
  {
    hide Valid;
    assert GoodTenants(tenants.tenants) by { ValidParts(tenants); }
    if t :| t in tenants.tenants && t.name == name && !t.disabled && t.psk == psk {
      LookupFindsTheOnly(tenants, name, t);
    }
    if Allows(tenants, name, psk) {
      AllowedIsEnabled(tenants, name, psk);
    }
  }

  lemma ValidParts(tenants: TenantSet)
    requires Valid(tenants)
    ensures GoodTenants(tenants.tenants)
  {
  }

  /** Whatever the set, whoever is let run is an enabled tenant in it, under its own PSK. */
  lemma AllowedIsEnabled(tenants: TenantSet, name: string, psk: Psk)
    requires Allows(tenants, name, psk)
    ensures exists t :: t in tenants.tenants && t.name == name && !t.disabled && t.psk == psk
  {
    FindFirst(tenants.tenants, (t: Tenant) => t.name == name);
  }

  /** What a sweep for `next` leaves in the map, and the sessions it ends. */
  function Survivors(sessions: map<string, Entry>, next: TenantSet): map<string, Entry> {
    map n | n in sessions && Allows(next, n, sessions[n].psk) :: sessions[n]
  }

  function Evicted(sessions: map<string, Entry>, next: TenantSet): set<nat> {
    set n | n in sessions && !Allows(next, n, sessions[n].psk) :: sessions[n].id
  }

  /**
   * A sweep for a valid set leaves exactly the entries of enabled tenants with
   * the PSK they have there, unchanged, and ends exactly the other sessions.
   */
  lemma SweepsExactly(sessions: map<string, Entry>, next: TenantSet)
    requires Valid(next)
    ensures forall n :: n in Survivors(sessions, next) <==>
      n in sessions && exists t :: t in next.tenants && t.name == n && !t.disabled && t.psk == sessions[n].psk
    ensures forall n :: n in Survivors(sessions, next) ==> Survivors(sessions, next)[n] == sessions[n]
    ensures forall id :: id in Evicted(sessions, next) <==>
      exists n :: n in sessions && sessions[n].id == id
               && !exists t :: t in next.tenants && t.name == n && !t.disabled && t.psk == sessions[n].psk
  {
    hide Valid, Allows;
    forall n | n in sessions
      ensures Allows(next, n, sessions[n].psk)
         <==> exists t :: t in next.tenants && t.name == n && !t.disabled && t.psk == sessions[n].psk
    {
      AllowsExactly(next, n, sessions[n].psk);
    }
  }

  /** The shared part of the hub, mutated in place. A session is cancelled once its id is in `cancelled`. */
  class SharedHub {
    var published: TenantSet
    var sessions: map<string, Entry>
    var cancelled: set<nat>
    var nextSession: nat

    constructor (initial: TenantSet)
      ensures published == initial && sessions == map[] && cancelled == {} && nextSession == 1
    {
      published, sessions, cancelled, nextSession := initial, map[], {}, 1;
    }

    method AllocateId() returns (id: nat)
      modifies this`nextSession
      ensures id == old(nextSession) && nextSession == id + 1
    {
      id := nextSession;
      nextSession := nextSession + 1;
    }

    /** The new session takes the tenant's place in the map; whoever held it is returned. */
    method Insert(name: string, e: Entry) returns (replaced: Option<Entry>)
      modifies this`sessions
      ensures replaced == if name in old(sessions) then Some(old(sessions)[name]) else None
      ensures sessions == old(sessions)[name := e]
    {
      replaced := if name in sessions then Some(sessions[name]) else None;
      sessions := sessions[name := e];
    }

    method StillAllowed(name: string, psk: Psk) returns (allowed: bool)
      ensures allowed == Allows(published, name, psk)
      ensures allowed ==> exists t :: t in published.tenants && t.name == name && !t.disabled && t.psk == psk
      ensures Valid(published) && !allowed ==>
        forall t :: t in published.tenants && t.name == name ==> t.disabled || t.psk != psk
    {
      if Allows(published, name, psk) {
        AllowedIsEnabled(published, name, psk);
      } else if Valid(published) {
        AllowsExactly(published, name, psk);
      }
      hide Valid;
      var t := Lookup(published, name);
      allowed := t.Some? && !t.value.disabled && t.value.psk == psk;
    }

    method Cancel(id: nat)
      modifies this`cancelled
      ensures cancelled == old(cancelled) + {id}
    {
      cancelled := cancelled + {id};
    }

    /** A session leaves the map only if the tenant's entry is still its own. */
    method Leave(name: string, id: nat)
      modifies this`sessions
      ensures sessions == Without(old(sessions), name, id)
    {
      if name in sessions && sessions[name].id == id {
        sessions := sessions - {name};
      }
    }

    method Publish(next: TenantSet)
      modifies this`published
      ensures published == next
    {
      published := next;
    }

    /** Visits the entries in any order, as a hash map does, keeping those `next` allows. */
    method Sweep(next: TenantSet)
      modifies this`sessions, this`cancelled
      ensures sessions == Survivors(old(sessions), next)
      ensures cancelled == old(cancelled) + Evicted(old(sessions), next)
      ensures forall n :: n in sessions ==> n in old(sessions) && sessions[n] == old(sessions)[n]
      ensures Valid(next) ==> forall n :: n in old(sessions) ==>
        (n in sessions <==>
          exists t :: t in next.tenants && t.name == n && !t.disabled && t.psk == old(sessions)[n].psk)
      ensures Valid(next) ==> forall n :: n in old(sessions) && n !in sessions ==> old(sessions)[n].id in cancelled
    {
      if Valid(next) {
        SweepsExactly(sessions, next);
      }
      hide Valid, Allows;
      var before := sessions;
      var todo := sessions.Keys;
      while todo != {}
        invariant todo <= before.Keys && before == old(sessions)
        invariant sessions == map n | n in before && (n in todo || Allows(next, n, before[n].psk)) :: before[n]
        invariant cancelled == old(cancelled) + set n | n in before && n !in todo
          && !Allows(next, n, before[n].psk) :: before[n].id
        decreases todo
      {
        var name :| name in todo;
        var allowed := Allows(next, name, before[name].psk);
        if !allowed {
          cancelled := cancelled + {before[name].id};
          sessions := sessions - {name};
        }
        todo := todo - {name};
      }
    }
  }

  function Without(sessions: map<string, Entry>, name: string, id: nat): map<string, Entry> {
    if name in sessions && sessions[name].id == id then sessions - {name} else sessions
  }

  // ---------- The hub and its tasks

  /**
   * Where a session's task is: it has its id; it is in the map and must still
   * check the published set; the check failed and it must cancel itself; it must
   * still cancel whom it replaced; it only waits for its connection to end; it
   * has cleaned up; or shutdown dropped it.
   */
  datatype Phase =
    | Starting
    | Inserted(replaced: Option<nat>)
    | Refused(replaced: Option<nat>)
    | Checked(replaced: Option<nat>)
    | Serving
    | Closed
    | Dropped

  datatype Session = Session(tenant: Tenant, phase: Phase, gone: bool)

  datatype ApplyTask = Publishing(next: TenantSet) | Sweeping(next: TenantSet) | Finished

  /** `publisher` is the `apply` call that published the current set, if any did. */
  datatype State = State(
    published: TenantSet,
    sessions: map<string, Entry>,
    cancelled: set<nat>,
    nextSession: nat,
    tasks: map<nat, Session>,
    applies: map<nat, ApplyTask>,
    publisher: Option<nat>,
    stopping: bool)

  datatype Action =
    | Begin(tenant: Tenant)
    | Join(id: nat)
    | Check(id: nat)
    | CancelSelf(id: nat)
    | CancelReplaced(id: nat)
    | ConnectionEnds(id: nat)
    | CleanUp(id: nat)
    | StartApply(a: nat, next: TenantSet)
    | PublishSet(a: nat)
    | SweepSessions(a: nat)
    | Shutdown
    | DropTask(id: nat)

  predicate Enabled(s: State, a: Action) {
    match a
    case Begin(_) => true
    case Join(id) => id in s.tasks && s.tasks[id].phase.Starting?
    case Check(id) => id in s.tasks && s.tasks[id].phase.Inserted?
    case CancelSelf(id) => id in s.tasks && s.tasks[id].phase.Refused?
    case CancelReplaced(id) => id in s.tasks && s.tasks[id].phase.Checked?
    case ConnectionEnds(id) => id in s.tasks
    case CleanUp(id) => id in s.tasks && s.tasks[id].phase.Serving? && s.tasks[id].gone
    case StartApply(a, _) => a !in s.applies
    case PublishSet(a) => a in s.applies && s.applies[a].Publishing?
    case SweepSessions(a) => a in s.applies && s.applies[a].Sweeping?
    case Shutdown => true
    case DropTask(id) => s.stopping && id in s.tasks && !s.tasks[id].phase.Closed?
  }

  function Goto(s: State, id: nat, p: Phase): State
    requires id in s.tasks
  {
    s.(tasks := s.tasks[id := s.tasks[id].(phase := p)])
  }

  function Do(s: State, a: Action): State
    requires Enabled(s, a)
  {
    match a
    case Begin(tenant) =>
      s.(nextSession := s.nextSession + 1,
         tasks := s.tasks[s.nextSession := Session(tenant, Starting, false)],
         cancelled := if s.stopping then s.cancelled + {s.nextSession} else s.cancelled)
    case Join(id) =>
      var t := s.tasks[id].tenant;
      var replaced := if t.name in s.sessions then Some(s.sessions[t.name].id) else None;
      Goto(s, id, Inserted(replaced)).(sessions := s.sessions[t.name := Entry(id, t.psk)])
    case Check(id) =>
      var t, replaced := s.tasks[id].tenant, s.tasks[id].phase.replaced;
      Goto(s, id, if Allows(s.published, t.name, t.psk) then Checked(replaced) else Refused(replaced))
    case CancelSelf(id) =>
      Goto(s, id, Checked(s.tasks[id].phase.replaced)).(cancelled := s.cancelled + {id})
    case CancelReplaced(id) =>
      var replaced := s.tasks[id].phase.replaced;
      Goto(s, id, Serving).(cancelled := if replaced.Some? then s.cancelled + {replaced.value} else s.cancelled)
    case ConnectionEnds(id) => s.(tasks := s.tasks[id := s.tasks[id].(gone := true)])
    case CleanUp(id) =>
      Goto(s, id, Closed).(sessions := Without(s.sessions, s.tasks[id].tenant.name, id))
    case StartApply(a, next) => s.(applies := s.applies[a := Publishing(next)])
    case PublishSet(a) =>
      var next := s.applies[a].next;
      s.(published := next, publisher := Some(a), applies := s.applies[a := Sweeping(next)])
    case SweepSessions(a) =>
      var next := s.applies[a].next;
      s.(sessions := Survivors(s.sessions, next), cancelled := s.cancelled + Evicted(s.sessions, next),
        applies := s.applies[a := Finished])
    case Shutdown => s.(stopping := true, cancelled := s.cancelled + s.tasks.Keys)
    case DropTask(id) => Goto(s, id, Dropped)
  }

  predicate Init(s: State) {
    s.sessions == map[] && s.cancelled == {} && s.tasks == map[] && s.applies == map[] && s.publisher == None
      && !s.stopping
  }

  // ---------- Invariant

  predicate HasJoined(p: Phase) {
    !p.Starting? && !p.Closed? && !p.Dropped?
  }

  predicate PastCheck(p: Phase) {
    p.Checked? || p.Serving?
  }

  /** `id` is the session the map holds for its tenant. */
  predicate Listed(s: State, id: nat) {
    id in s.tasks && s.tasks[id].tenant.name in s.sessions && s.sessions[s.tasks[id].tenant.name].id == id
  }

  /** `x` has displaced `id` and has yet to cancel it. */
  predicate Owes(x: Session, id: nat) {
    (x.phase.Inserted? || x.phase.Refused? || x.phase.Checked?) && x.phase.replaced == Some(id)
  }

  ghost predicate Owed(s: State, id: nat) {
    exists r :: r in s.tasks && Owes(s.tasks[r], id)
  }

  /** The very call that published the current set has yet to sweep. */
  predicate SweepPending(s: State) {
    s.publisher.Some? && s.publisher.value in s.applies && s.applies[s.publisher.value] == Sweeping(s.published)
  }

  ghost predicate MapOk(s: State) {
    forall n :: n in s.sessions ==>
      var id := s.sessions[n].id;
      && id in s.tasks && s.tasks[id].tenant.name == n && s.tasks[id].tenant.psk == s.sessions[n].psk
      && !s.tasks[id].phase.Starting? && !s.tasks[id].phase.Closed?
  }

  ghost predicate IdsOk(s: State) {
    && (forall id :: id in s.tasks ==> id < s.nextSession)
    && s.cancelled <= s.tasks.Keys
    && (s.stopping ==> s.tasks.Keys <= s.cancelled)
    && forall r, id :: r in s.tasks && Owes(s.tasks[r], id) ==>
      id in s.tasks && !s.tasks[id].phase.Starting? && !Listed(s, id)
  }

  ghost predicate NoneLost(s: State) {
    forall id :: id in s.tasks && HasJoined(s.tasks[id].phase) && id !in s.cancelled ==> Listed(s, id) || Owed(s, id)
  }

  ghost predicate AllowedOrSwept(s: State) {
    forall id :: id in s.tasks && PastCheck(s.tasks[id].phase) && id !in s.cancelled && Listed(s, id) ==>
      Allows(s.published, s.tasks[id].tenant.name, s.tasks[id].tenant.psk) || SweepPending(s)
  }

  ghost predicate PublisherOk(s: State) {
    s.publisher.Some? ==>
      s.publisher.value in s.applies && !s.applies[s.publisher.value].Publishing?
      && (s.applies[s.publisher.value].Sweeping? ==> SweepPending(s))
  }

  ghost predicate Inv(s: State) {
    MapOk(s) && IdsOk(s) && NoneLost(s) && AllowedOrSwept(s) && PublisherOk(s)
  }

  lemma StepKeepsMap(s: State, a: Action)
    requires Inv(s) && Enabled(s, a)
    ensures MapOk(Do(s, a))
  {
    hide Allows, NoneLost, AllowedOrSwept, PublisherOk;
  }

  lemma StepKeepsPublisher(s: State, a: Action)
    requires Inv(s) && Enabled(s, a)
    ensures PublisherOk(Do(s, a))
  {
    hide Allows, MapOk, IdsOk, NoneLost, AllowedOrSwept;
  }

  lemma StepKeepsIds(s: State, a: Action)
    requires Inv(s) && Enabled(s, a)
    ensures IdsOk(Do(s, a))
  {
    hide Allows, NoneLost, AllowedOrSwept, PublisherOk;
    var t := Do(s, a);
    if a.CancelReplaced? && s.tasks[a.id].phase.replaced.Some? {
      assert Owes(s.tasks[a.id], s.tasks[a.id].phase.replaced.value);
    }
    forall r, id | r in t.tasks && Owes(t.tasks[r], id)
      ensures id in t.tasks && !t.tasks[id].phase.Starting? && !Listed(t, id)
    {
      DebtStaysOff(s, a, r, id);
    }
  }

  /** A session about to be cancelled by its displacer has joined and is not the map's. */
  lemma DebtStaysOff(s: State, a: Action, r: nat, id: nat)
    requires Inv(s) && Enabled(s, a) && r in Do(s, a).tasks && Owes(Do(s, a).tasks[r], id)
    ensures id in Do(s, a).tasks && !Do(s, a).tasks[id].phase.Starting? && !Listed(Do(s, a), id)
  {
    hide Allows, NoneLost, AllowedOrSwept, PublisherOk;
    if r in s.tasks && Owes(s.tasks[r], id) {
      assert !Listed(s, id);
    } else {
      assert a.Join? && r == a.id;
      assert s.sessions[s.tasks[r].tenant.name].id == id;
    }
  }

  lemma StepLosesNone(s: State, a: Action)
    requires Inv(s) && Enabled(s, a)
    ensures NoneLost(Do(s, a))
  {
    hide Allows;
    var t := Do(s, a);
    forall id | id in t.tasks && HasJoined(t.tasks[id].phase) && id !in t.cancelled
      ensures Listed(t, id) || Owed(t, id)
    {
      if id in s.tasks && Owed(s, id) {
        var r :| r in s.tasks && Owes(s.tasks[r], id);
        assert Owes(t.tasks[r], id);
      } else if a.Join? && id != a.id && Listed(s, id) && !Listed(t, id) {
        assert Owes(t.tasks[a.id], id);
      }
    }
  }

  lemma StepKeepsAllowed(s: State, a: Action)
    requires Inv(s) && Enabled(s, a)
    ensures AllowedOrSwept(Do(s, a))
  {
    hide Allows;
  }

  lemma StepKeepsInv(s: State, a: Action)
    requires Inv(s) && Enabled(s, a)
    ensures Inv(Do(s, a))
  {
    StepKeepsMap(s, a);
    StepKeepsPublisher(s, a);
    StepKeepsIds(s, a);
    StepLosesNone(s, a);
    StepKeepsAllowed(s, a);
  }

  lemma RunKeepsInv(s: State, actions: seq<Action>)
    requires Inv(s) && Runs(Do, s, actions)
    ensures Inv(Exec(Do, s, actions))
  {
    var inv := (t: State) => Inv(t);
    forall t, a | inv(t) && Enabled(t, a)
      ensures inv(Do(t, a))
    {
      StepKeepsInv(t, a);
    }
    hide Inv, Do;
    RunsKeep(Do, inv, s, actions);
  }

  // ---------- What every interleaving guarantees

  predicate Live(s: State, id: nat) {
    id in s.tasks && HasJoined(s.tasks[id].phase) && id !in s.cancelled && !s.tasks[id].gone
  }

  /**
   * Revocation: a live session is the map's entry for its tenant and the
   * published set allows it, or one of four cancellations is still on its way:
   * its own check, its own cancel, its displacer's cancel, or the sweep of the
   * very call that published the current set.
   */
  lemma RevocationIsSafe(s0: State, actions: seq<Action>, id: nat)
    requires Init(s0) && Runs(Do, s0, actions) && Live(Exec(Do, s0, actions), id)
    ensures var s := Exec(Do, s0, actions);
            var x := s.tasks[id];
      || (Listed(s, id)
          && exists t :: t in s.published.tenants && t.name == x.tenant.name && !t.disabled && t.psk == x.tenant.psk)
      || x.phase.Inserted?
      || x.phase.Refused?
      || Owed(s, id)
      || (Listed(s, id) && SweepPending(s))
  {
    RunKeepsInv(s0, actions);
    var s := Exec(Do, s0, actions);
    hide Allows;
    if Allows(s.published, s.tasks[id].tenant.name, s.tasks[id].tenant.psk) {
      AllowedIsEnabled(s.published, s.tasks[id].tenant.name, s.tasks[id].tenant.psk);
    }
  }

  /** No check, cancel or sweep is outstanding. */
  predicate Quiet(s: State) {
    && (forall id :: id in s.tasks ==>
      !s.tasks[id].phase.Inserted? && !s.tasks[id].phase.Refused? && !s.tasks[id].phase.Checked?)
    && forall a :: a in s.applies ==> !s.applies[a].Sweeping?
  }

  /** Once things settle, the live sessions are exactly allowed ones, one per tenant, each the map's entry. */
  lemma QuietMeansAllowedAndUnique(s0: State, actions: seq<Action>)
    requires Init(s0) && Runs(Do, s0, actions) && Quiet(Exec(Do, s0, actions))
    ensures var s := Exec(Do, s0, actions);
      && (forall id :: Live(s, id) ==>
        Listed(s, id)
        && var x := s.tasks[id].tenant;
           exists t :: t in s.published.tenants && t.name == x.name && !t.disabled && t.psk == x.psk)
      && forall i, j :: Live(s, i) && Live(s, j) && s.tasks[i].tenant.name == s.tasks[j].tenant.name ==> i == j
  {
    RunKeepsInv(s0, actions);
    var s := Exec(Do, s0, actions);
    hide Allows;
    forall id | Live(s, id)
      ensures Listed(s, id)
      ensures var x := s.tasks[id].tenant;
        exists t :: t in s.published.tenants && t.name == x.name && !t.disabled && t.psk == x.psk
    {
      AllowedIsEnabled(s.published, s.tasks[id].tenant.name, s.tasks[id].tenant.psk);
    }
  }

  /**
   * A joined session passes its own check exactly if the published set, when it is valid, has
   * its tenant enabled with its PSK.
   */
  lemma CheckDecides(s: State, id: nat)
    requires Enabled(s, Check(id)) && Valid(s.published)
    ensures var x := s.tasks[id].tenant;
            var p := Do(s, Check(id)).tasks[id].phase;
      if exists t :: t in s.published.tenants && t.name == x.name && !t.disabled && t.psk == x.psk
      then p.Checked? else p.Refused?
  {
    hide Valid, Allows;
    AllowsExactly(s.published, s.tasks[id].tenant.name, s.tasks[id].tenant.psk);
  }

  /** Once the server is stopping, every session there is, and every one that still begins, is cancelled. */
  lemma ShutdownCancelsAll(s0: State, actions: seq<Action>)
    requires Init(s0) && Runs(Do, s0, actions) && Shutdown in actions
    ensures var s := Exec(Do, s0, actions); s.stopping && forall id :: id in s.tasks ==> id in s.cancelled
  {
    RunKeepsInv(s0, actions);
    StopsForGood(s0, actions);
  }

  lemma {:induction false} StopsForGood(s: State, actions: seq<Action>)
    requires Runs(Do, s, actions) && (s.stopping || Shutdown in actions)
    ensures Exec(Do, s, actions).stopping
    decreases |actions|
  {
    if actions != [] {
      assert actions == [actions[0]] + actions[1..];
      StopsForGood(Do(s, actions[0]), actions[1..]);
    }
  }

  /**
   * At any time, of the uncancelled sessions of a tenant all but the map's own have a
   * displacer about to cancel them.
   */
  lemma OneSessionPerTenant(s0: State, actions: seq<Action>, i: nat, j: nat)
    requires Init(s0) && Runs(Do, s0, actions) && i != j
    requires Live(Exec(Do, s0, actions), i) && Live(Exec(Do, s0, actions), j)
    requires Exec(Do, s0, actions).tasks[i].tenant.name == Exec(Do, s0, actions).tasks[j].tenant.name
    ensures Owed(Exec(Do, s0, actions), i) || Owed(Exec(Do, s0, actions), j)
    ensures !(Listed(Exec(Do, s0, actions), i) && Owed(Exec(Do, s0, actions), i))
  {
    RunKeepsInv(s0, actions);
  }

  // ---------- What was done decides where a session stands

  predicate IsGone(s: State, id: nat) {
    id in s.tasks && s.tasks[id].gone
  }

  predicate IsClosed(s: State, id: nat) {
    id in s.tasks && s.tasks[id].phase.Closed?
  }

  predicate IsDropped(s: State, id: nat) {
    id in s.tasks && s.tasks[id].phase.Dropped?
  }

  predicate HasStarted(s: State, id: nat) {
    id in s.tasks && !s.tasks[id].phase.Starting? && !s.tasks[id].phase.Dropped?
  }

  /** Where one step can take a session, by what the step is. */
  lemma StepDecides(s: State, a: Action, id: nat)
    requires IdsOk(s) && Enabled(s, a)
    ensures var t := Do(s, a);
      && (IsGone(t, id) <==> IsGone(s, id) || a == ConnectionEnds(id))
      && (IsClosed(t, id) <==> IsClosed(s, id) || a == CleanUp(id))
      && (IsDropped(t, id) <==> IsDropped(s, id) || a == DropTask(id))
      && (HasStarted(t, id) ==> HasStarted(s, id) || a == Join(id))
      && (HasStarted(s, id) || a == Join(id) ==> HasStarted(t, id) || IsDropped(t, id))
  {
    hide Allows, Survivors, Evicted, Without;
  }

  lemma {:induction false} RunDecides(s: State, actions: seq<Action>, id: nat)
    requires Inv(s) && Runs(Do, s, actions)
    ensures var t := Exec(Do, s, actions);
      && (IsGone(t, id) <==> IsGone(s, id) || ConnectionEnds(id) in actions)
      && (IsClosed(t, id) <==> IsClosed(s, id) || CleanUp(id) in actions)
      && (IsDropped(t, id) <==> IsDropped(s, id) || DropTask(id) in actions)
      && (HasStarted(t, id) ==> HasStarted(s, id) || Join(id) in actions)
      && (HasStarted(s, id) || Join(id) in actions ==> HasStarted(t, id) || IsDropped(t, id))
    decreases |actions|
  {
    if actions != [] {
      StepDecides(s, actions[0], id);
      StepKeepsInv(s, actions[0]);
      assert actions == [actions[0]] + actions[1..];
      var t := Do(s, actions[0]);
      assert IsDropped(s, id) ==> IsDropped(t, id);
      hide Inv, Do, Enabled, IsGone, IsClosed, IsDropped, HasStarted;
      RunDecides(t, actions[1..], id);
    }
  }

  /**
   * A session's connection has ended exactly if it ended in the run, its task
   * has cleaned up exactly if it did in the run, it was dropped exactly if
   * shutdown dropped it, and it has joined exactly if it joined and was not dropped.
   */
  lemma SessionsLiveAsRun(s0: State, actions: seq<Action>, id: nat)
    requires Init(s0) && Runs(Do, s0, actions)
    ensures var s := Exec(Do, s0, actions);
      && (id in s.tasks && s.tasks[id].gone <==> ConnectionEnds(id) in actions)
      && (id in s.tasks && s.tasks[id].phase == Closed <==> CleanUp(id) in actions)
      && (id in s.tasks && s.tasks[id].phase == Dropped <==> DropTask(id) in actions)
      && (id in s.tasks && s.tasks[id].phase !in {Starting, Dropped}
        <==> Join(id) in actions && DropTask(id) !in actions)
  {
    RunDecides(s0, actions, id);
  }

  /** Whatever order sessions entered the map in, cleaning up after one leaves every other one's entry in place. */
  lemma CleanUpSparesOthers(s0: State, actions: seq<Action>, id: nat, other: nat)
    requires Init(s0) && Runs(Do, s0, actions)
    requires Enabled(Exec(Do, s0, actions), CleanUp(id)) && id != other
    ensures Listed(Do(Exec(Do, s0, actions), CleanUp(id)), other) <==> Listed(Exec(Do, s0, actions), other)
    ensures !Listed(Do(Exec(Do, s0, actions), CleanUp(id)), id)
  {
    RunKeepsInv(s0, actions);
  }

  /** The session a connection for `name` is sent through authenticated as that tenant, with the PSK kept beside it. */
  lemma RoutedSessionIsTheTenants(s0: State, actions: seq<Action>, name: string)
    requires Init(s0) && Runs(Do, s0, actions) && name in Exec(Do, s0, actions).sessions
    ensures var s := Exec(Do, s0, actions);
            var e := s.sessions[name];
      e.id in s.tasks && Listed(s, e.id) && s.tasks[e.id].tenant.name == name && s.tasks[e.id].tenant.psk == e.psk
  {
    RunKeepsInv(s0, actions);
  }

  /** A valid set that has the tenant enabled with its PSK. */
  ghost predicate Grants(tenants: TenantSet, t: Tenant) {
    Valid(tenants) && exists u :: u in tenants.tenants && u.name == t.name && !u.disabled && u.psk == t.psk
  }

  lemma GrantsAllows(tenants: TenantSet, t: Tenant)
    requires Grants(tenants, t)
    ensures Allows(tenants, t.name, t.psk)
  {
    hide Valid, Allows;
    AllowsExactly(tenants, t.name, t.psk);
  }

  /** The published set, and every set still to be published or swept, grants the tenant. */
  ghost predicate PendingAllow(s: State, t: Tenant) {
    && Grants(s.published, t)
    && forall a :: a in s.applies && !s.applies[a].Finished? ==> Grants(s.applies[a].next, t)
  }

  /** `a` neither displaces `id`, nor ends its connection, nor brings a set without its tenant, nor stops the server. */
  ghost predicate Harmless(s: State, a: Action, id: nat)
    requires id in s.tasks
  {
    match a
    case Join(other) => other in s.tasks ==> s.tasks[other].tenant.name != s.tasks[id].tenant.name
    case ConnectionEnds(other) => other != id
    case StartApply(_, next) => Grants(next, s.tasks[id].tenant)
    case Shutdown => false
    case DropTask(_) => false
    case _ => true
  }

  ghost predicate AllHarmless(s: State, actions: seq<Action>, id: nat)
    requires Runs(Do, s, actions) && id in s.tasks
    decreases |actions|
  {
    actions == [] || (Harmless(s, actions[0], id) && AllHarmless(Do(s, actions[0]), actions[1..], id))
  }

  /** In the map, connected, uncancelled, and not refused by its own check; it may still have steps to take. */
  predicate Settled(s: State, id: nat) {
    && Listed(s, id) && !s.tasks[id].gone && id !in s.cancelled
    && (s.tasks[id].phase.Inserted? || PastCheck(s.tasks[id].phase))
  }

  lemma PendingStays(s: State, a: Action, id: nat)
    requires Enabled(s, a) && id in s.tasks && PendingAllow(s, s.tasks[id].tenant) && Harmless(s, a, id)
    ensures PendingAllow(Do(s, a), s.tasks[id].tenant)
  {
    hide Grants, Allows, Survivors, Evicted, Without;
  }

  lemma HarmlessStep(s: State, a: Action, id: nat)
    requires Inv(s) && Enabled(s, a) && Settled(s, id) && PendingAllow(s, s.tasks[id].tenant) && Harmless(s, a, id)
    ensures var t := Do(s, a);
      && Settled(t, id)
      && t.tasks[id].tenant == s.tasks[id].tenant
      && PendingAllow(t, t.tasks[id].tenant)
  {
    hide Grants, Allows, NoneLost, AllowedOrSwept, PublisherOk;
    PendingStays(s, a, id);
    var x := s.tasks[id];
    GrantsAllows(s.published, x.tenant);
    if a.SweepSessions? {
      GrantsAllows(s.applies[a.a].next, x.tenant);
      hide PendingAllow;
      assert s.sessions[x.tenant.name].psk == x.tenant.psk;
      assert forall n :: n in s.sessions && s.sessions[n].id == id ==> n == x.tenant.name;
    } else if a.CancelReplaced? {
      hide PendingAllow;
      assert Owes(s.tasks[a.id], id) ==> !Listed(s, id);
    } else {
      hide IdsOk;
    }
  }

  lemma {:induction false} SettledThroughout(s: State, actions: seq<Action>, id: nat)
    requires Inv(s) && Runs(Do, s, actions) && Settled(s, id)
    requires PendingAllow(s, s.tasks[id].tenant) && AllHarmless(s, actions, id)
    ensures Settled(Exec(Do, s, actions), id) && Exec(Do, s, actions).tasks[id].tenant == s.tasks[id].tenant
    decreases |actions|
  {
    if actions != [] {
      HarmlessStep(s, actions[0], id);
      StepKeepsInv(s, actions[0]);
      hide Inv, Enabled, Do, Harmless, PendingAllow, Settled;
      SettledThroughout(Do(s, actions[0]), actions[1..], id);
    }
  }

  /**
   * From its insertion on, a session survives any number of reloads, reconnects
   * of others and cleanups: it stays in the map under its own id, uncancelled,
   * unless it is displaced, loses its connection, or the set published then, one
   * still to be swept then, or one brought in later lacks its enabled tenant
   * with its PSK.
   */
  lemma InnocentSessionsSurvive(s0: State, before: seq<Action>, after: seq<Action>, id: nat)
    requires Init(s0) && Runs(Do, s0, before) && Runs(Do, Exec(Do, s0, before), after)
    requires Settled(Exec(Do, s0, before), id)
      && PendingAllow(Exec(Do, s0, before), Exec(Do, s0, before).tasks[id].tenant)
    requires AllHarmless(Exec(Do, s0, before), after, id)
    ensures Settled(Exec(Do, Exec(Do, s0, before), after), id)
    ensures Exec(Do, Exec(Do, s0, before), after).tasks[id].tenant == Exec(Do, s0, before).tasks[id].tenant
  {
    RunKeepsInv(s0, before);
    SettledThroughout(Exec(Do, s0, before), after, id);
  }

  // ---------- The steps, carried out in place

  /** The shared hub together with where each task stands; every step is done through the hub's own methods. */
  class RunningHub {
    const hub: SharedHub
    var tasks: map<nat, Session>
    var applies: map<nat, ApplyTask>
    var publisher: Option<nat>
    var stopping: bool

    constructor (hub: SharedHub)
      ensures this.hub == hub && tasks == map[] && applies == map[] && publisher == None && !stopping
    {
      this.hub, tasks, applies, publisher, stopping := hub, map[], map[], None, false;
    }

    ghost function View(): State
      reads this, hub
    {
      State(hub.published, hub.sessions, hub.cancelled, hub.nextSession, tasks, applies, publisher, stopping)
    }

    method Goto(id: nat, p: Phase)
      requires id in tasks
      modifies this`tasks
      ensures tasks == old(tasks)[id := old(tasks)[id].(phase := p)]
    {
      tasks := tasks[id := tasks[id].(phase := p)];
    }

    method Perform(a: Action)
      requires Enabled(View(), a)
      modifies this, hub
      ensures View() == Do(old(View()), a)
    {
      match a {
        case Begin(tenant) =>
          var id := hub.AllocateId();
          tasks := tasks[id := Session(tenant, Starting, false)];
          if stopping {
            hub.Cancel(id);
          }
        case Join(id) =>
          var t := tasks[id].tenant;
          var replaced := hub.Insert(t.name, Entry(id, t.psk));
          Goto(id, Inserted(if replaced.Some? then Some(replaced.value.id) else None));
        case Check(id) =>
          var t, replaced := tasks[id].tenant, tasks[id].phase.replaced;
          var allowed := hub.StillAllowed(t.name, t.psk);
          Goto(id, if allowed then Checked(replaced) else Refused(replaced));
        case CancelSelf(id) =>
          hub.Cancel(id);
          Goto(id, Checked(tasks[id].phase.replaced));
        case CancelReplaced(id) =>
          var replaced := tasks[id].phase.replaced;
          if replaced.Some? {
            hub.Cancel(replaced.value);
          }
          Goto(id, Serving);
        case ConnectionEnds(id) =>
          tasks := tasks[id := tasks[id].(gone := true)];
        case CleanUp(id) =>
          hub.Leave(tasks[id].tenant.name, id);
          Goto(id, Closed);
        case StartApply(x, next) =>
          applies := applies[x := Publishing(next)];
        case PublishSet(x) =>
          var next := applies[x].next;
          hub.Publish(next);
          publisher := Some(x);
          applies := applies[x := Sweeping(next)];
        case SweepSessions(x) =>
          hub.Sweep(applies[x].next);
          applies := applies[x := Finished];
        case Shutdown =>
          stopping := true;
          var todo := tasks.Keys;
          while todo != {}
            invariant todo <= tasks.Keys
            invariant hub.cancelled == old(hub.cancelled) + (tasks.Keys - todo)
            invariant View() == old(View()).(stopping := true, cancelled := hub.cancelled)
            decreases todo
          {
            var id :| id in todo;
            hub.Cancel(id);
            todo := todo - {id};
          }
        case DropTask(id) =>
          Goto(id, Dropped);
      }
    }
  }
}
