/**
 * Incoming connections beside everything else: any number of them look up their
 * tenant in the published set, then the tenant's session, then its budget, at
 * three different moments, while sessions come and go, new sets are published
 * and swept, and budgets are trimmed.
 */
module Connections {
  import opened Basics
  import opened Steps
  import opened Hosts
  import opened Tenants
  import Hub
  import Budgets

  /**
   * How far a connection is: its server name is known; then its tenant; then a session; it
   * asks for a permit; it relays.
   */
  datatype Phase =
    | Peeked
    | Chosen(tenant: Tenant)
    | Sent(tenant: Tenant, session: nat)
    | Asking(tenant: Tenant, session: nat)
    | Relaying(tenant: Tenant, session: nat)
    | Over

  /** `snapshot` is the set the tenant was looked up in. */
  datatype Conn = Conn(host: string, snapshot: TenantSet, phase: Phase)

  datatype State = State(hub: Hub.State, budgets: Budgets.State, conns: map<nat, Conn>)

  datatype Action =
    | OnHub(h: Hub.Action)
    | Trim(next: TenantSet)
    | Arrive(c: nat, host: string)
    | Choose(c: nat)
    | FindSession(c: nat)
    | Ask(c: nat)
    | Take(c: nat)
    | Finish(c: nat)

  predicate Enabled(s: State, a: Action) {
    match a
    case OnHub(h) => Hub.Enabled(s.hub, h) && (h.StartApply? ==> Valid(h.next))
    case Trim(_) => true
    case Arrive(c, _) => c !in s.conns && c !in s.budgets.relays
    case Choose(c) => c in s.conns && s.conns[c].phase.Peeked?
    case FindSession(c) => c in s.conns && s.conns[c].phase.Chosen?
    case Ask(c) => c in s.conns && s.conns[c].phase.Sent? && c !in s.budgets.relays
    case Take(c) => c in s.conns && s.conns[c].phase.Asking? && Budgets.Enabled(s.budgets, Budgets.TryTake(c))
    case Finish(c) => c in s.conns && s.conns[c].phase.Relaying? && Budgets.Enabled(s.budgets, Budgets.End(c))
  }

  function Goto(s: State, c: nat, p: Phase): State
    requires c in s.conns
  {
    s.(conns := s.conns[c := s.conns[c].(phase := p)])
  }

  function Do(s: State, a: Action): State
    requires Enabled(s, a)
  {
    match a
    case OnHub(h) => s.(hub := Hub.Do(s.hub, h))
    case Trim(next) => s.(budgets := Budgets.Do(s.budgets, Budgets.Trim(Names(next.tenants))))
    case Arrive(c, host) => s.(conns := s.conns[c := Conn(host, s.hub.published, Peeked)])
    case Choose(c) =>
      var t := TenantBySni(s.hub.published, s.conns[c].host);
      s.(conns := s.conns[c := Conn(s.conns[c].host, s.hub.published, if t.None? then Over else Chosen(t.value))])
    case FindSession(c) =>
      var t := s.conns[c].phase.tenant;
      Goto(s, c, if t.name in s.hub.sessions then Sent(t, s.hub.sessions[t.name].id) else Over)
    case Ask(c) =>
      var Sent(t, session) := s.conns[c].phase;
      Goto(s, c, Asking(t, session)).(budgets := Budgets.Do(s.budgets, Budgets.Pick(c, t.name, t.maxConns)))
    case Take(c) =>
      var Asking(t, session) := s.conns[c].phase;
      var budgets := Budgets.Do(s.budgets, Budgets.TryTake(c));
      Goto(s, c, if Budgets.HasOpen(budgets, c) then Relaying(t, session) else Over).(budgets := budgets)
    case Finish(c) => Goto(s, c, Over).(budgets := Budgets.Do(s.budgets, Budgets.End(c)))
  }

  ghost predicate Init(s: State) {
    Hub.Init(s.hub) && Valid(s.hub.published) && s.budgets == Budgets.EMPTY && s.conns == map[]
  }

  // ---------- Invariant

  ghost predicate SetsOk(s: State) {
    && Valid(s.hub.published)
    && (forall a :: a in s.hub.applies && !s.hub.applies[a].Finished? ==> Valid(s.hub.applies[a].next))
    && forall c :: c in s.conns ==> Valid(s.conns[c].snapshot)
  }

  /** The tenant a connection is for, if it has been looked up. */
  function TenantOf(p: Phase): Option<Tenant> {
    match p
    case Peeked => None
    case Over => None
    case _ => Some(p.tenant)
  }

  function SessionOf(p: Phase): Option<nat> {
    match p
    case Sent(_, session) => Some(session)
    case Asking(_, session) => Some(session)
    case Relaying(_, session) => Some(session)
    case _ => None
  }

  /** The connection's tenant was found under its server name, and its session is one of that tenant's. */
  ghost predicate WellRouted(hub: Hub.State, x: Conn) {
    && (TenantOf(x.phase).Some? ==> TenantBySni(x.snapshot, x.host) == TenantOf(x.phase))
    && (SessionOf(x.phase).Some? ==>
         && SessionOf(x.phase).value in hub.tasks
         && hub.tasks[SessionOf(x.phase).value].tenant.name == TenantOf(x.phase).value.name)
  }

  ghost predicate RoutesOk(s: State) {
    forall c :: c in s.conns ==> WellRouted(s.hub, s.conns[c])
  }

  /** `c` has picked a semaphore of its tenant's, as large as the tenant's limit was in the set it was looked up in. */
  predicate OnBudget(b: Budgets.State, c: nat, t: Tenant, p: Budgets.Phase) {
    && c in b.relays && b.relays[c].phase == p && b.relays[c].tenant == t.name
    && b.relays[c].sem < |b.sems| && b.sems[b.relays[c].sem].cap == t.maxConns
  }

  predicate PermitMatches(b: Budgets.State, c: nat, p: Phase) {
    match p
    case Asking(t, _) => OnBudget(b, c, t, Budgets.Picked)
    case Relaying(t, _) => OnBudget(b, c, t, Budgets.Open)
    case Over => c in b.relays ==> b.relays[c].phase.Over?
    case _ => c !in b.relays
  }

  /** Budget and connections agree on who waits for a permit and who holds one. */
  ghost predicate PermitsMatch(s: State) {
    && (forall c :: c in s.budgets.relays ==> c in s.conns)
    && forall c :: c in s.conns ==> PermitMatches(s.budgets, c, s.conns[c].phase)
  }

  ghost predicate Inv(s: State) {
    Hub.Inv(s.hub) && Budgets.Inv(s.budgets) && SetsOk(s) && RoutesOk(s) && PermitsMatch(s)
  }

  lemma HubStepKeepsTasks(s: Hub.State, h: Hub.Action, id: nat)
    requires Hub.Inv(s) && Hub.Enabled(s, h) && id in s.tasks
    ensures id in Hub.Do(s, h).tasks && Hub.Do(s, h).tasks[id].tenant == s.tasks[id].tenant
  {
    hide Hub.Allows, Hub.Survivors, Hub.Evicted, Hub.MapOk, Hub.NoneLost, Hub.AllowedOrSwept, Hub.PublisherOk;
  }

  lemma HubStepKeepsSets(s: Hub.State, h: Hub.Action)
    requires Hub.Enabled(s, h) && (h.StartApply? ==> Valid(h.next)) && Valid(s.published)
    requires forall a :: a in s.applies && !s.applies[a].Finished? ==> Valid(s.applies[a].next)
    ensures Valid(Hub.Do(s, h).published)
    ensures forall a :: a in Hub.Do(s, h).applies && !Hub.Do(s, h).applies[a].Finished? ==>
      Valid(Hub.Do(s, h).applies[a].next)
  {
    hide Valid, Hub.Allows, Hub.Survivors, Hub.Evicted, Hub.Without;
  }

  lemma StepKeepsSets(s: State, a: Action)
    requires SetsOk(s) && Enabled(s, a)
    ensures SetsOk(Do(s, a))
  {
    hide Valid, Hub.Do, Hub.Enabled, Budgets.Do, Budgets.Enabled, TenantBySni;
    if a.OnHub? {
      HubStepKeepsSets(s.hub, a.h);
    }
  }

  lemma StepKeepsRoutes(s: State, a: Action)
    requires Hub.Inv(s.hub) && RoutesOk(s) && Enabled(s, a)
    ensures RoutesOk(Do(s, a))
  {
    hide Budgets.Do, TenantBySni, Valid;
    var t := Do(s, a);
    if a.OnHub? {
      forall c | c in t.conns
        ensures WellRouted(t.hub, t.conns[c])
      {
        assert WellRouted(s.hub, s.conns[c]);
        if SessionOf(s.conns[c].phase).Some? {
          HubStepKeepsTasks(s.hub, a.h, SessionOf(s.conns[c].phase).value);
        }
        hide Hub.Do, Hub.Inv, Hub.Enabled;
      }
    } else {
      hide Hub.NoneLost, Hub.AllowedOrSwept, Hub.PublisherOk, Hub.IdsOk;
    }
  }

  /** Steps for one connection leave the budgets of the others as they are, and no semaphore ever changes size. */
  lemma OthersOnBudget(b: Budgets.State, a: Budgets.Action, c: nat, t: Tenant, p: Budgets.Phase)
    requires Budgets.Enabled(b, a) && OnBudget(b, c, t, p) && (a.Trim? || a.r != c)
    ensures OnBudget(Budgets.Do(b, a), c, t, p)
  {
  }

  /** Picking gives a semaphore of the size asked for, if every budget has one of its size. */
  lemma PicksItsLimit(b: Budgets.State, c: nat, t: Tenant)
    requires Budgets.Inv(b) && c !in b.relays
    ensures OnBudget(Budgets.Do(b, Budgets.Pick(c, t.name, t.maxConns)), c, t, Budgets.Picked)
  {
    hide Budgets.PermitsOk;
  }

  /** The budget step of an action, if it has one. */
  function BudgetStep(s: State, a: Action): Option<Budgets.Action>
    requires Enabled(s, a)
  {
    match a
    case Trim(next) => Some(Budgets.Trim(Names(next.tenants)))
    case Ask(c) => Some(Budgets.Pick(c, s.conns[c].phase.tenant.name, s.conns[c].phase.tenant.maxConns))
    case Take(c) => Some(Budgets.TryTake(c))
    case Finish(c) => Some(Budgets.End(c))
    case _ => None
  }

  lemma BudgetStepKeepsPermits(s: State, a: Action)
    requires Budgets.Inv(s.budgets) && PermitsMatch(s) && Enabled(s, a) && BudgetStep(s, a).Some?
    ensures PermitsMatch(Do(s, a))
  {
    hide Hub.Do, Hub.Enabled, TenantBySni, Valid, Budgets.Inv, Names, OnBudget;
    var b := BudgetStep(s, a).value;
    var t := Do(s, a);
    assert Budgets.Enabled(s.budgets, b) && t.budgets == Budgets.Do(s.budgets, b);
    forall c | c in t.conns
      ensures PermitMatches(t.budgets, c, t.conns[c].phase)
    {
      if !b.Trim? && b.r == c {
        OwnBudgetStep(s, a, c);
      } else if s.conns[c].phase.Asking? {
        OthersOnBudget(s.budgets, b, c, s.conns[c].phase.tenant, Budgets.Picked);
      } else if s.conns[c].phase.Relaying? {
        OthersOnBudget(s.budgets, b, c, s.conns[c].phase.tenant, Budgets.Open);
      }
    }
  }

  lemma OwnBudgetStep(s: State, a: Action, c: nat)
    requires Budgets.Inv(s.budgets) && PermitsMatch(s) && Enabled(s, a) && BudgetStep(s, a).Some? && !a.Trim?
      && a.c == c
    ensures var t := Do(s, a); c in t.conns && PermitMatches(t.budgets, c, t.conns[c].phase)
  {
    hide Hub.Do, Hub.Enabled, TenantBySni, Valid, Budgets.Inv, Names;
    if a.Ask? {
      PicksItsLimit(s.budgets, c, s.conns[c].phase.tenant);
    }
  }

  lemma StepKeepsPermits(s: State, a: Action)
    requires Budgets.Inv(s.budgets) && PermitsMatch(s) && Enabled(s, a)
    ensures PermitsMatch(Do(s, a))
  {
    if BudgetStep(s, a).Some? {
      BudgetStepKeepsPermits(s, a);
    } else {
      hide Hub.Do, Hub.Enabled, TenantBySni, Valid, Names, OnBudget, Budgets.Inv;
    }
  }

  lemma StepKeepsInv(s: State, a: Action)
    requires Inv(s) && Enabled(s, a)
    ensures Inv(Do(s, a))
  {
    StepKeepsSets(s, a);
    StepKeepsRoutes(s, a);
    StepKeepsPermits(s, a);
    hide Hub.Inv, Hub.Do, Hub.Enabled, Budgets.Inv, Budgets.Do, SetsOk, RoutesOk, PermitsMatch, TenantBySni;
    match a {
      case OnHub(h) => Hub.StepKeepsInv(s.hub, h);
      case Trim(next) => Budgets.StepKeepsInv(s.budgets, Budgets.Trim(Names(next.tenants)));
      case Ask(c) => Budgets.StepKeepsInv(s.budgets,
        Budgets.Pick(c, s.conns[c].phase.tenant.name, s.conns[c].phase.tenant.maxConns));
      case Take(c) => Budgets.StepKeepsInv(s.budgets, Budgets.TryTake(c));
      case Finish(c) => Budgets.StepKeepsInv(s.budgets, Budgets.End(c));
      case _ =>
    }
  }

  lemma RunKeepsInv(s0: State, run: seq<Action>)
    requires Init(s0) && Runs(Do, s0, run)
    ensures Inv(Exec(Do, s0, run))
  {
    var inv := (t: State) => Inv(t);
    forall t, a | inv(t) && Enabled(t, a)
      ensures inv(Do(t, a))
    {
      StepKeepsInv(t, a);
    }
    InitInv(s0);
    hide Inv, Do;
    RunsKeep(Do, inv, s0, run);
  }

  lemma InitInv(s: State)
    requires Init(s)
    ensures Inv(s)
  {
    hide Valid;
  }

  // ---------- What every interleaving guarantees

  /**
   * A connection being relayed goes to the enabled tenant that held its server
   * name in the set it was looked up in, through a session whose client
   * authenticated as that tenant, on one of that tenant's permits.
   */
  lemma RelayedToItsTenant(s0: State, run: seq<Action>, c: nat)
    requires Init(s0) && Runs(Do, s0, run)
    requires c in Exec(Do, s0, run).conns && Exec(Do, s0, run).conns[c].phase.Relaying?
    ensures var s := Exec(Do, s0, run);
            var x := s.conns[c];
            var t := x.phase.tenant;
      && t in x.snapshot.tenants && !t.disabled && NormalizeHost(t.sni) == NormalizeHost(x.host)
      && x.phase.session in s.hub.tasks && s.hub.tasks[x.phase.session].tenant.name == t.name
      && c in Budgets.OpenRelays(s.budgets, t.name)
      && s.budgets.relays[c].sem < |s.budgets.sems|
      && s.budgets.sems[s.budgets.relays[c].sem].tenant == t.name
      && s.budgets.sems[s.budgets.relays[c].sem].cap == t.maxConns
  {
    RunKeepsInv(s0, run);
    var x := Exec(Do, s0, run).conns[c];
    assert WellRouted(Exec(Do, s0, run).hub, x);
    hide NormalizeHost;
    RoutesToTheOnlyHolder(x.snapshot, x.host, x.phase.tenant);
  }

  /**
   * A connection is let in exactly if the set then published, when it is valid, has an enabled
   * tenant for its server name.
   */
  lemma ChooseDecides(s: State, c: nat)
    requires Enabled(s, Choose(c)) && Valid(s.hub.published)
    ensures var x := Do(s, Choose(c)).conns[c];
      && x.snapshot == s.hub.published
      && (x.phase.Chosen? <==> exists t :: t in s.hub.published.tenants && !t.disabled
                                           && NormalizeHost(t.sni) == NormalizeHost(x.host))
      && (x.phase.Chosen? ==> !x.phase.tenant.disabled && NormalizeHost(x.phase.tenant.sni) == NormalizeHost(x.host))
      && (x.phase.Chosen? || x.phase.Over?)
  {
    hide Valid, NormalizeHost;
    var host := s.conns[c].host;
    if t :| t in s.hub.published.tenants && !t.disabled && NormalizeHost(t.sni) == NormalizeHost(host) {
      RoutesToTheOnlyHolder(s.hub.published, host, t);
    }
    if TenantBySni(s.hub.published, host).Some? {
      RoutesToTheOnlyHolder(s.hub.published, host, TenantBySni(s.hub.published, host).value);
    }
  }

  lemma Then(s0: State, run: seq<Action>, a: Action, s: State) returns (more: seq<Action>, t: State)
    requires Runs(Do, s0, run) && Exec(Do, s0, run) == s && Enabled(s, a)
    ensures more == run + [a] && Runs(Do, s0, more) && Exec(Do, s0, more) == t == Do(s, a)
  {
    t := Do(s, a);
    more := Next(Do, s0, run, a, t);
  }

  /**
   * In any reachable state, a connection for an enabled tenant's host can go
   * straight through: it is relayed through the session in the map if there is
   * one and a permit is left, and is turned away otherwise.
   */
  lemma GoesThrough(s0: State, run0: seq<Action>, c: nat, host: string, t: Tenant) returns (run: seq<Action>, f: State)
    requires Init(s0) && Runs(Do, s0, run0) && c !in Exec(Do, s0, run0).conns
    requires var s := Exec(Do, s0, run0);
      t in s.hub.published.tenants && !t.disabled && NormalizeHost(t.sni) == NormalizeHost(host)
    ensures run0 <= run && Runs(Do, s0, run) && Exec(Do, s0, run) == f && c in f.conns
    ensures var s := Exec(Do, s0, run0);
      f.conns[c].phase ==
        if t.name in s.hub.sessions && Budgets.HasRoom(s.budgets.budgets, s.budgets.sems, t.name, t.maxConns)
        then Relaying(t, s.hub.sessions[t.name].id)
        else Over
  {
    RunKeepsInv(s0, run0);
    var s := Exec(Do, s0, run0);
    TenantIsChosen(s, host, t);
    HasLimit(s, t);
    RoomIsFound(s, c, t);
    hide NormalizeHost, Valid, TenantBySni, Inv, Init, Do, Enabled, Budgets.HasRoom;
    run, f := LooksUp(s0, run0, s, c, host, t);
    if t.name in s.hub.sessions {
      run, f := TriesItsBudget(s0, run, f, c);
    }
  }

  lemma HasLimit(s: State, t: Tenant)
    requires Inv(s) && t in s.hub.published.tenants
    ensures t.maxConns > 0
  {
  }

  lemma LooksUp(s0: State, run0: seq<Action>, s: State, c: nat, host: string, t: Tenant)
    returns (run: seq<Action>, f: State)
    requires Runs(Do, s0, run0) && Exec(Do, s0, run0) == s && c !in s.conns && c !in s.budgets.relays
    requires TenantBySni(s.hub.published, host) == Some(t)
    ensures run0 <= run && Runs(Do, s0, run) && Exec(Do, s0, run) == f && c in f.conns
    ensures f.budgets == s.budgets && f.conns[c].phase ==
      if t.name in s.hub.sessions then Sent(t, s.hub.sessions[t.name].id) else Over
  {
    hide TenantBySni, Budgets.Do;
    run, f := Then(s0, run0, Arrive(c, host), s);
    run, f := Then(s0, run, Choose(c), f);
    run, f := Then(s0, run, FindSession(c), f);
  }

  lemma TriesItsBudget(s0: State, run0: seq<Action>, s: State, c: nat) returns (run: seq<Action>, f: State)
    requires Runs(Do, s0, run0) && Exec(Do, s0, run0) == s && c in s.conns && s.conns[c].phase.Sent?
    requires c !in s.budgets.relays
    requires var t := s.conns[c].phase.tenant;
      Budgets.Enabled(Budgets.Do(s.budgets, Budgets.Pick(c, t.name, t.maxConns)), Budgets.TryTake(c))
    ensures run0 <= run && Runs(Do, s0, run) && Exec(Do, s0, run) == f && c in f.conns
    ensures var Sent(t, session) := s.conns[c].phase;
            var b := Budgets.Do(s.budgets, Budgets.Pick(c, t.name, t.maxConns));
      f.conns[c].phase ==
        if Budgets.HasOpen(Budgets.Do(b, Budgets.TryTake(c)), c) then Relaying(t, session) else Over
  {
    hide Budgets.Do, Budgets.HasOpen;
    run, f := Then(s0, run0, Ask(c), s);
    run, f := Then(s0, run, Take(c), f);
  }

  lemma TenantIsChosen(s: State, host: string, t: Tenant)
    requires Inv(s) && t in s.hub.published.tenants && !t.disabled && NormalizeHost(t.sni) == NormalizeHost(host)
    ensures TenantBySni(s.hub.published, host) == Some(t)
  {
    hide NormalizeHost;
    RoutesToTheOnlyHolder(s.hub.published, host, t);
  }

  lemma RoomIsFound(s: State, c: nat, t: Tenant)
    requires Inv(s) && c !in s.conns && t.maxConns > 0
    ensures c !in s.budgets.relays
    ensures var b := Budgets.Do(s.budgets, Budgets.Pick(c, t.name, t.maxConns));
      && Budgets.Enabled(b, Budgets.TryTake(c))
      && (Budgets.HasOpen(Budgets.Do(b, Budgets.TryTake(c)), c)
          <==> Budgets.HasRoom(s.budgets.budgets, s.budgets.sems, t.name, t.maxConns))
  {
    hide Valid, Hub.Inv, RoutesOk, Budgets.PermitsOk;
  }

  function RelayingTo(s: State, name: string): set<nat> {
    set c | c in s.conns && s.conns[c].phase.Relaying? && s.conns[c].phase.tenant.name == name
  }

  /**
   * The connections relayed to a tenant are exactly those holding its permits, and no more
   * than its semaphores still held allow.
   */
  lemma RelaysHoldPermits(s0: State, run: seq<Action>, name: string)
    requires Init(s0) && Runs(Do, s0, run)
    ensures var s := Exec(Do, s0, run);
      && RelayingTo(s, name) == Budgets.OpenRelays(s.budgets, name)
      && |RelayingTo(s, name)| <= Budgets.HeldCapacity(s.budgets, name, |s.budgets.sems|)
  {
    RunKeepsInv(s0, run);
    var s := Exec(Do, s0, run);
    hide Hub.Inv, SetsOk, RoutesOk;
    assert RelayingTo(s, name) == Budgets.OpenRelays(s.budgets, name);
    Budgets.OpenWithinCapacity(s.budgets, name, |s.budgets.sems|);
    assert Budgets.OpenBelow(s.budgets, name, |s.budgets.sems|) == Budgets.OpenRelays(s.budgets, name);
  }
}
