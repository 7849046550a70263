/** Handshake slots: a global limit and a limit per source address, taken before authentication and given back after. */
module Slots {
  import opened Basics
  import opened Steps

  const MAX_PENDING_HANDSHAKES := 256
  const MAX_PENDING_PER_IP := 16

  type Ip = nat

  /**
   * Where an attempt is: it holds a global permit; its address was at its limit
   * and the permit is still to be given back; it holds both; its address count
   * is undone and the permit is still to be given back; it is over.
   */
  datatype Phase = Permitted | Refused | Counted | Uncounted | Over

  datatype Attempt = Attempt(ip: Ip, phase: Phase)

  /** Counts are integers, so that a decrement below zero would show. */
  datatype State = State(taken: int, byIp: map<Ip, int>, attempts: map<nat, Attempt>)

  datatype Action = Permit(t: nat, ip: Ip) | CountIn(t: nat) | CountOut(t: nat) | GiveBack(t: nat)

  function At(byIp: map<Ip, int>, ip: Ip): int {
    if ip in byIp then byIp[ip] else 0
  }

  predicate Enabled(s: State, a: Action) {
    match a
    case Permit(t, _) => t !in s.attempts
    case CountIn(t) => t in s.attempts && s.attempts[t].phase.Permitted?
    case CountOut(t) => t in s.attempts && s.attempts[t].phase.Counted?
    case GiveBack(t) => t in s.attempts && (s.attempts[t].phase.Refused? || s.attempts[t].phase.Uncounted?)
  }

  function Do(s: State, a: Action): State
    requires Enabled(s, a)
  {
    match a
    case Permit(t, ip) =>
      if s.taken >= MAX_PENDING_HANDSHAKES then s.(attempts := s.attempts[t := Attempt(ip, Over)])
      else s.(taken := s.taken + 1, attempts := s.attempts[t := Attempt(ip, Permitted)])
    case CountIn(t) =>
      var ip := s.attempts[t].ip;
      if At(s.byIp, ip) >= MAX_PENDING_PER_IP then s.(attempts := s.attempts[t := Attempt(ip, Refused)])
      else s.(byIp := s.byIp[ip := At(s.byIp, ip) + 1], attempts := s.attempts[t := Attempt(ip, Counted)])
    case CountOut(t) =>
      var ip := s.attempts[t].ip;
      s.(byIp := if At(s.byIp, ip) == 1 then s.byIp - {ip} else s.byIp[ip := At(s.byIp, ip) - 1],
         attempts := s.attempts[t := Attempt(ip, Uncounted)])
    case GiveBack(t) =>
      s.(taken := s.taken - 1, attempts := s.attempts[t := s.attempts[t].(phase := Over)])
  }

  const EMPTY := State(0, map[], map[])

  /** The attempts that hold a slot for `ip`. */
  function SlotsOf(s: State, ip: Ip): set<nat> {
    set t | t in s.attempts && HasSlot(s.attempts[t], ip)
  }

  function AllSlots(s: State): set<nat> {
    set t | t in s.attempts && s.attempts[t].phase.Counted?
  }

  function PermitHolders(s: State): set<nat> {
    set t | t in s.attempts && HasPermit(s.attempts[t])
  }

  ghost predicate Inv(s: State) {
    && (forall ip :: At(s.byIp, ip) == |SlotsOf(s, ip)|)
    && (forall ip :: ip in s.byIp ==> 1 <= s.byIp[ip] <= MAX_PENDING_PER_IP)
    && s.taken == |PermitHolders(s)|
    && s.taken <= MAX_PENDING_HANDSHAKES
  }

  predicate HasSlot(x: Attempt, ip: Ip) {
    x.ip == ip && x.phase.Counted?
  }

  lemma SlotsAfterUpdate(s: State, t: nat, x: Attempt, ip: Ip)
    ensures |SlotsOf(s.(attempts := s.attempts[t := x]), ip)|
         == |SlotsOf(s, ip)| - (if t in s.attempts && HasSlot(s.attempts[t], ip) then 1 else 0)
          + if HasSlot(x, ip) then 1 else 0
  {
    hide HasSlot;
    var s' := s.(attempts := s.attempts[t := x]);
    assert SlotsOf(s', ip) - {t} == SlotsOf(s, ip) - {t};
    OneChanges(SlotsOf(s, ip), SlotsOf(s', ip), t);
  }

  lemma SameAttemptsSameSets(s: State, t: State, ip: Ip)
    requires s.attempts == t.attempts
    ensures SlotsOf(s, ip) == SlotsOf(t, ip) && PermitHolders(s) == PermitHolders(t)
  {
  }

  lemma SlotsAfter(s: State, a: Action, ip: Ip)
    requires Enabled(s, a)
    ensures var t := Do(s, a);
      |SlotsOf(t, ip)| == |SlotsOf(s, ip)|
        + (if a.CountIn? && t.attempts[a.t] == Attempt(ip, Counted) then 1 else 0)
        - if a.CountOut? && s.attempts[a.t].ip == ip then 1 else 0
  {
    hide SlotsOf, PermitHolders;
    var t := Do(s, a);
    SlotsAfterUpdate(s, a.t, t.attempts[a.t], ip);
    SameAttemptsSameSets(s.(attempts := s.attempts[a.t := t.attempts[a.t]]), t, ip);
  }

  predicate HasPermit(x: Attempt) {
    !x.phase.Over?
  }

  lemma HoldersAfterUpdate(s: State, t: nat, x: Attempt)
    ensures |PermitHolders(s.(attempts := s.attempts[t := x]))|
         == |PermitHolders(s)| - (if t in s.attempts && HasPermit(s.attempts[t]) then 1 else 0)
          + if HasPermit(x) then 1 else 0
  {
    hide HasPermit;
    var s' := s.(attempts := s.attempts[t := x]);
    assert PermitHolders(s') - {t} == PermitHolders(s) - {t};
    OneChanges(PermitHolders(s), PermitHolders(s'), t);
  }

  lemma HoldersAfter(s: State, a: Action)
    requires Enabled(s, a)
    ensures |PermitHolders(Do(s, a))| - |PermitHolders(s)| == Do(s, a).taken - s.taken
  {
    hide SlotsOf, PermitHolders;
    var t := Do(s, a);
    HoldersAfterUpdate(s, a.t, t.attempts[a.t]);
    SameAttemptsSameSets(s.(attempts := s.attempts[a.t := t.attempts[a.t]]), t, 0);
  }

  lemma StepKeepsInv(s: State, a: Action)
    requires Inv(s) && Enabled(s, a)
    ensures Inv(Do(s, a))
  {
    hide SlotsOf, PermitHolders;
    var t := Do(s, a);
    HoldersAfter(s, a);
    forall ip
      ensures At(t.byIp, ip) == |SlotsOf(t, ip)|
      ensures ip in t.byIp ==> 1 <= t.byIp[ip] <= MAX_PENDING_PER_IP
    {
      SlotsAfter(s, a, ip);
    }
  }

  lemma RunKeepsInv(s: State, actions: seq<Action>)
    requires Inv(s) && Runs(Do, s, actions)
    ensures Inv(Exec(Do, s, actions))
  {
    var inv := (t: State) => Inv(t);
    forall t, a | inv(t) && Enabled(t, a)
      ensures inv(Do(t, a))
    {
      StepKeepsInv(t, a);
    }
    hide Inv, Do;
    RunsKeep(Do, inv, s, actions);
  }

  lemma EmptyInv()
    ensures Inv(EMPTY)
  {
    forall ip: Ip
      ensures SlotsOf(EMPTY, ip) == {}
    {
    }
    assert PermitHolders(EMPTY) == {};
  }

  /**
   * At every moment an address's count is the number of slots it holds, no count
   * is zero or over its limit, and all slots together never exceed the permits
   * taken, which never exceed theirs.
   */
  lemma SlotsAreCounted(actions: seq<Action>)
    requires Runs(Do, EMPTY, actions)
    ensures var s := Exec(Do, EMPTY, actions);
      && (forall ip :: |SlotsOf(s, ip)| == At(s.byIp, ip) <= 16)
      && (forall ip :: ip in s.byIp ==> s.byIp[ip] >= 1)
      && |AllSlots(s)| <= s.taken <= 256
  {
    EmptyInv();
    RunKeepsInv(EMPTY, actions);
    var s := Exec(Do, EMPTY, actions);
    assert AllSlots(s) <= PermitHolders(s);
    SubsetSize(AllSlots(s), PermitHolders(s));
  }

  lemma SubsetSize(a: set<nat>, b: set<nat>)
    requires a <= b
    ensures |a| <= |b|
  {
    assert b == a + (b - a);
  }

  /** Releasing a slot always finds a count to take down: it never goes below zero. */
  lemma ReleaseNeverUnderflows(actions: seq<Action>, t: nat)
    requires Runs(Do, EMPTY, actions) && Enabled(Exec(Do, EMPTY, actions), CountOut(t))
    ensures var s := Exec(Do, EMPTY, actions); s.attempts[t].ip in s.byIp && s.byIp[s.attempts[t].ip] >= 1
  {
    EmptyInv();
    RunKeepsInv(EMPTY, actions);
    var s := Exec(Do, EMPTY, actions);
    assert t in SlotsOf(s, s.attempts[t].ip);
    assert At(s.byIp, s.attempts[t].ip) >= 1;
  }

  /** An attempt is refused exactly when a limit is reached, and once over has left both limits as it found them. */
  lemma RefusalLeavesNoTrace(s: State, t: nat, ip: Ip)
    requires Inv(s) && t !in s.attempts
    ensures var s1 := Do(s, Permit(t, ip));
      if s.taken == 256 then s1 == s.(attempts := s.attempts[t := Attempt(ip, Over)])
      else
        var s2 := Do(s1, CountIn(t));
        if |SlotsOf(s, ip)| == 16
        then s2.attempts[t].phase.Refused? && Do(s2, GiveBack(t)) == s.(attempts := s.attempts[t := Attempt(ip, Over)])
        else s2.attempts[t].phase.Counted? && SlotsOf(s2, ip) == SlotsOf(s, ip) + {t}
  {
    hide PermitHolders;
    assert At(s.byIp, ip) == |SlotsOf(s, ip)|;
    var s1 := Do(s, Permit(t, ip));
    if s.taken < MAX_PENDING_HANDSHAKES && |SlotsOf(s, ip)| == MAX_PENDING_PER_IP {
      var s3 := Do(Do(s1, CountIn(t)), GiveBack(t));
      assert s3.attempts == s.attempts[t := Attempt(ip, Over)];
    }
  }

  /** A slot taken and dropped with nothing in between restores both limits. */
  lemma TakeThenDropRestores(s: State, t: nat, ip: Ip)
    requires Inv(s) && t !in s.attempts && s.taken < 256 && |SlotsOf(s, ip)| < 16
    ensures var s4 := Do(Do(Do(Do(s, Permit(t, ip)), CountIn(t)), CountOut(t)), GiveBack(t));
      s4.taken == s.taken && s4.byIp == s.byIp
  {
    hide PermitHolders;
    assert At(s.byIp, ip) == |SlotsOf(s, ip)|;
  }

  /** The semaphore and the per-address map, updated in place. */
  class SlotTable {
    var taken: int
    var byIp: map<Ip, int>

    constructor ()
      ensures taken == 0 && byIp == map[]
    {
      taken, byIp := 0, map[];
    }

    method TryPermit() returns (ok: bool)
      modifies this`taken
      ensures ok == (old(taken) < MAX_PENDING_HANDSHAKES)
      ensures taken == old(taken) + if ok then 1 else 0
    {
      ok := taken < MAX_PENDING_HANDSHAKES;
      if ok {
        taken := taken + 1;
      }
    }

    method ReleasePermit()
      modifies this`taken
      ensures taken == old(taken) - 1
    {
      taken := taken - 1;
    }

    /** The entry is created at zero if need be and then counted up, unless it is at its limit. */
    method TryCount(ip: Ip) returns (ok: bool)
      modifies this`byIp
      ensures ok == (At(old(byIp), ip) < MAX_PENDING_PER_IP)
      ensures ok ==> byIp == old(byIp)[ip := At(old(byIp), ip) + 1]
      ensures !ok ==> byIp == old(byIp)
    {
      if ip !in byIp {
        byIp := byIp[ip := 0];
      }
      if byIp[ip] >= MAX_PENDING_PER_IP {
        return false;
      }
      byIp := byIp[ip := byIp[ip] + 1];
      return true;
    }

    /** An address without an entry is left alone; a count that reaches zero is forgotten. */
    method Uncount(ip: Ip)
      modifies this`byIp
      ensures ip !in old(byIp) ==> byIp == old(byIp)
      ensures ip in old(byIp) ==>
        byIp == if old(byIp)[ip] == 1 then old(byIp) - {ip} else old(byIp)[ip := old(byIp)[ip] - 1]
    {
      if ip in byIp {
        byIp := byIp[ip := byIp[ip] - 1];
        if byIp[ip] == 0 {
          byIp := byIp - {ip};
        }
      }
    }
  }

  /** The slot table with its attempts: every step of the protocol done through the table. */
  class Handshakes {
    const table: SlotTable
    var attempts: map<nat, Attempt>

    constructor (table: SlotTable)
      ensures this.table == table && attempts == map[]
    {
      this.table, attempts := table, map[];
    }

    ghost function View(): State
      reads this, table
    {
      State(table.taken, table.byIp, attempts)
    }

    method Perform(a: Action)
      requires Inv(View()) && Enabled(View(), a)
      modifies this, table
      ensures View() == Do(old(View()), a) && Inv(View())
    {
      StepKeepsInv(View(), a);
      match a {
        case Permit(t, ip) =>
          var ok := table.TryPermit();
          attempts := attempts[t := Attempt(ip, if ok then Permitted else Over)];
        case CountIn(t) =>
          var ok := table.TryCount(attempts[t].ip);
          attempts := attempts[t := Attempt(attempts[t].ip, if ok then Counted else Refused)];
        case CountOut(t) =>
          assert t in SlotsOf(View(), attempts[t].ip);
          assert At(table.byIp, attempts[t].ip) >= 1;
          table.Uncount(attempts[t].ip);
          attempts := attempts[t := Attempt(attempts[t].ip, Uncounted)];
        case GiveBack(t) =>
          table.ReleasePermit();
          attempts := attempts[t := attempts[t].(phase := Over)];
      }
    }
  }
}
