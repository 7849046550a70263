/** Tenants, enrollment codes and the validated snapshot the handshake and the router consult. */
module Tenants {
  import opened Basics
  import opened Hosts

  type Psk = p: seq<byte> | |p| == 32 witness seq(32, _ => 0)

  datatype Tenant = Tenant(name: string, psk: Psk, sni: string, maxConns: nat, disabled: bool)

  datatype EnrollCode = EnrollCode(psk: Psk, sni: string, maxConns: nat, expiresAt: Option<nat>)

  datatype Identity = AsTenant(tenant: Tenant) | AsCode(code: EnrollCode)

  datatype TenantSet = TenantSet(tenants: seq<Tenant>, codes: seq<EnrollCode>)

  datatype Fault =
    | EmptyName
    | DuplicateName(name: string)
    | EmptySni(what: string)
    | ZeroMaxConns(what: string)
    | DuplicateSni(sni: string, name: string)
    | TenantSharesPsk(name: string)
    | CodeSharesPsk

  datatype EditError = NoSuchTenant(name: string) | HostTaken(sni: string,
    holder: string) | NoSuchCode | Invalid(fault: Fault)

  const EMPTY_SET := TenantSet([], [])

  // ---------- What makes a set unambiguous

  predicate GoodEntry(sni: string, maxConns: nat) {
    NormalizeHost(sni) != "" && maxConns > 0
  }

  /** Two tenants share nothing a client or a connection is recognised by. */
  predicate Apart(t: Tenant, u: Tenant) {
    t.name != u.name && NormalizeHost(t.sni) != NormalizeHost(u.sni) && t.psk != u.psk
  }

  predicate GoodTenants(ts: seq<Tenant>) {
    && (forall t :: t in ts ==> t.name != "" && GoodEntry(t.sni, t.maxConns))
    && forall i, j :: 0 <= i < j < |ts| ==> Apart(ts[i], ts[j])
  }

  predicate GoodCodes(ts: seq<Tenant>, cs: seq<EnrollCode>) {
    && (forall c :: c in cs ==> GoodEntry(c.sni, c.maxConns))
    && (forall c, t :: c in cs && t in ts ==> c.psk != t.psk)
    && forall i, j :: 0 <= i < j < |cs| ==> cs[i].psk != cs[j].psk
  }

  /** Names, hosts and PSKs each belong to one entry, and every entry is usable. */
  predicate Valid(s: TenantSet) {
    GoodTenants(s.tenants) && GoodCodes(s.tenants, s.codes)
  }

  // ---------- Building a set

  function EntryFault(sni: string, maxConns: nat, what: string): Option<Fault> {
    if NormalizeHost(sni) == "" then Some(EmptySni(what))
    else if maxConns == 0 then Some(ZeroMaxConns(what))
    else None
  }

  function Names(ts: seq<Tenant>): set<string> { set t | t in ts :: t.name }

  function HostKeys(ts: seq<Tenant>): set<string> { set t | t in ts :: NormalizeHost(t.sni) }

  function TenantPsks(ts: seq<Tenant>): set<Psk> { set t | t in ts :: t.psk }

  function CodePsks(cs: seq<EnrollCode>): set<Psk> { set c | c in cs :: c.psk }

  /** What is wrong with `t` where these names, hosts and PSKs are taken. */
  function TenantFaultAmong(names: set<string>, hosts: set<string>, psks: set<Psk>, t: Tenant): Option<Fault> {
    if t.name == "" then Some(EmptyName)
    else if t.name in names then Some(DuplicateName(t.name))
    else if EntryFault(t.sni, t.maxConns, t.name).Some? then EntryFault(t.sni, t.maxConns, t.name)
    else if NormalizeHost(t.sni) in hosts then Some(DuplicateSni(t.sni, t.name))
    else if t.psk in psks then Some(TenantSharesPsk(t.name))
    else None
  }

  function TenantFault(before: seq<Tenant>, t: Tenant): Option<Fault> {
    TenantFaultAmong(Names(before), HostKeys(before), TenantPsks(before), t)
  }

  function CodeFaultAmong(psks: set<Psk>, c: EnrollCode): Option<Fault> {
    if EntryFault(c.sni, c.maxConns, "enrollment code").Some? then EntryFault(c.sni, c.maxConns, "enrollment code")
    else if c.psk in psks then Some(CodeSharesPsk)
    else None
  }

  function CodeFault(ts: seq<Tenant>, before: seq<EnrollCode>, c: EnrollCode): Option<Fault> {
    CodeFaultAmong(TenantPsks(ts) + CodePsks(before), c)
  }

  /** The fault of the first faulty tenant. */
  function TenantsFault(ts: seq<Tenant>): Option<Fault> {
    if ts == [] then None
    else if TenantsFault(ts[..|ts| - 1]).Some? then TenantsFault(ts[..|ts| - 1])
    else TenantFault(ts[..|ts| - 1], ts[|ts| - 1])
  }

  function CodesFault(ts: seq<Tenant>, cs: seq<EnrollCode>): Option<Fault> {
    if cs == [] then None
    else if CodesFault(ts, cs[..|cs| - 1]).Some? then CodesFault(ts, cs[..|cs| - 1])
    else CodeFault(ts, cs[..|cs| - 1], cs[|cs| - 1])
  }

  function New(ts: seq<Tenant>, cs: seq<EnrollCode>): Result<TenantSet, Fault> {
    match TenantsFault(ts)
    case Some(f) => Err(f)
    case None =>
      match CodesFault(ts, cs)
      case Some(f) => Err(f)
      case None => Ok(TenantSet(ts, cs))
  }

  lemma {:induction false} TenantsFaultFromPrefix(ts: seq<Tenant>, n: nat)
    requires n <= |ts| && TenantsFault(ts[..n]).Some?
    ensures TenantsFault(ts) == TenantsFault(ts[..n])
    decreases |ts|
  {
    if n == |ts| {
      assert ts[..n] == ts;
    } else {
      assert ts[..|ts| - 1][..n] == ts[..n];
      TenantsFaultFromPrefix(ts[..|ts| - 1], n);
    }
  }

  lemma {:induction false} CodesFaultFromPrefix(ts: seq<Tenant>, cs: seq<EnrollCode>, n: nat)
    requires n <= |cs| && CodesFault(ts, cs[..n]).Some?
    ensures CodesFault(ts, cs) == CodesFault(ts, cs[..n])
    decreases |cs|
  {
    if n == |cs| {
      assert cs[..n] == cs;
    } else {
      assert cs[..|cs| - 1][..n] == cs[..n];
      CodesFaultFromPrefix(ts, cs[..|cs| - 1], n);
    }
  }

  /** The first `i` tenants are without fault, and the sets hold what they take. */
  ghost predicate Seen(ts: seq<Tenant>, i: nat, names: set<string>, hosts: set<string>, psks: set<Psk>)
    requires i <= |ts|
  {
    TenantsFault(ts[..i]).None? && names == Names(ts[..i]) && hosts == HostKeys(ts[..i]) && psks == TenantPsks(ts[..i])
  }

  lemma TakenByOneMore(before: seq<Tenant>, t: Tenant)
    ensures Names(before + [t]) == Names(before) + {t.name}
    ensures HostKeys(before + [t]) == HostKeys(before) + {NormalizeHost(t.sni)}
    ensures TenantPsks(before + [t]) == TenantPsks(before) + {t.psk}
    ensures TenantsFault(before + [t]) == if TenantsFault(before).Some? then TenantsFault(before)
      else TenantFault(before, t)
  {
    hide NormalizeHost, TenantFault;
    assert (before + [t])[..|before|] == before;
  }

  lemma SeeTenant(ts: seq<Tenant>, i: nat, names: set<string>, hosts: set<string>, psks: set<Psk>)
    requires i < |ts| && Seen(ts, i, names, hosts, psks)
    ensures var fault := TenantFaultAmong(names, hosts, psks, ts[i]);
      if fault.Some? then TenantsFault(ts) == fault
      else Seen(ts, i + 1, names + {ts[i].name}, hosts + {NormalizeHost(ts[i].sni)}, psks + {ts[i].psk})
  {
    hide NormalizeHost, TenantFaultAmong, TenantsFault, Names, HostKeys, TenantPsks;
    TakenByOneMore(ts[..i], ts[i]);
    assert ts[..i + 1] == ts[..i] + [ts[i]];
    if TenantsFault(ts[..i + 1]).Some? {
      TenantsFaultFromPrefix(ts, i + 1);
    }
  }

  ghost predicate SeenCodes(ts: seq<Tenant>, cs: seq<EnrollCode>, j: nat, psks: set<Psk>)
    requires j <= |cs|
  {
    CodesFault(ts, cs[..j]).None? && psks == TenantPsks(ts) + CodePsks(cs[..j])
  }

  lemma SeeCode(ts: seq<Tenant>, cs: seq<EnrollCode>, j: nat, psks: set<Psk>)
    requires j < |cs| && SeenCodes(ts, cs, j, psks)
    ensures var fault := CodeFaultAmong(psks, cs[j]);
      if fault.Some? then CodesFault(ts, cs) == fault else SeenCodes(ts, cs, j + 1, psks + {cs[j].psk})
  {
    hide CodeFaultAmong;
    assert cs[..j + 1] == cs[..j] + [cs[j]];
    assert cs[..j + 1][..j] == cs[..j];
    if CodesFault(ts, cs[..j + 1]).Some? {
      CodesFaultFromPrefix(ts, cs, j + 1);
    }
  }

  lemma SeenAll(ts: seq<Tenant>, cs: seq<EnrollCode>)
    ensures Seen(ts, 0, {}, {}, {})
    ensures forall names, hosts, psks :: Seen(ts, |ts|, names, hosts, psks) ==>
      TenantsFault(ts).None? && SeenCodes(ts, cs, 0, psks)
    ensures forall psks :: SeenCodes(ts, cs, |cs|, psks) ==> CodesFault(ts, cs).None?
  {
    assert ts[..|ts|] == ts && cs[..|cs|] == cs;
  }

  /** One pass with three sets of what was seen decides a set, and reports its first fault. */
  method Build(tenants: seq<Tenant>, codes: seq<EnrollCode>) returns (r: Result<TenantSet, Fault>)
    ensures r == New(tenants, codes)
  {
    hide Seen, SeenCodes, NormalizeHost, TenantFaultAmong, CodeFaultAmong, TenantsFault, CodesFault;
    SeenAll(tenants, codes);
    var names: set<string>, hosts: set<string>, psks: set<Psk> := {}, {}, {};
    for i := 0 to |tenants|
      invariant Seen(tenants, i, names, hosts, psks)
    {
      var t := tenants[i];
      SeeTenant(tenants, i, names, hosts, psks);
      var fault := TenantFaultAmong(names, hosts, psks, t);
      if fault.Some? {
        return Err(fault.value);
      }
      names, hosts, psks := names + {t.name}, hosts + {NormalizeHost(t.sni)}, psks + {t.psk};
    }
    for j := 0 to |codes|
      invariant SeenCodes(tenants, codes, j, psks)
    {
      SeeCode(tenants, codes, j, psks);
      var fault := CodeFaultAmong(psks, codes[j]);
      if fault.Some? {
        return Err(fault.value);
      }
      psks := psks + {codes[j].psk};
    }
    return Ok(TenantSet(tenants, codes));
  }


  ghost predicate MayFollow(before: seq<Tenant>, t: Tenant) {
    t.name != "" && GoodEntry(t.sni, t.maxConns) && forall u :: u in before ==> Apart(u, t)
  }

  lemma NoFaultMayFollow(before: seq<Tenant>, t: Tenant)
    ensures TenantFault(before, t).None? <==> MayFollow(before, t)
  {
    hide NormalizeHost;
  }

  lemma AppendTenant(ts: seq<Tenant>, t: Tenant)
    ensures GoodTenants(ts + [t]) <==> GoodTenants(ts) && MayFollow(ts, t)
  {
    hide NormalizeHost, GoodEntry, Apart;
    var all := ts + [t];
    assert all[|ts|] == t && t in all;
    if GoodTenants(all) {
      assert forall i :: 0 <= i < |ts| ==> ts[i] == all[i];
      assert forall u :: u in ts ==> u in all;
      forall u | u in ts
        ensures Apart(u, t)
      {
        var i :| 0 <= i < |ts| && ts[i] == u;
        assert all[i] == u;
      }
    }
  }

  ghost predicate CodeMayFollow(ts: seq<Tenant>, before: seq<EnrollCode>, c: EnrollCode) {
    GoodEntry(c.sni, c.maxConns) && (forall t :: t in ts ==> t.psk != c.psk) && forall b :: b in before ==>
      b.psk != c.psk
  }

  lemma NoFaultCodeMayFollow(ts: seq<Tenant>, before: seq<EnrollCode>, c: EnrollCode)
    ensures CodeFault(ts, before, c).None? <==> CodeMayFollow(ts, before, c)
  {
    hide NormalizeHost;
  }

  lemma AppendCode(ts: seq<Tenant>, cs: seq<EnrollCode>, c: EnrollCode)
    ensures GoodCodes(ts, cs + [c]) <==> GoodCodes(ts, cs) && CodeMayFollow(ts, cs, c)
  {
    hide NormalizeHost, GoodEntry;
    var all := cs + [c];
    assert all[|cs|] == c && c in all;
    if GoodCodes(ts, all) {
      assert forall i :: 0 <= i < |cs| ==> cs[i] == all[i];
      assert forall d :: d in cs ==> d in all;
      forall d | d in cs
        ensures d.psk != c.psk
      {
        var i :| 0 <= i < |cs| && cs[i] == d;
        assert all[i] == d;
      }
    }
  }

  lemma {:induction false} NoTenantFault(ts: seq<Tenant>)
    ensures TenantsFault(ts).None? <==> GoodTenants(ts)
  {
    hide MayFollow, TenantFault;
    if ts != [] {
      var front, t := ts[..|ts| - 1], ts[|ts| - 1];
      assert ts == front + [t];
      NoTenantFault(front);
      NoFaultMayFollow(front, t);
      AppendTenant(front, t);
    }
  }

  lemma {:induction false} NoCodeFault(ts: seq<Tenant>, cs: seq<EnrollCode>)
    ensures CodesFault(ts, cs).None? <==> GoodCodes(ts, cs)
  {
    hide CodeMayFollow, CodeFault;
    if cs != [] {
      var front, c := cs[..|cs| - 1], cs[|cs| - 1];
      assert cs == front + [c];
      NoCodeFault(ts, front);
      NoFaultCodeMayFollow(ts, front, c);
      AppendCode(ts, front, c);
    }
  }

  /** Building accepts exactly the unambiguous sets, and changes nothing in them. */
  lemma NewAcceptsExactlyValid(ts: seq<Tenant>, cs: seq<EnrollCode>)
    ensures New(ts, cs).Ok? <==> Valid(TenantSet(ts, cs))
    ensures New(ts, cs).Ok? ==> New(ts, cs).value == TenantSet(ts, cs)
  {
    NoTenantFault(ts);
    NoCodeFault(ts, cs);
  }

  /**
   * A set is accepted exactly if every name is non-empty and every host
   * non-empty once normalised, every limit is positive, names, normalised hosts
   * and PSKs of tenants are pairwise different, and so are the PSKs of codes
   * among themselves and from those of tenants.
   */
  lemma NewAcceptsExactly(ts: seq<Tenant>, cs: seq<EnrollCode>)
    ensures New(ts, cs).Ok? <==>
      && (forall i :: 0 <= i < |ts| ==> ts[i].name != "" && NormalizeHost(ts[i].sni) != "" && ts[i].maxConns >= 1)
      && (forall j :: 0 <= j < |cs| ==> NormalizeHost(cs[j].sni) != "" && cs[j].maxConns >= 1)
      && (forall i, j :: 0 <= i < j < |ts| ==>
           && ts[i].name != ts[j].name
           && NormalizeHost(ts[i].sni) != NormalizeHost(ts[j].sni)
           && ts[i].psk != ts[j].psk)
      && (forall i, j :: 0 <= i < |ts| && 0 <= j < |cs| ==> ts[i].psk != cs[j].psk)
      && (forall i, j :: 0 <= i < j < |cs| ==> cs[i].psk != cs[j].psk)
    ensures New(ts, cs).Ok? ==> New(ts, cs).value == TenantSet(ts, cs)
  {
    NewAcceptsExactlyValid(ts, cs);
    hide New, NormalizeHost;
    assert forall i :: 0 <= i < |ts| ==> ts[i] in ts;
    assert forall j :: 0 <= j < |cs| ==> cs[j] in cs;
  }

  /**
   * The fault reported is that of the first tenant that cannot follow those
   * before it, and the first it has of these.
   */
  lemma TenantFaultReported(before: seq<Tenant>, t: Tenant, after: seq<Tenant>, cs: seq<EnrollCode>)
    requires GoodTenants(before) && !GoodTenants(before + [t])
    ensures New(before + [t] + after, cs) == Err(
      if t.name == "" then EmptyName
      else if (exists u :: u in before && u.name == t.name) then DuplicateName(t.name)
      else if NormalizeHost(t.sni) == "" then EmptySni(t.name)
      else if t.maxConns == 0 then ZeroMaxConns(t.name)
      else if (exists u :: u in before && NormalizeHost(u.sni) == NormalizeHost(t.sni)) then DuplicateSni(t.sni, t.name)
      else TenantSharesPsk(t.name))
  {
    hide NormalizeHost, GoodTenants, TenantsFault, TenantFault;
    CannotFollow(before, t);
    var all := before + [t] + after;
    assert all[..|before| + 1] == before + [t];
    TenantsFaultFromPrefix(all, |before| + 1);
    FaultInOrder(before, t);
  }

  lemma CannotFollow(before: seq<Tenant>, t: Tenant)
    requires GoodTenants(before) && !GoodTenants(before + [t])
    ensures TenantFault(before, t).Some? && TenantsFault(before + [t]) == TenantFault(before, t)
  {
    NoTenantFault(before);
    NoTenantFault(before + [t]);
    hide GoodTenants, TenantFault;
    assert (before + [t])[..|before|] == before;
  }

  lemma FaultInOrder(before: seq<Tenant>, t: Tenant)
    requires TenantFault(before, t).Some?
    ensures TenantFault(before, t) == Some(
      if t.name == "" then EmptyName
      else if (exists u :: u in before && u.name == t.name) then DuplicateName(t.name)
      else if NormalizeHost(t.sni) == "" then EmptySni(t.name)
      else if t.maxConns == 0 then ZeroMaxConns(t.name)
      else if (exists u :: u in before && NormalizeHost(u.sni) == NormalizeHost(t.sni)) then DuplicateSni(t.sni, t.name)
      else TenantSharesPsk(t.name))
  {
    hide NormalizeHost;
  }

  /** Where the tenants are fine, it is that of the first code that cannot follow. */
  lemma CodeFaultReported(ts: seq<Tenant>, cs: seq<EnrollCode>, j: nat)
    requires GoodTenants(ts) && j < |cs| && GoodCodes(ts, cs[..j]) && !GoodCodes(ts, cs[..j + 1])
    ensures var c := cs[j];
      New(ts, cs) == Err(
        if NormalizeHost(c.sni) == "" then EmptySni("enrollment code")
        else if c.maxConns == 0 then ZeroMaxConns("enrollment code")
        else CodeSharesPsk)
  {
    hide NormalizeHost, GoodTenants;
    NoTenantFault(ts);
    NoCodeFault(ts, cs[..j]);
    NoCodeFault(ts, cs[..j + 1]);
    assert cs[..j + 1] == cs[..j] + [cs[j]];
    assert cs[..j + 1][..j] == cs[..j];
    CodesFaultFromPrefix(ts, cs, j + 1);
    hide GoodCodes;
  }

  // ---------- Lookups

  function Find(ts: seq<Tenant>, p: Tenant -> bool): Option<Tenant> {
    if ts == [] then None else if p(ts[0]) then Some(ts[0]) else Find(ts[1..], p)
  }

  function Lookup(s: TenantSet, name: string): Option<Tenant> {
    Find(s.tenants, (t: Tenant) => t.name == name)
  }

  function TenantBySni(s: TenantSet, host: string): Option<Tenant> {
    Find(s.tenants, (t: Tenant) => !t.disabled && NormalizeHost(t.sni) == NormalizeHost(host))
  }

  lemma {:induction false} FindFirst(ts: seq<Tenant>, p: Tenant -> bool)
    ensures Find(ts, p).Some? ==> Find(ts, p).value in ts && p(Find(ts, p).value)
    ensures Find(ts, p).None? ==> forall t :: t in ts ==> !p(t)
  {
    if ts != [] && !p(ts[0]) {
      FindFirst(ts[1..], p);
      assert ts == [ts[0]] + ts[1..];
    }
  }

  /** In a valid set a name has one owner, and looking it up finds that owner. */
  lemma LookupFindsTheOnly(s: TenantSet, name: string, t: Tenant)
    requires GoodTenants(s.tenants)
    ensures Lookup(s, name) == Some(t) <==> t in s.tenants && t.name == name
  {
    FindFirst(s.tenants, (u: Tenant) => u.name == name);
  }

  /** A host is routed to a tenant exactly when that tenant is enabled and holds the host: no other can answer. */
  lemma RoutesToTheOnlyHolder(s: TenantSet, host: string, t: Tenant)
    requires Valid(s)
    ensures TenantBySni(s, host) == Some(t)
      <==> t in s.tenants && !t.disabled && NormalizeHost(t.sni) == NormalizeHost(host)
  {
    FindFirst(s.tenants, (u: Tenant) => !u.disabled && NormalizeHost(u.sni) == NormalizeHost(host));
  }

  // ---------- Handshake candidates

  predicate Live(c: EnrollCode, now: nat) {
    c.expiresAt.None? || now < c.expiresAt.value
  }

  function PskOf(id: Identity): Psk {
    match id
    case AsTenant(t) => t.psk
    case AsCode(c) => c.psk
  }

  function PsksOf(ids: seq<Identity>): seq<Psk> {
    seq(|ids|, i requires 0 <= i < |ids| => PskOf(ids[i]))
  }

  function TenantIds(ts: seq<Tenant>): seq<Identity> {
    if ts == [] then []
    else TenantIds(ts[..|ts| - 1]) + if ts[|ts| - 1].disabled then [] else [AsTenant(ts[|ts| - 1])]
  }

  function CodeIds(cs: seq<EnrollCode>, now: nat): seq<Identity> {
    if cs == [] then []
    else CodeIds(cs[..|cs| - 1], now) + if Live(cs[|cs| - 1], now) then [AsCode(cs[|cs| - 1])] else []
  }

  /** Who may authenticate at `now`: enabled tenants, then codes that have not expired. */
  function Eligible(s: TenantSet, now: nat): seq<Identity> {
    TenantIds(s.tenants) + CodeIds(s.codes, now)
  }

  method Candidates(s: TenantSet, now: nat) returns (psks: seq<Psk>, ids: seq<Identity>)
    ensures ids == Eligible(s, now) && psks == PsksOf(ids)
  {
    psks, ids := [], [];
    for i := 0 to |s.tenants|
      invariant ids == TenantIds(s.tenants[..i]) && psks == PsksOf(ids)
    {
      assert s.tenants[..i + 1][..i] == s.tenants[..i];
      if !s.tenants[i].disabled {
        psks, ids := psks + [s.tenants[i].psk], ids + [AsTenant(s.tenants[i])];
      }
    }
    assert s.tenants[..|s.tenants|] == s.tenants;
    for j := 0 to |s.codes|
      invariant ids == TenantIds(s.tenants) + CodeIds(s.codes[..j], now) && psks == PsksOf(ids)
    {
      assert s.codes[..j + 1][..j] == s.codes[..j];
      if Live(s.codes[j], now) {
        psks, ids := psks + [s.codes[j].psk], ids + [AsCode(s.codes[j])];
      }
    }
    assert s.codes[..|s.codes|] == s.codes;
  }

  /**
   * Tries every candidate on the one handshake message, even after a match, and
   * keeps the first whose tag verified. `verifies` idealises the responder.
   */
  method AcceptAny(verifies: Psk -> bool, psks: seq<Psk>) returns (matched: Option<nat>)
    ensures matched.None? ==> forall i :: 0 <= i < |psks| ==> !verifies(psks[i])
    ensures matched.Some? ==> matched.value < |psks| && verifies(psks[matched.value])
    ensures matched.Some? ==> forall i :: 0 <= i < matched.value ==> !verifies(psks[i])
  {
    matched := None;
    for index := 0 to |psks|
      invariant matched.None? ==> forall i :: 0 <= i < index ==> !verifies(psks[i])
      invariant matched.Some? ==> matched.value < index && verifies(psks[matched.value])
      invariant matched.Some? ==> forall i :: 0 <= i < matched.value ==> !verifies(psks[i])
    {
      if verifies(psks[index]) && matched.None? {
        matched := Some(index);
      }
    }
  }

  lemma {:induction false} TenantIdsMembers(ts: seq<Tenant>)
    ensures forall id :: id in TenantIds(ts) <==> id.AsTenant? && id.tenant in ts && !id.tenant.disabled
  {
    if ts != [] {
      TenantIdsMembers(ts[..|ts| - 1]);
      assert ts == ts[..|ts| - 1] + [ts[|ts| - 1]];
    }
  }

  lemma {:induction false} CodeIdsMembers(cs: seq<EnrollCode>, now: nat)
    ensures forall id :: id in CodeIds(cs, now) <==> id.AsCode? && id.code in cs && Live(id.code, now)
  {
    if cs != [] {
      CodeIdsMembers(cs[..|cs| - 1], now);
      assert cs == cs[..|cs| - 1] + [cs[|cs| - 1]];
    }
  }

  ghost predicate Unlike(ids: seq<Identity>) {
    forall i, j :: 0 <= i < j < |ids| ==> PskOf(ids[i]) != PskOf(ids[j])
  }

  lemma UnlikeAppend(ids: seq<Identity>, id: Identity)
    requires Unlike(ids) && forall other :: other in ids ==> PskOf(other) != PskOf(id)
    ensures Unlike(ids + [id])
  {
  }

  lemma {:induction false} TenantIdsDistinct(ts: seq<Tenant>)
    requires GoodTenants(ts)
    ensures Unlike(TenantIds(ts))
  {
    if ts != [] {
      var front, last := ts[..|ts| - 1], ts[|ts| - 1];
      assert GoodTenants(front) by {
        assert forall i :: 0 <= i < |front| ==> front[i] == ts[i];
        hide NormalizeHost, GoodEntry;
      }
      assert forall t :: t in front ==> t.psk != last.psk;
      assert TenantIds(ts) == TenantIds(front) + if last.disabled then [] else [AsTenant(last)];
      hide GoodTenants, TenantIds, Unlike;
      TenantIdsDistinct(front);
      TenantIdsMembers(front);
      UnlikeAppend(TenantIds(front), AsTenant(last));
    }
  }

  lemma {:induction false} CodeIdsDistinct(ts: seq<Tenant>, cs: seq<EnrollCode>, now: nat)
    requires GoodCodes(ts, cs)
    ensures Unlike(CodeIds(cs, now))
  {
    if cs != [] {
      var front, last := cs[..|cs| - 1], cs[|cs| - 1];
      assert GoodCodes(ts, front) by {
        assert forall i :: 0 <= i < |front| ==> front[i] == cs[i];
        hide NormalizeHost, GoodEntry;
      }
      assert forall c :: c in front ==> c.psk != last.psk;
      assert CodeIds(cs, now) == CodeIds(front, now) + if Live(last, now) then [AsCode(last)] else [];
      hide GoodCodes, CodeIds, Unlike;
      CodeIdsDistinct(ts, front, now);
      CodeIdsMembers(front, now);
      UnlikeAppend(CodeIds(front, now), AsCode(last));
    }
  }

  /** In a valid set no PSK is listed for two identities. */
  lemma CandidatesAreDistinct(s: TenantSet, now: nat)
    requires Valid(s)
    ensures forall i, j :: 0 <= i < j < |Eligible(s, now)| ==> PskOf(Eligible(s, now)[i]) != PskOf(Eligible(s, now)[j])
  {
    TenantIdsDistinct(s.tenants);
    CodeIdsDistinct(s.tenants, s.codes, now);
    TenantIdsMembers(s.tenants);
    CodeIdsMembers(s.codes, now);
    var ts, cs := TenantIds(s.tenants), CodeIds(s.codes, now);
    forall i, j | 0 <= i < |ts| && 0 <= j < |cs|
      ensures PskOf(ts[i]) != PskOf(cs[j])
    {
      assert ts[i] in ts && cs[j] in cs;
    }
  }

  ghost predicate LeastMatch(psks: seq<Psk>, client: Psk, index: nat) {
    index < |psks| && psks[index] == client && forall i :: 0 <= i < index ==> psks[i] != client
  }

  /**
   * With an ideal handshake (a message verifies under the sender's PSK only) a
   * client is taken for `id` exactly when `id` is eligible and holds its PSK.
   */
  lemma IdentifiedExactly(s: TenantSet, now: nat, client: Psk, id: Identity)
    requires Valid(s)
    ensures (exists index: nat :: LeastMatch(PsksOf(Eligible(s, now)), client, index) && Eligible(s, now)[index] == id)
       <==> PskOf(id) == client && match id
                                  case AsTenant(t) => t in s.tenants && !t.disabled
                                  case AsCode(c) => c in s.codes && (c.expiresAt.None? || now < c.expiresAt.value)
  {
    var ids := Eligible(s, now);
    TenantIdsMembers(s.tenants);
    CodeIdsMembers(s.codes, now);
    CandidatesAreDistinct(s, now);
    if id in ids && PskOf(id) == client {
      var index: nat :| index < |ids| && ids[index] == id;
      assert PsksOf(ids)[index] == client;
      assert LeastMatch(PsksOf(ids), client, index);
    }
  }

  /**
   * The whole of a handshake: lists the candidates, tries each, and says whom the
   * one that verified stands for. With an ideal handshake that is exactly the
   * eligible tenant or code whose PSK the client used.
   */
  method Identify(s: TenantSet, now: nat, client: Psk) returns (r: Option<Identity>)
    requires Valid(s)
    ensures forall id :: r == Some(id) <==>
      && PskOf(id) == client
      && match id
         case AsTenant(t) => t in s.tenants && !t.disabled
         case AsCode(c) => c in s.codes && (c.expiresAt.None? || now < c.expiresAt.value)
  {
    var psks, ids := Candidates(s, now);
    var index := AcceptAny(p => p == client, psks);
    r := if index.Some? then Some(ids[index.value]) else None;
    hide Valid, Eligible;
    forall id
      ensures r == Some(id) <==> exists i: nat :: LeastMatch(psks, client, i) && ids[i] == id
    {
      if index.Some? {
        assert LeastMatch(psks, client, index.value);
      }
    }
    forall id
      ensures r == Some(id) <==>
        && PskOf(id) == client
        && match id
           case AsTenant(t) => t in s.tenants && !t.disabled
           case AsCode(c) => c in s.codes && (c.expiresAt.None? || now < c.expiresAt.value)
    {
      IdentifiedExactly(s, now, client, id);
    }
  }

  // ---------- Edits

  function Edited(r: Result<TenantSet, Fault>): Result<TenantSet, EditError> {
    match r
    case Ok(s) => Ok(s)
    case Err(f) => Err(Invalid(f))
  }

  function WithTenant(s: TenantSet, t: Tenant): Result<TenantSet, EditError> {
    Edited(New(s.tenants + [t], s.codes))
  }

  function WithCode(s: TenantSet, c: EnrollCode): Result<TenantSet, EditError> {
    match Find(s.tenants, (t: Tenant) => NormalizeHost(t.sni) == NormalizeHost(c.sni))
    case Some(t) => Err(HostTaken(c.sni, t.name))
    case None => Edited(New(s.tenants, s.codes + [c]))
  }

  function WithoutTenant(s: TenantSet, name: string): Result<TenantSet, EditError> {
    if Lookup(s, name).None? then Err(NoSuchTenant(name))
    else Edited(New(Keep(s.tenants, (t: Tenant) => t.name != name), s.codes))
  }

  function SetDisabled(ts: seq<Tenant>, name: string, disabled: bool): seq<Tenant> {
    seq(|ts|, i requires 0 <= i < |ts| => if ts[i].name == name then ts[i].(disabled := disabled) else ts[i])
  }

  function WithDisabled(s: TenantSet, name: string, disabled: bool): Result<TenantSet, EditError> {
    if Lookup(s, name).None? then Err(NoSuchTenant(name))
    else Edited(New(SetDisabled(s.tenants, name, disabled), s.codes))
  }

  function FindCode(cs: seq<EnrollCode>, psk: Psk, now: nat): Option<EnrollCode> {
    if cs == [] then None
    else if cs[0].psk == psk && Live(cs[0], now) then Some(cs[0])
    else FindCode(cs[1..], psk, now)
  }

  /** The codes that survive the redemption of `psk`: neither it nor the expired ones. */
  function Unspent(cs: seq<EnrollCode>, psk: Psk, now: nat): seq<EnrollCode> {
    Keep(cs, (c: EnrollCode) => c.psk != psk && Live(c, now))
  }

  function Redeem(s: TenantSet, codePsk: Psk, now: nat, name: string, psk: Psk): Result<(TenantSet, Tenant),
    EditError> {
    match FindCode(s.codes, codePsk, now)
    case None => Err(NoSuchCode)
    case Some(code) =>
      var tenant := Tenant(name, psk, code.sni, code.maxConns, false);
      match New(s.tenants + [tenant], Unspent(s.codes, codePsk, now))
      case Ok(next) => Ok((next, tenant))
      case Err(f) => Err(Invalid(f))
  }

  /** A tenant can be added exactly when it is usable and nothing it carries is taken. */
  lemma WithTenantExactly(s: TenantSet, t: Tenant)
    requires Valid(s)
    ensures WithTenant(s, t).Ok? <==>
      && t.name != "" && GoodEntry(t.sni, t.maxConns)
      && (forall u :: u in s.tenants ==> Apart(u, t))
      && (forall c :: c in s.codes ==> c.psk != t.psk)
    ensures WithTenant(s, t).Ok? ==>
      WithTenant(s, t).value == TenantSet(s.tenants + [t], s.codes) && Valid(WithTenant(s, t).value)
  {
    hide NormalizeHost, GoodEntry, Apart;
    NewAcceptsExactlyValid(s.tenants + [t], s.codes);
    JoinTenant(s.tenants, s.codes, t);
  }

  lemma JoinTenant(ts: seq<Tenant>, cs: seq<EnrollCode>, t: Tenant)
    requires GoodTenants(ts) && GoodCodes(ts, cs)
    ensures Valid(TenantSet(ts + [t], cs)) <==> MayFollow(ts, t) && forall c :: c in cs ==> c.psk != t.psk
  {
    hide NormalizeHost, GoodEntry, Apart, MayFollow;
    AppendTenant(ts, t);
    assert t in ts + [t];
  }

  /** A code can be issued exactly when it is usable, its PSK is new and no tenant holds its host. */
  lemma WithCodeExactly(s: TenantSet, c: EnrollCode)
    requires Valid(s)
    ensures WithCode(s, c).Ok? <==>
      && GoodEntry(c.sni, c.maxConns)
      && (forall t :: t in s.tenants ==> NormalizeHost(t.sni) != NormalizeHost(c.sni) && t.psk != c.psk)
      && (forall d :: d in s.codes ==> d.psk != c.psk)
    ensures (exists t :: t in s.tenants && NormalizeHost(t.sni) == NormalizeHost(c.sni)) <==>
      exists t :: t in s.tenants && NormalizeHost(t.sni) == NormalizeHost(c.sni)
                  && WithCode(s, c) == Err(HostTaken(c.sni, t.name))
    ensures WithCode(s, c).Ok? ==>
      WithCode(s, c).value == TenantSet(s.tenants, s.codes + [c]) && Valid(WithCode(s, c).value)
  {
    hide NormalizeHost, GoodEntry, Apart;
    FindFirst(s.tenants, (t: Tenant) => NormalizeHost(t.sni) == NormalizeHost(c.sni));
    NewAcceptsExactlyValid(s.tenants, s.codes + [c]);
    AppendCode(s.tenants, s.codes, c);
  }

  lemma KeepTenantsValid(s: TenantSet, p: Tenant -> bool)
    requires Valid(s)
    ensures Valid(TenantSet(Keep(s.tenants, p), s.codes))
  {
    KeepMembers(s.tenants, p);
    forall i, j | 0 <= i < j < |Keep(s.tenants, p)|
      ensures Apart(Keep(s.tenants, p)[i], Keep(s.tenants, p)[j])
    {
      var i', j' := KeepPair(s.tenants, p, i, j);
    }
  }

  lemma KeepCodesValid(ts: seq<Tenant>, cs: seq<EnrollCode>, p: EnrollCode -> bool)
    requires GoodCodes(ts, cs)
    ensures GoodCodes(ts, Keep(cs, p))
  {
    KeepMembers(cs, p);
    forall i, j | 0 <= i < j < |Keep(cs, p)|
      ensures Keep(cs, p)[i].psk != Keep(cs, p)[j].psk
    {
      var i', j' := KeepPair(cs, p, i, j);
    }
  }

  /** Removal succeeds exactly for a known name, and takes away that tenant and nothing else. */
  lemma WithoutTenantExactly(s: TenantSet, name: string)
    requires Valid(s)
    ensures WithoutTenant(s, name).Ok? <==> exists t :: t in s.tenants && t.name == name
    ensures WithoutTenant(s, name).Err? ==> WithoutTenant(s, name).error == NoSuchTenant(name)
    ensures WithoutTenant(s, name).Ok? ==>
      && Valid(WithoutTenant(s, name).value)
      && WithoutTenant(s, name).value.codes == s.codes
      && forall t :: t in WithoutTenant(s, name).value.tenants <==> t in s.tenants && t.name != name
  {
    FindFirst(s.tenants, (t: Tenant) => t.name == name);
    var p := (t: Tenant) => t.name != name;
    KeepTenantsValid(s, p);
    KeepMembers(s.tenants, p);
    NewAcceptsExactlyValid(Keep(s.tenants, p), s.codes);
  }

  /** Suspending or resuming succeeds exactly for a known name and changes that one flag. */
  lemma WithDisabledExactly(s: TenantSet, name: string, disabled: bool)
    requires Valid(s)
    ensures WithDisabled(s, name, disabled).Ok? <==> exists t :: t in s.tenants && t.name == name
    ensures WithDisabled(s, name, disabled).Err? ==> WithDisabled(s, name, disabled).error == NoSuchTenant(name)
    ensures WithDisabled(s, name, disabled).Ok? ==>
      && Valid(WithDisabled(s, name, disabled).value)
      && WithDisabled(s, name, disabled).value.codes == s.codes
      && |WithDisabled(s, name, disabled).value.tenants| == |s.tenants|
      && forall i :: 0 <= i < |s.tenants| ==>
           WithDisabled(s, name, disabled).value.tenants[i]
           == if s.tenants[i].name == name then s.tenants[i].(disabled := disabled) else s.tenants[i]
  {
    FindFirst(s.tenants, (t: Tenant) => t.name == name);
    NewAcceptsExactlyValid(SetDisabled(s.tenants, name, disabled), s.codes);
    SetDisabledValid(s, name, disabled);
    hide Valid, New;
  }

  lemma SetDisabledValid(s: TenantSet, name: string, disabled: bool)
    requires Valid(s)
    ensures Valid(TenantSet(SetDisabled(s.tenants, name, disabled), s.codes))
  {
    hide NormalizeHost, GoodEntry;
    var ts := SetDisabled(s.tenants, name, disabled);
    forall t | t in ts
      ensures t.name != "" && GoodEntry(t.sni, t.maxConns) && forall c :: c in s.codes ==> c.psk != t.psk
    {
      var i :| 0 <= i < |ts| && ts[i] == t;
      assert s.tenants[i] in s.tenants;
    }
    forall i, j | 0 <= i < j < |ts|
      ensures Apart(ts[i], ts[j])
    {
      assert Apart(s.tenants[i], s.tenants[j]);
    }
  }

  lemma {:induction false} FindCodeFirst(cs: seq<EnrollCode>, psk: Psk, now: nat)
    ensures FindCode(cs, psk, now).Some? ==>
      FindCode(cs, psk, now).value in cs && FindCode(cs, psk, now).value.psk == psk
        && Live(FindCode(cs, psk, now).value, now)
    ensures FindCode(cs, psk, now).None? ==> forall c :: c in cs ==> !(c.psk == psk && Live(c, now))
  {
    if cs != [] && !(cs[0].psk == psk && Live(cs[0], now)) {
      FindCodeFirst(cs[1..], psk, now);
      assert cs == [cs[0]] + cs[1..];
    }
  }

  /**
   * A redemption by `code` succeeds exactly when the code is present and alive
   * and the tenant it entitles can join. It then burns the code, drops the
   * expired ones, keeps every other, and adds that one tenant.
   */
  lemma RedeemExactly(s: TenantSet, codePsk: Psk, now: nat, name: string, psk: Psk)
    requires Valid(s)
    ensures Redeem(s, codePsk, now, name, psk).Ok?
      <==> exists code :: code in s.codes && Redeemable(s, code, codePsk, now, name, psk)
    ensures Redeem(s, codePsk, now, name, psk) == Err(NoSuchCode) <==>
      !exists code :: code in s.codes && code.psk == codePsk && (code.expiresAt.None? || now < code.expiresAt.value)
    ensures Redeem(s, codePsk, now, name, psk).Ok? ==>
      var (next, tenant) := Redeem(s, codePsk, now, name, psk).value;
      && Valid(next)
      && next.tenants == s.tenants + [tenant]
      && (exists code ::
           && code in s.codes && Redeemable(s, code, codePsk, now, name, psk)
           && tenant == Tenant(name, psk, code.sni, code.maxConns, false))
      && forall c :: c in next.codes <==>
           c in s.codes && c.psk != codePsk && (c.expiresAt.None? || now < c.expiresAt.value)
  {
    hide NormalizeHost, GoodEntry, Apart, MayFollow;
    FindCodeFirst(s.codes, codePsk, now);
    var p := (c: EnrollCode) => c.psk != codePsk && Live(c, now);
    var rest := Unspent(s.codes, codePsk, now);
    assert rest == Keep(s.codes, p);
    KeepCodesValid(s.tenants, s.codes, p);
    KeepMembers(s.codes, p);
    if FindCode(s.codes, codePsk, now).Some? {
      var code := FindCode(s.codes, codePsk, now).value;
      var tenant := Tenant(name, psk, code.sni, code.maxConns, false);
      SamePskSameCode(s, code);
      NewAcceptsExactlyValid(s.tenants + [tenant], rest);
      JoinTenant(s.tenants, rest, tenant);
      RedeemableMayFollow(s, code, codePsk, now, name, psk);
    }
  }

  lemma RedeemableMayFollow(s: TenantSet, code: EnrollCode, codePsk: Psk, now: nat, name: string, psk: Psk)
    requires Valid(s) && code in s.codes && code.psk == codePsk && Live(code, now)
    ensures Redeemable(s, code, codePsk, now, name, psk) <==>
      && MayFollow(s.tenants, Tenant(name, psk, code.sni, code.maxConns, false))
      && forall c :: c in s.codes && c.psk != codePsk && Live(c, now) ==> c.psk != psk
  {
    hide NormalizeHost;
  }

  ghost predicate Redeemable(s: TenantSet, code: EnrollCode, codePsk: Psk, now: nat, name: string, psk: Psk) {
    && code.psk == codePsk && (code.expiresAt.None? || now < code.expiresAt.value)
    && name != ""
    && (forall u :: u in s.tenants ==>
      u.name != name && NormalizeHost(u.sni) != NormalizeHost(code.sni) && u.psk != psk)
    && (forall c :: c in s.codes && c.psk != codePsk && (c.expiresAt.None? || now < c.expiresAt.value) ==> c.psk != psk)
  }

  lemma SamePskSameCode(s: TenantSet, code: EnrollCode)
    requires Valid(s) && code in s.codes
    ensures forall c :: c in s.codes && c.psk == code.psk ==> c == code
  {
    assert GoodCodes(s.tenants, s.codes);
    hide Valid, NormalizeHost, GoodEntry, GoodTenants, Apart;
    forall c | c in s.codes && c.psk == code.psk
      ensures c == code
    {
      var i :| 0 <= i < |s.codes| && s.codes[i] == c;
      var j :| 0 <= j < |s.codes| && s.codes[j] == code;
    }
  }
}
