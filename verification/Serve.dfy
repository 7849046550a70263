/**
 * An incoming TLS connection at the server: its server name picks the tenant,
 * whose session and connection budget let it through, or not, to the relay.
 */
module Serve {
  import opened Basics
  import opened Hosts
  import opened Tenants
  import opened Sni
  import opened Streams
  import opened Relay
  import Hub
  import Budgets

  /** A usable server name is ASCII. */
  function AsString(host: seq<byte>): string {
    seq(|host|, i requires 0 <= i < |host| => host[i] as char)
  }

  /** The tenant a client's stream is for: the enabled holder of the server name in it, if its session is there. */
  function Routed(stream: seq<byte>, published: TenantSet, sessions: map<string, Hub.Entry>): Option<Tenant> {
    match ParseRecord(stream)
    case Ok(Some(host)) =>
      var t := TenantBySni(published, AsString(host));
      if t.Some? && t.value.name in sessions then t else None
    case _ => None
  }

  datatype Journey = NotRouted | AtLimit(tenant: Tenant) | Cut(tenant: Tenant) | Relayed(tenant: Tenant)

  /** Takes one of the tenant's permits for relay `r`, if one is left. */
  method TryAcquire(budgets: Budgets.BudgetTable, r: nat, t: Tenant) returns (ok: bool)
    requires Budgets.Inv(budgets.View()) && r !in budgets.relays
    modifies budgets
    ensures Budgets.Inv(budgets.View())
      && ok == Budgets.HasRoom(old(budgets.budgets), old(budgets.sems), t.name, t.maxConns)
    ensures r in budgets.relays && budgets.relays - {r} == old(budgets.relays) && budgets.relays[r].tenant == t.name
    ensures budgets.relays[r].phase == if ok then Budgets.Open else Budgets.Over
    ensures budgets.relays[r].sem < |budgets.sems| && |old(budgets.sems)| <= |budgets.sems|
    ensures forall k :: 0 <= k < |old(budgets.sems)| ==>
      budgets.sems[k] == if ok && k == budgets.relays[r].sem
                         then old(budgets.sems)[k].(available := old(budgets.sems)[k].available - 1)
                           else old(budgets.sems)[k]
  {
    hide Budgets.Inv, Budgets.Do, Budgets.HasRoom;
    Picked(budgets.View(), r, t);
    budgets.Perform(Budgets.Pick(r, t.name, t.maxConns));
    Taken(budgets.View(), r);
    budgets.Perform(Budgets.TryTake(r));
    ok := budgets.relays[r].phase.Open?;
    assert budgets.relays - {r} == old(budgets.relays);
  }

  lemma Picked(s: Budgets.State, r: nat, t: Tenant)
    requires Budgets.Inv(s) && r !in s.relays
    ensures var p := Budgets.Do(s, Budgets.Pick(r, t.name, t.maxConns));
      && r in p.relays && p.relays[r].phase.Picked? && p.relays[r].tenant == t.name && p.relays - {r} == s.relays
      && s.sems <= p.sems && p.relays[r].sem < |p.sems|
      && (p.sems[p.relays[r].sem].available > 0 <==> Budgets.HasRoom(s.budgets, s.sems, t.name, t.maxConns))
  {
    hide Budgets.PermitsOk;
  }

  lemma Taken(p: Budgets.State, r: nat)
    requires r in p.relays && p.relays[r].phase.Picked? && p.relays[r].sem < |p.sems|
    ensures var q := Budgets.Do(p, Budgets.TryTake(r));
            var k := p.relays[r].sem;
      && q.relays == p.relays[r := p.relays[r].(phase := if p.sems[k].available > 0 then Budgets.Open
        else Budgets.Over)]
      && q.sems == if p.sems[k].available > 0 then p.sems[k := p.sems[k].(available := p.sems[k].available - 1)]
        else p.sems
  {
  }

  method Release(budgets: Budgets.BudgetTable, r: nat)
    requires Budgets.Inv(budgets.View()) && r in budgets.relays && budgets.relays[r].phase.Open?
      && budgets.relays[r].sem < |budgets.sems|
    modifies budgets
    ensures Budgets.Inv(budgets.View()) && |budgets.sems| == |old(budgets.sems)|
    ensures budgets.relays == old(budgets.relays)[r := old(budgets.relays)[r].(phase := Budgets.Over)]
    ensures forall k :: 0 <= k < |budgets.sems| ==>
      budgets.sems[k] == if k == old(budgets.relays)[r].sem
                         then old(budgets.sems)[k].(available := old(budgets.sems)[k].available + 1)
                           else old(budgets.sems)[k]
  {
    hide Budgets.Holders, Budgets.Inv;
    budgets.Perform(Budgets.End(r));
  }

  /**
   * Peeks at the client's hello, finds the tenant and its session, takes a
   * permit and relays: the target gets the client's whole stream, hello
   * included. The permit is back at the end, however it ends. `utf8` is how a
   * tenant's name is sent to B, who knows the targets and dials them.
   */
  method HandleSni(hub: Hub.SharedHub, budgets: Budgets.BudgetTable, r: nat, utf8: string -> seq<byte>,
                   client: Source, toClient: Sink, targets: map<seq<byte>, string>, dials: string -> bool,
                   target: Source, toTarget: Sink, outbound: Sink, inbound: Sink) returns (j: Journey)
    requires Budgets.Inv(budgets.View()) && r !in budgets.relays
    requires client != target && |{toClient, toTarget, outbound, inbound}| == 4
    requires outbound.written == [] && inbound.written == []
    modifies budgets, client, toClient, target, toTarget, outbound, inbound
    ensures j.Relayed? ==>
      && toTarget.written == old(toTarget.written) + old(client.unread)
      && toClient.written == old(toClient.written) + old(target.unread)
    ensures toTarget.written <= old(toTarget.written) + old(client.unread)
    ensures toClient.written <= old(toClient.written) + old(target.unread)
    ensures j.NotRouted? || j.AtLimit? ==>
      toTarget.written == old(toTarget.written) && toClient.written == old(toClient.written)
    ensures !j.NotRouted? ==> Routed(old(client.unread), hub.published, hub.sessions) == Some(j.tenant)
    ensures !j.NotRouted? ==>
      (j.AtLimit? <==> !Budgets.HasRoom(old(budgets.budgets), old(budgets.sems), j.tenant.name, j.tenant.maxConns))
    ensures j.Relayed? ==> Reaches(utf8(j.tenant.name), targets, dials)
    ensures old(client.Healthy()) ==> (j.NotRouted? <==> Routed(old(client.unread), hub.published, hub.sessions).None?)
    ensures old(client.Healthy() && toClient.Healthy() && target.Healthy() && toTarget.Healthy() && outbound.Healthy()
      && inbound.Healthy()) && !j.NotRouted? && !j.AtLimit? ==>
      (j.Relayed? <==> Reaches(utf8(j.tenant.name), targets, dials))
    ensures Budgets.Inv(budgets.View()) && old(budgets.sems) <= budgets.sems
    ensures forall n :: Budgets.OpenRelays(budgets.View(), n) == old(Budgets.OpenRelays(budgets.View(), n))
  {
    hide ParseRecord, TenantBySni, Budgets.HasRoom, Reaches, Budgets.Inv;
    var peeked := PeekSni(client);
    if peeked.Err? || peeked.value.sni.None? {
      return NotRouted;
    }
    var tenant := TenantBySni(hub.published, AsString(peeked.value.sni.value));
    if tenant.None? || tenant.value.name !in hub.sessions {
      return NotRouted;
    }
    var slot := TryAcquire(budgets, r, tenant.value);
    if !slot {
      return AtLimit(tenant.value);
    }
    var ok := RelayConnection(client, toClient, utf8(tenant.value.name), peeked.value.buffered, targets, dials,
      target, toTarget, outbound, inbound);
    Release(budgets, r);
    j := if ok then Relayed(tenant.value) else Cut(tenant.value);
  }

  /**
   * In a valid set the tenant routed to is the one enabled tenant that holds the
   * server name, read byte by byte as characters, and is online.
   */
  lemma RoutedIsTheHolder(stream: seq<byte>, published: TenantSet, sessions: map<string, Hub.Entry>, host: seq<byte>,
                          name: string, t: Tenant)
    requires Valid(published) && ParseRecord(stream) == Ok(Some(host))
    requires |name| == |host| && forall k :: 0 <= k < |host| ==> name[k] as int == host[k]
    ensures Routed(stream, published, sessions) == Some(t)
       <==> && t in published.tenants && !t.disabled
            && NormalizeHost(t.sni) == NormalizeHost(name)
            && t.name in sessions
  {
    assert name == AsString(host);
    hide ParseRecord;
    RoutesToTheOnlyHolder(published, AsString(host), t);
  }
}
