/** The edits a store applies, what any sequence of them conserves, and the in-memory store. */
module Store {
  import opened Basics
  import opened Hosts
  import opened Tenants

  datatype Edit =
    | AddTenant(tenant: Tenant)
    | IssueCode(code: EnrollCode)
    | Revoke(name: string)
    | Suspend(name: string, disabled: bool)
    | Enroll(codePsk: Psk, now: nat, name: string, psk: Psk)

  function Apply(s: TenantSet, e: Edit): Result<TenantSet, EditError> {
    match e
    case AddTenant(t) => WithTenant(s, t)
    case IssueCode(c) => WithCode(s, c)
    case Revoke(name) => WithoutTenant(s, name)
    case Suspend(name, disabled) => WithDisabled(s, name, disabled)
    case Enroll(codePsk, now, name, psk) =>
      match Redeem(s, codePsk, now, name, psk)
      case Ok((next, _)) => Ok(next)
      case Err(err) => Err(err)
  }

  /** What each edit does to a set, and when it can: a failed edit does nothing. */
  lemma EditsTakeEffect(s: TenantSet, e: Edit)
    requires Valid(s)
    ensures Apply(s, e).Err? ==> After(s, e) == s
    ensures var t := After(s, e);
      match e
      case AddTenant(added) =>
        && (Apply(s, e).Ok? <==>
             && added.name != "" && NormalizeHost(added.sni) != "" && added.maxConns >= 1
             && (forall u :: u in s.tenants ==>
                  u.name != added.name && NormalizeHost(u.sni) != NormalizeHost(added.sni) && u.psk != added.psk)
             && (forall c :: c in s.codes ==> c.psk != added.psk))
        && (Apply(s, e).Ok? ==> t == TenantSet(s.tenants + [added], s.codes))
      case IssueCode(added) =>
        && (Apply(s, e).Ok? <==>
             && NormalizeHost(added.sni) != "" && added.maxConns >= 1
             && (forall u :: u in s.tenants ==> NormalizeHost(u.sni) != NormalizeHost(added.sni) && u.psk != added.psk)
             && (forall c :: c in s.codes ==> c.psk != added.psk))
        && (Apply(s, e).Ok? ==> t == TenantSet(s.tenants, s.codes + [added]))
      case Revoke(name) =>
        && (Apply(s, e).Ok? <==> exists u :: u in s.tenants && u.name == name)
        && t.codes == s.codes && forall u :: u in t.tenants <==> u in s.tenants && u.name != name
      case Suspend(name, disabled) =>
        && (Apply(s, e).Ok? <==> exists u :: u in s.tenants && u.name == name)
        && t.codes == s.codes && |t.tenants| == |s.tenants|
        && forall i :: 0 <= i < |s.tenants| ==>
             t.tenants[i] == if s.tenants[i].name == name then s.tenants[i].(disabled := disabled) else s.tenants[i]
      case Enroll(codePsk, now, name, psk) =>
        && (Apply(s, e).Ok? <==> exists c :: c in s.codes && Redeemable(s, c, codePsk, now, name, psk))
        && (Apply(s, e).Ok? ==>
          && (exists c :: c in s.codes && c.psk == codePsk && (c.expiresAt == None || now < c.expiresAt.value)
                          && t.tenants == s.tenants + [Tenant(name, psk, c.sni, c.maxConns, false)])
          && forall c :: c in t.codes <==>
               c in s.codes && c.psk != codePsk && (c.expiresAt == None || now < c.expiresAt.value))
  {
    hide Valid, NormalizeHost, WithTenant, WithCode, WithoutTenant, WithDisabled, Redeem;
    match e
    case AddTenant(added) => WithTenantExactly(s, added);
    case IssueCode(added) => WithCodeExactly(s, added);
    case Revoke(name) => WithoutTenantExactly(s, name);
    case Suspend(name, disabled) => WithDisabledExactly(s, name, disabled);
    case Enroll(codePsk, now, name, psk) => RedeemExactly(s, codePsk, now, name, psk);
  }

  /** An edit that fails leaves the set as it was. */
  function After(s: TenantSet, e: Edit): TenantSet {
    if Apply(s, e).Ok? then Apply(s, e).value else s
  }

  function Fold(s: TenantSet, edits: seq<Edit>): TenantSet {
    if edits == [] then s else After(Fold(s, edits[..|edits| - 1]), edits[|edits| - 1])
  }

  lemma AfterIsValid(s: TenantSet, e: Edit)
    requires Valid(s)
    ensures Valid(After(s, e))
  {
    hide Valid, WithTenant, WithCode, WithoutTenant, WithDisabled, Redeem;
    match e
    case AddTenant(t) => WithTenantExactly(s, t);
    case IssueCode(c) => WithCodeExactly(s, c);
    case Revoke(name) => WithoutTenantExactly(s, name);
    case Suspend(name, disabled) => WithDisabledExactly(s, name, disabled);
    case Enroll(codePsk, now, name, psk) => RedeemExactly(s, codePsk, now, name, psk);
  }

  /** Every set a store can ever hold is unambiguous. */
  lemma {:induction false} FoldIsValid(s: TenantSet, edits: seq<Edit>)
    requires Valid(s)
    ensures Valid(Fold(s, edits))
  {
    hide Valid, After;
    if edits != [] {
      FoldIsValid(s, edits[..|edits| - 1]);
      AfterIsValid(Fold(s, edits[..|edits| - 1]), edits[|edits| - 1]);
    }
  }

  // ---------- The life of one code

  predicate HasCode(s: TenantSet, p: Psk) {
    exists c :: c in s.codes && c.psk == p
  }

  predicate HasExpiredCode(s: TenantSet, p: Psk, now: nat) {
    exists c :: c in s.codes && c.psk == p && !Live(c, now)
  }

  /** How many entries of `s` are a code with PSK `p`. */
  function Present(s: TenantSet, p: Psk): nat {
    |Keep(s.codes, (c: EnrollCode) => c.psk == p)|
  }

  function Issues(s: TenantSet, e: Edit, p: Psk): nat {
    if e.IssueCode? && e.code.psk == p && Apply(s, e).Ok? then 1 else 0
  }

  function Redeems(s: TenantSet, e: Edit, p: Psk): nat {
    if e.Enroll? && e.codePsk == p && Apply(s, e).Ok? then 1 else 0
  }

  /** A redemption of some other code finds `p` expired and drops it. */
  function Prunes(s: TenantSet, e: Edit, p: Psk): nat {
    if e.Enroll? && e.codePsk != p && Apply(s, e).Ok? && HasExpiredCode(s, p, e.now) then 1 else 0
  }

  function Issued(s: TenantSet, edits: seq<Edit>, p: Psk): nat {
    if edits == [] then 0
    else Issued(s, edits[..|edits| - 1], p) + Issues(Fold(s, edits[..|edits| - 1]), edits[|edits| - 1], p)
  }

  function Redeemed(s: TenantSet, edits: seq<Edit>, p: Psk): nat {
    if edits == [] then 0
    else Redeemed(s, edits[..|edits| - 1], p) + Redeems(Fold(s, edits[..|edits| - 1]), edits[|edits| - 1], p)
  }

  function Pruned(s: TenantSet, edits: seq<Edit>, p: Psk): nat {
    if edits == [] then 0
    else Pruned(s, edits[..|edits| - 1], p) + Prunes(Fold(s, edits[..|edits| - 1]), edits[|edits| - 1], p)
  }

  /** In a valid set a code's PSK occurs at most once. */
  lemma PresentAtMostOnce(s: TenantSet, p: Psk)
    requires Valid(s)
    ensures Present(s, p) == if HasCode(s, p) then 1 else 0
  {
    var q := (c: EnrollCode) => c.psk == p;
    KeepMembers(s.codes, q);
    KeepAtMostOne(s.codes, q);
    if HasCode(s, p) {
      var c :| c in s.codes && c.psk == p;
      assert c in Keep(s.codes, q);
    } else {
      KeepNone(s.codes, q);
    }
  }

  lemma ConservedByOne(s: TenantSet, e: Edit, p: Psk)
    requires Valid(s)
    ensures Present(s, p) + Issues(s, e, p) == Redeems(s, e, p) + Prunes(s, e, p) + Present(After(s, e), p)
  {
    hide Valid, WithTenant, WithCode, WithoutTenant, WithDisabled, Redeem, Present;
    AfterIsValid(s, e);
    PresentAtMostOnce(s, p);
    PresentAtMostOnce(After(s, e), p);
    match e
    case AddTenant(t) => WithTenantExactly(s, t);
    case IssueCode(c) =>
      WithCodeExactly(s, c);
      if Apply(s, e).Ok? {
        assert c in After(s, e).codes;
        assert forall d :: d in After(s, e).codes <==> d in s.codes || d == c;
      }
    case Revoke(name) => WithoutTenantExactly(s, name);
    case Suspend(name, disabled) => WithDisabledExactly(s, name, disabled);
    case Enroll(codePsk, now, name, psk) =>
      RedeemExactly(s, codePsk, now, name, psk);
      if Apply(s, e).Ok? && HasCode(s, p) {
        var c :| c in s.codes && c.psk == p;
        SamePskSameCode(s, c);
      }
  }

  /**
   * Over any sequence of edits, whichever of them fail, every code that was
   * ever there is there once, was redeemed once, or was dropped once as expired.
   */
  lemma {:induction false} CodesAreConserved(s: TenantSet, edits: seq<Edit>, p: Psk)
    requires Valid(s)
    ensures Present(s, p) + Issued(s, edits, p)
      == Redeemed(s, edits, p) + Pruned(s, edits, p) + Present(Fold(s, edits), p)
    ensures Present(Fold(s, edits), p) <= 1
  {
    hide Valid, Apply, Present;
    FoldIsValid(s, edits);
    PresentAtMostOnce(Fold(s, edits), p);
    if edits != [] {
      var front := edits[..|edits| - 1];
      CodesAreConserved(s, front, p);
      FoldIsValid(s, front);
      ConservedByOne(Fold(s, front), edits[|edits| - 1], p);
    }
  }

  /** Of any number of redemptions of a code issued once, at most one succeeds. */
  lemma RedeemedAtMostOnce(s: TenantSet, edits: seq<Edit>, p: Psk)
    requires Valid(s) && Present(s, p) + Issued(s, edits, p) <= 1
    ensures Redeemed(s, edits, p) <= 1
    ensures Redeemed(s, edits, p) == 1 ==> !HasCode(Fold(s, edits), p)
  {
    CodesAreConserved(s, edits, p);
    FoldIsValid(s, edits);
    PresentAtMostOnce(Fold(s, edits), p);
  }

  /** Nothing but a revocation takes a tenant away, and only the one it names. */
  lemma TenantsOnlyLeaveByRevoke(s: TenantSet, e: Edit, t: Tenant)
    requires Valid(s) && t in s.tenants
    ensures (exists u :: u in After(s, e).tenants && u.(disabled := t.disabled) == t)
      <==> !(e.Revoke? && e.name == t.name)
  {
    hide Valid, WithTenant, WithCode, WithoutTenant, WithDisabled, Redeem;
    match e
    case AddTenant(u) =>
      WithTenantExactly(s, u);
      assert t in After(s, e).tenants && t.(disabled := t.disabled) == t;
    case IssueCode(c) =>
      WithCodeExactly(s, c);
      assert t in After(s, e).tenants && t.(disabled := t.disabled) == t;
    case Revoke(name) =>
      WithoutTenantExactly(s, name);
      if name != t.name {
        assert t in After(s, e).tenants && t.(disabled := t.disabled) == t;
      }
    case Suspend(name, disabled) =>
      WithDisabledExactly(s, name, disabled);
      var i :| 0 <= i < |s.tenants| && s.tenants[i] == t;
      assert After(s, e).tenants[i] in After(s, e).tenants;
    case Enroll(codePsk, now, name, psk) =>
      RedeemExactly(s, codePsk, now, name, psk);
      assert t in After(s, e).tenants && t.(disabled := t.disabled) == t;
  }

  /**
   * Where a tenant of the edited set comes from: it was there (perhaps suspended or resumed),
   * was added, or was enrolled.
   */
  lemma TenantsComeFrom(s: TenantSet, e: Edit, u: Tenant)
    requires Valid(s) && u in After(s, e).tenants
    ensures || (exists t :: t in s.tenants && t.(disabled := u.disabled) == u)
            || (e.AddTenant? && u == e.tenant)
            || (e.Enroll? && Redeem(s, e.codePsk, e.now, e.name, e.psk).Ok?
              && u == Redeem(s, e.codePsk, e.now, e.name, e.psk).value.1)
  {
    hide Valid, WithTenant, WithCode, WithoutTenant, WithDisabled, Redeem;
    match e
    case AddTenant(t) =>
      WithTenantExactly(s, t);
      assert u in s.tenants ==> u.(disabled := u.disabled) == u;
    case IssueCode(c) =>
      WithCodeExactly(s, c);
      assert u in s.tenants && u.(disabled := u.disabled) == u;
    case Revoke(name) =>
      WithoutTenantExactly(s, name);
      assert u in s.tenants && u.(disabled := u.disabled) == u;
    case Suspend(name, disabled) =>
      WithDisabledExactly(s, name, disabled);
      var i :| 0 <= i < |After(s, e).tenants| && After(s, e).tenants[i] == u;
      assert s.tenants[i] in s.tenants;
    case Enroll(codePsk, now, name, psk) =>
      RedeemExactly(s, codePsk, now, name, psk);
      assert u in s.tenants ==> u.(disabled := u.disabled) == u;
  }

  // ---------- Two codes for one host

  /** A live code can be redeemed under a fresh name and PSK exactly while no tenant holds its host. */
  lemma RedeemableWhileHostIsFree(s: TenantSet, code: EnrollCode, now: nat, name: string, psk: Psk)
    requires Valid(s) && code in s.codes && Live(code, now) && name != ""
    requires forall t :: t in s.tenants ==> t.name != name && t.psk != psk
    requires forall c :: c in s.codes ==> c.psk != psk
    ensures Redeem(s, code.psk, now, name, psk).Ok?
       <==> forall t :: t in s.tenants ==> NormalizeHost(t.sni) != NormalizeHost(code.sni)
  {
    RedeemExactly(s, code.psk, now, name, psk);
    SamePskSameCode(s, code);
    hide Valid, NormalizeHost, Redeem;
    assert Redeemable(s, code, code.psk, now, name, psk)
      <==> forall t :: t in s.tenants ==> NormalizeHost(t.sni) != NormalizeHost(code.sni);
  }

  /** `holder` is a tenant's name, and that tenant has the host. */
  ghost predicate HeldBy(s: TenantSet, host: string, holder: string) {
    exists t :: t in s.tenants && t.name == holder && NormalizeHost(t.sni) == NormalizeHost(host)
  }

  lemma {:induction false} HeldUntilRevoked(s: TenantSet, edits: seq<Edit>, host: string, holder: string)
    requires Valid(s) && HeldBy(s, host, holder) && Revoke(holder) !in edits
    ensures HeldBy(Fold(s, edits), host, holder)
    decreases |edits|
  {
    hide Valid, Apply, NormalizeHost;
    if edits != [] {
      var front, last := edits[..|edits| - 1], edits[|edits| - 1];
      HeldUntilRevoked(s, front, host, holder);
      FoldIsValid(s, front);
      var before := Fold(s, front);
      var t :| t in before.tenants && t.name == holder && NormalizeHost(t.sni) == NormalizeHost(host);
      TenantsOnlyLeaveByRevoke(before, last, t);
      var u :| u in After(before, last).tenants && u.(disabled := t.disabled) == t;
      assert u.name == holder && u.sni == t.sni;
    }
  }

  /**
   * Once one of two codes for a host was redeemed, the other cannot be redeemed
   * after any further edits, at any time and under any name and PSK, until the
   * tenant the first one created is revoked.
   */
  lemma SecondCodeWaits(s: TenantSet, first: EnrollCode, second: EnrollCode, now: nat, name: string, psk: Psk,
                        edits: seq<Edit>, later: nat, name2: string, psk2: Psk)
    requires Valid(s) && NormalizeHost(first.sni) == NormalizeHost(second.sni)
    requires first in s.codes && Redeem(s, first.psk, now, name, psk).Ok? && Revoke(name) !in edits
    requires second in Fold(Redeem(s, first.psk, now, name, psk).value.0, edits).codes
    ensures Redeem(Fold(Redeem(s, first.psk, now, name, psk).value.0, edits), second.psk, later, name2, psk2).Err?
  {
    RedeemExactly(s, first.psk, now, name, psk);
    SamePskSameCode(s, first);
    var (next, tenant) := Redeem(s, first.psk, now, name, psk).value;
    hide Valid, Redeem, NormalizeHost, Fold;
    assert tenant in next.tenants && tenant.name == name && tenant.sni == first.sni;
    HeldUntilRevoked(next, edits, second.sni, name);
    FoldIsValid(next, edits);
    var after := Fold(next, edits);
    RedeemExactly(after, second.psk, later, name2, psk2);
    SamePskSameCode(after, second);
  }

  lemma StillRedeemable(s: TenantSet, t: TenantSet, code: EnrollCode, now: nat, name: string, psk: Psk)
    requires Redeemable(s, code, code.psk, now, name, psk)
    requires forall u :: u in t.tenants ==> u in s.tenants
    requires forall c :: c in t.codes ==> c in s.codes
    ensures Redeemable(t, code, code.psk, now, name, psk)
  {
    hide NormalizeHost;
  }

  /** Redeeming a code and revoking its tenant brings no tenant or code that was not there, and takes only codes. */
  lemma RedeemedAndWithdrawn(s: TenantSet, code: EnrollCode, now: nat, name: string, psk: Psk)
    returns (withdrawn: TenantSet)
    requires Valid(s) && code in s.codes && Redeem(s, code.psk, now, name, psk).Ok?
    ensures WithoutTenant(Redeem(s, code.psk, now, name, psk).value.0, name) == Ok(withdrawn) && Valid(withdrawn)
    ensures forall t :: t in withdrawn.tenants <==> t in s.tenants && t.name != name
    ensures forall c :: c in withdrawn.codes <==> c in s.codes && c.psk != code.psk && Live(c, now)
  {
    RedeemExactly(s, code.psk, now, name, psk);
    var (next, tenant) := Redeem(s, code.psk, now, name, psk).value;
    hide Valid, Redeem, Redeemable, NormalizeHost, WithoutTenant;
    assert tenant in next.tenants && tenant.name == name;
    WithoutTenantExactly(next, name);
    withdrawn := WithoutTenant(next, name).value;
  }

  /**
   * Withdrawing the tenant of the first revives the second: of two codes for a
   * host that could both be redeemed, redeeming one and revoking its tenant
   * leaves the other as redeemable as it was.
   */
  lemma WithdrawalRevivesSecondCode(s: TenantSet, first: EnrollCode, second: EnrollCode, now: nat, name: string,
    psk: Psk,
                                    name2: string, psk2: Psk)
    requires Valid(s) && first in s.codes && second in s.codes && first.psk != second.psk
    requires Redeemable(s, first, first.psk, now, name, psk) && Redeemable(s, second, second.psk, now, name2, psk2)
    ensures Redeem(s, first.psk, now, name, psk).Ok?
    ensures var withdrawn := WithoutTenant(Redeem(s, first.psk, now, name, psk).value.0, name);
      withdrawn.Ok? && second in withdrawn.value.codes && Redeem(withdrawn.value, second.psk, now, name2, psk2).Ok?
  {
    RedeemExactly(s, first.psk, now, name, psk);
    assert Live(second, now);
    hide Valid, Redeem, Redeemable, NormalizeHost, WithoutTenant;
    var withdrawn := RedeemedAndWithdrawn(s, first, now, name, psk);
    StillRedeemable(s, withdrawn, second, now, name2, psk2);
    RedeemExactly(withdrawn, second.psk, now, name2, psk2);
  }

  // ---------- The in-memory store

  /** Holds the set behind a mutex: each method is one critical section. */
  class MemoryStore {
    var contents: TenantSet

    constructor (initial: TenantSet)
      ensures contents == initial
    {
      contents := initial;
    }

    method Snapshot() returns (r: TenantSet)
      ensures r == contents
    {
      r := contents;
    }

    /** The default edits all come through here; a failed one leaves the guarded set alone. */
    method ReplaceWith(e: Edit) returns (r: Result<TenantSet, EditError>)
      modifies this
      ensures r == Apply(old(contents), e)
      ensures contents == After(old(contents), e)
    {
      var next := Apply(contents, e);
      if next.Err? {
        return Err(next.error);
      }
      contents := next.value;
      return Ok(next.value);
    }

    /** The created tenant is captured by the edit and handed out only once the edit is committed. */
    method RedeemCode(codePsk: Psk, now: nat, name: string, psk: Psk) returns (r: Result<Tenant, EditError>)
      requires Valid(contents)
      modifies this
      ensures contents == After(old(contents), Enroll(codePsk, now, name, psk)) && Valid(contents)
      ensures r.Ok? <==> exists code ::
        code in old(contents).codes && Redeemable(old(contents), code, codePsk, now, name, psk)
      ensures r.Ok? ==> contents.tenants == old(contents).tenants + [r.value] && !HasCode(contents, codePsk)
      ensures r.Ok? ==> exists code ::
        code in old(contents).codes && code.psk == codePsk
        && r.value == Tenant(name, psk, code.sni, code.maxConns, false)
      ensures r.Err? ==> contents == old(contents)
    {
      var created: Option<Tenant> := None;
      RedeemExactly(contents, codePsk, now, name, psk);
      AfterIsValid(contents, Enroll(codePsk, now, name, psk));
      match Redeem(contents, codePsk, now, name, psk)
      case Err(e) =>
        return Err(e);
      case Ok((next, tenant)) =>
        created := Some(tenant);
        contents := next;
        return Ok(created.value);
    }
  }
}
