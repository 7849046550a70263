/**
 * Any number of enrollments against one store, interleaved with an operator's
 * edits and with shutdown. An enrollment redeems its code, sends the new
 * credentials, and withdraws the tenant again if they could not be sent.
 */
module Enrollment {
  import opened Basics
  import opened Steps
  import opened Tenants
  import opened Store

  /**
   * Dropped: shutdown abandoned the task while the redemption it had submitted was still to run.
   * Orphaned: shutdown abandoned the task after its redemption had taken effect.
   */
  datatype Phase =
    | Redeeming | Refused | Sending | Delivered | Withdrawing | Withdrawn | RevokeFailed | Dropped | Orphaned

  datatype Enrolling = Enrolling(codePsk: Psk, now: nat, name: string, psk: Psk, phase: Phase, created: Option<Tenant>)

  /** `edits` records every edit the store was asked for and was able to write. */
  datatype State = State(initial: TenantSet, store: TenantSet, edits: seq<Edit>, enrolls: map<nat, Enrolling>,
    stopping: bool)

  datatype Action =
    | Begin(e: nat, codePsk: Psk, now: nat, name: string, psk: Psk)
    | Commit(e: nat, written: bool)
    | Send(e: nat, sent: bool)
    | TakeBack(e: nat, written: bool)
    | Operate(edit: Edit)
    | Shutdown
    | Drop(e: nat)

  function EnrollEdit(x: Enrolling): Edit {
    Enroll(x.codePsk, x.now, x.name, x.psk)
  }

  /** Names are random: a new one is nobody's, and an operator never picks one. */
  predicate FreshName(s: State, name: string) {
    (forall f :: f in s.enrolls ==> s.enrolls[f].name != name) && forall t :: t in s.store.tenants ==> t.name != name
  }

  predicate Enabled(s: State, a: Action) {
    match a
    case Begin(e, _, _, name, _) => e !in s.enrolls && !s.stopping && FreshName(s, name)
    case Commit(e, _) => e in s.enrolls && (s.enrolls[e].phase.Redeeming? || s.enrolls[e].phase.Dropped?)
    case Send(e, _) => e in s.enrolls && s.enrolls[e].phase.Sending?
    case TakeBack(e, _) => e in s.enrolls && s.enrolls[e].phase.Withdrawing?
    case Operate(edit) => !edit.Enroll?
      && (edit.AddTenant? ==> forall f :: f in s.enrolls ==> s.enrolls[f].name != edit.tenant.name)
    case Shutdown => true
    case Drop(e) => s.stopping && e in s.enrolls && (s.enrolls[e].phase.Redeeming? || s.enrolls[e].phase.Sending?)
  }

  function Edited(s: State, edit: Edit): State {
    s.(store := After(s.store, edit), edits := s.edits + [edit])
  }

  function Goto(s: State, e: nat, p: Phase): State
    requires e in s.enrolls
  {
    s.(enrolls := s.enrolls[e := s.enrolls[e].(phase := p)])
  }

  function Do(s: State, a: Action): State
    requires Enabled(s, a)
  {
    match a
    case Begin(e, codePsk, now, name, psk) =>
      s.(enrolls := s.enrolls[e := Enrolling(codePsk, now, name, psk, Redeeming, None)])
    case Commit(e, written) =>
      var x := s.enrolls[e];
      var r := Redeem(s.store, x.codePsk, x.now, x.name, x.psk);
      if r.Err? || !written then Goto(s, e, Refused)
      else
        var p := if x.phase.Dropped? then Orphaned else Sending;
        Edited(s, EnrollEdit(x)).(enrolls := s.enrolls[e := x.(phase := p, created := Some(r.value.1))])
    case Send(e, sent) => Goto(s, e, if sent then Delivered else Withdrawing)
    case TakeBack(e, written) =>
      var edit := Revoke(s.enrolls[e].name);
      if Apply(s.store, edit).Err? || !written then Goto(s, e, RevokeFailed)
      else Goto(Edited(s, edit), e, Withdrawn)
    case Operate(edit) => Edited(s, edit)
    case Shutdown => s.(stopping := true)
    case Drop(e) => Goto(s, e, if s.enrolls[e].phase.Redeeming? then Dropped else Orphaned)
  }

  predicate Init(s: State) {
    Valid(s.initial) && s.store == s.initial && s.edits == [] && s.enrolls == map[] && !s.stopping
  }

  // ---------- Invariant

  predicate Spent(p: Phase) {
    !p.Redeeming? && !p.Refused? && !p.Dropped?
  }

  predicate SpentBy(x: Enrolling, p: Psk) {
    x.codePsk == p && Spent(x.phase)
  }

  /** The enrollments whose redemption of `p` took effect. */
  function SpentOn(s: State, p: Psk): set<nat> {
    set e | e in s.enrolls && SpentBy(s.enrolls[e], p)
  }

  /** A stored tenant with an enrollment's name is the one that enrollment created, and may still be there. */
  ghost predicate Owned(x: Enrolling, t: Tenant) {
    t.name == x.name ==>
      && Spent(x.phase) && !x.phase.Withdrawn?
      && x.created.Some? && x.created.value == t.(disabled := false) && t.psk == x.psk
  }

  ghost predicate StoreFolds(s: State) {
    Valid(s.initial) && Valid(s.store) && s.store == Fold(s.initial, s.edits)
  }

  ghost predicate Inv(s: State) {
    && StoreFolds(s)
    && (forall e, f :: e in s.enrolls && f in s.enrolls && e != f ==> s.enrolls[e].name != s.enrolls[f].name)
    && (forall e, t :: e in s.enrolls && t in s.store.tenants ==> Owned(s.enrolls[e], t))
    && (forall e :: e in s.enrolls && (s.enrolls[e].phase.Dropped? || s.enrolls[e].phase.Orphaned?) ==> s.stopping)
    && forall p :: Redeemed(s.initial, s.edits, p) == |SpentOn(s, p)|
  }

  lemma EditKeepsFold(s: State, edit: Edit)
    requires StoreFolds(s)
    ensures StoreFolds(Edited(s, edit))
    ensures forall p ::
      Redeemed(s.initial, s.edits + [edit], p) == Redeemed(s.initial, s.edits, p) + Redeems(s.store, edit, p)
  {
    AfterIsValid(s.store, edit);
    FoldMore(s.initial, s.edits, edit);
    hide Valid, Apply, After, Redeems, Redeemed, Fold;
    forall p
      ensures Redeemed(s.initial, s.edits + [edit], p) == Redeemed(s.initial, s.edits, p) + Redeems(s.store, edit, p)
    {
      RedeemedMore(s.initial, s.edits, edit, p);
    }
  }

  lemma FoldMore(s: TenantSet, edits: seq<Edit>, edit: Edit)
    ensures Fold(s, edits + [edit]) == After(Fold(s, edits), edit)
  {
    hide Apply, After;
    assert (edits + [edit])[..|edits|] == edits;
  }

  lemma RedeemedMore(s: TenantSet, edits: seq<Edit>, edit: Edit, p: Psk)
    ensures Redeemed(s, edits + [edit], p) == Redeemed(s, edits, p) + Redeems(Fold(s, edits), edit, p)
  {
    hide Apply, After, Redeems;
    assert (edits + [edit])[..|edits|] == edits;
  }

  /** An edit other than the enrollment's own redemption brings no tenant under an enrollment's name. */
  lemma EditKeepsOwned(s: State, edit: Edit, x: Enrolling)
    requires Valid(s.store) && forall t :: t in s.store.tenants ==> Owned(x, t)
    requires edit.AddTenant? ==> edit.tenant.name != x.name
    requires edit.Enroll? ==> edit.name != x.name
    ensures forall t :: t in After(s.store, edit).tenants ==> Owned(x, t)
  {
    hide Valid, Apply, After, Redeem;
    forall u | u in After(s.store, edit).tenants
      ensures Owned(x, u)
    {
      TenantsComeFrom(s.store, edit, u);
      if edit.Enroll? {
        RedeemExactly(s.store, edit.codePsk, edit.now, edit.name, edit.psk);
      }
      if t :| t in s.store.tenants && t.(disabled := u.disabled) == u {
        assert Owned(x, t);
      }
    }
  }

  lemma SpentAfterUpdate(s: State, e: nat, x: Enrolling, p: Psk)
    ensures |SpentOn(s.(enrolls := s.enrolls[e := x]), p)|
         == |SpentOn(s, p)| - (if e in s.enrolls && SpentBy(s.enrolls[e], p) then 1 else 0)
          + if SpentBy(x, p) then 1 else 0
  {
    hide SpentBy;
    var t := s.(enrolls := s.enrolls[e := x]);
    assert SpentOn(t, p) - {e} == SpentOn(s, p) - {e};
    OneChanges(SpentOn(s, p), SpentOn(t, p), e);
  }

  /** Only the redemption that takes effect adds to what is spent. */
  lemma SpentMoves(s: State, a: Action, p: Psk)
    requires Enabled(s, a)
    ensures var t := Do(s, a);
      |SpentOn(t, p)| == |SpentOn(s, p)| + if a.Commit? && t.enrolls[a.e].phase.Refused? then 0
                                          else if a.Commit? && s.enrolls[a.e].codePsk == p then 1 else 0
  {
    hide Redeem, Apply, After, SpentOn;
    var t := Do(s, a);
    match a
    case Operate(_) => SameEnrollsSameSpent(s, t, p);
    case Shutdown => SameEnrollsSameSpent(s, t, p);
    case _ =>
      SpentAfterUpdate(s, a.e, t.enrolls[a.e], p);
      SameEnrollsSameSpent(s.(enrolls := s.enrolls[a.e := t.enrolls[a.e]]), t, p);
  }

  lemma SameEnrollsSameSpent(s: State, t: State, p: Psk)
    requires s.enrolls == t.enrolls
    ensures SpentOn(s, p) == SpentOn(t, p)
  {
  }

  lemma CommitKeepsOwned(s: State, e: nat)
    requires Inv(s) && Enabled(s, Commit(e, true))
    requires var x := s.enrolls[e]; Redeem(s.store, x.codePsk, x.now, x.name, x.psk).Ok?
    ensures var t := Do(s, Commit(e, true)); forall f, u :: f in t.enrolls && u in t.store.tenants ==>
      Owned(t.enrolls[f], u)
  {
    hide Valid, Redeem, Redeemable, Fold, Redeemed, StoreFolds, SpentOn;
    var t := Do(s, Commit(e, true));
    var x := s.enrolls[e];
    StoreIsValid(s);
    RedeemExactly(s.store, x.codePsk, x.now, x.name, x.psk);
    forall f, u | f in t.enrolls && u in t.store.tenants
      ensures Owned(t.enrolls[f], u)
    {
      if f == e {
        if u in s.store.tenants {
          assert Owned(s.enrolls[e], u);
        }
      } else {
        EditKeepsOwned(s, EnrollEdit(x), s.enrolls[f]);
      }
    }
  }

  lemma StoreIsValid(s: State)
    requires StoreFolds(s)
    ensures Valid(s.store)
  {
  }

  lemma CommitKeepsInv(s: State, e: nat, written: bool)
    requires Inv(s) && Enabled(s, Commit(e, written))
    ensures Inv(Do(s, Commit(e, written)))
  {
    hide Valid, Redeem, Fold, Redeemed, Owned, SpentOn;
    var t := Do(s, Commit(e, written));
    var x := s.enrolls[e];
    var r := Redeem(s.store, x.codePsk, x.now, x.name, x.psk);
    forall p
      ensures Redeemed(t.initial, t.edits, p) == |SpentOn(t, p)|
    {
      SpentMoves(s, Commit(e, written), p);
      if r.Ok? && written {
        EditKeepsFold(s, EnrollEdit(x));
      }
    }
    if r.Ok? && written {
      EditKeepsFold(s, EnrollEdit(x));
      CommitKeepsOwned(s, e);
    } else {
      forall u | u in s.store.tenants
        ensures Owned(t.enrolls[e], u)
      {
        assert Owned(s.enrolls[e], u);
        StillOwned(s.enrolls[e], t.enrolls[e], u);
      }
    }
  }

  /** An enrollment that holds no tenant may change phase freely. */
  lemma StillOwned(x: Enrolling, y: Enrolling, t: Tenant)
    requires Owned(x, t) && y.name == x.name && !Spent(x.phase)
    ensures Owned(y, t)
  {
  }

  lemma TakeBackKeepsInv(s: State, e: nat, written: bool)
    requires Inv(s) && Enabled(s, TakeBack(e, written))
    ensures Inv(Do(s, TakeBack(e, written)))
  {
    hide Valid, Fold, Redeemed, SpentOn;
    var t := Do(s, TakeBack(e, written));
    EditKeepsFold(s, Revoke(s.enrolls[e].name));
    forall p
      ensures Redeemed(t.initial, t.edits, p) == |SpentOn(t, p)|
    {
      SpentMoves(s, TakeBack(e, written), p);
    }
    TakeBackKeepsOwned(s, e, written);
    hide Owned;
  }

  lemma TakeBackKeepsOwned(s: State, e: nat, written: bool)
    requires Inv(s) && Enabled(s, TakeBack(e, written))
    ensures var t := Do(s, TakeBack(e, written)); forall f, u :: f in t.enrolls && u in t.store.tenants ==>
      Owned(t.enrolls[f], u)
  {
    hide Valid, Fold, Redeemed, SpentOn, WithoutTenant;
    var t := Do(s, TakeBack(e, written));
    WithoutTenantExactly(s.store, s.enrolls[e].name);
    forall f, u | f in t.enrolls && u in t.store.tenants
      ensures Owned(t.enrolls[f], u)
    {
      assert u in s.store.tenants;
      assert Owned(s.enrolls[f], u);
    }
  }

  lemma OperateKeepsInv(s: State, edit: Edit)
    requires Inv(s) && Enabled(s, Operate(edit))
    ensures Inv(Do(s, Operate(edit)))
  {
    hide Valid, Apply, After, Fold, Redeemed, Owned, SpentOn;
    var t := Do(s, Operate(edit));
    EditKeepsFold(s, edit);
    forall p
      ensures Redeemed(t.initial, t.edits, p) == |SpentOn(t, p)|
    {
      SpentMoves(s, Operate(edit), p);
    }
    forall e, u | e in t.enrolls && u in t.store.tenants
      ensures Owned(t.enrolls[e], u)
    {
      EditKeepsOwned(s, edit, s.enrolls[e]);
    }
  }

  lemma OtherStepKeepsInv(s: State, a: Action)
    requires Inv(s) && Enabled(s, a) && !a.Commit? && !a.TakeBack? && !a.Operate?
    ensures Inv(Do(s, a))
  {
    hide Valid, Fold, Redeemed, SpentOn;
    var t := Do(s, a);
    forall p
      ensures Redeemed(t.initial, t.edits, p) == |SpentOn(t, p)|
    {
      SpentMoves(s, a, p);
    }
    forall e, u | e in t.enrolls && u in t.store.tenants
      ensures Owned(t.enrolls[e], u)
    {
      assert e in s.enrolls ==> Owned(s.enrolls[e], u);
    }
  }

  lemma StepKeepsInv(s: State, a: Action)
    requires Inv(s) && Enabled(s, a)
    ensures Inv(Do(s, a)) && Do(s, a).initial == s.initial
  {
    hide Inv;
    match a
    case Commit(e, written) => CommitKeepsInv(s, e, written);
    case TakeBack(e, written) => TakeBackKeepsInv(s, e, written);
    case Operate(edit) => OperateKeepsInv(s, edit);
    case _ => OtherStepKeepsInv(s, a);
  }

  lemma RunKeepsInv(s: State, actions: seq<Action>)
    requires Inv(s) && Runs(Do, s, actions)
    ensures Inv(Exec(Do, s, actions)) && Exec(Do, s, actions).initial == s.initial
  {
    var inv := (t: State) => Inv(t) && t.initial == s.initial;
    forall t, a | inv(t) && Enabled(t, a)
      ensures inv(Do(t, a))
    {
      StepKeepsInv(t, a);
    }
    hide Inv, Do;
    RunsKeep(Do, inv, s, actions);
  }

  lemma InitInv(s: State)
    requires Init(s)
    ensures Inv(s)
  {
    hide Valid;
    forall p
      ensures SpentOn(s, p) == {}
    {
    }
  }

  // ---------- What every interleaving guarantees

  function InPhases(s: State, p: Psk, phases: set<Phase>): set<nat> {
    set e | e in s.enrolls && s.enrolls[e].codePsk == p && s.enrolls[e].phase in phases
  }

  /** How many enrollments that used code `p` are in `phase`. */
  function Count(s: State, p: Psk, phase: Phase): nat {
    |InPhases(s, p, {phase})|
  }

  lemma PeelPhase(s: State, p: Psk, rest: set<Phase>, phase: Phase)
    requires phase !in rest
    ensures |InPhases(s, p, rest + {phase})| == |InPhases(s, p, rest)| + Count(s, p, phase)
  {
    assert InPhases(s, p, rest + {phase}) == InPhases(s, p, rest) + InPhases(s, p, {phase});
    assert InPhases(s, p, rest) !! InPhases(s, p, {phase});
  }

  lemma SpentSplits(s: State, p: Psk)
    ensures |SpentOn(s, p)| == Count(s, p, Sending) + Count(s, p, Delivered) + Count(s, p, Withdrawing)
                             + Count(s, p, Withdrawn) + Count(s, p, RevokeFailed) + Count(s, p, Orphaned)
  {
    assert SpentOn(s, p) == InPhases(s, p,
      {Sending} + {Delivered} + {Withdrawing} + {Withdrawn} + {RevokeFailed} + {Orphaned});
    hide InPhases, SpentOn;
    PeelPhase(s, p, {Sending}, Delivered);
    PeelPhase(s, p, {Sending} + {Delivered}, Withdrawing);
    PeelPhase(s, p, {Sending} + {Delivered} + {Withdrawing}, Withdrawn);
    PeelPhase(s, p, {Sending} + {Delivered} + {Withdrawing} + {Withdrawn}, RevokeFailed);
    PeelPhase(s, p, {Sending} + {Delivered} + {Withdrawing} + {Withdrawn} + {RevokeFailed}, Orphaned);
  }

  /**
   * Every code ever stored is still there, was dropped as expired, or was spent
   * on one enrollment whose outcome is known. Orphans need a shutdown.
   */
  lemma EveryCodeIsAccountedFor(s0: State, actions: seq<Action>, p: Psk)
    requires Init(s0) && Runs(Do, s0, actions)
    ensures var s := Exec(Do, s0, actions);
      && Present(s0.initial, p) + Issued(s0.initial, s.edits, p)
         == Present(s.store, p) + Pruned(s0.initial, s.edits, p)
          + Count(s, p, Delivered) + Count(s, p, Withdrawn) + Count(s, p, RevokeFailed)
          + Count(s, p, Sending) + Count(s, p, Withdrawing) + Count(s, p, Orphaned)
      && (!s.stopping ==> Count(s, p, Orphaned) == 0)
  {
    hide Valid, Present, Issued, Pruned, Redeemed, Fold;
    InitInv(s0);
    RunKeepsInv(s0, actions);
    var s := Exec(Do, s0, actions);
    CodesAreConserved(s0.initial, s.edits, p);
    SpentSplits(s, p);
    assert !s.stopping ==> InPhases(s, p, {Orphaned}) == {};
  }

  /**
   * A tenant left in the store under an enrollment's name is the tenant that
   * enrollment created, with the PSK it generated; none is left by an
   * enrollment that was refused or withdrew.
   */
  lemma EnrolledTenantsHaveOwners(s0: State, actions: seq<Action>, e: nat, t: Tenant)
    requires Init(s0) && Runs(Do, s0, actions)
    requires e in Exec(Do, s0, actions).enrolls && t in Exec(Do, s0, actions).store.tenants
      && t.name == Exec(Do, s0, actions).enrolls[e].name
    ensures var x := Exec(Do, s0, actions).enrolls[e];
      && x.phase !in {Redeeming, Refused, Withdrawn, Dropped}
      && x.created == Some(t.(disabled := false)) && t.psk == x.psk
  {
    hide Valid, Redeemed, Fold;
    InitInv(s0);
    RunKeepsInv(s0, actions);
    assert Owned(Exec(Do, s0, actions).enrolls[e], t);
  }

  // ---------- Credentials keep working

  /** The tenant this enrollment created is in the store, perhaps suspended, or its name was revoked. */
  ghost predicate Kept(s: State, x: Enrolling) {
    x.created.Some? ==>
      || Revoke(x.name) in s.edits
      || exists t :: t in s.store.tenants && t.(disabled := false) == x.created.value
  }

  ghost predicate Working(s: State) {
    forall e :: e in s.enrolls ==>
      var x := s.enrolls[e];
      && (x.created.Some? <==> Spent(x.phase))
      && (x.created.Some? ==>
        x.created.value.name == x.name && x.created.value.psk == x.psk && !x.created.value.disabled)
      && Kept(s, x)
  }

  lemma EditKeepsKept(s: State, edit: Edit, x: Enrolling)
    requires Valid(s.store) && Kept(s, x) && (x.created.Some? ==> x.created.value.name == x.name)
    ensures Kept(Edited(s, edit), x)
  {
    hide Valid, After;
    var t := Edited(s, edit);
    assert forall d :: d in s.edits ==> d in t.edits;
    assert edit in t.edits;
    if x.created.Some? && Revoke(x.name) !in t.edits {
      var u :| u in s.store.tenants && u.(disabled := false) == x.created.value;
      TenantsOnlyLeaveByRevoke(s.store, edit, u);
      var v :| v in After(s.store, edit).tenants && v.(disabled := u.disabled) == u;
      assert v in t.store.tenants && v.(disabled := false) == x.created.value;
    }
  }

  lemma CommitKeepsWorking(s: State, e: nat)
    requires Valid(s.store) && Working(s) && Enabled(s, Commit(e, true))
    requires var x := s.enrolls[e]; Redeem(s.store, x.codePsk, x.now, x.name, x.psk).Ok?
    ensures Working(Do(s, Commit(e, true)))
  {
    hide Valid, Redeem, Redeemable, Kept;
    var t := Do(s, Commit(e, true));
    var x := s.enrolls[e];
    RedeemExactly(s.store, x.codePsk, x.now, x.name, x.psk);
    forall f | f in t.enrolls
      ensures Kept(t, t.enrolls[f])
    {
      if f == e {
        CreatedIsKept(t, t.enrolls[e]);
      } else {
        EditKeepsKept(s, EnrollEdit(x), s.enrolls[f]);
        SameStoreSameKept(Edited(s, EnrollEdit(x)), t, s.enrolls[f], s.enrolls[f]);
      }
    }
  }

  lemma CreatedIsKept(s: State, x: Enrolling)
    requires x.created.Some? && !x.created.value.disabled && x.created.value in s.store.tenants
    ensures Kept(s, x)
  {
    assert x.created.value.(disabled := false) == x.created.value;
  }

  lemma SameStoreSameKept(s: State, t: State, x: Enrolling, y: Enrolling)
    requires s.store == t.store && s.edits == t.edits && x.name == y.name && x.created == y.created && Kept(s, x)
    ensures Kept(t, y)
  {
  }

  lemma StepKeepsWorking(s: State, a: Action)
    requires Valid(s.store) && Working(s) && Enabled(s, a)
    ensures Working(Do(s, a))
  {
    hide Valid, Redeem, Apply, After, Kept;
    var t := Do(s, a);
    if a.Commit? && t.enrolls[a.e].phase != Refused {
      CommitKeepsWorking(s, a.e);
    } else {
      forall f | f in t.enrolls
        ensures Kept(t, t.enrolls[f])
      {
        if f in s.enrolls {
          if a.Operate? {
            EditKeepsKept(s, a.edit, s.enrolls[f]);
            SameStoreSameKept(Edited(s, a.edit), t, s.enrolls[f], t.enrolls[f]);
          } else if a.TakeBack? && t.edits != s.edits {
            EditKeepsKept(s, Revoke(s.enrolls[a.e].name), s.enrolls[f]);
            SameStoreSameKept(Edited(s, Revoke(s.enrolls[a.e].name)), t, s.enrolls[f], t.enrolls[f]);
          } else {
            SameStoreSameKept(s, t, s.enrolls[f], t.enrolls[f]);
          }
        } else {
          NothingCreated(t, t.enrolls[f]);
        }
      }
    }
  }

  lemma NothingCreated(s: State, x: Enrolling)
    requires x.created.None?
    ensures Kept(s, x)
  {
  }

  lemma {:induction false} RunKeepsWorking(s: State, actions: seq<Action>)
    requires Inv(s) && Working(s) && Runs(Do, s, actions)
    ensures Working(Exec(Do, s, actions))
    decreases |actions|
  {
    if actions != [] {
      assert Valid(s.store);
      hide Inv, Enabled, Do, Working, Valid;
      StepKeepsInv(s, actions[0]);
      StepKeepsWorking(s, actions[0]);
      RunKeepsWorking(Do(s, actions[0]), actions[1..]);
    }
  }

  /**
   * Whatever became of an enrollment whose redemption took effect, until its
   * name is revoked the store holds a tenant of that name with the PSK it
   * generated: credentials handed out work, and those of an orphan are left behind.
   */
  lemma CredentialsWorkUntilRevoked(s0: State, actions: seq<Action>, e: nat)
    requires Init(s0) && Runs(Do, s0, actions) && e in Exec(Do, s0, actions).enrolls
    requires Spent(Exec(Do, s0, actions).enrolls[e].phase)
    ensures var s := Exec(Do, s0, actions);
            var x := s.enrolls[e];
      Revoke(x.name) in s.edits || exists t :: t in s.store.tenants && t.name == x.name && t.psk == x.psk
  {
    InitInv(s0);
    RunKeepsWorking(s0, actions);
    var s := Exec(Do, s0, actions);
    var x := s.enrolls[e];
    assert Kept(s, x);
    if Revoke(x.name) !in s.edits {
      var t :| t in s.store.tenants && t.(disabled := false) == x.created.value;
      assert t.name == x.name && t.psk == x.psk;
    }
  }

  // ---------- What was done decides where an enrollment stands

  predicate InPhase(s: State, e: nat, phases: set<Phase>) {
    e in s.enrolls && s.enrolls[e].phase in phases
  }

  /** Where one step can take an enrollment, by what the step is. */
  lemma StepDecides(s: State, a: Action, e: nat)
    requires Enabled(s, a)
    ensures var t := Do(s, a);
      && (InPhase(t, e, {Delivered}) <==> InPhase(s, e, {Delivered}) || a == Send(e, true))
      && (InPhase(t, e, {Withdrawing, Withdrawn, RevokeFailed})
          <==> InPhase(s, e, {Withdrawing, Withdrawn, RevokeFailed}) || a == Send(e, false))
      && (InPhase(t, e, {Withdrawn, RevokeFailed})
          <==> InPhase(s, e, {Withdrawn, RevokeFailed}) || (a.TakeBack? && a.e == e))
      && (InPhase(t, e, {Withdrawn}) ==> InPhase(s, e, {Withdrawn}) || a == TakeBack(e, true))
      && (e in t.enrolls <==> e in s.enrolls || (a.Begin? && a.e == e))
      && (e in t.enrolls && t.enrolls[e].phase !in {Redeeming, Dropped}
          <==> (e in s.enrolls && s.enrolls[e].phase !in {Redeeming, Dropped}) || (a.Commit? && a.e == e))
  {
    hide Redeem, Apply, After;
  }

  lemma {:induction false} RunDecides(s: State, actions: seq<Action>, e: nat)
    requires Runs(Do, s, actions)
    ensures var t := Exec(Do, s, actions);
      && (InPhase(t, e, {Delivered}) <==> InPhase(s, e, {Delivered}) || Send(e, true) in actions)
      && (InPhase(t, e, {Withdrawing, Withdrawn, RevokeFailed})
          <==> InPhase(s, e, {Withdrawing, Withdrawn, RevokeFailed}) || Send(e, false) in actions)
      && (InPhase(t, e, {Withdrawn, RevokeFailed})
          <==> InPhase(s, e, {Withdrawn, RevokeFailed}) || exists w :: TakeBack(e, w) in actions)
      && (InPhase(t, e, {Withdrawn}) ==> InPhase(s, e, {Withdrawn}) || TakeBack(e, true) in actions)
      && (e in t.enrolls && t.enrolls[e].phase !in {Redeeming, Dropped}
          <==> (e in s.enrolls && s.enrolls[e].phase !in {Redeeming, Dropped}) || exists w :: Commit(e, w) in actions)
    decreases |actions|
  {
    if actions != [] {
      StepDecides(s, actions[0], e);
      assert actions == [actions[0]] + actions[1..];
      hide Do, Enabled, InPhase;
      RunDecides(Do(s, actions[0]), actions[1..], e);
    }
  }

  /**
   * An enrollment is delivered exactly if sending its credentials succeeded, and
   * is being, was, or could not be withdrawn exactly if sending them failed.
   */
  lemma SendDecides(s0: State, actions: seq<Action>, e: nat)
    requires Init(s0) && Runs(Do, s0, actions)
    ensures var s := Exec(Do, s0, actions);
      && (e in s.enrolls && s.enrolls[e].phase == Delivered <==> Send(e, true) in actions)
      && (e in s.enrolls && s.enrolls[e].phase in {Withdrawing, Withdrawn, RevokeFailed} <==> Send(e, false) in actions)
      && (e in s.enrolls && s.enrolls[e].phase in {Withdrawn, RevokeFailed} <==> exists w :: TakeBack(e, w) in actions)
      && (e in s.enrolls && s.enrolls[e].phase !in {Redeeming, Dropped} <==> exists w :: Commit(e, w) in actions)
  {
    RunDecides(s0, actions, e);
  }

  /** A redemption takes effect exactly if the store can be written and the code is redeemable; else nothing changes. */
  lemma CommitDecides(s: State, e: nat, written: bool)
    requires Valid(s.store) && Enabled(s, Commit(e, written))
    ensures var x := s.enrolls[e];
            var t := Do(s, Commit(e, written));
      if written && exists code :: code in s.store.codes && Redeemable(s.store, code, x.codePsk, x.now, x.name, x.psk)
      then
        && t.enrolls[e].phase == (if x.phase == Dropped then Orphaned else Sending)
        && t.enrolls[e].created.Some? && t.store.tenants == s.store.tenants + [t.enrolls[e].created.value]
      else t.enrolls[e].phase == Refused && t.store == s.store
  {
    hide Valid, Redeem, Redeemable;
    var x := s.enrolls[e];
    RedeemExactly(s.store, x.codePsk, x.now, x.name, x.psk);
  }

  /** The tenant an enrollment created, unless that enrollment withdrew it. */
  ghost predicate Stays(s: State, e: nat) {
    e in s.enrolls && s.enrolls[e].created.Some? && s.enrolls[e].phase != Withdrawn ==>
      exists t :: t in s.store.tenants && t.(disabled := false) == s.enrolls[e].created.value
  }

  lemma EditKeepsTenant(s: TenantSet, edit: Edit, created: Tenant)
    requires Valid(s) && edit != Revoke(created.name)
    requires exists t :: t in s.tenants && t.(disabled := false) == created
    ensures exists t :: t in After(s, edit).tenants && t.(disabled := false) == created
  {
    hide Valid, After;
    var t :| t in s.tenants && t.(disabled := false) == created;
    TenantsOnlyLeaveByRevoke(s, edit, t);
    var u :| u in After(s, edit).tenants && u.(disabled := t.disabled) == t;
    assert u.(disabled := false) == created;
  }

  /** Only an operator's revocation, or the enrollment's own withdrawal, takes the tenant away. */
  lemma StepKeepsTenant(s: State, a: Action, e: nat)
    requires Inv(s) && Working(s) && Stays(s, e) && Enabled(s, a)
    requires e in s.enrolls ==> a != Operate(Revoke(s.enrolls[e].name))
    ensures Stays(Do(s, a), e)
  {
    assert Valid(s.store);
    assert e in s.enrolls && s.enrolls[e].created.Some? ==> s.enrolls[e].created.value.name == s.enrolls[e].name;
    assert forall f :: e in s.enrolls && f in s.enrolls && f != e ==> s.enrolls[f].name != s.enrolls[e].name;
    var t := Do(s, a);
    if e in s.enrolls && s.enrolls[e].created.Some? && s.enrolls[e].phase != Withdrawn {
      match a {
        case Commit(f, _) => EditKeepsTenant(s.store, EnrollEdit(s.enrolls[f]), s.enrolls[e].created.value);
        case TakeBack(f, _) =>
          if f != e {
            EditKeepsTenant(s.store, Revoke(s.enrolls[f].name), s.enrolls[e].created.value);
          }
        case Operate(edit) => EditKeepsTenant(s.store, edit, s.enrolls[e].created.value);
        case _ =>
      }
    } else if a.Commit? && a.e == e && t.enrolls[e].created.Some? {
      CommitAdds(s, e, a.written);
    }
    hide Inv, Working, Valid, Redeem, Apply, After;
  }

  lemma CommitAdds(s: State, e: nat, written: bool)
    requires Valid(s.store) && Enabled(s, Commit(e, written)) && Do(s, Commit(e, written)).enrolls[e].phase != Refused
    ensures Stays(Do(s, Commit(e, written)), e)
  {
    hide Valid, Redeem, Redeemable;
    var x := s.enrolls[e];
    RedeemExactly(s.store, x.codePsk, x.now, x.name, x.psk);
    CreatedIsKept(Do(s, Commit(e, written)), Do(s, Commit(e, written)).enrolls[e]);
  }

  lemma StepKeepsNames(s: State, a: Action, e: nat)
    requires Enabled(s, a) && e in s.enrolls
    ensures e in Do(s, a).enrolls && Do(s, a).enrolls[e].name == s.enrolls[e].name
  {
    hide Redeem, Apply, After;
  }

  lemma {:induction false} NamesStay(s: State, actions: seq<Action>, e: nat)
    requires Runs(Do, s, actions) && e in s.enrolls
    ensures e in Exec(Do, s, actions).enrolls && Exec(Do, s, actions).enrolls[e].name == s.enrolls[e].name
    decreases |actions|
  {
    if actions != [] {
      StepKeepsNames(s, actions[0], e);
      hide Do, Enabled;
      NamesStay(Do(s, actions[0]), actions[1..], e);
    }
  }

  lemma {:induction false} RunKeepsTenant(s: State, actions: seq<Action>, e: nat)
    requires Inv(s) && Working(s) && Stays(s, e) && Runs(Do, s, actions) && e in Exec(Do, s, actions).enrolls
    requires Operate(Revoke(Exec(Do, s, actions).enrolls[e].name)) !in actions
    ensures Stays(Exec(Do, s, actions), e)
    decreases |actions|
  {
    if actions != [] {
      assert actions == [actions[0]] + actions[1..];
      assert Valid(s.store);
      if e in s.enrolls {
        NamesStay(s, actions, e);
      }
      hide Inv, Working, Stays, Enabled, Do, Valid;
      StepKeepsTenant(s, actions[0], e);
      StepKeepsInv(s, actions[0]);
      StepKeepsWorking(s, actions[0]);
      RunKeepsTenant(Do(s, actions[0]), actions[1..], e);
    }
  }

  /**
   * The tenant of an enrollment whose credentials went out, or may still go out,
   * stays in the store under its name and PSK until an operator revokes it: no
   * other enrollment, and no failed send of its own short of the withdrawal,
   * takes it away.
   */
  lemma TenantStaysUntilOperatorRevokes(s0: State, actions: seq<Action>, e: nat)
    requires Init(s0) && Runs(Do, s0, actions) && e in Exec(Do, s0, actions).enrolls
    requires Operate(Revoke(Exec(Do, s0, actions).enrolls[e].name)) !in actions
    requires Send(e, true) in actions || Exec(Do, s0, actions).enrolls[e].phase in {Sending, Withdrawing, Orphaned}
    ensures var s := Exec(Do, s0, actions);
            var x := s.enrolls[e];
      exists t :: t in s.store.tenants && t.name == x.name && t.psk == x.psk
  {
    InitInv(s0);
    SendDecides(s0, actions, e);
    RunKeepsTenant(s0, actions, e);
    RunKeepsWorking(s0, actions);
    var s := Exec(Do, s0, actions);
    var x := s.enrolls[e];
    var t :| t in s.store.tenants && t.(disabled := false) == x.created.value;
    assert t.name == x.name && t.psk == x.psk;
  }

  lemma Then(s0: State, actions: seq<Action>, a: Action, s: State, t: State) returns (more: seq<Action>)
    requires Runs(Do, s0, actions) && Exec(Do, s0, actions) == s && Enabled(s, a) && Do(s, a) == t
    ensures more == actions + [a] && Runs(Do, s0, more) && Exec(Do, s0, more) == t
  {
    more := Next(Do, s0, actions, a, t);
  }

  /**
   * Every redeemable code can be enrolled: the credentials arrive and the tenant stays, or
   * they do not and the tenants are as before.
   */
  lemma EnrollmentsHappen(s0: State, codePsk: Psk, now: nat, name: string, psk: Psk, sent: bool)
    returns (run: seq<Action>)
    requires Init(s0) && (forall t :: t in s0.store.tenants ==> t.name != name)
    requires Redeem(s0.store, codePsk, now, name, psk).Ok?
    ensures run == [Begin(0, codePsk, now, name, psk), Commit(0, true), Send(0, sent)] + if sent then []
      else [TakeBack(0, true)]
    ensures Runs(Do, s0, run) && 0 in Exec(Do, s0, run).enrolls
    ensures var s := Exec(Do, s0, run);
      if sent
      then s.enrolls[0].phase == Delivered && exists t :: t in s.store.tenants && t.name == name && t.psk == psk
      else s.enrolls[0].phase == Withdrawn && s.store.tenants == s0.store.tenants
  {
    hide Redeem, Valid, Redeemable, WithoutTenant;
    RedeemExactly(s0.store, codePsk, now, name, psk);
    var (next, tenant) := Redeem(s0.store, codePsk, now, name, psk).value;
    assert tenant in next.tenants && tenant.name == name && tenant.psk == psk;
    WithoutTenantExactly(next, name);
    WithdrawnAreAsBefore(s0.store.tenants, next, tenant);
    var s1 := Do(s0, Begin(0, codePsk, now, name, psk));
    var s2 := Do(s1, Commit(0, true));
    var s3 := Do(s2, Send(0, sent));
    run := Then(s0, [], Begin(0, codePsk, now, name, psk), s0, s1);
    run := Then(s0, run, Commit(0, true), s1, s2);
    run := Then(s0, run, Send(0, sent), s2, s3);
    if !sent {
      run := Then(s0, run, TakeBack(0, true), s3, Do(s3, TakeBack(0, true)));
    }
  }

  lemma WithdrawnAreAsBefore(before: seq<Tenant>, next: TenantSet, tenant: Tenant)
    requires Valid(next) && next.tenants == before + [tenant] && forall t :: t in before ==> t.name != tenant.name
    ensures WithoutTenant(next, tenant.name).Ok? && WithoutTenant(next, tenant.name).value.tenants == before
  {
    hide Valid;
    assert tenant in next.tenants;
    WithoutTenantExactly(next, tenant.name);
    WithdrawRestores(before, tenant);
  }

  // ---------- What a shutdown leaves behind

  predicate Abandoned(s: State, e: nat) {
    e in s.enrolls && (s.enrolls[e].phase.Dropped? || s.enrolls[e].phase.Orphaned?)
  }

  predicate CreatedIfSpent(s: State) {
    forall e :: e in s.enrolls ==> (s.enrolls[e].created.Some? <==> Spent(s.enrolls[e].phase))
  }

  lemma StepAbandons(s: State, a: Action, e: nat)
    requires CreatedIfSpent(s) && Enabled(s, a)
    ensures var t := Do(s, a);
      && CreatedIfSpent(t)
      && (e in s.enrolls ==> e in t.enrolls)
      && (e in t.enrolls && t.enrolls[e].created.Some? ==> (Abandoned(t, e) <==> Abandoned(s, e) || a == Drop(e)))
      && (Abandoned(s, e) || a == Drop(e) ==> e in t.enrolls && (Abandoned(t, e) || t.enrolls[e].phase.Refused?))
  {
    hide Redeem, Apply, After;
  }

  lemma {:induction false} RefusedStaysRefused(s: State, actions: seq<Action>, e: nat)
    requires Runs(Do, s, actions) && e in s.enrolls && s.enrolls[e].phase.Refused?
    ensures e in Exec(Do, s, actions).enrolls && Exec(Do, s, actions).enrolls[e].phase.Refused?
    decreases |actions|
  {
    hide Redeem, Apply, After;
    if actions != [] {
      RefusedStaysRefused(Do(s, actions[0]), actions[1..], e);
    }
  }

  lemma {:induction false} RunAbandons(s: State, actions: seq<Action>, e: nat)
    requires CreatedIfSpent(s) && Runs(Do, s, actions) && e in Exec(Do, s, actions).enrolls
    ensures var t := Exec(Do, s, actions);
      && (t.enrolls[e].created.Some? <==> Spent(t.enrolls[e].phase))
      && (t.enrolls[e].phase.Orphaned? <==> t.enrolls[e].created.Some? && (Abandoned(s, e) || Drop(e) in actions))
    decreases |actions|
  {
    if actions != [] {
      var s1 := Do(s, actions[0]);
      StepAbandons(s, actions[0], e);
      assert actions == [actions[0]] + actions[1..];
      hide Enabled, Do, CreatedIfSpent;
      RunAbandons(s1, actions[1..], e);
      if e in s1.enrolls && s1.enrolls[e].phase.Refused? {
        RefusedStaysRefused(s1, actions[1..], e);
      }
    }
  }

  /**
   * An enrollment is orphaned if and only if shutdown dropped its task and its
   * redemption took effect. Until somebody revokes it, its tenant stays in the
   * store under a PSK that nobody was given.
   */
  lemma OrphanedExactly(s0: State, actions: seq<Action>, e: nat)
    requires Init(s0) && Runs(Do, s0, actions) && e in Exec(Do, s0, actions).enrolls
    ensures var s := Exec(Do, s0, actions);
            var x := s.enrolls[e];
      && (x.phase.Orphaned? <==> Drop(e) in actions && x.created.Some?)
      && (x.phase.Orphaned? ==> s.stopping)
      && (x.phase.Orphaned? && Revoke(x.name) !in s.edits ==>
        exists t :: t in s.store.tenants && t.name == x.name && t.psk == x.psk)
  {
    RunAbandons(s0, actions, e);
    InitInv(s0);
    RunKeepsInv(s0, actions);
    if Exec(Do, s0, actions).enrolls[e].phase.Orphaned? {
      CredentialsWorkUntilRevoked(s0, actions, e);
    }
  }

  /**
   * Every code that can be redeemed can be orphaned: the task is dropped after it has
   * submitted the redemption, which then goes through.
   */
  lemma OrphansHappen(s0: State, codePsk: Psk, now: nat, name: string, psk: Psk) returns (run: seq<Action>)
    requires Init(s0) && (forall t :: t in s0.store.tenants ==> t.name != name)
      && Redeem(s0.store, codePsk, now, name, psk).Ok?
    ensures run == [Begin(0, codePsk, now, name, psk), Shutdown, Drop(0), Commit(0, true)]
    ensures Runs(Do, s0, run) && 0 in Exec(Do, s0, run).enrolls && Exec(Do, s0, run).enrolls[0].phase.Orphaned?
    ensures exists t :: t in Exec(Do, s0, run).store.tenants && t.name == name && t.psk == psk
  {
    hide Redeem, Valid, Redeemable;
    RedeemExactly(s0.store, codePsk, now, name, psk);
    var tenant := Redeem(s0.store, codePsk, now, name, psk).value.1;
    var begin, drop, commit := Begin(0, codePsk, now, name, psk), Drop(0), Commit(0, true);
    var s1 := Do(s0, begin);
    var s2 := Do(s1, Shutdown);
    var s3 := Do(s2, drop);
    var s4 := Do(s3, commit);
    hide Do;
    run := Then(s0, [], begin, s0, s1);
    run := Then(s0, run, Shutdown, s1, s2);
    run := Then(s0, run, drop, s2, s3);
    run := Then(s0, run, commit, s3, s4);
    assert tenant in s4.store.tenants;
  }

  // ---------- Withdrawal

  /** A withdrawal that takes effect removes one tenant: the one whose PSK only this enrollment ever knew. */
  lemma WithdrawalTakesOnlyItsOwn(s0: State, actions: seq<Action>, e: nat)
    requires Init(s0) && Runs(Do, s0, actions)
    requires Enabled(Exec(Do, s0, actions), TakeBack(e, true))
    ensures var s := Exec(Do, s0, actions);
            var t := Do(s, TakeBack(e, true));
      && (t.enrolls[e].phase.Withdrawn?
        <==> exists u :: u in s.store.tenants && u.psk == s.enrolls[e].psk && u.name == s.enrolls[e].name)
      && (forall u :: u in s.store.tenants && u !in t.store.tenants ==>
        u.psk == s.enrolls[e].psk && t.enrolls[e].phase.Withdrawn?)
      && (forall u :: u in t.store.tenants ==> u in s.store.tenants && u.name != s.enrolls[e].name)
  {
    hide Valid, Redeemed, Fold;
    InitInv(s0);
    RunKeepsInv(s0, actions);
    var s := Exec(Do, s0, actions);
    WithoutTenantExactly(s.store, s.enrolls[e].name);
    forall u | u in s.store.tenants
      ensures Owned(s.enrolls[e], u)
    {
    }
  }

  // ---------- One enrollment, carried out on a store

  datatype Ending = WasRefused | WasDelivered(tenant: Tenant) | WasWithdrawn

  /**
   * Redeem, send, and take the tenant back if it could not be sent: then only the code is
   * gone, with the expired ones.
   */
  method RunEnrollment(store: MemoryStore, codePsk: Psk, now: nat, name: string, psk: Psk, sent: bool)
    returns (r: Ending)
    requires Valid(store.contents) && name !in Names(store.contents.tenants)
    modifies store
    ensures Valid(store.contents)
    ensures r.WasRefused? ==> store.contents == old(store.contents)
    ensures !r.WasRefused? <==>
      exists code ::
        && code in old(store.contents).codes
        && Redeemable(old(store.contents), code, codePsk, now, name, psk)
    ensures !r.WasRefused? ==> (r.WasDelivered? <==> sent)
    ensures r.WasDelivered? ==>
      sent && store.contents.tenants == old(store.contents.tenants) + [r.tenant] && r.tenant.name == name
      && r.tenant.psk == psk
    ensures r.WasWithdrawn? ==> !sent && store.contents.tenants == old(store.contents.tenants)
    ensures !r.WasRefused? ==> HasCode(old(store.contents), codePsk) && !HasCode(store.contents, codePsk)
  {
    hide Valid, Redeem, Redeemable;
    ghost var before := store.contents;
    var created := store.RedeemCode(codePsk, now, name, psk);
    if created.Err? {
      return WasRefused;
    }
    if sent {
      return WasDelivered(created.value);
    }
    WithdrawRestores(before.tenants, created.value);
    WithoutTenantExactly(store.contents, name);
    AfterIsValid(store.contents, Revoke(name));
    var _ := store.ReplaceWith(Revoke(name));
    return WasWithdrawn;
  }

  lemma WithdrawRestores(ts: seq<Tenant>, t: Tenant)
    requires t.name !in Names(ts)
    ensures Keep(ts + [t], (u: Tenant) => u.name != t.name) == ts
  {
    var p := (u: Tenant) => u.name != t.name;
    assert (ts + [t])[..|ts|] == ts;
    KeepAll(ts, p);
  }
}
