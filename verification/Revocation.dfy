/**
 * The tenant file and the hub together. Readers of the file bring what they read
 * to `apply` calls, which publish and sweep it; writers, readers, `apply` calls
 * and sessions interleave in any way. What a revocation in the file means for
 * the live sessions is a question about both.
 */
module Revocation {
  import opened Basics
  import opened Steps
  import opened Tenants
  import opened Store
  import FileStore
  import Hub

  predicate Brings(e: Edit, name: string) {
    (e.AddTenant? && e.tenant.name == name) || (e.Enroll? && e.name == name)
  }

  /** `name` was revoked by the `i`-th edit and nothing brought it back. */
  predicate Revoked(edits: seq<Edit>, i: nat, name: string) {
    i < |edits| && edits[i] == Revoke(name) && forall k :: i < k < |edits| ==> !Brings(edits[k], name)
  }

  /** Whether or not the revocation found its tenant, nobody has the name afterwards. */
  lemma {:induction false} RevokedIsGone(s: TenantSet, edits: seq<Edit>, i: nat, name: string)
    requires Valid(s) && Revoked(edits, i, name)
    ensures forall t :: t in Fold(s, edits).tenants ==> t.name != name
    decreases |edits|
  {
    hide Valid, Apply, WithoutTenant;
    var front, last := edits[..|edits| - 1], edits[|edits| - 1];
    var before := Fold(s, front);
    FoldIsValid(s, front);
    if i == |edits| - 1 {
      AfterRevoke(before, name);
    } else {
      RevokedIsGone(s, front, i, name);
      forall u | u in After(before, last).tenants
        ensures u.name != name
      {
        TenantsComeFrom(before, last, u);
        if last.Enroll? && Redeem(before, last.codePsk, last.now, last.name, last.psk).Ok? {
          RedeemExactly(before, last.codePsk, last.now, last.name, last.psk);
        }
      }
    }
  }

  lemma AfterRevoke(s: TenantSet, name: string)
    requires Valid(s)
    ensures forall t :: t in After(s, Revoke(name)).tenants ==> t.name != name
  {
    hide Valid, WithoutTenant;
    WithoutTenantExactly(s, name);
  }

  /** A reader that opens the file once the revocation is committed gets a valid set without the tenant. */
  lemma ReadersMissTheRevoked(f0: FileStore.State, before: seq<FileStore.Action>, r: nat,
    between: seq<FileStore.Action>, i: nat, name: string)
    returns (snapshot: TenantSet)
    requires FileStore.Init(f0) && FileStore.Load(f0.initial).Some? && Runs(FileStore.Do, f0, before)
    requires var f1 := Exec(FileStore.Do, f0, before);
      && Revoked(f1.edits, i, name)
      && FileStore.Enabled(f1, FileStore.OpenForRead(r))
      && Runs(FileStore.Do, FileStore.Do(f1, FileStore.OpenForRead(r)), between)
    requires var f1 := Exec(FileStore.Do, f0, before);
      FileStore.Enabled(Exec(FileStore.Do, FileStore.Do(f1, FileStore.OpenForRead(r)), between),
        FileStore.ReadOpened(r))
    ensures var f1 := Exec(FileStore.Do, f0, before);
            var f2 := Exec(FileStore.Do, FileStore.Do(f1, FileStore.OpenForRead(r)), between);
      FileStore.Do(f2, FileStore.ReadOpened(r)).readers[r].result == Some(snapshot)
    ensures Valid(snapshot) && Lookup(snapshot, name).None?
  {
    hide Valid, Fold, FileStore.Init, FileStore.Load;
    var f1 := Exec(FileStore.Do, f0, before);
    FileStore.ReadersSeeCommittedStates(f0, before, r, between);
    FileStore.FileStaysValid(f0, before);
    FileStore.LoadedIsValid(f0.initial);
    snapshot := Fold(FileStore.Load(f0.initial).value, f1.edits);
    RevokedIsGone(FileStore.Load(f0.initial).value, f1.edits, i, name);
    FindFirst(snapshot.tenants, (t: Tenant) => t.name == name);
  }

  // ---------- File and hub together

  /** `source` says which reader of the file each `apply` call got its set from. */
  datatype State = State(file: FileStore.State, hub: Hub.State, source: map<nat, nat>)

  datatype Action = OnFile(f: FileStore.Action) | OnHub(h: Hub.Action) | Bring(x: nat, r: nat)

  /** A reader that got a set. */
  predicate HasRead(f: FileStore.State, r: nat) {
    r in f.readers && f.readers[r].Got? && f.readers[r].result.Some?
  }

  predicate Enabled(s: State, a: Action) {
    match a
    case OnFile(f) => FileStore.Enabled(s.file, f)
    case OnHub(h) => !h.StartApply? && Hub.Enabled(s.hub, h)
    case Bring(x, r) => x !in s.hub.applies && HasRead(s.file, r)
  }

  function Do(s: State, a: Action): State
    requires Enabled(s, a)
  {
    match a
    case OnFile(f) => s.(file := FileStore.Do(s.file, f))
    case OnHub(h) => s.(hub := Hub.Do(s.hub, h))
    case Bring(x, r) =>
      s.(hub := Hub.Do(s.hub, Hub.StartApply(x, s.file.readers[r].result.value)), source := s.source[x := r])
  }

  /** The server starts with the set its first reading of the file gave. */
  ghost predicate Init(s: State) {
    && FileStore.Init(s.file) && Hub.Init(s.hub) && s.source == map[]
    && FileStore.Load(s.file.initial) == Some(s.hub.published)
  }

  /** How many edits had been committed when the reader opened the file whose set is now published. */
  function PublishedVersion(s: State): nat
    requires s.hub.publisher.Some? ==>
      s.hub.publisher.value in s.source && s.source[s.hub.publisher.value] in s.file.readers
  {
    if s.hub.publisher.None? then 0 else s.file.readers[s.source[s.hub.publisher.value]].version
  }

  ghost predicate Sourced(s: State) {
    && (forall x :: x in s.hub.applies ==> x in s.source && HasRead(s.file, s.source[x]))
    && (forall x :: x in s.hub.applies && !s.hub.applies[x].Finished? ==>
         s.hub.applies[x].next == s.file.readers[s.source[x]].result.value)
    && (s.hub.publisher.Some? ==>
         && s.hub.publisher.value in s.hub.applies
         && s.hub.published == s.file.readers[s.source[s.hub.publisher.value]].result.value)
    && (s.hub.publisher.None? ==> FileStore.Load(s.file.initial) == Some(s.hub.published))
  }

  ghost predicate Inv(s: State) {
    FileStore.Inv(s.file) && Hub.Inv(s.hub) && FileStore.Load(s.file.initial).Some? && Sourced(s)
  }

  /** Once read, always read. */
  lemma ReadStays(f: FileStore.State, a: FileStore.Action, r: nat)
    requires FileStore.Enabled(f, a) && HasRead(f, r)
    ensures HasRead(FileStore.Do(f, a), r) && FileStore.Do(f, a).readers[r] == f.readers[r]
  {
    hide FileStore.Load, Apply;
  }

  lemma FileKeepsSourced(s: State, f: FileStore.Action)
    requires Sourced(s) && FileStore.Enabled(s.file, f) && FileStore.Do(s.file, f).initial == s.file.initial
    ensures Sourced(Do(s, OnFile(f)))
  {
    hide FileStore.Load, FileStore.Do, FileStore.Enabled;
    forall r | HasRead(s.file, r)
      ensures HasRead(FileStore.Do(s.file, f), r) && FileStore.Do(s.file, f).readers[r] == s.file.readers[r]
    {
      ReadStays(s.file, f, r);
    }
    hide HasRead;
  }

  lemma HubKeepsSourced(s: State, h: Hub.Action)
    requires Sourced(s) && !h.StartApply? && Hub.Enabled(s.hub, h)
    ensures Sourced(Do(s, OnHub(h)))
  {
    hide FileStore.Load, Hub.Survivors, Hub.Evicted, Hub.Allows, Hub.Without, HasRead;
  }

  lemma BringKeepsSourced(s: State, x: nat, r: nat)
    requires Sourced(s) && Enabled(s, Bring(x, r))
    ensures Sourced(Do(s, Bring(x, r)))
  {
    hide FileStore.Load;
  }

  lemma StepKeepsInv(s: State, a: Action)
    requires Inv(s) && Enabled(s, a)
    ensures Inv(Do(s, a)) && Do(s, a).file.initial == s.file.initial
  {
    hide FileStore.Inv, FileStore.Do, FileStore.Enabled, FileStore.Load, Hub.Inv, Hub.Do, Hub.Enabled, Sourced;
    match a {
      case OnFile(f) =>
        FileStore.StepKeepsInv(s.file, f);
        FileKeepsSourced(s, f);
      case OnHub(h) =>
        Hub.StepKeepsInv(s.hub, h);
        HubKeepsSourced(s, h);
      case Bring(x, r) =>
        BringKeepsHub(s, x, r);
        BringKeepsSourced(s, x, r);
    }
  }

  lemma BringKeepsHub(s: State, x: nat, r: nat)
    requires Hub.Inv(s.hub) && Enabled(s, Bring(x, r))
    ensures Hub.Inv(Do(s, Bring(x, r)).hub)
  {
    hide Hub.Inv, Hub.Do;
    Hub.StepKeepsInv(s.hub, Hub.StartApply(x, s.file.readers[r].result.value));
  }

  lemma RunKeepsInv(s: State, run: seq<Action>)
    requires Inv(s) && Runs(Do, s, run)
    ensures Inv(Exec(Do, s, run)) && Exec(Do, s, run).file.initial == s.file.initial
  {
    var inv := (t: State) => Inv(t) && t.file.initial == s.file.initial;
    forall t, a | inv(t) && Enabled(t, a)
      ensures inv(Do(t, a))
    {
      StepKeepsInv(t, a);
    }
    hide Inv, Do;
    RunsKeep(Do, inv, s, run);
  }

  lemma InitInv(s: State)
    requires Init(s)
    ensures Inv(s)
  {
    hide FileStore.Inv, FileStore.Load, FileStore.FilesApart;
    FileStore.InitInv(s.file);
  }

  // ---------- Which set is published

  /** The `apply` call of the last publication in a run, or `before` if there is none. */
  function LastPublish(run: seq<Action>, before: Option<nat>): Option<nat> {
    if run == [] then before
    else LastPublish(run[1..], if run[0].OnHub? && run[0].h.PublishSet? then Some(run[0].h.a) else before)
  }

  lemma {:induction false} PublisherIsLast(s: State, run: seq<Action>)
    requires Runs(Do, s, run)
    ensures Exec(Do, s, run).hub.publisher == LastPublish(run, s.hub.publisher)
    decreases |run|
  {
    if run != [] {
      StepPublishes(s, run[0]);
      hide Do, Enabled;
      PublisherIsLast(Do(s, run[0]), run[1..]);
    }
  }

  lemma StepPublishes(s: State, a: Action)
    requires Enabled(s, a)
    ensures Do(s, a).hub.publisher == if a.OnHub? && a.h.PublishSet? then Some(a.h.a) else s.hub.publisher
  {
    hide FileStore.Do, FileStore.Enabled;
  }

  /**
   * In every interleaving the published set is a committed state of the file: it
   * is the fold of the edits committed when the file was opened by the reader
   * behind the last publication, or the initial set if nothing was published.
   */
  lemma PublishedIsCommitted(s0: State, run: seq<Action>)
    requires Init(s0) && Runs(Do, s0, run)
    ensures var s := Exec(Do, s0, run);
      && s.hub.publisher == LastPublish(run, None)
      && (s.hub.publisher.Some? ==>
           s.hub.publisher.value in s.source && s.source[s.hub.publisher.value] in s.file.readers)
      && PublishedVersion(s) <= |s.file.edits|
      && s.hub.published == Fold(s0.hub.published, s.file.edits[..PublishedVersion(s)])
      && Valid(s0.hub.published) && Valid(s.hub.published)
  {
    InitInv(s0);
    RunKeepsInv(s0, run);
    PublisherIsLast(s0, run);
    var s := Exec(Do, s0, run);
    PublishedFolds(s);
    FileStore.LoadedIsValid(s0.file.initial);
    hide Valid, Fold;
  }

  lemma PublishedFolds(s: State)
    requires Inv(s)
    ensures s.hub.publisher.Some? ==>
      s.hub.publisher.value in s.source && s.source[s.hub.publisher.value] in s.file.readers
    ensures PublishedVersion(s) <= |s.file.edits| && Valid(s.hub.published)
    ensures s.hub.published == Fold(FileStore.Load(s.file.initial).value, s.file.edits[..PublishedVersion(s)])
  {
    hide Valid, Fold, FileStore.Load, FileStore.Version, Hub.Inv;
    if s.hub.publisher.Some? {
      var reader := s.file.readers[s.source[s.hub.publisher.value]];
      assert FileStore.ReaderOk(s.file, reader);
      FileStore.VersionLoads(s.file, reader.version);
    } else {
      FileStore.LoadedIsValid(s.file.initial);
      FoldNothing(s.hub.published, s.file.edits);
    }
  }

  lemma FoldNothing(s: TenantSet, edits: seq<Edit>)
    ensures Fold(s, edits[..0]) == s
  {
  }

  // ---------- What becomes of a revoked tenant

  ghost predicate Has(s: TenantSet, name: string) {
    exists t :: t in s.tenants && t.name == name
  }

  /** Without an edit that brings the name, who lacks it keeps lacking it. */
  lemma {:induction false} StillLacks(s: TenantSet, edits: seq<Edit>, from: nat, name: string)
    requires Valid(s) && from <= |edits| && !Has(Fold(s, edits[..from]), name)
    requires forall k :: from <= k < |edits| ==> !Brings(edits[k], name)
    ensures !Has(Fold(s, edits), name)
    decreases |edits|
  {
    hide Valid, Apply;
    if from == |edits| {
      assert edits[..from] == edits;
    } else {
      var front, last := edits[..|edits| - 1], edits[|edits| - 1];
      assert front[..from] == edits[..from];
      StillLacks(s, front, from, name);
      FoldIsValid(s, front);
      var before := Fold(s, front);
      forall u | u in After(before, last).tenants
        ensures u.name != name
      {
        TenantsComeFrom(before, last, u);
        if last.Enroll? && Redeem(before, last.codePsk, last.now, last.name, last.psk).Ok? {
          RedeemExactly(before, last.codePsk, last.now, last.name, last.psk);
        }
      }
    }
  }

  /** The `i`-th edit took `name` away, and from `from` on no edit brought it. */
  ghost predicate TakenAway(s: TenantSet, edits: seq<Edit>, from: nat, i: nat, name: string) {
    && from <= i < |edits| && edits[i] == Revoke(name) && Has(Fold(s, edits[..i]), name)
    && forall k :: from <= k < |edits| ==> !Brings(edits[k], name)
  }

  /** The versions from `from` on that lack the name are exactly those after the revocation. */
  lemma LacksFromThere(s: TenantSet, edits: seq<Edit>, from: nat, i: nat, name: string, v: nat)
    requires Valid(s) && TakenAway(s, edits, from, i, name) && from <= v <= |edits|
    ensures Has(Fold(s, edits[..v]), name) <==> v <= i
  {
    hide Valid, Fold;
    if v > i {
      assert edits[..v][i] == Revoke(name);
      RevokedIsGone(s, edits[..v], i, name);
    } else if !Has(Fold(s, edits[..v]), name) {
      assert edits[..i][..v] == edits[..v];
      StillLacks(s, edits[..i], v, name);
    }
  }

  /**
   * The published set lacks a tenant that was revoked exactly when the reader
   * behind the last publication opened the file after the revocation. Nothing
   * makes the last publication the latest reading.
   */
  lemma RevokedExactlyWhenReadAfter(s0: State, run: seq<Action>, from: nat, i: nat, name: string)
    requires Init(s0) && Runs(Do, s0, run)
    requires TakenAway(s0.hub.published, Exec(Do, s0, run).file.edits, from, i, name)
    ensures var s := Exec(Do, s0, run);
      && (s.hub.publisher.Some? ==>
           s.hub.publisher.value in s.source && s.source[s.hub.publisher.value] in s.file.readers)
      && s.hub.publisher == LastPublish(run, None)
      && (from <= PublishedVersion(s) ==> (Lookup(s.hub.published, name).None? <==> i < PublishedVersion(s)))
  {
    hide Valid, Fold, TakenAway;
    PublishedIsCommitted(s0, run);
    var s := Exec(Do, s0, run);
    if from <= PublishedVersion(s) {
      LacksFromThere(s0.hub.published, s.file.edits, from, i, name, PublishedVersion(s));
    }
    FindFirst(s.hub.published.tenants, (t: Tenant) => t.name == name);
  }

  /**
   * Once a revocation is committed and a set read after it is the published one,
   * every live session of the tenant still has its own check, its own cancel,
   * its displacer's cancel or the sweep of that very set ahead of it; and when
   * none of these is outstanding, the tenant has no live session.
   */
  lemma RevokedTenantIsGone(s0: State, run: seq<Action>, i: nat, name: string)
    requires Init(s0) && Runs(Do, s0, run)
    requires var s := Exec(Do, s0, run); s.hub.publisher.Some? ==>
      s.hub.publisher.value in s.source && s.source[s.hub.publisher.value] in s.file.readers
    requires var s := Exec(Do, s0, run);
      PublishedVersion(s) <= |s.file.edits| && Revoked(s.file.edits[..PublishedVersion(s)], i, name)
    ensures var h := Exec(Do, s0, run).hub;
      forall id :: Hub.Live(h, id) && h.tasks[id].tenant.name == name ==>
        && (h.tasks[id].phase.Inserted? || h.tasks[id].phase.Refused? || Hub.Owed(h, id) || Hub.SweepPending(h))
        && !Hub.Quiet(h)
  {
    hide Valid, Fold, Revoked;
    PublishedIsCommitted(s0, run);
    InitInv(s0);
    RunKeepsInv(s0, run);
    var s := Exec(Do, s0, run);
    assert Hub.Inv(s.hub);
    hide Inv, Init, Do, Enabled;
    RevokedIsGone(s0.hub.published, s.file.edits[..PublishedVersion(s)], i, name);
    NameIsOut(s.hub.published, name);
  }

  // ---------- An older reading can be published last

  function AllOnFile(run: seq<FileStore.Action>): seq<Action> {
    seq(|run|, k requires 0 <= k < |run| => OnFile(run[k]))
  }

  /** What the file does alone is a run of both. */
  lemma {:induction false} LiftFile(s: State, run: seq<FileStore.Action>)
    requires Runs(FileStore.Do, s.file, run)
    ensures Runs(Do, s, AllOnFile(run))
    ensures Exec(Do, s, AllOnFile(run)) == s.(file := Exec(FileStore.Do, s.file, run))
    decreases |run|
  {
    if run != [] {
      var a := OnFile(run[0]);
      assert Enabled(s, a);
      var t := Do(s, a);
      hide FileStore.Do, FileStore.Enabled;
      LiftFile(t, run[1..]);
      assert AllOnFile(run)[0] == a && AllOnFile(run)[1..] == AllOnFile(run[1..]);
    }
  }

  lemma Then(s0: State, run: seq<Action>, a: Action, s: State) returns (more: seq<Action>, t: State)
    requires Runs(Do, s0, run) && Exec(Do, s0, run) == s && Enabled(s, a)
    ensures more == run + [a] && Runs(Do, s0, more) && Exec(Do, s0, more) == t == Do(s, a)
  {
    t := Do(s, a);
    more := Next(Do, s0, run, a, t);
  }

  /** Reads the file, revokes a tenant in it, and reads it again, with nothing else going on. */
  lemma ReadRevokeRead(s0: State, name: string, newer: TenantSet) returns (run: seq<Action>, s: State)
    requires Init(s0) && WithoutTenant(s0.hub.published, name) == Ok(newer)
    requires FileStore.Load(Some(FileStore.Text(newer.tenants, newer.codes))) == Some(newer)
    ensures Runs(Do, s0, run) && Exec(Do, s0, run) == s
    ensures LastPublish(run, None) == None
    ensures s.hub == s0.hub && s.source == s0.source && s.file.edits == [Revoke(name)]
    ensures FileStore.Load(FileStore.Current(s.file)) == Some(newer)
    ensures 0 in s.file.readers && s.file.readers[0] == FileStore.Got(Some(s0.hub.published), 0)
    ensures 1 in s.file.readers && s.file.readers[1] == FileStore.Got(Some(newer), 1)
  {
    hide FileStore.Do, FileStore.Enabled, FileStore.Load, WithoutTenant, LastPublish;
    var r1, f1 := FileStore.ReadAlone(s0.file, 0);
    assert Apply(s0.hub.published, Revoke(name)) == Ok(newer);
    var r2, f2 := FileStore.CommitAlone(f1, 0, 0, Revoke(name), newer);
    var r3, f3 := FileStore.ReadAlone(f2, 1);
    RunOn(FileStore.Do, s0.file, r1, r2);
    RunOn(FileStore.Do, s0.file, r1 + r2, r3);
    LiftFile(s0, r1 + r2 + r3);
    run, s := AllOnFile(r1 + r2 + r3), s0.(file := f3);
    NoPublishOnFile(r1 + r2 + r3);
  }

  lemma {:induction false} NoPublishOnFile(run: seq<FileStore.Action>)
    ensures LastPublish(AllOnFile(run), None) == None
    decreases |run|
  {
    if run != [] {
      assert AllOnFile(run)[0] == OnFile(run[0]) && AllOnFile(run)[1..] == AllOnFile(run[1..]);
      NoPublishOnFile(run[1..]);
    }
  }

  /** One call publishes and sweeps, with no session there. */
  lemma PublishAlone(s0: State, run0: seq<Action>, s: State, x: nat) returns (run: seq<Action>, t: State)
    requires Runs(Do, s0, run0) && Exec(Do, s0, run0) == s && s.hub.sessions == map[]
    requires x in s.hub.applies && s.hub.applies[x].Publishing?
    ensures run == run0 + [OnHub(Hub.PublishSet(x)), OnHub(Hub.SweepSessions(x))]
    ensures Runs(Do, s0, run) && Exec(Do, s0, run) == t
    ensures t == s.(hub := s.hub.(published := s.hub.applies[x].next, publisher := Some(x),
                                  applies := s.hub.applies[x := Hub.Finished]))
  {
    hide FileStore.Do, FileStore.Enabled, Hub.Survivors, Hub.Evicted;
    NothingToSweep(s.hub.applies[x].next);
    run, t := Then(s0, run0, OnHub(Hub.PublishSet(x)), s);
    run, t := Then(s0, run, OnHub(Hub.SweepSessions(x)), t);
  }

  /** Two calls publish and sweep what two readers read: the second reader's set first. */
  lemma PublishOlderLast(s0: State, run0: seq<Action>, s: State) returns (run: seq<Action>, t: State)
    requires Runs(Do, s0, run0) && Exec(Do, s0, run0) == s && s.hub.applies == map[] && s.hub.sessions == map[]
    requires HasRead(s.file, 0) && HasRead(s.file, 1)
    ensures Runs(Do, s0, run) && Exec(Do, s0, run) == t && OnHub(Hub.PublishSet(1)) in run
    ensures t.file == s.file && t.source == s.source[0 := 0][1 := 1]
    ensures t.hub == s.hub.(published := s.file.readers[0].result.value, publisher := Some(0),
                            applies := map[0 := Hub.Finished, 1 := Hub.Finished])
  {
    hide FileStore.Do, FileStore.Enabled;
    run, t := Then(s0, run0, Bring(0, 0), s);
    run, t := Then(s0, run, Bring(1, 1), t);
    hide Do, Enabled;
    run, t := PublishAlone(s0, run, t, 1);
    var first := |run| - 2;
    assert run[first] == OnHub(Hub.PublishSet(1));
    run, t := PublishAlone(s0, run, t, 0);
    assert run[first] == OnHub(Hub.PublishSet(1));
  }

  lemma NothingToSweep(next: TenantSet)
    ensures Hub.Survivors(map[], next) == map[] && Hub.Evicted(map[], next) == {}
  {
  }

  /** A client of a tenant the published set allows connects, and its session settles. */
  lemma SessionSettles(s0: State, run0: seq<Action>, s: State, tenant: Tenant) returns (run: seq<Action>, t: State)
    requires Runs(Do, s0, run0) && Exec(Do, s0, run0) == s && s.hub.sessions == map[] && s.hub.tasks == map[]
    requires s.hub.cancelled == {} && !s.hub.stopping && Hub.Allows(s.hub.published, tenant.name, tenant.psk)
    requires forall a :: a in s.hub.applies ==> s.hub.applies[a].Finished?
    ensures run0 <= run && Runs(Do, s0, run) && Exec(Do, s0, run) == t
    ensures t.file == s.file && t.source == s.source
    ensures t.hub.published == s.hub.published && t.hub.publisher == s.hub.publisher && t.hub.applies == s.hub.applies
    ensures Hub.Quiet(t.hub) && Hub.Live(t.hub, s.hub.nextSession) && t.hub.tasks[s.hub.nextSession].tenant == tenant
  {
    hide Hub.Allows, FileStore.Do, FileStore.Enabled;
    var id := s.hub.nextSession;
    run, t := Then(s0, run0, OnHub(Hub.Begin(tenant)), s);
    run, t := Then(s0, run, OnHub(Hub.Join(id)), t);
    run, t := Then(s0, run, OnHub(Hub.Check(id)), t);
    run, t := Then(s0, run, OnHub(Hub.CancelReplaced(id)), t);
  }

  /**
   * Two calls each read and then publish, with nothing that orders them. The one
   * that read before a revocation can publish last: then, with every call
   * finished and nothing outstanding, the revoked tenant is still published and
   * its clients still get sessions. So it goes for every enabled tenant.
   */
  lemma StaleSetCanStay(s0: State, tenant: Tenant) returns (run: seq<Action>, id: nat)
    requires Init(s0) && tenant in s0.hub.published.tenants && !tenant.disabled
    ensures Runs(Do, s0, run) && OnHub(Hub.PublishSet(1)) in run && LastPublish(run, None) == Some(0)
    ensures var s := Exec(Do, s0, run);
      && s.file.edits == [Revoke(tenant.name)]
      && FileStore.Load(FileStore.Current(s.file)).Some?
      && Lookup(FileStore.Load(FileStore.Current(s.file)).value, tenant.name).None?
      && 0 in s.source && s.source[0] in s.file.readers && s.file.readers[s.source[0]].version == 0
      && 1 in s.source && s.source[1] in s.file.readers && s.file.readers[s.source[1]].version == 1
      && (forall x :: x in s.hub.applies ==> s.hub.applies[x].Finished?)
      && Hub.Quiet(s.hub) && Lookup(s.hub.published, tenant.name) == Some(tenant)
      && Hub.Live(s.hub, id) && s.hub.tasks[id].tenant == tenant
  {
    hide Valid, FileStore.Load, WithoutTenant, Do, Enabled, FileStore.Init;
    var name := tenant.name;
    FileStore.LoadedIsValid(s0.file.initial);
    WithoutTenantExactly(s0.hub.published, name);
    var newer := WithoutTenant(s0.hub.published, name).value;
    ValidLoads(newer);
    NameIsOut(newer, name);
    NameIsIn(s0.hub.published, tenant);
    var s;
    run, s := ReadRevokeRead(s0, name, newer);
    run, s := PublishOlderLast(s0, run, s);
    var stale := run;
    id := s.hub.nextSession;
    run, s := SessionSettles(s0, run, s, tenant);
    PublisherIsLast(s0, run);
    assert forall a :: a in stale ==> a in run;
  }

  lemma ValidLoads(s: TenantSet)
    requires Valid(s)
    ensures FileStore.Load(Some(FileStore.Text(s.tenants, s.codes))) == Some(s)
  {
    hide Valid, New;
    NewAcceptsExactlyValid(s.tenants, s.codes);
  }

  lemma NameIsOut(s: TenantSet, name: string)
    requires forall t :: t in s.tenants ==> t.name != name
    ensures Lookup(s, name).None?
  {
    FindFirst(s.tenants, (t: Tenant) => t.name == name);
  }

  lemma NameIsIn(s: TenantSet, t: Tenant)
    requires Valid(s) && t in s.tenants
    ensures Lookup(s, t.name) == Some(t)
  {
    LookupFindsTheOnly(s, t.name, t);
  }
}
