/**
 * The tenant file: writers lock a sidecar, load, edit, write a private temporary
 * file and rename it over the real one; readers take no lock. Any number of
 * writers (threads of any number of processes) and readers interleave, one file
 * system operation at a time; any writer may fail at any operation, or crash.
 */
module FileStore {
  import opened Basics
  import opened Steps
  import opened Tenants
  import opened Store

  /** What an inode holds: a file still being written, one that cannot be parsed, or a tenant file. */
  datatype Content = Partial | Garbage | Text(tenants: seq<Tenant>, codes: seq<EnrollCode>)

  /** A missing file is an empty set; a file that does not parse or validate is an error. */
  function Load(file: Option<Content>): Option<TenantSet> {
    match file
    case None => Some(EMPTY_SET)
    case Some(Text(ts, cs)) => if New(ts, cs).Ok? then Some(TenantSet(ts, cs)) else None
    case Some(_) => None
  }

  /**
   * A missing file reads as the empty set, a file that parses as its contents if they are
   * valid, any other not at all.
   */
  lemma LoadsExactly(file: Option<Content>, s: TenantSet)
    ensures Load(file) == Some(s) <==>
      match file
      case None => s == TenantSet([], [])
      case Some(Partial) => false
      case Some(Garbage) => false
      case Some(Text(ts, cs)) => s == TenantSet(ts, cs) && Valid(TenantSet(ts, cs))
  {
    hide Valid, New;
    if file.Some? && file.value.Text? {
      NewAcceptsExactlyValid(file.value.tenants, file.value.codes);
    }
  }

  /** A file somebody could not have meant as tenants: it does not parse, or what it says is not valid. */
  predicate Unusable(file: Option<Content>) {
    match file
    case None => false
    case Some(Partial) => true
    case Some(Garbage) => true
    case Some(Text(ts, cs)) => !Valid(TenantSet(ts, cs))
  }

  lemma UnusableExactly(file: Option<Content>)
    ensures Load(file).None? <==> Unusable(file)
  {
    hide Valid, New;
    if file.Some? && file.value.Text? {
      NewAcceptsExactlyValid(file.value.tenants, file.value.codes);
    }
  }

  datatype Phase =
    | Queued
    | Locked
    | Loaded(current: TenantSet)
    | Decided(next: TenantSet)
    | Cleared(next: TenantSet)
    | Opened(next: TenantSet, ino: nat)
    | Filled(next: TenantSet, ino: nat)
    | Renamed(next: TenantSet)
    | Undoing
    | Leaving
    | Done(result: Option<TenantSet>)
    | Crashed(renamed: bool)

  datatype Writer = Writer(pid: nat, edit: Edit, phase: Phase)

  datatype Reader = Reading(ino: Option<nat>, version: nat) | Got(result: Option<TenantSet>, version: nat)

  /** `edits` and `owners` record every rename so far: the edit it committed and the writer that did. */
  datatype State = State(
    initial: Option<Content>,
    inodes: map<nat, Content>,
    nextIno: nat,
    path: Option<nat>,
    tmps: map<nat, nat>,
    lock: Option<nat>,
    writers: map<nat, Writer>,
    readers: map<nat, Reader>,
    edits: seq<Edit>,
    owners: seq<nat>)

  datatype Action =
    | Queue(w: nat, pid: nat, edit: Edit)
    | Lock(w: nat)
    | ReadFile(w: nat)
    | RunEdit(w: nat)
    | ClearLeftover(w: nat)
    | CreateTmp(w: nat)
    | Fill(w: nat)
    | Rename(w: nat)
    | IoError(w: nat)
    | RemoveTmp(w: nat, removed: bool)
    | Unlock(w: nat)
    | Crash(w: nat)
    | OpenForRead(r: nat)
    | ReadOpened(r: nat)

  function Current(s: State): Option<Content> {
    match s.path
    case None => None
    case Some(i) => if i in s.inodes then Some(s.inodes[i]) else None
  }

  /** The contents after the first `k` commits. */
  function Version(s: State, k: nat): Option<Content>
    requires k <= |s.edits|
  {
    if k == 0 || Load(s.initial).None? then s.initial
    else var folded := Fold(Load(s.initial).value, s.edits[..k]); Some(Text(folded.tenants, folded.codes))
  }

  predicate Holding(p: Phase) {
    !p.Queued? && !p.Done? && !p.Crashed?
  }

  predicate HasRenamed(p: Phase) {
    p.Renamed? || (p.Done? && p.result.Some?) || (p.Crashed? && p.renamed)
  }

  predicate At(s: State, w: nat, holds: Phase -> bool) {
    w in s.writers && holds(s.writers[w].phase)
  }

  predicate Enabled(s: State, a: Action) {
    match a
    case Queue(w, _, _) => w !in s.writers
    case Lock(w) => At(s, w, (p: Phase) => p.Queued?) && s.lock.None?
    case ReadFile(w) => At(s, w, (p: Phase) => p.Locked?)
    case RunEdit(w) => At(s, w, (p: Phase) => p.Loaded?)
    case ClearLeftover(w) => At(s, w, (p: Phase) => p.Decided?)
    case CreateTmp(w) => At(s, w, (p: Phase) => p.Cleared?) && s.writers[w].pid !in s.tmps
    case Fill(w) => At(s, w, (p: Phase) => p.Opened?)
    case Rename(w) => At(s, w, (p: Phase) => p.Filled?) && s.writers[w].pid in s.tmps
    case IoError(w) => At(s, w, (p: Phase) => p.Queued? || p.Locked? || p.Decided? || p.Cleared? || p.Opened?
      || p.Filled?)
    case RemoveTmp(w, _) => At(s, w, (p: Phase) => p.Undoing?)
    case Unlock(w) => At(s, w, (p: Phase) => p.Leaving? || p.Renamed?)
    case Crash(w) => At(s, w, (p: Phase) => !p.Done? && !p.Crashed?)
    case OpenForRead(r) => r !in s.readers
    case ReadOpened(r) => r in s.readers && s.readers[r].Reading?
  }

  function Goto(s: State, w: nat, p: Phase): State
    requires w in s.writers
  {
    s.(writers := s.writers[w := s.writers[w].(phase := p)])
  }

  function Do(s: State, a: Action): State
    requires Enabled(s, a)
  {
    match a
    case Queue(w, pid, edit) => s.(writers := s.writers[w := Writer(pid, edit, Queued)])
    case Lock(w) => Goto(s, w, Locked).(lock := Some(w))
    case ReadFile(w) =>
      Goto(s, w, if Load(Current(s)).None? then Leaving else Loaded(Load(Current(s)).value))
    case RunEdit(w) =>
      var r := Apply(s.writers[w].phase.current, s.writers[w].edit);
      Goto(s, w, if r.Err? then Leaving else Decided(r.value))
    case ClearLeftover(w) =>
      Goto(s, w, Cleared(s.writers[w].phase.next)).(tmps := s.tmps - {s.writers[w].pid})
    case CreateTmp(w) =>
      Goto(s, w, Opened(s.writers[w].phase.next, s.nextIno))
      .(tmps := s.tmps[s.writers[w].pid := s.nextIno], inodes := s.inodes[s.nextIno := Partial],
        nextIno := s.nextIno + 1)
    case Fill(w) =>
      var p := s.writers[w].phase;
      Goto(s, w, Filled(p.next, p.ino)).(inodes := s.inodes[p.ino := Text(p.next.tenants, p.next.codes)])
    case Rename(w) =>
      var writer := s.writers[w];
      Goto(s, w, Renamed(writer.phase.next))
      .(path := Some(s.tmps[writer.pid]), tmps := s.tmps - {writer.pid}, edits := s.edits + [writer.edit],
        owners := s.owners + [w])
    case IoError(w) =>
      Goto(s, w, match s.writers[w].phase
                 case Queued => Done(None)
                 case Locked => Leaving
                 case _ => Undoing)
    case RemoveTmp(w, removed) =>
      Goto(s, w, Leaving).(tmps := if removed then s.tmps - {s.writers[w].pid} else s.tmps)
    case Unlock(w) =>
      var p := s.writers[w].phase;
      Goto(s, w, Done(if p.Renamed? then Some(p.next) else None)).(lock := None)
    case Crash(w) =>
      Goto(s, w, Crashed(s.writers[w].phase.Renamed?)).(lock := if s.lock == Some(w) then None else s.lock)
    case OpenForRead(r) => s.(readers := s.readers[r := Reading(s.path, |s.edits|)])
    case ReadOpened(r) =>
      var Reading(ino, version) := s.readers[r];
      var file := if ino.Some? && ino.value in s.inodes then Some(s.inodes[ino.value]) else None;
      s.(readers := s.readers[r := Got(Load(file), version)])
  }

  /** Processes that crashed earlier may have left temporary files behind, also under the ids of those to come. */
  ghost predicate Init(s: State) {
    && s.lock == None && s.writers == map[] && s.readers == map[] && s.edits == [] && s.owners == []
    && FilesApart(s)
    && s.initial == Current(s)
  }

  // ---------- The invariant

  /** Inodes reachable by the path or by a reader are never the target of a write. */
  ghost predicate FilesApart(s: State) {
    && (forall i :: i in s.inodes ==> i < s.nextIno)
    && (s.path.Some? ==> s.path.value in s.inodes)
    && (forall pid :: pid in s.tmps ==> s.tmps[pid] in s.inodes && s.path != Some(s.tmps[pid]))
    && (forall p, q :: p in s.tmps && q in s.tmps && p != q ==> s.tmps[p] != s.tmps[q])
    && forall r :: r in s.readers && s.readers[r].Reading? && s.readers[r].ino.Some? ==>
         s.readers[r].ino.value in s.inodes && forall pid :: pid in s.tmps ==> s.tmps[pid] != s.readers[r].ino.value
  }

  ghost predicate LockExclusive(s: State) {
    forall w :: w in s.writers && Holding(s.writers[w].phase) ==> s.lock == Some(w)
  }

  /** What the lock holder has loaded and decided is still about the current contents. */
  ghost predicate PhaseOk(s: State, x: Writer) {
    match x.phase
    case Loaded(current) => Load(Current(s)) == Some(current)
    case Decided(next) => DecidedOn(s, x.edit, next)
    case Cleared(next) => DecidedOn(s, x.edit, next)
    case Opened(next, ino) => DecidedOn(s, x.edit, next) && x.pid in s.tmps && s.tmps[x.pid] == ino
    case Filled(next, ino) =>
      DecidedOn(s, x.edit, next) && x.pid in s.tmps && s.tmps[x.pid] == ino && ino in s.inodes
        && s.inodes[ino] == Text(next.tenants, next.codes)
    case _ => true
  }

  ghost predicate DecidedOn(s: State, e: Edit, next: TenantSet) {
    Load(Current(s)).Some? && Apply(Load(Current(s)).value, e) == Ok(next)
  }

  ghost predicate History(s: State) {
    && Current(s) == Version(s, |s.edits|)
    && (s.edits != [] ==> Load(s.initial).Some?)
    && (Load(s.initial).Some? ==> forall k {:trigger s.edits[k]} :: 0 <= k < |s.edits| ==>
         Apply(Fold(Load(s.initial).value, s.edits[..k]), s.edits[k]).Ok?)
  }

  ghost predicate ReaderOk(s: State, r: Reader) {
    && r.version <= |s.edits|
    && match r
       case Reading(ino, v) => (if ino.Some? && ino.value in s.inodes then Some(s.inodes[ino.value]) else None)
         == Version(s, v)
       case Got(result, v) => result == Load(Version(s, v))
  }

  /** Each rename is one writer's, and a writer renames at most once. */
  ghost predicate OwnersOk(s: State) {
    && |s.owners| == |s.edits|
    && (forall k :: 0 <= k < |s.owners| ==>
         s.owners[k] in s.writers && s.writers[s.owners[k]].edit == s.edits[k]
           && HasRenamed(s.writers[s.owners[k]].phase))
    && (forall j, k :: 0 <= j < k < |s.owners| ==> s.owners[j] != s.owners[k])
    && (forall w :: w in s.writers && HasRenamed(s.writers[w].phase) ==> w in s.owners)
  }

  /** What a writer was told is the contents its own commit produced. */
  ghost predicate ResultOk(s: State, w: nat, next: TenantSet) {
    exists k :: 0 <= k < |s.owners| && |s.owners| == |s.edits| && s.owners[k] == w
      && Version(s, k + 1) == Some(Text(next.tenants, next.codes))
  }

  ghost predicate ToldRight(s: State, w: nat, p: Phase) {
    match p
    case Renamed(next) => ResultOk(s, w, next)
    case Done(Some(next)) => ResultOk(s, w, next)
    case _ => true
  }

  ghost predicate ResultsOk(s: State) {
    forall w :: w in s.writers ==> ToldRight(s, w, s.writers[w].phase)
  }

  ghost predicate PhasesOk(s: State) {
    forall w :: w in s.writers ==> PhaseOk(s, s.writers[w])
  }

  ghost predicate ReadersOk(s: State) {
    forall r :: r in s.readers ==> ReaderOk(s, s.readers[r])
  }

  ghost predicate Inv(s: State) {
    FilesApart(s) && LockExclusive(s) && PhasesOk(s) && History(s) && ReadersOk(s) && OwnersOk(s) && ResultsOk(s)
  }

  // ---------- Every step keeps it

  lemma FilesStayApart(s: State, a: Action)
    requires Inv(s) && Enabled(s, a)
    ensures FilesApart(Do(s, a))
  {
    hide Apply, Load, Version, Fold, LockExclusive, History, ReadersOk, OwnersOk, ResultsOk;
    if a.Rename? {
      assert PhaseOk(s, s.writers[a.w]);
    }
  }

  lemma LockStaysExclusive(s: State, a: Action)
    requires Inv(s) && Enabled(s, a)
    ensures LockExclusive(Do(s, a))
  {
    hide Apply, Load, Version, Fold, FilesApart, PhasesOk, History, ReadersOk, OwnersOk, ResultsOk;
  }

  /** Only a rename changes what the path leads to, and it installs exactly what its writer decided. */
  lemma ContentsChangeByRenameOnly(s: State, a: Action)
    requires Inv(s) && Enabled(s, a)
    ensures !a.Rename? ==> Current(Do(s, a)) == Current(s) && Do(s, a).edits == s.edits
    ensures a.Rename? ==>
      var x := s.writers[a.w];
      && x.phase.Filled?
      && DecidedOn(s, x.edit, x.phase.next)
      && Current(Do(s, a)) == Some(Text(x.phase.next.tenants, x.phase.next.codes))
      && Do(s, a).edits == s.edits + [x.edit]
  {
    hide Apply, Load, Version, Fold, History, ReadersOk, OwnersOk, ResultsOk;
    if a.Fill? || a.Rename? {
      assert PhaseOk(s, s.writers[a.w]);
    }
  }

  /** A writer that does not move is not disturbed: another can only be at work if this one does not hold the lock. */
  lemma OthersUndisturbed(s: State, a: Action, w: nat)
    requires Inv(s) && Enabled(s, a) && w in s.writers && Do(s, a).writers[w] == s.writers[w]
      && Holding(s.writers[w].phase)
    ensures PhaseOk(Do(s, a), s.writers[w])
  {
    hide Apply, Load, Version, Fold, History, ReadersOk, OwnersOk, ResultsOk;
    ContentsChangeByRenameOnly(s, a);
    assert PhaseOk(s, s.writers[w]);
  }

  lemma MoverIsOk(s: State, a: Action, w: nat)
    requires Inv(s) && Enabled(s, a) && w in s.writers && Do(s, a).writers[w] != s.writers[w]
    ensures PhaseOk(Do(s, a), Do(s, a).writers[w])
  {
    hide Apply, Load, Version, Fold, History, LockExclusive, ReadersOk, OwnersOk, ResultsOk;
    ContentsChangeByRenameOnly(s, a);
    assert PhaseOk(s, s.writers[w]);
  }

  lemma PhasesStayOk(s: State, a: Action)
    requires Inv(s) && Enabled(s, a)
    ensures PhasesOk(Do(s, a))
  {
    hide Inv, Apply, Load;
    var t := Do(s, a);
    forall w | w in t.writers
      ensures PhaseOk(t, t.writers[w])
    {
      if w in s.writers {
        if t.writers[w] != s.writers[w] {
          MoverIsOk(s, a, w);
        } else if Holding(s.writers[w].phase) {
          OthersUndisturbed(s, a, w);
        }
      }
    }
  }

  lemma CommittedSet(s: State, e: Edit, next: TenantSet)
    requires History(s) && DecidedOn(s, e, next)
    ensures Load(s.initial).Some?
    ensures Apply(Fold(Load(s.initial).value, s.edits), e) == Ok(next)
    ensures Fold(Load(s.initial).value, s.edits + [e]) == next
  {
    hide Apply, New;
    assert s.edits[..|s.edits|] == s.edits;
    assert (s.edits + [e])[..|s.edits|] == s.edits;
    if s.edits != [] {
      var f := Fold(Load(s.initial).value, s.edits);
      assert Load(Some(Text(f.tenants, f.codes))) == Some(f) || Load(Some(Text(f.tenants, f.codes))) == None;
    }
  }

  lemma VersionUnchanged(s: State, t: State, k: nat)
    requires k <= |s.edits| && s.edits <= t.edits && t.initial == s.initial
    ensures Version(t, k) == Version(s, k)
  {
    assert t.edits[..k] == s.edits[..k];
  }

  lemma HistoryStaysOk(s: State, a: Action)
    requires Inv(s) && Enabled(s, a)
    ensures History(Do(s, a))
  {
    hide Apply, New, Fold, ReadersOk, OwnersOk, ResultsOk, PhasesOk, FilesApart, LockExclusive;
    ContentsChangeByRenameOnly(s, a);
    var t := Do(s, a);
    if a.Rename? {
      var x := s.writers[a.w];
      CommittedSet(s, x.edit, x.phase.next);
      assert t.edits[..|t.edits|] == t.edits && t.edits[..|s.edits|] == s.edits;
      forall k | 0 <= k < |t.edits|
        ensures Apply(Fold(Load(t.initial).value, t.edits[..k]), t.edits[k]).Ok?
      {
        if k < |s.edits| {
          assert t.edits[..k] == s.edits[..k] && t.edits[k] == s.edits[k];
        }
      }
    } else {
      VersionUnchanged(s, t, |s.edits|);
    }
  }

  lemma ReadersStayOk(s: State, a: Action)
    requires Inv(s) && Enabled(s, a)
    ensures ReadersOk(Do(s, a))
  {
    hide Apply, Load, Version, Fold, OwnersOk, ResultsOk;
    var t := Do(s, a);
    forall r | r in t.readers
      ensures ReaderOk(t, t.readers[r])
    {
      if a.OpenForRead? {
        VersionUnchanged(s, t, |s.edits|);
      }
      if r in s.readers {
        assert ReaderOk(s, s.readers[r]);
        VersionUnchanged(s, t, s.readers[r].version);
        if a.Fill? {
          assert PhaseOk(s, s.writers[a.w]);
        }
      }
    }
  }

  /** A step moves one writer, and only a rename makes it one that has renamed. */
  lemma WriterMoves(s: State, a: Action, w: nat)
    requires Enabled(s, a) && w in s.writers
    ensures var t := Do(s, a);
      && w in t.writers && t.writers[w].edit == s.writers[w].edit && t.writers[w].pid == s.writers[w].pid
      && (HasRenamed(t.writers[w].phase) <==> HasRenamed(s.writers[w].phase) || a == Rename(w))
  {
    hide Apply, Load;
  }

  lemma OwnersStayOk(s: State, a: Action)
    requires Inv(s) && Enabled(s, a)
    ensures OwnersOk(Do(s, a))
  {
    var t := Do(s, a);
    assert a.Rename? ==> t.owners == s.owners + [a.w] && t.edits == s.edits + [s.writers[a.w].edit];
    assert !a.Rename? ==> t.owners == s.owners && t.edits == s.edits;
    assert forall w :: w in t.writers && w !in s.writers ==> t.writers[w].phase == Queued;
    assert a.Rename? ==> !HasRenamed(s.writers[a.w].phase);
    forall w | w in s.writers
      ensures w in t.writers && t.writers[w].edit == s.writers[w].edit
      ensures HasRenamed(t.writers[w].phase) <==> HasRenamed(s.writers[w].phase) || a == Rename(w)
    {
      WriterMoves(s, a, w);
    }
    hide Do, Enabled, FilesApart, LockExclusive, PhasesOk, History, ReadersOk, ResultsOk, HasRenamed;
    OwnersGrow(s, t, a);
  }

  lemma OwnersGrow(s: State, t: State, a: Action)
    requires OwnersOk(s)
    requires a.Rename? ==> a.w in s.writers && !HasRenamed(s.writers[a.w].phase)
    requires a.Rename? ==> t.owners == s.owners + [a.w] && t.edits == s.edits + [s.writers[a.w].edit]
    requires !a.Rename? ==> t.owners == s.owners && t.edits == s.edits
    requires forall w :: w in t.writers && w !in s.writers ==> t.writers[w].phase == Queued
    requires forall w :: w in s.writers ==>
      && w in t.writers && t.writers[w].edit == s.writers[w].edit
      && (HasRenamed(t.writers[w].phase) <==> HasRenamed(s.writers[w].phase) || a == Rename(w))
    ensures OwnersOk(t)
  {
    if a.Rename? {
      assert t.owners[|s.owners|] == a.w;
      assert forall k :: 0 <= k < |s.owners| ==> t.owners[k] == s.owners[k] && s.owners[k] != a.w;
    }
  }

  lemma ResultsStayOk(s: State, a: Action)
    requires Inv(s) && Enabled(s, a)
    ensures ResultsOk(Do(s, a))
  {
    hide Apply, Load, New, Version, Fold, ReadersOk, FilesApart, LockExclusive, PhasesOk;
    ContentsChangeByRenameOnly(s, a);
    HistoryStaysOk(s, a);
    var t := Do(s, a);
    forall w | w in t.writers
      ensures ToldRight(t, w, t.writers[w].phase)
    {
      if a.Rename? && a.w == w {
        assert t.owners[|s.owners|] == w && |t.owners| == |t.edits|;
      } else if w in s.writers {
        assert ToldRight(s, w, s.writers[w].phase);
        if (s.writers[w].phase.Renamed? || s.writers[w].phase.Done?) && !t.writers[w].phase.Crashed? {
          KeepsResult(s, t, w, s.writers[w].phase);
        }
      }
    }
  }

  lemma KeepsResult(s: State, t: State, w: nat, p: Phase)
    requires ToldRight(s, w, p) && s.edits <= t.edits && s.owners <= t.owners && t.initial == s.initial
      && |t.owners| == |t.edits|
    ensures ToldRight(t, w, p)
  {
    hide Version;
    if p.Renamed? || (p.Done? && p.result.Some?) {
      var next := if p.Renamed? then p.next else p.result.value;
      var k :| 0 <= k < |s.owners| && |s.owners| == |s.edits| && s.owners[k] == w
        && Version(s, k + 1) == Some(Text(next.tenants, next.codes));
      VersionUnchanged(s, t, k + 1);
      assert t.owners[k] == w;
    }
  }

  lemma RunKeepsInv(s: State, actions: seq<Action>)
    requires Inv(s) && Runs(Do, s, actions)
    ensures Inv(Exec(Do, s, actions)) && Exec(Do, s, actions).initial == s.initial
  {
    var inv := (t: State) => Inv(t) && t.initial == s.initial;
    forall t, a | inv(t) && Enabled(t, a)
      ensures inv(Do(t, a))
    {
      StepKeepsInv(t, a);
    }
    hide Inv, Do;
    RunsKeep(Do, inv, s, actions);
  }

  lemma StepKeepsInv(s: State, a: Action)
    requires Inv(s) && Enabled(s, a)
    ensures Inv(Do(s, a)) && Do(s, a).initial == s.initial
  {
    FilesStayApart(s, a);
    LockStaysExclusive(s, a);
    PhasesStayOk(s, a);
    HistoryStaysOk(s, a);
    ReadersStayOk(s, a);
    OwnersStayOk(s, a);
    ResultsStayOk(s, a);
    hide FilesApart, LockExclusive, PhasesOk, History, ReadersOk, OwnersOk, ResultsOk, Enabled;
  }

  lemma InitInv(s: State)
    requires Init(s)
    ensures Inv(s)
  {
    hide Load, Fold, Apply;
  }

  // ---------- What every interleaving guarantees

  /**
   * The file always reads as the fold of the edits committed so far, in the
   * order of their renames, each of which succeeded on what it was applied to.
   * A writer that was told of success committed its own edit once and was given
   * the contents that commit produced; one that failed committed nothing.
   */
  lemma WritesAreLinearizable(s0: State, actions: seq<Action>)
    requires Init(s0) && Runs(Do, s0, actions)
    ensures var s := Exec(Do, s0, actions);
      && Current(s) == Version(s, |s.edits|)
      && (s.edits != [] ==> Load(s0.initial).Some? && !Unusable(s0.initial))
      && (forall k {:trigger s.edits[k]} :: 0 <= k < |s.edits| ==>
        Apply(Fold(Load(s0.initial).value, s.edits[..k]), s.edits[k]).Ok?)
      && |s.owners| == |s.edits|
      && (forall j, k :: 0 <= j < k < |s.owners| ==> s.owners[j] != s.owners[k])
      && (forall k :: 0 <= k < |s.owners| ==> s.owners[k] in s.writers && s.writers[s.owners[k]].edit == s.edits[k])
      && (forall w, next :: w in s.writers && s.writers[w].phase == Done(Some(next)) ==> ResultOk(s, w, next))
      && (forall w :: w in s.writers && s.writers[w].phase == Done(None) ==> w !in s.owners)
  {
    InitInv(s0);
    RunKeepsInv(s0, actions);
    UnusableExactly(s0.initial);
    hide Inv, Init, Do, Unusable, Load, Apply, Fold, Version, ResultOk;
    CommitsFold(Exec(Do, s0, actions));
    CommitsAreOwned(Exec(Do, s0, actions));
  }

  lemma CommitsFold(s: State)
    requires Inv(s)
    ensures Current(s) == Version(s, |s.edits|) && (s.edits != [] ==> Load(s.initial).Some?)
    ensures forall k {:trigger s.edits[k]} :: 0 <= k < |s.edits| ==>
      Apply(Fold(Load(s.initial).value, s.edits[..k]), s.edits[k]).Ok?
  {
    hide Load, Apply, Fold, Version, FilesApart, LockExclusive, PhasesOk, ReadersOk, OwnersOk, ResultsOk;
  }

  lemma CommitsAreOwned(s: State)
    requires Inv(s)
    ensures |s.owners| == |s.edits|
    ensures forall j, k :: 0 <= j < k < |s.owners| ==> s.owners[j] != s.owners[k]
    ensures forall k :: 0 <= k < |s.owners| ==> s.owners[k] in s.writers && s.writers[s.owners[k]].edit == s.edits[k]
    ensures forall w, next :: w in s.writers && s.writers[w].phase == Done(Some(next)) ==> ResultOk(s, w, next)
    ensures forall w :: w in s.writers && s.writers[w].phase == Done(None) ==> w !in s.owners
  {
    hide Load, Apply, Fold, Version, FilesApart, LockExclusive, PhasesOk, ReadersOk, History, ResultOk;
    forall w, next | w in s.writers && s.writers[w].phase == Done(Some(next))
      ensures ResultOk(s, w, next)
    {
      assert ToldRight(s, w, s.writers[w].phase);
    }
  }

  /** From a file that loads, the file loads for ever, as the fold of the committed edits, and is unambiguous. */
  lemma FileStaysValid(s0: State, actions: seq<Action>)
    requires Init(s0) && Runs(Do, s0, actions) && Load(s0.initial).Some?
    ensures var s := Exec(Do, s0, actions);
      Load(Current(s)) == Some(Fold(Load(s0.initial).value, s.edits)) && Valid(Fold(Load(s0.initial).value, s.edits))
  {
    hide Valid, Fold, Apply;
    InitInv(s0);
    RunKeepsInv(s0, actions);
    var s := Exec(Do, s0, actions);
    VersionLoads(s, |s.edits|);
    assert s.edits[..|s.edits|] == s.edits;
  }

  lemma VersionLoads(s: State, k: nat)
    requires k <= |s.edits| && Load(s.initial).Some?
    ensures Load(Version(s, k)) == Some(Fold(Load(s.initial).value, s.edits[..k]))
      && Valid(Fold(Load(s.initial).value, s.edits[..k]))
  {
    hide Apply, New, Valid;
    var first := Load(s.initial).value;
    NewAcceptsExactlyValid(first.tenants, first.codes);
    NewAcceptsExactlyValid([], []);
    EmptyIsValid();
    FoldIsValid(first, s.edits[..k]);
    var f := Fold(first, s.edits[..k]);
    NewAcceptsExactlyValid(f.tenants, f.codes);
    assert s.edits[..0] == [];
  }

  lemma LoadedIsValid(file: Option<Content>)
    requires Load(file).Some?
    ensures Valid(Load(file).value)
  {
    hide New, Valid;
    EmptyIsValid();
    var s := Load(file).value;
    NewAcceptsExactlyValid(s.tenants, s.codes);
  }

  lemma EmptyIsValid()
    ensures Valid(EMPTY_SET)
  {
  }

  /** A file that does not parse, is half written, or is not a valid set is never overwritten. */
  lemma BadFileIsLeftAlone(s0: State, actions: seq<Action>)
    requires Init(s0) && Runs(Do, s0, actions) && s0.initial.Some?
    requires match s0.initial.value
             case Partial => true
             case Garbage => true
             case Text(ts, cs) => !Valid(TenantSet(ts, cs))
    ensures Current(Exec(Do, s0, actions)) == s0.initial && Exec(Do, s0, actions).edits == []
  {
    InitInv(s0);
    RunKeepsInv(s0, actions);
    UnusableExactly(s0.initial);
  }

  /** A reader without a lock gets the contents as of its open, whole, whatever writers did meanwhile. */
  lemma ReadersSeeCommittedStates(s0: State, before: seq<Action>, r: nat, between: seq<Action>)
    requires Init(s0) && Runs(Do, s0, before)
    requires var s1 := Exec(Do, s0, before); Enabled(s1, OpenForRead(r)) && Runs(Do, Do(s1, OpenForRead(r)), between)
    requires var s2 := Exec(Do, Do(Exec(Do, s0, before), OpenForRead(r)), between); Enabled(s2, ReadOpened(r))
    ensures var s1 := Exec(Do, s0, before);
            var s3 := Do(Exec(Do, Do(s1, OpenForRead(r)), between), ReadOpened(r));
            s3.readers[r].Got? && s3.readers[r].result == Load(Current(s1))
  {
    InitInv(s0);
    RunKeepsInv(s0, before);
    var s1 := Exec(Do, s0, before);
    var reading := Do(s1, OpenForRead(r));
    StepKeepsInv(s1, OpenForRead(r));
    RunKeepsInv(reading, between);
    OpensItsVersion(s1, r);
    hide Inv, Init, Do, Enabled, Load;
    ReaderKeepsVersion(reading, r, between);
    var s2 := Exec(Do, reading, between);
    SeesVersions(s1, r);
    SeesVersions(s2, r);
    ReadsItsVersion(s1, s2, r);
  }

  lemma OpensItsVersion(s: State, r: nat)
    requires Enabled(s, OpenForRead(r))
    ensures var t := Do(s, OpenForRead(r));
      r in t.readers && t.readers[r].version == |s.edits| && t.edits == s.edits
  {
  }

  lemma SeesVersions(s: State, r: nat)
    requires Inv(s)
    ensures Current(s) == Version(s, |s.edits|) && (r in s.readers ==> ReaderOk(s, s.readers[r]))
  {
    hide Load, Version, Apply, Fold, FilesApart, LockExclusive, PhasesOk, OwnersOk, ResultsOk, ReaderOk;
  }

  lemma ReadsItsVersion(s1: State, s2: State, r: nat)
    requires s1.edits <= s2.edits && s1.initial == s2.initial && Current(s1) == Version(s1, |s1.edits|)
    requires Enabled(s2, ReadOpened(r)) && s2.readers[r].version == |s1.edits|
    requires ReaderOk(s2, s2.readers[r])
    ensures var s3 := Do(s2, ReadOpened(r)); s3.readers[r].Got? && s3.readers[r].result == Load(Current(s1))
  {
    hide Load, Version, Apply, Fold;
    VersionUnchanged(s1, s2, |s1.edits|);
  }

  lemma {:induction false} ReaderKeepsVersion(s: State, r: nat, actions: seq<Action>)
    requires Runs(Do, s, actions) && r in s.readers
    ensures var t := Exec(Do, s, actions);
      r in t.readers && t.readers[r].version == s.readers[r].version && s.edits <= t.edits
    decreases |actions|
  {
    hide Enabled, Do;
    if actions != [] {
      ReaderStepKeepsVersion(s, r, actions[0]);
      ReaderKeepsVersion(Do(s, actions[0]), r, actions[1..]);
    }
  }

  lemma ReaderStepKeepsVersion(s: State, r: nat, a: Action)
    requires Enabled(s, a) && r in s.readers
    ensures var t := Do(s, a); r in t.readers && t.readers[r].version == s.readers[r].version && s.edits <= t.edits
  {
    hide Load, Apply;
  }

  // ---------- Undisturbed, an edit is committed and a file is read

  lemma Then(f0: State, run: seq<Action>, a: Action, f: State) returns (more: seq<Action>, g: State)
    requires Runs(Do, f0, run) && Exec(Do, f0, run) == f && Enabled(f, a)
    ensures more == run + [a] && Runs(Do, f0, more) && Exec(Do, f0, more) == g == Do(f, a)
  {
    g := Do(f, a);
    more := Next(Do, f0, run, a, g);
  }

  /** Takes the lock, loads and edits. */
  lemma DecideAlone(f0: State, w: nat, pid: nat, edit: Edit, next: TenantSet) returns (run: seq<Action>, f: State)
    requires f0.lock.None? && w !in f0.writers
    requires Load(Current(f0)).Some? && Apply(Load(Current(f0)).value, edit) == Ok(next)
    ensures Runs(Do, f0, run) && Exec(Do, f0, run) == f
    ensures f == f0.(lock := Some(w), writers := f0.writers[w := Writer(pid, edit, Decided(next))])
  {
    hide Load, Apply;
    run, f := Then(f0, [], Queue(w, pid, edit), f0);
    run, f := Then(f0, run, Lock(w), f);
    run, f := Then(f0, run, ReadFile(w), f);
    run, f := Then(f0, run, RunEdit(w), f);
  }

  /** Writes the decided set aside, whatever temporary file there was. */
  lemma StageAlone(f0: State, run0: seq<Action>, s: State, w: nat) returns (run: seq<Action>, f: State)
    requires Runs(Do, f0, run0) && Exec(Do, f0, run0) == s
    requires w in s.writers && s.writers[w].phase.Decided? && forall i :: i in s.inodes ==> i < s.nextIno
    ensures Runs(Do, f0, run) && Exec(Do, f0, run) == f
    ensures
      var Writer(pid, edit, Decided(next)) := s.writers[w];
      && f.writers == s.writers[w := Writer(pid, edit, Filled(next, s.nextIno))]
      && f.tmps == s.tmps[pid := s.nextIno]
      && f.inodes == s.inodes[s.nextIno := Text(next.tenants, next.codes)]
    ensures f.edits == s.edits && f.owners == s.owners && f.lock == s.lock && f.readers == s.readers
  {
    hide Load, Apply;
    run, f := Then(f0, run0, ClearLeftover(w), s);
    run, f := Then(f0, run, CreateTmp(w), f);
    run, f := Then(f0, run, Fill(w), f);
  }

  /**
   * A writer that finds the lock free and meets no failure commits its edit if
   * the file loads and the edit applies.
   */
  lemma CommitAlone(f0: State, w: nat, pid: nat, edit: Edit, next: TenantSet) returns (run: seq<Action>, f: State)
    requires f0.lock.None? && w !in f0.writers && (forall i :: i in f0.inodes ==> i < f0.nextIno)
    requires Load(Current(f0)).Some? && Apply(Load(Current(f0)).value, edit) == Ok(next)
    ensures Runs(Do, f0, run) && Exec(Do, f0, run) == f
    ensures Current(f) == Some(Text(next.tenants, next.codes)) && f.edits == f0.edits + [edit]
    ensures f.lock.None? && f.readers == f0.readers
    ensures w in f.writers && f.writers[w] == Writer(pid, edit, Done(Some(next)))
  {
    hide Load, Apply;
    run, f := DecideAlone(f0, w, pid, edit, next);
    run, f := StageAlone(f0, run, f, w);
    run, f := Then(f0, run, Rename(w), f);
    run, f := Then(f0, run, Unlock(w), f);
  }

  lemma LockAlone(f0: State, w: nat, pid: nat, edit: Edit) returns (run: seq<Action>, f: State)
    requires f0.lock.None? && w !in f0.writers
    ensures Runs(Do, f0, run) && Exec(Do, f0, run) == f
    ensures f == f0.(lock := Some(w), writers := f0.writers[w := Writer(pid, edit, Locked)])
  {
    run, f := Then(f0, [], Queue(w, pid, edit), f0);
    run, f := Then(f0, run, Lock(w), f);
  }

  /** A writer that finds an unusable file, or whose edit does not apply, is told so and has changed nothing. */
  lemma RefuseAlone(f0: State, w: nat, pid: nat, edit: Edit) returns (run: seq<Action>, f: State)
    requires f0.lock.None? && w !in f0.writers
    requires Load(Current(f0)).Some? ==> !Unusable(Current(f0)) && Apply(Load(Current(f0)).value, edit).Err?
    ensures Runs(Do, f0, run) && Exec(Do, f0, run) == f
    ensures f == f0.(writers := f0.writers[w := Writer(pid, edit, Done(None))])
  {
    hide Load, Apply, Unusable;
    run, f := LockAlone(f0, w, pid, edit);
    run, f := Then(f0, run, ReadFile(w), f);
    if Load(Current(f0)).Some? {
      run, f := Then(f0, run, RunEdit(w), f);
    }
    run, f := Then(f0, run, Unlock(w), f);
  }

  /**
   * A writer whose file operation fails once it has decided is told so, removes
   * its temporary file if it can, frees the lock, and has changed nothing else.
   */
  lemma FailedWriteCleansUp(f0: State, w: nat, pid: nat, edit: Edit, next: TenantSet, removed: bool)
    returns (run: seq<Action>, f: State)
    requires f0.lock.None? && w !in f0.writers
    requires Load(Current(f0)).Some? && Apply(Load(Current(f0)).value, edit) == Ok(next)
    ensures Runs(Do, f0, run) && Exec(Do, f0, run) == f && IoError(w) in run && RemoveTmp(w, removed) in run
    ensures f == f0.(writers := f0.writers[w := Writer(pid, edit, Done(None))],
                     tmps := if removed then f0.tmps - {pid} else f0.tmps)
  {
    hide Load, Apply;
    run, f := DecideAlone(f0, w, pid, edit, next);
    var k := |run|;
    run, f := Then(f0, run, IoError(w), f);
    run, f := Then(f0, run, RemoveTmp(w, removed), f);
    run, f := Then(f0, run, Unlock(w), f);
    assert run[k] == IoError(w) && run[k + 1] == RemoveTmp(w, removed);
  }

  /** A writer that cannot even get the lock file is told so at once. */
  lemma UnlockableIsTold(f: State, w: nat)
    requires Enabled(f, IoError(w)) && f.writers[w].phase.Queued?
    ensures Do(f, IoError(w)) == f.(writers := f.writers[w := Writer(f.writers[w].pid, f.writers[w].edit, Done(None))])
  {
  }

  /** However the lock holder leaves, by finishing or by crashing, the lock is free again. */
  lemma LockIsFreed(s0: State, actions: seq<Action>, w: nat, a: Action)
    requires Init(s0) && Runs(Do, s0, actions) && Exec(Do, s0, actions).lock == Some(w)
    requires a in {Unlock(w), Crash(w)} && Enabled(Exec(Do, s0, actions), a)
    ensures Do(Exec(Do, s0, actions), a).lock.None?
  {
  }

  lemma ReadAlone(f0: State, r: nat) returns (run: seq<Action>, f: State)
    requires r !in f0.readers
    ensures Runs(Do, f0, run) && Exec(Do, f0, run) == f
    ensures f == f0.(readers := f0.readers[r := Got(Load(Current(f0)), |f0.edits|)])
  {
    hide Load;
    run, f := Then(f0, [], OpenForRead(r), f0);
    run, f := Then(f0, run, ReadOpened(r), f);
  }

  // ---------- One writer's critical section, carried out in place

  /** The files a store touches. `faults` decides, operation by operation, which file operations fail. */
  class Disk {
    var inodes: map<nat, Content>
    var nextIno: nat
    var path: Option<nat>
    var tmps: map<nat, nat>
    var faults: seq<bool>

    constructor (faults: seq<bool>)
      ensures Valid() && path == None && tmps == map[]
    {
      inodes, nextIno, path, tmps, this.faults := map[], 0, None, map[], faults;
    }

    ghost predicate Valid()
      reads this
    {
      && (forall i :: i in inodes ==> i < nextIno)
      && (path.Some? ==> path.value in inodes)
      && (forall pid :: pid in tmps ==> tmps[pid] in inodes && path != Some(tmps[pid]))
      && forall p, q :: p in tmps && q in tmps && p != q ==> tmps[p] != tmps[q]
    }

    function File(): Option<Content>
      requires Valid()
      reads this
    {
      if path.None? then None else Some(inodes[path.value])
    }

    /** Every other process's private file is still there and holds what it held. */
    ghost predicate OthersKept(pid: nat, oldTmps: map<nat, nat>, oldInodes: map<nat, Content>)
      reads this
    {
      forall q :: q != pid ==>
        && (q in tmps <==> q in oldTmps)
        && (q in tmps ==> tmps[q] == oldTmps[q]
                          && (tmps[q] in inodes <==> tmps[q] in oldInodes)
                          && (tmps[q] in inodes ==> inodes[tmps[q]] == oldInodes[tmps[q]]))
    }

    /** No file operation will fail. */
    predicate Sound()
      reads this
    {
      true !in faults
    }

    method Fails() returns (b: bool)
      requires Valid()
      modifies this`faults
      ensures Valid() && File() == old(File())
      ensures old(Sound()) ==> Sound() && !b
    {
      b := false;
      if faults != [] {
        b, faults := faults[0], faults[1..];
      }
    }

    // One file operation each: it fails and changes nothing, or takes effect.

    method Remove(pid: nat) returns (ok: bool)
      requires Valid()
      modifies this`tmps, this`faults
      ensures Valid() && tmps == if ok then old(tmps) - {pid} else old(tmps)
      ensures old(Sound()) ==> Sound() && ok
    {
      var fail := Fails();
      if !fail {
        tmps := tmps - {pid};
      }
      ok := !fail;
    }

    method CreateNew(pid: nat) returns (ok: bool)
      requires Valid() && pid !in tmps
      modifies this`tmps, this`inodes, this`nextIno, this`faults
      ensures Valid() && File() == old(File())
      ensures tmps == if ok then old(tmps)[pid := old(nextIno)] else old(tmps)
      ensures forall i :: i in old(inodes) ==> i in inodes && inodes[i] == old(inodes)[i]
      ensures old(Sound()) ==> Sound() && ok
    {
      var fail := Fails();
      if !fail {
        tmps, inodes, nextIno := tmps[pid := nextIno], inodes[nextIno := Partial], nextIno + 1;
      }
      ok := !fail;
    }

    method WriteTo(pid: nat, content: Content) returns (ok: bool)
      requires Valid() && pid in tmps
      modifies this`inodes, this`faults
      ensures Valid() && File() == old(File())
      ensures ok ==> inodes[tmps[pid]] == content
      ensures forall i :: i in old(inodes) && i != tmps[pid] ==> i in inodes && inodes[i] == old(inodes)[i]
      ensures old(Sound()) ==> Sound() && ok
    {
      var fail := Fails();
      if !fail {
        inodes := inodes[tmps[pid] := content];
      }
      ok := !fail;
    }

    method Rename(pid: nat) returns (ok: bool)
      requires Valid() && pid in tmps
      modifies this`tmps, this`path, this`faults
      ensures Valid() && File() == if ok then Some(inodes[old(tmps)[pid]]) else old(File())
      ensures tmps == if ok then old(tmps) - {pid} else old(tmps)
      ensures old(Sound()) ==> Sound() && ok
    {
      var fail := Fails();
      if !fail {
        path := Some(tmps[pid]);
        tmps := tmps - {pid};
      }
      ok := !fail;
    }

    /** Writes a private file afresh: any leftover goes first, and a failure may leave it half written. */
    method WritePrivate(pid: nat, content: Content) returns (ok: bool)
      requires Valid()
      modifies this`tmps, this`inodes, this`nextIno, this`faults
      ensures Valid() && File() == old(File())
      ensures old(Sound()) ==> Sound() && ok
      ensures ok ==> pid in tmps && inodes[tmps[pid]] == content
      ensures tmps - {pid} == old(tmps) - {pid}
      ensures OthersKept(pid, old(tmps), old(inodes))
    {
      ok := Remove(pid);
      if !ok {
        return;
      }
      ok := CreateNew(pid);
      if !ok {
        return;
      }
      ok := WriteTo(pid, content);
    }

    /** Writes aside and renames; what is left of a failed attempt is removed, if that works. */
    method Install(pid: nat, content: Content) returns (ok: bool)
      requires Valid()
      modifies this`tmps, this`inodes, this`nextIno, this`path, this`faults
      ensures Valid() && File() == if ok then Some(content) else old(File())
      ensures ok ==> pid !in tmps
      ensures old(Sound()) ==> ok
      ensures tmps - {pid} == old(tmps) - {pid}
      ensures OthersKept(pid, old(tmps), old(inodes))
    {
      hide Valid, Sound;
      ok := WritePrivate(pid, content);
      if ok {
        ok := Rename(pid);
      }
      if !ok {
        var _ := Remove(pid);
      }
    }

    /**
     * Under the lock: load, edit, write aside, rename. It reports success exactly
     * when the file now holds the edited set; otherwise the file is untouched.
     */
    method ReplaceWith(pid: nat, edit: Edit) returns (r: Option<TenantSet>)
      requires Valid()
      modifies this
      ensures Valid()
      ensures r.Some? ==>
        && Load(old(File())).Some? && Apply(Load(old(File())).value, edit) == Ok(r.value)
        && File() == Some(Text(r.value.tenants, r.value.codes))
        && pid !in tmps
      ensures r.None? ==> File() == old(File())
      ensures Unusable(old(File())) ==> r.None?
      ensures OthersKept(pid, old(tmps), old(inodes))
      ensures old(Sound()) ==> (r.Some? <==> Load(old(File())).Some? && Apply(Load(old(File())).value, edit).Ok?)
      ensures tmps - {pid} == old(tmps) - {pid}
    {
      UnusableExactly(File());
      hide Load, Apply, Unusable, Valid, Sound;
      var fail := Fails();
      var current := Load(File());
      if fail || current.None? {
        return None;
      }
      var next := Apply(current.value, edit);
      if next.Err? {
        return None;
      }
      ghost var before, inodesBefore := tmps, inodes;
      hide OthersKept;
      var written := Install(pid, Text(next.value.tenants, next.value.codes));
      assert OthersKept(pid, before, inodesBefore);
      return if written then Some(next.value) else None;
    }
  }
}
