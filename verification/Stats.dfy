/**
 * Byte totals under races: connections are opened, count bytes and are closed
 * (load the counter, add it to the total, leave the live list) while a reader
 * sums the live counters under the list's lock and then loads the total. A
 * connection's copy task may still be counting when, and after, its close loads
 * the counter. One direction is modelled; the other runs beside it in the same way.
 */
module Stats {
  import opened Basics
  import opened Steps

  const MAX_LOG_LINES := 500

  /**
   * Registered but not yet listed; listed; counter loaded for closing; what was loaded added
   * to the total; off the list.
   */
  datatype Stage = Opening | Live | Loaded(loaded: nat) | Added(loaded: nat) | Removed(loaded: nat)

  datatype Conn = Conn(bytes: nat, stage: Stage)

  /** A reader holding the list's lock has summed the listed counters below `next`. */
  datatype Reader = Idle | Reading(next: nat, sum: int, trueAtStart: int) | Answered(reported: int, trueAtStart: int)

  datatype State = State(conns: seq<Conn>, total: nat, reader: Reader)

  datatype Action =
    | Open
    | List(c: nat)
    | Count(c: nat, n: nat)
    | Load(c: nat)
    | Add(c: nat)
    | Remove(c: nat)
    | LockList
    | SumNext
    | LoadTotal

  predicate Listed(c: Conn) {
    c.stage.Live? || c.stage.Loaded? || c.stage.Added?
  }

  predicate Locked(s: State) {
    s.reader.Reading?
  }

  /**
   * The counter moves at any time once the connection was handed out; nothing leaves or joins
   * the list under the reader's lock.
   */
  predicate Enabled(s: State, a: Action) {
    match a
    case Open => true
    case List(c) => c < |s.conns| && s.conns[c].stage.Opening? && !Locked(s)
    case Count(c, _) => c < |s.conns| && !s.conns[c].stage.Opening?
    case Load(c) => c < |s.conns| && s.conns[c].stage.Live?
    case Add(c) => c < |s.conns| && s.conns[c].stage.Loaded?
    case Remove(c) => c < |s.conns| && s.conns[c].stage.Added? && !Locked(s)
    case LockList => !Locked(s)
    case SumNext => Locked(s) && s.reader.next < |s.conns|
    case LoadTotal => Locked(s) && s.reader.next == |s.conns|
  }

  function Put(s: State, c: nat, x: Conn): State
    requires c < |s.conns|
  {
    s.(conns := s.conns[c := x])
  }

  function Do(s: State, a: Action): State
    requires Enabled(s, a)
  {
    match a
    case Open => s.(conns := s.conns + [Conn(0, Opening)])
    case List(c) => Put(s, c, s.conns[c].(stage := Live))
    case Count(c, n) => Put(s, c, s.conns[c].(bytes := s.conns[c].bytes + n))
    case Load(c) => Put(s, c, s.conns[c].(stage := Loaded(s.conns[c].bytes)))
    case Add(c) =>
      var loaded := s.conns[c].stage.loaded;
      Put(s, c, s.conns[c].(stage := Added(loaded))).(total := s.total + loaded)
    case Remove(c) => Put(s, c, s.conns[c].(stage := Removed(s.conns[c].stage.loaded)))
    case LockList => s.(reader := Reading(0, 0, TrueTotal(s)))
    case SumNext =>
      var Reading(next, sum, start) := s.reader;
      s.(reader := Reading(next + 1, sum + OnList(s.conns[next]), start))
    case LoadTotal => s.(reader := Answered(s.total + s.reader.sum, s.reader.trueAtStart))
  }

  const EMPTY := State([], 0, Idle)

  // ---------- Sums over the connections

  /** What the connections from `from` on come to under `weight`. */
  function Sum(conns: seq<Conn>, from: nat, weight: Conn -> int): int
    requires from <= |conns|
    decreases |conns| - from
  {
    if from == |conns| then 0 else weight(conns[from]) + Sum(conns, from + 1, weight)
  }

  function Bytes(c: Conn): int { c.bytes }

  function OnList(c: Conn): int { if Listed(c) then c.bytes else 0 }

  function OffList(c: Conn): int { if c.stage.Removed? then c.bytes else 0 }

  function InTotal(c: Conn): int { if c.stage.Added? || c.stage.Removed? then c.stage.loaded else 0 }

  function Twice(c: Conn): int { if c.stage.Added? then c.stage.loaded else 0 }

  function Missed(c: Conn): int { if c.stage.Removed? then c.bytes - c.stage.loaded else 0 }

  /** Every byte counted so far, on every connection ever opened. */
  function TrueTotal(s: State): int {
    Sum(s.conns, 0, Bytes)
  }

  /** What was added to the total for connections still listed: a reader of that moment counts it twice. */
  function MidClose(s: State): int {
    Sum(s.conns, 0, Twice)
  }

  /**
   * Bytes of connections off the list, counted after their close had loaded the counter:
   * nothing reports them any more.
   */
  function Late(s: State): int {
    Sum(s.conns, 0, Missed)
  }

  lemma {:induction false} SumUpdate(conns: seq<Conn>, c: nat, x: Conn, from: nat, weight: Conn -> int)
    requires from <= |conns| && c < |conns|
    ensures Sum(conns[c := x], from, weight) == Sum(conns, from, weight) + if from <= c
      then weight(x) - weight(conns[c]) else 0
    decreases |conns| - from
  {
    if from < |conns| {
      SumUpdate(conns, c, x, from + 1, weight);
    }
  }

  lemma {:induction false} SumAppend(conns: seq<Conn>, x: Conn, from: nat, weight: Conn -> int)
    requires from <= |conns|
    ensures Sum(conns + [x], from, weight) == Sum(conns, from, weight) + weight(x)
    decreases |conns| - from
  {
    if from < |conns| {
      SumAppend(conns, x, from + 1, weight);
    } else {
      assert Sum(conns + [x], |conns| + 1, weight) == 0;
    }
  }

  /** Every byte is on the list or off it, and what is in the total is there twice, or off the list and not missed. */
  lemma {:induction false} SumSplits(conns: seq<Conn>, from: nat)
    requires from <= |conns| && forall k :: 0 <= k < |conns| ==> ConnOk(conns[k])
    ensures Sum(conns, from, Bytes) == Sum(conns, from, OnList) + Sum(conns, from, OffList)
    ensures Sum(conns, from, InTotal) == Sum(conns, from, Twice) + Sum(conns, from, OffList) - Sum(conns, from, Missed)
    ensures Sum(conns, from, Bytes) >= 0 && Sum(conns, from, Twice) >= 0 && Sum(conns, from, Missed) >= 0
    ensures Sum(conns, from, InTotal) >= 0
    decreases |conns| - from
  {
    if from < |conns| {
      SumSplits(conns, from + 1);
    }
  }

  // ---------- Invariant

  predicate ConnOk(c: Conn) {
    match c.stage
    case Opening => c.bytes == 0
    case Live => true
    case _ => c.stage.loaded <= c.bytes
  }

  ghost predicate ReaderOk(s: State) {
    match s.reader
    case Reading(next, sum, start) =>
      && next <= |s.conns|
      && start <= sum + Sum(s.conns, next, OnList) + Sum(s.conns, 0, OffList)
      && sum + Sum(s.conns, next, OnList) <= Sum(s.conns, 0, OnList)
    case _ => true
  }

  ghost predicate Inv(s: State) {
    && (forall k :: 0 <= k < |s.conns| ==> ConnOk(s.conns[k]))
    && s.total == Sum(s.conns, 0, InTotal)
    && ReaderOk(s)
  }

  lemma SumsAfter(s: State, a: Action, from: nat, weight: Conn -> int)
    requires Enabled(s, a) && from <= |s.conns|
    ensures var t := Do(s, a);
      && |s.conns| <= |t.conns|
      && Sum(t.conns, from, weight) == Sum(s.conns, from, weight)
        + if a.Open? then weight(Conn(0, Opening))
          else if (a.List? || a.Count? || a.Load? || a.Add? || a.Remove?) && from <= a.c
          then weight(t.conns[a.c]) - weight(s.conns[a.c])
          else 0
  {
    match a
    case Open => SumAppend(s.conns, Conn(0, Opening), from, weight);
    case List(c) => SumUpdate(s.conns, c, Do(s, a).conns[c], from, weight);
    case Count(c, _) => SumUpdate(s.conns, c, Do(s, a).conns[c], from, weight);
    case Load(c) => SumUpdate(s.conns, c, Do(s, a).conns[c], from, weight);
    case Add(c) => SumUpdate(s.conns, c, Do(s, a).conns[c], from, weight);
    case Remove(c) => SumUpdate(s.conns, c, Do(s, a).conns[c], from, weight);
    case _ =>
  }

  lemma StepKeepsInv(s: State, a: Action)
    requires Inv(s) && Enabled(s, a)
    ensures Inv(Do(s, a))
  {
    hide Sum;
    SumsAfter(s, a, 0, InTotal);
    SumsAfter(s, a, 0, OffList);
    SumsAfter(s, a, 0, OnList);
    if s.reader.Reading? {
      SumsAfter(s, a, s.reader.next, OnList);
    }
    if a.SumNext? {
      SumFrom(s.conns, s.reader.next, OnList);
    }
    if a.LockList? {
      SumSplits(s.conns, 0);
    }
  }

  lemma SumFrom(conns: seq<Conn>, from: nat, weight: Conn -> int)
    requires from < |conns|
    ensures Sum(conns, from, weight) == weight(conns[from]) + Sum(conns, from + 1, weight)
  {
  }

  lemma RunKeepsInv(s: State, actions: seq<Action>)
    requires Inv(s) && Runs(Do, s, actions)
    ensures Inv(Exec(Do, s, actions))
  {
    var inv := (t: State) => Inv(t);
    forall t, a | inv(t) && Enabled(t, a)
      ensures inv(Do(t, a))
    {
      StepKeepsInv(t, a);
    }
    hide Inv, Do;
    RunsKeep(Do, inv, s, actions);
  }

  /**
   * What a reader reports, with the late bytes it cannot see, is at least every
   * byte counted when it took the lock and at most every byte counted by the
   * time it answers, both with the connections just then between being added to
   * the total and leaving the list counted twice.
   */
  lemma TotalsAreBounded(actions: seq<Action>)
    requires Runs(Do, EMPTY, actions) && Enabled(Exec(Do, EMPTY, actions), LoadTotal)
    ensures var s := Exec(Do, EMPTY, actions);
            var reported := Do(s, LoadTotal).reader.reported;
      && s.reader.trueAtStart + MidClose(s) <= reported + Late(s) <= TrueTotal(s) + MidClose(s)
      && MidClose(s) >= 0 && Late(s) >= 0
  {
    RunKeepsInv(EMPTY, actions);
    SumSplits(Exec(Do, EMPTY, actions).conns, 0);
  }

  /**
   * With no byte counted since it took the lock, a reader reports every byte but
   * the late ones, and those of closes half done once more. So it reports no
   * less than the true total if and only if what is late is no more than what is
   * half closed, and the exact total if and only if the two are equal.
   */
  lemma TotalsAreExactAtRest(actions: seq<Action>)
    requires Runs(Do, EMPTY, actions) && Enabled(Exec(Do, EMPTY, actions), LoadTotal)
    requires Exec(Do, EMPTY, actions).reader.trueAtStart == TrueTotal(Exec(Do, EMPTY, actions))
    ensures var s := Exec(Do, EMPTY, actions);
            var reported := Do(s, LoadTotal).reader.reported;
      && reported + Late(s) == TrueTotal(s) + MidClose(s)
      && (s.reader.trueAtStart <= reported <==> Late(s) <= MidClose(s))
      && (reported == TrueTotal(s) <==> Late(s) == MidClose(s))
  {
    TotalsAreBounded(actions);
  }

  /** No counter moved once the close of its connection had loaded it. */
  predicate StillAfterLoad(s: State, actions: seq<Action>)
    requires Runs(Do, s, actions)
    decreases |actions|
  {
    actions == [] ||
    (Enabled(s, actions[0]) && (actions[0].Count? ==> s.conns[actions[0].c].stage.Live?)
      && StillAfterLoad(Do(s, actions[0]), actions[1..]))
  }

  predicate NoneLate(s: State) {
    forall k :: 0 <= k < |s.conns| ==>
      match s.conns[k].stage
      case Opening => true
      case Live => true
      case _ => s.conns[k].stage.loaded == s.conns[k].bytes
  }

  lemma {:induction false} StillMeansNoneLate(s: State, actions: seq<Action>)
    requires NoneLate(s) && Runs(Do, s, actions) && StillAfterLoad(s, actions)
    ensures NoneLate(Exec(Do, s, actions))
    decreases |actions|
  {
    if actions != [] {
      assert NoneLate(Do(s, actions[0])) by {
        hide Sum;
      }
      hide NoneLate, Enabled, Do;
      StillMeansNoneLate(Do(s, actions[0]), actions[1..]);
    }
  }

  lemma {:induction false} NoneLateSum(conns: seq<Conn>, from: nat)
    requires from <= |conns| && forall k :: 0 <= k < |conns| && conns[k].stage.Removed? ==>
      conns[k].stage.loaded == conns[k].bytes
    ensures Sum(conns, from, Missed) == 0
    decreases |conns| - from
  {
    if from < |conns| {
      NoneLateSum(conns, from + 1);
    }
  }

  /**
   * Where every copy task has stopped counting before its connection is closed, nothing is
   * late and no byte is under-reported.
   */
  lemma StillCountersAreNeverMissed(actions: seq<Action>)
    requires Runs(Do, EMPTY, actions) && Enabled(Exec(Do, EMPTY, actions), LoadTotal) && StillAfterLoad(EMPTY, actions)
    ensures var s := Exec(Do, EMPTY, actions);
            var reported := Do(s, LoadTotal).reader.reported;
      && s.reader.trueAtStart <= reported <= TrueTotal(s) + MidClose(s)
      && (s.reader.trueAtStart == TrueTotal(s) ==> (reported == TrueTotal(s) <==> MidClose(s) == 0))
  {
    TotalsAreBounded(actions);
    StillMeansNoneLate(EMPTY, actions);
    NoneLateSum(Exec(Do, EMPTY, actions).conns, 0);
  }

  /** The excess is real: a reader between the two halves of a close reports its bytes twice. */
  lemma MidCloseCountsTwice(n: nat) returns (actions: seq<Action>)
    ensures Runs(Do, EMPTY, actions) && Enabled(Exec(Do, EMPTY, actions), LoadTotal)
    ensures TrueTotal(Exec(Do, EMPTY, actions)) == n && Do(Exec(Do, EMPTY, actions), LoadTotal).reader.reported == 2 * n
  {
    assert Sum([Conn(n, Added(n))], 1, Bytes) == 0;
    actions := Loading(n);
    actions := Then(actions, Add(0), State([Conn(n, Added(n))], n, Idle));
    actions := Then(actions, LockList, State([Conn(n, Added(n))], n, Reading(0, 0, n)));
    actions := Then(actions, SumNext, State([Conn(n, Added(n))], n, Reading(1, n, n)));
  }

  /**
   * The shortfall is real: bytes counted between the load and the end of a close are missing
   * from every later total.
   */
  lemma LateBytesAreMissed(n: nat, late: nat) returns (actions: seq<Action>)
    ensures Runs(Do, EMPTY, actions) && Enabled(Exec(Do, EMPTY, actions), LoadTotal)
    ensures Exec(Do, EMPTY, actions).reader.trueAtStart == TrueTotal(Exec(Do, EMPTY, actions)) == n + late
    ensures Do(Exec(Do, EMPTY, actions), LoadTotal).reader.reported == n
  {
    var all := n + late;
    assert Sum([Conn(all, Removed(n))], 1, Bytes) == 0;
    actions := Loading(n);
    actions := Then(actions, Count(0, late), State([Conn(all, Loaded(n))], 0, Idle));
    actions := Then(actions, Add(0), State([Conn(all, Added(n))], n, Idle));
    actions := Then(actions, Remove(0), State([Conn(all, Removed(n))], n, Idle));
    actions := Then(actions, LockList, State([Conn(all, Removed(n))], n, Reading(0, 0, all)));
    actions := Then(actions, SumNext, State([Conn(all, Removed(n))], n, Reading(1, 0, all)));
  }

  lemma Loading(n: nat) returns (actions: seq<Action>)
    ensures Runs(Do, EMPTY, actions) && Exec(Do, EMPTY, actions) == State([Conn(n, Loaded(n))], 0, Idle)
  {
    actions := Then([], Open, State([Conn(0, Opening)], 0, Idle));
    actions := Then(actions, List(0), State([Conn(0, Live)], 0, Idle));
    actions := Then(actions, Count(0, n), State([Conn(n, Live)], 0, Idle));
    actions := Then(actions, Load(0), State([Conn(n, Loaded(n))], 0, Idle));
  }

  lemma Then(actions: seq<Action>, a: Action, t: State) returns (more: seq<Action>)
    requires Runs(Do, EMPTY, actions) && Enabled(Exec(Do, EMPTY, actions), a) && Do(Exec(Do, EMPTY, actions), a) == t
    ensures more == actions + [a] && Runs(Do, EMPTY, more) && Exec(Do, EMPTY, more) == t
  {
    more := Next(Do, EMPTY, actions, a, t);
  }

  // ---------- The registry, updated in place

  class Registry {
    var conns: seq<Conn>
    var total: nat
    var reader: Reader

    constructor ()
      ensures View() == EMPTY
    {
      conns, total, reader := [], 0, Idle;
    }

    ghost function View(): State
      reads this
    {
      State(conns, total, reader)
    }

    /** The three steps of a close, with nothing in between: no byte is lost and none is counted twice. */
    method Close(c: nat)
      requires Inv(View()) && Enabled(View(), Load(c)) && !Locked(View())
      modifies this
      ensures Inv(View()) && TrueTotal(View()) == old(TrueTotal(View()))
      ensures MidClose(View()) == old(MidClose(View())) && Late(View()) == old(Late(View()))
      ensures conns == old(conns)[c := old(conns)[c].(stage := Removed(old(conns)[c].bytes))]
        && total == old(total) + old(conns)[c].bytes
    {
      hide Sum;
      var bytes := conns[c].bytes;
      StepKeepsInv(View(), Load(c));
      ghost var s1 := Do(View(), Load(c));
      StepKeepsInv(s1, Add(c));
      ghost var s2 := Do(s1, Add(c));
      StepKeepsInv(s2, Remove(c));
      var closed := conns[c].(stage := Removed(bytes));
      SumUpdate(conns, c, closed, 0, Bytes);
      SumUpdate(conns, c, closed, 0, Twice);
      SumUpdate(conns, c, closed, 0, Missed);
      conns := conns[c := conns[c].(stage := Loaded(bytes))];
      total := total + bytes;
      conns := conns[c := conns[c].(stage := Added(bytes))];
      conns := conns[c := conns[c].(stage := Removed(bytes))];
      assert conns == old(conns)[c := closed];
      assert View() == Do(s2, Remove(c));
    }

    /**
     * Uninterrupted, a reader reports every byte counted once, but for the late ones, and
     * those of closes it found half done once more.
     */
    method Totals() returns (reported: int)
      requires Inv(View()) && !Locked(View())
      ensures reported + Late(View()) == TrueTotal(View()) + MidClose(View())
    {
      var sum := 0;
      SumSplits(conns, 0);
      for i := 0 to |conns|
        invariant sum + Sum(conns, i, OnList) == Sum(conns, 0, OnList)
      {
        if Listed(conns[i]) {
          sum := sum + conns[i].bytes;
        }
      }
      reported := total + sum;
    }
  }

  // ---------- The event log

  /** The registry's log: a bounded queue of lines. */
  class EventLog {
    var lines: seq<string>
    ghost var history: seq<string>

    ghost predicate Valid()
      reads this
    {
      lines == history[if |history| > 500 then |history| - 500 else 0..]
    }

    constructor ()
      ensures Valid() && history == []
    {
      lines, history := [], [];
    }

    /** The log is always the last lines pushed, five hundred of them once there were so many. */
    method Push(line: string)
      requires Valid()
      modifies this
      ensures Valid() && history == old(history) + [line]
    {
      if |lines| >= MAX_LOG_LINES {
        lines := lines[1..];
      }
      lines := lines + [line];
      history := history + [line];
    }
  }
}
