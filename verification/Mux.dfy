/**
 * The multiplexer's driver task and its callers. A caller queues a waiter; the
 * driver pulls waiters into its own list, pairs them with streams the connection
 * opens, and on its way out answers everyone it still has.
 */
module Mux {
  import opened Basics
  import opened Steps

  datatype Answer = Opened(stream: nat) | Failed | Closed

  datatype Inbound = NoneYet | Incoming | Ended

  datatype Phase = Running | DrainingPending | DrainingQueue | Leaving | Gone

  /**
   * `issued` lists the waiters the channel accepted, in order; `results` what
   * the connection's outbound polls returned, in order; `cut` the waiters
   * dropped together with the channel.
   */
  datatype State = State(
    capacity: nat,
    phase: Phase,
    queue: seq<nat>,
    pending: seq<nat>,
    answers: seq<(nat, Answer)>,
    issued: seq<nat>,
    results: seq<Answer>,
    refused: set<nat>,
    cut: seq<nat>)

  datatype Action =
    | Request(w: nat)
    | Poll(outbound: Option<Answer>, inbound: Inbound)
    | Cancel
    | Drain
    | DropChannel

  function Ids(answers: seq<(nat, Answer)>): (ids: seq<nat>)
    ensures |ids| == |answers|
    ensures forall k :: 0 <= k < |answers| ==> ids[k] == answers[k].0
  {
    seq(|answers|, i requires 0 <= i < |answers| => answers[i].0)
  }

  predicate Enabled(s: State, a: Action) {
    match a
    case Request(w) => w !in s.issued && w !in s.refused
    case Poll(_, _) => s.phase.Running?
    case Cancel => s.phase.Running?
    case Drain => s.phase.DrainingPending? || s.phase.DrainingQueue?
    case DropChannel => s.phase.Leaving?
  }

  function Do(s: State, a: Action): State
    requires Enabled(s, a)
  {
    match a
    case Request(w) =>
      if s.phase.Gone? || |s.queue| >= s.capacity then s.(refused := s.refused + {w})
      else s.(queue := s.queue + [w], issued := s.issued + [w])
    case Poll(outbound, inbound) =>
      if s.pending != [] && outbound.Some?
      then s.(pending := s.pending[1..], answers := s.answers + [(s.pending[0], outbound.value)],
        results := s.results + [outbound.value])
      else if s.queue != [] then s.(queue := s.queue[1..], pending := s.pending + [s.queue[0]])
      else if inbound.Ended? then s.(phase := DrainingPending)
      else s
    case Cancel => s.(phase := DrainingPending)
    case Drain =>
      if s.phase.DrainingPending?
      then
        if s.pending != [] then s.(pending := s.pending[1..], answers := s.answers + [(s.pending[0], Closed)])
        else s.(phase := DrainingQueue)
      else
        if s.queue != [] then s.(queue := s.queue[1..], answers := s.answers + [(s.queue[0], Closed)])
        else s.(phase := Leaving)
    case DropChannel => s.(phase := Gone, queue := [], cut := s.queue)
  }

  function Start(capacity: nat): State {
    State(capacity, Running, [], [], [], [], [], {}, [])
  }

  predicate Distinct(ws: seq<nat>) {
    forall i, j :: 0 <= i < j < |ws| ==> ws[i] != ws[j]
  }

  /** Everyone issued is answered, pending, queued or cut off, and the four lists keep their order. */
  ghost predicate InOrder(s: State) {
    && s.issued == Line(s)
    && Distinct(s.issued)
    && forall w :: w in s.refused ==> w !in s.issued
  }

  ghost predicate Paired(s: State) {
    && |s.results| <= |s.answers|
    && (forall k :: 0 <= k < |s.results| ==> s.answers[k].1 == s.results[k])
    && (forall k :: |s.results| <= k < |s.answers| ==> s.answers[k].1 == Closed)
    && (s.phase.Running? ==> |s.results| == |s.answers|)
  }

  ghost predicate PhaseOk(s: State) {
    && (!s.phase.Running? && !s.phase.DrainingPending? ==> s.pending == [])
    && (s.cut != [] ==> s.phase.Gone?)
    && (s.phase.Gone? ==> s.queue == [])
  }

  ghost predicate Inv(s: State) {
    InOrder(s) && Paired(s) && PhaseOk(s)
  }

  lemma IdsAppend(answers: seq<(nat, Answer)>, x: (nat, Answer))
    ensures Ids(answers + [x]) == Ids(answers) + [x.0]
  {
  }

  function Line(s: State): seq<nat> {
    Ids(s.answers) + (s.pending + (s.queue + s.cut))
  }

  /** Answering the head of a list moves it from that list to the answers and leaves the line as it was. */
  lemma HeadAnswered(answers: seq<(nat, Answer)>, ws: seq<nat>, x: Answer, rest: seq<nat>)
    requires ws != []
    ensures Ids(answers + [(ws[0], x)]) + (ws[1..] + rest) == Ids(answers) + (ws + rest)
  {
    IdsAppend(answers, (ws[0], x));
    hide Ids;
    assert ws == [ws[0]] + ws[1..];
  }

  lemma HeadPulled(pending: seq<nat>, queue: seq<nat>, rest: seq<nat>)
    requires queue != []
    ensures pending + [queue[0]] + (queue[1..] + rest) == pending + (queue + rest)
  {
    assert queue == [queue[0]] + queue[1..];
  }

  lemma MovesKeepLine(s: State, a: Action)
    requires Enabled(s, a) && !a.Request? && PhaseOk(s)
    ensures Line(Do(s, a)) == Line(s) && Do(s, a).issued == s.issued
  {
    hide Ids;
    var t := Do(s, a);
    if |t.answers| > |s.answers| {
      if s.pending != [] {
        HeadAnswered(s.answers, s.pending, t.answers[|s.answers|].1, s.queue + s.cut);
      } else {
        HeadAnswered(s.answers, s.queue, Closed, s.cut);
        NothingBefore(s.queue + s.cut);
        NothingBefore(t.queue + t.cut);
      }
    } else if |t.pending| > |s.pending| {
      HeadPulled(s.pending, s.queue, s.cut);
    } else if a.DropChannel? {
      assert s.queue + s.cut == t.queue + t.cut;
    }
  }

  lemma NothingBefore(ws: seq<nat>)
    ensures [] + ws == ws
  {
  }

  lemma StepKeepsOrder(s: State, a: Action)
    requires Inv(s) && Enabled(s, a)
    ensures InOrder(Do(s, a))
  {
    hide Ids, Paired, Distinct;
    if a.Request? {
      DistinctAppend(s.issued, a.w);
    } else {
      MovesKeepLine(s, a);
      hide PhaseOk;
    }
  }

  lemma DistinctAppend(ws: seq<nat>, w: nat)
    requires Distinct(ws) && w !in ws
    ensures Distinct(ws + [w])
  {
  }

  lemma StepKeepsInv(s: State, a: Action)
    requires Inv(s) && Enabled(s, a)
    ensures Inv(Do(s, a))
  {
    StepKeepsOrder(s, a);
    hide Ids, Distinct, InOrder;
  }

  lemma RunKeepsInv(s: State, actions: seq<Action>)
    requires Inv(s) && Runs(Do, s, actions)
    ensures Inv(Exec(Do, s, actions))
  {
    var inv := (t: State) => Inv(t);
    forall t, a | inv(t) && Enabled(t, a)
      ensures inv(Do(t, a))
    {
      StepKeepsInv(t, a);
    }
    hide Inv, Do;
    RunsKeep(Do, inv, s, actions);
  }

  // ---------- What a run asked for and what the connection returned

  /**
   * How many waiters are in the channel and in the driver's list, and whether the driver runs:
   * as far as counting goes.
   */
  datatype Count = Count(queued: nat, pending: nat, phase: Phase)

  /**
   * One action, counted: a call adds to the channel if there is room; a pass serves, else
   * pulls, else may find the end.
   */
  function Tick(c: Count, capacity: nat, a: Action): Count {
    match a
    case Request(_) => if c.phase != Gone && c.queued < capacity then c.(queued := c.queued + 1) else c
    case Poll(outbound, inbound) =>
      if Serves(c, a) then c.(pending := c.pending - 1)
      else if c.queued > 0 then c.(queued := c.queued - 1, pending := c.pending + 1)
      else if inbound == Ended then c.(phase := DrainingPending)
      else c
    case Cancel => c.(phase := DrainingPending)
    case Drain =>
      if c.phase == DrainingPending then
        if c.pending > 0 then c.(pending := c.pending - 1) else c.(phase := DrainingQueue)
      else if c.queued > 0 then c.(queued := c.queued - 1)
      else c.(phase := Leaving)
    case DropChannel => c.(phase := Gone, queued := 0)
  }

  /** A pass that finds somebody waiting and the connection with a result. */
  predicate Serves(c: Count, a: Action) {
    a.Poll? && a.outbound != None && c.pending > 0
  }

  /** What the connection returned to the passes of a run that found somebody waiting, in order. */
  function Outcomes(c: Count, capacity: nat, actions: seq<Action>): seq<Answer>
    decreases |actions|
  {
    if actions == [] then []
    else (if Serves(c, actions[0]) then [actions[0].outbound.value] else [])
         + Outcomes(Tick(c, capacity, actions[0]), capacity, actions[1..])
  }

  /** The callers of a run that found the driver there and room in the channel, in order. */
  function Accepted(c: Count, capacity: nat, actions: seq<Action>): seq<nat>
    decreases |actions|
  {
    if actions == [] then []
    else (if actions[0].Request? && c.phase != Gone && c.queued < capacity then [actions[0].w] else [])
         + Accepted(Tick(c, capacity, actions[0]), capacity, actions[1..])
  }

  function CountOf(s: State): Count {
    Count(|s.queue|, |s.pending|, s.phase)
  }

  lemma StepCounts(s: State, a: Action)
    requires Enabled(s, a)
    ensures var t := Do(s, a);
      && CountOf(t) == Tick(CountOf(s), s.capacity, a) && t.capacity == s.capacity
      && t.results == s.results + (if Serves(CountOf(s), a) then [a.outbound.value] else [])
      && t.issued == s.issued + (if a.Request? && s.phase != Gone && |s.queue| < s.capacity then [a.w] else [])
  {
  }

  lemma {:induction false} RunCounts(s: State, actions: seq<Action>)
    requires Runs(Do, s, actions)
    ensures var t := Exec(Do, s, actions);
      && t.results == s.results + Outcomes(CountOf(s), s.capacity, actions)
      && t.issued == s.issued + Accepted(CountOf(s), s.capacity, actions)
    decreases |actions|
  {
    if actions != [] {
      StepCounts(s, actions[0]);
      var t := Do(s, actions[0]);
      hide Do, Enabled, Tick, CountOf;
      RunCounts(t, actions[1..]);
    }
  }

  /** Passes with nobody to serve and nobody to pull leave the driver running exactly until the connection has ended. */
  lemma StopsExactlyAtTheEnd(s: State, outbound: Option<Answer>, inbound: Inbound)
    requires s.phase == Running
    ensures Do(s, Poll(outbound, inbound)).phase
         == if inbound == Ended && s.queue == []
           && (s.pending == [] || outbound == None) then DrainingPending else Running
  {
  }

  /**
   * A call that finds the driver there and room, is pulled, and is served when the connection
   * opens a stream, gets that stream.
   */
  lemma OpenedStreamArrives(capacity: nat, w: nat, stream: nat) returns (run: seq<Action>)
    requires capacity > 0
    ensures run == [Request(w), Poll(None, NoneYet), Poll(Some(Opened(stream)), NoneYet)]
    ensures Runs(Do, Start(capacity), run) && Exec(Do, Start(capacity), run).answers == [(w, Opened(stream))]
  {
    var s0 := Start(capacity);
    var s1 := Do(s0, Request(w));
    var s2 := Do(s1, Poll(None, NoneYet));
    var s3 := Do(s2, Poll(Some(Opened(stream)), NoneYet));
    run := Then(s0, [], Request(w), s0, s1);
    run := Then(s0, run, Poll(None, NoneYet), s1, s2);
    run := Then(s0, run, Poll(Some(Opened(stream)), NoneYet), s2, s3);
  }

  lemma Then(s0: State, run: seq<Action>, a: Action, s: State, t: State) returns (more: seq<Action>)
    requires Runs(Do, s0, run) && Exec(Do, s0, run) == s && Enabled(s, a) && Do(s, a) == t
    ensures more == run + [a] && Runs(Do, s0, more) && Exec(Do, s0, more) == t
  {
    more := Next(Do, s0, run, a, t);
  }

  /**
   * In every run, whatever the connection does and whenever it stops: the
   * waiters answered are the first of the callers accepted, in order and none
   * twice; the k-th gets what the connection returned to the k-th pass that found
   * somebody waiting; and those without one get Closed.
   */
  lemma AnsweredInOrder(capacity: nat, actions: seq<Action>)
    requires Runs(Do, Start(capacity), actions)
    ensures var s := Exec(Do, Start(capacity), actions);
            var accepted := Accepted(Count(0, 0, Running), capacity, actions);
            var outcomes := Outcomes(Count(0, 0, Running), capacity, actions);
      && s.issued == accepted && s.results == outcomes
      && Distinct(accepted)
      && |outcomes| <= |s.answers| <= |accepted|
      && (forall k :: 0 <= k < |s.answers| ==>
           s.answers[k] == (accepted[k], if k < |outcomes| then outcomes[k] else Closed))
      && accepted[|s.answers|..] == s.pending + s.queue + s.cut
      && (s.phase.Running? ==> |outcomes| == |s.answers|)
  {
    RunKeepsInv(Start(capacity), actions);
    RunCounts(Start(capacity), actions);
    hide Accepted, Outcomes;
    hide Distinct, Ids, Runs, Exec, PhaseOk;
    var s := Exec(Do, Start(capacity), actions);
    assert s.pending + s.queue + s.cut == s.pending + (s.queue + s.cut);
    forall k | 0 <= k < |s.answers|
      ensures s.issued[k] == s.answers[k].0
    {
      assert s.issued[k] == Ids(s.answers)[k];
    }
  }

  /** Once the driver is gone every caller has an outcome: turned away, answered, or cut off with the channel. */
  lemma NobodyWaitsForever(capacity: nat, actions: seq<Action>, w: nat)
    requires Runs(Do, Start(capacity), actions) && Exec(Do, Start(capacity), actions).phase.Gone?
    requires w in Exec(Do, Start(capacity), actions).issued
    ensures var s := Exec(Do, Start(capacity), actions);
      && (w in s.cut <==> !exists k :: 0 <= k < |s.answers| && s.answers[k].0 == w)
      && (forall j, k :: 0 <= j < k < |s.answers| && s.answers[j].0 == w ==> s.answers[k].0 != w)
      && w !in s.refused
  {
    RunKeepsInv(Start(capacity), actions);
    AnsweredInOrder(capacity, actions);
    hide Accepted, Outcomes, Runs, Exec, Ids;
    OutcomesSplit(Exec(Do, Start(capacity), actions), w);
  }

  lemma OutcomesSplit(s: State, w: nat)
    requires Distinct(s.issued) && |s.answers| <= |s.issued| && w in s.issued && s.issued[|s.answers|..] == s.cut
    requires forall k :: 0 <= k < |s.answers| ==> s.answers[k].0 == s.issued[k]
    ensures w in s.cut <==> !exists k :: 0 <= k < |s.answers| && s.answers[k].0 == w
    ensures forall j, k :: 0 <= j < k < |s.answers| && s.answers[j].0 == w ==> s.answers[k].0 != w
  {
    var i :| 0 <= i < |s.issued| && s.issued[i] == w;
    assert forall j :: 0 <= j < |s.cut| ==> s.cut[j] == s.issued[|s.answers| + j];
    if i < |s.answers| {
      assert s.answers[i].0 == w;
    } else {
      assert s.cut[i - |s.answers|] == w;
    }
  }

  /** The driver's own state, changed in place. */
  class Driver {
    const capacity: nat
    var phase: Phase
    var queue: seq<nat>
    var pending: seq<nat>
    var answers: seq<(nat, Answer)>
    ghost var issued: seq<nat>
    ghost var results: seq<Answer>
    ghost var refused: set<nat>
    ghost var cut: seq<nat>

    constructor (capacity: nat)
      ensures View() == Start(capacity)
    {
      this.capacity := capacity;
      phase, queue, pending, answers := Running, [], [], [];
      issued, results, refused, cut := [], [], {}, [];
    }

    ghost function View(): State
      reads this
    {
      State(capacity, phase, queue, pending, answers, issued, results, refused, cut)
    }

    /** A caller's try_send. */
    method TrySend(w: nat) returns (ok: bool)
      requires Enabled(View(), Request(w))
      modifies this
      ensures View() == Do(old(View()), Request(w)) && ok == (w in issued)
      ensures ok <==> old(phase != Gone && |queue| < capacity)
      ensures queue == if ok then old(queue) + [w] else old(queue)
    {
      ok := !phase.Gone? && |queue| < capacity;
      if ok {
        queue := queue + [w];
        issued := issued + [w];
      } else {
        refused := refused + {w};
      }
    }

    /** One pass of the driver: at most one waiter served, else one pulled, else one inbound event. */
    method PollOnce(outbound: Option<Answer>, inbound: Inbound)
      requires Enabled(View(), Poll(outbound, inbound))
      modifies this
      ensures View() == Do(old(View()), Poll(outbound, inbound))
      ensures outbound.Some? && old(pending) != [] ==>
        pending == old(pending)[1..] && answers == old(answers) + [(old(pending)[0], outbound.value)]
      ensures outbound.None? || old(pending) == [] ==> answers == old(answers)
      ensures phase == Running <==> inbound != Ended || old(queue) != [] || (old(pending) != [] && outbound.Some?)
    {
      if pending != [] && outbound.Some? {
        var waiter := pending[0];
        pending := pending[1..];
        answers := answers + [(waiter, outbound.value)];
        results := results + [outbound.value];
        return;
      }
      if queue != [] {
        var waiter := queue[0];
        queue := queue[1..];
        pending := pending + [waiter];
        return;
      }
      if inbound.Ended? {
        phase := DrainingPending;
      }
    }

    /** Stopping: everyone in the driver's list, then everyone still in the channel, is told it is closed. */
    method Stop()
      requires phase.Running? && Inv(View())
      modifies this
      ensures Inv(View()) && phase == Gone && pending == [] && queue == [] && cut == []
      ensures |answers| == |issued| && issued == old(issued) && results == old(results)
      ensures old(answers) <= answers && forall k :: |old(answers)| <= k < |answers| ==> answers[k].1 == Closed
    {
      hide Ids;
      StepKeepsInv(View(), Cancel);
      phase := DrainingPending;
      while pending != []
        invariant Inv(View()) && phase == DrainingPending
        invariant issued == old(issued) && results == old(results) && old(answers) <= answers
        decreases |pending|
      {
        StepKeepsInv(View(), Drain);
        answers := answers + [(pending[0], Closed)];
        pending := pending[1..];
      }
      StepKeepsInv(View(), Drain);
      phase := DrainingQueue;
      while queue != []
        invariant Inv(View()) && phase == DrainingQueue
        invariant issued == old(issued) && results == old(results) && old(answers) <= answers
        decreases |queue|
      {
        StepKeepsInv(View(), Drain);
        answers := answers + [(queue[0], Closed)];
        queue := queue[1..];
      }
      StepKeepsInv(View(), Drain);
      phase := Leaving;
      StepKeepsInv(View(), DropChannel);
      phase, cut := Gone, queue;
    }
  }
}
