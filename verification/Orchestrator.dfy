/**
  The worker of src/cross_feature_orchestrator.cpp: callers ask for a pass, one
  thread runs the registered consumers in order, and a failing consumer is
  recorded without stopping the others.

  Every critical section is one atomic step, so wakes and stop requests fall
  anywhere, also between two consumers of a running pass.
 */
module Orchestrator {

  datatype Consumer = Consumer(degraded: bool, backlog: bool, failures: nat)

  /** How a consumer ends: it returns its backlog flag or throws. */
  datatype Ending = Returned(backlog: bool) | Threw

  function Recorded(c: Consumer, e: Ending): Consumer {
    match e
    case Returned(backlog) => Consumer(false, backlog, c.failures)
    case Threw => Consumer(true, true, c.failures + 1)
  }

  datatype Worker = Absent | Waiting | Passing(next: nat, more: bool) | Exited

  datatype State = State(
    consumers: seq<Consumer>, worker: Worker, running: bool, stopping: bool, wakeRequested: bool,
    completedPasses: nat, failedConsumers: nat, calls: seq<nat>)

  datatype Event =
    | Start
    | Wake
    | StopRequested
    | Joined
    | WaitEnds(timedOut: bool)
    | ConsumerEnds(ending: Ending)
    | PassEnds

  function Started(s: State): State {
    if s.running || s.worker != Absent then s    // logic_error
    else s.(stopping := false, running := true, wakeRequested := true, worker := Waiting)
  }

  function Stopped(s: State): State {
    if s.worker == Absent then s.(running := false) else s.(stopping := true, wakeRequested := true)
  }

  /** The wait returns on its predicate or on the recovery interval. */
  predicate MayWake(s: State, timedOut: bool) {
    s.worker == Waiting && (timedOut || s.stopping || s.wakeRequested)
  }

  function AfterWait(s: State): State {
    if s.stopping then s.(worker := Exited) else s.(wakeRequested := false, worker := Passing(0, false))
  }

  predicate MayCall(s: State) {
    s.worker.Passing? && s.worker.next < |s.consumers|
  }

  function AfterConsumer(s: State, e: Ending): State
    requires MayCall(s)
  {
    var k := s.worker.next;
    s.(consumers := s.consumers[k := Recorded(s.consumers[k], e)],
       failedConsumers := s.failedConsumers + (if e.Threw? then 1 else 0),
       worker := Passing(k + 1, s.worker.more || (e.Returned? && e.backlog)),
       calls := s.calls + [k])
  }

  predicate PassDone(s: State) {
    s.worker.Passing? && s.worker.next == |s.consumers|
  }

  /** The loop tests `stopping` again before it waits. */
  function AfterPass(s: State): State
    requires PassDone(s)
  {
    s.(completedPasses := s.completedPasses + 1,
       wakeRequested := s.wakeRequested || s.worker.more,
       worker := if s.stopping then Exited else Waiting)
  }

  function Step(s: State, e: Event): State {
    match e
    case Start => Started(s)
    case Wake => s.(wakeRequested := true)
    case StopRequested => Stopped(s)
    case Joined =>
      if s.worker == Exited then s.(running := false, stopping := false, wakeRequested := false, worker := Absent) else s
    case WaitEnds(timedOut) => if MayWake(s, timedOut) then AfterWait(s) else s
    case ConsumerEnds(ending) => if MayCall(s) then AfterConsumer(s, ending) else s
    case PassEnds => if PassDone(s) then AfterPass(s) else s
  }

  function Initial(n: nat): State {
    State(seq(n, _ => Consumer(false, false, 0)), Absent, false, false, false, 0, 0, [])
  }

  // ------------------------------------------------------------- the class

  function Sum(cs: seq<Consumer>): nat {
    if cs == [] then 0 else Sum(cs[..|cs| - 1]) + cs[|cs| - 1].failures
  }

  function Failures(endings: seq<Ending>): nat {
    if endings == [] then 0 else Failures(endings[..|endings| - 1]) + (if endings[|endings| - 1].Threw? then 1 else 0)
  }

  class CrossFeatureOrchestrator {
    var consumers: seq<Consumer>
    var running: bool
    var stopping: bool
    var wakeRequested: bool
    var completedPasses: nat
    var failedConsumers: nat
    ghost var worker: Worker        // where the worker thread is
    ghost var calls: seq<nat>       // history of consumer calls

    ghost function Abs(): State
      reads this
    {
      State(consumers, worker, running, stopping, wakeRequested, completedPasses, failedConsumers, calls)
    }

    constructor (n: nat)
      ensures Abs() == Initial(n)
    {
      consumers := seq(n, _ => Consumer(false, false, 0));
      running, stopping, wakeRequested, completedPasses, failedConsumers := false, false, false, 0, 0;
      worker, calls := Absent, [];
    }

    /** `joinable` is the thread object's own flag.  False stands for the
        logic_error thrown on a second start. */
    method Launch(joinable: bool) returns (ok: bool)
      requires joinable == (worker != Absent)
      modifies this
      ensures ok == (old(worker) == Absent && !old(running))
      ensures Abs() == Step(old(Abs()), Start)
    {
      if running || joinable {
        return false;
      }
      stopping, running, wakeRequested := false, true, true;
      worker := Waiting;
      return true;
    }

    method RequestWake()
      modifies this
      ensures Abs() == Step(old(Abs()), Wake)
    {
      wakeRequested := true;
    }

    /** The first critical section of `stop`. */
    method RequestStop(joinable: bool)
      requires joinable == (worker != Absent)
      modifies this
      ensures Abs() == Step(old(Abs()), StopRequested)
    {
      if !joinable {
        running := false;
        return;
      }
      stopping, wakeRequested := true, true;
    }

    /** The last one, after the worker was joined. */
    method FinishStop()
      requires worker == Exited
      modifies this
      ensures Abs() == Step(old(Abs()), Joined)
    {
      running, stopping, wakeRequested := false, false, false;
      worker := Absent;
    }

    /** The worker behind its wait; true when it goes on to a pass. */
    method BeginPass(timedOut: bool) returns (goesOn: bool)
      requires MayWake(Abs(), timedOut)
      modifies this
      ensures Abs() == Step(old(Abs()), WaitEnds(timedOut)) && goesOn == worker.Passing?
    {
      if stopping {
        worker := Exited;
        return false;
      }
      wakeRequested := false;
      worker := Passing(0, false);
      return true;
    }

    /** The critical section after one consumer. */
    method Record(k: nat, ending: Ending, ghost more: bool)
      requires k < |consumers| && worker == Passing(k, more)
      modifies this
      ensures Abs() == Step(old(Abs()), ConsumerEnds(ending))
    {
      var c := consumers[k];
      match ending {
        case Returned(backlog) =>
          consumers := consumers[k := c.(degraded := false, backlog := backlog)];
        case Threw =>
          failedConsumers := failedConsumers + 1;
          consumers := consumers[k := c.(degraded := true, backlog := true, failures := c.failures + 1)];
      }
      worker := Passing(k + 1, more || (ending.Returned? && ending.backlog));
      calls := calls + [k];
    }

    /** The critical section after the pass. */
    method EndPass(more: bool)
      requires PassDone(Abs()) && worker.more == more
      modifies this
      ensures Abs() == Step(old(Abs()), PassEnds)
    {
      completedPasses := completedPasses + 1;
      if more {
        wakeRequested := true;
      }
      worker := if stopping then Exited else Waiting;
    }

    /** What other threads do while the worker is outside the lock. */
    method Interfere(es: seq<Event>)
      requires Outside(es) && worker != Absent
      modifies this
      ensures Abs() == After(old(Abs()), es)
    {
      for i := 0 to |es|
        invariant Abs() == After(old(Abs()), es[..i]) && worker == old(worker)
      {
        assert es[..i + 1][..i] == es[..i];
        match es[i] {
          case Wake => RequestWake();
          case StopRequested => RequestStop(true);
        }
      }
      assert es[..|es|] == es;
    }

    /** `run_pass`: `endings[k]` is how consumer `k` ends, and `others[k]` what
        others do before that is recorded.  Every consumer is called once, in
        order, and its own ending is recorded with it, wakes and stop requests
        notwithstanding; neither is lost. */
    method RunPass(endings: seq<Ending>, others: seq<seq<Event>>) returns (more: bool)
      requires |endings| == |others| == |consumers| && worker == Passing(0, false)
      requires forall k :: 0 <= k < |others| ==> Outside(others[k])
      modifies this
      ensures Abs() == After(old(Abs()), PassEvents(endings, others, |endings|))
      ensures PassRan(old(Abs()), Abs(), endings, others, |endings|) && PassDone(Abs())
      ensures more == worker.more
    {
      hide Step, PassEvents, After, Outside, PassRan;
      more := false;
      NoEvents(Abs(), endings, others);
      ghost var start := Abs();
      for k := 0 to |endings|
        invariant Abs() == After(start, PassEvents(endings, others, k))
        invariant worker == Passing(k, more) && |consumers| == |endings|
      {
        ghost var before := Abs();
        Interfere(others[k]);
        OutsideLeaves(before, others[k]);
        ghost var between := Abs();
        Record(k, endings[k], more);
        RecordIs(between, endings[k]);
        OneMore(start, endings, others, k);
        if endings[k].Returned? {
          more := endings[k].backlog || more;
        }
      }
      PassRuns(start, endings, others, |endings|);
    }
  }

  /** What `k` consumers of a pass have done, from `s` to `t`. */
  ghost predicate PassRan(s: State, t: State, endings: seq<Ending>, others: seq<seq<Event>>, k: nat)
    requires k <= |endings| == |others| == |s.consumers|
  {
    && |t.consumers| == |s.consumers|
    && t.worker == Passing(k, Returned(true) in endings[..k])
    && (forall j :: 0 <= j < k ==> t.consumers[j] == Recorded(s.consumers[j], endings[j]))
    && (forall j :: k <= j < |endings| ==> t.consumers[j] == s.consumers[j])
    && t.failedConsumers == s.failedConsumers + Failures(endings[..k])
    && t.calls == s.calls + Upto(k)
    && (t.wakeRequested <==> s.wakeRequested || exists j :: 0 <= j < k && others[j] != [])
    && (t.stopping <==> s.stopping || exists j :: 0 <= j < k && StopRequested in others[j])
    && t.running == s.running && t.completedPasses == s.completedPasses
  }

  lemma {:induction false} PassRuns(s: State, endings: seq<Ending>, others: seq<seq<Event>>, k: nat)
    requires k <= |endings| == |others| == |s.consumers| && s.worker == Passing(0, false)
    requires forall j :: 0 <= j < |others| ==> Outside(others[j])
    ensures PassRan(s, After(s, PassEvents(endings, others, k)), endings, others, k)
    decreases k
  {
    hide Step, PassEvents, After, Outside, PassRan;
    NoEvents(s, endings, others);
    if k == 0 {
      PassStarts(s, endings, others);
    } else {
      PassRuns(s, endings, others, k - 1);
      var t := After(s, PassEvents(endings, others, k - 1));
      OneMore(s, endings, others, k - 1);
      PassGoesOn(s, t, endings, others, k - 1);
    }
  }

  lemma PassStarts(s: State, endings: seq<Ending>, others: seq<seq<Event>>)
    requires |endings| == |others| == |s.consumers| && s.worker == Passing(0, false)
    ensures PassRan(s, s, endings, others, 0)
  {
    assert s.calls + Upto(0) == s.calls;
  }

  lemma PassGoesOn(s: State, t: State, endings: seq<Ending>, others: seq<seq<Event>>, k: nat)
    requires k < |endings| == |others| == |s.consumers| && Outside(others[k])
    requires PassRan(s, t, endings, others, k)
    ensures PassRan(s, Step(After(t, others[k]), ConsumerEnds(endings[k])), endings, others, k + 1)
  {
    hide Step, After, Upto, Outside;
    OutsideLeaves(t, others[k]);
    var u := After(t, others[k]);
    RecordIs(u, endings[k]);
    UptoNext(k);
    assert endings[..k + 1][..k] == endings[..k];
    assert endings[..k + 1] == endings[..k] + [endings[k]];
  }

  /** Wakes and stop requests, in any order. */
  predicate Outside(es: seq<Event>) {
    forall i :: 0 <= i < |es| ==> es[i] in {Wake, StopRequested}
  }

  function After(s: State, es: seq<Event>): State {
    if es == [] then s else Step(After(s, es[..|es| - 1]), es[|es| - 1])
  }

  function PassEvents(endings: seq<Ending>, others: seq<seq<Event>>, k: nat): seq<Event>
    requires k <= |endings| == |others|
  {
    if k == 0 then [] else PassEvents(endings, others, k - 1) + others[k - 1] + [ConsumerEnds(endings[k - 1])]
  }

  lemma NoEvents(s: State, endings: seq<Ending>, others: seq<seq<Event>>)
    requires |endings| == |others|
    ensures After(s, PassEvents(endings, others, 0)) == s
  {
  }

  lemma {:induction false} AfterBoth(s: State, first: seq<Event>, second: seq<Event>)
    ensures After(s, first + second) == After(After(s, first), second)
    decreases |second|
  {
    hide Step;
    if second == [] {
      assert first + second == first;
    } else {
      var n := |second| - 1;
      AfterBoth(s, first, second[..n]);
      assert (first + second)[..|first| + n] == first + second[..n];
    }
  }

  lemma OneMore(s: State, endings: seq<Ending>, others: seq<seq<Event>>, k: nat)
    requires k < |endings| == |others|
    ensures After(s, PassEvents(endings, others, k + 1))
         == Step(After(After(s, PassEvents(endings, others, k)), others[k]), ConsumerEnds(endings[k]))
  {
    hide Step;
    var before := PassEvents(endings, others, k);
    AfterBoth(s, before, others[k]);
    assert PassEvents(endings, others, k + 1)[..|before + others[k]|] == before + others[k];
  }

  /** Others change nothing but the two flags. */
  lemma {:induction false} OutsideLeaves(s: State, es: seq<Event>)
    requires Outside(es) && s.worker != Absent
    ensures var t := After(s, es);
            && t == s.(wakeRequested := t.wakeRequested, stopping := t.stopping)
            && (t.wakeRequested <==> s.wakeRequested || es != [])
            && (t.stopping <==> s.stopping || StopRequested in es)
  {
    if es != [] {
      var n := |es| - 1;
      OutsideLeaves(s, es[..n]);
      assert es == es[..n] + [es[n]];
    }
  }

  lemma RecordIs(s: State, ending: Ending)
    requires MayCall(s)
    ensures Step(s, ConsumerEnds(ending)) == AfterConsumer(s, ending)
  {
  }

  // ------------------------------------------------------------------ runs

  function Run(n: nat, es: seq<Event>): State {
    if es == [] then Initial(n) else Step(Run(n, es[..|es| - 1]), es[|es| - 1])
  }

  /** The indices of `rounds` full passes over `n` consumers. */
  function Rounds(rounds: nat, n: nat): seq<nat> {
    if rounds == 0 then [] else Rounds(rounds - 1, n) + Upto(n)
  }

  function Upto(n: nat): (s: seq<nat>)
    ensures |s| == n
  {
    seq(n, i => i)
  }

  lemma UptoNext(n: nat)
    ensures Upto(n + 1) == Upto(n) + [n]
  {
  }

  /** Called so far: all consumers once per completed pass, and the first ones
      of the pass that is running. */
  predicate InOrder(s: State) {
    && (s.worker.Passing? ==> s.worker.next <= |s.consumers|)
    && s.calls == Rounds(s.completedPasses, |s.consumers|) + Upto(if s.worker.Passing? then s.worker.next else 0)
  }

  predicate Counted(s: State) {
    s.failedConsumers == Sum(s.consumers)
  }

  /** A worker that has left its loop was asked to. */
  predicate Leaves(s: State) {
    && (s.worker == Exited ==> s.stopping)
    && (s.worker != Absent ==> s.running)
    && (s.worker == Waiting && s.stopping ==> s.wakeRequested)
  }

  lemma {:induction false} SumUpdate(cs: seq<Consumer>, k: nat, c: Consumer)
    requires k < |cs|
    ensures Sum(cs[k := c]) == Sum(cs) - cs[k].failures + c.failures
    decreases |cs|
  {
    var n := |cs| - 1;
    if k < n {
      assert cs[k := c][..n] == cs[..n][k := c];
      SumUpdate(cs[..n], k, c);
    } else {
      assert cs[k := c][..n] == cs[..n];
    }
  }

  lemma {:induction false} SumInitial(n: nat)
    ensures Sum(Initial(n).consumers) == 0
  {
    if n > 0 {
      assert Initial(n).consumers[..n - 1] == Initial(n - 1).consumers;
      SumInitial(n - 1);
    }
  }

  lemma StepCounts(s: State, e: Event)
    requires Counted(s)
    ensures Counted(Step(s, e)) && |Step(s, e).consumers| == |s.consumers|
  {
    hide Sum;
    if e.ConsumerEnds? && MayCall(s) {
      SumUpdate(s.consumers, s.worker.next, Recorded(s.consumers[s.worker.next], e.ending));
    }
  }

  lemma StepIsInOrder(s: State, e: Event)
    requires InOrder(s)
    ensures InOrder(Step(s, e))
  {
    hide Upto;
    UptoZero();
    if e.ConsumerEnds? && MayCall(s) {
      UptoNext(s.worker.next);
      assert Step(s, e).calls == Rounds(s.completedPasses, |s.consumers|) + Upto(s.worker.next + 1);
    } else if e.PassEnds? && PassDone(s) {
      assert Step(s, e).calls == Rounds(s.completedPasses + 1, |s.consumers|) + [];
    }
  }

  lemma UptoZero()
    ensures Upto(0) == []
  {
  }

  lemma StepLeaves(s: State, e: Event)
    requires Leaves(s)
    ensures Leaves(Step(s, e))
  {
  }

  /** In every reachable state the consumers were called once per pass and in
      order, and the failure total is the sum over the consumers. */
  lemma {:induction false} RunsAreAccounted(n: nat, es: seq<Event>)
    ensures InOrder(Run(n, es)) && Counted(Run(n, es)) && Leaves(Run(n, es))
    ensures |Run(n, es).consumers| == n
    decreases |es|
  {
    hide Step, Counted, Leaves, InOrder;
    if es == [] {
      InitialIsAccounted(n);
    } else {
      var before, e := es[..|es| - 1], es[|es| - 1];
      RunsAreAccounted(n, before);
      StepIsInOrder(Run(n, before), e);
      StepCounts(Run(n, before), e);
      StepLeaves(Run(n, before), e);
    }
  }

  lemma InitialIsAccounted(n: nat)
    ensures InOrder(Initial(n)) && Counted(Initial(n)) && Leaves(Initial(n))
  {
    SumInitial(n);
    assert Rounds(0, n) + Upto(0) == [];
  }

  /** Whenever no pass is running, the calls are exactly the completed passes,
      also after a stop in the middle of one. */
  lemma PassesAreWhole(n: nat, es: seq<Event>)
    requires !Run(n, es).worker.Passing?
    ensures Run(n, es).calls == Rounds(Run(n, es).completedPasses, n)
  {
    hide Step, Run;
    RunsAreAccounted(n, es);
    var s := Run(n, es);
    assert Upto(0) == [];
    assert Rounds(s.completedPasses, n) + [] == Rounds(s.completedPasses, n);
  }

  // --------------------------------------------------------------- wake-ups

  /** The event `k` of the run begins a pass. */
  predicate Begins(n: nat, es: seq<Event>, k: nat) {
    && k < |es| && es[k].WaitEnds? && MayWake(Run(n, es[..k]), es[k].timedOut)
    && !Run(n, es[..k]).stopping
  }

  lemma RunOneMore(n: nat, es: seq<Event>, k: nat)
    requires k < |es|
    ensures Run(n, es[..k + 1]) == Step(Run(n, es[..k]), es[k])
  {
    hide Step;
    assert es[..k + 1][..k] == es[..k];
  }

  lemma WakeStaysUnlessServed(s: State, e: Event)
    requires s.wakeRequested && Leaves(s) && !s.stopping
    ensures || Step(s, e).wakeRequested
            || (e.WaitEnds? && MayWake(s, e.timedOut) && !s.stopping)
  {
  }

  /** No wake is lost: until a stop is requested, a pass that began after the
      wake has begun, or the request is still standing. */
  lemma {:induction false} NoWakeIsLost(n: nat, es: seq<Event>, i: nat, k: nat)
    requires i < k <= |es| && es[i] == Wake
    requires forall j :: i <= j <= k ==> !Run(n, es[..j]).stopping
    ensures Run(n, es[..k]).wakeRequested || exists j :: i < j < k && Begins(n, es, j)
    decreases k
  {
    hide Step, Leaves;
    RunOneMore(n, es, k - 1);
    if k - 1 == i {
      assert Run(n, es[..k]).wakeRequested by { WakeRequests(Run(n, es[..i])); }
    } else {
      NoWakeIsLost(n, es, i, k - 1);
      if Run(n, es[..k - 1]).wakeRequested {
        RunsAreAccounted(n, es[..k - 1]);
        WakeStaysUnlessServed(Run(n, es[..k - 1]), es[k - 1]);
        if !Run(n, es[..k]).wakeRequested {
          assert Begins(n, es, k - 1);
        }
      }
    }
  }

  lemma WakeRequests(s: State)
    ensures Step(s, Wake).wakeRequested
  {
  }

  /** The work left to the worker before its next pass can begin. */
  function Remaining(s: State): nat
    requires s.worker.Passing? ==> s.worker.next <= |s.consumers|
  {
    if s.worker.Passing? then |s.consumers| - s.worker.next + 1 else 0
  }

  /** And a standing request is served without the recovery timer: as long as no
      stop is requested, the worker is one of its own steps nearer to the next
      pass, or begins it. */
  lemma StandingRequestProceeds(s: State, ending: Ending) returns (e: Event)
    requires InOrder(s) && s.wakeRequested && !s.stopping && (s.worker == Waiting || s.worker.Passing?)
    ensures InOrder(Step(s, e)) && Step(s, e).running == s.running && !Step(s, e).stopping
    ensures if s.worker == Waiting then e == WaitEnds(false) && Step(s, e).worker == Passing(0, false)
            else Step(s, e).wakeRequested && Remaining(Step(s, e)) < Remaining(s)
  {
    e := if s.worker == Waiting then WaitEnds(false)
         else if s.worker.next < |s.consumers| then ConsumerEnds(ending)
         else PassEnds;
    StepIsInOrder(s, e);
  }

  // --------------------------------------------- when another pass follows

  /** Of the first `n` consumers one has returned a backlog. */
  predicate Backlog(cs: seq<Consumer>, n: nat) {
    exists k :: 0 <= k < n && k < |cs| && cs[k].backlog && !cs[k].degraded
  }

  /** The pass remembers a backlog exactly when one of its consumers returned one. */
  predicate Remembers(s: State) {
    s.worker.Passing? ==> (s.worker.more <==> Backlog(s.consumers, s.worker.next))
  }

  lemma StepRemembers(s: State, e: Event)
    requires Remembers(s)
    ensures Remembers(Step(s, e))
  {
    hide Sum;
    var t := Step(s, e);
    if e.ConsumerEnds? && MayCall(s) {
      var n := s.worker.next;
      assert forall k :: 0 <= k < n ==> t.consumers[k] == s.consumers[k];
      assert t.consumers[n] == Recorded(s.consumers[n], e.ending);
      if Backlog(s.consumers, n) {
        var k :| 0 <= k < n && k < |s.consumers| && s.consumers[k].backlog && !s.consumers[k].degraded;
        assert t.consumers[k].backlog;
      }
    }
  }

  lemma {:induction false} RunsRemember(n: nat, es: seq<Event>)
    ensures Remembers(Run(n, es))
    decreases |es|
  {
    hide Step;
    if es != [] {
      RunsRemember(n, es[..|es| - 1]);
      StepRemembers(Run(n, es[..|es| - 1]), es[|es| - 1]);
    }
  }

  /** After a pass another one is requested exactly when somebody asked meanwhile
      or a consumer returned a backlog: a consumer that threw, though marked as
      having one, asks for nothing before the recovery interval. */
  lemma BacklogAsksAgain(n: nat, es: seq<Event>)
    requires PassDone(Run(n, es))
    ensures var s := Run(n, es);
            && (Step(s, PassEnds).wakeRequested <==> s.wakeRequested || Backlog(s.consumers, n))
            && Step(s, PassEnds).completedPasses == s.completedPasses + 1
            && Step(s, PassEnds).worker == if s.stopping then Exited else Waiting
  {
    hide Run;
    RunsRemember(n, es);
    RunsAreAccounted(n, es);
  }

  /** A stop is obeyed: the waiting worker is woken by it and leaves, and a passing
      one leaves at the end of its pass; the orchestrator can then be started again. */
  lemma StopIsObeyed(s: State)
    requires s.stopping
    ensures s.worker == Waiting ==> MayWake(s, false) && forall timedOut :: Step(s, WaitEnds(timedOut)).worker == Exited
    ensures PassDone(s) ==> Step(s, PassEnds).worker == Exited
    ensures s.worker == Exited ==>
              var t := Step(Step(s, Joined), Start);
              t.worker == Waiting && t.running && t.wakeRequested && !t.stopping
  {
  }

  /** A pass takes the request with it, and without a backlog or a wake during it the
      worker then waits for the recovery interval. */
  lemma PassTakesRequest(s: State, timedOut: bool)
    requires MayWake(s, timedOut) && !s.stopping
    ensures Step(s, WaitEnds(timedOut)) == s.(wakeRequested := false, worker := Passing(0, false))
  {
  }

  lemma QuietAfterPass(n: nat, es: seq<Event>)
    requires PassDone(Run(n, es)) && !Run(n, es).stopping
    requires !Run(n, es).wakeRequested && !Backlog(Run(n, es).consumers, n)
    ensures !MayWake(Step(Run(n, es), PassEnds), false) && MayWake(Step(Run(n, es), PassEnds), true)
  {
    hide Run;
    BacklogAsksAgain(n, es);
  }

  /** What a health snapshot tells after a pass: a consumer is degraded exactly when
      its call threw, and has a backlog exactly when it threw or returned one. */
  lemma SnapshotTells(s: State, endings: seq<Ending>, others: seq<seq<Event>>, k: nat)
    requires k < |endings| == |others| == |s.consumers| && s.worker == Passing(0, false)
    requires forall j :: 0 <= j < |others| ==> Outside(others[j])
    ensures var t := After(s, PassEvents(endings, others, |endings|));
            && |t.consumers| == |s.consumers|
            && (t.consumers[k].degraded <==> endings[k].Threw?)
            && (t.consumers[k].backlog <==> endings[k].Threw? || endings[k].backlog)
            && t.consumers[k].failures == s.consumers[k].failures + (if endings[k].Threw? then 1 else 0)
  {
    hide Outside, After, PassEvents;
    PassRuns(s, endings, others, |endings|);
  }
}
