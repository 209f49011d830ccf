/**
  The weighted three-lane work queue of src/ai_work_service.cpp.

  The class mirrors the source: three FIFO queues, a cyclic schedule index and
  an admission test, each mutex section being one method.  `State` is the
  abstract value of the object together with the history of what happened to
  every accepted task; `Step` and `Run` are the transition system over which
  fairness, the admission bounds and conservation are proved.
 */
module AiWorkService {

  datatype Lane = Direct | ExplicitFeature | Optional
  datatype SubmitResult = Accepted | Full | Stopping

  /** A queued task; `cancellable` says that the caller supplied a cancellation. */
  datatype Task = Task(name: nat, cancellable: bool)

  const SCHEDULE: seq<Lane> :=
    [Direct, Direct, Direct, Direct, ExplicitFeature, ExplicitFeature, Optional]

  // ---------------------------------------------------------------- state

  datatype State = State(
    capacity: nat,
    direct: seq<Task>,
    explicit: seq<Task>,
    optional: seq<Task>,
    index: nat,
    started: bool,
    accepting: bool,
    running: multiset<Task>,
    finished: multiset<Task>,
    drained: seq<Task>)
  {
    function Queue(lane: Lane): seq<Task> {
      match lane
      case Direct => direct
      case ExplicitFeature => explicit
      case Optional => optional
    }

    function WithQueue(lane: Lane, q: seq<Task>): State {
      match lane
      case Direct => this.(direct := q)
      case ExplicitFeature => this.(explicit := q)
      case Optional => this.(optional := q)
    }

    function Queued(): nat { |direct| + |explicit| + |optional| }

    function QueuedTasks(): seq<Task> { direct + explicit + optional }
  }

  /** Slots that tasks outside the direct lane may occupy together. */
  function NonDirectLimit(capacity: nat): nat {
    var unreserved := if capacity > 16 then capacity - 16 else capacity;
    if unreserved < 48 then unreserved else 48
  }

  ghost predicate MayEnter(s: State, lane: Lane) {
    && s.Queued() < s.capacity
    && (lane != Direct ==> |s.explicit| + |s.optional| < NonDirectLimit(s.capacity))
    && (lane == Optional ==> |s.optional| < 32)
  }

  function LaneAt(slot: nat): Lane {
    if slot < 4 then Direct else if slot < 6 then ExplicitFeature else Optional
  }

  lemma ScheduleTable(slot: nat)
    requires slot < 7
    ensures |SCHEDULE| == 7 && SCHEDULE[slot] == LaneAt(slot)
    ensures (slot + 1) % |SCHEDULE| == NextSlot(slot)
  {
  }

  function NextSlot(slot: nat): nat { if slot == 6 then 0 else slot + 1 }

  ghost predicate Busy(s: State, slot: nat) { s.Queue(LaneAt(slot)) != [] }

  /** Slots to walk, forwards and around, from one slot to another. */
  function Distance(from: nat, to: nat): int {
    if from <= to then to - from else to + 7 - from
  }

  /** The slot at which a scan of at most `budget` slots from `slot` stops. */
  ghost function Scan(s: State, slot: nat, budget: nat): nat
    decreases budget
  {
    if budget == 0 || Busy(s, slot) then slot else Scan(s, NextSlot(slot), budget - 1)
  }

  /** The slot the next dequeue serves. */
  ghost function ServingSlot(s: State): nat { Scan(s, s.index, 7) }

  ghost function NextLane(s: State): Lane { LaneAt(ServingSlot(s)) }

  lemma {:induction false} ScanFinds(s: State, slot: nat, budget: nat, busy: nat)
    requires slot < 7 && busy < 7 && Busy(s, busy) && Distance(slot, busy) <= budget
    ensures Scan(s, slot, budget) < 7 && Busy(s, Scan(s, slot, budget))
    ensures Distance(slot, Scan(s, slot, budget)) <= Distance(slot, busy)
    decreases budget
  {
    if !Busy(s, slot) {
      ScanFinds(s, NextSlot(slot), budget - 1, busy);
    }
  }

  /** Work is found within one turn of the schedule, and no slot with work is passed over. */
  lemma ServesFirstBusySlot(s: State, busy: nat)
    requires Proper(s) && busy < 7 && Busy(s, busy)
    ensures ServingSlot(s) < 7 && Busy(s, ServingSlot(s))
    ensures Distance(s.index, ServingSlot(s)) <= Distance(s.index, busy)
  {
    ScanFinds(s, s.index, 7, busy);
  }

  // ---------------------------------------------------------- transitions

  datatype Event =
    | Start
    | Submit(lane: Lane, task: Task)
    | Dequeue
    | Complete(done: Task)
    | Stop

  ghost predicate Admits(s: State, lane: Lane) { s.accepting && MayEnter(s, lane) }

  ghost function Submitted(s: State, lane: Lane, task: Task): State {
    if Admits(s, lane) then s.WithQueue(lane, s.Queue(lane) + [task]) else s
  }

  /** The queue that the next worker will serve is empty: workers wait. */
  ghost predicate Idle(s: State) { s.Queue(NextLane(s)) == [] }

  ghost function Dequeued(s: State): State {
    if Idle(s) then s
    else
      var lane := NextLane(s);
      s.WithQueue(lane, s.Queue(lane)[1..])
       .(index := NextSlot(ServingSlot(s)),
         running := s.running + multiset{s.Queue(lane)[0]})
  }

  ghost function Completed(s: State, task: Task): State {
    if task in s.running
    then s.(running := s.running - multiset{task}, finished := s.finished + multiset{task})
    else s
  }

  ghost function Stopped(s: State): State {
    s.(accepting := false, direct := [], explicit := [], optional := [],
       drained := s.drained + s.QueuedTasks())
  }

  ghost function Step(s: State, e: Event): State {
    match e
    case Start => if s.started then s else s.(started := true, accepting := true)
    case Submit(lane, task) => Submitted(s, lane, task)
    case Dequeue => Dequeued(s)
    case Complete(task) => Completed(s, task)
    case Stop => Stopped(s)
  }

  ghost function Run(s: State, es: seq<Event>): State
    decreases |es|
  {
    if es == [] then s else Run(Step(s, es[0]), es[1..])
  }

  function Init(capacity: nat): State {
    State(capacity, [], [], [], 0, false, false, multiset{}, multiset{}, [])
  }

  ghost predicate Proper(s: State) { s.index < 7 }

  lemma StepIsProper(s: State, e: Event)
    requires Proper(s)
    ensures Proper(Step(s, e)) && Step(s, e).capacity == s.capacity
  {
    if e == Dequeue && !Idle(s) {
      ServesFirstBusySlot(s, Home(NextLane(s)));
    }
  }

  /** Workers wait only when every lane is empty. */
  lemma IdleMeansEmpty(s: State)
    requires Proper(s)
    ensures Idle(s) <==> s.Queued() == 0
  {
    if s.Queued() > 0 {
      var home := if s.direct != [] then 0 else if s.explicit != [] then 4 else 6;
      ServesFirstBusySlot(s, home);
    }
  }

  /** The task a worker gets; none while it has to keep waiting. */
  ghost function Head(s: State): seq<Task> {
    if Idle(s) then [] else [s.Queue(NextLane(s))[0]]
  }

  /** What one event hands to a worker from a lane, and what it adds to that lane. */
  ghost function ServedBy(s: State, e: Event, lane: Lane): seq<Task> {
    if e == Dequeue && NextLane(s) == lane && !Idle(s) then [s.Queue(lane)[0]] else []
  }

  ghost function AdmittedBy(s: State, e: Event, lane: Lane): seq<Task> {
    if e.Submit? && e.lane == lane && Admits(s, lane) then [e.task] else []
  }

  ghost function Served(s: State, es: seq<Event>, lane: Lane): seq<Task>
    decreases |es|
  {
    if es == [] then [] else ServedBy(s, es[0], lane) + Served(Step(s, es[0]), es[1..], lane)
  }

  ghost function Admitted(s: State, es: seq<Event>, lane: Lane): seq<Task>
    decreases |es|
  {
    if es == [] then [] else AdmittedBy(s, es[0], lane) + Admitted(Step(s, es[0]), es[1..], lane)
  }

  function Dequeues(es: seq<Event>): nat {
    if es == [] then 0 else (if es[0] == Dequeue then 1 else 0) + Dequeues(es[1..])
  }

  ghost predicate NeverStops(es: seq<Event>) {
    forall i :: 0 <= i < |es| ==> es[i] != Stop
  }

  // ------------------------------------------------------- admission bounds

  ghost predicate WithinBounds(s: State) {
    && s.Queued() <= s.capacity
    && |s.explicit| + |s.optional| <= NonDirectLimit(s.capacity)
    && |s.optional| <= 32
  }

  lemma StepKeepsBounds(s: State, e: Event)
    requires WithinBounds(s)
    ensures WithinBounds(Step(s, e)) && Step(s, e).capacity == s.capacity
  {
  }

  lemma {:induction false} BoundsOverRuns(s: State, es: seq<Event>)
    requires WithinBounds(s)
    ensures WithinBounds(Run(s, es)) && Run(s, es).capacity == s.capacity
    decreases |es|
  {
    hide Step, WithinBounds;
    if es != [] {
      StepKeepsBounds(s, es[0]);
      BoundsOverRuns(Step(s, es[0]), es[1..]);
    }
  }

  /** In every reachable state the queue bounds hold, and with more than 16
      slots a direct submission is refused for lack of room only when 16 direct
      tasks are already queued. */
  lemma DirectShareIsReserved(capacity: nat, es: seq<Event>)
    ensures WithinBounds(Run(Init(capacity), es))
    ensures capacity > 16 && !MayEnter(Run(Init(capacity), es), Direct) ==>
              |Run(Init(capacity), es).direct| >= 16
  {
    BoundsOverRuns(Init(capacity), es);
  }

  /** When a task is admitted to an accepting service of the production size: a
      direct one unless all 64 slots are taken, any other one unless 48 others are
      queued besides, and an optional one unless 32 are optional. */
  lemma ProductionAdmission(s: State)
    requires s.capacity == 64
    ensures var total, others := |s.direct| + |s.explicit| + |s.optional|, |s.explicit| + |s.optional|;
            && (MayEnter(s, Direct) <==> total < 64)
            && (MayEnter(s, ExplicitFeature) <==> total < 64 && others < 48)
            && (MayEnter(s, Optional) <==> total < 64 && others < 48 && |s.optional| < 32)
  {
  }

  /** And in general: room in all, room outside the share reserved for direct tasks
      where there is one, at most 48 others and at most 32 optional ones. */
  lemma Admission(s: State, lane: Lane)
    ensures var total, others := |s.direct| + |s.explicit| + |s.optional|, |s.explicit| + |s.optional|;
            MayEnter(s, lane) <==>
              && total < s.capacity
              && (lane == Direct
                  || (others < 48 && others < s.capacity && (s.capacity > 16 ==> others + 16 < s.capacity)
                      && (lane == Optional ==> |s.optional| < 32)))
  {
  }

  /** A submission appends to its lane exactly when the service accepts and admits it. */
  lemma SubmitDecides(s: State, lane: Lane, task: Task)
    ensures var t := Step(s, Submit(lane, task));
            && (t.Queue(lane) == s.Queue(lane) + [task] <==> s.accepting && MayEnter(s, lane))
            && (t != s <==> s.accepting && MayEnter(s, lane))
            && (forall other :: other != lane ==> t.Queue(other) == s.Queue(other))
  {
    hide MayEnter;
    assert |s.Queue(lane) + [task]| == |s.Queue(lane)| + 1;
  }

  /** A service accepts exactly between its only start and the next stop. */
  lemma {:induction false} AcceptsWhileStarted(s: State, es: seq<Event>)
    ensures Run(s, es).started <==> s.started || Start in es
    ensures s.started ==> (Run(s, es).accepting <==> s.accepting && Stop !in es)
    ensures !s.started && !s.accepting ==>
              (Run(s, es).accepting <==> exists k :: 0 <= k < |es| && es[k] == Start && Start !in es[..k] && Stop !in es[k..])
    decreases |es|
  {
    hide Step;
    if es != [] {
      StartAndStop(s, es[0]);
      var rest := es[1..];
      AcceptsWhileStarted(Step(s, es[0]), rest);
      assert es == [es[0]] + rest;
      if es[0] == Start {
        assert es[..0] == [] && es[0..] == es;
        assert forall k :: 0 < k < |es| ==> es[..k][0] == Start;
      } else {
        forall k | 0 <= k < |rest|
          ensures (rest[k] == Start && Start !in rest[..k] && Stop !in rest[k..])
             <==> (es[k + 1] == Start && Start !in es[..k + 1] && Stop !in es[k + 1..])
        {
          assert es[..k + 1] == [es[0]] + rest[..k] && es[k + 1..] == rest[k..];
        }
        if k :| 0 <= k < |es| && es[k] == Start && Start !in es[..k] && Stop !in es[k..] {
          assert rest[k - 1] == Start && Start !in rest[..k - 1] && Stop !in rest[k - 1..];
        }
        if k :| 0 <= k < |rest| && rest[k] == Start && Start !in rest[..k] && Stop !in rest[k..] {
          assert es[k + 1] == Start && Start !in es[..k + 1] && Stop !in es[k + 1..];
        }
      }
    }
  }

  lemma StartAndStop(s: State, e: Event)
    ensures Step(s, e).started <==> s.started || e == Start
    ensures Step(s, e).accepting <==> (s.accepting && e != Stop) || (e == Start && !s.started)
  {
  }

  // ----------------------------------------------------------- conservation

  /** How often a task is queued, with a worker, finished, or drained. */
  function Waiting(s: State, task: Task): nat {
    multiset(s.direct)[task] + multiset(s.explicit)[task] + multiset(s.optional)[task]
  }

  function Accounted(s: State, task: Task): nat {
    Waiting(s, task) + s.running[task] + s.finished[task] + multiset(s.drained)[task]
  }

  /** How often a task is accepted. */
  ghost function AcceptedBy(s: State, e: Event, task: Task): nat {
    if e.Submit? && e.task == task && Admits(s, e.lane) then 1 else 0
  }

  ghost function AcceptedTimes(s: State, es: seq<Event>, task: Task): nat
    decreases |es|
  {
    if es == [] then 0 else AcceptedBy(s, es[0], task) + AcceptedTimes(Step(s, es[0]), es[1..], task)
  }

  lemma HeadAndTail(q: seq<Task>, task: Task)
    requires q != []
    ensures multiset(q)[task] == multiset{q[0]}[task] + multiset(q[1..])[task]
  {
    assert q == [q[0]] + q[1..];
  }

  lemma SubmitConserves(s: State, lane: Lane, new_: Task, task: Task)
    ensures Accounted(Submitted(s, lane, new_), task)
         == Accounted(s, task) + AcceptedBy(s, Submit(lane, new_), task)
  {
  }

  lemma DequeueConserves(s: State, task: Task)
    ensures Accounted(Dequeued(s), task) == Accounted(s, task)
  {
    hide NextLane, ServingSlot, NextSlot;
    if !Idle(s) {
      var lane := NextLane(s);
      HeadAndTail(s.Queue(lane), task);
      match lane
      case Direct =>
      case ExplicitFeature =>
      case Optional =>
    }
  }

  lemma StopConserves(s: State, task: Task)
    ensures Accounted(Stopped(s), task) == Accounted(s, task)
  {
    assert s.drained + s.QueuedTasks() == s.drained + s.direct + s.explicit + s.optional;
  }

  lemma StepConserves(s: State, e: Event, task: Task)
    ensures Accounted(Step(s, e), task) == Accounted(s, task) + AcceptedBy(s, e, task)
  {
    hide Submitted, Dequeued, Stopped;
    match e
    case Submit(lane, new_) => SubmitConserves(s, lane, new_, task);
    case Dequeue => DequeueConserves(s, task);
    case Stop => StopConserves(s, task);
    case _ =>
  }

  lemma {:induction false} TasksAreConserved(s: State, es: seq<Event>, task: Task)
    ensures Accounted(Run(s, es), task) == Accounted(s, task) + AcceptedTimes(s, es, task)
    decreases |es|
  {
    hide Step, Accounted, AcceptedBy;
    if es != [] {
      StepConserves(s, es[0], task);
      TasksAreConserved(Step(s, es[0]), es[1..], task);
    }
  }

  /** A task accepted once is in exactly one place: queued, with a worker,
      finished, or drained by stop.  So it is never both run and cancelled. */
  lemma ExactlyOneFate(capacity: nat, es: seq<Event>, task: Task)
    requires AcceptedTimes(Init(capacity), es, task) == 1
    ensures var s := Run(Init(capacity), es);
            && Waiting(s, task) + s.running[task] + s.finished[task] + multiset(s.drained)[task] == 1
            && !(task in s.drained && (task in s.running || task in s.finished))
  {
    TasksAreConserved(Init(capacity), es, task);
  }

  /** What a stop does: it ends acceptance and drains exactly what is queued, in
      lane order. */
  lemma StopDrains(s: State)
    ensures var t := Step(s, Stop);
            && !t.accepting && t.Queued() == 0 && t.drained == s.drained + (s.direct + s.explicit + s.optional)
            && t.running == s.running && t.finished == s.finished && t.started == s.started
  {
  }

  /** So from the stop of a started service on, nothing is accepted or queued, and
      only the tasks queued at that moment are drained, whatever follows. */
  lemma NothingAfterStop(s: State, es: seq<Event>)
    requires s.started
    ensures var t := Run(s, [Stop] + es);
            !t.accepting && t.Queued() == 0 && t.drained == s.drained + (s.direct + s.explicit + s.optional)
  {
    hide Step, Run;
    StopDrains(s);
    RunFirst(s, Stop, es);
    StopIsFinal(Step(s, Stop), es);
  }

  lemma RunFirst(s: State, e: Event, es: seq<Event>)
    ensures Run(s, [e] + es) == Run(Step(s, e), es)
  {
    hide Step;
    assert ([e] + es)[1..] == es;
  }

  /** After a stop nothing is queued, accepted or drained any more. */
  lemma {:induction false} StopIsFinal(s: State, es: seq<Event>)
    requires s.started && !s.accepting && s.Queued() == 0
    ensures !Run(s, es).accepting && Run(s, es).Queued() == 0 && Run(s, es).drained == s.drained
    decreases |es|
  {
    if es != [] {
      StopIsFinal(Step(s, es[0]), es[1..]);
    }
  }

  // ------------------------------------------------------------ FIFO lanes

  lemma DequeueIsFifo(s: State, lane: Lane)
    ensures ServedBy(s, Dequeue, lane) + Dequeued(s).Queue(lane) == s.Queue(lane)
  {
    hide NextLane, ServingSlot;
  }

  lemma StepIsFifo(s: State, e: Event, lane: Lane)
    requires e != Stop
    ensures ServedBy(s, e, lane) + Step(s, e).Queue(lane) == s.Queue(lane) + AdmittedBy(s, e, lane)
  {
    hide NextLane, ServingSlot, MayEnter, Dequeued;
    if e == Dequeue {
      DequeueIsFifo(s, lane);
    }
  }

  /** What a lane has handed out, followed by what it still holds, is what it
      held at first followed by what it has admitted since. */
  lemma {:induction false} LanesAreFifo(s: State, es: seq<Event>, lane: Lane)
    requires NeverStops(es)
    ensures Served(s, es, lane) + Run(s, es).Queue(lane) == s.Queue(lane) + Admitted(s, es, lane)
    decreases |es|
  {
    hide Step, ServedBy, AdmittedBy;
    if es != [] {
      var t, rest := Step(s, es[0]), es[1..];
      StepIsFifo(s, es[0], lane);
      LanesAreFifo(t, rest, lane);
      Regroup(ServedBy(s, es[0], lane), t.Queue(lane), s.Queue(lane), AdmittedBy(s, es[0], lane),
              Served(t, rest, lane), Run(t, rest).Queue(lane), Admitted(t, rest, lane));
    }
  }

  lemma Regroup<T>(out: seq<T>, mid: seq<T>, first: seq<T>, in_: seq<T>, laterOut: seq<T>, end: seq<T>, laterIn: seq<T>)
    requires out + mid == first + in_
    requires laterOut + end == mid + laterIn
    ensures (out + laterOut) + end == first + (in_ + laterIn)
  {
    calc {
      (out + laterOut) + end;
      out + (laterOut + end);
      (out + mid) + laterIn;
      first + (in_ + laterIn);
    }
  }

  // -------------------------------------------------------------- fairness

  /** Number of slots of a lane in the schedule. */
  function Share(lane: Lane): nat {
    match lane case Direct => 4 case ExplicitFeature => 2 case Optional => 1
  }

  function Home(lane: Lane): nat {
    match lane case Direct => 0 case ExplicitFeature => 4 case Optional => 6
  }

  /** Slots scanned, starting at `slot`, until `lane` has come up for the
      (ahead + 1)-th time. */
  function Slots(slot: nat, lane: Lane, ahead: nat): (n: nat)
    requires slot < 7
    ensures n > 0
    decreases ahead, if LaneAt(slot) == lane then 0 else 1 + Distance(slot, Home(lane))
  {
    if LaneAt(slot) != lane then 1 + Slots(NextSlot(slot), lane, ahead)
    else if ahead == 0 then 1
    else 1 + Slots(NextSlot(slot), lane, ahead - 1)
  }

  /** The longest wait for the (ahead + 1)-th turn of a lane, over all indices. */
  function Patience(lane: Lane, ahead: nat): nat {
    match lane
    case Direct => 3 + (ahead + 1) + 3 * (ahead / 4)
    case ExplicitFeature => 5 + (ahead + 1) + 5 * (ahead / 2)
    case Optional => 7 * (ahead + 1)
  }

  lemma {:induction false} DirectSlots(slot: nat, ahead: nat)
    requires slot < 7
    ensures Slots(slot, Direct, ahead)
         == (if slot < 4 then 7 * ((slot + ahead) / 4) + (slot + ahead) % 4 else 7 + 7 * (ahead / 4) + ahead % 4)
            + 1 - slot
    decreases ahead, if LaneAt(slot) == Direct then 0 else 7 - slot
  {
    if slot >= 4 {
      DirectSlots(NextSlot(slot), ahead);
    } else if ahead > 0 {
      DirectSlots(NextSlot(slot), ahead - 1);
      assert (4 + (ahead - 1)) / 4 == 1 + (ahead - 1) / 4;
    }
  }

  lemma {:induction false} ExplicitSlots(slot: nat, ahead: nat)
    requires slot < 7
    ensures Slots(slot, ExplicitFeature, ahead)
         == (if slot <= 4 then 7 * (ahead / 2) + 4 + ahead % 2
             else if slot == 5 then 7 * ((1 + ahead) / 2) + 4 + (1 + ahead) % 2
             else 11 + 7 * (ahead / 2) + ahead % 2)
            + 1 - slot
    decreases ahead, if LaneAt(slot) == ExplicitFeature then 0 else 1 + Distance(slot, 4)
  {
    if LaneAt(slot) != ExplicitFeature {
      ExplicitSlots(NextSlot(slot), ahead);
    } else if ahead > 0 {
      ExplicitSlots(NextSlot(slot), ahead - 1);
    }
  }

  lemma {:induction false} OptionalSlots(slot: nat, ahead: nat)
    requires slot < 7
    ensures Slots(slot, Optional, ahead) == 7 * ahead + 7 - slot
    decreases ahead, 7 - slot
  {
    if slot < 6 {
      OptionalSlots(slot + 1, ahead);
    } else if ahead > 0 {
      OptionalSlots(0, ahead - 1);
    }
  }

  lemma PatienceBoundsSlots(slot: nat, lane: Lane, ahead: nat)
    requires slot < 7
    ensures Slots(slot, lane, ahead) <= Patience(lane, ahead) <= 7 * (ahead + 1)
  {
    match lane
    case Direct => DirectSlots(slot, ahead);
    case ExplicitFeature => ExplicitSlots(slot, ahead);
    case Optional => OptionalSlots(slot, ahead);
  }

  /** Passing over slots whose lanes are empty spends waiting slots of a lane with work. */
  lemma {:induction false} ScanSpendsSlots(s: State, slot: nat, budget: nat, lane: Lane, ahead: nat)
    requires slot < 7 && s.Queue(lane) != []
    ensures Scan(s, slot, budget) < 7
    ensures Slots(Scan(s, slot, budget), lane, ahead) <= Slots(slot, lane, ahead)
    decreases budget
  {
    if budget > 0 && !Busy(s, slot) {
      ScanSpendsSlots(s, NextSlot(slot), budget - 1, lane, ahead);
    }
  }

  /** One dequeue uses up at least one of the slots a waiting task counts on. */
  lemma DequeueUsesSlots(s: State, lane: Lane, ahead: nat)
    requires Proper(s) && s.Queue(lane) != []
    ensures !Idle(s) && Proper(Dequeued(s))
    ensures NextLane(s) != lane ==>
              Slots(Dequeued(s).index, lane, ahead) < Slots(s.index, lane, ahead)
    ensures NextLane(s) == lane && ahead > 0 ==>
              Slots(Dequeued(s).index, lane, ahead - 1) < Slots(s.index, lane, ahead)
  {
    ServesFirstBusySlot(s, Home(lane));
    ScanSpendsSlots(s, s.index, 7, lane, ahead);
  }

  lemma OtherStepsWait(s: State, e: Event, lane: Lane)
    requires e != Dequeue && e != Stop
    ensures Step(s, e).index == s.index && |Step(s, e).Queue(lane)| >= |s.Queue(lane)|
  {
  }

  lemma {:induction false} ServedWithinSlots(s: State, es: seq<Event>, lane: Lane, ahead: nat)
    requires Proper(s) && NeverStops(es)
    requires ahead < |s.Queue(lane)| && Dequeues(es) >= Slots(s.index, lane, ahead)
    ensures |Served(s, es, lane)| > ahead
    decreases |es|
  {
    hide Submitted, Completed, Slots;
    assert es != [];
    var t, rest := Step(s, es[0]), es[1..];
    if es[0] == Dequeue {
      DequeueUsesSlots(s, lane, ahead);
      if NextLane(s) != lane {
        ServedWithinSlots(t, rest, lane, ahead);
      } else if ahead > 0 {
        ServedWithinSlots(t, rest, lane, ahead - 1);
      }
    } else {
      OtherStepsWait(s, es[0], lane);
      ServedWithinSlots(t, rest, lane, ahead);
    }
  }

  /** No starvation: whatever is submitted meanwhile, the task with `ahead`
      tasks in front of it in its lane is handed to a worker, as that lane's
      (ahead + 1)-th, within `Patience` dequeues. */
  lemma NoStarvation(s: State, es: seq<Event>, lane: Lane, ahead: nat)
    requires Proper(s) && NeverStops(es)
    requires ahead < |s.Queue(lane)| && Dequeues(es) >= Patience(lane, ahead)
    ensures Patience(lane, ahead) <= 7 * (ahead + 1)
    ensures |Served(s, es, lane)| > ahead && Served(s, es, lane)[ahead] == s.Queue(lane)[ahead]
  {
    PatienceBoundsSlots(s.index, lane, ahead);
    ServedWithinSlots(s, es, lane, ahead);
    LanesAreFifo(s, es, lane);
    var out := Served(s, es, lane);
    assert (out + Run(s, es).Queue(lane))[ahead] == out[ahead];
  }

  // ------------------------------------------------- exact shares when busy

  ghost predicate AllBusy(s: State) {
    s.direct != [] && s.explicit != [] && s.optional != []
  }

  /** Every dequeue of the run finds work in all three lanes. */
  ghost predicate BusyThroughout(s: State, es: seq<Event>)
    decreases |es|
  {
    es == [] || ((es[0] == Dequeue ==> AllBusy(s)) && BusyThroughout(Step(s, es[0]), es[1..]))
  }

  lemma DequeueWhenBusy(s: State)
    requires Proper(s) && AllBusy(s)
    ensures !Idle(s) && NextLane(s) == LaneAt(s.index) && Dequeued(s).index == NextSlot(s.index)
  {
    assert Busy(s, s.index);
  }

  function Turns(slot: nat, count: nat, lane: Lane): nat
    decreases count
  {
    if count == 0 then 0
    else (if LaneAt(slot) == lane then 1 else 0) + Turns(NextSlot(slot), count - 1, lane)
  }

  lemma OtherStepsKeepIndex(s: State, e: Event)
    requires e != Dequeue
    ensures Step(s, e).index == s.index
  {
  }

  lemma {:induction false} BusyLanesTakeTurns(s: State, es: seq<Event>, lane: Lane)
    requires Proper(s) && BusyThroughout(s, es)
    ensures |Served(s, es, lane)| == Turns(s.index, Dequeues(es), lane)
    decreases |es|
  {
    hide Submitted, Completed, Stopped;
    if es != [] {
      StepIsProper(s, es[0]);
      BusyLanesTakeTurns(Step(s, es[0]), es[1..], lane);
      if es[0] == Dequeue {
        DequeueWhenBusy(s);
      } else {
        OtherStepsKeepIndex(s, es[0]);
      }
    }
  }

  /** Any walk of seven slots is one whole turn of the schedule. */
  lemma SevenTurns(slot: nat, lane: Lane)
    requires slot < 7
    ensures Turns(slot, 7, lane) == Share(lane)
  {
  }

  /** While no lane runs empty, any seven consecutive dequeues serve the lanes
      exactly four, two and one times. */
  lemma ExactSharesWhenBusy(s: State, es: seq<Event>, lane: Lane)
    requires Proper(s) && BusyThroughout(s, es) && Dequeues(es) == 7
    ensures |Served(s, es, lane)| == Share(lane)
  {
    BusyLanesTakeTurns(s, es, lane);
    SevenTurns(s.index, lane);
  }

  // ------------------------------------------------ the bounds are attained

  /** The index from which a lane waits longest. */
  function WorstSlot(lane: Lane): nat {
    match lane case Direct => 4 case ExplicitFeature => 6 case Optional => 0
  }

  lemma PatienceIsAttained(lane: Lane, ahead: nat)
    ensures Slots(WorstSlot(lane), lane, ahead) == Patience(lane, ahead)
  {
    match lane
    case Direct => DirectSlots(4, ahead);
    case ExplicitFeature => ExplicitSlots(6, ahead);
    case Optional => OptionalSlots(0, ahead);
  }

  lemma {:induction false} FewTurnsBefore(slot: nat, lane: Lane, ahead: nat, count: nat)
    requires slot < 7 && count < Slots(slot, lane, ahead)
    ensures Turns(slot, count, lane) <= ahead
    decreases count
  {
    if count > 0 {
      FewTurnsBefore(NextSlot(slot), lane, if LaneAt(slot) == lane then ahead - 1 else ahead, count - 1);
    }
  }

  /** Every task that is handed out is replaced in its lane. */
  ghost function Churn(s: State, filler: Task, count: nat): seq<Event>
    decreases count
  {
    if count == 0 then []
    else
      var refill := Submit(LaneAt(s.index), filler);
      [Dequeue, refill] + Churn(Step(Step(s, Dequeue), refill), filler, count - 1)
  }

  ghost predicate Churning(s: State) {
    Proper(s) && s.accepting && WithinBounds(s) && AllBusy(s)
  }

  lemma RefillIsAdmitted(s: State, filler: Task)
    requires Churning(s)
    ensures Churning(Step(Step(s, Dequeue), Submit(LaneAt(s.index), filler)))
  {
    hide NextLane, ServingSlot;
    DequeueWhenBusy(s);
  }

  lemma {:induction false} ChurnIsBusy(s: State, filler: Task, count: nat)
    requires Churning(s)
    ensures var es := Churn(s, filler, count);
            BusyThroughout(s, es) && NeverStops(es) && Dequeues(es) == count
    decreases count
  {
    hide Step, WithinBounds;
    if count > 0 {
      var refill := Submit(LaneAt(s.index), filler);
      var t := Step(Step(s, Dequeue), refill);
      var rest := Churn(t, filler, count - 1);
      RefillIsAdmitted(s, filler);
      ChurnIsBusy(t, filler, count - 1);
      var es := Churn(s, filler, count);
      assert es[1..] == [refill] + rest && es[1..][1..] == rest;
      assert BusyThroughout(Step(s, Dequeue), es[1..]);
    }
  }

  /** No smaller bound than `Patience` holds: from any accepting state with work
      in every lane and the index at the lane's worst slot, some run of one
      dequeue less leaves the task waiting. */
  lemma PatienceIsTight(s: State, lane: Lane, ahead: nat, filler: Task) returns (es: seq<Event>)
    requires Churning(s) && s.index == WorstSlot(lane) && ahead < |s.Queue(lane)|
    ensures NeverStops(es) && Dequeues(es) == Patience(lane, ahead) - 1
    ensures |Served(s, es, lane)| <= ahead
  {
    hide Churn, Turns, Slots, BusyThroughout, WithinBounds;
    PatienceIsAttained(lane, ahead);
    es := Churn(s, filler, Patience(lane, ahead) - 1);
    ChurnIsBusy(s, filler, Patience(lane, ahead) - 1);
    BusyLanesTakeTurns(s, es, lane);
    FewTurnsBefore(s.index, lane, ahead, Patience(lane, ahead) - 1);
  }

  // ------------------------------------------------------------- the class

  /** The scan has passed over `checked` slots without work and stands at `slot`. */
  ghost predicate Scanned(s: State, slot: nat, checked: nat) {
    && (checked < 7 ==> Distance(s.index, slot) == checked)
    && (checked == 7 ==> slot == s.index)
    && (checked > 0 ==> !Busy(s, s.index))
  }

  lemma ScanStarts(s: State)
    requires Proper(s)
    ensures Scanned(s, s.index, 0) && ServingSlot(s) == Scan(s, s.index, 7)
  {
  }

  lemma ScanStep(s: State, slot: nat, checked: nat)
    requires Proper(s) && slot < 7 && checked < 7 && Scanned(s, slot, checked)
    ensures Busy(s, slot) ==> Scan(s, slot, 7 - checked) == slot
    ensures !Busy(s, slot) ==>
              Scanned(s, NextSlot(slot), checked + 1) && Scan(s, slot, 7 - checked) == Scan(s, NextSlot(slot), 7 - checked - 1)
    ensures Busy(s, slot) && ServingSlot(s) == slot ==> NextLane(s) == LaneAt(slot) && !Idle(s)
    ensures NextSlot(slot) < 7
  {
    hide Scan;
    ScanUnfolds(s, slot, 7 - checked);
  }

  lemma ScanUnfolds(s: State, slot: nat, budget: nat)
    requires budget > 0
    ensures Scan(s, slot, budget) == if Busy(s, slot) then slot else Scan(s, NextSlot(slot), budget - 1)
  {
  }

  lemma DequeueIs(s: State)
    ensures Idle(s) ==> Step(s, Dequeue) == s && Head(s) == []
    ensures !Idle(s) ==>
              var q := s.Queue(NextLane(s));
              && q != [] && Head(s) == [q[0]]
              && Step(s, Dequeue) == s.WithQueue(NextLane(s), q[1..]).(index := NextSlot(ServingSlot(s)),
                                                                       running := s.running + multiset{q[0]})
  {
    hide NextLane, ServingSlot;
  }

  lemma MoveThenPop(s: State, index: nat, lane: Lane, q: seq<Task>)
    ensures s.(index := index).WithQueue(lane, q) == s.WithQueue(lane, q).(index := index)
    ensures s.WithQueue(lane, q).running == s.running
  {
  }

  lemma CompleteIs(s: State, task: Task)
    requires task in s.running
    ensures Step(s, Complete(task))
         == s.(running := s.running - multiset{task}, finished := s.finished + multiset{task})
  {
  }

  /** After a whole turn without work there is none. */
  lemma ScanEnds(s: State, slot: nat)
    requires Proper(s) && Scanned(s, slot, 7) && ServingSlot(s) == Scan(s, slot, 0)
    ensures Idle(s) && s.Queued() == 0
  {
    IdleMeansEmpty(s);
  }

  class AiWorkService {
    const capacity: nat
    const workerCount: nat
    var direct: seq<Task>
    var explicit: seq<Task>
    var optional: seq<Task>
    var scheduleIndex: nat
    var active: nat
    var started: bool
    var accepting: bool
    ghost var running: multiset<Task>
    ghost var finished: multiset<Task>
    ghost var drained: seq<Task>

    ghost predicate Valid()
      reads this
    {
      scheduleIndex < 7 && active == |running|
    }

    ghost function Abs(): (s: State)
      reads this
    {
      State(capacity, direct, explicit, optional, scheduleIndex, started, accepting,
            running, finished, drained)
    }

    /** The source throws invalid_argument unless both arguments are positive. */
    constructor (capacity: nat, workerCount: nat)
      requires capacity > 0 && workerCount > 0
      ensures Valid() && Abs() == Init(capacity)
    {
      this.capacity, this.workerCount := capacity, workerCount;
      direct, explicit, optional := [], [], [];
      scheduleIndex, active, started, accepting := 0, 0, false, false;
      running, finished, drained := multiset{}, multiset{}, [];
    }

    /** False stands for the logic_error thrown on a second start. */
    method Launch() returns (ok: bool)
      requires Valid()
      modifies this
      ensures Valid() && ok == !old(started)
      ensures Abs() == Step(old(Abs()), Start)
    {
      if started {
        return false;
      }
      started, accepting := true, true;
      return true;
    }

    method Enqueue(lane: Lane, task: Task) returns (result: SubmitResult)
      requires Valid()
      modifies this
      ensures Valid() && Abs() == Step(old(Abs()), Submit(lane, task))
      ensures result == Stopping <==> !old(accepting)
      ensures result == Full <==> old(accepting) && !MayEnter(old(Abs()), lane)
    {
      if !accepting {
        return Stopping;
      }
      var total := |direct| + |explicit| + |optional|;
      if total >= capacity {
        return Full;
      }
      var nondirect := |explicit| + |optional|;
      var nondirectCapacity := if capacity > 16 then capacity - 16 else capacity;
      if lane != Direct && nondirect >= nondirectCapacity {
        return Full;
      }
      if lane == ExplicitFeature && nondirect >= 48 {
        return Full;
      }
      if lane == Optional && (|optional| >= 32 || nondirect >= 48) {
        return Full;
      }
      match lane {
        case Direct => direct := direct + [task];
        case ExplicitFeature => explicit := explicit + [task];
        case Optional => optional := optional + [task];
      }
      return Accepted;
    }

    function Queue(lane: Lane): seq<Task>
      reads this
    {
      match lane
      case Direct => direct
      case ExplicitFeature => explicit
      case Optional => optional
    }

    /** The lane at the index, which moves on. */
    method NextCandidate() returns (candidate: Lane)
      requires Valid()
      modifies this`scheduleIndex
      ensures Valid() && candidate == LaneAt(old(scheduleIndex)) && scheduleIndex == NextSlot(old(scheduleIndex))
    {
      ScheduleTable(scheduleIndex);
      candidate := SCHEDULE[scheduleIndex];
      scheduleIndex := (scheduleIndex + 1) % |SCHEDULE|;
    }

    method PopFront(lane: Lane) returns (task: Task)
      requires Valid() && Queue(lane) != []
      modifies this`direct, this`explicit, this`optional
      ensures Valid() && task == old(Queue(lane)[0])
      ensures Abs() == old(Abs()).WithQueue(lane, old(Queue(lane)[1..]))
    {
      match lane {
        case Direct => task, direct := direct[0], direct[1..];
        case ExplicitFeature => task, explicit := explicit[0], explicit[1..];
        case Optional => task, optional := optional[0], optional[1..];
      }
    }

    /** The schedule scan.  With work queued it stops at the slot that `Dequeue`
        serves, so its fallback is reached only when every lane is empty. */
    method SelectLane() returns (lane: Lane, fellBack: bool)
      requires Valid()
      modifies this`scheduleIndex
      ensures Valid()
      ensures fellBack <==> Idle(old(Abs()))
      ensures !fellBack ==> lane == NextLane(old(Abs()))
      ensures !fellBack ==> scheduleIndex == NextSlot(ServingSlot(old(Abs())))
      ensures fellBack ==> lane == Optional && scheduleIndex == old(scheduleIndex)
    {
      ghost var s := Abs();
      assert ServingSlot(s) == Scan(s, scheduleIndex, 7);
      ScanStarts(s);
      hide ServingSlot, Idle, NextLane, Scan, Scanned, NextSlot, LaneAt, Distance;
      var checked := 0;
      ScheduleTable(0);
      while checked < |SCHEDULE|
        invariant 0 <= checked <= 7 && scheduleIndex < 7
        invariant direct == s.direct && explicit == s.explicit && optional == s.optional
        invariant Scanned(s, scheduleIndex, checked)
        invariant ServingSlot(s) == Scan(s, scheduleIndex, 7 - checked)
      {
        ScanStep(s, scheduleIndex, checked);
        var candidate := NextCandidate();
        assert Queue(candidate) == s.Queue(candidate);
        if Queue(candidate) != [] {
          return candidate, false;
        }
        checked := checked + 1;
      }
      ScanEnds(s, scheduleIndex);
      assert direct == [] && explicit == [] && optional == [];
      if direct != [] {
        return Direct, true;
      }
      if explicit != [] {
        return ExplicitFeature, true;
      }
      return Optional, true;
    }

    /** A worker's first mutex section. */
    method Take() returns (taken: seq<Task>)
      requires Valid()
      modifies this
      ensures Valid() && Abs() == Step(old(Abs()), Dequeue)
      ensures taken == Head(old(Abs()))
    {
      hide NextLane, ServingSlot, NextSlot, Idle, Dequeued, Step, Head, State.WithQueue;
      ghost var s := Abs();
      IdleMeansEmpty(s);
      DequeueIs(s);
      if |direct| + |explicit| + |optional| == 0 {
        return [];
      }
      var lane, _ := SelectLane();
      ghost var moved := Abs();
      assert moved == s.(index := scheduleIndex) && Queue(lane) == s.Queue(lane);
      var task := PopFront(lane);
      MoveThenPop(s, scheduleIndex, lane, s.Queue(lane)[1..]);
      ghost var popped := Abs();
      active := active + 1;
      running := running + multiset{task};
      assert Abs() == popped.(running := s.running + multiset{task});
      return [task];
    }

    /** A worker's second mutex section, after its task returned or threw. */
    method Finish(task: Task)
      requires Valid() && task in running
      modifies this
      ensures Valid() && Abs() == Step(old(Abs()), Complete(task))
    {
      hide Step;
      CompleteIs(Abs(), task);
      active := active - 1;
      running := running - multiset{task};
      finished := finished + multiset{task};
    }

    static method Append(target: seq<Task>, source: seq<Task>) returns (joined: seq<Task>)
      ensures joined == target + source
    {
      joined := target;
      var rest := source;
      while rest != []
        invariant joined + rest == target + source
        decreases |rest|
      {
        joined := joined + [rest[0]];
        rest := rest[1..];
      }
    }

    /** Drains every lane in lane order and calls each supplied cancellation once. */
    method Shutdown() returns (cancelled: seq<Task>)
      requires Valid()
      modifies this
      ensures Valid() && Abs() == Step(old(Abs()), Stop)
      ensures cancelled == Cancellable(old(direct + explicit + optional))
    {
      hide Submitted, Dequeued, Completed, Cancellable;
      accepting := false;
      var pending := Append([], direct);
      pending := Append(pending, explicit);
      pending := Append(pending, optional);
      assert pending == direct + explicit + optional;
      drained := drained + pending;
      direct, explicit, optional := [], [], [];
      cancelled := CancelEach(pending);
    }

    /** The loop of `stop` behind the lock. */
    static method CancelEach(pending: seq<Task>) returns (cancelled: seq<Task>)
      ensures cancelled == Cancellable(pending)
    {
      cancelled := [];
      for i := 0 to |pending|
        invariant cancelled == Cancellable(pending[..i])
      {
        assert pending[..i + 1][..i] == pending[..i];
        if pending[i].cancellable {
          cancelled := cancelled + [pending[i]];
        }
      }
      assert pending[..|pending|] == pending;
    }
  }

  /** The tasks that came with a cancellation, in order. */
  function Cancellable(tasks: seq<Task>): seq<Task> {
    if tasks == [] then []
    else
      var last := |tasks| - 1;
      Cancellable(tasks[..last]) + (if tasks[last].cancellable then [tasks[last]] else [])
  }

  /** Which tasks are cancelled: those that came with a cancellation, each as often
      as it was drained, and in that order. */
  lemma {:induction false} CancellableAre(tasks: seq<Task>, task: Task)
    ensures multiset(Cancellable(tasks))[task] == if task.cancellable then multiset(tasks)[task] else 0
    ensures forall k :: 0 <= k <= |tasks| ==> Cancellable(tasks[..k]) <= Cancellable(tasks)
  {
    if tasks != [] {
      var n := |tasks| - 1;
      CancellableAre(tasks[..n], task);
      assert tasks == tasks[..n] + [tasks[n]];
      forall k | 0 <= k <= |tasks|
        ensures Cancellable(tasks[..k]) <= Cancellable(tasks)
      {
        if k <= n {
          assert tasks[..n][..k] == tasks[..k];
        } else {
          assert tasks[..k] == tasks;
        }
      }
    }
  }
}
