/**
  The sequenced interaction editor of src/interaction_handler.cpp: edits of one
  interaction response, at most one of them at the sender, later terminal edits
  replacing earlier ones that still wait.

  The class holds the two critical sections.  Everything else happens outside
  the lock, so it is modelled as separate events: handing an edit to the sender,
  its first completion (which fires the callback and may re-enter `Submit`), the
  critical section that follows, and the firing of rejected callbacks.
 */
module InteractionEditor {

  import opened Wrappers

  /** An edit and its callback; `id` is the position in submission order. */
  datatype Edit = Edit(id: nat, terminal: bool)

  /** The fields under the lock. */
  datatype Core = Core(inFlight: bool, terminalSeen: bool, pending: Option<Edit>)

  /** What `submit` does once it has left the lock. */
  datatype Verdict = Verdict(rejected: Option<Edit>, dispatch: Option<Edit>)

  function SubmitVerdict(c: Core, e: Edit): Verdict {
    if e.terminal then
      if c.inFlight then Verdict(c.pending, None) else Verdict(None, Some(e))
    else if c.inFlight || c.terminalSeen then Verdict(Some(e), None)
    else Verdict(None, Some(e))
  }

  function SubmitCore(c: Core, e: Edit): Core {
    Core(c.inFlight || SubmitVerdict(c, e).dispatch.Some?,
         c.terminalSeen || e.terminal,
         if e.terminal && c.inFlight then Some(e) else c.pending)
  }

  function CompleteCore(c: Core): Core {
    if c.pending.Some? then c.(pending := None) else c.(inFlight := false)
  }

  // ------------------------------------------------------------- the class

  class SequencedInteractionEditor {
    var inFlight: bool
    var terminalSeen: bool
    var pendingTerminal: Option<Edit>

    ghost function Abs(): Core
      reads this
    {
      Core(inFlight, terminalSeen, pendingTerminal)
    }

    constructor ()
      ensures Abs() == Core(false, false, None)
    {
      inFlight, terminalSeen, pendingTerminal := false, false, None;
    }

    /** The critical section of `submit`. */
    method Submit(edit: Edit) returns (rejected: Option<Edit>, dispatchNow: Option<Edit>)
      modifies this
      ensures Abs() == SubmitCore(old(Abs()), edit)
      ensures Verdict(rejected, dispatchNow) == SubmitVerdict(old(Abs()), edit)
    {
      rejected, dispatchNow := None, None;
      if edit.terminal {
        terminalSeen := true;
        if inFlight {
          if pendingTerminal.Some? {
            rejected := pendingTerminal;
          }
          pendingTerminal := Some(edit);
        } else {
          inFlight := true;
          dispatchNow := Some(edit);
        }
      } else if inFlight || terminalSeen {
        rejected := Some(edit);
      } else {
        inFlight := true;
        dispatchNow := Some(edit);
      }
    }

    /** The critical section of `complete`; `next` is dispatched afterwards. */
    method Complete() returns (next: Option<Edit>)
      modifies this
      ensures Abs() == CompleteCore(old(Abs()))
      ensures next == old(Abs()).pending
    {
      next := None;
      if pendingTerminal.Some? {
        next := pendingTerminal;
        pendingTerminal := None;
      } else {
        inFlight := false;
      }
    }
  }

  // ---------------------------------------------------- the whole protocol

  /** A dispatched edit: on its way to the sender, at the sender, or answered
      with the critical section of `complete` still to come. */
  datatype Stage = Dispatching | AtSender | Answered

  datatype System = System(
    core: Core,
    active: map<Edit, Stage>,
    rejecting: set<Edit>,
    submitted: seq<Edit>,
    chosen: seq<Edit>,
    sent: seq<Edit>,
    fired: multiset<Edit>)

  datatype Event =
    | DoSubmit(terminal: bool)
    | CallSender(edit: Edit)
    | Answer(edit: Edit)        // a completion; also what a throwing sender causes
    | Settle(edit: Edit)
    | FireRejected(edit: Edit)

  function AsSet(e: Option<Edit>): set<Edit> { if e.Some? then {e.value} else {} }

  function Dispatched(s: System, next: Option<Edit>): System {
    match next
    case None => s
    case Some(e) => s.(active := s.active[e := Dispatching], chosen := s.chosen + [e])
  }

  function AfterSubmit(s: System, terminal: bool): System {
    var e := Edit(|s.submitted|, terminal);
    var verdict := SubmitVerdict(s.core, e);
    Dispatched(
      s.(core := SubmitCore(s.core, e), submitted := s.submitted + [e],
         rejecting := s.rejecting + AsSet(verdict.rejected)),
      verdict.dispatch)
  }

  /** Only the first completion of an edit counts: the once-flag. */
  function AfterAnswer(s: System, e: Edit): System {
    if e in s.active && s.active[e] == AtSender
    then s.(active := s.active[e := Answered], fired := s.fired + multiset{e})
    else s
  }

  function AfterSettle(s: System, e: Edit): System {
    if e in s.active && s.active[e] == Answered
    then Dispatched(s.(core := CompleteCore(s.core), active := s.active - {e}), s.core.pending)
    else s
  }

  function Next(s: System, event: Event): System {
    match event
    case DoSubmit(terminal) => AfterSubmit(s, terminal)
    case CallSender(e) =>
      if e in s.active && s.active[e] == Dispatching
      then s.(active := s.active[e := AtSender], sent := s.sent + [e])
      else s
    case Answer(e) => AfterAnswer(s, e)
    case Settle(e) => AfterSettle(s, e)
    case FireRejected(e) =>
      if e in s.rejecting
      then s.(rejecting := s.rejecting - {e}, fired := s.fired + multiset{e})
      else s
  }

  function Run(s: System, events: seq<Event>): System
    decreases |events|
  {
    if events == [] then s else Run(Next(s, events[0]), events[1..])
  }

  const START := System(Core(false, false, None), map[], {}, [], [], [], multiset{})

  // ---------------------------------------------------------- the invariant

  predicate Known(s: System, e: Edit) { e.id < |s.submitted| && s.submitted[e.id] == e }

  /** Where the callback of an edit is: exactly one of these is 1. */
  function Waits(s: System, e: Edit): nat {
    (if s.core.pending == Some(e) then 1 else 0)
    + (if e in s.active && s.active[e] != Answered then 1 else 0)
    + (if e in s.rejecting then 1 else 0)
  }

  ghost predicate CallbacksAccounted(s: System) {
    && (forall i :: 0 <= i < |s.submitted| ==> s.submitted[i].id == i)
    && (forall e :: Known(s, e) ==> s.fired[e] + Waits(s, e) == 1)
    && (forall e :: !Known(s, e) ==> s.fired[e] + Waits(s, e) == 0)
  }

  /** One edit in flight, and it is the last one chosen. */
  ghost predicate OneInFlight(s: System) {
    && (s.core.inFlight <==> s.active != map[])
    && (forall e :: e in s.active ==> s.chosen != [] && e == s.chosen[|s.chosen| - 1])
    && (s.core.pending.Some? ==> s.core.inFlight && s.core.terminalSeen && s.core.pending.value.terminal)
    && s.chosen == s.sent + (if s.chosen != [] && s.chosen[|s.chosen| - 1] in s.active
                                && s.active[s.chosen[|s.chosen| - 1]] == Dispatching
                             then [s.chosen[|s.chosen| - 1]] else [])
  }

  /** Non-terminal edits first, then terminal ones, in submission order. */
  ghost predicate InOrder(edits: seq<Edit>) {
    forall i, j :: 0 <= i < j < |edits| ==>
      edits[i].id < edits[j].id && (edits[i].terminal ==> edits[j].terminal)
  }

  function LastTerminal(edits: seq<Edit>): Option<Edit> {
    if edits == [] then None
    else if edits[|edits| - 1].terminal then Some(edits[|edits| - 1])
    else LastTerminal(edits[..|edits| - 1])
  }

  ghost predicate IdsBelow(edits: seq<Edit>, id: nat) {
    forall i :: 0 <= i < |edits| ==> edits[i].id < id
  }

  ghost predicate Ordered(s: System) {
    && InOrder(s.chosen)
    && (forall i :: 0 <= i < |s.chosen| ==> Known(s, s.chosen[i]))
    && (!s.core.terminalSeen ==> forall i :: 0 <= i < |s.submitted| ==> !s.submitted[i].terminal)
    && (s.core.pending.Some? ==> Known(s, s.core.pending.value) && IdsBelow(s.chosen, s.core.pending.value.id))
    && (s.core.terminalSeen ==>
          LastTerminal(s.submitted) ==
            if s.core.pending.Some? then s.core.pending
            else if s.chosen != [] then Some(s.chosen[|s.chosen| - 1]) else None)
    && (s.core.terminalSeen ==> LastTerminal(s.submitted).Some?)
  }

  ghost predicate Inv(s: System) { CallbacksAccounted(s) && OneInFlight(s) && Ordered(s) }

  lemma SubmitKeepsCallbacks(s: System, terminal: bool)
    requires Inv(s)
    ensures CallbacksAccounted(AfterSubmit(s, terminal))
  {
    var e, t := Edit(|s.submitted|, terminal), AfterSubmit(s, terminal);
    assert !Known(s, e);
    forall d ensures Known(t, d) == (Known(s, d) || d == e) {
    }
  }

  lemma SubmitKeepsFlight(s: System, terminal: bool)
    requires Inv(s)
    ensures OneInFlight(AfterSubmit(s, terminal))
  {
    var e, t := Edit(|s.submitted|, terminal), AfterSubmit(s, terminal);
    assert !Known(s, e);
  }

  lemma InOrderAppend(edits: seq<Edit>, e: Edit)
    requires InOrder(edits) && IdsBelow(edits, e.id)
    requires !e.terminal ==> forall i :: 0 <= i < |edits| ==> !edits[i].terminal
    ensures InOrder(edits + [e])
  {
  }

  lemma SubmitKeepsChosen(s: System, terminal: bool)
    requires Inv(s)
    ensures InOrder(AfterSubmit(s, terminal).chosen)
    ensures forall i :: 0 <= i < |AfterSubmit(s, terminal).chosen| ==>
              Known(AfterSubmit(s, terminal), AfterSubmit(s, terminal).chosen[i])
  {
    hide InOrder, CallbacksAccounted, OneInFlight, LastTerminal;
    var e, t := Edit(|s.submitted|, terminal), AfterSubmit(s, terminal);
    assert forall d :: Known(s, d) ==> Known(t, d);
    if SubmitVerdict(s.core, e).dispatch.Some? {
      assert t.chosen == s.chosen + [e];
      assert IdsBelow(s.chosen, e.id);
      if !terminal {
        forall i | 0 <= i < |s.chosen| ensures !s.chosen[i].terminal {
          assert Known(s, s.chosen[i]);
        }
      }
      InOrderAppend(s.chosen, e);
    }
  }

  lemma SubmitKeepsOrder(s: System, terminal: bool)
    requires Inv(s)
    ensures Ordered(AfterSubmit(s, terminal))
  {
    SubmitKeepsChosen(s, terminal);
    hide InOrder, CallbacksAccounted, LastTerminal;
    var e, t := Edit(|s.submitted|, terminal), AfterSubmit(s, terminal);
    assert forall d :: Known(s, d) ==> Known(t, d);
    LastTerminalAppend(s.submitted, e);
  }

  lemma LastTerminalAppend(edits: seq<Edit>, e: Edit)
    ensures LastTerminal(edits + [e]) == if e.terminal then Some(e) else LastTerminal(edits)
  {
    assert (edits + [e])[..|edits|] == edits;
  }

  lemma SettleKeeps(s: System, e: Edit)
    requires Inv(s)
    ensures Inv(AfterSettle(s, e))
  {
    hide InOrder, LastTerminal;
    var t := AfterSettle(s, e);
    if e in s.active && s.active[e] == Answered {
      assert s.active.Keys == {e};
      assert s.active - {e} == map[];
      assert forall d :: Known(t, d) == Known(s, d);
      if s.core.pending.Some? {
        InOrderAppend(s.chosen, s.core.pending.value);
        assert t.chosen == s.chosen + [s.core.pending.value];
        assert CallbacksAccounted(t);
        assert OneInFlight(t);
        assert Ordered(t);
      }
    }
  }

  lemma SendKeeps(s: System, e: Edit)
    requires Inv(s)
    ensures Inv(Next(s, CallSender(e)))
  {
    hide InOrder, LastTerminal;
    var t := Next(s, CallSender(e));
    assert forall d :: Known(t, d) == Known(s, d);
  }

  lemma AnswerKeeps(s: System, e: Edit)
    requires Inv(s)
    ensures Inv(Next(s, Answer(e)))
  {
    hide InOrder, LastTerminal;
    var t := Next(s, Answer(e));
    assert forall d :: Known(t, d) == Known(s, d);
  }

  lemma FireKeepsCallbacks(s: System, e: Edit)
    requires CallbacksAccounted(s)
    ensures CallbacksAccounted(Next(s, FireRejected(e)))
  {
    hide AfterSubmit, AfterAnswer, AfterSettle;
    var t := Next(s, FireRejected(e));
    assert forall d :: Known(t, d) == Known(s, d);
  }

  lemma FireKeeps(s: System, e: Edit)
    requires Inv(s)
    ensures Inv(Next(s, FireRejected(e)))
  {
    hide CallbacksAccounted, InOrder, LastTerminal, IdsBelow, AfterSubmit, AfterAnswer, AfterSettle;
    FireKeepsCallbacks(s, e);
    var t := Next(s, FireRejected(e));
    assert forall d :: Known(t, d) == Known(s, d);
  }

  lemma {:induction false} RunsKeepInv(s: System, events: seq<Event>)
    requires Inv(s)
    ensures Inv(Run(s, events))
    decreases |events|
  {
    hide CallbacksAccounted, OneInFlight, Ordered, AfterSubmit, AfterSettle, AfterAnswer;
    if events != [] {
      match events[0] {
        case DoSubmit(terminal) =>
          SubmitKeepsCallbacks(s, terminal);
          SubmitKeepsFlight(s, terminal);
          SubmitKeepsOrder(s, terminal);
        case Settle(e) => SettleKeeps(s, e);
        case CallSender(e) => SendKeeps(s, e);
        case Answer(e) => AnswerKeeps(s, e);
        case FireRejected(e) => FireKeeps(s, e);
      }
      RunsKeepInv(Next(s, events[0]), events[1..]);
    }
  }

  // --------------------------------------------------------------- theorems

  lemma StartIsInv()
    ensures Inv(START)
  {
  }

  /** At most one edit is with the sender or on its way, whatever the order of
      submissions and completions. */
  lemma AtMostOneOutstanding(events: seq<Event>, a: Edit, b: Edit)
    requires a in Run(START, events).active && b in Run(START, events).active
    ensures a == b
  {
    hide Run, CallbacksAccounted, Ordered;
    StartIsInv();
    RunsKeepInv(START, events);
  }

  /** What the sender has seen is non-terminal edits followed by terminal ones,
      in submission order; once a terminal edit was submitted and nothing is in
      flight, the last edit sent is the last terminal one submitted. */
  lemma SentInOrder(events: seq<Event>)
    ensures var s := Run(START, events);
            && InOrder(s.sent)
            && (s.active == map[] && LastTerminal(s.submitted).Some? ==>
                  s.sent != [] && Some(s.sent[|s.sent| - 1]) == LastTerminal(s.submitted))
  {
    hide Run, CallbacksAccounted;
    StartIsInv();
    RunsKeepInv(START, events);
    var s := Run(START, events);
    assert forall i :: 0 <= i < |s.sent| ==> s.sent[i] == s.chosen[i];
    if !s.core.terminalSeen {
      NoTerminal(s.submitted);
    }
  }

  lemma {:induction false} NoTerminal(edits: seq<Edit>)
    requires forall i :: 0 <= i < |edits| ==> !edits[i].terminal
    ensures LastTerminal(edits) == None
  {
    if edits != [] {
      NoTerminal(edits[..|edits| - 1]);
    }
  }

  /** Every callback fires at most once, and exactly once when no send is open
      and no rejection is still to be reported. */
  lemma CallbacksFireOnce(events: seq<Event>, e: Edit)
    ensures var s := Run(START, events);
            && s.fired[e] <= (if Known(s, e) then 1 else 0)
            && (s.active == map[] && s.rejecting == {} && Known(s, e) ==> s.fired[e] == 1)
  {
    hide Run, Ordered;
    StartIsInv();
    RunsKeepInv(START, events);
  }

  ghost predicate AnyTerminal(edits: seq<Edit>) {
    exists i :: 0 <= i < |edits| && edits[i].terminal
  }

  /** What a submission does in every reachable state.  With nothing in flight a
      terminal edit is dispatched, and so is a non-terminal one before any
      terminal one; otherwise a non-terminal edit is rejected, and a terminal one
      waits in place of the one that waited. */
  lemma SubmitDecides(events: seq<Event>, terminal: bool)
    ensures var s, e := Run(START, events), Edit(|Run(START, events).submitted|, terminal);
            var t := AfterSubmit(s, terminal);
            && (t.chosen == s.chosen + [e] <==> s.active == map[] && (terminal || !AnyTerminal(s.submitted)))
            && (t.chosen == s.chosen <==> s.active != map[] || (!terminal && AnyTerminal(s.submitted)))
            && (t.core.pending == Some(e) <==> terminal && s.active != map[])
            && t.rejecting == s.rejecting
                 + (if !terminal && (s.active != map[] || AnyTerminal(s.submitted)) then {e} else {})
                 + (if terminal && s.active != map[] then AsSet(s.core.pending) else {})
  {
    hide Run, CallbacksAccounted;
    StartIsInv();
    RunsKeepInv(START, events);
    var s := Run(START, events);
    SeenIsAny(s);
    PendingIsOld(s);
    assert |s.chosen + [Edit(|s.submitted|, terminal)]| == |s.chosen| + 1;
  }

  lemma SeenIsAny(s: System)
    requires Ordered(s)
    ensures s.core.terminalSeen <==> AnyTerminal(s.submitted)
  {
    if !AnyTerminal(s.submitted) {
      NoTerminal(s.submitted);
    }
  }

  lemma PendingIsOld(s: System)
    requires Ordered(s)
    ensures s.core.pending.Some? ==> s.core.pending.value.id < |s.submitted|
  {
  }

  /** When the open edit is answered, the waiting terminal edit is dispatched next;
      without one the editor is idle. */
  lemma SettleDecides(events: seq<Event>, e: Edit)
    requires e in Run(START, events).active && Run(START, events).active[e] == Answered
    ensures var s, t := Run(START, events), AfterSettle(Run(START, events), e);
            && t.core.pending.None?
            && (s.core.pending.Some? ==> t.chosen == s.chosen + [s.core.pending.value] && s.core.pending.value in t.active)
            && (s.core.pending.None? ==> t.active == map[] && t.chosen == s.chosen)
  {
    hide Run, CallbacksAccounted, Ordered;
    StartIsInv();
    RunsKeepInv(START, events);
    var s := Run(START, events);
    assert s.active.Keys == {e};
  }

  /** The open edit always proceeds: it reaches the sender, its first answer fires its
      callback, later ones do nothing, and a rejected callback can be fired. */
  lemma EditsProceed(s: System, e: Edit)
    ensures e in s.active && s.active[e] == Dispatching ==>
              Next(s, CallSender(e)) == s.(active := s.active[e := AtSender], sent := s.sent + [e])
    ensures e in s.active && s.active[e] == AtSender ==>
              Next(s, Answer(e)) == s.(active := s.active[e := Answered], fired := s.fired + multiset{e})
    ensures !(e in s.active && s.active[e] == AtSender) ==> Next(s, Answer(e)) == s
    ensures e in s.rejecting ==> Next(s, FireRejected(e)).fired == s.fired + multiset{e}
  {
  }
}
