/**
  The budgets of text generation: the attempts of one guild as
  src/persistence/sqlite_ai_generation_repository.cpp keeps them, the admission
  tests of `reserve`, and every update of a row.
 */
module AiLedger {

  datatype State = Reserved | Submitted | Succeeded | Failed | Cancelled | Unknown

  datatype Entry = Entry(createdAt: nat, reserved: nat, state: State, actual: nat)

  /** The two things a budget counts. */
  datatype Measure = MicroUsd | Generations

  function Weight(m: Measure, e: Entry): nat {
    if e.state == Cancelled then 0
    else match m
      case Generations => 1
      case MicroUsd => if e.state == Succeeded then e.actual else e.reserved
  }

  /** The SUM and COUNT queries: everything created at `since` or later. */
  function Used(ledger: seq<Entry>, m: Measure, since: int): nat {
    if ledger == [] then 0
    else
      var e := ledger[|ledger| - 1];
      Used(ledger[..|ledger| - 1], m, since) + (if e.createdAt >= since then Weight(m, e) else 0)
  }

  /** What was used by the attempts created from `lo` to `hi`. */
  function UsedWithin(ledger: seq<Entry>, m: Measure, lo: int, hi: int): nat {
    if ledger == [] then 0
    else
      var e := ledger[|ledger| - 1];
      UsedWithin(ledger[..|ledger| - 1], m, lo, hi) + (if lo <= e.createdAt <= hi then Weight(m, e) else 0)
  }

  // --------------------------------------------------------------- the store

  const ROLLING_DAY_MS := 86_400_000

  datatype Policy = Policy(dayGenerations: nat, dayMicroUsd: int, monthMicroUsd: int)

  function DayStart(now: nat): nat { if now > ROLLING_DAY_MS then now - ROLLING_DAY_MS else 0 }

  predicate WouldExceed(used: int, reserved: int, limit: int) {
    used < 0 || reserved < 0 || limit < 0 || used > limit || reserved > limit - used
  }

  /** The three budget tests; `monthStart` is the first instant of the current
      calendar month. */
  predicate Admitted(ledger: seq<Entry>, p: Policy, now: nat, monthStart: nat, micro: nat) {
    && Used(ledger, Generations, DayStart(now)) < p.dayGenerations
    && !WouldExceed(Used(ledger, MicroUsd, DayStart(now)), micro, p.dayMicroUsd)
    && !WouldExceed(Used(ledger, MicroUsd, monthStart), micro, p.monthMicroUsd)
  }

  /** `otherwise` stands for the tests that are not about these budgets. */
  datatype Event =
    | Reserve(now: nat, monthStart: nat, micro: nat, otherwise: bool)
    | MarkSubmitted(k: nat)
    | Complete(k: nat, actual: nat)
    | Fail(k: nat)
    | Cancel(k: nat)
    | RecoverReserved
    | RecoverSubmitted

  function Moved(ledger: seq<Entry>, k: nat, from: State, to: State): seq<Entry> {
    if k < |ledger| && ledger[k].state == from then ledger[k := ledger[k].(state := to)] else ledger
  }

  /** An UPDATE without a row id. */
  function AllMoved(ledger: seq<Entry>, from: State, to: State): (r: seq<Entry>)
    ensures |r| == |ledger|
  {
    seq(|ledger|, i requires 0 <= i < |ledger| => if ledger[i].state == from then ledger[i].(state := to) else ledger[i])
  }

  function Step(ledger: seq<Entry>, p: Policy, e: Event): seq<Entry> {
    match e
    case Reserve(now, monthStart, micro, otherwise) =>
      if otherwise && micro > 0 && Admitted(ledger, p, now, monthStart, micro)
      then ledger + [Entry(now, micro, Reserved, 0)] else ledger
    case MarkSubmitted(k) => Moved(ledger, k, Reserved, Submitted)
    case Complete(k, actual) =>
      // the table's CHECK keeps actual_micro_usd within the reservation
      if k < |ledger| && ledger[k].state == Submitted && actual <= ledger[k].reserved
      then ledger[k := ledger[k].(state := Succeeded, actual := actual)] else ledger
    case Fail(k) => Moved(ledger, k, Submitted, Failed)
    case Cancel(k) => Moved(ledger, k, Reserved, Cancelled)
    case RecoverReserved => AllMoved(ledger, Reserved, Cancelled)
    case RecoverSubmitted => AllMoved(ledger, Submitted, Unknown)
  }

  function Run(p: Policy, es: seq<Event>): seq<Entry> {
    if es == [] then [] else Step(Run(p, es[..|es| - 1]), p, es[|es| - 1])
  }

  // ----------------------------------------------------- settling only lowers

  predicate Lower(after: seq<Entry>, before: seq<Entry>) {
    && |after| == |before|
    && forall k :: 0 <= k < |after| ==>
         && after[k].createdAt == before[k].createdAt
         && Weight(MicroUsd, after[k]) <= Weight(MicroUsd, before[k])
         && Weight(Generations, after[k]) <= Weight(Generations, before[k])
  }

  lemma SettlingLowers(ledger: seq<Entry>, p: Policy, e: Event)
    requires !e.Reserve?
    ensures Lower(Step(ledger, p, e), ledger)
  {
  }

  lemma {:induction false} LowerUsesLess(after: seq<Entry>, before: seq<Entry>, m: Measure, lo: int, hi: int)
    requires Lower(after, before)
    ensures UsedWithin(after, m, lo, hi) <= UsedWithin(before, m, lo, hi)
    decreases |after|
  {
    hide Weight;
    if after != [] {
      var n := |after| - 1;
      LowerUsesLess(after[..n], before[..n], m, lo, hi);
      assert after[n].createdAt == before[n].createdAt;
    }
  }

  lemma {:induction false} WindowIsCounted(ledger: seq<Entry>, m: Measure, since: int, lo: int, hi: int)
    requires since <= lo
    ensures UsedWithin(ledger, m, lo, hi) <= Used(ledger, m, since)
    decreases |ledger|
  {
    hide Weight;
    if ledger != [] {
      WindowIsCounted(ledger[..|ledger| - 1], m, since, lo, hi);
    }
  }

  // ---------------------------------------------------------------- budgets

  datatype Budget = DayGenerations | DayMicroUsd | MonthMicroUsd

  function MeasureOf(b: Budget): Measure { if b == DayGenerations then Generations else MicroUsd }

  function LimitOf(b: Budget, p: Policy): int {
    match b
    case DayGenerations => p.dayGenerations
    case DayMicroUsd => p.dayMicroUsd
    case MonthMicroUsd => p.monthMicroUsd
  }

  function SinceOf(b: Budget, now: nat, monthStart: nat): nat {
    if b == MonthMicroUsd then monthStart else DayStart(now)
  }

  /** Every admission inside the window was tested against all of it so far. */
  predicate Covers(b: Budget, es: seq<Event>, lo: int, hi: int) {
    forall i :: 0 <= i < |es| && es[i].Reserve? && lo <= es[i].now <= hi ==>
      SinceOf(b, es[i].now, es[i].monthStart) <= lo
  }

  lemma AdmissionFits(ledger: seq<Entry>, p: Policy, e: Event, b: Budget)
    requires e.Reserve? && Step(ledger, p, e) != ledger
    ensures Step(ledger, p, e) == ledger + [Entry(e.now, e.micro, Reserved, 0)]
    ensures Used(ledger, MeasureOf(b), SinceOf(b, e.now, e.monthStart))
            + Weight(MeasureOf(b), Entry(e.now, e.micro, Reserved, 0)) <= LimitOf(b, p)
  {
  }

  /** No window that the admissions cover ever exceeds its budget, whatever the
      clock did and however attempts were settled or recovered. */
  lemma {:induction false} WindowsStayWithinBudget(p: Policy, es: seq<Event>, b: Budget, lo: int, hi: int)
    requires LimitOf(b, p) >= 0 && Covers(b, es, lo, hi)
    ensures UsedWithin(Run(p, es), MeasureOf(b), lo, hi) <= LimitOf(b, p)
    decreases |es|
  {
    hide Step, Lower, SinceOf, MeasureOf, LimitOf, Weight;
    if es != [] {
      var before, e := es[..|es| - 1], es[|es| - 1];
      var ledger := Run(p, before);
      WindowsStayWithinBudget(p, before, b, lo, hi);
      if !e.Reserve? {
        SettlingLowers(ledger, p, e);
        LowerUsesLess(Step(ledger, p, e), ledger, MeasureOf(b), lo, hi);
      } else if Step(ledger, p, e) != ledger {
        AdmissionFits(ledger, p, e, b);
        assert Step(ledger, p, e)[..|ledger|] == ledger;
        if lo <= e.now <= hi {
          WindowIsCounted(ledger, MeasureOf(b), SinceOf(b, e.now, e.monthStart), lo, hi);
        }
      }
    }
  }

  /** Any 24 hours: neither more attempts nor more money than the policy allows. */
  lemma AnyDayStaysWithinBudget(p: Policy, es: seq<Event>, lo: nat)
    requires p.dayMicroUsd >= 0
    ensures UsedWithin(Run(p, es), MicroUsd, lo, lo + 86_400_000) <= p.dayMicroUsd
    ensures UsedWithin(Run(p, es), Generations, lo, lo + 86_400_000) <= p.dayGenerations
  {
    hide Run, UsedWithin;
    WindowsStayWithinBudget(p, es, DayMicroUsd, lo, lo + 86_400_000);
    WindowsStayWithinBudget(p, es, DayGenerations, lo, lo + 86_400_000);
  }

  /** Any calendar month from `first` to `last`, given that `monthStart` names
      the first instant of the month it falls in. */
  lemma AnyMonthStaysWithinBudget(p: Policy, es: seq<Event>, first: nat, last: nat)
    requires p.monthMicroUsd >= 0
    requires forall i :: 0 <= i < |es| && es[i].Reserve? && first <= es[i].now <= last ==> es[i].monthStart == first
    ensures UsedWithin(Run(p, es), MicroUsd, first, last) <= p.monthMicroUsd
  {
    hide Run, UsedWithin;
    WindowsStayWithinBudget(p, es, MonthMicroUsd, first, last);
  }

  // --------------------------------------------------- what each event does

  /** A reservation is entered exactly when it costs something and, together with
      what is counted, fits the daily count, the daily cost and the monthly cost. */
  lemma ReserveDecides(ledger: seq<Entry>, p: Policy, e: Event)
    requires e.Reserve? && p.dayMicroUsd >= 0 && p.monthMicroUsd >= 0
    ensures var since := if e.now > 86_400_000 then e.now - 86_400_000 else 0;
            Step(ledger, p, e) == ledger + [Entry(e.now, e.micro, Reserved, 0)] <==>
              && e.otherwise && e.micro > 0
              && Used(ledger, Generations, since) + 1 <= p.dayGenerations
              && Used(ledger, MicroUsd, since) + e.micro <= p.dayMicroUsd
              && Used(ledger, MicroUsd, e.monthStart) + e.micro <= p.monthMicroUsd
    ensures Step(ledger, p, e) in {ledger, ledger + [Entry(e.now, e.micro, Reserved, 0)]}
  {
    assert |ledger + [Entry(e.now, e.micro, Reserved, 0)]| == |ledger| + 1;
  }

  /** Settlements take effect: a completed attempt is charged what it used, a
      cancelled one nothing, and a failed or unknown one stays charged in full. */
  lemma SettlementsCount(ledger: seq<Entry>, p: Policy, k: nat, actual: nat)
    requires k < |ledger|
    ensures ledger[k].state == Submitted && actual <= ledger[k].reserved ==>
              Weight(MicroUsd, Step(ledger, p, Complete(k, actual))[k]) == actual
    ensures ledger[k].state == Submitted ==>
              && Weight(MicroUsd, Step(ledger, p, Fail(k))[k]) == ledger[k].reserved
              && Weight(MicroUsd, Step(ledger, p, RecoverSubmitted)[k]) == ledger[k].reserved
              && Step(ledger, p, Fail(k))[k].state == Failed && Step(ledger, p, RecoverSubmitted)[k].state == Unknown
    ensures ledger[k].state == Reserved ==>
              && Step(ledger, p, MarkSubmitted(k))[k].state == Submitted
              && Weight(MicroUsd, Step(ledger, p, Cancel(k))[k]) == 0 == Weight(Generations, Step(ledger, p, Cancel(k))[k])
              && Weight(MicroUsd, Step(ledger, p, RecoverReserved)[k]) == 0
  {
  }
}
