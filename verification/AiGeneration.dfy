/**
  Reservation accounting of src/ai_generation.cpp: the price of a request in
  rounded-up micro-dollars, and the settlement of an admitted attempt on every
  exit of `generate`.  The budgets over all attempts are in AiLedger.
 */
module AiGeneration {

  import opened Wrappers

  const INT64_MAX := 0x7FFF_FFFF_FFFF_FFFF

  // ------------------------------------------------------------------ price

  datatype Price = Price(micro: int) | InvalidArgument | Overflow

  /** One `charge` in int64: None stands for the overflow_error. */
  function Charge(tokens: nat, rate: int): Option<int>
    requires rate > 0
  {
    if tokens > (INT64_MAX - 999_999) / rate then None
    else Some((tokens * rate + 999_999) / 1_000_000)
  }

  function EstimatedCost(input: nat, output: nat, inputRate: int, outputRate: int): Price {
    if inputRate <= 0 || outputRate <= 0 || input > 16_000 || output > 500 then InvalidArgument
    else if Charge(input, inputRate).None? || Charge(output, outputRate).None? then Overflow
    else Price(Charge(input, inputRate).value + Charge(output, outputRate).value)
  }

  /** `micro` is the exact price of the tokens, rounded up. */
  predicate RoundedUp(micro: int, tokens: nat, rate: int) {
    (micro - 1) * 1_000_000 < tokens * rate <= micro * 1_000_000
  }

  lemma DivideAndMultiply(x: int, y: int, q: int)
    requires y > 0 && 0 <= q <= x / y
    ensures q * y <= x
  {
    assert x == (x / y) * y + x % y;
    assert q * y <= (x / y) * y by { MultiplyMonotone(q, x / y, y); }
  }

  lemma MultiplyMonotone(a: int, b: int, c: int)
    requires a <= b && c >= 0
    ensures a * c <= b * c
  {
  }

  /** No intermediate value leaves int64, and the result is an exact ceiling. */
  lemma ChargeIsExact(tokens: nat, rate: int)
    requires rate > 0 && Charge(tokens, rate).Some?
    ensures 0 <= tokens * rate && tokens * rate + 999_999 <= INT64_MAX
    ensures RoundedUp(Charge(tokens, rate).value, tokens, rate)
    ensures 0 <= Charge(tokens, rate).value <= INT64_MAX / 1_000_000
  {
    DivideAndMultiply(INT64_MAX - 999_999, rate, tokens);
    MultiplyMonotone(0, tokens, rate);
    var product := tokens * rate;
    assert Charge(tokens, rate).value == (product + 999_999) / 1_000_000;
  }

  /** The charge is refused exactly when rounding it up would leave int64. */
  lemma ChargeOverflows(tokens: nat, rate: int)
    requires rate > 0
    ensures Charge(tokens, rate).None? <==> tokens * rate + 999_999 > INT64_MAX
  {
    var bound := INT64_MAX - 999_999;
    if tokens > bound / rate {
      MultiplyMonotone(bound / rate + 1, tokens, rate);
      assert bound == (bound / rate) * rate + bound % rate;
      assert (bound / rate + 1) * rate == (bound / rate) * rate + rate;
    } else {
      DivideAndMultiply(bound, rate, tokens);
    }
  }

  /** The three answers to a price, each exactly when it is due. */
  lemma CostAnswers(input: nat, output: nat, inputRate: int, outputRate: int)
    ensures var c := EstimatedCost(input, output, inputRate, outputRate);
            && (c.InvalidArgument? <==> inputRate < 1 || outputRate < 1 || input > 16_000 || output > 500)
            && (c.Overflow? <==> !c.InvalidArgument?
                                 && (input * inputRate + 999_999 > INT64_MAX || output * outputRate + 999_999 > INT64_MAX))
  {
    if inputRate > 0 && outputRate > 0 {
      ChargeOverflows(input, inputRate);
      ChargeOverflows(output, outputRate);
    }
  }

  lemma ChargeIsMonotone(fewer: nat, more: nat, rate: int)
    requires rate > 0 && fewer <= more && Charge(more, rate).Some?
    ensures Charge(fewer, rate).Some? && Charge(fewer, rate).value <= Charge(more, rate).value
  {
    MultiplyMonotone(fewer, more, rate);
    DivideMonotone(fewer * rate + 999_999, more * rate + 999_999);
  }

  lemma DivideMonotone(a: int, b: int)
    requires a <= b
    ensures a / 1_000_000 <= b / 1_000_000
  {
  }

  /** The price is the sum of two exact ceilings, and stays inside int64. */
  lemma CostIsExact(input: nat, output: nat, inputRate: int, outputRate: int)
    requires EstimatedCost(input, output, inputRate, outputRate).Price?
    ensures exists a, b ::
              && RoundedUp(a, input, inputRate) && RoundedUp(b, output, outputRate)
              && EstimatedCost(input, output, inputRate, outputRate).micro == a + b
    ensures 0 <= EstimatedCost(input, output, inputRate, outputRate).micro <= INT64_MAX
  {
    ChargeIsExact(input, inputRate);
    ChargeIsExact(output, outputRate);
  }

  /** Fewer tokens never cost more, and never raise an error. */
  lemma CostIsMonotone(input: nat, output: nat, moreInput: nat, moreOutput: nat, inputRate: int, outputRate: int)
    requires input <= moreInput && output <= moreOutput
    requires EstimatedCost(moreInput, moreOutput, inputRate, outputRate).Price?
    ensures EstimatedCost(input, output, inputRate, outputRate).Price?
    ensures EstimatedCost(input, output, inputRate, outputRate).micro
         <= EstimatedCost(moreInput, moreOutput, inputRate, outputRate).micro
  {
    ChargeIsMonotone(input, moreInput, inputRate);
    ChargeIsMonotone(output, moreOutput, outputRate);
  }

  // ------------------------------------------------------------- the attempt

  datatype AttemptState = Reserved | Submitted | Succeeded | Failed | Cancelled
  datatype Usage = Usage(input: nat, output: nat, micro: int)

  datatype Settlement = Completion | Failure | Cancellation

  /** One row of ai_generation_attempt.  A method returns false where the
      source throws because the row was not in the state it requires. */
  class AttemptRow {
    const inputRate: int
    const outputRate: int
    const reserved: Usage
    var state: AttemptState
    var providerSent: bool
    var actual: Option<Usage>
    ghost var settlements: seq<Settlement>

    ghost predicate Fresh()
      reads this
    {
      state == Reserved && !providerSent && actual == None && settlements == []
    }

    constructor (inputRate: int, outputRate: int, reserved: Usage)
      ensures Fresh() && this.inputRate == inputRate && this.outputRate == outputRate && this.reserved == reserved
    {
      this.inputRate, this.outputRate, this.reserved := inputRate, outputRate, reserved;
      state, providerSent, actual, settlements := Reserved, false, None, [];
    }

    /** The per-row condition of the database audit in src/database_cli.cpp. */
    ghost predicate Auditable()
      reads this
    {
      && EstimatedCost(reserved.input, reserved.output, inputRate, outputRate) == Price(reserved.micro)
      && (state in {Submitted, Succeeded, Failed} ==> providerSent)
      && (state == Succeeded ==>
            && actual.Some?
            && actual.value.input <= reserved.input && actual.value.output <= reserved.output
            && EstimatedCost(actual.value.input, actual.value.output, inputRate, outputRate)
               == Price(actual.value.micro))
    }

    method MarkSubmitted() returns (ok: bool)
      modifies this
      ensures ok == (old(state) == Reserved)
      ensures state == (if ok then Submitted else old(state)) && providerSent == (ok || old(providerSent))
      ensures actual == old(actual) && settlements == old(settlements)
    {
      ok := state == Reserved;
      if ok {
        state, providerSent := Submitted, true;
      }
    }

    method Complete(usage: Usage) returns (ok: bool)
      modifies this
      ensures ok == (old(state) == Submitted) && providerSent == old(providerSent)
      ensures state == if ok then Succeeded else old(state)
      ensures actual == if ok then Some(usage) else old(actual)
      ensures settlements == if ok then old(settlements) + [Completion] else old(settlements)
    {
      ok := state == Submitted;
      if ok {
        state, actual, settlements := Succeeded, Some(usage), settlements + [Completion];
      }
    }

    method Fail() returns (ok: bool)
      modifies this
      ensures ok == (old(state) == Submitted) && providerSent == old(providerSent) && actual == old(actual)
      ensures state == if ok then Failed else old(state)
      ensures settlements == if ok then old(settlements) + [Failure] else old(settlements)
    {
      ok := state == Submitted;
      if ok {
        state, settlements := Failed, settlements + [Failure];
      }
    }

    method Cancel() returns (ok: bool)
      modifies this
      ensures ok == (old(state) == Reserved) && providerSent == old(providerSent) && actual == old(actual)
      ensures state == if ok then Cancelled else old(state)
      ensures settlements == if ok then old(settlements) + [Cancellation] else old(settlements)
    {
      ok := state == Reserved;
      if ok {
        state, settlements := Cancelled, settlements + [Cancellation];
      }
    }
  }

  // ---------------------------------------------------------------- generate

  datatype Category =
    Timeout | RateLimited | Authentication | Server | InvalidRequest | InvalidResponse | Transport

  datatype Action = CancelReservation | FailAttempt

  function ClassifyProviderFailure(category: Category, transmissionStarted: bool): (Action, string) {
    if transmissionStarted then
      (FailAttempt,
       match category
       case Timeout => "timeout"
       case RateLimited => "rate_limited"
       case Authentication => "authentication"
       case Server => "server"
       case InvalidRequest => "invalid_request"
       case InvalidResponse => "invalid_response"
       case Transport => "transport")
    else (CancelReservation, "provider_not_sent")
  }

  /** How the provider's `generate` ends. */
  datatype Outcome =
    | Result(input: nat, output: nat)
    | ProviderError(category: Category)
    | OperationCancelled
    | Refusal
    | Incomplete
    | OtherException

  /** The provider calls the transmission callback any number of times. */
  datatype ProviderRun = ProviderRun(transmissions: nat, outcome: Outcome)

  datatype Exit = Returned(usage: Usage) | Threw(outcome: Outcome) | ProviderUnavailable

  datatype Policy = Policy(maximumInput: nat, maximumOutput: nat, inputRate: int, outputRate: int)

  predicate Complete(p: Policy) {
    0 < p.maximumInput <= 16_000 && 0 < p.maximumOutput <= 500 && p.inputRate > 0 && p.outputRate > 0
  }

  predicate WithinLimits(p: Policy, maxOutput: nat, o: Outcome) {
    o.Result? && o.input <= p.maximumInput && o.output <= maxOutput
  }

  function SettledState(p: Policy, maxOutput: nat, allowed: bool, run: ProviderRun): AttemptState {
    if !allowed || run.transmissions == 0 then Cancelled
    else if WithinLimits(p, maxOutput, run.outcome) then Succeeded
    else Failed
  }

  /** A usage reported as zero is charged in full. */
  function ChargedUsage(reserved: Usage, o: Outcome): (nat, nat)
    requires o.Result?
  {
    (if o.input == 0 then reserved.input else o.input, if o.output == 0 then reserved.output else o.output)
  }

  class AiGenerationService {
    const policy: Policy

    /** The source throws invalid_argument for an incomplete policy. */
    constructor (policy: Policy)
      requires Complete(policy)
      ensures this.policy == policy
    {
      this.policy := policy;
    }

    /** The request was checked against the policy; Overflow is thrown here,
        before anything is reserved. */
    method Reserve(maxOutput: nat) returns (row: Option<AttemptRow>)
      requires Complete(policy) && 0 < maxOutput <= policy.maximumOutput
      ensures row.None? <==> EstimatedCost(policy.maximumInput, maxOutput, policy.inputRate, policy.outputRate).Overflow?
      ensures row.Some? ==> fresh(row.value) && row.value.Fresh() && row.value.Auditable() && Reserves(row.value, maxOutput)
    {
      var cost := EstimatedCost(policy.maximumInput, maxOutput, policy.inputRate, policy.outputRate);
      if cost.Overflow? {
        return None;
      }
      var r := new AttemptRow(policy.inputRate, policy.outputRate, Usage(policy.maximumInput, maxOutput, cost.micro));
      return Some(r);
    }

    ghost predicate Reserves(row: AttemptRow, maxOutput: nat) {
      && row.inputRate == policy.inputRate && row.outputRate == policy.outputRate
      && row.reserved.input == policy.maximumInput && row.reserved.output == maxOutput
    }

    /** `generate` from its admission on.  Every exit has settled the attempt
        once, as `SettledState` says, and has left an auditable row. */
    method Settle(row: AttemptRow, maxOutput: nat, allowed: bool, run: ProviderRun) returns (exit: Exit)
      requires Complete(policy) && 0 < maxOutput <= policy.maximumOutput
      requires row.Fresh() && row.Auditable() && Reserves(row, maxOutput)
      modifies row
      ensures row.state == SettledState(policy, maxOutput, allowed, run)
      ensures row.state == Succeeded <==>
                && allowed && run.transmissions > 0 && run.outcome.Result?
                && run.outcome.input <= row.reserved.input && run.outcome.output <= row.reserved.output
      ensures row.state == Cancelled <==> !allowed || run.transmissions == 0
      ensures exit == ProviderUnavailable <==> !allowed
      ensures exit.Threw? ==>
                exit.outcome == if run.outcome.Result? then ProviderError(InvalidResponse) else run.outcome
      ensures |row.settlements| == 1 && row.Auditable()
      ensures row.settlements[0] == Cancellation <==> !row.providerSent
      ensures exit.Returned? <==> row.state == Succeeded
      ensures exit.Returned? ==> row.actual == Some(exit.usage) && exit.usage.micro <= row.reserved.micro
      ensures exit.Returned? ==>
                && exit.usage.input == (if run.outcome.input == 0 then row.reserved.input else run.outcome.input)
                && exit.usage.output == (if run.outcome.output == 0 then row.reserved.output else run.outcome.output)
    {
      if !allowed {
        var _ := row.Cancel();
        return ProviderUnavailable;
      }
      var submitted := false;
      for i := 0 to run.transmissions
        invariant submitted <==> i > 0
        invariant row.state == (if submitted then Submitted else Reserved) && row.providerSent == submitted
        invariant row.actual == None && row.settlements == []
      {
        var ok := row.MarkSubmitted();
        if ok {
          submitted := true;
        }
      }
      var outcome := run.outcome;
      if outcome.Result? {
        if !submitted {
          outcome := ProviderError(InvalidResponse);
        } else if outcome.input > policy.maximumInput || outcome.output > maxOutput {
          outcome := ProviderError(InvalidResponse);
        } else {
          var (input, output) := ChargedUsage(row.reserved, outcome);
          CostIsMonotone(input, output, row.reserved.input, row.reserved.output, policy.inputRate, policy.outputRate);
          var cost := EstimatedCost(input, output, policy.inputRate, policy.outputRate);
          if cost.micro > row.reserved.micro {
            assert false;    // the check at the end of the source's try block cannot fire
          }
          var usage := Usage(input, output, cost.micro);
          var _ := row.Complete(usage);
          return Returned(usage);
        }
      }
      match outcome {
        case ProviderError(category) =>
          var (action, _) := ClassifyProviderFailure(category, submitted);
          if action == CancelReservation {
            var _ := row.Cancel();
          } else {
            var _ := row.Fail();
          }
        case OperationCancelled => SettleException(row, submitted);
        case Refusal => SettleException(row, submitted);
        case Incomplete => SettleException(row, submitted);
        case OtherException => SettleException(row, submitted);
      }
      return Threw(outcome);
    }

    /** The common shape of the four remaining catch clauses. */
    static method SettleException(row: AttemptRow, submitted: bool)
      requires row.state == (if submitted then Submitted else Reserved)
      modifies row
      ensures row.state == if submitted then Failed else Cancelled
      ensures row.settlements == old(row.settlements) + [if submitted then Failure else Cancellation]
      ensures row.providerSent == old(row.providerSent) && row.actual == old(row.actual)
    {
      if submitted {
        var _ := row.Fail();
      } else {
        var _ := row.Cancel();
      }
    }
  }

  /** A provider failure is charged exactly when something was transmitted, under a
      code of its own category. */
  lemma FailuresAreClassified(a: Category, b: Category, started: bool)
    ensures ClassifyProviderFailure(a, started).0 == (if started then FailAttempt else CancelReservation)
    ensures ClassifyProviderFailure(a, started).1 == ClassifyProviderFailure(b, started).1 <==> a == b || !started
  {
  }
}
