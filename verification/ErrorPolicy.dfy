/** Which replay errors stop a run and which may be skipped (cpp/src/replay/error_policy.cpp). */
module ErrorPolicyModule {
  import opened Types
  import opened Counting

  datatype Origin = FromDecoder | FromBookApply

  datatype Disposition = StopRun | SkipMessage | BudgetExceeded

  datatype PolicyConfig = PolicyConfig(permissive: bool, maxSkipped: U64)

  datatype PolicyView = PolicyView(errors: U64, skipped: U64, byCode: map<ErrorCode, U64>)

  datatype Decision = Decision(disposition: Disposition, overflow: bool)

  const FRESH_POLICY: PolicyView := PolicyView(0, 0, map[])

  predicate SafelySkippable(origin: Origin, code: ErrorCode) {
    match origin
    case FromDecoder => code in {MessageLength, UnknownMessage, Timestamp, Invariant}
    case FromBookApply => code in {OrderReference, Quantity}
  }

  function DecisionOf(c: PolicyConfig, v: PolicyView, origin: Origin, code: ErrorCode): Decision {
    if v.errors == U64_MAX || Count(v.byCode, code) == U64_MAX then Decision(StopRun, true)
    else if !c.permissive || !SafelySkippable(origin, code) then Decision(StopRun, false)
    else if v.skipped >= c.maxSkipped then Decision(BudgetExceeded, false)
    else Decision(SkipMessage, false)
  }

  /** The policy after an observation that did not overflow. */
  function Observed(c: PolicyConfig, v: PolicyView, origin: Origin, code: ErrorCode): PolicyView
    requires !DecisionOf(c, v, origin, code).overflow
  {
    PolicyView(v.errors + 1,
               if DecisionOf(c, v, origin, code).disposition == SkipMessage then v.skipped + 1 else v.skipped,
               Bump(v.byCode, code))
  }

  /** The budget is respected and the error count is the sum of the counts by code. */
  ghost predicate PolicyOk(c: PolicyConfig, v: PolicyView) {
    && v.skipped <= c.maxSkipped && v.skipped <= v.errors
    && (!c.permissive ==> v.skipped == 0)
    && Total(v.byCode) == v.errors
  }

  lemma ObservedOk(c: PolicyConfig, v: PolicyView, origin: Origin, code: ErrorCode)
    requires PolicyOk(c, v) && !DecisionOf(c, v, origin, code).overflow
    ensures PolicyOk(c, Observed(c, v, origin, code))
  {
    TotalBump(v.byCode, code);
  }

  class ErrorPolicy {
    const config: PolicyConfig
    var errorCount: U64
    var skippedMessages: U64
    var countsByCode: map<ErrorCode, U64>

    function View(): PolicyView
      reads this
    {
      PolicyView(errorCount, skippedMessages, countsByCode)
    }

    constructor (c: PolicyConfig)
      ensures config == c && View() == FRESH_POLICY
    {
      config := c;
      errorCount, skippedMessages, countsByCode := 0, 0, map[];
    }

    method Observe(origin: Origin, code: ErrorCode) returns (decision: Decision)
      modifies this
      ensures decision == DecisionOf(config, old(View()), origin, code)
      ensures !decision.overflow ==> View() == Observed(config, old(View()), origin, code)
      ensures decision.overflow ==> errorCount == old(errorCount) && skippedMessages == old(skippedMessages)
    {
      var codeCount := Count(countsByCode, code);
      countsByCode := countsByCode[code := codeCount];
      if errorCount == U64_MAX || codeCount == U64_MAX {
        return Decision(StopRun, true);
      }
      errorCount := errorCount + 1;
      countsByCode := countsByCode[code := codeCount + 1];
      if !config.permissive || !SafelySkippable(origin, code) {
        return Decision(StopRun, false);
      }
      if skippedMessages >= config.maxSkipped {
        return Decision(BudgetExceeded, false);
      }
      skippedMessages := skippedMessages + 1;
      decision := Decision(SkipMessage, false);
    }
  }
}
