/** Promotion decisions over counts: hard switch, progressive steps, the custom mode, and the
    combination of the configured modes. */
module Promotion {
  import opened Wrappers
  import opened TestCases

  datatype Action =
    | ContinueObserving
    | Promote
    | Rollback
    | AdvanceStep(step: int, trafficPercent: int)

  datatype HardSwitch = HardSwitch(minTestCases: int, successRate: real)

  datatype Step = Step(trafficPercent: int, observeCases: int, successRate: real)

  datatype Progressive = Progressive(steps: seq<Step>, rollbackOnStepFailure: bool)

  datatype Strategy = ByHardSwitch | ByProgressive(progressive: Option<Progressive>)

  datatype DataCriteria = DataCriteria(minTestCases: Option<int>, successRate: Option<real>)

  /** `custom` says whether the custom mode is configured. */
  datatype Plan = Plan(strategy: Strategy, data: Option<DataCriteria>, custom: bool)

  function Finalised(c: Counts): nat {
    c.passed + c.failed + c.timedOut
  }

  function BestTotal(c: Counts): nat {
    Finalised(c) + c.pending
  }

  function ActualRate(c: Counts): real {
    if Finalised(c) > 0 then c.passed as real / Finalised(c) as real else 0.0
  }

  // ---------------------------------------------------------------- hard switch

  function FromCriteria(d: DataCriteria): HardSwitch {
    HardSwitch(d.minTestCases.UnwrapOr(100), d.successRate.UnwrapOr(0.98))
  }

  /** The rate if every pending case passes. */
  function BestRate(c: Counts): real {
    if BestTotal(c) == 0 then 0.0 else (c.passed + c.pending) as real / BestTotal(c) as real
  }

  /** None while even all cases together are fewer than the minimum. */
  function BestPossible(h: HardSwitch, c: Counts): Option<real> {
    if BestTotal(c) < h.minTestCases || BestTotal(c) == 0 then None else Some(BestRate(c))
  }

  predicate Hopeless(h: HardSwitch, c: Counts) {
    BestPossible(h, c).Some? && BestPossible(h, c).value < h.successRate
  }

  function DecideHardSwitch(h: HardSwitch, c: Counts): Action {
    if c.pending > 0 && Hopeless(h, c) then Rollback
    else if Finalised(c) < h.minTestCases then ContinueObserving
    else if ActualRate(c) >= h.successRate then Promote
    else Rollback
  }

  /** Comparing two rates is comparing cross products. */
  lemma RateAtMost(a: nat, b: nat, x: real)
    requires b > 0
    ensures a as real / b as real <= x <==> a as real <= x * b as real
  {
    var q := a as real / b as real;
    assert q * b as real == a as real;
    assert (x - q) * b as real == x * b as real - a as real;
    SignOfProduct(x - q, b as real);
  }

  lemma SignOfProduct(x: real, y: real)
    requires y > 0.0
    ensures x * y >= 0.0 <==> x >= 0.0
  {
    if x < 0.0 {
      assert (0.0 - x) * y > 0.0;
      assert (0.0 - x) * y == 0.0 - x * y;
    }
  }

  /** Adding passes never lowers a pass rate. */
  lemma RateGrows(p: nat, t: nat, q: nat)
    requires p <= t && t > 0
    ensures p as real / t as real <= (p + q) as real / (t + q) as real
  {
    var r := (p + q) as real / (t + q) as real;
    assert r * (t + q) as real == (p + q) as real;
    RateAtMost(p + q, t + q, 1.0);
    assert r * (t + q) as real == r * t as real + r * q as real;
    assert (1.0 - r) * q as real == q as real - r * q as real;
    SignOfProduct(q as real, 1.0);
    assert (1.0 - r) * q as real >= 0.0;
    RateAtMost(p, t, r);
  }

  lemma RateOfFewer(p: nat, p': nat, t: nat)
    requires p <= p' && t > 0
    ensures p as real / t as real <= p' as real / t as real
  {
    RateAtMost(p', t, p' as real / t as real);
    RateAtMost(p, t, p' as real / t as real);
  }

  /** The best possible rate is never below the actual one. */
  lemma BestAtLeastActual(c: Counts)
    requires BestTotal(c) > 0
    ensures ActualRate(c) <= BestRate(c)
  {
    if Finalised(c) > 0 {
      RateGrows(c.passed, Finalised(c), c.pending);
    } else {
      RateOfFewer(0, c.pending, BestTotal(c));
    }
  }

  /** `d` is `c` after some of its pending cases, perhaps none, were resolved, and no case was
      added. */
  predicate Resolves(c: Counts, d: Counts) {
    && c.passed <= d.passed && c.failed <= d.failed && c.timedOut <= d.timedOut
    && BestTotal(c) == BestTotal(d)
  }

  lemma BestNeverRises(c: Counts, d: Counts)
    requires Resolves(c, d)
    ensures BestRate(d) <= BestRate(c)
    ensures d.pending == 0 ==> ActualRate(d) == BestRate(d)
  {
    if BestTotal(c) > 0 {
      RateOfFewer(d.passed + d.pending, c.passed + c.pending, BestTotal(c));
    }
  }

  function AllPass(c: Counts): Counts {
    c.(passed := c.passed + c.pending, pending := 0)
  }

  /** The best possible rate is reached when all pending cases pass, and by no resolution exceeded. */
  lemma BestRateIsTheBest(c: Counts, d: Counts)
    requires Resolves(c, d) && d.pending == 0
    ensures ActualRate(d) <= BestRate(c)
    ensures Resolves(c, AllPass(c)) && ActualRate(AllPass(c)) == BestRate(c)
  {
    BestNeverRises(c, d);
  }

  /** The share of passed cases among the passed, failed and timed-out ones, and no passes if there are
      none, is at least `rate`. */
  predicate PassedAtLeast(c: Counts, rate: real) {
    var total := c.passed + c.failed + c.timedOut;
    if total == 0 then 0.0 >= rate else c.passed as real >= rate * total as real
  }

  lemma ActualRateAtLeast(c: Counts, rate: real)
    ensures ActualRate(c) >= rate <==> PassedAtLeast(c, rate)
  {
    var total := c.passed + c.failed + c.timedOut;
    if total > 0 {
      var actual := c.passed as real / total as real;
      assert actual * total as real == c.passed as real;
      SignOfProduct(actual - rate, total as real);
      assert (actual - rate) * total as real == c.passed as real - rate * total as real;
    }
  }

  /** Hard switch promotes exactly when at least the minimum of passed, failed and timed-out cases is
      reached, of which the threshold's share has passed, whatever is still pending. */
  lemma HardSwitchPromotesIff(h: HardSwitch, c: Counts)
    ensures DecideHardSwitch(h, c) == Promote <==>
            c.passed + c.failed + c.timedOut >= h.minTestCases && PassedAtLeast(c, h.successRate)
  {
    ActualRateAtLeast(c, h.successRate);
    if BestTotal(c) > 0 {
      BestAtLeastActual(c);
    }
  }

  /** The minimum is 100 and the threshold 98 % where the criteria do not say. */
  lemma CriteriaPromoteIff(d: DataCriteria, data: Counts, counts: Counts, current: Option<int>)
    ensures
      var minimum := if d.minTestCases.Some? then d.minTestCases.value else 100;
      var rate := if d.successRate.Some? then d.successRate.value else 0.98;
      Decide(Some(Plan(ByHardSwitch, Some(d), false)), data, counts, current) == Ok(Promote) <==>
      data.passed + data.failed + data.timedOut >= minimum && PassedAtLeast(data, rate)
  {
    HardSwitchPromotesIff(FromCriteria(d), data);
  }

  /** A rollback because even the best outcome misses the threshold is final. */
  lemma EarlyRollbackIsFinal(h: HardSwitch, c: Counts, d: Counts)
    requires c.pending > 0 && Hopeless(h, c) && Resolves(c, d)
    ensures DecideHardSwitch(h, c) == DecideHardSwitch(h, d) == Rollback
  {
    BestNeverRises(c, d);
  }

  /** Which rollbacks are final: those with nothing pending and those that no outcome can save. The
      others roll back although the pending cases, all passing, would promote. */
  lemma RollbackIsFinalIff(h: HardSwitch, c: Counts)
    requires DecideHardSwitch(h, c) == Rollback
    ensures (forall d :: Resolves(c, d) ==> DecideHardSwitch(h, d) == Rollback) <==> (c.pending == 0 || Hopeless(h, c))
    ensures !(c.pending == 0 || Hopeless(h, c)) ==> Resolves(c, AllPass(c)) && DecideHardSwitch(h, AllPass(c)) == Promote
  {
    if c.pending == 0 {
      forall d | Resolves(c, d)
        ensures d == c
      {
      }
    } else if Hopeless(h, c) {
      forall d | Resolves(c, d)
        ensures DecideHardSwitch(h, d) == Rollback
      {
        EarlyRollbackIsFinal(h, c, d);
      }
    } else {
      HardSwitchPromotesIff(h, AllPass(c));
      BestNeverRises(c, AllPass(c));
      assert Resolves(c, AllPass(c));
    }
  }

  /** Two of three finalised cases have passed, ten are pending, the threshold is 80%: rolled back,
      although it would be met at 12 of 13. */
  lemma PrematureRollback()
    ensures
      var h, c := HardSwitch(3, 0.8), Counts(2, 1, 0, 10);
      && DecideHardSwitch(h, c) == Rollback
      && DecideHardSwitch(h, AllPass(c)) == Promote
  {
    var h, c := HardSwitch(3, 0.8), Counts(2, 1, 0, 10);
    assert ActualRate(c) == 2.0 / 3.0;
    assert BestRate(c) == 12.0 / 13.0;
    RollbackIsFinalIff(h, c);
  }

  // ---------------------------------------------------------------- progressive

  /** The step index after the cast of a possibly negative 32-bit number to an unsigned one: a
      negative number is beyond every step. */
  function StepIndex(p: Progressive, current: Option<int>): nat {
    var i := current.UnwrapOr(0);
    if 0 <= i < |p.steps| then i else |p.steps|
  }

  function DecideStep(p: Progressive, i: nat, c: Counts): Action
    requires i < |p.steps|
  {
    var step := p.steps[i];
    if c.pending > 0 && p.rollbackOnStepFailure && BestRate(c) < step.successRate then Rollback
    else if Finalised(c) < step.observeCases then ContinueObserving
    else if ActualRate(c) < step.successRate then
      if p.rollbackOnStepFailure then Rollback else ContinueObserving
    else if i + 1 >= |p.steps| then Promote
    else AdvanceStep(i + 1, p.steps[i + 1].trafficPercent)
  }

  function DecideProgressive(p: Progressive, c: Counts, current: Option<int>): Action {
    var i := StepIndex(p, current);
    if i >= |p.steps| then Promote else DecideStep(p, i, c)
  }

  predicate StepMet(step: Step, c: Counts) {
    Finalised(c) >= step.observeCases && ActualRate(c) >= step.successRate
  }

  /** A step is left, for the next one or for promotion, exactly when it has its cases at its
      threshold. */
  lemma StepLeftIff(p: Progressive, i: nat, c: Counts)
    requires i < |p.steps|
    ensures StepMet(p.steps[i], c) <==> DecideStep(p, i, c) == Promote || DecideStep(p, i, c).AdvanceStep?
    ensures DecideStep(p, i, c) == Promote ==> i + 1 == |p.steps|
    ensures DecideStep(p, i, c).AdvanceStep? ==>
              i + 1 < |p.steps| && DecideStep(p, i, c) == AdvanceStep(i + 1, p.steps[i + 1].trafficPercent)
  {
    if BestTotal(c) > 0 {
      BestAtLeastActual(c);
    }
  }

  /** After an early rollback no outcome of the pending cases leaves the step; a rollback it stays
      as long as cases are pending and, in the end, if the step has its cases at all. */
  lemma EarlyStepRollbackIsFinal(p: Progressive, i: nat, c: Counts, d: Counts)
    requires i < |p.steps| && p.rollbackOnStepFailure
    requires c.pending > 0 && BestRate(c) < p.steps[i].successRate && Resolves(c, d)
    ensures DecideStep(p, i, c) == Rollback
    ensures DecideStep(p, i, d) ==
            if d.pending > 0 || BestTotal(c) >= p.steps[i].observeCases then Rollback else ContinueObserving
  {
    BestNeverRises(c, d);
  }

  // ---------------------------------------------------------------- the modes together

  function DecideCustom(c: Counts): Action {
    if c.pending > 0 then ContinueObserving
    else if c.failed > 0 || c.timedOut > 0 then Rollback
    else if c.passed == 0 then ContinueObserving
    else Promote
  }

  datatype InvalidSpec = MissingPromotion | MissingSteps | NoModes

  function DecideData(strategy: Strategy, criteria: DataCriteria, c: Counts, current: Option<int>): Result<Action, InvalidSpec> {
    match strategy
    case ByHardSwitch => Ok(DecideHardSwitch(FromCriteria(criteria), c))
    case ByProgressive(None) => Err(MissingSteps)
    case ByProgressive(Some(p)) => Ok(DecideProgressive(p, c, current))
  }

  function Combine(data: Option<Action>, custom: Option<Action>): Result<Action, InvalidSpec> {
    if data == Some(Rollback) || custom == Some(Rollback) then Ok(Rollback)
    else if data == Some(ContinueObserving) || custom == Some(ContinueObserving) then Ok(ContinueObserving)
    else if data.Some? && data.value.AdvanceStep? && custom.None? then Ok(data.value)
    else if data == Some(Promote) && (custom == Some(Promote) || custom.None?) then Ok(Promote)
    else if data.None? && custom == Some(Promote) then Ok(Promote)
    else if data.None? && custom.None? then Err(NoModes)
    else Ok(ContinueObserving)
  }

  function Decide(plan: Option<Plan>, data: Counts, custom: Counts, current: Option<int>): Result<Action, InvalidSpec> {
    if plan.None? then Err(MissingPromotion)
    else
      var customAction := if plan.value.custom then Some(DecideCustom(custom)) else None;
      if plan.value.data.None? then Combine(None, customAction)
      else
        var decided := DecideData(plan.value.strategy, plan.value.data.value, data, current);
        if decided.Err? then decided else Combine(Some(decided.value), customAction)
  }

  predicate DataMet(strategy: Strategy, criteria: DataCriteria, c: Counts, current: Option<int>) {
    match strategy
    case ByHardSwitch =>
      Finalised(c) >= FromCriteria(criteria).minTestCases && ActualRate(c) >= FromCriteria(criteria).successRate
    case ByProgressive(steps) =>
      steps.Some? &&
      var p := steps.value;
      var i := StepIndex(p, current);
      i == |p.steps| || (i + 1 == |p.steps| && StepMet(p.steps[i], c))
  }

  predicate CustomMet(c: Counts) {
    c.passed > 0 && c.failed == 0 && c.timedOut == 0 && c.pending == 0
  }

  /** Promotion needs a configured mode and every configured mode's requirement met; nothing else. */
  lemma PromotesIff(plan: Plan, data: Counts, custom: Counts, current: Option<int>)
    ensures Decide(Some(plan), data, custom, current) == Ok(Promote) <==>
            && (plan.data.Some? || plan.custom)
            && (plan.data.Some? ==> DataMet(plan.strategy, plan.data.value, data, current))
            && (plan.custom ==> CustomMet(custom))
  {
    if plan.data.Some? {
      match plan.strategy
      case ByHardSwitch => HardSwitchPromotesIff(FromCriteria(plan.data.value), data);
      case ByProgressive(None) =>
      case ByProgressive(Some(p)) =>
        if StepIndex(p, current) < |p.steps| {
          StepLeftIff(p, StepIndex(p, current), data);
        }
    }
  }

  /** Below the threshold with enough cases, or with some pending and none of their outcomes enough. */
  predicate Below(c: Counts, minimum: int, rate: real, hopeless: bool) {
    (c.pending > 0 && hopeless) || (Finalised(c) >= minimum && ActualRate(c) < rate)
  }

  predicate DataMissed(strategy: Strategy, criteria: DataCriteria, c: Counts, current: Option<int>) {
    match strategy
    case ByHardSwitch =>
      var h := FromCriteria(criteria);
      Below(c, h.minTestCases, h.successRate, BestTotal(c) >= h.minTestCases && BestTotal(c) > 0 && BestRate(c) < h.successRate)
    case ByProgressive(steps) =>
      steps.Some? &&
      var p := steps.value;
      var i := StepIndex(p, current);
      i < |p.steps| && p.rollbackOnStepFailure
      && Below(c, p.steps[i].observeCases, p.steps[i].successRate, BestRate(c) < p.steps[i].successRate)
  }

  predicate CustomMissed(c: Counts) {
    c.pending == 0 && (c.failed > 0 || c.timedOut > 0)
  }

  /** The specs that no counts can decide. */
  predicate Undecidable(plan: Option<Plan>) {
    || plan.None?
    || (plan.value.data.None? && !plan.value.custom)
    || (plan.value.data.Some? && plan.value.strategy == ByProgressive(None))
  }

  /** One configured mode that misses its requirement rolls back, whatever the other says; an error
      depends on the spec alone. */
  lemma RollsBackIff(plan: Option<Plan>, data: Counts, custom: Counts, current: Option<int>)
    ensures Decide(plan, data, custom, current).Err? <==> Undecidable(plan)
    ensures Decide(plan, data, custom, current) == Ok(Rollback) <==>
            && !Undecidable(plan)
            && (|| (plan.value.data.Some? && DataMissed(plan.value.strategy, plan.value.data.value, data, current))
                || (plan.value.custom && CustomMissed(custom)))
  {
    if plan.Some? && plan.value.data.Some? {
      match plan.value.strategy
      case ByHardSwitch =>
        var h := FromCriteria(plan.value.data.value);
        assert Hopeless(h, data) <==> BestTotal(data) >= h.minTestCases && BestTotal(data) > 0 && BestRate(data) < h.successRate;
      case ByProgressive(None) =>
      case ByProgressive(Some(p)) =>
    }
  }

  /** Every advance is to the very next step, with its traffic percent, from a step that was met. */
  lemma AdvancesIff(plan: Plan, data: Counts, custom: Counts, current: Option<int>, step: int, percent: int)
    ensures Decide(Some(plan), data, custom, current) == Ok(AdvanceStep(step, percent)) <==>
            && plan.data.Some? && !plan.custom && plan.strategy.ByProgressive? && plan.strategy.progressive.Some?
            && var p := plan.strategy.progressive.value;
            && 1 <= step < |p.steps|
            && current.UnwrapOr(0) == step - 1
            && StepMet(p.steps[step - 1], data)
            && percent == p.steps[step].trafficPercent
  {
    if plan.data.Some? && plan.strategy.ByProgressive? && plan.strategy.progressive.Some? {
      var p := plan.strategy.progressive.value;
      if StepIndex(p, current) < |p.steps| {
        StepLeftIff(p, StepIndex(p, current), data);
      }
    }
  }

  /** Progressive steps beside the custom mode: before the last step no counts at all advance or
      promote, so such a rollout can only observe or roll back. */
  lemma ProgressiveWithCustomNeverAdvances(plan: Plan, data: Counts, custom: Counts, current: Option<int>)
    requires plan.custom && plan.data.Some?
    requires plan.strategy.ByProgressive? && plan.strategy.progressive.Some?
    requires 0 <= current.UnwrapOr(0) < |plan.strategy.progressive.value.steps| - 1
    ensures Decide(Some(plan), data, custom, current) in {Ok(ContinueObserving), Ok(Rollback)}
  {
    var p := plan.strategy.progressive.value;
    StepLeftIff(p, StepIndex(p, current), data);
  }
}
