/**
 * The budget solver: in budget mode the user gives a target first payment (TDP) or a target monthly
 * installment, and the solver bisects the down-payment percentage over [5, 90] for 60 steps,
 * keeping the evaluated result whose observed value lies closest to the target.
 */
module BudgetSolver {
  import opened Optional
  import opened SimulationTypes
  import opened Calculation

  /** `Number.MAX_VALUE`, the solver's initial smallest difference: (2^53 - 1) * 2^971. */
  const MaxValue: real := 179769313486231570814527423731704356798070567525844996598917476803157260780028538760589558632766878171540458953514382464234321326889464182768467546703537516986049910576551282076245490090389328944075868508455133942304583236903222948165808559332123348274797826204144723168738177180919299881250404026184124858368.0

  const Iterations: nat := 60
  const LowStart: real := 5.0
  const HighStart: real := 90.0

  /**
   * What a run of the solver leaves behind: nothing when there is no target or no price, the
   * recommended result, or the "no recommendation" validation error.
   */
  datatype SolverOutcome = NothingToSolve | Recommended(result: CalculationResult) | NoRecommendation

  /** The value compared with the target: the first payment for a TDP target, the installment otherwise. */
  function Observed(form: SimulationForm, res: CalculationResult): real {
    if form.targetType == Tdp then res.totalDownPayment else res.monthlyInstallment
  }

  function Abs(x: real): (r: real)
    ensures r >= 0.0 && (r == x || r == -x)
  {
    if x < 0.0 then -x else x
  }

  /** How far a result lies from the target. */
  function Diff(form: SimulationForm, res: CalculationResult): real {
    Abs(Observed(form, res) - form.targetValue)
  }

  /**
   * The bisection's direction rule: the lower bound moves up when a higher down payment should bring
   * the observed value toward the target (the first payment is below a TDP target, or the installment
   * is above an installment target); otherwise the upper bound moves down.
   */
  predicate RaisesLow(form: SimulationForm, observed: real) {
    if form.targetType == Tdp then observed < form.targetValue else observed > form.targetValue
  }

  function Pow2(n: nat): (r: real)
    ensures r > 0.0
  {
    if n == 0 then 1.0 else 2.0 * Pow2(n - 1)
  }

  /** `calculateFinancials` as the solver calls it: bound to the rate data and the form, given a down payment. */
  function Calculator(data: Option<AppData>, form: SimulationForm): real -> Option<CalculationResult>
    requires form.tenor > 0
  {
    (dp: real) => CalculateFinancials(data, form, dp)
  }

  /** A calculator's result, when there is one, reports the down payment it was given. */
  ghost predicate ReportsOwnDp(calculate: real -> Option<CalculationResult>) {
    forall dp :: calculate(dp).Some? ==> calculate(dp).value.dpPercentCalc == dp
  }

  /** The calculator reports its own down payment, and has a result for every down payment exactly when there is rate data. */
  lemma CalculatorFacts(data: Option<AppData>, form: SimulationForm)
    requires form.tenor > 0
    ensures ReportsOwnDp(Calculator(data, form))
    ensures data.Some? ==> forall dp :: Calculator(data, form)(dp).Some?
    ensures data.None? ==> forall dp :: Calculator(data, form)(dp).None?
  {
  }

  /**
   * The results the bisection evaluates, in order, starting from the interval (low, high) with
   * `steps` steps left: the midpoint's result, then the probes of the half the direction rule keeps.
   * The sequence stops early when no result can be computed.
   */
  function Probes(form: SimulationForm, calculate: real -> Option<CalculationResult>, low: real, high: real, steps: nat): (probes: seq<CalculationResult>)
    ensures |probes| <= steps
    decreases steps
  {
    if steps == 0 then []
    else
      var mid := (low + high) / 2.0;
      match calculate(mid)
      case None => []
      case Some(res) =>
        if RaisesLow(form, Observed(form, res)) then [res] + Probes(form, calculate, mid, high, steps - 1)
        else [res] + Probes(form, calculate, low, mid, steps - 1)
  }

  /** When every down payment has a result, every step evaluates one; when none has, the search stops at once. */
  lemma {:induction false} ProbesLength(form: SimulationForm, calculate: real -> Option<CalculationResult>, low: real, high: real, steps: nat)
    ensures (forall dp :: calculate(dp).Some?) ==> |Probes(form, calculate, low, high, steps)| == steps
    ensures (forall dp :: calculate(dp).None?) ==> Probes(form, calculate, low, high, steps) == []
    decreases steps
  {
    if steps > 0 {
      var mid := (low + high) / 2.0;
      if calculate(mid).Some? {
        var res := calculate(mid).value;
        if RaisesLow(form, Observed(form, res)) {
          ProbesLength(form, calculate, mid, high, steps - 1);
        } else {
          ProbesLength(form, calculate, low, mid, steps - 1);
        }
      }
    }
  }

  /**
   * Every probe is the calculation for its own down payment, which lies strictly inside the starting
   * interval; the first probe is at the interval's midpoint.
   */
  lemma {:induction false} ProbesWithin(form: SimulationForm, calculate: real -> Option<CalculationResult>, low: real, high: real, steps: nat)
    requires ReportsOwnDp(calculate) && low < high
    ensures var probes := Probes(form, calculate, low, high, steps);
      && (|probes| > 0 ==> probes[0].dpPercentCalc == (low + high) / 2.0)
      && forall j :: 0 <= j < |probes| ==>
           && low < probes[j].dpPercentCalc < high
           && calculate(probes[j].dpPercentCalc) == Some(probes[j])
    decreases steps
  {
    if steps > 0 {
      var mid := (low + high) / 2.0;
      if calculate(mid).Some? {
        var res := calculate(mid).value;
        if RaisesLow(form, Observed(form, res)) {
          ProbesWithin(form, calculate, mid, high, steps - 1);
        } else {
          ProbesWithin(form, calculate, low, mid, steps - 1);
        }
      }
    }
  }

  lemma HalfScale(w: real, p: real)
    requires p > 0.0
    ensures (w / 2.0) / p == w / (2.0 * p)
  {
    assert (w / 2.0) / p * (2.0 * p) == w;
  }

  /**
   * Each step moves the down payment by half the previous move, in the direction the previous
   * probe's observed value asks for: probe j + 1 lies (high - low) / 2^(j+2) above or below probe j.
   */
  lemma {:induction false} ProbesStep(form: SimulationForm, calculate: real -> Option<CalculationResult>, low: real, high: real, steps: nat, j: nat)
    requires ReportsOwnDp(calculate)
    requires j + 1 < |Probes(form, calculate, low, high, steps)|
    ensures var probes := Probes(form, calculate, low, high, steps);
      var move := (high - low) / Pow2(j + 2);
      probes[j + 1].dpPercentCalc
        == if RaisesLow(form, Observed(form, probes[j])) then probes[j].dpPercentCalc + move
           else probes[j].dpPercentCalc - move
    decreases steps
  {
    var probes := Probes(form, calculate, low, high, steps);
    var mid := (low + high) / 2.0;
    var res := calculate(mid).value;
    var raises := RaisesLow(form, Observed(form, res));
    var nextLow, nextHigh := if raises then mid else low, if raises then high else mid;
    var rest := Probes(form, calculate, nextLow, nextHigh, steps - 1);
    assert probes == [res] + rest;
    assert nextHigh - nextLow == (high - low) / 2.0;
    if j == 0 {
      assert Pow2(2) == 4.0;
      assert res.dpPercentCalc == mid;
      assert rest[0] == calculate((nextLow + nextHigh) / 2.0).value;
    } else {
      ProbesStep(form, calculate, nextLow, nextHigh, steps - 1, j - 1);
      HalfScale(high - low, Pow2(j + 1));
      assert probes[j] == rest[j - 1] && probes[j + 1] == rest[j];
    }
  }

  /**
   * Among the first n probes, probe k is the one the solver keeps: its difference is below
   * `MaxValue`, every earlier probe lies strictly farther from the target (only a strictly smaller
   * difference replaces the best) and no later one lies closer.
   */
  predicate EarliestMinimumBelow(form: SimulationForm, probes: seq<CalculationResult>, n: int, k: int)
    requires 0 <= n <= |probes|
  {
    && 0 <= k < n
    && Diff(form, probes[k]) < MaxValue
    && (forall j :: 0 <= j < k ==> Diff(form, probes[j]) > Diff(form, probes[k]))
    && (forall j :: k < j < n ==> Diff(form, probes[j]) >= Diff(form, probes[k]))
  }

  predicate EarliestMinimumAt(form: SimulationForm, probes: seq<CalculationResult>, k: int) {
    EarliestMinimumBelow(form, probes, |probes|, k)
  }

  /** The outcome the solver owes for a sequence of probes. */
  predicate BestProbe(form: SimulationForm, probes: seq<CalculationResult>, outcome: SolverOutcome) {
    && !outcome.NothingToSolve?
    && (outcome.NoRecommendation? <==> forall j :: 0 <= j < |probes| ==> Diff(form, probes[j]) >= MaxValue)
    && (outcome.Recommended? ==> exists k :: 0 <= k < |probes| && EarliestMinimumAt(form, probes, k) && outcome.result == probes[k])
  }

  /** At most one probe is the earliest closest one, so the kept result is determined by the probes. */
  lemma EarliestMinimumUnique(form: SimulationForm, probes: seq<CalculationResult>, k1: int, k2: int)
    requires EarliestMinimumAt(form, probes, k1) && EarliestMinimumAt(form, probes, k2)
    ensures k1 == k2
  {
  }

  /**
   * One step of the search seen from the whole: when `seen` followed by the search from (low, high)
   * is `probes`, then without a result at the midpoint `seen` is all of `probes`, and with result r
   * it is `seen + [r]` followed by the search from the half the direction rule keeps.
   */
  lemma AdvanceSearch(form: SimulationForm, calculate: real -> Option<CalculationResult>, seen: seq<CalculationResult>,
                      low: real, high: real, steps: nat, probes: seq<CalculationResult>)
    requires steps > 0 && seen + Probes(form, calculate, low, high, steps) == probes
    ensures var mid := (low + high) / 2.0;
      && (calculate(mid).None? ==> seen == probes)
      && (calculate(mid).Some? ==>
            var r := calculate(mid).value;
            (seen + [r]) + (if RaisesLow(form, Observed(form, r)) then Probes(form, calculate, mid, high, steps - 1)
                            else Probes(form, calculate, low, mid, steps - 1)) == probes)
  {
    var mid := (low + high) / 2.0;
    if calculate(mid).Some? {
      var r := calculate(mid).value;
      var after := if RaisesLow(form, Observed(form, r)) then Probes(form, calculate, mid, high, steps - 1)
                   else Probes(form, calculate, low, mid, steps - 1);
      assert Probes(form, calculate, low, high, steps) == [r] + after;
      assert (seen + [r]) + after == seen + ([r] + after);
    }
  }

  /**
   * The index the solver's update rule keeps after the first n probes: a probe replaces the kept one
   * when its difference is strictly below the kept one's (below `MaxValue` while none is kept).
   */
  function BestUpTo(form: SimulationForm, probes: seq<CalculationResult>, n: nat): (best: Option<nat>)
    requires n <= |probes|
    ensures best.Some? ==> best.value < n
  {
    if n == 0 then None
    else
      var kept := BestUpTo(form, probes, n - 1);
      if Diff(form, probes[n - 1]) < MinDiffOf(form, probes, kept) then Some(n - 1) else kept
  }

  /** The difference of the kept probe, `MaxValue` while none is kept. */
  function MinDiffOf(form: SimulationForm, probes: seq<CalculationResult>, kept: Option<nat>): real {
    if kept.Some? && kept.value < |probes| then Diff(form, probes[kept.value]) else MaxValue
  }

  /**
   * The update rule keeps the earliest closest probe: nothing is kept exactly when no probe came
   * within `MaxValue` of the target, and a kept probe is the earliest minimum.
   */
  lemma {:induction false} BestUpToIsEarliestMinimum(form: SimulationForm, probes: seq<CalculationResult>, n: nat)
    requires n <= |probes|
    ensures BestUpTo(form, probes, n).None? <==> forall j :: 0 <= j < n ==> Diff(form, probes[j]) >= MaxValue
    ensures BestUpTo(form, probes, n).Some? ==> EarliestMinimumBelow(form, probes, n, BestUpTo(form, probes, n).value)
  {
    if n > 0 {
      BestUpToIsEarliestMinimum(form, probes, n - 1);
    }
  }

  /** What the update rule keeps among the first n probes does not depend on the probes after them. */
  lemma {:induction false} BestUpToPrefix(form: SimulationForm, s: seq<CalculationResult>, t: seq<CalculationResult>, n: nat)
    requires n <= |s|
    ensures BestUpTo(form, s + t, n) == BestUpTo(form, s, n)
    ensures MinDiffOf(form, s + t, BestUpTo(form, s, n)) == MinDiffOf(form, s, BestUpTo(form, s, n))
  {
    if n > 0 {
      BestUpToPrefix(form, s, t, n - 1);
      assert (s + t)[n - 1] == s[n - 1];
    }
  }

  /** The outcome built from the kept index of all the probes is the one `BestProbe` asks for. */
  lemma BestUpToOutcome(form: SimulationForm, probes: seq<CalculationResult>)
    ensures var kept := BestUpTo(form, probes, |probes|);
      BestProbe(form, probes, if kept.Some? then Recommended(probes[kept.value]) else NoRecommendation)
  {
    BestUpToIsEarliestMinimum(form, probes, |probes|);
  }

  /**
   * The solver's loop invariant after i steps: `seen` is what it has evaluated, and followed by the
   * search from (low, high) it makes up all the probes; the kept result, its index and `minDiff` are
   * those of the update rule over `seen`.
   */
  ghost predicate SearchState(form: SimulationForm, calculate: real -> Option<CalculationResult>, probes: seq<CalculationResult>,
                              i: nat, seen: seq<CalculationResult>, low: real, high: real,
                              best: Option<CalculationResult>, bestAt: int, minDiff: real)
    requires i <= Iterations
  {
    && |seen| == i
    && seen + Probes(form, calculate, low, high, Iterations - i) == probes
    && (best.None? == BestUpTo(form, seen, i).None?)
    && (best.Some? ==> bestAt == BestUpTo(form, seen, i).value && best.value == seen[bestAt])
    && minDiff == MinDiffOf(form, seen, BestUpTo(form, seen, i))
  }

  /** A step with a result keeps the invariant, under the update rule and the direction rule. */
  lemma SearchStep(form: SimulationForm, calculate: real -> Option<CalculationResult>, probes: seq<CalculationResult>,
                   i: nat, seen: seq<CalculationResult>, low: real, high: real,
                   best: Option<CalculationResult>, bestAt: int, minDiff: real)
    requires i < Iterations && SearchState(form, calculate, probes, i, seen, low, high, best, bestAt, minDiff)
    requires calculate((low + high) / 2.0).Some?
    ensures var mid := (low + high) / 2.0;
      var r := calculate(mid).value;
      var closer := Diff(form, r) < minDiff;
      var raises := RaisesLow(form, Observed(form, r));
      SearchState(form, calculate, probes, i + 1, seen + [r],
                  if raises then mid else low, if raises then high else mid,
                  if closer then Some(r) else best, if closer then i else bestAt, if closer then Diff(form, r) else minDiff)
  {
    var r := calculate((low + high) / 2.0).value;
    AdvanceSearch(form, calculate, seen, low, high, Iterations - i, probes);
    BestUpToPrefix(form, seen, [r], i);
  }

  /** A step without a result, or the last step, leaves every probe evaluated. */
  lemma SearchEnds(form: SimulationForm, calculate: real -> Option<CalculationResult>, probes: seq<CalculationResult>,
                   i: nat, seen: seq<CalculationResult>, low: real, high: real,
                   best: Option<CalculationResult>, bestAt: int, minDiff: real)
    requires i <= Iterations && SearchState(form, calculate, probes, i, seen, low, high, best, bestAt, minDiff)
    requires i == Iterations || calculate((low + high) / 2.0).None?
    ensures seen == probes
  {
    if i < Iterations {
      AdvanceSearch(form, calculate, seen, low, high, Iterations - i, probes);
    }
  }

  /** The result the update rule keeps over all the probes, if any. */
  function KeptResult(form: SimulationForm, probes: seq<CalculationResult>): Option<CalculationResult> {
    match BestUpTo(form, probes, |probes|)
    case None => None
    case Some(k) => Some(probes[k])
  }

  /**
   * The loop of `solveBudget`: 60 bisection steps over [5, 90], stopping when nothing can be
   * calculated, keeping the result closest to the target. It returns the result the update rule keeps
   * over the probes of the search.
   */
  method Bisect(form: SimulationForm, calculate: real -> Option<CalculationResult>) returns (bestResult: Option<CalculationResult>)
    ensures bestResult == KeptResult(form, Probes(form, calculate, LowStart, HighStart, Iterations))
  {
    var low, high := LowStart, HighStart;
    bestResult := None;
    var minDiff := MaxValue;
    ghost var probes := Probes(form, calculate, LowStart, HighStart, Iterations);
    ghost var seen: seq<CalculationResult> := [];
    ghost var bestAt := 0;
    ghost var stopped := false;

    for i := 0 to Iterations
      invariant !stopped
      invariant SearchState(form, calculate, probes, i, seen, low, high, bestResult, bestAt, minDiff)
    {
      var midDp := (low + high) / 2.0;
      var res := calculate(midDp);
      if res.None? {
        SearchEnds(form, calculate, probes, i, seen, low, high, bestResult, bestAt, minDiff);
        stopped := true;
        break;
      }
      SearchStep(form, calculate, probes, i, seen, low, high, bestResult, bestAt, minDiff);
      var r := res.value;
      var currentVal := if form.targetType == Tdp then r.totalDownPayment else r.monthlyInstallment;
      var diff := Abs(currentVal - form.targetValue);

      if diff < minDiff {
        minDiff := diff;
        bestResult := Some(r);
        bestAt := i;
      }

      if form.targetType == Tdp {
        if currentVal < form.targetValue {
          low := midDp;
        } else {
          high := midDp;
        }
      } else {
        if currentVal > form.targetValue {
          low := midDp;
        } else {
          high := midDp;
        }
      }
      seen := seen + [r];
    }

    if !stopped {
      SearchEnds(form, calculate, probes, Iterations, seen, low, high, bestResult, bestAt, minDiff);
    }
  }

  /**
   * `solveBudget`, given the hook's `calculateFinancials` (bound to its rate data and form) as
   * `calculate`: nothing happens without a positive target and price; otherwise the outcome is the
   * earliest closest of the probes the 60-step bisection over [5, 90] evaluates, or no recommendation
   * when none lies within `MaxValue` of the target.
   */
  method SolveBudget(form: SimulationForm, calculate: real -> Option<CalculationResult>) returns (outcome: SolverOutcome)
    ensures form.targetValue <= 0.0 || form.price <= 0.0 ==> outcome == NothingToSolve
    ensures form.targetValue > 0.0 && form.price > 0.0 ==>
              BestProbe(form, Probes(form, calculate, LowStart, HighStart, Iterations), outcome)
  {
    if form.targetValue <= 0.0 || form.price <= 0.0 {
      return NothingToSolve;
    }
    var bestResult := Bisect(form, calculate);
    BestUpToOutcome(form, Probes(form, calculate, LowStart, HighStart, Iterations));
    if bestResult.Some? {
      outcome := Recommended(bestResult.value);
    } else {
      outcome := NoRecommendation;
    }
  }

  /** Without rate data the solver, run with `calculateFinancials`, has no recommendation. */
  lemma NoDataNoRecommendation(form: SimulationForm, outcome: SolverOutcome)
    requires form.tenor > 0
    requires BestProbe(form, Probes(form, Calculator(None, form), LowStart, HighStart, Iterations), outcome)
    ensures outcome == NoRecommendation
  {
    CalculatorFacts(None, form);
    ProbesLength(form, Calculator(None, form), LowStart, HighStart, Iterations);
  }

  /** The earliest closest probe is at least as close to the target as every probe. */
  lemma EarliestMinimumIsClosest(form: SimulationForm, probes: seq<CalculationResult>, k: int)
    requires EarliestMinimumAt(form, probes, k)
    ensures forall j :: 0 <= j < |probes| ==> Diff(form, probes[k]) <= Diff(form, probes[j])
  {
    forall j | 0 <= j < |probes|
      ensures Diff(form, probes[k]) <= Diff(form, probes[j])
    {
      if j < k {
        assert Diff(form, probes[j]) > Diff(form, probes[k]);
      }
    }
  }

  /** A recommended result lies at least as close to the target as every probe. */
  lemma RecommendationIsClosest(form: SimulationForm, probes: seq<CalculationResult>, outcome: SolverOutcome)
    requires BestProbe(form, probes, outcome) && outcome.Recommended?
    ensures forall j :: 0 <= j < |probes| ==> Diff(form, outcome.result) <= Diff(form, probes[j])
  {
    var k :| 0 <= k < |probes| && EarliestMinimumAt(form, probes, k) && outcome.result == probes[k];
    EarliestMinimumIsClosest(form, probes, k);
  }

  /**
   * A recommendation of a search whose results report their own down payment is the result for
   * its down payment, which lies strictly between 5% and 90%.
   */
  lemma RecommendationIsProbe(form: SimulationForm, calculate: real -> Option<CalculationResult>, outcome: SolverOutcome)
    requires ReportsOwnDp(calculate)
    requires BestProbe(form, Probes(form, calculate, LowStart, HighStart, Iterations), outcome)
    requires outcome.Recommended?
    ensures LowStart < outcome.result.dpPercentCalc < HighStart
    ensures calculate(outcome.result.dpPercentCalc) == Some(outcome.result)
  {
    var probes := Probes(form, calculate, LowStart, HighStart, Iterations);
    ProbesWithin(form, calculate, LowStart, HighStart, Iterations);
    var k :| 0 <= k < |probes| && EarliestMinimumAt(form, probes, k) && outcome.result == probes[k];
  }

  /**
   * Run with `calculateFinancials`, a recommendation is the calculation for its own down payment,
   * which lies strictly between 5% and 90%, and lies at least as close to the target as every probe.
   */
  lemma RecommendationInRange(data: Option<AppData>, form: SimulationForm, outcome: SolverOutcome)
    requires form.tenor > 0
    requires BestProbe(form, Probes(form, Calculator(data, form), LowStart, HighStart, Iterations), outcome)
    requires outcome.Recommended?
    ensures LowStart < outcome.result.dpPercentCalc < HighStart
    ensures CalculateFinancials(data, form, outcome.result.dpPercentCalc) == Some(outcome.result)
    ensures var probes := Probes(form, Calculator(data, form), LowStart, HighStart, Iterations);
            forall j :: 0 <= j < |probes| ==> Diff(form, outcome.result) <= Diff(form, probes[j])
  {
    CalculatorFacts(data, form);
    RecommendationIsProbe(form, Calculator(data, form), outcome);
    RecommendationIsClosest(form, Probes(form, Calculator(data, form), LowStart, HighStart, Iterations), outcome);
  }
}
