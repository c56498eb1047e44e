/**
 * `calculateFinancials`: the star level of a down-payment percentage, the interest-rate lookup,
 * and the two computation branches (the special region-3 scenario for star level 1, and the
 * normal scenario) that produce a full calculation result.
 */
module Calculation {
  import opened Optional
  import opened ArrayOps
  import opened Rounding
  import opened SimulationTypes
  import opened RegionalRates
  import opened RateSort
  import opened FormRules

  /** The policy fee financed with the loan. */
  const PolicyFee: real := 100000.0
  /** The policy fee collected with the first payment. */
  const PolicyFeeTdp: real := 50000.0
  /** The annual interest rate used when the table has no row for the key. */
  const DefaultInterestRate: real := 0.0885
  /** The flat amount added to the price to form the insurance base in the special scenario. */
  const SpecialInsuranceSurcharge: real := 2000000.0

  /**
   * The star level of a down-payment percentage: 1 below 5%, then one level per further 5%,
   * up to 7 from 30% on; each threshold belongs to the higher level.
   */
  function StarLevel(dpPercent: real): (star: int)
    ensures 1 <= star <= 7
    ensures star >= 2 ==> 5.0 * (star - 1) as real <= dpPercent
    ensures star <= 6 ==> dpPercent < 5.0 * star as real
  {
    if dpPercent >= 30.0 then 7
    else if dpPercent >= 25.0 then 6
    else if dpPercent >= 20.0 then 5
    else if dpPercent >= 15.0 then 4
    else if dpPercent >= 10.0 then 3
    else if dpPercent >= 5.0 then 2
    else 1
  }

  /** A larger down payment never gives a lower star level. */
  lemma StarLevelMonotone(a: real, b: real)
    requires a <= b
    ensures StarLevel(a) <= StarLevel(b)
  {
  }

  /** An interest-rate row applies to the form at the given star level. */
  predicate InterestKeyMatches(row: DbInterest, form: SimulationForm, star: int) {
    && row.category == CategoryName(form.category)
    && row.paymentType == PaymentTypeName(form.paymentType)
    && row.star == star
    && row.tenor == form.tenor
  }

  /** The rate of the first row matching (category, payment type, star, tenor), or the default rate. */
  function InterestRate(rows: seq<DbInterest>, form: SimulationForm, star: int): (rate: real)
    ensures (forall j :: 0 <= j < |rows| ==> !InterestKeyMatches(rows[j], form, star)) ==> rate == DefaultInterestRate
    ensures forall i :: 0 <= i < |rows| && InterestKeyMatches(rows[i], form, star)
                        && (forall j :: 0 <= j < i ==> !InterestKeyMatches(rows[j], form, star))
              ==> rate == rows[i].rate
  {
    match FindIndex(rows, (row: DbInterest) => InterestKeyMatches(row, form, star))
    case Some(i) => rows[i].rate
    case None => DefaultInterestRate
  }

  /** The flat interest on the amount financed over the whole tenor, before rounding. */
  function RawInterest(totalAR: real, interestRate: real, tenor: int): real {
    totalAR * interestRate * (tenor as real / 12.0)
  }

  /** The loan figures both branches derive the same way from the amount financed. */
  datatype Totals = Totals(totalInterest: real, totalLoan: real, monthlyInstallment: real)

  /**
   * From the amount financed (`totalAR`): the flat interest over the tenor rounded to the nearest 100,
   * the loan total, and the monthly installment rounded up to a multiple of 10 000.
   */
  function ComputeTotals(totalAR: real, interestRate: real, tenor: int): (t: Totals)
    requires tenor > 0
    ensures t.totalLoan == totalAR + t.totalInterest
    ensures IsMultipleOf(t.totalInterest, 100.0)
    ensures t.totalInterest - 50.0 <= RawInterest(totalAR, interestRate, tenor) < t.totalInterest + 50.0
    ensures IsMultipleOf(t.monthlyInstallment, 10000.0)
    ensures t.totalLoan / tenor as real <= t.monthlyInstallment < t.totalLoan / tenor as real + 10000.0
  {
    var rawInterest := RawInterest(totalAR, interestRate, tenor);
    var totalInterest := RoundVal(rawInterest, 100.0, Nearest);
    var totalLoan := totalAR + totalInterest;
    var rawInstallment := totalLoan / tenor as real;
    Totals(totalInterest, totalLoan, RoundVal(rawInstallment, 10000.0, Up))
  }

  /**
   * The invariant of every calculation result: the amount financed is principal + insurance + policy
   * fee, interest and amount financed add up to the loan exactly, the interest is the raw flat interest
   * rounded to a multiple of 100, the installment is loan / tenor rounded up to a multiple of 10 000,
   * and the residual `nilaiAP` is the price less the first payment.
   */
  predicate TotalsConsistent(res: CalculationResult, tenor: int)
    requires tenor > 0
  {
    && res.totalAR == res.principalPure + res.insuranceAmount + res.policyFee
    && res.totalAR + res.totalInterest == res.totalLoan
    && IsMultipleOf(res.totalInterest, 100.0)
    && res.totalInterest - 50.0 <= RawInterest(res.totalAR, res.interestRatePct, tenor) < res.totalInterest + 50.0
    && IsMultipleOf(res.monthlyInstallment, 10000.0)
    && res.totalLoan / tenor as real <= res.monthlyInstallment < res.totalLoan / tenor as real + 10000.0
    && res.nilaiAP == res.vehiclePrice - res.totalDownPayment
  }

  /**
   * `calculateFinancials(overrideDpPercent)`: no result without rate data; otherwise a result whose
   * star level, interest rate, scenario and divisor follow from the down-payment percentage and the
   * tables, and whose totals satisfy `TotalsConsistent`.
   */
  function CalculateFinancials(data: Option<AppData>, form: SimulationForm, overrideDpPercent: real): (r: Option<CalculationResult>)
    requires form.tenor > 0
    ensures r.None? <==> data.None?
    ensures r.Some? ==>
      var res := r.value;
      && res.starLevel == StarLevel(overrideDpPercent)
      && (res.isSpecialScenario <==> res.starLevel == 1)
      && res.dpPercentCalc == overrideDpPercent
      && res.vehiclePrice == form.price && res.adminFee == form.adminFee
      && res.policyFee == PolicyFee && res.policyFeeTdp == PolicyFeeTdp
      && res.interestRatePct == InterestRate(data.value.interestRates, form, res.starLevel)
      && res.installmentDivisor == (if res.isSpecialScenario then form.tenor - 2 else form.tenor)
      && TotalsConsistent(res, form.tenor)
  {
    if data.None? then None
    else
      var starLevel := StarLevel(overrideDpPercent);
      var insuranceRatePct := SelectedInsuranceRate(AvailableInsuranceOptions(data, form), form.selectedInsuranceLabel);
      var lookupStar := if starLevel == 1 then 1 else starLevel;
      var interestRatePct := InterestRate(data.value.interestRates, form, lookupStar);
      var isSpecialScenario := starLevel == 1;
      if isSpecialScenario then
        var finalInsuranceRatePct := Wilayah3Rate(form.price, form.tenor);
        Some(SpecialScenarioResult(form, starLevel, interestRatePct, finalInsuranceRatePct, overrideDpPercent))
      else
        var finalInsuranceRatePct := insuranceRatePct;
        Some(NormalScenarioResult(form, starLevel, interestRatePct, finalInsuranceRatePct, overrideDpPercent))
  }

  /**
   * The special branch: no down payment, the whole price financed, insurance charged on the price plus
   * a flat 2 000 000, and a first payment of two installments plus the admin and policy fees.
   */
  function SpecialScenarioResult(form: SimulationForm, starLevel: int, interestRatePct: real,
                                 insuranceRatePct: real, dpPercent: real): (res: CalculationResult)
    requires form.tenor > 0
    ensures TotalsConsistent(res, form.tenor)
  {
    var price := form.price;
    var principalPure := price;
    var dpAmount := 0.0;
    var insuranceBase := price + SpecialInsuranceSurcharge;
    var insuranceAmount := insuranceBase * insuranceRatePct;
    var totalAR := principalPure + insuranceAmount + PolicyFee;
    var totals := ComputeTotals(totalAR, interestRatePct, form.tenor);
    var firstInstallment := 0.0;
    var totalDownPayment := totals.monthlyInstallment * 2.0 + form.adminFee + PolicyFeeTdp;
    ResultOf(form, starLevel, interestRatePct, insuranceRatePct, dpPercent, dpAmount,
             principalPure, insuranceAmount, totalAR, totals, firstInstallment, totalDownPayment, true)
  }

  /**
   * The normal branch: the down payment is the given share of the price, the rest is financed,
   * insurance is charged on the price, and the first payment is the down payment plus the admin and
   * policy fees, plus the first installment under ADDM.
   */
  function NormalScenarioResult(form: SimulationForm, starLevel: int, interestRatePct: real,
                                insuranceRatePct: real, dpPercent: real): (res: CalculationResult)
    requires form.tenor > 0
    ensures TotalsConsistent(res, form.tenor)
  {
    var price := form.price;
    var dpAmount := price * (dpPercent / 100.0);
    var principalPure := price - dpAmount;
    var insuranceAmount := price * insuranceRatePct;
    var totalAR := principalPure + insuranceAmount + PolicyFee;
    var totals := ComputeTotals(totalAR, interestRatePct, form.tenor);
    var firstInstallment := if form.paymentType == Addm then totals.monthlyInstallment else 0.0;
    var totalDownPayment := dpAmount + form.adminFee + PolicyFeeTdp + firstInstallment;
    ResultOf(form, starLevel, interestRatePct, insuranceRatePct, dpPercent, dpAmount,
             principalPure, insuranceAmount, totalAR, totals, firstInstallment, totalDownPayment, false)
  }

  /** The result record both branches return: the residual `nilaiAP` and the installment divisor are derived here. */
  function ResultOf(form: SimulationForm, starLevel: int, interestRatePct: real, insuranceRatePct: real,
                    dpPercent: real, dpAmount: real, principalPure: real, insuranceAmount: real, totalAR: real,
                    totals: Totals, firstInstallment: real, totalDownPayment: real, isSpecialScenario: bool): CalculationResult
  {
    CalculationResult(
      starLevel := starLevel,
      interestRatePct := interestRatePct,
      insuranceRatePct := insuranceRatePct,
      vehiclePrice := form.price,
      dpAmount := dpAmount,
      dpPercentCalc := dpPercent,
      principalPure := principalPure,
      insuranceAmount := insuranceAmount,
      policyFee := PolicyFee,
      totalAR := totalAR,
      totalInterest := totals.totalLoan - totalAR,
      totalLoan := totals.totalLoan,
      monthlyInstallment := totals.monthlyInstallment,
      adminFee := form.adminFee,
      policyFeeTdp := PolicyFeeTdp,
      firstInstallment := firstInstallment,
      totalDownPayment := totalDownPayment,
      nilaiAP := form.price - totalDownPayment,
      installmentDivisor := if isSpecialScenario then form.tenor - 2 else form.tenor,
      isSpecialScenario := isSpecialScenario)
  }

  /** Installment times a positive count covers the loan when the installment is at least loan / tenor. */
  lemma InstallmentsCover(loan: real, installment: real, tenor: int)
    requires tenor > 0 && loan / tenor as real <= installment
    ensures loan <= installment * tenor as real
  {
    var t := tenor as real;
    assert installment * t - loan == (installment - loan / t) * t;
  }

  /**
   * A down payment below 5% selects the special scenario: star level 1, the interest rate of star 1
   * and the regional-grid insurance rate.
   */
  lemma SpecialScenario(data: Option<AppData>, form: SimulationForm, dpPercent: real)
    requires form.tenor > 0 && data.Some? && dpPercent < 5.0
    ensures StarLevel(dpPercent) == 1
    ensures CalculateFinancials(data, form, dpPercent)
         == Some(SpecialScenarioResult(form, 1, InterestRate(data.value.interestRates, form, 1),
                                       Wilayah3Rate(form.price, form.tenor), dpPercent))
  {
  }

  /**
   * The special scenario's figures, for any rates: no down payment, the full price financed,
   * insurance on price + 2 000 000, no first installment, two installments collected in the first
   * payment, tenor - 2 installments left, and those two plus the rest cover the loan.
   */
  lemma SpecialBranchFigures(form: SimulationForm, interestRatePct: real, insuranceRatePct: real, dpPercent: real)
    requires form.tenor > 0
    ensures var res := SpecialScenarioResult(form, 1, interestRatePct, insuranceRatePct, dpPercent);
      && res.isSpecialScenario && res.starLevel == 1
      && res.dpAmount == 0.0
      && res.principalPure == form.price
      && res.insuranceRatePct == insuranceRatePct
      && res.insuranceAmount == (form.price + SpecialInsuranceSurcharge) * insuranceRatePct
      && res.firstInstallment == 0.0
      && res.totalDownPayment == 2.0 * res.monthlyInstallment + form.adminFee + PolicyFeeTdp
      && res.installmentDivisor == form.tenor - 2
      && res.totalLoan <= res.monthlyInstallment * form.tenor as real
  {
    var res := SpecialScenarioResult(form, 1, interestRatePct, insuranceRatePct, dpPercent);
    InstallmentsCover(res.totalLoan, res.monthlyInstallment, form.tenor);
  }

  /**
   * In the special scenario the reported divisor alone does not cover the loan: once the loan is at
   * least 5 000 * tenor * (tenor - 2), installment * (tenor - 2) falls short of it.
   */
  lemma SpecialDivisorFallsShort(form: SimulationForm, interestRatePct: real, insuranceRatePct: real, dpPercent: real)
    requires form.tenor > 2
    requires SpecialScenarioResult(form, 1, interestRatePct, insuranceRatePct, dpPercent).totalLoan
             >= 5000.0 * (form.tenor * (form.tenor - 2)) as real
    ensures var res := SpecialScenarioResult(form, 1, interestRatePct, insuranceRatePct, dpPercent);
      res.monthlyInstallment * res.installmentDivisor as real < res.totalLoan
  {
    var res := SpecialScenarioResult(form, 1, interestRatePct, insuranceRatePct, dpPercent);
    assert res.installmentDivisor == form.tenor - 2;
    ShortOfLoan(res.totalLoan, res.monthlyInstallment, form.tenor);
  }

  /** An installment below loan / tenor + 10 000, paid tenor - 2 times, stays below a large enough loan. */
  lemma ShortOfLoan(loan: real, installment: real, tenor: int)
    requires tenor > 2
    requires installment < loan / tenor as real + 10000.0
    requires loan >= 5000.0 * (tenor * (tenor - 2)) as real
    ensures installment * (tenor - 2) as real < loan
  {
    var t, d := tenor as real, (tenor - 2) as real;
    var perMonth := loan / t;
    assert perMonth * t == loan;
    BelowScaled(installment * d, installment, d, perMonth + 10000.0);
    assert (perMonth + 10000.0) * d == loan - 2.0 * perMonth + 10000.0 * d;
    if perMonth < 5000.0 * d {
      BelowScaled(loan, perMonth, t, 5000.0 * d);
      assert false;
    }
  }

  /**
   * The normal scenario's figures, for any star level and rates: the down payment is the given share
   * of the price, the rest is financed, insurance is charged on the price, the first installment is
   * collected at signing only under ADDM, and the tenor's installments cover the loan.
   */
  lemma NormalBranchFigures(form: SimulationForm, starLevel: int, interestRatePct: real, insuranceRatePct: real, dpPercent: real)
    requires form.tenor > 0
    ensures var res := NormalScenarioResult(form, starLevel, interestRatePct, insuranceRatePct, dpPercent);
      && !res.isSpecialScenario
      && res.dpAmount == form.price * dpPercent / 100.0
      && res.principalPure + res.dpAmount == form.price
      && res.insuranceRatePct == insuranceRatePct
      && res.insuranceAmount == form.price * insuranceRatePct
      && res.firstInstallment == (if form.paymentType == Addm then res.monthlyInstallment else 0.0)
      && res.totalDownPayment == res.dpAmount + form.adminFee + PolicyFeeTdp + res.firstInstallment
      && res.installmentDivisor == form.tenor
      && res.totalLoan <= res.monthlyInstallment * res.installmentDivisor as real
  {
    var res := NormalScenarioResult(form, starLevel, interestRatePct, insuranceRatePct, dpPercent);
    InstallmentsCover(res.totalLoan, res.monthlyInstallment, form.tenor);
  }

  /**
   * A down payment of at least 5% selects the normal scenario: a star level of 2 or more, the interest
   * rate of that star level and the rate of the selected insurance option.
   */
  lemma NormalScenario(data: Option<AppData>, form: SimulationForm, dpPercent: real)
    requires form.tenor > 0 && data.Some? && dpPercent >= 5.0
    ensures StarLevel(dpPercent) >= 2
    ensures CalculateFinancials(data, form, dpPercent)
         == Some(NormalScenarioResult(form, StarLevel(dpPercent),
                                      InterestRate(data.value.interestRates, form, StarLevel(dpPercent)),
                                      SelectedInsuranceRate(AvailableInsuranceOptions(data, form), form.selectedInsuranceLabel),
                                      dpPercent))
  {
  }
}
