# Gaspol credit simulator — a verified model of the calculation engine

Gaspol is a vehicle-credit simulator. This project models the engine inside its React hook
`useCreditSimulation`:

- **Star levels.** A down-payment percentage maps to a star level from 1 to 7.
- **Regional insurance grid.** A hard-coded region-3 ("Wilayah 3") grid gives an insurance rate from
  the price bracket and the tenor year.
- **Form rules.**
  - The tenors offered per vehicle category.
  - The insurance options that fit the form, filtered from the rate table and sorted by rate.
  - The rule that keeps a valid insurance option selected.
- **`calculateFinancials`.** It picks the interest rate from the rate table, with a default rate as
  fallback. It then computes the loan in one of two scenarios:
  - the special scenario for star level 1 (a down payment below 5%);
  - the normal scenario otherwise.

  In both scenarios the interest is rounded to 100 and the installment is rounded up to 10 000.
- **Budget solver (`solveBudget`).** Given a target first payment (TDP) or a target installment, it
  bisects the down payment over [5%, 90%] for 60 steps. It keeps the evaluated result closest to the
  target.
- **`removeAttachment`.** Removes one attachment from the form.

Modules, one per concern:

| file | module | what it holds |
|---|---|---|
| `optional.dfy` | `Optional` | `Option`, for `null` results and absent rate data |
| `array_ops.dfy` | `ArrayOps` | `find`, `filter` by element and `filter` by index, on sequences |
| `rounding.dfy` | `Rounding` | `Math.round`, `Math.ceil` and `roundVal` on exact reals |
| `simulation_types.dfy` | `SimulationTypes` | the records of `app/types/simulation.ts` |
| `regional_rates.dfy` | `RegionalRates` | the region-3 grid and `getWilayah3Rate` |
| `rate_sort.dfy` | `RateSort` | the stable sort of insurance options by rate |
| `form_rules.dfy` | `FormRules` | tenors, insurance options, auto-select, selected rate, attachment removal |
| `calculation.dfy` | `Calculation` | star level, interest lookup, both scenarios, `calculateFinancials` |
| `budget_solver.dfy` | `BudgetSolver` | `solveBudget` as a loop, proved against a reference search |

**Arithmetic.** Money and rates are exact reals.

- `Math.round(x)` is `floor(x + 0.5)` and `Math.ceil(x)` is `-floor(-x)`.
- `Number.MAX_VALUE`, the solver's initial smallest difference, is its exact value (2^53 - 1)·2^971.

**The solver.** `SolveBudget` is a method whose loop (`Bisect`) follows the source statement by
statement. Its contract ties the outcome to `Probes`, which is the sequence of results the bisection
evaluates, defined by recursion:

- the outcome is the earliest probe with the smallest distance to the target;
- or it is "no recommendation" when no probe comes within `Number.MAX_VALUE` of the target.

Separate lemmas then prove the following about the probes:

- every probe lies strictly inside (5, 90);
- each step moves the down payment by half the previous move, in the direction the rule asks for;
- there are at most 60 probes;
- without rate data there are none.

The solver receives `calculateFinancials` as a function parameter, bound to the rate data and the
form. This is how the hook's closure reaches it. `Calculator` is that binding, and the lemmas
`RecommendationInRange` and `NoDataNoRecommendation` apply the solver's guarantee to it.

**Special scenario.** The special scenario reports `tenor - 2` as its installment divisor, because two
installments are collected with the first payment. Its installment, however, is the loan divided by
the full tenor, rounded up. The model states both facts:

- the full tenor's installments cover the loan (`SpecialBranchFigures`);
- the reported divisor alone falls short of the loan once the loan is at least
  5 000·tenor·(tenor - 2) (`SpecialDivisorFallsShort`).

## Model

All source paths are in `app/hooks/useCreditSimulation.ts` unless stated otherwise.

| member | source | states |
|---|---|---|
| Rounding.Round | app/hooks/useCreditSimulation.ts:102 | `Math.round`: the result is the integer within half a unit of x, with halves rounded up |
| Rounding.Ceil | app/hooks/useCreditSimulation.ts:101 | `Math.ceil`: the result is the least integer not below x |
| Rounding.RoundVal | app/hooks/useCreditSimulation.ts:100-103 | `roundVal` returns a multiple of `multiple`. In `'ceil'` mode it lies in [num, num + multiple). In `'round'` mode it is within half a multiple of num |
| ArrayOps.FindIndex | app/hooks/useCreditSimulation.ts:180 | `find`: the position of the first element satisfying the predicate, or none when no element does |
| ArrayOps.Filter | app/hooks/useCreditSimulation.ts:143-148 | `filter`: the result is no longer than the input, and every kept element satisfies the predicate |
| ArrayOps.FilterCount | app/hooks/useCreditSimulation.ts:143-148 | `filter` keeps each satisfying element with its multiplicity and drops the others |
| ArrayOps.FilterAppend | app/hooks/useCreditSimulation.ts:143-148 | `filter` keeps input order: filtering a concatenation is the concatenation of the filtered parts |
| ArrayOps.RemoveAt | app/hooks/useCreditSimulation.ts:387 | `filter((_, i) => i !== index)`: the sequence without the element at `index`. It is unchanged when `index` is out of range |
| RegionalRates.TenorYear | app/hooks/useCreditSimulation.ts:20 | `ceil(tenorMonths / 12)`: the year y with 12(y-1) < tenorMonths <= 12y |
| RegionalRates.BracketRatesPositive | app/hooks/useCreditSimulation.ts:8-17 | every bracket of the grid lists exactly the years 1..5, each with a positive rate |
| RegionalRates.CeilingsAscend | app/hooks/useCreditSimulation.ts:8-17 | the ceilings ascend: a price under one bracket's ceiling is under every later one |
| RegionalRates.BracketExists | app/hooks/useCreditSimulation.ts:8-21 | every price falls in exactly one bracket (first ceiling at or above it), because the last one is Infinity |
| RegionalRates.Wilayah3Rate | app/hooks/useCreditSimulation.ts:19-26 | `getWilayah3Rate` gives the rate of the price's bracket for the tenor year. It is positive exactly when the tenor year is 1..5, and 0 otherwise |
| RateSort.InsertByRate | app/hooks/useCreditSimulation.ts:150 | insertion adds exactly the one element: the multiset grows by it |
| RateSort.InsertKeepsSorted | app/hooks/useCreditSimulation.ts:150 | inserting into a rate-sorted list keeps it sorted |
| RateSort.InsertWithRate | app/hooks/useCreditSimulation.ts:150 | insertion puts the element before all elements of equal rate and moves no other element relative to the rest |
| RateSort.SortByRate | app/hooks/useCreditSimulation.ts:150 | `sort((a, b) => a.rate - b.rate)` (a stable sort): the result is sorted by rate and is a permutation of the input. Options of equal rate keep their order |
| FormRules.AvailableTenors | app/hooks/useCreditSimulation.ts:124-127 | the tenors are 12, 24, … months: four of them for commercial vehicles, five otherwise |
| FormRules.OfferedTenorsHaveRegionalRate | app/hooks/useCreditSimulation.ts:124-127 | every offered tenor has tenor year 1..5, so the region-3 rate for it is positive |
| FormRules.InsuranceCategory | app/hooks/useCreditSimulation.ts:133-141 | the table category is "PASSENGER" exactly for passenger vehicles |
| FormRules.CommercialCategoriesDistinct | app/hooks/useCreditSimulation.ts:138-140 | distinct commercial sub-categories or loading flags map to distinct table categories |
| FormRules.AvailableInsuranceOptions | app/hooks/useCreditSimulation.ts:130-151 | With no data or a price <= 0 the list is empty. Otherwise every option matches the derived category, the tenor in years and the price range. The list is sorted by rate and holds exactly the eligible rows, with their multiplicities. The options of any one rate are the eligible rows of that rate in table order, so ties keep the table's order |
| FormRules.WithRateOfEligible | app/hooks/useCreditSimulation.ts:143-150 | the options of one rate among the filtered rows are the table rows that are eligible and have that rate, in table order |
| RateSort.WithRateAppend | app/hooks/useCreditSimulation.ts:150 | the options of one rate in a concatenation are those of each part, in order |
| FormRules.AutoSelectLabel | app/hooks/useCreditSimulation.ts:154-163 | With no options the label is "". Otherwise the selected label belongs to an option. A current label that still belongs to one is kept, and a vanished label is replaced by the first option's label |
| FormRules.AutoSelectSettles | app/hooks/useCreditSimulation.ts:154-163 | applying the rule to its own output changes nothing, so the effect settles |
| FormRules.SelectedInsuranceRate | app/hooks/useCreditSimulation.ts:180-181 | the rate is that of the first option with the label, or 0 when no option has it |
| FormRules.AutoSelectedRate | app/hooks/useCreditSimulation.ts:154-181 | after auto-select on a non-empty sorted list, the selected rate is a listed rate. When the old label had gone, it is the lowest rate |
| FormRules.RemoveAttachment | app/hooks/useCreditSimulation.ts:384-389 | removes the attachment at `index`, if any, and leaves every other field of the form as it was |
| Calculation.StarLevel | app/hooks/useCreditSimulation.ts:171-177 | the star level is 1..7. Star s >= 2 needs dp >= 5(s-1) and star s <= 6 needs dp < 5s, so each threshold falls in the higher level |
| Calculation.StarLevelMonotone | app/hooks/useCreditSimulation.ts:171-177 | a larger down payment never gives a lower star level |
| Calculation.InterestRate | app/hooks/useCreditSimulation.ts:186-192 | the rate of the first row matching (category, payment type, star, tenor), or 0.0885 when no row matches |
| Calculation.ComputeTotals | app/hooks/useCreditSimulation.ts:222-229 | loan = financed amount + interest. The interest is a multiple of 100 within 50 of the flat interest. The installment is a multiple of 10 000 in [loan/tenor, loan/tenor + 10 000) |
| Calculation.SpecialScenarioResult | app/hooks/useCreditSimulation.ts:215-232 | the special-branch result satisfies every accounting identity and rounding bound of `TotalsConsistent` |
| Calculation.NormalScenarioResult | app/hooks/useCreditSimulation.ts:234-256 | the normal-branch result satisfies every accounting identity and rounding bound of `TotalsConsistent` |
| Calculation.CalculateFinancials | app/hooks/useCreditSimulation.ts:166-283 | There is no result exactly when the rate data is absent. Otherwise: the star level is that of the down payment; the scenario is special iff star 1; the down payment, price, fees, looked-up interest rate and divisor (tenor - 2 or tenor) are reported; and the totals satisfy `TotalsConsistent` (totalAR = principal + insurance + 100 000, totalAR + interest = loan, rounding bounds, nilaiAP = price - TDP) |
| Calculation.SpecialScenario | app/hooks/useCreditSimulation.ts:196-202 | a down payment below 5% gives star 1, and the special branch with the star-1 interest rate and the region-3 insurance rate |
| Calculation.SpecialBranchFigures | app/hooks/useCreditSimulation.ts:215-232 | special branch: no down payment; the whole price financed; insurance = (price + 2 000 000)·rate; no first installment; TDP = 2·installment + admin fee + 50 000; divisor tenor - 2; installment·tenor covers the loan |
| Calculation.SpecialDivisorFallsShort | app/hooks/useCreditSimulation.ts:228-259 | in the special branch, with loan >= 5 000·tenor·(tenor - 2), installment × reported divisor is below the loan |
| Calculation.NormalBranchFigures | app/hooks/useCreditSimulation.ts:234-259 | normal branch: dpAmount = price·dp/100; principal = price - dpAmount; insurance = price·rate; first installment only under ADDM; TDP = dpAmount + admin + 50 000 + first installment; divisor tenor, whose installments cover the loan |
| Calculation.NormalScenario | app/hooks/useCreditSimulation.ts:180-202 | a down payment of 5% or more gives star >= 2, and the normal branch with that star's interest rate and the selected option's insurance rate |
| BudgetSolver.CalculatorFacts | app/hooks/useCreditSimulation.ts:166-167 | `calculateFinancials` bound to data and form reports its own down payment. It has a result for every down payment iff there is rate data |
| BudgetSolver.Probes | app/hooks/useCreditSimulation.ts:291-319 | the search evaluates at most 60 midpoints |
| BudgetSolver.ProbesLength | app/hooks/useCreditSimulation.ts:291-295 | with a result everywhere all 60 steps are evaluated. With none, the first null stops the loop and nothing is evaluated |
| BudgetSolver.ProbesWithin | app/hooks/useCreditSimulation.ts:289-294 | the first probe is the midpoint of the interval. Every probe lies strictly inside (low, high) and is the calculation for its own down payment |
| BudgetSolver.ProbesStep | app/hooks/useCreditSimulation.ts:292-318 | probe j+1 lies (high - low)/2^(j+2) above probe j when the direction rule raises low, and as far below otherwise. The interval halves every step |
| BudgetSolver.EarliestMinimumUnique | app/hooks/useCreditSimulation.ts:302 | the earliest closest probe is unique |
| BudgetSolver.BestUpTo | app/hooks/useCreditSimulation.ts:302 | the index kept by the update rule is among the probes seen |
| BudgetSolver.BestUpToIsEarliestMinimum | app/hooks/useCreditSimulation.ts:299-302 | the strict `<` update rule keeps nothing iff no probe came within MAX_VALUE of the target. Otherwise it keeps the earliest closest probe |
| BudgetSolver.BestUpToOutcome | app/hooks/useCreditSimulation.ts:321-325 | the outcome built from the kept index is the one `BestProbe` asks for |
| BudgetSolver.SearchStep | app/hooks/useCreditSimulation.ts:292-318 | one loop iteration keeps the loop invariant (`SearchState`) under the update and direction rules |
| BudgetSolver.SearchEnds | app/hooks/useCreditSimulation.ts:291-295 | after a null result or the 60th step, every probe has been evaluated |
| BudgetSolver.Bisect | app/hooks/useCreditSimulation.ts:289-319 | the loop returns exactly the result the update rule keeps over the probes of the search |
| BudgetSolver.SolveBudget | app/hooks/useCreditSimulation.ts:286-326 | With target <= 0 or price <= 0 it does nothing. Otherwise it recommends the earliest closest probe, or reports no recommendation exactly when no probe came within MAX_VALUE |
| BudgetSolver.NoDataNoRecommendation | app/hooks/useCreditSimulation.ts:294-325 | without rate data the solver ends with no recommendation |
| BudgetSolver.EarliestMinimumIsClosest | app/hooks/useCreditSimulation.ts:302 | the earliest closest probe is at least as close to the target as every probe |
| BudgetSolver.RecommendationIsClosest | app/hooks/useCreditSimulation.ts:302 | a recommended result is at least as close to the target as every evaluated result |
| BudgetSolver.RecommendationIsProbe | app/hooks/useCreditSimulation.ts:289-294 | a recommended result is the calculation for its own down payment, which lies strictly in (5, 90) |
| BudgetSolver.RecommendationInRange | app/hooks/useCreditSimulation.ts:286-326 | with `calculateFinancials`, a recommendation is `calculateFinancials` at a down payment strictly inside (5, 90). It is at least as close to the target as every evaluated result |

The records `DbInterest`, `DbInsurance`, `AppData`, `AttachmentItem`, `SimulationForm` and
`CalculationResult` of app/types/simulation.ts:3-86 are the datatypes of `SimulationTypes`.

## Left out

- **React machinery.** `useState`, `useEffect`, `useMemo` and `useCallback` are not modelled. The
  memoised values and effects are the functions above, applied to their inputs.
- **Auto-calculation effect.** The effect at lines 329-335 calls `calculateFinancials` with the form's
  own down payment in normal mode. It is not modelled separately; it is one call of
  `CalculateFinancials`.
- **Solver side effects.** `setResult` and `setValidationError` in `solveBudget` are represented by
  the returned `SolverOutcome`.
- **Network, files, browser APIs and saving.** The rate fetch (lines 106-121), `compressImage`,
  `handleFileChange`, `handleSave` and `handleChange` are not modelled. They are network, browser
  image, DOM and `alert` I/O. The loaded rate data enters the model as a parameter,
  `Option<AppData>`.
- **Other files.** UI components, API routes, the database layer, authentication and `useHistory` are
  not part of this model.
- **Floating point.** IEEE-754 doubles are not modelled: arithmetic is exact on reals, so double
  rounding of rates (such as 0.0885) and `Infinity`/`NaN` results do not arise.
- Calculation.CalculateFinancials: requires a positive tenor. With tenor 0 the source divides by zero
  and produces `Infinity`/`NaN`, which exact reals cannot express. The same requirement is on
  `Calculator` and the lemmas about it. The offered tenors are all positive.
- **Renamed fields.** `label` (in `DbInsurance`) and `type` (in `AttachmentItem`) are Dafny keywords,
  so these fields are named `optionLabel` and `fileType`.
- **Direction of the search.** The solver's reference search `Probes` follows the source's direction
  rule. Nothing is claimed about convergence to a true optimum, because the observed value steps
  at star-level boundaries and the source only promises the best sampled midpoint.
