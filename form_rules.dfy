/**
 * The derived form data the calculation depends on: the tenors offered per category, the insurance
 * options eligible for the form (filtered and sorted by rate), the rule that keeps a valid option
 * selected, the rate of the selected option, and the removal of an attachment.
 */
module FormRules {
  import opened Optional
  import opened ArrayOps
  import opened SimulationTypes
  import opened RateSort
  import opened RegionalRates

  /** The tenors (in months) offered for a category: commercial vehicles stop at four years. */
  function AvailableTenors(category: Category): (tenors: seq<int>)
    ensures forall k :: 0 <= k < |tenors| ==> tenors[k] == 12 * (k + 1)
    ensures |tenors| == (if category == Commercial then 4 else 5)
  {
    if category == Commercial then [12, 24, 36, 48] else [12, 24, 36, 48, 60]
  }

  /** Every offered tenor is a whole number of years from one to five, so the regional grid has a rate for it. */
  lemma OfferedTenorsHaveRegionalRate(category: Category, tenor: int, price: real)
    requires tenor in AvailableTenors(category)
    ensures 1 <= TenorYear(tenor) <= 5 && Wilayah3Rate(price, tenor) > 0.0
  {
  }

  /** The category under which the insurance table lists rates for this vehicle. */
  function InsuranceCategory(category: Category, subCategory: SubCategory, isLoadingUnit: bool): (name: string)
    ensures name == "PASSENGER" <==> category == Passenger
  {
    if category == Passenger then "PASSENGER"
    else match subCategory
      case SubPassenger => if isLoadingUnit then "COMMERCIAL_LOADING" else "COMMERCIAL_USED"
      case Truck => if isLoadingUnit then "COMMERCIAL_LOADING_TRUCK" else "COMMERCIAL_USED_TRUCK"
      case Bus => if isLoadingUnit then "COMMERCIAL_LOADING_BUS" else "COMMERCIAL_USED_BUS"
  }

  /** Distinct commercial vehicle kinds are insured under distinct categories. */
  lemma CommercialCategoriesDistinct(s1: SubCategory, l1: bool, s2: SubCategory, l2: bool)
    requires InsuranceCategory(Commercial, s1, l1) == InsuranceCategory(Commercial, s2, l2)
    ensures s1 == s2 && l1 == l2
  {
  }

  /** An insurance row applies to the form: same category, tenor in years, and a price range holding the price. */
  predicate Eligible(o: DbInsurance, targetCategory: string, form: SimulationForm) {
    && o.category == targetCategory
    && o.tenor as real == form.tenor as real / 12.0
    && form.price >= o.minPrice && form.price <= o.maxPrice
  }

  /** The filter condition of `availableInsuranceOptions`. */
  function EligibleFor(targetCategory: string, form: SimulationForm): DbInsurance -> bool {
    (o: DbInsurance) => Eligible(o, targetCategory, form)
  }

  /** The filter condition restricted to options of rate `q`. */
  function EligibleWithRate(targetCategory: string, form: SimulationForm, q: real): DbInsurance -> bool {
    (o: DbInsurance) => Eligible(o, targetCategory, form) && o.rate == q
  }

  /** Taking the options of one rate from the eligible rows is filtering the table by both conditions. */
  lemma {:induction false} WithRateOfEligible(rows: seq<DbInsurance>, targetCategory: string, form: SimulationForm, q: real)
    ensures WithRate(Filter(rows, EligibleFor(targetCategory, form)), q) == Filter(rows, EligibleWithRate(targetCategory, form, q))
  {
    if |rows| > 0 {
      var head := if Eligible(rows[0], targetCategory, form) then [rows[0]] else [];
      WithRateOfEligible(rows[1..], targetCategory, form, q);
      WithRateAppend(head, Filter(rows[1..], EligibleFor(targetCategory, form)), q);
      assert WithRate(head, q) == if Eligible(rows[0], targetCategory, form) && rows[0].rate == q then [rows[0]] else [];
    }
  }

  /**
   * `availableInsuranceOptions`: nothing without rate data or a positive price; otherwise exactly the
   * eligible rows of the insurance table (with their multiplicities), sorted by ascending rate, where
   * options of equal rate keep their order in the table.
   */
  function AvailableInsuranceOptions(data: Option<AppData>, form: SimulationForm): (options: seq<DbInsurance>)
    ensures data.None? || form.price <= 0.0 ==> options == []
    ensures SortedByRate(options)
    ensures forall o :: o in options ==>
              && o.category == InsuranceCategory(form.category, form.subCategory, form.isLoadingUnit)
              && o.tenor as real == form.tenor as real / 12.0
              && o.minPrice <= form.price <= o.maxPrice
    ensures data.Some? && form.price > 0.0 ==>
              forall o :: multiset(options)[o] ==
                if Eligible(o, InsuranceCategory(form.category, form.subCategory, form.isLoadingUnit), form)
                then multiset(data.value.insuranceRates)[o] else 0
    ensures data.Some? && form.price > 0.0 ==>
              forall q :: WithRate(options, q) ==
                Filter(data.value.insuranceRates,
                       EligibleWithRate(InsuranceCategory(form.category, form.subCategory, form.isLoadingUnit), form, q))
  {
    if data.None? || form.price <= 0.0 then []
    else
      var target := InsuranceCategory(form.category, form.subCategory, form.isLoadingUnit);
      var filtered := Filter(data.value.insuranceRates, EligibleFor(target, form));
      var options := SortByRate(filtered);
      FilterCount(data.value.insuranceRates, EligibleFor(target, form));
      assert forall o :: o in options ==> Eligible(o, target, form) by {
        forall o | o in options ensures Eligible(o, target, form) {
          assert o in multiset(options);
          assert o in filtered;
        }
      }
      assert forall q :: WithRate(options, q) == Filter(data.value.insuranceRates, EligibleWithRate(target, form, q)) by {
        forall q ensures WithRate(options, q) == Filter(data.value.insuranceRates, EligibleWithRate(target, form, q)) {
          WithRateOfEligible(data.value.insuranceRates, target, form, q);
        }
      }
      options
  }

  predicate HasLabel(options: seq<DbInsurance>, wanted: string) {
    exists i :: 0 <= i < |options| && options[i].optionLabel == wanted
  }

  /**
   * The auto-select rule: keep the current label while some option carries it, otherwise take the
   * first (cheapest) option's label, or the empty label when there are no options.
   */
  function AutoSelectLabel(options: seq<DbInsurance>, current: string): (selected: string)
    ensures |options| == 0 ==> selected == ""
    ensures |options| > 0 ==> HasLabel(options, selected)
    ensures HasLabel(options, current) ==> selected == current
    ensures |options| > 0 && !HasLabel(options, current) ==> selected == options[0].optionLabel
  {
    if |options| > 0 then
      if HasLabel(options, current) then current else options[0].optionLabel
    else ""
  }

  /** Running the rule again changes nothing, so the effect that applies it settles after one step. */
  lemma AutoSelectSettles(options: seq<DbInsurance>, current: string)
    ensures AutoSelectLabel(options, AutoSelectLabel(options, current)) == AutoSelectLabel(options, current)
  {
  }

  /** The insurance rate of the first option carrying `wanted`, 0 when none does. */
  function SelectedInsuranceRate(options: seq<DbInsurance>, wanted: string): (rate: real)
    ensures !HasLabel(options, wanted) ==> rate == 0.0
    ensures HasLabel(options, wanted) ==>
              exists i :: && 0 <= i < |options| && options[i].optionLabel == wanted && rate == options[i].rate
                          && forall j :: 0 <= j < i ==> options[j].optionLabel != wanted
  {
    match FindIndex(options, (o: DbInsurance) => o.optionLabel == wanted)
    case Some(i) => options[i].rate
    case None => 0.0
  }

  /**
   * After the auto-select rule has run on a non-empty option list, the selected rate is one of the
   * listed rates; when the previous label had disappeared it is the lowest rate offered.
   */
  lemma {:induction false} AutoSelectedRate(options: seq<DbInsurance>, current: string)
    requires SortedByRate(options) && |options| > 0
    ensures exists i :: 0 <= i < |options| && SelectedInsuranceRate(options, AutoSelectLabel(options, current)) == options[i].rate
    ensures !HasLabel(options, current) ==>
              forall o :: o in options ==> SelectedInsuranceRate(options, AutoSelectLabel(options, current)) <= o.rate
  {
    var selected := AutoSelectLabel(options, current);
    if !HasLabel(options, current) {
      assert selected == options[0].optionLabel;
      match FindIndex(options, (o: DbInsurance) => o.optionLabel == selected)
      case Some(i) =>
        assert i == 0;
      case None =>
        assert false;
    }
  }

  /** `removeAttachment(index)`: drops the attachment at `index` and changes nothing else in the form. */
  function RemoveAttachment(form: SimulationForm, index: int): (r: SimulationForm)
    ensures r.(attachments := form.attachments) == form
    ensures 0 <= index < |form.attachments| ==>
              r.attachments == form.attachments[..index] + form.attachments[index + 1..]
    ensures !(0 <= index < |form.attachments|) ==> r.attachments == form.attachments
  {
    form.(attachments := RemoveAt(form.attachments, index))
  }
}
