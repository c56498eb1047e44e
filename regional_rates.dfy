/**
 * The hard-coded insurance-rate grid of region 3 ("Wilayah 3"), used for the lowest star level:
 * eight price brackets with ascending ceilings, each mapping a tenor year (1..5) to a rate.
 */
module RegionalRates {
  import opened Optional
  import opened ArrayOps
  import opened Rounding

  /** A bracket's price ceiling: a finite maximum, or the open-ended last bracket. */
  datatype Ceiling = AtMost(max: real) | Unbounded

  datatype Bracket = Bracket(ceiling: Ceiling, rates: map<int, real>)

  predicate Covers(c: Ceiling, price: real) {
    match c
    case AtMost(m) => price <= m
    case Unbounded => true
  }

  function YearRates(y1: real, y2: real, y3: real, y4: real, y5: real): map<int, real> {
    map[1 := y1, 2 := y2, 3 := y3, 4 := y4, 5 := y5]
  }

  const Wilayah3Rates: seq<Bracket> := [
    Bracket(AtMost(125000000.0), YearRates(0.0315, 0.03978, 0.04714, 0.05358, 0.06002)),
    Bracket(AtMost(138888889.0), YearRates(0.0278, 0.03608, 0.04344, 0.04988, 0.05632)),
    Bracket(AtMost(156250000.0), YearRates(0.0278, 0.03554, 0.04290, 0.04934, 0.05578)),
    Bracket(AtMost(178571428.0), YearRates(0.0278, 0.03554, 0.04242, 0.04886, 0.05530)),
    Bracket(AtMost(200000000.0), YearRates(0.0278, 0.03554, 0.04242, 0.04844, 0.05446)),
    Bracket(AtMost(222222222.0), YearRates(0.0234, 0.03114, 0.03802, 0.04404, 0.05006)),
    Bracket(AtMost(250000000.0), YearRates(0.0234, 0.03096, 0.03784, 0.04386, 0.04988)),
    Bracket(Unbounded, YearRates(0.0234, 0.03096, 0.03784, 0.04386, 0.04988))
  ]

  /** The tenor year of a tenor in months: `Math.ceil(tenorMonths / 12)`. */
  function TenorYear(tenorMonths: int): (year: int)
    ensures 12 * (year - 1) < tenorMonths <= 12 * year
  {
    Ceil(tenorMonths as real / 12.0)
  }

  /** Bracket `i` is the one for `price`: its ceiling covers the price and the previous one does not. */
  predicate InBracket(i: int, price: real)
    requires 0 <= i < |Wilayah3Rates|
  {
    Covers(Wilayah3Rates[i].ceiling, price) && (i == 0 || !Covers(Wilayah3Rates[i - 1].ceiling, price))
  }

  /** The rate a bracket lists for a tenor year, 0 when it lists none. */
  function YearRate(b: Bracket, year: int): real {
    if year in b.rates then b.rates[year] else 0.0
  }

  /** Every bracket lists exactly the years 1..5, each with a positive rate. */
  lemma BracketRatesPositive(i: int)
    requires 0 <= i < |Wilayah3Rates|
    ensures forall y :: y in Wilayah3Rates[i].rates <==> 1 <= y <= 5
    ensures forall y :: 1 <= y <= 5 ==> Wilayah3Rates[i].rates[y] > 0.0
  {
  }

  /** The ceilings ascend: a price covered by one bracket is covered by every later one. */
  lemma CeilingsAscend(i: int, j: int, price: real)
    requires 0 <= i <= j < |Wilayah3Rates|
    requires Covers(Wilayah3Rates[i].ceiling, price)
    ensures Covers(Wilayah3Rates[j].ceiling, price)
  {
  }

  /** Every price falls in exactly one bracket, because the last one is open-ended. */
  lemma BracketExists(price: real)
    ensures exists i :: 0 <= i < |Wilayah3Rates| && InBracket(i, price)
    ensures forall i, j :: 0 <= i < |Wilayah3Rates| && 0 <= j < |Wilayah3Rates| && InBracket(i, price) && InBracket(j, price) ==> i == j
  {
    var last := |Wilayah3Rates| - 1;
    assert Covers(Wilayah3Rates[last].ceiling, price);
    var k := FindIndex(Wilayah3Rates, (b: Bracket) => Covers(b.ceiling, price)).value;
    assert Covers(Wilayah3Rates[k].ceiling, price);
    if k > 0 {
      assert !Covers(Wilayah3Rates[k - 1].ceiling, price);
    }
    assert InBracket(k, price);
    forall i, j | 0 <= i < |Wilayah3Rates| && 0 <= j < |Wilayah3Rates| && InBracket(i, price) && InBracket(j, price)
      ensures i == j
    {
      if i < j { CeilingsAscend(i, j - 1, price); }
      if j < i { CeilingsAscend(j, i - 1, price); }
    }
  }

  /**
   * `getWilayah3Rate(price, tenorMonths)`: the rate of the first bracket whose ceiling is at least the price,
   * for the tenor year `ceil(tenorMonths / 12)`; 0 when that year has no (non-zero) entry.
   */
  function Wilayah3Rate(price: real, tenorMonths: int): (rate: real)
    ensures forall i :: 0 <= i < |Wilayah3Rates| && InBracket(i, price) ==>
              rate == YearRate(Wilayah3Rates[i], TenorYear(tenorMonths))
    ensures rate > 0.0 <==> 1 <= TenorYear(tenorMonths) <= 5
    ensures rate == 0.0 <==> !(1 <= TenorYear(tenorMonths) <= 5)
  {
    var tenorYear := TenorYear(tenorMonths);
    match FindIndex(Wilayah3Rates, (b: Bracket) => Covers(b.ceiling, price))
    case Some(k) =>
      var rates := Wilayah3Rates[k].rates;
      BracketRatesPositive(k);
      BracketExists(price);
      assert InBracket(k, price);
      if tenorYear in rates && rates[tenorYear] != 0.0 then rates[tenorYear] else 0.0
    case None =>
      assert false;
      0.0
  }
}
