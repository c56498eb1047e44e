/**
 * The records the credit simulation works on: the rate-table rows, the loaded rate data,
 * the simulation form and the calculation result.
 */
module SimulationTypes {

  /** The simulation mode: a down payment given directly, or a budget to solve for. */
  datatype Mode = Normal | Budget

  /** What a budget target constrains: the total first payment (TDP) or the monthly installment. */
  datatype TargetType = Tdp | Installment

  datatype Category = Passenger | Commercial

  datatype SubCategory = SubPassenger | Truck | Bus

  /** ADDB: first installment due a month later; ADDM: first installment due at signing. */
  datatype PaymentType = Addb | Addm

  /** The category name as stored in the interest-rate table. */
  function CategoryName(c: Category): string {
    match c
    case Passenger => "PASSENGER"
    case Commercial => "COMMERCIAL"
  }

  /** The payment-type name as stored in the interest-rate table. */
  function PaymentTypeName(p: PaymentType): string {
    match p
    case Addb => "ADDB"
    case Addm => "ADDM"
  }

  /** A row of the interest-rate table: a flat annual rate for (category, paymentType, star, tenor in months). */
  datatype DbInterest = DbInterest(
    id: int, category: string, paymentType: string, star: int, tenor: int, rate: real)

  /** A row of the insurance-rate table: a labelled rate for (category, tenor in years, price range). */
  datatype DbInsurance = DbInsurance(
    id: int, category: string, tenor: int, optionLabel: string, minPrice: real, maxPrice: real, rate: real)

  /** The two rate tables, once loaded. */
  datatype AppData = AppData(interestRates: seq<DbInterest>, insuranceRates: seq<DbInsurance>)

  /** A file attached to a simulation, already encoded. */
  datatype Attachment = Attachment(name: string, fileType: string, size: int, base64: string)

  datatype SimulationForm = SimulationForm(
    mode: Mode,
    targetType: TargetType,
    targetValue: real,
    borrowerName: string,
    coBorrowerName: string,
    salesName: string,
    status: string,
    attachments: seq<Attachment>,
    unitName: string,
    nopol: string,
    category: Category,
    subCategory: SubCategory,
    isLoadingUnit: bool,
    price: real,
    dpPercent: real,
    tenor: int,
    paymentType: PaymentType,
    adminFee: real,
    selectedInsuranceLabel: string)

  datatype CalculationResult = CalculationResult(
    starLevel: int,
    interestRatePct: real,
    insuranceRatePct: real,
    vehiclePrice: real,
    dpAmount: real,
    dpPercentCalc: real,
    principalPure: real,
    insuranceAmount: real,
    policyFee: real,
    totalAR: real,
    totalInterest: real,
    totalLoan: real,
    monthlyInstallment: real,
    adminFee: real,
    policyFeeTdp: real,
    firstInstallment: real,
    totalDownPayment: real,
    nilaiAP: real,
    installmentDivisor: int,
    isSpecialScenario: bool)
}
