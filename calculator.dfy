/**
  The sizing and pricing calculator: from the connected load (watts) and the
  backup duration (hours) it derives the inverter requirement, the DC voltage
  tier and the energy to store, prices an inverter and two battery banks
  (lithium and tubular lead-acid) from the market tables, adds a 15%
  installation overhead and returns the structured estimate.
 */
module Calculator {
  import opened Wrappers
  import opened Catalog

  /** Inverter safety margin over the connected load. */
  const INVERTER_MARGIN: real := 1.25
  /** Width of the wattage band above the requirement used to average inverter prices. */
  const BAND_WIDTH_W: real := 3000.0
  const LITHIUM_TECH: string := "LiFePO4"
  const TUBULAR_TECH: string := "Tubular"
  /** Fallback per-kWh prices when the table has no usable rows. */
  const LITHIUM_DEFAULT_PER_KWH: real := 450000.0
  const TUBULAR_DEFAULT_PER_KWH: real := 250000.0
  /** Usable depth of discharge of each chemistry. */
  const LITHIUM_DOD: real := 0.9
  const TUBULAR_DOD: real := 0.5
  /** Cables, breakers and installation as a share of the equipment cost. */
  const OVERHEAD_RATE: real := 0.15

  datatype SystemSpecs = SystemSpecs(
    inverterSizeKw: real,
    systemVoltage: int,
    requiredBackupKwh: real)

  datatype BatteryOption = BatteryOption(
    batteryCost: int,
    totalEstimated: int,
    lifespan: string)

  datatype Estimates = Estimates(
    inverterApproxPrice: int,
    lithiumOption: BatteryOption,
    tubularOption: BatteryOption,
    installationOverheadApprox: int)

  /** The dictionary calculate_system returns. */
  datatype SystemEstimate = SystemEstimate(systemSpecs: SystemSpecs, estimates: Estimates)

  // ---------------------------------------------------------------------
  // Python numeric built-ins on exact reals

  /** Python's int() on a float: truncation toward zero. */
  function Trunc(x: real): (n: int)
    ensures x >= 0.0 ==> 0 <= n && n as real <= x < n as real + 1.0
    ensures x < 0.0 ==> n <= 0 && n as real - 1.0 < x <= n as real
  {
    if x >= 0.0 then x.Floor else -((-x).Floor)
  }

  /** Nearest integer, ties to the even neighbour (the rule of Python's round()). */
  function RoundHalfEven(x: real): (n: int)
    ensures -0.5 <= n as real - x <= 0.5
    ensures (x - x.Floor as real == 0.5) ==> n % 2 == 0
  {
    var f := x.Floor;
    var d := x - f as real;
    if d < 0.5 then f
    else if d > 0.5 then f + 1
    else if f % 2 == 0 then f else f + 1
  }

  /** base to the power n. */
  function Power(base: real, n: nat): (p: real)
    requires base >= 1.0
    ensures p >= 1.0
  {
    if n == 0 then 1.0 else base * Power(base, n - 1)
  }

  /** 10 to the power n, the scale of the n-th decimal place. */
  function Pow10(n: nat): (p: real)
    ensures p >= 1.0
  {
    Power(10.0, n)
  }

  /**
    Python's round(x, digits) on an exact value: a whole number of units of
    the digits-th decimal, namely x counted in those units and rounded half
    to even, and so within half a unit of x.
   */
  function RoundTo(x: real, digits: nat): (r: real)
    ensures r * Pow10(digits) == RoundHalfEven(x * Pow10(digits)) as real
    ensures -0.5 <= (r - x) * Pow10(digits) <= 0.5
  {
    ScaledRounding(x, Pow10(digits), RoundHalfEven(x * Pow10(digits)));
    RoundHalfEven(x * Pow10(digits)) as real / Pow10(digits)
  }

  /** Dividing the rounded multiple back by the scale gives back that many units, within half a unit of x. */
  lemma ScaledRounding(x: real, scale: real, n: int)
    requires scale > 0.0 && -0.5 <= n as real - x * scale <= 0.5
    ensures (n as real / scale) * scale == n as real
    ensures -0.5 <= (n as real / scale - x) * scale <= 0.5
  {
    var q := n as real / scale;
    assert q * scale == n as real;
    assert (q - x) * scale == n as real - x * scale;
  }

  // ---------------------------------------------------------------------
  // Physics and sizing

  /** The inverter power the load requires, with the safety margin. */
  function RequiredInverterW(watts: int): real
  {
    watts as real * INVERTER_MARGIN
  }

  /** The energy the bank must deliver, in kWh. */
  function RequiredEnergyKwh(watts: int, hours: int): real
  {
    (watts * hours) as real / 1000.0
  }

  /** The DC architecture chosen for a required inverter power. */
  function VoltageTier(requiredW: real): (v: int)
    ensures v == 12 || v == 24 || v == 48
  {
    if requiredW < 1500.0 then 12
    else if requiredW < 3500.0 then 24
    else 48
  }

  /** Raw lithium capacity to buy: the usable 90% must cover the energy. */
  function LithiumBankKwh(energy: real): (k: real)
    ensures k * LITHIUM_DOD == energy
  {
    energy / LITHIUM_DOD
  }

  /** Raw tubular capacity to buy: only half of it is usable. */
  function TubularBankKwh(energy: real): (k: real)
    ensures k == 2.0 * energy
  {
    energy / TUBULAR_DOD
  }

  // ---------------------------------------------------------------------
  // Pricing from the catalog

  /** AVG(price_mmk) of the inverters of the tier whose wattage is in [requiredW, requiredW + 3000]. */
  function BandAverage(inverters: seq<InverterRow>, voltage: int, requiredW: real): (avg: Option<real>)
    ensures avg.None? <==>
      forall i :: 0 <= i < |inverters| ==> !InBand(inverters[i], voltage, requiredW, requiredW + BAND_WIDTH_W)
  {
    var ps := BandPrices(inverters, voltage, requiredW, requiredW + BAND_WIDTH_W);
    assert |ps| > 0 ==> ps[0] in ps;
    Mean(ps)
  }

  /**
    The inverter price estimate: the band average, unless it is NULL or zero,
    in which case the cheapest inverter of any voltage that is strong enough;
    zero when that too is NULL or zero.
   */
  function InverterPrice(inverters: seq<InverterRow>, voltage: int, requiredW: real): (p: real)
    ensures var avg := BandAverage(inverters, voltage, requiredW);
      avg.Some? && avg.value != 0.0 ==> p == avg.value
    ensures || p == 0.0
            || BandAverage(inverters, voltage, requiredW) == Some(p)
            || exists i :: 0 <= i < |inverters| && StrongEnough(inverters[i], requiredW) && inverters[i].price as real == p
  {
    var avg := BandAverage(inverters, voltage, requiredW);
    var chosen :=
      if avg.Some? && avg.value != 0.0 then avg
      else match MinPrice(inverters, requiredW)
        case None => None
        case Some(m) => Some(m as real);
    if chosen.Some? && chosen.value != 0.0 then chosen.value else 0.0
  }

  /** The per-kWh price of a chemistry: the table's average, or the default when it is NULL or zero. */
  function BatteryPricePerKwh(batteries: seq<BatteryRow>, tech: string, default: real): (r: Result<real, QueryError>)
    ensures r.Failure? <==>
      exists i :: 0 <= i < |batteries| && OfTech(batteries[i], tech) && batteries[i].energyKwh == 0.0
    ensures r.Success? && (forall i :: 0 <= i < |batteries| ==> !OfTech(batteries[i], tech)) ==> r.value == default
    ensures r.Success? && AvgPerKwh(batteries, tech).value == Some(0.0) ==> r.value == default
    ensures r.Success? ==> var avg := AvgPerKwh(batteries, tech).value;
      avg.Some? && avg.value != 0.0 ==> r.value == avg.value
  {
    match AvgPerKwh(batteries, tech)
    case Failure(e) => Failure(e)
    case Success(avg) => Success(if avg.Some? && avg.value != 0.0 then avg.value else default)
  }

  /** Installation overhead on an equipment cost. */
  function Overhead(inverterPrice: real, batteryCost: real): real
  {
    (inverterPrice + batteryCost) * OVERHEAD_RATE
  }

  /** One battery option of the result, from the inverter price and the bank's cost. */
  function PricedOption(inverterPrice: real, batteryCost: real, lifespan: string): BatteryOption
  {
    BatteryOption(
      Trunc(batteryCost),
      Trunc(inverterPrice + batteryCost + Overhead(inverterPrice, batteryCost)),
      lifespan)
  }

  /** A battery query of the calculator divides by a zero energy_kwh. */
  predicate BatteryQueryFails(batteries: seq<BatteryRow>)
  {
    exists i :: 0 <= i < |batteries| && batteries[i].energyKwh == 0.0
                && (batteries[i].techType == LITHIUM_TECH || batteries[i].techType == TUBULAR_TECH)
  }

  /**
    The cost arithmetic and the result record, once the voltage tier, the
    energy and the three catalog prices are known. Currency figures are
    truncated with int(); the reported overhead is the lithium option's.
   */
  function Assemble(requiredW: real, voltage: int, energy: real, invPrice: real, liPerKwh: real, laPerKwh: real)
    : SystemEstimate
  {
    var costLi := LithiumBankKwh(energy) * liPerKwh;
    var costLa := TubularBankKwh(energy) * laPerKwh;
    SystemEstimate(
      SystemSpecs(RoundTo(requiredW / 1000.0, 1), voltage, RoundTo(energy, 2)),
      Estimates(
        Trunc(invPrice),
        PricedOption(invPrice, costLi, "8-10 Years"),
        PricedOption(invPrice, costLa, "2-3 Years"),
        Trunc(Overhead(invPrice, costLi))))
  }

  /**
    calculate_system. The database error of a battery query propagates to
    the caller; otherwise the estimate is returned.
   */
  function CalculateSystem(watts: int, hours: int, store: Store): (r: Result<SystemEstimate, QueryError>)
    ensures r.Failure? <==> BatteryQueryFails(store.batteries)
    ensures r.Success? ==> r.value.systemSpecs.systemVoltage in {12, 24, 48}
  {
    var requiredW := RequiredInverterW(watts);
    var voltage := VoltageTier(requiredW);
    var energy := RequiredEnergyKwh(watts, hours);
    var invPrice := InverterPrice(store.inverters, voltage, requiredW);
    match BatteryPricePerKwh(store.batteries, LITHIUM_TECH, LITHIUM_DEFAULT_PER_KWH)
    case Failure(e) => Failure(e)
    case Success(liPerKwh) =>
      match BatteryPricePerKwh(store.batteries, TUBULAR_TECH, TUBULAR_DEFAULT_PER_KWH)
      case Failure(e) => Failure(e)
      case Success(laPerKwh) => Success(Assemble(requiredW, voltage, energy, invPrice, liPerKwh, laPerKwh))
  }
}
