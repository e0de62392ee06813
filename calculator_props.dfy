/**
  Properties of the calculator: the voltage thresholds expressed in watts,
  monotonicity of the tier, the inverter and battery pricing rules with
  their fallbacks, and the cost identities of the two battery options.
 */
module CalculatorProperties {
  import opened Wrappers
  import opened Catalog
  import opened Calculator

  // ---------------------------------------------------------------------
  // Sizing and voltage tier

  /** With the 1.25 margin, the 1500 W and 3500 W thresholds fall at 1200 W and 2800 W of load. */
  lemma TierByLoad(watts: int)
    ensures VoltageTier(RequiredInverterW(watts)) == 12 <==> watts < 1200
    ensures VoltageTier(RequiredInverterW(watts)) == 24 <==> 1200 <= watts < 2800
    ensures VoltageTier(RequiredInverterW(watts)) == 48 <==> 2800 <= watts
  {
  }

  /** A larger load never selects a lower voltage tier. */
  lemma TierMonotone(watts1: int, watts2: int)
    requires watts1 <= watts2
    ensures VoltageTier(RequiredInverterW(watts1)) <= VoltageTier(RequiredInverterW(watts2))
  {
  }

  /**
    The reported specs: the chosen tier, the inverter requirement in kW to
    one decimal and the energy in kWh to two decimals.
   */
  lemma SpecsReportSizing(watts: int, hours: int, store: Store)
    requires !BatteryQueryFails(store.batteries)
    ensures var s := CalculateSystem(watts, hours, store).value.systemSpecs;
      && s.systemVoltage == VoltageTier(watts as real * 1.25)
      && -0.05 <= s.inverterSizeKw - watts as real * 1.25 / 1000.0 <= 0.05
      && -0.005 <= s.requiredBackupKwh - (watts * hours) as real / 1000.0 <= 0.005
  {
    CalculateSystemAssembles(watts, hours, store);
    RoundedToOneDecimal(watts as real * 1.25 / 1000.0);
    RoundedToTwoDecimals((watts * hours) as real / 1000.0);
  }

  /** round(x, 1) is within 0.05 of x. */
  lemma RoundedToOneDecimal(x: real)
    ensures -0.05 <= RoundTo(x, 1) - x <= 0.05
  {
    assert Pow10(1) == 10.0;
  }

  /** round(x, 2) is within 0.005 of x. */
  lemma RoundedToTwoDecimals(x: real)
    ensures -0.005 <= RoundTo(x, 2) - x <= 0.005
  {
    assert Pow10(2) == 100.0;
  }

  // ---------------------------------------------------------------------
  // Inverter price

  /**
    When some inverter of the tier lies in the band [requiredW, requiredW + 3000]
    and all such rows cost between lo > 0 and hi, the estimate is their
    average, so it lies between lo and hi.
   */
  lemma InverterPriceFromBand(inverters: seq<InverterRow>, voltage: int, requiredW: real, lo: real, hi: real)
    requires 0.0 < lo
    requires exists i :: 0 <= i < |inverters| && InBand(inverters[i], voltage, requiredW, requiredW + BAND_WIDTH_W)
    requires forall i :: 0 <= i < |inverters| && InBand(inverters[i], voltage, requiredW, requiredW + BAND_WIDTH_W)
               ==> lo <= inverters[i].price as real <= hi
    ensures lo <= InverterPrice(inverters, voltage, requiredW) <= hi
    ensures BandAverage(inverters, voltage, requiredW) == Some(InverterPrice(inverters, voltage, requiredW))
  {
    var ps := BandPrices(inverters, voltage, requiredW, requiredW + BAND_WIDTH_W);
    var i :| 0 <= i < |inverters| && InBand(inverters[i], voltage, requiredW, requiredW + BAND_WIDTH_W);
    assert inverters[i].price as real in ps;
    MeanWithinBounds(ps, lo, hi);
  }

  /**
    When the band holds no inverter (or its average is zero), the estimate
    falls back to the cheapest inverter of any voltage whose wattage reaches
    requiredW: it is the price of such a row and no such row is cheaper.
    With no such row, or a minimum of zero, the estimate is zero.
   */
  lemma InverterPriceFallback(inverters: seq<InverterRow>, voltage: int, requiredW: real)
    requires BandAverage(inverters, voltage, requiredW).None? || BandAverage(inverters, voltage, requiredW) == Some(0.0)
    ensures var p := InverterPrice(inverters, voltage, requiredW);
      (exists i :: 0 <= i < |inverters| && StrongEnough(inverters[i], requiredW)) ==>
        && (exists i :: 0 <= i < |inverters| && StrongEnough(inverters[i], requiredW) && inverters[i].price as real == p)
        && (forall i :: 0 <= i < |inverters| && StrongEnough(inverters[i], requiredW) ==> p <= inverters[i].price as real)
    ensures (forall i :: 0 <= i < |inverters| ==> !StrongEnough(inverters[i], requiredW))
              ==> InverterPrice(inverters, voltage, requiredW) == 0.0
  {
  }

  // ---------------------------------------------------------------------
  // Battery price per kWh

  /**
    When every row of the chemistry stores energy and costs between lo > 0
    and hi per kWh, and there is at least one, the price is their average,
    so it lies between lo and hi.
   */
  lemma BatteryPriceFromTable(batteries: seq<BatteryRow>, tech: string, default: real, lo: real, hi: real)
    requires 0.0 < lo
    requires exists i :: 0 <= i < |batteries| && batteries[i].techType == tech
    requires forall i :: 0 <= i < |batteries| && batteries[i].techType == tech ==>
               batteries[i].energyKwh != 0.0 && lo <= PerKwh(batteries[i]) <= hi
    ensures BatteryPricePerKwh(batteries, tech, default).Success?
    ensures var p := BatteryPricePerKwh(batteries, tech, default).value;
      lo <= p <= hi && AvgPerKwh(batteries, tech) == Success(Some(p))
  {
    var r := PerKwhPrices(batteries, tech);
    assert r.Success?;
    PerKwhPricesMembers(batteries, tech);
    var i :| 0 <= i < |batteries| && batteries[i].techType == tech;
    assert PerKwh(batteries[i]) in r.value;
    forall x | x in r.value
      ensures lo <= x <= hi
    {
      var j :| 0 <= j < |batteries| && batteries[j].techType == tech && PerKwh(batteries[j]) == x;
    }
    MeanWithinBounds(r.value, lo, hi);
  }

  // ---------------------------------------------------------------------
  // Costs

  /**
    Each option's total is the truncation of its equipment cost plus 15%; with
    non-negative costs it is at least the truncated inverter price plus the
    truncated battery cost, and at most 1.15 times the equipment cost.
   */
  lemma {:induction false} TotalCoversEquipment(inverterPrice: real, batteryCost: real, lifespan: string)
    requires 0.0 <= inverterPrice && 0.0 <= batteryCost
    ensures var o := PricedOption(inverterPrice, batteryCost, lifespan);
      && o.totalEstimated == Trunc((inverterPrice + batteryCost) * 1.15)
      && Trunc(inverterPrice) + o.batteryCost <= o.totalEstimated
      && o.totalEstimated as real <= (inverterPrice + batteryCost) * 1.15
  {
    var o := PricedOption(inverterPrice, batteryCost, lifespan);
    var x := inverterPrice + batteryCost + Overhead(inverterPrice, batteryCost);
    assert x == (inverterPrice + batteryCost) * 1.15;
    var n := Trunc(inverterPrice) + Trunc(batteryCost);
    assert n as real <= inverterPrice + batteryCost <= x;
    assert x.Floor as real <= x < x.Floor as real + 1.0;
  }

  /** Every price in both tables is non-negative and every battery row stores positive energy. */
  predicate NonNegativeStore(store: Store)
  {
    && (forall i :: 0 <= i < |store.inverters| ==> store.inverters[i].price >= 0)
    && (forall i :: 0 <= i < |store.batteries| ==> store.batteries[i].price >= 0 && store.batteries[i].energyKwh > 0.0)
  }

  lemma InverterPriceNonNegative(inverters: seq<InverterRow>, voltage: int, requiredW: real)
    requires forall i :: 0 <= i < |inverters| ==> inverters[i].price >= 0
    ensures InverterPrice(inverters, voltage, requiredW) >= 0.0
  {
    var ps := BandPrices(inverters, voltage, requiredW, requiredW + BAND_WIDTH_W);
    if |ps| > 0 {
      forall x | x in ps
        ensures 0.0 <= x
      {
        var i :| 0 <= i < |inverters| && InBand(inverters[i], voltage, requiredW, requiredW + BAND_WIDTH_W)
                 && inverters[i].price as real == x;
      }
      MeanWithinBounds(ps, 0.0, Max(ps));
    }
  }

  /** The largest value of a non-empty column. */
  function Max(xs: seq<real>): (m: real)
    requires |xs| > 0
    ensures m in xs && forall x :: x in xs ==> x <= m
  {
    if |xs| == 1 then xs[0]
    else
      var rest := Max(xs[1..]);
      assert forall x :: x in xs ==> x == xs[0] || x in xs[1..];
      if xs[0] >= rest then xs[0] else rest
  }

  lemma BatteryPriceNonNegative(batteries: seq<BatteryRow>, tech: string, default: real)
    requires default >= 0.0
    requires forall i :: 0 <= i < |batteries| ==> batteries[i].price >= 0 && batteries[i].energyKwh > 0.0
    ensures BatteryPricePerKwh(batteries, tech, default).Success?
    ensures BatteryPricePerKwh(batteries, tech, default).value >= 0.0
  {
    var r := PerKwhPrices(batteries, tech);
    assert r.Success?;
    PerKwhPricesMembers(batteries, tech);
    if |r.value| > 0 {
      forall x | x in r.value
        ensures 0.0 <= x
      {
        var j :| 0 <= j < |batteries| && batteries[j].techType == tech && PerKwh(batteries[j]) == x;
      }
      MeanWithinBounds(r.value, 0.0, Max(r.value));
    }
  }

  /**
    The cost identities of the result: the lithium bank costs energy / 0.9
    times its per-kWh price, the tubular bank twice the energy times its
    price, each total is int() of 1.15 times the inverter price plus that
    bank's cost, and the reported installation overhead is 15% of the
    LITHIUM equipment cost, whatever the tubular bank costs.
   */
  lemma AssembleCostIdentities(requiredW: real, voltage: int, energy: real, inv: real, li: real, la: real)
    ensures Assemble(requiredW, voltage, energy, inv, li, la).estimates == Estimates(
      Trunc(inv),
      BatteryOption(Trunc(energy / 0.9 * li), Trunc(1.15 * (inv + energy / 0.9 * li)), "8-10 Years"),
      BatteryOption(Trunc(2.0 * energy * la), Trunc(1.15 * (inv + 2.0 * energy * la)), "2-3 Years"),
      Trunc(0.15 * (inv + energy / 0.9 * li)))
  {
    var costLi := LithiumBankKwh(energy) * li;
    var costLa := TubularBankKwh(energy) * la;
    assert costLi == energy / 0.9 * li;
    assert costLa == 2.0 * energy * la;
    assert inv + costLi + Overhead(inv, costLi) == 1.15 * (inv + energy / 0.9 * li);
    assert inv + costLa + Overhead(inv, costLa) == 1.15 * (inv + 2.0 * energy * la);
    assert Overhead(inv, costLi) == 0.15 * (inv + energy / 0.9 * li);
  }

  /** On success, calculate_system's result is the assembly of the prices it looked up. */
  lemma CalculateSystemAssembles(watts: int, hours: int, store: Store)
    requires !BatteryQueryFails(store.batteries)
    ensures var requiredW := RequiredInverterW(watts);
      var voltage := VoltageTier(requiredW);
      CalculateSystem(watts, hours, store).value == Assemble(requiredW, voltage, RequiredEnergyKwh(watts, hours),
        InverterPrice(store.inverters, voltage, requiredW),
        BatteryPricePerKwh(store.batteries, LITHIUM_TECH, LITHIUM_DEFAULT_PER_KWH).value,
        BatteryPricePerKwh(store.batteries, TUBULAR_TECH, TUBULAR_DEFAULT_PER_KWH).value)
  {
  }

  /**
    calculate_system's figures in closed form over the three prices it looks
    up (inv, li and la): the truncated inverter estimate, each bank's cost and
    15%-loaded total with its lifespan label, and the overhead of the lithium
    option.
   */
  lemma EstimateClosedForms(watts: int, hours: int, store: Store, inv: real, li: real, la: real)
    requires inv == InverterPrice(store.inverters, VoltageTier(RequiredInverterW(watts)), RequiredInverterW(watts))
    requires BatteryPricePerKwh(store.batteries, LITHIUM_TECH, LITHIUM_DEFAULT_PER_KWH) == Success(li)
    requires BatteryPricePerKwh(store.batteries, TUBULAR_TECH, TUBULAR_DEFAULT_PER_KWH) == Success(la)
    ensures CalculateSystem(watts, hours, store).Success?
    ensures var energy := RequiredEnergyKwh(watts, hours);
      CalculateSystem(watts, hours, store).value.estimates == Estimates(
        Trunc(inv),
        BatteryOption(Trunc(energy / 0.9 * li), Trunc(1.15 * (inv + energy / 0.9 * li)), "8-10 Years"),
        BatteryOption(Trunc(2.0 * energy * la), Trunc(1.15 * (inv + 2.0 * energy * la)), "2-3 Years"),
        Trunc(0.15 * (inv + energy / 0.9 * li)))
  {
    var requiredW := RequiredInverterW(watts);
    AssembleCostIdentities(requiredW, VoltageTier(requiredW), RequiredEnergyKwh(watts, hours), inv, li, la);
  }

  /**
    With non-negative prices and energy, each option's total covers the
    truncated inverter price plus that option's battery cost, and the
    reported overhead is non-negative and at most the lithium total.
   */
  lemma AssembleCoversEquipment(requiredW: real, voltage: int, energy: real, inv: real, li: real, la: real)
    requires 0.0 <= energy && 0.0 <= inv && 0.0 <= li && 0.0 <= la
    ensures var e := Assemble(requiredW, voltage, energy, inv, li, la).estimates;
      && e.inverterApproxPrice + e.lithiumOption.batteryCost <= e.lithiumOption.totalEstimated
      && e.inverterApproxPrice + e.tubularOption.batteryCost <= e.tubularOption.totalEstimated
      && 0 <= e.installationOverheadApprox <= e.lithiumOption.totalEstimated
  {
    var costLi := LithiumBankKwh(energy) * li;
    var costLa := TubularBankKwh(energy) * la;
    assert costLi >= 0.0 && costLa >= 0.0;
    TotalCoversEquipment(inv, costLi, "8-10 Years");
    TotalCoversEquipment(inv, costLa, "2-3 Years");
    var ov := Overhead(inv, costLi);
    assert 0.0 <= ov <= inv + costLi + ov;
  }

  /**
    For a non-negative load and catalog the calculation succeeds, and both
    options' totals cover the truncated inverter price plus that option's
    battery cost.
   */
  lemma EstimateCoversEquipment(watts: int, hours: int, store: Store)
    requires watts >= 0 && hours >= 0 && NonNegativeStore(store)
    ensures CalculateSystem(watts, hours, store).Success?
    ensures var e := CalculateSystem(watts, hours, store).value.estimates;
      && e.inverterApproxPrice + e.lithiumOption.batteryCost <= e.lithiumOption.totalEstimated
      && e.inverterApproxPrice + e.tubularOption.batteryCost <= e.tubularOption.totalEstimated
      && 0 <= e.installationOverheadApprox <= e.lithiumOption.totalEstimated
  {
    assert !BatteryQueryFails(store.batteries);
    var requiredW := RequiredInverterW(watts);
    var voltage := VoltageTier(requiredW);
    var energy := RequiredEnergyKwh(watts, hours);
    assert energy >= 0.0 by {
      assert 0 <= watts * hours;
    }
    var inv := InverterPrice(store.inverters, voltage, requiredW);
    InverterPriceNonNegative(store.inverters, voltage, requiredW);
    BatteryPriceNonNegative(store.batteries, LITHIUM_TECH, LITHIUM_DEFAULT_PER_KWH);
    BatteryPriceNonNegative(store.batteries, TUBULAR_TECH, TUBULAR_DEFAULT_PER_KWH);
    var li := BatteryPricePerKwh(store.batteries, LITHIUM_TECH, LITHIUM_DEFAULT_PER_KWH).value;
    var la := BatteryPricePerKwh(store.batteries, TUBULAR_TECH, TUBULAR_DEFAULT_PER_KWH).value;
    CalculateSystemAssembles(watts, hours, store);
    AssembleCoversEquipment(requiredW, voltage, energy, inv, li, la);
  }

  /** With empty tables the defaults price everything: 500 W for 4 h on 12 V costs 1150000 either way. */
  lemma EmptyCatalogEstimate()
    ensures CalculateSystem(500, 4, Store([], [])) ==
      Success(SystemEstimate(
        SystemSpecs(0.6, 12, 2.0),
        Estimates(0, BatteryOption(1000000, 1150000, "8-10 Years"),
                  BatteryOption(1000000, 1150000, "2-3 Years"), 150000)))
  {
    assert BatteryPricePerKwh([], LITHIUM_TECH, LITHIUM_DEFAULT_PER_KWH) == Success(LITHIUM_DEFAULT_PER_KWH);
    assert BatteryPricePerKwh([], TUBULAR_TECH, TUBULAR_DEFAULT_PER_KWH) == Success(TUBULAR_DEFAULT_PER_KWH);
    assert RoundHalfEven(6.25) == 6;
    assert RoundHalfEven(200.0) == 200;
    assert RoundTo(0.625, 1) == 0.6;
    assert RoundTo(2.0, 2) == 2.0;
  }
}
