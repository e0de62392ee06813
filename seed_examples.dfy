/**
  The rows the database is seeded with, as a concrete catalog, and the
  estimates the calculator gives for it: an inverter priced from the band
  average, one priced by the fallback minimum, and one the fallback cannot
  price at all.
 */
module SeedExamples {
  import opened Wrappers
  import opened Catalog
  import opened Calculator
  import opened CalculatorProperties

  function SeedInverters(): seq<InverterRow>
  {
    [ InverterRow("Off-Grid", 1000, 12, 360000, "Budget"),
      InverterRow("Off-Grid", 3000, 24, 750000, "Budget"),
      InverterRow("Hybrid", 3000, 24, 950000, "Standard"),
      InverterRow("Hybrid", 5000, 48, 1300000, "Standard"),
      InverterRow("Off-Grid", 6000, 48, 1385000, "Premium"),
      InverterRow("Hybrid", 12000, 48, 3300000, "High-End") ]
  }

  function SeedBatteries(): seq<BatteryRow>
  {
    [ BatteryRow("LiFePO4", 51.2, 100, 5.12, 3000000, "Standard"),
      BatteryRow("LiFePO4", 51.2, 314, 16.07, 6800000, "Premium"),
      BatteryRow("Tubular", 12.0, 200, 2.4, 1850000, "Standard"),
      BatteryRow("Tubular", 12.0, 150, 1.8, 1400000, "Budget") ]
  }

  function SeedStore(): Store
  {
    Store(SeedInverters(), SeedBatteries())
  }

  /** The per-kWh prices of the two seed lithium rows, 585937.5 and 680000000/1607, and their mean. */
  lemma SeedLithiumPrice()
    ensures BatteryPricePerKwh(SeedBatteries(), LITHIUM_TECH, LITHIUM_DEFAULT_PER_KWH)
            == Success(3243203125.0 / 6428.0)
  {
    var rows := SeedBatteries();
    assert TUBULAR_TECH != LITHIUM_TECH by {
      assert TUBULAR_TECH[0] != LITHIUM_TECH[0];
    }
    assert rows[2..][1..] == rows[3..] && rows[1..][1..] == rows[2..];
    assert rows[2..][0] == rows[2] && rows[1..][0] == rows[1] && rows[3..][1..] == [];
    assert rows[0].techType == LITHIUM_TECH && rows[1].techType == LITHIUM_TECH;
    assert rows[2].techType == TUBULAR_TECH && rows[3].techType == TUBULAR_TECH;
    var p0, p1 := PerKwh(rows[0]), PerKwh(rows[1]);
    assert p0 == 585937.5 && p1 == 680000000.0 / 1607.0;
    assert [p1] + [] == [p1] && [p0] + [p1] == [p0, p1];
    assert PerKwhPrices(rows[3..], LITHIUM_TECH) == Success([]);
    assert PerKwhPrices(rows[2..], LITHIUM_TECH) == Success([]);
    assert PerKwhPrices(rows[1..], LITHIUM_TECH) == Success([p1]);
    assert PerKwhPrices(rows, LITHIUM_TECH) == Success([p0, p1]);
    assert Sum([p0, p1]) == p0 + p1;
  }

  /** The per-kWh prices of the two seed tubular rows, 2312500/3 and 7000000/9, and their mean. */
  lemma SeedTubularPrice()
    ensures BatteryPricePerKwh(SeedBatteries(), TUBULAR_TECH, TUBULAR_DEFAULT_PER_KWH)
            == Success(6968750.0 / 9.0)
  {
    var rows := SeedBatteries();
    assert rows[3..][1..] == [] && rows[2..][1..] == rows[3..] && rows[1..][1..] == rows[2..];
    assert rows[3..][0] == rows[3] && rows[2..][0] == rows[2] && rows[1..][0] == rows[1];
    assert rows[0].techType == LITHIUM_TECH && rows[1].techType == LITHIUM_TECH;
    assert rows[2].techType == TUBULAR_TECH && rows[3].techType == TUBULAR_TECH;
    assert TUBULAR_TECH != LITHIUM_TECH by {
      assert TUBULAR_TECH[0] != LITHIUM_TECH[0];
    }
    var p2, p3 := PerKwh(rows[2]), PerKwh(rows[3]);
    assert p2 == 2312500.0 / 3.0 && p3 == 7000000.0 / 9.0;
    assert [p3] + [] == [p3] && [p2] + [p3] == [p2, p3];
    assert PerKwhPrices(rows[3..][1..], TUBULAR_TECH) == Success([]);
    assert PerKwhPrices(rows[3..], TUBULAR_TECH) == Success([p3]);
    assert PerKwhPrices(rows[2..], TUBULAR_TECH) == Success([p2, p3]);
    assert PerKwhPrices(rows[1..], TUBULAR_TECH) == Success([p2, p3]);
    assert PerKwhPrices(rows, TUBULAR_TECH) == Success([p2, p3]);
    assert Sum([p2, p3]) == p2 + p3;
  }

  /** 2000 W: 24 V, and the two 3000 W 24 V inverters lie in the band [2500, 5500], averaging 850000. */
  lemma BandAveragedInverter()
    ensures VoltageTier(RequiredInverterW(2000)) == 24
    ensures InverterPrice(SeedInverters(), 24, 2500.0) == 850000.0
  {
    SeedBand24Volt();
    assert Sum([750000.0, 950000.0]) == 1700000.0;
    assert BandAverage(SeedInverters(), 24, 2500.0) == Some(850000.0);
  }

  /** The 24 V seed inverters of 2500 W to 5500 W, in table order. */
  lemma SeedBand24Volt()
    ensures BandPrices(SeedInverters(), 24, 2500.0, 5500.0) == [750000.0, 950000.0]
  {
    var rows := SeedInverters();
    assert rows[5..][1..] == [];
    assert rows[4..][1..] == rows[5..] && rows[3..][1..] == rows[4..] && rows[2..][1..] == rows[3..];
    assert rows[1..][1..] == rows[2..];
    assert rows[5..][0] == rows[5] && rows[4..][0] == rows[4] && rows[3..][0] == rows[3];
    assert rows[2..][0] == rows[2] && rows[1..][0] == rows[1];
    assert BandPrices(rows[5..], 24, 2500.0, 5500.0) == [];
    assert BandPrices(rows[4..], 24, 2500.0, 5500.0) == [];
    assert BandPrices(rows[3..], 24, 2500.0, 5500.0) == [];
    assert BandPrices(rows[2..], 24, 2500.0, 5500.0) == [950000.0];
    assert BandPrices(rows[1..], 24, 2500.0, 5500.0) == [750000.0, 950000.0];
  }

  /**
    Equal prices are all counted: two in-band units at 100 and one at 400
    average 200, not the 250 of the distinct prices.
   */
  lemma RepeatedBandPricesCounted()
    ensures BandAverage([ InverterRow("Hybrid", 3000, 24, 100, "Budget"),
                          InverterRow("Hybrid", 3000, 24, 100, "Budget"),
                          InverterRow("Hybrid", 4000, 24, 400, "Standard") ], 24, 2500.0) == Some(200.0)
  {
    var rows := [ InverterRow("Hybrid", 3000, 24, 100, "Budget"),
                  InverterRow("Hybrid", 3000, 24, 100, "Budget"),
                  InverterRow("Hybrid", 4000, 24, 400, "Standard") ];
    assert rows[2..][1..] == [] && rows[1..][1..] == rows[2..];
    assert rows[2..][0] == rows[2] && rows[1..][0] == rows[1];
    assert BandPrices(rows[2..], 24, 2500.0, 5500.0) == [400.0];
    assert BandPrices(rows[1..], 24, 2500.0, 5500.0) == [100.0, 400.0];
    assert BandPrices(rows, 24, 2500.0, 5500.0) == [100.0, 100.0, 400.0];
    assert Sum([100.0, 100.0, 400.0]) == 600.0;
  }

  /** A zero-priced unit in the band still counts: units at 0 and 100 price the inverter at 50. */
  lemma ZeroPricedBandRowAveraged()
    ensures InverterPrice([ InverterRow("Hybrid", 3000, 24, 0, "Budget"),
                            InverterRow("Hybrid", 3000, 24, 100, "Budget") ], 24, 2500.0) == 50.0
  {
    var rows := [ InverterRow("Hybrid", 3000, 24, 0, "Budget"),
                  InverterRow("Hybrid", 3000, 24, 100, "Budget") ];
    assert rows[1..][1..] == [] && rows[1..][0] == rows[1];
    assert BandPrices(rows[1..], 24, 2500.0, 5500.0) == [100.0];
    assert BandPrices(rows, 24, 2500.0, 5500.0) == [0.0, 100.0];
    assert Sum([0.0, 100.0]) == 100.0;
    assert BandAverage(rows, 24, 2500.0) == Some(50.0);
  }

  /** A lone lithium row priced 0 makes the average 0, so the lithium default applies. */
  lemma ZeroLithiumAverageDefaults()
    ensures BatteryPricePerKwh([BatteryRow("LiFePO4", 51.2, 100, 5.12, 0, "Premium")], LITHIUM_TECH, LITHIUM_DEFAULT_PER_KWH)
            == Success(LITHIUM_DEFAULT_PER_KWH)
  {
    var rows := [BatteryRow("LiFePO4", 51.2, 100, 5.12, 0, "Premium")];
    assert rows[1..] == [] && OfTech(rows[0], LITHIUM_TECH);
    assert PerKwh(rows[0]) == 0.0;
    assert PerKwhPrices(rows[1..], LITHIUM_TECH) == Success([]);
    assert [0.0] + [] == [0.0];
    assert PerKwhPrices(rows, LITHIUM_TECH) == Success([0.0]);
    assert Sum([0.0]) == 0.0;
  }

  /**
    1000 W: 12 V, but the only 12 V inverter (1000 W) is below the 1250 W
    requirement, so the price falls back to the cheapest inverter of at least
    1250 W of any voltage: the 3000 W 24 V unit at 750000.
   */
  lemma FallbackInverter()
    ensures VoltageTier(RequiredInverterW(1000)) == 12
    ensures InverterPrice(SeedInverters(), 12, 1250.0) == 750000.0
  {
    SeedNo12VoltBand();
    assert BandAverage(SeedInverters(), 12, 1250.0) == None;
    SeedCheapestFrom1250W();
  }

  /** No seed inverter is a 12 V unit of 1250 W to 4250 W. */
  lemma SeedNo12VoltBand()
    ensures BandPrices(SeedInverters(), 12, 1250.0, 4250.0) == []
  {
    var rows := SeedInverters();
    assert forall i :: 0 <= i < |rows| ==> !InBand(rows[i], 12, 1250.0, 4250.0);
  }

  /** The cheapest seed inverter of at least 1250 W is the 3000 W 24 V unit at 750000. */
  lemma SeedCheapestFrom1250W()
    ensures MinPrice(SeedInverters(), 1250.0) == Some(750000)
  {
    var rows := SeedInverters();
    assert StrongEnough(rows[1], 1250.0);
    assert forall i :: 0 <= i < |rows| && StrongEnough(rows[i], 1250.0) ==> rows[i].price >= 750000;
  }

  /**
    10000 W: 48 V and a 12500 W requirement, which no seed inverter reaches,
    so both the band and the fallback are empty and the inverter is priced 0.
   */
  lemma UnpricedInverter()
    ensures VoltageTier(RequiredInverterW(10000)) == 48
    ensures InverterPrice(SeedInverters(), 48, 12500.0) == 0.0
  {
    var rows := SeedInverters();
    assert BandPrices(rows, 48, 12500.0, 15500.0) == [];
    assert MinPrice(rows, 12500.0) == None;
  }

  /** The cost arithmetic for 10 kWh at the seed prices, with an 850000 inverter. */
  lemma SeedCosts2000W()
    ensures Assemble(2500.0, 24, 10.0, 850000.0, 3243203125.0 / 6428.0, 6968750.0 / 9.0) ==
      SystemEstimate(
        SystemSpecs(2.5, 24, 10.0),
        Estimates(850000,
          BatteryOption(5606034, 7424439, "8-10 Years"),
          BatteryOption(15486111, 18786527, "2-3 Years"),
          968405))
  {
    var li := 3243203125.0 / 6428.0;
    var la := 6968750.0 / 9.0;
    AssembleCostIdentities(2500.0, 24, 10.0, 850000.0, li, la);
    var costLi := 81080078125.0 / 14463.0;
    var costLa := 139375000.0 / 9.0;
    assert 10.0 / 0.9 * li == costLi;
    assert 2.0 * 10.0 * la == costLa;
    assert Trunc(costLi) == 5606034;
    assert Trunc(costLa) == 15486111;
    assert Trunc(1.15 * (850000.0 + costLi)) == 7424439;
    assert Trunc(1.15 * (850000.0 + costLa)) == 18786527;
    assert Trunc(0.15 * (850000.0 + costLi)) == 968405;
    assert Trunc(850000.0) == 850000;
    assert RoundTo(2500.0 / 1000.0, 1) == 2.5 by {
      assert RoundHalfEven(25.0) == 25;
    }
    assert RoundTo(10.0, 2) == 10.0 by {
      assert RoundHalfEven(1000.0) == 1000;
    }
  }

  /** The full estimate for 2000 W over 5 h against the seed catalog. */
  lemma SeedEstimate2000W()
    ensures CalculateSystem(2000, 5, SeedStore()) ==
      Success(SystemEstimate(
        SystemSpecs(2.5, 24, 10.0),
        Estimates(850000,
          BatteryOption(5606034, 7424439, "8-10 Years"),
          BatteryOption(15486111, 18786527, "2-3 Years"),
          968405)))
  {
    SeedLithiumPrice();
    SeedTubularPrice();
    BandAveragedInverter();
    assert RequiredInverterW(2000) == 2500.0;
    assert RequiredEnergyKwh(2000, 5) == 10.0;
    CalculateSystemAssembles(2000, 5, SeedStore());
    SeedCosts2000W();
  }
}
