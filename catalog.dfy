/**
  The two market tables the calculator reads (market_inverters and
  market_batteries) and the read-only SQL queries it runs on them, as pure
  selection and aggregate functions over a sequence of rows.
 */
module Catalog {
  import opened Wrappers

  /** One row of market_inverters. */
  datatype InverterRow = InverterRow(
    techType: string,
    wattage: int,
    systemVoltage: int,
    price: int,
    qualityTier: string)

  /** One row of market_batteries. */
  datatype BatteryRow = BatteryRow(
    techType: string,
    voltage: real,
    capacityAh: int,
    energyKwh: real,
    price: int,
    qualityTier: string)

  /** The state of both tables at the moment of one sizing call. */
  datatype Store = Store(inverters: seq<InverterRow>, batteries: seq<BatteryRow>)

  /** The only error a modelled query can raise: a float division by zero. */
  datatype QueryError = DivisionByZero

  // ---------------------------------------------------------------------
  // Aggregates

  /** SUM over a column of exact reals. */
  function Sum(xs: seq<real>): real
  {
    if |xs| == 0 then 0.0 else xs[0] + Sum(xs[1..])
  }

  /** SQL AVG: NULL over no rows, otherwise the arithmetic mean. */
  function Mean(xs: seq<real>): (m: Option<real>)
    ensures m.None? <==> |xs| == 0
  {
    if |xs| == 0 then None else Some(Sum(xs) / |xs| as real)
  }

  /** Every value of a column in [lo, hi] bounds the column's sum by n*lo and n*hi. */
  lemma {:induction false} SumBounds(xs: seq<real>, lo: real, hi: real)
    requires forall x :: x in xs ==> lo <= x <= hi
    ensures |xs| as real * lo <= Sum(xs) <= |xs| as real * hi
  {
    if |xs| > 0 {
      assert forall x :: x in xs[1..] ==> x in xs;
      SumBounds(xs[1..], lo, hi);
      assert xs[0] in xs;
      var m := |xs[1..]| as real;
      assert |xs| as real * lo == m * lo + lo;
      assert |xs| as real * hi == m * hi + hi;
    }
  }

  /** The mean of a non-empty column lies between any bounds of its values. */
  lemma MeanWithinBounds(xs: seq<real>, lo: real, hi: real)
    requires |xs| > 0
    requires forall x :: x in xs ==> lo <= x <= hi
    ensures lo <= Mean(xs).value <= hi
  {
    SumBounds(xs, lo, hi);
    var n := |xs| as real;
    var m := Sum(xs) / n;
    assert m * n == Sum(xs);
    assert (m - lo) * n == Sum(xs) - n * lo;
    assert (hi - m) * n == n * hi - Sum(xs);
    NonNegativeFactor(m - lo, n);
    NonNegativeFactor(hi - m, n);
  }

  /** A product with a positive factor is non-negative only if the other factor is. */
  lemma NonNegativeFactor(x: real, n: real)
    requires n > 0.0 && x * n >= 0.0
    ensures x >= 0.0
  {
  }

  // ---------------------------------------------------------------------
  // market_inverters

  /** WHERE system_voltage = voltage AND wattage >= lo AND wattage <= hi */
  predicate InBand(r: InverterRow, voltage: int, lo: real, hi: real)
  {
    r.systemVoltage == voltage && lo <= r.wattage as real <= hi
  }

  /** SELECT price_mmk ... WHERE InBand: the prices of the qualifying rows, in table order. */
  function BandPrices(rows: seq<InverterRow>, voltage: int, lo: real, hi: real): (ps: seq<real>)
    ensures |ps| <= |rows|
    ensures forall i :: 0 <= i < |rows| && InBand(rows[i], voltage, lo, hi) ==> rows[i].price as real in ps
    ensures forall p :: p in ps ==>
              exists i :: 0 <= i < |rows| && InBand(rows[i], voltage, lo, hi) && rows[i].price as real == p
  {
    if |rows| == 0 then []
    else
      var rest := BandPrices(rows[1..], voltage, lo, hi);
      assert forall i :: 1 <= i < |rows| ==> rows[i] == rows[1..][i - 1];
      if InBand(rows[0], voltage, lo, hi) then [rows[0].price as real] + rest else rest
  }

  /** The positions of the rows in the band, in increasing order: every one of them, each once. */
  function BandRows(rows: seq<InverterRow>, voltage: int, lo: real, hi: real): (idx: seq<int>)
    ensures forall k :: 0 <= k < |idx| ==> 0 <= idx[k] < |rows| && InBand(rows[idx[k]], voltage, lo, hi)
    ensures forall k, l :: 0 <= k < l < |idx| ==> idx[k] < idx[l]
    ensures forall i :: 0 <= i < |rows| && InBand(rows[i], voltage, lo, hi) ==> i in idx
  {
    if |rows| == 0 then []
    else
      var init := rows[..|rows| - 1];
      assert forall i :: 0 <= i < |init| ==> init[i] == rows[i];
      var prefix := BandRows(init, voltage, lo, hi);
      if InBand(rows[|rows| - 1], voltage, lo, hi) then prefix + [|rows| - 1] else prefix
  }

  /** The price column of two stretches of the table is the two columns one after the other. */
  lemma {:induction false} BandPricesAppend(a: seq<InverterRow>, b: seq<InverterRow>, voltage: int, lo: real, hi: real)
    ensures BandPrices(a + b, voltage, lo, hi) == BandPrices(a, voltage, lo, hi) + BandPrices(b, voltage, lo, hi)
  {
    if |a| == 0 {
      assert a + b == b;
    } else {
      assert (a + b)[1..] == a[1..] + b;
      BandPricesAppend(a[1..], b, voltage, lo, hi);
    }
  }

  /**
    The k-th selected price is the price of the k-th row in the band: one
    entry per qualifying row, duplicates kept, in table order.
   */
  lemma {:induction false} BandPricesInTableOrder(rows: seq<InverterRow>, voltage: int, lo: real, hi: real)
    ensures var idx := BandRows(rows, voltage, lo, hi);
      var ps := BandPrices(rows, voltage, lo, hi);
      |ps| == |idx| && forall k :: 0 <= k < |idx| ==> ps[k] == rows[idx[k]].price as real
  {
    if |rows| > 0 {
      var init := rows[..|rows| - 1];
      BandPricesSnoc(rows, voltage, lo, hi);
      BandPricesInTableOrder(init, voltage, lo, hi);
      var ii := BandRows(init, voltage, lo, hi);
      assert forall k :: 0 <= k < |ii| ==> init[ii[k]] == rows[ii[k]];
      PriceColumnSnoc(rows, voltage, lo, hi, BandPrices(init, voltage, lo, hi), ii,
        BandPrices(rows, voltage, lo, hi), BandRows(rows, voltage, lo, hi));
    }
  }

  /** The price column of a table is that of all but its last row, then that row's price if it is in the band. */
  lemma BandPricesSnoc(rows: seq<InverterRow>, voltage: int, lo: real, hi: real)
    requires |rows| > 0
    ensures var last := rows[|rows| - 1];
      BandPrices(rows, voltage, lo, hi) ==
        BandPrices(rows[..|rows| - 1], voltage, lo, hi) + if InBand(last, voltage, lo, hi) then [last.price as real] else []
  {
    var init := rows[..|rows| - 1];
    var last := rows[|rows| - 1];
    assert rows == init + [last];
    assert BandPrices([last][1..], voltage, lo, hi) == [] by {
      assert [last][1..] == [];
    }
    BandPricesAppend(init, [last], voltage, lo, hi);
  }

  /** One step of the induction above: the column of a stretch, extended by the stretch's next row. */
  lemma PriceColumnSnoc(rows: seq<InverterRow>, voltage: int, lo: real, hi: real,
                        pi: seq<real>, ii: seq<int>, ps: seq<real>, idx: seq<int>)
    requires |rows| > 0
    requires |pi| == |ii|
    requires forall k :: 0 <= k < |ii| ==> 0 <= ii[k] < |rows| && pi[k] == rows[ii[k]].price as real
    requires var last := rows[|rows| - 1];
      if InBand(last, voltage, lo, hi) then ps == pi + [last.price as real] && idx == ii + [|rows| - 1]
      else ps == pi && idx == ii
    ensures |ps| == |idx|
    ensures forall k :: 0 <= k < |idx| ==> 0 <= idx[k] < |rows| && ps[k] == rows[idx[k]].price as real
  {
  }

  /** WHERE wattage >= minW */
  predicate StrongEnough(r: InverterRow, minW: real)
  {
    r.wattage as real >= minW
  }

  /**
    SELECT MIN(price_mmk) FROM market_inverters WHERE wattage >= minW:
    NULL when no row qualifies, otherwise the smallest qualifying price.
   */
  function MinPrice(rows: seq<InverterRow>, minW: real): (m: Option<int>)
    ensures m.None? <==> forall i :: 0 <= i < |rows| ==> !StrongEnough(rows[i], minW)
    ensures m.Some? ==> exists i :: 0 <= i < |rows| && StrongEnough(rows[i], minW) && rows[i].price == m.value
    ensures m.Some? ==> forall i :: 0 <= i < |rows| && StrongEnough(rows[i], minW) ==> m.value <= rows[i].price
  {
    if |rows| == 0 then None
    else
      var rest := MinPrice(rows[1..], minW);
      assert forall i :: 1 <= i < |rows| ==> rows[i] == rows[1..][i - 1];
      if !StrongEnough(rows[0], minW) then rest
      else match rest
        case None => Some(rows[0].price)
        case Some(q) => Some(if rows[0].price <= q then rows[0].price else q)
  }

  // ---------------------------------------------------------------------
  // market_batteries

  /** WHERE tech_type = tech */
  predicate OfTech(r: BatteryRow, tech: string)
  {
    r.techType == tech
  }

  /** price_mmk / energy_kwh of one row; the database computes it in float8. */
  function PerKwh(r: BatteryRow): real
    requires r.energyKwh != 0.0
  {
    r.price as real / r.energyKwh
  }

  /**
    SELECT price_mmk / energy_kwh ... WHERE tech_type = tech: the per-kWh
    prices of the rows of that technology, or the division-by-zero error the
    database raises when one of those rows stores no energy.
   */
  function PerKwhPrices(rows: seq<BatteryRow>, tech: string): (r: Result<seq<real>, QueryError>)
    ensures r.Failure? <==> exists i :: 0 <= i < |rows| && OfTech(rows[i], tech) && rows[i].energyKwh == 0.0
    ensures r.Success? ==> |r.value| <= |rows|
    ensures r.Success? ==> (|r.value| == 0 <==> forall i :: 0 <= i < |rows| ==> !OfTech(rows[i], tech))
  {
    if |rows| == 0 then Success([])
    else
      assert forall i :: 1 <= i < |rows| ==> rows[i] == rows[1..][i - 1];
      if !OfTech(rows[0], tech) then PerKwhPrices(rows[1..], tech)
      else if rows[0].energyKwh == 0.0 then Failure(DivisionByZero)
      else match PerKwhPrices(rows[1..], tech)
        case Failure(e) => Failure(e)
        case Success(rest) => Success([PerKwh(rows[0])] + rest)
  }

  /** The positions of the rows of one technology, in increasing order: every one of them, each once. */
  function TechRows(rows: seq<BatteryRow>, tech: string): (idx: seq<int>)
    ensures forall k :: 0 <= k < |idx| ==> 0 <= idx[k] < |rows| && OfTech(rows[idx[k]], tech)
    ensures forall k, l :: 0 <= k < l < |idx| ==> idx[k] < idx[l]
    ensures forall i :: 0 <= i < |rows| && OfTech(rows[i], tech) ==> i in idx
  {
    if |rows| == 0 then []
    else
      var init := rows[..|rows| - 1];
      assert forall i :: 0 <= i < |init| ==> init[i] == rows[i];
      var prefix := TechRows(init, tech);
      if OfTech(rows[|rows| - 1], tech) then prefix + [|rows| - 1] else prefix
  }

  /**
    The query over two stretches of the table fails when it fails on either,
    and otherwise yields the two columns one after the other.
   */
  lemma {:induction false} PerKwhPricesAppend(a: seq<BatteryRow>, b: seq<BatteryRow>, tech: string)
    ensures var ra := PerKwhPrices(a, tech);
      var rb := PerKwhPrices(b, tech);
      PerKwhPrices(a + b, tech) == if ra.Success? && rb.Success? then Success(ra.value + rb.value) else Failure(DivisionByZero)
  {
    if |a| == 0 {
      assert a + b == b;
      assert PerKwhPrices(a, tech) == Success([]);
      match PerKwhPrices(b, tech)
      case Success(vb) => assert [] + vb == vb;
      case Failure(e) => assert e == DivisionByZero;
    } else {
      var ab := a + b;
      assert ab[0] == a[0] && ab[1..] == a[1..] + b;
      PerKwhPricesAppend(a[1..], b, tech);
      var rest := PerKwhPrices(a[1..], tech);
      var rb := PerKwhPrices(b, tech);
      if OfTech(a[0], tech) && a[0].energyKwh != 0.0 && rest.Success? && rb.Success? {
        var x := PerKwh(a[0]);
        assert PerKwhPrices(ab[1..], tech) == Success(rest.value + rb.value);
        assert PerKwhPrices(a, tech) == Success([x] + rest.value);
        assert [x] + (rest.value + rb.value) == [x] + rest.value + rb.value;
      }
    }
  }

  /**
    When the query succeeds, the k-th value is the per-kWh price of the k-th
    row of the technology: one entry per row, duplicates kept, in table order.
   */
  lemma {:induction false} PerKwhPricesInTableOrder(rows: seq<BatteryRow>, tech: string)
    ensures var idx := TechRows(rows, tech);
      var r := PerKwhPrices(rows, tech);
      r.Success? ==> |r.value| == |idx| && forall k :: 0 <= k < |idx| ==> r.value[k] == PerKwh(rows[idx[k]])
  {
    if |rows| > 0 && PerKwhPrices(rows, tech).Success? {
      var init := rows[..|rows| - 1];
      PerKwhPricesSnoc(rows, tech);
      PerKwhPricesInTableOrder(init, tech);
      var ii := TechRows(init, tech);
      assert forall k :: 0 <= k < |ii| ==> init[ii[k]] == rows[ii[k]];
      ColumnSnoc(rows, tech, PerKwhPrices(init, tech).value, ii, PerKwhPrices(rows, tech).value, TechRows(rows, tech));
    }
  }

  /** The query over a table is the query over all but its last row, then that row. */
  lemma PerKwhPricesSnoc(rows: seq<BatteryRow>, tech: string)
    requires |rows| > 0
    ensures var init := PerKwhPrices(rows[..|rows| - 1], tech);
      var last := rows[|rows| - 1];
      PerKwhPrices(rows, tech) ==
        if init.Failure? || (OfTech(last, tech) && last.energyKwh == 0.0) then Failure(DivisionByZero)
        else if OfTech(last, tech) then Success(init.value + [PerKwh(last)])
        else init
  {
    var init := rows[..|rows| - 1];
    var last := rows[|rows| - 1];
    assert rows == init + [last];
    assert PerKwhPrices([last][1..], tech) == Success([]) by {
      assert [last][1..] == [];
    }
    PerKwhPricesAppend(init, [last], tech);
    match PerKwhPrices(init, tech)
    case Failure(e) => assert e == DivisionByZero;
    case Success(vs) =>
      if !OfTech(last, tech) {
        assert PerKwhPrices([last], tech) == Success([]);
        assert vs + [] == vs;
      } else if last.energyKwh != 0.0 {
        assert PerKwhPrices([last], tech) == Success([PerKwh(last)] + []);
        assert [PerKwh(last)] + [] == [PerKwh(last)];
      }
  }

  /**
    When the query succeeds, every row of the technology contributes its
    per-kWh price and every value comes from such a row.
   */
  lemma PerKwhPricesMembers(rows: seq<BatteryRow>, tech: string)
    ensures var r := PerKwhPrices(rows, tech);
      r.Success? ==> forall i :: 0 <= i < |rows| && OfTech(rows[i], tech) ==> PerKwh(rows[i]) in r.value
    ensures var r := PerKwhPrices(rows, tech);
      r.Success? ==> forall x :: x in r.value ==>
        exists i :: 0 <= i < |rows| && OfTech(rows[i], tech) && PerKwh(rows[i]) == x
  {
    PerKwhPricesInTableOrder(rows, tech);
    var r := PerKwhPrices(rows, tech);
    if r.Success? {
      var idx := TechRows(rows, tech);
      forall i | 0 <= i < |rows| && OfTech(rows[i], tech)
        ensures PerKwh(rows[i]) in r.value
      {
        var k :| 0 <= k < |idx| && idx[k] == i;
        assert r.value[k] == PerKwh(rows[i]);
      }
      forall x | x in r.value
        ensures exists i :: 0 <= i < |rows| && OfTech(rows[i], tech) && PerKwh(rows[i]) == x
      {
        var k :| 0 <= k < |r.value| && r.value[k] == x;
        assert OfTech(rows[idx[k]], tech) && PerKwh(rows[idx[k]]) == x;
      }
    }
  }

  /** One step of the induction above: the column of a stretch, extended by the stretch's next row. */
  lemma ColumnSnoc(rows: seq<BatteryRow>, tech: string, ri: seq<real>, ii: seq<int>, rv: seq<real>, idx: seq<int>)
    requires |rows| > 0
    requires |ri| == |ii|
    requires forall k :: 0 <= k < |ii| ==> 0 <= ii[k] < |rows| && rows[ii[k]].energyKwh != 0.0
    requires forall k :: 0 <= k < |ii| ==> ri[k] == PerKwh(rows[ii[k]])
    requires var last := rows[|rows| - 1];
      if OfTech(last, tech) && last.energyKwh != 0.0 then rv == ri + [PerKwh(last)] && idx == ii + [|rows| - 1]
      else rv == ri && idx == ii
    ensures |rv| == |idx|
    ensures forall k :: 0 <= k < |idx| ==> 0 <= idx[k] < |rows| && rows[idx[k]].energyKwh != 0.0 && rv[k] == PerKwh(rows[idx[k]])
  {
  }

  /**
    SELECT AVG(price_mmk / energy_kwh) FROM market_batteries WHERE tech_type = tech:
    the division error when a row of the technology stores no energy, otherwise
    NULL exactly when the technology has no rows.
   */
  function AvgPerKwh(rows: seq<BatteryRow>, tech: string): (r: Result<Option<real>, QueryError>)
    ensures r.Failure? <==> exists i :: 0 <= i < |rows| && OfTech(rows[i], tech) && rows[i].energyKwh == 0.0
    ensures r.Success? ==> (r.value.None? <==> forall i :: 0 <= i < |rows| ==> !OfTech(rows[i], tech))
  {
    match PerKwhPrices(rows, tech)
    case Failure(e) => Failure(e)
    case Success(xs) => Success(Mean(xs))
  }
}
