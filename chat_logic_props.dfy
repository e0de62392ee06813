/**
  Properties of the admin command parser: commands written in the documented
  syntax parse back to their row, extra tokens are ignored, the category is
  case-insensitive, the command word itself is never checked, and what a
  battery update does to later price estimates.
 */
module ChatLogicProperties {
  import opened Wrappers
  import opened Catalog
  import opened PyText
  import opened ChatLogic
  import Calculator

  /** `/update <category> <size> <price>` written out with str() for the numbers. */
  function FormatUpdate(category: string, size: int, price: int): string
  {
    UPDATE_PREFIX + " " + category + " " + IntToString(size) + " " + IntToString(price)
  }

  lemma FormatUpdateSplits(category: string, size: int, price: int)
    requires ' ' !in category
    ensures Split(FormatUpdate(category, size, price), ' ') == [UPDATE_PREFIX, category, IntToString(size), IntToString(price)]
  {
    var parts := [UPDATE_PREFIX, category, IntToString(size), IntToString(price)];
    IntToStringHasNoSpace(size);
    IntToStringHasNoSpace(price);
    assert ' ' !in UPDATE_PREFIX;
    assert IsSpace(' ');
    assert forall i :: 0 <= i < |parts| ==> ' ' !in parts[i];
    assert Join(parts[3..], ' ') == IntToString(price);
    assert Join(parts[2..], ' ') == IntToString(size) + " " + IntToString(price);
    assert Join(parts[1..], ' ') == category + " " + IntToString(size) + " " + IntToString(price);
    assert Join(parts, ' ') == FormatUpdate(category, size, price);
    SplitJoin(parts, ' ');
  }

  /**
    A command in the documented syntax succeeds and inserts the row of its
    lower-cased category: a 51.2 V LiFePO4 battery of `size` Ah storing
    51.2 * size / 1000 kWh, a 48 V hybrid inverter of `size` W, or nothing
    for any other category.
   */
  lemma ParseFormatted(category: string, size: int, price: int)
    requires ' ' !in category
    ensures var o := HandleAdminCommand(FormatUpdate(category, size, price));
      && o.Updated?
      && (Lower(category) == "battery" ==>
            o.insert == Some(AddBattery(BatteryRow("LiFePO4", 51.2, size, 51.2 * size as real / 1000.0, price, "Premium"))))
      && (Lower(category) == "inverter" ==>
            o.insert == Some(AddInverter(InverterRow("Hybrid", size, 48, price, "Standard"))))
      && (Lower(category) != "battery" && Lower(category) != "inverter" ==> o.insert == None)
  {
    FormatUpdateSplits(category, size, price);
    ParseIntToString(size);
    ParseIntToString(price);
  }

  /** The category is compared after lower-casing: BATTERY, Battery and battery are one command. */
  lemma CategoryCaseInsensitive(text1: string, text2: string)
    requires |Split(text1, ' ')| == |Split(text2, ' ')| >= 2
    requires Split(text1, ' ')[2..] == Split(text2, ' ')[2..]
    requires Lower(Split(text1, ' ')[1]) == Lower(Split(text2, ' ')[1])
    ensures HandleAdminCommand(text1) == HandleAdminCommand(text2)
  {
    var p1 := Split(text1, ' ');
    var p2 := Split(text2, ' ');
    if |p1| >= 3 {
      assert p1[2] == p1[2..][0] && p2[2] == p2[2..][0];
    }
    if |p1| >= 4 {
      assert p1[3] == p1[2..][1] && p2[3] == p2[2..][1];
    }
  }

  /**
    Fewer than four space-separated pieces always fail: with fewer than three
    by IndexError, with exactly three by IndexError unless the size is not an
    integer, which raises ValueError first.
   */
  lemma FewerThanFourPiecesFail(text: string)
    requires |Split(text, ' ')| < 4
    ensures var parts := Split(text, ' ');
      && HandleAdminCommand(text).UpdateFailed?
      && (|parts| < 3 ==> HandleAdminCommand(text) == UpdateFailed(IndexOutOfRange))
      && (|parts| == 3 ==>
            HandleAdminCommand(text) ==
              if ParseInt(parts[2]).None? then UpdateFailed(InvalidLiteral(parts[2])) else UpdateFailed(IndexOutOfRange))
  {
  }

  /** A size or price that int() rejects fails with ValueError on that token. */
  lemma NonIntegerFails(text: string)
    requires |Split(text, ' ')| >= 4
    requires ParseInt(Split(text, ' ')[2]).None? || ParseInt(Split(text, ' ')[3]).None?
    ensures var parts := Split(text, ' ');
      HandleAdminCommand(text) ==
        UpdateFailed(InvalidLiteral(if ParseInt(parts[2]).None? then parts[2] else parts[3]))
  {
  }

  /**
    A size starting with one of the separators U+001C to U+001F is not an
    integer for int(), so the update fails on it.
  */
  lemma SeparatorBeforeSizeFails(text: string)
    requires |Split(text, ' ')| >= 4
    requires |Split(text, ' ')[2]| > 0 && '\U{1C}' <= Split(text, ' ')[2][0] <= '\U{1F}'
    ensures HandleAdminCommand(text) == UpdateFailed(InvalidLiteral(Split(text, ' ')[2]))
  {
    var size := Split(text, ' ')[2];
    assert size == [size[0]] + size[1..];
    SeparatorNotSkipped(size[0], size[1..]);
  }

  /** Whatever follows the fourth piece is ignored. */
  lemma ExtraTokensIgnored(text: string, extra: string)
    requires |Split(text, ' ')| >= 4
    ensures HandleAdminCommand(text + " " + extra) == HandleAdminCommand(text)
  {
    SplitAppend(text, extra, ' ');
    var parts := Split(text, ' ');
    var longer := Split(text + " " + extra, ' ');
    assert longer[1] == parts[1] && longer[2] == parts[2] && longer[3] == parts[3];
  }

  /**
    The first piece is never looked at: any space-free command word gives
    the same outcome as /update itself, so `/updates battery 100 3200000` inserts a
    battery.
   */
  lemma CommandWordNotChecked(word: string, rest: string)
    requires ' ' !in word
    ensures HandleAdminCommand(word + " " + rest) == HandleAdminCommand(UPDATE_PREFIX + " " + rest)
  {
    assert ' ' !in UPDATE_PREFIX;
    SplitJoin([word], ' ');
    SplitJoin([UPDATE_PREFIX], ' ');
    SplitAppend(word, rest, ' ');
    SplitAppend(UPDATE_PREFIX, rest, ' ');
    var r := Split(rest, ' ');
    var p1 := Split(word + " " + rest, ' ');
    var p2 := Split(UPDATE_PREFIX + " " + rest, ' ');
    assert p1 == [word] + r && p2 == [UPDATE_PREFIX] + r;
    assert forall i :: 1 <= i < |p1| ==> p1[i] == r[i - 1] == p2[i];
    SamePiecesSameOutcome(word + " " + rest, UPDATE_PREFIX + " " + rest);
  }

  /** The handler reads nothing but the pieces after the first. */
  lemma SamePiecesSameOutcome(text1: string, text2: string)
    requires |Split(text1, ' ')| == |Split(text2, ' ')|
    requires forall i :: 1 <= i < |Split(text1, ' ')| ==> Split(text1, ' ')[i] == Split(text2, ' ')[i]
    ensures HandleAdminCommand(text1) == HandleAdminCommand(text2)
  {
  }

  /** The documented syntax with a lower-case category: a 100 Ah pack at 3,200,000 MMK. */
  lemma BatteryCommandExample()
    ensures HandleAdminCommand(UPDATE_PREFIX + " " + "battery 100 3200000")
            == Updated(Some(AddBattery(BatteryRow("LiFePO4", 51.2, 100, 5.12, 3200000, "Premium"))))
  {
    ExampleWritten();
    assert Lower("battery") == "battery";
    ParseFormatted("battery", 100, 3200000);
  }

  /** The example command is what FormatUpdate writes for it. */
  lemma ExampleWritten()
    ensures FormatUpdate("battery", 100, 3200000) == UPDATE_PREFIX + " " + "battery 100 3200000"
  {
    ExampleNumbersWritten();
    assert FormatUpdate("battery", 100, 3200000) == UPDATE_PREFIX + " " + "battery" + " " + "100" + " " + "3200000";
    assert "battery" + " " + "100" + " " + "3200000" == "battery 100 3200000";
  }

  /** str() of the example's size and price, digit by digit. */
  lemma ExampleNumbersWritten()
    ensures IntToString(100) == "100" && IntToString(3200000) == "3200000"
  {
    WrittenDigit(1, 0);
    WrittenDigit(10, 0);
    WrittenDigit(3, 2);
    WrittenDigit(32, 0);
    WrittenDigit(320, 0);
    WrittenDigit(3200, 0);
    WrittenDigit(32000, 0);
    WrittenDigit(320000, 0);
  }

  /** str(10 * k + d) is str(k) followed by the digit d. */
  lemma WrittenDigit(k: nat, d: nat)
    requires k > 0 && d < 10
    ensures NatToString(10 * k + d) == NatToString(k) + [DigitChar(d)]
  {
  }

  /**
    The command word is not checked: with any space-free word in place of
    /update (such as /updates) the example still inserts the battery.
   */
  lemma MisspelledCommandWordStillUpdates(word: string, rest: string)
    requires ' ' !in word && rest == "battery 100 3200000"
    ensures HandleAdminCommand(word + " " + rest)
            == Updated(Some(AddBattery(BatteryRow("LiFePO4", 51.2, 100, 5.12, 3200000, "Premium"))))
  {
    CommandWordNotChecked(word, rest);
    BatteryCommandExample();
  }

  /** ... and the message is routed to the admin handler. */
  lemma MisspelledCommandWordIsAdmin()
    ensures GetAiReply("/updates battery 100 3200000").AdminReply?
  {
    assert "/updates battery 100 3200000"[..7] == "/update";
  }

  // ---------------------------------------------------------------------
  // Effect of an update on later estimates

  /** `/update battery <size> <price>` inserts the quick battery row of that size and price. */
  lemma FormattedBatteryUpdate(size: int, price: int)
    ensures HandleAdminCommand(FormatUpdate("battery", size, price)) == Updated(Some(AddBattery(QuickBatteryRow(size, price))))
  {
    assert Lower("battery") == "battery";
    ParseFormatted("battery", size, price);
  }

  /**
    A battery update of size 0 inserts a LiFePO4 row storing 0 kWh, after
    which every calculation fails on the division by zero of the lithium
    per-kWh query.
   */
  lemma ZeroSizeBatteryUpdateBreaksEstimates(store: Store, price: int, watts: int, hours: int)
    ensures var o := HandleAdminCommand(FormatUpdate("battery", 0, price));
      Calculator.CalculateSystem(watts, hours, ApplyInsert(store, o)).Failure?
  {
    FormattedBatteryUpdate(0, price);
    var row := QuickBatteryRow(0, price);
    var after := store.batteries + [row];
    assert after[|after| - 1] == row;
    assert row.techType == Calculator.LITHIUM_TECH && row.energyKwh == 0.0;
    assert Calculator.BatteryQueryFails(after);
  }

  /** A battery update of non-zero size keeps the catalog priceable: a calculation that could not fail before succeeds afterwards. */
  lemma BatteryUpdateKeepsEstimates(store: Store, size: int, price: int, watts: int, hours: int)
    requires size != 0
    requires !Calculator.BatteryQueryFails(store.batteries)
    ensures var o := HandleAdminCommand(FormatUpdate("battery", size, price));
      Calculator.CalculateSystem(watts, hours, ApplyInsert(store, o)).Success?
  {
    FormattedBatteryUpdate(size, price);
    BatteryQueryFailsAppend(store.batteries, QuickBatteryRow(size, price));
  }

  /** Appending a row that stores energy adds no division by zero. */
  lemma BatteryQueryFailsAppend(rows: seq<BatteryRow>, row: BatteryRow)
    requires row.energyKwh != 0.0
    ensures Calculator.BatteryQueryFails(rows + [row]) == Calculator.BatteryQueryFails(rows)
  {
    var after := rows + [row];
    assert forall i :: 0 <= i < |rows| ==> after[i] == rows[i];
  }
}
