# Solar backup sizing calculator and admin price updates, in Dafny

This project models two parts of a Myanmar solar/backup-power chat assistant.

The first is the sizing and pricing calculator `calculate_system(watts, hours)`. It derives:

- the inverter requirement, which is the load times a 1.25 margin;
- the energy to store, `watts × hours / 1000` kWh;
- a DC voltage tier of 12, 24 or 48 V, from the thresholds 1500 W and 3500 W.

It then prices one inverter and two battery banks from the market catalog:

- The inverter is priced at the average of the tier's inverters whose wattage is in `[req, req + 3000]`. When that is empty or zero, it falls back to the cheapest inverter of any voltage that is strong enough. When that is also empty or zero, the price is 0.
- A lithium (LiFePO4) bank is sized at `energy / 0.9` kWh. A tubular lead-acid bank is sized at `energy / 0.5` kWh. Each is priced at the catalog's average per-kWh price for its chemistry, with defaults of 450000 and 250000.

Finally it adds a 15% overhead and returns a record: the inverter size in kW rounded to one decimal, the voltage, the backup energy in kWh rounded to two decimals, and the prices truncated to integers.

The second part is the admin command `/update <category> <size> <price>`, read by the chat handler:

- the message is split on single spaces;
- the category is lower-cased;
- the two numbers are read with `int()`.

A `battery` command inserts a 51.2 V LiFePO4 row storing `51.2 × size / 1000` kWh. An `inverter` command inserts a 48 V hybrid row. Any other category inserts nothing but still reports success. Every IndexError or ValueError becomes a failure reply. Any message that starts with `/update` goes to this handler instead of the language model.

How the model represents the code:

- The database is an explicit input, `Catalog.Store`: a sequence of inverter rows and a sequence of battery rows, taken at the moment of the call.
- Each SQL query is a pure function over those rows:
  - the `WHERE` filters are `BandPrices`, `MinPrice` and `PerKwhPrices`;
  - `AVG` and `MIN` are `Mean` and `MinPrice`;
  - SQL NULL is `None`.
- `price_mmk / energy_kwh` on a row with `energy_kwh = 0` raises a division-by-zero error in the database. The model carries it as `Failure(DivisionByZero)`, and it propagates out of `Calculator.CalculateSystem`.
- Arithmetic uses exact `real` values:
  - Python's `int()` on a float is truncation toward zero (`Calculator.Trunc`);
  - `round(x, n)` is round-half-to-even at `n` decimals (`Calculator.RoundTo`).
- The `/update` handler is a function from the message text to an `AdminOutcome`. The outcome is either `Updated` with the optional row the INSERT would add, or `UpdateFailed` with the exception that was caught. `ChatLogic.ApplyInsert` applies that row to a `Store`.
- The Python string built-ins the parser uses are modelled in `PyText`:
  - `str.split(" ")`;
  - ASCII `str.lower()`;
  - `int()` in base 10, with the surrounding whitespace it skips, a sign and single underscores between digits.
- `PyText.IntToString` writes integers in the documented command syntax (`/update battery 100 3200000`, chat_logic.py:15-16). The handler itself never formats an integer; the round-trip lemmas use this writer to build commands.

Behaviour worth knowing, all proved:

- The first piece of an admin command is never checked. `/updates battery 100 3200000` inserts a battery, and it is routed to the admin handler because it starts with `/update`.
- A `/update battery 0 <price>` inserts a LiFePO4 row that stores 0 kWh. After that, every call of the calculator fails on the division by zero of the lithium query.
- The reported installation overhead is the lithium option's, not the tubular one's.
- The voltage tier depends only on the inverter requirement, and a zero-energy LiFePO4 or Tubular row makes `calculate_system` raise instead of returning an estimate.
- Average prices count every matching row, so equal prices in the band weigh in as often as they occur.

Files (modules):

- `wrappers.dfy` (`Wrappers`) holds `Option` and `Result`.
- `catalog.dfy` (`Catalog`) holds the two tables and the query functions.
- `calculator.dfy` (`Calculator`) is `calculate_system`.
- `calculator_props.dfy` (`CalculatorProperties`) holds the pricing, threshold and cost lemmas.
- `pytext.dfy` (`PyText`) holds the string built-ins.
- `chat_logic.dfy` (`ChatLogic`) holds `handle_admin_command` and the `/update` dispatch.
- `chat_logic_props.dfy` (`ChatLogicProperties`) holds the parser lemmas and the effect of an update on later estimates.
- `seed_examples.dfy` (`SeedExamples`) evaluates the calculator on the catalog that `init_db.py` seeds.

## Model

| member | source | states |
|---|---|---|
| Calculator.Trunc | calculator.py:73-84 | `int()` on a float: for x ≥ 0 the result is the largest integer ≤ x, and for x < 0 the smallest integer ≥ x (truncation toward zero) |
| Calculator.RoundHalfEven | calculator.py:68-70 | the nearest integer, within 0.5, and the even neighbour on an exact tie |
| Calculator.RoundTo | calculator.py:68-70 | `round(x, n)` is a whole number of units of the n-th decimal, namely x counted in those units and rounded half to even, and so lies within half a unit of x |
| Calculator.VoltageTier | calculator.py:12-17 | the tier is always 12, 24 or 48 |
| Calculator.LithiumBankKwh | calculator.py:55 | the usable 90% of the lithium bank equals the required energy |
| Calculator.TubularBankKwh | calculator.py:59 | the tubular bank holds twice the required energy |
| Calculator.BandAverage | calculator.py:28-33 | the band average is NULL exactly when no inverter of the tier has a wattage in `[req, req + 3000]` |
| Calculator.InverterPrice | calculator.py:28-40 | a non-NULL, non-zero band average is the price; any other price is 0 or the price of a strong-enough inverter of any voltage |
| Calculator.BatteryPricePerKwh | calculator.py:44-49 | the query fails exactly when a row of the chemistry stores 0 kWh; otherwise a chemistry with no rows, or with a zero average, gets the default, and a non-zero average is the price |
| Calculator.CalculateSystem | calculator.py:3-86 | fails exactly when a LiFePO4 or Tubular row stores 0 kWh (the per-kWh division by zero); on success the reported voltage is 12, 24 or 48 |
| CalculatorProperties.TierByLoad | calculator.py:8-17 | with the 1.25 margin the tier is 12 V exactly below 1200 W of load, 24 V exactly for 1200–2799 W, and 48 V exactly from 2800 W |
| CalculatorProperties.TierMonotone | calculator.py:8-17 | a larger load never selects a lower tier |
| CalculatorProperties.SpecsReportSizing | calculator.py:8-20 | the reported voltage is the tier of `watts × 1.25`; `inverter_size_kw` is within 0.05 of `watts × 1.25 / 1000`; `required_backup_kwh` is within 0.005 of `watts × hours / 1000` |
| CalculatorProperties.InverterPriceFromBand | calculator.py:28-40 | when the band holds a row and all the band's prices lie in `[lo, hi]` with lo > 0, the price is the band average and lies in `[lo, hi]` |
| CalculatorProperties.InverterPriceFallback | calculator.py:35-40 | with an empty or zero band average, the price is the price of a strong-enough row of any voltage, and no strong-enough row is cheaper; with no strong-enough row it is 0 |
| CalculatorProperties.BatteryPriceFromTable | calculator.py:44-49 | when the chemistry has rows, all storing energy and with per-kWh prices in `[lo, hi]` with lo > 0, the query succeeds and the price is their average, in `[lo, hi]` |
| CalculatorProperties.TotalCoversEquipment | calculator.py:63-64 | an option's total is `int(1.15 × (inverter + battery))`; it is at least the truncated inverter price plus the truncated battery cost, and at most 1.15 × the equipment cost |
| CalculatorProperties.InverterPriceNonNegative | calculator.py:28-40 | non-negative catalog prices give a non-negative inverter estimate |
| CalculatorProperties.BatteryPriceNonNegative | calculator.py:44-49 | with non-negative prices and positive energies the per-kWh query succeeds and is non-negative |
| CalculatorProperties.AssembleCostIdentities | calculator.py:55-84 | the estimates record in closed form: inverter `int(inv)`, lithium cost `int(energy/0.9 × li)` and total `int(1.15 × (inv + energy/0.9 × li))`, tubular cost `int(2 × energy × la)` and total `int(1.15 × (inv + 2 × energy × la))`, overhead `int(0.15 × (inv + energy/0.9 × li))` |
| CalculatorProperties.EstimateClosedForms | calculator.py:3-86 | for any load, duration and catalog whose three price lookups give inv, li and la, the call succeeds and its estimates are the closed forms above with the energy `watts × hours / 1000` |
| CalculatorProperties.AssembleCoversEquipment | calculator.py:63-84 | with non-negative inputs, each total covers the inverter price plus that option's battery cost, and the reported overhead is between 0 and the lithium total |
| CalculatorProperties.EstimateCoversEquipment | calculator.py:3-86 | for non-negative watts, hours and catalog the call succeeds and each total covers the inverter price plus that option's battery cost |
| CalculatorProperties.EmptyCatalogEstimate | calculator.py:36-49 | with empty tables, 500 W for 4 h gives 0.6 kW at 12 V and 2.0 kWh, a 0 inverter, 1000000 for each bank, totals of 1150000 and an overhead of 150000 |
| Catalog.Mean | calculator.py:29 | SQL AVG is NULL exactly over no rows |
| Catalog.SumBounds | calculator.py:29 | bounds on every value bound a column's sum by n·lo and n·hi |
| Catalog.MeanWithinBounds | calculator.py:29 | the average of a non-empty column lies within any bounds of its values |
| Catalog.BandPrices | calculator.py:28-31 | every price selected is the price of a row of the tier's voltage with a wattage in the band, and every such row's price is selected |
| Catalog.BandRows | calculator.py:30 | the positions of the rows the `WHERE` clause matches, in increasing table order, and all of them |
| Catalog.BandPricesAppend | calculator.py:28-31 | the selection over two tables one after the other is the two selections one after the other |
| Catalog.BandPricesInTableOrder | calculator.py:28-31 | the selected column has one entry per matching row, the k-th being the price of the k-th matching row, so repeated prices are kept |
| Catalog.MinPrice | calculator.py:37-38 | MIN is NULL exactly when no row is strong enough; otherwise it is the price of a strong-enough row and no strong-enough row is cheaper |
| Catalog.PerKwhPrices | calculator.py:44-49 | the query fails exactly when a row of the chemistry stores 0 kWh; otherwise it has at most one value per row and is empty exactly when the chemistry has no rows |
| Catalog.TechRows | calculator.py:44 | the positions of the rows of the chemistry, in increasing table order, and all of them |
| Catalog.PerKwhPricesAppend | calculator.py:44-49 | the per-kWh column over two tables one after the other is the two columns one after the other, and fails when either fails |
| Catalog.PerKwhPricesInTableOrder | calculator.py:44-49 | on success the column has one entry per row of the chemistry, the k-th being `price / energy` of the k-th such row |
| Catalog.PerKwhPricesMembers | calculator.py:44-49 | on success every row of the chemistry contributes its `price / energy`, and every value comes from such a row |
| Catalog.AvgPerKwh | calculator.py:44-48 | AVG(price / energy) fails exactly when a row of the chemistry stores 0 kWh, and is NULL exactly when the chemistry has no rows |
| ChatLogic.QuickBatteryRow | chat_logic.py:26-29 | a battery update is a LiFePO4 row of 51.2 V with the given capacity and price, whose energy × 1000 is 51.2 × size |
| ChatLogic.QuickInverterRow | chat_logic.py:30-32 | an inverter update is a hybrid row of the given wattage at 48 V and the given price |
| ChatLogic.CategoryInsert | chat_logic.py:26-32 | only `battery` and `inverter` insert a row; `battery` inserts the quick battery row and `inverter` the quick inverter row of the given size and price |
| ChatLogic.HandleAdminCommand | chat_logic.py:14-38 | fails exactly when there are fewer than four space-separated pieces or piece 2 or 3 is not an integer; otherwise it inserts the row of the lower-cased piece 1 with those two integers |
| ChatLogic.ReplyText | chat_logic.py:36-38 | the reply is the success text exactly for an update, and starts with the failure prefix exactly for a failure |
| ChatLogic.ApplyInsert | chat_logic.py:26-35 | the tables only grow at their end, by exactly one row for an update that inserts and by none otherwise, and that row is the one inserted |
| ChatLogic.GetAiReply | chat_logic.py:69-72 | a message goes to the admin handler exactly when it starts with `/update`, and is answered with the handler's reply; otherwise it is passed on unchanged |
| ChatLogicProperties.FormatUpdateSplits | chat_logic.py:15-18 | a command written in the documented syntax splits into its four pieces |
| ChatLogicProperties.ParseFormatted | chat_logic.py:15-36 | a command in the documented syntax succeeds: a battery category inserts the 51.2 V LiFePO4 row, an inverter category the 48 V hybrid row, and any other category nothing |
| ChatLogicProperties.CategoryCaseInsensitive | chat_logic.py:18-19 | two commands whose categories agree after lower-casing, and whose later pieces are equal, have the same outcome |
| ChatLogicProperties.FewerThanFourPiecesFail | chat_logic.py:18-21 | fewer than four pieces always fail: with fewer than three by IndexError, and with three by ValueError if the size is not an integer, else by IndexError |
| ChatLogicProperties.NonIntegerFails | chat_logic.py:20-21 | a size or price that `int()` rejects fails with ValueError on the first such token |
| ChatLogicProperties.SeparatorBeforeSizeFails | chat_logic.py:20-21 | a size starting with one of U+001C to U+001F fails with ValueError on that token |
| ChatLogicProperties.ExtraTokensIgnored | chat_logic.py:18-21 | anything after the fourth piece does not change the outcome |
| ChatLogicProperties.CommandWordNotChecked | chat_logic.py:18-21 | the first piece is never read: any space-free command word gives the same outcome as `/update` |
| ChatLogicProperties.SamePiecesSameOutcome | chat_logic.py:18-21 | two messages whose pieces agree from the second on have the same outcome |
| ChatLogicProperties.BatteryCommandExample | chat_logic.py:15-29 | the documented example `/update battery 100 3200000` inserts a 100 Ah LiFePO4 row of 5.12 kWh priced 3200000 |
| ChatLogicProperties.MisspelledCommandWordStillUpdates | chat_logic.py:18-29 | with any space-free word in place of `/update`, such as `/updates`, the example inserts the same battery row |
| ChatLogicProperties.MisspelledCommandWordIsAdmin | chat_logic.py:71-72 | `/updates battery 100 3200000` is routed to the admin handler |
| ChatLogicProperties.FormattedBatteryUpdate | chat_logic.py:26-29 | `/update battery <size> <price>` inserts the quick battery row of that size and price |
| ChatLogicProperties.ZeroSizeBatteryUpdateBreaksEstimates | chat_logic.py:26-29 | after `/update battery 0 <price>` every calculation fails on the lithium division by zero |
| ChatLogicProperties.BatteryUpdateKeepsEstimates | chat_logic.py:26-29 | after a battery update of non-zero size on a catalog with no zero-energy lithium or tubular row, every calculation succeeds |
| ChatLogicProperties.BatteryQueryFailsAppend | calculator.py:44-49 | adding a row that stores energy adds no division by zero |
| PyText.Split | chat_logic.py:18 | `str.split` gives at least one piece, no piece contains the separator, and joining the pieces gives the text back |
| PyText.SplitJoin | chat_logic.py:18 | splitting the join of separator-free pieces gives the pieces back |
| PyText.JoinAppend | chat_logic.py:18 | joining two piece lists with a separator between them concatenates the lists |
| PyText.SplitAppend | chat_logic.py:18 | splitting at an added separator splits each side independently |
| PyText.Lower | chat_logic.py:19 | `str.lower` keeps the length and lower-cases each character independently |
| PyText.LowerIdempotent | chat_logic.py:19 | lower-casing twice is lower-casing once |
| PyText.StripLeading | chat_logic.py:20-21 | keeps a suffix of the text that does not start with whitespace, and everything it removes is whitespace |
| PyText.StripTrailing | chat_logic.py:20-21 | keeps a prefix of the text that does not end with whitespace, and everything it removes is whitespace |
| PyText.Strip | chat_logic.py:20-21 | the result neither starts nor ends with whitespace, and is empty exactly when the text is all whitespace |
| PyText.StripIsSlice | chat_logic.py:20-21 | the stripped text is a slice of the text, and everything before and after that slice is whitespace |
| PyText.StripLeadingPadded | chat_logic.py:20-21 | whitespace put in front of a text is removed by `StripLeading` |
| PyText.StripTrailingPadded | chat_logic.py:20-21 | whitespace put behind a text is removed by `StripTrailing` |
| PyText.StripLeadingThenSpace | chat_logic.py:20-21 | `StripLeading` keeps whitespace put behind a text unless it removes the whole text |
| PyText.StripPadded | chat_logic.py:20-21 | `Strip` ignores any whitespace put around a text |
| PyText.ParseInt | chat_logic.py:20-21 | `int()` rejects text that is all whitespace |
| PyText.ParseStripped | chat_logic.py:20-21 | the sign-and-digits reading rejects the empty text |
| PyText.ParseIntPadded | chat_logic.py:20-21 | `int()` gives the same result with any of `\t\n\v\f\r` and the space put around its argument |
| PyText.NatToString | chat_logic.py:15-16 | the written form of n ≥ 0 in the command syntax is a non-empty string of digits |
| PyText.IntToString | chat_logic.py:15-16 | the written form of n in the command syntax is non-empty, starts with `-` exactly when n < 0, and is digits after the sign |
| PyText.NatToStringValue | chat_logic.py:15-16 | the written digits are well formed and denote n |
| PyText.ParseIntToString | chat_logic.py:20-21 | `int()` reads back every written integer n as n |
| PyText.SeparatorNotSkipped | chat_logic.py:20-21 | `int()` rejects a text starting with one of the separators U+001C to U+001F, which it does not treat as whitespace |
| PyText.IntToStringHasNoSpace | chat_logic.py:18-21 | a written integer contains no whitespace |
| SeedExamples.SeedLithiumPrice | init_db.py:77-78 | the two seed lithium rows give a lithium price of 3243203125/6428 per kWh, the mean of 3000000/5.12 and 6800000/16.07 |
| SeedExamples.SeedTubularPrice | init_db.py:79-80 | the two seed tubular rows give a tubular price of 6968750/9 per kWh |
| SeedExamples.BandAveragedInverter | init_db.py:66-71 | 2000 W uses 24 V, and its inverter is priced at 850000, the average of the two 3000 W 24 V rows |
| SeedExamples.SeedBand24Volt | init_db.py:66-71 | the 24 V seed inverters between 2500 W and 5500 W are priced 750000 and 950000 |
| SeedExamples.RepeatedBandPricesCounted | calculator.py:28-33 | two in-band inverters at 100 and one at 400 average 200: equal prices are all counted |
| SeedExamples.ZeroPricedBandRowAveraged | calculator.py:28-40 | band units priced 0 and 100 give an inverter price of 50: the zero-priced unit is averaged in |
| SeedExamples.ZeroLithiumAverageDefaults | calculator.py:44-45 | a lone lithium row priced 0 makes the average 0, and the lithium price falls back to the 450000 default |
| SeedExamples.FallbackInverter | init_db.py:66-71 | 1000 W uses 12 V, the only 12 V inverter is too weak, and the price falls back to the cheapest strong-enough unit, 750000 |
| SeedExamples.SeedNo12VoltBand | init_db.py:66-71 | no seed inverter is a 12 V unit of 1250–4250 W |
| SeedExamples.SeedCheapestFrom1250W | init_db.py:66-71 | the cheapest seed inverter of at least 1250 W costs 750000 |
| SeedExamples.UnpricedInverter | init_db.py:66-71 | 10000 W uses 48 V and needs 12500 W, which no seed inverter reaches, so the inverter is priced 0 |
| SeedExamples.SeedCosts2000W | calculator.py:55-84 | the cost arithmetic for 10 kWh at the seed prices, with an 850000 inverter |
| SeedExamples.SeedEstimate2000W | calculator.py:3-86 | 2000 W for 5 h on the seed catalog: 2.5 kW, 24 V, 10.0 kWh, inverter 850000, lithium 5606034 (total 7424439), tubular 15486111 (total 18786527), overhead 968405 |

## Left out

- The language-model conversation is not modelled. This covers the client, tool schema, system prompt, tool-call round trip and message history, chat_logic.py:8-11 and 40-111 apart from the `/update` check. These are network calls to a foreign service.
- The webhook and message delivery in `main.py` are HTTP plumbing.
- The connection pool and the chat history in `database.py` are database I/O.
- The table definitions and seeding in `init_db.py` are schema and I/O. The seed rows appear only as the fixture in `SeedExamples`.
- `Calculator.CalculateSystem`, `ChatLogic.HandleAdminCommand`: the catalog is an explicit input. `database.get_db_connection` is a context manager, but both callers call `.cursor()` on its result directly, so in the deployed code this fails before any query. The model does not reproduce that failure.
- `Calculator.CalculateSystem`: `conn.close()` and the connection lifetime are not modelled.
- `Calculator.Trunc`, `Calculator.RoundTo`: the arithmetic is exact. It does not model binary floating point, the float8 division in the database, or the effect of float representation on `round()` at ties.
- `Catalog.BatteryRow`, `Catalog.InverterRow`: columns are never NULL in the model, although the schema allows NULL in all of them (init_db.py:19-38). Not represented: a NULL `energy_kwh` or battery price, which AVG would skip; a NULL inverter price, which AVG and MIN would skip; and a NULL `wattage` or `system_voltage`, which fails every WHERE clause.
- `ChatLogic.HandleAdminCommand`: the database INSERT and commit are abstracted to the row they would add. An INSERT the database itself rejects is not modelled, such as a size or price outside the 32-bit INT range or a value too large for a column.
- `PyText.Lower`: lower-cases ASCII letters only. Python's `str.lower()` also maps non-ASCII letters.
- `PyText.ParseInt`: accepts ASCII digits, and as whitespace only the C-locale set `\t\n\v\f\r` and the space. Python's `int()` also accepts other Unicode decimal digits and non-ASCII Unicode whitespace.
- PyText.ParseInt, PyText.IntToString, PyText.ParseIntToString: newer CPython versions refuse to convert integers of more than 4300 decimal digits with `int()` and `str()` (a ValueError). The model has no such limit, so the round trip is stated for every integer.
- Calculator.RequiredInverterW, Calculator.RequiredEnergyKwh, Calculator.Overhead, Calculator.PricedOption, Calculator.Assemble: these carry no contract of their own. Their meaning is stated by `TierByLoad`, `SpecsReportSizing`, `TotalCoversEquipment`, `AssembleCostIdentities` and `EstimateClosedForms`.
- `ChatLogic.ErrorText`: the ValueError text uses single quotes around the whole token. Python formats the token with `%.200R`: `repr()`, which chooses double quotes for a token containing a single quote and escapes some characters, cut off after 200 characters.
- The `lifespan` strings are carried as constants only; nothing depends on them.
