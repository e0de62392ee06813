/**
  The admin price-update command (`/update <category> <size> <price>`) and
  the prefix test that sends such a message to it instead of the assistant. The
  database INSERT is abstracted to the row the command would insert.
 */
module ChatLogic {
  import opened Wrappers
  import opened Catalog
  import opened PyText

  const UPDATE_PREFIX: string := "/update"
  const SUCCESS_REPLY: string := ['✅'] + " Admin Update: Database updated successfully."
  const FAILURE_PREFIX: string := ['❌'] + " Update Failed: "

  /** The exception the parser raises, caught and reported as a failure. */
  datatype CommandError =
    | IndexOutOfRange               // IndexError: fewer pieces than the index read
    | InvalidLiteral(token: string) // ValueError from int(token)

  /** The row a successful command inserts. */
  datatype CatalogInsert = AddBattery(battery: BatteryRow) | AddInverter(inverter: InverterRow)

  /** What handle_admin_command does: insert at most one row, or fail. */
  datatype AdminOutcome =
    | Updated(insert: Option<CatalogInsert>)
    | UpdateFailed(error: CommandError)

  /** A quick battery update is taken to be a 51.2 V LiFePO4 pack of `size` Ah. */
  function QuickBatteryRow(size: int, price: int): (r: BatteryRow)
    ensures r.techType == "LiFePO4" && r.voltage == 51.2 && r.capacityAh == size && r.price == price
    ensures r.energyKwh * 1000.0 == 51.2 * size as real
  {
    BatteryRow("LiFePO4", 51.2, size, (51.2 * size as real) / 1000.0, price, "Premium")
  }

  /** A quick inverter update is taken to be a 48 V hybrid of `size` W. */
  function QuickInverterRow(size: int, price: int): (r: InverterRow)
    ensures r.techType == "Hybrid" && r.wattage == size && r.systemVoltage == 48 && r.price == price
  {
    InverterRow("Hybrid", size, 48, price, "Standard")
  }

  /** The row for a lower-cased category; any other category inserts nothing. */
  function CategoryInsert(category: string, size: int, price: int): (r: Option<CatalogInsert>)
    ensures r.None? <==> category != "battery" && category != "inverter"
    ensures r.Some? && r.value.AddBattery? ==> category == "battery" && r.value.battery == QuickBatteryRow(size, price)
    ensures r.Some? && r.value.AddInverter? ==> category == "inverter" && r.value.inverter == QuickInverterRow(size, price)
  {
    if category == "battery" then Some(AddBattery(QuickBatteryRow(size, price)))
    else if category == "inverter" then Some(AddInverter(QuickInverterRow(size, price)))
    else None
  }

  /**
    handle_admin_command: split on single spaces, read piece 1 as the
    category (lower-cased), pieces 2 and 3 as integers, in that order, and
    turn the first IndexError or ValueError into a failure.
   */
  function HandleAdminCommand(text: string): (o: AdminOutcome)
    ensures var parts := Split(text, ' ');
      o.UpdateFailed? <==> |parts| < 4 || ParseInt(parts[2]).None? || ParseInt(parts[3]).None?
    ensures var parts := Split(text, ' ');
      o.Updated? ==> o.insert == CategoryInsert(Lower(parts[1]), ParseInt(parts[2]).value, ParseInt(parts[3]).value)
  {
    var parts := Split(text, ' ');
    if |parts| < 2 then UpdateFailed(IndexOutOfRange)
    else
      var category := Lower(parts[1]);
      if |parts| < 3 then UpdateFailed(IndexOutOfRange)
      else match ParseInt(parts[2])
        case None => UpdateFailed(InvalidLiteral(parts[2]))
        case Some(size) =>
          if |parts| < 4 then UpdateFailed(IndexOutOfRange)
          else match ParseInt(parts[3])
            case None => UpdateFailed(InvalidLiteral(parts[3]))
            case Some(price) => Updated(CategoryInsert(category, size, price))
  }

  /** str(e) of the caught exception. */
  function ErrorText(e: CommandError): string
  {
    match e
    case IndexOutOfRange => "list index out of range"
    case InvalidLiteral(token) => "invalid literal for int() with base 10: '" + token + "'"
  }

  /** The reply the admin sees. */
  function ReplyText(o: AdminOutcome): (t: string)
    ensures o.Updated? <==> t == SUCCESS_REPLY
    ensures o.UpdateFailed? <==> FAILURE_PREFIX <= t
  {
    assert FAILURE_PREFIX[0] == '❌' && SUCCESS_REPLY[0] == '✅';
    match o
    case Updated(_) =>
      assert !(FAILURE_PREFIX <= SUCCESS_REPLY) by {
        assert FAILURE_PREFIX[0] != SUCCESS_REPLY[0];
      }
      SUCCESS_REPLY
    case UpdateFailed(e) =>
      var t := FAILURE_PREFIX + ErrorText(e);
      assert t[0] == FAILURE_PREFIX[0];
      t
  }

  /**
    The table state after the command's INSERT is committed: the tables only
    grow at their end, by exactly the inserted row, and a failed or
    unrecognised command leaves them as they were.
   */
  function ApplyInsert(store: Store, o: AdminOutcome): (r: Store)
    ensures store.inverters <= r.inverters && store.batteries <= r.batteries
    ensures |r.inverters| + |r.batteries| == |store.inverters| + |store.batteries| + (if o.Updated? && o.insert.Some? then 1 else 0)
    ensures o.Updated? && o.insert.Some? && o.insert.value.AddBattery? ==> r.batteries == store.batteries + [o.insert.value.battery]
    ensures o.Updated? && o.insert.Some? && o.insert.value.AddInverter? ==> r.inverters == store.inverters + [o.insert.value.inverter]
  {
    match o
    case Updated(Some(AddBattery(row))) => Store(store.inverters, store.batteries + [row])
    case Updated(Some(AddInverter(row))) => Store(store.inverters + [row], store.batteries)
    case _ => store
  }

  /** Where get_ai_reply sends a message. */
  datatype Reply =
    | AdminReply(text: string)      // answered by the admin command handler
    | AssistantReply(message: string) // passed on to the language model

  /** The first step of get_ai_reply: a message starting with /update is an admin command. */
  function GetAiReply(message: string): (r: Reply)
    ensures r.AdminReply? <==> |message| >= 7 && message[..7] == "/update"
    ensures r.AdminReply? ==> r.text == ReplyText(HandleAdminCommand(message))
    ensures r.AssistantReply? ==> r.message == message
  {
    if UPDATE_PREFIX <= message then AdminReply(ReplyText(HandleAdminCommand(message)))
    else AssistantReply(message)
  }
}
