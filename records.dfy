/**
 * The client's record types and their normalisation: the charger status
 * of a battery reading, the call-log type lookup, and the conversions of
 * raw SMS and call-log entries into records carrying an epoch timestamp.
 * Where the source panics (an `unwrap` of a failed timestamp conversion,
 * the `unreachable!` of an unknown call-log type) the model returns `None`.
 */
module Records {
  import opened Wrappers
  import opened Timestamp

  type U64 = x: int | 0 <= x < 0x1_0000_0000_0000_0000
  type I32 = x: int | -0x8000_0000 <= x < 0x8000_0000
  type I8 = x: int | -0x80 <= x < 0x80

  // ---------------------------------------------------------------------
  // Battery
  // ---------------------------------------------------------------------

  datatype ChargerStatus = Charging | Discharging

  /** A battery reading as the device reports it (its temperature is not modelled). */
  datatype BatteryStatus = BatteryStatus(health: string, percentage: I8, plugged: string, status: string, current: I32)

  function AsciiLower(c: char): char {
    if 'A' <= c <= 'Z' then (c as int + 32) as char else c
  }

  function AsciiUpper(c: char): char {
    if 'a' <= c <= 'z' then (c as int - 32) as char else c
  }

  /** `str::to_lowercase` on the letters that can lower-case into "charging". */
  function LowerCase(s: string): string {
    seq(|s|, i requires 0 <= i < |s| => AsciiLower(s[i]))
  }

  /** s is `word` with each letter in either case; `word` is written in lower case. */
  predicate SpellsIgnoringCase(s: string, word: string) {
    |s| == |word| && forall i | 0 <= i < |s| :: s[i] == word[i] || s[i] == AsciiUpper(word[i])
  }

  /** `BatteryStatus::get_changer_status`. */
  function GetChangerStatus(b: BatteryStatus): (r: ChargerStatus)
    ensures r == Charging <==> SpellsIgnoringCase(b.status, "charging")
  {
    LowerCaseEquals(b.status, "charging");
    if LowerCase(b.status) == "charging" then Charging else Discharging
  }

  lemma LowerCaseEquals(s: string, word: string)
    requires forall i | 0 <= i < |word| :: 'a' <= word[i] <= 'z'
    ensures LowerCase(s) == word <==> SpellsIgnoringCase(s, word)
  {
    if SpellsIgnoringCase(s, word) {
      assert forall i | 0 <= i < |s| :: LowerCase(s)[i] == word[i];
    }
  }

  /** Readings the device reports, classified. */
  lemma ChargerStatusExamples()
    ensures GetChangerStatus(BatteryStatus("GOOD", 80, "PLUGGED_AC", "CHARGING", 0)) == Charging
    ensures GetChangerStatus(BatteryStatus("GOOD", 80, "PLUGGED_AC", "Charging", 0)) == Charging
    ensures GetChangerStatus(BatteryStatus("GOOD", 80, "UNPLUGGED", "DISCHARGING", 0)) == Discharging
    ensures GetChangerStatus(BatteryStatus("GOOD", 80, "PLUGGED_AC", "NOT_CHARGING", 0)) == Discharging
    ensures GetChangerStatus(BatteryStatus("GOOD", 100, "PLUGGED_AC", "FULL", 0)) == Discharging
  {
    assert !SpellsIgnoringCase("DISCHARGING", "charging");
    assert !SpellsIgnoringCase("NOT_CHARGING", "charging");
    assert !SpellsIgnoringCase("FULL", "charging");
  }

  // ---------------------------------------------------------------------
  // Call-log type
  // ---------------------------------------------------------------------

  datatype CallLogType = Incoming | Outgoing | Rejected | Missed

  /** The spelling of each type in the device's call log. */
  function TypeName(t: CallLogType): string {
    match t
    case Incoming => "INCOMING"
    case Outgoing => "OUTGOING"
    case Rejected => "REJECTED"
    case Missed => "MISSED"
  }

  /** `CallLogType::parse_type`; `None` where the source reaches `unreachable!`. */
  function ParseType(s: string): (r: Option<CallLogType>)
    ensures r.Some? ==> TypeName(r.value) == s
    ensures r.None? <==> forall t :: TypeName(t) != s
  {
    if s == "MISSED" then Some(Missed)
    else if s == "REJECTED" then Some(Rejected)
    else if s == "OUTGOING" then Some(Outgoing)
    else if s == "INCOMING" then Some(Incoming)
    else None
  }

  lemma ParseTypeName(t: CallLogType)
    ensures ParseType(TypeName(t)) == Some(t)
  {
  }

  /** The lookup is exact: case and surrounding text matter. */
  lemma ParseTypeIsExact()
    ensures ParseType("missed") == None && ParseType("MISSED ") == None && ParseType("") == None
    ensures ParseType("VOICEMAIL") == None
  {
  }

  // ---------------------------------------------------------------------
  // Short messages
  // ---------------------------------------------------------------------

  /** An SMS as the device lists it; `received` is the date-time text. */
  datatype RawMessage = RawMessage(threadid: U64, messageType: string, read: bool, number: string,
                                   received: string, body: string)

  datatype Message = Message(threadid: U64, read: bool, number: string, timestamp: I64, body: string)

  /** `Message::from(&RawMessage)`; `None` where the source's `unwrap` panics. */
  function MessageFrom(m: RawMessage): (r: Option<Message>)
    ensures r.Some? <==> SpellsDateTime(m.received)
    ensures r.Some? ==> && r.value.threadid == m.threadid && r.value.read == m.read
                        && r.value.number == m.number && r.value.body == m.body
                        && Some(r.value.timestamp) == ConvertStringToTimestamp(m.received)
  {
    ConvertDefinedIff(m.received);
    match ConvertStringToTimestamp(m.received)
    case None => None
    case Some(t) => Some(Message(m.threadid, m.read, m.number, t, m.body))
  }

  /** A message received at a valid date-time is stamped with that date-time's epoch seconds. */
  lemma MessageFromFormatted(m: RawMessage, dt: DateTime)
    requires IsValid(dt) && m.received == Format(dt)
    ensures MessageFrom(m) == Some(Message(m.threadid, m.read, m.number, EpochSeconds(dt), m.body))
  {
    ConvertFormatted(dt);
  }

  // ---------------------------------------------------------------------
  // Call logs
  // ---------------------------------------------------------------------

  /** A call-log entry as the device lists it; `logType` and `date` are text. */
  datatype RawCallLog = RawCallLog(name: string, phoneNumber: string, logType: string, date: string, duration: string)

  datatype CallLog = CallLog(name: string, logType: CallLogType, timestamp: I64, phoneNumber: string, duration: string)

  /** `CallLog::from(&RawCallLog)`; `None` where the source panics on the type or the date. */
  function CallLogFrom(l: RawCallLog): (r: Option<CallLog>)
    ensures r.Some? <==> (exists t :: TypeName(t) == l.logType) && SpellsDateTime(l.date)
    ensures r.Some? ==> && r.value.name == l.name && r.value.phoneNumber == l.phoneNumber
                        && r.value.duration == l.duration && TypeName(r.value.logType) == l.logType
                        && Some(r.value.timestamp) == ConvertStringToTimestamp(l.date)
  {
    ConvertDefinedIff(l.date);
    match (ParseType(l.logType), ConvertStringToTimestamp(l.date))
    case (Some(t), Some(ts)) => Some(CallLog(l.name, t, ts, l.phoneNumber, l.duration))
    case _ => None
  }

  /** An entry of the source's sample call log, normalised. */
  lemma CallLogFromSample()
    ensures CallLogFrom(RawCallLog("", "911", "MISSED", "2021-07-24 19:49:25", "00:35"))
         == Some(CallLog("", Missed, 1627156165, "911", "00:35"))
  {
    ConvertSampleDate();
  }
}
