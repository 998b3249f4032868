/**
 * One iteration of the client's poll loop and its first-run bootstrap, as
 * functions of the state before and of what every fetch and statement
 * returned. Module Client runs the same steps imperatively and is proved
 * against these functions.
 *
 * A fetch is an input (a value or an error), so is the I/O outcome of each
 * statement the loop runs. Items the client uses but does not define here
 * (the event identifier, the text form of a battery reading and of a SIM
 * state) are the fields of an `Env`.
 */
module Poll {
  import opened Wrappers
  import opened Records
  import opened Sql
  import Current = SchemaV1
  import Database

  type Identifier = string

  /** What a device query returned; `permissionDenied` marks an output that held "Error". */
  datatype Fetch<T> = Fetched(value: T) | FetchFailed(permissionDenied: bool)

  /** A message on the dispatch channel or on the loop's control channel. */
  datatype InnerCommand = Notify(text: string) | Terminate

  datatype SimState = Ready | Locked | NotInserted | Unknown

  /**
   * The parts of the client the model leaves abstract: the event
   * identifier, the text of a battery reading and of a SIM state, and the
   * battery snapshot's construction (`to_current_status`), comparison with
   * a reading (`not_equal`) and update (`update_charge_status`).
   */
  datatype Env = Env(
    messageId: Message -> Identifier,
    callLogId: CallLog -> Identifier,
    batteryText: BatteryStatus -> string,
    simText: SimState -> string,
    toSnapshot: BatteryStatus -> Snapshot,
    diff: (Snapshot, BatteryStatus) -> StatusDiff,
    update: (Snapshot, BatteryStatus) -> Snapshot)

  // ---------------------------------------------------------------------
  // State
  // ---------------------------------------------------------------------

  /** The last battery reading the loop acted on. */
  datatype Snapshot = Snapshot(charger: ChargerStatus, level: I8)

  /** The store, the two in-memory snapshots and what has been put on the dispatch channel. */
  datatype State = State(db: Db, battery: Snapshot, sim: SimState, outbox: seq<InnerCommand>)

  /** How an iteration ends: go on, leave on `Terminate`, return an error, or panic. */
  datatype Outcome = Continue | Terminated | Failed(permissionDenied: bool) | Panicked

  datatype Step = Step(state: State, outcome: Outcome)

  /** A fetched record with the I/O outcome of the SELECT and the INSERT run for it (false: an I/O error). */
  datatype Polled<T> = Polled(record: T, selectIo: bool, insertIo: bool)

  /** What one iteration reads: the four fetches and what the control channel holds, if anything. */
  datatype Sample = Sample(
    battery: Fetch<BatteryStatus>,
    device: Fetch<SimState>,
    sms: Fetch<seq<Polled<Message>>>,
    calls: Fetch<seq<Polled<CallLog>>>,
    control: Option<InnerCommand>)

  /** The dedup table `name` exists with the version 1 shape. */
  predicate DedupReady(db: Db, name: string) {
    name in db && db[name].def == Current.DedupTable(name)
  }

  /** `id` has a row in table `name`. */
  predicate Recorded(db: Db, name: string, id: Identifier) {
    name in db && Text(id) in db[name].rows
  }

  // ---------------------------------------------------------------------
  // Battery and SIM
  // ---------------------------------------------------------------------

  /** The three-way result of comparing the snapshot with a new reading. */
  datatype StatusDiff = ChargeStatus | Battery | Equal

  /** A reading as (charger status, level). */
  function ReadingSnapshot(b: BatteryStatus): Snapshot {
    Snapshot(GetChangerStatus(b), b.percentage)
  }

  /** A comparison in which a charger change wins over a level change. */
  function ChargerFirstDiff(last: Snapshot, b: BatteryStatus): (d: StatusDiff)
    ensures d == Equal <==> last == ReadingSnapshot(b)
    ensures d == ChargeStatus <==> last.charger != GetChangerStatus(b)
    ensures d == Battery <==> last.charger == GetChangerStatus(b) && last.level != b.percentage
  {
    if last.charger != GetChangerStatus(b) then ChargeStatus
    else if last.level != b.percentage then Battery
    else Equal
  }

  /**
   * An assumed battery policy: the snapshot is (charger status, level), the
   * comparison puts a charger change first, and an update replaces the
   * snapshot with the reading. Lemmas that rely on it say so.
   */
  ghost predicate ChargerFirstPolicy(env: Env) {
    && (forall b :: env.toSnapshot(b) == ReadingSnapshot(b))
    && (forall last, b :: env.diff(last, b) == ChargerFirstDiff(last, b))
    && (forall last, b :: env.update(last, b) == ReadingSnapshot(b))
  }

  /** The text of the level-15 notification, chosen by the charger status as the client does. */
  function LowBatteryText(c: ChargerStatus): string {
    match c
    case Charging => "Battery is low."
    case Discharging => "Battery has been charged to a safe level."
  }

  function BatteryStep(env: Env, st: State, b: BatteryStatus): Step {
    match env.diff(st.battery, b)
    case ChargeStatus =>
      Step(st.(outbox := st.outbox + [Notify("[System Information]" + env.batteryText(b))],
               battery := env.update(st.battery, b)), Continue)
    case Battery =>
      var outbox :=
        if b.percentage == 15
        then st.outbox + [Notify("[System Information]\n" + LowBatteryText(GetChangerStatus(b)))]
        else st.outbox;
      Step(st.(outbox := outbox, battery := env.update(st.battery, b)), Continue)
    case Equal => Step(st, Panicked)
  }

  function SimStep(env: Env, st: State, s: SimState): State {
    if s != st.sim then st.(outbox := st.outbox + [Notify("[System information]Sim card " + env.simText(s))], sim := s)
    else st
  }

  // ---------------------------------------------------------------------
  // SMS and missed calls
  // ---------------------------------------------------------------------

  /** The dedup SELECT: `Some(found)`, or `None` on an error (a missing table or an I/O error). */
  function Select(db: Db, name: string, id: Identifier, io: bool): Option<bool> {
    if io then Lookup(db, name, Text(id)) else None
  }

  /** A statement whose error is only logged: the store after it. */
  function ExecLogged(db: Db, st: Statement, io: bool): Db {
    if !io then db
    else match Exec(db, st)
      case None => db
      case Some(db') => db'
  }

  function SmsText(m: Message): string {
    "[Receive SMS]\nFrom: " + m.number + "\nContent: " + m.body
  }

  function MissedCallText(c: CallLog): string {
    "[Missed Call]\nCall from: " + c.phoneNumber
  }

  /** The INSERT the loop runs for a new SMS: identifier and timestamp bound. */
  function SmsInsert(id: Identifier, m: Message): Statement {
    InsertInto("messages", [Text(id), Integer(m.timestamp)])
  }

  /** The INSERT the loop runs for a new missed call: nothing is bound, so both parameters are NULL. */
  const CallLogInsert: Statement := InsertInto("call_logs", [Null, Null])

  function SmsStep(env: Env, st: State, p: Polled<Message>): State {
    var id := env.messageId(p.record);
    if Select(st.db, "messages", id, p.selectIo) == Some(false) then
      var notified := st.outbox + [Notify(SmsText(p.record))];
      st.(outbox := notified, db := ExecLogged(st.db, SmsInsert(id, p.record), p.insertIo))
    else st
  }

  function SmsBatch(env: Env, st: State, ps: seq<Polled<Message>>): State
    decreases |ps|
  {
    if ps == [] then st else SmsStep(env, SmsBatch(env, st, ps[..|ps| - 1]), ps[|ps| - 1])
  }

  function CallStep(env: Env, st: State, p: Polled<CallLog>): State {
    if p.record.logType != Missed then st
    else
      var id := env.callLogId(p.record);
      if Select(st.db, "call_logs", id, p.selectIo) == Some(false) then
        var notified := st.outbox + [Notify(MissedCallText(p.record))];
        st.(outbox := notified, db := ExecLogged(st.db, CallLogInsert, p.insertIo))
      else st
  }

  function CallBatch(env: Env, st: State, ps: seq<Polled<CallLog>>): State
    decreases |ps|
  {
    if ps == [] then st else CallStep(env, CallBatch(env, st, ps[..|ps| - 1]), ps[|ps| - 1])
  }

  // ---------------------------------------------------------------------
  // The iteration and the loop
  // ---------------------------------------------------------------------

  /** The poll for `Terminate`: nothing (a timeout or a closed channel) lets the loop go on. */
  function ControlOutcome(c: Option<InnerCommand>): Outcome {
    match c
    case None => Continue
    case Some(Terminate) => Terminated
    case Some(Notify(_)) => Panicked
  }

  function Iteration(env: Env, st: State, s: Sample): Step {
    match s.battery
    case FetchFailed(denied) => Step(st, Failed(denied))
    case Fetched(b) =>
      var afterBattery := BatteryStep(env, st, b);
      if afterBattery.outcome != Continue then afterBattery
      else match s.device
        case FetchFailed(denied) => Step(afterBattery.state, Failed(denied))
        case Fetched(sim) =>
          var afterSim := SimStep(env, afterBattery.state, sim);
          var afterSms := if s.sms.Fetched? then SmsBatch(env, afterSim, s.sms.value) else afterSim;
          var afterCalls := if s.calls.Fetched? then CallBatch(env, afterSms, s.calls.value) else afterSms;
          Step(afterCalls, ControlOutcome(s.control))
  }

  /** Iterations in order until one does not end in `Continue` or the samples run out. */
  function Run(env: Env, st: State, samples: seq<Sample>): Step
    decreases |samples|
  {
    if samples == [] then Step(st, Continue)
    else
      var first := Iteration(env, st, samples[0]);
      if first.outcome == Continue then Run(env, first.state, samples[1..]) else first
  }

  /** The loop's entry: both snapshots are read, and either fetch failing is an error. */
  datatype Launch = Launched(battery: Snapshot, sim: SimState) | LaunchFailed(permissionDenied: bool)

  function Start(env: Env, battery: Fetch<BatteryStatus>, device: Fetch<SimState>): Launch {
    match (battery, device)
    case (FetchFailed(denied), _) => LaunchFailed(denied)
    case (Fetched(b), FetchFailed(denied)) => LaunchFailed(denied)
    case (Fetched(b), Fetched(sim)) => Launched(env.toSnapshot(b), sim)
  }

  // ---------------------------------------------------------------------
  // First-run bootstrap
  // ---------------------------------------------------------------------

  /** The store after bootstrap and whether `async_main` goes on (false: it returns an error). */
  datatype Boot = Boot(db: Db, ok: bool)

  /** The INSERT text the bootstrap runs for each backlog record has no VALUES clause. */
  const BacklogInsert: Statement := Unparsable

  function BackfillCalls(db: Db, cs: seq<CallLog>): Boot
    decreases |cs|
  {
    if cs == [] then Boot(db, true)
    else if cs[0].logType != Missed then BackfillCalls(db, cs[1..])
    else match Exec(db, BacklogInsert)
      case None => Boot(db, false)
      case Some(db') => BackfillCalls(db', cs[1..])
  }

  function BackfillMessages(db: Db, ms: seq<Message>): Boot
    decreases |ms|
  {
    if ms == [] then Boot(db, true)
    else match Exec(db, BacklogInsert)
      case None => Boot(db, false)
      case Some(db') => BackfillMessages(db', ms[1..])
  }

  /**
   * The first-run part of `async_main`: `masterIo` is the outcome of the
   * query for the meta table, `createIo` that of running the CREATE set.
   */
  function Bootstrap(db: Db, masterIo: bool, callLogs: Fetch<seq<CallLog>>, messages: Fetch<seq<Message>>,
                     createIo: bool): Boot
  {
    if !masterIo then Boot(db, false)
    else if Current.MetaTable in db then Boot(db, true)
    else if callLogs.FetchFailed? || messages.FetchFailed? then Boot(db, false)
    else
      var created := if createIo then ExecAll(db, Current.CreateStatements) else None;
      if created.None? then Boot(db, false)
      else
        var afterCalls := BackfillCalls(created.value, callLogs.value);
        if !afterCalls.ok then afterCalls else BackfillMessages(afterCalls.db, messages.value)
  }

  // =====================================================================
  // Properties
  // =====================================================================

  // ----- battery -----

  /** A charger-status difference sends one notification carrying the reading, and the snapshot is updated. */
  lemma ChargeChangeNotifies(env: Env, st: State, b: BatteryStatus)
    requires env.diff(st.battery, b) == ChargeStatus
    ensures BatteryStep(env, st, b)
         == Step(st.(outbox := st.outbox + [Notify("[System Information]" + env.batteryText(b))],
                     battery := env.update(st.battery, b)), Continue)
  {
  }

  /** A level difference notifies exactly when the new level is 15, and the snapshot is updated. */
  lemma LevelChangeNotifiesAt15(env: Env, st: State, b: BatteryStatus)
    requires env.diff(st.battery, b) == Battery
    ensures BatteryStep(env, st, b).outcome == Continue
    ensures BatteryStep(env, st, b).state.battery == env.update(st.battery, b)
    ensures BatteryStep(env, st, b).state.outbox
         == if b.percentage == 15
            then st.outbox + [Notify("[System Information]\n" + LowBatteryText(GetChangerStatus(b)))]
            else st.outbox
    ensures BatteryStep(env, st, b).state.db == st.db && BatteryStep(env, st, b).state.sim == st.sim
  {
  }

  /** The policy can be met: any `Env` with the charger-first functions put in meets it. */
  lemma ChargerFirstPolicyIsSatisfiable(env: Env)
    ensures ChargerFirstPolicy(env.(toSnapshot := ReadingSnapshot, diff := ChargerFirstDiff,
                                    update := (last: Snapshot, b: BatteryStatus) => ReadingSnapshot(b)))
  {
  }

  /** As written, reaching 15% while charging reports a low battery, and while discharging a safe level. */
  lemma LowBatteryTextAsWritten()
    ensures LowBatteryText(Charging) == "Battery is low."
    ensures LowBatteryText(Discharging) == "Battery has been charged to a safe level."
  {
  }

  /** A comparison reporting no difference reaches the `todo!()` of the client: the iteration panics. */
  lemma UnchangedBatteryPanics(env: Env, st: State, b: BatteryStatus)
    requires env.diff(st.battery, b) == Equal
    ensures BatteryStep(env, st, b) == Step(st, Panicked)
  {
  }

  /**
   * Under the charger-first policy: a charger change notifies, a level-only
   * change notifies at 15, an unchanged reading panics, and the snapshot
   * becomes the reading.
   */
  lemma ChargerFirstCases(env: Env, st: State, b: BatteryStatus)
    requires ChargerFirstPolicy(env)
    ensures st.battery.charger != GetChangerStatus(b) ==>
      BatteryStep(env, st, b)
      == Step(st.(outbox := st.outbox + [Notify("[System Information]" + env.batteryText(b))],
                  battery := ReadingSnapshot(b)), Continue)
    ensures st.battery.charger == GetChangerStatus(b) && st.battery.level != b.percentage ==>
      BatteryStep(env, st, b)
      == Step(st.(outbox :=
                    if b.percentage == 15
                    then st.outbox + [Notify("[System Information]\n" + LowBatteryText(GetChangerStatus(b)))]
                    else st.outbox,
                  battery := ReadingSnapshot(b)), Continue)
    ensures st.battery == ReadingSnapshot(b) ==> BatteryStep(env, st, b) == Step(st, Panicked)
  {
    assert env.diff(st.battery, b) == ChargerFirstDiff(st.battery, b);
    assert env.update(st.battery, b) == ReadingSnapshot(b);
  }

  /** Under the charger-first policy, charger and level both changing give one notification, for the charger. */
  lemma TieBreakExample(env: Env, st: State, b: BatteryStatus)
    requires ChargerFirstPolicy(env)
    requires st.battery == Snapshot(Discharging, 20)
    requires b.percentage == 15 && b.status == "CHARGING"
    ensures BatteryStep(env, st, b).state.outbox == st.outbox + [Notify("[System Information]" + env.batteryText(b))]
    ensures BatteryStep(env, st, b).state.battery == Snapshot(Charging, 15)
  {
    assert SpellsIgnoringCase(b.status, "charging");
    ChargerFirstCases(env, st, b);
  }

  /**
   * Under the charger-first policy, the same battery reading on two polls in
   * a row makes the second one panic: every poll must see a changed battery.
   */
  lemma RepeatedReadingPanics(env: Env, st: State, s: Sample)
    requires ChargerFirstPolicy(env)
    requires Iteration(env, st, s).outcome == Continue
    ensures Run(env, st, [s, s]).outcome == Panicked
  {
    var b := s.battery.value;
    ChargerFirstCases(env, st, b);
    var mid := Iteration(env, st, s).state;
    assert BatteryStep(env, st, b).state.battery == ReadingSnapshot(b);
    IterationAppends(env, st, s);
    ChargerFirstCases(env, mid, b);
    assert [s, s][1..] == [s];
  }

  // ----- SIM -----

  /** A SIM state different from the snapshot sends one notification and becomes the snapshot; an equal one does nothing. */
  lemma SimChangeNotifies(env: Env, st: State, s: SimState)
    ensures s != st.sim ==>
      SimStep(env, st, s) == st.(outbox := st.outbox + [Notify("[System information]Sim card " + env.simText(s))], sim := s)
    ensures s == st.sim ==> SimStep(env, st, s) == st
  {
  }

  // ----- SMS -----

  /** A new SMS gives exactly one notification whatever the INSERT does; the row is added only if the INSERT succeeds. */
  lemma NewSmsNotifiesOnce(env: Env, st: State, p: Polled<Message>)
    requires DedupReady(st.db, "messages") && p.selectIo
    requires !Recorded(st.db, "messages", env.messageId(p.record))
    ensures var id := env.messageId(p.record);
      && SmsStep(env, st, p).outbox == st.outbox + [Notify(SmsText(p.record))]
      && SmsStep(env, st, p).battery == st.battery && SmsStep(env, st, p).sim == st.sim
      && SmsStep(env, st, p).db
         == if p.insertIo
            then st.db["messages" := st.db["messages"].(rows :=
                   st.db["messages"].rows[Text(id) := [Text(id), Integer(p.record.timestamp)]])]
            else st.db
  {
    Database.DedupInsertRecords(st.db, "messages", env.messageId(p.record), p.record.timestamp);
  }

  /** An SMS already recorded, or whose SELECT fails, changes nothing: no notification, no INSERT. */
  lemma KnownSmsIgnored(env: Env, st: State, p: Polled<Message>)
    requires Recorded(st.db, "messages", env.messageId(p.record)) || !p.selectIo
    ensures SmsStep(env, st, p) == st
  {
  }

  /** The identifiers of a list of fetched messages. */
  function MessageIds(env: Env, ps: seq<Polled<Message>>): seq<Identifier> {
    seq(|ps|, i requires 0 <= i < |ps| => env.messageId(ps[i].record))
  }

  /** The notifications a list of new messages gives, in list order. */
  function SmsNotices(ps: seq<Polled<Message>>): seq<InnerCommand>
    decreases |ps|
  {
    if ps == [] then [] else SmsNotices(ps[..|ps| - 1]) + [Notify(SmsText(ps[|ps| - 1].record))]
  }

  predicate AllIoOk<T>(ps: seq<Polled<T>>) {
    forall i | 0 <= i < |ps| :: ps[i].selectIo && ps[i].insertIo
  }

  /** A batch whose messages are all recorded changes nothing. */
  lemma {:induction false} SmsBatchSkipsRecorded(env: Env, st: State, ps: seq<Polled<Message>>)
    requires forall i | 0 <= i < |ps| :: Recorded(st.db, "messages", env.messageId(ps[i].record))
    ensures SmsBatch(env, st, ps) == st
    decreases |ps|
  {
    if ps != [] {
      SmsBatchSkipsRecorded(env, st, ps[..|ps| - 1]);
      KnownSmsIgnored(env, st, ps[|ps| - 1]);
    }
  }

  /**
   * With every statement succeeding, a batch keeps the old rows, records the
   * identifier of every message in it, and adds no other.
   */
  lemma {:induction false} SmsBatchRecords(env: Env, st: State, ps: seq<Polled<Message>>)
    requires DedupReady(st.db, "messages") && AllIoOk(ps)
    ensures DedupReady(SmsBatch(env, st, ps).db, "messages")
    ensures forall id :: Recorded(SmsBatch(env, st, ps).db, "messages", id)
                     <==> Recorded(st.db, "messages", id) || id in MessageIds(env, ps)
    decreases |ps|
  {
    if ps != [] {
      var init, last := ps[..|ps| - 1], ps[|ps| - 1];
      SmsBatchRecords(env, st, init);
      var mid := SmsBatch(env, st, init);
      assert MessageIds(env, ps) == MessageIds(env, init) + [env.messageId(last.record)];
      if Recorded(mid.db, "messages", env.messageId(last.record)) {
        KnownSmsIgnored(env, mid, last);
      } else {
        NewSmsNotifiesOnce(env, mid, last);
      }
    }
  }

  /** Idempotence: once a batch has gone through, the same messages again give no notification and no row. */
  lemma SmsBatchIdempotent(env: Env, st: State, ps: seq<Polled<Message>>, qs: seq<Polled<Message>>)
    requires DedupReady(st.db, "messages") && AllIoOk(ps)
    requires forall j | 0 <= j < |qs| :: env.messageId(qs[j].record) in MessageIds(env, ps)
    ensures SmsBatch(env, SmsBatch(env, st, ps), qs) == SmsBatch(env, st, ps)
  {
    SmsBatchRecords(env, st, ps);
    SmsBatchSkipsRecorded(env, SmsBatch(env, st, ps), qs);
  }

  /**
   * A batch of distinct new messages, every statement succeeding, puts one
   * notification per message on the channel in list order.
   */
  lemma {:induction false} SmsBatchNotifiesInOrder(env: Env, st: State, ps: seq<Polled<Message>>)
    requires DedupReady(st.db, "messages") && AllIoOk(ps)
    requires forall i, j | 0 <= i < j < |ps| :: env.messageId(ps[i].record) != env.messageId(ps[j].record)
    requires forall i | 0 <= i < |ps| :: !Recorded(st.db, "messages", env.messageId(ps[i].record))
    ensures SmsBatch(env, st, ps).outbox == st.outbox + SmsNotices(ps)
    decreases |ps|
  {
    if ps != [] {
      var init, last := ps[..|ps| - 1], ps[|ps| - 1];
      SmsBatchNotifiesInOrder(env, st, init);
      SmsBatchRecords(env, st, init);
      var mid := SmsBatch(env, st, init);
      assert env.messageId(last.record) !in MessageIds(env, init);
      NewSmsNotifiesOnce(env, mid, last);
    }
  }

  /**
   * The messages of a list that a poll notifies: those whose identifier is
   * neither recorded in `db` nor that of an earlier message of the list.
   */
  function NewIn(env: Env, db: Db, ps: seq<Polled<Message>>): seq<Polled<Message>>
    decreases |ps|
  {
    if ps == [] then []
    else
      var init, last := ps[..|ps| - 1], ps[|ps| - 1];
      var id := env.messageId(last.record);
      if Recorded(db, "messages", id) || id in MessageIds(env, init) then NewIn(env, db, init)
      else NewIn(env, db, init) + [last]
  }

  /**
   * Any batch, every statement succeeding, notifies exactly the messages new
   * to it, once each and in list order: those recorded before and repeats
   * within the list give nothing.
   */
  lemma {:induction false} SmsBatchOutbox(env: Env, st: State, ps: seq<Polled<Message>>)
    requires DedupReady(st.db, "messages") && AllIoOk(ps)
    ensures SmsBatch(env, st, ps).outbox == st.outbox + SmsNotices(NewIn(env, st.db, ps))
    decreases |ps|
  {
    if ps != [] {
      var init, last := ps[..|ps| - 1], ps[|ps| - 1];
      assert AllIoOk(init);
      SmsBatchOutbox(env, st, init);
      SmsBatchRecords(env, st, init);
      var mid := SmsBatch(env, st, init);
      if Recorded(mid.db, "messages", env.messageId(last.record)) {
        KnownSmsIgnored(env, mid, last);
      } else {
        NewSmsNotifiesOnce(env, mid, last);
        var n := NewIn(env, st.db, ps);
        assert n[..|n| - 1] == NewIn(env, st.db, init);
      }
    }
  }

  // ----- missed calls -----

  /** A call of any other type than MISSED is not looked up, notified or inserted. */
  lemma OtherCallIgnored(env: Env, st: State, p: Polled<CallLog>)
    requires p.record.logType != Missed
    ensures CallStep(env, st, p) == st
  {
  }

  /** The MISSED entries of a call list, in order. */
  function MissedOnly(ps: seq<Polled<CallLog>>): (r: seq<Polled<CallLog>>)
    decreases |ps|
  {
    if ps == [] then []
    else if ps[|ps| - 1].record.logType == Missed then MissedOnly(ps[..|ps| - 1]) + [ps[|ps| - 1]]
    else MissedOnly(ps[..|ps| - 1])
  }

  /** Filter before dedup: a call list has the effect of its MISSED entries alone. */
  lemma {:induction false} CallBatchFilters(env: Env, st: State, ps: seq<Polled<CallLog>>)
    ensures CallBatch(env, st, ps) == CallBatch(env, st, MissedOnly(ps))
    decreases |ps|
  {
    if ps != [] {
      var init, last := ps[..|ps| - 1], ps[|ps| - 1];
      CallBatchFilters(env, st, init);
      if last.record.logType == Missed {
        var m := MissedOnly(init) + [last];
        assert m[..|m| - 1] == MissedOnly(init);
      }
    }
  }

  /** As written, the call-log INSERT binds nothing and never records a row: the loop leaves call_logs as it was. */
  lemma {:induction false} CallBatchKeepsStore(env: Env, st: State, ps: seq<Polled<CallLog>>)
    requires DedupReady(st.db, "call_logs")
    ensures CallBatch(env, st, ps).db == st.db
    decreases |ps|
  {
    if ps != [] {
      CallBatchKeepsStore(env, st, ps[..|ps| - 1]);
      Database.DedupInsertOfUnboundFails(st.db, "call_logs");
    }
  }

  function MissedNotices(ps: seq<Polled<CallLog>>): seq<InnerCommand>
    decreases |ps|
  {
    if ps == [] then []
    else if ps[|ps| - 1].record.logType == Missed
    then MissedNotices(ps[..|ps| - 1]) + [Notify(MissedCallText(ps[|ps| - 1].record))]
    else MissedNotices(ps[..|ps| - 1])
  }

  /**
   * As written, every MISSED entry not recorded before the loop started is
   * notified, each time it is fetched, in list order.
   */
  lemma {:induction false} CallBatchNotifiesEveryMissed(env: Env, st: State, ps: seq<Polled<CallLog>>)
    requires DedupReady(st.db, "call_logs")
    requires forall i | 0 <= i < |ps| :: ps[i].record.logType == Missed ==>
      ps[i].selectIo && !Recorded(st.db, "call_logs", env.callLogId(ps[i].record))
    ensures CallBatch(env, st, ps).outbox == st.outbox + MissedNotices(ps)
    decreases |ps|
  {
    if ps != [] {
      var init := ps[..|ps| - 1];
      CallBatchNotifiesEveryMissed(env, st, init);
      CallBatchKeepsStore(env, st, init);
    }
  }

  /** The MISSED entries of a call list whose SELECT succeeds and whose identifier is not recorded in `db`. */
  function UnrecordedMissed(env: Env, db: Db, ps: seq<Polled<CallLog>>): seq<Polled<CallLog>>
    decreases |ps|
  {
    if ps == [] then []
    else
      var init, last := ps[..|ps| - 1], ps[|ps| - 1];
      if last.record.logType == Missed && last.selectIo && !Recorded(db, "call_logs", env.callLogId(last.record))
      then UnrecordedMissed(env, db, init) + [last]
      else UnrecordedMissed(env, db, init)
  }

  /**
   * Any call list: as written, the notifications are those of its MISSED
   * entries whose SELECT succeeds and that were not recorded before the loop,
   * in list order; repeats within the list are notified each time.
   */
  lemma {:induction false} CallBatchOutbox(env: Env, st: State, ps: seq<Polled<CallLog>>)
    requires DedupReady(st.db, "call_logs")
    ensures CallBatch(env, st, ps).outbox == st.outbox + MissedNotices(UnrecordedMissed(env, st.db, ps))
    decreases |ps|
  {
    if ps != [] {
      var init, last := ps[..|ps| - 1], ps[|ps| - 1];
      CallBatchOutbox(env, st, init);
      CallBatchKeepsStore(env, st, init);
      var n := UnrecordedMissed(env, st.db, ps);
      if n != UnrecordedMissed(env, st.db, init) {
        assert n[..|n| - 1] == UnrecordedMissed(env, st.db, init);
      }
    }
  }

  /** As written, fetching the same new missed calls on two polls notifies each of them twice. */
  lemma CallBatchRepeats(env: Env, st: State, ps: seq<Polled<CallLog>>)
    requires DedupReady(st.db, "call_logs")
    requires forall i | 0 <= i < |ps| :: ps[i].record.logType == Missed ==>
      ps[i].selectIo && !Recorded(st.db, "call_logs", env.callLogId(ps[i].record))
    ensures CallBatch(env, CallBatch(env, st, ps), ps).outbox == st.outbox + MissedNotices(ps) + MissedNotices(ps)
  {
    CallBatchNotifiesEveryMissed(env, st, ps);
    CallBatchKeepsStore(env, st, ps);
    CallBatchNotifiesEveryMissed(env, CallBatch(env, st, ps), ps);
  }

  // ----- the iteration -----

  /** Batches only append to the channel and leave the snapshots alone. */
  lemma {:induction false} SmsBatchAppends(env: Env, st: State, ps: seq<Polled<Message>>)
    ensures var r := SmsBatch(env, st, ps);
      |st.outbox| <= |r.outbox| && r.outbox[..|st.outbox|] == st.outbox && r.battery == st.battery && r.sim == st.sim
    decreases |ps|
  {
    if ps != [] {
      SmsBatchAppends(env, st, ps[..|ps| - 1]);
    }
  }

  lemma {:induction false} CallBatchAppends(env: Env, st: State, ps: seq<Polled<CallLog>>)
    ensures var r := CallBatch(env, st, ps);
      |st.outbox| <= |r.outbox| && r.outbox[..|st.outbox|] == st.outbox && r.battery == st.battery && r.sim == st.sim
    decreases |ps|
  {
    if ps != [] {
      CallBatchAppends(env, st, ps[..|ps| - 1]);
    }
  }

  /** A failed battery fetch ends the loop with the error and changes nothing. */
  lemma BatteryFetchFailureIsFatal(env: Env, st: State, s: Sample)
    requires s.battery.FetchFailed?
    ensures Iteration(env, st, s) == Step(st, Failed(s.battery.permissionDenied))
  {
  }

  /** A failed device-info fetch ends the loop with the error, after the battery step. */
  lemma DeviceFetchFailureIsFatal(env: Env, st: State, s: Sample)
    requires s.battery.Fetched? && BatteryStep(env, st, s.battery.value).outcome == Continue
    requires s.device.FetchFailed?
    ensures Iteration(env, st, s) == Step(BatteryStep(env, st, s.battery.value).state, Failed(s.device.permissionDenied))
  {
  }

  /** A failed SMS or call-log fetch skips that source: the iteration is the one with nothing fetched from it. */
  lemma ListFetchFailureSkips(env: Env, st: State, s: Sample)
    ensures s.sms.FetchFailed? ==> Iteration(env, st, s) == Iteration(env, st, s.(sms := Fetched([])))
    ensures s.calls.FetchFailed? ==> Iteration(env, st, s) == Iteration(env, st, s.(calls := Fetched([])))
  {
  }

  /**
   * An iteration that gets through both fetches only appends to the channel,
   * ends as the control channel says, and leaves the snapshots at the readings.
   */
  lemma IterationAppends(env: Env, st: State, s: Sample)
    requires s.battery.Fetched? && s.device.Fetched?
    requires env.diff(st.battery, s.battery.value) != Equal
    ensures var r := Iteration(env, st, s);
      && r.outcome == ControlOutcome(s.control)
      && |st.outbox| <= |r.state.outbox| && r.state.outbox[..|st.outbox|] == st.outbox
      && r.state.battery == env.update(st.battery, s.battery.value) && r.state.sim == s.device.value
  {
    var b := s.battery.value;
    var afterBattery := BatteryStep(env, st, b).state;
    assert BatteryStep(env, st, b).outcome == Continue;
    assert afterBattery.battery == env.update(st.battery, b);
    assert |st.outbox| <= |afterBattery.outbox| && afterBattery.outbox[..|st.outbox|] == st.outbox;
    var afterSim := SimStep(env, afterBattery, s.device.value);
    var sms := if s.sms.Fetched? then s.sms.value else [];
    var calls := if s.calls.Fetched? then s.calls.value else [];
    SmsBatchAppends(env, afterSim, sms);
    var afterSms := SmsBatch(env, afterSim, sms);
    CallBatchAppends(env, afterSms, calls);
    var afterCalls := CallBatch(env, afterSms, calls);
    assert Iteration(env, st, s) == Step(afterCalls, ControlOutcome(s.control));
    PrefixTransitive(st.outbox, afterBattery.outbox, afterSim.outbox);
    PrefixTransitive(st.outbox, afterSim.outbox, afterSms.outbox);
    PrefixTransitive(st.outbox, afterSms.outbox, afterCalls.outbox);
  }

  lemma PrefixTransitive<T>(a: seq<T>, b: seq<T>, c: seq<T>)
    requires |a| <= |b| && b[..|a|] == a
    requires |b| <= |c| && c[..|b|] == b
    ensures |a| <= |c| && c[..|a|] == a
  {
    assert c[..|a|] == c[..|b|][..|a|];
  }

  /** `Terminate` on the control channel ends the loop at the end of that iteration; nothing after it runs. */
  lemma TerminateEndsRun(env: Env, st: State, samples: seq<Sample>)
    requires |samples| > 0 && Iteration(env, st, samples[0]).outcome == Terminated
    ensures Run(env, st, samples) == Iteration(env, st, samples[0])
  {
  }

  /** The loop only ever appends to the channel: no notification once sent is lost. */
  lemma {:induction false} RunAppends(env: Env, st: State, samples: seq<Sample>)
    ensures var r := Run(env, st, samples);
      |st.outbox| <= |r.state.outbox| && r.state.outbox[..|st.outbox|] == st.outbox
    decreases |samples|
  {
    if samples != [] {
      var s := samples[0];
      var first := Iteration(env, st, s);
      if s.battery.Fetched? && BatteryStep(env, st, s.battery.value).outcome == Continue {
        if s.device.Fetched? {
          IterationAppends(env, st, s);
        }
      }
      if first.outcome == Continue {
        RunAppends(env, first.state, samples[1..]);
      }
    }
  }

  // ----- bootstrap -----

  /** A store that has the meta table is left alone and the client goes on. */
  lemma BootstrapSkipsInitialised(db: Db, callLogs: Fetch<seq<CallLog>>, messages: Fetch<seq<Message>>, createIo: bool)
    requires Current.MetaTable in db
    ensures Bootstrap(db, true, callLogs, messages, createIo) == Boot(db, true)
  {
  }

  /** On a first run, a failed backlog fetch is an error before any table is created. */
  lemma BootstrapNeedsBothFetches(db: Db, callLogs: Fetch<seq<CallLog>>, messages: Fetch<seq<Message>>, createIo: bool)
    requires Current.MetaTable !in db
    requires callLogs.FetchFailed? || messages.FetchFailed?
    ensures Bootstrap(db, true, callLogs, messages, createIo) == Boot(db, false)
  {
  }

  lemma {:induction false} BackfillCallsAsWritten(db: Db, cs: seq<CallLog>)
    ensures BackfillCalls(db, cs).db == db
    ensures BackfillCalls(db, cs).ok <==> forall i | 0 <= i < |cs| :: cs[i].logType != Missed
    decreases |cs|
  {
    if cs != [] && cs[0].logType != Missed {
      BackfillCallsAsWritten(db, cs[1..]);
      assert forall i | 1 <= i < |cs| :: cs[i] == cs[1..][i - 1];
    }
  }

  /**
   * As written, on a fresh store with both fetches and the CREATE succeeding,
   * the schema is created, nothing is recorded, and the bootstrap succeeds
   * exactly when the backlog holds no MISSED call and no SMS: the first
   * backlog INSERT fails to parse and aborts the start with the tables
   * already in place.
   */
  lemma BootstrapAsWritten(db: Db, cs: seq<CallLog>, ms: seq<Message>)
    requires db.Keys !! Database.Initialised.Keys
    ensures Bootstrap(db, true, Fetched(cs), Fetched(ms), true).db == db + Database.Initialised
    ensures Bootstrap(db, true, Fetched(cs), Fetched(ms), true).ok
        <==> ms == [] && forall i | 0 <= i < |cs| :: cs[i].logType != Missed
  {
    Database.CreateInitialises(db);
    BackfillCallsAsWritten(db + Database.Initialised, cs);
  }

  /** After a first run that reached CREATE, aborted by the backlog or not, the next start finds the meta table and skips the backlog. */
  lemma AbortedBootstrapIsNotRetried(db: Db, cs: seq<CallLog>, ms: seq<Message>,
                                     callLogs': Fetch<seq<CallLog>>, messages': Fetch<seq<Message>>, createIo': bool)
    requires db.Keys !! Database.Initialised.Keys
    ensures var first := Bootstrap(db, true, Fetched(cs), Fetched(ms), true);
      Bootstrap(first.db, true, callLogs', messages', createIo') == Boot(first.db, true)
  {
    BootstrapAsWritten(db, cs, ms);
    Database.MetaTableIsCreated();
  }

  /** The loop starts only when both initial fetches succeed, with the snapshots they give. */
  lemma StartNeedsBothFetches(env: Env, battery: Fetch<BatteryStatus>, device: Fetch<SimState>)
    ensures Start(env, battery, device).Launched? <==> battery.Fetched? && device.Fetched?
    ensures Start(env, battery, device).Launched? ==>
      Start(env, battery, device) == Launched(env.toSnapshot(battery.value), device.value)
  {
  }
}
