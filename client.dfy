/**
 * The client as it runs: the store connection with the first-run
 * bootstrap, and the poll loop holding the two snapshots and the dispatch
 * channel. Each method is proved to leave the state that the matching
 * function of module Poll gives, so the properties proved there hold of
 * these objects.
 */
module Client {
  import opened Wrappers
  import opened Records
  import opened Sql
  import opened Poll
  import Current = SchemaV1

  /** The connection to the client's SQLite store. */
  class Connection {
    var db: Db

    constructor (db: Db)
      ensures this.db == db
    {
      this.db := db;
    }

    /** A dedup SELECT by identifier: `Some(found)`, or `None` on an I/O error or a missing table. */
    method Select(name: string, id: Identifier, io: bool) returns (found: Option<bool>)
      ensures found == Some(true) <==> io && Recorded(db, name, id)
      ensures found == Some(false) <==> io && name in db && !Recorded(db, name, id)
      ensures found == None <==> !io || name !in db
    {
      if !io {
        return None;
      }
      found := Lookup(db, name, Text(id));
    }

    /** Runs a statement and stops on its error: `ok` is false and the store is as it was. */
    method Execute(st: Statement) returns (ok: bool)
      modifies this
      ensures ok <==> Exec(old(db), st).Some?
      ensures db == if ok then Exec(old(db), st).value else old(db)
    {
      var r := Exec(db, st);
      if r.None? {
        return false;
      }
      db := r.value;
      ok := true;
    }

    /** Runs a statement whose error the caller only logs. */
    method ExecuteLogged(st: Statement, io: bool)
      modifies this
      ensures db == ExecLogged(old(db), st, io)
    {
      if io {
        var _ := Execute(st);
      }
    }

    /**
     * The first-run part of `async_main`: on a store without the meta table,
     * fetch the backlog, create the schema and insert the backlog; `ok` false
     * is the error `async_main` returns.
     */
    method Bootstrap(masterIo: bool, callLogs: Fetch<seq<CallLog>>, messages: Fetch<seq<Message>>, createIo: bool)
      returns (ok: bool)
      modifies this
      ensures Boot(db, ok) == Poll.Bootstrap(old(db), masterIo, callLogs, messages, createIo)
    {
      if !masterIo {
        return false;
      }
      if Current.MetaTable in db {
        return true;
      }
      if callLogs.FetchFailed? || messages.FetchFailed? {
        return false;
      }
      if !createIo {
        return false;
      }
      var created := ExecAll(db, Current.CreateStatements);
      if created.None? {
        return false;
      }
      db := created.value;

      ghost var schema := db;
      var cs := callLogs.value;
      var i := 0;
      while i < |cs|
        invariant 0 <= i <= |cs|
        invariant BackfillCalls(db, cs[i..]) == BackfillCalls(schema, cs)
      {
        assert cs[i..][1..] == cs[i + 1..];
        if cs[i].logType == Missed {
          var done := Execute(BacklogInsert);
          if !done {
            return false;
          }
        }
        i := i + 1;
      }

      ghost var afterCalls := db;
      var ms := messages.value;
      var j := 0;
      while j < |ms|
        invariant 0 <= j <= |ms|
        invariant BackfillMessages(db, ms[j..]) == BackfillMessages(afterCalls, ms)
      {
        assert ms[j..][1..] == ms[j + 1..];
        var done := Execute(BacklogInsert);
        if !done {
          return false;
        }
        j := j + 1;
      }
      ok := true;
    }
  }

  /** `query_loop`: the loop's snapshots and the sending end of the dispatch channel. */
  class QueryLoop {
    const env: Env
    const conn: Connection
    var battery: Snapshot
    var sim: SimState
    /** Everything sent on the dispatch channel, oldest first. */
    var outbox: seq<InnerCommand>

    function State(): Poll.State
      reads this, conn
    {
      Poll.State(conn.db, battery, sim, outbox)
    }

    /** The loop with its entry readings taken and nothing sent. */
    constructor (env: Env, conn: Connection, battery: Snapshot, sim: SimState)
      ensures this.env == env && this.conn == conn
      ensures State() == Poll.State(conn.db, battery, sim, [])
    {
      this.env := env;
      this.conn := conn;
      this.battery := battery;
      this.sim := sim;
      this.outbox := [];
    }

    /** Puts a notification on the dispatch channel. */
    method Send(text: string)
      modifies this
      ensures outbox == old(outbox) + [Notify(text)]
      ensures battery == old(battery) && sim == old(sim)
    {
      outbox := outbox + [Notify(text)];
    }

    method HandleBattery(b: BatteryStatus) returns (outcome: Outcome)
      modifies this
      ensures Step(State(), outcome) == BatteryStep(env, old(State()), b)
    {
      match env.diff(battery, b)
      case ChargeStatus =>
        Send("[System Information]" + env.batteryText(b));
        battery := env.update(battery, b);
        outcome := Continue;
      case Battery =>
        if b.percentage == 15 {
          Send("[System Information]\n" + LowBatteryText(GetChangerStatus(b)));
        }
        battery := env.update(battery, b);
        outcome := Continue;
      case Equal =>
        outcome := Panicked;
    }

    method HandleSim(s: SimState)
      modifies this
      ensures State() == SimStep(env, old(State()), s)
    {
      if s != sim {
        Send("[System information]Sim card " + env.simText(s));
        sim := s;
      }
    }

    /** One fetched SMS: look it up, and if it is new notify, then insert it. */
    method HandleSms(p: Polled<Message>)
      modifies this, conn
      ensures State() == SmsStep(env, old(State()), p)
    {
      var id := env.messageId(p.record);
      var found := conn.Select("messages", id, p.selectIo);
      if found == Some(false) {
        Send(SmsText(p.record));
        conn.ExecuteLogged(SmsInsert(id, p.record), p.insertIo);
      }
    }

    method HandleSmsList(ps: seq<Polled<Message>>)
      modifies this, conn
      ensures State() == SmsBatch(env, old(State()), ps)
    {
      var i := 0;
      while i < |ps|
        invariant 0 <= i <= |ps|
        invariant State() == SmsBatch(env, old(State()), ps[..i])
      {
        assert ps[..i + 1][..i] == ps[..i];
        HandleSms(ps[i]);
        i := i + 1;
      }
      assert ps[..|ps|] == ps;
    }

    /** One fetched call-log entry: only a MISSED one is looked up, notified and inserted. */
    method HandleCall(p: Polled<CallLog>)
      modifies this, conn
      ensures State() == CallStep(env, old(State()), p)
    {
      if p.record.logType != Missed {
        return;
      }
      var id := env.callLogId(p.record);
      var found := conn.Select("call_logs", id, p.selectIo);
      if found == Some(false) {
        Send(MissedCallText(p.record));
        conn.ExecuteLogged(CallLogInsert, p.insertIo);
      }
    }

    method HandleCallList(ps: seq<Polled<CallLog>>)
      modifies this, conn
      ensures State() == CallBatch(env, old(State()), ps)
    {
      var i := 0;
      while i < |ps|
        invariant 0 <= i <= |ps|
        invariant State() == CallBatch(env, old(State()), ps[..i])
      {
        assert ps[..i + 1][..i] == ps[..i];
        HandleCall(ps[i]);
        i := i + 1;
      }
      assert ps[..|ps|] == ps;
    }

    /** One pass of the loop's body. */
    method Iterate(s: Sample) returns (outcome: Outcome)
      modifies this, conn
      ensures Step(State(), outcome) == Iteration(env, old(State()), s)
    {
      if s.battery.FetchFailed? {
        return Failed(s.battery.permissionDenied);
      }
      outcome := HandleBattery(s.battery.value);
      if outcome != Continue {
        return;
      }
      if s.device.FetchFailed? {
        return Failed(s.device.permissionDenied);
      }
      HandleSim(s.device.value);
      if s.sms.Fetched? {
        HandleSmsList(s.sms.value);
      }
      if s.calls.Fetched? {
        HandleCallList(s.calls.value);
      }
      outcome := ControlOutcome(s.control);
    }

    /** The loop over a run of samples: it stops at the first iteration that does not end in `Continue`. */
    method Run(samples: seq<Sample>) returns (outcome: Outcome)
      modifies this, conn
      ensures Step(State(), outcome) == Poll.Run(env, old(State()), samples)
    {
      var i := 0;
      outcome := Continue;
      while i < |samples|
        invariant 0 <= i <= |samples|
        invariant Poll.Run(env, State(), samples[i..]) == Poll.Run(env, old(State()), samples)
        invariant outcome == Continue
      {
        outcome := Iterate(samples[i]);
        if outcome != Continue {
          return;
        }
        assert samples[i..][1..] == samples[i + 1..];
        i := i + 1;
      }
    }
  }

  /** The entry of `query_loop`: both readings are fetched, and either failing is an error. */
  method Launch(env: Env, conn: Connection, battery: Fetch<BatteryStatus>, device: Fetch<SimState>)
    returns (r: Option<QueryLoop>)
    ensures r.Some? <==> Start(env, battery, device).Launched?
    ensures r.Some? ==> && fresh(r.value) && r.value.env == env && r.value.conn == conn
                        && r.value.State()
                           == Poll.State(conn.db, Start(env, battery, device).battery, Start(env, battery, device).sim, [])
  {
    if battery.FetchFailed? || device.FetchFailed? {
      return None;
    }
    var q := new QueryLoop(env, conn, env.toSnapshot(battery.value), device.value);
    r := Some(q);
  }
}
