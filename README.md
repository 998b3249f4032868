# telegram-sms-termux client: a Dafny model

This project covers the client half of telegram-sms-termux, a service running on an Android phone under Termux. On every poll it:

- reads the battery status, the SIM state, the SMS inbox and the call log;
- reports what changed, and each SMS and missed call not seen before, as notifications on a dispatch channel;
- records the identifiers it has already reported in a SQLite store so they are not reported twice.

The model covers three parts of the client.

- **Record normalisation** (`client/src/datastructures.rs`), modules `Timestamp` and `Records`:
  - the fixed-format date-time conversion `convert_string_to_timestamp` (`%Y-%m-%d %H:%M:%S` to seconds since 1970-01-01 00:00:00, no time zone);
  - the call-log type lookup;
  - the charger classification of a battery reading;
  - the conversions of raw SMS and call-log entries into records with an epoch timestamp.
  - Where the source panics (`unwrap`, `unreachable!`), the model returns `None`.
- **The store schema** (`client/src/database.rs`), modules `Sql`, `SchemaV1` and `Database`:
  - the four tables the CREATE set makes, the `('version', '1')` meta row, the DROP set, the version and the meta-table name;
  - these are run against a small model of the storage engine in which:
    - a table is a map from primary-key value to row;
    - a NULL in a NOT NULL column or a duplicate key is an error;
    - an unbound parameter is NULL;
    - text that does not parse is an error.
- **The poll loop and the first-run bootstrap** (`client/src/main.rs`):
  - Module `Poll` states one iteration of `query_loop` as a function of the state before it and of what every fetch and statement returned. It states the same for the loop over several iterations and for the bootstrap in `async_main`, and proves their properties.
  - Module `Client` holds the objects:
    - a `Connection` owning the store, with `Bootstrap`;
    - a `QueryLoop` holding the battery and SIM snapshots and the dispatch channel as a sequence, `outbox`.
  - Their methods run the source's loops over the fetched lists and the backlog. Each method is proved to leave exactly the state the `Poll` function gives.

Fetch results are inputs. A fetch either returns a value or fails; the failure carries the "permission denied" flag the source sets when the output contains `Error`. The I/O outcome of each SELECT and of each logged INSERT is also an input.

The following are left abstract, as the fields of `Poll.Env`:

- the event identifier (`get_identifier`);
- the text of a battery reading and the text of a SIM state;
- the battery snapshot of a reading (`to_current_status`);
- the three-way comparison of the snapshot with a reading (`not_equal`, giving `StatusDiff`);
- the snapshot update (`update_charge_status`).

The battery lemmas that need more than the three-way result assume `Poll.ChargerFirstPolicy` and say so:

- a snapshot is (charger status, level);
- a charger change is reported before a level change;
- an update replaces the snapshot with the reading.

`SimState` has four states: Ready, Locked, NotInserted and Unknown.

Facts of the code that the model keeps as written:

- The call-log INSERT in the loop binds no values (`client/src/main.rs:185-186`). Both columns are NOT NULL, so it always fails, the error is only logged, and a missed call is notified again on every poll.
- The bootstrap INSERTs have no `VALUES` keyword (`client/src/main.rs:249`, `:256`), so they fail to parse. On a first run with any MISSED call or any SMS in the backlog, `async_main` therefore returns an error after the schema was created. The next start finds the meta table and skips the backlog.
- A comparison reporting no difference reaches `todo!()` (`client/src/main.rs:125`): the iteration panics. Under the charger-first policy, the same battery reading on two polls in a row makes the second one panic.
- The level-15 text is "Battery is low." while charging and "Battery has been charged to a safe level." while discharging (`client/src/main.rs:115-119`).

## Model

| member | source | states |
|---|---|---|
| Timestamp.DaysToYearCounts | client/src/datastructures.rs:89-91 | the closed-form day count to 1 January of any year equals adding or removing whole years of 365/366 days from 1970 (Gregorian leap rule) |
| Timestamp.DaysToMonthCounts | client/src/datastructures.rs:89-91 | the month table equals the sum of the lengths of the preceding months, February 29 days in leap years |
| Timestamp.EpochSecondsCounts | client/src/datastructures.rs:89-91 | the timestamp of a valid date-time is whole days since 1970-01-01 times 86400 plus the seconds of the day, with no zone offset |
| Timestamp.EpochSecondsOrdered | client/src/datastructures.rs:89-91 | a lexicographically later (Y, M, D, h, m, s) has a strictly larger timestamp |
| Timestamp.EpochSecondsInjective | client/src/datastructures.rs:89-91 | distinct valid date-times have distinct timestamps |
| Timestamp.EpochSecondsBounds | client/src/datastructures.rs:89 | every timestamp lies between those of 0000-01-01 00:00:00 and 9999-12-31 23:59:59, so it fits the `i64` result |
| Timestamp.FieldsOfFormat | client/src/datastructures.rs:90 | formatting a date-time gives the `DDDD-DD-DD DD:DD:DD` layout whose fields are the date-time's |
| Timestamp.FormatOfFields | client/src/datastructures.rs:90 | a string with that layout is the formatting of the fields it spells |
| Timestamp.ParseDateTime | client/src/datastructures.rs:90 | a parse succeeds only with a valid date-time whose formatting is the input |
| Timestamp.ParseFormatted | client/src/datastructures.rs:90 | parsing the formatting of a valid date-time gives it back |
| Timestamp.ConvertStringToTimestamp | client/src/datastructures.rs:89-91 | a result is the epoch seconds of a valid date-time that the input spells |
| Timestamp.ConvertDefinedIff | client/src/datastructures.rs:89-91 | the conversion succeeds exactly on spellings of valid date-times |
| Timestamp.ConvertFormatted | client/src/datastructures.rs:89-91 | round trip: converting the formatting of a valid date-time gives its epoch seconds |
| Timestamp.ConvertRejectsOutOfRange | client/src/datastructures.rs:90 | fields the format can spell but the calendar or the clock lacks are an error, never wrapped |
| Timestamp.ConvertParsed | client/src/datastructures.rs:89-91 | a successful conversion returns the epoch seconds of the parsed date-time |
| Timestamp.ConvertInjective | client/src/datastructures.rs:89-91 | two strings converting to the same timestamp are the same string |
| Timestamp.ConvertOrdered | client/src/datastructures.rs:89-91 | converting a later date-time's spelling gives a strictly larger timestamp |
| Timestamp.ConvertRejectsHour24 | client/src/test.rs:28-31 | "2021-08-23 24:58:40" is an error |
| Timestamp.ConvertRejectsLeapDay2021 | client/src/datastructures.rs:90 | "2021-02-29 00:00:00" is an error |
| Timestamp.ConvertLeapDay2020 | client/src/datastructures.rs:90 | "2020-02-29 00:00:00" converts to 1582934400 |
| Timestamp.ConvertEpoch | client/src/datastructures.rs:90 | "1970-01-01 00:00:00" converts to 0 |
| Timestamp.ConvertSampleDate | client/src/test.rs:37 | the sample date "2021-07-24 19:49:25" converts to 1627156165 |
| Records.GetChangerStatus | client/src/datastructures.rs:50-56 | Charging exactly when the status, case ignored, is "charging"; otherwise Discharging |
| Records.LowerCaseEquals | client/src/datastructures.rs:51 | lower-casing equals a lower-case word exactly when the text spells it with each letter in either case |
| Records.ChargerStatusExamples | client/src/datastructures.rs:50-56 | "CHARGING" and "Charging" are Charging; "DISCHARGING", "NOT_CHARGING" and "FULL" are Discharging |
| Records.ParseType | client/src/datastructures.rs:129-137 | a result is the type spelled by the input; `None`, the `unreachable!`, exactly when no type is spelled so |
| Records.ParseTypeName | client/src/datastructures.rs:130-134 | each type's spelling maps back to it |
| Records.ParseTypeIsExact | client/src/datastructures.rs:130-135 | case and surrounding text matter: "missed", "MISSED " and "" are not types |
| Records.MessageFrom | client/src/datastructures.rs:93-103 | defined exactly when `received` spells a valid date-time; threadid, read, number and body are copied and the timestamp is the conversion of `received` |
| Records.MessageFromFormatted | client/src/datastructures.rs:93-103 | a message received at a valid date-time is stamped with that date-time's epoch seconds |
| Records.CallLogFrom | client/src/datastructures.rs:149-159 | defined exactly when the type is known and the date converts; name, phone number and duration are copied, the type is the parsed one, the timestamp the converted date |
| Records.CallLogFromSample | client/src/datastructures.rs:149-159 | the first entry of the call-log sample normalises to a MISSED call stamped 1627156165 |
| Sql.InsertThenLookup | client/src/main.rs:143-159 | after a successful INSERT the key is found, the key was absent before, and no other row or table changes |
| Sql.InsertDuplicateFails | client/src/database.rs:27 | a present primary key cannot be inserted again |
| Sql.InsertUnfitFails | client/src/database.rs:25-26 | a NULL in a NOT NULL column, or a row of the wrong width, is refused |
| Sql.InsertKeepsWellKeyed | client/src/database.rs:24-28 | inserting keeps every row filed under its own primary key |
| Database.CreateInitialises | client/src/database.rs:23-50 | on a store without them, CREATE adds exactly the four tables and the meta row |
| Database.CreateFailsWhenPresent | client/src/database.rs:23-50 | with any of the four tables already present, CREATE fails |
| Database.CreateMakesFourTables | client/src/database.rs:23-47 | CREATE makes exactly call_logs, messages, notifications and client_meta, each keyed by its first column, both columns NOT NULL |
| Database.MetaRowIsVersion | client/src/database.rs:49-60 | the meta row CREATE writes is ('version', VERSION) with VERSION "1" |
| Database.DropMirrorsCreate | client/src/database.rs:53-58 | DROP names exactly the tables CREATE makes |
| Database.DropUndoesCreate | client/src/database.rs:53-58 | DROP after CREATE gives back the store CREATE started from |
| Database.MetaTableIsCreated | client/src/database.rs:62-66 | META_TABLE is one of the tables CREATE makes, and `current`/`CURRENT_VERSION` are version 1 |
| Database.DedupInsertRejectsDuplicate | client/src/database.rs:24-35 | a dedup table keyed by identifier holds one row per identifier: inserting a present one fails |
| Database.DedupInsertRecords | client/src/database.rs:24-35 | inserting a new identifier records exactly it and changes nothing else |
| Database.DedupInsertOfUnboundFails | client/src/main.rs:185-186 | a dedup INSERT that binds nothing puts NULLs in NOT NULL columns and always fails |
| Poll.ChargerFirstDiff | client/src/main.rs:100 | assumed: `not_equal` is not defined in the source; this is the model's charger-first comparison: ChargeStatus exactly when the charger differs, Battery exactly when only the level differs, Equal exactly when the snapshot equals the reading |
| Poll.ChargeChangeNotifies | client/src/main.rs:101-109 | a ChargeStatus difference sends one notification with the reading's text and updates the snapshot |
| Poll.LevelChangeNotifiesAt15 | client/src/main.rs:110-124 | a Battery difference notifies exactly when the new level is 15, updates the snapshot, and leaves store and SIM alone |
| Poll.LowBatteryTextAsWritten | client/src/main.rs:115-119 | the level-15 text is "Battery is low." when charging and the safe-level text when discharging |
| Poll.UnchangedBatteryPanics | client/src/main.rs:125 | an Equal comparison panics with the state unchanged |
| Poll.TieBreakExample | client/src/main.rs:100-124 | under the charger-first policy, from {Discharging, 20} a CHARGING reading at 15 sends one notification, for the charger, and the snapshot becomes {Charging, 15} |
| Poll.ChargerFirstCases | client/src/main.rs:100-126 | under the charger-first policy: a charger change notifies, a level-only change notifies at 15, an unchanged reading panics, and the snapshot becomes the reading |
| Poll.ChargerFirstPolicyIsSatisfiable | client/src/main.rs:100-126 | the charger-first policy is met by an `Env` holding the charger-first functions |
| Poll.RepeatedReadingPanics | client/src/main.rs:97-125 | under the charger-first policy, a poll that continues and is followed by the same readings makes the second poll panic |
| Poll.SimChangeNotifies | client/src/main.rs:128-138 | a SIM state unequal to the snapshot sends one notification and replaces it; an equal one changes nothing |
| Poll.NewSmsNotifiesOnce | client/src/main.rs:141-163 | a new SMS gives exactly one notification whatever the INSERT does; the row is added only when the INSERT succeeds |
| Poll.KnownSmsIgnored | client/src/main.rs:143-147 | an SMS already recorded, or whose SELECT fails, gives no notification and no INSERT |
| Poll.SmsBatchSkipsRecorded | client/src/main.rs:140-165 | a batch of recorded messages changes nothing |
| Poll.SmsBatchRecords | client/src/main.rs:140-165 | with every statement succeeding, a batch keeps the old identifiers and records exactly those of its messages in addition |
| Poll.SmsBatchIdempotent | client/src/main.rs:140-165 | the same messages on a later poll give no further notification and no further row |
| Poll.SmsBatchNotifiesInOrder | client/src/main.rs:141-154 | distinct new messages give one notification each, in list order |
| Poll.SmsBatchOutbox | client/src/main.rs:140-165 | for any batch whose statements succeed, mixing recorded, new and repeated messages, the notifications are those of `NewIn`: the messages neither recorded before nor repeating an earlier identifier of the list, once each, in list order |
| Poll.OtherCallIgnored | client/src/main.rs:169-171 | a call of another type than MISSED changes nothing |
| Poll.CallBatchFilters | client/src/main.rs:167-193 | a call list has the effect of its MISSED entries alone |
| Poll.CallBatchKeepsStore | client/src/main.rs:185-190 | the call-log INSERT never records a row, so the loop leaves the store as it was |
| Poll.CallBatchNotifiesEveryMissed | client/src/main.rs:167-193 | when every MISSED entry has a succeeding SELECT and is not recorded, whatever the other entries are, every MISSED entry is notified, in list order |
| Poll.CallBatchOutbox | client/src/main.rs:167-193 | for any call list, the notifications are those of the MISSED entries whose SELECT succeeds and that were not recorded before the loop, in list order, repeats included |
| Poll.CallBatchRepeats | client/src/main.rs:167-193 | with every MISSED entry new and its SELECT succeeding, the same missed calls on two polls are notified twice |
| Poll.SmsBatchAppends | client/src/main.rs:140-165 | the SMS pass only appends to the channel and leaves the snapshots alone |
| Poll.CallBatchAppends | client/src/main.rs:167-193 | the call-log pass only appends to the channel and leaves the snapshots alone |
| Poll.BatteryFetchFailureIsFatal | client/src/main.rs:98 | a failed battery fetch ends the loop with its error and changes nothing |
| Poll.DeviceFetchFailureIsFatal | client/src/main.rs:128 | a failed device-info fetch ends the loop with its error after the battery step |
| Poll.ListFetchFailureSkips | client/src/main.rs:140-167 | a failed SMS or call-log fetch skips that source for the iteration |
| Poll.IterationAppends | client/src/main.rs:97-203 | an iteration past both fetches whose comparison is not Equal only appends to the channel, ends as the control channel says, and leaves the updated battery snapshot and the read SIM state |
| Poll.TerminateEndsRun | client/src/main.rs:195-202 | `Terminate` ends the loop after that iteration |
| Poll.RunAppends | client/src/main.rs:97-203 | across iterations no notification once sent is lost or reordered |
| Poll.BootstrapSkipsInitialised | client/src/main.rs:216-223 | a store with the meta table is left alone and the start goes on |
| Poll.BootstrapNeedsBothFetches | client/src/main.rs:224-241 | on a first run, a failed backlog fetch is an error before any table is created |
| Poll.BackfillCallsAsWritten | client/src/main.rs:245-254 | the call-log backfill never changes the store and succeeds exactly when no entry is MISSED |
| Poll.BootstrapAsWritten | client/src/main.rs:242-261 | on a fresh store the schema is created, nothing is recorded, and the start succeeds exactly when the backlog has no SMS and no MISSED call |
| Poll.AbortedBootstrapIsNotRetried | client/src/main.rs:216-261 | after a first run that reached CREATE, whether the backlog then aborted it or not, the next start finds the meta table and skips the backlog |
| Poll.StartNeedsBothFetches | client/src/main.rs:95-96 | the loop starts only when both initial fetches succeed, with the snapshot of the reading and the SIM state they give |
| SchemaV1.CreateStatements | client/src/database.rs:23-50 | the CREATE set: the four tables in order, then the meta row ('version', '1') |
| SchemaV1.DropStatements | client/src/database.rs:53-58 | the DROP set: the four tables in order |
| SchemaV1.Version | client/src/database.rs:60 | the schema version "1" |
| SchemaV1.MetaTable | client/src/database.rs:62 | the meta table's name "client_meta" |
| Database.CurrentVersion | client/src/database.rs:65-66 | the `CURRENT_VERSION` alias of version 1's VERSION |
| Records.TypeName | client/src/datastructures.rs:130-134 | the spelling of each call-log type |
| Timestamp.EpochSeconds | client/src/datastructures.rs:90 | the timestamp of a valid date-time, in the closed form (days to the year, to the month, to the day) times 86400 plus the seconds of the day |
| Poll.SmsText | client/src/main.rs:150 | the SMS notification "[Receive SMS]\nFrom: <number>\nContent: <body>" |
| Poll.MissedCallText | client/src/main.rs:181 | the missed-call notification "[Missed Call]\nCall from: <number>" |
| Poll.SmsInsert | client/src/main.rs:155-157 | the SMS INSERT into messages with the identifier and the timestamp bound |
| Poll.CallLogInsert | client/src/main.rs:185-186 | the call-log INSERT into call_logs with nothing bound, both values NULL |
| Poll.BacklogInsert | client/src/main.rs:249 | the bootstrap INSERT text, which has no VALUES and cannot be parsed (`:256` is the same text for messages) |
| Poll.BatteryStep | client/src/main.rs:100-126 | the battery part of an iteration: by the comparison, notify and update, notify at 15 and update, or panic |
| Poll.SimStep | client/src/main.rs:128-138 | the SIM part of an iteration: notify and replace on a different state |
| Poll.SmsStep | client/src/main.rs:142-163 | one SMS: SELECT, and when absent notify and run the logged INSERT |
| Poll.CallStep | client/src/main.rs:168-192 | one call-log entry: skip unless MISSED, SELECT, and when absent notify and run the logged INSERT |
| Poll.Iteration | client/src/main.rs:97-203 | one pass of the loop body: battery, SIM, SMS, call log, control channel, with the fatal and skipped fetches |
| Poll.Run | client/src/main.rs:97-203 | passes in order until one does not end in Continue |
| Poll.Start | client/src/main.rs:95-96 | the loop's entry readings, or the error of the first failing fetch |
| Poll.Bootstrap | client/src/main.rs:216-261 | the first-run part of `async_main`: meta-table query, both backlog fetches, CREATE, then the backlog INSERTs |
| Poll.BackfillCalls | client/src/main.rs:245-254 | the call-log backlog: the INSERT for each MISSED entry in order, stopping with an error at the first failure |
| Poll.BackfillMessages | client/src/main.rs:255-261 | the SMS backlog: the INSERT for each message in order, stopping with an error at the first failure |
| Poll.ControlOutcome | client/src/main.rs:195-202 | the control-channel poll: nothing received goes on, `Terminate` ends the loop, any other command is the `unreachable!()` panic |
| Poll.SmsBatch | client/src/main.rs:141-164 | the SMS pass: one SMS step per fetched message, in list order |
| Poll.CallBatch | client/src/main.rs:168-192 | the call-log pass: one call step per fetched entry, in list order |
| Poll.LowBatteryText | client/src/main.rs:115-119 | the level-15 text chosen by charger status |
| Poll.Select | client/src/main.rs:143-146 | the dedup SELECT: whether the identifier is recorded, or `None` on an I/O error or a missing table |
| Poll.ExecLogged | client/src/main.rs:155-162 | a statement whose error is only logged: the engine's new store, or the old one on error |
| Records.LowerCase | client/src/datastructures.rs:51 | `to_lowercase` on ASCII letters, other characters kept |
| Client.Connection.constructor | client/src/main.rs:214 | the connection holds the given store |
| Client.Connection.Select | client/src/main.rs:143-146 | the dedup SELECT finds the identifier exactly when it is recorded; `None` on an I/O error or a missing table |
| Client.Connection.Execute | client/src/main.rs:249-253 | a statement either succeeds with the engine's new store or fails with the store unchanged |
| Client.Connection.ExecuteLogged | client/src/main.rs:155-162 | a statement whose error is only logged leaves the engine's store, or the old one on error |
| Client.Connection.Bootstrap | client/src/main.rs:216-262 | the store and outcome after the method are those of `Poll.Bootstrap`; its loops run the backlog INSERT for each MISSED call, then for each SMS, stopping at the first failure |
| Client.QueryLoop.constructor | client/src/main.rs:95-96 | the loop starts with the entry snapshots and nothing sent |
| Client.QueryLoop.Send | client/src/main.rs:102-107 | a notification is appended to the channel and the snapshots stay |
| Client.QueryLoop.HandleBattery | client/src/main.rs:100-126 | the state and outcome after the method are those of `Poll.BatteryStep` |
| Client.QueryLoop.HandleSim | client/src/main.rs:128-138 | the state after the method is that of `Poll.SimStep` |
| Client.QueryLoop.HandleSms | client/src/main.rs:142-163 | the state after the method is that of `Poll.SmsStep` |
| Client.QueryLoop.HandleSmsList | client/src/main.rs:140-165 | the loop over the fetched messages leaves the state of `Poll.SmsBatch` |
| Client.QueryLoop.HandleCall | client/src/main.rs:168-192 | the state after the method is that of `Poll.CallStep` |
| Client.QueryLoop.HandleCallList | client/src/main.rs:167-193 | the loop over the fetched call log leaves the state of `Poll.CallBatch` |
| Client.QueryLoop.Iterate | client/src/main.rs:97-203 | the state and outcome after one pass are those of `Poll.Iteration` |
| Client.QueryLoop.Run | client/src/main.rs:97-203 | the loop over samples stops at the first iteration not ending in Continue, with the state and outcome of `Poll.Run` |
| Client.Launch | client/src/main.rs:95-96 | a loop is made exactly when both entry fetches succeed, with the snapshots they give and an empty channel |

## Left out

- The fetches `fetch_sms`, `fetch_call_log`, `fetch_battery_status` and `fetch_device_info` (`client/src/main.rs:39-73`) are process spawning, UTF-8 decoding and JSON decoding. Their results are inputs, and the `Error` substring check is a flag on a failed fetch.
- `RawDeviceInfo::get_sim_state` is left out: the device fetch gives the SIM state directly. The one known mapping is "pin_required" to Locked, from the source's test.
- `get_identifier`, the `Display` of `BatteryStatus` and of `SIMState`, `to_current_status`, `not_equal` and `update_charge_status` are left abstract as the fields of `Poll.Env`.
- Poll.ChargerFirstCases, Poll.TieBreakExample, Poll.RepeatedReadingPanics: hold only under the assumed `Poll.ChargerFirstPolicy`. The real snapshot update may, as its name suggests, change only the charger status; under such an update the repeated-reading panic need not follow.
- `convert_to_vec` and `PermissionError` are not part of this model.
- The getters `get_number`, `get_content`, `get_log_type` and `get_percentage` are read as the matching record fields.
- `upstream` (`client/src/main.rs:75-88`) is a timeout loop whose message branch is `todo!()`.
- The dispatch channel is a sequence. The model leaves out its capacity of 1024, blocking, send failure (every `send(..).await?` succeeds), and the 500 ms and 1 s timeouts.
- Task spawning and `ctrl_c` handling (`client/src/main.rs:263-277`) are concurrency. A control-channel poll is an input of each iteration.
- The queries run by the storage engine are not parsed. Each SQL text the client sends is a `Sql.Statement`, and first-run detection is "the meta table is absent from the store".
- JSON decoding (`serde`, `From<&str> for BatteryStatus`) and the battery `temperature` (floating point, unused by the logic) are left out.
- Timestamp.ParseDateTime: accepts only the canonical shape (four-digit year, two-digit other fields). chrono's lenient corners are not modelled: one-digit fields, the leap second 60, signed years, whitespace skipped before a numeric field (as in "2021- 8-23 19:49:25"), and the format's space matching any run of whitespace (as in "2021-08-23  19:49:25"). For those inputs the model rejects what chrono may accept.
- Records.GetChangerStatus: `to_lowercase` is modelled as ASCII lower-casing. For a comparison with "charging" it differs only on U+212A KELVIN SIGN, which Unicode lower-cases to "k"; the word has no "k", so the result is the same.
- Poll.Bootstrap, Client.Connection.Bootstrap: when the multi-statement CREATE fails part-way, the model leaves the store as it was. SQLite may keep the statements before the failing one.
- `main`, the clap setup and the feature-gated `server` module are not part of this model.
