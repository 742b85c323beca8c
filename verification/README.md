# Verified model of the UniSet2 database backends, timed filters and signal simulator

This project models the stateful core of UniSet2 in Dafny and proves what it does over every run:

* **Dynamic tags** (`ClickHouseTagsConfig`). Controlling sensors select tags; templates with `%v`, `%min`, `%max`
  are substituted, and two optimisations (remember the last value, switch the substitution off for a whole range)
  stand over a simple specification. `Text` is the substitution itself, `TagText` one range, `TagsSetup` the building
  of ranges and lists, `TagsConfig` the class, `TagsCache` and `TagsCacheExact` the cache against its specification.
* **Database writers**. `DbLink` is the query queue and connection machine that `DBServer_MySQL` and
  `DBServer_PostgreSQL` share; `PostgreSQL` and `PostgreSQLRuns` add the insert buffer with its overflow branch;
  `ClickHouse` is the columnar buffer with the tags of each row, `ClickHouseRows`, `ClickHouseCoupled` and
  `ClickHouseCoupledExact` say when those rows are right; `OpenTSDB` is the line buffer over one TCP stream,
  `OpenTSDBLines` reads its lines back.
* **Timed filters**. `DelayTimers`, `HourGlasses` and `Pulses` over the passive timer of `PassiveTimers`.
* **Simulator**. The triangle wave of the SImitator utility.

Every object that the program updates in place is a class whose methods are proved against functions on values;
the run theorems are lemmas about those functions. An answer of the outside world (the database accepted an insert,
the ping failed, a send took some bytes, the clock) is an input of the step that asks for it, so a theorem about all
runs is a theorem about all such answers. Ghost sequences remember what was submitted, delivered and lost.

## Where the code and its comments disagree

The code is modelled; each point is a theorem below.

* `getTags` is wrong for a configuration in which a section with a `%v` is read by two entries, or in which the first
  template without placeholder stops the substitution of another one (`TagsCacheExact.CorrectIffSound`). The
  documented range `mykey=%v key2=%min key3=text` (ClickHouseTagsConfig.h:67) is of that kind: its values never leave
  the first one substituted (`TagText.DocumentedRangeFreezes`, `TagsCacheExact.DocumentedIsWrong`). A backend needs
  less, since each message reads only the tags of its own sensor (`ClickHouseCoupledExact.RowsExactly`).
* The overflow branch of the PostgreSQL insert buffer is announced as deleting a number of records, but it keeps that
  number, under `lastRemove` the newest ones, and the counter subtracts it. The counter is the number of records in
  every run only if twice the number is `ibufMaxSize + 1`; with the documented defaults it drifts
  (`PostgreSQLRuns.CounterExactly`, `PostgreSQLRuns.DefaultDrifts`). "The insert buffer is flushed before the UPDATE"
  holds under the condition of `PostgreSQLRuns.ConfirmExactly`.
* The query queue drops its oldest query whatever `bufferLastRemove` says (`DbLink.QueueWhileDisconnected`), and with
  the setting the log names another one (`DbLink.ReportsExactly`).
* A late timer message breaks the rule that exactly one of ping and reconnect is armed in two cases
  (`DbLink.LateTimers`, `DbLink.LateTimersOccur`).
* An errno other than EPIPE and EBADF, and a partial send, clear the OpenTSDB buffer although bytes are missing
  (`OpenTSDB.StreamExactly`, `OpenTSDB.LineVanishes`); two sizes of 0 still buffer one line (`OpenTSDB.BoundExactly`).
* The time stamp of a moment before 1970 reads wrong (`OpenTSDB.TimeStampReads`).
* `HourGlass::remain` goes through a 32-bit `int` (`HourGlasses.RemainExactly`).
* `Pulse` with a pulse of 0 shows a pulse at one tick of a period all the same (`Pulses.SquareWaveExactly`).

## Model

| member | source | states |
|---|---|---|
| Text.Find | src/Core/UniSetTypes.cc:931-937 | finds the first occurrence at or behind a position, or there is none |
| Text.ReplaceAllInPlace | src/Core/UniSetTypes.cc:924-941 | the in-place loop is the left-to-right replacement of all non-overlapping occurrences, never searching in inserted text; an empty pattern changes nothing |
| Text.SubstituteIsRender | extensions/Backend-ClickHouse/ClickHouseTagsConfig.cc:499-501 | three successive replacements equal one left-to-right reading of the template, for all templates and numbers: no replacement disturbs another |
| Text.RenderChanges | extensions/Backend-ClickHouse/ClickHouseTagsConfig.cc:503-504 | the comparison behind the replace flags: substitution leaves a template unchanged exactly if it has no placeholder |
| Text.RenderIsComplete | extensions/Backend-ClickHouse/ClickHouseTagsConfig.h:77-81 | after the substitution no placeholder is left and none was created |
| Text.RenderIgnoresValue | extensions/Backend-ClickHouse/ClickHouseTagsConfig.h:79 | a template without %v gives the same text for every value |
| Text.RenderInjective | extensions/Backend-ClickHouse/ClickHouseTagsConfig.h:79 | a template with %v tells numbers of one length apart |
| Text.DecimalInjective | extensions/Backend-ClickHouse/ClickHouseTagsConfig.cc:499-501 | different numbers are written differently |
| Text.RenderGrows | extensions/Backend-ClickHouse/ClickHouseTagsConfig.h:79 | a template with %v tells values with different numbers of digits apart |
| TagText.ShownAt | extensions/Backend-ClickHouse/ClickHouseTagsConfig.cc:499-501 | behind any text without a percent sign %v shows the value, %min the lower and %max the upper bound; other text is copied |
| TagText.UpdateOne | extensions/Backend-ClickHouse/ClickHouseTagsConfig.cc:497-505 | one guarded block: the text is the rendered template if the flag was on, and the flag survives only a template with a placeholder |
| TagText.UpdateText | extensions/Backend-ClickHouse/ClickHouseTagsConfig.cc:492-517 | one pass over a range: each side is substituted up to and with its first placeholder-free template and its flag falls there |
| TagText.RefreshRangeBySide | extensions/Backend-ClickHouse/ClickHouseTagsConfig.cc:497-515 | keys and values are substituted independently of each other |
| TagText.FlagsOverARun | extensions/Backend-ClickHouse/ClickHouseTagsConfig.cc:497-505 | over any run one side of a range: texts before its first plain template stay at the first value, texts from it on keep the raw template; without one all show the last value |
| TagText.RangeRunBySide | extensions/Backend-ClickHouse/ClickHouseTagsConfig.cc:492-517 | a run of updateText on a range is that run on each of its sides |
| TagText.RangeOverARun | extensions/Backend-ClickHouse/ClickHouseTagsConfig.cc:492-517 | after any run of updateText every tag of the range is, in key and in value, what its templates, the first and the last value make of it |
| TagText.DocumentedRangeFreezes | extensions/Backend-ClickHouse/ClickHouseTagsConfig.h:67 | after any run of updateText all three tags of the documented example range are still those of the first value |
| TagText.DocumentedBounds | extensions/Backend-ClickHouse/ClickHouseTagsConfig.h:68 | the other documented range shows, after any run of updateText, lower bound, last value and upper bound |
| TagsSetup.InitRangeList | extensions/Backend-ClickHouse/ClickHouseTagsConfig.cc:308-378 | every range has ordered bounds, contains exactly the values its item means (bounds in either order, min and max), and nothing is substituted yet |
| TagsSetup.ParsedPairs | extensions/Backend-ClickHouse/ClickHouseTagsConfig.cc:301 | the first half of a pair is the key and the second the value, in text and template |
| TagsSetup.OpenRanges | extensions/Backend-ClickHouse/ClickHouseTagsConfig.cc:358-366 | min and max leave a range open on their side |
| TagsSetup.IndexOf | extensions/Backend-ClickHouse/ClickHouseTagsConfig.cc:382-386 | the first entry of a sensor in a list |
| TagsSetup.BindAllFromNothing | extensions/Backend-ClickHouse/ClickHouseTagsConfig.cc:186-220 | from no entry: exactly one entry for each sensor named, in the order of first occurrence, each bound to the section named last for it |
| TagsSetup.BindExactly | extensions/Backend-ClickHouse/ClickHouseTagsConfig.cc:382-395 | of an entry that is there only the section changes, a new one comes last, all others stay |
| TagsConfig.ClickHouseTagsConfig.constructor | extensions/Backend-ClickHouse/ClickHouseTagsConfig.cc:12-14 | an empty configuration |
| TagsConfig.ClickHouseTagsConfig.LoadTagsMap | extensions/Backend-ClickHouse/ClickHouseTagsConfig.cc:65-68 | the sections by name, the first of several with one name; well formed and fresh if no list was built before |
| TagsConfig.ClickHouseTagsConfig.AddState | extensions/Backend-ClickHouse/ClickHouseTagsConfig.cc:222-226 | a registered default is never overwritten |
| TagsConfig.ClickHouseTagsConfig.InitFromTags | extensions/Backend-ClickHouse/ClickHouseTagsConfig.cc:110-142 | one entry that shows fixed tags; an unknown sensor changes nothing; the configuration stays well formed if there is a tag |
| TagsConfig.ClickHouseTagsConfig.InitFromValues | extensions/Backend-ClickHouse/ClickHouseTagsConfig.cc:144-184 | one entry that reads a section; an unknown sensor or section changes nothing |
| TagsConfig.ClickHouseTagsConfig.AddTagsInfo | extensions/Backend-ClickHouse/ClickHouseTagsConfig.cc:380-396 | the entry of the sensor is found or appended, its state registered with 0, and the section bound |
| TagsConfig.ClickHouseTagsConfig.BindItem | extensions/Backend-ClickHouse/ClickHouseTagsConfig.cc:215-218 | one turn of the loop keeps iterators valid and entries distinct |
| TagsConfig.ClickHouseTagsConfig.InitFromTagsList | extensions/Backend-ClickHouse/ClickHouseTagsConfig.cc:186-220 | all items up to the first unresolved one take effect, and the answer says whether that is the end |
| TagsConfig.WithItemsList | extensions/Backend-ClickHouse/ClickHouseTagsConfig.cc:215-218 | the items change the list of their own sensor only |
| TagsConfig.WithItemsStates | extensions/Backend-ClickHouse/ClickHouseTagsConfig.cc:222-226 | after any items a state is registered exactly if it was or is named; old values are kept, new ones are 0 |
| TagsConfig.WithItemWellFormed | extensions/Backend-ClickHouse/ClickHouseTagsConfig.cc:215-218 | binding keeps the configuration well formed and fresh |
| TagsConfig.ClickHouseTagsConfig.UpdateTags | extensions/Backend-ClickHouse/ClickHouseTagsConfig.cc:398-409 | sets the state of a controlling sensor; false and no change for another one |
| TagsConfig.ClickHouseTagsConfig.GetTags | extensions/Backend-ClickHouse/ClickHouseTagsConfig.cc:435-443 | the answer and the new cache state of one getTags; an unknown sensor has no tags |
| TagsConfig.ClickHouseTagsConfig.MakeTags | extensions/Backend-ClickHouse/ClickHouseTagsConfig.cc:445-485 | the loop over the list: each entry is refreshed, then read, and sees the texts its predecessors left |
| TagsConfig.ClickHouseTagsConfig.MakeInfo | extensions/Backend-ClickHouse/ClickHouseTagsConfig.cc:450-480 | one entry: fixed tags while the state is not 0, else the ranges, substituted again only if the value is new |
| TagsConfig.MakeRanges | extensions/Backend-ClickHouse/ClickHouseTagsConfig.cc:463-473 | all ranges of the section are substituted, those that contain the value are shown |
| TagsCache.RefreshInfoCached | extensions/Backend-ClickHouse/ClickHouseTagsConfig.cc:450-480 | the work for one entry keeps the cache invariant of all entries of all lists |
| TagsCache.MadeIsIdeal | extensions/Backend-ClickHouse/ClickHouseTagsConfig.cc:445-485 | under the invariant makeTags answers as the uncached specification and keeps the invariant |
| TagsCache.RunKeepsInv | extensions/Backend-ClickHouse/ClickHouseTagsConfig.cc:398-485 | every interleaving of updateTags and getTags keeps the invariant |
| TagsCache.SoundIsCorrect | extensions/Backend-ClickHouse/ClickHouseTagsConfig.cc:398-517 | for a sound configuration every getTags of every run equals the uncached specification |
| TagsCache.IdealIsHistory | extensions/Backend-ClickHouse/ClickHouseTagsConfig.cc:398-443 | what getTags should answer depends on the last update of each controlling sensor, or its default, only |
| TagsCache.RunStates | extensions/Backend-ClickHouse/ClickHouseTagsConfig.cc:398-409 | after a run each state is its last update or its default |
| TagsCache.FixedTagsInEveryRun | extensions/Backend-ClickHouse/ClickHouseTagsConfig.cc:452-459 | a list of fixed tags shows all of them, in every run, exactly while the last value of its sensor is not 0 |
| TagsCache.OneRange | extensions/Backend-ClickHouse/ClickHouseTagsConfig.cc:468-472 | a range shows all its tags, substituted, exactly if the value lies between its bounds |
| TagsCache.RangesConcat | extensions/Backend-ClickHouse/ClickHouseTagsConfig.cc:463-473 | the ranges of a section contribute in their order |
| TagsCache.IdealEntries | extensions/Backend-ClickHouse/ClickHouseTagsConfig.cc:450-480 | the entries of a list contribute in their order, by fixed tags or by ranges |
| TagsCacheExact.UnsteadyIsWrong | extensions/Backend-ClickHouse/ClickHouseTagsConfig.cc:497-515 | a range whose flags fall too early has a run with a wrong answer |
| TagsCacheExact.SharedByListsIsWrong | extensions/Backend-ClickHouse/ClickHouseTagsConfig.cc:463-479 | a section with %v read by two lists has a run with a wrong answer |
| TagsCacheExact.SharedInListIsWrong | extensions/Backend-ClickHouse/ClickHouseTagsConfig.cc:463-479 | a section with %v read by two entries of one list has a run with a wrong answer |
| TagsCacheExact.DocumentedIsWrong | extensions/Backend-ClickHouse/ClickHouseTagsConfig.h:67 | every configuration in which a list reads the documented range has a run with a wrong answer |
| TagsCacheExact.CorrectIffSound | extensions/Backend-ClickHouse/ClickHouseTagsConfig.cc:398-517 | main result: the cache agrees with the specification in every run if and only if the configuration is sound, a condition on its templates and lists |
| DbLink.MachineInEveryRun | extensions/DBServer-MySQL/DBServer_MySQL.cc:287-410 | from the first initDBServer on exactly one of ping and reconnect is armed, ping exactly while connected; before it none |
| DbLink.LateTimers | extensions/DBServer-MySQL/DBServer_MySQL.cc:360-410 | for any message, also of a timer that is not armed, exactly which ones break that rule |
| DbLink.LateTimersInEveryRun | extensions/DBServer-MySQL/DBServer_MySQL.cc:360-410 | over any run, late messages included, the rule holds throughout if and only if neither of the two cases occurs |
| DbLink.LateTimersOccur | extensions/DBServer-MySQL/DBServer_MySQL.cc:366-404 | both of them occur in runs from the start |
| DbLink.OrderInEveryRun | extensions/DBServer-MySQL/DBServer_MySQL.cc:167-234 | queries tried, then those queued, are submitted queries in order, none twice; every other submitted query was dropped; the queue keeps its limit |
| DbLink.LostExactlyWhenFull | extensions/DBServer-MySQL/DBServer_MySQL.cc:171-192 | in any state, a submission keeps all queries tried or queued exactly if there is a connection or room |
| DbLink.QueueWhileDisconnected | extensions/DBServer-MySQL/DBServer_MySQL.cc:167-410 | over any run of events without a connection, failed pings and connection attempts included, under both settings of lastRemove: nothing reaches the database, the queue is the last qbufSize of its content and the submissions, and the dropped queries are all before them |
| DbLink.ConnectTries | extensions/DBServer-MySQL/DBServer_MySQL.cc:287-358 | an attempt that connects, at the start or on the timer, tries every queued query in order and leaves the queue empty |
| DbLink.WriteTries | extensions/DBServer-MySQL/DBServer_MySQL.cc:195-210 | with a connection a query is tried at once behind everything queued, one answer for each |
| DbLink.QuietOtherwise | extensions/DBServer-MySQL/DBServer_MySQL.cc:360-410 | no other message touches queue or database |
| DbLink.ConnectedExactly | extensions/DBServer-MySQL/DBServer_MySQL.cc:287-410 | whether there is a connection after any message |
| DbLink.IdleInEveryRun | extensions/DBServer-MySQL/DBServer_MySQL.cc:167-410 | over any run no query waits while connected, if and only if no ping restores the connection while queries wait |
| DbLink.QueueWaitsConnected | extensions/DBServer-MySQL/DBServer_MySQL.cc:387-394 | a run from the start in which one does |
| DbLink.SettingOnlyReports | extensions/DBServer-MySQL/DBServer_MySQL.cc:181-186 | a run under the other setting of lastRemove differs in the log only |
| DbLink.ReportsExactly | extensions/DBServer-MySQL/DBServer_MySQL.cc:179-189 | the log names the dropped queries in every run if and only if lastRemove is off or the queue has no room at all |
| MySQL.DBServer_MySQL.constructor | extensions/DBServer-MySQL/DBServer_MySQL.cc:38-58 | unconnected, nothing queued, no timer |
| MySQL.DBServer_MySQL.WriteToBase | extensions/DBServer-MySQL/DBServer_MySQL.cc:167-211 | the whole new state, what the log reports, and the answer, with and without connection |
| MySQL.DBServer_MySQL.FlushBuffer | extensions/DBServer-MySQL/DBServer_MySQL.cc:213-234 | the draining loop tries every queued query once, oldest first |
| MySQL.DBServer_MySQL.InitDBServer | extensions/DBServer-MySQL/DBServer_MySQL.cc:287-358 | connection, timers and flush of initDBServer |
| MySQL.DBServer_MySQL.TimerInfo | extensions/DBServer-MySQL/DBServer_MySQL.cc:360-410 | the two timer messages are the steps of the connection machine |
| PostgreSQL.DBServer_PostgreSQL.constructor | extensions/DBServer-PostgreSQL/DBServer_PostgreSQL.cc:27-53 | unconnected, empty buffers |
| PostgreSQL.DBServer_PostgreSQL.FlushInsertBuffer | extensions/DBServer-PostgreSQL/DBServer_PostgreSQL.cc:208-257 | overflow branch and write: buffer, counter, erased records and database call |
| PostgreSQL.DBServer_PostgreSQL.AddRecord | extensions/DBServer-PostgreSQL/DBServer_PostgreSQL.cc:259-266 | one more record; keeps the bounds of buffer and counter |
| PostgreSQL.DBServer_PostgreSQL.WriteToBase | extensions/DBServer-PostgreSQL/DBServer_PostgreSQL.cc:151-190 | the whole new state, what the log reports, and the answer, with and without connection |
| PostgreSQL.DBServer_PostgreSQL.FlushBuffer | extensions/DBServer-PostgreSQL/DBServer_PostgreSQL.cc:192-206 | the draining loop tries every queued query once, oldest first |
| PostgreSQL.DBServer_PostgreSQL.ConfirmInfo | extensions/DBServer-PostgreSQL/DBServer_PostgreSQL.cc:102-105 | insert buffer first, then the queued queries, then the UPDATE |
| PostgreSQL.DBServer_PostgreSQL.InitDBServer | extensions/DBServer-PostgreSQL/DBServer_PostgreSQL.cc:317-394 | connection, timers and flush of initDBServer |
| PostgreSQL.DBServer_PostgreSQL.TimerInfo | extensions/DBServer-PostgreSQL/DBServer_PostgreSQL.cc:396-453 | the three timer messages, each the step of its event |
| PostgreSQL.OverflowKeepsBounds | extensions/DBServer-PostgreSQL/DBServer_PostgreSQL.cc:210-238 | one overflow restores the relation of counter and buffer and stays inside the vector |
| PostgreSQL.LroundIsNearest | extensions/DBServer-PostgreSQL/DBServer_PostgreSQL.cc:216 | the number of records is the nearest integer, of two the larger |
| PostgreSQL.RunKeepsBounds | extensions/DBServer-PostgreSQL/DBServer_PostgreSQL.cc:208-266 | that relation holds in every run if the first overflow stays inside the vector, also for a factor so small that nothing is kept |
| PostgreSQLRuns.AccountedInEveryRun | extensions/DBServer-PostgreSQL/DBServer_PostgreSQL.cc:208-266 | in every run that stays inside the vector: delivered and buffered records are arrivals in order without duplicates, and every arrival is delivered, buffered or erased by an overflow |
| PostgreSQLRuns.LossExactly | extensions/DBServer-PostgreSQL/DBServer_PostgreSQL.cc:210-238 | one event erases exactly if its counter is above the maximum, and then all but d records of the buffer, d being delnum of that counter: the newest survive under lastRemove, else the oldest |
| PostgreSQLRuns.LossOnlyAtRecords | extensions/DBServer-PostgreSQL/DBServer_PostgreSQL.cc:259-266 | if the first overflow keeps anything, only a record erases, one that finds the counter at its maximum, and every overflow keeps the same number |
| PostgreSQLRuns.FlushTimerExactly | extensions/DBServer-PostgreSQL/DBServer_PostgreSQL.cc:442-447 | the flush timer writes the whole buffer, if and only if there is nothing in it or a connection, a counter that is not 0 and an accepting database; otherwise the buffer stays |
| PostgreSQLRuns.RecordExactly | extensions/DBServer-PostgreSQL/DBServer_PostgreSQL.cc:259-266 | a record below the maximum is only buffered; one that reaches it has the buffer written, if and only if there is a connection and the database accepts |
| PostgreSQLRuns.OverflowWrites | extensions/DBServer-PostgreSQL/DBServer_PostgreSQL.cc:208-266 | one above it has the d kept records written, the last or the first ones, under the same condition and a counter that is not 0 then |
| PostgreSQLRuns.ConfirmIsFlushAndQuery | extensions/DBServer-PostgreSQL/DBServer_PostgreSQL.cc:102-105 | a confirmation is the flush and then the UPDATE, whatever the database answers |
| PostgreSQLRuns.BufferBounds | extensions/DBServer-PostgreSQL/DBServer_PostgreSQL.cc:208-266 | counter at most ibufMaxSize, drift 0 or 2d - (ibufMaxSize + 1), at most max(ibufMaxSize, 2d - 1) records, in every run |
| PostgreSQLRuns.InsideExactly | extensions/DBServer-PostgreSQL/DBServer_PostgreSQL.cc:216-229 | std::prev and std::next stay inside the vector in every run if and only if d is at most ibufMaxSize + 1 |
| PostgreSQLRuns.CounterExactly | extensions/DBServer-PostgreSQL/DBServer_PostgreSQL.cc:216-235 | ibufSize is the number of buffered records in every run if and only if 2d = ibufMaxSize + 1 |
| PostgreSQLRuns.DefaultDrifts | extensions/DBServer-PostgreSQL/DBServer_PostgreSQL.cc:349-354 | with the defaults 2000 and 0.5 a run of 2001 records leaves 1001 records and a counter of 1000 |
| PostgreSQLRuns.ConfirmExactly | extensions/DBServer-PostgreSQL/DBServer_PostgreSQL.cc:102-105 | in every run every confirmation, while connected and with accepted writes, follows all buffered records and queued queries, if and only if d is between 1 and ibufMaxSize or the factor is 0 |
| PostgreSQLRuns.ConfirmWithin | extensions/DBServer-PostgreSQL/DBServer_PostgreSQL.cc:240-256 | with a counter within its maximum a confirmation is in order exactly if the counter is not 0 over a buffer that is not empty |
| PostgreSQLRuns.ConfirmBeyond | extensions/DBServer-PostgreSQL/DBServer_PostgreSQL.cc:210-238 | with a counter that ran away it is in order exactly if nothing was buffered |
| PostgreSQLRuns.PgOrderInEveryRun | extensions/DBServer-PostgreSQL/DBServer_PostgreSQL.cc:151-206 | the order of queries, and what was dropped, holds with the writes of the insert buffer in between |
| PostgreSQLRuns.PgQueueWhileDisconnected | extensions/DBServer-PostgreSQL/DBServer_PostgreSQL.cc:151-453 | the queue of an outage of the server, over every run of its events, records, confirmations and timers included, under both settings of lastRemove |
| PostgreSQLRuns.PgConnectTries | extensions/DBServer-PostgreSQL/DBServer_PostgreSQL.cc:380-393 | an attempt of the server that connects tries every queued query and leaves the queue empty |
| PostgreSQLRuns.PgIdleInEveryRun | extensions/DBServer-PostgreSQL/DBServer_PostgreSQL.cc:151-453 | over any run of the server no query waits while connected, if and only if no ping restores the connection while queries wait |
| PostgreSQLRuns.PgMachineInEveryRun | extensions/DBServer-PostgreSQL/DBServer_PostgreSQL.cc:317-453 | so does the rule of the two connection timers |
| ClickHouse.BackendClickHouse.constructor | extensions/Backend-ClickHouse/BackendClickHouse.cc:181-190 | seven empty columns over a well-formed tag configuration |
| ClickHouse.BackendClickHouse.ClearData | extensions/Backend-ClickHouse/BackendClickHouse.cc:192-201 | all seven columns are empty again |
| ClickHouse.BackendClickHouse.FlushBuffer | extensions/Backend-ClickHouse/BackendClickHouse.cc:451-478 | an inserted block has the columns of exactly the buffered rows; a failure changes nothing; all blocks together hold the inserted rows |
| ClickHouse.BackendClickHouse.AppendColumns | extensions/Backend-ClickHouse/BackendClickHouse.cc:330-378 | one message appends one row: index k of every column is from the same message |
| ClickHouse.TagArrays | extensions/Backend-ClickHouse/BackendClickHouse.cc:349-374 | keys and values of own, global and dynamic tags, in that order and pairwise |
| ClickHouse.RowColumns | extensions/Backend-ClickHouse/BackendClickHouse.cc:330-374 | which part of a message is in which column: time, value, names of sensor, node and supplier, and the three kinds of tags by position |
| ClickHouse.BackendClickHouse.SensorInfo | extensions/Backend-ClickHouse/BackendClickHouse.cc:312-412 | the whole new state of one message; columns are still one sequence of rows and the blocks hold the inserted ones; unknown sensors change nothing |
| ClickHouse.BackendClickHouse.OnFlushTimer | extensions/Backend-ClickHouse/BackendClickHouse.cc:416-426 | the flush timer: insert, or ping and reconnect; columns and blocks as before |
| ClickHouse.BackendClickHouse.OnReconnectTimer | extensions/Backend-ClickHouse/BackendClickHouse.cc:427-439 | the reconnect timer: connection, flush and timers; columns and blocks as before |
| ClickHouse.BackendClickHouse.OnStartUp | extensions/Backend-ClickHouse/BackendClickHouse.cc:442-449 | start-up: a failed connection arms the reconnect timer |
| ClickHouse.SensedConserves | extensions/Backend-ClickHouse/BackendClickHouse.cc:380-391 | the end of sensorInfo keeps order and count of all rows, whatever the database answers |
| ClickHouse.MessageAccepted | extensions/Backend-ClickHouse/BackendClickHouse.cc:314-325 | a message makes exactly one row if its sensor is configured and known, and does nothing otherwise |
| ClickHouse.MessageTimer | extensions/Backend-ClickHouse/BackendClickHouse.cc:380-398 | after a message the flush timer is on unless all rows were inserted |
| ClickHouse.FlushTimerExactly | extensions/Backend-ClickHouse/BackendClickHouse.cc:416-426 | the flush timer inserts all rows, if and only if there are none or a connection and an accepting database; what it does to the timers |
| ClickHouse.ReconnectTimerExactly | extensions/Backend-ClickHouse/BackendClickHouse.cc:427-439 | connected exactly if the attempt worked, and then all rows inserted if and only if there are none or the database accepts; the flush timer is asked for |
| ClickHouse.StartExactly | extensions/Backend-ClickHouse/BackendClickHouse.cc:442-449 | connected exactly if the attempt worked; a failed one arms the reconnect timer |
| ClickHouse.DiscardsExactly | extensions/Backend-ClickHouse/BackendClickHouse.cc:312-439 | of all events only a message discards rows, exactly if with its row both sizes are reached and the flush fails, and then all of them; no other event loses or reorders a row |
| ClickHouse.ConservedInEveryRun | extensions/Backend-ClickHouse/BackendClickHouse.cc:312-478 | in every run inserted rows, then buffered rows, are accepted rows in order without duplicates; every accepted row is inserted, buffered or discarded; fewer rows are buffered than the larger size |
| ClickHouse.LossesInEveryRun | extensions/Backend-ClickHouse/BackendClickHouse.cc:380-391 | in every run the discarded rows are the buffers of exactly those messages |
| ClickHouse.RowsFromHistory | extensions/Backend-ClickHouse/BackendClickHouse.cc:365-374 | for a sound tag configuration the k-th row of every run, dynamic tags included, is a function of the first k + 1 handled messages: last value of each controlling sensor or its default |
| ClickHouseCoupled.MessageRight | extensions/Backend-ClickHouse/BackendClickHouse.cc:365-374 | one message: its dynamic tags are the specified ones, and the invariant of the sections is kept |
| ClickHouseCoupled.SoundRows | extensions/Backend-ClickHouse/BackendClickHouse.cc:365-374 | under the condition below the rows of every run are what the messages and the configuration say |
| ClickHouseCoupledExact.UnsteadyRows | extensions/Backend-ClickHouse/BackendClickHouse.cc:367-368 | a side that is neither steady nor pinned to one value has a run with a wrong row |
| ClickHouseCoupledExact.SharedRows | extensions/Backend-ClickHouse/BackendClickHouse.cc:367-368 | a section with %v under two controlling sensors has a run with a wrong row |
| ClickHouseCoupledExact.HomelessRows | extensions/Backend-ClickHouse/BackendClickHouse.cc:367-368 | so has one read by two lists under a sensor whose own list does not read it |
| ClickHouseCoupledExact.RowsExactly | extensions/Backend-ClickHouse/BackendClickHouse.cc:312-378 | main result: for recorded sensors, also such as control tags and have some, the rows of every run of the backend are right if and only if each side of each section read is steady with one reader, without %v or with a home, or is pinned to one value; a message updates a state and reads its own tags, which is less than the cache alone allows |
| ClickHouseCoupledExact.SoundIsCoupled | extensions/Backend-ClickHouse/BackendClickHouse.cc:365-374 | what is right for the cache under all calls is right for the backend |
| ClickHouseCoupledExact.SeparateRows | extensions/Backend-ClickHouse/BackendClickHouse.cc:365-374 | where controlling sensors and sensors with tags are apart, the backend is right if and only if the cache is |
| ClickHouseRows.WrongRow | extensions/Backend-ClickHouse/BackendClickHouse.cc:368-378 | a message for which getTags answers wrongly makes a row that is wrong |
| ClickHouse.ColumnsByIndex | extensions/Backend-ClickHouse/BackendClickHouse.cc:461-468 | the columns of some rows have their number as length, and index k of every column is from row k |
| ClickHouse.ColumnsAreRows | extensions/Backend-ClickHouse/BackendClickHouse.cc:461-468 | seven columns determine the sequence of rows they are the columns of |
| ClickHouse.HoldOneMore | extensions/Backend-ClickHouse/BackendClickHouse.cc:461-476 | one block more holds the inserted rows and those of the block |
| OpenTSDB.Flush | extensions/Backend-OpenTSDB/BackendOpenTSDB.cc:330-393 | success is reported exactly if the buffer is empty afterwards, and a failure keeps every line |
| OpenTSDB.FlushExactly | extensions/Backend-OpenTSDB/BackendOpenTSDB.cc:343-392 | every outcome of a flush of lines: what goes or stays, the stream, and all timers |
| OpenTSDB.FlushSends | extensions/Backend-OpenTSDB/BackendOpenTSDB.cc:354-369 | the bytes on the wire are the first ones of the buffer, as many as were taken |
| OpenTSDB.FlushEmpty | extensions/Backend-OpenTSDB/BackendOpenTSDB.cc:332-341 | an empty buffer only turns the flush timer off |
| OpenTSDB.BackendOpenTSDB.constructor | extensions/Backend-OpenTSDB/BackendOpenTSDB.cc:27-48 | empty buffer, no stream, no timer |
| OpenTSDB.BackendOpenTSDB.FlushBuffer | extensions/Backend-OpenTSDB/BackendOpenTSDB.cc:330-393 | every outcome of the send: cleared, kept, reconnected, reconnect timer armed |
| OpenTSDB.BackendOpenTSDB.Reconnect | extensions/Backend-OpenTSDB/BackendOpenTSDB.cc:395-440 | a stream exists exactly if the new connection worked |
| OpenTSDB.BackendOpenTSDB.SensorInfo | extensions/Backend-OpenTSDB/BackendOpenTSDB.cc:250-308 | up to two flushes, then the line is buffered or lost; unknown sensors change nothing |
| OpenTSDB.BackendOpenTSDB.OnFlushTimer | extensions/Backend-OpenTSDB/BackendOpenTSDB.cc:312-313 | the flush timer |
| OpenTSDB.BackendOpenTSDB.OnReconnectTimer | extensions/Backend-OpenTSDB/BackendOpenTSDB.cc:314-318 | the reconnect timer stops once a connection works |
| OpenTSDB.BackendOpenTSDB.OnStartUp | extensions/Backend-OpenTSDB/BackendOpenTSDB.cc:321-328 | start-up: a failed connection arms the reconnect timer |
| OpenTSDB.RunBound | extensions/Backend-OpenTSDB/BackendOpenTSDB.cc:256-268 | the larger of the two sizes, or 1, bounds the buffer in every run |
| OpenTSDB.BoundExactly | extensions/Backend-OpenTSDB/BackendOpenTSDB.cc:256-268 | the larger size itself bounds it in every run if and only if it is not 0 |
| OpenTSDB.FlushStream | extensions/Backend-OpenTSDB/BackendOpenTSDB.cc:353-376 | one flush keeps the bytes at the peer equal to the lines removed if what it sends is sent all or nothing, and is behind otherwise |
| OpenTSDB.StreamExactly | extensions/Backend-OpenTSDB/BackendOpenTSDB.cc:250-393 | after any run accepted lines are those removed, then those buffered, and the peer has exactly the bytes of the former, if and only if every send that was reached took all or nothing |
| OpenTSDB.LineVanishes | extensions/Backend-OpenTSDB/BackendOpenTSDB.cc:356-369 | a run from the start in which another errno makes an accepted line vanish |
| OpenTSDB.LineLostExactly | extensions/Backend-OpenTSDB/BackendOpenTSDB.cc:256-268 | a line is lost exactly if the buffer has reached both sizes and both flushes fail; nothing else is lost with it |
| OpenTSDB.SensorExactly | extensions/Backend-OpenTSDB/BackendOpenTSDB.cc:256-298 | for every message which flush is tried, and where the old lines and the new one are afterwards |
| OpenTSDB.FlushTimerExactly | extensions/Backend-OpenTSDB/BackendOpenTSDB.cc:312-313 | the flush timer removes all lines exactly if the flush is not refused |
| OpenTSDB.ConnectsExactly | extensions/Backend-OpenTSDB/BackendOpenTSDB.cc:314-328 | a stream after a reconnect or a start exactly if it worked, and the reconnect timer |
| OpenTSDB.AcceptedInEveryRun | extensions/Backend-OpenTSDB/BackendOpenTSDB.cc:256-298 | in every run the accepted lines are the offered ones in order without those |
| OpenTSDB.SplitConcat | extensions/Backend-OpenTSDB/BackendOpenTSDB.cc:346-349 | cutting concatenated lines at newlines gives the lines back |
| OpenTSDB.PeerReadsAcceptedLines | extensions/Backend-OpenTSDB/BackendOpenTSDB.cc:250-393 | what the peer cuts out of the stream, then the buffer, are the accepted lines in order |
| OpenTSDBLines.LineReads | extensions/Backend-OpenTSDB/BackendOpenTSDB.cc:274-296 | a line cut at its spaces gives three fields: measurement, project, sensor, common and own tags in this order; the value; the moment in milliseconds |
| OpenTSDBLines.PeerReadsMessages | extensions/Backend-OpenTSDB/BackendOpenTSDB.cc:250-393 | end to end: with names and tags without space and newline, what the peer cuts out of the bytes, then the buffer, are lines that read as messages in the order of arrival, each with its series, value and moment |
| OpenTSDB.LineIsOneLine | extensions/Backend-OpenTSDB/BackendOpenTSDB.cc:274-296 | names and tags without a newline make exactly one line |
| OpenTSDB.TimeStampReads | extensions/Backend-OpenTSDB/BackendOpenTSDB.cc:293-294 | seconds followed by three padded digits read as sec * 1000 + ms, exactly if the seconds are not negative or there are no milliseconds |
| DelayTimers.DelayTimer.constructor | include/DelayTimer.h:34-36 | false and not waiting, over no sample |
| DelayTimers.DelayTimer.Set | include/DelayTimer.h:39-46 | new delays, and the history starts anew |
| DelayTimers.DelayTimer.Reset | include/DelayTimer.h:49-56 | the same delays, and the history starts anew |
| DelayTimers.DelayTimer.Check | include/DelayTimer.h:58-128 | for every history of samples at non-decreasing times the answer is the declarative debouncer; never both waits, a wait for on only while off and the reverse |
| DelayTimers.DelayTimer.Get | include/DelayTimer.h:130-133 | the last sample once more |
| DelayTimers.DelayTimer.IsWaiting | include/DelayTimer.h:159-163 | waiting exactly while signal and debounced output differ |
| DelayTimers.RunStartIsMaximal | include/DelayTimer.h:58-128 | the stretch that the debouncer measures is the maximal one of equal samples that ends now |
| DelayTimers.OutputIsLastSettled | include/DelayTimer.h:58-128 | the debouncer without recursion: true exactly if some true value outlasted its delay and no false one has since |
| DelayTimers.SwitchOnTime | include/DelayTimer.h:58-128 | a signal that turns true shows exactly when it has held for onDelay, at once for none and never for WaitUpTime |
| DelayTimers.SwitchOffTime | include/DelayTimer.h:58-128 | one that turns false shows until it has held for offDelay |
| HourGlasses.HourGlass.constructor | include/HourGlass.h:66 | an empty glass |
| HourGlasses.HourGlass.Run | include/HourGlass.h:70-76 | a full glass starts the direct way |
| HourGlasses.HourGlass.Reset | include/HourGlass.h:78-81 | the same size once more |
| HourGlasses.HourGlass.Rotate | include/HourGlass.h:92-127 | refines an ideal glass that gains or loses one unit a tick between 0 and its size, turned at this moment; a turn the same way changes no field |
| HourGlasses.HourGlass.Check | include/HourGlass.h:142-150 | true exactly if the ideal glass runs the direct way and is empty |
| HourGlasses.HourGlass.Remain | include/HourGlass.h:164-189 | the sand of the ideal glass at any later moment, for sizes below 2^31 |
| HourGlasses.HourGlass.Amount | include/HourGlass.h:158-161 | with remain() it adds up to the size |
| HourGlasses.RemainExactly | include/HourGlass.h:183-188 | the 32-bit remainder is right at every moment of a run if and only if the size is below 2^31 |
| HourGlasses.SameTurnIsNothing | include/HourGlass.h:94-95 | turning a glass the way it runs changes no later moment |
| HourGlasses.TurnedTwice | include/HourGlass.h:42-50 | sand that has run back has to fall once more: the rest after two turns, and the moment at which the glass is empty |
| HourGlasses.TicksClosedForm | include/HourGlass.h:164-189 | n ticks in one formula |
| Pulses.Pulse.constructor | include/Pulse.h:36-39 | off until it is run |
| Pulses.Pulse.SetTimes | include/Pulse.h:43-55 | both times and a start, or off |
| Pulses.Pulse.Set | include/Pulse.h:95-107 | a pulse starts now, or off |
| Pulses.Pulse.Step | include/Pulse.h:62-83 | the two timer tests in their order, and the output |
| Pulses.SquareWaveExactly | include/Pulse.h:62-83 | called at every tick the output is true for the first t1 of each t1 + t0 ticks, if and only if t1 is at least 1 |
| Pulses.PhaseLength | include/Pulse.h:62-83 | under any polling a pulse (a pause) lasts at least t1 (t0) and less than one gap between calls longer |
| Pulses.NoPauseTime | include/Pulse.h:76-80 | without a pause the output is true at every call |
| Pulses.SetRestarts | include/Pulse.h:95-107 | set(true) and reset() make any pulse one that was just run with its times |
| Pulses.SetStops | include/Pulse.h:95-100 | after set(false) every call answers false |
| Simulator.Simulate | Utilities/SImitator/main.cc:164-273 | the n-th output of the loop is the closed form, for bounds in either order, and no sum leaves the 32-bit int |
| Simulator.WaveInRangeAndPeriodic | Utilities/SImitator/main.cc:214-270 | the closed form stays between the bounds and has the period of two ramps |
| Simulator.WaveClosedForm | Utilities/SImitator/main.cc:214-270 | the output at step r of any period of 2k, k being the steps from bound to bound |
| Simulator.TurnIsStep | Utilities/SImitator/main.cc:219-270 | one turn moves the loop variables one step along the wave |

## Left out

- Iterators kept in a list entry (`it`, `vit`) are the keys they point to; rehashing of the maps is not modelled.
- Ranges, tags and list entries are values inside the maps of their class: sharing of a section is kept, C++ aliasing is not.
- ClickHouse.BackendClickHouse.AppendColumns: the seven columns are the components of one field, where the source has seven pointers.
- ClickHouseCoupledExact.RowsExactly: leaves open the backends in which a controlling sensor is not recorded and so keeps its default; ClickHouseCoupled.SoundRows gives the sufficient half for them.
- XML walking, `explode_str` and number parsing: items arrive parsed, a missing section or sensor is an input.
- TagsConfig.ClickHouseTagsConfig.InitFromTags: does not say that the configuration stays well formed without a tag; the entry would then read a section that was never bound.
- TagsConfig.ClickHouseTagsConfig.LoadTagsMap: does not say so of a load after lists were built, which leaves their iterators dangling.
- Pulses.PhaseLength: for a pause of at least 1 (Pulses.NoPauseTime is the other case) and times that are not `WaitUpTime`.
- Clocks: a timer reads a time in milliseconds that its caller passes; the truncation of nanoseconds is not modelled.
- PassiveTimers: a timer is a value inside the object that owns it; `WaitUpTime` as the size of an hourglass and as a pulse is not modelled, as a delay it is.
- HourGlasses.HourGlass.Run: for times that are not negative and not `WaitUpTime`.
- HourGlasses.HourGlass.Rotate: the sum of sand and time is unbounded; in the program it can leave the signed 64 bits for sizes above 2^62.
- HourGlasses.HourGlass.Remain: without a bound on the size its contract states the 32-bit reading only; HourGlasses.RemainExactly says why.
- PostgreSQL.DBServer_PostgreSQL.AddRecord: requires a factor under which the first overflow stays inside the vector; beyond it the code has undefined behaviour, and PostgreSQLRuns.InsideExactly says exactly when that is.
- PostgreSQL.DBServer_PostgreSQL.constructor: takes such a factor for the same reason.
- PostgreSQL.DBServer_PostgreSQL.ConfirmInfo: is stated for objects with such a factor, and so is PostgreSQL.DBServer_PostgreSQL.TimerInfo.
- PostgreSQL settings: ibufMaxSize, the factor, qbufSize and lastRemove are fixed for a run; in the program they have the defaults of the header until the first initDBServer reads them.
- Runs in which the overflow leaves the vector: the model marks them and keeps the buffer as it was, so what PostgreSQLRuns.PgOrderInEveryRun, PostgreSQLRuns.PgMachineInEveryRun and PostgreSQLRuns.PgQueueWhileDisconnected say of them says nothing about the program.
- PostgreSQLRuns.ConfirmExactly: for a factor below about 3e-20 its failing run needs a counter beyond the 64 bits of size_t, and for d above ibufMaxSize + 1 the failing run leaves the vector.
- The clean factor is a real number that is not negative; the rounding of `float` products before `lroundf` is not modelled.
- `copy` writes all records or none; the SQL text, dates and scaling of values are opaque strings.
- PostgreSQL `onReconnect` hooks, `deactivateObject`, and the system commands Finish and FoldUp, which cancel timers.
- Liveness of the flush timers: the one-shot timer can be consumed while `timerIsOn` stays true, so no claim is made.
- Exceptions of the ClickHouse `Append` calls, which would leave columns of different length.
- An exception of `sendBytes` is taken to have sent nothing; `lastError` and the log texts are not modelled.
- Locks and threads: each handler is one step.
- The modifying functions of the simulator (sine, cosine, random), its sensors and pauses.
- DBServer_SQLite, the other timers and triggers, the message queues and the log server: easier relatives or other parts.
