# Lift gateway: a verified model

The gateway sits between a lift and the cloud. It finds out which lift it is wired
to, polls its parameters, writes to them, fetches trace logs, uploads upgrade
packages, and offers a Bluetooth Wi-Fi setup. This project models the parts where
state, interleaving and arithmetic meet, and proves what they promise.

Hardware is an adversary: replies may be lost, late, malformed or raise, and the lift
may change a value at any moment. Where a property needs more from the lift, the
model says so: the change-flag protocol (`LiftProxyModel.LcmOk`, `Stored`,
`AfterRead`), and that an acknowledged upgrade record was taken (`UpgradePackage.Honest`).

| module | models |
|---|---|
| `Bits`, `Text` | integers as bits, and the decimal and hexadecimal grammar of Python's `int` |
| `ModbusRegisters` | values as pairs of 16-bit registers (sections 6.3 and 6.12 of the MODBUS Application Protocol V1.1b3) |
| `Ahl` | polling tables, change-flag decoder and value cache of the AHL lift |
| `LiftProxyModel` | the proxy as a protocol of atomic steps split at every `await` |
| `LiftLine`, `ProxySteps`, `CacheReports`, `LiftProxyObject` | the retrying calls over the wire, and the proxy object with its coroutines, each shown to be a run of the protocol |
| `LiftProxySafety`, `CacheCoherence`, `CoherenceRuns`, `PollRuns`, `StaleRuns` | what holds in every run of that protocol, what a poll fetches, and how parameters are lost |
| `TraceLog`, `UpgradePackage` | the two file-transfer loops (sections 4.1, 6.14 and 6.15 of the same standard) |
| `ThousandFiles`, `PollReply`, `FloorLock` | byte files, poll replies and floor locks of the 1k lift |
| `DoorCounter` | door counters that survive restarts of the lift and of the gateway |
| `SerialTransaction`, `FrameRouter` | the framing loop under its deadline, and the routing of frames |
| `WifiScan`, `WifiController` | scan results and the status state machine |

Where the code and its comments disagree, the model follows the code:

- The docstring of `write_read_param` says a failed read-back is left for the next poll
  to correct. If that poll gets its answers, it is corrected exactly if the lift has
  flagged the group of the parameter and still has a value for it
  (`PollRuns.ReadBackCorrected`).
- Reading register 2 clears the flags, and the read is retried three times. If the lift
  serves a read but its reply is lost, the retry reads a cleared word.
- A poll skips a parameter whose read fails, and the cold-start flag falls when a forced
  poll returns, whatever its reads brought. If the link is down during the first poll
  after the bind, the flag is down, nothing is cached, and every parameter the lift had
  not flagged stays stale (`StaleRuns.ColdStartWithoutLink`). `PollRuns.PollFetches` says
  what any poll that returns leaves cached.
- A sweep that an exception leaves drops what it had still to read, whether its caller
  forced it or not, once the cold-start flag is down. Request exceptions become error
  codes inside the read call, so this takes an exception outside its retry loop, as when
  the port cannot be opened again.
- `CacheCoherence.StepExact` names every step that loses a parameter and every step that
  gets it back: until the lift flags a change in the same group, a forced poll begins,
  or the parameter is written, it stays stale (`CacheCoherence.StaleRun`). `StaleRuns.LossesReachable` shows such runs from power-on.
- A write to parameters 102 to 104 on old firmware sends the value shifted left by one
  and mirrors it unshifted (`ModbusRegisters.MirrorMatchesRead`, `StaleRuns.MirrorUnlike`).
- The door counters go wrong when a door starts over and a file cannot be written or the
  reply is cut short. A total that could not be written is lost only by a restart before
  the next save. `DoorCounter.RunRight` says exactly which runs keep the counts right.
- A heartbeat can publish connection data after the connection is gone
  (`WifiController.CurrentOnlyOnWlan` says exactly when), or data that the script took
  under an earlier connection (`WifiController.CurrentOfConnection`).

## Model

| member | source | states |
|---|---|---|
| `LiftProxySafety.BindingStep` | src/liftApi/lift_proxy.py:134-211 | every step keeps the proxy either unbound with both candidates open, or bound to exactly the matching open handler and lib with candidates cleared; a bound type, handler and table never change |
| `LiftProxySafety.ColdStartStep` | src/liftApi/lift_proxy.py:200-206 | every step keeps the history in agreement with the cold-start flag: at most one bind, polls only after it, the first poll to return forced, each table choice justified by its reply code |
| `LiftProxySafety.SafeRun` | src/liftApi/lift_proxy.py:154-211 | over every run from a safe state the proxy is never half-bound, the history agrees with the cold-start flag, the traffic of a write and its read-back is contiguous, and a bound type, handler and table are what they were |
| `LiftProxySafety.ColdStartNeverLost` | src/liftApi/lift_proxy.py:397-405 | in every run from power-on, bound with the flag cleared means a forced poll returned after the only bind, and no poll returned before it |
| `LiftLine.Line.Read` | src/liftApi/modbus_handler.py:274-312 | a read call is a run of the protocol, and the fates of its attempts determine it: up to the first that ends it and at most three, what the lift answered last or the error code, the exception, and the lift afterwards |
| `LiftLine.Line.Write` | src/liftApi/modbus_handler.py:366-386 | the same of a write call: acknowledged exactly if the last attempt was served and not refused, and the lift holds what the attempts that reached it left |
| `LiftLine.RetryAgrees` | src/liftApi/modbus_handler.py:289-312 | whatever result meets the contract of the reading method is the one the protocol's attempts end in, after as many tries |
| `LiftProxyObject.PollAhl` | src/lib/ahl_lib.py:150-205 | the library's poll is a run of the protocol; it names exactly the parameters whose cached value changed, each once; if every request is served it does not raise, caches exactly what was asked for and has a value, and changes nothing else |
| `LiftProxyObject.SweepAhl` | src/lib/ahl_lib.py:191-205 | the same of the sweep loop over the decoded candidates, skipping what the database does not know |
| `LiftProxyObject.DetectTable` | src/liftApi/lift_proxy.py:669-704 | the probe of parameter 127 is a run of the protocol that binds with the new table if it is readable, with the old one on LCM_ERR, and otherwise raises with the proxy as it was; if served it does not raise and finds the firmware's table |
| `LiftProxyObject.WriteAhl` | src/liftApi/lift_proxy.py:343-358 | write and read-back are a run of the protocol under one hold of the lock; the cache takes the value read back, the value written, or nothing; if every request is served the write succeeds and the read-back is what the lift then holds |
| `LiftProxyObject.LiftProxy.constructor` | src/liftApi/lift_proxy.py:121-132 | a new proxy is unbound and is the proxy of every power-on state |
| `LiftProxyObject.LiftProxy.PublishPair` | src/liftApi/lift_proxy.py:199-206 | the publication block leaves the proxy fully bound to the pair, with the cold-start flag up |
| `LiftProxyObject.LiftProxy.TryIdentify` | src/liftApi/lift_proxy.py:134-211 | identification and bind are a run of the protocol; afterwards the proxy is fully bound with the firmware's table and the flag up, or, after an unknown probe or a raise, exactly as before |
| `LiftProxyObject.LiftProxy.PollParams` | src/liftApi/lift_proxy.py:397-405 | the poll coroutine is a run of the protocol with the reports and the fetches of the library's poll; the binding is untouched, and the cold-start flag falls exactly when a bound poll returns |
| `LiftProxyObject.LiftProxy.WriteParam` | src/liftApi/lift_proxy.py:309-358 | the two write coroutines are runs of the protocol; with read-back the cache takes only what was read back, without it the value written, and after a failure or a raise nothing; served requests succeed |
| `LiftProxyModel.OutsideStep` | src/liftApi/lift_proxy.py:134-152 | steps outside the lock touch neither proxy nor cache nor history |
| `LiftProxyModel.AnswerOnTheWire` | src/liftApi/modbus_handler.py:694-705 | the reply of the model's lift is what the read path makes of the two registers that carry the word |
| `Ahl.GroupMembers` | src/lib/ahl_lib.py:21-49 | each table's groups hold exactly the parameters an independent arithmetic description gives them, so they are disjoint |
| `Ahl.DecodeMembers` | src/lib/ahl_lib.py:135-148 | for every integer mask a parameter is decoded if and only if its flag is set |
| `Ahl.DecodeToOrdered` | src/lib/ahl_lib.py:135-148 | a decoded list is ordered by flag and then by number, so no parameter is in it twice and its members determine it |
| `Ahl.AllFlags` | src/lib/ahl_lib.py:168-180 | the mask of the forced sweep has every flag |
| `Ahl.AhlLib.DecodeChangeFlags` | src/lib/ahl_lib.py:135-148 | the decoding loop computes the specification |
| `Ahl.AhlLib.GetParam` | src/lib/ahl_lib.py:87-105 | value and error code for known, unset and missing parameters |
| `Ahl.AhlLib.SetParam` | src/lib/ahl_lib.py:107-125 | the cache changes in one entry, and the parameter is reported exactly if it is known and the value differs |
| `CacheCoherence.FlagsDecode` | src/lib/ahl_lib.py:135-148 | for every set of flags the polled word decodes to exactly the groups of those flags |
| `CacheCoherence.AnswerTells` | src/liftApi/modbus_handler.py:274-312 | what a served read says: the flagged groups, or the value held, or the error pattern |
| `CacheCoherence.InvStep` | src/lib/ahl_lib.py:150-205 | every step of every coroutine and every change by the lift keeps the coherence invariant |
| `CacheCoherence.InvRun` | src/lib/ahl_lib.py:150-205 | so does every run |
| `CacheCoherence.StepExact` | src/lib/ahl_lib.py:150-205 | a parameter that is cached as held, flagged or pending stays so exactly if the step is none of the named losing ones, and one that is not becomes so exactly if the step is one of the named recovering ones |
| `CacheCoherence.CacheCoherent` | src/lib/ahl_lib.py:150-205 | in every run from power-on, a parameter in database and table is always cached as held, flagged or pending from the cold-start poll on, if and only if no step of the run loses it |
| `CacheCoherence.StaleRun` | src/lib/ahl_lib.py:182-203 | a lost parameter stays stale throughout a run if and only if no step of the run recovers it |
| `PollRuns.PollFetches` | src/lib/ahl_lib.py:150-205 | after any poll that returns, whatever failed in it, the cold-start flag is down, and a parameter the lift did not change meanwhile is cached as held if and only if it was so before or some answer of the sweep for it was a value |
| `PollRuns.AnsweredPollFetches` | src/lib/ahl_lib.py:150-205 | after a poll that got its answers, a parameter is cached as held if and only if it was so before, or the poll was forced or its flag was up and the lift has a value for it |
| `PollRuns.ForcedPollRepairs` | src/lib/ahl_lib.py:168-180 | a forced poll that gets its answers repairs whatever was lost before |
| `PollRuns.PollCompletes` | src/lib/ahl_lib.py:150-205 | every poll inside the lock can run to its end, wherever its current read stands, and gets all its answers if that read is still open |
| `PollRuns.ReadBackCorrected` | src/liftApi/lift_proxy.py:319-358 | a plain poll that begins right after a failed read-back and gets its answers corrects it if and only if the cache was right anyway, or the group is flagged and the lift has a value |
| `CoherenceRuns.SmoothNeverLoses` | src/lib/ahl_lib.py:182-203 | runs in which no read fails, no call raises and no flag reply goes missing lose nothing |
| `CoherenceRuns.CoherentWithoutFailures` | src/lib/ahl_lib.py:150-205 | in those runs every parameter is always cached as held, flagged or pending from the cold-start poll on |
| `CoherenceRuns.QuietCacheIsLift` | src/lib/ahl_lib.py:150-205 | at rest with no flag up, every parameter the run has not lost is cached as the lift holds it |
| `CoherenceRuns.TableIsFirmware` | src/liftApi/lift_proxy.py:669-704 | in every run the polling table in use is that of the lift's firmware |
| `CoherenceRuns.SweepReports` | src/lib/ahl_lib.py:191-203 | a sweep step reports a parameter if and only if it changes its cached value |
| `CoherenceRuns.OnlySweepsReport` | src/lib/ahl_lib.py:191-203 | no other step reports anything |
| `StaleRuns.ColdStartReachable` | src/liftApi/lift_proxy.py:134-211 | from every power-on state there is a run to rest with every parameter the lift has a value for cached |
| `StaleRuns.ColdStartWithoutLink` | src/lib/ahl_lib.py:194-203 | from every power-on state there is a run in which the forced poll after the bind returns without an answer: the flag is down, nothing is cached and every parameter not flagged is stale |
| `StaleRuns.LostFlagReply` | src/lib/ahl_lib.py:182-189 | from rest, one lost reply to the flag read leaves a changed parameter stale |
| `StaleRuns.RaisingSweep` | src/lib/ahl_lib.py:191-203 | so does a sweep that raises, forced by its caller or not |
| `StaleRuns.FailedReadBack` | src/liftApi/lift_proxy.py:351-355 | so does a failed read-back of a value the lift took as sent without a flag |
| `StaleRuns.MirrorUnlike` | src/liftApi/lift_proxy.py:360-373 | so does a reset-alarm value sent in another form than it is mirrored |
| `StaleRuns.LossesReachable` | src/lib/ahl_lib.py:150-205 | the first three are reached from every power-on state, for every parameter with a value |
| `CoherenceRuns.SettledRun` | src/lib/ahl_lib.py:191-203 | a parameter cached as held is not reported by any poll of any run that does not change it |
| `CoherenceRuns.WriteNotEchoed` | src/liftApi/lift_proxy.py:311-317 | a write stored as sent and mirrored as sent is not reported as changed afterwards |
| `CoherenceRuns.AcceptedWriteNotEchoed` | src/liftApi/lift_proxy.py:360-373 | so a successful write of any accepted decimal or hexadecimal text, to any parameter but the reset-alarm ones, is not reported by later polls |
| `ModbusRegisters.PackValue` | src/liftApi/modbus_handler.py:1160-1196 | exactly the signed 32-bit values pack, into their two base-65536 digits, high word first |
| `ModbusRegisters.ValidateRead` | src/liftApi/modbus_handler.py:661-705 | a value exactly for two registers that are not both 0xDEAD; LCM_ERR, REG_ERR and COM_ERR exactly for the other kinds of reply |
| `ModbusRegisters.RegistersSpell` | src/liftApi/modbus_handler.py:694-705 | the value is the signed 32-bit number the two registers spell |
| `ModbusRegisters.AddressOf` | src/liftApi/modbus_handler.py:1117-1158 | the decimal text of every parameter number addresses twice that number |
| `ModbusRegisters.HexIsPattern` | src/liftApi/modbus_handler.py:36-61 | hexadecimal text of every 32-bit pattern, in either case and with either prefix, is its signed value; with a minus sign it is the negated number |
| `ModbusRegisters.DecimalIsNumber` | src/liftApi/modbus_handler.py:36-61 | decimal text of every number, with either sign and any spaces around it, is that number |
| `ModbusRegisters.ReadParameter` | src/liftApi/modbus_handler.py:116-312 | without a link or with bad arguments nothing is sent and the code says why; otherwise one to three tries, the result is that of the last, earlier ones were inconclusive, and fewer than three only after a conclusive one |
| `ModbusRegisters.WireRoundTrip` | src/liftApi/modbus_handler.py:694-705 | packing, sending and decoding gives every signed 32-bit value back except the error pattern, which reads as LCM_ERR |
| `ModbusRegisters.WriteRefinesTable` | src/liftApi/modbus_handler.py:1117-1196 | the register array refines a table of values: a write changes its own entry and no other |
| `ModbusRegisters.MirrorMatchesRead` | src/liftApi/lift_proxy.py:360-373 | for every accepted text the sent value is the mirrored one, doubled for a reset alarm on old firmware, and the mirrored value is what the read path decodes if and only if it is not the error pattern and not so doubled |
| `ModbusRegisters.DecimalIsNotHex` | src/liftApi/modbus_handler.py:36-61 | no text is read both as hexadecimal and as decimal |
| `TraceLog.UnbrokenPass` | src/liftApi/modbus_handler.py:475-535 | for every reply sequence, reaching record r means the last r requests asked for records 0 to r-1 in order and were answered well |
| `TraceLog.RequestBound` | src/liftApi/modbus_handler.py:475-535 | the requests made so far are bounded by the failures times the record count plus the progress |
| `TraceLog.BoundTotal` | src/liftApi/modbus_handler.py:475-561 | the loop ends within ten times the record count |
| `TraceLog.WholePassLength` | src/liftApi/modbus_handler.py:437-456 | the expected lengths of all records add up to exactly 2048 or 32768 bytes without the name |
| `TraceLog.PassComplete` | src/liftApi/modbus_handler.py:437-561 | a finished log is one unbroken pass of exactly that length |
| `TraceLog.NameAndLog` | src/liftApi/modbus_handler.py:530-535 | the 32 name bytes followed by the log are exactly the bytes of the pass without headers and checksums |
| `TraceLog.GoodMeans` | src/liftApi/modbus_handler.py:748-866 | a reply is good exactly for its bytes: header, length byte, record length, no error, and in record 0 a first marker whose name decodes |
| `TraceLog.TraceReader.ValidateReadFile` | src/liftApi/modbus_handler.py:748-866 | verdict on a reply, and a good record 0 leaves a file name that ends in the marker and starts the name field |
| `TraceLog.TraceReader.Retrieve` | src/liftApi/modbus_handler.py:467-535 | the loop ends complete or with ten failures; complete, its data follows the name bytes in the last whole pass and has the log's size; the code is that of the last failure |
| `TraceLog.TraceReader.GenerateTraceLog` | src/liftApi/modbus_handler.py:412-561 | for every reply sequence: at most ten requests a record, data handed to the save exactly after a whole pass, with the name its exact bytes, 2048 or 32768 long; the last failure's code after ten failures, never NO_ERR; and the codes of the save and of a full disk |
| `UpgradePackage.GetRecordData` | src/liftApi/modbus_handler.py:928-964 | the records of a non-empty file concatenate to it and all but the last have 244 bytes; missing and empty files have their own codes |
| `UpgradePackage.WriteUpgradePackage` | src/liftApi/modbus_handler.py:599-627 | at most 20 writes a record; success exactly if all records were acknowledged in order, failure only after 20 unacknowledged writes of one record; an honest receiver then holds every record, and no receiver holds a wrong one |
| `UpgradePackage.AssembleRecords` | src/liftApi/modbus_handler.py:940-964 | a receiver that stores records by number assembles their concatenation |
| `UpgradePackage.Upload` | src/liftApi/modbus_handler.py:564-627 | nothing is sent of a missing, empty, wrongly named or headerless file, and the code says which; success means an honest receiver holds the file and nothing beyond it |
| `ThousandFiles.LeRoundTrip` | src/lib/thousand_lib.py:581-593 | little-endian bytes of a value that fits unpack to it |
| `ThousandFiles.UnpackUint` | src/lib/thousand_lib.py:581-593 | the shifting loop computes the little-endian value |
| `ThousandFiles.PatchReads` | src/liftApi/rs232_handler.py:1654-1684 | for every image and value that fits, the patched place reads as written and every place apart from it as before |
| `ThousandFiles.LayoutApart` | src/lib/thousand_lib.py:874-923 | parameters of one file never overlap |
| `ThousandFiles.FileWord` | src/lib/thousand_lib.py:874-923 | every parameter is the next 16-bit word of its file, low byte first |
| `ThousandFiles.PatchImage` | src/liftApi/rs232_handler.py:1654-1684 | the in-place loop computes the patch and keeps the length |
| `ThousandFiles.ThousandLib.GetUpdatedParams` | src/lib/thousand_lib.py:167-227 | each unpackable parameter of the file gets its value, all others stay, and exactly the changed ones are reported |
| `ThousandFiles.ThousandLib.WriteFileParam` | src/liftApi/rs232_handler.py:1563-1684 | when a write succeeds, what it does to image and database, and that a failed one leaves the database alone |
| `ThousandFiles.PollAfterWrite` | src/lib/thousand_lib.py:216-227 | polling the stored image leaves the parameter alone if and only if its value was canonical decimal; other parameters poll as before |
| `DoorCounter.CounterMeaning` | src/lib/thousand_lib.py:273-299 | for any readings the total is the last plus every reading followed by a smaller one, and `previous` is that sum |
| `DoorCounter.TotalNeverDecreases` | src/lib/thousand_lib.py:288-292 | totals never decrease |
| `DoorCounter.RecountedAt` | src/lib/thousand_lib.py:273-299 | doors do not disturb each other and the earlier sums change only with the flag |
| `DoorCounter.StepCounts` | src/liftApi/rs232_handler.py:787-833 | each poll, unanswered poll and restart keeps files and counters in agreement, and only a poll counts |
| `DoorCounter.RestartSafe` | src/liftApi/rs232_handler.py:787-904 | over any run with restarts each counter is the fold of its readings and the files hold it |
| `DoorCounter.LongRunCount` | src/liftApi/rs232_handler.py:787-904 | from a fresh gateway, the count shown after any run has the meaning above, however often the gateway restarted |
| `DoorCounter.StepRight` | src/liftApi/rs232_handler.py:787-833 | from any state, for every length of the reply and every fate of the files: all doors are afterwards as they ought to be if and only if the step is neither a start-over that does not reach the files nor a restart while these do not agree |
| `DoorCounter.RunRight` | src/liftApi/rs232_handler.py:787-904 | over any run of such polls and restarts the counts are right throughout if and only if no step is one of those |
| `DoorCounter.Heals` | src/liftApi/rs232_handler.py:787-833 | a complete reply whose totals are written makes files and counters agree again, whatever failed before |
| `DoorCounter.FlagMeans` | src/lib/thousand_lib.py:288-290 | the reset flag goes up exactly when some door starts over |
| `DoorCounter.ReadingBytes` | src/lib/thousand_lib.py:581-593 | door i counts in the four bytes from 4i, lowest first |
| `DoorCounter.FailedSaveDoubleCounts` | src/liftApi/rs232_handler.py:812-817 | a run from a fresh gateway where a failed save of the earlier sums counts twice |
| `DoorCounter.ShortReplyForgetsStartOver` | src/lib/thousand_lib.py:281-292 | a run from a fresh gateway where a short reply forgets a start-over |
| `DoorCounter.DoorOpenCounter.constructor` | src/lib/thousand_lib.py:38-69 | a gateway start has zero counters, the flag up and the files as left |
| `DoorCounter.DoorOpenCounter.LoadSaved` | src/liftApi/rs232_handler.py:827-833 | with the flag up both counters are reloaded, a missing file as zeros |
| `DoorCounter.DoorOpenCounter.CountOne` | src/lib/thousand_lib.py:288-297 | one door takes its reading and its shown value follows |
| `DoorCounter.DoorOpenCounter.Recalculate` | src/lib/thousand_lib.py:273-299 | the loop recounts the doors before the first unreadable one and marks exactly the changed ones |
| `DoorCounter.DoorOpenCounter.Update` | src/liftApi/rs232_handler.py:787-819 | what an answered poll leaves in counters and files, for every length of the reply and every outcome of the two file writes |
| `DoorCounter.DoorOpenCounter.PollOnce` | src/liftApi/rs232_handler.py:787-853 | one whole poll, reload included, is a step of the model: a poll of the doors before the first unreadable one, or none |
| `PollReply.JoinParses` | src/liftApi/rs232_handler.py:1513-1524 | splitting and parsing the joined text returns the list |
| `PollReply.JoinIsZero` | src/liftApi/rs232_handler.py:1513-1524 | only the list of a lone parameter 0 joins to "0" |
| `PollReply.PollLift` | src/liftApi/rs232_handler.py:1513-1524 | the code says exactly whether a package failed and whether anything changed |
| `PollReply.ReplyRoundTrip` | src/lib/thousand_lib.py:124-141 | every id list comes back exactly, except a lone 0, which like the empty list comes back as no change |
| `FloorLock.FloorList` | src/liftApi/rs232_handler.py:1598-1628 | the two loops list exactly the floors whose bit is set, ascending, for any floor count |
| `FloorLock.Request1k` | src/liftApi/rs232_handler.py:1598-1628 | out-of-range masks, an unreadable fire floor and masks with the fire floor are rejected, each with its own verdict and exactly those |
| `FloorLock.FireFloorRule` | src/liftApi/modbus_handler.py:1367-1401 | the AHL handler rejects exactly the masks that hold the fire floor, and agrees with the 1k handler |
| `FloorLock.RepackRoundTrip` | src/lib/thousand_lib.py:408-434 | re-packing the locked floors gives the mask back, for any floor count |
| `SerialTransaction.FrameStart` | src/liftApi/rs232_handler.py:543-601 | the first opening brace |
| `SerialTransaction.ReadLoop` | src/liftApi/rs232_handler.py:543-601 | the framing loop ends at the first look that brings an error or completes the text, or when time or patience is out, with exactly the code that says so, and a result is all that was received from the first brace on |
| `SerialTransaction.ReadDetermined` | src/liftApi/rs232_handler.py:543-601 | that description leaves one outcome only for every arrival pattern |
| `SerialTransaction.ReadTiming` | src/liftApi/rs232_handler.py:543-601 | it bounds the sleep by the deadline and the looks by the sleep |
| `SerialTransaction.GetSignal` | src/liftApi/rs232_handler.py:693-737 | the transaction makes up to five reads and ends at the first that fails, is invalid or has what was wanted, with exactly that code; five responses without it give PARTIAL_ERR or SERIAL_COM_ERR; it sleeps less than 10.5 seconds and looks at most 21 times |
| `FrameRouter.LatestAppend` | src/liftApi/rs232_handler.py:43-45 | a bounded queue holds the latest entries |
| `FrameRouter.LongestValid` | src/liftApi/rs232_handler.py:638-647 | what is routed is the longest part from the front without an invalid frame |
| `FrameRouter.Router.Validated` | src/liftApi/rs232_handler.py:638-647 | the frames before the first invalid one, and an error exactly if there is one |
| `FrameRouter.Router.AppendVfd` | src/liftApi/rs232_handler.py:657-660 | the VFD backlog is the latest 50 or fewer since the last drain |
| `FrameRouter.Router.RouteOne` | src/liftApi/rs232_handler.py:654-684 | one frame is added to its own place and nowhere else |
| `FrameRouter.Router.Deal` | src/liftApi/rs232_handler.py:650-684 | the lists returned and what was added to the backlogs together hold each frame exactly as often as it came, keep the order of arrival, and hold only what belongs there |
| `FrameRouter.Router.SplitResponse` | src/liftApi/rs232_handler.py:603-691 | argument errors touch nothing; otherwise the frames before the first invalid one are dealt out in full, in order and rightly, and the code is clean exactly if all are valid |
| `FrameRouter.Router.DrainVfd` | src/liftApi/rs232_handler.py:1385-1399 | a drain hands over the latest 50 or fewer and empties the backlog |
| `WifiScan.SortDescIsStableSort` | src/bluetoothApi/wifi_cli.py:128 | the order is by falling signal, a permutation, and stable |
| `WifiScan.StableSortUnique` | src/bluetoothApi/wifi_cli.py:128 | a stable sort has one answer |
| `WifiScan.Merge` | src/bluetoothApi/wifi_cli.py:115-127 | the dictionary holds for each name its first strongest reading, in first-seen order |
| `WifiScan.Scan` | src/bluetoothApi/wifi_cli.py:115-128 | distinct names, each with the strongest signal seen for it, by falling signal, none missing |
| `WifiScan.ScanDetermined` | src/bluetoothApi/wifi_cli.py:115-128 | the answer is a function of the readings |
| `WifiScan.StrongestPublished` | src/bluetoothApi/controller.py:92-98 | a name that is not published is no stronger than any published one, and the list is then full |
| `WifiController.StepCommits` | src/bluetoothApi/controller.py:262-288 | each step commits nothing or one well-formed status with the next number |
| `WifiController.SafeRun` | src/bluetoothApi/controller.py:77-288 | in every interleaving commits are consecutive, each gives one tick in order, the cached text serialises the status, at most four networks, an error exactly in ERROR |
| `WifiController.TicksFollowCommits` | src/bluetoothApi/controller.py:262-269 | tick i has number i + 1 and the phase and time of its commit |
| `WifiController.CurrentStep` | src/bluetoothApi/controller.py:221-246 | exactly which steps leave connection data shown only while connected on wlan0 |
| `WifiController.CurrentOnlyOnWlan` | src/bluetoothApi/controller.py:221-246 | over a whole run that holds if and only if no heartbeat delivers data when wlan0 is no longer connected |
| `WifiController.UndisturbedCurrentOk` | src/bluetoothApi/controller.py:221-246 | from power-on it holds when no commit lands between a heartbeat's two lock sections |
| `WifiController.DisconnectDuringRefresh` | src/bluetoothApi/controller.py:177-246 | a run in which a disconnect during a refresh leaves old data in DISCONNECTED |
| `WifiController.BelongsStep` | src/bluetoothApi/controller.py:221-246 | the data shown stays of the connection in force exactly unless a heartbeat delivers what the script took before the last request's commit |
| `WifiController.CurrentOfConnection` | src/bluetoothApi/controller.py:221-246 | in every run from power-on the data shown was always taken under the connection in force, if and only if no heartbeat delivers what the script took before the last request's commit |
| `WifiController.UndisturbedBelongs` | src/bluetoothApi/controller.py:221-246 | whenever the script takes its sample, that holds when no commit lands between a heartbeat's two lock sections |
| `WifiController.ReconnectDuringRefresh` | src/bluetoothApi/controller.py:144-246 | a run in which a reconnect during a refresh shows the old network's data under the new connection |
| `WifiController.Controller.constructor` | src/bluetoothApi/controller.py:44-60 | the first status and its cached text |
| `WifiController.Controller.CommitAndEmit` | src/bluetoothApi/controller.py:262-269 | a sound status with the next number becomes status, cached text and exactly one tick, and the controller stays safe |
| `WifiController.Controller.SetError` | src/bluetoothApi/controller.py:248-260 | one commit to ERROR with its code; interface and networks stay, connection data goes |
| `WifiController.Controller.ReportInvalidRequest` | src/bluetoothApi/controller.py:173-175 | one commit of INVALID_REQUEST |
| `WifiController.Controller.BeginScan` | src/bluetoothApi/controller.py:77-83 | a busy controller ignores a scan unless forced; otherwise one commit to SCANNING that drops old results and connection data |
| `WifiController.Controller.EndScan` | src/bluetoothApi/controller.py:85-99 | one commit whatever happened meanwhile: to IDLE with at most four networks from the head of the result, or to TIMEOUT with the networks there were |
| `WifiController.Controller.BeginConnect` | src/bluetoothApi/controller.py:101-142 | waits for the script exactly for wlan0 with a long enough key and no attempt shown; only a retry commits nothing; each rejection has its code |
| `WifiController.Controller.EndConnect` | src/bluetoothApi/controller.py:144-171 | one commit: connected on wlan0 with data exactly if the script says so, otherwise the error of the outcome with data cleared |
| `WifiController.Controller.EndDisconnect` | src/bluetoothApi/controller.py:177-190 | one commit from any phase that clears data and error and keeps interface and networks |
| `WifiController.Controller.EndHeartbeat` | src/bluetoothApi/controller.py:234-246 | one commit that changes nothing a reader sees but number, time and, if there is any, connection data |
| `Text.DecParses` | src/lib/thousand_lib.py:124-141 | the decimal text of every integer parses to it |
| `Text.HexParses` | src/liftApi/modbus_handler.py:36-61 | the hexadecimal text of every number parses to it, in either case and with either sign |
| `Text.DigitsOnly` | src/liftApi/modbus_handler.py:36-61 | accepted digits are digits of the base and underscores, nothing else |
| `Bits.AndPow2` | src/lib/ahl_lib.py:135-148 | masking with one bit tests that bit, for every integer |
| `Bits.AndLowMask` | src/liftApi/modbus_handler.py:1160-1196 | masking with ones keeps the remainder, also of negative numbers |

## Left out

- LiftProxyObject.LiftProxy.TryIdentify: runs here without steps of others in between, as do the other two.
- LiftProxyObject.LiftProxy.WriteParam: the same; what the 1k handler answers is an input.
- LiftProxyObject.LiftProxy.PollParams: the object's coroutines run here without steps of others in between; interleavings, and changes by the lift during a call, are in the runs of LiftProxyModel. What the 1k handler answers is an input.
- The coroutines of the Wi-Fi controller are steps of a state machine; a method of the object is one lock section.
- The live read of the proxy and the AR number calls have no method of their own; they are steps of the protocol.
- Cancellation in the middle of a worker thread, real thread scheduling, and the loops that call the polls (`run`, `_reidentify_loop`) with their intervals and reports.
- Writes of the AHL handler beyond packing and reset alarms: reboot, speed configuration, and the extra reads some writes make.
- Digits and spaces outside ASCII in Python's `int`; parameters given as text with such digits.
- TraceLog.TraceReader.GenerateTraceLog: whether the file could be written and space is left are inputs, and so in UpgradePackage.Upload are the name and header checks.
- CacheCoherence.CacheCoherent: takes a lift that sets the flag of a group when it changes a value by itself or stores another value than it was sent, and clears the flags when register 2 is read.
- FrameRouter.Router.SplitResponse: frames that carry `logs` are not modelled; the validation of one frame is an input.
- DoorCounter.RestartSafe: assumes complete replies and successful file writes; RunRight gives the exact condition for runs with any others. A file left half written is not modelled.
- ThousandFiles.ThousandLib.GetUpdatedParams: only the five byte files; text, timer, bit, VFD and virtual parameters are left out.
- ThousandFiles.ThousandLib.WriteFileParam: the child-lock, oil-level and floor-lock branches are left out here; the floor lock is in FloorLock.
- WifiController.SafeRun: a callback that raises is taken as a delivered tick, as the code swallows it.
- JSON text, the GATT server, the Wi-Fi script's output formats and the security label.
- Azure IoT, provisioning, blob and twin code, logging, disk and time handling, and the simulator: they would only add easy members.
- SerialTransaction.ReadLoop: a port that is gone before the first look is not told from one that fails at it.
- SerialTransaction.GetSignal: the outcome of splitting a response is an input; the splitting itself is in FrameRouter.
