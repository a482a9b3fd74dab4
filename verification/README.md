# Verified models of the sensing-hub utilities

Dafny models of five stateful parts of the sensing-hub client utilities, with proofs of what they
promise. Each imperative part keeps its form: the parser works in place on an array, the objects are
classes with the source's fields, and each method is tied to a specification function about which the
theorems are then proved.

**Hub configuration** (`CString`, `SensingHub`, `ConfigGrammar`, `AnyText`, `ConfigTree`, `JsonBuffer`,
`HubConfigParser`, `HubLoads`). `qshJsonParser` parses a JSON-like file destructively: `parsePair`
overwrites closing quotes with NULs and hands out pointers into the buffer, and every item goes through an
order-sensitive accumulator that fills three maps. `ConfigGrammar` says what the parser accepts and does
as functions of the remaining text; `JsonBuffer` and `HubConfigParser` are the parser itself on an
`array<char>` with absolute cursors, proved equal to these functions on every input, well-formed or not.
`ConfigTree` prints configuration trees with every choice of white space and proves that parsing brings
them back. `AnyText` is a second reading of any text, malformed ones included, without accumulator or
buffer: which items it hands over and how it ends. `SensingHub` is the accumulator; it shows that complete
hub records compose. `HubLoads` is about whole loads and sequences of loads.

**Worker thread** (`Worker`, `WorkerRuns`, `WorkerProgress`). `qshWorker` as a step system: the
worker's main loop, any number of clients in `addTask` and `shutdownWorker`, the mutex, the condition
variable with spurious wakeups, and the flag that is read outside the mutex. Safety is proved over all
runs, progress over all fair infinite ones.

**Clock offset** (`TimeUtil`). The bounded resampling loop of `qshTimeUtil`, its error bound, and the
two timestamp conversions, in 64-bit arithmetic with wrap-around.

**Wakelock** (`Wakelock`). The counted kernel wakelock under any pattern of failing opens and writes.

**SUIDs and attributes** (`Wire`, `SuidRequest`, `SuidEvents`, `SuidDelivery`, `SuidReports`,
`PbRepeated`, `PbAttributes`, `MessageFields`). Requests, events and attribute messages at the level of
the Protocol Buffers wire format (sections "Base 128 Varints", "Length-Delimited Records" and "Packed
Repeated Fields" of the Encoding document), with the callbacks that collect the decoded fields.

## Where the code and its documentation differ

The models follow the code.

- `shutdownWorker` is documented to wait until the thread is done (utils/inc/qshWorker.h:60-63). Only the
  call that clears the flag waits; another one can return while a task runs
  (`WorkerRuns.SecondCallerDoesNotWait`, `WorkerRuns.ReturnMeansExited`).
- `locate` waits for a discovery-done notice (utils/src/suidLookUp.cpp:260-266), but `handleQshEvent`
  drops that notice (line 247), so every lookup waits out its timeout (`SuidDelivery.LookupTimesOut`).
- Exactly one `has_*` flag of an attribute is promised (utils/inc/qshPbSensorUtils.h:49). None is set for
  a value that is absent or an empty string (`PbAttributes.OneFlag`, `PbAttributes.NoFlag`).
- `suid_decode_event` reads the datatype as a C string although the field need not end in a NUL, so it
  can run on into the next field; `decode_suids` does not (`SuidReports.DecodersAgreeExactly`).
- `parseFile` treats 0 from `parseConfig` as failure (utils/src/qshJsonParser.cpp:490), but `parseConfig`
  fails with -1: the cursor steps back by one, the loop ends, and a file with a broken config group loads
  with success (`HubLoads.BrokenConfigText`). `HubLoads.LoadExit` says exactly when a load fails, and
  `HubLoads.BrokenConfigLoads` that no rejected config group ever makes it fail.
- `parseItem` returns a cursor and not 0 on some failures (lines 216-219 and 231-235), and
  `updateSensingHubInfo` runs in any case (lines 375-378), with what is in the uninitialised value buffer.
  That content is an arbitrary function `stale` of the remaining length here. A malformed text can load with
  success and an id that is whatever the buffer held (`HubLoads.StaleIdText`); a load hands over the same
  entries for every buffer exactly if every item has its data (`HubLoads.LoadEntriesExactly`).
- QTimer to Android and back is not always the identity: an estimate that moves the clock back, or
  forward by the update period or more, can be followed by a second one
  (`TimeUtil.QtimerRoundTripExactly`).
- The wakelock is not always held exactly while events are outstanding: an acquire of nothing takes it, and a
  failed unlock keeps it (`Wakelock.HeldWhileCounted`).
- A counted `acquire` or `release` that is accepted without a kernel write returns -1, like a refused one
  (`Wakelock.ReturnsZeroOnWrite`).

## Model

| member | source | states |
|---|---|---|
| `CString.NumberRoundTrip` | utils/src/qshJsonParser.cpp:271-271 | atoi and stoi both read back every 32-bit number that is printed in decimal |
| `CString.NumberText` | utils/src/qshJsonParser.cpp:271-271 | white space, a sign, digits, then anything but a digit: stoi returns the number exactly if it fits 32 bits, and atoi the low 32 bits of the number clamped to 64 |
| `CString.NoNumber` | utils/src/qshJsonParser.cpp:271-271 | where no digit follows the white space and the sign, stoi throws and atoi returns 0 |
| `CString.SpaceExactly` | utils/src/qshJsonParser.cpp:124-140 | a character is white space if and only if it is space, tab, newline, vertical tab, form feed or carriage return |
| `CString.TokensOfJoin` | utils/src/qshJsonParser.cpp:421-426 | splitting a comma-joined list of numbers at its commas gives back exactly the printed numbers |
| `CString.TokensExactly` | utils/src/qshJsonParser.cpp:421-426 | splitting any comma-joined list of texts without commas gives the list back, but for an empty last text |
| `SensingHub.RunConcat` | utils/src/qshJsonParser.cpp:260-321 | the accumulator over two stretches of a document is the second run from where the first ended |
| `SensingHub.KeyNames` | utils/src/qshJsonParser.cpp:260-321 | the six item names that count, each as it is spelled in the file |
| `SensingHub.PartEntries` | utils/src/qshJsonParser.cpp:264-277 | for every hub, group and value: what an entry named platform_id, sensing_hub_id or client_comm_type changes |
| `SensingHub.LinkEntries` | utils/src/qshJsonParser.cpp:278-299 | likewise service_id and link_name, which count only directly in the comm group |
| `SensingHub.OtherEntries` | utils/src/qshJsonParser.cpp:283-299 | likewise no_of_channels and every name that is none of the six |
| `SensingHub.CommitEffect` | utils/src/qshJsonParser.cpp:301-320 | after every entry the maps get the platform and the link if they are complete and new; all parts are forgotten once both are stored |
| `SensingHub.RecordStep` | utils/src/qshJsonParser.cpp:260-321 | one entry of a record keeps the invariant that says which parts are held, which are committed and what the flags are |
| `SensingHub.RecordRun` | utils/src/qshJsonParser.cpp:260-321 | a complete QMI or GLINK record, in any order its layout allows and named by the literal group, item names and values of the file, registers exactly its name, link and id and returns every accumulator and flag to its initial value |
| `SensingHub.RecordsRun` | utils/src/qshJsonParser.cpp:260-321 | any sequence of complete records, both kinds mixed, is registered record by record |
| `SensingHub.PutAllLookup` | utils/src/qshJsonParser.cpp:301-307 | after any series of map inserts a key has its old value or else the first one offered |
| `SensingHub.RecordsAnswer` | utils/src/qshJsonParser.cpp:260-321 | after a sequence of records a platform's id and a hub's link are the ones known before or those of the first record that has them; a hub's link name is the last one given that is not "apps", else the old one; the id list is in document order |
| `SensingHub.TypeNumbers` | utils/src/qshJsonParser.cpp:94-94 | the link type that a record stores reads as the number 0 for QMI and 1 for GLINK |
| `ConfigTree.LastDataWins` | utils/src/qshJsonParser.cpp:238-246 | the value buffer after an item holds its last data pair, cut to 14 characters, and is untouched without one |
| `ConfigTree.PairAccepted` | utils/src/qshJsonParser.cpp:142-210 | every text of a quoted key, a colon and a quoted value or an opening bracket, with any white space, is read as that pair, up to the text behind it |
| `ConfigTree.PairSound` | utils/src/qshJsonParser.cpp:142-210 | and no other text is: a text that is read as a pair has this form |
| `ConfigTree.CellsRoundTrip` | utils/src/qshJsonParser.cpp:212-258 | the printed pairs of an item, with any white space, are consumed up to its closing bracket and give that value |
| `ConfigTree.MembersRoundTrip` | utils/src/qshJsonParser.cpp:323-398 | the printed members of a group at any nesting depth are consumed and leave the run of their entries, each under its nearest group name |
| `ConfigTree.ConfigRoundTrip` | utils/src/qshJsonParser.cpp:400-459 | the printed config group is consumed and yields the concatenation of its soc lists, over several soc_id pairs |
| `ConfigTree.TopsRoundTrip` | utils/src/qshJsonParser.cpp:477-526 | the printed top-level groups, config groups anywhere among them, have the meaning of the tree list |
| `ConfigTree.FileRoundTrip` | utils/src/qshJsonParser.cpp:461-527 | parsing the printed text of any well-formed tree, with any white space and any tail behind it, gives the tree's meaning |
| `JsonBuffer.StoredStays` | utils/src/qshJsonParser.cpp:362-379 | a key that stands in the buffer in front of a position reads the same after any work behind that position |
| `JsonBuffer.GetWhitespaceLen` | utils/src/qshJsonParser.cpp:124-140 | the cursor moves over exactly the leading white space and never past the final NUL |
| `JsonBuffer.FindQuote` | utils/src/qshJsonParser.cpp:156-156 | strchr: the first quote in front of the first NUL, or none |
| `JsonBuffer.CutQuoted` | utils/src/qshJsonParser.cpp:163-173 | on a quoted string only its closing quote changes, to NUL; the string then stands as a C string and the text behind it is unchanged |
| `JsonBuffer.ParsePair` | utils/src/qshJsonParser.cpp:142-210 | on every input: the grammar's verdict, key and value; only quotes behind the cursor became NULs; on success the text from the new cursor on is the original |
| `JsonBuffer.ParseItem` | utils/src/qshJsonParser.cpp:212-258 | on every input: the value and the cursor the grammar computes, 0 exactly where it has not moved; nothing in front of the item is written |
| `HubConfigParser.Parser.constructor` | utils/src/qshJsonParser.cpp:19-35 | three empty maps, no ids and socs, nothing being collected, nothing parsed |
| `HubConfigParser.Parser.ResetParserState` | utils/src/qshJsonParser.cpp:68-85 | everything but the three maps and the parsed flag is reset |
| `HubConfigParser.Parser.UpdateSensingHubInfo` | utils/src/qshJsonParser.cpp:260-321 | the fields change as the accumulator function says; the soc fields do not |
| `HubConfigParser.Parser.ParseMember` | utils/src/qshJsonParser.cpp:342-387 | one turn of the group loop is one step of the grammar, with the group name still readable in the overwritten buffer |
| `HubConfigParser.Parser.ParseGroup` | utils/src/qshJsonParser.cpp:323-398 | on every input it returns 0 exactly where the grammar accepts, with the grammar's accumulator; then the text behind the group is the original; it terminates |
| `HubConfigParser.Parser.PushSocIds` | utils/src/qshJsonParser.cpp:421-426 | the numbers of a soc_id value are appended up to the first token stoi rejects |
| `HubConfigParser.Parser.ParseConfigItem` | utils/src/qshJsonParser.cpp:400-437 | the loop over the config pairs ends where the grammar ends, with the grammar's soc list |
| `HubConfigParser.Parser.ParseConfig` | utils/src/qshJsonParser.cpp:439-459 | -1 or the length of the group, never 0 |
| `HubConfigParser.Parser.MatchSoc` | utils/src/qshJsonParser.cpp:499-506 | the matched soc is the device's if the list has it, else unchanged |
| `HubConfigParser.Parser.ParseFile` | utils/src/qshJsonParser.cpp:461-527 | for every text the in-place parser terminates with exactly the exit, maps, flags, soc list and soc that the pure grammar computes from the original text, and has changed nothing in it but quotes to NULs |
| `HubConfigParser.Parser.LoadFile` | utils/src/qshJsonParser.cpp:534-577 | a load is the reset followed by the parse; the parsed flag is set on success and never cleared |
| `HubConfigParser.Parser.GetHubIdList` | utils/src/qshJsonParser.cpp:111-114 | the ids of the last load |
| `HubConfigParser.Parser.GetHubId` | utils/src/qshJsonParser.cpp:116-122 | the id of a known platform, else -1 |
| `HubConfigParser.Parser.GetHubName` | utils/src/qshJsonParser.cpp:37-44 | the link name of a known hub, else empty |
| `HubConfigParser.Parser.GetCommHandleAttrs` | utils/src/qshJsonParser.cpp:103-109 | the link value of a known hub, else -1 |
| `HubConfigParser.Parser.GetCommType` | utils/src/qshJsonParser.cpp:87-101 | the link type of a known hub as a number; -1 for an unknown hub and where stoi throws |
| `AnyText.ItemExactly` | utils/src/qshJsonParser.cpp:212-258 | for every text the value of an item is independent of what the buffer held if and only if a data pair is read before the first pair that is missing or has no string value |
| `AnyText.ItemRead` | utils/src/qshJsonParser.cpp:212-258 | for every text the item loop with its value buffer does what a second reading says: it moves as that reading does and leaves the first 14 characters of the last data value, or the old value if there is none |
| `AnyText.ConfigOutcome` | utils/src/qshJsonParser.cpp:400-459 | for every text: the numbers a config group pushes are those of all its soc_id values up to the first bad token, it throws exactly if there is one, and else ends where the reading without a list ends |
| `AnyText.EntriesExactly` | utils/src/qshJsonParser.cpp:373-380 | for any items the entries that reach updateSensingHubInfo are independent of the buffer if and only if each item has a data pair in time |
| `AnyText.GroupPlace` | utils/src/qshJsonParser.cpp:323-398 | for every text the verdict on a group and the place behind it are those of a reading that knows neither accumulator nor buffer |
| `AnyText.GroupRuns` | utils/src/qshJsonParser.cpp:323-398 | for every text, accepted or not, a group leaves the run of exactly the items it handed over, in order |
| `AnyText.GroupsTrace` | utils/src/qshJsonParser.cpp:477-526 | for every text a parse is determined by the turns of a reading without accumulator and buffer: it leaves the run of the items of all groups reached, and exit, soc list and soc are those of the last turn |
| `AnyText.GroupsExit` | utils/src/qshJsonParser.cpp:477-526 | a parse returns -1 if and only if it reaches a group without a head, with a string for a body, or a plain one that is rejected; it throws if and only if it reaches a soc_id token stoi rejects; else it returns 0 |
| `AnyText.RejectedConfigEnds` | utils/src/qshJsonParser.cpp:487-526 | a config group that parseConfig rejects, wherever it stands, is the last group reached and the parse returns 0 with the accumulator so far |
| `HubLoads.PrintedLoad` | utils/src/qshJsonParser.cpp:461-527 | loading any printed tree returns 0 and leaves the run of the entries in front of the first closed soc gate, in document order from the reset state; of all entries without a config group |
| `HubLoads.PrintedRecords` | utils/src/qshJsonParser.cpp:260-527 | from the text of a file of complete hub records, config groups with open gates included, to the maps that the getters read: ids and links are those of the first record that has them, link names the last ones, and the id list has all records |
| `HubLoads.PrintedLinks` | utils/src/qshJsonParser.cpp:87-109 | after such a load a new hub's link type reads 0 for a QMI record and 1 for a GLINK record, and its value is the record's |
| `HubLoads.SocGate` | utils/src/qshJsonParser.cpp:487-513 | with the config group first, the other groups count exactly if the soc list is empty or has the device's soc other than -1; the load returns 0 either way |
| `HubLoads.LoadTrace` | utils/src/qshJsonParser.cpp:534-577 | a load of any text is exactly the run of the items it reaches from the reset state, with the exit, soc list and soc of the last group reached |
| `HubLoads.LoadExit` | utils/src/qshJsonParser.cpp:461-527 | a load of any text returns -1 if and only if the opening bracket is missing or a group fails as above, and throws if and only if a soc_id token is no number; else it returns 0 |
| `HubLoads.BrokenConfigLoads` | utils/src/qshJsonParser.cpp:487-527 | so a rejected config group at any position ends a load with success and what the groups before it made of the accumulator |
| `HubLoads.BrokenConfigText` | utils/src/qshJsonParser.cpp:487-527 | such a text, a config group that opens with the wrong bracket: it loads with 0 and without any hub |
| `HubLoads.StaleIdText` | utils/src/qshJsonParser.cpp:373-380 | a text whose one item lacks its bracket loads with 0, and the id list holds whatever number the uninitialised buffer held |
| `HubLoads.LoadEntriesExactly` | utils/src/qshJsonParser.cpp:373-380 | for every text the entries of its load are the same for all buffers if and only if every item that is reached has its data |
| `HubLoads.LoadSettled` | utils/src/qshJsonParser.cpp:534-577 | and then the whole load is the same |
| `HubLoads.UpdateAdvance` | utils/src/qshJsonParser.cpp:260-321 | no entry of a document can change or remove a map entry, or store an id or value -1 or an empty name or type |
| `HubLoads.LoadKeeps` | utils/src/qshJsonParser.cpp:534-577 | one load of any input, successful or not, keeps all map entries, and every id it adds to a map is in the id list afterwards |
| `HubLoads.LoadsKeep` | utils/src/qshJsonParser.cpp:534-577 | the same for the maps over any sequence of loads of any inputs |
| `Worker.InitInv` | utils/inc/qshWorker.h:44-47 | the invariant holds when the worker is created |
| `Worker.NextInv` | utils/inc/qshWorker.h:64-132 | every step of every thread keeps mutual exclusion, task accounting, wakeup, flag ownership and join discipline |
| `WorkerRuns.TakesFirst` | utils/inc/qshWorker.h:116-128 | a worker that decides with the flag set and tasks waiting takes the first of them, and what it has run is finished |
| `WorkerRuns.AddsLast` | utils/inc/qshWorker.h:90-104 | with the flag set addTask can put its task behind all others, and the only other outcome is a failed push that changes nothing |
| `WorkerRuns.NoLostWakeup` | utils/inc/qshWorker.h:113-115 | in every reachable state a worker blocked in wait, with no notification about to come, has an empty queue and a set flag |
| `WorkerRuns.ExactlyOnceInOrder` | utils/inc/qshWorker.h:90-131 | in every reachable state the accepted tasks are, in order, the finished ones, at most one in flight, and the queue |
| `WorkerRuns.ShutdownIsFinal` | utils/inc/qshWorker.h:64-75 | once the flag is cleared nothing is accepted or popped; once the worker has exited the finished list is final |
| `WorkerRuns.ShutdownReturns` | utils/inc/qshWorker.h:64-75 | join is called at most once however many callers race, and the call that joined returns only when nothing can run any more |
| `WorkerRuns.SecondCallerDoesNotWait` | utils/inc/qshWorker.h:66-69 | there is a run in which another shutdown call is back while a task runs |
| `WorkerRuns.ReturnMeansExited` | utils/inc/qshWorker.h:64-75 | over all runs, every return of one of the two kinds finds the worker gone if and only if it is the return of the call that joined |
| `WorkerProgress.StepsOut` | utils/inc/qshWorker.h:111-132 | with the flag cleared no step takes the worker further from its exit, and each of its own takes it nearer |
| `WorkerProgress.TasksAreRun` | utils/inc/qshWorker.h:109-132 | in every fair run, from any moment on, either the flag is cleared or all tasks accepted so far get finished, in order |
| `WorkerProgress.QueueIsRun` | utils/inc/qshWorker.h:109-132 | so while the flag stays set every queued task is run, in the order of the queue |
| `WorkerProgress.FairBusyRun` | utils/inc/qshWorker.h:90-132 | there is such a fair run with two queued tasks and the flag set for ever |
| `WorkerProgress.WorkerIsReady` | utils/inc/qshWorker.h:113-132 | with the flag cleared and no client inside, only an exited worker cannot step |
| `WorkerProgress.WorkerExits` | utils/inc/qshWorker.h:109-133 | in every fair run the worker exits once the flag is cleared |
| `WorkerProgress.ShutdownCompletes` | utils/inc/qshWorker.h:64-75 | in every fair run, idle moments allowed, the call that cleared the flag returns, with the worker gone |
| `WorkerProgress.FairRun` | utils/inc/qshWorker.h:64-132 | there is such a fair run, in which the flag is cleared while a task runs |
| `TimeUtil.QshTimeUtil.constructor` | utils/inc/qshTimeUtil.h:224-235 | the first offset is one pair of clock reads |
| `TimeUtil.QshTimeUtil.EstimateOffset` | utils/inc/qshTimeUtil.h:196-214 | the do-while loop computes the recursive resampling of at most twenty turns |
| `TimeUtil.QshTimeUtil.UpdateQtimerToRealtimeOffset` | utils/inc/qshTimeUtil.h:184-222 | offset and last timestamp change exactly when an update is due |
| `TimeUtil.QshTimeUtil.RecalculateOffset` | utils/inc/qshTimeUtil.h:159-168 | an update with what the clock says now; when it is forced and the clock is positive it always estimates |
| `TimeUtil.UpdateExactly` | utils/inc/qshTimeUtil.h:184-222 | an update changes nothing exactly for a timestamp that is not positive, or within sixty seconds after the last one without force; else the estimate and the timestamp are stored |
| `TimeUtil.QshTimeUtil.QtimerNsToElapsedRealtimeNano` | utils/inc/qshTimeUtil.h:111-118 | the converted timestamp uses the offset after the update |
| `TimeUtil.QshTimeUtil.ElapsedRealtimeNanoToQtimerNs` | utils/inc/qshTimeUtil.h:126-130 | likewise the other way |
| `TimeUtil.ConversionExactly` | utils/inc/qshTimeUtil.h:111-130 | without overflow the conversions add and subtract the offset after an update that is asked for with the Android timestamp |
| `TimeUtil.EstimateSource` | utils/inc/qshTimeUtil.h:196-214 | the estimate is that of the last turn with usable readings; every turn but the last exceeded the threshold, and so did the last one if the turns ran out |
| `TimeUtil.EstimateError` | utils/inc/qshTimeUtil.h:196-214 | with monotone clocks the estimate minus the true offset at the Android read of the last turn with a usable reading lies between 0 and that turn's gap, or the old offset stays if there is none; the gap of the last turn of all is at most 10000 ns unless twenty turns were used |
| `TimeUtil.GapExactly` | utils/inc/qshTimeUtil.h:213-213 | the gap of two QTimer reads in unsigned 64-bit arithmetic |
| `TimeUtil.ConversionError` | utils/inc/qshTimeUtil.h:196-214 | with monotone clocks a QTimer value between the two reads of the last turn converts to the Android reading of that turn, late by no more than the gap |
| `TimeUtil.AndroidRoundTrip` | utils/inc/qshTimeUtil.h:111-130 | Android to QTimer to Android is the identity for every 64-bit timestamp, also when the first call estimates anew, and the second never does |
| `TimeUtil.DueAgain` | utils/inc/qshTimeUtil.h:187-192 | the exact condition under which the second call of the other round trip estimates again |
| `TimeUtil.QtimerRoundTripExactly` | utils/inc/qshTimeUtil.h:111-130 | QTimer to Android to QTimer is the identity whatever the second call reads, if and only if the first call did not estimate, or moved the timestamp forward by less than 60 s, or gave one that is not positive |
| `TimeUtil.QtimerRoundTripSmallRaise` | utils/inc/qshTimeUtil.h:111-130 | in particular after a raise of the offset by less than 60 s, for every 64-bit timestamp, sums that wrap around included |
| `TimeUtil.QtimerRoundTripFails` | utils/inc/qshTimeUtil.h:111-130 | a concrete case where it is not |
| `TimeUtil.UpdateRate` | utils/inc/qshTimeUtil.h:184-222 | k updates by non-forced calls with ascending timestamps span at least k times 60 s |
| `Wakelock.QshWakelock.constructor` | utils/src/qshWakelock.cpp:37-61 | both descriptors are open or none, also when the second open fails |
| `Wakelock.QshWakelock.KernelAcquire` | utils/src/qshWakelock.cpp:119-135 | 0 and held exactly after a successful write |
| `Wakelock.QshWakelock.KernelRelease` | utils/src/qshWakelock.cpp:137-152 | 0 and not held exactly after a successful write |
| `Wakelock.QshWakelock.AcquireCount` | utils/src/qshWakelock.cpp:77-96 | the counted acquire has the effect that the runs below are built of |
| `Wakelock.QshWakelock.ReleaseCount` | utils/src/qshWakelock.cpp:98-117 | likewise the counted release |
| `Wakelock.QshWakelock.Destroy` | utils/src/qshWakelock.cpp:63-75 | a held lock is given back whatever the count, and the descriptors are closed |
| `Wakelock.WakelockInvariant` | utils/src/qshWakelock.cpp:77-152 | after any calls with any failures: a positive count is held, the count is the sum of the acquires that count minus the releases that count (literal conditions on count, lock and write) within 32 bits, successful writes alternate, and the lock is held exactly after a lock write |
| `Wakelock.CallExactly` | utils/src/qshWakelock.cpp:77-152 | on every state and call: count, held flag, kernel write and result in terms of the numbers, with no overflow guard or write left implicit |
| `Wakelock.CountsTwice` | utils/src/qshWakelock.cpp:93-93 | two acquires and one release leave one outstanding and the lock held |
| `Wakelock.ReturnsZeroOnWrite` | utils/src/qshWakelock.cpp:77-117 | in every reachable state a call returns 0 exactly if it made a successful kernel write |
| `Wakelock.SlipExactly` | utils/src/qshWakelock.cpp:77-117 | from a matching state a call leads to a matching one, held exactly if the count is positive, if and only if it is no acquire of nothing that takes the lock and no last release whose unlock fails |
| `Wakelock.HeldWhileCounted` | utils/src/qshWakelock.cpp:77-117 | whatever opens and writes fail, the lock is held exactly while the count is positive all along a run if and only if no call of the run slips in this way |
| `Wakelock.HeldWithWorkingUnlocks` | utils/src/qshWakelock.cpp:77-117 | so it is whenever no acquire is for nothing and every unlock works, with any failing opens and locks |
| `Wakelock.HeldWithoutCount` | utils/src/qshWakelock.cpp:86-112 | a run for each of the two slips |
| `Wakelock.StuckLockIsReleased` | utils/src/qshWakelock.cpp:98-117 | after any run that ended in a failed unlock nothing is outstanding and the lock is held; however the run goes on it stays held up to the next successful write, which is the unlock, and up to then releasing what is outstanding with a working write gives it back |
| `Wire.VarintRoundTrip` | utils/src/qshPb.cpp:135-135 | every 64-bit number comes back from its varint, whatever follows it |
| `Wire.FixedRoundTrip` | utils/src/qshPb.cpp:118-118 | every 32-bit and 64-bit number comes back from its fixed field |
| `Wire.VarintBytes` | utils/src/qshPb.cpp:67-67 | byte k of a varint holds bits 7k to 7k+6, with the top bit set on all bytes but the last, which is not 0 |
| `Wire.DecodeVarintExactly` | utils/src/qshPb.cpp:135-135 | on every byte string: a varint is read exactly if it ends within ten bytes and fits 64 bits, with the value of its 7-bit groups |
| `Wire.FixedBytes` | utils/src/qshPb.cpp:56-56 | byte i of a fixed field holds bits 8i to 8i+7 |
| `Wire.TagBytes` | utils/src/qshPb.cpp:26-26 | a tag is the varint of eight times the field number plus the wire type |
| `Wire.FieldRejected` | utils/src/suidLookUp.cpp:157-157 | field number 0, the wire types 3, 4, 6 and 7 and fields that run past the end do not decode |
| `Wire.MessageRoundTrip` | utils/src/suidLookUp.cpp:98-123 | every message of fields in range decodes to exactly these fields |
| `SuidRequest.OStream.EncodeField` | utils/src/qshPb.cpp:24-71 | the bytes callbacks write tag, length and bytes if they fit and fail exactly if they do not; what is in the buffer then is the writes up to the first that did not fit |
| `SuidRequest.OStream.EncodeMessage` | utils/src/suidLookUp.cpp:98-101 | encoding into a bounded buffer succeeds exactly when the whole message fits and then has written it; else the writes up to the first that did not fit |
| `SuidRequest.RequestSuid` | utils/src/suidLookUp.cpp:76-137 | for every datatype: a request is sent exactly if the datatype has at most 93 bytes, and it is the two nested messages |
| `SuidRequest.InnerSize` | utils/src/suidLookUp.cpp:78-101 | the inner request has the datatype's length plus 6 and the length of a varint, and fits 100 bytes exactly up to 93 |
| `SuidRequest.OuterSize` | utils/src/suidLookUp.cpp:104-126 | the outer message is 37 bytes longer than the inner one, so it never overflows its 256 bytes |
| `SuidRequest.RequestRoundTrip` | utils/src/suidLookUp.cpp:76-128 | decoding the request message by message gives the datatype with its trailing NUL |
| `SuidRequest.RequestReadBack` | utils/src/suidLookUp.cpp:85-128 | every field of the request message and of the messages in it by number, type and value: both halves of the SUID, the message id 512, the client configuration, the technology, the datatype with its NUL, register_updates and default_only |
| `SuidEvents.DecodeContext.DecodeEvent` | utils/src/suidLookUp.cpp:139-213 | on every event: both vectors grow by one entry or none, and stay equally long |
| `SuidEvents.DecodeContext.DecodeMessage` | utils/src/suidLookUp.cpp:234-243 | on every byte string: the vectors grow by the entries in front of the first field or event that fails |
| `SuidEvents.DoneName` | utils/src/suidLookUp.cpp:169-169 | the discovery-done name, character for character |
| `SuidEvents.HandleQshEvent` | utils/src/suidLookUp.cpp:215-252 | the callbacks are the entries without the discovery-done ones, in order, and the client has handled each |
| `SuidEvents.Locate.OnSuidsAvailable` | utils/src/suidLookUp.cpp:258-290 | the list is replaced by the suids of the call, or the done flag is set for the discovery-done name |
| `SuidDelivery.LookupTimesOut` | utils/src/suidLookUp.cpp:215-326 | over any messages the client's list is that of the last call, and a lookup that is not done never becomes done |
| `SuidDelivery.MessageEntries` | utils/src/suidLookUp.cpp:234-243 | for every list of events in a message the entries are exactly those of the events before the first failing one |
| `SuidReports.EventRoundTrip` | utils/src/suidLookUp.cpp:150-164 | a client event comes back with its id and payload |
| `SuidReports.SuidEventRoundTrip` | utils/src/suidLookUp.cpp:176-193 | any datatype field and any list of suids come back from a SUID event |
| `SuidReports.ReportsDelivered` | utils/src/suidLookUp.cpp:139-252 | a message of events, found sensors, discovery notices and events of any other id, calls back exactly with the sensors in front of the first event of another id, with all their suids, in order, whatever lies in memory behind it |
| `SuidReports.EmptySuidEvent` | utils/src/suidLookUp.cpp:171-174 | a SUID event without a payload ends the message |
| `SuidReports.SuidList.DecodeSuids` | utils/src/qshPb.cpp:226-280 | the suids of a SUID event are appended and its datatype stored; other events change nothing; a failing one changes nothing |
| `SuidReports.ReportsListed` | utils/src/qshPb.cpp:226-280 | over a message of events of any ids decode_suids collects the suids of all found sensors in order, under the datatype of the last one |
| `SuidReports.OthersAreSkipped` | utils/src/qshPb.cpp:236-242 | an event of any id but 768 is passed over |
| `SuidReports.OneNulTrimmed` | utils/src/qshPb.cpp:263-270 | the datatype loses exactly one trailing NUL, also when more stand there |
| `SuidReports.DecodersAgreeExactly` | utils/src/qshPb.cpp:263-270 | on every SUID event both decoders read the same suids, and the same datatype if and only if the field has no NUL before its last byte and one at or right behind its end |
| `SuidReports.DecodersAgree` | utils/src/suidLookUp.cpp:195-207 | with the NUL that a request adds, both decoders read back the datatype and the suids |
| `SuidReports.DecodersDisagree` | utils/src/suidLookUp.cpp:195-207 | without it, every event with a suid is read under a wrong datatype by one decoder |
| `PbRepeated.DecodeFloatArray` | utils/src/qshPb.cpp:114-124 | on every byte string it succeeds exactly if the length is a multiple of 4 and appends a quarter of it in values either way |
| `PbRepeated.DecodeRepeatedEnum` | utils/src/qshPb.cpp:126-141 | on every byte string the varints in front of the first bad one are appended, cut to 32 bits |
| `PbRepeated.EncodeNowakeupMsgIds` | utils/src/qshPb.cpp:50-61 | a tag and a word for each id are written if they fit, and it fails exactly if they do not, with the writes up to the first that did not fit |
| `PbRepeated.WordAt` | utils/src/qshPb.cpp:117-122 | value number k is read from bytes 4k to 4k+3 |
| `PbRepeated.ElementsConcat` | utils/src/qshPb.cpp:114-141 | bytes that decode, followed by any others, decode piece by piece |
| `PbRepeated.BadTail` | utils/src/qshPb.cpp:114-141 | the values in front of the first one that does not decode are kept, and the callback fails |
| `PbRepeated.ChunkingIrrelevant` | utils/src/qshPb.cpp:114-141 | any split of a list into packed and single fields decodes to the list itself, up to the 32-bit cast |
| `PbRepeated.MsgIdsRoundTrip` | utils/src/qshPb.cpp:50-61 | the encoded ids are read back one by one |
| `PbAttributes.Attributes.DecodeAttributeValue` | utils/src/qshPb.cpp:172-211 | on every byte string one attribute of the chosen kind is appended, or nothing on failure |
| `PbAttributes.KindOrder` | utils/src/qshPb.cpp:191-207 | on every byte string that decodes: a kind counts only when the message has no field of an earlier kind, in the order string, float, integer, boolean, subtype, with the value of the last such field |
| `PbAttributes.MixedRoundTrip` | utils/src/qshPb.cpp:152-211 | a message of any values, several kinds and repetitions included, comes back as the last value of the first kind there is, with the floats of all subtypes |
| `PbAttributes.AttributedExactly` | utils/src/qshPb.cpp:191-207 | all ten fields of the attribute of any value message: the one of the first kind there is, the floats of the subtypes in any case, and zero, false or empty elsewhere |
| `PbAttributes.OneFlag` | utils/src/qshPb.cpp:191-207 | at most one flag is set, and exactly one if and only if the message has a field other than an empty string |
| `PbAttributes.NoFlag` | utils/src/qshPb.cpp:191-207 | two messages that set none |
| `PbAttributes.ValueRoundTrip` | utils/src/qshPb.cpp:152-211 | a value of each kind, subtypes with their floats included, comes back as the attribute of its kind |
| `PbAttributes.SensorAttributes.DecodeAttribute` | utils/src/qshPb.cpp:282-298 | the values are stored under the id, over older ones; a failing attribute changes nothing |
| `PbAttributes.SensorAttributes.DecodeAttributes` | utils/src/qshPb.cpp:300-335 | on every attribute event the map is filled up to the first failing attribute; other events change nothing |
| `PbAttributes.AttributesRoundTrip` | utils/src/qshPb.cpp:282-335 | an event with any list of attributes fills the map with exactly what the list describes, the last one counting for each id |
| `MessageFields.SuidOfFields` | utils/src/qshPb.cpp:102-112 | for every list of fields: a SUID decodes exactly if both halves are there as 64-bit fixed fields, and the last ones count |
| `MessageFields.EventOfFields` | utils/src/suidLookUp.cpp:148-162 | likewise a client event with its id, timestamp and payload |
| `MessageFields.SuidEventOfFields` | utils/src/suidLookUp.cpp:181-193 | likewise a SUID event: the last datatype, and one SUID for each record |
| `MessageFields.EntriesOfFields` | utils/src/suidLookUp.cpp:234-243 | a client event message goes field by field: an event adds its entry, other fields none, and it stops at the first that fails |
| `MessageFields.NestedOfFields` | utils/src/qshPb.cpp:152-166 | a subtype value adds its last float, or none if it has no float |
| `MessageFields.SubtypeOfFields` | utils/src/qshPb.cpp:152-166 | a subtype collects these floats over all its values, in order |
| `MessageFields.DataOfFields` | utils/src/qshPb.cpp:172-211 | an attribute value decodes exactly if its fields have the declared types and its subtypes decode, and carries their floats |
| `MessageFields.AttributeOfFields` | utils/src/qshPb.cpp:282-298 | an attribute decodes exactly if it has an id and a value and its values decode; the id is the last one as a signed 32-bit number |
| `MessageFields.FillOfFields` | utils/src/qshPb.cpp:300-335 | the attributes of an event go into the map one by one, up to the first that fails |
| `MessageFields.FillSucceeds` | utils/src/qshPb.cpp:300-335 | on every byte string an attribute event succeeds if and only if it decodes and each attribute in it does |
| `MessageFields.BadBytes` | utils/src/qshPb.cpp:157-161 | bytes that do not decode are no SUID, event, SUID event, value or attribute |

## Left out

- File access: `stat`, `fopen`, `fread`, `/sys/devices/soc0/soc_id`, the opens under `/sys/power`. The bytes, the device soc and the success of each open and write are inputs.
- Texts of 2^31 bytes and more, where the 32-bit cursors would wrap; the line counter, which only goes into log lines.
- Destruction of the text buffer: it is released after a load, and no result points into it.
- Platforms where `long` is not 64 bits wide, for `atoi` and `stoi`.
- CString.NumberRoundTrip: only plain decimal text is printed; leading white space and signs are read as the C library does but nothing prints them.
- The nanopb runtime: only the wire format, the order of the callbacks, required fields and field types are modelled. A field of another wire type than declared fails here; nanopb hands some of these to the callback as raw bytes. Tags of more than 32 bits are skipped here as unknown fields.
- Floats are their 32 bits. `qtimerTicksToNs` with its double arithmetic and the counter registers: the QTimer is an input in nanoseconds.
- SuidEvents.DecodeContext.DecodeEvent: memory behind the received bytes is a parameter; reading past the end of all memory is not modelled.
- `locate::lookUp` with its session, its wait and its timer, and the locking around the list: sessions are an interface without an implementation here.
- Tasks that throw something other than `std::exception`, or that shut down or destroy their own worker; the destructor of the worker, which is a call of `shutdownWorker`; data races on fields that are not atomic.
- WorkerProgress.WorkerExits: assumes a scheduler that is strongly fair to the worker, which includes that tasks terminate.
- Concurrent callers of the clock conversions: one caller at a time.
- TimeUtil.QshTimeUtil.UpdateQtimerToRealtimeOffset: the difference of two timestamps is taken without overflow; it could only overflow after a negative first reading of the clock.
- The process-wide instance of the wakelock and its lock name.
- `LoggerFactory.cpp`, `SensorsDiagLogger.cpp`, `SessionFactory.cpp`, `qshTarget.h`, `qshSSR.cpp`, the session example, tracing and thread names: they would add only easy members.
