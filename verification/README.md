# Redfish device manager: verified model

A Dafny model of the hard parts of a Redfish device manager that runs on top of the ODIM
services, with proofs about every input, every run or every schedule.

**Store and search indexes** (`lib-persistence-manager/persistencemgr/redis.go`).
Records live under flat `table:key` strings. Search indexes are sorted sets whose members are
printed texts (`value::id`, `[v1 v2]::id`, `host::location::[origins]`), read back by paged
scans with a glob pattern and by splitting strings. Redis is a map and sorted sets; a ZSCAN is
*any* sequence of pages that lists matching members only, each followed by its score, and every
matching member at least once; pages may be empty. `Strings`, `Glob`, `Decimals`, `SortedSets`
and `IndexValues` hold the string operations, the Redis glob matcher, the number printer and
parser, scans and index members; `CapacityIndex`, `ResourceIndex`, `Subscriptions` and
`FlatStore` hold the operations, as classes and loops, and what they stand for.

**Goroutine protocols**, each a transition system whose sequences of enabled events are its
schedules: `JobQueue`, `WriteWorkers` and their composition `Pipeline`
(`lib-utilities/common`; many batches on one queue that stays open, as svc-events has it, or is
closed in the end, as the comments ask), `PluginStatus` (the race in `CheckStatus`), `Collector`
(the life of a device's data collector), `StreamGroup` (the Redis Streams consumer group) and
`WritePool` (the rebuild after a failover). Unbuffered channels hand over in one event.

**The JSON walker** (`JsonWalker`): `parseMap`/`parseArray` as methods of a class that holds the
archive and the package flag, against a search that goes level by level. The key visited next is
arbitrary, so the contracts hold for every map order.

**State of a device**: `PollingList` (slices over shared arrays) and `LoginTable` (logins,
accounts, query user).

**Temperature records**: `Temperature` (the mask machine over tokens) and `SensorText` (from the
JSON text of any value to the tokens, and the loop over all chassis).

`Options` holds the one shared datatype.

Where a promise does not hold for all inputs, the model keeps the code as it is and states the
exact condition:

- `Del` gives up at the first page without a match (redis.go:958-960): an id is removed if and
  only if it is not indexed or the first page is not empty (`ResourceIndex.DelExact`); some scan
  always defeats it (`ResourceIndex.DelCanMissId`).
- An index member is read back if and only if its list is not empty and its id holds no `::`
  (`CapacityIndex.ReadMember`).
- `UpdateDeviceSubscription` sees only the first page of each scan: exactly when that is enough is
  `Subscriptions.UpdateExact`; a scan that defeats it is `Subscriptions.UpdateCanMiss`.
- Bracket escaping makes the pattern of a key exact if and only if the key holds no wildcard and
  no backslash but at its end or before a closing bracket (`Glob.EscapeExact`); the duplicate
  check of subscriptions works for exactly these keys but "0" (`Subscriptions.DuplicateCheckExact`).
- All devices start with one shared polling list; a removal shifts it in place and a later
  addition overwrites its end: exactly when another list stays as it is, is stated by
  `PollingList.SharedRemoval` and `PollingList.SharedAdd`.
- A password change stores the caller's record under the target's name
  (`LoginTable.RunNames`).
- When no sensor names a field twice, there is one temperature record for each sensor if and only
  if no sensor lacks one of the seven fields (`Temperature.CompleteSensors`); a sensor that does is
  mixed with the next. A field named again behind a complete sensor goes into the record of the
  next one (`Temperature.RepeatedFieldLeaks`).
- The process can end during `CheckStatus` if and only if some round would be answered without a
  status (`PluginStatus.LateResponsePanics`).
- The registration check compares beginnings: a schedule ends in a nil dereference if and only if
  it holds a call without user and token that names a proper beginning of a registered address and
  passes the checks that the device at that address answers (`Collector.RegisteredCheckByPrefix`);
  a call with a user or a token is refused there.

Where the code and its comments disagree, the code is followed: the comment of `parseMap` speaks
of the second level while the depth is the parameter `levelPos`; the comments at redis.go:616
and redis.go:1215 say that one key matches and that there is one entry for a host, which nothing
enforces.

## Model

| member | source | states |
|---|---|---|
| `JsonWalker.Walker.ParseMap` | svc-device-manager/data_collector.go:60-110 | for every order of the keys the walk reports the same bag: what objects and arrays under the keyword at the exact depth contribute, and each scalar text there that was not archived, once; the archive grows by those texts, `bfound` is set if and only if it was set or something is found, and the walk panics if and only if an array found holds a null |
| `JsonWalker.Walker.ParseField` | svc-device-manager/data_collector.go:63-107 | the same for one key and its value: the share of that field in the whole |
| `JsonWalker.Walker.ParseScalar` | svc-device-manager/data_collector.go:95-106 | a scalar is reported and archived unless its text was archived before |
| `JsonWalker.Walker.ParseKeywordArray` | svc-device-manager/data_collector.go:75-90 | an array under the keyword contributes its strings and itself once for each object element, and nothing from below; null panics |
| `JsonWalker.Walker.ParseKeywordElem` | svc-device-manager/data_collector.go:78-90 | one element of such an array; the second search of the array that a number, a boolean or a list starts finds nothing |
| `JsonWalker.Walker.ParseArray` | svc-device-manager/data_collector.go:114-123 | arrays add no depth: exactly the finds of the object elements at the same level |
| `JsonWalker.HitsAreAtDepth` | svc-device-manager/data_collector.go:60-123 | the recursive search finds a value if and only if an object at that depth, counted level by level, holds it under the keyword |
| `JsonWalker.LevelByChild` | svc-device-manager/data_collector.go:60-123 | going down level by level and child by child reach the same objects |
| `JsonWalker.SumKeysPick` | svc-device-manager/data_collector.go:62-63 | any key can be visited first: the total does not depend on the order |
| `JsonWalker.ScalarSearchExact` | svc-device-manager/data_collector.go:60-110 | for every document: besides what objects and arrays contribute, the results are exactly the scalar texts at depth `levelPos` that were not archived, each once, and the archive grows by exactly these |
| `JsonWalker.ScalarTextMeans` | svc-device-manager/data_collector.go:40-56 | a scalar text is that of a string, a number, or `true` or `false` held at that depth |
| `JsonWalker.ItemsMean` | svc-device-manager/data_collector.go:64-90 | an object contributes its rendering; an array each string as often as it holds it and its own rendering once for each object |
| `JsonWalker.SumWeighs` | svc-device-manager/data_collector.go:60-123 | what objects and arrays contribute is the sum of the contributions of the values found, as often as they are found |
| `JsonWalker.ItemsAreAtDepth` | svc-device-manager/data_collector.go:60-123 | an item is contributed if and only if a value under the keyword at that depth contributes it |
| `Decimals.PrintParse` | lib-persistence-manager/persistencemgr/redis.go:864-868 | parsing a printed number gives the number back |
| `Decimals.ValueOrder` | lib-persistence-manager/persistencemgr/redis.go:869-890 | the values of numbers are ordered as their signs and digits are |
| `Decimals.FractionDigits` | lib-persistence-manager/persistencemgr/redis.go:864-868 | the digits behind the point stand for their number, with the point moved by their count |
| `IndexValues.LowerLetters` | lib-persistence-manager/persistencemgr/redis.go:705-714 | each capital becomes its small letter and every other character stays |
| `IndexValues.NumberMember` | lib-persistence-manager/persistencemgr/redis.go:699-704 | a number is read back from its member and is its own score; all else has score 0 |
| `IndexValues.TextMember` | lib-persistence-manager/persistencemgr/redis.go:705-708 | a text without a colon is read back in small letters |
| `IndexValues.TextsMember` | lib-persistence-manager/persistencemgr/redis.go:709-714 | a list of texts free of the marks is read back in small letters, text by text |
| `CapacityIndex.ReadMember` | lib-persistence-manager/persistencemgr/redis.go:858-868 | a member `[v1 v2]::id` is taken apart into its id and numbers if and only if the list is not empty and the id holds no `::`; an empty list never parses |
| `CapacityIndex.GetUniqueSlice` | lib-persistence-manager/persistencemgr/redis.go:804-814 | the same elements, each once |
| `CapacityIndex.SearchValues` | lib-persistence-manager/persistencemgr/redis.go:863-891 | fails if and only if some text is no number; otherwise selects the id if and only if some number passes the comparison |
| `CapacityIndex.SearchRow` | lib-persistence-manager/persistencemgr/redis.go:858-891 | one member: panic, parse error or selection exactly as the member reads |
| `CapacityIndex.GetStorageList` | lib-persistence-manager/persistencemgr/redis.go:823-895 | the first unreadable member decides the failure; otherwise the ids with a number that passes, each once |
| `CapacityIndex.ScanGathers` | lib-persistence-manager/persistencemgr/redis.go:827-852 | gathering any complete scan yields exactly the members and no scores |
| `CapacityIndex.CapacitySearchRefinesQuery` | lib-persistence-manager/persistencemgr/redis.go:823-895 | for every index of float lists and every paging, the search succeeds if and only if no list is empty, and then returns each id with a fitting capacity exactly once and no other |
| `CapacityIndex.InsertsIndex` | lib-persistence-manager/persistencemgr/redis.go:715-728 | after any insertions of float lists the index holds exactly their members |
| `CapacityIndex.SearchAfterInserts` | lib-persistence-manager/persistencemgr/redis.go:823-895 | from insertion to search: after any insertions of non-empty lists under ids without `::` and for any paging each id with a fitting capacity is returned exactly once, and no other |
| `CapacityIndex.HoldsByDigits` | lib-persistence-manager/persistencemgr/redis.go:869-890 | the five comparison keys decide by signs and digits alone; every other key selects nothing |
| `CapacityIndex.QueryMeans` | lib-persistence-manager/persistencemgr/redis.go:869-890 | what is asked for under a key and a bound, in terms of signs and digits |
| `SortedSets.ScanAll` | lib-persistence-manager/persistencemgr/redis.go:1025-1058 | everything listed on all pages but the text "0", in order |
| `SortedSets.GatheredMembers` | lib-persistence-manager/persistencemgr/redis.go:1042-1046 | a text is gathered if and only if some page lists it and it is not "0" |
| `SortedSets.ScanAfterEmpty` | lib-persistence-manager/persistencemgr/redis.go:1152-1163 | every index and pattern has a legal scan whose first page is empty |
| `Glob.AnyPattern` | lib-persistence-manager/persistencemgr/redis.go:829-829 | `*` matches every string |
| `Glob.SuffixPattern` | lib-persistence-manager/persistencemgr/redis.go:946-948 | `*k` matches exactly the strings that end with `k` |
| `Glob.PrefixPattern` | lib-persistence-manager/persistencemgr/redis.go:426-426 | `p*` matches exactly the strings that start with `p` |
| `Glob.HostPattern` | lib-persistence-manager/persistencemgr/redis.go:1211-1217 | `h[^0-9]*` matches exactly the strings that go on after `h` with a non-digit |
| `Glob.EscapeExact` | lib-persistence-manager/persistencemgr/redis.go:1007-1013 | for every key the escaped pattern matches the key and nothing else if and only if the key holds no `*` and no `?`, and every backslash ends the key or stands before `]` |
| `Glob.NotTame` | lib-persistence-manager/persistencemgr/redis.go:1007-1008 | for every other key, a string on which key and escaped pattern disagree |
| `Glob.TokensAtMost` | lib-persistence-manager/persistencemgr/redis.go:1007-1008 | an escaped text, also after some of it was read, has no more tokens than its key has characters |
| `Glob.EscapeKeepsPrefix` | lib-persistence-manager/persistencemgr/redis.go:1121-1124 | an escaped key that starts with plain text matches only strings that start with it |
| `ResourceIndex.IndexStore.CreateIndex` | lib-persistence-manager/persistencemgr/redis.go:685-735 | for every order of the form: all members are added if and only if every value is supported; otherwise some part of the form was added |
| `ResourceIndex.IndexStore.Del` | lib-persistence-manager/persistencemgr/redis.go:942-991 | removes what the pages before the first empty one list; reports whether no page was empty |
| `ResourceIndex.IndexStore.SweepPage` | lib-persistence-manager/persistencemgr/redis.go:967-978 | removes from the one index everything a page lists but "0" |
| `ResourceIndex.IndexStore.UpdateResourceIndex` | lib-persistence-manager/persistencemgr/redis.go:1230-1242 | deletion in every index of the form, in any order, then insertion; with an unsupported value the deletions stay and part of the form was inserted |
| `ResourceIndex.DelExact` | lib-persistence-manager/persistencemgr/redis.go:942-991 | `Del` turns the encoding of a map into that of the map without the id if and only if the id is not indexed or the first page is not empty; otherwise nothing changes |
| `ResourceIndex.DelCanMissId` | lib-persistence-manager/persistencemgr/redis.go:958-960 | for every indexed id there is a legal scan that makes `Del` leave it in place |
| `ResourceIndex.UpdateExact` | lib-persistence-manager/persistencemgr/redis.go:1230-1242 | the update leaves the encoding of the updated map if and only if the id was new, the first page was not empty or the value prints the same |
| `ResourceIndex.StepKeeps` | lib-persistence-manager/persistencemgr/redis.go:685-735 | each operation keeps every index the encoding of its map |
| `ResourceIndex.RunKeeps` | lib-persistence-manager/persistencemgr/redis.go:942-991 | over every run of inserts, deletions and updates each index is the encoding of the map from id to latest value, with other ids untouched |
| `Subscriptions.SubscriptionIndex.CreateEvtSubscriptionIndex` | lib-persistence-manager/persistencemgr/redis.go:998-1019 | the key is added, or refused when the scan gathers anything |
| `Subscriptions.SubscriptionIndex.DeleteEvtSubscriptions` | lib-persistence-manager/persistencemgr/redis.go:1063-1088 | removes all that the whole scan gathers; an error if and only if that is nothing |
| `Subscriptions.SubscriptionIndex.Remove` | lib-persistence-manager/persistencemgr/redis.go:1078-1086 | exactly the texts given leave the index |
| `Subscriptions.SubscriptionIndex.UpdateEvtSubscriptions` | lib-persistence-manager/persistencemgr/redis.go:1093-1104 | deletion, then creation; a refused creation does not bring back what was deleted |
| `Subscriptions.SubscriptionIndex.GetDeviceSubscription` | lib-persistence-manager/persistencemgr/redis.go:1141-1174 | the first page only; an error if and only if it is empty |
| `Subscriptions.SubscriptionIndex.DeleteDeviceSubscription` | lib-persistence-manager/persistencemgr/redis.go:1179-1205 | removes what the first page lists |
| `Subscriptions.SubscriptionIndex.CreateDeviceSubscriptionIndex` | lib-persistence-manager/persistencemgr/redis.go:1111-1133 | adds the entry if and only if the first page of the duplicate scan is empty |
| `Subscriptions.SubscriptionIndex.UpdateDeviceSubscription` | lib-persistence-manager/persistencemgr/redis.go:1210-1226 | the three steps end in the index and the outcome of `UpdatedIndex` |
| `Subscriptions.DuplicateCheckExact` | lib-persistence-manager/persistencemgr/redis.go:998-1058 | over all indexes and scans creation is refused exactly when the key is present, if and only if the key is not "0", holds no wildcard and no backslash but at its end or before `]` |
| `Subscriptions.DuplicateCheck` | lib-persistence-manager/persistencemgr/redis.go:998-1058 | for such a key, any index and any scan the check refuses exactly the keys present |
| `Subscriptions.ZeroNeverRefused` | lib-persistence-manager/persistencemgr/redis.go:1042-1046 | the key "0" is never refused, present or not |
| `Subscriptions.EntryOfHost` | lib-persistence-manager/persistencemgr/redis.go:1111-1133 | the pattern of a host matches exactly that host's entries, also beside hosts that extend it by digits |
| `Subscriptions.KeyDetermines` | lib-persistence-manager/persistencemgr/redis.go:1119-1120 | an entry determines host, location and list of origins when these are free of the marks |
| `Strings.MarkDetermines` | lib-persistence-manager/persistencemgr/redis.go:1120-1120 | the texts before and behind the first mark are determined |
| `Subscriptions.UpdateExact` | lib-persistence-manager/persistencemgr/redis.go:1210-1226 | for all scans the update leaves exactly the new entry for the host and all others if and only if both first pages list something and the second lists every other entry of the host, or the only entry was the new one already |
| `Subscriptions.UpdateCanMiss` | lib-persistence-manager/persistencemgr/redis.go:1152-1163 | unless the only entry is the new one already, a legal scan makes the update change nothing and fail |
| `Subscriptions.UpdateKeepsOtherHosts` | lib-persistence-manager/persistencemgr/redis.go:1210-1226 | whatever the scans list, no entry of another host changes |
| `Subscriptions.UpdateNeedsEntry` | lib-persistence-manager/persistencemgr/redis.go:1211-1214 | without an entry for the host the update changes nothing and fails |
| `FlatStore.Store.Create` | lib-persistence-manager/persistencemgr/redis.go:307-336 | when it succeeds and what it changes under every fault; a healthy call never overwrites a record, a read that fails otherwise lets it |
| `FlatStore.Store.Read` | lib-persistence-manager/persistencemgr/redis.go:377-406 | the record under the flat key, or the error of the fault |
| `FlatStore.Store.Update` | lib-persistence-manager/persistencemgr/redis.go:343-373 | acts on existing keys only; when it succeeds and when the write pool is dropped |
| `FlatStore.Store.Delete` | lib-persistence-manager/persistencemgr/redis.go:444-470 | acts on existing keys only; a refused connection drops the write pool |
| `FlatStore.Store.GetAllDetails` | lib-persistence-manager/persistencemgr/redis.go:423-440 | the listed keys, in order, without the prefix of the table |
| `FlatStore.Store.GetResourceDetails` | lib-persistence-manager/persistencemgr/redis.go:604-626 | reads the last key listed, split at its first colon |
| `FlatStore.FlatKeyInjective` | lib-persistence-manager/persistencemgr/redis.go:307-336 | a flat key determines table and key when table names hold no colon |
| `FlatStore.StepRefines` | lib-persistence-manager/persistencemgr/redis.go:307-470 | each fault-free operation gives the reply of a map of tables and keeps the correspondence |
| `FlatStore.RunRefines` | lib-persistence-manager/persistencemgr/redis.go:307-470 | no run of the flat store can be told from the run of the map of tables |
| `FlatStore.AllDetailsAreTheTable` | lib-persistence-manager/persistencemgr/redis.go:423-440 | `GetAllDetails` returns exactly the keys of its own table, each once |
| `FlatStore.ResourceDetailsFindsRecord` | lib-persistence-manager/persistencemgr/redis.go:604-626 | when one stored key matches, its record is read back |
| `JobQueue.StepInv` | lib-utilities/common/jobqueue.go:41-63 | every event keeps conservation, the agreement with the workers' logs and the order of closing |
| `JobQueue.RunInv` | lib-utilities/common/jobqueue.go:41-63 | the same over every schedule |
| `JobQueue.HandedOutOnce` | lib-utilities/common/jobqueue.go:18-63 | in every schedule the jobs sent are, in order, those received, in `out`, in `buff` and in `in`; `out` is closed only when the input is closed and drained |
| `JobQueue.JobsCount` | lib-utilities/common/jobqueue.go:52-54 | the jobs of a sequence of items are its non-nil items, each as often as it was sent |
| `JobQueue.JobsSnoc` | lib-utilities/common/jobqueue.go:52-54 | a further job comes last, a further nil changes nothing |
| `JobQueue.SingleWorkerOrder` | lib-utilities/common/workerpool.go:29-37 | one worker processes the jobs in the order sent |
| `JobQueue.StepWorks` | lib-utilities/common/jobqueue.go:41-63 | every event that is not a send decreases a measure |
| `JobQueue.ClosedTerminates` | lib-utilities/common/jobqueue.go:41-63 | after the input is closed no schedule is longer than the work left |
| `JobQueue.Progress` | lib-utilities/common/jobqueue.go:41-63 | with a worker, some event is possible until everything is drained |
| `JobQueue.DrainedMeansDone` | lib-utilities/common/workerpool.go:29-37 | a drained queue has handed out every job and every call has returned |
| `WriteWorkers.DoInv` | lib-utilities/common/workerpool.go:53-75 | every act keeps the lock discipline and written ++ in hand ++ batch equal to the whole batch |
| `WriteWorkers.WrittenInOrder` | lib-utilities/common/workerpool.go:53-75 | the batch is written in order, each item once; `done` at most once and only after the last item; afterwards no worker can act |
| `WriteWorkers.EveryScheduleWrites` | lib-utilities/common/workerpool.go:53-75 | in every schedule what is written is a beginning of the batch and only grows, and the length of the schedule is bounded |
| `WriteWorkers.StoppedMeansWritten` | lib-utilities/common/workerpool.go:53-75 | with a worker, a schedule that cannot go on has written the whole batch in order and signalled `done` once |
| `WriteWorkers.DoWorks` | lib-utilities/common/workerpool.go:53-75 | every act decreases a measure |
| `Pipeline.NextGood` | svc-events/consumer/consumer.go:57-86 | arrivals of batches, writers, queue and readers together keep their joint invariant: the queue has accepted what the stores wrote, each store its own batch in order |
| `Pipeline.NextWorks` | svc-events/consumer/consumer.go:57-86 | every move but an arrival decreases one measure of the whole |
| `Pipeline.RunGood` | svc-events/consumer/consumer.go:57-86 | the invariant over every schedule with any number of batches at any times |
| `Pipeline.Progress` | svc-events/consumer/consumer.go:57-86 | a system that is not quiet can go on by itself, on a queue that stays open |
| `Pipeline.RunWorks` | svc-events/consumer/consumer.go:57-86 | between two arrivals no schedule is longer than the work there is |
| `Pipeline.QuietDelivers` | svc-events/consumer/consumer.go:57-86 | a quiet system has written every batch in its own order and handed every job to exactly one reader, whose call has returned |
| `Pipeline.BatchesDelivered` | lib-utilities/common/workerpool.go:44-75 | for any batches and every schedule: whenever no writer, queue or reader can move, everything that arrived is delivered, in the order written, and a queue that was closed after its writers is drained |
| `PluginStatus.StatusAnswer` | lib-utilities/common/pluginstatus.go:151-228 | alive if and only if the body says yes, in any case; the queues of the body; the error text otherwise; a panic if and only if the status is missing |
| `PluginStatus.YesSpellings` | lib-utilities/common/pluginstatus.go:217-224 | the answer yes is exactly its eight spellings |
| `PluginStatus.LogTells` | lib-utilities/common/pluginstatus.go:122-125 | the log holds exactly the tries with an error, under their numbers |
| `PluginStatus.LogInOrder` | lib-utilities/common/pluginstatus.go:122-125 | the tries are logged in order |
| `PluginStatus.CheckStatus` | lib-utilities/common/pluginstatus.go:106-140 | true with the number of the first live round, or false with `Count`; the log holds the errors of the rounds used |
| `PluginStatus.StepInv` | lib-utilities/common/pluginstatus.go:106-148 | the current round is fed by one producer and the other has sent nothing |
| `PluginStatus.RunInv` | lib-utilities/common/pluginstatus.go:106-148 | the same over every schedule |
| `PluginStatus.EveryScheduleIsFair` | lib-utilities/common/pluginstatus.go:106-228 | in every schedule each round is consumed from a single producer while the loser never passes its first send, and the verdict names the first live round |
| `PluginStatus.NeverStuck` | lib-utilities/common/pluginstatus.go:143-148 | a call that has not concluded can go on without a panic and gets closer to its end |
| `PluginStatus.LateResponsePanics` | lib-utilities/common/pluginstatus.go:212-227 | some schedule ends the process if and only if some round would be answered without a status |
| `PluginStatus.LostAnswerPanicsLater` | lib-utilities/common/pluginstatus.go:212-227 | an answer without a status whose round was lost to the timer can end the process in every later round |
| `Collector.StepInv` | svc-device-manager/collect_data.go:124-173 | every event keeps entries, goroutines, tickers and calls in agreement |
| `Collector.RunInv` | svc-device-manager/collect_data.go:124-173 | the same over every schedule |
| `Collector.OneCollectorEach` | svc-device-manager/grpcAPIs.go:303-330 | in every schedule an address has a live collector, and then one, if and only if it is registered and neither in the first nor in the last step of its life |
| `Collector.LookupsSucceed` | svc-device-manager/grpcAPIs.go:272-274 | a collector that has not ended finds its own device in the map: the entry goes after its last access |
| `Collector.TickerFollowsFreq` | svc-device-manager/collect_data.go:192-201 | at its select the ticker is stopped for the frequency 0 and ticks every `Freq` seconds otherwise, or at the value just handed over |
| `Collector.CollectsWhenAsked` | svc-device-manager/collect_data.go:129-138 | at its select a collector can collect if and only if the frequency is not 0 |
| `Collector.FrequencyAsAsked` | svc-device-manager/collect_data.go:192-201 | over every schedule a device has the frequency last asked for, or a call in flight is bringing it |
| `Collector.RegisteredCheckByPrefix` | svc-device-manager/main.go:66-75 | a schedule ends in a nil dereference if and only if it holds an anonymous call that names a proper beginning of a registered address and passes the checks the device answers, and that call is its last event |
| `Collector.PrefixCallCrashes` | svc-device-manager/main.go:66-75 | for every address and each proper beginning of it an anonymous call that passes the other checks makes such a schedule |
| `Collector.NamedCallSafe` | svc-device-manager/accountsService.go:93-113 | a call with a user or a token never does; without an entry it is refused and changes nothing |
| `Collector.CallsGoOn` | svc-device-manager/collect_data.go:124-173 | for a call in flight its own next step or one of its collector is possible and brings the call closer to its return |
| `StreamGroup.StepInv` | lib-messagebus/datacommunicator/redisstreamcomm.go:91-182 | every event keeps the account of the entries and that what is acknowledged was handled |
| `StreamGroup.RunInv` | lib-messagebus/datacommunicator/redisstreamcomm.go:91-182 | the same over every schedule |
| `StreamGroup.AtLeastOnce` | lib-messagebus/datacommunicator/redisstreamcomm.go:91-182 | for any consumers and crashes each entry is exactly one of undelivered, pending and acknowledged, and an acknowledged one was handled |
| `StreamGroup.HandledAgain` | lib-messagebus/datacommunicator/redisstreamcomm.go:156-182 | from every reachable state a pending entry can be handed to the handler once more |
| `StreamGroup.HandledAnyTimes` | lib-messagebus/datacommunicator/redisstreamcomm.go:156-182 | for every number a schedule in which one entry is handled that many times: not exactly once |
| `StreamGroup.HandledOnce` | lib-messagebus/datacommunicator/redisstreamcomm.go:91-134 | without claims every entry is handled at most once, whatever crashes or is lost |
| `StreamGroup.OnceUnlessClaimed` | lib-messagebus/datacommunicator/redisstreamcomm.go:91-134 | the same from every state in which nothing was repeated |
| `StreamGroup.OwnerChanges` | lib-messagebus/datacommunicator/redisstreamcomm.go:156-182 | a pending entry belongs to the consumer that read or claimed it last |
| `StreamGroup.AckSettles` | lib-messagebus/datacommunicator/redisstreamcomm.go:120-128 | an acknowledgement settles the entry read unless it is lost |
| `StreamGroup.ClaimAckSettles` | lib-messagebus/datacommunicator/redisstreamcomm.go:156-182 | the same for a claimed entry |
| `StreamGroup.Drain` | lib-messagebus/datacommunicator/redisstreamcomm.go:91-182 | a consumer at rest can bring all open entries to their acknowledgement |
| `StreamGroup.NothingLost` | lib-messagebus/datacommunicator/redisstreamcomm.go:91-182 | from every reachable state a new consumer can bring every entry to the handler and to its acknowledgement |
| `WritePool.RetryForMasterIP` | lib-persistence-manager/persistencemgr/redis.go:160-169 | all answers before the one taken are empty or the old master; the one taken is neither unless it is the 120th |
| `WritePool.AskExact` | lib-persistence-manager/persistencemgr/redis.go:160-169 | the search ends with the first answer that names another master; the last answer is taken if it names any |
| `WritePool.StepInv` | lib-persistence-manager/persistencemgr/redis.go:104-158 | every step keeps mutual exclusion and the tie between pool, `MasterIP` and mutex |
| `WritePool.RunInv` | lib-persistence-manager/persistencemgr/redis.go:104-158 | the same over every schedule |
| `WritePool.LivePoolNotReplaced` | lib-persistence-manager/persistencemgr/redis.go:104-158 | a live pool stays or becomes nil, never another |
| `WritePool.PoolFollowsMaster` | lib-persistence-manager/persistencemgr/redis.go:104-158 | for every interleaving, with the mutex free the pool is nil or belongs to `MasterIP` |
| `WritePool.PoolAheadOfMaster` | lib-persistence-manager/persistencemgr/redis.go:154-155 | while the mutex is held a writer may work on a pool that `MasterIP` does not name: a schedule for every new master |
| `WritePool.PoolStaysWithoutFailure` | lib-persistence-manager/persistencemgr/redis.go:329-333 | as long as no command fails every schedule keeps the first pool |
| `WritePool.NilForGoodWithoutHA` | lib-persistence-manager/persistencemgr/redis.go:104-141 | without high availability a nil pool stays nil in every run |
| `WritePool.StaleWriterDropsNewPool` | lib-persistence-manager/persistencemgr/redis.go:329-333 | a schedule from the start leads to a rebuilt pool, on any new master, that a writer which failed on the old one sets to nil |
| `WritePool.RebuildPossible` | lib-persistence-manager/persistencemgr/redis.go:104-169 | a resetter can always reach a live pool on the named host |
| `Temperature.Fill` | svc-device-manager/system_operations.go:118-145 | mask and record hold the first value of each field since the last record |
| `Temperature.Accumulate` | svc-device-manager/system_operations.go:109-155 | the records are those of the tokens alone, although the record map is carried over |
| `Temperature.OneRecordPerSensor` | svc-device-manager/system_operations.go:98-156 | if every sensor block carries each field once, the output is one record per sensor, in order, with that sensor's values |
| `Temperature.RecordHasSeven` | svc-device-manager/system_operations.go:118-147 | a record has exactly the seven fields |
| `Temperature.RecordsAreSegments` | svc-device-manager/system_operations.go:111-154 | the stream is cut into segments; every record has for each field its first value since the previous record |
| `Temperature.CompleteSensors` | svc-device-manager/system_operations.go:98-156 | when no sensor names a field twice, there is one record per sensor if and only if no sensor lacks a field |
| `Temperature.RecordsAtMost` | svc-device-manager/system_operations.go:111-154 | there are no more records than tokens of any one field |
| `Temperature.WalkBlock` | svc-device-manager/system_operations.go:111-154 | from inside a sensor block its own record is emitted next, and the rest of the block fills no field |
| `Temperature.MissingFieldMixes` | svc-device-manager/system_operations.go:111-154 | the record of a sensor that lacks a field has its own values and, for the missing field, the value of the next sensor |
| `Temperature.RepeatedFieldLeaks` | svc-device-manager/system_operations.go:111-154 | tokens that name fields again behind a complete sensor go into the record of the next: that has its own values if and only if they bring no other value |
| `SensorText.JSONToByte` | svc-device-manager/config.go:77-91 | each comma-separated piece becomes its first two colon-separated cells, trimmed; a panic if and only if some piece holds no colon |
| `SensorText.ReadTokens` | svc-device-manager/system_operations.go:111-117 | each piece is split into name and value |
| `SensorText.ResplitRow` | svc-device-manager/system_operations.go:112-117 | splitting a rewritten piece again gives exactly its name and value |
| `SensorText.ChassisTokens` | svc-device-manager/system_operations.go:104-117 | cutting, rewriting and splitting again yields the tokens of the text |
| `SensorText.GetDeviceTemperature` | svc-device-manager/system_operations.go:95-157 | the first chassis that cannot be fetched or read decides; otherwise the records of each chassis on its own, in order |
| `SensorText.TextLayout` | svc-device-manager/config.go:77-91 | cutting the text of any JSON value yields the rows given by its structure |
| `SensorText.GridDressed` | svc-device-manager/config.go:84-86 | quotes, braces and brackets around a text change none of its cells |
| `SensorText.RenderedTokens` | svc-device-manager/config.go:77-91 | for sensors with any names and values, nested or with punctuation inside: the text of the list can be read if and only if there is a sensor and each can be read, and its tokens are those of the sensors, in order |
| `SensorText.SensorsBecomeRecords` | svc-device-manager/system_operations.go:98-156 | from the JSON text of any sensor list in which each sensor carries each field once to one record for each sensor |
| `SensorText.PlainSensor` | svc-device-manager/config.go:77-91 | a sensor of plain names and values is read as exactly those |
| `SensorText.NestedField` | svc-device-manager/config.go:84-87 | a nested value is lost: the field is read as the first name inside it |
| `SensorText.ListPanics` | svc-device-manager/config.go:84-87 | a list of plain values inside a sensor is a panic |
| `SensorText.NoSensorsPanics` | svc-device-manager/config.go:77-91 | a plain value such as `null` in place of the sensor list is a panic |
| `PollingList.Server.Register` | svc-device-manager/grpcAPIs.go:326-326 | a new device gets the slice that all devices get |
| `PollingList.Server.AddPollingRfAPI` | svc-device-manager/collect_data.go:60-80 | adds a known API that is not listed up to a slash; on an array of its own or a full one no other list changes; spare capacity of the array is overwritten, whoever shares it |
| `PollingList.Server.RemovePollingRfAPI` | svc-device-manager/collect_data.go:82-109 | removes the first match by shifting the array; on an array of its own no other list changes |
| `PollingList.Server.ClearPollingRfAPI` | svc-device-manager/collect_data.go:111-114 | an empty list on an array of its own; no other list changes |
| `PollingList.Server.Serve` | svc-device-manager/collect_data.go:60-114 | over every run on an unshared list: the list follows its values and stays proper, and no other list changes |
| `PollingList.FindEntry` | svc-device-manager/collect_data.go:92-99 | the first entry that is the API up to a slash, or -1 |
| `PollingList.AppendTo` | svc-device-manager/collect_data.go:78-78 | the appended list, in the spare capacity or in a new array |
| `PollingList.Slash` | svc-device-manager/config.go:68-74 | the result ends with a slash |
| `PollingList.SlashText` | svc-device-manager/config.go:68-74 | the text is kept and nothing but a missing slash is added |
| `PollingList.ShiftFrom` | svc-device-manager/collect_data.go:95-95 | the array after the in-place append |
| `PollingList.AddThenRemove` | svc-device-manager/collect_data.go:60-109 | a successful add then remove of the same API restores the list |
| `PollingList.RunProper` | svc-device-manager/collect_data.go:60-114 | over every run entries stay non-empty and distinct up to a slash |
| `PollingList.SharedRemoval` | svc-device-manager/collect_data.go:95-95 | a removal leaves another list over the same array unchanged if and only if every entry that list shows from the removed one on equals the next |
| `PollingList.SharedRemovalProper` | svc-device-manager/collect_data.go:95-95 | for a removing list without repetition: if and only if the other ends before the entry or the entry was the last |
| `PollingList.SharedAdd` | svc-device-manager/collect_data.go:78-78 | an addition leaves another list over the same array unchanged if and only if that is no longer or showed the entry already |
| `PollingList.SharedRemoveThenAdd` | svc-device-manager/collect_data.go:78-95 | removing and adding on one device replaces entries of the list that all devices share |
| `PollingList.SharedRemovalDuplicates` | svc-device-manager/grpcAPIs.go:326-326 | afterwards the shared default list names an API twice |
| `LoginTable.Device.UpdateAuthData` | svc-device-manager/accountsService.go:77-91 | stores a new record under the user's name |
| `LoginTable.Device.GetUserAuthData` | svc-device-manager/accountsService.go:93-113 | any record whose token or name matches, or the zero record if and only if none does |
| `LoginTable.Device.LoginDevice` | svc-device-manager/accountsService.go:404-471 | outcome, status and table for all answers of the device; a failed login leaves no entry for the user |
| `LoginTable.Device.TryLogin` | svc-device-manager/accountsService.go:411-470 | the login before the deferred clean-up: other entries and the query state stay, and a failure leaves the query user |
| `LoginTable.Device.LogoutDevice` | svc-device-manager/accountsService.go:473-497 | succeeds only for a record with a token and then leaves no entry under the name |
| `LoginTable.Device.RemoveDeviceAccount` | svc-device-manager/accountsService.go:340-368 | a successful removal leaves no entry |
| `LoginTable.Device.ChangeDeviceUserPassword` | svc-device-manager/accountsService.go:499-520 | stores the caller's record with the new password under the target's name |
| `LoginTable.Device.StartQueryDeviceData` | svc-device-manager/collect_data.go:175-184 | sets the query user if the caller is found |
| `LoginTable.Device.StopQueryDeviceData` | svc-device-manager/collect_data.go:186-190 | clears the query user |
| `LoginTable.Device.DeleteDeviceSession` | svc-device-manager/accountsService.go:191-201 | fails if and only if the search fails or a session found is not deleted |
| `LoginTable.StepNames` | svc-device-manager/accountsService.go:515-516 | one operation keeps each entry under its own name if and only if it is no foreign password change |
| `LoginTable.RunNames` | svc-device-manager/accountsService.go:404-520 | each entry stored under u names u all through a run if and only if no password change in it is made by another user |
| `LoginTable.RunQuery` | svc-device-manager/collect_data.go:175-190 | after every run `QueryState` implies a query user |
| `LoginTable.RunEntries` | svc-device-manager/accountsService.go:340-520 | after every run a user has an entry, with the password last set, exactly as the outcomes of the user's own operations tell: none after a failed login, a logout or a removal |
| `LoginTable.LoginLeaves` | svc-device-manager/accountsService.go:404-471 | a successful login leaves a record of its kind under the own name, with the token of the answer; a basic login sets the query user, a token login does not |
| `LoginTable.LoginThenLogout` | svc-device-manager/accountsService.go:404-497 | after a token login the user can be logged out exactly when the device gives up the session, and the table is as without the user; after a basic login never |
| `LoginTable.RunQueryUser` | svc-device-manager/collect_data.go:175-190 | after every run query user and query state are those of the last basic login, start or stop |
| `LoginTable.AnonymousCaller` | svc-device-manager/accountsService.go:104-108 | a call without user and token finds a caller exactly when the device needs no authentication |
| `LoginTable.RunKeepsOthers` | svc-device-manager/accountsService.go:340-520 | operations on other users leave a user's record as it is |
| `LoginTable.SearchDetermined` | svc-device-manager/accountsService.go:93-113 | the answer does not depend on the map order if and only if no token is shared or equals another user's name |
| `LoginTable.CallerRecord` | svc-device-manager/accountsService.go:93-113 | a record found is the one stored under its own name, or the anonymous one |
| `LoginTable.StepSeparated` | svc-device-manager/accountsService.go:404-520 | every operation with a new token and without a foreign password change keeps tokens separated |
| `LoginTable.RunSearchDetermined` | svc-device-manager/accountsService.go:93-113 | with new tokens and no foreign password change that holds after every run |
| `LoginTable.ForeignChangeImpersonates` | svc-device-manager/accountsService.go:499-520 | after a foreign password change a search for the target can answer with the caller's record |

## Left out

- HTTP, TLS, gRPC, Kafka and the Redis client: what they answer is an arbitrary input of the operations.
- Connection faults of the index operations: only `FlatStore` and `WritePool` model faults; the indexes are fault-free.
- `GetString`, `GetRange`, task indexes, `DeleteServer`, `GetAllMatchingDetails`, `AddResourceData` and `FilterSearch`: easy beside the operations modelled.
- `ConnPool.Transaction`: its callback writes on other connections, so nothing about atomicity follows from the code.
- Floating point: a float is its shortest decimal, compared by value; NaN and infinities are out, and `ParseFloat` is modelled on the printed notation only.
- Text is compared and lowered in ASCII; the cases of other alphabets are not modelled.
- Score texts of integer and float indexes are the printed values; Redis' own formatting of scores is not modelled.
- JsonWalker.Walker.ParseMap: the depth counter does not wrap at the size of `uint`, and marshalled values are kept as values instead of their texts.
- PluginStatus.CheckStatus: works on the reports the rounds received; the channels are in the transition system of the same module.
- Temperature.Fill: the mask is kept as the set of its bits, and the seven `if` statements as a loop over the field names.
- SensorText.GetDeviceTemperature: the check of the caller's login before the loop and the JSON text of each record are not modelled.
- `JobQueue`, `WriteWorkers`, `PluginStatus`, `Collector`, `StreamGroup` and `WritePool` are transition systems over the steps of the goroutines, not loops: what several goroutines do together has no single loop.
- Goroutine-free reads such as `getRfAPIList` and `listDeviceAccount`: they only list state.
- `Collector`: one call in flight for each address, as the callers are expected to make them; of the checks before a call, registration and the search for the user are modelled, and what the others find in the answers of the device is an input; the index panic of the privilege check in `SetFrequency` (one argument passed, the second read on refusal) is out.
- `StreamGroup`: creation of the group is taken to have succeeded; minimum idle time and sleeps are out, so any pending entry may be claimed.
- `WritePool`: the first creation of the pools in `GetDBConnection` and the read pool are out, and so are sleeps between retries.
- LoginTable.Device.LoginDevice: the device is registered (without an entry in the map the code dereferences nil), and locking is not modelled.
- The privilege checks of `getFunctionsResult`, configuration, cryptography, validators, model structs, error tables and service start-up.
