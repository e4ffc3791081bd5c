# The discovery service of EA, modelled and proved

A model, in Dafny 4.11, of the replicated metadata service under `ea/discovery`
and of the concurrency utilities it stands on, with proofs of what every step
and every run keeps. Raft is a totally ordered log of committed entries, and
RocksDB a finite map whose batch writes happen whole or not at all.

Each component comes in two parts: an imperative part, in which the managers and
state machines are classes changed in place by methods with the loops and
branches of the code, and a specification of plain functions on values. Every
method is proved to compute its function; the theorems are about whole runs of
these functions. What the functions themselves compute is tied down once more in
the modules named History: a second account of every operation, from the answers
to its requests alone, which the runs are proved to agree with.

| file | what it models |
|---|---|
| Tso, TsoSystem | the timestamp oracle on one replica, and all replicas together: log, leader changes, deposed leaders, save-ahead window, snapshots, restarts, calls that retry |
| TsoAgreement, TsoOrder | what replicas agree on in every run; the order of the ranges in every good run |
| TsoExact, TsoRuns | the hypotheses of good runs as if-and-only-ifs; runs from the start that break them |
| Incremental, DoubleBuffer | the two-generation change log and its polls; two copies kept in step by replaying batches |
| Wrappers, Replies | options; the answers of the managers |
| Words | 64-bit integers and their wrap-around |
| Decimal, Names | decimal text; name checks, compound keys, byte keys of the store, versions |
| Schema, SchemaRuns, SchemaManagers | namespaces, zones and servlets: operations, invariants and runs, and the managers as objects with snapshot loading |
| SchemaHistory, ConfigHistory, PrivilegeHistory, InstanceHistory, AutoIncrHistory, MachineHistory | what is read and answered, told from the requests that succeeded |
| Instance | service instances, their three indexes and the flattened query |
| Config | versioned configurations |
| Privilege | users and their rights |
| Machine | the discovery state machine over the four groups of managers |
| AutoIncr | auto-increment ids and their JSON snapshot |
| RaftControl | changes of the raft group and their majorities |
| Bthread | bounded concurrency as steps of many threads |
| MemTracker | memory accounting and its pool |

## What the code does other than it means

Where the code and its intent part, the model has both, the theorems are about
the intended operation, and lemmas say exactly when the code as written meets it.

- `servlet_manager.cc:88` adds the servlet to the children of the namespace id,
  `:111` looks for the zone key among the servlet keys, `:121` removes the store
  key of the zone id, and `:160` reads the servlet under the zone id. The
  parameter `Variant` of the servlet operations picks the code or the intent.
- `instance_manager.cc:178-182` erases whole buckets of the three indexes when
  one instance goes. Here, too, `Variant` picks.
- `config_manager.cc:136-140` reports a missing version and goes on to remove it,
  so that the reply ends up a success. The model does the same.
- `config_manager.cc:75` files a config without a version under 0.0.1, and
  loading reads the absent version as 0.0.0.
- The error text of `utility.cc:127` promises all letters; the set lacks W.
- `instance_manager.cc:37-44` reads a clock of the replica while a committed
  entry is applied.

## The hypotheses of the timestamp oracle

`TsoOrder.Good` asks three things of a run.

- An attempt of gen_tso that takes its range is for a positive count, its sum
  with the logical part does not overflow 64 bits, and its replica still leads.
  If it does not, as leadership and health are looked at before the first
  attempt only, the range must be in nobody's way: in order with every range
  issued, and clear of every leader that may still answer.
- The timer of the leader does not read a clock exactly one millisecond behind
  the current physical part while more than half of the logical part is used up.
- A leader start that trusts its clock, and whose proposal is accepted, reads
  one above every physical part already issued, above every leader that may
  still answer, and above what such a leader has proposed and not yet applied.
  A clock at 0 stands for 2, as its leader issues nothing before its timer has
  moved it; one below 0 is refused.

All three are exact: at every state of a good run, the ranges stay in order
whatever good events follow if and only if the step meets them. A replica that
leads with a count of at most 2^63 - 2^18, a timer clock at or above the current
physical part, and a start clock above all physical parts in the log, are enough.
Runs from the start that hand out timestamps twice or out of order are given for
each.

## Model

| member | source | states |
|---|---|---|
| `TsoOrder.TimestampsUnique` | ea/discovery/tso_state_machine.cc:69-121 | over every run of leader starts and stops, timer proposals, commits, lost proposals, late applies, restarts, snapshot loads, and gen_tso calls that are let in once and then retry up to 50 times whatever their replica has become, within the hypotheses on clocks, counts and late calls: no 64-bit timestamp is issued twice, and the ranges of one leadership lie wholly below those of a later one |
| `TsoOrder.TimestampsIncrease` | ea/discovery/tso_state_machine.cc:69-121 | if moreover every leader stops before the next one starts, and no call takes its range after its replica stopped leading, the ranges increase in the order they are issued |
| `TsoAgreement.ReplicasAgree` | ea/discovery/tso_state_machine.cc:262-290 | in every run whatsoever, replicas at one applied index agree on last_save_physical with each other and with a replica that never restarted, none is ahead of the latter, and current.physical + 2 <= last_save |
| `TsoAgreement.LoadedReplicaConverges` | ea/discovery/tso_state_machine.cc:422-460 | in every run, a replica that restarted from a snapshot or had one installed, keeping its current timestamp, has the window of a replica that never restarted and is never ahead of it, and from the first entry that the latter accepts has its physical part too, and is equal to it while it grants nothing |
| `TsoAgreement.RestoredConverges` | ea/discovery/tso_state_machine.cc:262-290 | replaying a good log from a snapshot onto any current timestamp within the window meets a full replay at the first entry the latter accepts |
| `TsoAgreement.LogicalFits` | ea/discovery/tso_state_machine.cc:90-98 | in every run the logical part stays below 2^18 |
| `TsoAgreement.StartProposalGood` | ea/discovery/tso_state_machine.cc:362-386 | a leader-start proposal leaves two milliseconds of room, never lowers last_save, and its past-the-window branch is never refused |
| `TsoAgreement.LeaderStartProposes` | ea/discovery/tso_state_machine.cc:364-372 | after every leader start, in numbers: the clock and the window as it is exactly if that leaves 50 ms of it, otherwise one past the window and a new one of 3000 ms from the clock; the proposed window ends at least 50 ms past the proposed physical part |
| `TsoAgreement.TimerProposalGood` | ea/discovery/tso_state_machine.cc:325-360 | a timer proposal leaves two milliseconds of room and never lowers last_save |
| `TsoAgreement.TimerProposes` | ea/discovery/tso_state_machine.cc:339-359 | the timer proposes nothing exactly while its clock is at most one ahead and at most 131072 of the logical part is used; otherwise the clock or one past it, with 3000 ms of window if less than two are left |
| `TsoAgreement.GoodUpdateAgrees` | ea/discovery/tso_state_machine.cc:262-290 | a proposal of either kind decides the same last_save on every replica, whatever current timestamp it lost |
| `TsoAgreement.StepAgrees` | ea/discovery/tso_state_machine.cc:177-218 | every step of the replicated system keeps the agreement invariant |
| `TsoOrder.StepOrders` | ea/discovery/tso_state_machine.cc:177-218 | every step within the hypotheses, attempts of calls that outlived their leadership included, keeps issued ranges, leaderships and the entries left to apply in order |
| `TsoExact.AboveLogIsEnough` | ea/discovery/tso_state_machine.cc:364-372 | a start clock above every physical part in the log meets the start hypothesis |
| `TsoExact.AtOrAboveIsEnough` | ea/discovery/tso_state_machine.cc:339-351 | a timer clock at or above the current physical part meets the timer hypothesis |
| `TsoExact.TimerClockExact` | ea/discovery/tso_state_machine.cc:325-360 | at every state of a good run: whatever good events follow a timer proposal, the ranges stay in order, if and only if its clock meets the hypothesis |
| `TsoExact.TimerHypothesisNeeded` | ea/discovery/tso_state_machine.cc:339-351 | where it does not, commit, apply and one call of gen_tso, good events all, put the ranges out of order |
| `TsoRuns.TimerGoesWrong` | ea/discovery/tso_state_machine.cc:339-351 | a good run from the start that gets there, and ends with the timestamp (1000, 0) issued twice |
| `TsoExact.StartClockExact` | ea/discovery/tso_state_machine.cc:362-386 | at every state of a good run and every clock reading: whatever good events follow a leader start, the ranges stay in order, if and only if its clock meets the hypothesis |
| `TsoExact.StartHypothesisNeeded` | ea/discovery/tso_state_machine.cc:362-386 | where it does not, at most eight good events put the ranges out of order |
| `TsoRuns.StartGoesWrong` | ea/discovery/tso_state_machine.cc:362-372 | a good run from the start that gets there: a replica restarted from a snapshot trusts a clock below a timestamp it issued |
| `TsoRuns.DeposedGoesWrong` | ea/discovery/tso_state_machine.cc:362-372 | another: the deposed leader applies its own entry late, no clock goes back, and (2000, 0) is issued twice |
| `TsoRuns.NegativeCountRepeats` | ea/discovery/tso_state_machine.cc:70-76 | gen_tso refuses only the count 0; with a negative count a range is issued twice |
| `TsoExact.AttemptExact` | ea/discovery/tso_state_machine.cc:77-109 | at every state of a good run and for every attempt of every call: whatever good events follow, the ranges stay in order and within their milliseconds, if and only if the attempt takes nothing, or takes a positive count without overflow while its replica leads or while neither an issued range nor a leader is in the way |
| `TsoExact.AttemptHypothesisNeeded` | ea/discovery/tso_state_machine.cc:77-109 | where it does not, good events, if any are needed, put the ranges out of order |
| `TsoRuns.LateCallGoesWrong` | ea/discovery/tso_state_machine.cc:85-109 | a good run from the start that gets there: a call let in by a leader still waits when the leader has stopped and applied what the next one proposed, and (4001, 0) to (4001, 9) are issued twice |
| `TsoRuns.LateCallMayBeGood` | ea/discovery/tso_state_machine.cc:85-109 | and a good run in which a call is answered after its leader stopped |
| `TsoRuns.OverflowBreaks` | ea/discovery/tso_state_machine.cc:90-93 | with a count whose 64-bit sum overflows the next range starts below 0 |
| `TsoExact.SmallCountIsEnough` | ea/discovery/tso_state_machine.cc:90-93 | in every run, an attempt for 1 to 2^63 - 2^18 timestamps on a leader meets the hypothesis |
| `TsoRuns.ResetRewinds` | ea/discovery/tso_state_machine.cc:220-260 | an unforced reset that repeats the current physical part is accepted and rewinds the logical part |
| `Tso.EncodeKeepsOrder` | ea/discovery/discovery_constants.h:53-69 | (physical << 18) + logical orders timestamps as pairs, both ways, and is injective |
| `Tso.SecondOfTimestamp` | ea/discovery/discovery_constants.h:67-69 | get_timestamp_internal recovers the wall-clock second for every second that fits 32 bits |
| `Tso.TSOStateMachine.constructor` | ea/discovery/tso_state_machine.cc:45-49 | the oracle starts at physical 0, logical 0, nothing saved |
| `Tso.TSOStateMachine.TryTake` | ea/discovery/tso_state_machine.cc:86-103 | one locked attempt takes the range exactly when physical != 0 and the logical part has room; a failed one changes nothing |
| `Tso.TSOStateMachine.GenTso` | ea/discovery/tso_state_machine.cc:69-121 | the answer is that of the first of at most 50 attempts that succeeds, whatever other threads do during the sleeps; a refused call changes nothing |
| `Tso.TSOStateMachine.UpdateTso` | ea/discovery/tso_state_machine.cc:262-290 | the entry is installed whole unless one of its two physicals is strictly smaller, and refused whole otherwise |
| `Tso.TSOStateMachine.ResetTso` | ea/discovery/tso_state_machine.cc:220-260 | the three outcomes of a reset: ignored, refused without a change, or installed and healthy again |
| `Tso.TSOStateMachine.UpdateTimestamp` | ea/discovery/tso_state_machine.cc:325-360 | what the timer proposes, on a leader only, in numbers |
| `Tso.TSOStateMachine.OnLeaderStart` | ea/discovery/tso_state_machine.cc:362-372 | what a new leader proposes from the saved window and its clock: the clock exactly if 50 ms of the window are left, otherwise past the window |
| `Tso.TSOStateMachine.LeaderStarted` | ea/discovery/tso_state_machine.cc:373-383 | the leader takes office in any case and is unhealthy if its proposal failed |
| `Tso.TSOStateMachine.OnSnapshotSave` | ea/discovery/tso_state_machine.cc:394-402 | reading the text of a snapshot gives the saved window back |
| `Tso.TSOStateMachine.LoadTso` | ea/discovery/tso_state_machine.cc:441-460 | success exactly if the text starts with a number that fits 64 bits; then that is the window, and the current timestamp is as it was |
| `Incremental.ClientsComplete` | ea/base/double_buffer.h:132-203 | after any interleaving of puts, generation swaps, moves of the applied index and polls as of any index up to it, newer entries in the log or not, a client that refreshes when told to holds exactly the changes of the whole history up to its index |
| `Incremental.PollDeliversMissed` | ea/base/double_buffer.h:152-203 | in any run, a poll answered false, for any two indexes, delivers, in index order and once each, exactly the entries of (last_updated, applied_index] |
| `Incremental.PollRefreshIff` | ea/base/double_buffer.h:157-176 | in any run and for any two indexes a poll asks for a refresh exactly when the client is behind every entry that is kept, or, with none kept, behind the applied index |
| `Incremental.KeptNeedsNoRefresh` | ea/base/double_buffer.h:163-198 | so a client that stopped at a kept entry is never told to refresh and gets exactly what came after |
| `Incremental.PollCatchesUp` | ea/base/double_buffer.h:152-203 | after a poll, refreshed or not, the client has seen every change up to its applied index |
| `Incremental.StoreFiles` | ea/base/double_buffer.h:137-141 | storing files the entry under its index and keeps every other one |
| `Incremental.LogsStayValid` | ea/base/double_buffer.h:132-148 | in every run the two generations together are sorted by index, as the polls rely on |
| `Incremental.TwoLoopsAreOneWindow` | ea/base/double_buffer.h:181-198 | the two iterator loops, the second starting where the first stopped, deliver one window of both generations |
| `Incremental.WindowExact` | ea/base/double_buffer.h:166-174 | a window is sorted and holds exactly the entries of the interval |
| `Incremental.WindowScanned` | ea/base/double_buffer.h:166-174 | upper_bound and the stop at the first index past applied_index pick exactly the window |
| `Incremental.DiscardsAreOld` | ea/base/double_buffer.h:132-148 | over every sequence of puts by a clock that never goes back, whatever any put discards is older than the gc time when it goes, and nothing else is lost |
| `Incremental.DiscardedIsOld` | ea/base/double_buffer.h:143-147 | the step of it |
| `Incremental.NothingOutlives` | ea/base/double_buffer.h:143-147 | if puts come at most gap apart, no entry survives longer than 2 * gc_time + 3 * gap |
| `Incremental.BoundReached` | ea/base/double_buffer.h:143-147 | a run of five puts comes up to that bound |
| `Incremental.PutKeepsSuffix` | ea/base/double_buffer.h:132-148 | the two generations are always a suffix of the history, and all of it while the foreground is empty |
| `Incremental.IncrementalUpdate.PutIncrementalInfo` | ea/base/double_buffer.h:132-148 | a put stores into the background, stamps the time of its first entry, and swaps the generations when that is older than the gc time |
| `Incremental.IncrementalUpdate.Deliver` | ea/base/double_buffer.h:181-189 | one iterator loop delivers the window of one generation and advances last_updated_index to its end |
| `Incremental.IncrementalUpdate.CheckAndUpdateIncremental` | ea/base/double_buffer.h:152-203 | true exactly when last is below every kept entry, or, with none kept, below the applied index; false delivers the window of both generations |
| `DoubleBuffer.ReadersSeeWholeBatches` | ea/base/double_buffer.h:78-116 | through any interleaving the foreground is the fold of whole batches in the order of modify, and both copies are the fold of every edit when nothing is queued or under way |
| `DoubleBuffer.EveryEditArrives` | ea/base/double_buffer.h:78-116 | from any point of any interleaving the worker can finish, and then both copies are the fold of every edit ever asked for |
| `DoubleBuffer.StepInv` | ea/base/double_buffer.h:99-116 | every single edit, swap and replay keeps the two copies in step |
| `DoubleBuffer.DoubleBuffer.Swap` | ea/base/double_buffer.h:86-88 | foreground and background change places |
| `DoubleBuffer.DoubleBuffer.EditBackground` | ea/base/double_buffer.h:106-109 | a batch folds into the background and does not show in the foreground |
| `DoubleBuffer.DoubleBuffer.RunFunction` | ea/base/double_buffer.h:99-116 | run_function folds a batch into both copies, each in order |
| `Names.CheckValidNameType` | ea/client/utility.cc:121-133 | accepted exactly if every character is in the set; otherwise the position of the first that is not |
| `Names.AcceptedCharacters` | ea/client/utility.cc:107-119 | the set is the one the error message promises except that W is missing |
| `Names.ValidNamesAreClean` | ea/client/utility.cc:107-133 | an accepted name never holds the separator of the compound keys |
| `Names.SplitUnique` | ea/discovery/zone_manager.h:245-247 | zone keys of clean names determine namespace and zone |
| `Names.ServletKeyUnique` | ea/discovery/servlet_manager.h:212-218 | servlet keys of clean names determine namespace, zone and servlet |
| `Names.UncleanNamesCollide` | ea/discovery/zone_manager.h:245-247 | the server does not check names, and with a separator in one the keys collide |
| `Names.ClassifyKey` | ea/discovery/schema_manager.cc:180-205 | load_snapshot recognises every schema key, from its bytes, as the key it was written as; the classes are prefix-disjoint |
| `Names.KeyBytesInjective` | ea/discovery/schema_manager.cc:180-205 | no two schema keys share their bytes |
| `Names.IdRoundTrip` | ea/discovery/zone_manager.h:231-236 | the eight bytes of a 64-bit id read back as the id |
| `Names.LowByteFirst` | ea/discovery/zone_manager.h:231-236 | the bytes of an id stand low byte first |
| `Names.VersionRoundTrip` | ea/client/utility.cc:62-80 | string_to_version undoes version_to_string for 64-bit components |
| `Names.ConfigKeyInjective` | ea/discovery/config_manager.cc:217-219 | with 64-bit versions, name and version run together are injective for names that end neither in - nor in a digit other than 0 with at most 17 zeros behind it |
| `Names.ConfusableCollides` | ea/discovery/config_manager.cc:217-219 | and every other name does share a key with a shorter one, both versions within 64 bits: the side condition is exact |
| `Decimal.ParseUndoesToString` | ea/client/utility.cc:66-78 | parsing the decimal text of an integer gives it back exactly if it fits 64 bits |
| `Decimal.StolFindsNumber` | ea/discovery/tso_state_machine.cc:446-446 | reading a number skips white space before it and ignores what follows its last digit |
| `Decimal.ToStringInjective` | ea/discovery/config_manager.cc:217-219 | decimal texts differ for different integers |
| `SchemaRuns.Integrity` | ea/discovery/zone_manager.h:168-193 | at every state that a log of the intended machine, or of the code within AsIntended, can reach: parents exist and list their children, and nothing else, ids are at least 1, at most the counter, and unique |
| `SchemaRuns.ParentsStay` | ea/discovery/zone_manager.cc:106-115 | no entry takes away a namespace with zones or a zone with servlets |
| `SchemaRuns.IdsNeverReused` | ea/discovery/namespace_manager.cc:35-62 | an id given out is above every id ever in use before, dropped ones included |
| `SchemaRuns.DropUndoesCreateNamespace` | ea/discovery/namespace_manager.cc:23-93 | dropping a namespace just created brings back memory and store but for the counter |
| `SchemaRuns.DropUndoesCreateZone` | ea/discovery/zone_manager.cc:24-130 | the same of a zone, which its namespace no longer lists |
| `SchemaRuns.DropUndoesCreateServlet` | ea/discovery/servlet_manager.cc:23-133 | the same of a servlet, as intended |
| `SchemaRuns.SnapshotCommutes` | ea/discovery/schema_manager.cc:166-216 | applying a prefix, dumping, loading and applying the rest gives the end state and every reply of applying the whole log |
| `SchemaRuns.StoreDeterminesMemory` | ea/discovery/schema_manager.cc:166-216 | the store determines names, infos, child sets and counters of all three managers |
| `SchemaRuns.RunInv` | ea/discovery/discovery_state_machine.cc:62-114 | the invariant between memory and store holds after every entry, failed writes included |
| `SchemaRuns.AsWrittenIsIntended` | ea/discovery/servlet_manager.cc:23-182 | the servlet operations as written do what is meant if and only if a condition on the state before the call holds |
| `SchemaRuns.AsWrittenLoses` | ea/discovery/servlet_manager.cc:23-182 | where it does not hold, create and modify lose the invariant and drop leaves everything in place |
| `SchemaRuns.CreateGoesWrong` | ea/discovery/servlet_manager.cc:86-88 | a log of the code as written from the start: the first servlet of the second zone is filed wrongly, and its zone can then be dropped |
| `SchemaRuns.ModifyAndDropGoWrong` | ea/discovery/servlet_manager.cc:93-179 | a log from the start: the second servlet of the first zone, created as meant, cannot be modified without losing the invariant, nor the first one dropped |
| `SchemaRuns.CreateAsWrittenDiverges` | ea/discovery/servlet_manager.cc:86-88 | after a create as written, a replica that applied it and one that loaded the same store answer a drop of the zone differently, and on the first the zone goes from under its servlet |
| `SchemaRuns.ZoneKeyIsNoServletKey` | ea/discovery/servlet_manager.cc:111-115 | the lookup of a zone key in the servlet map never finds anything |
| `SchemaRuns.DropAsIntended` | ea/discovery/servlet_manager.cc:93-133 | so drop_servlet as written refuses, and for any names it is right exactly when there is nothing to drop, or both keys lead to a servlet and the write fails or the ids coincide |
| `SchemaRuns.CreateAsIntended` | ea/discovery/servlet_manager.cc:86-88 | create_servlet as written is right exactly when it is refused or namespace and zone id coincide |
| `SchemaRuns.ModifyAsIntended` | ea/discovery/servlet_manager.cc:158-179 | modify_servlet as written is right exactly when it is refused, servlet and zone id coincide, or the write fails on a servlet with the id of the zone |
| `SchemaRuns.GoodIffInv` | ea/discovery/discovery_state_machine.cc:62-114 | for the intended machine a log keeps the invariant throughout if and only if no entry of it drops from under another parent |
| `SchemaRuns.CleanIsGood` | ea/discovery/discovery_state_machine.cc:62-114 | logs of names without the separator are such logs |
| `SchemaRuns.NoServletsIsGood` | ea/discovery/discovery_state_machine.cc:83-106 | and for the code as written they are within AsIntended while they touch only namespaces and zones |
| `SchemaRuns.SeparatorInNameBreaks` | ea/discovery/zone_manager.cc:94-130 | a log from the start with such a drop: through a confusable key, a namespace goes on listing a zone that is gone |
| `SchemaHistory.ReadsAreHistory` | ea/discovery/discovery_state_machine.cc:62-114 | over every good log, which names there are, their versions and each of their settings, in memory and in the store, are what the last successful create and the modifies since have made them, field by field |
| `SchemaHistory.StepReads` | ea/discovery/zone_manager.cc:49-181 | a create that succeeds reads with the next id, version 1 and its settings, those left open taken from its namespace but for the quota; a modify sets every setting present, keeps the others and raises the version by one; a drop takes the entry away; nothing else that is read changes |
| `SchemaHistory.StepAnswers` | ea/discovery/zone_manager.cc:24-130 | every answer of the nine operations, from which names are known, whether the entry to drop has children, and whether the write succeeds |
| `SchemaHistory.WrittenCreate` | ea/discovery/servlet_manager.cc:86-88 | create_servlet as written differs in one thing: it lists the servlet under the zone that has the id of the namespace |
| `SchemaHistory.WrittenModify` | ea/discovery/servlet_manager.cc:158-179 | modify_servlet as written changes the info under the id of the zone, or an empty one, and stores it under the id of the servlet |
| `SchemaRuns.DropCases` | ea/discovery/servlet_manager.cc:93-133 | what drop_servlet as written does in every case, by what the two keys find |
| `Schema.ApplyInv` | ea/discovery/discovery_state_machine.cc:62-114 | whatever the names, an entry keeps names, ids, infos, children, parents and store in step if and only if it drops nothing from under another parent |
| `Schema.CreateNamespaceInv` | ea/discovery/namespace_manager.cc:23-64 | create_namespace keeps the invariant |
| `Schema.DropNamespaceInv` | ea/discovery/namespace_manager.cc:66-93 | drop_namespace keeps the invariant |
| `Schema.ModifyNamespaceInv` | ea/discovery/namespace_manager.cc:95-141 | modify_namespace keeps the invariant, its failed write included |
| `Schema.CreateZoneInv` | ea/discovery/zone_manager.cc:24-92 | create_zone keeps the invariant, whatever the names |
| `Schema.DropZoneInv` | ea/discovery/zone_manager.cc:94-130 | drop_zone keeps the invariant if and only if it takes a zone of the namespace the request names, or none |
| `Schema.ModifyZoneInv` | ea/discovery/zone_manager.cc:132-181 | modify_zone keeps the invariant, its failed write included |
| `Schema.CreateServletInv` | ea/discovery/servlet_manager.cc:23-91 | the intended create_servlet keeps the invariant, whatever the names |
| `Schema.DropServletInv` | ea/discovery/servlet_manager.cc:93-133 | the intended drop_servlet keeps the invariant if and only if it takes a servlet of the zone the request names, or none |
| `Schema.ModifyServletInv` | ea/discovery/servlet_manager.cc:135-182 | the intended modify_servlet keeps the invariant, whatever the names |
| `Schema.ZoneFoundInPlace` | ea/discovery/zone_manager.cc:105-108 | the zone found under a clean request lies in the namespace that the request names |
| `Schema.ZeroMeansAbsent` | ea/discovery/zone_manager.h:195-201 | the answer 0 of an id lookup means that no entry has the name, and any other answer is the id of the entry that has it |
| `Schema.ServletFoundInPlace` | ea/discovery/servlet_manager.cc:158-160 | the servlet found under a clean request lies in the zone that the request names |
| `Schema.CleanInPlace` | ea/discovery/zone_manager.cc:97-108 | while all names are free of the separator, an entry free of it drops nothing from under another parent |
| `Schema.CleanStays` | ea/discovery/zone_manager.cc:24-92 | and the names stay so |
| `SchemaManagers.Manager.constructor` | ea/discovery/namespace_manager.h:218-220 | a manager starts empty with its counter at 0 |
| `SchemaManagers.Manager.SetInfo` | ea/discovery/zone_manager.h:168-173 | files an info under its key and its id |
| `SchemaManagers.Manager.EraseInfo` | ea/discovery/zone_manager.h:175-181 | removes name, info and child set of what the name leads to |
| `SchemaManagers.Manager.AddChild` | ea/discovery/zone_manager.h:183-186 | adds one child and changes no other set |
| `SchemaManagers.Manager.DeleteChild` | ea/discovery/zone_manager.h:188-193 | removes one child and changes no other set |
| `SchemaManagers.Manager.Clear` | ea/discovery/zone_manager.h:221-225 | everything goes but the counter |
| `SchemaManagers.DiscoveryStateMachine.Modified` | ea/discovery/zone_manager.cc:151-165 | each setting that is present replaces the old one, and no other |
| `SchemaManagers.DiscoveryStateMachine.Inherited` | ea/discovery/zone_manager.cc:49-63 | each setting left open, but the quota, comes from the namespace |
| `SchemaManagers.DiscoveryStateMachine.CreateNamespace` | ea/discovery/namespace_manager.cc:23-64 | new state, store and reply of every branch |
| `SchemaManagers.DiscoveryStateMachine.DropNamespace` | ea/discovery/namespace_manager.cc:66-93 | new state, store and reply of every branch |
| `SchemaManagers.DiscoveryStateMachine.ModifyNamespace` | ea/discovery/namespace_manager.cc:95-141 | new state, store and reply of every branch |
| `SchemaManagers.DiscoveryStateMachine.CreateZone` | ea/discovery/zone_manager.cc:24-92 | new state, store and reply of every branch, with the settings taken over from the namespace |
| `SchemaManagers.DiscoveryStateMachine.DropZone` | ea/discovery/zone_manager.cc:94-130 | new state, store and reply of every branch |
| `SchemaManagers.DiscoveryStateMachine.ModifyZone` | ea/discovery/zone_manager.cc:132-181 | new state, store and reply of every branch |
| `SchemaManagers.DiscoveryStateMachine.CreateServlet` | ea/discovery/servlet_manager.cc:23-91 | new state, store and reply of every branch, as written and as intended |
| `SchemaManagers.DiscoveryStateMachine.DropServlet` | ea/discovery/servlet_manager.cc:93-133 | new state, store and reply of every branch, as written and as intended |
| `SchemaManagers.DiscoveryStateMachine.ModifyServlet` | ea/discovery/servlet_manager.cc:135-182 | new state, store and reply of every branch, as written and as intended |
| `SchemaManagers.DiscoveryStateMachine.OnApply` | ea/discovery/discovery_state_machine.cc:36-145 | the loop over committed entries computes the run that the theorems are about |
| `SchemaManagers.DiscoveryStateMachine.LoadSnapshot` | ea/discovery/schema_manager.cc:166-216 | loading a store on any node, in any order of its entries, restores the memory that wrote it, but for a counter that the store does not have: that stays as it was on the node |
| `SchemaManagers.LoadedIsSource` | ea/discovery/zone_manager.h:221-225 | so all of the memory comes back if and only if the node has no such counter of its own |
| `SchemaManagers.LoadOneMore` | ea/discovery/schema_manager.cc:194-213 | each entry taken adds exactly its own part of the memory |
| `InstanceHistory.InstancesAreHistory` | ea/discovery/instance_manager.cc:22-140 | over any run, as written or intended, an instance reads, field by field, in memory and store, as the last successful add and the updates since have made it, and an address is refused for the hour after its last successful drop |
| `InstanceHistory.StepAnswers` | ea/discovery/instance_manager.cc:22-140 | every answer of add, drop and update |
| `InstanceHistory.StepFiles` | ea/discovery/instance_manager.cc:153-185 | what the three indexes list under any key after an add, an update and a drop, as written and as intended |
| `Instance.QueriesOverRuns` | ea/discovery/query_instance_manager.cc:41-111 | over every run no query lists a wrong instance; in intended runs, and in runs as written without drops, it lists exactly the instances that match |
| `Instance.QueryIsFilter` | ea/discovery/query_instance_manager.cc:41-111 | on sound and complete indexes each of the four query forms is the filter of the instances by names |
| `Instance.StepKeeps` | ea/discovery/instance_manager.cc:153-185 | add, update and drop, as written or intended, never leave a dangling or misfiled address; all but a drop as written keep every instance filed |
| `Instance.DropCompleteIff` | ea/discovery/instance_manager.cc:174-185 | a drop as written keeps every instance filed if and only if the dropped one shares no bucket |
| `Instance.DropNeedsLastOfNamespace` | ea/discovery/instance_manager.cc:178-182 | with valid names: if and only if it is the last of its namespace; otherwise every neighbour vanishes from the namespace index |
| `Instance.DropHidesNeighbour` | ea/discovery/instance_manager.cc:178-182 | a reachable state in which a live instance is reported not to exist |
| `Instance.StoreDeterminesMemory` | ea/discovery/instance_manager.cc:187-206 | the store determines the instances and all three indexes |
| `Instance.SnapshotCommutes` | ea/discovery/instance_manager.cc:187-206 | dump, load and replay give the instances, indexes, store and replies of full replay, tombstones aside |
| `Instance.TombstoneDiverges` | ea/discovery/instance_manager.cc:37-44 | within the hour one entry is refused by a replica that lived through the drop and taken by one that loaded a snapshot, and their stores part |
| `Instance.IdsAreNested` | ea/discovery/schema_manager.cc:218-251 | an instance is admitted exactly when its servlet exists, and the three ids filled in lie inside one another |
| `Instance.InstanceManager.SetInstanceInfo` | ea/discovery/instance_manager.cc:153-172 | files the instance in all three indexes and lifts its tombstone |
| `Instance.InstanceManager.RemoveInstanceInfo` | ea/discovery/instance_manager.cc:174-185 | removes the instance, leaves a tombstone, and erases buckets as written or one address as intended |
| `Instance.InstanceManager.AddInstance` | ea/discovery/instance_manager.cc:22-72 | new state, store and reply of every branch, the one-hour tombstone included |
| `Instance.InstanceManager.DropInstance` | ea/discovery/instance_manager.cc:74-94 | new state, store and reply of every branch |
| `Instance.InstanceManager.UpdateInstance` | ea/discovery/instance_manager.cc:96-140 | new state, store and reply of every branch |
| `Instance.InstanceManager.QueryInstanceFlatten` | ea/discovery/query_instance_manager.cc:41-111 | lists each instance of the bucket once, with its data, or reports that there is none |
| `Instance.InstanceManager.LoadSnapshot` | ea/discovery/instance_manager.cc:187-206 | loading in any order gives sound and complete indexes over exactly the stored instances |
| `ConfigHistory.LookupIsHistory` | ea/discovery/query_config_manager.cc:20-61 | over any run, looking up a version finds exactly the config created under it with success and not removed with success since |
| `ConfigHistory.LatestIsHistory` | ea/discovery/query_config_manager.cc:38-45 | and without a version the highest of those that are left |
| `ConfigHistory.StoreIsHistory` | ea/discovery/config_manager.cc:72-177 | nor does the store hold anything else, while names are plain |
| `ConfigHistory.StepReads` | ea/discovery/config_manager.cc:119-177 | a successful remove of a version leaves nothing under it, one of all versions nothing under the name, and every other version of every name reads as before; a create adds its one version |
| `ConfigHistory.StepNames` | ea/discovery/config_manager.cc:149-152 | a name goes with its last version |
| `ConfigHistory.StepStores` | ea/discovery/config_manager.cc:101-174 | for any names: a create writes its key, a remove takes its key or those of all versions away, and no other key changes |
| `ConfigHistory.CreateAnswers` | ea/discovery/config_manager.cc:84-108 | when a create is accepted and which refusal it gets: accepted exactly above every version there is |
| `ConfigHistory.RemoveAnswers` | ea/discovery/config_manager.cc:119-177 | when a remove succeeds: exactly for a known name and a write that succeeds |
| `Config.RebuildAfterRun` | ea/discovery/config_manager.cc:179-215 | after any run with plain names in which every create without a version is refused or fails, failed writes included, a reload answers every lookup as memory does |
| `Config.SnapshotCommutes` | ea/discovery/config_manager.cc:179-215 | when no create of an unknown name failed, dump, load and replay give the end state and every reply of full replay |
| `Config.NoEmptyIff` | ea/discovery/config_manager.cc:72-177 | a step leaves an empty name behind if and only if it is a create of an unknown name whose write fails |
| `Config.FailedCreateLingers` | ea/discovery/config_manager.cc:84-86 | a failed first create leaves an empty name behind that changes a later reply and that a reload forgets |
| `Config.AcceptedIsLatest` | ea/discovery/config_manager.cc:89-100 | an accepted create is strictly above every version of the name and becomes what a lookup without a version finds |
| `Config.LatestIsLastCreated` | ea/discovery/query_config_manager.cc:38-45 | while nothing of a name is removed, a lookup without a version finds the last accepted create |
| `Config.LessIsNumeric` | ea/discovery/config_manager.cc:95-100 | the order of versions is that of numbers with three digits |
| `Config.StepKeeps` | ea/discovery/config_manager.cc:72-177 | every branch of create, remove and remove-all keeps memory and store equal |
| `Config.DefaultVersionParts` | ea/discovery/config_manager.cc:75-80 | a create without a version keeps memory and store equal if and only if it writes nothing: memory files it under 0.0.1, a reload under 0.0.0 |
| `Config.ConfusableOverwrites` | ea/discovery/config_manager.cc:101-113 | for every confusable name two accepted creates, versions within 64 bits, leave one stored config where memory shows two |
| `Config.MissingRemoveSucceeds` | ea/discovery/config_manager.cc:136-152 | removing a version that is not there reports success and changes nothing that can be looked up or reloaded |
| `Config.ConfigManager.CreateConfig` | ea/discovery/config_manager.cc:72-116 | new state, store and reply of every branch |
| `Config.ConfigManager.RemoveConfig` | ea/discovery/config_manager.cc:119-153 | new state, store and reply of every branch, the missing return included |
| `Config.ConfigManager.RemoveConfigAll` | ea/discovery/config_manager.cc:155-177 | all versions of a name go in one batch, or none |
| `Config.ConfigManager.LookUp` | ea/discovery/query_config_manager.cc:20-61 | the exact version, or the last one if none is given |
| `Config.ConfigManager.LoadSnapshot` | ea/discovery/config_manager.cc:179-215 | any store, read in any order, leaves in memory its configs by name and version and nothing else, one of those that share both; a store the invariant held for gives the memory that wrote it |
| `AutoIncrHistory.CountersAreHistory` | ea/discovery/auto_incr_state_machine.cc:85-193 | over any run a counter stands where the last successful answer for its servlet says |
| `AutoIncrHistory.StepAnswers` | ea/discovery/auto_incr_state_machine.cc:85-193 | every answer from the counter alone: a range starts at the counter or right after the hint, whichever is further on; an update moves to right after the start given, unless behind and not forced, or on by the increment |
| `AutoIncr.RangesIncrease` | ea/discovery/auto_incr_state_machine.cc:125-148 | over any run without forced rollback, drop or overflow of a servlet its ranges are disjoint and increase, whatever hints and unforced updates come in between |
| `AutoIncr.RangeHoldsCount` | ea/discovery/auto_incr_state_machine.cc:134-143 | a range holds count ids beyond the hint exactly when the sum fits 64 bits; otherwise it ends before it starts |
| `AutoIncr.UpdateBack` | ea/discovery/auto_incr_state_machine.cc:171-184 | an update moves the counter back exactly by a forced rollback or an overflow |
| `AutoIncr.ForceRepeats` | ea/discovery/auto_incr_state_machine.cc:173-181 | a forced rollback repeats a range |
| `AutoIncr.DropRepeats` | ea/discovery/auto_incr_state_machine.cc:106-115 | so does a drop followed by an add at the old start |
| `AutoIncr.OverflowRestarts` | ea/discovery/auto_incr_state_machine.cc:182-184 | and an overflow brings the counter to 0 |
| `AutoIncr.SaveLoad` | ea/discovery/auto_incr_state_machine.cc:224-290 | the JSON text written of any counter map, in any order, character by character, parses back to exactly that map; white space between tokens is allowed |
| `AutoIncr.NumberAfterSpaces` | ea/discovery/auto_incr_state_machine.cc:270-288 | white space around the colon and before the number is skipped |
| `AutoIncr.BadNumbers` | ea/discovery/auto_incr_state_machine.cc:270-288 | a number with a zero in front or of 2^64 or more is refused |
| `AutoIncr.SpacesAroundTokens` | ea/discovery/auto_incr_state_machine.cc:270-288 | white space around names and braces is skipped |
| `AutoIncr.SnapshotCommutes` | ea/discovery/auto_incr_state_machine.cc:195-268 | replay from a snapshot gives the counters and replies of full replay |
| `AutoIncr.AutoIncrStateMachine.AddServletId` | ea/discovery/auto_incr_state_machine.cc:85-104 | new counters and reply of every branch |
| `AutoIncr.AutoIncrStateMachine.DropServletId` | ea/discovery/auto_incr_state_machine.cc:106-123 | new counters and reply of every branch |
| `AutoIncr.AutoIncrStateMachine.GenId` | ea/discovery/auto_incr_state_machine.cc:125-148 | new counters and reply of every branch, with 64-bit wrap-around |
| `AutoIncr.AutoIncrStateMachine.Update` | ea/discovery/auto_incr_state_machine.cc:150-193 | new counters and reply of every branch, with 64-bit wrap-around |
| `AutoIncr.AutoIncrStateMachine.OnApply` | ea/discovery/auto_incr_state_machine.cc:31-83 | the loop computes the run that the theorems are about |
| `AutoIncr.AutoIncrStateMachine.SaveAutoIncrement` | ea/discovery/auto_incr_state_machine.cc:224-243 | the text lists every counter once, in some order, and loading it gives the counters back |
| `AutoIncr.AutoIncrStateMachine.LoadAutoIncrement` | ea/discovery/auto_incr_state_machine.cc:262-290 | the old counters go; a text that does not parse leaves none, and otherwise the map holds the members before the first name that is no number, all of them exactly if the load succeeds |
| `RaftControl.SetPeer` | ea/discovery/raft_control.cc:184-351 | which answer or change each request leads to: a peer is added or removed exactly when the request names the live members, differs from them by one and, for a removal, the followers allow it |
| `RaftControl.DiffPeers` | ea/discovery/raft_control.cc:400-432 | finds the one member by which two vectors differ, and only then one |
| `RaftControl.CheckFollowers` | ea/discovery/raft_control.cc:304-321 | the loop decides that a faulty member may go, and a healthy one only while no other is faulty |
| `RaftControl.AdditionIsSafe` | ea/discovery/raft_control.cc:256-289 | an addition let through lists the live members once each, adds exactly one, and majorities before and after share a member, duplicates in the request notwithstanding |
| `RaftControl.RemovalIsSafe` | ea/discovery/raft_control.cc:256-327 | the same of a removal |
| `RaftControl.OneMoreIsOneMember` | ea/discovery/raft_control.cc:404-416 | comparing vectors as sets hides no duplicate |
| `RaftControl.SameLengthCover` | ea/discovery/raft_control.cc:256-281 | equal length and coverage of the live members make the request list a permutation of them |
| `RaftControl.TwoAtOnceIsNot` | ea/discovery/raft_control.cc:343-350 | a change of two members, which the length checks shut out, can leave majorities without a common member |
| `PrivilegeHistory.RightsAreHistory` | ea/discovery/privilege_manager.cc:74-237 | over any run, what a user may do in a zone or a servlet is what its creation and the successful adds and drops since have left, for lists with repeated ids as well |
| `PrivilegeHistory.StepReads` | ea/discovery/privilege_manager.cc:74-237 | what a successful request leaves of the user it names, and that all others stay: rights by id, addresses as union and difference, need_auth_addr and resource_tag after an add and after a drop, version, and the ids filled in by a create |
| `PrivilegeHistory.DropTakesAway` | ea/discovery/privilege_manager.cc:185-237 | after a successful drop a zone or servlet named without a right, or with one no lower than any the user has for it, is gone, and one not named is as it was |
| `PrivilegeHistory.StepAnswers` | ea/discovery/privilege_manager.cc:74-237 | every answer: refused for the user first, then for a name that stands for nothing, then by the store |
| `PrivilegeHistory.DeleteAllValues` | ea/discovery/privilege_manager.cc:329-367 | a request that drops rights lowers, id by id and entry by entry, what is above the right named and takes the rest away |
| `Privilege.InsertPrivilege` | ea/discovery/privilege_manager.cc:265-313 | the loop edits the first entry of the id or appends one |
| `Privilege.DeletePrivilege` | ea/discovery/privilege_manager.cc:329-367 | the refilled list keeps all other entries in order |
| `Privilege.InsertRights` | ea/discovery/privilege_manager.cc:265-313 | read as a map, an insert changes one right: to the one asked for if absent or forced, else to the larger |
| `Privilege.InsertUnique` | ea/discovery/privilege_manager.cc:265-313 | unique ids stay unique |
| `Privilege.DeleteRights` | ea/discovery/privilege_manager.cc:329-367 | with unique ids a delete lowers the one right or takes it away, and touches no other |
| `Privilege.DeleteAnyRights` | ea/discovery/privilege_manager.cc:329-367 | in any list, an id listed twice or not, the right asked for stays if some entry of the id is above it, nothing of the id otherwise, and no other id is touched |
| `Privilege.DeleteRaisesIff` | ea/discovery/privilege_manager.cc:329-347 | a delete raises a right if and only if the first entry of the id is below what it asks for and a later one above |
| `Privilege.UniqueNeverRaises` | ea/discovery/privilege_manager.cc:329-347 | with unique ids that never happens |
| `Privilege.DeleteCanRaise` | ea/discovery/privilege_manager.cc:74-109 | a log from the start that gets there: create_user takes a zone listed twice, and dropping a right leaves a higher one |
| `Privilege.OrderDoesNotMatter` | ea/discovery/privilege_manager.cc:149-154 | two unforced requests with the same entries, in any order and number, give the same rights |
| `Privilege.InsertTwice` | ea/discovery/privilege_manager.cc:149-154 | adding the same rights again adds nothing |
| `Privilege.InsertAllIsMax` | ea/discovery/privilege_manager.cc:149-154 | unforced adds leave, id by id, the largest right ever asked for |
| `Privilege.IpsAreSets` | ea/discovery/privilege_manager.cc:316-378 | the address lists are union and difference |
| `Privilege.RightsAfter` | ea/discovery/privilege_manager.cc:134-237 | a successful add that forces nothing leaves, id by id, the larger of the right there was and the rights asked for; with unique ids a drop, whatever it takes away, raises none |
| `Privilege.StoreIsMemory` | ea/discovery/privilege_manager.cc:240-263 | after any run whatsoever the store is the memory, and every list has unique ids if every user was created with such lists |
| `Privilege.VersionCounts` | ea/discovery/privilege_manager.cc:164-181 | in any state that runs reach, while a user is not dropped its version grows by one per successful change and not otherwise |
| `Privilege.PrivilegeManager.CheckAndGet` | ea/discovery/schema_manager.cc:121-164 | admitted exactly when every name is known, with all ids filled in |
| `Privilege.PrivilegeManager.Create` | ea/discovery/privilege_manager.cc:74-109 | new state, store and reply of every branch |
| `Privilege.PrivilegeManager.Drop` | ea/discovery/privilege_manager.cc:111-132 | new state, store and reply of every branch |
| `Privilege.PrivilegeManager.Add` | ea/discovery/privilege_manager.cc:134-183 | new state, store and reply of every branch |
| `Privilege.PrivilegeManager.DropRights` | ea/discovery/privilege_manager.cc:185-237 | new state, store and reply of every branch |
| `Privilege.PrivilegeManager.LoadSnapshot` | ea/discovery/privilege_manager.cc:240-263 | loading makes the memory equal to the store |
| `MachineHistory.ManagersRunAlone` | ea/discovery/discovery_state_machine.cc:36-145 | over any run every manager ends and answers as if it alone had run its own entries, instances and users with the names looked up in the schema as it stood |
| `Machine.SnapshotCommutes` | ea/discovery/discovery_state_machine.cc:213-287 | for the four managers together, names looked up in the schema as it stands: dump, load on a fresh node and replay leave every manager, and every reply, as full replay does, users with repeated ids and every failed write included but the create of an unknown config |
| `Machine.StoreDeterminesMemory` | ea/discovery/discovery_state_machine.cc:262-282 | the stored entries determine the memory of all managers, tombstones aside |
| `Machine.StepKeeps` | ea/discovery/discovery_state_machine.cc:62-139 | every entry of any manager keeps the invariants of all |
| `Machine.DiscoveryServer.OnApply` | ea/discovery/discovery_state_machine.cc:36-145 | the dispatch loop over the four managers computes the run that the theorem is about |
| `Machine.DiscoveryServer.OnSnapshotLoad` | ea/discovery/discovery_state_machine.cc:262-282 | loading users, schema, configs and instances in the order of the code restores, on any node, the memory that wrote the store, but for id counters the store does not have |
| `Bthread.CountIsUnfinished` | ea/base/bthread.h:198-230 | in every interleaving, the count is the number of tasks let in and not finished (failed starts included), it exceeds the limit only by failed waits, and join comes back only when none is unfinished |
| `Bthread.NeverAboveLimit` | ea/base/bthread.h:209-216 | while no wait and no thread start fails, at most limit tasks are unfinished |
| `Bthread.NoLostWakeup` | ea/base/bthread.h:61-108 | if no join is called while a run call is inside increase_wait and no run while a join waits, as in run, ..., run, join, a run call waits only while all slots are in use or on their way to a waiter |
| `Bthread.StepSlots` | ea/base/bthread.h:61-79 | a step loses a slot for the waiting run calls if and only if it is a signal that wakes a join while too few run calls are on their way |
| `Bthread.NoLostJoin` | ea/base/bthread.h:202-207 | with one join at a time besides, a join waits only while some task has still to signal |
| `Bthread.SecondJoinIsForgotten` | ea/base/bthread.h:67-72 | with two joins at a time, the second waits on with nothing left to signal it |
| `Bthread.JoinTakesTheSignal` | ea/base/bthread.h:67-72 | with a join called beside a waiting run call, the one signal can go to the join, and the run call waits on with a free slot |
| `Bthread.CrowdedIsReachable` | ea/base/bthread.h:209-220 | the state that this starts from is reachable |
| `Bthread.NothingMoves` | ea/base/bthread.h:81-108 | and without a new call, a failed wait or a spurious wake-up nothing changes from there |
| `Bthread.BthreadCond.Wait` | ea/base/bthread.h:81-93 | a wait that did not fail comes back only with the count at or below the bound |
| `Bthread.BthreadCond.IncreaseWait` | ea/base/bthread.h:95-108 | likewise, with the count raised by one and still within the bound |
| `MemTracker.RootIsSum` | ea/base/memory_profile.cc:80-125 | in every interleaving the root equals the sum of the live trackers but for updates under way and for what destroyed trackers released too much; exactly equal if none did |
| `MemTracker.BytesAreTaken` | ea/base/memory_profile.h:76-96 | over any run a tracker holds what was consumed on it less what was released, positive amounts only |
| `MemTracker.HoldersAreHeld` | ea/base/memory_profile.cc:88-125 | and is held as often as it was handed out and not dropped |
| `MemTracker.TrackersLiveAsHeld` | ea/base/memory_profile.cc:88-125 | it lives exactly as long as someone holds it or the pool has it, and a query gets the tracker of the pool or a new one |
| `MemTracker.UpdatesArrive` | ea/base/memory_profile.h:76-96 | updates under way can all arrive, and then the root is the sum |
| `MemTracker.StepKeeps` | ea/base/memory_profile.h:76-96 | consuming, releasing, pool lookups, collection and destruction each keep that balance |
| `MemTracker.TwoTrackersOneLog` | ea/base/memory_profile.cc:119-125 | two live trackers of one log id are reachable, and both are counted |
| `MemTracker.MemTracker.Consume` | ea/base/memory_profile.h:76-85 | tracker and parent grow by the same positive amount |
| `MemTracker.MemTracker.Release` | ea/base/memory_profile.h:87-96 | tracker and parent shrink by the same positive amount |
| `MemTracker.MemTracker.Destroy` | ea/base/memory_profile.cc:80-86 | what is still counted, if positive, leaves the parent |

## Left out

- Elections, log replication, closures and timers of braft: committed entries and leader callbacks are given steps. At most one proposal is outstanding, computed against the applied state; a leader's start finishes before its stop; what a leader has proposed is committed or lost before the next one starts, though it may be applied later.
- TsoSystem.Enabled: the two tests at the head of a gen_tso call, for leadership and health, are one step; each of its attempts is a step of its own.
- Protobuf messages, whose definitions are not part of this model, and their serialization: a stored value is the message itself, and the branches for a failed parse or serialization are not there.
- Integers are unbounded except for the sum in gen_tso, versions in keys, counters and ranges of AutoIncr, numbers read from text and the byte keys of Names: the 64-bit overflow of ids and clocks is not modelled.
- Decimal.ParseUndoesToString: the parser takes a sign and digits only; the white space that SimpleAtoi skips is refused.
- AutoIncr.SaveLoad: the parser reads objects of integers with white space between the tokens; escapes in names and members of other types are refused.
- Which of several JSON members of one name counts, and the order in which a hash map is walked, follow the text and an arbitrary order respectively.
- Schema.Table: an empty child set and an absent one are the same, as nothing in the code tells them apart.
- Instance.InstanceManager.QueryInstanceFlatten: is stated on sound indexes, which every run keeps, so that operator[] on the instance map never inserts.
- Instance.SnapshotCommutes: leaves the tombstones out and asks that no add meets one; Instance.TombstoneDiverges shows why.
- Config.SnapshotCommutes: leaves out a create of an unknown name whose write fails; Config.NoEmptyIff and Config.FailedCreateLingers show why. Configs without a version and confusable names are outside the rebuild theorem for the reasons given by Config.DefaultVersionParts and Config.ConfusableOverwrites.
- Privilege: the number of the first value of the rights enumeration, which an absent right reads as, is not part of this model; it is taken as 0 and no proof depends on it.
- DoubleBuffer: the edits are pure functions and the execution queue hands each batch to one consumer; the pause after a swap is a step at which readers may look.
- IncrementalUpdate::clear, which empties both generations without taking the mutex.
- Incremental: the mutex makes every put and poll one step; time is read once per put.
- Bthread: timed waits differ from waits only in when they fail; decrease_broadcast is not used by ConcurrencyBthread and wakes are modelled for decrease_signal only.
- MemTracker: which trackers the collector finds idle depends on clocks, so it may take any tracker of the pool; byte limits, which nothing here acts on, are not modelled.
- RaftControl: a forced set_peer replaces the configuration by design and is outside the safety lemmas; transfer of leadership and vote requests are left out.
- Resets of the oracle are modelled on one replica and are no events of the runs; TsoRuns.ResetRewinds and the forced rollbacks of AutoIncr.ForceRepeats show how such escapes break the order.
- Process-wide singletons are objects of their own here, and mutexes are not modelled beyond what is atomic under them.
- Listings of namespaces, zones, servlets, users and config versions, which copy maps into responses, and all of the command line, client, storage and flag code.
