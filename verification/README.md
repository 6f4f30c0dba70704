# Verification of libmapper's protocols and bookkeeping

libmapper connects signals of devices on a network. This project models the parts of it that carry hard
state, and proves what they keep over whole runs. Imperative code is modelled as classes and methods over
the same fields (arrays, lists of linked items, counters); each method is proved against a function of its
old state, and the lemmas are about those functions. `dafny verify dfyconfig.toml` checks everything.

| files | subject |
|---|---|
| `NameAllocation`, `LocalDevice`, `NameProtocol`, `NameBound`, `NameOrdinals`, `NameProgress` | devices probing for `name.ordinal` on a bus with a delay bound |
| `MapEndpoint`, `MapHandshake`, `MapCompletion`, `MapUntouched`, `MapModify`, `FanOut` | the /map, /mapTo, /mapped negotiation with its version numbers, and the grouping of its messages by link |
| `MapScopes` | the origins a map allows and blocks |
| `BundleQueue` | the outgoing bundle and its destination |
| `Bits`, `Bitflags`, `ValueBuffer`, `ValueHistory`, `ValueRuns` | packed flags, the per-instance history built on them, and whole runs of it |
| `IdPool`, `IdCounts`, `IdMapTable`, `Instances` | reference-counted id maps, and the sorted instance array |
| `ItemLists`, `Queries`, `GraphRemoval` | intrusive lists, lazy queries, cascading removal |

Time is `real`; a clock reading, a random ordinal offset and a fresh record are parameters. A device is one
object on one network object; names are pairs of prefix and ordinal.

## What the proofs found

- Two devices never lock one name **if and only if** twice the message delay is below one second
  (`NameBound.AgreementIffRoundTripUnderOneSecond`). Random ids may coincide.
- No device waits for ever on a contested name (`NameProgress.ContestedDeviceMoves`, `NameProgress.NeverStuck`). A later
  hint for an ordinal overwrites the note that it is taken, and only that makes a device suggest it again
  (`NameProgress.MarkNext`, `NameProgress.TakenIsNotSuggested`, `NameProgress.RehintedIsSuggested`).
- The handshake always goes quiet. When no user creates, changes or pushes the map at one of its ends, quiet means
  done, whatever versions requests carry and however messages are reordered (`MapUntouched.UntouchedMapsComplete`).
  A change at one end while the other answers for the earlier version makes it discard the answer, and both can be
  left waiting (`MapCompletion.EditStalls`); exactly when is `MapCompletion.CompleteIffChecked`.
- Growing the packed flags loses the last byte when the old count is a multiple of 8
  (`BitflagArray.GrowthKeepsFlagsIff`); shrinking restores the padding only when it happened to be set
  (`BitflagArray.ShrunkMeaning`).
- The reported number of samples is one too high if and only if a history that had wrapped was lengthened and the
  samples kept then and set since do not yet fill it (`ValueRuns.NumSampsRightIff`).
- Blocking a device has no effect exactly when both lists hold "all" (`MapScopes.BlockVerdict`), and assigning
  a list of origins takes effect exactly when the list was not "all" (`MapScopes.ReplaceMeaning`).
- `mpr_net_use_local` compares the pending bundle with the bus, so it can take that bundle with it. All messages go
  where they were asked to go if and only if that never happens (`BundleQueue.HandledIffNeverMisroutes`); none is
  lost while a destination is selected (`BundleQueue.LostIffClosed`). The test of the bundle limit leaves out the new
  message's own overhead, and bundles stay below the limit if and only if that never makes the difference
  (`BundleQueue.LimitKeptIffNeverOverfills`).
- An indirect id map can come to forward to another indirect one, from a pool that is reached by ordinary
  operations (`IdPool.IndirectionsCanChain`, `IdPool.ForwardingReached`); the exact condition that prevents it is in
  `IdPool.AddKeepsNoChainsIff`.
- `mpr_sig_remove_inst` drops the buffer at the instance's position in the array, which is the instance's own
  exactly when position and buffer index agree (`Instances.ValuesFollowIff`).
- A query for both locations of a map reports the destination again for every source behind it
  (`Queries.DestinationReports`). Inside an intersection a query for the sources does not restart, so it finds them
  all if and only if the list holds them in slot order (`Queries.IntersectedIsOnePass`,
  `Queries.OnePassFindsAllIff`); and as it is handed out after its first hit, its first source is never reported
  there (`Queries.FirstSourceIsLost`).
- Removing a device leaves its maps that are flagged as removed, unless one of its links takes them along
  (`GraphRemoval.LingersIff`).

## Model

| member | source | states |
|---|---|---|
| NameAllocation.FirstFree | src/device.c:903-915 | The suggested slot is the first one that is not reserved for good and was not suggested in the last two seconds, or none of the 8 |
| LocalDevice.LocalDev.Probe | src/device.c:798-818 | Probing clears the hints, counts and quiet period, and asks for the device's current name |
| LocalDevice.LocalDev.HandleName | src/device.c:830-880 | A locked device notes ordinals of its block; an unlocked one counts a collision or follows a hint meant for it, and otherwise nothing changes |
| LocalDevice.LocalDev.HandleNameProbe | src/device.c:894-928 | A locked device or one with the larger random id answers with a suggestion; any other counts a collision, its own echo included |
| LocalDevice.LocalDev.CheckCollisions | src/device.c:1318-1355 | Locking after a quiet second, moving on after repeated collisions, asking again when unheard |
| LocalDevice.LocalDev.CheckRegistration | src/device.c:1357-1383 | One poll: what it changes and which announcement or probe it makes |
| LocalDevice.LocalDev.HandleLogout | src/device.c:1397-1402 | A departed ordinal of the device's block is free again; only a locked device cares |
| NameProtocol.InvNext | src/device.c:830-928 | Every start, delivery, poll, departure and passing of time keeps the invariant: of two devices on one name, a probe, a hint or a late lock always stands between them |
| NameProtocol.LockedNotCovered | src/device.c:1318-1355 | No device can still be held back by one that is locked on its name |
| NameProtocol.AgreementHolds | src/device.c:894-928 | No two devices are ever locked on one name, in any run with round trips below a second, whatever their random ids |
| NameBound.FirstLocks | src/device.c:1318-1355 | With a slower bus, a device locks while its own probe is under way |
| NameBound.SecondLocksToo | src/device.c:1318-1355 | and a second one then locks on the same name |
| NameBound.AgreementIffRoundTripUnderOneSecond | src/device.c:1318-1355 | All runs agree if and only if twice the delay is below one second |
| NameOrdinals.OrdinalsOnlyGrow | src/device.c:875-877 | Between any two moments of any run a device's ordinal does not fall, and a locked name stays |
| NameOrdinals.HintsDiffer | src/device.c:903-915 | Two suggestions of one responder within two seconds differ unless its block of 8 is used up, provided it neither starts over nor hears a logout in between |
| NameProgress.ContestedPoll | src/device.c:1338-1352 | A device heard with two collisions moves on a quarter of a second after the last: its ordinal grows past those of its block it has heard of, its counts are cleared and it asks for the new name |
| NameProgress.QuietPoll | src/device.c:1334-1337 | After a quiet second it is locked on its name and announces it |
| NameProgress.UnheardPoll | src/device.c:1325-1332 | A device that has not heard itself asks again for the same name after five seconds |
| NameProgress.IdlePoll | src/device.c:1318-1383 | A poll does nothing exactly when the device is registered or the time that applies to it is not over |
| NameProgress.ProbeHeard | src/device.c:894-928 | Who answers a probe, with the first open ordinal of its block, and who counts it as a collision |
| NameProgress.AnswerHeard | src/device.c:863-878 | When an unlocked device follows a hint, counts a collision, or ignores the answer |
| NameProgress.NameNoted | src/device.c:843-861 | Which slots a locked device marks as taken or as suggested |
| NameProgress.LogoutNoted | src/device.c:1385-1403 | Exactly the slot of the departed ordinal is free again, and only for a locked device |
| NameProgress.ContestedDeviceMoves | src/device.c:1357-1365 | In every run, a device with two counted collisions that is polled after a quarter of a second asks everybody for a larger ordinal |
| NameProgress.RivalProbeDisplaces | src/device.c:918-928 | In every run, its own probe and that of a rival it does not answer are enough to make a device ask everybody for a larger ordinal |
| NameProgress.NeverStuck | src/device.c:1357-1383 | In every run, a named device five seconds after its last count either locks its name and announces it to all or asks all for a name |
| NameProgress.TakenIsNotSuggested | src/device.c:903-915 | An ordinal that a locked device has heard registered is not suggested again unless it hears a logout, or that someone was told to try that ordinal |
| NameProgress.MarkNext | src/device.c:843-861 | Without a logout a mark for a taken ordinal stays exactly unless such a hint is heard, and becomes the present time then |
| NameProgress.RehintedIsSuggested | src/device.c:850-861 | Two seconds after such a hint the taken ordinal is the one suggested, when all smaller ones of the block are taken |
| NameProgress.DepartedIsFree | src/device.c:1397-1402 | After a logout that ordinal or a smaller one is suggested next |
| MapEndpoint.LocalMap.CheckStatus | src/map.c:1877-1939 | A map becomes ready exactly when the metadata of all its slots is known |
| MapEndpoint.LocalMap.SetFrom | src/map.c:2098-2113 | A message older than the record changes nothing, not even the status; any other passes on its version |
| MapEndpoint.LocalMap.OnMap | src/network.c:1844-1891 | What /map changes and sends, for an active and an inactive map |
| MapEndpoint.LocalMap.OnMapTo | src/network.c:1949-1999 | What /mapTo changes, and that a ready map answers with /mapped |
| MapEndpoint.LocalMap.OnMapped | src/network.c:2003-2146 | What /mapped changes, and that it activates a ready map and is answered once |
| MapEndpoint.LocalMap.OnMapMod | src/network.c:2149-2239 | Only an active map processed here accepts a modification, and announces what it changed |
| MapEndpoint.LocalMap.Push | src/object.c:355-370 | A push raises the version and sends a modification of an active map, else checks the status and requests the map |
| MapHandshake.HandleKeeps | src/network.c:1844-2146 | Any handler keeps known metadata, READY and ACTIVE, activates only on /mapped and sends /mapped only when ready |
| MapHandshake.ActiveOnlyAfterReadyPeer | src/network.c:2068-2089 | In every run, an active end has received a /mapped which its peer sent when ready, with all slots known |
| MapHandshake.DeliveryLowersMeasure | src/network.c:1949-1998 | Every delivery lowers a measure of the messages in flight and the ends not yet active |
| MapHandshake.DeliveriesAreBounded | src/network.c:2071-2090 | No sequence of deliveries is longer than that measure |
| MapCompletion.HandleReady | src/map.c:2106-2113 | A delivery makes a record ready exactly when message and record know all slots and the message is not discarded as outdated |
| MapCompletion.CompleteIffChecked | src/network.c:2068-2090 | When nothing is in flight, both ends have a record and a link and one has spoken, both are active if and only if each has looked at its record with everything known and no discarded message in hand; otherwise a message that would have told it all was discarded |
| MapCompletion.QuietMeansComplete | src/network.c:2068-2090 | Without such a discarded message, quiet means that both ends are active |
| MapCompletion.EditStalls | src/map.c:2106-2113 | A run from the start in which a change at the destination makes it discard the source's answer, after which all is quiet and neither end is active |
| MapUntouched.UntouchedMapsComplete | src/network.c:1949-2090 | In every run in which no user creates, changes or pushes the map at an end, quiet means that both ends are active, whatever the versions and order of messages |
| MapModify.ModificationTaken | src/network.c:2175-2204 | The end in charge takes over a modification that is not outdated, with its version, and tells the peer exactly when something changed |
| MapModify.ModificationIgnored | src/network.c:2167-2181 | Any other modification changes and sends nothing |
| MapModify.RequestForActive | src/network.c:1918-1938 | A request for an active map is a modification at a destination in charge, goes on to the source at another one, and is ignored at the source |
| MapModify.RequestForInactive | src/network.c:1844-1891 | A request for an inactive map is held with its version, and the source asked once there is a link |
| MapModify.Asked | src/network.c:1949-1999 | An end that is asked takes over the version unless active, and answers exactly when ready |
| MapModify.Confirmed | src/network.c:2003-2146 | A confirmation activates a ready record and is answered exactly then |
| MapModify.Pushes | src/object.c:355-370 | A push raises the version by one and sends it to both ends of an active map, or as a request |
| MapModify.MetadataArrives | src/network.c:1470-1493 | The peer's metadata makes the signal of every remote slot known and changes nothing else |
| MapModify.StatusChecked | src/map.c:1877-1939 | A check of the status changes READY only, and sets it exactly when device, signal and link of every slot are known |
| MapModify.ReadyKnowsAll | src/map.c:1877-1939 | In every run a READY record knows these of every slot |
| MapModify.ModificationArrives | src/network.c:2149-2204 | In every run, a modification accepted at the end in charge leaves both ends with its version or a newer one when all is quiet, provided the peer applies the confirmations it gets |
| FanOut.SendState | src/map.c:2317-2328 | One call covers the run of sources from its index that share a link, and returns the last one covered |
| FanOut.Announce | src/network.c:1988-1995 | The loop over the sources sends one message for each run of sources |
| FanOut.RunsPartition | src/map.c:2391-2406 | Together the messages name every source once, in order, each on its own link |
| FanOut.OnePerLinkIffGrouped | src/map.c:2317-2328 | No link gets two messages if and only if sources with one link are adjacent |
| FanOut.SortedSourcesOneMessagePerLink | src/network.c:2084-2089 | With sources sorted by name, each link gets exactly one message and every source is covered |
| MapScopes.ScopeLists.constructor | src/map.c:244-250 | By default every origin is admitted |
| MapScopes.ScopeLists.AddScope | src/map.c:828-888 | Adding to one list removes from the other; "all" replaces a list and absorbs additions |
| MapScopes.ScopeLists.RemoveScope | src/map.c:768-826 | The entry goes, the others keep their order; true exactly if something changed |
| MapScopes.ScopeLists.UpdateScope | src/map.c:890-936 | Assignment of "all", of nothing, or of a list of names; the number of updates is not 0 exactly if the list changed |
| MapScopes.ScopeLists.Admits | src/map.c:2649-2670 | The two loops decide the verdict for a device |
| MapScopes.AddKeepsOk | src/map.c:828-888 | No duplicates, "all" only alone, no device on both lists: kept by adding; the list then holds the old entries and the new one, or "all" alone |
| MapScopes.RemoveKeepsOk | src/map.c:768-826 | The same for removal; taking "all" away leaves the list empty and the other as it was |
| MapScopes.AllMeaning | src/map.c:843-854 | Adding "all" makes the list "all", removing it empties the list, and the other list is unchanged |
| MapScopes.DeviceMeaning | src/map.c:860-885 | A named device is added at the end or removed, leaves the other list, and all other entries stay |
| MapScopes.Verdict | src/map.c:2649-2670 | A device is admitted if and only if it is allowed by name, or not blocked while "all" is allowed |
| MapScopes.AllVerdict | src/map.c:2649-2670 | After allowing "all" exactly the blocked devices are shut out; after removing it nobody is admitted |
| MapScopes.AllowVerdict | src/map.c:2649-2670 | Allowing d admits d and changes no other verdict |
| MapScopes.BlockVerdict | src/map.c:2649-2670 | Blocking d shuts d out if and only if not both lists are "all", and changes no other verdict |
| MapScopes.ReplaceKeepsOk | src/map.c:890-936 | Any assignment keeps the lists in order, wherever "all" stands in it |
| MapScopes.ReplaceMeaning | src/map.c:890-936 | After an assignment of names the list holds exactly those if and only if it was not "all" |
| BundleQueue.Network.SendPending | src/network.c:783-818 | The pending bundle leaves for its destination |
| BundleQueue.Network.InitBundle | src/network.c:820-831 | A new empty bundle |
| BundleQueue.Network.UseLocal | src/network.c:833-840 | Selects the local destination, sending only a bundle that is not for the bus |
| BundleQueue.Network.UseBus | src/network.c:842-849 | Selects the bus |
| BundleQueue.Network.UseMesh | src/network.c:851-859 | Selects a mesh peer |
| BundleQueue.Network.UseSubscribers | src/network.c:861-872 | Selects the subscribers of a device |
| BundleQueue.Network.AddMsg | src/network.c:874-887 | Appends a message, sending a bundle first that would grow too long |
| BundleQueue.LeavesWhen | src/network.c:783-887 | Exactly when each operation makes the pending bundle leave, and what is pending then |
| BundleQueue.SelectedIsLastUse | src/network.c:833-872 | The destination field is the one selected last, and a bundle is open exactly when one was selected since the last send |
| BundleQueue.HandledIffNeverMisroutes | src/network.c:783-887 | In every run each message added to an open bundle is sent or pending exactly once, in order, and for the destination selected last before it, or as local instead of for the bus; all go where asked if and only if no step takes over a bundle with messages for the bus |
| BundleQueue.MessagesConserved | src/network.c:783-887 | In every run no such message is lost, repeated or reordered |
| BundleQueue.LostIffClosed | src/network.c:874-887 | An added message is lost if and only if nothing was selected since the last send; otherwise it goes to the destination selected last |
| BundleQueue.AllShippedAfterSend | src/network.c:783-818 | After a final send all have left, and for where they were asked to go if and only if no step misroutes |
| BundleQueue.BundlesFit | src/network.c:879-883 | A bundle with several messages was below the limit before its last message's overhead |
| BundleQueue.StepLimited | src/network.c:879-883 | One operation keeps all bundles with several messages below the limit if and only if it does not add a message to a non-empty bundle whose length exceeds the limit only with its overhead |
| BundleQueue.LimitKeptIffNeverOverfills | src/network.c:879-883 | The same for whole runs |
| BitflagArray.Bitflags.constructor | src/bitflags.h:19-34 | All flags start cleared, the padding set |
| BitflagArray.Bitflags.Realloc | src/bitflags.h:42-66 | What a change of size does to the bytes, growing or shrinking |
| BitflagArray.GrownMeaning | src/bitflags.h:53-63 | The flags after growth |
| BitflagArray.GrowthKeepsFlagsIff | src/bitflags.h:53-63 | Growth keeps the old flags if and only if their number is no multiple of 8 or the last 8 were not set; new flags are not set |
| BitflagArray.ShrunkMeaning | src/bitflags.h:48-53 | Shrinking keeps the remaining flags, and the padding if and only if the freed bits were set |
| BitflagArray.Bitflags.Set | src/bitflags.h:68-71 | Sets one flag and no other |
| BitflagArray.SetMeaning | src/bitflags.h:68-71 | The byte operation sets one flag and keeps padding, count and cache sound |
| BitflagArray.Bitflags.Unset | src/bitflags.h:118-122 | Clears one flag and no other |
| BitflagArray.UnsetMeaning | src/bitflags.h:118-122 | The byte operation clears one flag and drops the cache bit |
| BitflagArray.Bitflags.SetAll | src/bitflags.h:73-77 | Sets all flags |
| BitflagArray.Bitflags.Clear | src/bitflags.h:134-144 | Clears all flags, also of an array whose padding was lost |
| BitflagArray.Bitflags.Get | src/bitflags.h:124-127 | Reads one flag |
| BitflagArray.Bitflags.GetAll | src/bitflags.h:79-93 | The conjunction of the flags, cached or not, and no flag changes |
| BitflagArray.FullBytes | src/bitflags.h:79-93 | All flags are set if and only if all bytes are full, because padding is set |
| BitflagArray.Bitflags.GetSum | src/bitflags.h:95-116 | The number of set flags |
| BitflagArray.Bitflags.Compare | src/bitflags.h:129-132 | Equal exactly when flags and cache bit agree |
| BitflagArray.SameBytes | src/bitflags.h:129-132 | Equal bytes mean equal flags and equal cache, and conversely |
| ValueBuffer.Buffer.IncrIdx | src/value.c:434-450 | Moves to the next cell, keeping the rest of the history, unless the newest vector is incomplete; a wrap reuses the cell counted in excess |
| ValueBuffer.Buffer.SetNext | src/value.c:310-333 | Appends a sample to the ring; the result tells whether the value changed |
| ValueBuffer.Buffer.SetNextCoerced | src/value.c:403-415 | Appends, or completes the newest vector if it was incomplete |
| ValueBuffer.Buffer.CopyNext | src/value.c:335-347 | Appends the newest value again with a new time |
| ValueBuffer.Buffer.SetElement | src/value.c:350-375 | Changes one element of the newest vector, index taken modulo the length, and marks it as known |
| ValueBuffer.Buffer.GetHasValue | src/value.c:397-401 | True exactly when a complete sample is there |
| ValueBuffer.OffsetIsCell | src/value.c:253-261 | The C remainder used for an offset is the cell of that sample, wrapped or not |
| ValueBuffer.HoldsAfterAppend | src/value.c:434-450 | Writing the next cell makes the ring hold the longer history, dropping only what exceeds its length |
| ValueBuffer.CopyRing | src/value.c:119-158 | Copying into a longer ring keeps every sample at its offset, wrapped or not |
| ValueBuffer.Buffer.Unrolled | src/value.c:119-158 | Samples and times of one instance move together |
| ValueBuffer.Buffer.Grow | src/value.c:119-158 | Growth keeps the readable window as the history, in new memory, and counts a cell in excess if the ring had wrapped |
| ValueHistory.GrowthKeepsOffsets | src/value.c:172-175 | Every readable sample keeps its offset under growth |
| ValueHistory.WrapMeaning | src/value.c:13 | Which buffer an instance index means: its own, or counted again from the first |
| ValueHistory.Value.constructor | src/value.c:41-51 | New, empty histories in memory of their own |
| ValueHistory.Value.SetNext | src/value.c:310-333 | Appends to one instance (the index wraps around), keeps the others, the memory and the count of active instances |
| ValueHistory.Value.ResetInst | src/value.c:207-222 | Empties one instance, or none when the index is too large, and keeps the rest likewise |
| ValueHistory.Value.GetValue | src/value.c:253-261 | Offset -k reads the k-th most recent sample since the reset; null exactly without a sample |
| ValueHistory.Value.GetTime | src/value.c:279-296 | The same for times |
| ValueHistory.Value.GetNumSamps | src/value.c:459-463 | The number of cells counted |
| ValueHistory.Value.RemoveInst | src/value.c:186-205 | Drops one buffer, keeps the others in order and the count of active instances |
| ValueHistory.Value.GrowHistory | src/value.c:119-175 | All instances keep their readable samples; added memory is new |
| ValueHistory.Value.AddInst | src/value.c:68-118 | New instances are empty and in new memory, old ones unchanged |
| ValueHistory.Value.ActiveAreUsed | src/value.c:434-450 | The active counter is the number of instances that hold a sample |
| ValueHistory.CountActiveUpdate | src/value.c:207-222 | The active counter changes by one exactly when a position changes sign |
| ValueRuns.RunKeeps | src/value.c:119-158 | After any operations a history is a suffix of the samples set since the reset, and no shorter than these or the shortest length |
| ValueRuns.RunExact | src/value.c:434-463 | Without growth it is all of them, and the ring has wrapped exactly when they are more than its cells |
| ValueRuns.ReadsLatest | src/value.c:253-296 | After any sets, resets and growths offset -k holds the k-th most recent sample set since the reset, for all k below the shortest length |
| ValueRuns.NumSampsRightIff | src/value.c:459-463 | After any operations the number of samples is right if and only if no growth of a wrapped ring since the last reset is still being filled up |
| ValueRuns.Replay | src/value.c:310-333 | The histories of all instances follow any sequence of operations |
| ValueRuns.Session | src/value.c:253-333 | End to end: what is read, the number of samples and the number of active instances, from the operations alone |
| IdMapTable.IdMaps.ReserveIdMap | src/device.c:646-651 | A new record goes to the reserve |
| IdMapTable.IdMaps.AddIdMap | src/device.c:676-696 | The first reserve record, or a new one, becomes the first active record of its group |
| IdMapTable.IdMaps.RemoveIdMap | src/device.c:698-715 | The record moves from its group to the reserve |
| IdMapTable.IdMaps.LidDecref | src/device.c:717-731 | One local reference less |
| IdMapTable.IdMaps.GidDecref | src/device.c:733-754 | One remote reference less, with the target's when the record is indirect |
| IdMapTable.IdMaps.GetByLid | src/device.c:757-766 | The first active record with the local id and a local reference |
| IdMapTable.IdMaps.GetByGid | src/device.c:769-777 | The first active record with the remote id |
| IdPool.FindGidFirst | src/device.c:769-777 | A lookup by GID finds the first record of the group with it |
| IdPool.FindLidFirst | src/device.c:757-766 | A lookup by LID finds the first record with it that is in local use |
| IdPool.AddLists | src/device.c:676-696 | The record comes from the head of the reserve, or is new, and goes to the head of its group |
| IdPool.ReserveMeaning | src/device.c:646-651 | A new record without references at the head of the reserve |
| IdPool.WithoutAt | src/device.c:698-715 | Unlinking a record leaves the rest of its group in order |
| IdPool.AddOk | src/device.c:676-696 | Adding keeps every record on one list and the counts right; the added record was not active |
| IdPool.LidDecrefOk | src/device.c:717-731 | One local reference less and never below none; the record moves to the reserve exactly when it had at most one and no remote one, and nothing else changes |
| IdPool.GidDecrefDirect | src/device.c:733-754 | The same for a remote reference of a direct record: exact counts, lists and condition |
| IdPool.GidDecrefIndirect | src/device.c:741-750 | Releasing an indirect record clears its target's remapped flag, takes one of the target's references and may release the target too |
| IdPool.GidDecrefOk | src/device.c:733-754 | In all cases the lists and counts stay right; the record moves exactly when it had at most one remote reference and no local one beyond that of the indirection, and otherwise only its count changes |
| IdPool.AddKeepsNoChainsIff | src/signal.c:1009-1018 | A new indirection leaves every indirect record forwarding to a direct one if and only if its ids are not already used for forwarding |
| IdPool.IndirectionsCanChain | src/signal.c:1030-1047 | A pool in which setting up an indirection makes an indirect record forward to an indirect one |
| IdPool.ForwardingReached | src/signal.c:1009-1018 | That pool is the result of two new maps and one indirection |
| IdPool.StepGood | src/id_map.h:28-36 | Every operation keeps lists, counts and the absence of chains |
| IdPool.PoolRuns | src/device.c:646-754 | In every run that meets that condition, each record is on exactly one list, counts are not negative, direct records are active exactly while referenced, and forwarding goes one step at most |
| IdCounts.ForwardMeaning | src/signal.c:1009-1018 | An indirection leads from the new id to the GID of its target, marks the target, and counts one remote user for both |
| IdCounts.CountsAreTallied | src/device.c:676-754 | In every run, the counts of an active record are what the additions, uses and drops since it became active leave |
| Instances.LocalSignal.constructor | src/signal.c:781-794 | A new signal has the least ids as instances, or one default instance that is not used by id |
| Instances.LocalSignal.FindInstById | src/signal.c:119-128 | Binary search finds an id if it is there |
| Instances.LocalSignal.LowestUnusedId | src/signal.c:1331-1344 | The loop ends with the least id not in use |
| Instances.UsedBelow | src/signal.c:1331-1344 | The search passes no more ids than there are instances |
| Instances.LocalSignal.ReserveOne | src/signal.c:1313-1354 | Refused exactly when full or the id is in use; otherwise the given or the least unused id is added in id order with the next index |
| Instances.LocalSignal.ReserveInst | src/signal.c:1371-1393 | The instances afterwards are those of the single reservations in turn, an unused default instance counting as the first; the result counts them |
| Instances.ReservedAllGiven | src/signal.c:1371-1393 | While there is room, all given ids are in use afterwards, and no others are added |
| Instances.ReservedAllLeast | src/signal.c:1331-1344 | Without ids, n new instances take the n least free ids |
| Instances.ReservedKeeps | src/signal.c:1313-1354 | A reservation keeps the array sorted, the indices a permutation and all ids in use |
| Instances.LocalSignal.RemoveInst | src/signal.c:1599-1638 | Exactly the given id goes and the rest is renumbered |
| Instances.InsertKeepsNumbers | src/signal.c:1346-1352 | Indices stay a permutation of 0 to n - 1 when an instance is added |
| Instances.RemovedKeepsNumbers | src/signal.c:1632-1636 | and when one is removed |
| Instances.RemovedKeepsOrder | src/signal.c:1621-1625 | Removal keeps the array sorted for the search |
| Instances.EveryIndexUsed | src/signal.c:1632-1636 | Distinct indices below n leave no index unused |
| Instances.ValuesFollowIff | src/signal.c:1612-1618 | Every other instance keeps its value when the buffer at the array position is dropped, if and only if that position is the instance's index |
| ItemLists.ItemList.Prepend | src/list.c:129-134 | The item comes first |
| ItemLists.ItemList.Append | src/list.c:137-151 | The item comes last |
| ItemLists.ItemList.Remove | src/list.c:164-178 | Only the item leaves, the others keep their order; its own link stays, so a cursor on it still finds the rest |
| Queries.Query.Compare | src/list.c:447-468 | A combination decides from both its parts, which may move on to their next source; no cursor moves |
| Queries.Query.Continue | src/list.c:193-224 | The cursor goes to the next match, from the start of the list after a restarting hit |
| Queries.Query.Start | src/list.c:357-387 | The cursor goes to the first match with an ordered query, but not the parts of a combination, back at its first source |
| Queries.Query.Next | src/list.c:389-415 | What is left to report loses exactly its first element |
| Queries.WalkIsSelect | src/list.c:193-224 | A query without ordered parts reports exactly the elements that satisfy its boolean combination, in list order |
| Queries.Join | src/list.c:503-522 | Union and intersection (and the difference) of any queries: null lists, and otherwise a query that reports the combination over the first list from where its operands are, or null when that is empty |
| Queries.JoinIsCombination | src/list.c:447-468 | For operands without ordered parts a union has the elements of either, an intersection those of both, and a difference those of the first that are not of the second |
| Queries.JoinOfFilters | src/list.c:447-468 | For single filters, these are the elements that pass the tests accordingly |
| Queries.WalkMembers | src/list.c:193-224 | A query without ordered parts reports exactly the elements it stands for |
| Queries.WalkIsSlotOrder | src/map.c:619-637 | The restarting query ends and reports the sources in slot order whatever the order of the list, up to one that is missing |
| Queries.WithoutSources | src/map.c:619-632 | Asked for the destination alone, such a query reports that like a filter and no source; asked for neither, nothing |
| Queries.RestartReportsAll | src/list.c:357-387 | Started over, a query for the sources reports them from the first on, wherever it stood; a combination goes on from where its parts are |
| Queries.UpToNextSource | src/map.c:619-637 | With both asked for, the query next reports its next source, and before that the destination if the list holds it earlier |
| Queries.DestinationReports | src/map.c:619-637 | With both locations asked for, the destination is reported once, again for each source behind it, and for each slot where it is a source |
| Queries.IntersectedIsOnePass | src/list.c:514-522 | An intersected query for the sources reports only those that one pass over the list finds in slot order |
| Queries.OnePassFindsAllIff | src/list.c:447-468 | One pass finds all of them if and only if the list holds them in slot order |
| Queries.FirstSourceIsLost | src/list.c:357-387 | As handed out, a query for the sources has its first one behind it and an intersection never reports that |
| Queries.Query.Copy | src/list.c:470-492 | The copy has its own context at all levels and stands at the same place |
| Queries.Query.GetSize | src/list.c:873-896 | The number of elements left, counted on a copy, while no cursor of the original changes |
| Queries.Query.GetIdx | src/list.c:426-444 | The k-th reported element, none, or, when a non-empty list has no match, what the code reads from the freed query |
| GraphRemoval.NewQuery | src/graph.c:393-403 | The first match, or null |
| GraphRemoval.SweepSteps | src/graph.c:468-481 | Moving the cursor first and unlinking afterwards leaves it on the next match with nothing skipped |
| GraphRemoval.Graph.RemoveMaps | src/graph.c:468-481 | Exactly the matching maps go and the others keep their order |
| GraphRemoval.Graph.RemoveLink | src/graph.c:693-707 | The link goes with the maps of its slots |
| GraphRemoval.Graph.RemoveLinks | src/graph.c:468-481 | Exactly the matching links and their maps go, although the cascade runs inside the loop |
| GraphRemoval.Graph.RemoveSig | src/graph.c:647-665 | The signal goes, with the live maps that have it as a source or as destination; flagged ones and the rest stay in order |
| GraphRemoval.Graph.RemoveSigs | src/graph.c:468-481 | Exactly the matching signals go, with the live maps that have one as a source or as destination; the rest stays in order |
| GraphRemoval.Graph.RemoveDev | src/graph.c:556-592 | What is left in all four lists after a device was removed |
| GraphRemoval.QueriedMaps | src/signal.c:1790-1802 | The query for the maps of signals finds the live ones with such a source or destination, that for links those with such a link |
| GraphRemoval.SigMapsGone | src/graph.c:647-652 | After the removal of signals no live map uses one; every flagged or unrelated map stays, in order |
| GraphRemoval.LinkMapsGone | src/link.c:277-291 | After the removal of links no map uses one, and the others stay in order |
| GraphRemoval.KeepInOrder | src/graph.c:468-481 | What a removal leaves keeps its order |
| GraphRemoval.UnlistedMembers | src/graph.c:580 | Only the device itself leaves the list of devices |
| GraphRemoval.NothingRefers | src/graph.c:556-592 | No signal, link or map not flagged as removed refers to the device any more, and no map to a link or live map to a signal that went |
| GraphRemoval.OthersStay | src/graph.c:556-592 | What has nothing to do with the device stays |
| GraphRemoval.LingersIff | src/device.c:400-405 | A map or signal of the device is left if and only if it is flagged as removed and, for a map, no link of the device carries it |

## Left out

- NameProtocol.AgreementHolds: first registration only; starting over on another interface keeps the `locked` flag (src/device.c:1311-1315). One local device per network object, no remote record that shares the probed id, and no third party replying for another device.
- LocalDevice.LocalDev.HandleLogout: removing the link to the departed device (src/device.c:1391-1396) is left to the graph model.
- MapHandshake.ActiveOnlyAfterReadyPeer: two endpoints, the sources of a convergent map all on one device; releasing a map is not modelled, nor is an expression that fails to compile.
- MapEndpoint.LocalMap.OnMap: a map between local signals only, which is activated at once (src/network.c:1852-1867).
- MapEndpoint.LocalMap.OnMapped: a subscriber that creates its record on /mapped (src/network.c:2018-2037), and the copies for subscribers.
- MapEndpoint.LocalMap.Push: a push that sends nothing because the record has lost its NEW bit (src/object.c:363-369).
- MapCompletion.CompleteIffChecked: assumes that the devices of both ends are registered, as the link-up message implies; the expiry of maps that stay inactive (src/graph.c:218-264, src/map.c:2763-2770) is left out, so a stall is what holds before it.
- FanOut.Announce: every slot has a link; message contents are not modelled.
- MapScopes.ScopeLists.UpdateScope: staged scopes of unknown devices are not modelled; neither is `mpr_map_remove_scope_internal` (src/map.c:736-766).
- BundleQueue.HandledIffNeverMisroutes: message lengths are parameters, with a header that is never empty, and the transports themselves are not modelled.
- BitflagArray.Bitflags.constructor: fewer than 128 flags, and bytes taken as unsigned; the copy operation (src/bitflags.h:146-150) is not modelled.
- ValueHistory.Value.GrowHistory: shrinking, a change of vector length or type, fewer instances and stepping back (src/value.c:452-457) are not modelled. Timing statistics and marking ranges of elements as known are left out; coercion is a parameter.
- IdPool.PoolRuns: reference counts are unbounded and the direct removals by map processing (src/map.c:1201-1203), which bypass the counts, are left out. Lists are sequences of handles, not links; the id generated for a zero GID is the caller's `gid`.
- Instances.LocalSignal.ReserveInst: instance data, status, stealing and release are left out; the library sort and search are modelled by insertion and binary search. The dropped value buffer is the subject of `ValuesFollowIff` only.
- Queries.WalkIsSelect: property filters and wildcards are opaque predicates. An exhausted query is not freed in the model.
- Queries.Query.GetIdx: what the memory of a freed query holds (src/list.c:433-436) is not modelled; the outcome is only named.
- GraphRemoval.Graph.RemoveDev: callbacks, freed memory, the linked-device lists, scopes of other maps and the release of map-generated instances are left out.
- Sockets, message encoding, interface discovery, subscriptions, printing and language bindings: input and output.
- Expressions: their parser and evaluator are not part of this model.
- Clock synchronisation: smoothing of floating-point estimates.
