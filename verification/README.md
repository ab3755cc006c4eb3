# go-websocket in Dafny

A model of the core of a distributed WebSocket push service, with proofs about it. Where the
code does something else than its comments or tests say, the model follows the code, and the
exact condition under which the two agree is proved.

**The registry of connections** (`servers/clientmanager.go`).
`Slices` has Go slices as a backing array with a length, and the deletion loop shared by
`delGroupClient` and `delSystemClient`, which ranges over the header it started with while it
shifts and re-slices the same array, and which compares its index with the number of groups
instead of the length of the list. `SliceMaps` is a Go map of such slices. `Registry` has the
four indexes as values and each critical section as a function on them; `History` has the laws
of any sequence of critical sections; `Groups` has group membership and the fan-out to a group,
`FanOut` exactly when that fan-out reaches everybody, `Membership` exactly when it does all
that is meant.
`ClientManager` has the objects themselves, with their shared inner maps and backing arrays,
proved to do what the functions say.

**The server as a concurrent step system** (`servers/connect.go`, `servers/client.go`,
`servers/server.go`, `servers/clientmanager.go`).
`Server` has the event loop, the writer, the ping timer, and any number of handlers, readers,
senders and closers, three locks and three bounded channels, and one step for each acquisition
of a lock, each critical section, and each operation on a channel or socket. `Safety` proves
what every step keeps, `Delivery` what the writer does, `Events` where sections come from,
`Handlers` in which order, `Disconnects` whom readers, closers and pings disconnect, `Sweeps`
whom pings are left for, `Liveness` progress and draining. `Reachable` puts these together for
every state a run reaches; `Traces` and `Visits` say what such a state has to do with the steps
of the run alone; `Runs` collects the laws of all runs, and `LateConnect` has a run of its own.

**Client ids** (`tools/crypto/crypto.go`, `tools/util/util.go`).
`Bytes`, `Base64` and `Crypto` have the encoding of an id: base64 of an IV followed by the
cipher block chaining of the padded address. The block cipher is any permutation of 16-byte
blocks for each key; everything around it is concrete, including decryption in place.
`Routing` has what nodes of a cluster make of an id.

**The cluster** (`servers/rpcclient.go`, `pkg/etcd/etcddis.go`).
`Gather` has the scatter-gather of `GetOnlineListBroadcast` with goroutines finishing in any
order. `Discovery` has the replica of the server list: a snapshot, then a watch.

## Code and intent

- Line 248 of `servers/clientmanager.go` deletes by `clientId` where the test at
  `servers/clientmanager_test.go:33-53` expects the session to go. `Keying` selects the key:
  `ByClientId` is the code, `ByAddr` what is meant. `History.AddThenDelete` has the two calls of
  that test;
  `History.WrittenIsMeantIff` says when the two agree.
- Lines 406 and 439 compare an index with `len(manager.Groups)`. `Slices.DeleteIsFilterIff` says
  for which lists, values and bounds the loop computes the intended filter.
- `SendMessage2LocalGroup` ranges over the live list that it deletes from. `Groups.SendAsMeant`
  is the fan-out over a copy. `FanOut.SendReachesAllIff` says exactly when the code reaches the
  same members, and `Membership.SendAsMeantIff` exactly when it also leaves the same ones in the
  group; `Groups.SendLosesAndDoubles` and `Membership.SendDropsRegistered` are inputs on which
  it does not.
- `GenGroupKey` joins two strings with a colon. `Groups.SystemsShareKeyIff` says which systems
  can get into each other's groups.
- The assignment on line 128 of `servers/clientmanager.go` declares a new variable, so the
  branch on line 171 is never taken.
- The handler starts the reader before it sends the Connect event (`servers/connect.go:81-89`),
  so even with line 248 as meant a connection can be added again after its disconnect was
  handled. `History.RegisteredIff` says exactly who is registered, `LateConnect` has the run.
- `servers/connect.go:74` sets the client id to the system id, so in production ids are not
  encrypted addresses; the laws of module `Routing` are about ids issued by `GenClientId`.
- What happens to a key between the snapshot and the watch of `GetService` is missed
  (`Discovery.GapIsLost`); `Discovery.ReplicaAgreesIff` says exactly when the replica agrees with
  the store all the same.

## Model

| member | source | states |
|---|---|---|
| `Slices.DeleteIsFilterIff` | servers/clientmanager.go:404-412 | for every list, with or without duplicates, and every bound: the loop leaves the order-preserving filter exactly under a condition on the input, and then goes out of range exactly when the value was there twice or more and also last |
| `Slices.DeleteDistinct` | servers/clientmanager.go:437-445 | a list without duplicates: the filter exactly when the value is absent, last, or at an index whose successor is below the bound, otherwise everything from the value on is lost; with the length of the list as bound, as meant, always the filter |
| `Slices.DeleteWithFewGroups` | servers/clientmanager.go:437-445 | with at most one group, any list is cut before the last occurrence |
| `Slices.DeleteFromCopies` | servers/clientmanager.go:437-445 | n copies lose exactly one, unless the bound is above (n + 1) / 2 + 1; then the loop goes out of range with half of them left |
| `Slices.BoundsAgreeIff` | servers/clientmanager.go:439 | two bounds make a difference on a list without duplicates exactly when they are on different sides of the index after the value and something comes after it |
| `Slices.BoundsAgreeOnCopiesIff` | servers/clientmanager.go:439 | on a list of equal entries two bounds make a difference exactly when the loop goes out of range with one of them and not with the other |
| `Slices.VaryingIsFixed` | servers/clientmanager.go:437-445 | with a bound that is read anew at every index and may change meanwhile, the loop on a list without duplicates does what it does with the bound fixed at the one value that matters |
| `Slices.DeleteInPlace` | servers/clientmanager.go:404-412 | the loop on a real backing array computes the specified list, array and panic, and touches nothing beyond the header |
| `Slices.RemoveElement` | servers/clientmanager.go:301-311 | the order-preserving filter: every copy goes, everything else stays |
| `Lists.WithoutCounts` | servers/clientmanager.go:301-311 | what the filter keeps is every other value, as often as before |
| `SliceMaps.SliceMap.Append` | servers/clientmanager.go:396 | the list of the key grows by the id; no list of another key changes, although appending may write into spare capacity |
| `SliceMaps.SliceMap.DeleteAt` | servers/clientmanager.go:400-413 | the deletion on the list of one key leaves every other list alone |
| `Registry.AddClientConsistent` | servers/clientmanager.go:112-174 | adding keeps: no empty entry, every session under its own id and address, one session for an id with "APP_", and the account index equal to the registered ids |
| `Registry.DelSessionConsistent` | servers/clientmanager.go:236-287 | deleting keeps the same, whichever key the deletion uses |
| `History.DeletionAsMeant` | servers/clientmanager.go:202-287 | keyed by address: exactly the session of the given id and address goes, every other session stays, and the id leaves both indexes exactly when that was its last session |
| `History.DeletionAsWrittenIff` | servers/clientmanager.go:239-255 | as written: something changes exactly when the session exists and the id has a session whose address is the id itself, and then that session goes |
| `History.WrittenIsMeantIff` | servers/clientmanager.go:244-249 | the deletion as written is the one meant exactly when there is no such session or its address equals the id |
| `History.AddThenDelete` | servers/clientmanager_test.go:33-53 | add and delete leave an empty registry as meant, and the session as written, unless its address is its id |
| `History.ReplacementSurvives` | servers/clientmanager.go:122-126 | the connection that took over an "APP_" id stays, and alone, however late the disconnects of those it replaced arrive, until the id is added again or its own address disconnects |
| `History.LateConnectEvicts` | servers/clientmanager.go:122-126 | such an addition may be the late Connect event of a replaced connection: it evicts the replacement, with line 248 as written or as meant |
| `History.RegisteredIff` | servers/clientmanager.go:112-255 | as meant, after every history: a connection is registered exactly when an addition of it was the last word on its id and address |
| `LateConnect.GoneButRegistered` | servers/connect.go:81-89 | so a connection that is gone can stay registered even as meant: for every connection there is a run, at rest, in which its disconnect was handled before its Connect event |
| `History.ReplayConsistent` | servers/clientmanager.go:112-287 | the indexes agree after every history of critical sections, with line 248 as written or as meant |
| `Registry.IsAppIff` | servers/clientmanager.go:122 | an id is an "APP_" id exactly when it is anything, then "APP_", then anything |
| `History.OneAppSession` | servers/clientmanager.go:122-126 | after every history: an id with "APP_" anywhere in it, if registered, has one session, that of the connection added last |
| `History.Multiplicity` | servers/clientmanager.go:142-165 | a registered id stands in its account list once, or, with "APP_", as often as it was added since it last left; an id not registered does not stand there |
| `History.AppIsIndexed` | servers/clientmanager.go:145-149 | an id with "APP_" always has the parts to be indexed |
| `History.HandledConnection` | servers/connect.go:76-89 | with any sections between the two additions that neither add nor delete the id, a fully handled connection raises the count of an "APP_" id by two, of any other id by one if it was not registered before and by nothing if it was |
| `History.WrittenNeverForgets` | servers/clientmanager.go:195-255 | as long as no address equals an id: no id and no session of an id without "APP_" ever leaves, and the count never goes down |
| `History.SystemListIsCopies` | servers/clientmanager.go:423-446 | with ids equal to system ids and at most one group, the list of a system is copies of its name, one more for each entry and one fewer, down to none, for each exit |
| `History.ListEffects` | servers/clientmanager.go:393-446 | each section on the lists makes one list grow at its end, or takes it through the deletion loop with the number of groups as its bound, and leaves every other list of both maps alone |
| `History.LeavesBySections` | servers/clientmanager.go:222-230 | `DelClient` leaves the lists as its sections do, run one by one: each of its groups in the order of the list, then the system, up to the first one that goes out of range |
| `History.LeavesSystem` | servers/clientmanager.go:230 | unless leaving a group goes out of range, the list of the system goes through the deletion loop; if it does, no list of a system changes |
| `History.ProductionLeaves` | servers/clientmanager.go:222-230 | without groups, a disconnect takes one copy from a list of copies of the system name |
| `History.AccountKeyIff` | servers/clientmanager.go:145-160 | the key derived from an id is platform_account exactly for the ids of that form, or with a third part in between |
| `History.FiledIff` | servers/clientmanager.go:145-160 | for any platform and account: the ids indexed under their key are those of that form, none if either has an underscore, and also those of four parts or more if both are empty |
| `History.AccountQuery` | servers/clientmanager.go:290-299 | for any platform and account: the answer holds exactly the registered ids filed under them, counts them, and holds each as often as `Multiplicity` says |
| `History.AccountOrder` | servers/clientmanager.go:163-165 | after every history: an account list holds the ids in the order of the additions that put them there and since which they have not left |
| `Groups.GroupKeyEqualIff` | tools/util/util.go:74-76 | two groups have the same key exactly when they are the same, or one system id continues the other behind a colon and the group name of the shorter one makes up for it |
| `Groups.KeyParts` | tools/util/util.go:74-76 | the colon-separated parts of a key are those of the system id and then those of the group name |
| `Groups.SystemsShareKeyIff` | tools/util/util.go:74-76 | two systems share some group key exactly when they are the same or one id continues the other behind a colon; ids without a colon never do |
| `Groups.GroupMultiplicity` | servers/clientmanager.go:361-397 | after any bindings by systems with any ids: no group list of a client repeats a name, and an id stands in a group once for each client object with that id in it and once for each membership of another group with the same key |
| `Groups.GroupsDoNotMixIff` | servers/clientmanager.go:373-378 | a group counts its own members only, exactly when nobody with that id is in another group of the same key; and nobody is when no system that bound anybody clashes with this one |
| `FanOut.SendReachesAllIff` | servers/clientmanager.go:331-346 | for every list without duplicates, registry and number of groups: each registered member gets exactly one message, in order, and nobody else, exactly when no deletion moves anything, or only the next to last member is gone, or the last one is gone and every move skips another unregistered member or none; the fan-out never goes out of range |
| `FanOut.SendIsEnqueued` | servers/clientmanager.go:331-346 | what the loop over the live array enqueues for, read off the list alone: each deletion that moves the rest skips one member and leaves one more copy of the last |
| `Groups.SendAsWritten` | servers/clientmanager.go:331-346 | for any list, with duplicates too: as long as no unregistered member stands where a deletion moves elements, one message for each registered entry, in list order; the group is unchanged when all are registered |
| `Groups.SendLosesAndDoubles` | servers/clientmanager.go:331-346 | one list on which the condition fails: with five groups and the first of three members gone, the second gets nothing and the third gets the message twice |
| `Groups.SendAsMeant` | servers/clientmanager.go:331-346 | over a copy, with the bound taken from the list: every registered member of a list without duplicates gets exactly one message, in order, nobody else gets one, and exactly the unregistered ones leave |
| `Membership.SendAsMeantIff` | servers/clientmanager.go:331-346 | for every list without duplicates, registry and number of groups: the fan-out as written does all that is meant, messages and membership, exactly when all members are registered, or from the first one that is not on nobody is and they are at most two or all cut off, or only the next to last is gone and its deletion moves the last one up |
| `Membership.SendLeaves` | servers/clientmanager.go:331-346 | which members the fan-out as written leaves in the group, read off the list alone: a move keeps the member it skips, a cut drops everybody after it |
| `Membership.SendDropsRegistered` | servers/clientmanager.go:331-346 | an input on which every member is reached and a registered one is dropped all the same |
| `ClientManager.ClientManager.AddClient` | servers/clientmanager.go:112-174 | on the shared inner maps, does to the registry what the specification says, aliasing included |
| `ClientManager.ClientManager.DelClientIdMap` | servers/clientmanager.go:236-287 | the same for the deletion, keyed by id or by address |
| `ClientManager.ClientManager.DelClient` | servers/clientmanager.go:202-233 | nothing for an empty id; otherwise the session goes, then the groups one by one, and then the list of the system goes through the deletion loop, unless a group panics |
| `ClientManager.ClientManager.EventConnect` | servers/clientmanager.go:62-72 | adds the client once more and counts the ids |
| `ClientManager.ClientManager.EventDisconnect` | servers/clientmanager.go:75-109 | deletes the client likewise, counts the ids, and marks it deleted |
| `ClientManager.ClientManager.AddClient2SystemClient` | servers/clientmanager.go:423-430 | adds the client, then appends its id to the list of the system |
| `ClientManager.ClientManager.DelSystemClient` | servers/clientmanager.go:433-446 | the deletion loop on the list of the system, its bound the number of groups |
| `ClientManager.ClientManager.DelGroupClient` | servers/clientmanager.go:400-413 | the deletion loop on the list of the group |
| `ClientManager.ClientManager.AddClient2LocalGroup` | servers/clientmanager.go:361-397 | binds a client to a group once, and records user and extension in any case |
| `ClientManager.ClientManager.SendMessage2LocalGroup` | servers/clientmanager.go:331-346 | enqueues for exactly the ids the live iteration finds registered, in order, and leaves the list that its deletions make |
| `ClientManager.ClientManager.GetByClientId` | servers/clientmanager.go:314-328 | a new map with the sessions of the id, shared with nobody; nil when the id is absent |
| `ClientManager.ClientManager.AllClient` | servers/clientmanager.go:177-192 | a new outer map holding the registry's own inner maps |
| `ClientManager.ClientManager.Count` | servers/clientmanager.go:195-199 | the number of registered ids |
| `ClientManager.ClientManager.WriteMessage` | servers/server.go:225-265 | for any order of the map: each address of the snapshot is tried once, delivered and failed divide the snapshot by reachability, and DisConnect gains one entry for each failure, in the order of the failures |
| `ClientManager.ClientManager.CloseLocalClient` | servers/server.go:204-220 | queues a disconnect exactly when the id has a connection from that address and of that system |
| `Safety.NextShaped` | servers/clientmanager.go:202-233 | every step keeps each thread to its own kind of steps: only the loop deletes, in the order session, groups, system, count, only the writer picks and writes, and who is inside a section is at one |
| `Safety.DisconnectEventSections` | servers/clientmanager.go:75-100 | the event of a disconnect runs the sections of `DelClient` in their order, and then counts |
| `Safety.EntersIff` | servers/clientmanager.go:22-30 | a thread gets a lock exactly when nobody holds it for writing, and, if it wants to write, nobody reads either |
| `Safety.LockedIffNeeded` | servers/clientmanager.go:112-446 | whoever changes an index holds its lock for writing, and whoever copies or counts sessions holds theirs for reading |
| `Safety.HeldIsStable` | servers/clientmanager.go:112-446 | while a thread holds a lock, for reading or writing, nobody changes what the lock protects |
| `Safety.HeldEffectIsStable` | servers/clientmanager.go:112-446 | so it does not matter at which moment inside it a writing section acts, unless it is `delSystemClient` and another step changes the number of groups meanwhile |
| `Delivery.NextWriterOk` | servers/server.go:223-266 | whatever the other threads do: one pass for each message taken, each entry of its map attempted once, one disconnect for each failure |
| `Delivery.NextSnapshots` | servers/server.go:236 | the map of a pass is what the registry held for the id of its message when the pass was begun, whatever changed since, and passes are begun one after the other |
| `Events.NextBalanced` | servers/connect.go:76-89 | every step with a cause (a section that adds, enters, deletes, leaves or joins, a reader started, an answer, a Connect event, a message posted) has been taken or is still to be taken once for each of its causes; leaving a system is given up exactly once for each deletion from a group that panicked, and only groups still to be left are dropped with it |
| `Disconnects.NextFulfil` | servers/client.go:46-59 | in every interleaving each reader and closer has sent all it has to (its connection if the socket ended by a close; the session it was called for and found), nothing else and nothing twice, or is just about to |
| `Disconnects.NextPings` | servers/server.go:295-305 | the pinger has sent one disconnect for each ping that failed, in order, or is just about to |
| `Events.NextEveryConn` | servers/connect.go:74-89 | a property of every accepted connection is one of every connection in the registry, the channels, the threads and the history |
| `Sweeps.NextFits` | servers/server.go:295-305 | in every interleaving a sweep has pings enough left for the sessions that were there ever since it began and were not pinged yet |
| `Handlers.NextHandlers` | servers/connect.go:76-89 | in every interleaving a handler is somewhere in its program, and nobody else takes a step of it |
| `Liveness.SomeoneSteps` | servers/server.go:192-266 | unless the server is at rest, some thread can take a step of its own, for any capacities from one on and any number of threads |
| `Liveness.StepLess` | servers/clientmanager.go:48-59 | every step of the server's own makes a lexicographic measure smaller |
| `Liveness.DrainsFrom` | servers/clientmanager.go:48-59 | whatever own steps are taken, the server comes to rest |
| `Runs.RegistryInEveryRun` | servers/clientmanager.go:48-174 | in every interleaving from the empty server: the registry is what its sections make of an empty one, the indexes agree, conflicting sections never overlap, and ids stand in the account index as often as they should |
| `Runs.NothingForgottenInEveryRun` | servers/clientmanager.go:195-255 | from any state of a run to any later one nothing is forgotten, as long as no address equals an id |
| `Runs.SystemListsInEveryRun` | servers/clientmanager.go:423-446 | the conservation law of the system lists, in every interleaving with at most one group |
| `Runs.ProductionLists` | servers/connect.go:74-78 | without bindings there are no groups, so the law holds of every production run |
| `Runs.NothingJoined` | servers/clientmanager.go:400-446 | without bindings no section of any run goes out of range |
| `Runs.PassOutcome` | servers/server.go:236-257 | a pass that is over attempted each session that the registry held for the id of its message when it was begun exactly once, and nothing else |
| `Runs.MessagesInEveryRun` | servers/server.go:192-266 | every channel hands out what it accepted, in order, at most once; every message taken has one pass, over the sessions its id had when it was begun; disconnects of the writer are its failures, in order |
| `Runs.PassesInEveryRun` | servers/server.go:236-257 | in terms of the steps of the run: one pass for each step that looks up a message; a pass that is over attempted each session that its id had in the registry at that step exactly once; what was delivered and what failed is what the outcomes of the attempts say |
| `Runs.DisconnectsInEveryRun` | servers/server.go:204-220 | a reader has disconnected its connection, at rest exactly if its socket ended by a close; a closer the session of the id, address and system it was called with, at rest exactly if the registry held one when it looked; nobody more than one |
| `Runs.NamedIsOwn` | servers/server.go:205-210 | a closer finds exactly the session of the id and the address it was called with, if there is one and it is of its system |
| `Runs.ReadersAtRest` | servers/client.go:46-59 | at rest a reader has disconnected its connection exactly if the run has its socket end by a close |
| `Runs.ClosersAtRest` | servers/server.go:204-220 | one closer for each call; at rest each looked at the registry at some step of the run, and has disconnected exactly what it was called for and found there at that step |
| `Runs.PingsInEveryRun` | servers/server.go:288-307 | the pinger disconnects exactly the connections that the steps of the run failed to ping, once each, in order, each of which was a session of the registry when the sweep began or since |
| `Runs.SweepsInEveryRun` | servers/server.go:288-295 | each tick begins one sweep, or is just about to; at rest each has |
| `Visits.SweepVisitsAll` | servers/server.go:295-305 | a sweep that is over has pinged every connection that was a session of the registry when it began and ever since |
| `Visits.PingedSession` | servers/server.go:295-305 | whoever is pinged was a session of the registry when the sweep began, or at some step since |
| `Runs.NoDeadlock` | servers/server.go:192-266 | no reachable state is stuck |
| `Runs.Drains` | servers/clientmanager.go:48-59 | left to itself from any reachable state, the server comes to rest with empty channels |
| `Runs.ArrivalsAtRest` | servers/connect.go:76-89 | in terms of the steps of the run: at rest every accepted connection was added, entered in its system, given a reader and answered once by its handler, and announced and added once more exactly if its answer got out |
| `Runs.HandlersInEveryRun` | servers/connect.go:76-89 | in every interleaving whoever was answered was given a reader before, was entered in its system before that, and was added before that |
| `Runs.BindingsAtRest` | servers/clientmanager.go:393-397 | at rest each binding asked for was made once |
| `Runs.DisconnectsAtRest` | servers/clientmanager.go:202-233 | at rest each disconnect sent deleted its session once and left its system once, but for exactly the disconnects given up because a deletion from one of its groups went out of range; each group was left once or given up |
| `Runs.ProductionDisconnects` | servers/clientmanager.go:202-233 | without bindings nothing is given up: as many deletions and as many exits from the system as disconnects, and no panic |
| `Runs.MessagesAtRest` | servers/server.go:192-266 | at rest every message that the run asks for was accepted once and had its pass, which attempted each session its id had when it was begun exactly once; the writer sent exactly one disconnect for each failure |
| `Base64.DecodeEncode` | tools/crypto/crypto.go:18-22 | decoding undoes encoding (section 4 of RFC 4648) |
| `Base64.SymbolOfAlphabet` | tools/crypto/crypto.go:18 | symbols are the entries of table 1 of RFC 4648 |
| `Base64.SymbolsOfAlphabet` | tools/crypto/crypto.go:22 | exactly the entries of that table are read as symbols, each as its own index |
| `Base64.EncodeAt` | tools/crypto/crypto.go:18 | each quantum writes in base 64 the number that its three bytes write in base 256; bytes missing at the end count as zero and give padding |
| `Base64.DecodeIff` | tools/crypto/crypto.go:22 | decoding succeeds on exactly the texts that are, without their line breaks, whole quanta of symbols, padded at the end only |
| `Base64.LineBreaksDropped` | tools/crypto/crypto.go:22 | line breaks are dropped wherever they are, and nothing else is |
| `Crypto.UnpadPad` | tools/crypto/crypto.go:33-47 | removing the padding undoes adding it (section 6.3 of RFC 5652) |
| `Crypto.PadAppends` | tools/crypto/crypto.go:33-37 | padding appends one to sixteen bytes, up to whole blocks, each of which is how many they are |
| `Bytes.XorAt` | tools/crypto/crypto.go:69-70 | a bit of the exclusive or is set exactly when the two bits differ |
| `Crypto.EncryptedBlock` | tools/crypto/crypto.go:69-70 | each ciphertext block is the encryption of the data block, changed bit by bit by the ciphertext block before it or by the IV |
| `Crypto.DecryptedBlock` | tools/crypto/crypto.go:94-96 | each plaintext block is the decryption of the data block, changed bit by bit by the data block before it or by the IV |
| `Crypto.SealedBlock` | tools/crypto/crypto.go:50-73 | what is sealed is the IV and then, block by block, the padded input, each block changed by the one before it and encrypted |
| `Crypto.DecryptEncryptBlocks` | tools/crypto/crypto.go:69-96 | chained decryption undoes chained encryption (section 6.2 of NIST SP 800-38A) |
| `Crypto.AesRoundTrip` | tools/crypto/crypto.go:50-100 | the IV and length checks pass, and the input comes back |
| `Crypto.DecryptEncrypt` | tools/crypto/crypto.go:13-31 | every byte string decrypts to itself under every valid key and IV; encryption succeeds exactly for keys of 16, 24 or 32 bytes |
| `Crypto.DecryptSucceedsIff` | tools/crypto/crypto.go:21-47 | for any text: decryption succeeds exactly on an IV with one or more whole blocks after it whose last byte does not ask for more than there is to be removed, and removes that many |
| `Crypto.EncryptInjective` | tools/crypto/crypto.go:13-19 | two ciphertexts are equal exactly when input and IV are |
| `Crypto.DecryptPanicsIff` | tools/crypto/crypto.go:39-41 | decryption panics on exactly the inputs that are an IV with no block after it |
| `Crypto.EncryptBuffer` | tools/crypto/crypto.go:50-73 | filling the buffer block by block computes the specified ciphertext |
| `Crypto.DecryptInPlace` | tools/crypto/crypto.go:94-96 | decryption with the same slice as source and destination computes the specified plaintext |
| `Crypto.DecryptBuffer` | tools/crypto/crypto.go:76-100 | all length checks and errors, and the result, as specified |
| `Routing.ParseIff` | tools/util/util.go:32-45 | parsing succeeds on exactly the strings with one colon, and host and port give the string back |
| `Routing.IssuesIff` | tools/util/util.go:21-29 | issuing an id panics exactly when the key has none of the three sizes |
| `Routing.RouteOfIssuedId` | tools/util/util.go:21-72 | an issued id is understood exactly when neither host nor port has a colon, and then gives the owner's address on every node and counts as local exactly on a node with that address |
| `Routing.UniqueRouting` | tools/util/util.go:58-72 | in a cluster of different addresses exactly the issuing node takes an id as its own |
| `Routing.IssuedIdsDistinct` | tools/util/util.go:21-29 | for any hosts and ports: two issued ids are equal exactly when host:port and the random bytes are |
| `Routing.DispatchOfIssuedId` | servers/server.go:62-111 | in a cluster the owner handles a call about an issued id and every other node addresses the owner; an address with an extra colon goes nowhere, not even on its owner |
| `Routing.DispatchIff` | servers/server.go:62-111 | for any id: a node outside a cluster handles every call; in a cluster a call stays exactly when the id decrypts to the node's own address, goes to another address exactly when it decrypts to that, and panics exactly when the decryption does |
| `Gather.SendsNeverBlock` | servers/rpcclient.go:136-156 | in every reachable state a goroutine with a list finds room in the channel |
| `Gather.HowItEnds` | servers/rpcclient.go:161-173 | when no step is left every successful list was received once, and the result holds each id as often as the replies of all servers together; the caller returned exactly when no call failed, otherwise it waits with exactly the successful lists |
| `Gather.RunsAreShort` | servers/rpcclient.go:142-170 | no run is longer than four steps a server and two more |
| `Gather.SameIds` | servers/rpcclient.go:163-170 | the multiset of ids does not depend on the order of completion |
| `Gather.FlattenInOrder` | servers/rpcclient.go:163-166 | lists received are put one after the other |
| `Discovery.ClientDis.ExtractAddrs` | pkg/etcd/etcddis.go:55-67 | returns the values that are not nil and stores under each key the last of them, leaving other keys alone |
| `Discovery.ClientDis.Watcher` | pkg/etcd/etcddis.go:41-53 | leaves under each key what the last event about it in the last response that has one says, and other keys alone |
| `Discovery.ClientDis.GetService` | pkg/etcd/etcddis.go:30-39 | the same, on top of what the snapshot leaves |
| `Discovery.AddrsAreValues` | pkg/etcd/etcddis.go:55-67 | the addresses returned are the values under the prefix that are not empty, once for each key that holds them |
| `Discovery.AddrsInOrder` | pkg/etcd/etcddis.go:60-65 | they come in the order of the response, one for each entry with a value |
| `Discovery.ConcatInOrder` | pkg/etcd/etcddis.go:43-44 | the events of the responses are taken one response after the other |
| `Discovery.ReplicaAgreesIff` | pkg/etcd/etcddis.go:30-81 | for every history with any gap, any responses delivered and anything pending: a key under the prefix has in the replica what was told last about it, other keys are never stored, and replica and store agree on a key exactly when what was told last is what happened last |
| `Discovery.WholeReplicaIff` | pkg/etcd/etcddis.go:30-81 | the whole replica is the store under the prefix exactly when that holds of every key there |
| `Discovery.ReplicaAgrees` | pkg/etcd/etcddis.go:30-81 | a key whose last event was in the snapshot or delivered agrees, exactly unless the snapshot saw an empty value for it |
| `Discovery.FullAgreement` | pkg/etcd/etcddis.go:30-81 | with nothing in the gap and nothing pending, the replica is the store under the prefix exactly when no empty value was seen there without an event since |
| `Discovery.GapIsLost` | pkg/etcd/etcddis.go:31-42 | a key that changed between the snapshot and the watch and not since: the replica keeps what the snapshot saw, so it agrees exactly when the last change left just that |

## Left out

- HTTP controllers, the upgrade handshake, JSON, validation, logging, configuration and `Register`: nothing hard to state.
- Sockets and gRPC: a write or a call succeeds or fails in any way; reading ends by a close, by another error, or not.
- What a node that is not the owner does next: `SendMessage2Client` only logs, `CloseClient` calls the owner by gRPC.
- The stubbed handlers of `servers/rpcserver.go`, `SendMessage2LocalSystem`, and the other cluster broadcasts.
- The rounds of AES and the random source: a permutation for each key, and the IV as a parameter.
- `etcdreg.go`, leases, reconnection of a watch, and compaction: library calls and time. That an empty value arrives as nil in a response is taken from the encoding.
- The lock on the server list, which `GetOnlineListBroadcast` holds until it returns and so forever when a call fails.
- Data races on the live inner maps that `AllClient` hands out, and the crash of the Go runtime when a map is written while it is ranged over: each map access is one step. A sweep may ping a connection more than once, or one that was added since it began; it pings whoever is there all along.
- That a waiting writer of a read-write lock keeps out new readers: the step system lets them in, so it has more runs than the code.
- ClientManager.ClientManager.WriteMessage: here the DisConnect channel is an unbounded list and nobody else runs; a full channel, and a registry that changes during the pass, are part of module `Server`.
- ClientManager.ClientManager.CloseLocalClient: the same, with the step system's version stated in `Runs.ClosersAtRest`.
- ClientManager.ClientManager.SendMessage2LocalGroup: no other goroutine runs between its critical sections; nothing in production calls it (line 156 of `servers/server.go` is a comment), so it is not part of module `Server`.
- Runs.RegistryInEveryRun: `delSystemClient` reads the number of groups at every index without the lock on the groups; in module `Server` the whole loop uses its value at one moment. For lists without duplicates that is no loss (`Slices.VaryingIsFixed`), and without bindings the number never changes; a list with duplicates, while a binding makes a new group, may end otherwise than the model says.
- In module `Server` the groups that a disconnecting client leaves are arbitrary, not read from its `GroupList`; so its laws hold for any groups.
- ClientManager.ClientManager.DelClient: the nil client, which no caller passes, is not modelled.
- `GetGroupClientList` and `GetSystemClientList`: they return live lists; only the use in `SendMessage2LocalGroup` is modelled.
- Handlers, the writer and the gathering goroutines are step systems and not methods, because their steps interleave.
