# Cajui: the durable delivery core, modelled and proved

A battery node reserves a counter, seals a sample and sends it over a lossy radio. A receiver
commits the sample to a crash-safe record store before it acknowledges, and a forwarder drains
the store to a broker. Nodes join, and join again, over the radio or over USB. This project
models that core in Dafny, down to the bytes of frames and records, and proves what holds over
every run: every reachable durable state mounts, the queue is exactly the accepted samples not
yet given up, delivered means durable, re-pairing never cuts a node off, both ends of a pairing
agree, and no key ever meets one nonce with two different inputs.

`dafny verify dfyconfig.toml` checks the whole project.

## How the model is built

- **Bytes.** `Wire`, `Codec`, `Records`, `Snapshot` and `Pairing` define each encoding once, as a
  function with a proved inverse. The loops of the firmware are methods over arrays and cursors
  (`Wire.Put`, `Codec.RunSeal`, `RecordCursors`, `PairingBuffers`, `Snapshot.RunDecodeSnapshot`)
  proved to compute those functions, with every access in bounds.
- **The store.** An operation is a plan (`Store`): the atomic record writes it makes, in order,
  its result and the memory after them. A power cut or an ambiguous failure leaves a prefix of
  the plan. `StoreObject.PersistentStore` is the object itself, with its fields updated in place
  over named byte records; each method is proved to follow its plan, for every way the writes
  can fail. `StoreBytes` ties the bytes to the typed records. `RecordStore.faults` counts the writes that
  failed; a call during which it stays the same finished its plan (`Faultless`).
- **Laws.** What an operation is for is said a second time, without the function or plan its method is
  proved against: which inputs get which result, what changes, and that a valid request succeeds when no
  write fails. `StoreLaws` and `PairingLaws` hold these for the store and for pairing, the `…Law` and `…Iff`
  lemmas of the other modules theirs; `JoinRuns` is a whole exchange that succeeds.
- **History.** A ghost log holds every accepted sample; its index is the queue sequence. The write
  of a receipt is the commit point. A migrated device starts with the snapshot's queue as its log and
  with the samples its receipts are of as carried ones (`StoreInvariant.Origin`). `StoreInvariant.Inv`
  says what durable records and history have to do with each other, and `StoreRuns` has the runs:
  finished operations, operations cut after any write, and mounts.
- **Protocols.** `DeliveryRuns` puts a node and a receiver on a network that loses, duplicates,
  reorders, replays and invents frames, with power cuts at both ends; `PairingRuns` adds pairing
  over the same two stores. The objects of the firmware (`Delivery.Sender`, `PairingHost`,
  `PairingClient`, `ReceiverController`, `Forwarder`, `CommandRunner`, `SendController`,
  `DuplicateAckLimiter`, `UpdateReceiver`) are classes whose methods are proved against the
  functions those runs use; `CommandLedger` is the ledger the command runner keeps, and `UplinkRuns`
  runs the forwarder with the broker and the store. Entropy, clock, jitter and radio answers are
  parameters.

## Assumptions

- Each record write is atomic and a failed one is ambiguous, as
  `lib/CajuiStorage/src/cajui_storage.h:17-26` states; reads succeed.
- AES-GCM is ideal (`Protocol.Ideal`): it keeps lengths, decryption inverts encryption, and what
  decrypts is the encryption of what it yields. In the runs, a frame that opens or verifies under a
  trusted key was made by one of the two devices (`DeliveryRuns.Genuine`, `PairingRuns.Made`).
- Diffie-Hellman commutes (section 6.1 of RFC 7748), distinct derivation contexts give distinct
  keys, and the receiver's key pair is new at every click (`PairingRuns.KeysSeparate`, `NewPair`).
- Fingerprints differ for the keys in use; a generation or key is not enrolled again once the
  retired list has forgotten it; sequences stay below 2^64 (`StoreOps.Allowed`). A revision that
  reaches its maximum is modelled as the code treats it, as a write failure.
- The broker client reports each publication's acknowledgement at most once (`Uplink.LineInv`).

## What the code does differently from what one would expect

- `commit` does not compare the power command with the frame's version, but a mount does. A store
  that accepted a v1 frame with a power command no longer mounts: `StoreLimits.CommitMountsIff`
  gives the exact condition. `receive` never asks for such a commit.
- `prepare` does not look at the receipt left in the slot it uses, nor compares the new key's mark with
  the one leaving the slot. `StoreLimits.PrepareMountsIff` gives the exact condition for the store to
  mount afterwards; once the retired list has forgotten a credential, it can fail. `StoreLimitRuns` has
  runs from a blank device into both of these stores.
- A mount erases the v1 snapshot once the registry decodes, before the rules across records are
  checked. A snapshot with two prepared enrollments of one node decodes, is migrated, is erased and
  never mounts: `Migration.MigrationCompletes` gives the exact condition, `TwicePreparedDecodes` such
  a snapshot and `RefusedAfterErase` the outcome.
- A candidate that already joined is listed afresh by a differing request, and the offer to it
  stays open: `HostPairing.DifferingRequest` gives the exact condition. The binding key still comes
  from the key pinned by the operator's click.
- Two windows of three never fall whole into one minute, because a window opens with a grant: no
  node is granted more than five repeated acknowledgements a minute.
- A remembered command survives exactly six later ones while an accept is pending, and exactly seven
  otherwise (`CommandLedger.LastsExactly`).
- The `Publisher` interface lets a client give a message id again. `Uplink.AcknowledgedIff` gives the exact
  condition for the acknowledgement a poll takes to be for the publication in flight, over everything
  the broker may still acknowledge; `UplinkRuns.LateAck` is a run in which it is not, and a sample leaves that was
  never acknowledged. This is a gap in the interface's contract and not in the device: its client
  (`src/board/mqtt_uplink.cpp:258-263` and `282-291`) gives an id again only after 2^31 others, remembers four
  publications, and clears a mapping before it reuses it.
- Removal is by identity, and a v1 queue may hold one identity twice (`Uplink.IdentifiedIff`: what a migration
  brought decides). When a full queue gives up the sample in flight, its acknowledgement removes the copy behind
  it: `Uplink.RemovedIff` says when a removal takes the very sample, `UplinkRuns.CopyRemoved` is such a run.

## Model

| member | source | states |
|---|---|---|
| Wire.Put | lib/CajuiProtocol/src/cajui_wire.h:14-16 | the loop writes the big-endian form of the number at its place and touches no other byte |
| Wire.Get | lib/CajuiProtocol/src/cajui_wire.h:17-21 | the loop reads the number its bytes stand for |
| Wire.UnbeBe | lib/CajuiProtocol/src/cajui_wire.h:14-21 | a number that fits its field reads back as written |
| Wire.BeUnbe | lib/CajuiProtocol/src/cajui_wire.h:14-21 | every field is the one encoding of the number it stands for |
| Protocol.NonceInjective | lib/CajuiProtocol/src/cajui_wire.h:22-30 | a nonce determines the frame type, the version and the counter |
| Codec.CheckData | lib/CajuiProtocol/src/codec.cpp:32-44 | the nested loops accept exactly data with valid fields and no sensor and metric pair twice |
| Codec.RunSeal | lib/CajuiProtocol/src/codec.cpp:70-114 | filling the buffers yields the frame or the refusal of the specification, in every case |
| Codec.RunOpen | lib/CajuiProtocol/src/codec.cpp:116-173 | the checks in the source's order yield the message or the refusal of the specification, in every case |
| Codec.OpenSeal | lib/CajuiProtocol/src/codec.cpp:70-173 | open after seal returns the normalised message, signed readings and the power byte included |
| Codec.SealOpen | lib/CajuiProtocol/src/codec.cpp:70-173 | a frame that opens is exactly what seal emits for the message it yields, which is already normalised |
| Codec.OpenedRoutes | lib/CajuiProtocol/src/codec.cpp:50-68 | a frame that opens is routed by the untrusted hints as its own kind and, for DATA, to its own node |
| Records.RegistryRoundTrip | lib/CajuiStorage/src/records.cpp:104-174 | a well-formed registry decodes from its encoding as itself |
| Records.RegistryCanonical | lib/CajuiStorage/src/records.cpp:130-174 | bytes that decode hold a well-formed registry and are its encoding |
| Records.RetiredRoundTrip | lib/CajuiStorage/src/records.cpp:204-232 | a retired list decodes from its encoding as itself |
| Records.RetiredCanonical | lib/CajuiStorage/src/records.cpp:215-232 | bytes that decode as a retired list are its encoding |
| Records.ReceiptRoundTrip | lib/CajuiStorage/src/records.cpp:233-258 | a receipt decodes from its encoding as itself |
| Records.ReceiptCanonical | lib/CajuiStorage/src/records.cpp:244-258 | current-version bytes that decode are the receipt's encoding; version 1 bytes carry no power command |
| Records.QueueRoundTrip | lib/CajuiStorage/src/records.cpp:259-294 | a queue record decodes from its encoding as itself, known link or not |
| Records.QueueCanonical | lib/CajuiStorage/src/records.cpp:272-294 | current-version bytes that decode are the record's encoding; version 1 bytes have an unknown link |
| Records.HeadRoundTrip | lib/CajuiStorage/src/records.cpp:295-308 | the head decodes from its encoding as itself |
| Records.HeadCanonical | lib/CajuiStorage/src/records.cpp:302-308 | bytes that decode as a head are its encoding |
| Records.NamesApart | lib/CajuiStorage/src/records.cpp:85-102 | slots never share a record name, sequences do exactly when a ring apart, and receipts never share one with the queue |
| RecordCursors.BeFirst | lib/CajuiStorage/src/records.cpp:21-23 | the byte the writer puts down first is the most significant one of the field |
| RecordCursors.Writer.Number | lib/CajuiStorage/src/records.cpp:21-23 | appends the big-endian form of the number to what was written, and nothing else |
| RecordCursors.Writer.Finish | lib/CajuiStorage/src/records.cpp:28-32 | seals what was written with its CRC and returns the record's size |
| RecordCursors.Reader.Number | lib/CajuiStorage/src/records.cpp:39-48 | reads the next field, or marks the record invalid and stands at the end when it is cut short |
| RecordCursors.Reader.ReadFrame | lib/CajuiStorage/src/records.cpp:77-84 | succeeds exactly for a frame of legal size with all its bytes present |
| RecordCursors.OpenRecord | lib/CajuiStorage/src/records.cpp:62-72 | succeeds exactly for an intact record of the kind, of version 1 up to the newest, and stands after the version |
| RecordCursors.RunEncodeRegistry | lib/CajuiStorage/src/records.cpp:104-129 | the cursor writes the registry's encoding and never leaves its buffer |
| RecordCursors.RunDecodeRegistry | lib/CajuiStorage/src/records.cpp:130-174 | the cursor finds the registry or the very health code of the specification, for every input |
| RecordCursors.RunDecodeRetired | lib/CajuiStorage/src/records.cpp:215-232 | the cursor accepts and finds exactly what the specification does, for every input |
| RecordCursors.RunDecodeReceipt | lib/CajuiStorage/src/records.cpp:244-258 | the cursor accepts and finds exactly what the specification does, in both versions |
| RecordCursors.RunDecodeQueue | lib/CajuiStorage/src/records.cpp:272-294 | the cursor accepts and finds exactly what the specification does, in both versions |
| StoreBytes.BytesAreRecords | lib/CajuiStorage/src/cajui_storage.cpp:204-225 | writing a record's bytes under its name changes exactly the typed record they stand for |
| StoreBytes.BytesMount | lib/CajuiStorage/src/cajui_storage.cpp:68-142 | bytes that satisfy the invariant mount, with the true registry, receipts, queue and counts |
| StoreFits.PlanFits | lib/CajuiStorage/src/cajui_storage.cpp:204-287 | every record any operation writes is one its decoder accepts |
| StoreObject.ValidateEntries | lib/CajuiStorage/src/records.cpp:175-203 | the loops accept exactly unique credentials, few enough active generations and none retired |
| StoreObject.RetireInto | lib/CajuiStorage/src/records.cpp:324-332 | appends a credential, and forgets exactly the oldest when the list was full |
| StoreObject.PersistentStore.Prepare | lib/CajuiStorage/src/cajui_storage.cpp:231-287 | follows its plan: a finished step with the planned result, or a durable prefix of it and a latched failure |
| StoreObject.PersistentStore.Activate | lib/CajuiStorage/src/cajui_storage.cpp:288-300 | follows its plan, for every way its write can fail |
| StoreObject.PersistentStore.ActivateAlongside | lib/CajuiStorage/src/cajui_storage.cpp:301-328 | follows its plan: keeps at most the used generation with the furthest queue position |
| StoreObject.PersistentStore.RevokeGeneration | lib/CajuiStorage/src/cajui_storage.cpp:329-337 | follows its plan, for every way its write can fail |
| StoreObject.PersistentStore.Reserve | lib/CajuiStorage/src/cajui_storage.cpp:394-405 | returns the next counter only once it is durable, and zero otherwise |
| StoreObject.PersistentStore.LoadReceipt | lib/CajuiStorage/src/cajui_storage.cpp:406-412 | finds the receipt of an authorized binding on a receiver, and nothing else |
| StoreObject.PersistentStore.Commit | lib/CajuiStorage/src/cajui_storage.cpp:415-477 | follows its plan: evicts when full, queues, commits by the receipt, then supersedes |
| StoreObject.PersistentStore.PeekFront | lib/CajuiStorage/src/cajui_storage.cpp:478-508 | reads the queue front back from storage; an unreadable front latches the store |
| StoreObject.PersistentStore.Forwarded | lib/CajuiStorage/src/cajui_storage.cpp:509-519 | follows its plan: removes the front only when it is the named sample |
| StoreObject.PersistentStore.Reset | lib/CajuiStorage/src/cajui_storage.cpp:520-543 | follows its plan: revoke, retire, drop the queue, empty the registry; with every write succeeding it is the step `StoreLaws.ResetLaw` describes |
| StoreObject.PersistentStore.LoadQueue | lib/CajuiStorage/src/cajui_storage.cpp:121-141 | checks every sequence of the queue and counts each slot's samples, or reports the first bad one |
| StoreObject.PersistentStore.Mount | lib/CajuiStorage/src/cajui_storage.cpp:55-142 | what it recovers is what the bytes say and under the invariant it succeeds; a v1 device mounts exactly when no write fails and no node has two prepared entries, and is then sound with the snapshot as its past, and after a failed write it is sound or can be mounted again |
| StoreLaws.FaultlessOrLatched | lib/CajuiStorage/src/cajui_storage.cpp:204-225 | a call either had every write succeed or reports a storage error and leaves the store out of service until it is mounted |
| StoreLaws.UnmountedRefuses | lib/CajuiStorage/src/cajui_storage.cpp:231-543 | a store that is not mounted refuses everything and changes nothing |
| StoreLaws.PrepareLaw | lib/CajuiStorage/src/cajui_storage.cpp:231-287 | which result preparing gives, case by case: unfit, foreign, already enrolled, barred, full, or taken into the first empty slot or else the first spent one, whose credential is retired |
| StoreLaws.ActivateLaw | lib/CajuiStorage/src/cajui_storage.cpp:288-300 | activating takes a prepared enrollment into service and exactly the node's other active ones out of it |
| StoreLaws.AlongsideLaw | lib/CajuiStorage/src/cajui_storage.cpp:301-328 | beside the new generation exactly the one the node used last stays in service |
| StoreLaws.RevokeLaw | lib/CajuiStorage/src/cajui_storage.cpp:329-337 | revoking takes exactly the named enrollment out of service |
| StoreLaws.AbsentLaw | lib/CajuiStorage/src/cajui_storage.cpp:288-337 | what is not enrolled can be neither activated nor revoked |
| StoreLaws.ReserveLaw | lib/CajuiStorage/src/cajui_storage.cpp:394-405 | a reservation takes one counter of exactly the binding's active enrollment, on a transmitter, while one is left |
| StoreLaws.CommitLaw | lib/CajuiStorage/src/cajui_storage.cpp:415-477 | a commit is refused exactly for an unknown binding, a receipt that moved or a frame that is not the newer sample it says; otherwise the sample joins the queue, with its link, and the log, and the node's other generations end |
| StoreLaws.PeekLaw | lib/CajuiStorage/src/cajui_storage.cpp:492-508 | what is peeked is the oldest accepted sample still queued, with its data and the link it arrived over, as received |
| StoreLaws.ForwardedLaw | lib/CajuiStorage/src/cajui_storage.cpp:509-519 | the front leaves exactly when the call names it; any other call is refused and changes nothing |
| StoreLaws.ResetLaw | lib/CajuiStorage/src/cajui_storage.cpp:520-543 | undelivered samples and no permission: refused, nothing changes; otherwise, unless the revision is exhausted, Ok: no enrollment is left, every one that was is retired as far as the list reaches, and the queue is empty at the old tail |
| StoreLaws.MountLaw | lib/CajuiStorage/src/cajui_storage.cpp:68-142 | records load exactly when each is readable and they agree, slot by slot and sequence by sequence, and then the tail is the furthest any live receipt reaches |
| StoreObject.OldDeviceRecords | lib/CajuiStorage/src/cajui_storage.cpp:143-203 | a device that holds nothing but a valid snapshot's bytes is one of the v1 devices `Mount` speaks of |
| StoreObject.FullIffNoFreeSlots | lib/CajuiStorage/src/cajui_storage.cpp:351-360 | a credential that passes every other check is refused as full exactly when no slot is free |
| StoreObject.BindingsCounted | lib/CajuiStorage/src/cajui_storage.cpp:386-393 | a node's bindings are as many as its active generations, each the node's own |
| StoreInvariant.TailRecovered | lib/CajuiStorage/src/cajui_storage.cpp:98-120 | the tail recovered from the live receipts is the true one, whatever slots were reclaimed |
| StoreInvariant.Mounts | lib/CajuiStorage/src/cajui_storage.cpp:68-142 | every durable state that satisfies the invariant mounts, with the true queue |
| StoreOps.OperationSound | lib/CajuiStorage/src/cajui_storage.cpp:204-543 | every operation keeps the invariant after every one of its writes, and its memory agrees with a mount |
| StoreOps.CommitSound | lib/CajuiStorage/src/cajui_storage.cpp:415-477 | a commit, cut anywhere, keeps the invariant and never overwrites a live ring record |
| StoreOps.FrontIs | lib/CajuiStorage/src/cajui_storage.cpp:478-508 | the front of a healthy queue reads back as the oldest accepted sample not yet given up |
| StoreRuns.EveryStateMounts | lib/CajuiStorage/src/cajui_storage.cpp:55-142 | over every run, cut anywhere and with any write ambiguous, the durable state mounts Ready |
| StoreRuns.QueueIsSlice | lib/CajuiStorage/src/cajui_storage.cpp:92-142 | the mounted queue is the slice from head to tail of the accepted samples, each in its own ring record |
| StoreRuns.LogGrows | lib/CajuiStorage/src/cajui_storage.cpp:415-477 | no run ever forgets or reorders an accepted sample |
| StoreRuns.AcceptedOnce | lib/CajuiStorage/src/cajui_storage.cpp:415-449 | over every run a sample accepted has a greater counter than any before it of its generation, migrated ones included, so none is accepted twice |
| StoreRuns.Conservation | lib/CajuiStorage/src/cajui_storage.cpp:429-519 | while healthy and without reset, queued plus accepted is forwarded plus dropped plus still queued |
| StoreServing.KeepsTheLatest | lib/CajuiStorage/src/cajui_storage.cpp:310-325 | the generation kept beside a new one is the one the node's latest sample was accepted under |
| StoreServing.NeverCutOff | lib/CajuiStorage/src/cajui_storage.cpp:301-328 | over every run without an explicit activate, revoke or reset for it, the generation of a node's latest sample, accepted here or carried by a migration, stays active |
| StoreServing.CommitServesAgain | lib/CajuiStorage/src/cajui_storage.cpp:438-477 | a commit that reports Ok, or is cut after its sample was logged, leaves the node's generation active whatever was active before |
| StoreServing.ServedSince | lib/CajuiStorage/src/cajui_storage.cpp:301-328 | over every run, from any logged sample of a node on, without a disruptive operation since, the generation of its latest sample stays active, whatever happened before |
| StoreServing.NeverMoreThanTwo | lib/CajuiStorage/src/cajui_storage.cpp:301-328 | over every run a node has at most two active generations, one on a transmitter |
| StoreLimits.CommitMountsIff | lib/CajuiStorage/src/cajui_storage.cpp:111-117 | a store whose commit reported Ok mounts exactly when only a v2 frame came with a power command |
| StoreLimits.PrepareMountsIff | lib/CajuiStorage/src/cajui_storage.cpp:248-287 | a store whose enrollment reported Ok mounts exactly when the chosen slot's stale receipt does not carry the generation and the credential that left the slot does not share its mark |
| StoreLimitRuns.V1PowerCommit | lib/CajuiStorage/src/cajui_storage.cpp:415-449 | from a blank receiver, enrolling a node and committing its first v1 sample with a power command reports Ok and leaves a store that does not mount |
| StoreLimitRuns.ForgottenReturns | lib/CajuiStorage/src/cajui_storage.cpp:248-287 | from a blank receiver, once as many other credentials were retired as the list holds, the first one is enrolled again with Ok and the store does not mount |
| StoreLimitRuns.BothHappen | lib/CajuiStorage/src/cajui_storage.cpp:99-117 | one concrete receiver on which both runs exist |
| Snapshot.RunDecodeSnapshot | lib/CajuiStorage/src/snapshot.cpp:91-165 | the cursor reads and checks entry by entry, and finds the snapshot or the very health code of the specification, for every input |
| Snapshot.SnapshotRoundTrip | lib/CajuiStorage/src/snapshot.cpp:53-165 | a valid v1 snapshot decodes from its encoding as itself |
| Migration.AttemptsAbsorbed | lib/CajuiStorage/src/cajui_storage.cpp:145-203 | interrupted migrations leave no trace once one completes |
| Migration.AttemptsKeepSnapshot | lib/CajuiStorage/src/cajui_storage.cpp:143-203 | an attempt cut before the registry write loses neither the snapshot nor the chance to migrate again |
| Migration.MigrationCompletes | lib/CajuiStorage/src/cajui_storage.cpp:68-91 | after any interrupted attempts and a completed one the device mounts exactly when no node has two prepared entries, with the same entries, receipts and queue order |
| Migration.UnmigratedStep | lib/CajuiStorage/src/cajui_storage.cpp:143-203 | one more attempt on a device that never completed one, cut or not, leaves such a device again or exactly what a single migration leaves |
| Migration.RefusedAfterErase | lib/CajuiStorage/src/cajui_storage.cpp:77-89 | otherwise the migrated registry decodes, the snapshot may be erased, and the device does not mount |
| Migration.TwicePreparedDecodes | lib/CajuiStorage/src/snapshot.cpp:91-165 | a valid snapshot with two prepared entries of one node |
| MigrationRuns.MigratedInv | lib/CajuiStorage/src/cajui_storage.cpp:145-203 | what a completed migration of any decodable snapshot with one prepared entry a node leaves satisfies the invariant, in whatever order its queue is |
| MigrationRuns.MigratedRuns | lib/CajuiStorage/src/cajui_storage.cpp:68-203 | from a migrated device every run mounts at every point and keeps the snapshot's queue in its log, and what it carried |
| Delivery.Receive | lib/CajuiProtocol/src/delivery.cpp:6-37 | refuses, repeats the stored answer, or commits and then answers, as specified; what each frame meets is stated by `Delivery.ReceiveLaw` and `Delivery.ReceiveRefuses` |
| Delivery.ReceiveRefuses | lib/CajuiProtocol/src/delivery.cpp:8-14 | a frame that does not open, opens as something else, or comes for no active enrollment of a healthy receiver changes nothing and is not answered |
| Delivery.ReceiveLaw | lib/CajuiProtocol/src/delivery.cpp:13-36 | Replay exactly for a counter below the stored one, Duplicate exactly for the same one with the same bytes, Conflict exactly for the same one with others; every greater counter, whatever the gap, is accepted when no write fails and the log grows by exactly that frame; the answer opens as the acknowledgement of that counter and tag |
| Delivery.BeginLaw | lib/CajuiProtocol/src/delivery.cpp:38-60 | when a sample may be sent, and that the frame opens as that sample under the next counter of the binding's enrollment; refused only while one is pending, for bad input, or when no counter can be reserved |
| Delivery.AcknowledgeLaw | lib/CajuiProtocol/src/delivery.cpp:73-86 | a sample counts as delivered exactly when the frame is an acknowledgement a receiver seals for it, and takes its power command |
| Delivery.Delivers | lib/CajuiProtocol/src/delivery.cpp:6-86 | one exchange with nothing lost: a newer sample is logged and its answer delivers it |
| Delivery.Redelivers | lib/CajuiProtocol/src/delivery.cpp:6-86 | when the answer was lost, the repeated frame is answered with the same command, delivers, and is not logged again |
| Delivery.Sender.Begin | lib/CajuiProtocol/src/delivery.cpp:38-60 | a frame becomes pending only with a counter already durable; a refusal keeps the pending one |
| Delivery.Sender.NextAttempt | lib/CajuiProtocol/src/delivery.cpp:68-72 | hands out the pending frame at most three times and never after delivery |
| Delivery.Sender.Acknowledge | lib/CajuiProtocol/src/delivery.cpp:73-85 | Ok exactly for the acknowledgement of the pending frame; the power command is taken only then |
| NodeCounters.StepKeepsFloor | lib/CajuiStorage/src/cajui_storage.cpp:394-405 | over one step of a node's store, however cut, no key's counter goes back and no departed key returns |
| DeliveryRuns.StartingWorld | lib/CajuiProtocol/src/delivery.cpp:6-85 | a new receiver, or a migrated one whose carried samples the node's reserved counters cover, satisfies the delivery invariant |
| DeliveryRuns.EveryWorld | lib/CajuiProtocol/src/delivery.cpp:6-85 | over every run of both devices and a hostile network, the delivery invariant holds |
| DeliveryRuns.DeliveredIsDurable | lib/CajuiProtocol/src/delivery.cpp:73-85 | whenever the node accepts an acknowledgement, that exact frame is in the receiver's durable log or the one a migrated receipt carries |
| DeliveryRuns.StableAcks | lib/CajuiProtocol/src/delivery.cpp:13-36 | over a run, every acknowledgement for one key and counter is the same bytes |
| DeliveryRuns.NonceSafety | lib/CajuiProtocol/src/delivery.cpp:6-60 | over a run, no key seals two different DATA or ACK inputs under one nonce |
| Pairing.RequestRoundTrip | lib/CajuiPairing/src/cajui_pairing.cpp:129-151 | a request reads back as what it says |
| Pairing.RequestCanonical | lib/CajuiPairing/src/cajui_pairing.cpp:129-151 | a frame that parses as a request is the request of what it says |
| Pairing.OfferRoundTrip | lib/CajuiPairing/src/cajui_pairing.cpp:152-194 | an offer reads back as its terms and verifies under its key |
| Pairing.OfferCanonical | lib/CajuiPairing/src/cajui_pairing.cpp:171-194 | a frame that verifies as an offer is the one its key holder builds from its terms |
| Pairing.TaggedIff | lib/CajuiPairing/src/cajui_pairing.cpp:195-216 | a confirmation or completion verifies exactly when it is the key holder's own frame |
| Pairing.SameKey | lib/CajuiPairing/src/cajui_pairing.cpp:107-128 | both ends derive the same binding key, or neither does |
| Pairing.ContextInjective | lib/CajuiPairing/src/cajui_pairing.cpp:107-128 | the derivation context determines every identity and both public keys |
| Pairing.PairingNeverOpens | lib/CajuiPairing/src/cajui_pairing.cpp:26-37 | no pairing frame opens as DATA or ACK under any binding |
| PairingBuffers.RunBuildOffer | lib/CajuiPairing/src/cajui_pairing.cpp:152-170 | filling the buffer yields the specified offer or refusal |
| PairingBuffers.RunParseOffer | lib/CajuiPairing/src/cajui_pairing.cpp:171-188 | reading the buffer finds the specified terms or none |
| PairingStore.PrepareFresh | lib/CajuiPairing/src/cajui_pairing.cpp:73-86 | prepares the credential, revoking only enrollments no sample ever used; Ok means it is enrolled, and Ok it is when no write fails and the credential is new, of the network and has a slot |
| PairingStore.PairingServes | lib/CajuiPairing/src/cajui_pairing.cpp:330-357 | whatever pairing does to the store, however cut, every node stays served |
| HostPairing.PairingHost.Track | lib/CajuiPairing/src/cajui_pairing.cpp:262-291 | pins the first key seen for a node and says whether a request is consistent with it |
| HostPairing.PairingHost.Handle | lib/CajuiPairing/src/cajui_pairing.cpp:292-357 | reacts as specified (`PairingLaws` says how); a completion is sent only once the binding is stored, active, and the frame that confirmed it is on record with the pinned key, and it is sent when no write fails and the store can take it |
| HostPairing.PairingHost.Accept | lib/CajuiPairing/src/cajui_pairing.cpp:358-400 | offers as specified, or refuses with the specified reason and leaves any open offer as it was |
| HostPairing.AcceptPins | lib/CajuiPairing/src/cajui_pairing.cpp:358-400 | an accept derives the binding key from the listed candidate's key, for its node |
| HostPairing.ConfirmedIsPinned | lib/CajuiPairing/src/cajui_pairing.cpp:327-357 | a binding that gets confirmed is derived from the key pinned at accept |
| HostPairing.DifferingRequest | lib/CajuiPairing/src/cajui_pairing.cpp:262-291 | a differing request withdraws the offer exactly when the candidate had not joined |
| HostPairing.NoDifferingRequest | lib/CajuiPairing/src/cajui_pairing.cpp:262-317 | while an offer to a candidate that had not joined stays open, no differing request for its node arrived |
| ClientPairing.PairingClient.Poll | lib/CajuiPairing/src/cajui_pairing.cpp:472-556 | one poll decides as specified (`PairingLaws` says how); only a valid completion reaches the store, which pairs the node when no write fails and the credential fits; the frame handed to the radio, if any, is the outgoing one |
| ClientPairing.DecideKeeps | lib/CajuiPairing/src/cajui_pairing.cpp:444-556 | a poll keeps the key and the confirmation those of the accepted offer, sent at most five times, and stores only the completion of its own attempt |
| ClientPairing.AttemptKept | lib/CajuiPairing/src/cajui_pairing.cpp:444-556 | whatever a poll hears, a running attempt keeps its key pair and, once it accepted an offer, those terms, that key and that confirmation |
| PairingLaws.WindowLaw | lib/CajuiPairing/src/cajui_pairing.cpp:248-255 | the window stays open for exactly two minutes of true time, across a wrap of the clock |
| PairingLaws.TrackLaw | lib/CajuiPairing/src/cajui_pairing.cpp:262-291 | the list after a request: updated, in conflict, listed afresh, added while there is room, and no pinned key is ever replaced |
| PairingLaws.RequestLaw | lib/CajuiPairing/src/cajui_pairing.cpp:310-326 | how every request is answered: only the one for the node under offer, consistent with its candidate, with the offer frame; a differing one withdraws the offer |
| PairingLaws.OfferAnswered | lib/CajuiPairing/src/cajui_pairing.cpp:310-326 | while an offer is open, its node's request with the pinned nonce and key is answered with exactly the offer of the stored terms, which stays open |
| PairingLaws.ConfirmLaw | lib/CajuiPairing/src/cajui_pairing.cpp:327-329 | exactly the confirmation of the open offer is accepted, and no other frame but a request or a repetition has an effect |
| PairingLaws.CompletesLaw | lib/CajuiPairing/src/cajui_pairing.cpp:345-356 | after the binding is stored the node counts as joined and paired, and its completion verifies under the key of the offer |
| PairingLaws.RepeatLaw | lib/CajuiPairing/src/cajui_pairing.cpp:299-308 | a repeated confirmation is answered with the identical completion, within 15 s and five answers, even after the window closed |
| PairingLaws.OutsideLaw | lib/CajuiPairing/src/cajui_pairing.cpp:299-309 | any other frame outside the window has no answer |
| PairingLaws.AcceptLaw | lib/CajuiPairing/src/cajui_pairing.cpp:358-400 | which result a click gives, cause by cause, and the terms, key and frame of the offer it opens |
| PairingLaws.AttemptEnds | lib/CajuiPairing/src/cajui_pairing.cpp:476-480 | an attempt runs for two minutes of true time, across a wrap, and is then given up with its secrets |
| PairingLaws.ChannelLaw | lib/CajuiPairing/src/cajui_pairing.cpp:481-497 | a clear channel starts the transmission of the outgoing frame, a busy one leads to a wait of the drawn jitter, and no answer in 3 s or an error ends the attempt |
| PairingLaws.SendingLaw | lib/CajuiPairing/src/cajui_pairing.cpp:498-509 | a transmission that completes leads to listening for what its frame asks for |
| PairingLaws.WaitingLaw | lib/CajuiPairing/src/cajui_pairing.cpp:510-514 | after the wait, and no sooner, the channel is checked again for the same frame |
| PairingLaws.OfferLaw | lib/CajuiPairing/src/cajui_pairing.cpp:444-471 | an offer to the running attempt is confirmed under the key both derive, unless the node belongs elsewhere, which ends the attempt |
| PairingLaws.DoneLaw | lib/CajuiPairing/src/cajui_pairing.cpp:527-542 | the completion of the confirmed offer goes on to the store |
| PairingLaws.QuietLaw | lib/CajuiPairing/src/cajui_pairing.cpp:544-556 | while nothing is heard the node listens for 1.5 s, then asks again after the jitter or repeats its confirmation, five times at most |
| PairingLaws.HeardOtherwise | lib/CajuiPairing/src/cajui_pairing.cpp:515-526 | an offer that is not to this attempt leaves it listening; a radio error ends it |
| PairingLaws.StartLaw | lib/CajuiPairing/src/cajui_pairing.cpp:410-420 | an attempt starts exactly on a healthy transmitter with a free slot, a key pair and a nonce |
| PairingLaws.KeyBindsAll | lib/CajuiPairing/src/cajui_pairing.cpp:107-128 | unless two inputs of the derivation collide, one binding key stands for one network, receiver, node, generation and pair of public keys |
| PairingRuns.StartingSystem | lib/CajuiPairing/src/cajui_pairing.cpp:219-556 | two devices before their first exchange, the receiver new or migrated, satisfy the invariants |
| PairingRuns.EverySystem | lib/CajuiPairing/src/cajui_pairing.cpp:219-556 | over every run of the whole system, the pairing and delivery invariants hold |
| PairingRuns.CompletionIsStored | lib/CajuiPairing/src/cajui_pairing.cpp:527-542 | a completion the node accepts answers a binding the receiver had stored |
| PairingRuns.PairedAgree | lib/CajuiPairing/src/cajui_pairing.cpp:444-542 | when the node ends paired, the receiver had the same network, receiver, node, generation and key active before |
| PairingRuns.WholeSystemNonces | lib/CajuiProtocol/src/cajui_wire.h:22-30 | over every run, across OFFER, CONFIRM, DONE, DATA and ACK, no key meets one nonce with two inputs |
| JoinRuns.Joins | lib/CajuiPairing/src/cajui_pairing.cpp:219-556 | over an honest channel, with an operator that accepts and stores that have room, request, click, request, offer, confirmation and completion end with both devices paired and the same credential in service on both |
| JoinRuns.NewNodeJoins | lib/CajuiPairing/src/cajui_pairing.cpp:219-556 | one such run of a new node and a new receiver, whatever the cipher |
| Uplink.TakenIff | lib/CajuiUplink/src/cajui_uplink.h:56-65 | whatever the broker acknowledges, the first acknowledgement of an id is for one of some publications exactly when the first one queued is or, with none queued, no other one under the id is unanswered |
| Uplink.ForwardedIff | lib/CajuiStorage/src/cajui_storage.cpp:509-519 | removal by identity is granted exactly when the front of a healthy queue has that identity |
| Uplink.ForwardedIsIt | lib/CajuiStorage/src/cajui_storage.cpp:509-519 | it takes the front exactly when granted and its write did not fail, and leaves a healthy queue alone otherwise; with unique identities the front is that very sample |
| Uplink.RemovedIff | lib/CajuiUplink/src/cajui_uplink.cpp:271-297 | a poll counts a sample as forwarded exactly when the id in flight was acknowledged, the front has the identity and the write did not fail; the very sample leaves exactly when it is the front; no other poll moves a healthy queue |
| Uplink.AcknowledgedIff | lib/CajuiUplink/src/cajui_uplink.cpp:276-278 | over all the broker may acknowledge, the acknowledgement taken is for the publication in flight, or for one of its sample, exactly when no other one can come first under its id; always, when ids are given once |
| Uplink.IdentifiedIff | lib/CajuiStorage/src/cajui_storage.cpp:509-519 | identities are unique in the log exactly when they were among the samples a migration brought |
| Uplink.Forwarder.Poll | lib/CajuiUplink/src/cajui_uplink.cpp:271-321 | the whole effect of a poll: which acknowledgements are popped, what the store is asked for each way it can fail, and what `Uplink.WaitsIff` and `Uplink.PublishLaw` say of waiting and publishing |
| Uplink.RestsUnless | lib/CajuiUplink/src/cajui_uplink.cpp:272 | a failed or paused forwarder, or one whose loop is not quiet, does nothing |
| Uplink.WaitsIff | lib/CajuiUplink/src/cajui_uplink.cpp:291-296 | a poll without an acknowledgement leaves the publication in flight exactly when the broker is connected and less than 15 s of true time passed, across a wrap; otherwise it is given up, counted, and due again in 5 s |
| Uplink.DelayedIff | lib/CajuiUplink/src/cajui_uplink.cpp:298 | a retry is held back for exactly 5 s of true time, across a wrap |
| Uplink.PublishLaw | lib/CajuiUplink/src/cajui_uplink.cpp:298-320 | a sample is published exactly when none is held back, the broker is connected, one is queued, it can be formatted and the client takes it; it is the oldest one |
| Uplink.AcknowledgedLeaves | lib/CajuiUplink/src/cajui_uplink.cpp:276-290 | once the id in flight was acknowledged the next poll ends the flight and removes and counts the sample if the front still has its identity and no write fails |
| Uplink.StaysInFlight | lib/CajuiUplink/src/cajui_uplink.cpp:271-321 | whatever the store does meanwhile, the sample in flight keeps its place among the accepted ones |
| UplinkRuns.EveryCourse | lib/CajuiUplink/src/cajui_uplink.cpp:253-321 | over every run with the broker and the store, what is in flight is a publication of an accepted sample that is unanswered or whose acknowledgement is still to be popped, and no more samples were removed than publications acknowledged |
| UplinkRuns.ForwardedWasAcknowledged | lib/CajuiUplink/src/cajui_uplink.h:73-75 | over every run in which no live id was given twice, a poll that forwards took the acknowledgement of the publication in flight, and what left has its sample's identity and is the very sample when no identity was accepted twice |
| UplinkRuns.StaysWaiting | lib/CajuiUplink/src/cajui_uplink.cpp:271-297 | over every run, within 15 s of its publication a sample stays in flight whatever else is acknowledged or stored |
| UplinkRuns.AckInTime | lib/CajuiUplink/src/cajui_uplink.cpp:271-297 | over every such run, an acknowledgement that comes in that time makes the next poll remove the sample |
| UplinkRuns.QuietAfterGivingUp | lib/CajuiUplink/src/cajui_uplink.cpp:291-299 | over every run, for 5 s after a publication was given up polls publish nothing |
| UplinkRuns.LateAck | lib/CajuiUplink/src/cajui_uplink.h:60-64 | from any healthy queue of two samples, a run with an id given again in which the second leaves though only the first was acknowledged |
| UplinkRuns.CopyRemoved | lib/CajuiUplink/src/cajui_uplink.cpp:276-288 | from any full queue with the front's identity queued twice, a run in which the copy leaves that was never published |
| UplinkRuns.BothLeave | lib/CajuiUplink/src/cajui_uplink.cpp:271-321 | one receiver and two decodable snapshots of it from which both runs exist |
| CommandLedger.PendingKept | lib/CajuiUplink/src/cajui_command.cpp:269-283 | remembering never overwrites the pending accept |
| CommandLedger.UsedIff | lib/CajuiUplink/src/cajui_command.cpp:269-283 | remembering uses a slot exactly when no other remains before it and it is not the pending accept's |
| CommandLedger.LastsExactly | lib/CajuiUplink/src/cajui_command.cpp:269-283 | a command is remembered through exactly six later ones while an accept is pending, and exactly seven otherwise |
| CommandLedger.EveryLedger | lib/CajuiUplink/src/cajui_command.cpp:269-402 | over every sequence of calls each result told is a command's one first answer, its one final answer or a replay of the latest, and none is taken back |
| CommandLedger.RememberedForSix | lib/CajuiUplink/src/cajui_command.cpp:290-310 | whatever is answered, awaited or superseded meanwhile, a command repeated after at most six others is replayed with its latest answer and runs nothing |
| CommandLedger.OneFinalResult | lib/CajuiUplink/src/cajui_command.cpp:284-402 | a command told pending has, once it is not the pending one, exactly one final result, its own, after the first; repeats are told pending before it and that result after it |
| CommandLedger.OneAnswer | lib/CajuiUplink/src/cajui_command.cpp:284-310 | a command answered at once is told that answer only, in every repeat |
| Commands.CommandRunner.Execute | lib/CajuiUplink/src/cajui_command.cpp:290-378 | the exact results told and the ring after every call: a repeat is replayed; a payload not seen before is told why it is refused, malformed, of no known type or more than 5 s old, and otherwise runs once: for another device, open, close, revoke and accept, what is told, cause by cause, and what becomes of the window, the offer and the store |
| Commands.EarlyLaw | lib/CajuiUplink/src/cajui_command.cpp:298-302 | what is refused before it runs and with which reason; a well-formed command runs up to five seconds of true time after it arrived, across a wrap |
| Commands.ReasonLaw | lib/CajuiUplink/src/cajui_command.cpp:356-366 | the reason told for a refused accept, cause by cause: closed, not requested, conflict, full, storage, failed; otherwise the offer it opens |
| Commands.CommandRunner.Poll | lib/CajuiUplink/src/cajui_command.cpp:379-402 | a pending accept gets its one final answer, under its own id and device, by the first poll after its outcome: applied, window closed, key conflict or superseded, each exactly in its case; Applied only with a frame that confirmed it since it ran |
| Commands.CommandRunner.RevokeNode | lib/CajuiUplink/src/cajui_command.cpp:318-331 | success means exactly the node's enrollments were revoked and nothing else changed; it succeeds for every listed node when no write fails |
| Commands.CommandRunner.AppliedWasConfirmed | lib/CajuiUplink/src/cajui_command.cpp:379-388 | a pending accept whose node is the paired one was confirmed since it ran by a frame whose tag verifies under the key pinned then, and the binding was active in the store after it |
| Runtime.SendController.Start | lib/CajuiRuntime/src/cajui_runtime.cpp:26-38 | a failed radio shutdown bars every later start; a started cycle has its frame and no transmission |
| Runtime.SendController.Finish | lib/CajuiRuntime/src/cajui_runtime.cpp:40-52 | the frame is released only after the radio confirmed sleep |
| Runtime.SendController.Transmit | lib/CajuiRuntime/src/cajui_runtime.cpp:78-179 | the next attempt always exists when asked for, and is the pending frame |
| Runtime.SendController.Poll | lib/CajuiRuntime/src/cajui_runtime.cpp:78-179 | the whole effect of a poll on the cycle, the report and the sender; the same bytes at most three times, the end at the deadline, and no reuse after a failed radio stop |
| Runtime.CompletionsIff | lib/CajuiRuntime/src/cajui_runtime.cpp:78-179 | within its deadline a cycle ends with a radio error exactly on a fault of the radio, acknowledged exactly on the pending frame's acknowledgement in time, and exhausted exactly after the third attempt's timeout |
| Runtime.DeadlineAcrossWrap | lib/CajuiRuntime/src/cajui_runtime.cpp:78-90 | the cycle's deadline is seen exactly when it has passed, across a wrap of the clock |
| Runtime.DeadlineLaw | lib/CajuiRuntime/src/cajui_runtime.cpp:80-84 | nothing outlasts the cycle's deadline |
| Runtime.WaitLaw | lib/CajuiRuntime/src/cajui_runtime.cpp:86-95 | the cycle begins with the initial jitter; after any wait, and no sooner, the channel is checked |
| Runtime.ChannelLaw | lib/CajuiRuntime/src/cajui_runtime.cpp:71-119 | a clear channel gets the next attempt; a busy one is waited out within the first interval until two attempts were made and within the second after that |
| Runtime.TransmissionLaw | lib/CajuiRuntime/src/cajui_runtime.cpp:120-146 | a transmission that completed in time is followed by listening from the moment it completed |
| Runtime.ListeningLaw | lib/CajuiRuntime/src/cajui_runtime.cpp:147-174 | without an acknowledgement in time the wait is within the first interval after one attempt and within the second after two, and the third attempt ends the cycle |
| Limiter.DuplicateAckLimiter.Allow | lib/CajuiApplication/src/cajui_application.cpp:32-51 | the loops update the slots and grant as specified |
| Limiter.AtMostFiveAMinute | lib/CajuiApplication/src/cajui_application.cpp:32-51 | over any run, across wraps and slot reuse, no node is granted more than five in a minute |
| Limiter.WindowsApart | lib/CajuiApplication/src/cajui_application.cpp:32-51 | the windows of one node start at least a minute apart |
| Limiter.GrantedIff | lib/CajuiApplication/src/cajui_application.cpp:32-51 | within a node's window a call is granted exactly while fewer than three were; outside one exactly when a slot is free, its own or expired, where a window then starts; no call touches another slot |
| Limiter.FirstThree | lib/CajuiApplication/src/cajui_application.cpp:44-50 | over any run, a call within a minute of true time of its node's window is granted exactly when fewer than three of that window were |
| Limiter.FirstOfWindow | lib/CajuiApplication/src/cajui_application.cpp:36-47 | over any run, a call outside its node's windows is granted and starts one exactly when some slot is open to it |
| Limiter.RoomForAll | lib/CajuiApplication/src/cajui_application.cpp:36-43 | over any run in which no more nodes call than there are slots, a slot is always open to each of them |
| Reception.ReceiverController.Poll | lib/CajuiApplication/src/cajui_application.cpp:66-128 | receives only while listening; completion wins over the watchdog of 3 s of true time; an accepted sample is always answered and a repeated one exactly when the limiter grants it; a pairing frame goes to the host, which reacts as specified; at most one answer a poll, of what was just processed |
| Reception.ReceiverController.TryBindings | lib/CajuiApplication/src/cajui_application.cpp:98-114 | a frame is processed under the first binding its decryption does not rule out, and under no other |
| Reception.HeardLaw | lib/CajuiApplication/src/cajui_application.cpp:105-114 | a frame that opens as DATA under an active enrollment and decrypts under no other of its node is processed under that one |
| Reception.UnheardLaw | lib/CajuiApplication/src/cajui_application.cpp:105-114 | a frame that decrypts under no active enrollment of the node it names changes nothing and is not answered |
| Reception.CryptoErrorIff | lib/CajuiApplication/src/cajui_application.cpp:107-114 | the loop goes on exactly when the frame did not decrypt, and then nothing had changed |
| Reception.AcknowledgedIsDurable | lib/CajuiApplication/src/cajui_application.cpp:98-127 | every acknowledgement ever put on the air is the one of a sample in the durable log, or of the one a migrated receipt carries; never the latter on a device that was not migrated |
| Reception.RepeatsBounded | lib/CajuiApplication/src/cajui_application.cpp:120-121 | whatever arrives, no node is sent more than five repeated acknowledgements in a minute |
| Firmware.UpdateReceiver.Feed | lib/CajuiFirmware/src/cajui_firmware.cpp:68-83 | after any chunk the status is the one of all bytes so far, until the sink refuses a call: then a write error |
| Firmware.UpdateReceiver.Finish | lib/CajuiFirmware/src/cajui_firmware.cpp:84-95 | the final status is the verdict on the whole file, or a write error exactly when the sink refused a call; installed means committed, with exactly the signed image |
| Firmware.InstalledIff | lib/CajuiFirmware/src/cajui_firmware.cpp:32-95 | installed exactly when header, role, version, length and signature all check |
| Firmware.HeaderReads | lib/CajuiFirmware/src/cajui_firmware.cpp:32-60 | a header reads back as the role, version, size and signature it says |
| Firmware.HeaderCanonical | lib/CajuiFirmware/src/cajui_firmware.cpp:32-45 | a header that is accepted as one is the one encoding of what is read from it |
| Firmware.VerdictOf | lib/CajuiFirmware/src/cajui_firmware.cpp:46-95 | for every header and image, wrong role, downgrade, too large, truncated, bad signature and installed, each exactly in its case |
| Firmware.VerdictOther | lib/CajuiFirmware/src/cajui_firmware.cpp:33-45 | a file shorter than a header is truncated, and any other is refused for its header exactly when that is the encoding of none |
| Firmware.Receive | lib/CajuiFirmware/src/cajui_firmware.cpp:68-95 | feeding a file in any chunks is checking it whole, as long as the sink refuses no call |
| Provisioning.RecoveryFile.Advance | tools/provision.py:255-258 | the phase never moves back, and reaches the named one when it returns |
| Provisioning.Enroll | tools/provision.py:322-371 | a completed run, new or resumed, has both devices active with the original credential, and it completes when nothing is lost or interrupted and both devices can take or have the credential; a barred or lost credential is never restored, no counter goes back, and the run may be resumed |
| Provisioning.BarredRefused | lib/CajuiStorage/src/cajui_storage.cpp:241-248 | preparing a revoked or retired credential is refused without a write |
| Provisioning.RestartKeeps | tools/provision.py:322-371 | a restart brings back exactly the enrollments that were durable |

## Left out

- Failures of the cryptographic calls themselves, and the algorithms behind AES-GCM, HKDF, X25519, SHA-256, ECDSA and CRC-32: they are functions here.
- Read errors of the record store, the flash adapter, and the allocation failure of a migration.
- The v1 snapshot's writer (`snapshot.cpp:53-90`), which the current firmware never runs, is a function over byte sequences, not a cursor.
- HostPairing.PairingHost.Accept: the retry loop over random numbers that come out zero is one draw, where zero stands for a source that keeps failing.
- StoreObject.PersistentStore.Commit: the counts of dropped and forwarded samples are unbounded here, 32 bits wide in the firmware.
- The link is kept in the queue record and not in the receipt held in memory, as nothing reads it there.
- `info`, `list`, `binding` and the read-only accessors of the pairing host and controllers: easy members.
- The grammar of management commands, topics, JSON and HTML text, `saveUplink`, `loadUplink` and the settings predicates: the command runner gets parsed commands.
- `climateSample` and the sensor drivers: floating point without state.
- The serial protocol of `tools/provision.py`, its other commands and its file format: a request is a call that may run although its reply is lost.
- Board glue, radio and broker adapters, tasks and interrupts: environments with the contracts of the headers.
- Wiping of secrets and constant-time comparison.
