# MQTT client and pump log: a verification model

The pump server does all its messaging through the Eclipse Paho MQTT client, version 1.3.13. This project models the
logic of that client, and the server's own state log, and proves what they are for.

| file | models |
|---|---|
| MsgId.dfy | assigning message ids |
| Session.dfy | what each handler does to a session, on values |
| ProtocolClient.dfy | the handlers themselves, on the client's lists, store and publication registry |
| Delivery.dfy | two such clients over two FIFO channels, with drops, retries and restarts |
| Outgoing.dfy | one client's outgoing messages against a peer that may answer anything, refusals included |
| AtLeastOnce.dfy | QoS 1 delivery over the same two clients |
| Ordering.dfy, OrderAtRelease.dfy, ExactOrder.dfy | the order of QoS 2 delivery, in version 5 and in 3.1.1, and exactly when it is kept |
| Crashes.dfy | crashes in the middle of a handler |
| Recovery.dfy | restoring the in-flight lists from the persistent store |
| LinkedList.dfy, InFlightList.dfy | the doubly linked list with its search cursor, and what is done on it in place |
| Codec.dfy, Writers.dfy, Properties.dfy | integers, strings and MQTT 5 property lists on the wire |
| PublishPacket.dfy, PacketIO.dfy | PUBLISH packets: sent, stored, restored, parsed |
| AsyncQueue.dfy, CommandCodec.dfy | the command queue of the asynchronous client, and what a stored command looks like |
| CommandStore.dfy, CommandRuns.dfy, CommandRestore.dfy | the numbered records of queued commands: what dispatches, crashes and restarts make of them, over whole runs, and the restart of the shared queue |
| KeepAlive.dfy | pings and the bound on a silent server |
| Base64.dfy | Base64, by section 4 of RFC 4648 |
| Sequences.dfy | taking one element out of a sequence |
| PumpLog.dfy, HistoryPrinter.dfy | the server's ring history, snapshot table and history reply |

Where the C code works in place, so does the model: classes with the fields of the structures, arrays and loops, each
proved against a function of the old state. `Session` specifies `ProtocolClient` and gives the steps of `Delivery` and
`Outgoing`, so the end-to-end theorems are about what the handlers do. Invariants (`Valid`, `Owned`) are established by
constructors and kept by every handler and every operation of a list or queue, so they hold over every sequence of
these. The methods that do one part of such an operation, like `Client.Store` and `Client.RemovePublication`, say what
they change instead, and `PropertyList.Read` promises a well-formed list with the length that was read, which overlong
digits can make differ from that of the list written again.

Main results: exactly-once delivery of QoS 2 in every run (`Delivery.ExactlyOnce`), and exactly when it survives a crash
inside a handler (`Crashes.CrashExact`), exactly when a message leaves the list and that it is gone for good then,
against any peer (`Outgoing.LeavesExactly`, `Outgoing.GoneForGood`), exactly when QoS 1 is at least once
(`AtLeastOnce.AtLeastOnce`) and when QoS 2 stays in order (`ExactOrder.OrderExact`, in either version), recovery after a
crash between any two steps (`Delivery.CrashLosesNothing`, `Recovery.RecoversSendOrder`), publication ownership
(`ProtocolClient.Client`), the list with its cursor (`LinkedList.List`), packets and properties that survive the wire
and the store (`PacketIO.SendThenRestore`, `Codec.PropertiesRoundTrip`), queued commands that never overtake and are
never forgotten, with ids that never clash and a sliding window of buffered publishes (`AsyncQueue`), exactly when they
go out once, in order and as accepted across restarts and crashes too (`CommandRuns.RunExact`), and a lossless snapshot
log (`PumpLog`).

Where the code falls short of what it is meant to do, the model keeps the code and states exactly when it does not:

- `Crashes.CrashExact`: a receiver that stops while it handles a first QoS 2 PUBLISH in version 5 never delivers that
  message; one that stops while it handles a PUBREL in 3.1.1 delivers twice. All other places do no harm.
- `AtLeastOnce.AtLeastOnce`, `AtLeastOnce.LossReached`: a PUBACK for an earlier message with the same id makes the sender
  forget a QoS 1 message that was never delivered.
- `ExactOrder.OrderExact`, `Ordering.LateRetryLosesOrder`: a retry that stops short after reconnecting, because the socket
  filled up, lets the next publish call overtake what still has to be sent again.
- `Recovery.RecoversSendOrder`: an order that does not go upwards by less than one lap, or whose ids are very spread out,
  is not recovered.
- `Recovery.RestoreExact`, `Recovery.StrayPubrecBreaksRestore`, `Recovery.OldRecordsMisread`: a PUBREC for an unknown id
  makes a later restart wrong, and so does a PUBREL record that a version 5 client finds from its time as a 3.1.1 client.
- `MsgId.NeverEnds`: the search for an id does not end when none was assigned yet and all are taken.
- `KeepAlive.NeverActsExactly`: a ping put off by a busy socket may never be sent, nor the session closed. The comment on
  that branch expects a delay only. `KeepAlive.BusySender`: nor is one put off while the client itself keeps sending.
- `CommandRuns.RunExact`: stored commands are numbered, and the counter is reset at 1000000. Up to the first reset all is
  well (`CommandRuns.BeforeReset`). After it a restart may bring commands back in another order (`CommandRuns.ResetSwaps`),
  the next one then takes the number, and so the record, of one that is still queued and goes out in its place
  (`CommandRuns.ResetOverwrites`); without any restart, dispatching a connect clears the record with the number 0
  (`CommandRuns.ConnectErases`).
- `CommandRuns.WindowExact`, `CommandRuns.DispatchExact`: a crash between the two records of a publish that displaces
  another leaves one publish too many; one between taking out a command's record and storing its packet loses the command.
- `CommandCodec.TwoPassRestore`: a 3.1.1 UNSUBSCRIBE is lost from the store, and of a version 5 SUBSCRIBE to several
  topics the unused `opts`.
- `Base64.EncodeLengthExact`, `Base64.Encode`: the length overflows from 2^30 bytes on, and a buffer too small by whole
  groups is reported as success.
- `PumpLog.SnapshotsExact`: calls for a pump other than 1 or 2 write repeated snapshots (`PumpLog.StrayExample` is one).
  Pump ids come unchecked from messages.
- `PublishPacket.PublishRoundTrip`: a topic is cut at its first NUL.

`dafny verify dfyconfig.toml` checks the whole project.

## Model

| member | source | states |
|---|---|---|
| MsgId.AssignMsgId | lib/paho.mqtt.c-1.3.13/src/MQTTProtocolClient.c:86-106 | The search loop returns the specified id and ends, given a last id other than 0 or a free id (measure: cyclic distance to the last id). |
| MsgId.AssignSpec | lib/paho.mqtt.c-1.3.13/src/MQTTAsyncUtils.c:2728-2769 | The id is the first one cyclically after the last that is not in use, within 1..65535 and different from the last; it is 0 only if every id other than the last is in use. |
| MsgId.NeverEnds | lib/paho.mqtt.c-1.3.13/src/MQTTProtocolClient.c:92-103 | With a last id of 0 and every id in use, no candidate ever stops the loop. |
| Delivery.ExactlyOnce | lib/paho.mqtt.c-1.3.13/src/MQTTProtocolClient.c:354-423 | Over every run of publish calls, reads, retries, drops and restarts, with ids reused at will: each QoS 2 message is delivered at most once, unchanged, and exactly once when the sender no longer has its record. Both versions. |
| Delivery.StepKeepsInv | lib/paho.mqtt.c-1.3.13/src/MQTTProtocolClient.c:485-693 | Every step keeps the invariant: distinct outbound ids, genuine packets, the per-id handshake invariant with stale PUBREL, PUBREC and PUBCOMP in the channels, delivery accounts, stores mirroring the lists. |
| Delivery.RunInv | lib/paho.mqtt.c-1.3.13/src/MQTTProtocolClient.c:323-693 | The invariant holds in every state of every run that starts with two fresh sessions. |
| Delivery.PubReadInv | lib/paho.mqtt.c-1.3.13/src/MQTTProtocolClient.c:354-423 | Reading a QoS 2 PUBLISH, first or duplicate, keeps the per-id invariant. |
| Delivery.RelReadInv | lib/paho.mqtt.c-1.3.13/src/MQTTProtocolClient.c:565-633 | Reading a PUBREL, current or stale, keeps the per-id invariant. |
| Delivery.RecReadInv | lib/paho.mqtt.c-1.3.13/src/MQTTProtocolClient.c:485-556 | Taking a PUBREC keeps the per-id invariant. |
| Delivery.CompReadInv | lib/paho.mqtt.c-1.3.13/src/MQTTProtocolClient.c:642-693 | Taking a PUBCOMP leaves nothing of the message behind that could be taken for a later one with its id. |
| Delivery.RetryKeepsInv | lib/paho.mqtt.c-1.3.13/src/MQTTProtocolClient.c:815-858 | A retry pass over any due messages, in list order, keeps the invariant. |
| Delivery.CrashLosesNothing | lib/paho.mqtt.c-1.3.13/src/MQTTPersistence.c:185-368 | At any state of any run the stores mirror the in-flight lists, so a restarted sender has the same messages in the same handshake states, and the same order if and only if it goes upwards by less than one lap and no inner step beats the one that closes the circle. |
| Delivery.EventuallyDelivered | lib/paho.mqtt.c-1.3.13/src/MQTTProtocolClient.c:791-863 | No message gets stuck: from every reachable state some continuation empties the sender's list, after which every QoS 2 message published so far has been delivered exactly once. |
| Crashes.CrashExact | lib/paho.mqtt.c-1.3.13/src/MQTTProtocolClient.c:354-423 | After any run of whole handlers and harmless crashes, a crash of either side in the middle of a handler and its restart leave exactly-once delivery in every continuation if and only if it is not the receiver's crash inside a first QoS 2 PUBLISH in version 5 or inside a releasing PUBREL in 3.1.1. |
| Crashes.ExactlyOnceCrashing | lib/paho.mqtt.c-1.3.13/src/MQTTPacket.c:147-170 | Over every run with any number of such harmless crashes of either side each QoS 2 message is delivered at most once, and exactly once when its record is gone. |
| Crashes.HarmLasts | lib/paho.mqtt.c-1.3.13/src/MQTTProtocolClient.c:605-613 | After a harmful crash, in every continuation: in version 5 the message is never delivered; in 3.1.1 it is, and twice when its record is gone. |
| Crashes.HarmReached | lib/paho.mqtt.c-1.3.13/src/MQTTPacket.c:151-167 | A run of one message reaches such a crash, in either version. |
| Crashes.SenderCrashKeepsInv | lib/paho.mqtt.c-1.3.13/src/MQTTPersistence.c:562-586 | A sender that stops between removing the PUBLISH record and the PUBREL record of a completed message comes back without that message, and the invariant of all runs holds. |
| AtLeastOnce.AtLeastOnce | lib/paho.mqtt.c-1.3.13/src/MQTTProtocolClient.c:436-476 | At any QoS 1 publish call of any run: the message is sure to have been delivered by the time its record is gone, however the run goes on, if and only if no PUBACK for its id, and no PUBLISH that will be answered with one, is still under way. |
| AtLeastOnce.SafeStep | lib/paho.mqtt.c-1.3.13/src/MQTTProtocolClient.c:149-250 | Every step keeps a QoS 1 message delivered or guarded: on record, with nothing under way but its own PUBLISH that could get it acknowledged. |
| AtLeastOnce.StaleAckLoses | lib/paho.mqtt.c-1.3.13/src/MQTTProtocolClient.c:436-476 | Otherwise there is a continuation that ends with the record gone, both channels empty and the message never delivered. |
| AtLeastOnce.StaleAckReached | lib/paho.mqtt.c-1.3.13/src/MQTTProtocolClient.c:86-106 | A run from two fresh sessions, with a retry after the drop that stops short and never more than two messages in flight, gets to a publish call whose id is acknowledged by a PUBACK under way. |
| AtLeastOnce.LossReached | lib/paho.mqtt.c-1.3.13/src/MQTTProtocolClient.c:436-476 | So a run gets to a state with a QoS 1 message off the record, nothing under way, and the message never delivered. |
| ExactOrder.OrderExact | lib/paho.mqtt.c-1.3.13/src/MQTTProtocolClient.c:354-423 | In any state that a run reaches, in either version: while the connection holds QoS 2 messages go on being delivered in the order of their publish calls, whatever is published, read and resent, if and only if they were so far, nothing undelivered is older than something delivered, and what is undelivered is under way in line. In version 5 that is a PUBLISH behind those of all older ones; in 3.1.1 of two messages the older one is at least as far in the handshake and its packets are in front. |
| ExactOrder.Disordered | lib/paho.mqtt.c-1.3.13/src/MQTTProtocolClient.c:815-858 | From every other state that a run reaches some connected continuation delivers out of order. |
| ExactOrder.LateBreaks | lib/paho.mqtt.c-1.3.13/src/MQTTProtocolClient.c:485-693 | In either version reads and retries alone get any undelivered message delivered, behind whatever newer one was delivered already. |
| ExactOrder.NotLed | lib/paho.mqtt.c-1.3.13/src/MQTTProtocolClient.c:496-619 | In 3.1.1 a newer message whose PUBREL, PUBREC or PUBLISH is not behind that of an older one, or that is a stage further, can be delivered before it. |
| ExactOrder.RunRelAhead | lib/paho.mqtt.c-1.3.13/src/MQTTProtocolClient.c:496-549 | Over every 3.1.1 run nothing of an undelivered message that awaits PUBCOMP is under way without a PUBREL of it. |
| Ordering.ConnectedStep | lib/paho.mqtt.c-1.3.13/src/MQTTProtocolClient.c:149-250 | Every publish call, read and retry keeps that condition. |
| Ordering.InOrder | lib/paho.mqtt.c-1.3.13/src/MQTTAsyncUtils.c:1982-1992 | Over every version 5 run in which each drop or restart is followed by a full retry first, as both clients do when they are connected again, and each restarted sender found an order that recovery can tell, QoS 2 messages are delivered in the order of their publish calls. |
| Ordering.LateRetryLosesOrder | lib/paho.mqtt.c-1.3.13/src/MQTTProtocolClient.c:805-811 | A run: of two messages on record a retry after a drop sends the first and stops; a third is published; when the retry goes on the second message is delivered after the third. |
| OrderAtRelease.InOrder | lib/paho.mqtt.c-1.3.13/src/MQTTProtocolClient.c:565-633 | The same over every 3.1.1 run that reconnects like this, where a message is delivered at its PUBREL. |
| OrderAtRelease.ConnectedStep | lib/paho.mqtt.c-1.3.13/src/MQTTProtocolClient.c:485-633 | In 3.1.1 every publish call, read and retry keeps undelivered messages in line: of two the older one is at least as far in the handshake and its packets are in front. |
| Recovery.InsertKeepsSorted | lib/paho.mqtt.c-1.3.13/src/MQTTPersistence.c:414-428 | Inserting by id keeps the list sorted and adds exactly the new message. |
| Recovery.WrapSpec | lib/paho.mqtt.c-1.3.13/src/MQTTPersistence.c:618-655 | The result is a rotation of the list that starts right after a widest cyclic gap. |
| Recovery.RecoversSendOrder | lib/paho.mqtt.c-1.3.13/src/MQTTPersistence.c:618-655 | For every list of distinct ids, sorting and rotating gives back the send order if and only if it goes cyclically upwards by less than one lap and no inner step beats the step that closes the circle. |
| Recovery.OvertakenOrderLost | lib/paho.mqtt.c-1.3.13/src/MQTTPersistence.c:618-655 | An order that is lost and that assigning ids leads to: 1, 65535, 2, with 1 in flight all along. |
| Recovery.HalfWindowRecovers | lib/paho.mqtt.c-1.3.13/src/MQTTPersistence.c:618-655 | In particular whenever the ids span at most half of the id space. |
| Recovery.RestoreRebuilds | lib/paho.mqtt.c-1.3.13/src/MQTTPersistence.c:185-368 | For any key order, and records of either version that this client may read: exactly the in-flight messages come back, orphaned PUBREL records go, the rest of the store stays. |
| Recovery.RestoreExact | lib/paho.mqtt.c-1.3.13/src/MQTTPersistence.c:265-304 | With records of either version: the restored messages are those in flight if and only if a PUBREL record of the version that the client now speaks is there for each message awaiting PUBCOMP and for no other message in flight. |
| Recovery.RestoreMirrored | lib/paho.mqtt.c-1.3.13/src/MQTTPersistence.c:447-534 | Under the mirror invariant handshake states and store come back unchanged, and the order too if and only if it goes upwards by less than one lap and no inner step beats the closing one. |
| Recovery.VersionRefused | lib/paho.mqtt.c-1.3.13/src/MQTTPersistence.c:236-240 | Restoring fails if and only if a 3.1.1 client meets a version 5 record; it takes no such record out of the store, changes none and adds none. |
| Recovery.OldRecordsMisread | lib/paho.mqtt.c-1.3.13/src/MQTTPersistence.c:275-304 | A version 5 client on 3.1.1 records: a message awaiting PUBCOMP comes back awaiting PUBREC and its PUBREL record is removed. |
| Recovery.OrderOfKeysMatters | lib/paho.mqtt.c-1.3.13/src/MQTTPersistence.c:307-336 | With a 3.1.1 PUBLISH record and a version 5 PUBREL record the result depends on the order in which the store lists its keys. |
| Recovery.OldInboundLost | lib/paho.mqtt.c-1.3.13/src/MQTTPersistence.c:241-259 | A QoS 2 message received as a 3.1.1 client and not released yet is never delivered by the version 5 client that restores it. |
| Recovery.StrayPubrecBreaksRestore | lib/paho.mqtt.c-1.3.13/src/MQTTProtocolClient.c:496-549 | A PUBREC for an unknown id leaves a record behind that turns a later message with that id into one awaiting PUBCOMP after a restart. |
| ProtocolClient.Client.RemovePublication | lib/paho.mqtt.c-1.3.13/src/MQTTProtocolClient.c:295-313 | The count goes down by one; the publication leaves the registry exactly when it was the last reference. |
| ProtocolClient.Client.StoreQoS0 | lib/paho.mqtt.c-1.3.13/src/MQTTProtocolClient.c:109-138 | A publication still being written is registered once, owned by the pending writes. |
| ProtocolClient.Client.FinishWrite | lib/paho.mqtt.c-1.3.13/src/MQTTAsyncUtils.c:995-1015 | A finished write gives up its publication and nothing else. |
| ProtocolClient.Client.ReleaseFinished | lib/paho.mqtt.c-1.3.13/src/MQTTAsyncUtils.c:995-1015 | Going through the pending writes gives up exactly the publications of those whose socket has nothing more to write. |
| ProtocolClient.Client.StartPublish | lib/paho.mqtt.c-1.3.13/src/MQTTProtocolClient.c:149-250 | A publish is listed, stored and written as the session specification says; a QoS 0 write that is interrupted keeps its publication among the pending writes; ownership is kept. |
| ProtocolClient.Client.Publish | lib/paho.mqtt.c-1.3.13/src/MQTTClient.c:2338-2475 | Publishing blocks at the in-flight limit, fails without a free id, never takes the list above the limit, and otherwise starts the message under the assigned id. |
| ProtocolClient.Client.HandlePublish | lib/paho.mqtt.c-1.3.13/src/MQTTProtocolClient.c:323-427 | PUBLISH of each QoS, duplicates included, in both versions: the new state, deliveries and acknowledgement are those specified; ownership is kept. |
| ProtocolClient.Client.HandlePuback | lib/paho.mqtt.c-1.3.13/src/MQTTProtocolClient.c:436-476 | PUBACK drops the QoS 1 message with that id, if any, with its record and publication. |
| ProtocolClient.Client.HandlePubrec | lib/paho.mqtt.c-1.3.13/src/MQTTProtocolClient.c:485-556 | In version 5 an awaited PUBREC with a code of 128 or more takes the message out of the list and every record of its id but a received one out of the store, and nothing is written. Any other PUBREC, in 3.1.1 any at all, is answered with PUBREL for its id, whose record is stored; the awaited message then awaits PUBCOMP. Ownership is kept. |
| ProtocolClient.Client.HandlePubrel | lib/paho.mqtt.c-1.3.13/src/MQTTProtocolClient.c:565-633 | PUBREL releases and, in 3.1.1, delivers the message once, and is always answered; ownership is kept. |
| ProtocolClient.Client.HandlePubcomp | lib/paho.mqtt.c-1.3.13/src/MQTTProtocolClient.c:642-693 | PUBCOMP drops the message awaiting it, with both records and its publication. |
| ProtocolClient.Client.Retries | lib/paho.mqtt.c-1.3.13/src/MQTTProtocolClient.c:815-858 | The loop resends what the specification says, in list order, and leaves the lists alone. |
| ProtocolClient.Client.CleanSession | lib/paho.mqtt.c-1.3.13/src/MQTTClient.c:1127-1141 | Both lists and the store are empty and the last id is 0; every publication in the lists is given up, and pending writes stay owned. |
| ProtocolClient.Client.RestorePackets | lib/paho.mqtt.c-1.3.13/src/MQTTPersistence.c:185-368 | The loop over the keys rebuilds lists and store as specified; each restored message owns its publication. It fails exactly for a 3.1.1 client that meets a version 5 record; no such record goes then, and nothing is ever put into the store. |
| ProtocolClient.OutboundDropped | lib/paho.mqtt.c-1.3.13/src/MQTTProtocolClient.c:295-313 | Dropping an outbound message and its publication leaves the registry equal to the references. |
| ProtocolClient.InboundSwapped | lib/paho.mqtt.c-1.3.13/src/MQTTProtocolClient.c:377-385 | Replacing the publication of a duplicate QoS 2 message leaves the registry equal to the references. |
| Outgoing.LeavesExactly | lib/paho.mqtt.c-1.3.13/src/MQTTProtocolClient.c:436-693 | Over every run of publish calls, acknowledgements of any kind, id and reason code, retries and restarts: a listed message leaves the list at a step if and only if it takes the PUBACK for its QoS 1 id, the PUBCOMP it awaits, or in version 5 the PUBREC it awaits with a code of 128 or more; otherwise it stays with its id, QoS and content. |
| Outgoing.NextExactly | lib/paho.mqtt.c-1.3.13/src/MQTTProtocolClient.c:496-549 | In such a run only its own PUBREC makes a QoS 2 message await PUBCOMP; a restart goes by whether there is a PUBREL record of its id. |
| Outgoing.AnswersExactly | lib/paho.mqtt.c-1.3.13/src/MQTTProtocolClient.c:504-549 | Taking an acknowledgement writes nothing, but for a PUBREL with its id for every PUBREC, known or not, that is not such a refusal. |
| Outgoing.RefusedForGood | lib/paho.mqtt.c-1.3.13/src/MQTTProtocolClient.c:518-534 | After an awaited PUBREC with an error nothing is written, the id is free and has no record of either kind; in no later state of the run is anything of the message listed, stored or written again. |
| Outgoing.GoneForGood | lib/paho.mqtt.c-1.3.13/src/MQTTPersistence.c:562-586 | The same for whatever else has left the list, however the peer and the restarts go on. |
| Outgoing.FirstWithoutDup | lib/paho.mqtt.c-1.3.13/src/MQTTProtocolClient.c:815-828 | Over every such run a PUBLISH carries DUP if and only if one of the same message was written before, and is the message as it was published. |
| Outgoing.EachWritten | lib/paho.mqtt.c-1.3.13/src/MQTTProtocolClient.c:149-250 | Every message published is written. |
| Outgoing.StepKeepsInv | lib/paho.mqtt.c-1.3.13/src/MQTTProtocolClient.c:436-858 | Every step, whatever the peer sends, keeps: distinct ids, messages as published, the store with the PUBLISH of every listed message and no other, DUP flags. |
| LinkedList.List.AppendNoMalloc | lib/paho.mqtt.c-1.3.13/src/LinkedList.c:69-82 | The element becomes the last; next, prev, first, last and count still spell out one sequence. |
| LinkedList.List.Insert | lib/paho.mqtt.c-1.3.13/src/LinkedList.c:107-131 | The new element stands right before the given one, or at the end. |
| LinkedList.List.FindItem | lib/paho.mqtt.c-1.3.13/src/LinkedList.c:154-189 | With its cursor shortcut it finds an element exactly when one matches, and the first match of a linear search whenever the match is unique. |
| LinkedList.List.Unlink | lib/paho.mqtt.c-1.3.13/src/LinkedList.c:201-236 | Removes exactly one matching element; the cursor moves on only if it stood there. |
| LinkedList.List.DetachHead | lib/paho.mqtt.c-1.3.13/src/LinkedList.c:268-287 | Gives the first content and leaves the rest; the cursor stays inside the list. |
| LinkedList.List.PopTail | lib/paho.mqtt.c-1.3.13/src/LinkedList.c:306-325 | Gives the last content and leaves the rest; the cursor stays inside the list. |
| LinkedList.List.Empty | lib/paho.mqtt.c-1.3.13/src/LinkedList.c:359-375 | The list is empty and well formed. |
| LinkedList.List.NextElement | lib/paho.mqtt.c-1.3.13/src/LinkedList.c:411-415 | From null the first element of the sequence, from its k-th element the next one, and null after the last. |
| LinkedList.List.RotateTo | lib/paho.mqtt.c-1.3.13/src/MQTTPersistence.c:644-653 | Relinking around the wrap element rotates the contents. |
| LinkedList.TurnedLinks | lib/paho.mqtt.c-1.3.13/src/MQTTPersistence.c:644-653 | The links after the four assignments mirror the rotated sequence. |
| InFlightList.InsertInOrder | lib/paho.mqtt.c-1.3.13/src/MQTTPersistence.c:414-428 | On the linked list: the contents are those of the sorted insertion. |
| InFlightList.WrapElement | lib/paho.mqtt.c-1.3.13/src/MQTTPersistence.c:618-642 | The loop finds the element after the first widest gap, or none when no rotation is needed. |
| InFlightList.WrapMsgID | lib/paho.mqtt.c-1.3.13/src/MQTTPersistence.c:618-655 | On the linked list: the contents are rotated at the widest gap. |
| InFlightList.CheckPendingWrites | lib/paho.mqtt.c-1.3.13/src/MQTTAsyncUtils.c:995-1015 | Removing through the list's own cursor while iterating ends, and leaves exactly the entries with pending writes, in order, on their old elements. |
| Codec.VbiRoundTrip | lib/paho.mqtt.c-1.3.13/src/MQTTPacket.c:300-319 | Below 2^28 decoding undoes encoding, consumes exactly the bytes written, and their number is the one computed. |
| Codec.VbiSize | lib/paho.mqtt.c-1.3.13/src/MQTTPacket.c:1010-1023 | The computed length of a variable byte integer is the number of bytes the encoder writes. |
| Codec.VbiForm | lib/paho.mqtt.c-1.3.13/src/MQTTPacket.c:300-319 | The digits spelled out for each of the four lengths: low seven bits first, 128 added to all but the last. |
| Codec.PropertyRoundTrip | lib/paho.mqtt.c-1.3.13/src/MQTTProperties.c:165-297 | Every property with a known id and fields in range reads back equal, leaving what follows it. |
| Codec.PropertyForm | lib/paho.mqtt.c-1.3.13/src/MQTTProperties.c:28-61 | For each identifier of section 2.2.2.2 of MQTT 5.0, and no other, the bytes a property takes: one, two or four high byte first, a variable byte integer, data or a string with its length, or two of these. |
| Codec.PropertiesRoundTrip | lib/paho.mqtt.c-1.3.13/src/MQTTProperties.c:208-344 | A property list reads back equal, and reading stops exactly at its end. |
| Codec.AcceptedExactly | lib/paho.mqtt.c-1.3.13/src/MQTTProperties.c:300-344 | In a buffer of less than 2^32 bytes a property list is accepted only if its properties are in range and take exactly the length that stands before them. |
| Codec.LenStringRoundTrip | lib/paho.mqtt.c-1.3.13/src/MQTTPacket.c:974-998 | A length-prefixed string reads back equal, leaving what follows it. |
| Writers.WriteInt4 | lib/paho.mqtt.c-1.3.13/src/MQTTPacket.c:945-958 | Four bytes, highest first, and nothing else in the buffer changes. |
| Writers.Encode | lib/paho.mqtt.c-1.3.13/src/MQTTPacket.c:300-319 | The loop writes (or only counts) exactly the variable byte integer. |
| Properties.PropertyList.Add | lib/paho.mqtt.c-1.3.13/src/MQTTProperties.c:102-158 | A known property is appended, the array growing as needed, and the length kept is that of the serialized list; an unknown id changes nothing. |
| Properties.PropertyList.Len | lib/paho.mqtt.c-1.3.13/src/MQTTProperties.c:89-93 | The length is the size of what is written, its own length field included. |
| Properties.PropertyList.Write | lib/paho.mqtt.c-1.3.13/src/MQTTProperties.c:208-232 | The position advances by exactly that length over exactly those bytes. |
| Properties.PropertyList.Copy | lib/paho.mqtt.c-1.3.13/src/MQTTProperties.c:428-444 | A new list with the same properties and length, hence the same serialization. |
| Properties.PropertyList.Read | lib/paho.mqtt.c-1.3.13/src/MQTTProperties.c:300-344 | The loop gives the list and position of the specified reading; on failure the list is empty again. |
| Properties.DecodeVbi | lib/paho.mqtt.c-1.3.13/src/MQTTPacket.c:1032-1076 | The decoding loop gives the specified value and number of bytes, the overlong case included. |
| PublishPacket.HeaderBits | lib/paho.mqtt.c-1.3.13/src/MQTTPacket.c:866-869 | Type, dup, QoS and retain come back from the header byte. |
| PublishPacket.ParsesBody | lib/paho.mqtt.c-1.3.13/src/MQTTPacket.c:556-605 | Parsing a serialized body gives topic, id, properties and payload back. |
| PublishPacket.PublishRoundTrip | lib/paho.mqtt.c-1.3.13/src/MQTTPacket.c:855-918 | Serialize, store, restore and parse gives every field back, in both versions; the topic comes back whole if and only if it holds no NUL. |
| PublishPacket.Spelled | lib/paho.mqtt.c-1.3.13/src/MQTTPacket.c:855-918 | The serialized packet, byte by byte up to properties and payload. |
| PublishPacket.AckParsed | lib/paho.mqtt.c-1.3.13/src/MQTTPacket.c:794-842 | An acknowledgement gives its id and, in version 5, the reason code behind it, 0 if left out, with properties or without. |
| PublishPacket.PubrelRoundTrip | lib/paho.mqtt.c-1.3.13/src/MQTTPacket.c:647-668 | A PUBREL is stored as the bytes 98, 2 and its id high byte first, and restored with its id. |
| PublishPacket.FramedRestore | lib/paho.mqtt.c-1.3.13/src/MQTTPersistence.c:376-405 | Restoring undoes the frame of header byte and remaining length. |
| PacketIO.Sends | lib/paho.mqtt.c-1.3.13/src/MQTTPacket.c:253-291 | The bytes written are header, remaining length and all buffers; a PUBLISH with a QoS is stored under the id its third buffer starts with. |
| PacketIO.SendPublish | lib/paho.mqtt.c-1.3.13/src/MQTTPacket.c:855-918 | The bytes written: 48 plus 8 for DUP, twice the QoS and 1 for retain; the remaining length; then the topic up to a NUL with its length, for a QoS above 0 the id, in version 5 the properties, and the payload, numbers high byte first. What is stored is the same, under the packet's own id, exactly for a QoS above 0. |
| PacketIO.Restore | lib/paho.mqtt.c-1.3.13/src/MQTTPersistence.c:376-405 | The remaining-length loop and the dispatch give the specified packet. |
| PacketIO.SendThenRestore | lib/paho.mqtt.c-1.3.13/src/MQTTPersistence.c:447-534 | What is sent with a QoS above 0 and found again in the store is the packet that was sent. |
| AsyncQueue.CommandQueue.Select | lib/paho.mqtt.c-1.3.13/src/MQTTAsyncUtils.c:1202-1239 | The chosen command is the first of its client and ready, and no earlier client's first command is; none is chosen only if every client's first command is blocked. |
| AsyncQueue.CommandQueue.ProcessCommand | lib/paho.mqtt.c-1.3.13/src/MQTTAsyncUtils.c:1191-1589 | Exactly the chosen command leaves the queue, and but for connects and disconnects only on an idle connection. A subscribe, an unsubscribe or a publish with a QoS is then awaited unless its write failed: it is the last of the client's responses and its id is held. A QoS 0 publish is kept only while its write is interrupted. A dispatch never takes the in-flight messages above their limit; order, window, ids and the account of dispatched commands are kept. |
| AsyncQueue.CommandQueue.AddCommand | lib/paho.mqtt.c-1.3.13/src/MQTTAsyncUtils.c:787-904 | Urgent commands go to the head, or are ignored exactly when the head is already a connect or disconnect of that client; all others are accepted at the end. |
| AsyncQueue.CommandQueue.Append | lib/paho.mqtt.c-1.3.13/src/MQTTAsyncUtils.c:829-903 | A publish into a full buffer takes the place of the client's oldest queued publish; order, window and id invariants are kept. |
| AsyncQueue.CommandQueue.Send | lib/paho.mqtt.c-1.3.13/src/MQTTAsync.c:1198-1284 | Every return code exactly when the documentation says; a refused send changes nothing but the last id, and that only when the id had been assigned before the refusal; only deleteOldestMessages ever evicts. |
| AsyncQueue.CommandQueue.AssignMsgId | lib/paho.mqtt.c-1.3.13/src/MQTTAsyncUtils.c:2728-2769 | The id given out is that of the specified search, and is not that of any queued command, of any of the client's in-flight messages or of any command that still awaits its acknowledgement. |
| AsyncQueue.CommandQueue.Request | lib/paho.mqtt.c-1.3.13/src/MQTTAsync.c:983-1097 | Subscribing and unsubscribing: return codes, the command queued under the assigned id, and the last id after a refusal. |
| AsyncQueue.CommandQueue.Acknowledge | lib/paho.mqtt.c-1.3.13/src/MQTTAsyncUtils.c:3051-3152 | An acknowledgement takes at most one in-flight message and one awaited response, both with its id; just the awaited commands of that client and id count as acknowledged; ids stay distinct. |
| AsyncQueue.CommandQueue.NeverForgotten | lib/paho.mqtt.c-1.3.13/src/MQTTAsyncUtils.c:1523-1589 | In every valid state an accepted subscribe, unsubscribe or publish with a QoS is queued, was displaced, or went out and is awaiting, acknowledged, not written or dropped with the session; while it awaits, it is among its client's responses and its id is held. |
| AsyncQueue.CommandQueue.CleanSession | lib/paho.mqtt.c-1.3.13/src/MQTTAsyncUtils.c:2515-2537 | In-flight messages, responses and the last id are reset; queued commands stay, and ids stay distinct. |
| AsyncQueue.HeldMove | lib/paho.mqtt.c-1.3.13/src/MQTTAsyncUtils.c:1513-1589 | The id of a dispatched command becomes one that its client holds, still distinct from all others it holds. |
| CommandStore.StepKeepsInv | lib/paho.mqtt.c-1.3.13/src/MQTTAsyncUtils.c:377-411 | Every step of a client's queue that is safe (accepting with or without displacing, an urgent command, a dispatch, a restart, a crash in the middle of accepting or dispatching) keeps: counter and numbers in step, the records exactly those of the stored commands in the queue, each accepted command with one fate, and what went out gone out once and as accepted. |
| CommandStore.SafeExact | lib/paho.mqtt.c-1.3.13/src/MQTTAsyncUtils.c:226-246 | After any step each waiting command is in the queue, with a record of its own if it was stored, if and only if the number the step writes is that of no record, and it takes out no unnumbered command while there is a record with the number 0. |
| CommandStore.Persistence.PersistCommand | lib/paho.mqtt.c-1.3.13/src/MQTTAsyncUtils.c:373-411 | For every command but a connect, an internal disconnect and a QoS 0 publish under persistQoS0 off the counter goes up by one, from 999999 to 0; requests and publishes get their record under it, a disconnect none. |
| CommandStore.Persistence.UnpersistCommand | lib/paho.mqtt.c-1.3.13/src/MQTTAsyncUtils.c:226-246 | The record under the command's number goes, whosesoever it is. |
| CommandRuns.RunExact | lib/paho.mqtt.c-1.3.13/src/MQTTAsyncUtils.c:787-904 | Over every run of accepted commands, dispatches, restarts and crashes: in all states every waiting command has what it needs and nothing has overtaken or will overtake anything, if and only if every step is safe and every restart finds numbers that go up along the queue. |
| CommandRuns.SentAsAccepted | lib/paho.mqtt.c-1.3.13/src/MQTTAsyncUtils.c:1240-1272 | In such a run what went out went out once, in the order and with the contents accepted, across all restarts; with nothing displaced, unstored, deleted or cut short an emptied queue has sent everything. |
| CommandRuns.RequestsSurvive | lib/paho.mqtt.c-1.3.13/src/MQTTAsyncUtils.c:834-841 | Over every run of safe steps a waiting subscribe, unsubscribe, publish with QoS 1 or 2, or one with QoS 0 under persistQoS0, has its record and is queued as it was accepted after the next restart. |
| CommandRuns.NotStoredExactly | lib/paho.mqtt.c-1.3.13/src/MQTTAsyncUtils.c:834-841 | And only a disconnect of the application or a QoS 0 publish under persistQoS0 off ends without a record at a restart; none of these ever has one. |
| CommandRuns.BeforeReset | lib/paho.mqtt.c-1.3.13/src/MQTTAsyncUtils.c:377-378 | As long as the counter is not reset every step is safe and every restart finds numbers that go up. |
| CommandRuns.RestoreExact | lib/paho.mqtt.c-1.3.13/src/MQTTAsyncUtils.c:609-668 | A restart brings the stored commands back just as they were queued if and only if their numbers go up. |
| CommandRuns.RisesExact | lib/paho.mqtt.c-1.3.13/src/MQTTAsyncUtils.c:377-378 | Within one lap of numbers they go up if and only if the counter was not reset between two of them. |
| CommandRuns.ClashExact | lib/paho.mqtt.c-1.3.13/src/MQTTAsyncUtils.c:394-411 | Within one lap a new record overwrites another if and only if the command numbered exactly 1000000 earlier is still queued. |
| CommandRuns.StepOrderExact | lib/paho.mqtt.c-1.3.13/src/MQTTAsyncUtils.c:609-668 | A safe step keeps everything in accepted order if and only if, where it restarts the client, the numbers go up. |
| CommandRuns.ResetSwaps | lib/paho.mqtt.c-1.3.13/src/MQTTAsyncUtils.c:373-411 | A run: two commands get the numbers 999999 and 0, and a restart brings them back in the other order. |
| CommandRuns.ResetOverwrites | lib/paho.mqtt.c-1.3.13/src/MQTTAsyncUtils.c:666-666 | That run goes on: the counter stands at 999999 again, the next command is stored under 0, goes out in place of the command it overwrote, and finds nothing when its own turn comes. |
| CommandRuns.ConnectErases | lib/paho.mqtt.c-1.3.13/src/MQTTAsyncUtils.c:1248-1270 | A run without a restart: a publish numbered 0 is queued, a connect is dispatched before it and clears its record, and the publish goes out without contents. |
| CommandRuns.WindowExact | lib/paho.mqtt.c-1.3.13/src/MQTTAsyncUtils.c:829-899 | A crash while a publish is accepted leaves more publishes than the create options allow if and only if it comes between the two records and the window was full of stored ones. |
| CommandRuns.DispatchExact | lib/paho.mqtt.c-1.3.13/src/MQTTAsyncUtils.c:1244-1272 | A crash while a stored command is dispatched loses it if and only if it comes after its record went and before its packet is stored or sent; no such crash brings a sent command back or touches another. |
| CommandRestore.AddFollows | lib/paho.mqtt.c-1.3.13/src/MQTTAsyncUtils.c:829-899 | What adding a command leaves in the shared queue is, for its client, the step Add on its numbered commands. |
| CommandRestore.RecordedExactly | lib/paho.mqtt.c-1.3.13/src/MQTTAsyncUtils.c:836-841 | The command added is the client's last and has a record exactly if it is a request, a publish with QoS 1 or 2, or one with QoS 0 whose client has no create options, ones of version 0 or 1, or persistQoS0 on. |
| CommandRestore.UrgeFollows | lib/paho.mqtt.c-1.3.13/src/MQTTAsyncUtils.c:797-827 | An urgent command at the head of the shared queue is, for its client, the step Urge. |
| CommandRestore.DispatchFollows | lib/paho.mqtt.c-1.3.13/src/MQTTAsyncUtils.c:1202-1272 | What a dispatch takes from the shared queue is its client's first numbered command, and what it reads from the store is the command that was accepted. |
| CommandRestore.Restart | lib/paho.mqtt.c-1.3.13/src/MQTTAsync.c:452-468 | Across a restart of the process with all clients created again in any order: each client has the commands that sorting its records by number gives, or, created with restoreMessages off in options of version 2 or later, none and an empty store; and its counter. Order, window and id invariants of the shared queue hold again. |
| CommandRestore.RestoreCommands | lib/paho.mqtt.c-1.3.13/src/MQTTAsyncUtils.c:618-684 | One client's records are appended by number and counted, and the counter is raised to the greatest; all invariants are kept. |
| CommandRestore.RestoredFromQueue | lib/paho.mqtt.c-1.3.13/src/MQTTAsyncUtils.c:609-668 | What all clients restore together was in the queue, nothing more often than there. |
| AsyncQueue.KeptAppend | lib/paho.mqtt.c-1.3.13/src/MQTTAsyncUtils.c:829-831 | Accepting a command keeps the log: accepted order, no overtaking, everything accounted for once. |
| AsyncQueue.KeptDispatch | lib/paho.mqtt.c-1.3.13/src/MQTTAsyncUtils.c:1240-1245 | Dispatching a client's first command keeps the log: each client's commands go out in the order accepted. |
| AsyncQueue.KeptEvict | lib/paho.mqtt.c-1.3.13/src/MQTTAsyncUtils.c:875-899 | Evicting a client's first publish keeps the log: none newer than a queued one is ever evicted. |
| AsyncQueue.SentAsAccepted | lib/paho.mqtt.c-1.3.13/src/MQTTAsyncUtils.c:1191-1245 | When a client has nothing queued and nothing was evicted, its commands have gone out exactly as accepted: all, once, in order. |
| AsyncQueue.WindowedAppend | lib/paho.mqtt.c-1.3.13/src/MQTTAsyncUtils.c:901-902 | The counter equals the queued publishes, which are the newest accepted ones in order and within the limit, after an accepted send. |
| AsyncQueue.WindowedSlide | lib/paho.mqtt.c-1.3.13/src/MQTTAsyncUtils.c:873-899 | The same when the window is full and slides by one. |
| AsyncQueue.WindowedWithout | lib/paho.mqtt.c-1.3.13/src/MQTTAsyncUtils.c:1242-1244 | The same after a dispatch. |
| KeepAlive.Keepalive | lib/paho.mqtt.c-1.3.13/src/MQTTProtocolClient.c:700-782 | Every client of the list is checked exactly once, with the specified effect; one with an interval of 0 or not connected is left as it is. |
| KeepAlive.KeepaliveOf | lib/paho.mqtt.c-1.3.13/src/MQTTProtocolClient.c:712-779 | The branches for one client have the specified effect; a ping goes out only after a whole interval without sending or without receiving. |
| KeepAlive.StepKeepsWatch | lib/paho.mqtt.c-1.3.13/src/MQTTProtocolClient.c:700-782 | Every step of a connection keeps the bound on when the last ping went out and how long it has waited. |
| KeepAlive.SilentServerClosed | lib/paho.mqtt.c-1.3.13/src/MQTTProtocolClient.c:700-782 | On a writable socket, with keepalive at most a gap apart: a live connection has received something within 2.5 intervals and two gaps; at most one ping is unanswered. |
| KeepAlive.SilentLinkClosed | lib/paho.mqtt.c-1.3.13/src/MQTTProtocolClient.c:700-782 | However busy the socket is: a live connection has sent or received something within 2.5 intervals and two gaps, unless something was received after a ping was put off. |
| KeepAlive.BusySender | lib/paho.mqtt.c-1.3.13/src/MQTTProtocolClient.c:736-766 | A client that keeps sending on a socket that is busy at every call stays connected, with no ping put off, for as long as nothing is received. |
| KeepAlive.ClosedOnlyInSilence | lib/paho.mqtt.c-1.3.13/src/MQTTProtocolClient.c:715-723 | A session is closed only if nothing was received for one and a half intervals, or a ping could not be written completely. |
| KeepAlive.SwitchedOff | lib/paho.mqtt.c-1.3.13/src/MQTTProtocolClient.c:711-711 | With an interval of 0 no run of calls and traffic ever pings or closes the connection. |
| KeepAlive.NeverActsExactly | lib/paho.mqtt.c-1.3.13/src/MQTTProtocolClient.c:724-735 | No later call, whatever the socket does, ever pings or closes, if and only if a ping is due, something was received since it was noted, and the time at which it would be overdue has passed or comes before the client is idle again. |
| KeepAlive.StuckStays | lib/paho.mqtt.c-1.3.13/src/MQTTProtocolClient.c:724-735 | Nor does further traffic get such a session out of that state. |
| KeepAlive.StuckReached | lib/paho.mqtt.c-1.3.13/src/MQTTProtocolClient.c:752-758 | Such a state is reached: a busy socket at one call, and traffic before the next. |
| KeepAlive.Client.HandlePingresp | lib/paho.mqtt.c-1.3.13/src/MQTTProtocolOut.c:366-377 | Only the outstanding flag is cleared. |
| CommandCodec.PersistCommand | lib/paho.mqtt.c-1.3.13/src/MQTTAsyncUtils.c:249-422 | The loops fill exactly the buffers allotted, and together they are the record of the command, in both layouts. |
| CommandCodec.RestoreCommand | lib/paho.mqtt.c-1.3.13/src/MQTTAsyncUtils.c:425-606 | The loops over the record give the specified command or failure, in both passes. |
| CommandCodec.Layout | lib/paho.mqtt.c-1.3.13/src/MQTTAsyncUtils.c:265-372 | The fields of a record in their order: type 3, 8 or 10, token, then topic, payload length, payload, QoS and retained flag, or the number of topics and for a single one the topic, for a SUBSCRIBE its QoS and in version 5 its options; properties last. |
| CommandCodec.TwoPassRestore | lib/paho.mqtt.c-1.3.13/src/MQTTAsyncUtils.c:425-606 | For every command as the library builds it. First pass: type, token and what scheduling needs. Second pass: the whole command but for an opts that several topics leave unused; it fails exactly for a 3.1.1 UNSUBSCRIBE with topics, and gives the original back if and only if neither applies. |
| CommandCodec.SubsRoundTrip | lib/paho.mqtt.c-1.3.13/src/MQTTAsyncUtils.c:487-518 | Any number of subscriptions read back equal, one with its options in opts, several in optlist, whatever opts then held. |
| CommandCodec.RestoredSubscribesAlike | lib/paho.mqtt.c-1.3.13/src/MQTTAsyncUtils.c:1376-1384 | A restored SUBSCRIBE asks for the same topics, QoS and options as the original. |
| CommandCodec.InitializerNotRestored | lib/paho.mqtt.c-1.3.13/src/MQTTAsync.c:1052-1071 | Two subscriptions built with the standard initializer come back equal except for opts. |
| CommandCodec.TopicRead | lib/paho.mqtt.c-1.3.13/src/MQTTAsyncUtils.c:489-496 | A topic is read back unless its NUL is the last byte of the record. |
| CommandCodec.Le4RoundTrip | lib/paho.mqtt.c-1.3.13/src/MQTTAsyncUtils.c:454-457 | A stored 32-bit integer reads back, negative ones included. |
| Base64.Encode | lib/paho.mqtt.c-1.3.13/src/Base64.c:179-235 | The loop writes the RFC 4648 encoding; with too little room it gives 0, except that room for whole groups is filled and counted as success. |
| Base64.Decode | lib/paho.mqtt.c-1.3.13/src/Base64.c:100-177 | The loop writes the specified bytes for any letters and any room, with a NUL if there is room for it. |
| Base64.GroupLetters | lib/paho.mqtt.c-1.3.13/src/Base64.c:193-219 | The bits the encoder picks are the four base-64 digits of the 24-bit group. |
| Base64.Alphabet | lib/paho.mqtt.c-1.3.13/src/Base64.c:179-184 | The alphabet of RFC 4648 by character codes, and the decoding table as its inverse. |
| Base64.DecodeEncode | lib/paho.mqtt.c-1.3.13/src/Base64.c:100-253 | Decoding undoes encoding for every byte string, into any buffer with room for it. |
| Base64.EncodeLengthExact | lib/paho.mqtt.c-1.3.13/src/Base64.c:250-253 | encodeLength is the size of the encoding if and only if four times the length fits in 32 bits. |
| Base64.DecodeLengthExact | lib/paho.mqtt.c-1.3.13/src/Base64.c:239-248 | decodeLength of an encoding is the original size. |
| PumpLog.PumpServer.UpdatePumpStatus | src/shared.c:29-69 | Pump 1 or 2 has the commanded state, and nothing else changes; a row with it goes into ring and table exactly if the state differs from that pump's, for other pumps from pump 2's. Status, ring and table are those the sequence of calls means. |
| PumpLog.PumpServer.UpdatePumpFeedback | src/shared.c:71-116 | Pump 1 or 2 has the reported status, 0 if that is not in 0..3, and nothing else changes; a row goes into the table exactly on such a difference. Status and table are those the sequence of calls means. |
| PumpLog.PumpServer.UpdateSystemStatus | src/shared.c:169-208 | busy and alarm are the arguments and nothing else changes; a row goes into the table exactly if one of them differs. Status and table are those the sequence of calls means. |
| PumpLog.PumpServer.AddPumpHistory | src/shared.c:16-27 | The ring holds the last min(n, 100) command changes, in order. |
| PumpLog.SnapshotsLossless | src/shared.c:29-69 | Without repetitions, the snapshots are the states the system went through: none is lost. |
| PumpLog.SnapshotCount | src/shared.c:71-116 | There is one snapshot too many for each call for a pump that does not exist and whose value differs from pump 2. |
| PumpLog.SnapshotsExact | src/shared.c:29-116 | Consecutive snapshots differ, and the table is exactly the list of changes, if and only if there was no such call. |
| PumpLog.LastSnapshot | src/shared.c:51-57 | The last snapshot is the current state, in every run. |
| PumpLog.LastCommand | src/shared.c:29-49 | Over every sequence of calls the commanded state of a pump is the argument of the last command for it. |
| PumpLog.LastFeedback | src/shared.c:71-98 | The reported status of a pump is that of the last feedback for it, 0 if that was not in 0..3. |
| PumpLog.LastSystem | src/shared.c:169-185 | busy and alarm are those of the last system call. |
| PumpLog.HoldsPush | src/shared.c:19-24 | Writing at the index and advancing it modulo 100 keeps the ring's meaning. |
| HistoryPrinter.RowWidth | src/db.c:217-223 | A row is at most 167 characters, 168 with its comma, and holds no NUL. |
| HistoryPrinter.RowSpelled | src/db.c:217-223 | A row has the seven keys in their order, each with its own value. |
| HistoryPrinter.PrintRows | src/db.c:209-228 | The loop never cuts a row; it stops exactly when the rows end or fewer than 201 characters remain. |
| HistoryPrinter.GetHistoryFiltered | src/db.c:160-235 | 0 exactly when the query succeeds, else -1 and the error text; a large enough caller's buffer holds the whole reply. |
| HistoryPrinter.HandlePumpHistory | src/http_api.c:124-148 | The limit is the one asked for, 5000 at most and 1000 for none; for any limit the 512000-byte buffer suffices; the reply reads back as a prefix of the rows with their number, within the limit, and all of them when they or the limit are no more than 2437. |
| HistoryPrinter.ReplyRoundTrip | src/db.c:231-231 | The reply is a well-formed list: a reader gets the rows and their number back. |
| HistoryPrinter.DecRoundTrip | src/db.c:218-223 | A printed number reads back, negative ones included. |
| HistoryPrinter.PrintedAll | src/db.c:216-228 | 2437 rows or fewer are always complete. |

## Left out

- ProtocolClient.Client.Publish: takes as given that an id was assigned before or one is free, because otherwise the loop of the source does not end. The checks of handle, connection and topic, and the turns of the waiting loops, are left out; Blocked stands for one more turn.
- InFlightList.CheckPendingWrites: works on the list alone; giving up the publications is ProtocolClient.Client.ReleaseFinished.
- ProtocolClient.Client.RemovePublication: works on a multiset, so the order of the registry list is not modelled; nothing depends on it.
- ProtocolClient.Client.Retries: resends any subset of the list in order; the counters connect_sent and connect_count, the first of which is never reset, and the retry times decide which subset.
- Delivery.ExactlyOnce: sockets are writable and store operations succeed; acknowledgements queued on a busy socket may be dropped or reordered and are not part of it. The far end is a client running the same handlers, in the same version.
- Delivery.ExactlyOnce: handlers are atomic there; Crashes.CrashExact is about crashes inside them.
- Delivery.EventuallyDelivered: says that a continuation exists, not that every schedule finds it.
- Outgoing.LeavesExactly: and the other properties of that module, the client's inbound side, which shares neither list nor records with the outbound one; crashes inside a handler.
- AtLeastOnce.AtLeastOnce: and the properties of order, as for Delivery.ExactlyOnce. The order of first QoS 1 deliveries is left out.
- Crashes.CrashExact: a store operation takes effect as a whole or not at all; what was handed to the application before the crash counts as delivered.
- Recovery.RestoreRebuilds: says nothing of stores with both versions of one record, with a PUBREL record of another version than the PUBLISH record beside it (see Recovery.OrderOfKeysMatters) or with records that are no packets, which the loop removes.
- Recovery.RestoreMirrored: an inbound version 5 message comes back without its body, which was delivered before (but see Crashes.CrashExact).
- PublishPacket.PublishRoundTrip: lengths of 2^31 and more, where the int of the source overflows.
- Properties.PropertyList.Read: buffers whose fields run past their end, where the source reads on; the return value of the write function, which counts one length byte always.
- PacketIO.Restore: gives no packet for types other than PUBLISH and PUBREL, which are never stored.
- CommandCodec.RestoreCommand: records whose topic has no NUL or whose payload length is negative, where the source reads past the record.
- AsyncQueue.CommandQueue.AddCommand: only the head of the queue is searched for a duplicate, as in the source, so "at most one connect per client" is not claimed.
- AsyncQueue.CommandQueue.Send: takes as given that the search for an id ends, as ProtocolClient.Client.Publish does; its queue holds whole commands, where the source reads a stored publish back from its record (CommandStore.SafeExact and CommandRestore.DispatchFollows say when that is the same).
- CommandStore.StepKeepsInv: a client with a store whose operations succeed and that speaks one version, so that keys differ by number alone; records that do not restore (CommandCodec.TwoPassRestore) and create options that differ after a restart are left out.
- CommandRuns.WindowExact: and CommandRuns.DispatchExact, a crash within one client's operation; the packet store is Recovery's.
- AsyncQueue.CommandQueue.Request: takes the result of looking at topics and QoS as a parameter.
- AsyncQueue.CommandQueue.Acknowledge: is told whether the in-flight message goes; the handshake of QoS 2 is Session's.
- KeepAlive.SilentServerClosed: assumes a writable socket, so that no ping is put off (KeepAlive.SilentLinkClosed does not), and that a PINGRESP answers a ping.
- LinkedList.List.Unlink: does not model the byte count `size`, which the source never reduces here.
- Base64.Decode: characters above 127, whose table index is negative where char is signed.
- PumpLog.PumpServer.UpdatePumpStatus: inserts into the table succeed, calls do not interleave.
- HistoryPrinter.GetHistoryFiltered: the query itself; its rows are a parameter.
- Sockets, TLS, WebSocket framing, threads, locks, clocks and failing allocation: channels, a time parameter and flags stand for them.
- The last-touch time of messages, tracing, callbacks, reason strings, will messages and CONNECT.
- The file-system store, the queue of arrived messages in the store, heap tracking, logging, SQLite and the HTTP library.
- The gateway heartbeat: one more change test with nothing that spans operations.
- The web page.
