# KubeEdge, verified parts

Dafny models of the parts of KubeEdge in which several actors, or several pictures of the same
thing, have to stay in step, with proofs of what they promise.

**Reliable delivery** (`Messages`, `Versions`, `WorkQueue`, `Delivery`, `DeliverySafety`,
`DeliveryOrder`, `DeliveryRecords`, `DeliveryDecisions`, `QueueOrder`, `DeliveryLimits`, `Reconcile`,
`Underway`, `Convergence`, `ConvergenceResults`, `EdgeHolds`, `Progress`, `PassCompletion`,
`PassLimits`, `CloudHub`, `EdgeMeta`).  CloudHub keeps, per edge node, a message store keyed by object
UID, a work queue, a sender that retries, a cache of awaited acknowledgements, and a version record per
object; the edge persists a message before it acknowledges it, and takes an answer only
while the request it answers waits; a reconcile loop compares records with the cluster.  `Delivery` is
a transition system with twenty-four steps, which interleave freely: the enqueuer decides, adds to the
store and adds to the queue in three steps; the sender takes a key, transmits, retransmits, times out,
sees the acknowledgement, saves and calls Done; packets and acknowledgements are lost and late;
requests give up; sessions end and are replaced at any point, and a replaced session may still save.
The theorems hold of every reachable state or every run.  `CloudHub` is the imperative code of the
cloud, proved against the functions the transition system is made of; `EdgeMeta` is that of the edge,
each call of which is proved to be a run of the edge's steps.

**Controllers with two pictures of one thing** (`DeviceModels`, `NodeGroup`, `Listeners`,
`TunnelPorts`, `NodeJobs`, `SessionManager`).

**Codecs and multiplexing** (`TunnelCodec`, `Addressing`, `StreamSession`).

`dafny verify dfyconfig.toml` verifies the project.

## What the code does not promise

Each of these is a lemma with a concrete run or input, next to a lemma that says when the promise is
kept.

- An acknowledged delete removes whatever is stored under its UID.  If a Response for the object came
  in while the delete was in flight, that pending message is lost
  (`AcknowledgedDeleteDropsPendingMessage`, `UnstoreLosesPendingIff`).
- A versioned message that comes while the store still holds a delete of its object is dropped, and
  nothing sends it again: the acknowledged delete takes store entry and record away, and reconcile goes
  by the records (`InsertBehindDeleteIsLost`, `LostBehindDeleteIff`, `LeavingForGood`).  That is how a
  device model can be missing on a node to which its device has moved back
  (`MovingBackSendsDeleteThenInsert`).
- A Response whose request has given up, or whose acknowledgement is lost, is sent for ever and never
  acknowledged (`AnswerTooLate`, `AnswerUnheard`, `PendingCanBeDeliveredIff`).
- A session that was replaced can save an acknowledgement after its successor has recorded a newer
  version, or before its successor records an older one; either lowers the record
  (`LateSaveLowersRecord`, `SaveAfterLateSaveLowersRecord`, `RecordNeverFalls`).  The store then blocks
  every update that reconcile sends (`LateSaveBlocksReconcile`); a pass converges if and only if no
  record is blocked (`ReconcileConvergesIff`, `NextPassIdleIff`).
- With a delete of an existing object in flight, the outcome of a reconcile pass depends on the
  interleaving (`DeleteInFlightRaces`); while the removal of a record is failing, a pass can leave an
  orphan behind (`FailedRemovalKeepsOrphan`).  In all other states the outcome is determined
  (`PassOutcome`).
- A record that was created but whose status was never written swallows every versioned message for
  its object, until a forced message comes (`FailedStatusNeglects`, `NeglectedForGood`).
- Two overlapping connects of one node can leave the registered session with a pool that nobody fills:
  when their sessions are not added in the order of their pools
  (`OverlappingConnectsStrandASession`, `FilledPoolIff`).
- If an address comes back with another port between two reconciles, its old NAT rule stays for good
  (`StaleRuleRun`, `ChainRefinesRecordIff`); live ports are routed correctly all the same
  (`LivePortsAreRouted`).
- The failure rate of a job is rounded twice, so the half-hundredth bound of Failure can break, but
  only from 10^14 nodes on (`FailureBoundBroken`, `FailureBoundIff`, `FailureBound`).
- A job whose tolerance is "NaN" or "Inf" panics on every status calculation once a node has failed,
  and never ends (`NaNJobIsStuck`, `NotFiniteNeverSettles`, `JobSettlesIff`).
- A node-group sync whose listing or lookup fails goes on without the nodes it could not read and
  evicts members that the group selects (`FailedCallsEvict`, `SelectedMemberEvictedIff`).
- A second node-group sync can still change something, and so can a third (`StrayZoneExample`,
  `PassingThroughExample`, `SecondSyncIdleIff`, `ThirdSyncIdleIff`); a fourth never does
  (`FourthSyncIsIdle`).
- A listener whose ID is already in use for another node or resource, but not both, makes the two
  indexes disagree (`SharedIdClashes`, `AddAgreesIff`, `DeleteAgreesIff`).
- A device that changes its model without moving leaves the old model on its node (`SurplusRun`,
  `EventTidiesIff`).
- Tunnel data beyond one mebibyte is cut off (`LongDataIsCut`, `SurvivesIff`); sync names of UIDs with
  a dot do not split back (`DottedUid`, `SyncNameSplitsIff`).

## Model

| member | source | states |
|---|---|---|
| `Versions.CompareIsAnOrder` | cloud/pkg/synccontroller/objectsync.go:141-160 | on numerals the comparison is antisymmetric and transitive, and on canonical ones it is 0 only for equal strings; it panics exactly on a non-numeral |
| `Versions.CanonicalUnique` | cloud/pkg/synccontroller/objectsync.go:141-160 | canonical numerals with the same value are the same string |
| `Versions.ComparesNumbers` | cloud/pkg/synccontroller/objectsync.go:141-160 | on the decimal notation of any two numbers the comparison is that of the numbers, and panics exactly from 2^64 on |
| `WorkQueue.AddValid` | vendor/k8s.io/client-go/util/workqueue/queue.go:163-185 | the order stays the duplicate-free list of dirty keys that are not in process; the key becomes dirty; where it goes is stated by `FirstInFirstOut` |
| `WorkQueue.GetValid` | vendor/k8s.io/client-go/util/workqueue/queue.go:196-221 | the same for taking the head, which was dirty and not in process |
| `WorkQueue.DoneValid` | vendor/k8s.io/client-go/util/workqueue/queue.go:223-238 | the same for Done, which re-queues a key that became dirty meanwhile |
| `WorkQueue.FireValid` | cloud/pkg/cloudhub/session/node_session.go:326-329 | when the rate-limit delay of a key ends, the key is dirty again and only its delay is gone |
| `WorkQueue.FirstInFirstOut` | vendor/k8s.io/client-go/util/workqueue/queue.go:163-238 | a key that starts to wait goes to the end of the order, whichever call makes it wait, and only the head is ever taken |
| `QueueOrder.PlaceInLine` | cloud/pkg/cloudhub/session/node_session.go:301-336 | in the protocol, a waiting key moves up one place when a key is taken, and no other step of the session moves it |
| `QueueOrder.TakenInTurn` | cloud/pkg/cloudhub/session/node_session.go:301-336 | in every continuation of a session, whatever is enqueued meanwhile, the key with i others before it is taken after exactly i others |
| `Messages.ControllersAreAcknowledged` | edge/pkg/metamanager/process.go:196-320 | of what the controllers of the cloud send, the edge acknowledges exactly inserts and updates other than events, and deletes, and writes patches and responses without acknowledging them |
| `Messages.OwnMessages` | edge/pkg/metamanager/process.go:196-333 | what edged and other senders at the edge send is written, and acknowledged, in exactly these cases |
| `DeliverySafety.InvStep` | cloud/pkg/cloudhub/session/node_session.go:301-389 | each of the twenty-four steps keeps the invariant in twelve parts: queue, identities, pending messages, packets, acknowledgements, records, versions |
| `DeliverySafety.InvariantOfRuns` | cloud/pkg/cloudhub/dispatcher/message_dispatcher.go:49-67 | every state of every run satisfies the invariant |
| `DeliverySafety.NoPendingMessageForgotten` | cloud/pkg/cloudhub/dispatcher/message_dispatcher.go:243-252 | in every reachable state of a live session a stored message whose acknowledgement has not been seen is queued, delayed, between store and queue, or itself being sent, even if it replaced one in flight |
| `DeliverySafety.UnstoreLosesPendingIff` | cloud/pkg/cloudhub/session/node_session.go:547-568 | removing an acknowledged delete from the store loses a pending message if and only if another message had taken its place |
| `DeliverySafety.AcknowledgementSoundness` | cloud/pkg/cloudhub/session/node_session.go:127-133 | every recorded version other than the initial "0" belongs to a message for that UID that the edge persisted; every acknowledgement is for a persisted message, across retransmission, late and duplicate acknowledgements, timeouts and reconnects |
| `DeliverySafety.AckedIsPersisted` | cloud/pkg/cloudhub/session/node_session.go:338-371 | an acknowledged message was persisted with its UID and version |
| `DeliverySafety.AcknowledgementIsHeard` | cloud/pkg/cloudhub/session/node_session.go:126-133 | in every run an acknowledgement that arrives for the message being sent is seen, a second or unexpected one changes nothing, and no channel is closed twice |
| `DeliverySafety.ComparisonNeverPanics` | cloud/pkg/cloudhub/dispatcher/message_dispatcher.go:262-268 | given numeral cluster versions, every stored message is delete-marked or has a numeral version, every written record is a numeral, and no enqueue ever panics |
| `DeliverySafety.DiscardRule` | cloud/pkg/cloudhub/dispatcher/message_dispatcher.go:349-415 | with a working API a versioned message is dropped if and only if the store holds a delete or a version as new, or else the record is as new or never written |
| `DeliverySafety.DiscardIsSafe` | cloud/pkg/cloudhub/dispatcher/message_dispatcher.go:257-283 | when a message is dropped, a delete or a version at least as new is scheduled for delivery or has been persisted by the edge |
| `DeliveryDecisions.DecisionsByKind` | cloud/pkg/cloudhub/dispatcher/message_dispatcher.go:227-260 | deletes, objects being deleted and versioned answers always go through; messages without a version or without an object never do; none of them touches a record |
| `DeliveryDecisions.AcceptedHasOlderRecord` | cloud/pkg/cloudhub/dispatcher/message_dispatcher.go:257-415 | whatever API calls fail, any other message is taken only if its object then has a stored message or a written record that is older; a new record is "0", or unwritten if its status cannot be written; no other record changes |
| `DeliveryDecisions.AcceptedAgain` | cloud/pkg/cloudhub/dispatcher/message_dispatcher.go:383-415 | over every run without other messages for the object, reconnects included: until its acknowledgement has been seen, a message that was accepted is accepted again by a new session |
| `DeliveryDecisions.SavedWasPersisted` | cloud/pkg/cloudhub/session/node_session.go:373-389 | no save writes a version that the edge has not persisted or touches another record; when every call succeeds the record is the acknowledged version, or gone after a delete; a failing save leaves the record, or makes an unwritten one |
| `DeliveryDecisions.OwedUntilSaved` | cloud/pkg/cloudhub/session/node_session.go:338-389 | an acknowledgement that was seen, or was there to be seen when the session was replaced, waits to be saved through every continuation, until a step saves it |
| `DeliveryRecords.FailedStatusNeglects` | cloud/pkg/cloudhub/dispatcher/message_dispatcher.go:383-409 | one failing status update is enough: a run that leaves the record of an object without a status |
| `DeliveryRecords.NeglectedForGood` | cloud/pkg/cloudhub/dispatcher/message_dispatcher.go:361-366 | through every continuation without a forced message for the object, its record stays unwritten and every versioned message for it is discarded |
| `DeliverySafety.DeletesAbsorb` | cloud/pkg/cloudhub/dispatcher/message_dispatcher.go:262-271 | over every step of every run, only a forced message replaces a stored delete |
| `DeliverySafety.KeyLeavesOnAcknowledgedDelete` | cloud/pkg/cloudhub/session/node_session.go:547-568 | while a session lasts, a key leaves the store only because the edge persisted and acknowledged a delete for that UID |
| `DeliveryOrder.OrderStep` | cloud/pkg/cloudhub/session/node_session.go:338-371 | each step keeps the ordering invariant between store, sender, transmissions, records, wire and edge log |
| `DeliveryOrder.TransmittedInOrder` | cloud/pkg/cloudhub/session/node_session.go:338-371 | within a session and between forced messages the versions transmitted for a UID never decrease |
| `DeliveryOrder.PersistedInOrder` | edge/pkg/metamanager/process.go:128-162 | the edge log followed by what is on the wire is a subsequence of the transmissions, so the versions persisted never decrease either |
| `DeliveryOrder.RecordedInOrder` | cloud/pkg/cloudhub/session/node_session.go:391-470 | the versions a session writes to the record never decrease between forced messages |
| `DeliveryOrder.StoredInOrder` | cloud/pkg/cloudhub/dispatcher/message_dispatcher.go:262-271 | an unforced message only ever replaces a strictly older version in the store |
| `DeliveryLimits.InsertBehindDeleteIsLost` | cloud/pkg/cloudhub/dispatcher/message_dispatcher.go:262-268 | a run after which nothing is under way, and an object that was inserted behind a delete has neither store entry nor record |
| `DeliveryLimits.AcknowledgedDeleteDropsPendingMessage` | cloud/pkg/cloudhub/session/node_session.go:560-566 | a run in which an acknowledged delete takes an unacknowledged message out of the store |
| `DeliveryRecords.RecordNeverFalls` | cloud/pkg/cloudhub/session/node_session.go:438-470 | in every run without forced messages and late saves for an object, reconnects included, no step lowers or removes its record |
| `DeliveryLimits.LateSaveLowersRecord` | cloud/pkg/cloudhub/session/node_session.go:234-243 | a run in which a replaced session lowers a record |
| `DeliveryLimits.SaveAfterLateSaveLowersRecord` | cloud/pkg/cloudhub/session/node_session.go:438-470 | a run in which the live session lowers a record that a replaced one has raised |
| `DeliveryLimits.AnswerTooLate` | edge/pkg/edgehub/messagehandler/handler_meta.go:34-41 | a run after which a stored Response is pending and not deliverable, because its request gave up |
| `DeliveryLimits.AnswerUnheard` | edge/pkg/metamanager/process.go:42-47 | a run after which a Response that the edge persisted is pending and not deliverable, because its acknowledgement was lost on the way |
| `DeliveryLimits.LateSaveBlocksReconcile` | cloud/pkg/synccontroller/objectsync.go:90-103 | a drained state, reached by such a run, whose record no reconcile pass repairs |
| `Reconcile.UpdateAcceptedIff` | cloud/pkg/synccontroller/objectsync.go:90-103 | the update that reconcile sends for a stale record is accepted if and only if the store holds neither a delete nor a version as new, or the object is being deleted |
| `Reconcile.ReconcileNeverPanics` | cloud/pkg/synccontroller/objectsync.go:26-65 | given numeral cluster versions, the comparison in reconcile never panics in any reachable state |
| `Reconcile.ReconcileActs` | cloud/pkg/synccontroller/objectsync.go:26-103 | a delete is sent exactly for an orphan, and an update to the object's version exactly if that is newer than a written status, both of a kind that the edge acknowledges; without a resource path an orphan's record is removed at once, an update panics, and nothing else changes |
| `Reconcile.MatchOfRuns` | cloud/pkg/cloudhub/session/node_session.go:373-389 | in runs in which saves succeed, an acknowledged store entry is what its record says once it has been saved |
| `Reconcile.DrainedIsAcknowledged` | cloud/pkg/cloudhub/session/node_session.go:301-336 | when nothing is queued, delayed or in flight, every stored message has been acknowledged |
| `Underway.ExpectedForGood` | cloud/pkg/cloudhub/session/node_session.go:301-389 | from every live state, through losses, retries, timeouts and traffic for other objects, the record that an object will end up with is conserved: once nothing is under way for it, its record is the version of the last message that was in flight, or what it was |
| `Underway.LostBehindDeleteIff` | cloud/pkg/cloudhub/dispatcher/message_dispatcher.go:257-283 | while a delete is the last word on an object, a versioned message for it is dropped if and only if the store still holds the entry; otherwise it is accepted |
| `Underway.LeavingForGood` | cloud/pkg/cloudhub/session/node_session.go:547-568 | the delete then stays the last word through every continuation without new messages for the object, until it has neither record nor store entry |
| `Convergence.PassInvariant` | cloud/pkg/synccontroller/synccontroller.go:130-153 | how far a reconcile pass has got with an object, throughout every interleaving with the protocol |
| `Convergence.PassOutcome` | cloud/pkg/synccontroller/synccontroller.go:112-153 | from every live reachable state, whatever is queued or in flight and whatever is sent meanwhile for other objects: once an object has been visited and nothing is under way for it, an orphan has no record, and every other record is where the visit, or else what was in flight, takes it, unless a delete was in flight; an object without a record has one exactly if a message for it was in flight |
| `ConvergenceResults.NextPassIdleIff` | cloud/pkg/synccontroller/objectsync.go:26-103 | from every live state, after its visit and once it is settled, the next pass has nothing to send for an object if and only if it is an orphan or did not lag: its update was taken, or what was in flight is not behind the object |
| `ConvergenceResults.SettledOutcome` | cloud/pkg/synccontroller/synccontroller.go:112-153 | when nothing is under way for an object at the start, whatever is for others, its record ends up gone if orphaned, unchanged if blocked, and else at the newer of its version and the object's |
| `ConvergenceResults.ReconcileConvergesIff` | cloud/pkg/synccontroller/objectsync.go:26-103 | from a drained state: orphaned records are gone, all others at the newer of their version and the object's, and the next pass sends nothing, if and only if no record was blocked by a stored delete or a stored version as new |
| `ConvergenceResults.LiveReconcileConverges` | cloud/pkg/synccontroller/synccontroller.go:112-153 | from every live state after a run in which saves succeed and no replaced session saves late, orphans go and the next pass has nothing to send for the others, unless a delete, or a message behind the record, was in flight |
| `ConvergenceResults.ReconcileConverges` | cloud/pkg/synccontroller/clusterobjectsync.go:44-130 | convergence of all records from a drained state after every such run |
| `ConvergenceResults.RecordCatchesUp` | cloud/pkg/synccontroller/objectsync.go:90-103 | from every live state after a run in which saves succeed and no forced message or late save concerns the object, a written record ends up at least as new as the object |
| `ConvergenceResults.RecordEqualsObjectIff` | cloud/pkg/synccontroller/objectsync.go:90-103 | from every live state, when nothing issued for an object is ahead of it, its record was written and no delete was in flight, the record ends up at the object's version if and only if it did not lag |
| `ConvergenceResults.RecordEqualsObject` | cloud/pkg/synccontroller/objectsync.go:90-103 | so it always does after runs in which saves succeed and no forced message or late save concerns the object |
| `EdgeHolds.EdgeHoldsRecord` | cloud/pkg/cloudhub/session/node_session.go:338-389 | in every run without forced messages and late saves for an object, reconnects included, what the edge persisted last for it is at least as new as a record other than "0", and so is everything for it on the wire |
| `EdgeHolds.EdgeHoldsObject` | cloud/pkg/synccontroller/objectsync.go:90-103 | from every live state after such a run with successful saves, when nothing issued is ahead of the object: after its visit, once it is settled, the version the edge persisted last is the object's, and so is every one on the wire |
| `PassLimits.DeleteInFlightRaces` | cloud/pkg/cloudhub/dispatcher/message_dispatcher.go:257-283 | a live state with a delete in flight for an object that exists, from which one pass ends without its record and another with its version |
| `PassLimits.FailedRemovalKeepsOrphan` | cloud/pkg/cloudhub/session/node_session.go:547-568 | a live state in which the removal of a record has failed, from which a pass leaves the orphan's record |
| `PassCompletion.EveryRecordCanBeVisited` | cloud/pkg/synccontroller/synccontroller.go:112-153 | from every live state, whatever is queued or stuck, some interleaving visits every record |
| `PassCompletion.PassCompletes` | cloud/pkg/synccontroller/synccontroller.go:112-153 | from every live state whose work is with messages that answer no request, some interleaving completes a pass and drains the queue |
| `Progress.PendingCanBeDeliveredIff` | cloud/pkg/cloudhub/dispatcher/message_dispatcher.go:49-67 | from every reachable live state a pending message can be acknowledged without new messages, failing saves or the end of the session, though packets may be lost and retries time out, if and only if it is deliverable: the edge takes it whenever it comes, its request waits, or an acknowledgement is under way, and no acknowledged delete is about to remove it; otherwise no continuation at all acknowledges it |
| `Progress.PlainWorkCanBeDrained` | cloud/pkg/cloudhub/dispatcher/message_dispatcher.go:49-67 | when all work is with messages that answer no request, the queue can be drained, and then everything stored is acknowledged and persisted |
| `CloudHub.EnqueueResource` | cloud/pkg/cloudhub/dispatcher/message_dispatcher.go:349-415 | the record lookup, creation and comparison, with each API failure, decide as the protocol's decision function does, of which `AcceptedHasOlderRecord` and `AcceptedAgain` state what it means |
| `CloudHub.EnqueueAckMessage` | cloud/pkg/cloudhub/dispatcher/message_dispatcher.go:227-283 | verdict, store, queue and records after the call are those of the protocol's enqueue steps |
| `CloudHub.SendOutcomeMeaning` | cloud/pkg/cloudhub/session/node_session.go:338-371 | at most five transmissions; acknowledged, timed out and transport error are characterised by what came first |
| `CloudHub.SendMessageWithRetry` | cloud/pkg/cloudhub/session/node_session.go:338-371 | the retry loop has that outcome and that number of transmissions |
| `CloudHub.NodeSession.ReceiveMessageAck` | cloud/pkg/cloudhub/session/node_session.go:127-133 | closes the awaited channel once; unknown and repeated acknowledgements change nothing |
| `CloudHub.NodeSession.SaveSuccessPoint` | cloud/pkg/cloudhub/session/node_session.go:391-568 | record and store after each combination of API failures |
| `CloudHub.NodeSession.SyncAckMessage` | cloud/pkg/cloudhub/session/node_session.go:301-336 | queue, store, records, awaited acknowledgement and termination after one key, for each outcome of sending |
| `CloudHub.EnqueueIsARun` | cloud/pkg/cloudhub/dispatcher/message_dispatcher.go:227-283 | an uninterrupted enqueue call is one step of the enqueuer when it discards or panics, and three when it accepts |
| `CloudHub.TakeIsARun` | cloud/pkg/cloudhub/session/node_session.go:301-316 | taking a key and sending its message, or finding none, are steps of the sender |
| `CloudHub.FinishIsARun` | cloud/pkg/cloudhub/session/node_session.go:318-371 | from whatever state sending ends in, booking an acknowledgement, a timeout or a transport error changes the hub as the sender's steps do |
| `EdgeMeta.MetaManager.HandleMessage` | edge/pkg/metamanager/process.go:128-194 | the whole table after every operation and every database failure: a stored message puts its own row, with its UID, and nothing else; a delete takes its row; the delete of a pod changes nothing unless the row has its UID, and then takes the patch row too; no error means the message has taken effect |
| `EdgeMeta.MetaManager.FeedbackError` | edge/pkg/metamanager/process.go:33-40 | edged hears of the errors of its own messages, the cloud of all others |
| `EdgeMeta.MetaManager.Process` | edge/pkg/metamanager/process.go:196-362 | for each operation, source and type, whether a message is handled and acknowledged, and exactly what is said to the cloud and in reply to edged; it is acknowledged only after it has taken effect |
| `EdgeMeta.MetaManager.Receive` | edge/pkg/edgehub/messagehandler/handler_meta.go:34-41 | an answer is taken by the request that waits for it, persisted, acknowledged and handed over, or dropped without a word; everything else goes to the meta manager |
| `EdgeMeta.ReceiveIsARun` | edge/pkg/metamanager/process.go:364-408 | receiving the message of the next packet is a run of the edge's steps of the delivery protocol, with the same effect on requests, log and acknowledgements |
| `EdgeMeta.RowSurvivesIff` | edge/pkg/metamanager/process.go:164-194 | a row is in the database if and only if some write put it there with no clearing write after it; a pod delete clears only its own UID |
| `DeviceModels.DownstreamController.IsExistModel` | cloud/pkg/devicecontroller/controller/downstream.go:180-205 | the scan finds a model exactly when another cached device of the node uses it |
| `DeviceModels.DownstreamController.SendDeviceModelMessage` | cloud/pkg/devicecontroller/controller/downstream.go:316-382 | which model messages go out, lookup failures included |
| `DeviceModels.DownstreamController.DeviceAdded` | cloud/pkg/devicecontroller/controller/downstream.go:130-161 | cache and messages after a device is added |
| `DeviceModels.DownstreamController.DeviceDeleted` | cloud/pkg/devicecontroller/controller/downstream.go:247-277 | cache and messages after a device is deleted |
| `DeviceModels.DownstreamController.DeviceUpdated` | cloud/pkg/devicecontroller/controller/downstream.go:210-238 | cache and messages after an update, node moves included |
| `DeviceModels.DeletedKeeps` | cloud/pkg/devicecontroller/controller/downstream.go:247-277 | deleting a device leaves no other device without its model and touches no other node |
| `DeviceModels.FirstAndLast` | cloud/pkg/devicecontroller/controller/downstream.go:130-277 | a model is inserted exactly with the first device of a node that uses it and deleted with the last; a device that stays on its node sends an update exactly if its spec has changed |
| `DeviceModels.EventKeepsModelsIff` | cloud/pkg/devicecontroller/controller/downstream.go:130-277 | when everything sent is delivered in order, an event leaves every cached device with its model on its node if and only if the model it needs can be looked up or is there |
| `DeviceModels.ModelsNeverDangle` | cloud/pkg/devicecontroller/controller/downstream.go:103-128 | over every run in which lookups succeed and everything sent is delivered in order, no cached device lacks its model on its node |
| `DeviceModels.EventTidiesIff` | cloud/pkg/devicecontroller/controller/downstream.go:130-277 | when everything sent is delivered in order, an event leaves no model that nobody uses if and only if the model its device gives up is still used there, or the device was deleted or moved with the model in the catalog |
| `DeviceModels.ModelsAreExact` | cloud/pkg/devicecontroller/controller/downstream.go:103-128 | over every run of such events, when everything sent is delivered in order, the nodes hold exactly the models that their cached devices use |
| `DeviceModels.ModelChangeLeavesSurplus` | cloud/pkg/devicecontroller/controller/downstream.go:231-234 | a device that changes its model without moving leaves the old model behind unless another device of the node uses it |
| `DeviceModels.SurplusRun` | cloud/pkg/devicecontroller/controller/downstream.go:231-234 | a run with working lookups that leaves an unused model on a node |
| `DeviceModels.MovingBackSendsDeleteThenInsert` | cloud/pkg/devicecontroller/controller/downstream.go:218-230 | when the only user of a model moves away from its node and back, the node is sent a delete of the model and later an insert |
| `NodeGroup.Controller.GetNodesByName` | cloud/pkg/controllermanager/nodegroup/nodegroupcontroller.go:342-356 | the named nodes that exist and can be read |
| `NodeGroup.Controller.GetNodesSelectedBy` | cloud/pkg/controllermanager/nodegroup/nodegroupcontroller.go:258-275 | the union of named and label-selected nodes, without those that a failing call could not read |
| `NodeGroup.Controller.EvictNodes` | cloud/pkg/controllermanager/nodegroup/nodegroupcontroller.go:201-219 | every node is tried; the labels go where the patch succeeds; any failing patch or pod eviction fails the call |
| `NodeGroup.Controller.AddOrUpdateNodeLabel` | cloud/pkg/controllermanager/nodegroup/nodegroupcontroller.go:358-401 | labels and reported reason; the label of another group is never overwritten |
| `NodeGroup.Controller.LabelNodes` | cloud/pkg/controllermanager/nodegroup/nodegroupcontroller.go:134-158 | every found node is relabelled and gets one status, in whatever order they come |
| `NodeGroup.Controller.SyncNodeGroup` | cloud/pkg/controllermanager/nodegroup/nodegroupcontroller.go:97-183 | when it is queued again, the labels of every node whatever calls fail, and one strictly sorted status per found or named node |
| `NodeGroup.SyncWithWorkingApi` | cloud/pkg/controllermanager/nodegroup/nodegroupcontroller.go:97-183 | with a working API nothing is queued again, and the labels are those of one sync |
| `NodeGroup.SyncLabels` | cloud/pkg/controllermanager/nodegroup/nodegroupcontroller.go:97-183 | afterwards exactly the selected nodes that no other group owns carry the group's label, other groups' nodes are untouched, and no unmanaged label changes; a node that is not named joins only with all of the group's labels |
| `NodeGroup.SyncZones` | cloud/pkg/controllermanager/nodegroup/nodegroupcontroller.go:358-402 | the zone label after a sync: none on a node that leaves or on a member of a group without zones, the group's on a member of a group with zones, and its own on every other node |
| `NodeGroup.SelectedAfterIff` | cloud/pkg/controllermanager/nodegroup/nodegroupcontroller.go:258-275 | a sync leaves selected exactly the nodes that were selected and not by a zone label that the sync takes away or replaces |
| `NodeGroup.SecondSyncIdleIff` | cloud/pkg/controllermanager/nodegroup/nodegroupcontroller.go:358-401 | for every group, a second sync changes nothing if and only if no node joined with a stray zone label or was selected by a zone label that the first sync took away or replaced |
| `NodeGroup.StrayZoneExample` | cloud/pkg/controllermanager/nodegroup/nodegroupcontroller.go:358-401 | a group and node for which a second sync changes labels |
| `NodeGroup.ThirdSyncIdleIff` | cloud/pkg/controllermanager/nodegroup/nodegroupcontroller.go:97-183 | for every group, a third sync changes nothing if and only if no node only passes through the group |
| `NodeGroup.PassingThroughExample` | cloud/pkg/controllermanager/nodegroup/nodegroupcontroller.go:97-183 | a group and node for which a third sync changes labels |
| `NodeGroup.FourthSyncIsIdle` | cloud/pkg/controllermanager/nodegroup/nodegroupcontroller.go:97-183 | a fourth consecutive sync never changes anything |
| `NodeGroup.StatusStableIff` | cloud/pkg/controllermanager/nodegroup/nodegroupcontroller.go:134-171 | the status of a node is final from the first sync on if and only if the node does not flip |
| `NodeGroup.StatusTellsTheTruth` | cloud/pkg/controllermanager/nodegroup/nodegroupcontroller.go:134-171 | after a sync that is not queued again, whatever patches failed, a node is listed as succeeded if and only if it carries what the group wants, as owned if and only if another group has it, as missing if and only if it was not found, and as failed only if it could not be patched and is as it was |
| `NodeGroup.SelectedMemberEvictedIff` | cloud/pkg/controllermanager/nodegroup/nodegroupcontroller.go:110-131 | a member that the group selects loses its label if and only if the list failed or its labels do not match, it is not named or could not be read, and the patch succeeds |
| `NodeGroup.FailedCallsEvict` | cloud/pkg/controllermanager/nodegroup/nodegroupcontroller.go:258-275 | a failing list, and a failing get, that evict a selected member |
| `NodeGroup.FailingCallsAddNothing` | cloud/pkg/controllermanager/nodegroup/nodegroupcontroller.go:97-183 | whatever calls fail, no node joins that the group does not select, no node of another group and no unmanaged label changes, and a sync that is queued again changes only nodes that leave |
| `NodeGroup.SortedIsUnique` | cloud/pkg/controllermanager/nodegroup/nodegroupcontroller.go:160-171 | a strictly sorted status list is determined by its entries, so map order cannot show |
| `NodeGroup.LessIff` | cloud/pkg/controllermanager/nodegroup/nodegroupcontroller.go:169-171 | names come in dictionary order: a proper prefix first, or else by the first difference |
| `Listeners.AddToHolds` | cloud/pkg/dynamiccontroller/application/listener_manager.go:46-63 | adding to a nested map files exactly that listener and leaves no empty inner map |
| `Listeners.RemoveFromHolds` | cloud/pkg/dynamiccontroller/application/listener_manager.go:65-84 | removing takes out exactly that ID under that key and leaves no empty inner map |
| `Listeners.AddAgreesIff` | cloud/pkg/dynamiccontroller/application/listener_manager.go:46-63 | adding keeps the two indexes in agreement if and only if no listener shares the ID and only one of node and resource |
| `Listeners.DeleteAgreesIff` | cloud/pkg/dynamiccontroller/application/listener_manager.go:65-84 | the same for deleting |
| `Listeners.SharedIdClashes` | cloud/pkg/dynamiccontroller/application/listener_manager.go:46-84 | indexes and a listener for which adding and deleting leave them in disagreement |
| `Listeners.HandlerCenter.AddListener` | cloud/pkg/dynamiccontroller/application/eventhandler.go:83-85 | both indexes after the call, a handler for the resource, and nothing registered when the list fails; the indexes stay in agreement when IDs determine node and resource |
| `Listeners.HandlerCenter.DeleteListener` | cloud/pkg/dynamiccontroller/application/eventhandler.go:87-91 | both indexes after the call, for any listener whose resource has a handler; the indexes stay in agreement when IDs determine node and resource |
| `Listeners.HandlerCenter.DeleteMissing` | cloud/pkg/dynamiccontroller/application/application.go:311-332 | exactly the listeners that the edge reported remain on the node |
| `Listeners.HandlerCenter.ProcessWatchApp` | cloud/pkg/dynamiccontroller/application/application.go:334-350 | the watch is registered in both indexes exactly when it is permitted and can be listed |
| `Listeners.HandlerCenter.ProcessWatchSync` | cloud/pkg/dynamiccontroller/application/application.go:260-309 | when the watches are keyed by ID and name the node, exactly the reported listeners minus the reported failures remain, old ones as they were, and other nodes are untouched; with authorization other nodes are untouched whatever is reported, and the sync is rejected exactly if a new watch names another node; every listed resource keeps its handler and no inner map is empty, whatever the watches; the indexes stay in agreement when IDs determine node and resource |
| `TunnelPorts.NegotiatePort` | cloud/cmd/cloudcore/app/server.go:271-278 | the first free port, within one more probe than there are used ports |
| `TunnelPorts.PortMap.Negotiate` | cloud/cmd/cloudcore/app/server.go:181-269 | the record after a negotiation is that of the negotiate step with a permitted port |
| `TunnelPorts.PortMap.Clean` | cloud/pkg/cloudstream/iptables/iptables.go:301-338 | the record after a cleanup, which `PortIsKept` says leaves every other address alone; without a record it fails and changes nothing |
| `TunnelPorts.PortsNeverClash` | cloud/cmd/cloudcore/app/server.go:181-278 | over every run of negotiations and cleanups the used ports are one interval from 10351 on, live addresses hold distinct ports in it, and no port is issued twice |
| `TunnelPorts.PortIsKept` | cloud/pkg/cloudstream/iptables/iptables.go:301-338 | a live address keeps its port and its rule through every step but its own cleanup, which takes its entry and gives no port back |
| `TunnelPorts.PortKeptUntilCleaned` | cloud/pkg/cloudstream/iptables/iptables.go:139-236 | over every run: until it is cleaned up an address has the port it was given, and from the next reconcile on the rule for it |
| `TunnelPorts.IptablesManager.EnsureRules` | cloud/pkg/cloudstream/iptables/iptables.go:184-192 | rules present after a possibly failing series of additions |
| `TunnelPorts.IptablesManager.DeleteRules` | cloud/pkg/cloudstream/iptables/iptables.go:194-202 | rules left after a possibly failing series of deletions |
| `TunnelPorts.IptablesManager.Reconcile` | cloud/pkg/cloudstream/iptables/iptables.go:161-226 | the chain after a successful reconcile, and its bounds after a failing one |
| `TunnelPorts.ChainRefinesRecordIff` | cloud/pkg/cloudstream/iptables/iptables.go:205-226 | from a chain that matches the previous record, reconcile reaches the latest one if and only if no address changed port |
| `TunnelPorts.ChainRefinesRecord` | cloud/pkg/cloudstream/iptables/iptables.go:142-203 | over every run in which no address changes port between reconciles the chain holds exactly one rule per entry of the record last reconciled |
| `TunnelPorts.StaleRuleRun` | cloud/pkg/cloudstream/iptables/iptables.go:205-226 | a run with a cleanup and a new negotiation between reconciles after which a stale rule is left |
| `TunnelPorts.LivePortsAreRouted` | cloud/pkg/cloudstream/iptables/iptables.go:161-203 | over every run, right after a reconcile each live port has exactly one rule, and it leads to the port's holder |
| `NodeJobs.DoubleRoundingIff` | cloud/pkg/controllermanager/nodetask/calculation.go:50-56 | rounding twice differs from rounding once, by one hundredth upward, if and only if the boundary is within half of 10^-16 |
| `NodeJobs.CompletedBound` | cloud/pkg/controllermanager/nodetask/calculation.go:40-60 | Completed with failures implies a failure rate below the tolerance plus 0.005 |
| `NodeJobs.FailureBoundIff` | cloud/pkg/controllermanager/nodetask/calculation.go:40-60 | Failure implies a rate above the tolerance minus 0.005, for every tolerance, if and only if the next rounding boundary is not within half of 10^-16 |
| `NodeJobs.FailureBound` | cloud/pkg/controllermanager/nodetask/calculation.go:40-60 | so it does for every job below 10^14 nodes |
| `NodeJobs.FailureBoundBroken` | cloud/pkg/controllermanager/nodetask/calculation.go:40-60 | and does not for a job of 10^14 + 1 nodes |
| `NodeJobs.VerdictMeetsTolerance` | cloud/pkg/controllermanager/nodetask/calculation.go:30-60 | below 10^14 nodes, Failure means that the share of failed nodes is above the job's tolerance, which is 0 when none is given or it does not parse, and Completed that it is not, up to half a hundredth |
| `NodeJobs.VerdictMonotone` | cloud/pkg/controllermanager/nodetask/calculation.go:30-60 | more failures never turn Failure into success |
| `NodeJobs.JobHandler.InitNodesStatus` | cloud/pkg/controllermanager/nodetask/configupdatejob_handler.go:86-109 | phase and tasks after initialisation, verification errors included |
| `NodeJobs.JobHandler.CalculateStatus` | cloud/pkg/controllermanager/nodetask/configupdatejob_handler.go:120-151 | the new phase and reason, which the tasks and the tolerance of the job justify; whether they changed; and when it panics |
| `NodeJobs.CalculatedIsJustified` | cloud/pkg/controllermanager/nodetask/configupdatejob_handler.go:120-151 | a reconcile of an initialised job with a finite tolerance leaves Failure without tasks, InProgress exactly while a task is pending or running, Completed when all have succeeded, and otherwise the verdict on the share of failed and unknown tasks, with their number and the total as the reason of a failure |
| `NodeJobs.JobHandler.CheckTimeout` | cloud/pkg/controllermanager/nodetask/configupdatejob_handler.go:161-222 | the tasks past their deadline time out; an unreadable time fails the check and changes nothing |
| `NodeJobs.TimesOutIff` | cloud/pkg/controllermanager/nodetask/configupdatejob_handler.go:161-222 | a task of a running job becomes unknown exactly if it is pending or running, a positive timeout is set, and more than that has passed since its last action, or since the job was made; nothing else changes |
| `NodeJobs.JobSettlesIff` | cloud/pkg/controllermanager/nodetask/configupdatejob_handler.go:111-222 | a timeout check and a reconcile end an in-progress job if and only if it has no tasks, or every unfinished task is past a readable deadline with timeouts on and, for a tolerance that is no finite number, every task has succeeded |
| `NodeJobs.NotFiniteNeverSettles` | cloud/pkg/controllermanager/nodetask/calculation.go:42-56 | a job with such a tolerance and a failed task is never ended by reconciles and timeout checks |
| `NodeJobs.NaNJobIsStuck` | cloud/pkg/controllermanager/nodetask/calculation.go:42-56 | such a job |
| `NodeJobs.FinalPhaseIsPermanent` | cloud/pkg/controllermanager/nodetask/reconcile_runner.go:86-147 | no later reconciles, timeout checks or node reports change a final phase or its reason |
| `TunnelCodec.UvarintLength` | pkg/stream/message.go:65-71 | k bytes suffice exactly for the numbers below 128^k |
| `TunnelCodec.UvarintMeaning` | pkg/stream/message.go:65-71 | the bytes are the base-128 digits of the number, least significant first, and only the last is without the high bit |
| `TunnelCodec.PutUvarint` | pkg/stream/message.go:65-71 | the buffer holds the varint at its offset and is unchanged before it; panics exactly when it does not fit |
| `TunnelCodec.Bytes` | pkg/stream/message.go:65-71 | header and data; panics exactly when the header exceeds 16 bytes |
| `TunnelCodec.HeaderFits` | pkg/stream/message.go:65-71 | for every 64-bit ID and defined type the header takes at most 11 bytes |
| `TunnelCodec.ReadUvarint` | pkg/stream/message.go:77-98 | value, error and consumed bytes of the bounded varint reader |
| `TunnelCodec.ReadAfterWrite` | pkg/stream/message.go:77-98 | reading undoes writing for every 64-bit number, whatever follows |
| `TunnelCodec.ReadIff` | pkg/stream/message.go:77-90 | for every input: a number is read if and only if a last byte comes within ten and the number fits 64 bits, and then it is what the bytes up to there are worth; the errors tell missing input apart |
| `TunnelCodec.RoutedById` | pkg/stream/message.go:65-90 | the first varint of a frame is its connection ID and the second its type |
| `TunnelCodec.ReadMessage` | pkg/stream/message.go:77-98 | the frame or error that the decoder specification gives |
| `TunnelCodec.RoundTrip` | pkg/stream/message.go:65-98 | decoding an encoded frame gives back ID, type and the first mebibyte of the data |
| `TunnelCodec.SurvivesIff` | common/constants/default.go:74 | a frame survives unchanged if and only if its data is at most one mebibyte |
| `TunnelCodec.LongDataIsCut` | common/constants/default.go:74 | a frame that does not |
| `TunnelCodec.EncodingIsInjective` | pkg/stream/message.go:65-71 | different frames with short data have different encodings |
| `Addressing.SplitJoin` | cloud/pkg/common/messagelayer/util.go:49-69 | splitting undoes joining on separator-free parts |
| `Addressing.JoinSplit` | cloud/pkg/common/messagelayer/util.go:63-70 | joining undoes splitting on every string |
| `Addressing.GetNodeId` | cloud/pkg/cloudhub/dispatcher/message_dispatcher.go:433-444 | the token after the first "node" that is followed by a non-empty one |
| `Addressing.NodeIdIff` | cloud/pkg/cloudhub/dispatcher/message_dispatcher.go:433-444 | a node is found if and only if it is the non-empty token after a "node" before which no other names one |
| `Addressing.AddressReadsBack` | cloud/pkg/common/messagelayer/util.go:49-110 | from slash-free parts a path is built if and only if node, namespace and type are given, and then node, namespace, type and name can be read back in the cloud |
| `Addressing.AddressSurvives` | edge/pkg/metamanager/process.go:75-108 | building, trimming and parsing at the edge give back type and name |
| `Addressing.TrimAndParse` | edge/pkg/metamanager/process.go:75-108 | for every path: trimming takes exactly the first two parts off one that leads to a node, and a type is found only in paths of two or three parts, which the parts found make up again |
| `Addressing.SyncNameSplitsIff` | cloud/pkg/synccontroller/synccontroller.go:244-256 | a sync name splits back into its node, dots and all, and its UID if and only if the UID has no dot |
| `Addressing.DottedUid` | cloud/pkg/synccontroller/synccontroller.go:244-256 | a sync name that comes back as another node and UID |
| `Addressing.TaskRoundTripsIff` | pkg/nodetask/message/message.go:80-107 | a node-task resource round-trips if and only if its API version is group/version and nothing else holds a slash, or it is blank |
| `Addressing.TaskIsRouted` | pkg/nodetask/message/message.go:80-87 | a task message is routed to the node it names, unless an earlier part is called "node" |
| `StreamSession.Session.AddConnection` | cloud/pkg/cloudstream/session.go:117-130 | the ID is consumed either way and registered exactly when the tunnel is open; table keys stay connection IDs; on the multiplexer this is the Add step |
| `StreamSession.Session.DeleteConnection` | cloud/pkg/cloudstream/session.go:132-140 | exactly that ID leaves the table; on the multiplexer this is the Delete step |
| `StreamSession.Session.Close` | cloud/pkg/cloudstream/session.go:51-59 | every registered connection learns that its peer is gone, nothing is received, the table stays; on the multiplexer this is the Close step |
| `StreamSession.Session.ProxyMessage` | cloud/pkg/cloudstream/session.go:88-111 | a frame reaches the connection registered under its ID or none: data in full or, on failure, a prefix; a removal as the end of its peer; no other connection changes; on the multiplexer data is the Data step, with the data or the prefix written |
| `StreamSession.WriteAll` | cloud/pkg/cloudstream/session.go:100-107 | over partial writes exactly the data is written, or a prefix on failure |
| `StreamSession.StepIsLocal` | cloud/pkg/cloudstream/session.go:88-140 | a step of one session changes neither the table nor the received bytes of another |
| `StreamSession.IdsAreDistinct` | cloud/pkg/cloudstream/session.go:117-130 | in every run no connection ID is registered in two sessions |
| `StreamSession.NothingAddedAfterClose` | cloud/pkg/cloudstream/session.go:51-59 | the table of a closed session never grows |
| `StreamSession.BytesConserved` | cloud/pkg/cloudstream/session.go:88-111 | while registered a connection receives exactly the data sent under its ID, in order |
| `StreamSession.NothingAfterDelete` | cloud/pkg/cloudstream/session.go:132-140 | once removed it receives nothing more |
| `StreamSession.ConnectionLife` | cloud/pkg/cloudstream/session.go:51-140 | over a whole run of all sessions, a connection receives exactly the data sent under its ID between its addition and its removal |
| `SessionManager.Manager.AddSession` | cloud/pkg/cloudhub/session/session_manager.go:49-64 | the session is registered, the one it replaces is terminated and no other is, and the counter equals the number of sessions |
| `SessionManager.Manager.DeleteSession` | cloud/pkg/cloudhub/session/session_manager.go:66-82 | only the session itself is removed, never a newer one of the node |
| `SessionManager.Dispatcher.DeletePool` | cloud/pkg/cloudhub/dispatcher/message_dispatcher.go:521-535 | only the pool itself is removed, never a newer one of the node |
| `SessionManager.Dispatcher.GetPool` | cloud/pkg/cloudhub/dispatcher/message_dispatcher.go:505-515 | the node's pool, made on demand |
| `SessionManager.BookkeepingOfRuns` | cloud/pkg/cloudhub/session/session_manager.go:49-91 | in every run of connects and disconnects the counter equals the number of sessions, and every running session that is not registered has been terminated |
| `SessionManager.TeardownKeepsOthers` | cloud/pkg/cloudhub/handler/message_handler.go:175-179 | the teardown of a connection removes neither session nor pool of another |
| `SessionManager.NothingOutlivesItsConnection` | cloud/pkg/cloudhub/handler/message_handler.go:146-179 | in every run pools go with their connections, and a session is terminated only because another has taken its place |
| `SessionManager.PoolsStay` | cloud/pkg/cloudhub/dispatcher/message_dispatcher.go:505-535 | the pool of a node changes only when a connection of the node adds its own, when the connection it belongs to drops it, or when there is none and one is asked for |
| `SessionManager.FilledPoolIff` | cloud/pkg/cloudhub/handler/message_handler.go:146-179 | in every run, the registered, running session of a node sends from the pool that is filled if and only if the connection that last added its session is the one that last added its pool |
| `SessionManager.PoolsAgreeInSerialRuns` | cloud/pkg/cloudhub/handler/message_handler.go:146-179 | in every run without overlapping connects of a node, its session sends from the pool that is filled whenever no connect is under way |
| `SessionManager.OverlappingConnectsStrandASession` | cloud/pkg/cloudhub/handler/message_handler.go:146-156 | a run with overlapping connects after which the registered session's pool is not the one that is filled, and one after which it is |

## Left out

- Convergence.PassOutcome: cluster versions are assumed to be numerals; the objects do not change during the pass; other senders may send for other objects, but no message or late save for the object itself, failing save or end of the session interferes; where a delete for an object that exists is in flight the outcome is not determined (`DeleteInFlightRaces`).
- ConvergenceResults.LiveReconcileConverges: asks more than it needs of a message in flight that is older than the record; `NextPassIdleIff` has the exact condition.
- ConvergenceResults.ReconcileConvergesIff: is about all records at once, so nothing is sent but by the pass; the per-object theorems beside it allow other traffic.
- PassCompletion.PassCompletes: work with answers to requests, which may be stuck for good (`PendingCanBeDeliveredIff`), is excluded.
- Progress.PendingCanBeDeliveredIff: says that delivery stays possible, not that a fair scheduler brings it about.
- DeliveryRecords.RecordNeverFalls: says that records do not fall without late saves and forced messages for the object; a run with them may still keep the record from falling.
- DeliveryOrder.PersistedInOrder: the edge hub hands each message to the meta manager in a goroutine of its own, and answers are handled in others; the model takes packets one after the other in the order of the wire.
- CloudHub.EnqueueIsARun: states the call as if nothing ran in between; the steps themselves interleave in `Delivery`.
- Listeners.HandlerCenter.DeleteListener: requires a handler for the resource, without which the code dereferences nil; at its only call site there is one.
- StreamSession.Session.ProxyMessage: a writer that reports no error and no progress, against the contract of io.Writer, would keep the loop going for ever; accepted writes are assumed to take at least one byte.
- StreamSession.IdsAreDistinct: the wrap-around of the 64-bit counter is modelled in `AddConnection` only; the run-level statements hold below it, and `AddConnection` is the Add step below it.
- NodeGroup.Controller.SyncNodeGroup: pods are not modelled, only whether their eviction succeeds; the finalizer and the update of the status in the API are left out; node unions and differences are sets.
- TunnelPorts.PortMap.Negotiate: the read-modify-write of the record is atomic; the colon-joined address strings are pairs, so IPv6 addresses are not parsed.
- NodeJobs.JobHandler.CalculateStatus: the retry on a write conflict is one atomic update; image pre-pull and node-upgrade jobs are near copies and are not modelled.
- Reconcile.UpdateAcceptedIff: ObjectSync and ClusterObjectSync records are one map keyed by UID, and lister reads are atomic; removing a record for which no message can be built is modelled as a decision only.
- EdgeMeta.MetaManager.Process: volume operations and the notifications to edged and the device twin are not modelled.
- EdgeMeta.MetaManager.Receive: answers without an object, which CloudHub sends without asking for an acknowledgement, are acknowledged by the code without being persisted and are not modelled.
- DeviceModels.ModelsNeverDangle: like `EventKeepsModelsIff`, `EventTidiesIff` and `ModelsAreExact`, takes every message sent to be delivered, and in order; an insert can be dropped behind a delete of the same model (`InsertBehindDeleteIsLost`).
- DeviceModels.DownstreamController.DeviceUpdated: a device without a model reference, which the API rejects, is not modelled; device messages other than those about models are left out.
- The deletion of a message pool when its session ends, and the pool that the dispatcher makes on demand while no session runs (cloud/pkg/cloudhub/dispatcher/message_dispatcher.go:505-535): `Delivery` has no step for either, so decisions taken then go against the store of the session that has ended.
- The deletion of the records of a node that has left the cluster.
- The path for messages that need no acknowledgement, which may drop messages by design.
- Keep-alive, node limits, TLS, certificates, authorization, admission, JSON and the Kubernetes client machinery.
- The edge end of the stream tunnel and the order of data that arrives before its connection is registered.
- EdgeApplication overrides, router, CSI driver, MQTT and HTTP buses, command-line tools and metrics.
