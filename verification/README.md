# Order execution: a verified model of the stateful cores

An apparel order passes through a handful of small stateful cores: suppliers
answer an inquiry, their answers become ranked delivery paths, a human approves
a quotation once, the order form is versioned and locked, the confirmed order is
associated with an external provider, and shipments and media come back from the
execution side. This project models those cores in Dafny and proves what they
keep over whole runs.

| module | core | main results |
|---|---|---|
| `ConfirmedOrders`, `OtherWriters`, `AssociateCall` | association of a confirmed order by one compare-and-set | for any number of callers, lost, late, repeated and reordered requests: no POST replaces a state, one POST per call, an order can be associated exactly while it has no state, all callers learn the same state; the sequential code is one client of that system |
| `Logistics`, `LogisticsOrder`, `LogisticsSplit` | ingestion of tracking events | first-greatest-time semantics, exactly when order matters and when splitting a batch does, one original per hash, replay changes nothing |
| `GraphStore`, `ProcurementGraph` | the in-memory procurement store | it refines the relational lookup exactly when no two requests share a joined key; the consistency check finds exactly the violations; interleaved lifecycles never have any |
| `PathScore`, `StableSort`, `PathRanker` | ranking and labelling of lead-time paths | a monotone bounded score, a sort that is the only stable one, staged labels that partition the list |
| `DynamicForms` | versioned order forms | gapless numbering, both lookups agree, fields are merged updates, snapshots are permanent, provenance only advances |
| `ApprovalGates` | one-time approvals and the packets that spend them | every grant is justified and the first; events never outnumber approvals |
| `SupplierFeasibility` | response intake and the feasibility report | last response of each supplier; the report covers exactly the able suppliers; a cap shows a prefix |
| `LeadTimes`, `MatchScore`, `MediaReview` | two lead-time computations, the match score, media review | the two computations bound each other exactly when stated; stability and monotonicity through clamp and rounding; conservation of media and first-verdict-wins |

## How the model is laid out

A core that changes stored state is a class. Each of its methods is proved equal
to a step function on a value (`State() == Do(old(State()), op)` or the like),
with the step function written independently of the order of assignments in the
method. Lemmas over `Run` then speak of every sequence of operations. The
association protocol is a step system from the start, because its callers
interleave with the network; `AssociateCall.Network.Associate` is the sequential
code, proved to be a run of one client of it.

Generated ids, clocks and the answers of external services are parameters. Each
API call is one serial transaction that leaves no trace when it fails. Scores are
real numbers.

## Where the code differs from what one might expect

Each of these has a lemma with the exact condition under which the expected law
holds, for all inputs, and a lemma with a concrete input on which it fails.

* The order of the events in a batch matters when its latest events contradict
  each other, and also when they agree but each shares its hash with an older
  event, because then whichever comes first hides the other
  (`LogisticsOrder.OrderIrrelevantExactly`; for what is stored,
  `LogisticsOrder.ShipmentOrderIrrelevantExactly`;
  `LogisticsOrder.OrderMattersExample`).
* The shipment is written only when its status changed
  (src/logistics/logistics_ingestion_service.py:153). A later time that confirms
  the current status is therefore lost, and a later call can take an older event
  (`LogisticsSplit.SplitAgreesExactly`, `LogisticsSplit.SplitExample`).
* LOWEST_COST passes over a free path when only positive prices compete with it,
  because a zero price counts as infinite (src/lead_time/path_ranker.py:48;
  `PathRanker.LowestCostIsCheapestExactly`, `PathRanker.FreePathPassedOver`).
* Paths with repeated ids can remain without a label
  (`PathRanker.UnlabelledExactly`, `PathRanker.RepeatedIdUnlabelled`).
* Two actors or projects with different columns share one in-memory row exactly
  when their joined keys coincide (`GraphStore.StoreRefinesTableExactly`,
  `GraphStore.CollisionExample`).
* An order can be associated a second time exactly when its state was cleared
  (`OtherWriters.SecondAssociationExactly`,
  `OtherWriters.ClearingAllowsSecondAssociation`).
* A packet whose stages are all zero takes its stated total as the production
  days sent to the lead-time service, and only then a bound between the two lead
  times fails (`LeadTimes.BoundsHoldExactly`, `LeadTimes.IdlePacketExample`).

## Model

| member | source | states |
|---|---|---|
| `ConfirmedOrders.TruthfulReplyRoundTrip` | src/integrations/confirmed_orders.py:58-92 | the reply of a truthful provider is read back as exactly the record it was made from |
| `ConfirmedOrders.ReadSucceedsExactly` | src/integrations/confirmed_orders.py:58-92 | a read succeeds exactly on a 200 reply of this tenant for this very order with a revision, and carries that revision and state |
| `ConfirmedOrders.RequestFailsExactly` | src/integrations/confirmed_orders.py:58-76 | a request fails exactly without a well-formed 200 reply of this tenant; its status is 503 exactly without a reply, that of the reply for 404, 409 and 422, and 502 otherwise |
| `ConfirmedOrders.PostRaisesExactlyOnRefusal` | src/integrations/confirmed_orders.py:58-76 | of all that can come back for the POST, only a 404 or 422 ends the call; a lost, malformed, foreign or conflicting reply leads to the read-back |
| `ConfirmedOrders.SnapshotsPrecedeAlways` | src/integrations/confirmed_orders.py:94-108 | in every run, whoever writes, each snapshot a caller holds and each revision a POST in flight expects is at or before the provider's record |
| `ConfirmedOrders.AssociationNeverOverwrites` | src/integrations/confirmed_orders.py:94-103 | in every run with any other writers, an accepted POST replaced a record without a state |
| `ConfirmedOrders.OnePostPerCallAlways` | src/integrations/confirmed_orders.py:94-108 | in every run each call has sent at most one POST, for its own order and state, whatever is lost or repeated |
| `ConfirmedOrders.ReadHasOutcome` | src/integrations/confirmed_orders.py:87-108 | receiving the reply to a read does nothing, fails the call, returns the snapshot the provider gave, or sends the one POST that expects its revision |
| `OtherWriters.AtMostOneAssociationPerOrder` | src/integrations/confirmed_orders.py:94-108 | whatever happens to other orders, an order that no writer clears has at most one POST accepted in any run, and keeps a state afterwards |
| `OtherWriters.PostsSafeAlways` | src/integrations/confirmed_orders.py:94-103 | in every run requests are sent only for well-formed ids and only known orders accept one |
| `OtherWriters.AssociablePreciselyWhenEmpty` | src/integrations/confirmed_orders.py:94-108 | from any reachable state, some continuation that does not clear the order has a POST for it accepted exactly when the order is well named, known and without a state |
| `OtherWriters.SecondAssociationExactly` | src/integrations/confirmed_orders.py:94-108 | an order that was associated before can be associated again, without being cleared from then on, exactly when its record has no state now |
| `OtherWriters.ClearingAllowsSecondAssociation` | src/integrations/confirmed_orders.py:94-108 | a concrete run: once another writer clears the state, a second call associates again |
| `ConfirmedOrders.AgreementAlways` | src/integrations/confirmed_orders.py:87-108 | with only associating writers, every answered read, returned result and POST in flight is consistent with a record that changes once, from empty to set |
| `ConfirmedOrders.ReturnedStatesAgree` | src/integrations/confirmed_orders.py:94-108 | with only associating writers, any two calls on one order that return a state return the same one at the same revision, and the provider holds it |
| `OtherWriters.StatesAlwaysKept` | src/integrations/confirmed_orders.py:87-108 | while no writer replaces an order's state, every state that a call has seen for it is the one the provider holds |
| `OtherWriters.ReturnedStatesAgreeDespiteWriters` | src/integrations/confirmed_orders.py:94-108 | with writers that bump revisions and keep states, any two calls that return a state for one order return the same one, which the provider still holds |
| `ConfirmedOrders.StateComesFromAnAcceptedPost` | src/integrations/confirmed_orders.py:101-104 | with only associating writers, a record is as it was at the start or carries the state of an accepted POST, one revision on |
| `ConfirmedOrders.DeliveredCallNeverReturnsNull` | src/integrations/confirmed_orders.py:95-108 | with only associating writers, once the provider has processed a call's POST, accepted or not, the call cannot return without a state |
| `AssociateCall.Network.Get` | src/integrations/confirmed_orders.py:87-92 | one read with arbitrary steps of others around it is a run of the system; it succeeds exactly when the provider handles it for a known order and its own reply arrives, with the record of that moment, and an empty first read puts the POST in flight |
| `AssociateCall.Network.SendCompareAndSet` | src/integrations/confirmed_orders.py:100-107 | one POST in flight, which may be lost, and any reply to it, is a run of the system; handled and not dropped, it is accepted if the record has the expected revision |
| `AssociateCall.Network.Associate` | src/integrations/confirmed_orders.py:94-108 | the sequential call, with anything happening between its actions, is a run of the system in which its client ends with the result; after an empty first read a handled POST delivers this call's order, state and the revision read, and is accepted if the record still has it; undisturbed, the call returns its own state one revision on and the provider holds it, or returns the state that was there |
| `AssociateCall.Network.WriteAndReadBack` | src/integrations/confirmed_orders.py:100-108 | the second half of the call: POST, re-raise only a refusal, read back |
| `AssociateCall.CallLearnsTheAssociation` | src/integrations/confirmed_orders.py:94-108 | with only associating writers, a state returned by the call is what the provider holds, and a call whose POST was processed before its read-back returns one |
| `Logistics.LaterTransitive` | src/logistics/logistics_ingestion_service.py:146-149 | the string order that compares event times is transitive |
| `Logistics.LaterTotal` | src/logistics/logistics_ingestion_service.py:146-149 | it is total and irreflexive, with the empty string lowest |
| `Logistics.Normalized` | src/logistics/logistics_ingestion_service.py:83-85 | an event's own normalised status wins; otherwise the first of its status text, status and status code that says anything is normalised |
| `Logistics.SameHashExactly` | src/logistics/logistics_ingestion_service.py:90-100 | with a collision-free digest, two events of a shipment share a hash exactly when they have the same provider id, or neither has one and they agree in normalised status, time, location and the first 80 characters of the description |
| `Logistics.IngestionService.IngestTrackingNumber` | src/logistics/logistics_ingestion_service.py:24-60 | adds one shipment under a fresh id with the status label_created and no event time |
| `Logistics.IngestionService.SyncTracking` | src/logistics/logistics_ingestion_service.py:63-67 | fails, changing nothing, exactly for an unknown shipment; otherwise ingests the batch |
| `Logistics.IngestionService.NormalizeAndStoreEvents` | src/logistics/logistics_ingestion_service.py:70-171 | the loop over a batch appends its events and leaves the shipment as the fold over the batch says; no other shipment changes, and this one keeps its identity and is marked as synced exactly when its status changed |
| `Logistics.LatestIsFirstGreatest` | src/logistics/logistics_ingestion_service.py:75-149 | status and time after a batch are those of the first new event with the greatest time beyond the stored one, or unchanged when there is none |
| `LogisticsOrder.OrderIrrelevant` | src/logistics/logistics_ingestion_service.py:75-149 | with distinct hashes, order is irrelevant exactly when the latest events of the batch report one status |
| `LogisticsOrder.OrderIrrelevantExactly` | src/logistics/logistics_ingestion_service.py:89-149 | for every batch, repeated hashes included, status and time do not depend on the order exactly when the latest events report one status and, if there are any, one of them shares its hash with no older event |
| `LogisticsOrder.EveryEnding` | src/logistics/logistics_ingestion_service.py:89-149 | whatever the order, a batch ends with an event that can decide (new, later than the stored time, every other new hash having an event not later than it) or as it began, which it then can |
| `LogisticsOrder.SomeOrderEndsWith` | src/logistics/logistics_ingestion_service.py:89-149 | every event that can decide does so in some order |
| `LogisticsOrder.SomeOrderStays` | src/logistics/logistics_ingestion_service.py:89-149 | a batch whose every new hash has an event not later than the stored time changes nothing in some order |
| `LogisticsOrder.ShipmentOrderIrrelevantExactly` | src/logistics/logistics_ingestion_service.py:75-157 | for every batch the stored shipment is the same in every order exactly when all events that can decide report the current status, or one always decides and all that can report one status and time |
| `LogisticsOrder.FrontTopWins` | src/logistics/logistics_ingestion_service.py:146-149 | any of the latest events decides the status and time in some order, whatever the hashes |
| `LogisticsOrder.OrderMattersExample` | src/logistics/logistics_ingestion_service.py:91-149 | two reports under one provider id: the latest events agree, yet the two orders end in different statuses |
| `Logistics.ChangedStatusHasLaterTime` | src/logistics/logistics_ingestion_service.py:153-157 | a changed status comes with a non-empty time later than the stored one, so the clock is never used as the event time |
| `Logistics.RunGrows` | src/logistics/logistics_ingestion_service.py:75-171 | over any run last_event_at never moves back, no stored event changes and the identity of a shipment is fixed |
| `Logistics.StoredOnce` | src/logistics/logistics_ingestion_service.py:82-131 | a batch stores each raw event once, in order, marked duplicate exactly when its hash was seen before it |
| `Logistics.LogAlwaysValid` | src/logistics/logistics_ingestion_service.py:75-131 | in every reachable log an event is a duplicate exactly when an earlier stored one has its shipment and hash, and hashes are those of the raw events |
| `Logistics.DuplicatesAreRepeatsExactly` | src/logistics/logistics_ingestion_service.py:75-131 | over any run, with a collision-free digest, an event is stored as a duplicate exactly when an earlier event of its shipment is the same report |
| `Logistics.FreshReportsExactly` | src/logistics/logistics_ingestion_service.py:75-131 | after any run, with a collision-free digest, an event of a batch is new exactly when its report is neither stored nor earlier in the batch |
| `Logistics.ExactlyOneOriginal` | src/logistics/logistics_models.py:86-104 | each hash of a shipment has exactly one event that is not a duplicate, the earliest stored |
| `LogisticsSplit.SeenIsStored` | src/logistics/logistics_ingestion_service.py:75-101 | the hashes a later call reads back from the store are those known before and those of the batch |
| `Logistics.KnownEventsFoldAway` | src/logistics/logistics_ingestion_service.py:99-149 | events with known hashes leave status, time and known hashes alone |
| `Logistics.KnownBatchIsHarmless` | src/logistics/logistics_ingestion_service.py:75-157 | a batch whose hashes are all in the store becomes duplicates only and changes no shipment |
| `Logistics.ReplayIsHarmless` | src/logistics/logistics_ingestion_service.py:70-171 | any reordering, subset or repetition of stored events, after any later operations, is stored as duplicates and changes no shipment |
| `LogisticsSplit.CallShowsDecider` | src/logistics/logistics_ingestion_service.py:146-157 | a call shows the status and time of its deciding event exactly when that event reports another status |
| `LogisticsSplit.SplitAgrees` | src/logistics/logistics_ingestion_service.py:146-157 | two calls end in the status of one call with both batches when the first changed the status or saw nothing later, and in its event time too in the second case |
| `LogisticsSplit.SplitAgreesExactly` | src/logistics/logistics_ingestion_service.py:146-157 | with the deciding events of both batches: the status differs exactly when the first only confirms the current status and the second reports another without being later; the event time differs besides exactly when the first changes the status and the second, later, reports the old or the new one again |
| `LogisticsSplit.SplitExample` | src/logistics/logistics_ingestion_service.py:146-157 | a later confirmation followed by an older report of another status ends differently in two calls and in one |
| `GraphStore.IndexStaysValid` | bm_db_adapter.py:219-229 | after each get-or-create every index entry points at the row with that key, every row is indexed, and the row returned is in the store |
| `GraphStore.StepRefinesExactly` | bm_db_adapter.py:196-229 | one call answers as the relational first-row lookup exactly when no row with other columns has the joined key, and then store and table go on agreeing |
| `GraphStore.RunKeepsRows` | bm_db_adapter.py:219-229 | every row and index entry survives every later call sequence unchanged |
| `GraphStore.GetOrCreateIsIdempotent` | bm_db_adapter.py:246-285 | asking again for the same columns, with whatever defaults and after any later calls, returns the same row and adds none |
| `GraphStore.TableHoldsRequests` | bm_db_adapter.py:197-218 | the relational table holds exactly the column values requested so far |
| `GraphStore.UnambiguousRunsRefine` | bm_db_adapter.py:196-285 | over any unambiguous call sequence the store holds the relational table, row for row in order |
| `GraphStore.StoreRefinesTableExactly` | bm_db_adapter.py:196-285 | a whole call sequence is answered alike by both exactly when no two of its requests differ in columns but share a joined key |
| `GraphStore.CollisionExample` | bm_db_adapter.py:219-229 | the columns (a:b, c) and (a, b:c) share a row in the store and have two in the table |
| `GraphStore.JoinKeyInjective` | bm_db_adapter.py:220-221 | the joined key determines both columns when one of them is free of colons |
| `GraphStore.ColonFreeIsUnambiguous` | bm_db_adapter.py:246-259 | a call sequence with one colon-free column is unambiguous |
| `ProcurementGraph.BMDbAdapter.GetOrCreateActor` | bm_db_adapter.py:190-229 | returns the row indexed under name and type, changing nothing, or adds one row with exactly these columns at the end; the index stays valid |
| `ProcurementGraph.BMDbAdapter.GetOrCreateProject` | bm_db_adapter.py:235-285 | the same for projects by buyer and key; a new project has the given columns, and the status CREATED unless they say otherwise |
| `ProcurementGraph.BMDbAdapter.CreateEdge` | bm_db_adapter.py:332-374 | adds the edge; a consistent store stays consistent exactly when the edge has what its status calls for |
| `ProcurementGraph.BMDbAdapter.CreateInquiry` | bm_db_adapter.py:419-453 | adds the inquiry; consistency is kept exactly when its edge exists in its project |
| `ProcurementGraph.BMDbAdapter.CreateResponse` | bm_db_adapter.py:459-496 | adds the response; consistency is kept exactly when an inquiry it names exists in its project |
| `ProcurementGraph.BMDbAdapter.SetColumns` | bm_db_adapter.py:398-398 | column by column, each given one has the given value and every other one, like the id, is as before |
| `ProcurementGraph.BMDbAdapter.UpdateEdge` | bm_db_adapter.py:376-399 | a known edge gets each given column and keeps every other, no other row changes, and an unknown edge fails changing nothing; consistency is kept exactly when the edge has what its status calls for and stays in its project or has no inquiry |
| `ProcurementGraph.BMDbAdapter.DanglingInquiries` | bm_db_adapter.py:755-763 | reports exactly the inquiries of the project whose edge is not there |
| `ProcurementGraph.BMDbAdapter.DanglingResponses` | bm_db_adapter.py:756-770 | reports exactly the responses of the project that name an inquiry which is not there |
| `ProcurementGraph.BMDbAdapter.IncompleteEdges` | bm_db_adapter.py:772-784 | reports exactly the edges of the project whose status calls for an inquiry or response they lack |
| `ProcurementGraph.BMDbAdapter.CheckGraphConsistency` | bm_db_adapter.py:738-786 | reports exactly the violations of the project, row by row, and none exactly when the relational conditions hold |
| `ProcurementGraph.NoIssueMeansConsistent` | bm_db_adapter.py:738-786 | on an arbitrary store no issue exists exactly when every reference of the project resolves and every edge is complete |
| `ProcurementGraph.AddEdgeKeepsExactly` | bm_db_adapter.py:332-374 | adding an edge keeps every project consistent exactly when the edge is complete for its status |
| `ProcurementGraph.AddInquiryKeepsExactly` | bm_db_adapter.py:419-453 | adding an inquiry keeps every project consistent exactly when its edge is there |
| `ProcurementGraph.AddResponseKeepsExactly` | bm_db_adapter.py:459-496 | adding a response keeps every project consistent exactly when the inquiry it names is there |
| `ProcurementGraph.PatchEdgeKeepsExactly` | bm_db_adapter.py:376-399 | updating an edge keeps every project consistent exactly when the edge is still complete and stays in its project or has no inquiry |
| `ProcurementGraph.LifeStepKeepsValid` | run_bm_e2e_with_db.py:65-193 | each step of a lifecycle keeps every project consistent and every other lifecycle's links in place |
| `ProcurementGraph.LifeStepTakesEffect` | run_bm_e2e_with_db.py:115-182 | each step leaves its row, link and status: an inquiry on its edge, SENT with the inquiry linked, a response to the inquiry, the response linked with the advanced status, APPROVED |
| `ProcurementGraph.EdgeHasLastStatus` | run_bm_e2e_with_db.py:65-193 | over any interleaving the edge of each lifecycle has the status that the lifecycle's own last step asked for |
| `ProcurementGraph.LifecyclesStayConsistent` | bm_db_hardening.py:375-440 | after any interleaving of any number of lifecycles, with quotes revised any number of times, no project has an issue |
| `PathScore.ScoreIsMonotone` | src/lead_time/path_ranker.py:7-14 | a path no worse in lead time, risk, price, confidence and feasibility scores no lower, and strictly higher when it is faster and trusted at all |
| `PathScore.ScoreBounds` | src/lead_time/path_ranker.py:7-14 | a score lies between zero and 1.32 times the confidence and reaches the top exactly for an immediate, riskless, costless, feasible path |
| `PathScore.ScoreIsConfidenceTimesQuality` | src/lead_time/path_ranker.py:14-14 | the score is the confidence times the nested product of the other factors |
| `PathScore.LeadTimeProportion` | src/lead_time/path_ranker.py:8-8 | scores of paths that differ in lead time only are inversely proportional to thirty days plus the lead time |
| `PathScore.RiskProportion` | src/lead_time/path_ranker.py:9-9 | scores of paths that differ in risk only are inversely proportional to one plus the risk |
| `PathScore.PriceProportion` | src/lead_time/path_ranker.py:10-14 | scores of paths that differ in price only are in the proportion of 110 plus the price to 100 plus the price |
| `PathScore.ConfidenceProportion` | src/lead_time/path_ranker.py:14-14 | scores of paths that differ in confidence only are proportional to it |
| `PathScore.FeasibilityProportion` | src/lead_time/path_ranker.py:13-14 | a path that misses the deadline scores five twelfths of the same path in time |
| `StableSort.StableDescIsStable` | src/lead_time/path_ranker.py:19-19 | the sort is a descending permutation that keeps the order of the elements of every key |
| `StableSort.StableSortUnique` | src/lead_time/path_ranker.py:19-19 | two such sorts of one list are equal, so the promise determines the result |
| `PathRanker.FasterRanksBetter` | src/lead_time/path_ranker.py:17-22 | a path that is nowhere worse, strictly faster and trusted at all gets a strictly better rank |
| `PathRanker.FirstLeast` | src/lead_time/path_ranker.py:37-57 | a stage chooses the first of its unused candidates that no other candidate undercuts, and nobody exactly when it has none |
| `PathRanker.LabelsPartition` | src/lead_time/path_ranker.py:25-65 | with distinct ids every position gets one label, BEST_OVERALL is rank one alone, and only BACKUP is shared |
| `PathRanker.StageLabelIsLeast` | src/lead_time/path_ranker.py:37-58 | with distinct ids, the labelled path of a stage is least among the paths unlabelled at that stage, in days, price or number of flags, and the first such |
| `PathRanker.StagesAreFilled` | src/lead_time/path_ranker.py:37-58 | with distinct ids, a stage with a candidate hands out its label |
| `PathRanker.LowestCostIsCheapestExactly` | src/lead_time/path_ranker.py:45-51 | with distinct ids, LOWEST_COST has the least price of its stage unless a free path competes with positive prices only |
| `PathRanker.FreePathPassedOver` | src/lead_time/path_ranker.py:45-51 | a ranked list on which LOWEST_COST goes to a path that costs five although one is free |
| `PathRanker.PickedIsChosen` | src/lead_time/path_ranker.py:32-58 | a position gets one of the single labels exactly when it is rank one or the first of the least candidates of a stage among the ids not yet used |
| `PathRanker.UnlabelledExactly` | src/lead_time/path_ranker.py:35-63 | whatever the ids, a position stays unlabelled exactly when another with its id is rank one or the first of the least candidates of a stage |
| `PathRanker.RepeatedIdUnlabelled` | src/lead_time/path_ranker.py:35-63 | of two paths with one id the second gets no label |
| `PathRanker.SortData` | src/lead_time/path_ranker.py:19-19 | sorting the path objects sorts their data |
| `PathRanker.RankPaths` | src/lead_time/path_ranker.py:17-22 | the objects come back in stable score order, ranked from one without gaps, labels untouched |
| `PathRanker.GiveStage` | src/lead_time/path_ranker.py:37-58 | one stage labels the object it chose, uses up its id and changes no other label and no rank |
| `PathRanker.LabelRanked` | src/lead_time/path_ranker.py:32-63 | the stages together give every object its label and leave ranks alone |
| `PathRanker.AssignLabels` | src/lead_time/path_ranker.py:25-65 | the objects end in stable score order with ranks from one and exactly the labels of the stages |
| `DynamicForms.FormService.CreateFromInquiry` | src/dynamic_forms/service.py:24-94 | no inquiry gives no form, a second form of a project fails, both changing nothing; otherwise an unlocked form with version 1 is stored |
| `DynamicForms.FormService.UpdateFormFields` | src/dynamic_forms/service.py:116-179 | succeeds exactly for a known unlocked form, appends the next version with the merged fields, what the detector misses among them and the confirmed fields moved, and sets the counter to it; otherwise nothing changes |
| `DynamicForms.FormService.LockForm` | src/dynamic_forms/service.py:182-190 | a known form is locked; every other form, field and version is as before |
| `DynamicForms.FormService.GetCurrentForm` | src/dynamic_forms/service.py:97-113 | returns a stored row of the form that no other row of the form outnumbers; none exactly for an unknown form or one without rows |
| `DynamicForms.FormService.LoadCurrentForm` | src/decision_packets/service.py:22-37 | returns a stored row of the form whose number is the form's counter; none exactly for an unknown form or when there is no such row |
| `DynamicForms.FirstVersionStoresMissing` | src/dynamic_forms/service.py:39-79 | a first version stores its own missing list, no private key, and marks only stored fields as generated |
| `DynamicForms.FirstVersionKeepsExtraction` | src/dynamic_forms/service.py:38-79 | a first version keeps every extracted public field with its value; its missing list is the detector's, or everything required for an unusable extraction, and exactly the extracted non-null public fields of a usable one count as generated |
| `DynamicForms.FormsAlwaysValid` | src/dynamic_forms/service.py:58-166 | after any run the versions of a form are numbered 1..n without gaps and its counter is n |
| `DynamicForms.LookupsAgree` | src/dynamic_forms/service.py:107-113 | after any run looking up the highest version or the counter's version gives the same row |
| `DynamicForms.SnapshotsArePermanent` | src/dynamic_forms/service.py:130-190 | earlier snapshots are a prefix of later ones, and once locked a form never gains another |
| `DynamicForms.LockIsFinal` | src/dynamic_forms/service.py:130-190 | once locked a form stays locked whatever follows, no update goes through, and its versions are those it had when locked |
| `DynamicForms.ImportedFormIsFinal` | src/order_confirmation/provider_handoff.py:154-157 | the form of an imported order is locked for good, with one version whose fields are all confirmed |
| `DynamicForms.HistoryAlwaysExplained` | src/dynamic_forms/service.py:130-166 | every version is version 1 with the successful updates since merged in, and its provenance sets are those of version 1 moved by the confirmations since |
| `DynamicForms.FieldsAreMergedUpdates` | src/dynamic_forms/service.py:66-166 | version n has version 1's fields with all n-1 updates merged in order, apart from its own missing list, which is what the detector says of the merged fields and is stored |
| `DynamicForms.ProvenanceOnlyAdvances` | src/dynamic_forms/service.py:141-164 | generated and confirmed fields are disjoint on every version; confirmed ones only grow, and a field leaves the generated set exactly when confirmed |
| `ApprovalGates.ApprovalService.CreateApprovalRequest` | src/approval_gates/service.py:19-46 | a pending request with its binding is stored exactly for a known action type |
| `ApprovalGates.ApprovalService.ApproveRequest` | src/approval_gates/service.py:49-67 | approves a known request, sets its reviewer and changes nothing else, and records the review; an unknown one is a 404 |
| `ApprovalGates.ApprovalService.RejectRequest` | src/approval_gates/service.py:70-88 | rejects a known request, sets its reviewer and changes nothing else, and records the review; an unknown one is a 404 |
| `ApprovalGates.ApprovalService.RequireApproved` | src/approval_gates/service.py:91-138 | succeeds exactly when the approval is approved, unspent and bound to this very action, resource and tenant; then it alone is marked spent now and the grant is recorded; every refusal is a 403 that changes nothing |
| `ApprovalGates.ApprovalService.GenerateDecisionPacket` | src/decision_packets/service.py:277-286 | a packet comes with a pending approval request bound to it |
| `ApprovalGates.ApprovalService.ApproveDecisionOption` | src/decision_packets/service.py:308-344 | succeeds exactly when the approval is honoured for this packet and tenant and the packet belongs to the tenant; then the approval is spent, the packet approved with the option and one event emitted; otherwise 403 or 404 and nothing changes, the approval included |
| `ApprovalGates.AlwaysRecorded` | src/approval_gates/service.py:19-138 | after any run a request's binding, status and spent mark are what its history says |
| `ApprovalGates.GrantsAreJustified` | src/approval_gates/service.py:91-138 | in any run each grant is of the action fixed at creation, follows an approving last review, and is the first of its approval |
| `ApprovalGates.GrantedAtMostOnce` | src/approval_gates/service.py:91-138 | no approval is granted twice, whatever reviews come between |
| `ApprovalGates.SpentForGood` | src/approval_gates/service.py:122-138 | once an approval has let an operation through, it is honoured for no action at all, whatever comes later |
| `ApprovalGates.ApprovalsPersist` | src/approval_gates/service.py:49-138 | no operation removes an approval, changes its binding or unspends it |
| `ApprovalGates.QuotesNeverOutnumberApprovals` | src/decision_packets/service.py:308-344 | a packet's QUOTE_APPROVED events never outnumber its spent approvals, nor those the approvals created for it |
| `ApprovalGates.EventsAlwaysFitPackets` | src/decision_packets/service.py:327-344 | over any run every QUOTE_APPROVED event is for a packet of its own tenant, and a packet is approved, with the option of its last event, exactly when it has one |
| `ApprovalGates.ApprovedByItsTenant` | src/decision_packets/service.py:327-344 | the last event of an approved packet is of the packet's own tenant and carries the option it recommends |
| `SupplierFeasibility.Workspace.IntakeSupplierResponse` | src/b_side/supplier_response_intake.py:9-25 | the new record comes last, before it are exactly the other suppliers' records, and an early status advances |
| `SupplierFeasibility.IntakeKeepsLastOfEach` | src/b_side/supplier_response_intake.py:14-19 | after any submissions the list is the last response of every supplier, in order of last submission |
| `SupplierFeasibility.OneRecordPerSupplier` | src/b_side/supplier_response_intake.py:14-19 | that list has exactly one record for each supplier that ever responded |
| `SupplierFeasibility.RecordsAreLastSubmissions` | src/b_side/supplier_response_intake.py:14-19 | the records are submissions at increasing positions, each the last of its supplier |
| `SupplierFeasibility.InputOf` | src/b_side/feasibility_engine.py:33-58 | the service is sent the fabric days or else the material days, the stated days, flags and price as they are, and one half for a missing confidence |
| `SupplierFeasibility.PathOf` | src/integrations/gltg_leadtime.py:29-147 | the path made of a response and its estimate keeps supplier, price and confidence, has the flags of both and a tenth of risk per flag, no negative days, and is infeasible exactly beyond the deadline |
| `SupplierFeasibility.BuildPaths` | src/b_side/feasibility_engine.py:166-195 | one new unlabelled path object per eligible response, in order |
| `SupplierFeasibility.RankAndCap` | src/b_side/feasibility_engine.py:197-205 | the objects are ranked, labelled and cut to the cap |
| `SupplierFeasibility.Workspace.RunFeasibilitySimulation` | src/b_side/feasibility_engine.py:135-219 | the report is the first k of all ranked paths of the able suppliers, selects its first path and is stored on the workspace |
| `SupplierFeasibility.OnePathPerEligibleResponse` | src/b_side/feasibility_engine.py:166-195 | uncapped, there are as many paths as responses that can make the order |
| `SupplierFeasibility.PathHasResponse` | src/b_side/feasibility_engine.py:166-195 | every path was made from a stored response that can make the order |
| `SupplierFeasibility.ResponseHasPath` | src/b_side/feasibility_engine.py:166-195 | every such response has a path |
| `SupplierFeasibility.ReportIsRanked` | src/b_side/feasibility_engine.py:197-205 | the report is numbered from one, best score first, with the labels of these ranks |
| `SupplierFeasibility.CapShowsPrefix` | src/b_side/feasibility_engine.py:198-213 | a smaller cap shows a prefix of a larger one, and the selected path is the one of rank one |
| `LeadTimes.FirstOccurs` | src/lead_time/calculator.py:13-19 | a stage has a value exactly when some packet has it, and it is that of the first such packet |
| `LeadTimes.CalculatePathLeadTime` | src/lead_time/calculator.py:2-77 | a total exists exactly when each required stage occurs in some packet, is the longest parallel stage plus the sequential ones, and the missing list names exactly the stages that do not occur; a zero packaging lead time gives way to the packaging time |
| `LeadTimes.SingleTotalIsCalculated` | src/decision_packets/service.py:198-198 | on the one packet of a decision option the calculator reads exactly the stored stages |
| `LeadTimes.NodeToSupplier` | src/lead_time/gltg_adapter.py:221-242 | the material days are the sum of fabric, trim and packaging, and a stated total takes the place of the production days exactly when every stage is zero |
| `LeadTimes.BoundsHoldExactly` | src/lead_time/gltg_adapter.py:221-242 | the total is at most the sum sent to the service, and that at most the total plus twice the parallel maximum, each exactly unless a stated total replaces all-zero stages |
| `LeadTimes.IdlePacketExample` | src/lead_time/gltg_adapter.py:221-242 | a packet of zeros with a stated total of thirty days: the calculator says none, the service is sent thirty |
| `LeadTimes.CompareLeadTimes` | src/decision_packets/service.py:124-138 | the calculator and the service components of one packet satisfy both bounds |
| `MatchScore.FillProductFits` | src/matching/scorer.py:47-100 | the order-side dimensions and the profile data they miss |
| `MatchScore.FillServiceFits` | src/matching/scorer.py:102-147 | the time, place, terms and history dimensions and the profile data they miss |
| `MatchScore.ScoreParticipant` | src/matching/scorer.py:34-167 | every dimension means what it says of participant and order, exactly the missing data are listed, and the rounded score lies between zero and one |
| `MatchScore.ClampActsExactly` | src/matching/scorer.py:153-161 | with unit dimensions the upper clamp never acts and the lower one stays out exactly when the penalty is at most the average |
| `MatchScore.ScoreIsStable` | src/matching/scorer.py:153-161 | changing any dimensions but the penalty moves the unrounded score by at most their weighted change over the total weight |
| `MatchScore.OneDimensionMoves` | src/matching/scorer.py:153-157 | changing one dimension moves the average by exactly the change times its share of the total weight |
| `MatchScore.EveryDimensionOnce` | src/matching/scorer.py:4-17 | the weighted dimensions are all eleven, each once |
| `MatchScore.TotalOfWeights` | src/matching/scorer.py:4-17 | they weigh 0.98 together |
| `MatchScore.PenaltyCosts` | src/matching/scorer.py:159-161 | with unit dimensions the penalty costs a tenth, or all there is if that is less |
| `MatchScore.RoundIsNearest` | src/matching/scorer.py:164-164 | the score is the nearest multiple of a ten-thousandth, an even one in a tie |
| `MatchScore.ScoreIsMonotone` | src/matching/scorer.py:153-167 | better dimensions and no more penalty never score lower, rounding included |
| `MatchScore.EvidenceIsUnit` | src/matching/scorer.py:48-161 | rates and completeness between zero and one give unit dimensions, and then an unpenalised score is the average itself |
| `MatchScore.NothingKnownIsNeutral` | src/matching/scorer.py:40-43 | a participant of whom nothing is known scores one half |
| `MediaReview.MediaStore.UploadMediaEvidence` | src/merchandiser/media_confirmation.py:38-65 | adds count new records, pending unless they are shipping labels; a negative count adds none |
| `MediaReview.MediaStore.MarkMediaBuyerConfirmed` | src/merchandiser/media_confirmation.py:120-139 | confirms exactly the pending records of the milestone, changes nothing else, and returns how many there were |
| `MediaReview.MediaStore.MarkMediaBuyerRejected` | src/merchandiser/media_confirmation.py:142-162 | rejects exactly those with the reason as their note, changes nothing else, and returns how many there were |
| `MediaReview.MediaAreConserved` | src/merchandiser/media_confirmation.py:120-162 | from any store, what is pending plus what is uploaded is what remains pending plus all counts returned, and each count returned is in the store as a status |
| `MediaReview.UploadsAreAccountedFor` | src/merchandiser/media_confirmation.py:38-162 | per milestone, over any run from the empty store, reviewable uploads equal pending plus confirmed and rejected counts returned |
| `MediaReview.FirstReviewDecides` | src/merchandiser/media_confirmation.py:120-162 | over any run a record stays and has the first verdict passed on its milestone since, and nothing else changes |
| `MediaReview.StatusChangesAtMostOnce` | src/merchandiser/media_confirmation.py:127-152 | no review status changes twice, and shipping labels never change |
| `MediaReview.LabelsNeedNoReview` | src/merchandiser/media_confirmation.py:59-59 | after any run exactly the shipping labels are exempt from review |
| `MediaReview.ReviewOrder` | src/merchandiser/media_confirmation.py:120-162 | reviews of different milestones commute; of one milestone the first wins and the second counts zero |

## Left out

- HTTP routes, authentication, database sessions, JSON files, event-log writing, console output: input and output only; stores are maps and sequences.
- Language models, channel adapters, the plugin and the user interface: foreign calls.
- Regular-expression and keyword parsers: they give only per-pattern facts; status normalisation is an uninterpreted function.
- The lead-time service's own calculation, digests and generated ids: uninterpreted functions or fresh parameters; freedom from digest collisions is a hypothesis of the few statements that need it, and of no other.
- ConfirmedOrders: the provider is assumed to keep its documented contract (a write takes effect only at the expected revision, each write raises the revision by one); the constructor's environment checks, the tenant map and `get_order` are not modelled.
- AssociateCall.Network.Associate: a reply that is not the provider's own may be anything for the POST, and for a read anything that the call rejects.
- PathScore: arithmetic over the reals; rounding of binary floating point is not modelled, nor the rounding of a risk score to two places, which is exact on tenths. Records on which the source divides by zero are excluded by the type, where the source raises.
- PathRanker.AssignLabels: path objects are assumed not to occur twice in the list; repeated ids are covered.
- SupplierFeasibility: the service is a function of what is sent to it and its day counts are not negative; of the stage breakdown only the fabric or material days are carried, and the service failing to answer, which ends the call before the workspace changes, is not modelled. Rationale texts and status strings of a report are left out.
- ProcurementGraph: requirements, rollups, events, later changes of a project's status, and the foreign-key and integrity queries of on mode; creating a row twice under one id, since ids are generated.
- ProcurementGraph.BMDbAdapter.GetOrCreateProject: the extra columns do not name the project's own id or summary, which the in-memory store would overwrite.
- ProcurementGraph.BMDbAdapter.CheckGraphConsistency: the order of the issue list is not stated.
- DynamicForms: the lists of generated and confirmed field names are sets, so their order and the tenant event on creation are not modelled; packets built from a version (RFQ, QC) are selections of keys.
- ApprovalGates: notes, timestamps of reviews and the identity of audit rows; the review entries of the history stand for the audit log.
- Decision packets: choosing up to three options and their summary texts; each is settled by reading one expression.
- LeadTimes: clarification questions, risk texts and confidence defaults; fractional days, which the calculator truncates.
- MatchScore: dates are a number of days to the deadline and the place comparison is one Boolean; a profile whose list fields are not lists scores one half and is not modelled apart.
- MediaReview: descriptions, artifact ids, the visibility and completeness marks, unreadable files, which are skipped, and the milestone update made by an upload. Records are known by position, so the order in which files are read does not matter to any statement.
- Production, quality and logistics milestone updates: statuses may move either way, so no run invariant is strong.
- Database races between concurrent transactions other than the association protocol.
