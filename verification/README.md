# Craqle replication, verified

Craqle replicates RDF graphs. Each graph is an observed-remove set of quads fed
by one topic, a causal DAG of signed operations kept by Irokle. This project
models the hard core of that machinery in Dafny and proves what it promises:
replicas converge, a crash never loses or repeats a record, history can be paged
and replayed exactly, a restore is published once and shows its target, and
search maintenance neither forgets work nor certifies work it has not done.

| file | what it models |
|---|---|
| `Clocks.dfy`, `OrSet.dfy`, `Topics.dfy` | vector clocks, the quad set, the operation DAG |
| `Shown.dfy` | what records show, told by their payloads |
| `Listings.dfy` | leading parts of a sorted listing, used by every paging proof |
| `Walk.dfy` | `history_page`, `history_entries` |
| `Delivery.dfy` | `topic_records_since` and its cursors |
| `Replays.dfy` | `history_content` |
| `Snapshots.dfy`, `Outcomes.dfy`, `Chains.dfy` | `apply_history`, `history_snapshot`, how it ends, and topics that reach its limits |
| `Reconcile.dfy`, `Passes.dfy`, `Order.dfy` | the reconcile machine with crashes, the pass that refines it, and when order matters |
| `Fence.dfy` | `own_pending` and the publication fence |
| `Restores.dfy`, `Receipts.dfy`, `Once.dfy` | restore content, `find_mutation`, publishing a restore once |
| `Joins.dfy` | `join_snapshot` |
| `Envelopes.dfy`, `Terms.dfy` | `check_batch`, `check_snapshot`, literal recognition |
| `Flushes.dfy`, `Permits.dfy`, `Reindex.dfy` | the search worker, flush permits, reindexing |

`dafny verify dfyconfig.toml` checks everything.

## What turned out false

Each of these has a lemma with failing inputs and one that says exactly when the
property holds.

- **Writing ahead.** A local write waits for the node's own pending records but
  not for visible records of others (`commit_with_plan` does not do what
  `ensure_applied` does for a restore). It may then delete, by its base clock, a
  quad whose insert is not applied yet; the insert later brings the quad back
  here and nowhere else. `Order.WriteAheadRun` gives such runs for every topic in
  which a first write deletes what a visible record inserts. `Order.WriteAheadIff`
  says, for any records that follow the write, when the replica ends right, and
  `Order.RunsAreMeaningIff` says it of every run. Runs without such writes always
  converge: `Order.CarefulRunsAreOrderFree`.
- **History limits.** A replayed history may pass its own row and byte limits
  and still be refused by `check_snapshot`, which also limits dots and actors:
  `Chains.HistoryCanExceedDots` builds the topics, `Envelopes.HistoryPassesSnapshotIff`
  gives the condition.
- **Paging with a fixed limit.** A caller that keeps the limit of the first page
  can get stuck where the history is wide: `Walk.MergeSticks`. It gets through if
  and only if, after every whole number of full pages, no more operations are
  open than the limit: `Walk.FixedLimitIff`.
- **Fence of a deleted graph.** Deletion drops the graph clock, so a membership
  record of a deleted graph can reuse an own sequence. `Fence.FenceFailsIff`: from
  any reachable state that is possible if and only if the graph is deleted and an
  own dot was ever applied. For live graphs the fence holds.
- **Retention.** Receipts are trimmed, prepared ones too. While they are kept a
  restore is published once (`Once.ExactlyOnce`); once trimmed it can be published
  again (`Once.TrimReopens`). `Once.CanPublishIff`: from any state between attempts
  it can be published if and only if the live or the durable receipt is missing,
  or is a prepared one under which the search finds no record.
- **Early deletes.** Outside causal order a replay need not give the meaning of
  its events; `OrSet.ReplayIsMeaningIff` says which orders do.

## Model

| member | source | states |
|---|---|---|
| `OrSet.ReplayMember` | src/history.rs:688-720 | In any order of distinct events, a dot is live exactly when its event put it there and no later event deletes the quad under a base clock that covers it |
| `OrSet.ReplayCoversMeaning` | src/history.rs:667-727 | Whatever the order, a replay never loses a dot of the order-free meaning |
| `OrSet.ReplayIsMeaningIff` | src/history.rs:667-727 | A replay gives the order-free meaning if and only if no insert runs after a delete that covers it without being deleted again later |
| `OrSet.CausalReplay` | src/history.rs:667-727 | Any order that respects causality gives the order-free meaning |
| `OrSet.Convergence` | README.md:9 | Two causal orders of the same events give the same quads with the same dots |
| `OrSet.EarlyDeleteDiverges` | src/history.rs:699-716 | A delete replayed before the insert it covers leaves the quad, causal order removes it |
| `OrSet.ReplayHintsWin` | src/history.rs:680-687 | The replayed render hints are those with the largest tag among the events |
| `OrSet.HintsConverge` | src/history.rs:680-687 | With one set of hints per tag, two orders of the same events end with the same hints |
| `Shown.MeaningShows` | src/history.rs:667-727 | The order-free meaning of records, over their payloads: a quad is there under the position of a record exactly when that record is a well-formed mutation of the graph outside the ledger that lists its insert, and no other such record that observed the position lists its delete |
| `Shown.WinnerIsShown` | src/history.rs:680-687 | The winning hints are those of the payload with the largest tag, and there are none only if no such record has any |
| `Clocks.Observe` | src/internal/core.rs:209-235 | Advancing covers what was covered and the new position, and never moves back |
| `Clocks.Merge` | src/internal/core.rs:209-235 | A merged clock covers exactly what either side covers |
| `Walk.Newest` | src/history.rs:595-625 | The heap yields an operation no other in it is newer than |
| `Walk.HistoryPage` | src/history.rs:582-651 | The newest part of the heads' past in descending (generation, id), and as `next` exactly the operations left open: heads and dependencies of the page that it does not list. OperationLimit exactly when there are more heads than the limit, otherwise Unavailable exactly on unknown heads, otherwise ByteLimit exactly when some leading part within the limit is over the byte budget; nothing else fails |
| `Walk.PagesListPast` | src/history.rs:582-651 | Pages followed through `next` list a leading part of the past, each operation once |
| `Walk.PagesAreExact` | src/history.rs:582-651 | `next` is empty only when the whole past is listed, and then each operation of it appears exactly once in descending order |
| `Walk.PageProgress` | src/history.rs:596-650 | A page that succeeds with something left lists at least one operation |
| `Walk.FixedLimitIff` | src/history.rs:586-592 | Following `next` with one limit never meets more heads than it admits if and only if, after every whole number of full pages in (generation, id) order, at most that many operations are open |
| `Walk.MergeSticks` | src/history.rs:586-592 | In every topic, a limit of one sticks at every merge of two operations |
| `Walk.HistoryEntries` | src/history.rs:654-664 | All operations of the past, oldest first, or an error when they do not fit one page |
| `Replays.ReplayEntries` | src/history.rs:676-726 | The map of dot lists holds the replay of the entries, keeps no empty or repeating list, and fails exactly on a deletion that is not rejected |
| `Replays.HistoryContent` | src/history.rs:667-727 | The content at some heads is the order-free meaning of their past without rejected records: exactly the quads and dots those records' payloads show, with the winning hints; it fails with a deletion exactly when such a record in the past deletes the graph |
| `Snapshots.HistoryBuild.Add` | src/sync.rs:2656-2690 | Inserting adds the one dot, keeping rows unique and tidy and the byte count exact; it is refused exactly when the content with it would be over the row or byte limit |
| `Snapshots.HistoryBuild.Remove` | src/sync.rs:2692-2722 | Deleting keeps the byte count exact without saturating and drops rows that lose their last dot |
| `Snapshots.HistoryBuild.Apply` | src/sync.rs:2634-2729 | One event changes the rows as it changes the quad set and advances the clock; it is refused exactly when the content after one of its changes would be over a limit |
| `Snapshots.ApplyHistory` | src/sync.rs:2634-2729 | Stops exactly at a deletion of the graph and goes on exactly past acceptable records that fit; control records and policies of the graph always go on and leave rows and clock alone, events change both as they change the quad set, everything else is refused |
| `Snapshots.HistorySnapshot` | src/sync.rs:1812-1894 | The rows read page by page hold the order-free meaning of the whole topic and are as `check_snapshot` wants them, limits on dots and actors aside; it fails or finds a deletion only at the next record after an accepted leading part, when that record is oversized, refused, too much, or the deletion |
| `Snapshots.EndsOneWay` | src/sync.rs:1812-1894 | How and after which records a snapshot ends is decided by the topic alone, so success, failure and deletion each have one exact condition |
| `Outcomes.SnapshotSucceedsIff` | src/sync.rs:1812-1894 | A snapshot succeeds if and only if every record of the topic is a control record, a policy of the graph or a well-formed mutation of it, none is over a page's bytes, and every content on the way, change by change in delivery order, is within the row and byte limits |
| `Outcomes.SnapshotStopsAt` | src/sync.rs:2634-2729 | Otherwise it stops at a deletion of the graph, or fails at an undecodable record, one of another graph, a malformed mutation, an oversized record or one that brings the content over a limit |
| `Outcomes.SnapshotShows` | src/sync.rs:1812-1894 | Its rows hold exactly the quads and dots the topic's payloads show |
| `Snapshots.ReplaysAgree` | src/history.rs:654-727 | `history_content` at all heads and `history_snapshot` at the frontier hold the same keys and dots despite their different orders |
| `Delivery.CausalDelivery` | src/sync.rs:1529-1681 | Before a record of a pass is consumed, all it depends on is covered by the cursor |
| `Delivery.CursorStaysClosed` | src/sync.rs:1529-1681 | The set a cursor covers is causally closed after every consumed record |
| `Delivery.DoneIsTarget` | src/sync.rs:1546-1681 | Nothing is pending exactly when the clock equals the target |
| `Delivery.PagingIsInvisible` | src/sync.rs:1546-1681 | However a pass is cut into pages, it delivers a leading part of the one merge by (generation, actor, sequence, id) |
| `Delivery.CompletePassesAgree` | src/sync.rs:1546-1681 | Two complete passes deliver the same list: every pending record once |
| `Delivery.NextRecord` | src/sync.rs:578-604 | The actor's first record after a position, if there is one |
| `Delivery.LeastCandidate` | src/sync.rs:547-570 | The chosen candidate comes before every other one |
| `Delivery.MergePage` | src/sync.rs:1590-1681 | The candidate merge yields a leading part of the pending records within the record and byte budgets, and stops only when full or done |
| `Delivery.TopicRecordsSince` | src/sync.rs:1514-1699 | A page is a leading part of the merge up to the target: the cursor's own target if it has one, else all the topic holds now. It makes progress, says truly whether more is left, and keeps that target in the cursor while there is; a fenced branch or progress past the target always fails, and otherwise only a missing position or an oversized first record does |
| `Delivery.OnePassOneTarget` | src/sync.rs:1546-1681 | Pages read one after another while the topic grows join to a leading part of the merge up to the target of the first, and to all of it once nothing is left |
| `Reconcile.TakeIsGood` | src/lib.rs:4723-4781 | Applying a record in its actor's turn keeps the quads a once-only replay and the graph clock truthful, and handles the record |
| `Reconcile.RefuseIsGood` | src/internal/store.rs:9213-9238 | Ledger entry and cursor in one commit keep every covered record accounted for |
| `Reconcile.DeliveredInTurn` | src/internal/replication.rs:2894-2940 | When a record is delivered, every earlier mutation of its actor is applied, so the graph clock may cover them |
| `Reconcile.LocalInTurn` | src/internal/replication.rs:2432-2447 | A local write that `own_pending` admits is in turn too |
| `Reconcile.StepKeeps` | src/lib.rs:2702-2832 | Every step, crashes, restarts and local writes included, keeps every store a crash could leave good |
| `Reconcile.EveryRunIsSafe` | src/lib.rs:2733-2831 | In every run, each record under a cursor is applied, a control record or in the ledger, and the quads of every store a crash could leave are a once-only replay of the records it applied |
| `Reconcile.AnyCommitCanBeLeft` | src/lib.rs:2809-2814 | At any point of any run a crash can leave any commit since the last persist, and a persist leaves only the last |
| `Reconcile.LedgerHolds` | src/lib.rs:4723-4781 | In every run the ledger holds only undecodable records, records of other graphs, unauthorized policies, malformed mutations, and policies and mutations that met a deleted graph |
| `Reconcile.CoveredHadEffect` | src/lib.rs:2733-2831 | In every run, by payload: a deletion under a cursor has emptied and tombstoned the graph, a policy is at or below the graph's, a mutation is applied, or the record is in the ledger for one of those reasons |
| `Reconcile.PolicyWasSet` | src/lib.rs:4741-4766 | In every run the policy of a graph is the tag of an authorized policy record of it |
| `Reconcile.SettleDoes` | src/lib.rs:4723-4781 | One record, by payload: a deletion empties and tombstones the graph, an authorized policy on a live graph leaves the larger tag, a well-formed mutation not applied before adds its inserts under its own dot and drops exactly the dots it observed of quads it deletes, a control record does nothing, and any other record gets its ledger entry and the cursor past it in one commit and touches nothing else |
| `Passes.OpenPage` | src/lib.rs:2722-2733 | A page read from the stored cursor; Expired always on another branch or past the target and never when every position on the way exists, Capacity only when the next record is over the page's bytes |
| `Passes.PageDelivers` | src/lib.rs:2735-2807 | Each record of a page may be delivered once those before it are, and is the least one pending |
| `Passes.Replica.DeliverRecord` | src/lib.rs:2735-2807 | One record: skipped, refused together with its cursor, or applied, with the effect its payload calls for; a step of the machine |
| `Passes.Replica.DeliverPage` | src/lib.rs:2735-2807 | Records are consumed in order up to the first that fails for now; the cursor has consumed exactly those before it |
| `Passes.Replica.SaveCursor` | src/lib.rs:2809-2814 | A page that consumed nothing leaves the stored cursor alone |
| `Passes.Replica.RestartCursor` | src/sync.rs:763-787 | A cursor of an earlier epoch of the same genesis restarts from nothing exactly when the own records it consumed are back; any other cursor stays |
| `Passes.FencedIff` | src/sync.rs:763-787 | A pass is fenced if and only if the cursor is of another genesis, or of another epoch while own records it consumed are lost |
| `Passes.Replica.ReconcileTopic` | src/lib.rs:2702-2832 | A pass is a run of the machine and terminates. When the way to the target is readable it succeeds, and ends with its clock at the target if and only if no graph event on the way fails for now; otherwise the first that does is the least one pending; a fenced cursor is an error and changes nothing |
| `Order.DeliveredCaughtUp` | src/sync.rs:1529-1681 | No record is delivered before one it observed is applied |
| `Order.CarefulRunsAreOrderFree` | src/lib.rs:2702-2832 | In runs whose local writes wait for what they observed, every store a crash could leave holds the order-free meaning of the records it applied |
| `Order.ReplicasConverge` | README.md:9 | Two replicas after any such runs that applied the same records hold the same dots |
| `Order.RunsAreMeaningIff` | src/lib.rs:2702-2832 | In every run, whatever its local writes did, each live store a crash could leave holds the order-free meaning of its records if and only if their order resurrects nothing |
| `Order.RunsShow` | src/lib.rs:2702-2832 | In every run a live store shows a quad under a dot exactly when a record it applied lists the insert and no record applied later that observed it lists the delete |
| `Order.CarefulRunsShow` | src/lib.rs:2702-2832 | In runs whose local writes wait it shows exactly what the payloads of the records it applied show |
| `Order.WriteAheadIff` | src/internal/replication.rs:2350-2358 | For a write applied at any ordered store and any caught-up records after it: the replica ends with the order-free meaning if and only if every quad the write deletes under a later insert it observed is deleted again by a still later record |
| `Order.WriteAheadRun` | src/internal/replication.rs:2350-2358 | In every topic where a first write deletes what one visible record inserts, a run of the machine ends with content that is not the meaning of what it applied |
| `Fence.ActorRange` | src/sync.rs:2017-2024 | The actor's next records in sequence, at most 256 |
| `Fence.OwnPending` | src/sync.rs:1993-2037 | `Some(0)` exactly when own records are lost or the cursor is on another branch; else the first own record past both the graph clock and the cursor, control records aside, or none |
| `Fence.PublicationFence` | src/sync.rs:1993-2037 | In every run of publishing, applying, resetting, restarting, repairing and deleting, a record published for a live graph gets a sequence above every own dot ever applied |
| `Fence.DotsNameOneRecord` | src/sync.rs:763-787 | An own dot that was applied keeps its one record to the end of every run |
| `Fence.ForeignCursorBlocks` | src/sync.rs:738-787 | A cursor of another genesis neither moves nor lets anything be published until it is repaired or that genesis is back |
| `Fence.OtherBranchBlocks` | src/sync.rs:738-787 | A cursor of another epoch or genesis stays put and lets nothing be published, applied or consumed until it is restarted or repaired or its branch is back |
| `Fence.LostRecordsBlock` | src/sync.rs:763-787 | While own records it consumed are lost it is not even restarted |
| `Fence.PublishThenApply` | src/internal/replication.rs:2432-2447 | A write that may be published may be applied by its writer at once, and its dot then names it |
| `Fence.GateIsOwnPending` | src/sync.rs:1993-2037 | The machine publishes a graph write exactly when the graph lives and `own_pending` finds neither a fence nor a waiting record |
| `Fence.LocalGateIsOwnPending` | src/internal/replication.rs:2432-2447 | The reconcile machine lets a local mutation in exactly when no own record before it waits |
| `Fence.FenceFailsIff` | src/lib.rs:2418-2428 | From any reachable state, some continuation without a further deletion publishes at the sequence of an own dot ever applied if and only if the graph is deleted and such a dot exists |
| `Restores.ContentChanges` | src/history.rs:754-772 | Deletes exactly what only the current content shows and inserts exactly what only the target shows, deletes first |
| `Restores.EnsureApplied` | src/history.rs:487-504 | Succeeds exactly when the cursor is on the branch and has consumed every head |
| `Restores.RestoreIff` | src/history.rs:353-365 | An event that diffs the shown content against a target yields the target if and only if what both show is in its causal past and what else is in that past is shown; whether or not its base clock covers itself |
| `Restores.MeaningLonger` | src/history.rs:667-727 | An event that observed a set of events applies last, however the others are ordered |
| `Restores.HistoryAtNew` | src/history.rs:133-139 | For an operation that extends the heads, the history at it is the content at the heads with its event applied |
| `Restores.StoreShowsPast` | src/history.rs:351-359 | A store whose cursor has consumed the heads, and that applied nothing else, shows the content at the heads |
| `Restores.RestoreInTopicIff` | src/history.rs:303-377 | For any store, however it got its content: the history at a restore that extends the heads shows exactly the target if and only if what the store and the target both show is in the content at the heads, and what that content shows beside the target, the store shows too |
| `Restores.RestoreIsCorrect` | src/history.rs:303-377 | After `ensure_applied`, an operation that extends the heads shows exactly the target, in history and in the store, and restoring the same target again has an empty diff |
| `Receipts.FindMutation` | src/sync.rs:1896-1991 | The bound event, or the first own record after the receipt's frontier that carries its id, with no unreadable own record before it; errors on another branch, a missing or wrong event; a readable frontier always gives an answer or names a rejected own record |
| `Receipts.FoundMeans` | src/sync.rs:1896-1991 | Over payloads: a search that finds nothing leaves no own mutation with the id and no unreadable own record past the frontier, and one that finds a record found the first of them |
| `Once.PublishedStep` | src/history.rs:297-336 | Once a restore is published, no step but a trim loses its receipt's way, through `find_mutation`, to that record |
| `Once.ExactlyOnce` | src/history.rs:297-336 | Over all attempts, crashes, growing topics and peers that reuse the id, as long as no receipt is trimmed: at most one own record carries the id and all answers agree: its operation, or nothing |
| `Once.AnswersStay` | src/history.rs:389-410 | From its publication on, every answer is that record's operation |
| `Once.PublishedAnswers` | src/history.rs:297-336 | A search that finds the record, and the apply of the published record, each add exactly that record's operation to the answers |
| `Once.FinishedAnswers` | src/history.rs:389-410 | In every run without a trim, an attempt on the finished receipt adds exactly what it holds, and that is the one own record with the id, or nothing if there is none |
| `Once.CanPublishIff` | src/history.rs:297-336 | Between attempts, some run without a trim publishes the restore, for the first time or again, if and only if the live or the durable receipt is missing or is a prepared one under which `find_mutation` finds nothing |
| `Once.TrimReopens` | src/internal/store.rs:11594-11680 | A published restore whose receipts are kept cannot be published again; after retention drops them it can, whatever the topic holds |
| `Joins.JoinIsMeaning` | src/internal/replication.rs:3284-3425 | Joining the states of two replicas gives the state of one that applied everything either had, with the merged clock |
| `Joins.JoinIsReplay` | src/internal/replication.rs:3284-3425 | Joining two replayed states equals replaying the union in any causal order |
| `Joins.JoinLaws` | src/internal/replication.rs:3864-3878 | The join is idempotent and commutative and keeps dots under the clock |
| `Joins.JoinAssociative` | src/internal/replication.rs:3864-3878 | The join is associative |
| `Joins.JoinAbsorbs` | src/internal/replication.rs:3864-3878 | Joining the same snapshot again changes nothing |
| `Joins.JoinDots` | src/internal/replication.rs:3864-3878 | A dot survives when both sides hold it, or one does and the other's clock has not seen it |
| `Joins.JoinQuad` | src/internal/replication.rs:3318-3364 | Adding, removing by a clock over the dropped dots and restoring what that took leaves exactly the join, and reports truly whether anything changed |
| `Joins.JoinSnapshot` | src/internal/replication.rs:3284-3425 | The quad-by-quad join is the join of the contents, and reports a change exactly when the clock or the content changed |
| `Envelopes.Envelope.CheckTerm` | src/sync.rs:2315-2338 | A remembered shape gives the verdict of a fresh check |
| `Envelopes.CheckBatch` | src/sync.rs:2397-2442 | The memoizing, early-stopping pass accepts exactly the batches that checking every term afresh accepts within the limits, whose adds carry the batch's event and whose removes stay under its base clock |
| `Envelopes.BatchOkIff` | src/sync.rs:2397-2442 | A batch is accepted if and only if its graph is legal, its subjects are no literals and its predicates IRIs, every insert is under its own dot and every delete within its base clock, and rows, bytes, inserts and actors are within the limits |
| `Envelopes.AcceptedBatchKeepsConcurrent` | src/sync.rs:2397-2442 | Applied to any state, an accepted batch drops only dots under its base clock and adds only its own event's dot |
| `Envelopes.CheckSnapshot` | src/sync.rs:2446-2481 | Accepts exactly well-formed rows with unique quads, non-empty dot lists without repeats, dots under the clock, and totals within the limits |
| `Envelopes.HistoryPassesSnapshotIff` | src/sync.rs:2634-2729 | A replayed history within its own limits passes `check_snapshot` if and only if its dots and actors are within that check's limits |
| `Chains.ChainSnapshot` | src/sync.rs:2634-2729 | For every quad and number of inserts within the byte limit, a well-formed topic exists whose snapshot has one row with that many dots |
| `Chains.HistoryCanExceedDots` | src/sync.rs:2118-2127 | The history of one insert more than the dot limit is read successfully within its own limits and refused by `check_snapshot` |
| `Terms.LanguageRecognised` | src/sync.rs:2182-2188 | The language check accepts exactly the tags of section 7 of RDF 1.1 N-Triples |
| `Terms.IriRecognised` | src/sync.rs:2174-2179 | The IRI check accepts exactly the bodies of section 7 of RDF 1.1 N-Triples without escapes, by code point |
| `Terms.ScanSound` | src/sync.rs:2196-2225 | A body the scan accepts is a sequence of raw characters and escapes |
| `Terms.ScanComplete` | src/sync.rs:2196-2225 | Every such sequence followed by a quote is accepted up to that quote |
| `Terms.LiteralOk` | src/sync.rs:2192-2238 | Accepts exactly a quoted body followed by nothing, a language tag or a datatype IRI |
| `Terms.LiteralIsUnambiguous` | src/sync.rs:2192-2238 | The closing quote, and so the body and the suffix, are unique |
| `Terms.QuotedIsLiteral` | src/sync.rs:2192-2238 | Every escaped and quoted value with a valid suffix is accepted |
| `Flushes.AnsweredOnce` | src/lib.rs:1124-1264 | In a sound trace no request is answered twice |
| `Flushes.ReceiptsAreSound` | src/lib.rs:1226-1258 | In a sound trace a successful receipt covers its request and every recovery raised while it waited, and follows a clean drain up to that bound, complete coverage and a persist |
| `Flushes.Worker.SettleFailures` | src/lib.rs:1097-1122 | Fails exactly the requests whose target reaches a failure without a retry time, keeps the others, and retries at the earliest retry time |
| `Flushes.Worker.DrainTarget` | src/lib.rs:1162-1172 | The bound of a drain is the larger of the certified bound and the least waiting target, or the queue's end when nobody waits |
| `Flushes.Worker.Collect` | src/lib.rs:1065-1095 | Queues exactly the flush requests of a round up to a stop, cancelled ones aside, and tells whether anything woke the worker |
| `Flushes.Worker.FinishDrain` | src/lib.rs:1226-1258 | Every request within the bound gets its receipt, or a failure, and the others wait on |
| `Flushes.Worker.Cycle` | src/lib.rs:1130-1264 | One turn queues exactly the round's flushes, keeps the trace sound and loses nobody; unless it is waiting for a retry it drains up to exactly that bound, and if all goes well everyone within it, at least one if any wait, has a receipt for what was asked; on a stop every remaining request gets a failure |
| `Flushes.Worker.DrainOnce` | src/lib.rs:1180-1258 | A clean drain without a recovery past its bound, with complete coverage and a persist, answers every request within its bound with its receipt, lifted over the recovery; nobody is lost |
| `Flushes.Worker.Work` | src/lib.rs:1124-1264 | Over any number of turns no request is answered twice, everyone who asked has an answer, waits or gave up, after a stop nobody waits, and every successful receipt covers its request and the recoveries raised while it waited, after a clean drain, complete coverage and a persist |
| `Permits.PermitsAreConserved` | src/lib.rs:822-854 | In every interleaving the counter stays within 1024 and never underflows; at rest it is the number of unreleased permits, and zero when all references are gone |
| `Reindex.ClearRetires` | src/internal/store.rs:12079-12130 | Clearing retires a graph's tokens up to the cutoff and nothing else |
| `Reindex.ClearGraphQueue` | src/internal/store.rs:11527-11551 | The entry-by-entry loop leaves exactly the later tokens |
| `Reindex.AcknowledgeRetires` | src/internal/store.rs:11445-11477 | The worker's acknowledgement retires exactly a graph's entries whose last token is covered |
| `Reindex.ReindexKeepsDebt` | src/internal/search/mod.rs:3335-3372 | With writers and the queue worker interleaved anywhere, stages resumed with an older target, and a crash at any point, every issued token is in the committed index or still queued, and every active generation has seen all that it is said to cover |

## Left out

- Irokle's storage, signatures, networking and epochs: `Topics.WellFormed` states what is relied on, and every view of a topic is taken to satisfy it.
- Encodings, digests and checksums, cursor versions included; a version 1 cursor would start from nothing.
- Literal aliases: a quad stands for its canonical spelling.
- Term lengths count characters, not UTF-8 bytes.
- Walk.HistoryPage: the generation index is honest, so the corruption errors of the page walk do not occur.
- Snapshots.HistorySnapshot: does not model the final sort of the rows, which changes neither keys nor dots.
- Restores.RestoreIsCorrect: covers stores that applied nothing beyond the heads, in causal order; Restores.RestoreInTopicIff has the condition for every other store.
- Restores.RestoreInTopicIff: assumes that what the writer's previous operation adds beyond the heads is no change of the graph, since graph changes hold the graph's write lock.
- Reconcile.EveryRunIsSafe: takes own sequences to be unique, which is what the fence is for; covers one topic and one graph, since topics have independent cursors.
- Fence.PublicationFence: does not model crashes of the graph store.
- Once.ExactlyOnce: takes the prepared receipt to be durable before publication, and the topic's branch to stay the same and its past to be kept.
- Reindex.ReindexKeepsDebt: a write and its token, and every store commit, are one durable step; deleted graphs and failed entries are not modelled.
- Flushes.Worker.Work: request ids stand for the reply channels; waiting times and wake-ups are inputs.
- `retry_rejected_replication_record`, snapshot repair policies and which of several tombstones wins.
- Authorization, SHACL, SPARQL, RO-Crate handling and the search index itself.
- `authorize_shape_graphs`, `project_history` and the wrappers around the modelled operations would only add easy members.
