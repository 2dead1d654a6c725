# Clankermux: verified models of its hardest components

Clankermux is a proxy that shares a pool of provider accounts among clients. This project models the parts of it whose
correctness is least visible from any one function body, and proves what each part is for. Every component stands
alone; `Wrappers.dfy` and `Texts.dfy` hold the few definitions they share.

| files | component |
|---|---|
| `Json`, `SchemaTranslation`, `SchemaSemantics`, `SchemaPreservation`, `SchemaIdempotence`, `SchemaConstraints`, `SchemaBinding` | the Draft 7 to 2020-12 schema translator of the public API generator, against a validity semantics of both dialects |
| `ProjectName`, `BackfillPasses`, `BackfillRun`, `BackfillRefinement`, `BackfillDryRun` | the three-pass repair of stored project names, live and dry |
| `Routing`, `RoutingTable` | first-match routing and the renumbering done by client commits |
| `Catalogue`, `CatalogueEdits`, `ClientDrafts`, `PendingReviews` | differences from the global catalogue, what a client may publish, and the bounded map of pending reviews |
| `ProbeMarkers`, `LockContradictions`, `CapacityRestored`, `CapacityGuarantees` | evidence-driven lock release, its single-flight markers, and the two writers of the reset column |
| `SubscriptionRefresh`, `SubscriptionDiagnosis` | throttled profile reads and the diagnosis tick |
| `KeepaliveSnapshots`, `AffinityPins` | two persistence machines |
| `PredictionReplay`, `LedgerStudy`, `ShellQuoting` | the replay cursor, the ledger study's intervals and blocks, and shell quoting |

Code that waits is modelled as a machine with one step per `await`; its theorems hold of every sequence of steps.
Loops and objects are methods and classes proved against functions, and what the source promises is proved about those
functions. Some datatypes carry a field the source does not have, named as kept for the proofs, such as the number of
a cooldown write; no branch reads it.

## What the proofs found

- The name sanitizer is not idempotent: cutting an environment block can leave a name that is itself a marker
  (`ModelModel` becomes `Model`, which becomes nothing). Pass B's updates then cascade, although the script's own
  messages call it idempotent. `PassBSanitizesExactly` and `DryRepairCountExactly` say exactly when they do not.
- The script's header lists five junk values; the code has six.
- The translator changes meaning not only beside `$ref` and under keyword names used as data, but also when a Draft 7
  document already holds a keyword only 2020-12 reads, and when a reference goes through nested definitions. A
  dependency named like a keyword is rewritten by a second walk only, and so is a tuple's `additionalItems` that is a
  list; without the keywords the walk itself writes, translating twice is translating once exactly when neither occurs
  (`TwiceIsOnceExactly`).
- Five minutes between token attempts do not follow from unchanged credentials alone: a sweep that once sees the account
  healthy forgets the attempt (`SweepForgets`). `AttemptsAreApart` names every exception.
- `constrain` changes schemas inside the document their references are read in. A value outside the primitive keeps its
  verdict only if its parts are outside it too (`PartCounterexample`), and a reference under `not` can turn the
  narrowing into a widening (`NotCounterexample`).
- The dry estimate of pass C is exact only if the claims under each repaired junk form match its stored values
  (`DryRunForetellsPassC`), and kept inherited projects are counted as nulled (`InheritedExample`).
- A batch routes a request alike in every order of its records exactly if at most one of them could serve it
  (`OrderDoesNotMatterExactly`). Two alias rules opened to every key break that (`EditedOrderExample`).
- Retained alias rules are written back as they stand. If an operator has opened one to every key, the next commit moves
  it first and takes other keys' requests (`EditedAliasExample`). `OtherKeysKeepRuleExactly` says which requests keep
  their rule.

## Model

| member | source | states |
|---|---|---|
| SchemaTranslation.ToDraft2020 | scripts/public-api/generate.ts:23-49 | the loop over entries, filling a result, computes the recursive translation |
| SchemaTranslation.TranslateFieldsGet | scripts/public-api/generate.ts:26-47 | which entry of the source decides each keyword of the result, whatever the order of the others |
| SchemaTranslation.UntouchedKept | scripts/public-api/generate.ts:23-49 | a document that uses nothing the walk rewrites comes back as it was |
| SchemaTranslation.OnlyUntouchedKept | scripts/public-api/generate.ts:23-49 | and only such a document does |
| SchemaPreservation.Preserve | scripts/public-api/generate.ts:23-49 | every convertible schema of a document keeps its verdict on every instance at every bound on the references followed |
| SchemaPreservation.TranslationPreservesValidity | scripts/public-api/generate.ts:18-22 | an instance is valid under a Draft 7 document exactly when it is valid under its translation read as 2020-12, where references are to the document or to a definition by name and the conditions that the examples below break hold |
| SchemaPreservation.SiblingCounterexample | scripts/public-api/generate.ts:30-31 | an asserting keyword beside `$ref`, ignored by Draft 7, starts to count |
| SchemaPreservation.PropertyNameCounterexample | scripts/public-api/generate.ts:27-29 | a property named like a rewritten keyword is renamed, and the verdict changes |
| SchemaPreservation.ConstantCounterexample | scripts/public-api/generate.ts:26-29 | a constant holding a rewritten keyword is changed with the schema |
| SchemaPreservation.NestedReferenceCounterexample | scripts/public-api/generate.ts:29-31 | a reference into nested definitions loses its target: each `definitions` is renamed, only the first name in the reference |
| SchemaPreservation.NewKeywordCounterexample | scripts/public-api/generate.ts:46 | a keyword only 2020-12 reads is carried over and starts to count |
| SchemaPreservation.BoundCounterexample | scripts/public-api/generate.ts:46 | so does a bound on `contains` |
| SchemaSemantics.ResolveFrom | scripts/public-api/generate.ts:30-31 | what a reference through a definition's name leads to, token by token as a JSON pointer |
| SchemaIdempotence.TwiceIsOnce | scripts/public-api/generate.ts:23-49 | translating twice is translating once on documents that settle |
| SchemaIdempotence.TwiceIsOnceExactly | scripts/public-api/generate.ts:23-49 | for documents that hold none of the four keywords the walk itself writes, on no others: no dependency is named like a rewritten keyword, and no tuple's `additionalItems` is a list |
| SchemaIdempotence.DependencyNameCounterexample | scripts/public-api/generate.ts:37-45 | a dependency named `definitions` survives one walk and not two |
| SchemaIdempotence.TranslateWellFormed | scripts/public-api/generate.ts:23-49 | the translation of an object with distinct keys has distinct keys throughout |
| SchemaConstraints.ConstrainSchema | scripts/public-api/generate.ts:52-73 | the update of the type, the added keyword and the three lists in turn computes the constrained schema |
| SchemaConstraints.ConstrainAtRelated | scripts/public-api/generate.ts:90-105 | calling `constrain` on any schema of a document, in place, leaves the document with the constraint applied at some of its places |
| SchemaConstraints.ValidRelated | scripts/public-api/generate.ts:51-73 | for any schema before and after, with references read in the document before and after: a value keeps its verdict, or nothing more is accepted, under the conditions of the next two rows |
| SchemaConstraints.OutsideUnchanged | scripts/public-api/generate.ts:51-73 | after any calls of `constrain` in a document with local references, a value no part of which the primitives admit keeps its verdict, so nullable stays nullable at every nesting of the three lists |
| SchemaConstraints.Narrows | scripts/public-api/generate.ts:52-73 | and if what stands under `not`, `if` and `oneOf` is plain and not reached, `contains` has no upper bound, and no keyword is loosened, only less is accepted |
| SchemaConstraints.PartCounterexample | scripts/public-api/generate.ts:52-73 | an object is outside the primitive, but its member is judged by the changed document through a reference, and the verdict changes |
| SchemaConstraints.NotCounterexample | scripts/public-api/generate.ts:52-73 | through a reference under `not`, constraining makes an instance valid |
| SchemaConstraints.OverwrittenCounterexample | scripts/public-api/generate.ts:60 | a stricter copy of the added keyword is overwritten, and more is accepted |
| SchemaConstraints.OneOfCounterexample | scripts/public-api/generate.ts:66-72 | under `oneOf` narrowing a branch can make an instance valid |
| SchemaBinding.ConstraintBinds | scripts/public-api/generate.ts:51-73 | where every way into a schema goes through a type that names the primitive or leaves it out, in every branch of `anyOf` or `oneOf` or some branch of `allOf`: a constrained count is a whole number from 0 on, a measure is from 0 on, and a timestamp is text in the `date-time` format |
| SchemaBinding.MeetingKept | scripts/public-api/generate.ts:51-73 | where no stricter copy of the keyword is overwritten, a value that meets the constraint keeps its verdict at any nesting of the three lists |
| SchemaBinding.ConstrainMeans | scripts/public-api/generate.ts:90-105 | so a constrained schema admits exactly what the schema did and meets the constraint |
| SchemaBinding.CallReaches | scripts/public-api/generate.ts:90-105 | and a call anywhere in a document leaves the schema at its place constrained so |
| ProjectName.SanitizeShrinks | packages/proxy/src/project-name.ts:16-44 | a name the sanitizer changes gets strictly shorter, and no result is empty or over the cap |
| ProjectName.NotIdempotent | packages/proxy/src/project-name.ts:12-44 | a name whose sanitized form sanitizes to nothing |
| ProjectName.SanitizedIsTidy | packages/proxy/src/project-name.ts:17-44 | no result holds a control character or starts with white space, and none ends with white space or one of `:;,-` unless the cap cut it there |
| ProjectName.CapLeavesSpace | packages/proxy/src/project-name.ts:41-43 | it can: a name cut just after a space keeps that |
| ProjectName.TidyStays | packages/proxy/src/project-name.ts:17-44 | a name of that form with no environment block in it comes back as it is, up to 64 characters |
| ProjectName.BlockIs | packages/proxy/src/project-name.ts:13-14 | an environment block is white space, at most one dash, and one of the six markers as whole words in any case, up to the end of the line and the text |
| BackfillPasses.NextPage | scripts/backfill-project-names.ts:302-315 | with the cursor on a match, the page query delivers exactly the matches after it |
| BackfillRun.Database.RunPassB | scripts/backfill-project-names.ts:173-230 | the repairs collected, the rows after the value-keyed updates, and the count, live and dry |
| BackfillRun.Database.RunPassA | scripts/backfill-project-names.ts:254-490 | rows after the batches read, the report over all visits, and the stop at the first payload that has no key |
| BackfillRun.Database.WalkPages | scripts/backfill-project-names.ts:324-487 | the paged walk visits the whole list of matches, or stops in the batch that met a locked payload |
| BackfillRun.Database.ReadPage | scripts/backfill-project-names.ts:334-470 | one page's decisions, put together, do what its visits call for, without a write |
| BackfillRun.Database.RunPassC | scripts/backfill-project-names.ts:501-579 | live, the junk rows outside the derived ids are nulled and counted; dry, the estimate by original value |
| BackfillRun.Database.Run | scripts/backfill-project-names.ts:587-650 | the three passes in order, with pass C left out when pass A stops |
| BackfillRefinement.VisitsEachOnce | scripts/backfill-project-names.ts:286-315 | pass A visits exactly the joined payloads above the start and up to the high-water key, each once |
| BackfillRefinement.PassBSanitizesExactly | scripts/backfill-project-names.ts:173-230 | pass B sanitizes every row exactly if no repair produces a value a later one rewrites, in whatever order the values come |
| BackfillRefinement.IdempotentNeverCascades | scripts/backfill-project-names.ts:173-230 | a sanitizer idempotent on the stored values never cascades |
| BackfillRefinement.SanitizerCascades | scripts/backfill-project-names.ts:173-230 | two stored names suffice for a cascade with the real sanitizer |
| BackfillRefinement.CascadesExactly | scripts/backfill-project-names.ts:173-230 | pass B leaves a stored project other than sanitized exactly if its repair's result is a value that a later repair rewrites |
| BackfillRefinement.LiveRunIsPerRow | scripts/backfill-project-names.ts:14-34 | passes B, A and C, set at a time, leave a row as one function of that row and its payload exactly if no cascade shows in it: one shows in the project unless pass A re-derived it or pass C nulls it, and then at most in the recorded source |
| BackfillRefinement.LiveRunLeaves | scripts/backfill-project-names.ts:424-487 | in the row's own fields: it ends at the project its payload re-derives to; at none if that is nothing, unless its stored source is `session_inherited`; and otherwise at what pass B left, without the junk names. The source becomes the extracted one just where pass A changes the project |
| BackfillRefinement.ReadingIs | scripts/backfill-project-names.ts:302-315 | each row is read by its own payload |
| BackfillRefinement.TallyCounts | scripts/backfill-project-names.ts:339-472 | the counters add up to the visits, each reading is counted as what it came to, and `changed` is the number of rows that are no longer as they were |
| BackfillRefinement.ClaimsCount | scripts/backfill-project-names.ts:445-457 | the claims by value are the numbers of re-derived rows at each value, but for the inherited ones |
| BackfillRefinement.SecondRunChangesNothing | scripts/backfill-project-names.ts:14-34 | a second live run over the same payloads changes nothing, for a sanitizer idempotent on the names the two runs find |
| BackfillRefinement.RunLive | scripts/backfill-project-names.ts:587-650 | the live script with the real sanitizer ends a row at that function exactly if no cascade shows in it, unless a payload has no key; and every row as `LiveRunLeaves` says |
| BackfillRefinement.DryRepairCountExactly | scripts/backfill-project-names.ts:195-222 | the dry count of pass B never exceeds the live one, and equals it exactly if no repair cascades |
| BackfillRefinement.DryTakesLiveRows | scripts/backfill-project-names.ts:432-437 | a dry run takes every row to be what pass B leaves, exactly if no repair cascades |
| BackfillRefinement.DryReportsLive | scripts/backfill-project-names.ts:432-470 | and then its counters, re-derived ids and claims by value are those of the live pass A |
| BackfillDryRun.DryRunForetellsPassC | scripts/backfill-project-names.ts:546-576 | with no inherited project kept, the dry estimate of pass C never exceeds the live count, and equals it exactly if for each stored value that repairs to junk the claims under the repaired form are the value's own re-derived rows, or none of its rows is free |
| BackfillDryRun.OnePreimageMatches | scripts/backfill-project-names.ts:546-576 | one stored value for each junk value is enough for that |
| BackfillDryRun.InheritedExample | scripts/backfill-project-names.ts:424-430 | an inherited project that is kept makes the estimate too high |
| BackfillDryRun.TwoPreimagesExample | scripts/backfill-project-names.ts:562-568 | two stored values with one repaired form make it too low |
| Routing.WinnerIsFirstCandidate | packages/core/src/routing.ts:38-58 | the matched rule is the first of the rules that could serve the request |
| Routing.WinnerServes | packages/core/src/routing.ts:38-58 | the matched rule is enabled, is for every key or the request's, and for any model, that model or its family; every enabled rule before it is for another key, model or family |
| Routing.DisabledIsDeleted | packages/core/src/routing.ts:47 | a disabled rule routes every request as a deleted one does |
| Routing.ResolveChangesLiterally | packages/core/src/routing.ts:60-76 | only a literal rule changes the model, and it changes it to its own |
| Routing.UntouchedKeepsWinner | apps/server/src/client-service.ts:1711-1788 | a request no owned and no written rule applies to keeps its rule through a commit |
| Routing.OtherKeysKeepRuleExactly | apps/server/src/client-service.ts:1606-1635 | a request under another key, or none, keeps its rule through a commit exactly if that rule is retained, or is not the client's and no retained rule applies, or there was none |
| Routing.EditedAliasExample | apps/server/src/client-service.ts:1619-1634 | an owned rule since opened to every key takes another key's request when the review retains it |
| Routing.ReviewedIsOrdered | apps/server/src/client-service.ts:1606-1635 | the alias rules of a review, new and retained, carry the positions from 0 on |
| Routing.ReviewedIsForClient | apps/server/src/client-service.ts:1606-1635 | they match their client's key only, exactly if the retained ones did |
| Routing.RetainedExactly | apps/server/src/client-service.ts:1619-1634 | a rule is retained as it stands exactly if it is the client's, no reviewed alias has the value it matches, and the draft does not drop that value |
| Routing.OwnersAfterIs | apps/server/src/client-service.ts:1752-1788 | after a commit a rule belongs to the client that wrote it, or to another client that had it before |
| Routing.AliasResolvesToTarget | apps/server/src/client-service.ts:1606-1620 | whatever rules exist when it commits, each published alias resolves to its reviewed target and account set |
| Routing.ReviewIsFresh | apps/server/src/client-service.ts:1606-1635 | a review writes no rule id that another client owns |
| Routing.ReviewsAreApart | apps/server/src/client-service.ts:1606-1635 | reviews of two clients, with new ids of their own, write no rule in common, so reviews of one table make a batch |
| Routing.BatchIs | apps/server/src/client-service.ts:2196-2216 | a batch leaves its records' rules, the last record's first, and then the rules none of their clients owned |
| Routing.OrderDoesNotMatterExactly | apps/server/src/client-service.ts:2203-2216 | a batch over distinct clients routes a request alike in every order of its records exactly if at most one record holds a rule that could serve it |
| Routing.OrderMatters | apps/server/src/client-service.ts:2203-2216 | of two records that could each serve a request, the one applied last does |
| Routing.OrderDoesNotMatter | apps/server/src/client-service.ts:2203-2216 | so while every record's rules match its own client's key, every request is routed alike in every order |
| Routing.EditedOrderExample | apps/server/src/client-service.ts:2203-2216 | two retained alias rules opened to every key resolve one request to either target, by the order of their clients |
| RoutingTable.OrderedUnique | apps/server/src/client-service.ts:1767-1769 | the order of a table is determined by its positions |
| RoutingTable.RuleTable.SelectByPosition | apps/server/src/client-service.ts:1767-1769 | the ids of all rules by increasing position |
| RoutingTable.RuleTable.Apply | apps/server/src/client-service.ts:1752-1787 | owned rules dropped, written rules first at 0 on, the others after them in their order with nothing else changed, and positions distinct after every statement |
| RoutingTable.RenumberedOrder | apps/server/src/client-service.ts:1770-1787 | after renumbering the positions are contiguous from 0, written rules first |
| RoutingTable.CommitListing | apps/server/src/client-service.ts:1752-1787 | on the listing in position order the table method is the list model of a commit |
| RoutingTable.RuleTable.ApplyAll | apps/server/src/client-service.ts:2209-2216 | every record of a bulk commit keeps the invariant, and the table ends as the list model of the whole batch |
| Catalogue.ComposeLists | packages/types/src/clients.ts:243-263 | the composed list holds the global ids not removed, and the client's additions |
| Catalogue.NormalizeDelta | apps/server/src/client-service.ts:301-345 | when differences are refused, for which id and why, and otherwise their normal form |
| Catalogue.AlikeExactly | packages/types/src/clients.ts:220-236 | the canonical entry keeps id, name, target, whether there is a pin and which accounts it names, and two entries have the same one exactly if they agree in all of these |
| Catalogue.NoCopyStored | apps/server/src/client-service.ts:333-337 | no stored addition means the same as a global entry |
| Catalogue.NormalIsNormalized | apps/server/src/client-service.ts:301-345 | additions distinct, disjoint from removals and no copies of global entries; removals global, sorted and distinct |
| Catalogue.NormalPublishesSame | apps/server/src/client-service.ts:297-300 | normalizing publishes entries that mean the same, in the same order: equal ids, names and targets, and the same accounts pinned |
| Catalogue.NormalizingTwice | apps/server/src/client-service.ts:301-345 | a normal form is accepted and is its own normal form |
| CatalogueEdits.SubscriberEdit | apps/server/src/client-service.ts:416-449 | the two loops compute the edited differences |
| CatalogueEdits.EditPublishesExactly | apps/server/src/client-service.ts:433-448 | what an edit of any differences publishes: an added id takes effect unless it was both overridden and removed, and not removed by the edit |
| CatalogueEdits.StoredNeverStuck | apps/server/src/client-service.ts:324-333 | differences that were normalized under any global catalogue are never in that state, also under a later one |
| CatalogueEdits.EditPublishes | apps/server/src/client-service.ts:416-449 | so after an edit a client, even one behind the global revision, publishes what it did, less the removed ids, plus the added ones |
| CatalogueEdits.EditCreatesNoOverride | apps/server/src/client-service.ts:411-415 | an edit creates no override of a global entry, whatever the differences |
| CatalogueEdits.ListEdit | apps/server/src/client-service.ts:2060-2084 | the plain list after an edit, and its default cleared when no longer listed |
| CatalogueEdits.EditsAgreeExactly | apps/server/src/client-service.ts:2027-2084 | editing the differences publishes the ids that editing the published list does, exactly but for an added id in that state |
| CatalogueEdits.EditsAgree | apps/server/src/client-service.ts:2027-2084 | and so always for differences as they are stored, whatever the revision |
| CatalogueEdits.ReplacePublishes | packages/types/src/clients.ts:265-295 | derived differences publish every listed entry with its name, target and accounts, and beyond them only global entries the client was skipping and had not removed |
| CatalogueEdits.ComposeEntry | packages/types/src/clients.ts:243-263 | what is published under an id is the client's addition if it has one, and the global entry otherwise |
| ClientDrafts.OwnAliases | apps/server/src/client-service.ts:1490-1503 | the routes kept for a client's own aliases are routes it gives them, for every id it gives one |
| ClientDrafts.AcceptAll | apps/server/src/client-service.ts:1504-1552 | it fails exactly if an entry fails outright or an own entry is ruled out; otherwise what is accepted, with unique ids that agree with earlier formats and every own entry in it, and the displaced global aliases |
| ClientDrafts.TakenIs | apps/server/src/client-service.ts:1504-1552 | what is accepted is exactly the candidates nothing rules out: an own alias with another route, the verdict, an earlier entry, another route in an earlier format |
| ClientDrafts.TakesExactly | apps/server/src/client-service.ts:1504-1552 | a candidate is taken exactly if its verdict accepts it, its id is new, and as an alias it leads where earlier formats and, for a global one, the client's own aliases have it lead |
| ClientDrafts.HideClashes | apps/server/src/client-service.ts:1553-1575 | an accepted entry stays exactly if no entry is stored under the name it is shown by, and it fails exactly if that drops an own entry |
| ClientDrafts.PrepareCatalogues | apps/server/src/client-service.ts:1488-1575 | on success ids are unique per format, an alias has one target and one account set over all formats, and which global aliases its own displace is decided without regard to format order |
| ClientDrafts.ConflictsIgnoreOrder | apps/server/src/client-service.ts:1488-1503 | the same conflicts in whatever order the formats come |
| PendingReviews.Reviews.TrimPending | apps/server/src/client-service.ts:1794-1813 | stale reviews go, then the oldest ones until the cap holds, and no more of them than that takes |
| PendingReviews.CapHolds | apps/server/src/client-service.ts:1789-1813 | no more than 128 clients are held after a trim, if the stored review fits that alone |
| PendingReviews.WhatStays | apps/server/src/client-service.ts:1789-1813 | the stored review stays, and of the others exactly the newest |
| PendingReviews.LiveIs | apps/server/src/client-service.ts:1795-1802 | what stays before the cap is exactly what has not expired, but for global reviews other than the stored one when that is global too |
| PendingReviews.StoredGlobal | apps/server/src/client-service.ts:1798-1801 | whether the stored review is a global one |
| PendingReviews.HeldIs | apps/server/src/client-service.ts:1803-1806 | a bulk review counts as its clients, any other as one |
| ProbeMarkers.Markers.MarkPending | packages/proxy/src/handlers/rate-limit-cooldown.ts:213-225 | a reservation links to the one it displaces and takes the slot |
| ProbeMarkers.Markers.FirstLiveReservation | packages/proxy/src/handlers/rate-limit-cooldown.ts:192-198 | the loop walks back to the first reservation not rolled back |
| ProbeMarkers.Markers.RollbackPending | packages/proxy/src/handlers/rate-limit-cooldown.ts:278-292 | the outcome is recorded always, the slot unwound only by its owner |
| ProbeMarkers.Markers.Recovered | packages/proxy/src/handlers/rate-limit-cooldown.ts:470-490 | a recovered probe clears the slot only for the generation it was admitted for |
| ProbeMarkers.WalkFindsNewest | packages/proxy/src/handlers/rate-limit-cooldown.ts:188-198 | following the links finds the newest reservation before it that was not rolled back |
| ProbeMarkers.RollbackKeepsSound | packages/proxy/src/handlers/rate-limit-cooldown.ts:259-292 | after a rollback the slot still holds the newest live reservation since the last successful probe |
| ProbeMarkers.LiveKeepsMarker | packages/proxy/src/handlers/rate-limit-cooldown.ts:200-211 | a reservation neither rolled back nor settled by a probe keeps the account gated |
| ProbeMarkers.AllFailedClearsMarker | packages/proxy/src/handlers/rate-limit-cooldown.ts:265-277 | when every reservation since the last successful probe failed, nothing stays gated |
| LockContradictions.WarnedLocks.Refuse | apps/server/src/capacity-restored.ts:150-165 | when a refused lock is warned about, and the memory afterwards, never over its bound |
| LockContradictions.WarnedLocks.Prune | apps/server/src/capacity-restored.ts:135-139 | a lock-free poll forgets the account and nothing else |
| LockContradictions.WarnsOnce | apps/server/src/capacity-restored.ts:41-55 | an unchanged lock is warned about once, unless 64 other accounts warn in between, however often each does |
| LockContradictions.WarnsAgainExactly | apps/server/src/capacity-restored.ts:41-55 | whatever other accounts do, it is forgotten exactly if at some point 64 others stand behind it in the memory |
| CapacityRestored.RunKeeps | apps/server/src/capacity-restored.ts:114-271 | the invariant of rows, markers and handlers holds after every sequence of steps |
| CapacityGuarantees.ReleaseIsExact | apps/server/src/capacity-restored.ts:209-271 | a release removes the very cooldown the handler read, written before its evidence began: a weekly or session one on a reading, and on a claim a weekly one only if a seven-day window was cleared and a session one only if the five-hour window was |
| CapacityGuarantees.CoveredLockIsReleased | apps/server/src/capacity-restored.ts:209-330 | and a handler that reads a lock in force, older than its evidence and for a reason that evidence covers, releases it unless the lock is written or released between its read and its clear |
| CapacityGuarantees.HandlerReads | apps/server/src/capacity-restored.ts:114-131 | a handler takes its clock with its evidence, and the row as it is when read |
| CapacityGuarantees.NewerLockSurvives | packages/database/src/repositories/account.repository.ts:889-919 | a cooldown written after every handler's evidence began survives all of them in every interleaving |
| CapacityGuarantees.OtherReasonSurvives | apps/server/src/capacity-restored.ts:141-170 | a cooldown for any other reason survives every interleaving of handlers |
| CapacityGuarantees.AttemptHoldsOneReservation | apps/server/src/capacity-restored.ts:245-270 | an attempt holds one reservation of its own, live from before the clear until it settles and rolled back exactly if it was refused |
| CapacityGuarantees.RefusedRollsBack | apps/server/src/capacity-restored.ts:252-270 | a clear that did not match, or threw, is answered by rolling the reservation back |
| CapacityGuarantees.SettledOnce | apps/server/src/capacity-restored.ts:245-270 | a settled attempt never settles again |
| CapacityGuarantees.ReleaseStaysGated | packages/proxy/src/handlers/rate-limit-cooldown.ts:200-225 | from its reservation on, an attempt that is not refused leaves the account gated until a probe recovers |
| CapacityGuarantees.MarkerHasACause | packages/proxy/src/handlers/rate-limit-cooldown.ts:259-292 | no marker is left from failed attempts alone |
| CapacityGuarantees.StampOnlyUnownedReset | apps/server/src/capacity-restored.ts:375-453 | a stamp moves a future reset of a paused account back to the observation, and never one that a spent or unknown window of the evidence matches within a second |
| CapacityGuarantees.StrandedIs | apps/server/src/capacity-restored.ts:375-447 | when a paused account is stranded behind its recorded reset |
| CapacityGuarantees.StampFollows | apps/server/src/capacity-restored.ts:132-140 | the stamp is tried after an unlocked row and after a release, exactly of a stranded account |
| CapacityGuarantees.StampLands | packages/database/src/repositories/account.repository.ts:921-952 | and lands while the account is paused at the very reset that was read |
| CapacityGuarantees.MirrorLands | apps/server/src/usage-snapshot-sampler.ts:484-540 | when a mirror write of the sampler lands |
| CapacityGuarantees.PausedResetOnlyFalls | packages/database/src/repositories/account.repository.ts:954-968 | at every point of a run in which the account stays paused, its recorded reset has only fallen from what it was or what headers or a state clear last made it, and no mirror write lands |
| CapacityGuarantees.MirrorNeverOverwritesAnother | apps/server/src/usage-snapshot-sampler.ts:484-540 | in every run a mirror write that lands replaces the very value its tick read, on an account active then and now, so nothing written in between is lost unless it was set back |
| SubscriptionRefresh.DueExactlyWhenClaimable | apps/server/src/anthropic-subscription-refresh.ts:88-99 | the due check and the claim agree on every row: an Anthropic account with a refresh token, not checked within the window |
| SubscriptionRefresh.ObservationsAskEnough | apps/server/src/anthropic-subscription-refresh.ts:184-193 | an observation asks for the shortest window only on a first denial or restored access |
| SubscriptionRefresh.ObservationsAsk | apps/server/src/anthropic-subscription-refresh.ts:11-25 | a first denial or restored access asks for a minute, a paused denied account for five, or for six hours once confirmed active, and any other for six hours |
| SubscriptionRefresh.GoesOnExactly | apps/server/src/anthropic-subscription-refresh.ts:111-140 | which row lets an invocation claim, when it reads a profile, and when it goes on to store it |
| SubscriptionRefresh.ClaimStamps | packages/database/src/repositories/account.repository.ts:1461-1476 | a claim stamps the row exactly when it is due |
| SubscriptionRefresh.StoreLands | apps/server/src/anthropic-subscription-refresh.ts:140-145 | a store lands exactly if the row still holds the token |
| SubscriptionRefresh.UndisturbedStores | apps/server/src/anthropic-subscription-refresh.ts:101-151 | an invocation nothing interrupts claims, reads and stores what it read |
| SubscriptionRefresh.ClaimsAreSpaced | packages/database/src/repositories/account.repository.ts:1461-1476 | claims increase by at least a minute, and by each claim's own window, whatever order `now` was captured in |
| SubscriptionRefresh.ReadsAreClaimed | apps/server/src/anthropic-subscription-refresh.ts:126-133 | each profile read has a claim of its own |
| SubscriptionRefresh.AtMostOnePerInterval | apps/server/src/anthropic-subscription-refresh.ts:101-151 | claims, and so reads, stamped in a span number at most one per minute of it and one more |
| SubscriptionRefresh.StoredWithCurrentToken | apps/server/src/anthropic-subscription-refresh.ts:134-145 | in every run the row's identity is the last one stored; each was stored while the row held the token it was read with, by an invocation that had claimed and read with that token, and no invocation stores twice |
| SubscriptionDiagnosis.Diagnosis.Start | apps/server/src/anthropic-subscription-diagnosis.ts:52-69 | starting opens a new generation, once |
| SubscriptionDiagnosis.Diagnosis.Stop | apps/server/src/anthropic-subscription-diagnosis.ts:71-79 | stopping closes the generation and forgets every retry |
| SubscriptionDiagnosis.Diagnosis.Sweep | apps/server/src/anthropic-subscription-diagnosis.ts:111-122 | the sweep drops exactly the overtaken retries |
| SubscriptionDiagnosis.DueIs | apps/server/src/anthropic-subscription-diagnosis.ts:87-103 | which accounts are due |
| SubscriptionDiagnosis.NextDueIsFirst | apps/server/src/anthropic-subscription-diagnosis.ts:123-125 | the loop passes over none of them |
| SubscriptionDiagnosis.SweptAwayIs | apps/server/src/anthropic-subscription-diagnosis.ts:108-122 | which retries those are |
| SubscriptionDiagnosis.TicksAreSafe | apps/server/src/anthropic-subscription-diagnosis.ts:81-169 | at most one tick in flight, and every call begun while active and under the tick's own generation, with starts and stops anywhere |
| SubscriptionDiagnosis.TickBegins | apps/server/src/anthropic-subscription-diagnosis.ts:81-106 | a tick begins with the account list, or is over at once |
| SubscriptionDiagnosis.ListIsTaken | apps/server/src/anthropic-subscription-diagnosis.ts:106-125 | the list drops the overtaken retries and leads to the first due account |
| SubscriptionDiagnosis.RowIsAttempted | apps/server/src/anthropic-subscription-diagnosis.ts:125-143 | a row still due is attempted: noted for five minutes, and its token asked for |
| SubscriptionDiagnosis.TokenDecides | apps/server/src/anthropic-subscription-diagnosis.ts:143-147 | a token forgets the attempt and starts the profile read; without one the tick goes on to the next due account |
| SubscriptionDiagnosis.RefreshGoesOn | apps/server/src/anthropic-subscription-diagnosis.ts:147-160 | the read takes its awaits in turn, and then the tick goes on |
| SubscriptionDiagnosis.EveryDueIsAttempted | apps/server/src/anthropic-subscription-diagnosis.ts:123-160 | a tick whose rows are as listed, and whose tokens do not come, attempts every due account |
| SubscriptionDiagnosis.AttemptsAreApart | apps/server/src/anthropic-subscription-diagnosis.ts:86-144 | token attempts with unchanged credentials within one generation are five minutes apart, with every exception named |
| SubscriptionDiagnosis.SweepDropsOnlyOvertaken | apps/server/src/anthropic-subscription-diagnosis.ts:111-122 | in every run a retry is dropped by a sweep only after a list that shows its account gone, healthy, or with other credentials than its last standing attempt used |
| SubscriptionDiagnosis.SweepForgets | apps/server/src/anthropic-subscription-diagnosis.ts:111-122 | that exception is real: two attempts two minutes apart |
| KeepaliveSnapshots.Sampler.Tick | apps/server/src/cache-keepalive-snapshot-sampler.ts:166-203 | what a tick stores, holds and remembers, for every outcome of its two inserts |
| KeepaliveSnapshots.TickSeen | apps/server/src/cache-keepalive-snapshot-sampler.ts:166-203 | a tick is kept unless its own insert failed |
| KeepaliveSnapshots.TableDecodes | apps/server/src/cache-keepalive-snapshot-sampler.ts:166-203 | carrying the newest stored row forward gives every tick's state, but for ticks whose own insert failed, through failures, crashes and restarts |
| KeepaliveSnapshots.BootSeedsFromCheckpoint | apps/server/src/cache-keepalive-snapshot-sampler.ts:179-182 | at every point, between the two inserts too, the newest row by time is the last written one |
| KeepaliveSnapshots.ChangesKeepTheirBaseline | apps/server/src/cache-keepalive-snapshot-sampler.ts:117-118 | when inserts succeed, adjacent rows with different states come from consecutive ticks |
| AffinityPins.Persistence.Tick | apps/server/src/affinity-pin-persistence.ts:107-113 | the timer queues one write at most, and none once stopped |
| AffinityPins.Persistence.WriteIfChanged | apps/server/src/affinity-pin-persistence.ts:151-162 | up to its await, what is written and when nothing is |
| AffinityPins.SkippingIsSafe | apps/server/src/affinity-pin-persistence.ts:151-169 | whenever a write would be skipped as unchanged, the table holds the live strategy's pins, in every run with failures |
| AffinityPins.TasksAreSerial | apps/server/src/affinity-pin-persistence.ts:56-60 | tasks run one at a time and in order |
| AffinityPins.FinalFlushIsLastWrite | apps/server/src/affinity-pin-persistence.ts:121-149 | after a final flush lands its write no other write begins or lands |
| AffinityPins.NoWriteBeginsAfterTimeout | apps/server/src/affinity-pin-persistence.ts:143-153 | after one that timed out none begins |
| AffinityPins.WriteLands | apps/server/src/affinity-pin-persistence.ts:162-169 | a write lands as a whole, with its revision recorded, or not at all |
| AffinityPins.RestoreBegins | apps/server/src/affinity-pin-persistence.ts:67-73 | a restore reads the table exactly if its strategy takes pins |
| AffinityPins.RestoreBrings | apps/server/src/affinity-pin-persistence.ts:69-78 | a restore puts the stored pins into its strategy and no other, or changes nothing |
| AffinityPins.ReplacementTakesOver | apps/server/src/affinity-pin-persistence.ts:86-96 | a replacing strategy gets the outgoing one's pins, or else a restore |
| AffinityPins.RestartRestores | apps/server/src/affinity-pin-persistence.ts:121-149 | what a final flush wrote is what the next process restores |
| PredictionReplay.SplitSeries | packages/core/src/usage-prediction.ts:74-91 | a partition of the series with a boundary between windows and none inside |
| PredictionReplay.BoundaryIs | packages/core/src/usage-prediction.ts:19-28 | two samples are in different windows if only one knows a reset, or their resets are more than a minute apart |
| PredictionReplay.OutcomeIs | packages/core/src/prediction-backtest.ts:89-130 | a window is exhausted at its first later sample at the limit; otherwise it survived exactly if the next window was seen and samples go on to within ten minutes of its end |
| PredictionReplay.OutcomeEndIs | scripts/prediction-backtest.ts:549-556 | the label ends with the exhaustion, or at the earlier of reset and next window |
| PredictionReplay.Replay.Advance | scripts/prediction-backtest.ts:558-566 | the append-only prefix becomes the filter of all samples up to the instant, appending each at most once |
| PredictionReplay.Replay.Run | scripts/prediction-backtest.ts:501-587 | the instants scored, what each hands the estimators, its label, and its outcome ending before the range does |
| PredictionReplay.CursorSees | scripts/prediction-backtest.ts:513-566 | on a sorted series the cursor's prefix is the filter |
| LedgerStudy.KeepaliveActivePeriods | scripts/ledger-feasibility.ts:285-301 | sorted, strictly separated periods covering exactly the instants where the counter rose |
| LedgerStudy.BuildCellGrid | scripts/ledger-feasibility.ts:493-519 | the grid in its order |
| LedgerStudy.GridIs | scripts/ledger-feasibility.ts:485-519 | the grid holds exactly the candidates and the controls of the sweep's widths, under both anchors, each once: thirty-six |
| LedgerStudy.SweepIs | scripts/ledger-feasibility.ts:84-106 | which widths, lags and offsets those are |
| LedgerStudy.ControlsLookAhead | scripts/ledger-feasibility.ts:92-106 | a control cell draws tokens only after the bin closed, by at least an offset |
| LedgerStudy.BinsForCell | scripts/ledger-feasibility.ts:567-609 | per group, the two blocks in order, with every other bin counted as dropped |
| LedgerStudy.BlocksHold | scripts/ledger-feasibility.ts:545-566 | a bin is in a block just as often as it was built if both its intervals lie within that block's bounds, the outer ones included, and otherwise it is in neither |
| LedgerStudy.NoInstantInBothBlocks | scripts/ledger-feasibility.ts:540-566 | no instant feeds a selection bin and an evaluation bin, as percent or as lag-shifted tokens |
| ShellQuoting.QuoteReads | scripts/db-tool-io.ts:117-120 | one quoted argument reads back as one word |
| ShellQuoting.RoundTrip | scripts/db-tool-io.ts:110-120 | the joined command reads back as the argument list, for every list of strings |
| ShellQuoting.UnquotedExactly | scripts/db-tool-io.ts:117-119 | which arguments stay unquoted |

## Left out

Schema translation
- Annotations have no semantics here, and `contentEncoding` and `contentMediaType` count as such. `format`, what a pattern matches, and the keywords that compare a value with a number or string of their own are any predicates, the same in both dialects. `unevaluated*` and `$dynamicRef` have none either, and the theorems exclude documents that hold them.
- References through array indices, percent-decoding in them, references to other documents, and `$id` and anchors inside a document.
- Object keys that JavaScript orders or treats specially (integer-like keys, `__proto__`); `enum` and `const` compare objects with their entry order.
- A non-object, non-null `dependentRequired` or `dependentSchemas` already in the result, on which the source throws; the model leaves it.
- SchemaConstraints.ConstrainSchema: updates a local copy of a tree, so it does not capture two places sharing one subschema object; `ConstrainAt` puts the result back into the document.
- Which schemas `addWireConstraints` calls `constrain` on: any path to a schema is allowed here, but none through a keyword the semantics does not know. What else it writes, and the rest of the generator, are lists of field names.

Project name repair
- Decoding, decryption and extraction: a payload carries what reading it came to. SQL, transactions, samples and messages.
- Rows that other processes insert or change between the passes. Payloads that arrive during pass A are modelled, above the high-water key.
- Names are code points up to U+FFFF, so the cap of 64 counts characters; the source counts UTF-16 units.

Clients and routing
- `validateRoutingRule`, pin compatibility, references to missing keys or accounts, and the fingerprint: each can only refuse the whole transaction.
- The sort of the records by key: `OrderDoesNotMatterExactly` says which requests see the order it gives. The writes to the key and profile tables.
- ClientDrafts.PrepareCatalogues: `prepareModel` is any verdict on an entry, and metadata, creation times, notices and the choice of a default model are not modelled.
- Catalogue.NormalizeDelta: the checks of field types before the loop are not modelled.
- Reviews expire against one reading of the clock per trim; the source reads it per entry.

Lock release
- One account, which exists throughout; the pending map is modelled entry by entry. Log lines, and an account deleted between a read and a write.
- A statement that throws is taken to have changed nothing.
- The clock never runs backwards, which the source names as its residual risk.
- `buildSamplerRows` is one projection; a mirror write carries any observed reset.
- LockContradictions.WarnedLocks.Refuse: a lock's identity is the triple the source joins with colons.

Profile reads
- The contents of a profile, and the writes beside the identity. The claim is the only writer of its stamp on these accounts.
- SubscriptionDiagnosis.TicksAreSafe: the interval manager and the first-run timer are any calls of `tick`.

Persistence
- NaN among the gauges, on which a state would differ from itself.
- AffinityPins.SkippingIsSafe: speaks of strategies whose revision is defined and changes with the pins; the source never skips a write for the others.
- AffinityPins.FinalFlushIsLastWrite: a second final flush may write again.
- AffinityPins.RestoreBrings: pins are not looked into, so the age past which the store leaves one out is not modelled.

Studies
- Estimators, scoring, the survivor list and the contributions by account of the replay.
- `buildBins` and the statistics of the ledger study: bins are given, `width` apart.
- ShellQuoting.RoundTrip: the reader stops at every unquoted character with a meaning beyond words, so reserved words and assignments, which are about meaning and not tokens, are not modelled.
