# mykeebs-api: a Dafny model of its stateful core

This project models five parts of mykeebs-api, a service that keeps its users'
mechanical-keyboard collections, and proves what they promise each other.
`dafny verify dfyconfig.toml` checks all of it.

1. **Image moderation** (`ModerationProtocol`, `ModerationSafety`, `Overrides`,
   `Reruns`, `ImageSlots`, `ImageKey`, `ImageStatuses`). Per object key there is a
   slot that may hold it, a status, a file with tags, a decision and review log, and
   the CDN's copy. The moderation function, the operator's Uphold, Approve and Reject,
   the owner and the lifecycle rule each take one store call a step, in any order, and
   any call may fail before or after taking effect. `ModerationProtocol` is that
   transition system; `ModerationSafety` proves its invariants over every run;
   `Overrides` holds the commands as methods and proves each is a run of its program in
   the protocol; `Reruns` is about completing an interrupted command.
2. **The log, the labels and the dead-letter queue** (`ReviewLog`, `Rejections`,
   `ReviewQueue`, `LabelDecision`, `DeadLetterQueue`). The one-pass fold of the log
   against what its entries mean, what keeps a rejection on the review queue, the label
   decision, and a redrive that conserves messages.
3. **Collections** (`Repository`, `PartOrder`, `BuildRefs`, `CascadeState`,
   `CascadeDelete`, `AccountDelete`, `CollectionRuns`). Deletes as workers stepped in
   any interleaving over failing stores, the reference check that guards build writes,
   and referential integrity over every run of both.
4. **Two implementations of one number** (`KitGroups`, `BuildCosts`). A build's total
   cost in REST and in MCP, each proved equal to one reference.
5. **Migration** (`IdMaps`, `IdMapSlots`, `MigrateRefs`, `RestoreState`,
   `MigrateRestore`, `RestoredCosts`, `LegacyDump`). A restore resumed from the id map
   the last run saved, the comparison that verifies a restored build, and what a
   restored build costs.

## Hypotheses

- A key's verdict doesn't change: an upload URL is single-use, so the bytes at a key
  never do (`internal/repository/switch.go:157-158`).
- At most one delivery and one operator command run per key at a time.
  `ModerationSafety.LateDuplicateDeliveryTagsApproved` shows what fails without it.
- The log's order is the order its lines were appended in: one clock that never goes
  back.
- A message's visibility timeout outlasts a redrive, and a receive that returns nothing
  means nothing is visible.
- No owner write touches the collection while a delete or a restore runs, and
  validated build writes and deletes follow one another.
- Ids the server gives are fresh, the same as no other item's, and not empty. Upstream request schemas let no empty id
  into a build (`internal/buildrefs/buildrefs.go:22-25`);
  `BuildRefs.PassesIff` says what the reference check accepts without that.
- Costs are exact real numbers.

## Where the code and its comments differ

- The comment on Reject (`internal/moderation/override.go:134-138`) says a rejected
  image without the tag can only be a takedown interrupted before tagging. An Approve
  stopped between removing the tag and writing the status leaves one too
  (`ModerationSafety.StoppedApproveLeavesAGap`), and those two are all
  (`ModerationSafety.GapIsAStoppedCommand`). Reject on what an Approve left records a
  takedown and takes the key off the review queue (`ReviewQueue.RejectSettlesAGap`).
- The same comment says a rerun completes an interrupted takedown. The slot, the tag and
  the CDN, yes; but a Reject stopped between the tag and the review is completed by a
  rerun that records none (`Reruns.TakedownReviewCanBeLost`).
- A legacy plate's id is its material, numbered when it repeats
  (`cmd/mykeebs-migrate/legacy.go:15-25`), so a material that reads like another's
  numbered id clashes with it; `LegacyDump.PlateIdsDistinctIff` says exactly when.

## Model

| member | source | states |
|---|---|---|
| `ModerationProtocol.OtherTagsHaveNoModerationKey` | internal/moderation/override.go:186-193 | Filtering a tag list leaves exactly the other tags, each as often as before, and changes nothing only if there was no moderation tag. |
| `ModerationProtocol.OpStep` | internal/moderation/override.go:50-172 | Every store call brings a running command nearer its end, so Approve makes at most seven calls and Reject at most six. |
| `ModerationSafety.StepKeepsInv` | internal/moderation/override.go:66-95 | Every step of every actor, whatever its call replies, keeps the protocol's invariant. |
| `ModerationSafety.RunKeepsInv` | internal/moderation/moderation.go:79-137 | The invariant holds in every state of every run. |
| `ModerationSafety.ApprovedNeverExpires` | internal/moderation/override.go:66-71 | In every reachable state a current approved image doesn't carry the rejected tag, so the lifecycle rule leaves its file alone. |
| `ModerationSafety.NeverPendingAgain` | internal/moderation/moderation.go:84-93 | Once decided, a key's image is never pending again. |
| `ModerationSafety.LateDuplicateDeliveryTagsApproved` | internal/moderation/moderation.go:120-136 | With two deliveries of one key at a time the claim above fails: a late one tags an image that was rejected and approved since. |
| `ModerationSafety.GapIsAStoppedCommand` | internal/moderation/override.go:134-138 | Every reachable current image that is rejected but untagged, its file present, got so by a step of one Reject or Approve that is still between its two writes, or that failed there. |
| `ModerationSafety.ModeratorNeverOpensGaps` | internal/moderation/moderation.go:120-127 | Without operator commands no such image is reachable. |
| `ModerationSafety.NilClosesTheGap` | internal/moderation/override.go:146-172 | A Reject or an Approve that returns nil leaves no such image. |
| `ModerationSafety.StoppedRejectLeavesAGap` | internal/moderation/override.go:154-158 | A Reject stopped after its status write leaves one. |
| `ModerationSafety.StoppedApproveLeavesAGap` | internal/moderation/override.go:85-93 | So does an Approve stopped after removing the tag. |
| `ModerationSafety.TakedownStaysDark` | internal/moderation/override.go:143-145 | From Reject's invalidation on, until an Approve starts, the CDN has no copy of the file and S3 won't serve it one. |
| `Overrides.Stores.CurrentStatus` | internal/moderation/override.go:259-272 | The status, or the error, that the slot and the reply determine; it changes nothing. |
| `Overrides.Stores.Override` | internal/moderation/override.go:237-257 | The conditional write, and the reread when it didn't apply, lead exactly where the protocol's Approve and Reject programs do. |
| `Overrides.Stores.CheckNotExpired` | internal/moderation/override.go:97-112 | A missing or expired file stops Approve before it untags anything. |
| `Overrides.Stores.UntagRejected` | internal/moderation/override.go:208-235 | Removes the moderation tag and keeps the others, or reports that there was none. |
| `Overrides.Stores.AddRejectedTag` | internal/moderation/override.go:174-200 | Adds the rejected tag and keeps the others, or reports it was there, or that the file is gone. |
| `Overrides.Stores.Uphold` | internal/moderation/override.go:48-60 | For every script of replies, the state and the outcome are those of the protocol's Uphold. |
| `Overrides.Stores.Approve` | internal/moderation/override.go:72-95 | The same of Approve. |
| `Overrides.Stores.Reject` | internal/moderation/override.go:146-172 | The same of Reject, blank reasons included. |
| `Overrides.Stores.Moderate` | internal/moderation/moderation.go:79-137 | One delivery, for every script of replies and every verdict, is the protocol's delivery, and an error exactly when a call it made failed or the file it needed was gone; what that delivery does, the log included, is in the next row. |
| `Overrides.DeliveryDecides` | internal/moderation/moderation.go:79-137 | An image that isn't pending is untouched. Of a pending one a delivery makes a first few of its writes, in order: a rejection logs one line with the key, the reason and the labels, tags the file, and moves the status to rejected with the reason; an acceptance only moves the status. Nil means all of them, and an error short of the last leaves it pending. |
| `Overrides.ServedDeliveryEnds` | internal/moderation/moderation.go:79-137 | With every call served a delivery returns nil, unless the pending image it should judge has no file. |
| `Reruns.UpholdRecords` | internal/moderation/override.go:48-60 | On an image that isn't rejected Uphold fails and changes nothing; otherwise it changes the log alone, by at most one Upheld review of the key, and nil means exactly one. |
| `Reruns.UpholdSaysWhy` | internal/moderation/override.go:259-272 | With every call served, Uphold names a key no item holds as such, and of any image that isn't rejected its status. |
| `Reruns.ApproveRefuses` | internal/moderation/override.go:72-84 | On a key no item holds, a pending image or a missing file, Approve fails and changes nothing. |
| `Reruns.ApproveRefusesExpired` | internal/moderation/override.go:97-112 | Nor does it change anything once S3 reports an expiry date that has passed: it fails. |
| `Reruns.ApproveSaysWhy` | internal/moderation/override.go:72-112 | Approve names a key no item holds, a pending image's status, and a file that is gone. |
| `Reruns.ApproveWrites` | internal/moderation/override.go:72-95 | Wherever one Approve ends, it made a first few of three writes, in order: the file without its moderation tags, the status, one Approved review of the key. Nil means all three, and reports whether it was approved already and whether a tag was removed. |
| `Reruns.ApproveRerun` | internal/moderation/override.go:72-95 | However often and wherever Approve was interrupted, a rerun alone that returns nil leaves the image approved, its file with exactly its other tags and the CDN as it was, as one clean run does, and adds one Approved review. |
| `Reruns.RejectRefuses` | internal/moderation/override.go:146-157 | With a blank reason, or on an image neither approved nor rejected, Reject fails and changes nothing. |
| `Reruns.RejectSaysWhy` | internal/moderation/override.go:146-157 | Reject names a blank reason, a key no item holds, and a pending image's status. |
| `Reruns.RejectWrites` | internal/moderation/override.go:146-172 | Wherever one Reject ends, it made a first few of four writes, in order: the status with the reason, the rejected tag beside the other tags, one Rejected review, the invalidation; on an image rejected and tagged already the invalidation alone. Nil means all, and reports which it was and whether the file is gone. |
| `Reruns.RejectRerun` | internal/moderation/override.go:146-172 | The same of reruns of Reject: rejected with the reason, tagged and out of the CDN; but the rerun records the review exactly when it added the tag or moved the status itself. |
| `Reruns.TakedownReviewCanBeLost` | internal/moderation/override.go:158-166 | A Reject stopped between the tag and the review is completed by a rerun that logs nothing. |
| `Reruns.LegacyImageCanBeTakenDown` | internal/repository/image_status.go:15-22 | An image stored before moderation existed, whose status is empty, counts as approved: a served Reject takes it down. |
| `ImageSlots.Images.Status` | internal/moderation/images.go:22-70 | Reads the one slot of the key; a slot that holds another key, or a missing item, is not current, and a missing status reads as approved; only a failed call is an error. |
| `ImageSlots.Images.SetStatus` | internal/moderation/images.go:72-89 | Makes the conditional write of the key's slot, which a failed call may have made too, and leaves every other key's slot as it was. |
| `ImageSlots.MovesIsSetStatus` | internal/repository/switch.go:121-126 | That write is the protocol's, whatever else the world holds. |
| `ImageSlots.Images.SetImage` | internal/repository/keyboard.go:350-356 | The new key's image is pending, and the only other slot it can change is the one it takes; a failed call aside, it fails exactly without an item to hold it, at a keyboard's or build's ten images, or on an image id in use, and then changes nothing. |
| `ImageSlots.Images.ClearImage` | internal/repository/switch.go:115-119 | Empties the slot and returns the key it held, or none for a slot already empty; no other slot changes; a missing item is an error. |
| `ImageSlots.SharedSlotIff` | internal/moderation/images.go:22-70 | Two keys share a slot exactly when they are of one item, kit or profile and, for a keyboard or a build, of one image id. |
| `ImageSlots.ArrayImagesHaveTheirOwnSlot` | internal/moderation/images.go:27-40 | Two keys of keyboard or build images never share a slot. |
| `ImageKey.Match` | internal/imagekey/imagekey.go:60-73 | Accepts exactly the parts of the pattern's length and literals with no empty segment. |
| `ImageKey.ParsePrint` | internal/imagekey/imagekey.go:43-58 | For non-empty slash-free ids, Parse inverts all five New*ImageKey printers. |
| `ImageKey.PrintParse` | internal/imagekey/imagekey.go:43-58 | Any key Parse accepts is rebuilt exactly from its Ref. |
| `ImageKey.UnderOwnerIffOwned` | internal/repository/owner_images.go:9-17 | A key Parse accepts starts with one of a slash-free owner's prefixes exactly when its Ref's owner is that owner. |
| `ImageKey.SlashedOwnerClaimsOthers` | internal/repository/owner_images.go:9-17 | An owner id with a slash would claim another owner's keys. |
| `Rejections.FoldLine` | internal/moderation/rejections.go:141-171 | One line keeps the three maps and the list equal to what the lines read so far mean. |
| `Rejections.LinesInOrder` | internal/moderation/rejections.go:139-150 | The pass reads the rows in order, and of each its parsed @message fields, in order. |
| `Rejections.ConfidenceIsTheReasons` | internal/moderation/rejections.go:165-169 | A listed rejection's confidence is that of the last label its reason names, or 0 if it names none. |
| `Rejections.AddTakedowns` | internal/moderation/rejections.go:174-180 | Adds exactly the takedowns of keys without a decision, after the decisions, in whatever order the map gives. |
| `Rejections.ParseRejections` | internal/moderation/rejections.go:135-186 | The result lists exactly, once each and newest first: per key with a decision its newest one, with the newest review logged after it; per key with only takedowns its earliest, Manual and with a review; without all, only those with no review. Of one time, decisions come first and in the log's order. |
| `ReviewQueue.AwaitsIffNewestIsDecision` | internal/moderation/rejections.go:133-160 | A key awaits review exactly when its newest log line is a decision. |
| `ReviewQueue.AwaitsWhileUnreviewed` | internal/moderation/rejections.go:135-182 | In every reachable state every decision line of the key is a rejection with the verdict's reason and labels, and the queue lists the key exactly when the log holds one and no review of it. |
| `ReviewQueue.RejectedAwaitsReview` | internal/moderation/moderation.go:99-137 | From the step in which a delivery makes a pending image rejected on, the log holds its decision with key, reason and labels, and the queue lists it, with that reason and the confidence of its label, exactly until an operator's review is logged. |
| `ReviewQueue.RefusedAwaitsReview` | internal/moderation/rejections.go:66-73 | In every run from a key not yet issued the same holds of any decided image the verdict refuses, and no image it accepts is ever listed. |
| `ReviewQueue.SettledForGood` | internal/moderation/override.go:48-60 | Once an Uphold or Approve returned nil, the key never awaits review again. |
| `ReviewQueue.RejectLeavesQueue` | internal/moderation/override.go:138-141 | Reject on a rejected and tagged image, wherever it stops, leaves it on the queue. |
| `ReviewQueue.RejectSettlesAGap` | internal/moderation/override.go:134-138 | On a rejected image left untagged a completed Reject takes the key off the queue, whoever left it so. |
| `LabelDecision.TopLevel` | internal/moderation/decision.go:84-96 | Climbs at most three listed parents. |
| `LabelDecision.ParentsAreTheLast` | internal/moderation/decision.go:58-61 | The parents map has exactly the labels' names, each with the parent of its last label. |
| `LabelDecision.ClimbEndsTheWalk` | internal/moderation/decision.go:84-96 | The climb ends the one walk of listed, non-empty parents from the label, at a name without one or three steps up; so a label without a listed parent is its own top level. |
| `LabelDecision.DecideLabels` | internal/moderation/decision.go:57-82 | The two loops compute the decision that the next rows are about. |
| `LabelDecision.DecideMeaning` | internal/moderation/decision.go:57-82 | Rejects exactly when some label's walk up ends at a category whose threshold the label meets, naming the first of the most confident such labels. |
| `LabelDecision.MinConfidence` | internal/moderation/decision.go:36-48 | At most every threshold, and one of them, or 0 in calibration mode. |
| `LabelDecision.MinimumNeverDecides` | internal/moderation/decision.go:36-48 | With unique names, leaving out labels below any minimum no higher than the thresholds changes no decision, so long as it leaves out no listed parent of a label it keeps, as when no label is surer than its parent. |
| `LabelDecision.UnsureParentsDecide` | internal/moderation/decision.go:84-96 | Without the condition on parents it can: the walk up loses its way. |
| `DeadLetterQueue.Dlq.ReceiveAll` | internal/moderation/dlq.go:183-209 | Hides every visible message, receives each once and loses none; a receiving error means a call failed, a parsing error that a message is unreadable. |
| `DeadLetterQueue.Dlq.Release` | internal/moderation/dlq.go:159-172 | A nil return makes exactly these events visible again. |
| `DeadLetterQueue.Dlq.List` | internal/moderation/dlq.go:106-113 | Consumes nothing; a nil return lists exactly the visible events and leaves them visible. |
| `DeadLetterQueue.Dlq.RedriveOne` | internal/moderation/dlq.go:140-157 | Invokes the function once on the event's own payload and deletes the event only after that succeeded. |
| `DeadLetterQueue.Dlq.RedriveNext` | internal/moderation/dlq.go:127-137 | Redrives one matching event, or gives it and the rest back; that the giving back failed too is reported only when two calls failed. |
| `DeadLetterQueue.Dlq.Redrive` | internal/moderation/dlq.go:115-138 | At every point each message is still queued or was deleted after its own payload's successful invocation; none is invoked twice, and none after a failed run; nil means exactly the matching events are gone and the rest visible; a failed redrive leaves every remaining event visible, unless two calls failed. |
| `PartOrder.SortedParts` | internal/repository/keyboard.go:93-107 | However the map is iterated, the result is its parts, ordered by number and then id. |
| `PartOrder.SortedKits` | internal/repository/keycap_set.go:62-65 | The same of a set's kits. |
| `PartOrder.LessIsLexicographic` | internal/repository/keyboard.go:93-107 | The order of ids with one number is Go's string order: the first character that differs decides, and a prefix comes first. |
| `PartOrder.ListUnique` | internal/repository/keyboard.go:91-107 | There is only one such list. |
| `PartOrder.PartsMap` | internal/repository/keyboard.go:63-76 | The map of a list holds each part under its id, numbered by position, and the last of several with one id. |
| `PartOrder.SortInvertsPartsMap` | internal/repository/keyboard.go:63-76 | Sorting that map gives the list back, renumbered. |
| `PartOrder.AddedPartGoesLast` | internal/repository/keyboard.go:313-319 | A part added with a larger number is listed last, after the others in their order. |
| `KitGroups.GroupBySet` | internal/repoapi/build.go:374-383 | The loop's list and map are the groups of the entries read. |
| `KitGroups.GroupKitsWellGrouped` | internal/repoapi/build.go:361-366 | No set is in two groups, no kit twice in one, and no group is empty. |
| `KitGroups.GroupKitsPermutesDistinct` | internal/repoapi/build.go:361-366 | The groups hold each distinct entry exactly once. |
| `KitGroups.RegroupFlatten` | internal/repoapi/build.go:374-383 | Grouping the entries of well-formed groups gives the groups back, in order. |
| `BuildCosts.SumKnownCosts` | internal/repoapi/common.go:24-40 | The sum of the known components; unknown only when all are. |
| `BuildCosts.RoundsToCents` | internal/repoapi/common.go:45-52 | A rounded cost is the nearest whole number of cents, away from zero if two are as near; an unknown one stays unknown. |
| `BuildCosts.UnitsCostInProportion` | internal/repoapi/build.go:341-345 | A switch entry's cost is known exactly when the price and a non-zero quantity are; the whole quantity costs the price, and costs add up over counts. |
| `BuildCosts.TotalCostIsOneSum` | internal/repoapi/build.go:68-95 | The reference total is the rounded sum of what is known of the keyboard's, plate's and PCB's prices, every switch entry's cost, every distinct kit's price and the stabs' price. |
| `BuildCosts.GroupedCostIsDistinctCost` | internal/repomcp/build.go:170-198 | Grouped by set, or deduplicated in entry order, a build's kits cost the same. |
| `BuildCosts.RestKitsCost` | internal/repoapi/build.go:367-401 | Priced set by set, the kits cost what the distinct entries do, and the lookup fails exactly when an entry doesn't resolve. |
| `BuildCosts.McpKitsCost` | internal/repomcp/build.go:173-198 | The same of the loop with the seen map. |
| `BuildCosts.RestSwitchesCost` | internal/repoapi/build.go:303-359 | The sum of what is known of the entries' costs, each as `UnitsCostInProportion` says; a missing switch is an error. |
| `BuildCosts.McpSwitchesCost` | internal/repomcp/build.go:152-168 | The same cost and the same error. |
| `BuildCosts.RestTotal` | internal/repoapi/build.go:39-95 | For every build, collection and viewer, REST looks everything up and, when it shows a total, it is the reference. |
| `BuildCosts.McpTotal` | internal/repomcp/build.go:102-146 | So is MCP's, which looks switches and kits up only to show a total. |
| `BuildCosts.AnswersAgree` | internal/repository/profile.go:26-37 | MCP shows the total exactly to an owner who shows prices to themself and to others if the owner shows them prices, and REST then shows the same one, and to the owner always; they fail alike exactly when the keyboard is missing, the total is shown, or nothing is missing. |
| `BuildRefs.ValidateKits` | internal/buildrefs/buildrefs.go:88-129 | With the found and not-found caches the errors, and their order, are those of fresh lookups. |
| `BuildRefs.ValidateReferences` | internal/buildrefs/buildrefs.go:31-131 | The same of the whole check, failed lookups included. |
| `BuildRefs.ReportsExactly` | internal/buildrefs/buildrefs.go:31-131 | For every answer of the repositories: the check fails exactly when a lookup of a non-empty id does, and otherwise reports exactly the fields whose value names nothing, each once with that value, in the order of the build's fields. |
| `BuildRefs.PassesIff` | internal/buildrefs/buildrefs.go:20-30 | Any build passes exactly when everything it refers to by a non-empty id is in the owner's collection. |
| `BuildRefs.PassesIffResolves` | internal/buildrefs/buildrefs.go:20-30 | So a build without empty ids passes exactly when all of it resolves. |
| `CascadeState.PartialKeepsIntegrity` | internal/cascadedelete/keyboard.go:56-76 | No state a delete passes through leaves a build that refers to a missing item. |
| `CascadeState.PartialKeepsNoOrphans` | internal/cascadedelete/keyboard.go:66-72 | None leaves a stored image that no record points to. |
| `CascadeState.PartialSameOutcome` | internal/cascadedelete/keyboard.go:66-72 | From any of those states a completed rerun ends where one clean run would have. |
| `CascadeState.PartialTransitive` | internal/cascadedelete/keyboard.go:66-72 | A rerun that stops too is still on the first run's way. |
| `CascadeState.OutcomeCompletes` | internal/cascadedelete/keyboard_part.go:17-40 | For each of the six kinds of target, a completed delete leaves the item gone, every other keyboard, plate, PCB, switch, set and kit as it was, exactly the builds that don't use the item, and exactly the images of what is left. |
| `CascadeState.UsesIffBreaks` | internal/cascadedelete/keyboard.go:56-76 | A build whose references all resolve uses an item exactly when it would not resolve without the item. |
| `CascadeDelete.Stores.TryImage` | internal/cascadedelete/keyboard.go:23-40 | One image of a build being deleted: the collection stays on the delete's way, and a failure is remembered. |
| `CascadeDelete.Stores.TryBuild` | internal/cascadedelete/keyboard.go:142-148 | The build goes only when every one of its images has gone. |
| `CascadeDelete.Stores.RunWorkers` | internal/cascadedelete/keyboard.go:127-155 | Under every interleaving every state is on the delete's way; with no error every build found is gone; an error means a call failed. |
| `CascadeDelete.Stores.DeleteImages` | internal/cascadedelete/keycap_set.go:23-47 | Every image is tried; with no error all are gone. |
| `CascadeDelete.Stores.DeleteItem` | internal/cascadedelete/keyboard.go:97-112 | The item's images go before its record, and a completed run is the whole outcome. |
| `CascadeDelete.Stores.FindPartBuilds` | internal/cascadedelete/keyboard_part.go:68-105 | Through the keyboard's markers, exactly the builds that use the part. |
| `CascadeDelete.Stores.Delete` | internal/cascadedelete/keycap_kit.go:40-123 | Block mode with references changes nothing and returns exactly the referencing ids; a completed delete took exactly the item, those builds and their images, and left everything else as it was; every state since the start is on that way; only a failed call, or a kit's missing set, is an error. |
| `CascadeDelete.Stores.DeletePart` | internal/cascadedelete/keyboard_part.go:47-135 | The same of a plate or a PCB, which is gone from its keyboard while every other part is there; a missing keyboard is an error. |
| `CascadeDelete.Stores.Retry` | internal/cascadedelete/switch.go:28-33 | Retried from wherever each run stopped, a cascade ends in the state of one clean run. |
| `AccountDelete.Account.Delete` | internal/accountdelete/accountdelete.go:53-81 | Tables are emptied in order, then images, then the profile; the first failed call stops it; the notice is sent once, and only after everything is gone. |
| `AccountDelete.Account.Retry` | internal/accountdelete/accountdelete.go:45-52 | Retries finish the rest, pass only through states of one delete, and send at most one notice. |
| `CollectionRuns.EventKeepsIntegrity` | internal/buildrefs/buildrefs.go:20-30 | An owner's item write, a validated build write, a delete of any kind and an account delete, each stopped anywhere, keep every build's references resolving. |
| `CollectionRuns.RunsKeepIntegrity` | internal/cascadedelete/keyboard.go:56-76 | So in every state of every run from an empty collection. |
| `CollectionRuns.BuildsAlwaysShow` | internal/repoapi/build.go:51-66 | So showing a stored build, to anyone, never fails on a missing reference, in REST or MCP. |
| `IdMapSlots.PutAddsOne` | cmd/mykeebs-migrate/restore.go:140-144 | Mapping one dumped item adds exactly its new id to the map. |
| `IdMapSlots.PutKeepsOneSlotEach` | cmd/mykeebs-migrate/manifest.go:33-43 | A fresh id keeps any two dumped items, parts or kits mapped apart. |
| `MigrateRefs.KitEntries` | cmd/mykeebs-migrate/restore.go:549-566 | Succeeds exactly when every set and kit is mapped, with the mapped entries in order. |
| `MigrateRefs.BuildInputFromResolved` | cmd/mykeebs-migrate/restore.go:496-569 | A build is posted exactly when it has a keyboard, a visibility and every reference mapped, with precisely the mapped references in the dumped order and the stabs' price. |
| `MigrateRefs.FlattenKits` | cmd/mykeebs-migrate/verify.go:403-414 | The groups' entries in order. |
| `MigrateRefs.ComparePartRef` | cmd/mykeebs-migrate/verify.go:376-394 | A plate or PCB compares equal exactly when both builds have none, or the live one is the dumped one's non-empty new id. |
| `MigrateRefs.CompareBuildRefs` | cmd/mykeebs-migrate/verify.go:310-394 | Returns no mismatch exactly when every live reference is the dumped one under the map, none of them empty; a mismatch it returns is one that differs. |
| `MigrateRefs.ServerKeepsKits` | internal/repoapi/build.go:374-401 | Through an injective map, the server's grouping keeps a restored build's kits, all of them and in order. |
| `MigrateRefs.RestoredBuildMatches` | cmd/mykeebs-migrate/verify.go:310-374 | A build shown by the source, posted through an injective map that names the target's items, passes the reference check, shows on the target and compares equal. |
| `MigrateRefs.MatchKeepsKitsApart` | cmd/mykeebs-migrate/verify.go:360-373 | Conversely, a restored build that compares equal has no two dumped kits restored as one. |
| `RestoreState.GoodAfter` | cmd/mykeebs-migrate/restore.go:186-201 | One create, answered or lost, mapped or not, keeps the map one-to-one and naming target items, every mapped keyboard, plate, PCB, switch and kit at its dumped price and every switch in its quantity, every mapped build stored with exactly its mapped references, every build created, mapped or not, resolving, and every restored keyboard's parts and set's kits the server's own, in the dumped order. |
| `RestoreState.RestoredInDumpedOrder` | cmd/mykeebs-migrate/restore.go:178-225 | Once all items are mapped, every keyboard's plates and PCBs and every set's kits with distinct dumped ids are listed on the target exactly as dumped, under the map and at their prices, unless an interruption left an unmapped one among them. |
| `RestoreState.RestoredAsDumped` | cmd/mykeebs-migrate/restore.go:448-473 | Once all items are mapped, every dumped keyboard, plate, PCB, switch and kit is on the target at its dumped price, and every switch in its dumped quantity. |
| `RestoreState.RestoredBuildsVerify` | cmd/mykeebs-migrate/verify.go:271-308 | Every build a restore mapped, whatever interrupted it, verifies without a reference mismatch. |
| `RestoredCosts.RestoredBuildCostsTheSame` | cmd/mykeebs-migrate/restore.go:496-569 | Every mapped build of a dump taken from its source, closed under references, has on the target exactly the total cost it has on the source. |
| `MigrateRestore.Restore.RestoreOne` | cmd/mykeebs-migrate/restore.go:186-201 | Create, map, save: a failure leaves at most one item unmapped, and none once the save succeeded. |
| `MigrateRestore.Restore.RestoreKeyboardParts` | cmd/mykeebs-migrate/restore.go:178-225 | Ends with every dumped plate and PCB mapped, or at the first failed call. |
| `MigrateRestore.Restore.RestoreKeyboards` | cmd/mykeebs-migrate/restore.go:105-176 | The same of every keyboard with its parts; one not yet mapped and dumped without its visibility is an error too. |
| `MigrateRestore.Restore.RestoreSwitches` | cmd/mykeebs-migrate/restore.go:229-285 | The same of every switch, which is posted with its dumped price and quantity, visibility included. |
| `MigrateRestore.Restore.RestoreKeycapSets` | cmd/mykeebs-migrate/restore.go:289-396 | The same of every set with its kits, visibility included. |
| `MigrateRestore.Restore.RestoreBuilds` | cmd/mykeebs-migrate/restore.go:400-446 | The same of every build, unless one refers to something not dumped. |
| `MigrateRestore.Restore.Run` | cmd/mykeebs-migrate/restore.go:17-70 | One run keeps every mapping and leaves at most one item more unmapped; nil means everything dumped is mapped, nothing more is unmapped, every item, part and kit has its dumped price and every switch its quantity, and parts and kits are listed as dumped wherever none is left unmapped; only a failed call, an item dumped without its visibility, or a build that refers to something not dumped, is an error. |
| `MigrateRestore.Restore.Resume` | cmd/mykeebs-migrate/restore.go:17-20 | Over any number of interrupted and resumed runs the map stays injective and names only target items, items created but not mapped number at most one an interruption, and a final nil means what one run's does. |
| `LegacyDump.PlateIdsDistinctIff` | cmd/mykeebs-migrate/legacy.go:15-25 | Upgraded plates have distinct ids exactly when no listed material is another's numbered id. |
| `LegacyDump.PlateIdsDistinct` | cmd/mykeebs-migrate/legacy.go:15-25 | So always when no material contains '#'. |
| `LegacyDump.ItoaIsDecimal` | cmd/mykeebs-migrate/legacy.go:20-25 | A plate's number is printed in decimal, without leading zeros. |
| `LegacyDump.UpgradePlateList` | cmd/mykeebs-migrate/legacy.go:37-46 | The loop gives every plate, in place, its material and its id by occurrence, and fails exactly when one isn't a string. |
| `LegacyDump.UpgradeKeyboard` | cmd/mykeebs-migrate/legacy.go:28-70 | The upgrade as one function of the parsed keyboard, of which the rows below say what moves, what goes and what stays; it fails exactly on what is no object and on a plate that is no string. |
| `LegacyDump.UpgradedKeyboardPlates` | cmd/mykeebs-migrate/legacy.go:37-53 | The upgraded keyboard lists exactly the legacy plates, in their order, each with its material and, for an id, the material, numbered from its second occurrence on. |
| `LegacyDump.UpgradedKeyboardKeepsTheRest` | cmd/mykeebs-migrate/legacy.go:47-70 | The design loses its plate list, and goes if that was all; a legacy PCB becomes a list of one under the id "pcb" with its other fields; no other field changes. |
| `LegacyDump.KeyboardUpgradeIdempotent` | cmd/mykeebs-migrate/legacy.go:27-70 | Upgrading an upgraded keyboard changes nothing. |
| `LegacyDump.BuildPlateIsFirstOfMaterial` | cmd/mykeebs-migrate/legacy.go:72-85 | An upgraded build's plate is its upgraded keyboard's first plate of that material, and its other fields stay. |

## Left out

- MigrateRestore.Restore.Run: an `id-map.json` half-written by a failed save, and one written for another subject, are not modelled; a failed save either wrote the whole map or nothing. Of an item's own fields only prices and a switch's quantity are modelled.
- MigrateRestore.Restore.RestoreKeyboards: images are one call that may fail, and the ids of array images are not in the map, because the code doesn't resume them.
- CascadeDelete.Stores.RunWorkers: an image listed twice in one build is tried once.
- Overrides.Stores.Approve: the expiry date is the reply to the head request; reading it out of the header is not modelled.
- Overrides.Stores.Reject: only ASCII white space makes a reason blank, and a key Parse refuses, which fails before any call, is left out of all three commands.
- Overrides.Stores.Moderate: Handle's loop over an event's records, detection itself (Rekognition, WebP) and the error classes that choose between a verdict and a retry; the verdict is given.
- Rejections.ParseRejections: the warning for a line that isn't JSON.
- LabelDecision.DecideLabels: the warning for an unknown category.
- MigrateRefs.CompareBuildRefs: which text describes a mismatch; a missing list and an empty one are the same here.
- AccountDelete.Account.Delete: a failed notice is only logged, so whether the operator received it is not stated.
- stillRejected, which drops listed rejections whose image is gone, and the query behind the log.
- DynamoDB's markers, cursors and transactions: the Find calls return exactly the referencing builds, as their interface says.
- Creating a review's log stream is part of the call that records it.
- HTTP, JSON, OAuth, the MCP SDK, authorization, lookup lists and field-by-field mappings: plumbing, or one-branch facts.
- Floating-point rounding, and a set's or a keyboard's own total cost and order status: sums of the kind `BuildCosts` has.
- A set's primary kit, and Redrive's callback after each event.
- Owner writes that replace an image's object, whose record is written before the old object goes: orphans are stated for deletes only.
