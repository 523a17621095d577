# Permission search: a verified model

The repository keeps one OpenSearch document per resource, made of features, annotations, a creator
and eight permission lists (users and groups, each with the rights a, r, w and x).  Commands from
Kafka change the documents, and queries filtered by permission read them.  This project models that
code in Dafny and proves what it promises.  OpenSearch and Kafka are small abstract stores; the code
around them is modelled branch by branch.

Check it with `dafny verify dfyconfig.toml`.

## The parts

**Documents and commands.** `Model` has the entry as a class whose methods append to and reassign the
lists as the Go struct's do, each proved against a function on documents; where line 70 of
lib/model/model.go may leave two group lists in one array, the room behind the admin groups and the
sharing are part of the state, and `GoSlices` shows on real arrays that this is what Go's append does.
`Commands` says what one command does alone.  `PermissionHistory` describes whole histories of permission commands,
`RightsMaps` the rights maps that are set, exported and imported, and the guard on giving up one's own
admin right.

**The worker.** `Worker` has the handlers as methods on a store that other clients may change before
every call; each handler has at most one effect, that of its command alone, and an error only when a call
gave one.  `Effects` says what each command changes, list by list.  `Interleaving` is the state machine of
all handlers at once, with the exists check, the get and the conditional write as separate steps, answers
that get lost, and changes of the primary: every run refines the committed commands run one after the
other as long as no creation finds its document there, which one PUT per document at a time is enough for.
`Progress` says what gets done: which writes land, and that every command can run to its end.  `Views` is
what can be seen of one resource whatever order maps are ranged over in.  `Retrying` and `Consumer` cover
retries, crashes and redelivery, `Redelivery` runs whose commits fail, `PermissionConsumer` the consumer
that reports every error as success, and `Compaction` what a topic keeps however far it is compacted and
the replay that makes it sufficient.

**Queries.** `QueryAst` gives bool queries a meaning.  `RightsQuery` shows that the compiled rights
query, the direct check and the shown permissions decide alike, `Selections` that the selection
compiler preserves meaning.  `Paging` is the sort order and paging, `Searching` and `Enumeration` the
result window and the loops that walk a whole index.

**Modifiers, references, options.** `Encoding` is the parameter codec (application/x-www-form-urlencoded
as in section 5 of the WHATWG URL Standard, percent-encoding as in section 2.1 of RFC 3986), `Grouping`
and `Modifiers` the grouping of ids that carry parameters and the bulk check, `ModifiedLists` their
expansion and the adding of parameters, `References` the reference cache, `ListOptions` the printing,
parsing and checking of list requests.  `GoStrings` has the pieces of Go's `strings` and `strconv` they
rest on.

**Index versions.** `IndexMigration` is the switch of an alias from one index version to the next, with
every request possibly refused or its answer lost.

## Where the code and its description part

* lib/model/model.go:70 builds a group's execute list from the admin list, and the model does as coded:
  group execute rights do not follow the last command (`PermissionHistory.GroupExecuteHistoryExactly`
  says after which histories they do).
* The same line appends to the admin groups' array.  Where that array has room, the execute list lies in
  it, and the next group that is given an a writes over the execute list's last element: the group with
  the x loses it and the other gains one it was not given (`PermissionHistory.ExecuteOverwritten`, with
  arrays that double).  Go does not fix how much room an append leaves, so the room is a parameter of
  everything that is said about a new document.  `PermissionHistory.DefaultsOrderFreeExactly` says for
  which configurations its defaults depend neither on the order of a Go map nor on the room; the shipped
  default (config.json:45) is not one of them.
* lib/query/query.go:107 leaves the user clause out for an empty user id, so the query and the direct
  check disagree there (`RightsQuery.QueryAgreesExactly`).
* lib/model/query.go:83 adds limit and offset as Go ints.  A sum past the largest int wraps around and
  passes the check (`ListOptions.WindowCheckExactly`); OpenSearch still refuses such a search.
* lib/query/query.go:384-387 and lib/query/query.go:1228-1229: with parameters to add, an error of the
  listing or of the first addition does not reach the caller, who gets an empty result with success
  (`ModifiedLists.QueryIds`, `ModifiedLists.ErrorsExactly`).
* README.md:166 describes an example of "!=" as a search for equal names.  The compiled query is the
  complement of "==", for every value and reference (`Selections.UnequalIsComplement`).
* A compacted topic alone can lose the rights of a resource whose last PUT came after its last RIGHTS:
  `Compaction.RebuildsExactly` says when it does, for every way in which the topic may be compacted in
  part; `Compaction.LosingLogs` gives two logs that do.
* lib/worker/kafka/consumer.go:150-152 only logs a commit that fails and goes on.  The messages since the
  last stored commit are then handled again together, which can change a document;
  `Redelivery.FailedCommitsExactly` says for which logs it cannot.
* lib/worker/event.go:36-42 turns every error of a permission command into success, so a version conflict
  drops the command (`PermissionConsumer.SomeMessagesOnce`).
* Nothing in the handlers keeps two PUTs for one id apart; two that both find the document missing can
  lose one of them (`Interleaving.OverlappingPutsLoseUpdates`).

## Model

| member | source | states |
|---|---|---|
| Interleaving.InterleavingsRefineCommands | lib/worker/command.go:31-349 | for every interleaving of any number of handlers with at most one PUT per document under way, the documents are those of the committed commands run one at a time; RIGHTS, DELETE, permission and annotation handlers may overlap at will |
| Interleaving.CollisionFreeRunsRefine | lib/worker/command.go:239-248 | the same for every run, however PUTs overlap, in which no creation finds its document there |
| Interleaving.DisciplinedIsCollisionFree | lib/worker/command.go:197-248 | with at most one PUT per document under way no creation finds its document there |
| Interleaving.SuccessMeansOnce | lib/worker/command.go:31-349 | in every run, however commands overlap, a handler that reported success stands in that order exactly once, between its start and its end; one that failed is not in it |
| Interleaving.OrderRespectsTime | lib/worker/command.go:31-349 | in every run, if at some point one handler had ended and another had not begun, the one stands before the other |
| Interleaving.OnlyPutCreates | lib/worker/event.go:263-314 | in every run, a document for which no PUT is under way or started is not created or resurrected, whatever permission, RIGHTS, DELETE and annotation commands and PUTs for other documents do |
| Interleaving.ReachableDocsAreFiled | lib/worker/command.go:239-244 | in every state of every run each document has its own, non-empty id as resource |
| Interleaving.OverlappingPutsLoseUpdates | lib/worker/command.go:197-261 | from any state, any two PUTs for a missing document can run so that the second creation overwrites the first; no order of the two explains the outcome if and only if the owners differ and the features do too or the second names no owner |
| Interleaving.ExclusiveKept | lib/worker/event.go:177-217 | each step keeps one PUT per document under way, given that the consumer starts no second one |
| Interleaving.TruthfulKept | lib/query/query.go:1032-1068 | a version that was read names the content that was read, after every step |
| Interleaving.CurrentKept | lib/worker/command.go:197-261 | what an exists check told a creating handler still holds when it writes |
| Progress.WriteExactly | lib/worker/command.go:50-71 | in every sound state: a write that finds the version it read, the document it deletes or none to create is logged, leaves what its command does alone and reports success unless the answer is lost; any other changes nothing and fails |
| Progress.EveryCommandRuns | lib/worker/command.go:31-349 | from any state, whatever is under way, every command can be started and carried out by its own steps alone: it succeeds and leaves what it does alone; an annotation of a missing document fails and changes nothing |
| Progress.DoneAtOnce | lib/worker/command.go:270-280 | RIGHTS without rights, and commands other than PUT and annotations on a missing document, succeed without a write |
| Progress.GoneMeanwhile | lib/worker/command.go:39-43 | a document gone by the time it is read: permission commands succeed and change nothing, any other fails; one without id is left alone by PUT and RIGHTS |
| Progress.MergeExactly | lib/worker/event.go:263-284 | a bulk annotation does what it does alone, unless it is dropped or its document is missing |
| Progress.AnythingMayFail | lib/worker/command.go:61-71 | any handler under way may fail at any point, which changes no document |
| Worker.Handlers.ChangePermission | lib/worker/command.go:31-189 | under interference the handler has at most one effect, that of its permission command alone, one if it reports success, and an error only if a call failed |
| Worker.Handlers.UpdateFeatures | lib/worker/command.go:191-261 | PUT under interference: at most one effect, that of the command alone on the document as it then is, existing or missing, one if it reports success, and an error only if a call failed or found the document gone |
| Worker.Handlers.Create | lib/worker/command.go:239-261 | the unconditional creation under interference: at most one effect, that of a PUT on a missing document, and an error only if the write failed |
| Worker.Handlers.UpdateRights | lib/worker/command.go:263-323 | RIGHTS under interference, with and without rights in the message: at most one effect, that of the command alone, one if it reports success, and an error only if a call failed or found the document gone |
| Worker.Handlers.DeleteFeatures | lib/worker/command.go:325-349 | DELETE under interference: at most one effect, that of the command alone, one if it reports success, and an error only if a call failed |
| Worker.Handlers.Annotate | lib/worker/event.go:263-314 | an annotation of one kind under interference: at most one effect, that of merging all fields but "_id", one if it reports success, and an error only if a call failed or found no document |
| Worker.Handlers.MergeAnnotations | lib/worker/event.go:290-297 | the fields but "_id" are laid over the annotations |
| Worker.Handlers.HandlePermissionCommand | lib/worker/event.go:134-175 | dispatch: messages without resource or kind are dropped, others act as the command they name or are refused; exactly the successful ones are announced, once |
| Worker.Handlers.HandleResourceCommand | lib/worker/event.go:177-217 | dispatch of one resource topic: RIGHTS, PUT, DELETE, anything else refused, a missing id dropped; exactly the successful ones are announced, once |
| Worker.Handlers.SendDone | lib/worker/worker.go:97-107 | one message with the handler named, or none without a producer; an error only if the producer failed |
| Worker.PermOfExactly | lib/worker/event.go:158-174 | which messages set or delete whose rights: the user is preferred to the group, nothing else is a permission change |
| Worker.CommandOfExactly | lib/worker/event.go:203-216 | which resource messages are which command |
| Effects.OnlyItsDocument | lib/worker/command.go:31-349 | a command touches no document but its own |
| Effects.Existence | lib/worker/command.go:191-349 | a PUT leaves the document there, a DELETE does not, any other command as it was |
| Effects.PutCreates | lib/worker/command.go:239-241 | a new document has the id, features and owner of the PUT, no annotations, the owner on all four user lists and nobody else, and the configured groups on the a, r and w lists |
| Effects.PutUpdates | lib/worker/command.go:211-217 | PUT on an existing document: new features, the creator filled in if empty, everything else as it was |
| Effects.PutIgnored | lib/worker/command.go:207-210 | a stored document without id is left alone by PUT |
| Effects.RightsReplace | lib/worker/command.go:286-300 | RIGHTS: the eight lists hold exactly who the message grants, the creator filled in from the new admin users, everything else as it was |
| Effects.RightsIgnored | lib/worker/command.go:270-285 | RIGHTS without rights, on a document without id or on a missing one changes nothing |
| Effects.AnnotationsMerged | lib/worker/event.go:290-297 | every field of the message is laid over the annotations, everything else stays |
| Effects.UserRightsSet | lib/worker/command.go:46-47 | a user is left with exactly the letters of the command, every other user and everything else as it was |
| Effects.GroupRightsSet | lib/worker/command.go:86-87 | the same for a group and a, r, w; execute as line 70 of lib/model/model.go leaves it |
| Effects.PermissionApplied | lib/worker/command.go:31-189 | a permission command changes its document if there is one |
| Model.ListRemove | lib/model/model.go:82-89 | exactly the elements that differ stay, in their order |
| Model.Entry.AddUserRights | lib/model/model.go:38-51 | the new entry: the user appended for each letter, all else unchanged |
| Model.AddUserHolders | lib/model/model.go:38-51 | the user gains exactly the letters of the string, nobody else anything |
| Model.Entry.RemoveUserRights | lib/model/model.go:53-58 | the new entry: the user gone from the four user lists |
| Model.Entry.AddGroupRights | lib/model/model.go:60-73 | the new entry letter by letter as coded, with the execute list in the array of the admin list or in its own; on lists with arrays of their own, as on values |
| Model.OneGroupAsValues | lib/model/model.go:60-73 | the letters of one group on lists with arrays of their own come out as on values, whatever the room |
| GoSlices.Append | lib/model/model.go:64-70 | Go's append: in place where the array has room, in a new array otherwise |
| GoSlices.AppendAdmin | lib/model/model.go:64 | on real arrays, appending to the admin list does to both lists what the model records |
| GoSlices.AppendExecute | lib/model/model.go:70 | on real arrays, the execute list ends up in the array of the admin list exactly when that has room |
| Model.AddGroupHolders | lib/model/model.go:60-73 | for a, r and w the group gains exactly the letters of the string |
| Model.AddGroupExecute | lib/model/model.go:69-70 | an x hands execute to the admin groups and the named one, and takes it from all others |
| Model.Entry.RemoveGroupRights | lib/model/model.go:75-80 | the new entry: the group gone from the four group lists |
| Model.Entry.SetDefaultPermissions | lib/model/model.go:25-36 | the new entry: the owner in the four user lists, then the initial groups in the order the map yields, for every room that the appends leave |
| Model.Entry.SetResourceRights | lib/model/model.go:192-221 | the new entry: the holders of both maps appended in the orders the maps yield |
| Model.AddRightsHolders | lib/model/model.go:192-221 | the appended holders are exactly those of the map, for every right |
| Model.Entry.ToResourceRights | lib/model/model.go:223-295 | every listed holder with exactly its rights, the id, the features and the creator |
| Model.Entry.FillCreator | lib/worker/command.go:212-217 | an empty creator becomes the first admin user, or else the owner |
| Model.Mark | lib/model/model.go:228-238 | one of the eight loops: listed holders gain one right, the others keep theirs |
| Commands.CreatorStays | lib/worker/command.go:212-217 | once a document has a creator, no history without its deletion changes it |
| PermissionHistory.LastCommandWins | lib/worker/command.go:46-47 | after any history a user holds exactly the letters of the last command naming it; the same for groups and a, r, w |
| PermissionHistory.OnlyLastCommandsMatter | lib/worker/command.go:46-47 | histories with the same last command for a holder leave it the same rights: users for all letters, groups for a, r and w |
| PermissionHistory.UserHistoryFrame | lib/worker/command.go:127 | user commands leave all groups untouched and the reverse; nothing but the lists changes |
| PermissionHistory.GroupExecuteAfterHistory | lib/model/model.go:70 | who holds execute after any history: of the groups not named after the last grant of an x, its own and those that had admin before it |
| PermissionHistory.GroupExecuteHistoryExactly | lib/model/model.go:70 | after a history every group's x follows its last command if and only if no command grants a group x, or every other group not named after the last such command should then have had admin exactly when it should have had execute |
| PermissionHistory.GroupExecuteExactly | lib/model/model.go:70 | one grant does to every holder and letter what it should if and only if it has no x or the other groups' admin and execute rights coincide |
| PermissionHistory.GroupExecuteLost | lib/model/model.go:70 | concrete history in which a group loses the x of its last command |
| PermissionHistory.ExecuteAfter | lib/model/model.go:60-73 | the execute list of a new entry after any letters for any groups, for every room: the admin groups before the last x, and then its own group or, where there was room behind them, the group of the next a |
| PermissionHistory.OtherLettersAfter | lib/model/model.go:60-73 | the other three lists hold exactly who was given their letter, for every room |
| PermissionHistory.DefaultsOrderFreeExactly | lib/model/model.go:32-34 | the default holders are the same for every map order and every room if and only if no group has x, or all admin groups do and there is one x group or all x groups are admin groups |
| PermissionHistory.OnlyItself | lib/model/model.go:64-70 | where every admin group has x, only the group of the last x itself can write over the end of the execute list |
| PermissionHistory.ExecuteOverwritten | lib/model/model.go:64-70 | with doubling arrays, three admin groups, a group with x and a fourth admin group: the group with x has no execute and the fourth admin group has |
| PermissionHistory.LateAdminOverwrites | lib/model/model.go:64-70 | the same for a concrete configuration: g1, g2 and g3 with a, h with x, g4 with a |
| PermissionHistory.DoublingHidesOrder | lib/model/model.go:64-70 | with doubling arrays, three groups with a and x and one with a have the same execute holders for every order |
| PermissionHistory.HiddenOrderSeen | lib/model/model.go:64-70 | over all rooms the same configuration depends on the order |
| PermissionHistory.ShippedDefaultDependsOnOrder | config.json:45 | the shipped default depends on the map order |
| RightsMaps.ExtractUndoesSet | lib/model/model.go:192-295 | extracting the rights set on an empty entry gives the map back without all-false holders, for every order |
| RightsMaps.SetUndoesExtract | lib/model/model.go:192-295 | setting an entry's extracted rights on an emptied entry gives the same holders, without repeats |
| RightsMaps.ImportResource | lib/query/migration.go:38-41 | the imported document: id, features and creator as exported, the rights set |
| RightsMaps.ImportUndoesExport | lib/query/migration.go:38-41 | export then import keeps rights, features and creator of any document, and drops annotations |
| RightsMaps.AdmitsRemoval | lib/api/rightsproducer.go:83-105 | the guard admits exactly the rights with an admin user that keep the requester admin by user id or role |
| RightsMaps.AdmittedExactlyWhenAdminStays | lib/api/rightsproducer.go:83-105 | the guard admits rights if and only if, once UpdateRights has applied them to any entry, an admin user is left and the requester passes the "a" check |
| Compaction.OnePartitionPerResource | lib/worker/kafka/producer.go:90-98 | both keys of a resource go to one partition, for every id and inner balancer |
| Compaction.CleanedKeepsLastOf | lib/model/model.go:114-117 | however far a log is compacted, it keeps the last command of every resource |
| Compaction.CompactHasNoRepeats | lib/model/model.go:114-117 | a compacted log has every key at most once |
| Compaction.ExistenceAndFeatures | lib/worker/event.go:193-214 | the last PUT or DELETE decides existence, the last PUT the features |
| Compaction.LastRightsDecide | lib/worker/command.go:286-294 | a RIGHTS that comes last decides who holds what |
| Compaction.CleanedLogRebuilds | lib/worker/event.go:193-214 | from an empty store any run of the log, however far compacted, agrees with any run of the full log in existence, features and rights for every resource that is gone or whose last RIGHTS follows its last PUT |
| Compaction.RebuildsExactly | lib/worker/kafka/common.go:56-76 | for every log, every log that drops only messages with a later one of their key, and every plain id: every run of the shorter log leaves the existence, features and rights that the full log gives if and only if the rights' sources in both logs give the same rights |
| Compaction.PartlyCompactedExactly | lib/worker/kafka/common.go:56-76 | with the older messages compacted in full and the newer not at all, that holds if and only if the newer delete the resource or set its rights, or its rights survive in the older |
| Compaction.CleanedView | lib/model/model.go:114-117 | however far compacted, a log leaves the full log's existence and features |
| Compaction.CompactedView | lib/model/model.go:114-117 | a log compacted in full leaves the rights that come last or the defaults of the last PUT's owner |
| Compaction.LossIsSeen | lib/model/model.go:114-117 | where the rights do not survive, some run of the compacted log differs from every run of the full log |
| Compaction.LosingLogs | lib/model/model.go:114-117 | two logs that lose rights under every configuration: a PUT after a RIGHTS, and two PUTs of different owners |
| Compaction.RecoverableSurvives | lib/model/model.go:114-117 | rights that come last always survive, however far the log is compacted |
| Compaction.ReplayKeepsView | lib/replay/replay.go:69-82 | the replay leaves existence, features and rights of every document unchanged |
| Compaction.ReplayMakesRecoverable | lib/replay/replay.go:69-82 | after a replay the log, however far compacted, rebuilds every resource of the kind |
| Compaction.UnrecoverableGetsDefaults | lib/model/model.go:114-117 | a resource whose last RIGHTS does not follow its last PUT comes back from a log compacted in full with exactly the lists a new document of that PUT's owner gets |
| Consumer.EveryMessageOnce | lib/worker/kafka/consumer.go:111-160 | while commits are stored, any run with failing attempts, retries, halts and crashes between messages leaves what handling each message once leaves, rights as sets and creator included |
| Consumer.HandledAgain | lib/worker/command.go:191-349 | PUT, RIGHTS and DELETE are idempotent on every document, rights as sets and creator included |
| Consumer.MessageHandled | lib/worker/kafka/consumer.go:139-159 | an attempt that succeeds and a stored commit bring the consumer behind the message, with its effect |
| Consumer.WhatMayGoWrong | lib/worker/kafka/consumer.go:139-159 | an attempt may fail with or without its effect, and giving up or a crash leads back to the stored offset |
| Redelivery.RedeliveryExactly | lib/worker/kafka/consumer.go:139-159 | for any stretch of messages, documents and resource: handling it twice always leaves a document that handling it once can leave, if and only if the document existed, or the stretch deletes it, or sets no rights, or has no PUT or a RIGHTS after the first one, or sets that PUT's defaults |
| Redelivery.TwiceIsOnceExactly | lib/worker/kafka/consumer.go:139-159 | the view after the second time is the same if and only if the stretch is not of that kind |
| Redelivery.FailedCommitsExactly | lib/worker/kafka/consumer.go:146-158 | whichever commits fail and however often the consumer restarts behind the last stored one, every run to the end of the log leaves each document as handling every message once can leave it, if and only if every rest of the log can be handled again from where it begins |
| Redelivery.HarmHappens | lib/worker/kafka/consumer.go:146-158 | for any rest of a log that cannot, there is a run in which commits fail from there on, the consumer crashes, and the document comes out otherwise |
| Redelivery.DefaultsLeftExactly | lib/worker/kafka/consumer.go:139-159 | without a DELETE a stretch leaves a missing resource with defaults if and only if it has a PUT and every RIGHTS with rights comes before the first one |
| Redelivery.RedeliveredPairDiffers | lib/worker/kafka/consumer.go:146-158 | a RIGHTS and the PUT after it, redelivered together, give another document |
| PermissionConsumer.SomeMessagesOnce | lib/worker/event.go:36-45 | while commits are stored, any run with dropped commands, timeouts and crashes leaves exactly the documents that some of the messages leave, each handled at most once and in their order |
| PermissionConsumer.HandleIsApply | lib/worker/command.go:31-189 | what a message does here is what the command does alone |
| PermissionConsumer.ErrorsDropTheCommand | lib/worker/event.go:36-42 | a command whose handler fails is committed like any other and not handled again |
| PermissionConsumer.BackToTheStoredOffset | lib/worker/kafka/consumer.go:66-77 | a timeout or a crash leads back to the stored offset, which a failed commit does not move |
| PermissionConsumer.TwiceInARow | lib/worker/command.go:31-189 | a permission command handled twice in a row is as handled once, a group's x included |
| PermissionConsumer.FailedCommits | lib/worker/kafka/consumer.go:60-78 | whichever commits fail, every document has the rights that some of its commands leave, each handled at most once and in their order: users' rights and groups' a, r and w |
| PermissionConsumer.ExecuteAfterRedelivery | lib/worker/kafka/consumer.go:60-78 | two commands granting groups x, the first handled again: both groups have execute |
| PermissionConsumer.NeverBothOtherwise | lib/worker/kafka/consumer.go:60-78 | handling some of the two once each and in their order never leaves both with execute |
| Views.ExecutionShown | lib/worker/command.go:191-349 | any execution of PUT, RIGHTS and DELETE messages leaves a document with the features, annotations, rights and creator of the view |
| Views.PresentAfter | lib/worker/command.go:191-349 | without a DELETE the last PUT gives an existing document its features and the last RIGHTS its rights |
| Views.GoneAfter | lib/worker/command.go:191-349 | without a DELETE the first PUT creates a missing document, which then has the last rights or that PUT's defaults |
| Views.DeleteForgets | lib/worker/command.go:325-349 | with a DELETE what was there before does not matter |
| Retrying.Retry | lib/worker/kafka/consumer.go:184-204 | nil only if the last run succeeded, no run after a timeout, the n-th pause as long as the n-th wait, the waits before the last run within the limit, and a plain error only when another wait would not be; no run is waited for longer than a minute |
| Retrying.ThirtyFiveRuns | lib/worker/kafka/consumer.go:140-144 | linear waits and ten minutes leave room for k runs if and only if k is at most 35 |
| Retrying.HandleMessage | lib/worker/kafka/consumer.go:139-159 | a fetched message is run 1 to 35 times and committed exactly when the last run succeeded; a handler that only errs is given up when the ten minutes have no room for another pause |
| RightsQuery.GetRightsQuery | lib/query/query.go:99-192 | one clause per asked letter, "" read as "r", other characters ignored |
| RightsQuery.ClauseMeaning | lib/query/query.go:105-125 | what one letter's clause matches, for every user and group list |
| RightsQuery.QueryAgrees | lib/query/query.go:99-192 | for a non-empty user the compiled query matches exactly the entries that grant every asked letter |
| RightsQuery.QueryAgreesExactly | lib/query/query.go:107 | query and check agree on all entries if and only if the user is not empty or no letter is asked |
| RightsQuery.CheckRights | lib/query/query.go:244-271 | the direct check accepts exactly when every asked letter is granted by user or group |
| RightsQuery.ContainsAny | lib/query/query.go:273-280 | true exactly when the lists share an element |
| RightsQuery.AnyMatch | lib/query/query.go:1070-1079 | true exactly when the lists share an element |
| RightsQuery.GetPermissions | lib/query/query.go:1081-1089 | the shown value of each letter is exactly whether it is granted |
| RightsQuery.ThreeDecisionsAgree | lib/query/query.go:99-271 | query, check and shown permissions agree on every entry, user, group list and rights string |
| RightsQuery.LettersStandFor | lib/query/query.go:244-271 | a, r, w and x ask for the admin, read, write and execute list through the user or a group, "" for read, other characters for nothing |
| RightsQuery.LettersTogether | lib/query/query.go:244-271 | several letters ask for all of them |
| RightsQuery.ListsIndexed | lib/model/model.go:148-155 | the eight lists are queried under the names they are stored by |
| Selections.GetFilter | lib/query/selection.go:28-74 | the compiled query or the error is that of the compilation function, with its precedence and, or, not, condition |
| Selections.GetConditionFilter | lib/query/selection.go:76-143 | the compiled condition or the error of an unknown operation, values and references resolved from the token |
| Selections.MeaningKept | lib/query/selection.go:28-143 | the compiled query matches exactly the selected documents; an error comes exactly when a reached condition has an unknown operation, and names the first |
| Selections.UnequalIsComplement | lib/query/selection.go:76-143 | "!=" matches exactly where "==" does not, for every value and reference, null included |
| Selections.ReferencesStandFor | lib/query/selection.go:81-87 | in the compiled query, without a value: "jwt.user" is the caller's id and "jwt.groups" the caller's roles, for "==" and for any_value_in_feature; "id" is the field "_id" |
| Selections.ValuesStandForThemselves | lib/query/selection.go:80-137 | in the compiled query a value that is set is used as it is, whatever the reference |
| Selections.NothingStandsForAbsence | lib/query/selection.go:89-118 | without a value and a reference that gives one, "==" finds the documents without the field and "!=" those with it |
| Selections.CombinationsStandForThemselves | lib/query/selection.go:28-74 | the compiled "and", "or" and "not" match as all, some and none of the compiled parts do, in that precedence |
| Paging.WithPagination | lib/query/query.go:1365-1406 | size is the limit, from the offset or search_after the id, and the sort of every request |
| Paging.LimitAndOffsetSent | lib/query/query.go:1377-1382 | the size is the limit, from the offset exactly without after, search_after the id exactly with it |
| Paging.SortFieldAddressed | lib/query/query.go:1366-1376 | the sort field is the resource id exactly for "", "id" and "resource", else a feature or annotation field ending in the asked name; addressing twice changes nothing |
| Paging.AskedFieldDecides | lib/query/query.go:1383-1403 | the asked field orders in the asked direction, ties go by resource id in the same direction |
| Paging.SortIsStrictTotalOrder | lib/query/query.go:1365-1406 | the sort is a strict total order on documents with distinct resource ids |
| Paging.ArrangementIsUnique | lib/query/query.go:1365-1406 | documents with distinct resource ids have exactly one sorted arrangement |
| Paging.AnArrangement | lib/query/query.go:1365-1406 | any documents have a sorted arrangement |
| Paging.PagesConcatenate | lib/query/query.go:1377-1379 | the answers to the requests with offsets 0, limit, 2 * limit and so on concatenate to the first part of the sorted result, no gap or repeat |
| Paging.AfterHasOneKey | lib/model/query.go:86-99 | a validated request with after has exactly one sort key, the resource id, and a one-element search_after |
| Paging.AfterContinues | lib/query/query.go:1380-1382 | the request that goes on after the last document of a page is answered with the next documents of the sorted result, as many as its limit, ascending and descending |
| Enumeration.SortedAscends | lib/replay/replay.go:98-104 | hits of the replay's sort ascend by resource id |
| Enumeration.GetEntries | lib/replay/replay.go:84-135 | every document once, in id order, for every positive batch size within the window; then it stops |
| Enumeration.ReplayPermissions | lib/replay/replay.go:69-82 | one RIGHTS per document with its rights and no owner, up to the first that cannot be sent; without a producer none |
| Enumeration.ReplayedRights | lib/replay/replay.go:69-82 | each message names its document and carries, for each of its eight lists, exactly who is on it; none names an owner |
| Enumeration.ReplaySendsAll | lib/replay/replay.go:69-82 | the replay of an index sends exactly the messages that make the compacted topic of the kind recoverable |
| Enumeration.GetFullList | lib/query/query.go:395-408 | succeeds exactly for at most 9000 matches, and returns all matches of the window |
| Enumeration.ExportKindAll | lib/query/migration.go:69-85 | succeeds exactly for at most 9999 documents, and returns all of the window |
| Enumeration.ExportKind | lib/query/migration.go:87-117 | one page of extracted rights, refused past the window |
| Enumeration.ImportKind | lib/query/migration.go:27-36 | one document per imported resource, stored under its id |
| Enumeration.Migrate | lib/query/migration.go:27-85 | exporting a kind and importing it into an empty store keeps every resource |
| Encoding.UnescapeUndoesEscape | lib/query/modifier/encoding.go:27-33 | percent-decoding undoes encoding on every byte string |
| Encoding.ParseUndoesEncode | lib/query/modifier/encoding.go:27-33 | parsing printed parameters gives them back, less keys without values |
| Encoding.ParsedIsClean | lib/query/modifier/encoding.go:27-29 | parsed parameters have no key without values |
| Encoding.SplitUndoesJoinExactly | lib/query/modifier/encoding.go:35-53 | splitting undoes joining if and only if the pure id has no "$" and every parameter a value |
| Encoding.EscapedBytes | lib/query/modifier/encoding.go:27-33 | a byte is itself, "+" for a space, or "%" and two hexadecimal digits |
| Encoding.PrintedPairs | lib/query/modifier/encoding.go:31-33 | pairs are printed as key=value with & between them |
| Encoding.EncodedInOrder | lib/query/modifier/encoding.go:31-33 | the pairs stand key by key in the order of the keys, value by value |
| Encoding.SeparatedByDollar | lib/query/modifier/encoding.go:35-53 | an id is taken apart at its first "$" and put together with one |
| Modifiers.PrepareListModify | lib/query/modifier/modifier.go:56-73 | the pure ids, each once, and for each exactly its raw ids in their order |
| Grouping.GroupingKeepsAll | lib/query/modifier/modifier.go:56-73 | grouping drops and doubles no raw id |
| Modifiers.IdFilterMeaning | lib/query/query.go:290-300 | the bulk query matches exactly the readable documents with an asked pure id |
| Modifiers.NeverTruncates | lib/query/query.go:304 | a search sized by the distinct pure ids returns every match |
| Modifiers.CheckUserOrGroup | lib/query/query.go:234-271 | the single check: the document under the pure id exists and grants every asked letter |
| Modifiers.CheckList | lib/query/query.go:282-326 | marks exactly the asked ids whose document is readable; fails exactly for more distinct pure ids than the window |
| Modifiers.BulkAgreesWithSingle | lib/query/query.go:234-326 | on documents filed under their id, bulk and single check accept the same raw ids |
| ModifiedLists.ModifyResult | lib/query/modifier/modifier.go:82-111 | the raw id as resource, then every template whose parameter is used, in configuration order |
| ModifiedLists.ModifyWritesFeatures | lib/query/modifier/modifier.go:82-111 | modifying writes only features |
| ModifiedLists.LastUsedDecides | lib/query/modifier/modifier.go:88-109 | the last modifier that is asked for and has a template gives the features, from the entry as the earlier ones left it and the values of its own parameter; without one the entry stays as it is |
| ModifiedLists.VariantShows | lib/query/modifier/modifier.go:41-54 | an id without parameters shows the stored document, any other its document under the raw id with only features modified |
| ModifiedLists.UsePreparedModify | lib/query/modifier/modifier.go:41-54 | one variant per raw id of the hit, unmodified ones as stored |
| ModifiedLists.GetListFromIds | lib/query/query.go:328-383 | the page of readable named documents, each as the variants asked for |
| ModifiedLists.ListingsConcatenate | lib/query/query.go:328-383 | the listings of consecutive offsets concatenate to the listing of the whole |
| ModifiedLists.Overlay | lib/query/query.go:1296-1298 | added parameters replace those of the same key and keep the rest, whatever the map order |
| ModifiedLists.AddParsedModifier | lib/query/query.go:1277-1312 | the elements listed again by their ids with the parameters laid over, limited to their number |
| ModifiedLists.AddedReplace | lib/query/query.go:1287-1299 | the pure id stays, added parameters replace those of the same key, and the others stay |
| ModifiedLists.AddedIsSettled | lib/query/query.go:1287-1299 | adding the same parameters to an id again gives the same id, modified or not |
| ModifiedLists.AddingTwiceIsAddingOnce | lib/query/query.go:1188-1193 | adding the same parameters a second time changes neither the ids nor the results, for any starting ids |
| ModifiedLists.OneResultPerElement | lib/query/query.go:1277-1312 | adding keeps one result per element if and only if every element's document is readable |
| ModifiedLists.QueryIds | lib/query/query.go:1210-1240 | the whole list_ids query: the two additions of parameters show the result of one; an error of the listing or the first addition becomes an empty success |
| ModifiedLists.QueryFind | lib/query/query.go:1155-1193 | the find query without text or selection: the two additions of parameters to a page of readable documents show the result of one |
| ModifiedLists.ErrorsExactly | lib/query/query.go:1188-1193 | the caller sees an error if and only if the listing failed and no parameters were asked for; adding fails if and only if there are more elements than the window |
| References.LoadReference | lib/query/modifier/reference.go:30-60 | value and cache after one reference |
| References.LoadReferences | lib/query/modifier/reference.go:24-62 | values and cache after all references, in the order the map yields, with a shared cache or none |
| References.SameAsWithoutCache | lib/query/modifier/reference.go:24-62 | if every cached element is the store's, the values are those with an empty or absent cache: what the path yields for the stored element, the default where there is no element, no value or null |
| References.OnlyFoundIsCached | lib/query/modifier/reference.go:39-46 | the cache gains exactly the referenced elements that were found; no failed lookup is cached |
| References.CacheIsTransparent | lib/query/modifier/reference.go:24-62 | a cache that agrees with the store agrees with it after every loading, whose values are the store's for every order of the references |
| References.EveryCallIsTransparent | lib/query/modifier/reference.go:24-62 | over any sequence of calls that share a cache on an unchanged store, every call returns the store's values |
| References.CachedIsNotLookedUp | lib/query/modifier/reference.go:33-46 | an element that is cached is not looked up: stores that differ only there give the same values and cache |
| References.CacheIsCarried | lib/query/modifier/reference.go:33-46 | what any earlier call that shares the cache looked up and found is cached |
| References.ValuesAreWorth | lib/query/modifier/reference.go:36-59 | a reference is worth what its path yields for the element found, and its default if no element is found or the path errs or yields null; nothing else |
| ListOptions.WindowCheckExactly | lib/model/query.go:83-85 | the window check works if and only if limit plus offset fits a Go int |
| ListOptions.ValidExactly | lib/model/query.go:76-99 | what passes the checks, for every limit, offset, sort and after |
| ListOptions.ModeOf | lib/model/list.go:59-79 | a mode comes back exactly when at most one is asked for, and it is that one: text search, selection, ids, or none of them |
| ListOptions.DefaultsTaken | lib/model/query.go:130-176 | a request without parameters asks for a hundred documents from the first on, readable ones, by resource id |
| ListOptions.QueryValues | lib/model/list.go:37-49 | what is printed under each parameter name |
| ListOptions.CommonValues | lib/model/query.go:103-128 | what is printed under the names of the common options |
| ListOptions.UrlCarriesValues | lib/model/query.go:103-128 | the encoded URL parses to the printed values |
| ListOptions.ParseUndoesPrint | lib/model/query.go:103-176 | parsing gives the normal form if and only if the sort field, the ids and the filter feature keep clear of suffixes and separators and the normal form validates |
| ListOptions.SelectionReadsBack | lib/api/v3endpoints.go:82-92 | the filter reads back if and only if the feature has no ":" |
| ListOptions.IdsReadBack | lib/api/v3endpoints.go:79-81 | the ids read back if and only if none has a "," and they are not one empty id |
| ListOptions.SortReadsBack | lib/model/query.go:154-155 | field and direction read back if and only if the field does not end in ".asc", nor in ".desc" when ascending |
| GoStrings.AtoiUndoesItoa | lib/model/query.go:157-164 | decimal numbers read back for every Go int |
| GoStrings.SplitUndoesJoin | lib/model/list.go:39-41 | splitting undoes joining if and only if no part has the separator |
| GoStrings.BelowMeans | lib/query/modifier/encoding.go:31-33 | strings are ordered by the first byte that differs, a prefix first |
| IndexMigration.VersionReadsBack | lib/opensearchclient/client.go:274-280 | version names read back for every kind and number |
| IndexMigration.NamesLook | lib/opensearchclient/client.go:93 | the number stands behind "_v" in decimal |
| IndexMigration.TargetsExactly | lib/opensearchclient/client.go:86-90 | a name stands for the index of that name, or for every index it is an alias of |
| IndexMigration.IndicesWithAlias | lib/opensearchclient/client.go:285-295 | exactly the indexes with the alias, each once |
| IndexMigration.GetIndexVersions | lib/opensearchclient/client.go:254-283 | current and next index when the cluster answers, exactly one index is behind the alias and its name has a number; an error otherwise, the one for an unreachable cluster only if the request failed |
| IndexMigration.UpdateIndexMapping | lib/opensearchclient/client.go:172-252 | in every state of a run, wherever it stops, the alias resolves to one index with all documents of the start; a completed run has replaced the index by its next version, and with one numbered index behind the alias and the next name free only a failed request keeps a run from being completed |
| IndexMigration.CompletedRaisesVersion | lib/opensearchclient/client.go:278-280 | from version n a completed run leads to the index of n + 1 as Go adds it |
| IndexMigration.NumberRises | lib/opensearchclient/client.go:279 | Go's n + 1 is one higher if and only if n is not the largest Go int |
| IndexMigration.CreateIndex | lib/opensearchclient/client.go:86-130 | every request may fail, and only that makes it fail; a taken name changes nothing, and for any other success leaves version 1, or what that name is an alias of, behind the alias; no documents change |

## Left out

- HTTP routing, CORS, logging, tokens and their signatures: a caller is a user id and a list of roles.
- JSON, JSONPath, Go templates and text search: extraction, templates, paths and what a document sorts by are unknown functions; templates write only features.
- getEntryResult: results stay entries; the result map is a function of the entry, the user and the groups.
- Bulk indexer: an annotation in bulk mode is one atomic merge into an existing document that may also be dropped.  The partial update merges nested annotation objects field by field, while the model replaces each annotation as a whole, as the other mode does.
- Primary terms: a version is a sequence number and a term that only changes when the primary does.
- Refresh delay: searches read what gets read.  Where no sort is sent there is one fixed hit order.
- OpenSearch's own refusals: `term` with a list, `terms` with anything else (which matches nothing in the model), a null in a `filter` and analyzers are not modelled.
- Errors of result modification: a modified entry that cannot be turned back from JSON makes the code return an error; modification always succeeds in the model.
- Room of Go arrays: any room after any append is allowed, also such as no Go release leaves; what is said for some room names it.
- Late handlers: after a timeout the abandoned handler of useFunctionWithTimeout may still write; the consumer models have it end with the timeout, the interleaving model lets it run on beside later ones.
- GetQueryListCommonsFromStrings, term aggregation, the remaining list and search endpoints: variants of what is modelled.
- Malformed URLs: the list endpoint reads the parameters Go could parse; the model starts from parsed parameters.
- ImportResource as a concurrent writer: it writes without a version condition, so it appears only in export and import.
- Mapping contents, updateIndexMappingWithoutReindex, topic administration, configuration loading and main.
- Worker.Handlers.HandleResourceCommand: asks for a PUT that nobody else creates the document meanwhile, as one consumer per topic provides; `Interleaving.OverlappingPutsLoseUpdates` shows what happens otherwise.
- Consumer.EveryMessageOnce: speaks of one resource consumer with no other writer to its documents and of commits that are stored; `Redelivery.FailedCommitsExactly` covers commits that are not.
- PermissionConsumer.FailedCommits: speaks of one permission consumer with no other writer, and leaves groups' execute rights out, for which it is false (`PermissionConsumer.NeverBothOtherwise`).
- Interleaving.InterleavingsRefineCommands: each request is applied at most once.  The client sends a request again after a network error or a timeout (lib/opensearchclient/client.go:43-47, config.json:20), so an unconditional creation or deletion may be applied a second time, over what came between; a conditional write may not, its version is gone.
- Redelivery.FailedCommitsExactly: compares existence, features, annotations, rights as sets and the creator named by the creating PUT; a creator that a later command fills in is not compared.
- Compaction.RebuildsExactly: is about ids without "/" and sees existence, features and rights; creator and annotations are not compared.
- Compaction.UnrecoverableGetsDefaults: is about a log compacted in full; `Compaction.RebuildsExactly` covers logs compacted in part.
- Enumeration.GetEntries: asks for a positive batch size; with zero the loop would not end.
- IndexMigration.UpdateIndexMapping: no other client writes during the run.
