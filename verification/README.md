# A verified model of the app-server protocol tools, clients and services

This project models five parts of the Codex app server in Dafny and proves properties of them.
`dafny verify dfyconfig.toml` checks all of it.

- **Schema and type rewriting** (`Json`, `JsonPrinter`, `Sorting`, `Canonical`, `References`,
  `DefinitionGraph`, `FlatBundle`, `Namespaces`, `ExperimentalPrune`, `TypeScanner`,
  `BalancedText`, `PropertyNames`, `FieldFilter`, `Strings`).
  JSON values follow sections 4 and 5 of RFC 8259 and references section 8.3 of the JSON Schema
  draft-07 core specification.  An object is a list of entries with distinct keys.  Canonical
  forms decide equality up to permitted reorderings; worklists compute least closed sets of
  definitions; flattening the namespaced bundle keeps the meaning of every reference; pruning
  and stripping remove exactly what they should; the type scanner splits text so that what it
  joins it finds again.
- **Client workers** (`EventForwarder`, `RemoteWorker`, `JsonRpc`, `Tally`).  The in-process
  forwarder has a bounded queue with a consumer that may read or leave at any moment.  The
  websocket worker matches responses to waiters by id (section 5 of the JSON-RPC 2.0
  specification; the -32601 reply is section 5.1).  A run is any sequence of steps of the
  environment: commands, wire items, whether a write succeeds, whether the consumer is there.
- **`command/exec`** (`ExecTable`, `ExecSessions`, `ExecOutput`).  Each step is one atomic
  section: what happens under one hold of the lock, or one operation on a channel.  A run is any
  interleaving of them.
- **Config edits** (`ConfigEdits`, `ConfigFile`).  TOML trees, reads and writes by path, the log
  derived from reads before and after, its replay on the document, which tells arrays of tables
  from inline arrays, and the file that the document is printed to.
- **Analytics** (`TurnAnalytics`, `TurnOrder`, `DedupeKeys`, `Sets`).  The reducer as a class
  proved against a step function, and the laws of its runs.

Premises that a claim needs are `requires` clauses of its member: `FlatBundle.Bundle` (every
reference resolves, v2 schemas refer only to v2 names, no name is shared), `FreshWaiters` (every
command brings its own channel), `Ready` and `Passing` (the connection is initialised, the
request's thread known, what is known unchanged), `Solid` (a document hides nothing, as a parsed
one), and the skipped-events counter below its maximum.

Some claims are false of the code as it stands.  Each is given with its exact condition and a
concrete input on which it fails:

- pruning can shrink an `enum` of variants to a new match: `ExperimentalPrune.PruneExact`,
  `ShrinkingEnumSurvives`;
- stripping can leave a reference dangling that only a second definitions map holds:
  `DefinitionGraph.RetainAnywhere`, `HiddenReferenceDangles`;
- filtering the fields of a file twice can cut elsewhere the second time:
  `FieldFilter.FilterFileExact`, `SecondRunDiffers`;
- two sessions can live under one key once a connection has closed: `ExecTable.OneLiveExactly`,
  `OneLiveUnlessLate`, `LateStartReuses`;
- a config write through an array can change the tree without the document following:
  `ConfigEdits.EditLogExact`, `LogLosesArrayWrite`, `TablesLoseWrite`;
- clearing the only value of a section can lose the section in the written file:
  `ConfigFile.SavedExactly`, `ClearedTableIsLost`;
- a turn event depends on the order of its parts if request, config and token usage disagree:
  `TurnOrder.OrderShowsExactly`, `ImagesShow`, `ThreadShows`, `UsageShows`.

## Model

| member | source | states |
|---|---|---|
| `Canonical.CanonicalDecidesEquivalence` | codex-rs/app-server-protocol/src/schema_fixtures.rs:152-227 | two JSON values have the same canonical form if and only if they differ by reordering the entries of objects and the items of arrays all of whose items have a sort key, at any depth |
| `Canonical.CanonicalIdempotent` | codex-rs/app-server-protocol/src/schema_fixtures.rs:152-208 | a canonical form is its own canonical form, and keeps keys distinct |
| `Canonical.CanonicalizeJson` | codex-rs/app-server-protocol/src/schema_fixtures.rs:152-208 | the recursive procedure computes the form that the two results above are about |
| `Canonical.CanonicalizeArray` | codex-rs/app-server-protocol/src/schema_fixtures.rs:154-196 | items are canonicalised one by one, then sorted by key and printed form if and only if each has a key |
| `Canonical.CanonicalizeObject` | codex-rs/app-server-protocol/src/schema_fixtures.rs:197-205 | entries are inserted by key order, each with the canonical form of its value |
| `Canonical.EquivalentCanonical` | codex-rs/app-server-protocol/src/schema_fixtures.rs:152-207 | one half of the equivalence: values that differ only by the permitted reorderings get the same form, ties between equal sort keys included |
| `Canonical.CanonicalEquivalent` | codex-rs/app-server-protocol/src/schema_fixtures.rs:152-207 | the other half: values with the same form differ only by the permitted reorderings |
| `Canonical.CanonicalIsReordering` | codex-rs/app-server-protocol/src/schema_fixtures.rs:152-208 | every value differs from its own canonical form by permitted reorderings only |
| `Canonical.SortKeyOfCanonical` | codex-rs/app-server-protocol/src/schema_fixtures.rs:210-227 | canonicalising an item does not change its sort key, so the order of the two steps does not matter |
| `Canonical.KeyedExactly` | codex-rs/app-server-protocol/src/schema_fixtures.rs:210-227 | every scalar has a sort key, no array has one, and an object has one exactly if it is a reference or has a title |
| `Canonical.OrderOfNames` | codex-rs/app-server-protocol/src/schema_fixtures.rs:184-227 | strings, references, and objects with titles are put in the order of their texts |
| `Canonical.OrderOfKinds` | codex-rs/app-server-protocol/src/schema_fixtures.rs:184-227 | items of different kinds are put in one order: truth values, numbers, null, references, strings, titled objects |
| `Canonical.TieIsByText` | codex-rs/app-server-protocol/src/schema_fixtures.rs:186-193 | items with the same sort key are put in the order of their printed text |
| `Canonical.KeysAscend` | codex-rs/app-server-protocol/src/schema_fixtures.rs:197-205 | the keys of a canonical object ascend |
| `Strings.LexLeExactly` | codex-rs/app-server-protocol/src/schema_fixtures.rs:186-199 | the order of texts is that of the first character that differs, and a text comes before its continuations |
| `JsonPrinter.PrintInjective` | codex-rs/app-server-protocol/src/schema_fixtures.rs:176-193 | the compact printed form that breaks ties determines the value, so ties are equal items |
| `JsonPrinter.PrintIs` | codex-rs/app-server-protocol/src/schema_fixtures.rs:176-182 | the printed form of each kind of value: section 2 of RFC 8259 without white space |
| `JsonPrinter.EscapeForms` | codex-rs/app-server-protocol/src/schema_fixtures.rs:180 | section 7 of RFC 8259: the quote, the backslash and five control characters have a short escape, the other control characters a long one, and nothing else is escaped |
| `TypeScanner.ScanState.ObserveChar` | codex-rs/app-server-protocol/src/export.rs:880-927 | one character of text updates the quote, the escape flag and the four depths, which never go below zero |
| `TypeScanner.SplitTopLevelMulti` | codex-rs/app-server-protocol/src/export.rs:758-777 | the scanning loop returns exactly the trimmed non-empty pieces between top-level delimiters, for every text |
| `BalancedText.RunPieces` | codex-rs/app-server-protocol/src/export.rs:880-927 | behind text whose brackets of all four kinds and whose quotes match, the scanner is in the state it was in before |
| `BalancedText.CutAtDelimiter` | codex-rs/app-server-protocol/src/export.rs:758-777 | of such text the first cut is at the first delimiter outside all brackets and quotes, and nowhere inside them |
| `BalancedText.SplitMatched` | codex-rs/app-server-protocol/src/export.rs:758-777 | splitting such text gives exactly what stands between the delimiters at top level, trimmed, without the empty parts |
| `BalancedText.BodyFound` | codex-rs/app-server-protocol/src/export.rs:735-752 | in such text the search finds the first group in braces at top level, whatever comes behind it |
| `BalancedText.DividersAre` | codex-rs/app-server-protocol/src/export.rs:314-390 | fields are divided by commas and semicolons and joined with commas; arms are divided by bars and joined with them |
| `TypeScanner.CarriedIsFresh` | codex-rs/app-server-protocol/src/export.rs:758-777 | splitting with the state carried across a delimiter is the same as starting afresh behind it |
| `TypeScanner.SplitGivesParts` | codex-rs/app-server-protocol/src/export.rs:758-777 | every piece is trimmed, not empty and without a top-level delimiter |
| `TypeScanner.JoinedPartsSplit` | codex-rs/app-server-protocol/src/export.rs:758-777 | joining such pieces with a padded delimiter and splitting again gives them back |
| `TypeScanner.ResplitStable` | codex-rs/app-server-protocol/src/export.rs:754-777 | for every text, unbalanced ones included, and every subsequence of its pieces: joined and split again they come back exactly |
| `TypeScanner.FilterArmsExact` | codex-rs/app-server-protocol/src/export.rs:305-323 | filtering the arms of a union body leaves exactly the wanted arms in order, and a second run changes nothing |
| `TypeScanner.FilterFieldsExact` | codex-rs/app-server-protocol/src/export.rs:378-390 | filtering the fields of a body leaves exactly the wanted fields in order, and a second run changes nothing |
| `FieldFilter.FindTopLevelBraceSpan` | codex-rs/app-server-protocol/src/export.rs:735-752 | the loop returns the last brace opened at top level before the first one that closes back to it |
| `FieldFilter.StartOfAlias` | codex-rs/app-server-protocol/src/export.rs:718-723 | the body of an alias is looked for behind its first equals sign |
| `FieldFilter.StartOfInterface` | codex-rs/app-server-protocol/src/export.rs:725-732 | in a file without one it is looked for behind the first `export interface` |
| `FieldFilter.SpanBehind` | codex-rs/app-server-protocol/src/export.rs:735-752 | where the search opens does not depend on what comes behind the brace |
| `FieldFilter.OtherBody` | codex-rs/app-server-protocol/src/export.rs:718-752 | with another body between the same ends the search finds that body exactly if, scanned from behind its brace, it neither opens nor closes a body and is closed by the next brace |
| `FieldFilter.FilterFileExact` | codex-rs/app-server-protocol/src/export.rs:370-390 | filtering any file changes nothing but its body and leaves exactly the wanted fields there; a second run finds that body exactly if the kept fields are so enclosed, and then changes nothing; a file without a body stays as it is |
| `FieldFilter.UnchangedExactly` | codex-rs/app-server-protocol/src/export.rs:370-390 | a run changes nothing exactly if the file has no body or its body is its filtered fields, joined; so it is known of any second run whether it changes something |
| `FieldFilter.ListedFieldsGo` | codex-rs/app-server-protocol/src/export.rs:378-387 | filtered by names, the body has exactly those of its fields that declare none of them behind their comments |
| `FieldFilter.JoinedFieldsEnclosed` | codex-rs/app-server-protocol/src/export.rs:378-387 | of fields that close no brace they have not opened only the last decides: it must close all it opens |
| `FieldFilter.SoundFileIdempotent` | codex-rs/app-server-protocol/src/export.rs:370-390 | for every file whose body closes no brace before it is opened, and every choice of fields, both runs touch the same body and the second changes nothing |
| `FieldFilter.FirstRun` | codex-rs/app-server-protocol/src/export.rs:370-390 | a concrete file: where the fields `b` are removed and the fields `c` stay, `={b:(}),c:({)},b:z}` becomes `={c:({)},b:z}` |
| `FieldFilter.SecondRun` | codex-rs/app-server-protocol/src/export.rs:370-390 | on that result the search finds another body, and the same filter leaves `={c:({)}}` |
| `FieldFilter.SecondRunDiffers` | codex-rs/app-server-protocol/src/export.rs:370-390 | so the filter for the one name `b` is not idempotent on that file |
| `PropertyNames.NamedExactly` | codex-rs/app-server-protocol/src/export.rs:815-849 | a field has a name exactly if it is white space, the name as an identifier or in quotes, white space with one question mark at most behind an identifier, a colon, and anything |
| `PropertyNames.ParsePropertyName` | codex-rs/app-server-protocol/src/export.rs:815-849 | the scan over the identifier characters finds that name |
| `PropertyNames.ParseStringLiteral` | codex-rs/app-server-protocol/src/export.rs:851-874 | the loop finds the first quote that is not escaped, and returns the text in front of it and the length taken |
| `PropertyNames.StripLeadingBlockComments` | codex-rs/app-server-protocol/src/export.rs:802-813 | the loop computes what is behind the comments, which the next three results are about |
| `PropertyNames.BehindExactly` | codex-rs/app-server-protocol/src/export.rs:802-813 | a text is what is behind the comments exactly if it starts with no white space and no comment that ends, and what is in front of it is comments and white space and nothing else |
| `PropertyNames.CommentsSkipped` | codex-rs/app-server-protocol/src/export.rs:802-813 | any number of comments, with white space around them, in front of a text is skipped |
| `PropertyNames.IdentChars` | codex-rs/app-server-protocol/src/export.rs:815-874 | the characters of an identifier and the two quotes, by their codes |
| `PropertyNames.PlainField` | codex-rs/app-server-protocol/src/export.rs:381-385 | a field of an identifier and a colon, behind any number of comments, stays exactly if the identifier is not listed |
| `PropertyNames.CommentedField` | codex-rs/app-server-protocol/src/export.rs:381-385 | a concrete field with a comment in front of its listed name: it goes |
| `TypeScanner.SplitTypeAliasAgain` | codex-rs/app-server-protocol/src/export.rs:706-716 | the three parts of an alias make up the text, and with another filtered body the text is taken apart at the same places |
| `TypeScanner.FilterRequestContentsExact` | codex-rs/app-server-protocol/src/export.rs:305-323 | filtering a file changes nothing but the body, leaves exactly the wanted arms there, and is idempotent on every text |
| `DefinitionGraph.LeastClosedUnique` | codex-rs/app-server-protocol/src/export.rs:1116-1136 | the least set that holds the start names and is closed under references is unique |
| `References.NamesAre` | codex-rs/app-server-protocol/src/export.rs:1444-1464 | what a local reference names: its first segment for the search of definitions, and all of its path outside `v2` for the flat bundle |
| `References.MapsSkipped` | codex-rs/app-server-protocol/src/export.rs:1397-1411 | what is under `definitions` or `$defs` is skipped, whatever it is, and what is under any other key is not |
| `DefinitionGraph.CollectDefinitionDependencies` | codex-rs/app-server-protocol/src/export.rs:1116-1136 | the worklist ends on every definitions map, cyclic ones too, with exactly the least set closed under non-v2 references |
| `DefinitionGraph.ReachableLocalDefinitions` | codex-rs/app-server-protocol/src/export.rs:1380-1395 | the queue ends with exactly the least set reachable from the references outside the definitions maps |
| `DefinitionGraph.Reach` | codex-rs/app-server-protocol/src/export.rs:1389-1394 | following queued definitions until the queue is empty closes the set under references |
| `DefinitionGraph.StripMethodVariants` | codex-rs/app-server-protocol/src/export.rs:1344-1362 | exactly the unlisted variants stay, in order, exactly the reachable definitions stay, and every other entry is untouched |
| `DefinitionGraph.ListedExactly` | codex-rs/app-server-protocol/src/export.rs:1364-1378 | a variant counts as listed exactly if its method has a listed string under `const` or, without one, as the first of its `enum` |
| `DefinitionGraph.PartsExactly` | codex-rs/app-server-protocol/src/export.rs:1344-1362 | the variants are the array under `oneOf` and the definitions the object under `definitions` |
| `DefinitionGraph.UnlistedConcat` | codex-rs/app-server-protocol/src/export.rs:1344-1362 | one variant stays exactly if it is not for a listed method, and variants are decided one by one, in order |
| `DefinitionGraph.StripWithoutDangling` | codex-rs/app-server-protocol/src/export.rs:1344-1362 | nothing dangles among the references that the search sees; nothing dangles anywhere exactly if the search reaches all that the stripped schema refers to, as it does if there is no other definitions map |
| `DefinitionGraph.RetainAnywhere` | codex-rs/app-server-protocol/src/export.rs:1355-1361 | retaining what the search reaches leaves nothing dangling anywhere exactly if it reaches all that the schema refers to |
| `DefinitionGraph.RetainNeeded` | codex-rs/app-server-protocol/src/export.rs:1355-1361 | retaining the least closed set never drops a definition that is referred to |
| `DefinitionGraph.HiddenReferenceDangles` | codex-rs/app-server-protocol/src/export.rs:1397-1420 | a concrete schema that misses this condition: a reference hidden in a second definitions map is skipped by the search and then dangles |
| `FlatBundle.RewrittenRefs` | codex-rs/app-server-protocol/src/export.rs:1138-1155 | the references of a rewritten schema are exactly the rewritten references, at every depth |
| `FlatBundle.CollectFlatDefinitions` | codex-rs/app-server-protocol/src/export.rs:1051-1077 | the flat definitions are the v2 ones, the shared ones and the needed root ones, with the precedence of the insertions |
| `FlatBundle.CollectedIsPublished` | codex-rs/app-server-protocol/src/export.rs:1051-1082 | the v2 definitions, and `ClientRequest`, `ServerNotification` so far as there, reach the flat bundle, each with its references rewritten |
| `FlatBundle.V2Exactly` | codex-rs/app-server-protocol/src/export.rs:1042-1049 | the definitions of the namespace are the object under `v2` in the object under `definitions` |
| `FlatBundle.FlatTitle` | codex-rs/app-server-protocol/src/export.rs:1052-1079 | the title is the old one, or the default one, with `V2` behind it |
| `FlatBundle.CheckFlat` | codex-rs/app-server-protocol/src/export.rs:1157-1228 | the final checks pass if and only if no reference is namespaced and every local reference names a definition; the error names a namespaced reference, or else exactly the missing definitions |
| `FlatBundle.UnfoldSame` | codex-rs/app-server-protocol/src/export.rs:1138-1155 | a rewritten schema unfolds in the flat bundle to the tree that the schema unfolds to in the namespaced one, to every depth |
| `FlatBundle.FlatIsFaithful` | codex-rs/app-server-protocol/src/export.rs:1038-1086 | each kept reference resolves in the flat bundle to the rewritten target that it had in the namespaced bundle |
| `FlatBundle.BuildFlatV2Schema` | codex-rs/app-server-protocol/src/export.rs:1038-1086 | the result is always self-contained and publishes the v2 and the shared definitions; each error is for its own kind of bundle; from a bundle that meets the premises there always is a result, and every reference means the same to every depth |
| `Namespaces.NamespacedIs` | codex-rs/app-server-protocol/src/export.rs:1505-1515 | a local reference gets the namespace unless it has it, any other reference stays |
| `Namespaces.RefsMoved` | codex-rs/app-server-protocol/src/export.rs:1505-1526 | the references of the schema, at every depth, are those it had, each so moved |
| `Namespaces.IntoNamespaceIdempotent` | codex-rs/app-server-protocol/src/export.rs:1505-1526 | moving references into a namespace twice is moving them once, for every schema and namespace |
| `Namespaces.FlattenUndoesNamespace` | codex-rs/app-server-protocol/src/export.rs:1505-1526 | rewriting the prefix back gives exactly the schema whose references were moved into the v2 namespace |
| `ExperimentalPrune.PruneExact` | codex-rs/app-server-protocol/src/export.rs:491-540 | after pruning no array holds a listed variant, exactly if no surviving item has an enum that pruning shrinks to a single listed method |
| `ExperimentalPrune.PruneIdempotent` | codex-rs/app-server-protocol/src/export.rs:491-515 | a second run changes nothing, exactly under the same condition |
| `ExperimentalPrune.PruneScalarEnums` | codex-rs/app-server-protocol/src/export.rs:491-540 | with enums of scalars only, no listed variant survives anywhere and a second run changes nothing |
| `ExperimentalPrune.PruneItemsAre` | codex-rs/app-server-protocol/src/export.rs:500-507 | the items of a pruned array are the unlisted items in order, each pruned |
| `ExperimentalPrune.ListedExactly` | codex-rs/app-server-protocol/src/export.rs:517-540 | an item counts as listed exactly if its method has a listed string under `const` or, without one, as the only element of its `enum` |
| `ExperimentalPrune.UnlistedConcat` | codex-rs/app-server-protocol/src/export.rs:500-507 | one item stays exactly if it is not for a listed method, and items are decided one by one, in order |
| `ExperimentalPrune.PruneChanges` | codex-rs/app-server-protocol/src/export.rs:500-515 | pruning changes a value exactly if some array in it holds a listed variant |
| `ExperimentalPrune.ShrinkingEnumSurvives` | codex-rs/app-server-protocol/src/export.rs:500-540 | a concrete value in which an enum of variants shrinks and a listed variant survives the first run but not the second |
| `EventForwarder.FillSend` | codex-rs/app-server-client/src/lib.rs:255-275 | sending an event when nothing is pending appends it to what the consumer can reconstruct |
| `EventForwarder.FillMark` | codex-rs/app-server-client/src/lib.rs:219-238 | a marker for all skipped events changes nothing of what can be reconstructed and leaves nothing pending |
| `EventForwarder.FillDrop` | codex-rs/app-server-client/src/lib.rs:240-247 | a dropped event is at the end of what can be reconstructed |
| `EventForwarder.LosslessDelivered` | codex-rs/app-server-client/src/lib.rs:155-189 | the events that must be delivered are delivered in full and in order |
| `EventForwarder.RequestsConserved` | codex-rs/app-server-client/src/lib.rs:240-275 | each request was delivered or dropped, as often as it was forwarded |
| `EventForwarder.Forwarder.FlushLag` | codex-rs/app-server-client/src/lib.rs:219-253 | the marker goes out before anything else, waiting for room only if the event must be delivered |
| `EventForwarder.Forwarder.Drop` | codex-rs/app-server-client/src/lib.rs:240-247 | a dropped event is counted, and rejected if it is a request |
| `EventForwarder.DeliveryTiers` | codex-rs/app-server-client/src/lib.rs:155-189 | the six kinds of notification that must be delivered, and nothing else |
| `EventForwarder.Forwarder.Offer` | codex-rs/app-server-client/src/lib.rs:255-275 | with nothing pending the event itself is sent; only an event that need not be delivered is dropped, and only while the queue is full |
| `EventForwarder.Forwarder.Forward` | codex-rs/app-server-client/src/lib.rs:210-276 | whatever the consumer does meanwhile: the log grows by the marker for what was skipped and then the event; or by the marker at most, and then the event need not be delivered, the queue is full and the event is dropped, or the channel is closed. Log, counter and rejections still account for every event |
| `EventForwarder.Forwarder.Handle` | codex-rs/app-server-client/src/lib.rs:538-585 | one turn of the worker's event arm keeps all of this, and says when the stream is disabled |
| `EventForwarder.Forwarder.Run` | codex-rs/app-server-client/src/lib.rs:490-590 | the same over every run of the worker's event loop, with requests to refresh auth tokens turned down at once: nothing that must be delivered is missing, the counts add up, each request is delivered or turned down and never both, and if no more events come than the queue holds they are all delivered and nothing is skipped |
| `EventForwarder.GapsAreExact` | codex-rs/app-server-client/src/lib.rs:155-276 | what this gives the consumer: the counts add up, must-deliver events are all there in order, each request is delivered or rejected and never both |
| `RemoteWorker.WaitingStep` | codex-rs/app-server-client/src/remote.rs:209-308 | who waits after one more step: whoever waited and got no reply, and the sender of a request that went out under a free id |
| `RemoteWorker.RepliesAre` | codex-rs/app-server-client/src/remote.rs:299-308 | a response and an error response reply to the request of their id, and nothing else does |
| `RemoteWorker.DuplicateKeepsWaiter` | codex-rs/app-server-client/src/remote.rs:211-217 | a request under an id in flight leaves whoever waits under that id as it was |
| `RemoteWorker.AnswerIsDetermined` | codex-rs/app-server-client/src/remote.rs:198-434 | the steps of a run entitle each waiter to one answer at most |
| `RemoteWorker.Worker.OnRequest` | codex-rs/app-server-client/src/remote.rs:209-240 | a request is refused if its id is in flight, else it is sent; when writing fails it is answered and the loop ends |
| `RemoteWorker.Worker.OnOtherCommand` | codex-rs/app-server-client/src/remote.rs:241-293 | every other command is answered with the result of its write; shutdown ends the loop |
| `RemoteWorker.Worker.OnReply` | codex-rs/app-server-client/src/remote.rs:299-308 | a response answers the waiter of its own id with success and its result, an error response with failure and its error, nobody else is answered, and the waiter is removed |
| `RemoteWorker.Worker.OnEvent` | codex-rs/app-server-client/src/remote.rs:309-366 | events go to the consumer in wire order, an undecodable request gets one rejection, and the loop goes on unless the consumer has gone or a write fails |
| `RemoteWorker.SurfacesExactly` | codex-rs/app-server-client/src/remote.rs:309-366 | exactly the known notifications and requests surface, as themselves, and exactly the unknown requests are rejected |
| `RemoteWorker.Worker.OnEnd` | codex-rs/app-server-client/src/remote.rs:367-421 | each way for a connection to end ends the loop, and other frames do not |
| `RemoteWorker.Worker.Disconnect` | codex-rs/app-server-client/src/remote.rs:366-421 | a consumer that is still there is told exactly once that the connection is gone |
| `RemoteWorker.Worker.Drain` | codex-rs/app-server-client/src/remote.rs:427-433 | after the loop every waiter left is told that the channel is closed and the table is empty |
| `RemoteWorker.Worker.Run` | codex-rs/app-server-client/src/remote.rs:198-434 | over every run that ends, each waiter received has exactly one answer: a success only for a response under its id that came first, an error only for an error response that did, a write result only for its own write, and otherwise that the channel is closed; nothing stays pending |
| `RemoteWorker.EventStream.NextEvent` | codex-rs/app-server-client/src/remote.rs:568-573 | events of the handshake come first, and reading never loses or reorders events |
| `RemoteWorker.InitializeRemoteConnection` | codex-rs/app-server-client/src/remote.rs:646-769 | the handshake reads up to the first item that decides, keeps the events before it in order, and rejects each undecodable request once |
| `RemoteWorker.HandshakeReply` | codex-rs/app-server-client/src/remote.rs:676-684 | the handshake is decided by the reply to the request `initialize` and by no other reply |
| `RemoteWorker.RunConnection` | codex-rs/app-server-client/src/remote.rs:187-434 | over a whole connection the events are the decodable notifications and known requests in wire order, those of the handshake first, then a disconnect exactly if the connection has gone and the consumer has not; each waiter has the one answer it is owed |
| `ExecTable.NextSafe` | codex-rs/app-server/src/command_exec.rs:143-306 | every step, in whatever order, keeps the table exact: it holds exactly the entries that live tasks made and nobody has removed, and each start has one outcome or a task that owes it |
| `ExecTable.NextOnePerKey` | codex-rs/app-server/src/command_exec.rs:251-265 | a step keeps one live session for each key exactly if it does not let in a start under the key of a live task |
| `ExecTable.OneLiveExactly` | codex-rs/app-server/src/command_exec.rs:143-306 | over every run there is at most one live session for each key throughout, exactly if no start is let in under the key of a task that is still live |
| `ExecTable.FirstReuseIsLate` | codex-rs/app-server/src/command_exec.rs:251-306 | in a run without reuse so far a start reuses a live key exactly if it is let in under the key of a task that lives on from before a close of its connection |
| `ExecTable.OneLiveUnlessLate` | codex-rs/app-server/src/command_exec.rs:143-391 | so over every run from the empty table there is one live session for each key throughout exactly if no start is let in under the key of such a task |
| `ExecTable.NoLateStartSuffices` | codex-rs/app-server/src/command_exec.rs:375-391 | with no start on a connection after its close this never happens; every live task that was entered has its entry until its connection closes, and none of that connection's entries is there afterwards |
| `ExecTable.LateStartReuses` | codex-rs/app-server/src/command_exec.rs:287-304 | a concrete run with late starts: two live sessions under one key, then one of them loses its entry to the first task's removal by key, and a third is let in |
| `ExecTable.FinishTakesOwn` | codex-rs/app-server/src/command_exec.rs:287-304 | with one session for each key a finishing task removes its own entry or none, and no other task loses one |
| `ExecTable.SessionTable.DoStart` | codex-rs/app-server/src/command_exec.rs:143-265 | a start is refused for the reasons and in the order of the checks, or let in with its entry |
| `ExecTable.AdmittedStart` | codex-rs/app-server/src/command_exec.rs:164-265 | a start that is let in runs under its own connection and the name the client gave it, and is entered with its control channel, or in the windows sandbox without one and only under a client's name |
| `ExecTable.OutcomesAreBrought` | codex-rs/app-server/src/command_exec.rs:143-306 | over every run: each error return and each message was brought by a step of its own start, for the reason that it states, and of several reasons the first is given |
| `ExecTable.SandboxTakesDefaults` | codex-rs/app-server/src/command_exec.rs:178-200 | in the windows sandbox a start is let in exactly if it is buffered, has the default cap of one mebibyte and a free name |
| `ExecTable.PlainTakesCommands` | codex-rs/app-server/src/command_exec.rs:159-265 | outside it, exactly if its command is not empty, its name is free, and it has one of the client's if it has a terminal or streams |
| `ExecTable.SessionTable.SpawnFails` | codex-rs/app-server/src/command_exec.rs:281-287 | a start whose process cannot be spawned removes its entry and returns its one error |
| `ExecTable.SessionTable.DoRespond` | codex-rs/app-server/src/command_exec.rs:552-563 | a process that ends sends its one message |
| `ExecTable.SessionTable.DoRemove` | codex-rs/app-server/src/command_exec.rs:287-304 | a finishing task removes the entry under its key |
| `ExecTable.SessionTable.DoClose` | codex-rs/app-server/src/command_exec.rs:375-391 | closing removes every entry of the connection and no other, and returns exactly the channels of its active sessions, each once |
| `ExecSessions.WiredTake` | codex-rs/app-server/src/command_exec.rs:499-525 | taking a request off a channel takes exactly its caller off the calls that wait |
| `ExecSessions.NobodyWaits` | codex-rs/app-server/src/command_exec.rs:427-439 | no call waits for an answer on a closed channel |
| `ExecSessions.ControlChannels.Look` | codex-rs/app-server/src/command_exec.rs:404-426 | a control call on no session or a sandboxed one has its error at once, any other goes on to send |
| `ExecSessions.ControlChannels.Send` | codex-rs/app-server/src/command_exec.rs:427-439 | a call queues its request, is blocked while the channel is full, or learns that the process is gone |
| `ExecSessions.ControlChannels.Shut` | codex-rs/app-server/src/command_exec.rs:442-564 | when a task lets go of its channel every queued call has its error, and calls on other channels are as they were |
| `ExecSessions.ControlChannels.Notify` | codex-rs/app-server/src/command_exec.rs:392-401 | a removed session's channel gets a terminate request unless it is closed or has no room yet |
| `ExecSessions.RoomInQueue` | codex-rs/app-server/src/command_exec.rs:243-401 | terminate is queued exactly if the channel is open and holds fewer than 32 requests |
| `ExecSessions.NotifyForgetsNone` | codex-rs/app-server/src/command_exec.rs:392-401 | a close forgets no channel: each is told, found closed, or still to be told |
| `ExecSessions.CommandExecManager.OnClose` | codex-rs/app-server/src/command_exec.rs:375-402 | no entry of the connection is left, and exactly its active sessions are to be told |
| `ExecSessions.CommandExecManager.OnStart` | codex-rs/app-server/src/command_exec.rs:143-306 | a start follows the table's step, and has an open channel exactly if it becomes a task outside the sandbox |
| `ExecSessions.CommandExecManager.OnSpawnEnds` | codex-rs/app-server/src/command_exec.rs:266-305 | a process that is spawned runs, one that is not leaves no task and a closed channel |
| `ExecSessions.CommandExecManager.OnLook` | codex-rs/app-server/src/command_exec.rs:404-426 | a control call finds no session, a sandboxed one, or the channel to send to |
| `ExecSessions.CommandExecManager.OnNotify` | codex-rs/app-server/src/command_exec.rs:392-401 | the next channel of a close has the terminate request appended behind all others; or nothing at all changes, because it is closed, or open and full and waited for |
| `ExecSessions.CommandExecManager.OnServe` | codex-rs/app-server/src/command_exec.rs:499-525 | a task takes the first request off its queue and answers its caller with what came of it |
| `ExecSessions.CommandExecManager.Perform` | codex-rs/app-server/src/command_exec.rs:143-564 | every atomic section changes the table, the channels, the calls and the closes exactly as its specification says, and nothing else |
| `ExecSessions.ListedIsReal` | codex-rs/app-server/src/command_exec.rs:392-401 | over every run: a channel that a close lists as notified had a terminate request queued on it in a turn of that close, and one that it lists as gone was closed then |
| `ExecSessions.CloseTellsAll` | codex-rs/app-server/src/command_exec.rs:375-402 | so a close has really told each channel that it removed, or found it closed, or has yet to come to it |
| `ExecSessions.ResultsAreEarned` | codex-rs/app-server/src/command_exec.rs:404-564 | over every run: each result of a control call is there for the reason that it states: no such session or a sandboxed one when it looked, its request taken by the task, or its channel closed when it sent or while its request was queued |
| `ExecSessions.CommandExecManager.RunAll` | codex-rs/app-server/src/command_exec.rs:143-513 | over every interleaving of starts, control calls, exits and closes, without any premise, the whole follows its specification section by section, the table follows its own steps, a channel is open exactly as long as its task listens, and each start and each control call has one outcome or is under way |
| `ExecSessions.CommandExecManager.CompleteCall` | codex-rs/app-server/src/command_exec.rs:427-439 | a control call on a process whose task has let go of its channel has its one result or gets it with its next step, whatever other tasks do |
| `ExecSessions.CommandExecManager.Settle` | codex-rs/app-server/src/command_exec.rs:143-513 | once the tasks have finished, each start has had exactly one error return or message, each control call exactly one result, each close has told or found closed every channel it removed, and the table is empty |
| `ExecOutput.ReceiveChunk` | codex-rs/app-server/src/command_exec.rs:581-593 | a chunk is merged with what is there already exactly as long as it has fewer than 64 KiB, and no byte is lost or reordered |
| `ExecOutput.CapChunk` | codex-rs/app-server/src/command_exec.rs:594-604 | the part of a chunk that is kept makes up the stream to the cap and no further |
| `ExecOutput.CollectOutput` | codex-rs/app-server/src/command_exec.rs:566-628 | for every chunking and merging, what is buffered or sent is the consumed stream to the cap, only the last delta says that the cap is reached, and reading stops before the end of the stream only at the cap or when the timeout strikes |
| `ExecOutput.CollectForStart` | codex-rs/app-server/src/command_exec.rs:159-163 | for a start that is let in, output is never lost: streaming without a process id cannot arise |
| `ConfigEdits.ValueAtPath` | codex-rs/app-server/src/config_manager_service.rs:548-564 | the walk returns what the path leads to, through tables and by index through arrays |
| `ConfigEdits.IndexOfNumber` | codex-rs/app-server/src/config_manager_service.rs:556-557 | of decimal numbers exactly those that fit into 64 bits with a sign are indices, also with a plus sign, and minus zero |
| `ConfigEdits.NormalExactly` | codex-rs/config/src/key_aliases.rs:32-52 | the trees that normalising leaves as they are are exactly those without a legacy key in a memories table, and there is none in its result |
| `ConfigEdits.ArrayNormal` | codex-rs/config/src/key_aliases.rs:44-49 | an array keeps its length and every item without a legacy key |
| `ConfigEdits.OverlayWins` | codex-rs/config/src/merge.rs:6-30 | what the overlay sets, other than tables, is what is read from a merge, at every path that names no renamed key of the memories table: the very same, if it is a scalar or holds no legacy key, else its normal form |
| `ConfigEdits.BaseStays` | codex-rs/config/src/merge.rs:6-30 | what the overlay does not reach stays as it was in the base, at every such path |
| `ConfigEdits.MergedKeys` | codex-rs/config/src/merge.rs:11-26 | a merge of two tables has exactly the keys of both, but for the renamed key |
| `ConfigEdits.AliasMerged` | codex-rs/config/src/key_aliases.rs:11-30 | at the renamed key of the memories table: only the canonical name is left, either side's value takes part under either name, and the canonical name wins on each side |
| `ConfigEdits.MergeFails` | codex-rs/app-server/src/config_manager_service.rs:420-475 | setting fails exactly if the path is empty or its immediate parent is there and is no table |
| `ConfigEdits.ClearFails` | codex-rs/app-server/src/config_manager_service.rs:477-499 | clearing fails exactly if the path is empty or its immediate parent is no table |
| `ConfigEdits.ReadAfterMerge` | codex-rs/app-server/src/config_manager_service.rs:420-475 | reading back a set gives the value, or its merge into the table that was there |
| `ConfigEdits.ReadAfterClear` | codex-rs/app-server/src/config_manager_service.rs:477-499 | reading back a clear gives nothing |
| `ConfigEdits.WriteFramed` | codex-rs/app-server/src/config_manager_service.rs:420-499 | a write off arrays changes nothing at paths neither above nor below its own |
| `ConfigEdits.UnchangedRead` | codex-rs/app-server/src/config_manager_service.rs:258-275 | off arrays, an unchanged read at the path means an unchanged tree |
| `ConfigEdits.MergePuts` | codex-rs/app-server/src/config_manager_service.rs:420-475 | a set puts the stored value at its path, whatever was on the way and is no table being replaced |
| `ConfigEdits.ClearTakes` | codex-rs/app-server/src/config_manager_service.rs:477-499 | a clear takes out what is at its path |
| `ConfigEdits.InsertPuts` | codex-rs/core/src/config/edit.rs:742-795 | the document editor puts a value at its path exactly if the path does not run through an array of tables, where it leaves the document alone |
| `ConfigEdits.RemoveTakes` | codex-rs/core/src/config/edit.rs:759-795 | the document editor takes out what is at a path, and its answer says whether there was anything |
| `ConfigEdits.EditLogExact` | codex-rs/app-server/src/config_manager_service.rs:240-275 | the document follows a write, exactly unless the path runs through an array of tables, or through an inline array below which the value is found already |
| `ConfigEdits.LogLosesArrayWrite` | codex-rs/app-server/src/config_manager_service.rs:240-275 | a concrete write through an array for which nothing is logged although the tree has changed |
| `ConfigEdits.TablesLoseWrite` | codex-rs/core/src/config/edit.rs:150-168 | a concrete write below an array of tables that is logged but that the document does not follow |
| `ConfigEdits.BatchFollowsExactly` | codex-rs/app-server/src/config_manager_service.rs:232-275 | over every batch the document says after each edit what the config in memory says, exactly if no edit of the batch meets one of the two cases |
| `ConfigEdits.BatchReplays` | codex-rs/app-server/src/config_manager_service.rs:232-275 | replaying the log of such a batch on the original document gives the config that the batch left |
| `ConfigEdits.BatchOffArrays` | codex-rs/app-server/src/config_manager_service.rs:232-275 | every batch whose paths do not run through an array is such a batch |
| `ConfigFile.PrintedExactly` | codex-rs/core/src/config/edit.rs:869-920 | the written file says what the document says exactly if no section in it is empty and implicit |
| `ConfigFile.InsertSolid` | codex-rs/core/src/config/edit.rs:742-795 | a set leaves no such section |
| `ConfigFile.RemoveSolid` | codex-rs/core/src/config/edit.rs:759-795 | a removal leaves one exactly if it takes the only entry of an implicit section or of an inline table |
| `ConfigFile.SavedExactly` | codex-rs/app-server/src/config_manager_service.rs:240-292 | for every write: the file then says what the config in memory says, exactly if the document follows and the write does not clear the only entry of an implicit section or inline table |
| `ConfigFile.BatchSavedExactly` | codex-rs/app-server/src/config_manager_service.rs:232-292 | over every batch the file would say so after each edit, exactly if each edit is such a write |
| `ConfigFile.LastingBatchSaved` | codex-rs/app-server/src/config_manager_service.rs:232-292 | and the one file that such a batch leaves says what the config in memory says |
| `ConfigFile.BatchSaved` | codex-rs/app-server/src/config_manager_service.rs:232-292 | of any batch that the document follows the file says so exactly if the document left has no such section |
| `ConfigFile.ClearedTableIsLost` | codex-rs/core/src/config/edit.rs:326-341 | a concrete clear: the config keeps an empty table, where the path can be cleared again, and the file has none, where it cannot |
| `ConfigEdits.ApplyEdit` | codex-rs/app-server/src/config_manager_service.rs:236-275 | one turn of the edit loop, its errors in the order of the checks |
| `ConfigEdits.ApplyEdits` | codex-rs/app-server/src/config_manager_service.rs:232-275 | the edit loop returns the config and the log of the whole batch, or the error of the first edit that fails |
| `ConfigEdits.JoinSplit` | codex-rs/app-server/src/config_manager_service.rs:404-412 | the segments of a key path hold no dots and give the path back when joined |
| `ConfigEdits.SplitJoin` | codex-rs/app-server/src/config_manager_service.rs:404-412 | any segments without dots are what splitting their joined path gives |
| `TurnAnalytics.AnalyticsReducer.Ingest` | codex-rs/analytics/src/reducer.rs:157-234 | the reducer's fields and the events it pushes follow the step function, fact by fact |
| `TurnAnalytics.AnalyticsReducer.IngestTurnStartResponse` | codex-rs/analytics/src/reducer.rs:519-543 | a response takes its pending request, whatever its kind, and claims the turn only if it was a turn/start |
| `TurnAnalytics.AnalyticsReducer.MaybeEmitTurnEvent` | codex-rs/analytics/src/reducer.rs:805-859 | an event is emitted and the turn forgotten exactly when every part is there |
| `TurnAnalytics.AnalyticsReducer.IngestAll` | codex-rs/analytics/src/reducer.rs:157-234 | a run of facts gives the state and the events of the specification's run |
| `TurnAnalytics.StepConserves` | codex-rs/analytics/src/reducer.rs:519-543 | no fact makes more turn events than it takes claims |
| `TurnAnalytics.TurnEventsConserved` | codex-rs/analytics/src/reducer.rs:519-543 | a turn never has more events than there were responses to pending requests that started it |
| `TurnAnalytics.TotalsConserved` | codex-rs/analytics/src/reducer.rs:307-336 | there are never more turn events than turn/start requests, nor more steer events than steer requests |
| `TurnAnalytics.SteerCountExact` | codex-rs/analytics/src/reducer.rs:742-765 | the count kept for a turn is the number of steers accepted for it since its state was made |
| `TurnAnalytics.ReportedSteers` | codex-rs/analytics/src/reducer.rs:805-859 | a turn event reports exactly that number |
| `TurnAnalytics.ContextKept` | codex-rs/analytics/src/reducer.rs:236-700 | a connection that is initialised, and a thread reported on a known connection, are known from then on |
| `TurnAnalytics.RequestKept` | codex-rs/analytics/src/reducer.rs:307-336 | a request is kept under its connection and id, with its thread, its images and the turn that it steers |
| `TurnAnalytics.ImagesCounted` | codex-rs/analytics/src/reducer.rs:996-1001 | images, pasted or local, are counted one by one and texts are not |
| `TurnAnalytics.CompletionReported` | codex-rs/analytics/src/reducer.rs:604-661 | an event that comes with a completion reports its status, error and times, as they are cut to what can be reported |
| `TurnAnalytics.SteerReported` | codex-rs/analytics/src/reducer.rs:554-602 | a steer on a known connection and thread is reported once, as accepted by the turn of its response or as rejected for the reason of its error |
| `DedupeKeys.AnalyticsEventsQueue.Run` | codex-rs/analytics/src/client.rs:81-113 | every run of calls has exactly these answers: yes if the key was not accepted since its set was last full, or there is none; the sets stay within 4096 keys, and between two acceptances of a key its set was full |
| `TurnOrder.PassingSurroundings` | codex-rs/analytics/src/reducer.rs:157-234 | facts that may pass leave the connection and the threads as they are |
| `TurnOrder.PassingRequest` | codex-rs/analytics/src/reducer.rs:307-336 | and the pending request too |
| `TurnOrder.QuietFact` | codex-rs/analytics/src/reducer.rs:604-661 | those other than token usage change the start and the steers of the turn and nothing else of it |
| `TurnOrder.PartArrives` | codex-rs/analytics/src/reducer.rs:338-360 | each part that arrives is recorded, and brings the event if all are there on a known thread |
| `TurnOrder.UsageArrives` | codex-rs/analytics/src/reducer.rs:362-382 | token usage moves the turn to its thread, and brings the event if that makes it due |
| `TurnOrder.NothingMore` | codex-rs/analytics/src/reducer.rs:805-859 | once the event is out no passing fact brings another |
| `TurnOrder.Confluence` | codex-rs/analytics/src/reducer.rs:338-382 | in whatever order response, config and completion arrive, and whatever passes between them, there is one event, when all are first there on a known thread, with the thread named last, the images of the later of response and config, and the start, usage and steers as they are then; or none |
| `TurnOrder.EmittedWhenDue` | codex-rs/analytics/src/reducer.rs:805-859 | the event comes with the fact that makes it due and not before |
| `TurnOrder.OrderIsInvisible` | codex-rs/analytics/src/reducer.rs:604-661 | if request, config and usage agree on the thread there is one event, and two orders of arrival give the same one exactly if start, usage and steers are the same when the last part arrives |
| `TurnOrder.OrderShowsExactly` | codex-rs/analytics/src/reducer.rs:338-382 | for every state of the turn and every interleaving: no two orders can be told apart exactly if request, config and usage agree on the thread, and request and config on the images |
| `TurnOrder.ImagesShow` | codex-rs/analytics/src/reducer.rs:338-360 | a concrete turn whose config reports one image and whose request none: the event reports either, depending on the order |
| `TurnOrder.ThreadShows` | codex-rs/analytics/src/reducer.rs:805-859 | a concrete turn whose config names an unknown thread: there is an event or none, depending on the order |
| `TurnOrder.UsageShows` | codex-rs/analytics/src/reducer.rs:362-382 | a concrete turn whose usage names an unknown thread: likewise |
| `TurnOrder.DisagreementShows` | codex-rs/analytics/src/reducer.rs:338-382 | for all three of them the order shows |

## Left out

- In-place changes of JSON and TOML trees (`rewrite_ref_prefix`, `rewrite_refs_to_namespace`, `prune_experimental_methods_inner`, the `retain` calls of stripping, `apply_merge`, `clear_path`): each has exclusive access to the tree, so it is modelled as a function from the old tree to the new one; aliasing is not captured.
- Json: numbers are integers; floating-point numbers and their rendering are not modelled, nor is serde itself.
- FlatBundle.Resolve: a reference is followed through objects only; escapes in JSON pointers and steps into arrays are not modelled, and the premises ask for names without slashes.
- TypeScanner.FilterArms: which arm is wanted is any predicate on its text; finding the method of an arm, and the pruning of imports that follows either filter, are not modelled.
- PropertyNames.PropertyName: the name in quotes is the text between them, with its escapes, as in the code.
- TypeScanner.ScanState.ObserveChar: depths are unbounded, where the source has 32-bit integers.
- Titles, index files, namespacing of named types, collision checks, file trees and prettier runs of the exporter: text processing without a law beyond what it does.
- EventForwarder.Forwarder.Forward: nothing is claimed for the event in flight when the consumer has gone, and the counter of skipped events is assumed to be below its maximum.
- The commands of the in-process worker: they are passed through to the runtime.
- RemoteWorker: connecting, TLS, tokens and message texts; the time limit of the handshake is the end of the items it reads.
- RemoteWorker.Worker.Run: an event that could not be delivered because the consumer had gone does not appear in the order of events; a run that has not ended keeps its waiters in the table.
- ExecSessions: spawning, pseudo terminals, sandboxes, the network proxy and time limits are steps that may happen at any time; the wrap-around of generated process ids is not modelled, and a failed spawn removes its entry, returns its error and drops its channel in one step, since nobody can tell them apart.
- ExecSessions.ControlChannels.Send: the fairness of the channel towards blocked senders is not modelled; that a call completes is stated for when its own task has let go of the channel.
- The writes to standard input, resizing, and decoding of base64 in `command/exec`.
- ConfigFile.Printed: the `toml_edit` crate is not part of this model; that it prints an implicit section only as far as something in it is printed is taken as given (codex-rs/core/src/config/edit_tests.rs:310-339 relies on it).
- ConfigEdits.Replay: comments and formatting of documents are not modelled; the document is taken to say what the config in memory says when the batch begins. Validation, versions, layers and override messages are left out.
- TurnAnalytics: the session source, the sandbox policy and the other settings of a turn arrive as they are reported, and events for skills, apps, hooks, plugins, compaction, guardian reviews and sub-agent threads, which do not touch turns, are left out.
- TurnOrder.Confluence: what is known of the connection, and of the threads that the facts of the turn name, does not change on the way.
- DedupeKeys: a poisoned lock is not modelled.
- Field-by-field mapping of API types, device keys, agent identity, test clients and packaging scripts.
