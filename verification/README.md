# Verified model of the estimate service

The repository is a service for construction cost estimates. This project models its hardest
parts in Dafny and proves what they promise, or exactly when they keep the promise. Floating-point
numbers are modelled as reals, strings as sequences of characters with a small set of spaces.

| file | what it models |
|---|---|
| `CalcPipeline`, `RabbitTopology` | outbox, publisher, broker queues, consumers, dead-queue replay, as one state machine; the topology that publisher and consumer declare |
| `ConfirmMatching`, `MessageSafety`, `MessageLoss`, `RetryLineage`, `ConsumerCounters` | what every run of that machine keeps |
| `DeliveryOutcomes` | what becomes of one message, for every way its handling can end |
| `QuantityGrammar`, `QuantityTokens`, `QuantityTexts`, `Quantities` | recursive-descent evaluator and tokenizer of quantity expressions, the texts that write them, quantities with `[N]` precision |
| `EscapedText`, `EstimateHeader`, `EstimateConfig`, `EstimateLines`, `EstimateReading`, `EstimateIdentity`, `EstimateText` | the text form of an estimate, written and read back |
| `ImportSelection` | the compressed checkbox selection of the import dialog |
| `RecordLookup`, `RecordPrices`, `RecordCache` | record lookup, the prices it finds, and the cache before it |
| `HierarchyStack`, `NormRefs` | one-pass stack algorithms of the two import programs, norm lists |
| `LicenseSessions`, `EstimateLocks` | pool licences and edit locks with leases |
| `LineIdSync`, `StatusMatch`, `RunningTotal` | line ids against a saved estimate, statuses against lines, the running grand total |
| `CalcBatch` | the paging cursor over calculated lines |
| `LinePricing` | pricing of one line and its merged resources |
| `Text`, `Numbers`, `Wrappers` | strings, decimals and rounding, options |

## Main results

- **No loss.** Whatever connections drop and processes stop, a published outbox event is in some
  queue, or held unacknowledged, or was acknowledged after success or a skip. For consumer and
  publisher configurations on the same main and dead queue and key whose declarations do not
  contradict each other, this holds for all runs if and only if their keys do not lose. They lose
  exactly when neither side binds the fixed key of outbox events and replays; or when that key leaves
  no copy in the dead queue, some retry key that can be chosen is bound by neither side, and no earlier one
  leaves a copy in the dead queue. The losing run starts from an event as the service writes it,
  attempt 1 of 5. A main key other than the fixed one, with everything else left to the
  defaults, loses every event; the default keys keep every message whatever queues a worker names.
- **Confirms match** although the publisher ignores delivery tags.
- **Every end of a delivery** is described by what it leaves in the queues and counters. A failed execution
  is retried if and only if the failure is not permanent and the next attempt is within the limit; it
  waits at the level of its attempt number, and otherwise goes to the dead key's queues.
- **The evaluator accepts exactly the grammar**, the grammar is unambiguous, and every spelling of
  every expression tree evaluates to the tree's value, failing exactly on division by zero. Character by
  character, a text without bracketed precision is a quantity if and only if it writes such a tree.
  A quantity without a text of its own is written as its number and read back as an expression, so
  it survives if and only if it is whole: the point is a multiplication sign.
- **Escaping** loses exactly the fields with an apostrophe, a carriage return or a backslash before
  an `n`; what every other text comes back as is also proved.
- **Estimate text round trip** for whole estimates, from the text itself, with the same text the
  second time; items with lines and ids of their own come back as the same items. The price set comes
  back if and only if it holds no star and no backslash and is not empty beside a setting that is
  spelled like a set in other letter case. A position of the user's own catalogue
  comes back if and only if its total is not filled in from quantity and unit price, and its code
  not from the item. `parseSourceDataFgisSetFromLine` reads group 2 of a pattern with one group
  (web/app.js:8403-8406), so its map of settings is always empty and only its case-insensitive
  search finds a set; the model follows the code.
- **Selection** refines a plain set of leaves over all clicks of the dialog if and only if no
  estimate is an orphan. A click of any kind that leaves "everything" drops exactly the orphans
  besides the leaves of its node, on trees with missing parents too.
- **Prices**: what a record or a resource costs follows from the entries of the price list, or of the index list
  and the cost indicators, for all texts of these fields.
- **The record cache** is transparent for a request, whatever was asked before, exactly when its key
  has no other reading as a request that some database answers differently. A request without
  colons always is. Among requests with colon-free ciphers and districts only one other reading
  counts, the one that cuts at the first and the last colon.
- **Stack passes equal their quadratic definitions** for distinct codes. With shared codes a counter
  is the definition exactly when the other sections with its code add nothing, and the report is the
  defined one exactly when every section shares no code, or has no norms under its code, or is
  silenced both ways. With distinct codes a section is reported exactly if it is above the leaves, holds
  a norm, and holds no norm that was found.
- **Quotas** hold in all runs, for all fixed quotas, if and only if no two wanted (company,
  subsection, user) triples share a storage key; ids without `|` never do. For one wanted subsection
  the bound holds exactly when the key is not another session's.
  A call is granted if and only if every wanted pool has the caller's live session or fewer live
  sessions than licences.
- **Locks** change hands only after a release or an expiry, with clock readings in any order; after any
  calls an Acquire is granted if and only if every grant to another user has ended or is more than
  90 seconds old.
- **Statuses and lines**: each status takes the first free line with its id, match key or code, in this
  order, and stays alone only if there is none; which pairs are then applied is described exactly.
- **Id synchronisation** yields a permutation of distinct saved ids exactly when both lists are equally
  long and the local lines without a partner stand where the untaken saved lines stand.
- **The running grand total** may be fed lines as they become done or are calculated again. After a
  call with the full list it is the full recomputation plus what is recorded for lines no longer
  done, less the done lines hidden behind a later one with their id and those whose status is done
  but for white space.
- **Paging** delivers consecutive slices; a response is withheld if and only if a line is
  still open, or there is none, and fewer than a batch of ended lines are outstanding. The listener stops at the first response marked done
  (web/app.js:6520), when it has everything exactly if no more than one batch was outstanding.
- **Pricing**: which texts are prices and what they are worth; merging conserves consumption, and the rounding errors are bounded.

Assumptions about unmodelled parts of the pipeline: a failed mark leaves the row unpublished; no
store call succeeds after cancellation; a positive confirm means the message has been copied to every
queue bound to its key, of which there may be none; a consumer or replay publish that returns no
error has reached the exchange; a message that would reach a queue a second time by expiring only is
dropped there, as RabbitMQ does with dead-letter cycles; publisher, consumer and replay use one
exchange, and the broker accepts the queue names.

## Model

| member | source | states |
|---|---|---|
| RabbitTopology.NormalizeRabbitConfig | backend/internal/calcworker/rabbit.go:210-247 | keys, queues and a prefetch between 1 and 32 in the result; every value that was given is kept |
| RabbitTopology.DefaultsAre | backend/internal/outbox/publisher.go:69-91 | the names, keys, times to live and prefetch that publisher and consumer fill in |
| RabbitTopology.RetryLevelsNeverDecrease | backend/internal/calcworker/rabbit.go:452-466 | a later attempt never picks an earlier retry key, none is skipped, the first is picked exactly up to attempt 2, and the third exactly from attempt 5 on |
| RabbitTopology.DeclareRetryQueues | backend/internal/calcworker/rabbit.go:334-353 | the loop succeeds exactly when no named retry queue with a key contradicts another declaration, and then leaves exactly these |
| RabbitTopology.DeclareRabbitTopology | backend/internal/calcworker/rabbit.go:315-355 | on a broker with any declarations: when it succeeds, and that it adds exactly the consumer's queues and bindings |
| RabbitTopology.DeclarePublisherRetries | backend/internal/outbox/publisher.go:168-181 | the same for the publisher's loop, TTLs cut to whole milliseconds and wrapped to 32 bits |
| RabbitTopology.DeclareTopology | backend/internal/outbox/publisher.go:145-183 | the same for what every publisher session declares |
| RabbitTopology.DeclareAll | backend/internal/outbox/publisher.go:145-183 | publisher and consumer sessions in any order and number all succeed exactly when no two declarations contradict, and leave the union |
| RabbitTopology.RetryNamesFree | backend/internal/calcworker/rabbit.go:315-355 | sides that can declare name no retry queue like the main or dead queue |
| RabbitTopology.KeyCoveredIffReturns | backend/internal/calcworker/rabbit.go:334-353 | a key leads back to the main queue exactly when something else than the dead queue carries it |
| RabbitTopology.ChosenKeysReturnIff | backend/internal/calcworker/rabbit.go:413-414 | every retry key that can be chosen leads back to the main queue if and only if the first three are so bound |
| RabbitTopology.DefaultConfigCovered | backend/internal/outbox/publisher.go:84-90 | default keys are so bound as soon as one side leaves its queue list empty |
| RabbitTopology.DefaultDeclarations | backend/internal/outbox/publisher.go:78-90 | defaults under any main key can be declared, and bind the key of events only as the main key |
| CalcPipeline.DestsMeanQueues | backend/internal/calcworker/rabbit.go:315-355 | the destinations of a key are queues of that kind, declared and bound to it |
| ConfirmMatching.SessionStep | backend/internal/outbox/publisher.go:185-226 | every step keeps: nothing outstanding at a live loop head, exactly the awaited event while waiting, marked rows confirmed |
| ConfirmMatching.ConfirmsMatch | backend/internal/outbox/publisher.go:193-224 | in every run a row is marked published only after a positive confirm for that same event |
| CalcPipeline.PublisherFrame | backend/internal/outbox/publisher.go:185-226 | the publisher's side changes nothing of the consumer and publishes at most one new message, with the fixed key of events |
| MessageSafety.HoldersStep | backend/internal/calcworker/rabbit.go:357-442 | every step keeps: each held copy has exactly its live holder, spent exactly when its successor is published |
| MessageSafety.SafeRepublish | backend/internal/calcworker/rabbit.go:421-435 | publishing before acknowledging hands the event over to the new copy |
| MessageSafety.SafeFinish | backend/internal/calcworker/rabbit.go:361-441 | an acknowledgement, a negative one or a rejection removes only spent or completed copies, and moves a rejected one to the dead key's queues |
| MessageSafety.SafeReplay | backend/cmd/replay_dlq/main.go:40-72 | replay publishes before it acknowledges, so no step of it loses an event |
| MessageSafety.SafeStable | backend/internal/calcworker/rabbit.go:357-442 | unless the bindings are lossy no step at all loses a confirmed event |
| MessageSafety.InvAlways | backend/internal/outbox/publisher.go:108-144 | the invariants hold after every run with drops and crashes |
| MessageSafety.NoLossAlways | backend/internal/calcworker/rabbit.go:357-442 | unless the bindings are lossy every published event is in the broker or completed, in every run |
| MessageLoss.LosingRun | backend/internal/calcworker/rabbit.go:413-435 | lossy bindings: an event as the service writes it is published and marked, reaches no queue or fails, and nothing is left of it |
| MessageLoss.NoLossIff | backend/internal/calcworker/rabbit.go:413-435 | no run loses an event if and only if the bindings are not lossy |
| MessageLoss.ConfiguredPipelineKeepsMessages | backend/internal/store/file_store.go:2917-2935 | the same in terms of the keys and queues of consumer and publisher, when they can be declared; keys that do not lose keep every event in any case |
| MessageLoss.DefaultKeysKeepMessages | backend/cmd/server/main.go:96-101 | with the default main and retry keys no run loses an event, whatever retry queues one side names |
| MessageLoss.OtherMainKeyLoses | backend/internal/store/file_store.go:2931-2934 | any other main key, everything else default, loses events |
| RetryLineage.LineageRepublish | backend/internal/calcworker/rabbit.go:410-435 | a retry continues its lineage: attempt, executions and retry levels fit together |
| RetryLineage.LineageBounded | backend/internal/calcworker/rabbit.go:364-369 | a lineage is executed at most max(1, MaxAttempts - first + 1) times and its retry levels never decrease |
| DeliveryOutcomes.FailureRouting | backend/internal/calcworker/rabbit.go:410-435 | a failure is retried and counted so if and only if it is not permanent and the next attempt is within the limit; the next attempt goes to exactly its level's queues, or else to exactly the dead key's |
| DeliveryOutcomes.DeliveryFails | backend/internal/calcworker/rabbit.go:357-436 | from the main queue to the acknowledgement: the message is gone, its next attempt stands where FailureRouting says, nothing else has changed |
| DeliveryOutcomes.DeliverySucceeds | backend/internal/calcworker/rabbit.go:403-441 | a success removes the message and completes its event, and changes nothing else |
| DeliveryOutcomes.DeliverySkipped | backend/internal/calcworker/rabbit.go:389-402 | so does a skipped delivery, without an execution |
| DeliveryOutcomes.DeliveryRejected | backend/internal/calcworker/rabbit.go:357-363 | a message that does not decode goes as it is to exactly the dead key's queues |
| DeliveryOutcomes.DeliveryReturned | backend/internal/calcworker/rabbit.go:426-434 | when the next attempt cannot be published the message waits in the main queue as it was |
| DeliveryOutcomes.DeliveryUnwritable | backend/internal/calcworker/rabbit.go:421-425 | when it cannot be written as JSON the message goes as it came to the dead key's queues |
| DeliveryOutcomes.LostDelivery | backend/internal/calcworker/rabbit.go:295-310 | a handler without its delivery changes nothing in the broker any more |
| DeliveryOutcomes.DeliveryLost | backend/internal/calcworker/rabbit.go:295-310 | the message it lost waits in the main queue as it was |
| DeliveryOutcomes.RetryExpires | backend/internal/calcworker/rabbit.go:345-349 | an expired message stands once in every destination of the main key it has not expired from before, with its history |
| DeliveryOutcomes.DeadLetterReplayed | backend/cmd/replay_dlq/main.go:40-72 | a dead message becomes a first attempt under the fixed key, unless it is not JSON, and leaves the dead queue |
| DeliveryOutcomes.EventPublished | backend/internal/outbox/publisher.go:185-226 | an accepted event stands in the fixed key's queues and its row is marked; a refused one leaves both as they were |
| DeliveryOutcomes.SessionOpened | backend/internal/outbox/publisher.go:108-191 | a new session takes up a batch of unpublished rows |
| DeliveryOutcomes.EventPostponed | backend/internal/outbox/publisher.go:195-215 | an event that is not published or not confirmed keeps its row, and the session goes on |
| DeliveryOutcomes.BatchGivenUp | backend/internal/outbox/publisher.go:208-210 | a cancelled session gives up its wait and its batch |
| DeliveryOutcomes.ConnectionDrops | backend/internal/outbox/publisher.go:108-144 | what a lost connection has sent may still arrive, what it was told stays known |
| DeliveryOutcomes.StrayArrives | backend/internal/outbox/publisher.go:185-226 | an event sent by an earlier session arrives once in the fixed key's queues |
| ConsumerCounters.CountersAlways | backend/internal/calcworker/rabbit.go:406-420 | over all interleavings Failed - (Retried + Dead) is the number of handlers between the two updates |
| QuantityGrammar.ParenthesizeSound | web/app.js:4950-5018 | any tree becomes derivable with the same value; a derivable tree gets no parentheses |
| QuantityGrammar.ExprComplete | web/app.js:4950-4967 | a printed sum is parsed as itself up to where its operators end |
| QuantityGrammar.TermComplete | web/app.js:4969-4990 | a printed product is parsed as itself, associating to the left |
| QuantityGrammar.FactorComplete | web/app.js:4992-5019 | a printed factor is parsed as itself and consumed exactly |
| QuantityGrammar.ExprSound | web/app.js:4950-4967 | what is parsed is derivable and its tokens are the ones consumed |
| QuantityGrammar.ParseTreeIff | web/app.js:5020-5025 | exactly the derivable token sequences are accepted, with their derivation |
| QuantityGrammar.UniqueDerivation | web/app.js:4950-5018 | the grammar is unambiguous |
| QuantityGrammar.Evaluator.ParseExpression | web/app.js:4950-4967 | on the shared cursor: the value of the tree read there and the cursor behind it, or division by zero, or no tree |
| QuantityGrammar.Evaluator.ParseTerm | web/app.js:4969-4990 | the same for products, dividing only by values that are not zero |
| QuantityGrammar.Evaluator.ParseFactor | web/app.js:4992-5019 | the same for signs, parentheses and numbers |
| QuantityTokens.Tokenize | web/app.js:4894-4944 | the loop over a cursor gives the tokens of the text without spaces, or its first error |
| QuantityTokens.EvaluateExpression | web/app.js:4946-5026 | succeeds exactly on texts that mean a tree with a value, with that value; on a tree it fails only by division by zero |
| QuantityTokens.PrintedSeparated | web/app.js:4932-4939 | a printed tree never puts two numbers side by side |
| QuantityTokens.LexSpelling | web/app.js:4900-4941 | any spelling of such tokens is read back as those tokens |
| QuantityTokens.PrintedTreeMeans | web/app.js:4946-5026 | any tree, any spelling, any spaces: the text means the printed tree, of the same value |
| QuantityTokens.MeaningUnique | web/app.js:4946-5026 | a text means exactly the one derivation of its tokens |
| QuantityTexts.NumberWritten | web/app.js:4846-4859 | a run of digits and commas is a number exactly if it is digits, or digits with one comma among them, and has that value |
| QuantityTexts.MeansIffWritten | web/app.js:4894-5026 | with spaces anywhere a text means a tree if and only if it writes the tree in these characters, and the tree needs no more parentheses |
| Quantities.ParseQuantity | web/app.js:5028-5064 | succeeds exactly when the text stands for a quantity, with that quantity |
| Quantities.PrintedExpressionValue | web/app.js:4861-4863 | the operator test sends every printed tree, a bare number too, to an evaluation that gives its value |
| Quantities.PrintedQuantity | web/app.js:5028-5064 | a quantity written as an expression is the value of the expression |
| Quantities.PrintedRoundedQuantity | web/app.js:5034-5046 | with `[N]` behind it, that value rounded to N decimals |
| Quantities.RoundToIsNear | web/app.js:4865-4868 | rounding misses by at most half of the last place and is idempotent |
| Quantities.RoundToIs | web/app.js:4865-4868 | halves are rounded up |
| Quantities.WrittenQuantity | web/app.js:5028-5064 | any tree written in literal characters, with spaces anywhere, is its value |
| Quantities.QuantityIffWritten | web/app.js:5028-5064 | without a bracketed precision a text is a quantity if and only if it writes a tree of that value |
| Quantities.WrittenRoundedQuantity | web/app.js:5034-5063 | with digits in brackets behind it, the value rounded to that many decimals |
| Quantities.WrittenQuantityIffWhole | web/app.js:5252-5261 | a quantity written as its number is read back as itself if and only if it is whole |
| EscapedText.EscapeIsEscaped | web/app.js:7805-7812 | the five replacements are one pass over the characters |
| EscapedText.UnescapeEscape | web/app.js:7805-7818 | what any text becomes after escaping and unescaping |
| EscapedText.SurvivesIff | web/app.js:7805-7818 | a text survives if and only if it has no apostrophe, no carriage return and no backslash before an n |
| EscapedText.EscapedIsOneField | web/app.js:7805-7812 | an escaped text without apostrophes holds no delimiter and no line end |
| EscapedText.UnescapedSurvives | web/app.js:7805-7818 | what has been unescaped once survives being escaped and unescaped again |
| EscapedText.PlainUnescapes | web/app.js:7805-7818 | texts without special characters are left alone both ways |
| EstimateHeader.NeverLegacy | web/app.js:8264-8275 | the older header form is never recognised in a written header |
| EstimateHeader.HeaderIdReadBack | web/app.js:8278-8281 | the number is read back exactly when it is positive, otherwise as 1 |
| EstimateHeader.HeaderRoundTrip | web/app.js:8058-8073 | a header of fields without quotes and line ends is read back |
| EstimateHeader.ConstructionRoundTrip | web/app.js:8292-8306 | so is the construction line |
| EstimateHeader.ClosingRoundTripIff | web/app.js:8108-8113 | the closing setting, escaped but never unescaped, is read back if and only if it holds no special character |
| EstimateConfig.ParseSetIdIs | web/app.js:8395-8413 | the set is that of the first field spelled like a set in any letter case, as the fields stand in the line |
| EstimateConfig.UpsertCanon | web/app.js:8319-8343 | any settings line, with backslashes too, gets the set first and keeps format and other settings in order; without a set, the one it names |
| EstimateConfig.ParseSetIdCanon | web/app.js:8395-8413 | what is found in a written line: the escaped set up to a star, or else what the other settings name |
| EstimateConfig.ConfigWritten | web/app.js:8096-8106 | what is written is the line with the estimate's own set, or with the set the line named |
| EstimateConfig.ConfigRoundTripIff | web/app.js:8433-8444 | the settings are always read; with the same set if and only if it has no star and no backslash and is not empty beside a lookalike, and then written the same again |
| EstimateConfig.StarIsLost | web/app.js:8411 | a set with a star comes back cut |
| EstimateConfig.NamesSetIff | web/app.js:8411 | a setting names the set exactly if its key is one of the two names in any letter case |
| EstimateConfig.OtherParamIff | web/app.js:8319-8333 | another setting is kept exactly if its key is not blank and none of the two names as they are written |
| EstimateConfig.NewLineWritten | web/app.js:8096-8106 | without a settings line format 49 and the set are written, whether they were completed before or not |
| EstimateLines.BodyFields | web/app.js:8140-8152 | the fields of a written position line are split and unescaped back |
| EstimateLines.BodyIsPosition | web/app.js:8446-8454 | a written position line is not taken for a title, a settings line or a closing line |
| EstimateLines.BodyInjective | web/app.js:8140-8152 | two positions with the same line show the same |
| EstimateReading.BuiltShows | web/app.js:8680-8733 | whichever existing item a line is matched with, one of the user's own catalogue too, the new item shows what the line shows |
| EstimateReading.UserShownIff | web/app.js:8689-8723 | a position of the user's own catalogue comes back as shown if and only if no total and no code is filled in |
| EstimateLines.ExtractOriginalCode | web/app.js:4811-4831 | the loop finds the first bracket that does not begin with an equals sign |
| EstimateReading.ReadLineOfItem | web/app.js:8636-8733 | reading the line of any item gives an item that shows the same |
| EstimateReading.PositionReadIff | web/app.js:8637-8673 | a position comes back as itself if and only if its code is none of the marks of other lines |
| EstimateReading.ReadItemLines | web/app.js:8627-8735 | reading the written lines of any item list gives a list that shows the same, in order |
| EstimateIdentity.ReadKeepsItems | web/app.js:8636-8735 | items with ids and lines of their own come back one for one: id, kind, quantity and calculation, of a calculated one prices and original code, of a user's own the catalogue |
| EstimateIdentity.EditedLineKeepsId | web/app.js:8680-8762 | an edited line keeps the id of the position with its code and number of occurrence, takes the line's values and forgets the calculation |
| EstimateIdentity.MarkerSkipped | web/app.js:5086-5137 | a marker in brackets behind the quantity is not looked at |
| EstimateText.Document.SerializeToText | web/app.js:8221-8238 | the text of the state before; settings completed, every item keeps its own line |
| EstimateText.Document.ReadItems | web/app.js:8627-8735 | the loop gives the items of the lines, or stops at the first bad line |
| EstimateText.Document.ApplyLines | web/app.js:8593-8736 | the new state for every input, the labels and the partial update on a bad item line included |
| EstimateText.LabelsShown | web/app.js:8613-8616 | the labels are code and name with a space between them, or the one that is there |
| EstimateText.LinesRoundTrip | web/app.js:8593-8736 | applying the written lines restores title and closing fields, labels and the shown items; the set exactly when it is kept, and then the second text is the first |
| EstimateText.TextSplits | web/app.js:8787-8796 | the text splits into exactly the lines it was joined from |
| EstimateText.TextRoundTrip | web/app.js:8787-8802 | the same from the text: applying it to its estimate restores what was written, and writes the same text |
| ImportSelection.ClickRefines | web/app.js:1961-2054 | on any tree a click keeps the canonical form, and is ignored or changes exactly the leaves under its node, but for orphans that "everything" held |
| ImportSelection.ClicksRefinePlainSet | web/app.js:1961-2084 | without orphans any sequence of clicks collects what a plain set of estimates would hold |
| ImportSelection.ClicksRefinePlainSetIff | web/app.js:1961-2084 | over all clicks of the dialog this holds if and only if there are no orphans |
| ImportSelection.ImportState.PruneUnderObject | web/app.js:1953-1959 | the loop removes exactly the estimates of the object |
| ImportSelection.ImportState.PruneUnderConstruction | web/app.js:1939-1951 | the loop removes exactly the objects and estimates of the construction |
| ImportSelection.ImportState.AddSiblingObjects | web/app.js:1961-2054 | the loop adds exactly the other objects of the construction |
| ImportSelection.ImportState.AddSiblingEstimates | web/app.js:1961-2054 | the loop adds exactly the other estimates of the object |
| ImportSelection.ImportState.ApplySelection | web/app.js:1961-2054 | the selection after a click, for every kind of node |
| ImportSelection.ShownIff | web/app.js:2086-2221 | the dialog shows exactly the nodes with an estimate under them whose object and construction are there |
| ImportSelection.AllExpandsFaithfullyIff | web/app.js:2056-2062 | unchecking any shown box while everything is selected keeps the leaves outside it, less the orphans; so all of them if and only if there are none |
| RecordLookup.CipherIdempotent | backend/internal/gsn/records.go:43-55 | extracting a cipher twice is extracting it once |
| RecordLookup.DistrictKeyIdempotent | backend/internal/gsn/resource_pricing.go:59-81 | so is normalising a district |
| RecordLookup.RegionIdempotent | backend/internal/gsn/resource_pricing.go:36-45 | so is normalising a region, which keeps it free of points |
| RecordLookup.ZoneIdempotent | backend/internal/gsn/resource_pricing.go:47-57 | so is normalising a zone |
| RecordLookup.UnitPriceFactors | backend/internal/gsn/resource_pricing.go:83-130 | a price depends on the district only through its normal form |
| RecordLookup.DetailFactors | backend/internal/gsn/records.go:156-182 | a record's detail depends on set and district only through their normal forms |
| RecordLookup.UncachedFactors | backend/internal/gsn/records.go:134-183 | requests with the same normalised parts have the same uncached answer |
| RecordLookup.UncachedOfParts | backend/internal/gsn/records.go:139-144 | asking with the normalised parts gives the same answer as asking with the raw ones |
| RecordLookup.CipherCuts | backend/internal/gsn/records.go:43-55 | a cipher ends at the first bracket, space or number sign |
| RecordLookup.DistrictsSame | backend/internal/gsn/resource_pricing.go:59-81 | districts are the same exactly if their region numbers and their zone numbers between 1 and 11 are; other zones are ignored |
| RecordLookup.NumberKeyKeepsDigits | backend/internal/gsn/resource_codifier.go:68-93 | a resource is found by the digits of its code and nothing else |
| RecordLookup.WorksAndResources | backend/internal/gsn/record_kind.go:8-45 | a resource code is no work, nor is a catalogue record; other norms are |
| RecordLookup.CatalogPads | backend/internal/gsn/record_code.go:11-41 | the catalogue code has its numbers written with four digits, all but the first part |
| RecordLookup.LookupOrder | backend/internal/gsn/records.go:73-107 | a record is found by its code as written, then padded, and only then by original code |
| RecordPrices.PicksFirst | backend/internal/gsn/resource_pricing.go:83-106 | a list gives the value of the first entry that names the district and has one, or nothing |
| RecordPrices.BaseIs | backend/internal/gsn/resource_pricing.go:10-34 | the base price stands behind the last `##`, or behind the last `#` and there the last colon, or behind the last colon |
| RecordPrices.UnitPriceIs | backend/internal/gsn/resource_pricing.go:108-130 | price list before index list; base price and index both or neither |
| RecordPrices.CostsOne | backend/internal/gsn/resource_pricing.go:108-130 | for any texts of the fields these statements leave only one price |
| RecordPrices.RecordCosts | backend/internal/gsn/records.go:134-183 | a record that is no work is priced by its own row of the requested set |
| RecordPrices.ResourceCosts | backend/internal/gsn/records.go:436-486 | a resource of a work is priced by the row for the code that its number stands for, and named by it |
| RecordPrices.NoRowNoPrice | backend/internal/gsn/records.go:109-122 | without a row in the set there is no price |
| RecordCache.KeyInjective | backend/internal/gsn/record_cache.go:69-75 | the key gives its parts back when cipher and district hold no colon |
| RecordCache.KeyDecodesIff | backend/internal/gsn/record_cache.go:69-75 | as a text the key has one reading if and only if no part holds a colon |
| RecordCache.Service.ListRecordResources | backend/internal/gsn/records.go:436-486 | the loop gives every resource row its codifier, norm and price data |
| RecordCache.Service.GetRecordDetail | backend/internal/gsn/records.go:134-183 | answer and cache after a call; errors are not cached |
| RecordCache.Perform | backend/internal/gsn/records.go:134-183 | requests and lost entries in any order leave the cache the lemmas speak of |
| RecordCache.CallSound | backend/internal/gsn/records.go:144-149 | on a sound cache a request that mixes with none of the cached ones is answered as the database would |
| RecordCache.OneAnswer | backend/internal/gsn/records.go:134-183 | two requests with one key have one answer unless ciphers differ or one of them can find a price |
| RecordCache.TransparentIff | backend/internal/gsn/record_cache.go:69-75 | over all databases and runs a request is answered as without a cache if and only if no other reading of its key is a request with another answer |
| RecordCache.CacheIsTransparent | backend/internal/gsn/record_cache.go:69-75 | a request without colons is, whatever was asked before |
| RecordCache.TransparentAmongColonFree | backend/internal/gsn/record_cache.go:69-75 | while the others keep colons out of cipher and district, only the reading cut at the first and last colon decides |
| NormRefs.NormCodeRoundTrip | prep_gsn_books.py:115-131 | a code is its prefix and two-digit number |
| NormRefs.RangeIsExact | prep_gsn_books.py:115-131 | a range holds a code exactly when prefix and number fit, in order and each once |
| NormRefs.ProgramsAgreeWithoutSemicolons | scripts/import_gsn_to_postgres.py:68-96 | both programs read a norm list without semicolons alike |
| NormRefs.NormCodeIffWritten | prep_gsn_books.py:25 | exactly the texts of a letter, four or five digits, three digits and two digits are norm codes |
| NormRefs.CleanDrops | scripts/import_gsn_to_postgres.py:47-48 | semicolons and white space around a part are cleaned away |
| NormRefs.NormListIs | prep_gsn_books.py:138-145 | a list of clean parts is those parts, or exactly the codes between them if it is two ascending codes of one prefix |
| NormRefs.ImporterReadsGroups | scripts/import_gsn_to_postgres.py:85-96 | with semicolons the importer reads the lists between them, one after the other |
| HierarchyStack.PopStack | prep_gsn_books.py:284-286 | the loop pops exactly the trailing sections of level at least the record's |
| HierarchyStack.PoppedOwners | prep_gsn_books.py:284-298 | popping leaves exactly the sections that own the next record |
| HierarchyStack.TopOwnerIsNearest | scripts/import_gsn_to_postgres.py:188-190 | the top of the stack is the nearest earlier record of smaller level |
| HierarchyStack.ParentCodes | scripts/import_gsn_to_postgres.py:176-215 | every parent is the code of the nearest earlier record of strictly smaller level |
| HierarchyStack.CodeSumStep | prep_gsn_books.py:288-296 | one more record adds its weight once for every owner with the code |
| HierarchyStack.CountNorms | prep_gsn_books.py:275-298 | the one-pass counters are the sums over owned records |
| HierarchyStack.CountersAreSections | prep_gsn_books.py:275-298 | with distinct codes a section's counter is the quadratic sum up to the first record of at most its level |
| HierarchyStack.MarkUsedHierarchy | prep_gsn_books.py:275-315 | the reported rows by the counters |
| HierarchyStack.MatchesArePositions | prep_gsn_books.py:291 | what is counted as matched is the number of positions whose norm was found |
| HierarchyStack.SectionReportedIff | prep_gsn_books.py:275-315 | with distinct codes a section is reported if and only if its level is below 8, a record in it has a norm, and no norm of a record in it was found; with the number of its norms |
| HierarchyStack.RowIsUnmatchedSection | prep_gsn_books.py:300-315 | every reported row is a section with norms of which none was found |
| HierarchyStack.UnmatchedSectionIsReported | prep_gsn_books.py:300-315 | every such section is reported, with the counts of the definition |
| HierarchyStack.CounterIsSectionIff | prep_gsn_books.py:275-298 | for any codes the counter is the quadratic sum if and only if the other sections with its code have sum 0 |
| HierarchyStack.RowsAreDefinedIff | prep_gsn_books.py:275-315 | for any codes the report is that of the definition if and only if every section is settled |
| LicenseSessions.SessionTable.Sync | backend/internal/presence/license_sessions.go:44-110 | the table and the answer after a call, refused or granted |
| LicenseSessions.SessionTable.ReleaseAll | backend/internal/presence/license_sessions.go:112-121 | exactly the user's sessions are gone |
| LicenseSessions.SessionTable.CountActiveLocked | backend/internal/presence/license_sessions.go:123-131 | the loop counts the sessions of a company and subsection |
| LicenseSessions.SessionTable.PurgeExpiredLocked | backend/internal/presence/license_sessions.go:133-139 | exactly the sessions past the lease are gone |
| LicenseSessions.CountBounded | backend/internal/presence/license_sessions.go:44-110 | after a Sync every count is at most its previous value or its quota |
| LicenseSessions.SyncOutcome | backend/internal/presence/license_sessions.go:44-110 | a refusal only expires sessions; a grant gives exactly the wanted set and touches nobody else |
| LicenseSessions.GrantedIff | backend/internal/presence/license_sessions.go:44-110 | a call is granted if and only if every wanted pool has a live session under the caller's key or fewer live sessions than licences |
| LicenseSessions.GrantedAfterExpiry | backend/internal/presence/license_sessions.go:133-139 | once the other holders' leases have run out a call within the licences is granted |
| LicenseSessions.GrantedAfterRelease | backend/internal/presence/license_sessions.go:112-121 | and so it is once they have released everything |
| LicenseSessions.QuotaNeverExceeded | backend/internal/presence/license_sessions.go:44-139 | with fixed quotas no count exceeds its quota in any run whose wants share no key |
| LicenseSessions.QuotaHoldsIff | backend/internal/presence/license_sessions.go:44-139 | for any set of wants, all runs keep all fixed quotas if and only if no two wants share a key |
| LicenseSessions.SharedKeyExceeds | backend/internal/presence/license_sessions.go:68-80 | two wants with one key: two calls at one clock reading exceed the second pool's quota |
| LicenseSessions.BarFreeInjective | backend/internal/presence/license_sessions.go:40-42 | ids without bars share no key |
| LicenseSessions.KeyInjective | backend/internal/presence/license_sessions.go:40-42 | without bars in company and subsection a key determines its three fields |
| LicenseSessions.SingleSyncBoundedIff | backend/internal/presence/license_sessions.go:68-80 | for one wanted subsection the bound holds for all quotas if and only if the key is not another session's |
| LicenseSessions.BarsBreakQuota | backend/internal/presence/license_sessions.go:40-42 | with bars in ids a second user is counted in a pool without any licence |
| EstimateLocks.LockTable.Acquire | backend/internal/presence/locks.go:44-71 | the table and the answer: grant, renewal or conflict |
| EstimateLocks.LockTable.ReleaseAll | backend/internal/presence/locks.go:85-94 | exactly the user's locks are gone |
| EstimateLocks.LockTable.ForceRelease | backend/internal/presence/locks.go:117-132 | the lock is gone and returned if it had not expired |
| EstimateLocks.LockTable.PurgeExpiredLocked | backend/internal/presence/locks.go:134-140 | exactly the locks past the lease are gone |
| EstimateLocks.HolderStays | backend/internal/presence/locks.go:44-94 | until a release or an expiry the lock stays with its user |
| EstimateLocks.GrantsSeparated | backend/internal/presence/locks.go:44-140 | two successive grants to different users are separated by a release or by a purge past the first stamp's lease |
| EstimateLocks.GrantedIff | backend/internal/presence/locks.go:44-140 | after any calls an Acquire is granted if and only if every grant to another user has been released or purged, or is more than 90 seconds old |
| LineIdSync.SyncEstimateLineIdsFromSaved | web/app.js:10719-10748 | the lines updated in place and the map of changed ids |
| LineIdSync.SameKeyIff | web/app.js:10637-10648 | lines share a key if and only if kind, source, both codes and raw text are the same; only the raw text may hold bars |
| LineIdSync.PairedByOccurrence | web/app.js:10724-10739 | with equal key multisets the i-th occurrence of a key meets its i-th saved occurrence |
| LineIdSync.IdsArePermutation | web/app.js:10719-10748 | every id is given to as many lines as there are saved lines with it |
| LineIdSync.SyncedIdsArePermutation | web/app.js:10719-10748 | the local ids become a permutation of the saved ids |
| LineIdSync.PermutationIff | web/app.js:10719-10748 | for any edit: a permutation of distinct saved ids if and only if equal lengths and the unmatched local positions are the untaken saved ones |
| StatusMatch.MatchCalcStatusesToItems | web/app.js:5876-5956 | the pairs the greedy loop makes |
| StatusMatch.MatchedOneToOne | web/app.js:5876-5956 | no line gets two statuses and no status two lines |
| StatusMatch.PairedIffTakes | web/app.js:5876-5956 | a status is paired with exactly the line it takes: the free one with its id, else the first free participating one with its match key, else, if it names no line, with its code; it stays alone only if no free line fits |
| StatusMatch.AppliedIff | web/app.js:5767-5874 | a pair is applied if and only if its line does not show the status yet, and it is an overtaken line with the last status naming it, or a matched pair of a line that is not overtaken |
| StatusMatch.OwnLinesMatched | web/app.js:5876-5956 | statuses that name distinct existing lines are paired with their own, whatever the pools hold |
| StatusMatch.MergedDistinct | web/app.js:5825-5835 | the merged list has one pair per line and keeps every line |
| StatusMatch.ApplyListOnePerLine | web/app.js:5867-5874 | the apply list has one pair per line |
| StatusMatch.ApplyListOwnLines | web/app.js:5837-5874 | with own lines named every pair of it joins a status to the line it names |
| RunningTotal.LineCounted | web/app.js:4166-4182 | which lines the full total and the base total count, for a line anywhere in the list |
| RunningTotal.ProgressTarget.Accumulate | web/app.js:4123-4164 | what is recorded, and that the running total moves by exactly that |
| RunningTotal.Run | web/app.js:6200-6207 | a restart and any calls after it reach only states the lemmas speak of |
| RunningTotal.RunningIsBasePlusRecorded | web/app.js:4123-4164 | after any calls the running total is base plus the recorded totals |
| RunningTotal.TotalsAreLastPassed | web/app.js:4141-4155 | each id is recorded with the total it was last passed with |
| RunningTotal.RecomputationIsBasePlusDone | web/app.js:4166-4182 | the full recomputation is base plus each id's last done total plus the done lines hidden behind it |
| RunningTotal.RunningIsRecomputation | web/app.js:4123-4182 | by exactly how much the two differ, after any calls and for any list |
| RunningTotal.CompleteOncePassed | web/app.js:4123-4182 | once each done line was last passed with its present total and nothing else is recorded they are equal, but for repeated ids |
| RunningTotal.AfterFullCall | web/app.js:6200-6207 | after a call with the full list they differ by the stale, the missed and the hidden totals, whatever was passed before |
| RunningTotal.CompleteAfterFullCall | web/app.js:6200-6207 | with distinct ids they are equal if and only if stale and missed totals cancel out |
| CalcBatch.Tally | backend/internal/store/calc_batch.go:224-247 | the loop gives terminal list, error count and total |
| CalcBatch.BuildEstimateCalcBatchResponse | backend/internal/store/calc_batch.go:215-283 | every field of the response |
| CalcBatch.TerminalIsEnded | backend/internal/store/calc_batch.go:224-247 | the terminal list counts the lines that are done, failed or dead, the error count those that are failed or dead |
| CalcBatch.ReadyIff | backend/internal/store/calc_batch.go:249-268 | a response is ready if and only if every line has ended or a whole batch of ended lines is outstanding |
| CalcBatch.SliceSize | backend/internal/store/calc_batch.go:270-282 | it then carries the outstanding lines, but no more than a batch; otherwise none |
| CalcBatch.DeliveredIsPrefix | backend/internal/store/calc_batch.go:215-283 | while the terminal list grows by extension the slices are consecutive and disjoint |
| CalcBatch.FinishedDrained | backend/internal/store/calc_batch.go:215-283 | a finished list of n lines is drained by k responses if and only if k is at least ceil(n/b) |
| CalcBatch.TotalsAgree | backend/internal/store/calc_batch.go:224-247 | errors and total can be recomputed from the delivered lines |
| CalcBatch.StopAtDoneIff | web/app.js:6520-6531 | stopping at the first done response has everything if and only if at most one batch was outstanding |
| LinePricing.RoundMoneyIsNear | backend/internal/estimatecalc/pricing.go:19-21 | rounding misses by at most half a cent |
| LinePricing.RoundMoneyIs | backend/internal/estimatecalc/pricing.go:19-21 | halves of a cent go away from zero, on both sides alike |
| LinePricing.NumberIffAmount | backend/internal/estimatecalc/pricing.go:23-33 | a text is a number exactly if it is blank, or digits with at most one comma or point and at most a sign, and has that value |
| LinePricing.QuantityIffAmount | backend/internal/estimatecalc/pricing.go:62-76 | so is a consumption, or the letter for nothing |
| LinePricing.PlainPrice | backend/internal/estimatecalc/pricing.go:35-60 | base times index, or the base if the index is zero |
| LinePricing.StarredPrice | backend/internal/estimatecalc/pricing.go:35-60 | the index behind a star counts exactly when no other is given |
| LinePricing.LinePricingFromRecord | backend/internal/estimatecalc/pricing.go:78-122 | when it succeeds, and the three numbers |
| LinePricing.SumResources | backend/internal/estimatecalc/pricing.go:100-112 | the loop sums price times consumption, or fails at the first unreadable resource |
| LinePricing.UnitPriceConsistent | backend/internal/estimatecalc/pricing.go:113-122 | unit price times quantity misses the total by at most 0.005q + 0.005, and by 0.005 for a line priced on its own |
| LinePricing.AggKeyInjective | backend/internal/estimatecalc/line_result.go:123-125 | a key determines code and determinant |
| LinePricing.MergeResources | backend/internal/estimatecalc/line_result.go:78-118 | the loop over map and order gives the merged list, or fails on an unreadable resource |
| LinePricing.BuildLineCalcSnapshot | backend/internal/estimatecalc/line_result.go:41-121 | when it succeeds, and every field of the snapshot |
| LinePricing.MergeConserves | backend/internal/estimatecalc/line_result.go:80-112 | keys are distinct and the consumption of every key is conserved |
| LinePricing.MergeKeepsOrder | backend/internal/estimatecalc/line_result.go:80-118 | entries stand in first-seen order |
| LinePricing.MergedTotalIsTotal | backend/internal/estimatecalc/line_result.go:80-112 | with one price per key merged consumption times unrounded price is the unrounded total |
| LinePricing.StoredPricesError | backend/internal/estimatecalc/line_result.go:103-111 | with the rounded prices it errs by at most 0.005 per unit of absolute consumption |
| Text.SplitJoin | web/app.js:7937-7939 | fields without the delimiter come back from the joined line |
| Numbers.NumberTextRoundTrip | web/app.js:8150 | a finite decimal printed as a number is read back as itself |

## Left out

- HTTP, SQL, Redis, AMQP and JSON calls: replaced by maps, queues and assumptions; store calls that are not shown are steps that may succeed or fail.
- IEEE floating point: reals; number texts with exponents or hexadecimal digits, and Infinity and NaN, are not read.
- Unicode: a small set of spaces, ASCII digits and ASCII letter case.
- RecordCache.Service.GetRecordDetail: store errors and the decoding of cached entries are not modelled, because a failed read of the cache is a miss and a failed write an eviction.
- EstimateConfig.ConfigRoundTripIff: for price sets of one line without quotes and without white space around them; any settings line.
- EstimateReading.ReadLineOfItem: icons, children and calculation details of items are not modelled.
- EstimateText.TextRoundTrip: how numbers are printed is a parameter that must read back for the totals of the estimate; a position of the user's own catalogue must meet the condition of UserShownIff.
- LineIdSync.PermutationIff: for distinct saved ids without white space around them.
- EstimateHeader.HeaderRoundTrip: the fields are given; deriving a missing estimate number from the id, older field names, and construction fields from the object tree are not modelled.
- EstimateText.Document.ApplyLines: the older text format.
- LicenseSessions.QuotaNeverExceeded: quotas that change between calls; CountBounded is the statement for one call with any quota.
- LinePricing.BuildLineCalcSnapshot: the resources text of the snapshot is not modelled.
- MessageLoss.ConfiguredPipelineKeepsMessages: publisher and consumer are configured for the same main and dead queue and key; rows withdrawn from the outbox before they are published are not modelled.
- FormatResourcesText, formatConsumption and ApplyDeterminantAssignment: text of a snapshot and a later overwrite of one field.
- ApplyResourceNumberReplacements, ListHierarchyRecords and resource catalogue import.
- CancelEstimateCalc, the waiting and reset around a batch fetch, applyServerCalcSummary and mergeEstimateCalcStateFromSaved.
- Rendering, dialogs, exports, metrics, tracing, authentication and storage of users and companies.
