# Verified models of the Tezos API gateway

The gateway turns HTTP bodies into Michelson contract calls, forges and injects operations, follows
their confirmation, and answers questions about contract storages. This project models the parts of it
where state, recursion or concurrency make the code hard to read off, and proves what they promise.
Check everything with `dafny verify dfyconfig.toml`.

| file | what it models |
|---|---|
| `Tokens`, `Formatter` | parameter types, JSON bodies, and the formatter that turns one into contract arguments, as specification functions and as the loops of the source |
| `Layout`, `RoundTrip`, `Acceptance`, `Schemas`, `Flattening`, `ArgumentVector`, `ArgumentKeys`, `ArgumentValues` | the theorems about the formatter: layout independence, what its two modes keep, what it accepts and which error it gives otherwise, and which JSON each argument of a call stands for |
| `Generator`, `Contracts`, `Soundness` | the generated OpenAPI schemas, which bodies they let through, and which of them let through only what the formatter accepts |
| `Jobs`, `Indexer`, `JobProtocol`, `JobHistory`, `CallHistory`, `JobEvents`, `Checker` | jobs, indexers and checker passes: a state machine over every interleaving, what lies behind each of its states and in which order, and one undisturbed pass as it runs, proved to be a run of that machine |
| `Amqp` | the prefetch-1 consumer and the worker behind it |
| `Decimal`, `Operations`, `Forge`, `Batches`, `Estimation`, `ForgedContents`, `Inject` | forging, the operations table, the second computation in estimate, what both say field by field, and injection |
| `Storage`, `StorageValues`, `StorageQuery`, `StoragePaths`, `KeyedQuery` | the full dump of a storage and what it shows, and partial queries: how they read names, paths and keys, what they answer, and when they throw |
| `ContractCache`, `CacheUse` | the shared contract cache, one service at a time and interleaved, and the jobs that use it |
| `Ledger` | the token contract |
| `Routes`, `FilterObject` | generated routes and the object flattener |

Conventions. A thrown error is an `Err`, a `None`, or a flag, as the comment beside it says. An await is
the border of an atomic step where interleaving matters; methods that run a whole function model it
undisturbed. Answers of nodes, indexers, Vault and clocks are parameters, and the theorems hold for all
of them. JavaScript objects are lists of own fields in enumeration order.

Findings, each with a lemma that exhibits it:

- An unannotated token answers to the name "0", so a body key "0" makes the lookup depend on how a type
  is nested (`Layout.LookupIgnoresLayoutExactly`); and a name used again inside an earlier nested record
  hides the outer field (`Schemas.NestedNamesakeShadows`).
- The generator's contract for a map is one `{key, value}` object, while the formatter wants an array of
  them, and its contract for a variant asks for all branches at once; so the generator is sound exactly
  for records, lists and options of six scalar types
  (`Soundness.GeneratorIsSoundExactlyForServedTypes`), and no record with a field called `map`, `list` or
  `hasOwnProperty` is among them (`Soundness.ReservedNamesBreakTheContract`). The pattern for bytes admits
  one character only.
- The checker's DONE write names the job, not the hash it asked about: after a second injection it can
  mark an unreported hash done (`JobProtocol.StaleSnapshotMarksUnreportedHashDone`), exactly when since
  the pass began the job was published again, last with another hash
  (`JobHistory.DoneMarksReportedHashExactly`).
- A message that is not JSON is never acknowledged and, with a prefetch of 1, stops its queue
  (`Amqp.ReadableIsAllIffJson`).
- A null value of a map entry makes the full dump throw (`Storage.DumpFailsOnNullEntries`), and a number
  as a map value is answered by a key query but dumped as the internals of its object
  (`StorageQuery.KeyQueryAgreesWithDump`).
- The contract cache is shared by services and keyed by a signer's hash at the time of filling, so it is
  safe only while no service replaces a signer once it has been asked for a contract
  (`ContractCache.SettledLookupsAreSafe`); every job of the gateway keeps to that
  (`CacheUse.ProgramRunsAreSettled`).
- The object flattener calls a method of the object it flattens: an own field `hasOwnProperty` at any
  depth outside arrays makes it throw (`FilterObject.DeleteObjectSubLevel`).
- `transferFrom` always reads and lowers an allowance, and `approve` needs an entry that nothing creates:
  a fresh token contract is frozen (`Ledger.FreshContractIsFrozen`). Anyone may propose an owner.

## Model

| member | source | states |
|---|---|---|
| Tokens.FindChildTokenByAnnotation | src/lib/smart-contracts/index.ts:466-480 | the loop with recursion returns what the specification of the lookup returns |
| Tokens.FindsFirstInPreorder | src/lib/smart-contracts/index.ts:466-480 | the lookup returns the first match in pre-order among the tokens reachable through combs of the given kind, and nothing iff there is none |
| Layout.Reassociate | src/lib/smart-contracts/index.ts:466-480 | wrapping neighbours of a comb in an unnamed comb of the same kind gives another layout of the same type |
| Layout.LookupIgnoresLayout | src/lib/smart-contracts/index.ts:466-480 | any two layouts of a type answer the lookup of a name other than "0" with layouts of the same child |
| Layout.LookupIgnoresLayoutExactly | src/lib/smart-contracts/index.ts:466-480 | layout never changes whether a name is found iff the name is not "0" |
| Layout.FormatIgnoresLayout | src/lib/smart-contracts/index.ts:180-456 | the formatter gives the same arguments, or the same error, for every layout of the type, in both modes |
| Schemas.SchemaIgnoresLayout | src/lib/entrypoints/get-entrypoint-schema.ts:16-80 | the JSON schema of an entry point does not depend on the layout of its type |
| Schemas.ArgumentsIgnoreLayout | src/lib/smart-contracts/index.ts:67-103 | a whole entry point call is layout independent |
| Schemas.FieldIsFound | src/lib/smart-contracts/index.ts:387-408 | with distinct names in the whole comb, each field is found under its own name |
| Schemas.FoundIffNoNamesakeBefore | src/lib/smart-contracts/index.ts:466-480 | any token of a comb is found under its name iff no other token of that name comes before it in pre-order |
| Schemas.NestedNamesakeShadows | src/lib/smart-contracts/index.ts:466-480 | without that condition a nested namesake is found instead |
| Schemas.PropertyOfSchema | src/lib/smart-contracts/index.ts:387-408 | reading a schema gives the first field of a name, or a character of a type's name at an index |
| Formatter.FormatEntryPointParameters | src/lib/smart-contracts/index.ts:180-220 | the dispatch on token and value, option and boolean cases included, returns the specified arguments or error |
| Formatter.FormatListOrSetParameter | src/lib/smart-contracts/index.ts:332-346 | the accumulating loop returns the elements' arguments in order, or the first error |
| Formatter.FormatVariantParameter | src/lib/smart-contracts/index.ts:279-323 | one variant, found by name, in both modes; each refusal with its error |
| Formatter.FormatRecordParameter | src/lib/smart-contracts/index.ts:357-408 | records in both modes, null and arrays included |
| Formatter.FormatGivenFields | src/lib/smart-contracts/index.ts:367-385 | shape-preserving records: one formatted field per given field |
| Formatter.FormatSchemaKeys | src/lib/smart-contracts/index.ts:387-408 | flattened records: the arguments of each schema key in turn |
| Formatter.FormatMapParameter | src/lib/smart-contracts/index.ts:420-456 | maps: each entry checked, formatted and set on the MichelsonMap in order |
| RoundTrip.MapKeepsDistinctEntries | src/lib/smart-contracts/index.ts:420-456 | a MichelsonMap keeps all entries iff no two keys are the same |
| RoundTrip.ShapeRoundTrip | src/lib/smart-contracts/index.ts:180-456 | with only maps formatted, a successful call gives one value, and erasing its maps gives the input up to boolean strings iff no map repeats a key |
| RoundTrip.BodyRoundTrip | src/lib/smart-contracts/index.ts:180-456 | a body without boolean strings comes back as it is iff no map in it repeats a key |
| Acceptance.BooleanArgument | src/lib/smart-contracts/index.ts:190-246 | at a boolean, in both modes: a boolean is itself, TRUE and FALSE in any mix of cases are the booleans they spell, character by character, and all else is refused |
| ArgumentKeys.SameKeyExactly | src/lib/smart-contracts/index.ts:420-456 | two keys of a MichelsonMap are the same iff they have the same primitives, lists and objects at the same places |
| ArgumentKeys.MapIsDictionary | src/lib/smart-contracts/index.ts:420-456 | whatever entries are set on it, a MichelsonMap has each key once, with the entry set last |
| ArgumentValues.ShapeArgument | src/lib/smart-contracts/index.ts:180-456 | in shape-preserving mode the one argument stands for the JSON: primitives as they are, booleans as spelled, lists, records and variants part by part, maps as dictionaries of their entries |
| ArgumentValues.VectorStands | src/lib/smart-contracts/index.ts:180-456 | in schema mode each argument is the chosen variant's name or stands for the JSON at its place; an entry of a map keeps the first argument of its value |
| Acceptance.AcceptsExactlyConforming | src/lib/smart-contracts/index.ts:180-456 | the formatter succeeds iff the value conforms to the type, relation given independently |
| Acceptance.FailsWithFirstFault | src/lib/smart-contracts/index.ts:180-456 | every failure is of the class named by the first violated clause in traversal order, at any depth; classes given independently of the formatter |
| Flattening.RecordIsItsLeaves | src/lib/smart-contracts/index.ts:387-408 | nested records format to the arguments of their leaf paths, in schema order |
| Flattening.VectorIsLeavesInSchemaOrder | src/lib/smart-contracts/index.ts:134-178 | for types whose leaves are no variants and no options of records or variants, the vector has one entry per leaf of the schema, entry i from leaf path i |
| ArgumentVector.VectorFillsSlots | src/lib/smart-contracts/index.ts:247-408 | for every type with distinct names and every accepted body, null options, chosen variants and nested records included, the vector has one argument per place of the body, in order, each the chosen variant's name or the formatted value at a path |
| Flattening.OnlyLeafValuesMatter | src/lib/smart-contracts/index.ts:387-408 | neither field order nor extra fields change the arguments |
| Flattening.HasOwnPropertyIsRefused | src/lib/smart-contracts/index.ts:393-396 | except a field called `hasOwnProperty`, which is a TypeError for every record |
| Soundness.FitsExactly | src/lib/generate-path-object/index.ts:196-300 | for any generated schema (Schema Object, section 4.7.24 of OpenAPI 3.0) and any type, in both modes: the formatter accepts every body valid under the schema iff the schema fits the type |
| Soundness.ServedIffFits | src/lib/generate-path-object/index.ts:196-300 | a type is served iff its own generated schema fits it, whole or as a list's element |
| Soundness.GeneratorIsSoundExactlyForServedTypes | src/lib/generate-path-object/index.ts:196-300 | for every type with distinct names, every body valid under the generated schema is formatted without error iff the type is served |
| Soundness.ReservedNamesBreakTheContract | src/lib/generate-path-object/index.ts:246-268 | for every record with a field called `map`, `list` or `hasOwnProperty` there is a valid body that the formatter refuses |
| Generator.OnlyTheEmptyStringIsReplaced | src/lib/smart-contracts/index.ts:57-65 | of the bodies the API lets through, exactly the empty string is not passed on as formatted |
| Generator.FalsyParametersAreReplaced | src/lib/smart-contracts/index.ts:57-65 | missing, zero and empty parameters become one 0, null none, and all others, false among them, are formatted |
| Contracts.ValidIsLet | src/lib/generate-path-object/index.ts:196-300 | the schema object generated for a JSON schema lets through exactly the bodies described, type name by type name |
| Contracts.ContractLets | src/lib/generate-path-object/index.ts:196-300 | the same for every parameter type with distinct names: of a map a single entry, of a set any object, of a record or variant all fields or branches at once |
| Indexer.CheckByRandomIndexer | src/services/indexer-pool.ts:109-164 | the bounded retry loop returns the first decisive verdict |
| Indexer.VerdictMeans | src/services/clients/indexer-client.ts:89-165 | the verdict is failed, not found, crashed, confirmed or not yet iff the first conclusive response within the retries says so by its status code, flag, level and the node's head; and unknown iff none is conclusive |
| Indexer.ConfirmedMeansDeepSuccess | src/services/clients/indexer-client.ts:89-149 | an operation is confirmed iff some attempt within the retries is a success at the required depth and all before it were inconclusive |
| Jobs.JobsTable.InsertJob | src/models/jobs.ts:20-48 | a new row under an unused id, created, without hash |
| Jobs.JobsTable.UpdateOperationHash | src/models/jobs.ts:79-90 | hash and published status of the one row, all else unchanged |
| Jobs.JobsTable.UpdateJobStatus | src/models/jobs.ts:99-109 | the status of the one row, all else unchanged |
| Jobs.JobsTable.UpdateJobStatusAndOperationHash | src/models/jobs.ts:119-130 | status and hash of the one row, all else unchanged |
| Jobs.JobsTable.UpdateJobStatusAndErrorMessage | src/models/jobs.ts:141-152 | for a message that leaves the SQL text as it is meant, error status and message of the one row, all else unchanged; its only callers pass the error status |
| JobProtocol.RunsKeepInv | src/models/jobs.ts:79-167 | in every interleaving statuses, hashes and the publication history agree; a done job has a check on record whose hash was reported |
| JobProtocol.PublishedIsHistory | src/models/jobs.ts:79-90 | the publication history tells exactly what the table held at some moment of the run |
| JobProtocol.ReportedIsHistory | src/services/indexer-pool.ts:109-164 | a hash counts as reported only if an answer of the run about it contains a deep success |
| JobHistory.DoneWasPublishedAndReported | src/processes/workers/check-operation-status/lib/check-operation-status.ts:61-83 | in every interleaving, behind a done job and in this order: a pass that found this job published with some hash, an indexer's report to that check of a success at depth at least `nbOfConfirmation`, and its DONE write |
| JobProtocol.JobsOnlyMoveForward | src/models/jobs.ts:79-167 | jobs start created without hash and never return to created; no hash is ever cleared; published and done jobs have one |
| JobHistory.HashIsLastPublished | src/models/jobs.ts:79-130 | in every run, from any moment on, a job has the hash it was last published with since, or else the one it had then |
| JobHistory.DoneMarksReportedHashExactly | src/processes/workers/check-operation-status/lib/check-operation-status.ts:61-83 | a DONE write marks the hash its pass found, a reported one, iff the last publication of the job since the pass began, if there was one, was of that hash |
| JobHistory.PassAsksAboutPublished | src/models/jobs.ts:159-167 | a pass asks about exactly the jobs that are published with a hash when it starts, under that hash |
| JobHistory.AnswerMeans | src/processes/workers/check-operation-status/lib/check-operation-status.ts:61-251 | an answer leads to the DONE write iff its first conclusive response is a deep success, to the error `runtime_error` iff it is a failure, and to the error without message iff the operation is missing and has expired |
| JobHistory.CheckErrorWasReported | src/processes/workers/check-operation-status/lib/check-operation-status.ts:150-251 | in every interleaving, behind an error write of a check and in this order: a pass that found the job published, and such a response; the write changes the status, the message in the first case, and nothing else |
| CallHistory.RowsAreStoredInOrder | src/models/operations.ts:23-150 | in every run the operations table holds exactly the rows stored, in order, each under its call's job |
| CallHistory.CallActions | src/lib/jobs/inject-operation.ts:37-130 | a failure of a call leads to its error write, and each of its two writes changes the one job row as stated |
| CallHistory.PublishedWasAccepted | src/lib/jobs/send-transactions.ts:123-231 | in every interleaving a job is published only with a hash under which the node accepted a call for this job, after the call stored all its rows |
| JobProtocol.StaleSnapshotMarksUnreportedHashDone | src/processes/workers/check-operation-status/lib/check-operation-status.ts:61-83 | a second injection during a check can leave an unreported hash marked done |
| JobEvents.EventsFollowConfirmation | src/processes/workers/check-operation-status/lib/check-operation-status.ts:98-148 | in every run an event refers to a stored row of its job, of the row's kind; before it, in this order, the pass started, its check of the job was answered with a deep success, wrote DONE, and read the job's rows, this one among them |
| JobEvents.FinishedCheckAnnouncedEachRowOnce | src/processes/workers/check-operation-status/lib/check-operation-status.ts:98-148 | a check through with its rows had read all rows its job had at that moment, and has sent exactly one event for each that is a reveal or has `parameters_json`, and no other |
| JobEvents.NoRowIsAnnouncedTwice | src/processes/workers/check-operation-status/lib/check-operation-status.ts:61-148 | if passes do not overlap and no job is injected again, no row is ever announced twice |
| Checker.PerformExtendsRuns | src/processes/workers/check-operation-status/lib/check-operation-status.ts:45-255 | what a pass performs from a reachable world is itself a run of the protocol |
| Checker.RowEventsAreDue | src/processes/workers/check-operation-status/lib/check-operation-status.ts:109-148 | going through the rows gives each due event once and no other |
| Checker.Worker.PublishRows | src/processes/workers/check-operation-status/lib/check-operation-status.ts:98-148 | the rows' events are sent, a row that throws disturbing no other |
| Checker.Worker.CheckJob | src/processes/workers/check-operation-status/lib/check-operation-status.ts:64-251 | a job is left as its answer says: done, error with or without message, or untouched |
| Checker.Worker.CheckOperationStatus | src/processes/workers/check-operation-status/lib/check-operation-status.ts:45-255 | a pass leaves each job of its snapshot as its answer says and no other job touched, announces each row of confirmed jobs once, and is a run of the protocol |
| Checker.PassMeans | src/processes/workers/check-operation-status/lib/check-operation-status.ts:45-255 | what a pass leaves, read off the responses: each published job is done, in error with `runtime_error`, in error, or as it was, just as its first conclusive response says, and the due events are sent |
| Amqp.SendTransactions | src/lib/jobs/send-transactions.ts:123-231 | the last status write that is reached and succeeds decides; unknown jobs are refused before any write |
| Amqp.Channel.Deliver | src/services/amqp.ts:91 | a message goes out only while none is out; no message is lost |
| Amqp.Worker.MessageHandler | src/services/amqp.ts:219-259 | a JSON message is acknowledged exactly once on every path; the handler runs iff the message is valid |
| Amqp.Worker.Consume | src/services/amqp.ts:167-185 | pending, unacknowledged and acknowledged messages together stay the same; up to the first message that is not JSON all are acknowledged in order and exactly the valid ones handled |
| Amqp.ReadableIsAllIffJson | src/services/amqp.ts:225 | a queue is consumed to its end iff all its messages are JSON |
| Amqp.HandledOnce | src/services/amqp.ts:234-256 | each valid message is handled as often as it was delivered, no other ever |
| Amqp.LeavesCreatedIffStatusWritten | src/lib/jobs/send-transactions.ts:135-231 | when the messages are acknowledged, a created job has left that status iff one of its valid messages had a status write that succeeded |
| Decimal.ParseOfPrint | src/lib/jobs/inject-operation.ts:139-158 | a printed integer reads back as itself |
| Decimal.PrintOfParse | src/models/operations.ts:67-91 | a string survives `parseInt` and `toString` iff it is a canonical decimal |
| Operations.OperationsTable.InsertOperations | src/models/operations.ts:23-51 | one INSERT takes all rows or none, and takes them iff all numbers fit INT columns |
| Operations.OperationsTable.InsertTransaction | src/models/operations.ts:113-150 | the row of a sent transaction, without node parameters, fee and limits |
| Operations.RowRoundTrip | src/models/operations.ts:53-100 | an operation comes back from its row iff its numbers are canonical and its parameters given |
| Operations.StoredOperationsComeBack | src/lib/jobs/inject-operation.ts:132-159 | the rows of a job are read back in order whatever other jobs store, and become the inserted operations iff each is canonical with parameters |
| Operations.ContentReadsBack | src/lib/jobs/inject-operation.ts:132-159 | from any row without NULL numbers an operation comes back with the row's numbers, names and key, and with null for NULL parameters |
| Operations.ContentsInOrder | src/lib/jobs/inject-operation.ts:132-159 | the contents come back row by row, and none of them if one cannot |
| Operations.RowsOfJob | src/models/operations.ts:161-173 | a job's rows are found, each as often as it was stored, and no other |
| Forge.GetOperationContents | src/lib/jobs/forge-operation.ts:239-328 | the mutable counter, the shift and the loop give the specified contents or error |
| Forge.ForgeOperation | src/lib/jobs/forge-operation.ts:79-177 | nothing is written before the node has forged; then a created job, and the rows of exactly the forged batch or none |
| Forge.ForgeRevealOperation | src/lib/jobs/forge-reveal-operation.ts:18-82 | the same for a reveal on its own: when and why it fails, and otherwise its row, fee and gas in terms of the request and the node's estimate |
| Forge.RevealReadsBack | src/lib/jobs/forge-reveal-operation.ts:84-146 | a reveal has the account and key of the request, and its numbers read back as the estimate's limits, its fee or the given one, and the next counter |
| ForgedContents.FirstStop | src/lib/jobs/forge-operation.ts:79-328 | the first thing that stops a request decides its error, and nothing else stops it |
| ForgedContents.AdmittedExactly | src/processes/web/api/jobs/forge-job-controller.ts:53-66 | requests of more than five transactions and reveals without a key are turned away, and only these |
| ForgedContents.ForgedRow | src/lib/jobs/forge-operation.ts:187-328 | each row of a forged batch, column by column, in terms of the request and the node's answers |
| ForgedContents.StorableExactly | src/models/operations.ts:23-51 | a forged operation can be stored iff its counter is a number, its numbers have 32 bits and the caller's id at most 100 characters |
| Batches.CountersInOrder | src/lib/jobs/forge-operation.ts:257-327 | from account counter c the batch is counted c+1, c+2, … with the reveal first, iff the answers about the reveal are consistent or no transaction is left |
| Batches.BatchIsBounded | src/lib/jobs/forge-operation.ts:97-101 | an admitted request never gives more than five operations, and each of its transactions iff there is an estimation for each |
| Batches.ReportedTotalsAreRowSums | src/lib/jobs/forge-operation.ts:119-124 | the reported fee and gas are the row sums, the gas less 100 per row |
| Batches.ForgedIsWhatIsInjected | src/lib/jobs/inject-operation.ts:132-159 | what inject reads for a forged job is exactly what was forged iff all node parameters were given |
| Inject.InjectOperation | src/lib/jobs/inject-operation.ts:37-130 | the ordered effects on the job row, and what the node is asked to pre-apply |
| Inject.ForgedJobIsInjectedAsForged | src/lib/jobs/inject-operation.ts:37-130 | for a stored forged batch the node is asked to pre-apply the forged contents in order, and the job is published iff no step fails |
| Estimation.EstimateOperation | src/lib/jobs/estimate-operation.ts:40-165 | the second counter loop gives the specified estimates or error |
| Estimation.EstimateAgreesWithForge | src/lib/jobs/estimate-operation.ts:110-152 | on the same consistent answers estimate and forge refuse the same requests as too large, and otherwise agree on counter, limits, parameters, amount and, without override, fee |
| ForgedContents.RevealAgreesWithEstimate | src/lib/jobs/estimate-operation.ts:108-132 | given the same estimate of the reveal, estimate and forge agree on its limits and fee too |
| ForgedContents.EstimateMeans | src/lib/jobs/estimate-operation.ts:95-165 | each estimated operation, field by field: fees, limits, gas rounded to units, counter, amount and parameters |
| ForgedContents.EstimateStops | src/lib/jobs/estimate-operation.ts:40-165 | the first thing that stops an estimate decides its error, and nothing else stops it |
| Storage.ConvertMichelsonMapToArrayObject | src/lib/storage/generate-storage-response.ts:20-46 | the while loop gives one key-value object per entry, in order |
| Storage.FromPairsKeepsLast | src/lib/storage/generate-storage-response.ts:102-110 | an object made from pairs has under each name the last pair's value |
| Storage.DumpFailsOnNullEntries | src/lib/storage/generate-storage-response.ts:34-37 | the dump throws iff a map whose entries it converts holds a null |
| StorageValues.DumpShows | src/lib/storage/generate-storage-response.ts:20-110 | whenever the dump does not throw, its response shows the storage value by value, map entries with a list as an object of indices and numbers as internals |
| StorageQuery.DecidingAttempt | src/lib/storage/convert-storage.ts:130-149 | a big map is asked at most four times, and the first attempt that is no 502, or the last one, decides |
| StorageQuery.GetCorresponds | src/lib/storage/convert-storage.ts:227-242 | looking a path up in the storage and converting is the same as looking it up in the dump |
| StorageQuery.PairsAnswerLastField | src/lib/storage/convert-storage.ts:213-246 | of the pairs that the fields give, the last of each name is the answer to the last field of that name |
| KeyedQuery.ResponseByName | src/lib/storage/convert-storage.ts:213-246 | the response has under each name the answer to the last field that asks for it, and nothing else |
| StorageQuery.PartialQueryIsProjection | src/lib/storage/convert-storage.ts:213-246 | a requested name or path that looks into no map has the value it has in the full dump, and an error iff the dump has none |
| StorageQuery.KeyQueryAgreesWithDump | src/lib/storage/convert-storage.ts:83-118 | one answer per requested key in order; the error when absent; the dump's value iff it is neither falsy nor a number |
| KeyedQuery.PathAnswer | src/lib/storage/convert-storage.ts:222-242 | a name or path is answered with what the storage has there, as the dump shows it, or with the error iff it has nothing |
| KeyedQuery.KeyedAnswer | src/lib/storage/convert-storage.ts:83-200 | a request for keys is answered with the first error iff the property is absent or falsy, with the second iff it is no map, and otherwise with one answer per key in order: the error, a number, the value as the dump shows it, or the answer to the inner query; a big map is asked at most four times |
| KeyedQuery.QueryThrowsExactly | src/lib/storage/convert-storage.ts:130-246 | a query throws iff one of its fields does: a dump meets a null in a map, a key holds what cannot be shown, or the node fails on it |
| StoragePaths.OwnIs | src/lib/storage/convert-storage.ts:179-242 | a name leads to the property of that name or the element of that index |
| StoragePaths.SplitJoins | src/lib/storage/convert-storage.ts:227-242 | a path is the one list of parts without dots that it joins |
| StoragePaths.GetIs | src/lib/storage/convert-storage.ts:227-242 | a path that is a name of the storage means that name, any other its parts one after another |
| StoragePaths.SameKeyExactly | src/lib/storage/convert-storage.ts:94-97 | two keys are the same iff they have the same primitives, lists and objects at the same places, a number being its decimal string |
| ContractCache.KeyIsInjective | src/services/tezos.ts:37-44 | addresses without dash: a key tells the address and the signer's hash |
| ContractCache.TezosService.GetContract | src/services/tezos.ts:35-47 | a fresh contract under the current signer, filed under its key |
| ContractCache.TezosService.GetContractFromCache | src/services/tezos.ts:49-59 | undisturbed, a lookup returns a contract for the address made under the signer's hash |
| ContractCache.LookupReturnsOwnContract | src/services/tezos.ts:49-59 | in every interleaving a lookup's contract is of its signer iff it hit the cache or the service still had that hash when it missed |
| ContractCache.CacheHoldsLastFiled | src/services/cache-local.ts:24-30 | in every run the cache holds under a key the contract filed there last, and nothing once it has expired |
| ContractCache.LookupReadsLastFiled | src/services/tezos.ts:49-59 | a lookup returns the contract filed last under its key, or makes one on its own service under the signer of that moment |
| ContractCache.SettledLookupsAreSafe | src/services/tezos.ts:35-59 | if services keep their signer's hash once asked, no lookup gets a contract of another signer or of none, then or later |
| CacheUse.ProgramRunsAreSettled | src/services/gateway-pool.ts:41-53 | in every interleaving of the gateway's jobs, each on its own service, no signer is replaced on a service that was asked for a contract |
| CacheUse.JobsGetTheirOwnContracts | src/lib/jobs/send-transactions.ts:136-308 | so a job's contracts are for the addresses it asked for, made under its own key, on services that keep that key |
| Ledger.FlexibleToken.TransferTokensFrom | smartPy-contracts/flexibleToken.py:105-114 | assignment by assignment, the transfer succeeds iff stated, moves exactly the tokens out of one balance and one allowance into another balance, or leaves the state as it was |
| Ledger.FlexibleToken.AcceptTheOwnership | smartPy-contracts/flexibleToken.py:24-31 | ownership passes only on the owner's own acceptance of somebody else's pending proposal |
| Ledger.FlexibleToken.ApproveSpender | smartPy-contracts/flexibleToken.py:101-103 | the allowance becomes what was approved, iff the sender has an entry |
| Ledger.SupplyIsConserved | smartPy-contracts/flexibleToken.py:105-114 | along every sequence of calls, by anyone, the balances keep their sum, the accounts and the supply |
| Ledger.BalanceIsFlow | smartPy-contracts/flexibleToken.py:105-114 | along every sequence of calls a balance is the first one plus all received less all given, summed over the successful calls |
| Ledger.InitialSum | smartPy-contracts/flexibleToken.py:37-58 | a fresh contract's balances add up to its supply |
| Ledger.TakenFromAllowance | smartPy-contracts/flexibleToken.py:101-114 | between two approvals a spender takes exactly what its allowance goes down by, so never more than it had |
| Ledger.AllowanceIsApprovedLessTaken | smartPy-contracts/flexibleToken.py:101-114 | from an approval on, an allowance is what was approved less what the spender has taken since |
| Ledger.ApprovalIsLocal | smartPy-contracts/flexibleToken.py:101-103 | an approval changes no other allowance and nothing but allowances |
| Ledger.FreshContractIsFrozen | smartPy-contracts/flexibleToken.py:101-114 | from a fresh contract no approval and no transfer ever succeeds |
| Ledger.OwnerChangesByAcceptance | smartPy-contracts/flexibleToken.py:19-31 | along every run the owner changes iff the current owner accepts, and the new owner is the address proposed last |
| Routes.GeneratePathObject | src/lib/generate-path-object/index.ts:102-116 | the path object gets three distinct paths per entry point, in order |
| Routes.PathsInOrder | src/lib/generate-path-object/index.ts:102-116 | the three paths of the i-th entry point stand at 3i, as forge, send and asynchronous send |
| Routes.PathsFallIntoThreeClasses | src/helpers/extract-arrays.ts:15-25 | each of the 3n paths is in exactly one class and nothing else is in any; the forge class is the n forge paths, and the others are the n send and n asynchronous paths iff no name contains `async` |
| Routes.PathsReadBack | src/helpers/generate-transaction-details.ts:14-26 | each path reads back as its entry point iff the name has no slash and no question mark |
| FilterObject.DeleteObjectSubLevel | src/helpers/filter-object.ts:9-25 | the loop over the original fields, with recursion and reassignment, gives the specified object, or throws iff an object in it outside arrays has an own field `hasOwnProperty` |
| FilterObject.ResultNameByName | src/helpers/filter-object.ts:9-25 | when it does not throw: removed names are gone, siblings win over hoisted names, and other names come from the first removed field that has them |
| FilterObject.KeptNames | src/helpers/filter-object.ts:9-25 | the same for every name that is not removed, whatever stands under the removed names |
| FilterObject.HoistsByIndex | src/helpers/filter-object.ts:9-25 | a removed list hoists its elements and a removed string its characters, under their indices |
| FilterObject.NoRemovedNameSurvives | src/helpers/filter-object.ts:9-25 | when it does not throw, no removed name is left at any object depth outside arrays |
| FilterObject.SecondTimeChangesNothing | src/helpers/filter-object.ts:9-25 | when it does not throw, a second application does not either, and changes nothing |
| FilterObject.LeavesAreConserved | src/helpers/filter-object.ts:9-25 | when it does not throw and names do not collide, the multiset of leaves is conserved |

## Left out

- HTTP controllers other than their batch-size and public-key checks, middleware, metrics, logging, process start and stop.
- Signing, hashing, base58, Vault, RPC, Postgres and broker internals: their answers are parameters. A publication to the exchange does not fail in the model.
- Taquito: its source is not part of the repository. Tokens are a datatype; an unannotated token has index 0 as the lookup creates it; `MichelsonMap.get` and `set` compare keys by serialization with sorted names; keys that contain maps are not modelled.
- getContractMethod: the choice of the entry point's type, the `default` name of contracts with one entry point, and indices in the schema of several entry points are not modelled; its treatment of falsy parameters is.
- ArgumentValues.VectorStands: does not say what becomes of a record, variant or map as the key of a map in schema mode; Michelson has no maps as keys, and for the others the code takes the schema of the values.
- JavaScript prototypes: `__proto__` keys, inherited properties, and string `length` as a schema key.
- Flattening.VectorIsLeavesInSchemaOrder: covers records whose leaves are neither variants nor options of records or variants, which may give several arguments; those are covered by ArgumentVector.VectorFillsSlots.
- Jobs.JobsTable.UpdateJobStatusAndErrorMessage: does not model that the message goes unescaped into the SQL text (src/models/jobs.ts:149), where a `'` in it makes the statement fail or mean something else.
- Fields whose annotation looks like an array index, such as `1`: `Object.keys` lists them first, while Schemas.SchemaFields and Formatter.Keys keep the order of the type.
- Map parameters in schema mode are modelled as the code has them (the value's schema is used for keys too), but the round trip is stated for the shape-preserving mode.
- Numbers are integers without bound: JavaScript's rounding above 2^53 and its exponent notation from 10^21 on are not modelled; the INT columns' 32 bits are.
- Dates of rows are not modelled; whether a missing operation has expired is a parameter.
- Redelivery after a lost connection, and acknowledgements that fail.
- sendTransactions: its contract calls and its inserts of transaction rows appear in the job protocol as steps; the batch object is not modelled.
- Paths with brackets or quotes in storage queries, own fields of library objects such as BigNumber, and string indices.
- A rejected promise that the contract cache keeps until it expires.
- GatewayPool.getTezosService: an unbounded random loop without a measure.
- src/lib/utils/pack-data.ts, and the other contracts under smartPy-contracts.
- `lock`, `unlock` and `transfer` of the token have empty bodies; they are calls without effect in the model.
