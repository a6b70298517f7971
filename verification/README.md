# Accounts and the audit gate, verified

A Dafny model of three pieces of the repository and proofs about them.

**Eager loading** (`backend/ent/account_query.go`, `accountgroup_query.go`). A query for accounts runs one
query per requested edge and scatters the rows back over the nodes through hash maps. The specification
(`EagerSpec`) never batches: it starts at one row and follows one edge at a time. `EagerLoad.All` builds linked,
mutable nodes the way `sqlAll` does and is proved to produce what that navigation finds, for every tree of
queries, every selection of fields, and every shape of the parent links, cycles included. Each node carries a
ghost tree that mirrors its pointers; the trees are what the specification speaks about. `EagerFailure` says exactly
when a load fails. `EagerLaws` and `EagerProjection` state what follows: the two routes from an account to its groups
agree, parents and children are inverse, projections do not matter, and with tie-free orders the batched result is the
row-by-row result.

**Creating accounts** (`account_create.go`, `account.go`). `AccountCreate` has `defaults`, `check` and
`createSpec`; `AccountCodec` has the stored row, `scanValues` and `assignValues`, and proves that decoding undoes
encoding. `BulkCreate` is the recursive chain of mutators behind `AccountCreateBulk.Save`: hooks are values that
may veto, answer, edit, swap the mutation object and rewrite the answer. `BulkLaws`, `BulkOutcomes`,
`BulkVerdicts` and `BulkSave` prove what every run keeps and its exact outcome, whatever the hooks do; `SingleCreate`
proves exactly when a bulk of one and a single create agree, and `SingleWitness` shows concrete disagreements.
`UpdateEdges` does the edge part of an update.

**The audit gate** (`tools/check_pnpm_audit_exceptions.py`). `AuditExceptions` is the line reader, `AuditLayout` the
layouts it reads back, `AuditVulns`, `AuditReading` and `AuditPicks` the walk over the audit's JSON, `AuditGate` the
decision and `AuditMeaning` what it decides, in the words of the two files. `AuditLaws` has the laws about time and
about more exceptions. `AuditOrder` says exactly when the order of the tuples matters, `AuditEntries` with `BlockOrders`
when that of the entries does, and `AuditDocuments` says it of the gate's own inputs, file and audit.

Run `dafny verify dfyconfig.toml`, or give all `.dfy` files to one `dafny verify`.

## What the proofs turned up

- An update that calls `ClearGroups` after `AddGroupIDs` keeps the added ids, and one that calls `ClearProxy` or
  `ClearParent` after setting the id keeps the id; `UpdateEdges` gives the exact condition.
- In a bulk create a hook that passes on another mutation object gets it inserted unchecked, because `check` looks at
  the builder's own mutation before the replacement; the single create checks the replacement.
- A hook that answers success by itself makes the bulk succeed with nothing inserted and no nodes; `BulkSave` gives
  the exact condition.
- The gate's verdict can depend on the order in which an audit lists its advisories, because only the first tuple of a
  package and advisory is compared with the severity its exception names. `AuditDocuments` has the exact condition, for
  the orders of both sections of any audit, and `AuditWitness` a concrete audit and exceptions file.
- A hook that supplies what `defaults` could not makes a bulk of one succeed where the single create has failed.
- A hook that answers a value that is no account, or rewrites the answer to one, makes the single create report failure
  (even after inserting the row), while the bulk, which ignores the value, succeeds.
- A `via` entry whose only usable title is a numeric `source` makes the gate raise `TypeError`, although the comment at
  `normalize_advisory` expects numeric sources.

## Assumptions

The database filters, orders (ties in any order) and returns each row once; primary keys are unique. A batch insert is
refused or inserts all rows with new, distinct ids; inserting one row is a batch of one. An update clears edges before
it adds. JSON encoding of the documents stored can be undone and is never empty; scanning does no implicit conversion.
Python's `lower`, `repr` and `date.fromisoformat` are parameters, and the keys of a JSON object are distinct. Every
builder of a bulk is its own object with its own mutation. A hook is a function of the mutation's fields and calls its
continuation at most once.

## Model

| member | source | states |
|---|---|---|
| EagerLoad.All | backend/ent/account_query.go:550-625 | for every query tree: on success the linked nodes hang together and their trees are exactly the selected rows, in order, each navigated edge by edge; it fails exactly when it reaches a query that selects something that is not a column, so the unexpected-key errors never happen; terminates by the height of the query |
| EagerFailure.ValidFieldsNeverFail | backend/ent/account_query.go:524-548 | a query tree that selects columns only never fails, whatever the tables hold |
| EagerFailure.ToOneBatchFails | backend/ent/account_query.go:720-741 | a batch over all keys fails exactly when following the edge from one of the rows would; nil keys ask for nothing |
| EagerLoad.LoadEdges | backend/ent/account_query.go:580-624 | the requested edges are loaded one after another and none disturbs another; fails exactly when some edge of some node does |
| EagerGroups.LoadGroups | backend/ent/account_query.go:627-687 | one list of groups, each at its first appearance among the joined rows; every account keeps from that list, in its order, exactly the groups it is joined to, which is what navigation from the account finds; the order in which a group's accounts are visited does not matter |
| EagerGroups.ScanJoined | backend/ent/account_query.go:650-672 | first loop over joined rows: each group once, at its first appearance, and for each group the set of accounts waiting for it |
| EagerGroups.AttachGroups | backend/ent/account_query.go:677-685 | second loop: each account gets the groups it waits for, in result order, iterating over the account set in any order |
| EagerLoad.LoadParent | backend/ent/account_query.go:720-751 | every node's parent is the row its key names if that exists and is accepted, and nil otherwise |
| EagerBatch.CollectKeys | backend/ent/account_query.go:721-735 | the id list has no repeats and is the set of non-nil keys; each key's bucket holds the nodes with that key, in order |
| EagerBatch.BatchLookup | backend/ent/account_query.go:736-749 | what one query for all keys finds under a key is what a query for that key alone would find |
| EagerScatter.AttachParents | backend/ent/account_query.go:742-749 | succeeds exactly when every neighbour was asked for, and then every node points at the last neighbour with its key |
| EagerLoad.LoadChildren | backend/ent/account_query.go:752-784 | one result list; every node takes from it, in its order, exactly the rows whose parent key is its id, which is what navigation finds; the lists' lengths add up to the list's |
| EagerScatter.AttachChildren | backend/ent/account_query.go:770-782 | succeeds exactly when every neighbour has a key that belongs to a node, and then every node gets its share in order |
| EagerLoad.LoadAccountGroups | backend/ent/account_query.go:815-844 | the same over the through table, each row with its own edges loaded |
| EagerLoad.AllJoins | backend/ent/accountgroup_query.go:334-378 | the same for a query over the through table |
| EagerLoad.LoadAccount | backend/ent/accountgroup_query.go:379-407 | every join row gets the account it names, if accepted |
| EagerLoad.LoadGroup | backend/ent/accountgroup_query.go:408-436 | every join row gets the group it names, if accepted |
| EagerSpec.InvalidField | backend/ent/account_query.go:535-539 | a query is rejected exactly when it selects something that is not a column |
| EagerSpec.AccountKeysKept | backend/ent/account_query.go:858-879 | whatever fields are selected, a scanned account keeps its id and the foreign key its loaders read |
| EagerSpec.JoinKeysKept | backend/ent/accountgroup_query.go:448-467 | the same for join rows |
| EagerShown.ResultShows | backend/ent/account_query.go:858-879 | every node of every tree a load can return, down all edges, shows the row's own value in exactly the columns selected (all when none is), its id, and a key that is selected or that a loader needs; nothing else |
| EagerShown.JoinNavigationShows | backend/ent/accountgroup_query.go:448-467 | the same for join rows |
| EagerShown.DefaultShowsAll | backend/ent/account_query.go:858-879 | a query without a selection shows the whole row |
| EagerShown.AccountColumnNames | backend/ent/account/account.go:132-165 | the column list, name by name |
| EagerProjection.NavigationIgnoresFields | backend/ent/account_query.go:858-879 | for query trees that differ in field lists at any level, what one finds from a row is what the other finds, shown through the other's fields |
| EagerProjection.ResultIgnoresFields | backend/ent/account_query.go:858-879 | a whole result has the same rows in the same order with the same edges under other field lists |
| EagerProjection.EdgesIgnoreProjection | backend/ent/account_query.go:858-879 | with tie-free orders a load with other fields returns exactly that structure |
| EagerLaws.TwoRoutesAgree | backend/ent/account_query.go:627-687 | the groups loaded in one step are the groups reached through the through table |
| EagerLaws.ParentAndChildrenInverse | backend/ent/account_query.go:720-784 | one account is listed under another's children exactly when its loaded parent is that other, up to the two edge queries' predicates |
| EagerBatch.SharesPartition | backend/ent/account_query.go:770-782 | the lists handed to the owners together have as many entries as there are neighbours; LoadChildren and LoadAccountGroups promise it of their nodes |
| EagerLaws.NavigationUnique | backend/ent/account_query.go:550-625 | when no query has ties in its order, the loaded trees are the only ones navigation allows |
| EagerLaws.ParentAccessor | backend/ent/account.go:129-138 | the accessor tells an edge that was not requested from a parent that does not exist, and both from a parent |
| EagerLaws.ChildrenAccessor | backend/ent/account.go:140-147 | fails exactly when the edge was not requested, and otherwise shows exactly the accepted rows that name the account as parent |
| EagerLaws.GroupsAccessor | backend/ent/account.go:109-116 | the same for the groups |
| EagerLaws.AccountGroupsAccessor | backend/ent/account.go:158-165 | the same for the through rows |
| AccountCreate.Builder.Defaults | backend/ent/account_create.go:527-585 | fills in the mutation and reports the first column without a default |
| AccountCreate.DefaultedExactly | backend/ent/account_create.go:527-585 | set values stay, unset ones become their default, and an error names the first of four columns that is neither set nor has one |
| AccountCreate.CheckReportsFirst | backend/ent/account_create.go:588-662 | an error is an unmet demand and no demand earlier in table order is unmet; required are exactly the NOT NULL columns |
| AccountCreate.CheckPassesExactly | backend/ent/account_create.go:588-662 | check passes exactly when the fourteen required columns are set and name, platform, type, status, window status (if set) and quota dimension satisfy each its own validator |
| AccountCreate.RejectedExactly | backend/ent/account_create.go:588-662 | a rejected column is one of these six and its own validator refuses its text |
| AccountCreate.FailedDefaultsAreRejected | backend/ent/account_create.go:2105-2113 | when defaults fail, check rejects what they leave |
| AccountCreate.Builder.CreateSpec | backend/ent/account_create.go:682-891 | the node shows exactly what the mutation sets, and the insert carries exactly that with the columns' types |
| AccountCreate.SpecSays | backend/ent/account_create.go:682-891 | an insert writes the proxy and parent ids through their edges and every other column that is set as a field with its value, and nothing else |
| AccountCodec.CheckedRowIsComplete | backend/ent/migrate/schema.go:97-130 | the row of a create that passed check has a value in every NOT NULL column |
| AccountCodec.ScanValues | backend/ent/account.go:168-189 | one destination per column, of the kind the column's field is assigned from; other names get an untyped one |
| AccountCodec.Node.AssignValues | backend/ent/account.go:193-417 | assigns column by column up to the first error; with too few values it changes nothing |
| AccountCodec.AssignStopsAtFirstBad | backend/ent/account.go:193-417 | assignment fails exactly when some destination has the wrong type or an unreadable document, and blames the first such column |
| AccountCodec.CellSets | backend/ent/account.go:193-417 | what each kind of destination makes of its column: NULL leaves it alone, but zeroes the id; documents are merged into what was read before |
| AccountCodec.AssignSelects | backend/ent/account.go:412-414 | unknown columns are kept beside the fields, the last one under each name; columns not listed keep what they had |
| AccountCodec.ColumnRoundTrip | backend/ent/account.go:193-417 | the destination accepts what createSpec stored and assigning it gives the value back, also over an earlier copy |
| AccountCodec.DecodeUndoesEncode | backend/ent/account.go:168-417 | for any column list, with repeats and unknown columns, and any codec that inverts the mutation's own documents, reading the row of a create raises no error and gives the node's fields |
| AccountCodec.ExtraIsSelected | backend/ent/account.go:412-414 | what a query selects beyond the table's columns is kept as the database sent it |
| AccountCodec.SomeCodecInverts | backend/ent/account.go:255-270 | every mutation has such a codec |
| AccountCodec.WholeRowRebuildsNode | backend/ent/account.go:168-417 | selecting all columns gives the saved node, id included |
| AccountCodec.ReadBack | backend/ent/account_query.go:562-570 | allocating, scanning and assigning the row of a create never fails |
| BulkCreate.AccountCreateBulk.Mutate | backend/ent/account_create.go:2107-2147 | one mutator with its hooks does to the shared state exactly what `Run` says |
| BulkCreate.AccountCreateBulk.RunBatch | backend/ent/account_create.go:2118-2126 | the batch: everything or nothing, and the ids reported back into the specifications |
| BulkCreate.AccountCreateBulk.SaveAll | backend/ent/account_create.go:2095-2152 | the whole of bulk Save, equal to the function the laws are about |
| BulkLaws.HooksNest | backend/ent/account_create.go:2107-2147 | under any hooks: entered in path order, left in exactly the reverse order, at most one batch attempt and only at the end of the path; rows change exactly when it is accepted |
| BulkLaws.PathIsInOrder | backend/ent/account_create.go:2142-2145 | the path goes builder by builder and hook by hook |
| BulkLaws.PathIsComplete | backend/ent/account_create.go:2142-2145 | every remaining hook is on the path |
| BulkLaws.RunIsFramed | backend/ent/account_create.go:2107-2147 | a call leaves earlier builders, their nodes and foreign mutation objects alone |
| BulkOutcomes.AllOrNothing | backend/ent/account_create.go:2118-2138 | under any hooks the table is unchanged or has one new row per builder, in builder order, with fresh ids that the specifications report |
| BulkOutcomes.InsertedRowsAreFaithful | backend/ent/account_create.go:2111-2138 | inserted rows and nodes say what the builders' final mutations say; without swaps these are the builders' own and have passed check (UncheckedExactly has the exact condition) |
| BulkOutcomes.HonestRun | backend/ent/account_create.go:2107-2147 | when hooks neither invent nor hide success: success means all inserted, ids on the nodes, all mutations done and pointing at their node; failure means nothing inserted and none done |
| BulkVerdicts.RunExactly | backend/ent/account_create.go:2107-2147 | under any hooks, the exact rows, number of batches and answer: the database is asked exactly when every builder's hooks let a mutation through and its own fields pass check, for the fields each was given; hooks then make of the answers what they like |
| BulkSave.SaveExactly | backend/ent/account_create.go:2095-2152 | the same for a whole Save |
| BulkSave.UncheckedExactly | backend/ent/account_create.go:2111-2128 | exactly when a bulk inserts a row that check rejects: all own mutations pass, the database accepts, and the mutation given does not pass |
| BulkSave.SilentSuccessExactly | backend/ent/account_create.go:2095-2152 | under any hooks, Save reports success with the table unchanged exactly when no batch was sent or the database refused it, and hooks turned that into a success |
| BulkSave.HushedExactly | backend/ent/account_create.go:2107-2152 | when hooks rewrite no answers, this happens exactly for an empty bulk, or when at some builder the first hook that answers answers success and every earlier builder lets a mutation through that passes check |
| BulkSave.SuccessExactly | backend/ent/account_create.go:2095-2152 | when hooks rewrite no answers, Save succeeds with rows inserted exactly when every builder goes through and the database accepts |
| BulkSave.AnsweredBulkInsertsNothing | backend/ent/account_create.go:2144-2152 | a first hook that answers success: Save succeeds, nothing inserted, all nodes nil |
| BulkSave.LowestFaultStopsAll | backend/ent/account_create.go:2095-2152 | with pass-through hooks a failing check stops everything with the error of the lowest failing builder |
| BulkSave.ValidBulkAsksOnce | backend/ent/account_create.go:2095-2152 | with pass-through hooks and valid builders the database is asked once for all rows in builder order and its answer is the result |
| SingleCreate.AccountCreateOne.SqlSave | backend/ent/account_create.go:664-680 | checks, compiles and inserts the builder's own mutation and marks it done |
| SingleCreate.AccountCreateOne.Mutate | backend/ent/ent.go:577-590 | the hook chain around sqlSave; the mutation that arrives is copied over the builder's own |
| SingleCreate.AccountCreateOne.Save | backend/ent/account_create.go:497-502 | a failing default ends the save before any hook runs; otherwise it returns the last answer, if that is an account |
| SingleCreate.SingleSaveExactly | backend/ent/ent.go:568-599 | under any hooks, the exact rows and result: it inserts exactly when the fields that arrive pass check and the database takes them, and an answer that is no account makes it fail even so |
| SingleCreate.SingleFinishes | backend/ent/account_create.go:664-680 | after an insert the builder's own mutation holds the fields that arrived, is done, and points at a node with these fields and the row's id |
| SingleCreate.ChainsAgree | backend/ent/account_create.go:664-680 | without swaps, the single create's hook chain and the bulk's do the same, step by step |
| SingleCreate.BulkOfOneExactly | backend/ent/account_create.go:2095-2152 | the exact rows and error of a bulk of one, under any hooks, also when defaults have failed |
| SingleCreate.TablesDifferExactly | backend/ent/account_create.go:2111-2114 | exactly when a bulk of one and the single create leave different tables: the database takes what arrives, and exactly one of own and given fields passes check |
| SingleCreate.RescuedExactly | backend/ent/account_create.go:2105-2113 | exactly when a bulk inserts although defaults failed, which the single create never does |
| SingleCreate.AgreeUnlessForeign | backend/ent/ent.go:591-598 | where check says the same of own and given fields, both agree exactly unless the answer is no account |
| SingleCreate.AgreeExactly | backend/ent/account_create.go:497-502 | the exact condition for agreement, swaps included, for hooks that rewrite no answers |
| SingleCreate.AgreeUnderAnyHooks | backend/ent/account_create.go:2095-2152 | the exact condition for agreement under any hooks, failed defaults and rewritten answers included: where check tells own and given fields apart, neither inserts and the hooks make the same of the two errors |
| SingleCreate.BulkOfOneIsSingle | backend/ent/account_create.go:497-502 | without swaps both leave the same state, and agree exactly unless the answer is no account |
| SingleCreate.FailedDefaultsFailBoth | backend/ent/account_create.go:497-502 | when defaults fail and hooks only pass on, both fail and insert nothing |
| SingleCreate.ForeignAnswerFailsAlone | backend/ent/ent.go:594-597 | a hook that answers something that is no account: the bulk succeeds, the single create fails |
| SingleCreate.RewrittenAnswerFailsAlone | backend/ent/ent.go:594-597 | a hook that rewrites the answer to such a value: both insert the row, the single create reports failure |
| SingleWitness.SwapWitness | backend/ent/account_create.go:2111-2114 | the swap at a concrete input |
| SingleWitness.RepairWitness | backend/ent/account_create.go:2105-2113 | the rescue at a concrete input |
| SingleWitness.ForeignAnswerWitness | backend/ent/ent.go:594-597 | the foreign answer at a concrete input |
| SingleWitness.RewriteWitness | backend/ent/ent.go:594-597 | the rewritten answer at a concrete input |
| SingleCreate.SwappedMutationEscapesCheck | backend/ent/ent.go:568-599 | for any valid and invalid mutation: a swap makes the bulk insert the invalid one and the single create reject it |
| SingleCreate.RepairedDefaultsSucceedOnlyInBulk | backend/ent/account_create.go:2105-2113 | a hook that supplies the missing fields rescues the bulk only |
| UpdateEdges.ToManyEdge.AddIDs | backend/ent/mutation.go:3879-3886 | records the call in the mutation's bookkeeping |
| UpdateEdges.ToManyEdge.RemoveIDs | backend/ent/mutation.go:3899-3907 | records the call; a removed id is no longer waiting to be added |
| UpdateEdges.ToManyEdge.Compile | backend/ent/account_update.go:2119-2168 | the compiled update does (cleared ? nothing : old minus removed) plus added, and does what the calls said exactly when nothing is stale |
| UpdateEdges.OutcomeIsMeantAndStale | backend/ent/account_update.go:2119-2168 | for every history of calls: the result is what the calls mean plus the ids waiting at the last clear that no later call names |
| UpdateEdges.UpdateIsMeantUnlessStale | backend/ent/mutation.go:3889-3891 | exact condition for an update to do what its calls say |
| UpdateEdges.ToOneIsMeantUnlessClearedByName | backend/ent/mutation.go:3933-3952 | the same for to-one edges: it fails exactly when the last call clears the edge by name with an id waiting |
| UpdateEdges.AddThenClearKeeps | backend/ent/mutation.go:3889-3891 | the smallest failing history of a to-many edge |
| UpdateEdges.SetThenClearKeeps | backend/ent/mutation.go:3933-3952 | the smallest failing history of a to-one edge: the id set before the clear stays |
| AuditExceptions.ParseExceptions | tools/check_pnpm_audit_exceptions.py:23-48 | the loop computes the reading of the lines as a fold |
| AuditExceptions.ParseCountsItems | tools/check_pnpm_audit_exceptions.py:23-48 | reading fails exactly when an item line has no colon; otherwise there is one record per item line |
| AuditLayout.RenderThenParse | tools/check_pnpm_audit_exceptions.py:12-48 | any layout of any records reads back: values bare, in single or in double quotes, white space anywhere around keys and values, comments, blank and other meaningless lines anywhere, any of three line endings, colons, quotes and hashes in values |
| AuditLayout.ParseInsert | tools/check_pnpm_audit_exceptions.py:23-48 | putting the lines of an exception into a file, where a record may begin, puts its record into the list read |
| AuditVulns.IterVulns | tools/check_pnpm_audit_exceptions.py:64-111 | the generator run to its end gives the tuples AuditYields describes, in order |
| AuditReading.AuditReadableExactly | tools/check_pnpm_audit_exceptions.py:64-111 | it runs to its end exactly when the audit is an object, every advisory is an object whose cves is unused, empty, a list or a string, and every vulnerability is an object whose usable via titles are strings |
| AuditReading.AuditYields | tools/check_pnpm_audit_exceptions.py:64-111 | exactly the tuples of a readable audit: one per advisory, and per vulnerability one for each usable identifier with the titles joined |
| AuditReading.EntryTuplesAt | tools/check_pnpm_audit_exceptions.py:82-111 | the tuples of one vulnerability, in the order of its identifiers |
| AuditReading.SeveritiesReachGate | tools/check_pnpm_audit_exceptions.py:114-116 | all severities that reach the gate can be normalised exactly when those in the audit are text or nothing |
| AuditVulns.AdvisoryTuplesAt | tools/check_pnpm_audit_exceptions.py:66-78 | one tuple per advisory, in order, unless one cannot be read |
| AuditPicks.AdvisoryTupleMade | tools/check_pnpm_audit_exceptions.py:51-79 | the tuple of a readable advisory: its identifier is the first usable one of github_advisory_id, url, first CVE, printed id, title, advisory and overview; likewise its name and its title |
| AuditPicks.EntryMade | tools/check_pnpm_audit_exceptions.py:87-106 | which identifier and title a `via` item contributes: for an object the first usable one of five, and of four, members; for a text the text |
| AuditPicks.EntryTupleMade | tools/check_pnpm_audit_exceptions.py:80-111 | a tuple of an entry has its name, its severity, and an identifier that one of its `via` items contributes |
| AuditPicks.JoinedTitles | tools/check_pnpm_audit_exceptions.py:109 | titles are joined in order with "; " between them |
| AuditVulns.VulnerabilityReadable | tools/check_pnpm_audit_exceptions.py:82-111 | exactly when an entry can be read |
| AuditVulns.NumericSourceAloneRaises | tools/check_pnpm_audit_exceptions.py:97-109 | a concrete audit that makes the title join raise |
| AuditGate.BuildIndex | tools/check_pnpm_audit_exceptions.py:156-185 | no complaint exactly when all exceptions are well-formed with distinct keys; the index has exactly the first exception of each key |
| AuditGate.Scan | tools/check_pnpm_audit_exceptions.py:191-219 | the missing, mismatched and expired lists hold exactly the offending keys, each once |
| AuditGate.RaisesExactly | tools/check_pnpm_audit_exceptions.py:142-243 | an exception escapes exactly when an item line has no colon, the audit has the wrong shape somewhere, or a severity is not text |
| AuditGate.Decide | tools/check_pnpm_audit_exceptions.py:142-243 | uncaught exactly then; exit code 0 exactly when nothing raises, every exception is well-formed, keys are distinct, and every high or critical named tuple is identified and covered by an unexpired exception of the right severity |
| AuditGate.PassesExactly | tools/check_pnpm_audit_exceptions.py:142-243 | exit code 0 is nothing raised and the tuples accepted |
| AuditMeaning.PassesMeans | tools/check_pnpm_audit_exceptions.py:142-243 | exit code 0 in the words of the files: which five fields an exception must fill, which two severities count, and that package texts are compared without surrounding white space, advisory and severity texts without it and without case, the severity being that of the first tuple about the finding |
| AuditMeaning.OneForOne | tools/check_pnpm_audit_exceptions.py:156-219 | one exception in force and one finding of its severity: accepted exactly when package texts agree after stripping and advisory texts after stripping and lower-casing |
| AuditWitness.CaseIsIgnored | tools/check_pnpm_audit_exceptions.py:142-243 | an exceptions file like the repository's, its advisory in capitals, covers the finding written in either case |
| AuditWitness.ExpiryIsNoticed | tools/check_pnpm_audit_exceptions.py:216-219 | and no longer does so once it has expired |
| AuditLaws.PassesEarlier | tools/check_pnpm_audit_exceptions.py:216-219 | for every exceptions file and audit, exit code 0 on one day is exit code 0 on every earlier day |
| AuditLaws.PassesWithMoreExceptions | tools/check_pnpm_audit_exceptions.py:156-219 | exit code 0 survives the lines of another well-formed exception with a fresh key, anywhere in the file where a record may begin |
| AuditOrder.ReportsAreOrderFree | tools/check_pnpm_audit_exceptions.py:191-219 | permuting or repeating tuples leaves the missing and expired keys unchanged |
| AuditOrder.VerdictIsOrderFree | tools/check_pnpm_audit_exceptions.py:191-219 | and the verdict too when severities agree per key |
| AuditOrder.EveryOrderExactly | tools/check_pnpm_audit_exceptions.py:191-219 | tuples are accepted in every order exactly when records are sound, no relevant tuple lacks an identifier, and every high or critical tuple has an unexpired exception that fits its own severity |
| AuditOrder.SomeOrderExactly | tools/check_pnpm_audit_exceptions.py:191-219 | they are accepted in some order exactly when under every key some tuple has one |
| AuditOrder.OrderFreeExactly | tools/check_pnpm_audit_exceptions.py:191-219 | the verdict is the same in all orders exactly when, if under every key some tuple has a fitting exception, every tuple has one |
| AuditOrder.OrderMattersWhenSeveritiesDiffer | tools/check_pnpm_audit_exceptions.py:203-215 | for any two tuples of one key with different severities, the exception naming one of them: passes with that one first, fails with the other first |
| AuditEntries.EveryEntryOrder | tools/check_pnpm_audit_exceptions.py:80-111 | tuples of the "vulnerabilities" entries, read after the advisories, pass in every order of the entries exactly when each high or critical one whose key no advisory has is excused by an exception for its own severity |
| AuditEntries.SomeEntryOrder | tools/check_pnpm_audit_exceptions.py:80-111 | they pass in some order exactly when no set of entries is stuck: each with an unexcused tuple whose key neither the advisories nor an excused tuple of an entry outside the set brings first |
| AuditDocuments.AdvisoryOrdersExactly | tools/check_pnpm_audit_exceptions.py:64-79 | for every exceptions file and every audit, with any other members and any "vulnerabilities" section left as it is: exit code 0 in all, and in some, orders of the advisories, exactly |
| AuditDocuments.EveryDocumentOrder | tools/check_pnpm_audit_exceptions.py:64-111 | for every exceptions file and every audit: exit code 0 in all orders of both sections exactly when nothing raises and every high or critical tuple, of the advisories or with a key no advisory has, has an unexpired exception that fits its own severity |
| AuditDocuments.SomeDocumentOrder | tools/check_pnpm_audit_exceptions.py:64-111 | exit code 0 in some order exactly when nothing raises, under every key of the advisories some tuple has a fitting exception, and no set of entries is stuck |
| AuditDocuments.DocumentOrderFree | tools/check_pnpm_audit_exceptions.py:64-111 | whether the gate ends with exit code 0 is the same for all orders of both sections exactly when the inputs fail the condition of SomeDocumentOrder or meet that of EveryDocumentOrder |
| AuditDocuments.EntriesOrderFree | tools/check_pnpm_audit_exceptions.py:80-111 | in any audit the order of the entries never matters while their package names differ beyond white space, because all tuples of an entry have one severity |
| AuditWitness.OrderMatters | tools/check_pnpm_audit_exceptions.py:203-215 | a concrete exceptions file and audit that end with exit code 0, and with errors when two advisories change places |

## Left out

- Proxy and usage-log edges: the same text as the parent and through-table loaders over other tables.
- Limits, offsets, modifiers, interceptors and `path` on queries; the soft-delete interceptor is part of a query's predicate here.
- Running the same query object twice, which would add the loaders' predicates again.
- Edges of the group query; groups are leaves.
- Two nodes with the same id in one load: the maps would keep the last one.
- SQL, drivers and the ent runtime are not part of this model; they are the assumptions above.
- InsertedRowsAreFaithful: hooks that edit the mutation after their continuation has returned are not modelled; for those, rows and nodes say what the mutations said when they were compiled.
- Hook: a hook that edits the mutation and then answers by itself is not expressible; the edit would show in the mutation and nowhere else.
- CreateSpec: the group, children and usage-log edges of an insert are absent; only fields and many-to-one keys are compiled.
- Check: a chain of conditions on values, as it only reads the mutation.
- Hooks that write to the database themselves, call their continuation twice, pass a foreign mutation type, or are nil.
- Conflict options, and the error a bulk builder may already carry.
- Column names: columns are numbered as in the entity's column list, and numbers beyond it are unknown names.
- Rounding of timestamps and decimals by the database, and the width of Go's `int`.
- Message texts, argument parsing and file reading of the gate.
