# A verified model of the miningpool-observer daemon

The daemon asks a Bitcoin node for block templates, keeps the recent ones, and compares them with each
block that is mined. What the two sides do not share is recorded: transactions left out, transactions
added, sets of conflicting transactions, and transactions that touch sanctioned addresses. A web server
reads these records back. The project models this logic in Dafny and proves what the parts promise to
each other. `dafny verify dfyconfig.toml` checks everything.

| module | what it holds |
|---|---|
| `Basics`, `Ledger` | byte order, integer casts, sorting, hash-set iteration; transactions, blocks, templates |
| `ConflictGraph` | the specification of conflict grouping: chains of outpoints, connected components, the partition invariant |
| `ConflictGrouping` | the grouping loop on mutable conflict sets, and the index of spent outpoints |
| `Packages` | package segmentation, weights and feerates |
| `TemplateBuffer` | the main loop as a step function against a failing node and a failing database, and properties of whole runs |
| `TemplateSelection` | the choice of a template and the rows that document it |
| `Sanctions` | sanction rules, the index of sanctioned outputs, address lists |
| `Records` | tags and the map of transaction records that all builders share |
| `Builders`, `SanctionedInfos` | the builders of rows, and the counts in the block row |
| `TagStore` | merging tags on insert, retagging, runs of both |
| `Store` | tables with primary and foreign keys, and the order of the inserts |
| `Processing` | one whole processing, from a block and the buffered templates to the tables |
| `MainLoop` | the loop itself on the real tables, shown to follow the step function round by round |
| `Readback`, `Paging`, `ConflictPages`, `MissingTransactions` | what the web server shows |

Conventions. A `HashSet` or a query without an order is visited in an arbitrary order (`Basics.Iterate`), so
every result holds for all orders. RPC answers, faults of the database, mempool ages and library functions
(script to address, decoding, the facts behind the tags) are parameters. Stored txids are byte-reversed and
`vout` columns are `i32`, as in the source. Foreign keys are those of the table definitions
(migrations/2021-02-21-100000_create_tables/up.sql:46-79 and 98-106).

Premises. They appear as preconditions where they are needed, and nowhere else:
- the node's txid of a template entry is the computed txid (`Builders.NodeTxidsMatch`); `Builders.LookupsNeverMiss`
  says exactly when lookups succeed without it;
- on each side an outpoint has one spender (`ConflictGrouping.SpentOnce`), used for independence of the order
  in which spenders are indexed, and for saying that every spender of a conflicting outpoint is in a set;
- for the counts of sanctioned transactions, a block has distinct txids and a txid stands for the same inputs
  and outputs on both sides;
- the node's fee answer covers the transactions of the block that is processed.

Where code and comment differ, the model follows the code: a comment (daemon/src/main.rs:537-547) says that
only templates generated before the block's timestamp are considered, while the code considers every
buffered template.

Findings. Each has an input that shows it and the exact condition under which the property does hold:
- A block that got its row, even if its processing then failed, is never completed later, because the second
  row is refused (`TemplateBuffer.FailedBlockIsRefused`). A processing completes exactly when the database holds and the row is new
  (`TemplateBuffer.CompletesIffRowIsNew`). One such failure on the tip path makes the next missed-block
  processing give up (`TemplateBuffer.FailureAfterRowLeadsToGivingUp`).
- An early return on the missed-block path mixes templates of different parents in the buffer, and a later
  comparison can then complete with a template of another parent
  (`TemplateBuffer.GivingUpSpoilsALaterComparison`). Comparisons are clean exactly when the buffer holds no
  more templates than were pushed since the parent last changed
  (`TemplateBuffer.ComparesTheParentIffTrailing`), and heights are accounted for exactly when there was no
  such early return (`TemplateBuffer.StoredHeightsAreAccountedFor`).
- Two templates with the same time share one stored selection row
  (`TemplateSelection.EqualTimesSpoilStoredRow`); the marked row is minimal exactly when the selected
  template is the oldest with its time (`TemplateSelection.StoredSelection`).
- An insert between the read and the write of a retag pass can lose the conflict tag
  (`TagStore.InterleavingLosesConflictTag`); when it does not is stated by `TagStore.InterleavedMerge`.
- Merging and retagging update a stored row's tags but never its `sanctioned` flag
  (`TagStore.StoredFlagFallsBehind`, `TagStore.RetaggedFlagFallsBehind`); when the flag still matches is stated
  by `TagStore.InsertKeepsFlagIff` and `TagStore.RetagKeepsFlagIff`.
- The paged query of missing transactions has ties in its order; twenty-six transactions left out of the same
  three blocks are enough to show one of them on two pages and another on none
  (`MissingTransactions.ExampleSpoilsPages`). Pages fit exactly when no tie lies across a boundary
  (`MissingTransactions.PagesOfAnswersFit`). The pages of blocks with conflicts have the same weakness for two
  blocks of one height (`ConflictPages.SameHeightSpoilsPages`, `ConflictPages.PagesOfAnswersFit`).

## Model

| member | source | states |
|---|---|---|
| `ConflictGraph.SameSetIffLinked` | daemon/src/processing.rs:920-1029 | in any partition that the loop keeps, a node is in the set of another if and only if a chain of outpoints spent on both sides links them |
| `ConflictGraph.PartitionIsComponents` | daemon/src/processing.rs:920-1029 | a partition holds exactly the connected components of the graph, each once |
| `ConflictGraph.PartitionsAgree` | daemon/src/processing.rs:920-936 | two partitions of one graph hold the same sets, so the visiting order leaves no trace |
| `ConflictGraph.CreateKeepsPartition` | daemon/src/processing.rs:972-978 | a new set for an edge that touches no set keeps groups linked, disjoint and covering |
| `ConflictGraph.ExtendKeepsPartition` | daemon/src/processing.rs:979-1000 | so does extending the only touched set |
| `ConflictGraph.MergeKeepsPartition` | daemon/src/processing.rs:1001-1028 | so does merging two touched sets into the first and removing the second |
| `ConflictGrouping.NoTwoEqual` | daemon/src/processing.rs:954-968 | no two sets are structurally equal, so `contains` by contents acts as identity |
| `ConflictGrouping.NoneEmpty` | daemon/src/processing.rs:1026-1028 | every set has template transactions, block transactions and outpoints |
| `ConflictGrouping.AtMostTwoMatch` | daemon/src/processing.rs:954-970 | at most two existing sets hold a spender of an outpoint |
| `ConflictGrouping.FindExisting` | daemon/src/processing.rs:954-968 | the search returns exactly the touched sets, in list order, each once |
| `ConflictGrouping.Conflict.constructor` | daemon/src/processing.rs:972-978 | a new set holds the two spenders and the outpoint |
| `ConflictGrouping.Extend` | daemon/src/processing.rs:979-1000 | the set gains the edge and holds each element once |
| `ConflictGrouping.Drain` | daemon/src/processing.rs:1004-1012 | both sets end up empty and nothing they held is lost |
| `ConflictGrouping.Merge` | daemon/src/processing.rs:1001-1024 | the first set holds the union without repeats and the second is drained |
| `ConflictGrouping.DrainedIsSwept` | daemon/src/processing.rs:1026-1028 | `retain` drops the drained set and no other |
| `ConflictGrouping.RepresentedNotEmpty` | daemon/src/processing.rs:1026-1028 | `retain` changes nothing when no set was drained, so repeating it is harmless |
| `ConflictGrouping.AddOutpoint` | daemon/src/processing.rs:936-1029 | one iteration turns a partition of the edges seen so far into one with the new edge |
| `ConflictGrouping.GroupConflicts` | daemon/src/processing.rs:934-1029 | for every order of the conflicting outpoints the loop returns exactly the connected components, in distinct new objects |
| `ConflictGrouping.IndexInputs` | daemon/src/processing.rs:885-917 | one transaction becomes the spender of each of its inputs and of nothing else |
| `ConflictGrouping.CollectSpenders` | daemon/src/processing.rs:885-917 | the index has exactly the outpoints spent on one side, each with one of its spenders |
| `Builders.FindConflicts` | daemon/src/processing.rs:870-1029 | the sets reported for two sides hold the components of their conflict graph; with one spender per outpoint they are the components of the only graph the sides have |
| `Builders.GraphIsUnique` | daemon/src/processing.rs:885-920 | with one spender per outpoint the graph depends on the two sides only |
| `Builders.ReportedAreComponents` | daemon/src/processing.rs:920-1029 | the reported sets are the connected components, each reported once |
| `Builders.ConflictSetsDoNotDependOnOrder` | daemon/src/processing.rs:920-936 | any two groupings of the same sides report the same sets of transactions and outpoints |
| `Builders.ConflictingSpendersAreGrouped` | daemon/src/processing.rs:920-1029 | the two spenders of an outpoint spent on both sides are in one set together with it |
| `Builders.SetMembersComeFromSides` | daemon/src/processing.rs:885-1029 | members of sets are transactions found on one side only, under their own txid |
| `Builders.BuildConflictRows` | daemon/src/processing.rs:1031-1108 | one row per set with reversed txids and cast outpoints; all members are recorded as conflicting |
| `Builders.BuildConflicting` | daemon/src/processing.rs:870-1112 | grouping, rows and records together |
| `Packages.BuildPackages` | daemon/src/processing.rs:337-391 | the packages, reversed, are a segmentation of the list: in each run whatever is not last has an output spent by a later member or shares a listed parent with one, the transaction before a run is tied to none of it, and the runs make up the list |
| `Packages.SegmentationUnique` | daemon/src/processing.rs:349-385 | a list has only one segmentation |
| `Packages.PackagesAreTheSegmentation` | daemon/src/processing.rs:349-385 | any segmentation of the list is the one that was built |
| `Packages.BelongsMeansLinked` | daemon/src/processing.rs:353-365 | the loop's test on collected txids says that the transaction is linked, by what is spent, to some member |
| `Ledger.PrevTxidsAreSpent` | daemon/src/model.rs:23-29 | a txid is collected if and only if some input spends one of its outputs |
| `Packages.LinkedNeighboursStayTogether` | daemon/src/processing.rs:353-372 | adjacent transactions that are linked are in one package |
| `Packages.ParentAndChildStayTogether` | daemon/src/processing.rs:353-362 | if a transaction spends any output of the one just before it, by whichever input, one package holds both |
| `Packages.SiblingsStayTogether` | daemon/src/processing.rs:363-372 | so do neighbours that both spend outputs of one transaction of the list |
| `Packages.MembersAreSpentTogether` | daemon/src/processing.rs:353-372 | a member that is not last in its package has an output spent by, or spends outputs of one listed transaction together with, a later member |
| `Packages.NeighboursAreSpentApart` | daemon/src/processing.rs:373-378 | the transaction just in front of a package does so with none of its members |
| `Packages.LengthIsConserved` | daemon/src/processing.rs:386-390 | package lengths sum to the length of the list, so the assertion cannot fail |
| `Packages.WeightIsConserved` | daemon/src/model.rs:43-49 | package weights sum to the weight of the list |
| `Packages.FeerateIsBetweenMembers` | daemon/src/model.rs:36-42 | a package's feerate lies between its cheapest and its dearest member's |
| `Packages.FeerateOfOne` | daemon/src/model.rs:36-41 | a package of one transaction pays that transaction's fee for its size |
| `Packages.WeightOfOne` | daemon/src/model.rs:43-49 | and weighs what it weighs |
| `TemplateBuffer.RowsOnlyGrow` | daemon/src/main.rs:662-668 | block rows are never lost during a run |
| `TemplateBuffer.RowsAreAccountedFor` | daemon/src/main.rs:662-668 | at any moment of any run a block has a row if and only if it had one at the start or an earlier processing got that far |
| `TemplateBuffer.CompletesIffRowIsNew` | daemon/src/main.rs:662-783 | whatever the chain does, a processing completes if and only if the database stores everything and the block had no row at the start and got none in this run |
| `TemplateBuffer.FailedBlockIsRefused` | daemon/src/main.rs:662-668 | a run in which a block whose processing failed behind its row is processed again with a working database and refused |
| `TemplateBuffer.BufferIsBounded` | daemon/src/main.rs:335-363 | on every run the buffer holds at most MAX_OLD_TEMPLATES plus the early returns on the missed-block path since the last clear; with none of these all templates share a parent |
| `TemplateBuffer.GaveUpIsCounted` | daemon/src/main.rs:472-483 | these early returns are the ones of the rounds after the last completion |
| `TemplateBuffer.BoundIsReached` | daemon/src/main.rs:472-483 | for every number of early returns some run reaches the bound |
| `TemplateBuffer.GivingUpMixesTemplates` | daemon/src/main.rs:472-483 | such an early return always leaves templates with different parents |
| `TemplateBuffer.BufferFitsChain` | daemon/src/main.rs:335-363 | over an append-only chain every buffered template fits the chain below the tip |
| `TemplateBuffer.NewBlockCompletesIff` | daemon/src/main.rs:365-523 | progress: in a round of an append-only run that brings a template above the buffered ones, a block is processed if and only if every call is answered, and the newest buffered height is completed if and only if moreover the database stores everything and its block had no row |
| `TemplateBuffer.CollectedHeightIsCompleted` | daemon/src/main.rs:312-523 | however many rounds fail before, the height being collected is completed by the first round that brings a new block, has its calls answered and a working database, unless its block had a row |
| `TemplateBuffer.TemplateJoinsBuffer` | daemon/src/main.rs:335-363 | in a round without a new block the template given becomes the newest buffered one, and only at the capacity the oldest one goes |
| `TemplateBuffer.ProcessesBlockAtNewestHeight` | daemon/src/main.rs:369-522 | over an append-only chain, with failures anywhere, the processed block is the one at the newest buffered template's height and parent |
| `TemplateBuffer.CompletedHeightsAreLeftBehind` | daemon/src/main.rs:335-522 | once a height is completed only higher templates are buffered |
| `TemplateBuffer.CompletedHeightsIncrease` | daemon/src/main.rs:356-522 | completed heights strictly increase, so no block is completed twice |
| `TemplateBuffer.GivingUpLosesAHeight` | daemon/src/main.rs:472-483 | the height given up on stays stored and is never completed or collected again |
| `TemplateBuffer.StoredHeightsAreAccountedFor` | daemon/src/main.rs:335-363 | over an append-only chain the stored heights are the completed ones plus the one being collected if and only if `process` never returned early on the missed-block path so far |
| `TemplateBuffer.SameParentIffTrailing` | daemon/src/main.rs:335-363 | on every run the buffered templates share a parent if and only if there are no more of them than were pushed since the parent last changed |
| `TemplateBuffer.ComparesTheParentIffTrailing` | daemon/src/main.rs:514-522 | over an append-only chain a comparison uses only templates built on the block's parent if and only if that holds, and these are templates for its height |
| `TemplateBuffer.ComparesTheParentAfterCleanClear` | daemon/src/main.rs:514-522 | in particular if nothing was given up since the buffer was last cleared |
| `TemplateBuffer.FailureAfterRowLeadsToGivingUp` | daemon/src/main.rs:662-783 | after a failure behind the block row on the tip path nothing completes until a missed block is given up on: every processing up to then is of the same block and is refused |
| `TemplateBuffer.GivingUpSpoilsALaterComparison` | daemon/src/main.rs:472-483 | a concrete append-only run where the premise fails and a completed comparison uses a template of another parent |
| `TemplateSelection.SelectBest` | daemon/src/main.rs:785-800 | the selected template minimises missing plus extra, and every older one differs more; what is counted is stated by `TemplateSelection.CountsAreOfCollected` |
| `TemplateSelection.CountsAddUp` | daemon/src/processing.rs:1133-1155 | shared plus missing is the number of different txids of the template, shared plus extra that of the block |
| `TemplateSelection.CountsAreOfCollected` | daemon/src/main.rs:791-798 | missing and extra of a template are the differences between its decoded transactions and the block if and only if every entry decodes, or has the txid of one that does |
| `TemplateSelection.SelectedDiffersLeast` | daemon/src/main.rs:785-800 | so among templates that decode none differs less from the block, transaction by transaction, and every older one differs more |
| `TemplateSelection.CountsCoverEntries` | daemon/src/processing.rs:1133-1155 | shared plus missing is the number of entries of the template if and only if no node txid is listed twice |
| `TemplateSelection.ExactlyOneRowIsSelected` | daemon/src/processing.rs:1133-1155 | with distinct times exactly the selected template's row is marked, and it is minimal |
| `TemplateSelection.FirstRowStays` | daemon/src/db.rs:174-184 | of several rows with one time the first one is stored |
| `TemplateSelection.StoredSelection` | daemon/src/db.rs:174-184 | whatever the times, exactly one stored row is marked; it is minimal if and only if the selected template is the oldest with its time |
| `TemplateSelection.EqualTimesOccur` | daemon/src/main.rs:472-484 | a truthful run over an append-only chain that buffers two templates of one second, because the missed-block path does not sleep |
| `TemplateSelection.EqualTimesSpoilStoredRow` | daemon/src/processing.rs:1133-1155 | for these two the stored marked row is not minimal |
| `Sanctions.IndexHoldsRows` | daemon/src/processing.rs:62-73 | the index has an entry for every row's outpoint, and only rows under their own outpoint |
| `Sanctions.BuildNewUtxos` | daemon/src/processing.rs:586-618 | exactly the outputs of the block that pay a sanctioned address |
| `Sanctions.NewUtxoShowsOutput` | daemon/src/processing.rs:596-613 | a new row leads back to the outpoint of an output of the block that pays a listed address, and has its script, value and height |
| `Sanctions.PaidOutputHasRow` | daemon/src/processing.rs:596-613 | every output of the block that pays a listed address has such a row |
| `Sanctions.ToSanctionedMeansListed` | daemon/src/processing.rs:84-93 | a transaction is to-sanctioned if and only if the address of some output is on the list |
| `Sanctions.InsertUtxosKeeps` | daemon/src/db.rs:142-152 | an insert loses and changes no row and leaves a row for every key inserted |
| `Sanctions.SpenderIsFromSanctioned` | daemon/src/processing.rs:95-106 | between rescans, spending an output that paid a sanctioned address in a stored block counts as from-sanctioned |
| `Sanctions.TxAddressesTo` | daemon/src/processing.rs:126-139 | the collected addresses are on the list, and a listed address is collected if and only if an output pays it |
| `Sanctions.TxAddressesFrom` | daemon/src/processing.rs:141-160 | the collected addresses are exactly those of indexed outputs that are spent |
| `Sanctions.TxSanctionedAddresses` | daemon/src/processing.rs:108-124 | the list is strictly sorted and has exactly the addresses of both kinds |
| `Sanctions.AddressListIsUnique` | daemon/src/processing.rs:108-124 | the list does not depend on hash-set order |
| `Sanctions.AddressListIsEmpty` | daemon/src/processing.rs:75-160 | the list is non-empty if and only if a sanctioned address is paid or an indexed output with an address is spent |
| `Sanctions.SanctionedIffAddresses` | daemon/src/processing.rs:75-160 | if every indexed script has an address, a transaction is sanctioned if and only if its list is non-empty |
| `Sanctions.NewUtxosHaveAddresses` | daemon/src/processing.rs:596-613 | storing newly created outputs keeps that condition |
| `Records.TagsAreDistinct` | daemon/src/processing.rs:189-315 | a transaction's tags do not repeat |
| `Records.ImportantTags` | daemon/src/processing.rs:189-240 | the conflicting, to-sanctioned and from-sanctioned tags are present exactly when their reasons hold |
| `Records.TransactionMap.Add` | daemon/src/processing.rs:849-868 | a known transaction gains the new tags, an unknown one is added, nothing else changes |
| `Records.TagsAreUnions` | daemon/src/processing.rs:849-868 | a tag set is the union of all tags added for the transaction |
| `Records.MergingDoesNotRepeat` | daemon/src/processing.rs:855-864 | however often tags are merged, no row repeats a tag |
| `Records.TagsDoNotDependOnOrder` | daemon/src/processing.rs:849-868 | adding the same records in another order gives the same transactions with the same tag sets |
| `Records.RequestsDecideRecord` | daemon/src/processing.rs:393-431 | a requested transaction has a record if and only if it decodes, with the fee and size of its entry; conflicting if and only if some request says so; sanctioned if and only if it has one of the two tags |
| `Builders.BuildBlockTxData` | daemon/src/processing.rs:620-650 | entries are filed under their txids, each with its place in the block and the fee the node gives for it |
| `Builders.BuildTemplateTxData` | daemon/src/processing.rs:652-684 | exactly the decoded entries are collected; the map is keyed by the node's txid, the set by the computed one |
| `Builders.MatchingTxidsAreWellKeyed` | daemon/src/processing.rs:652-684 | with matching txids set and map have the same keys, so no lookup can panic |
| `Builders.LookupsNeverMiss` | daemon/src/processing.rs:802-825 | lookups by computed txid never miss if and only if each is the node's txid of some decoded entry |
| `Builders.AddTransaction` | daemon/src/processing.rs:455-470 | a transaction that does not decode is skipped, any other is merged into the shared map |
| `Builders.BuildOnlyInBlock` | daemon/src/processing.rs:433-476 | one row per transaction with the place of its entry, and one request for a record each |
| `Builders.BuildOnlyInTemplate` | daemon/src/processing.rs:802-847 | the same with the mempool age given for the transaction, or -1 if it is unknown |
| `SanctionedInfos.BuildInfos` | daemon/src/processing.rs:490-535 | exactly the sanctioned transactions that decode get a row, with flags and sorted addresses |
| `SanctionedInfos.BuildSanctionedInfos` | daemon/src/processing.rs:478-584 | the template's rows first, then those of transactions found only in the block |
| `SanctionedInfos.SanctionedCountsAgree` | daemon/src/processing.rs:745-780 | each of `template_sanctioned`, `sanctioned_missing_tx` and `block_sanctioned` equals the number of matching rows if and only if the sanctioned transactions it counts decode |
| `SanctionedInfos.BlockCountByTxid` | daemon/src/processing.rs:745-751 | counting over the block's list is counting distinct sanctioned txids |
| `SanctionedInfos.InfoKeysDoNotRepeat` | daemon/src/processing.rs:478-584 | no transaction gets two rows for one block |
| `TagStore.TagTable.InsertNew` | daemon/src/db.rs:40-47 | rows that exist are skipped, and exactly the new txids are returned |
| `TagStore.TagTable.InsertTransactions` | daemon/src/db.rs:35-80 | on success every record is merged; after a fault at any statement the table is the old one or has a prefix of the merges |
| `TagStore.InsertUnitesTags` | daemon/src/db.rs:49-77 | a stored tag set becomes the union of old and new, strictly sorted unless they were equal; other rows stay |
| `TagStore.InsertTwiceIsOnce` | daemon/src/db.rs:40-77 | a second insert changes no tag set |
| `TagStore.AddAllGrows` | daemon/src/db.rs:40-77 | no row disappears or loses a tag |
| `TagStore.AppendOldTags` | daemon/src/main.rs:1025-1029 | the loop appends exactly the old tags that are missing |
| `TagStore.RetagOne` | daemon/src/main.rs:1014-1056 | one row of the pass: written exactly when the sorted tags change and the update is not refused |
| `TagStore.RetagPass` | daemon/src/main.rs:1009-1070 | every row is retagged unless its update fails, with one write for each row that needs one |
| `TagStore.RetaggedIsUnion` | daemon/src/main.rs:1022-1036 | the row ends up with the old and the computed tags |
| `TagStore.SecondPassWritesNothing` | daemon/src/main.rs:1022-1036 | after a pass the row needs no write |
| `TagStore.SecondRetagPass` | daemon/src/main.rs:1009-1070 | after a pass exactly the rows whose update failed still need a write, so with none of these a second pass writes nothing |
| `TagStore.TagsOnlyGrow` | daemon/src/main.rs:1022-1036 | over any run of inserts and retag passes, interrupted or with failing updates, no row loses a tag |
| `TagStore.TagsNeverRepeat` | daemon/src/main.rs:1022-1036 | nor does a row ever repeat a tag |
| `TagStore.InterleavedMerge` | daemon/src/main.rs:1022-1036 | with an insert between the read and the write of a row, the table loses no tag if and only if the row is not written or the inserted tags are among the ones read and the computed ones |
| `TagStore.InterleavingLosesConflictTag` | daemon/src/main.rs:1022-1036 | a stored row, an inserted record and a retag pass whose overlap loses the conflict tag |
| `TagStore.InsertKeepsFlagIff` | daemon/src/db.rs:49-77 | after an insert the flag of a row matches its tags if and only if the transaction was not stored as unsanctioned and inserted as sanctioned |
| `TagStore.StoredFlagFallsBehind` | daemon/src/db.rs:49-77 | a stored and an inserted record after which it does not |
| `TagStore.RetagKeepsFlagIff` | daemon/src/main.rs:1022-1036 | after a retag pass it matches if and only if the row had the flag, was not written, or the computed tags do not say sanctioned |
| `TagStore.RetaggedFlagFallsBehind` | daemon/src/main.rs:1022-1036 | a row and a retag pass after which it does not |
| `Store.Database.InsertBlock` | daemon/src/db.rs:27-33 | accepted if and only if hash and id are new and the connection holds; references stay closed |
| `Store.Database.InsertOnlyInBlock` | daemon/src/db.rs:82-91 | accepted if and only if all transactions exist, and then all rows are in |
| `Store.Database.InsertOnlyInTemplate` | daemon/src/db.rs:93-102 | the same for transactions found only in the template |
| `Store.Database.InsertInfos` | daemon/src/db.rs:104-113 | the same for sanctioned transactions |
| `Store.Database.InsertConflicts` | daemon/src/db.rs:115-125 | conflict rows, which no constraint ties to transactions, still refer only to stored ones |
| `Store.AdmittedIffKnown` | migrations/2021-02-21-100000_create_tables/up.sql:46-70 | for a new block the keys admit rows exactly when their transactions are known, and closure is kept |
| `Store.ConflictsAdmitted` | migrations/2021-02-21-100000_create_tables/up.sql:72-79 | once all link rows are stored, the conflict rows are admitted and refer to stored transactions |
| `Store.Database.StoreTransactions` | daemon/src/main.rs:736-741 | transactions first; even an interrupted insert loses no tag, repeats none, and keeps references closed |
| `Store.Database.StoreLinks` | daemon/src/main.rs:736-759 | then the rows that refer to them; without a fault they go in if and only if every linked transaction is known |
| `Store.Database.StoreConflicts` | daemon/src/main.rs:760-780 | conflict rows, new sanctioned outputs and selection rows follow; wherever it stops, the first two are stored as a whole or not at all, and a fault at the last comes too late for the outputs |
| `Store.Database.StoreBundle` | daemon/src/main.rs:736-782 | references are closed at every exit, and what got stored of conflicts, outputs and rows of left-out transactions is known; without a fault all tables get their rows if and only if every linked transaction is known |
| `Processing.RequestsAreDrawn` | daemon/src/processing.rs:433-584 | every builder asks for a transaction by the same entry of its txid |
| `Processing.TagsAfterAllBuilders` | daemon/src/processing.rs:1070-1108 | after all builders a record has the conflicting tag if and only if its txid is in some conflict set, and is sanctioned if and only if it has one of the two sanction tags |
| `Processing.OneSidedRecord` | daemon/src/processing.rs:433-476 | a transaction found on one side only has a record if and only if it decodes |
| `Processing.BuildRows` | daemon/src/main.rs:670-719 | the builders in their order yield rows and records that all stem from the two sides |
| `Processing.ConflictKeysDiffer` | daemon/src/processing.rs:1031-1068 | two conflict sets of one block never have the same key |
| `Processing.BuiltIsWellFormed` | daemon/src/main.rs:670-750 | what the builders produce violates no key, and conflict members have link rows |
| `Processing.LinksKnownIffDecoded` | daemon/src/main.rs:742-753 | all linked transactions are known if and only if each one-sided transaction decodes or is already stored |
| `Processing.ReadRules` | daemon/src/main.rs:607-625 | an unreadable table counts as empty, otherwise every stored output is indexed |
| `Processing.CollectData` | daemon/src/main.rs:535-550 | both sides are well keyed, and the template is the selected one |
| `Processing.BuildAndStore` | daemon/src/main.rs:670-780 | references stay closed; without a fault it completes if and only if each one-sided transaction decodes or is stored |
| `Processing.StoreComparison` | daemon/src/main.rs:662-780 | the block row comes first; without it nothing changes at all, with it the rows are those of the block, and which of them are stored is known at every exit |
| `Processing.Process` | daemon/src/main.rs:526-783 | references closed and no tag lost at every return; exactly when it completes; the whole new state if it does, and the blocks, conflicts, outputs and left-out transactions if it does not; what the rows of a new block tell (`Processing.WhatRowsTell`); every outcome is one that the main-loop model allows for |
| `Processing.WhatRowsTell` | daemon/src/main.rs:535-719 | the block row has the sizes of the block and of the selected template, its missing and extra are the numbers of rows of transactions left out and added, and with shared they make up the two sides; each of these rows leads back to the transaction at its position, with the age the node gave; each record has the fee and size of its transaction; each new output row those of its output |
| `Processing.SelectionAgreesWithBlockRow` | daemon/src/processing.rs:1133-1155 | the selection row of the selected template has the differences of the block row if and only if every entry decodes, or has the txid of one that does |
| `Processing.BlockRowCoversBlock` | daemon/src/processing.rs:729-745 | shared plus extra is the number of transactions of the block if and only if no txid repeats |
| `Processing.BlockRowSanctionCounts` | daemon/src/processing.rs:745-780 | each of the three sanction counts of the block row equals the number of matching info rows if and only if the sanctioned transactions it counts decode |
| `Processing.StoredRowsDocumentSelection` | daemon/src/main.rs:729-781 | the selection rows of a completed processing have exactly one marked row, which is minimal if and only if the selected template is the oldest with its time |
| `Processing.LaterRulesSeeStoredOutputs` | daemon/src/main.rs:616-625 | over consecutive steps on the table, rules read later make every spender of an output stored earlier count as from-sanctioned |
| `MainLoop.Daemon.CallProcess` | daemon/src/main.rs:514-522 | the templates are cleared exactly on completion, and the outcome is one the step function allows for |
| `MainLoop.Daemon.ProcessBlock` | daemon/src/main.rs:472-484 | after a missed block the current template is pushed even if the processing failed |
| `MainLoop.Daemon.Iterate` | daemon/src/main.rs:312-523 | one round of the loop, with the real processing, is a step of the step function; references stay closed and no tag is lost |
| `MainLoop.Run` | daemon/src/main.rs:306-524 | any number of rounds is a run of the step function, so everything stated about runs holds of the loop; what each round did to the tables, and with which answers, is on record |
| `MainLoop.LoopCompletesNewBlock` | daemon/src/main.rs:365-523 | progress of the loop itself: in a round that brings a new block and has its calls answered the block at the newest buffered height is compared, and if nothing fails in the database its height is completed if and only if the block had no row and every transaction found on one side only decodes or is stored |
| `MainLoop.StoredHeightIsOfBlock` | daemon/src/processing.rs:729-731 | after a comparison with templates of the block's parent alone, the height in the block row is the block's own |
| `MainLoop.LaterSpendersAreFromSanctioned` | daemon/src/main.rs:765-773 | over a run of the loop without a rescan, once a block's outputs are stored, even by a processing that then failed, their spenders count as from-sanctioned in every later comparison that can read the table |
| `Readback.ConflictsOfBlock` | web/src/db.rs:231-311 | while references are closed no `unwrap` fails, and every conflict row of the block is read once |
| `Readback.ConflictsOfBlocks` | web/src/db.rs:195-225 | the same for each of several blocks |
| `Readback.ReadRowUndoesRowOf` | web/src/db.rs:279-306 | reading a row gives back the transactions and outpoints of the set it was written for |
| `Readback.RowsOfNewBlock` | daemon/src/processing.rs:1031-1068 | the rows found for a new block are exactly the ones stored |
| `Readback.LaterRoundsLeavePage` | web/src/db.rs:242-248 | once a block has its row, later rounds of the loop, failed or not, leave that row and the block's conflict rows alone |
| `Readback.PageShowsConflictSets` | web/src/db.rs:279-306 | at any later moment of a run of the loop the page of a block whose processing completed shows every conflict set of the comparison and nothing else |
| `ConflictPages.CountQueryCountsBlocks` | web/src/db.rs:131-135 | the count of different block ids is the number of blocks that the paged query lists |
| `ConflictPages.DatabaseRefers` | daemon/src/db.rs:115-125 | the tables that the daemon leaves behind meet the premise of these results |
| `ConflictPages.CountMatchesPages` | web/src/db.rs:227-228 | so the page count is the number of pages that the paged query needs |
| `ConflictPages.PagesOfAnswersFit` | web/src/db.rs:117-128 | pages of different evaluations fit together if and only if no two listed blocks of one height lie across a boundary |
| `ConflictPages.SameHeightSpoilsPages` | web/src/db.rs:117-128 | tables with two such blocks where two evaluations disagree |
| `ConflictPages.PageBlocks` | web/src/db.rs:165-172 | exactly the blocks of the page, the latest id first |
| `ConflictPages.ConflictPage` | web/src/db.rs:182-229 | each block of the page with its conflict sets, at least one, and no `unwrap` fails |
| `Paging.PagesMakeUpListing` | web/src/db.rs:527-530 | the pages up to the page count make up one answer of the query, and exactly these are non-empty |
| `Paging.KeysAgree` | web/src/db.rs:439-443 | all answers have the same sort keys at the same places, however ties are broken |
| `Paging.PrefixesAgree` | web/src/db.rs:439-443 | without a tie at a boundary all answers have the same elements before it |
| `Paging.TieShowsTwice` | web/src/db.rs:439-443 | a tie across a boundary lets two evaluations show one element twice and another one never |
| `Paging.PagesFitIffNoTie` | web/src/db.rs:439-443 | pages of any two evaluations have the same contents if and only if no tie lies across a page boundary |
| `MissingTransactions.JoinIsOneToOne` | web/src/db.rs:427-438 | joined rows, counted link rows and blocks of a transaction are equally many, by the two keys |
| `MissingTransactions.GroupsAreLeftOutOften` | web/src/db.rs:422-443 | the groups of the paged query are the transactions left out of more than two blocks |
| `MissingTransactions.AnswersIffAdmitted` | web/src/db.rs:427-438 | a transaction is in an answer if and only if more than two of its rows are neither of empty blocks, nor behind the cut-off, nor outside the window |
| `MissingTransactions.LatestFirst` | web/src/db.rs:439-443 | the transactions come by the latest block that left them out, the latest first |
| `MissingTransactions.CountQueryCountsGroups` | web/src/db.rs:445-466 | the count query counts exactly the groups of the paged query |
| `MissingTransactions.CountMatchesPages` | web/src/db.rs:527-530 | the page count that comes from the count query is the number of pages that the paged query needs |
| `MissingTransactions.PagesOfAnswersFit` | web/src/db.rs:422-443 | pages of this query fit together if and only if no two groups across a boundary have the same latest block |
| `MissingTransactions.LeftOutTogetherSpoilsPages` | web/src/db.rs:422-443 | transactions left out of the same blocks, wherever they stood in front of the cut-off, spoil paging as soon as they do not fit one page |
| `MissingTransactions.ExampleSpoilsPages` | web/src/db.rs:422-443 | closed tables with three blocks and twenty-six transactions where two evaluations disagree |
| `MissingTransactions.HistoryFor` | web/src/db.rs:495-518 | every block a transaction is missing from is listed once, the highest first; no block lookup fails |
| `MissingTransactions.MaxHeight` | web/src/model.rs:31-33 | the height of the highest listed block |
| `MissingTransactions.MissingPage` | web/src/db.rs:480-532 | the page shows exactly its transactions, each once with its record and history, by falling height, and no `unwrap` fails |
| `MissingTransactions.PageShowsPlaces` | web/src/db.rs:495-518 | at any later moment of a run of the loop: of every block that got its row in the run the page shows the height and the size of the selected template, and for each transaction the place it had there and its mempool age |
| `MissingTransactions.PageShowsBlock` | daemon/src/main.rs:750-753 | a transaction that a completed comparison found missing is shown with that block |
| `MissingTransactions.DatabaseIsClosed` | web/src/db.rs:540-576 | the tables that the daemon leaves behind meet the page's premise, unique block ids included |

## Left out

- RPC, HTTP, logging, metrics, sleeping and configuration: only outcomes (an answer or a failure) are kept.
- Library code (`RawTxInfo`, `Address::from_script`, pool identification, sigops, txid hashing): function-valued parameters.
- The individual tag predicates other than the three about conflicts and sanctions: finite case lists, given as `Records.TagFacts`.
- Rounding of `f32`/`f64` feerates and page counts: exact rationals and exact division are used.
- Truncation of counts, fees and heights to `i32`/`i64` columns: values stay unbounded, except for `vout`.
- Columns of the block row that are only copied (coinbase values, weights, package feerates, pool, times).
- Record columns that are only copied (inputs, outputs, output sum, sigops).
- The UTXO rescan (`clean_and_insert_sanctioned_utxos`) and its overlap with the main loop: the results about stored outputs are for the time between rescans.
- Overlap of the retag thread with the main loop, beyond `TagStore.InterleavedMerge`.
- Reorgs in the properties over append-only chains; the bound of the buffer, `TemplateBuffer.CompletesIffRowIsNew` and `TemplateBuffer.SameParentIffTrailing` hold for any chain.
- `single_missing_transaction`, `missing_sanctioned_txns_for_block` and the queries on pools: lookups, joins and aggregates without a rule of their own.
