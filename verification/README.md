# A verified model of CypherLite

CypherLite is an embedded graph database. This project models three parts of it in Dafny and
proves what they promise. `dafny verify dfyconfig.toml` checks everything.

## What is modelled

**The storage engine** keeps the same data in several places: node and edge stores, property
indexes, version chains, a membership index, a reverse index of hyperedges, and chained 4 KB
pages that are written through a write-ahead log.

- `Graph`, `Pages`: values, records with the sizes of their serialized forms, pages, the main
  file, the log, the header's page count and chain roots, and the cached last page of each
  family. `ReadDataPage` returns a cached page or the main file's copy, which may be behind.
- `PageChains`, `PageLogs`, `StoredLogs`: who owns a page, and a chain as the log of its records.
- `Ordering`, `ValueOrder`: the comparison that keys an index and the order written out, type by
  type, that it is proved to be. `Indexes`, `IndexProofs`: index managers, backfill.
- `Links`, `Subgraphs`, `HyperEdges`, `Versions`, `Tables`: the small stores and their replay.
- `Engine`: the whole state, eighteen operations (`Op`), `Step` and `Run`, including clean close
  and open (`Reopening`). Opening starts with empty index managers, as the code does.
- `Durability`, `DurableSteps`, `Reload`: the data on pages, kept alongside every run, and when
  it is all the data there is. `StaleRewrites`: a run that loses a node.
- `GraphMachine`, `Refinement`: what the engine is for, as a small machine that has only the graph
  in use and the graph that would come back, and the proof that the engine is that machine over
  every run.
- `IndexRuns`, `RangeQueries`, `ValueEquality`, `Cascades`, `SecondIndex`, `Sessions`, `Attached`,
  `RunFacts`, `Temporal`: theorems about whole runs. A session is what happens between an open and
  the next close.
- `PageFiles`, `IndexManagers`, `StorageEngines`: classes that change their fields in place, with
  the loops of the code. Every engine method is proved to do what `Step` says, so what is proved
  of runs holds of sequences of method calls.

A rewrite replaces one record of a page. It is safe (`PageLogs.RewriteSafe`) when the page it
reads is up to date apart from that record and the rebuilt records fit. A current page, or one
that a checkpoint has written since its last frame, is always up to date (`PageLogs.FreshIsSafe`).

A floating-point property value is its 64 bits. An index finds values by the total order of
IEEE 754, the linear scan by `==`, for which no NaN equals anything and the two zeros are equal.
So the two do not always agree, and `ValueEquality` says exactly when.

**The query language.** `Syntax`, `Grammar`, `Patterns` and `Clauses` are functions on tokens;
`ExpressionParser`, `PatternParsers` and `ClauseParsers` are classes that move a cursor and are
proved equal to them. `Printer` writes an expression with parentheses only where binding powers
need them, and names in backticks. `Precedence` is the expression grammar in nine layers, without
binding powers, and `LayeredParsing` proves that the parser reads it. `ClausePrinter` writes
patterns and clauses out, keyword by keyword, in every style the parser takes;
`PatternRoundTrip`, `ClauseRoundTrip` and `ParsedClauses` prove that they read back.
`ClauseGrammar` says which tokens are which clause, and `AcceptedClauses` that the parser accepts
nothing else. `Consumption`, `Locality`, `PatternLocality` and
`ClauseLocality` say what a parser consumes and looks at, `Queries` what that means for a whole
query. `StringLiterals` is the lexer's unescaping loop.

**Dates, timestamps and evaluation.** `Calendar` has both halves of the date conversion,
`Timestamps` the text form (section 5.6 of RFC 3339), `TimestampTexts` what that text says, place
by place, `Evaluation` the three-valued connectives, null tests and negation, and `Temporal` the reader of a property at a point in time.

Where the code and its documentation differ, the model follows the code:

- `crates/cypherlite-query/src/parser/expression.rs:13` calls comparisons non-associative. With
  powers (5, 6) they associate to the left.
- The layers of that table are not all the parser reads: it also takes NOT after a comparison or an
  arithmetic operator, and arithmetic or a property after IS NULL (`LayeredParsing.BeyondTheGrammar`).
- `crates/cypherlite-storage/src/lib.rs:1185` asserts, in debug builds, that a fresh page has room
  for any record. A record of more than 4082 bytes is dropped (`FitsPage`).
- The documentation of the temporal reader (`crates/cypherlite-query/src/executor/eval.rs:370-374`)
  says it finds the version closest to the time. From the last update on it reads the state
  before that update, because the current state is only a fallback (`Temporal.ResolvesExactly`).
- The documentation of the property scan (`crates/cypherlite-storage/src/lib.rs:573-576`) offers
  the index as a fast path to the same answer. For values with a NaN or a zero of floating point it
  may give another one (`ValueEquality.TellingTells`).
- The comments in `days_from_civil` (`crates/cypherlite-query/src/executor/eval.rs:772-773`) give
  ranges for the day of the year and of the era. The parser lets day 31 through in every month, and
  2000-02-31 goes past both (`Calendar.ParsingRanges`).

## Model

| member | source | states |
|---|---|---|
| Reload.ReloadRestoresExactly | crates/cypherlite-storage/src/lib.rs:955-1765 | After every run of safe rewrites that is plain, close and open gives back all nodes, edges, version chains, subgraphs with members, hyperedges and both link indexes. One more safe operation keeps it so if and only if that operation is plain: its records fit a page, it deletes no node with edges, and takes away no member, subgraph or hyperedge |
| Reload.ReloadIsDurable | crates/cypherlite-storage/src/lib.rs:955-1765 | After every run whatever, a load finds exactly the versions, subgraphs and hyperedges on pages; after every run of safe rewrites also the nodes and edges, and the rebuilt page map names, for each node, the one page of the chain that holds a record of it |
| Refinement.EngineIsMachine | crates/cypherlite-storage/src/lib.rs:112-848 | Over every run of safe rewrites from a new database, close and open included and whether or not the records fit, the engine has the nodes, edges, subgraphs, members, hyperedges, next ids and index definitions that the machine has, and what close and open would bring back is what the machine has saved |
| Refinement.SessionIsMachine | crates/cypherlite-storage/src/lib.rs:239-848 | Between open and close the same holds of the data in use over every run, safe or not |
| Refinement.StepAgrees | crates/cypherlite-storage/src/lib.rs:239-848 | Each operation changes the data in use as the machine does and nothing else of it |
| Refinement.StepSaved | crates/cypherlite-storage/src/lib.rs:1143-1203 | Each operation saves what the machine saves: deletions of nodes and edges, but not the cascade, and no removal of members, subgraphs or hyperedges |
| Refinement.MembershipsAreMembers | crates/cypherlite-storage/src/lib.rs:780-788 | In every reachable state the memberships listed for a node are the subgraphs that list it as a member |
| Reload.StepKept | crates/cypherlite-storage/src/lib.rs:239-848 | Every operation keeps the page chains, the page maps and the logs in step with the data on pages |
| Reload.StepRestores | crates/cypherlite-storage/src/lib.rs:239-848 | From a state whose data is all on pages, one operation leads to another such state if and only if it is plain |
| Reload.RunKept | crates/cypherlite-storage/src/lib.rs:112-848 | The correspondence between memory and pages holds in every reachable state |
| DurableSteps.ReopenKept | crates/cypherlite-storage/src/lib.rs:170-231 | Closing and opening gives the data on pages and starts from a state that corresponds to its pages |
| DurableSteps.UpdateNodeKept | crates/cypherlite-storage/src/lib.rs:270-311 | An update appends the old state to the version log and replaces one record in the node log; without a safe page only the node chain is given up |
| DurableSteps.DeleteNodeKept | crates/cypherlite-storage/src/lib.rs:315-337 | A delete writes a tombstone for the node; the edges it removes from memory stay on pages |
| DurableSteps.AddMemberKept | crates/cypherlite-storage/src/lib.rs:740-760 | Adding a member appends the full subgraph record, and loading it has the effect of the addition |
| Tables.LoadFindsTable | crates/cypherlite-storage/src/lib.rs:955-993 | Loading a log with distinct ids keeps each id's record unless it is a tombstone, and maps it to its page |
| Tables.ReplaceKeepsTable | crates/cypherlite-storage/src/lib.rs:1269-1327 | Replacing one record of a log changes the table at that id only |
| StaleRewrites.StaleRewriteLoses | crates/cypherlite-storage/src/lib.rs:1289-1327 | In any state that safe rewrites lead to, whatever its catalog, updating or deleting a node whose page is neither current nor checkpointed since it was allocated wipes the page: after close, catalog save included, and open there are exactly the nodes on earlier pages of the chain, as they were on pages |
| StaleRewrites.UpdateLosesNode | crates/cypherlite-storage/src/lib.rs:889-924 | A run that reaches such a state with any catalog: two large nodes, no checkpoint, the first updated, and both are lost |
| PageLogs.RewriteExactly | crates/cypherlite-storage/src/lib.rs:1289-1327 | A rewrite changes its one record and keeps the rest of the page and its link if and only if it is safe |
| PageLogs.FreshIsSafe | crates/cypherlite-storage/src/lib.rs:889-924 | On a current or checkpointed page a rewrite is safe if and only if the rebuilt records fit |
| PageLogs.AppendAddsToLog | crates/cypherlite-storage/src/lib.rs:1143-1203 | An append adds one record at the end of its family's log, on the page it reports, or none if the record is too large for a page |
| PageLogs.AppendGrowsExactly | crates/cypherlite-storage/src/lib.rs:1143-1203 | The file grows by a page if and only if the family has no page in use or its records and the new one, with two bytes before each, take more than the 4084 bytes of a page; else only the page in use is written |
| PageLogs.AppendElsewhere | crates/cypherlite-storage/src/lib.rs:1143-1203 | An append leaves the chains and logs of other families alone |
| PageLogs.RewriteChain | crates/cypherlite-storage/src/lib.rs:1269-1327 | A safe rewrite keeps the chain and changes one entry of its log |
| PageLogs.RewriteElsewhere | crates/cypherlite-storage/src/lib.rs:1269-1327 | Any rewrite leaves the chains and logs of other families alone |
| PageLogs.LoadFindsLog | crates/cypherlite-storage/src/lib.rs:955-993 | After a checkpoint a load finds exactly the log of the chain |
| PageLogs.ReopenKeepsLog | crates/cypherlite-storage/src/lib.rs:1749-1765 | Close and open keeps every chain and every log |
| PageLogs.CatalogRoundTrip | crates/cypherlite-storage/src/lib.rs:1046-1140 | The catalog bytes saved at close are the bytes found at open, for every byte string but the empty one, which is not saved |
| PageLogs.CatalogKeepsLog | crates/cypherlite-storage/src/lib.rs:1046-1103 | Saving the catalog disturbs no data chain |
| PageChains.OwnedAppend | crates/cypherlite-storage/src/lib.rs:1143-1203 | After an append every copy of every page still belongs to one family and points to later pages of that family |
| PageChains.OwnedRewrite | crates/cypherlite-storage/src/lib.rs:1269-1327 | The same after any rewrite, safe or not |
| PageChains.OwnedReopened | crates/cypherlite-storage/src/lib.rs:955-990 | The same after close and open |
| PageChains.OwnedSaveCatalog | crates/cypherlite-storage/src/lib.rs:1046-1103 | The same after the catalog is saved |
| PageChains.ReadIsOwnCopy | crates/cypherlite-storage/src/lib.rs:889-924 | A page read through the caches is a copy of that page from its own family |
| RunFacts.ChainsStayWellFormed | crates/cypherlite-storage/src/lib.rs:889-990 | In every reachable state no page points back and every chain ends at a page without successor, in the main file and with the log applied; and a page that is on a family's chain in either, or in its cache, is on no other family's chain in either and in no other family's cache |
| RunFacts.ReverseIndexIsScan | crates/cypherlite-storage/src/lib.rs:800-860 | In every reachable state, reloads included, the reverse index lists for a raw id exactly the stored hyperedges with that id among their sources or targets |
| RunFacts.SubgraphsReplayExactly | crates/cypherlite-storage/src/lib.rs:1391-1492 | If no member or subgraph is taken away and the records fit, replaying the appended subgraph records gives the live subgraphs and memberships, in the same order, whatever happens to other data; after one more operation of any kind it does so if and only if that one, should it be on subgraphs, takes nothing away and its record fits |
| RunFacts.CatalogSurvives | crates/cypherlite-storage/src/lib.rs:1046-1140 | In every reachable state a catalog that is not empty is the same after close and open |
| Subgraphs.LoadRepeatsAdd | crates/cypherlite-storage/src/lib.rs:1391-1430 | Loading the record written when a member is added has exactly the effect of adding the member |
| Subgraphs.AddMemberAdds | crates/cypherlite-storage/src/lib.rs:740-760 | A new member comes last in its subgraph, once, and nothing else changes |
| Subgraphs.RemoveMemberLeaves | crates/cypherlite-storage/src/lib.rs:764-776 | Removing a member takes this one out of this subgraph; every other member and membership stays, in its order |
| Subgraphs.DeleteLeaves | crates/cypherlite-storage/src/lib.rs:730-736 | Deleting a subgraph takes it and its members; every other subgraph, member and membership stays, in its order |
| Subgraphs.RemovalsStaySound | crates/cypherlite-storage/src/subgraph/membership.rs:44-86 | Removing a member or a subgraph keeps both directions of the membership index in agreement |
| HyperEdges.LoadStaysSound | crates/cypherlite-storage/src/lib.rs:1501-1546 | Loading or creating a hyperedge keeps the reverse index equal to a scan |
| HyperEdges.DeleteLeaves | crates/cypherlite-storage/src/lib.rs:839-848 | Deleting a hyperedge takes this one, from the store and from every participant's list; all others stay, in their order |
| HyperEdges.DeleteStaysSound | crates/cypherlite-storage/src/hyperedge/reverse_index.rs:72-86 | So does deleting one |
| Links.AddMirrored | crates/cypherlite-storage/src/subgraph/membership.rs:31-40 | Adding a link adds that one link, in both directions |
| Links.RemoveMirrored | crates/cypherlite-storage/src/subgraph/membership.rs:44-68 | Removing a link removes that one link, in both directions |
| Links.RemoveAllMirrored | crates/cypherlite-storage/src/subgraph/membership.rs:72-86 | Removing an owner removes its links and no others |
| Temporal.HistoryIsComplete | crates/cypherlite-storage/src/lib.rs:270-288 | With versioning on, a node's version chain is its states before each successful update, in order and numbered from 1, over every run in which no reopening comes after a snapshot too large for a page |
| Temporal.HistorySurvivesExactly | crates/cypherlite-storage/src/lib.rs:170-231 | After a run in which all snapshots fitted, close and open rebuilds all version chains; after one more operation it does so if and only if that one's snapshot, should it take one, fits |
| Versions.SnapshotCompletes | crates/cypherlite-storage/src/version/mod.rs:41-48 | A snapshot extends the chain of its entity by that state and no other chain |
| Versions.LoadIsSnapshot | crates/cypherlite-storage/src/version/mod.rs:98-109 | Loading the record a snapshot wrote repeats the snapshot |
| Temporal.ResolveProperty | crates/cypherlite-query/src/executor/eval.rs:376-441 | The loops over the version chain and the properties return what the function `ReadAt` says, and the next row says what that is |
| Temporal.ReadAnswers | crates/cypherlite-query/src/executor/eval.rs:376-441 | For every chain a read answers the value of the first property under the key, Null if there is none, in the last snapshot whose update time has come; without one, in the current state; a snapshot's time is its first property under the update-time key that is a date or an integer, and where no such key is known every snapshot's time has come |
| Temporal.ResolvesExactly | crates/cypherlite-query/src/executor/eval.rs:376-441 | With strictly increasing update times, a read at a time not before the first goes to the state in force if and only if the time is before the last update or there was none; from the last update on it goes to the state before |
| Temporal.ReadsInForce | crates/cypherlite-query/src/executor/eval.rs:376-441 | The same for a node after any run of the engine, its states being the ones before each update and the current one: before the last update the answer is the first value under the key in the state in force, from then on the first value in the state before it |
| IndexRuns.NodeIndexIsScan | crates/cypherlite-storage/src/lib.rs:577-634 | In every session with one index per pair, indexed lookup finds exactly the nodes with the label and the value, repeated labels and keys included; it answers as the linear scan if and only if there is no index or the nodes with the value are the nodes with an equal value; a range query answers as the linear scan if and only if the range is not upside down or there is no index |
| ValueEquality.AsScanExactly | crates/cypherlite-storage/src/lib.rs:577-600 | Queries for a value answer as the linear scan in every such session if and only if the value has no NaN and no zero of floating point in it |
| ValueEquality.TellingTells | crates/cypherlite-storage/src/lib.rs:577-600 | For every other value a session in which they do not: an index and a node with an equal value that is not the same, or the same that is not equal |
| Ordering.SameExactly | crates/cypherlite-core/src/types.rs:22-40 | The derived `==` and identity agree on a value, against every other, if and only if it has no NaN and no zero of floating point in it, arrays included |
| RangeQueries.RangeAnswer | crates/cypherlite-storage/src/lib.rs:605-634 | In every session with one index per pair a range query finds exactly the nodes with the label and a value under the key that is not before the lower and not after the upper bound, in the order written out in `ValueOrder`; it panics if and only if the range is upside down and there is an index |
| RangeQueries.IntegerRange | crates/cypherlite-storage/src/lib.rs:605-634 | Between two integers: exactly the nodes with the label and an integer under the key from the one to the other |
| ValueOrder.CompareIsEarlier | crates/cypherlite-storage/src/index/mod.rs:27-90 | The key order: by type, then integers and dates by size, false before true, text and bytes by the first byte that differs and else the shorter first, floating point by the number the bits stand for with -0 before +0 and what is no number at the two ends, arrays by length and then by the first item that differs |
| ValueOrder.EqualValues | crates/cypherlite-core/src/types.rs:22-40 | The derived `==`: floating point values are equal if and only if both are numbers and the same number, arrays item by item, everything else if and only if it is the same |
| Attached.DeleteTakes | crates/cypherlite-storage/src/btree/edge_store.rs:162-182 | Deleting a node, or trying to, takes exactly the edges that start or end at it and no other node; every other record is unchanged |
| Attached.SessionAttached | crates/cypherlite-storage/src/lib.rs:239-442 | In every session that starts so, a new database included, every edge has both its ends among the nodes |
| Attached.DeletedEdgesReturn | crates/cypherlite-storage/src/lib.rs:315-337 | After a plain run, deleting a node and then closing and opening gives back all edges without the node, so they are attached if and only if none touched it |
| Cascades.EdgeLookupExactly | crates/cypherlite-storage/src/lib.rs:660-681 | In every such session an edge lookup finds exactly the edges with the type and the value (without an index: an equal value), together with exactly those that carried both when a cascade removed them after the index was created; so it is exact if and only if there are none of these |
| Cascades.CascadeExactly | crates/cypherlite-storage/src/lib.rs:315-337 | Where no cascade took an edge so far, deleting a node keeps an edge lookup exact if and only if no index serves the pair or none of the node's edges carries the type and the property |
| Cascades.CascadeBreaks | crates/cypherlite-storage/src/lib.rs:315-337 | A session in which it is not: a node, an edge index, a loop edge under it, and the node deleted |
| IndexRuns.StepIndexed | crates/cypherlite-storage/src/lib.rs:239-442 | Every operation keeps every index exact, up to the edges a cascade removed |
| SecondIndex.OneIndexPerPairExactly | crates/cypherlite-query/src/executor/mod.rs:543-598 | After CREATE INDEX under a new name node queries stay exact whatever follows if and only if the pair had no index before |
| SecondIndex.SecondBreaks | crates/cypherlite-query/src/executor/mod.rs:646-663 | With a second index, creating a node and dropping the index that saw it makes a query miss the node |
| Sessions.SessionsStart | crates/cypherlite-storage/src/lib.rs:112-231 | Every open starts such a session, after every run, safe or not |
| Sessions.RunBounded | crates/cypherlite-storage/src/lib.rs:239-442 | In every reachable state the ids of nodes and edges are below the next id the header knows, in memory and in every record on any copy of any page |
| IndexProofs.CreateIndexKeepsExact | crates/cypherlite-query/src/executor/mod.rs:543-598 | Backfill makes a new index exact and leaves the others alone |
| IndexProofs.UpdateKeepsExact | crates/cypherlite-storage/src/lib.rs:288-306 | Taking old values out and putting new ones in, label by label, keeps every index exact |
| IndexProofs.LookupIsScan | crates/cypherlite-storage/src/lib.rs:577-600 | Lookup by exact indexes gives the ids the linear scan gives if and only if there is no index on the pair or no entity tells the two equalities apart |
| IndexProofs.RangeIsScan | crates/cypherlite-storage/src/lib.rs:605-634 | A range query on an exact index gives the ids the linear scan gives if and only if the range is not upside down or there is no index |
| Ordering.CompareOrder | crates/cypherlite-storage/src/index/mod.rs:27-90 | The key order is total, floating point and arrays included, and keys compare equal if and only if they are the same value; which order it is says `ValueOrder.CompareIsEarlier` |
| StorageEngines.StorageEngine.CreateNode | crates/cypherlite-storage/src/lib.rs:239-262 | The method's new state is the step's; it returns the id it took |
| StorageEngines.StorageEngine.UpdateNode | crates/cypherlite-storage/src/lib.rs:270-311 | The method's new state is the step's; it fails, changing nothing, if there is no such node |
| StorageEngines.StorageEngine.DeleteNode | crates/cypherlite-storage/src/lib.rs:315-337 | The method's new state is the step's, which `Attached.DeleteTakes` describes; the cascade happens even if there is no such node |
| StorageEngines.StorageEngine.DeleteEdgesOf | crates/cypherlite-storage/src/btree/edge_store.rs:162-182 | The loop leaves exactly the edges that neither start nor end at the node |
| StorageEngines.StorageEngine.CreateEdge | crates/cypherlite-storage/src/lib.rs:342-371 | The method's new state is the step's; a failed create uses up an id that the header does not record |
| StorageEngines.StorageEngine.UpdateEdge | crates/cypherlite-storage/src/lib.rs:379-413 | The method's new state is the step's |
| StorageEngines.StorageEngine.DeleteEdge | crates/cypherlite-storage/src/lib.rs:422-442 | The method's new state is the step's |
| StorageEngines.StorageEngine.CreateNodeIndex | crates/cypherlite-query/src/executor/mod.rs:543-598 | The method's new state is the step's; it fails if and only if the name is taken |
| StorageEngines.StorageEngine.CreateEdgeIndex | crates/cypherlite-query/src/executor/mod.rs:599-645 | The method's new state is the step's; it fails if and only if the name is taken |
| StorageEngines.StorageEngine.DropIndex | crates/cypherlite-query/src/executor/mod.rs:646-663 | A node index of the name goes; failing that, an edge index |
| StorageEngines.StorageEngine.CreateSubgraph | crates/cypherlite-storage/src/lib.rs:707-720 | The method's new state is the step's |
| StorageEngines.StorageEngine.AddMember | crates/cypherlite-storage/src/lib.rs:740-760 | The method's new state is the step's; it fails if the subgraph or the node is missing |
| StorageEngines.StorageEngine.CreateHyperEdge | crates/cypherlite-storage/src/lib.rs:800-829 | The method's new state is the step's |
| StorageEngines.StorageEngine.Reopen | crates/cypherlite-storage/src/lib.rs:1749-1765 | Saving the catalog, checkpointing and loading every family gives the state of the step |
| StorageEngines.StorageEngine.FindNodesByProperty | crates/cypherlite-storage/src/lib.rs:577-600 | The method answers as the query function the index theorems are about |
| StorageEngines.StorageEngine.FindNodesByRange | crates/cypherlite-storage/src/lib.rs:605-634 | The same for ranges |
| StorageEngines.StorageEngine.FindEdgesByProperty | crates/cypherlite-storage/src/lib.rs:660-681 | The same for edges |
| PageFiles.PageFile.Persist | crates/cypherlite-storage/src/lib.rs:1143-1203 | The method's new state is the append's; it returns the page that got the record |
| PageFiles.PageFile.RewriteOnPage | crates/cypherlite-storage/src/lib.rs:1269-1327 | The method's new state is the rewrite's |
| PageFiles.PageFile.RebuildPage | crates/cypherlite-storage/src/lib.rs:1289-1314 | The loop packs every record of the page onto a blank one, with one identity replaced; what does not fit is dropped |
| PageFiles.PageFile.RunCheckpoint | crates/cypherlite-storage/src/wal/checkpoint.rs:22-57 | The loop applies the frames in order, so the last frame of a page wins, and empties the log |
| PageFiles.PageFile.LoadFamily | crates/cypherlite-storage/src/lib.rs:955-993 | The loop ends and returns the records of the chain in order; the last page is cached |
| PageFiles.PageFile.SaveCatalogBytes | crates/cypherlite-storage/src/lib.rs:1046-1103 | The chunk loop's new state is that of the recursive definition |
| PageFiles.PageFile.LoadCatalogBytes | crates/cypherlite-storage/src/lib.rs:1110-1140 | The loop ends and returns the payloads of the chain in order |
| IndexManagers.IndexManager.Updated | crates/cypherlite-storage/src/lib.rs:288-306 | The nested loops over labels and properties do what `OnUpdate` says |
| IndexManagers.IndexManager.Create | crates/cypherlite-query/src/executor/mod.rs:558-598 | Index creation with its backfill loops does what `CreateIndex` says |
| IndexManagers.IndexManager.FindIds | crates/cypherlite-storage/src/lib.rs:577-600 | Lookup through an index on the pair, else the scan loop |
| IndexManagers.IndexManager.FindRange | crates/cypherlite-storage/src/lib.rs:605-634 | Range query through an index on the pair, else the scan loop |
| Printer.RoundTrip | crates/cypherlite-query/src/parser/expression.rs:58-244 | Parsing the printed tokens of any expression the parser can produce, whatever follows that is no operator, gives the expression back and leaves what follows |
| Printer.ParsePrint | crates/cypherlite-query/src/parser/expression.rs:70-122 | The same in every context of minimum binding power and following operator |
| Printer.BareExactly | crates/cypherlite-query/src/parser/expression.rs:9-34 | An expression printed without parentheses parses back in its context if and only if the binding powers let it stand bare, so the printer's parentheses are exactly the necessary ones |
| Printer.ParsePrintParse | crates/cypherlite-query/src/parser/expression.rs:58-244 | Every expression parsed from tokens the lexer can make prints to such tokens, and these parse to it again |
| LayeredParsing.ParserIsGrammar | crates/cypherlite-query/src/parser/expression.rs:9-244 | A token stream is spelled by the layered grammar, OR over AND over NOT over comparisons and IS NULL over sums over products over unary minus over properties, infix operators to the left, if and only if the parser reads it whole, to the same tree, and no NOT stands after a comparison or an arithmetic operator and no arithmetic or property after a null test |
| LayeredParsing.GrammarIsUnambiguous | crates/cypherlite-query/src/parser/expression.rs:58-244 | So no token stream has two trees in the grammar |
| LayeredParsing.BeyondTheGrammar | crates/cypherlite-query/src/parser/expression.rs:23-34 | Two streams that the parser reads and no layer spells: `1 + NOT true` and `null IS NULL + 1` |
| Precedence.DerivesRegular | crates/cypherlite-query/src/parser/expression.rs:9-34 | What the grammar spells never has such a NOT, property or operator |
| Consumption.ExpressionProgress | crates/cypherlite-query/src/parser/expression.rs:70-244 | A parsed expression takes at least one token and never passes the end |
| Consumption.ExpressionBrackets | crates/cypherlite-query/src/parser/expression.rs:62-122 | The tokens of an expression have balanced brackets; at the power of a BETWEEN bound no AND or OR stands outside brackets |
| Consumption.BetweenSplitsUniquely | crates/cypherlite-query/src/parser/clause.rs:474-494 | In every accepted BETWEEN TIME predicate the separating AND is the first AND outside brackets, and neither bound has AND or OR outside brackets |
| Locality.OneTokenLookahead | crates/cypherlite-query/src/parser/expression.rs:70-244 | The result depends only on the tokens consumed and the one that follows, and of that one, if it is a keyword outside expressions or the end, only on that |
| ExpressionParser.Parser.ParseExprBp | crates/cypherlite-query/src/parser/expression.rs:70-122 | The cursor loop agrees with the recursive function in result, error and final position; which trees these are says `LayeredParsing.ParserIsGrammar` |
| ExpressionParser.Parser.ParseOptionalTemporalPredicate | crates/cypherlite-query/src/parser/clause.rs:474-494 | The same for the temporal predicate |
| ClauseRoundTrip.ClauseRead | crates/cypherlite-query/src/parser/clause.rs:15-583 | The text of any clause, in every style, wherever it stands and whatever clause or end follows, reads back as that clause and ends where the text ends: patterns, DISTINCT, aliases, ASC and DESC, SKIP and LIMIT, SET and REMOVE items, OPTIONAL and DETACH, ON MATCH and ON CREATE in both orders, AT TIME and BETWEEN TIME, index, snapshot and hyperedge clauses |
| PatternRoundTrip.PatternRead | crates/cypherlite-query/src/parser/pattern.rs:9-293 | The same for patterns: directions of arrows, hop counts in all their forms, labels, relationship types, properties |
| ParsedClauses.ClauseGood | crates/cypherlite-query/src/parser/clause.rs:15-583 | Every clause the parser takes from tokens the lexer can make is one of those that have a text |
| ParsedClauses.ClausePrintParse | crates/cypherlite-query/src/parser/clause.rs:15-583 | So every clause ever parsed prints, in any style, to tokens that give the same clause, whatever clause or end follows |
| ParsedClauses.QueryRead | crates/cypherlite-query/src/parser/mod.rs:44-144 | The texts of one or more clauses, one after the other, are a query with exactly these clauses |
| AcceptedClauses.AcceptedIsRead | crates/cypherlite-query/src/parser/clause.rs:15-583 | Whatever clause the parser accepts, the tokens it took are that clause by the grammar of `ClauseGrammar`: none is skipped or taken for another, the parts stand in their order, hop counts are not negative and cut to 32 bits |
| AcceptedClauses.PatternRead | crates/cypherlite-query/src/parser/pattern.rs:9-293 | The same for patterns |
| Queries.QueryIsClauses | crates/cypherlite-query/src/parser/mod.rs:44-144 | A token stream is accepted if and only if it is one or more stretches each of which, by itself, parses to one clause, and the result is those clauses |
| Queries.CutOnce | crates/cypherlite-query/src/parser/mod.rs:44-144 | There is one such way to cut a stream, and one list of clauses |
| Queries.QueriesJoin | crates/cypherlite-query/src/parser/mod.rs:44-144 | Two accepted queries, one after the other, are an accepted query with the clauses of both |
| ClauseLocality.ClauseAlike | crates/cypherlite-query/src/parser/clause.rs:15-583 | A parsed clause is the same clause wherever its tokens stand and whatever clause, or none, comes next |
| PatternLocality.PatternAlike | crates/cypherlite-query/src/parser/pattern.rs:9-293 | The same for patterns |
| Patterns.PatternShape | crates/cypherlite-query/src/parser/pattern.rs:9-55 | A parsed pattern has a chain, and in each chain nodes and relationships take turns, a node first and last |
| PatternParsers.PatternParser.ParsePattern | crates/cypherlite-query/src/parser/pattern.rs:9-16 | The loop over chains agrees with the recursive definition in result, error and final position |
| PatternParsers.PatternParser.ParsePatternChain | crates/cypherlite-query/src/parser/pattern.rs:19-55 | The same for the loop over relationships and nodes |
| ClauseParsers.ClauseParser.ParseQuery | crates/cypherlite-query/src/parser/mod.rs:44-144 | The loop ends and agrees with the recursive definition |
| ClauseParsers.ClauseParser.ParseClause | crates/cypherlite-query/src/parser/mod.rs:47-133 | Dispatch on the leading keywords agrees with `ClauseAt` in result, error and final position; what a clause holds says `ClauseRoundTrip.ClauseRead` |
| ClauseParsers.ClauseParser.MergeActionsLoop | crates/cypherlite-query/src/parser/clause.rs:171-199 | The loop over ON MATCH and ON CREATE parts agrees with `ActionsAt` |
| StringLiterals.LexString | crates/cypherlite-query/src/lexer/mod.rs:328-352 | The loop strips the quotes and unescapes as `Unescape` says |
| StringLiterals.LiteralRoundTrip | crates/cypherlite-query/src/lexer/mod.rs:198-200 | An escaped literal ends at its own closing quote whatever follows, and its value is the string that was escaped |
| StringLiterals.UnescapeReadsPieces | crates/cypherlite-query/src/lexer/mod.rs:328-352 | The value of any text between quotes is that of its pieces: a character is itself, a backslash and `n`, `t`, a quote or a backslash are line feed, tab, quote and backslash, any other pair and a last lone backslash stay as they are |
| StringLiterals.CanonicalLiteral | crates/cypherlite-query/src/lexer/mod.rs:328-352 | Escaping is injective, and escaping a literal's value gives a literal of the same value |
| Calendar.DaysRoundTrip | crates/cypherlite-query/src/executor/eval.rs:767-775 | The parsing side inverts the printing side on every day number |
| Calendar.DateRoundTripExactly | crates/cypherlite-core/src/types.rs:320-332 | The printing side inverts the parsing side on a date if and only if it is a valid Gregorian date |
| Calendar.CivilFollowsCalendar | crates/cypherlite-core/src/types.rs:320-332 | The date of the next day number is the calendar's next day, leap years included |
| Calendar.Epoch | crates/cypherlite-core/src/types.rs:318-332 | Day zero is 1 January 1970, which with the successor law fixes the conversion on all integers |
| Calendar.IntermediateRanges | crates/cypherlite-core/src/types.rs:320-332 | On the printing side day of era, year of era, day of year and month index stay in their unsigned ranges for every day number |
| Calendar.ParsingRanges | crates/cypherlite-query/src/executor/eval.rs:767-775 | On the parsing side, for every date the parser lets through, the year of the era stays in its range and nothing goes below zero; the day of the year leaves its range if and only if the date is 30 or 31 February, the day of the era if and only if it is so in the last year of an era |
| Timestamps.EpochSecsToDatetime | crates/cypherlite-core/src/types.rs:285-316 | The step-by-step remainders give the fields of the time, negatives included |
| Timestamps.FieldRoundTrip | crates/cypherlite-core/src/types.rs:285-316 | The fields are in range and give back the seconds, for every integer |
| Timestamps.FormatMillis | crates/cypherlite-core/src/types.rs:265-280 | The text is that of the time floored to a second, with the milliseconds left over |
| Timestamps.ParseIso8601 | crates/cypherlite-query/src/executor/eval.rs:677-763 | The method with its mutable fields returns what the function `ParseTimestamp` says |
| Timestamps.TimestampRoundTrip | crates/cypherlite-query/src/executor/eval.rs:677-763 | For every millisecond value, the first 19 characters of its text parse to the value floored to a second if and only if the year is from -999 to 9999 |
| TimestampTexts.ParsedIsSaid | crates/cypherlite-query/src/executor/eval.rs:677-763 | A text is accepted, with a given value, if and only if without the spaces around it it says some fields, place by place and in decimal digits, whose milliseconds are that value; a date alone is midnight, no zone and `Z` are UTC |
| TimestampTexts.PrintedIsSaid | crates/cypherlite-core/src/types.rs:265-316 | The printed text of every millisecond count says, place by place, a valid date, a time of day and the milliseconds that together are that count |
| Timestamps.FullTextRejected | crates/cypherlite-query/src/executor/eval.rs:677-763 | The full text, with milliseconds, is always rejected |
| Timestamps.ZoneShift | crates/cypherlite-query/src/executor/eval.rs:677-763 | A zone suffix shifts the instant by the offset it names |
| Evaluation.AcceptsExactly | crates/cypherlite-query/src/executor/eval.rs:599-662 | On all operands and rows AND, OR and NOT answer exactly when they short-circuit or all operands are booleans or Null, with the least, the greatest or the reflected truth value; else they pass on the first error or blame a value |
| Evaluation.NullTests | crates/cypherlite-query/src/executor/eval.rs:66-74 | IS NULL is true of Null and false of any other value, IS NOT NULL is its negation, neither is ever Null, and errors pass through |
| Evaluation.Negates | crates/cypherlite-query/src/executor/eval.rs:655-675 | Unary minus gives the number of the same kind whose sum with the operand is zero, keeps Null, rejects everything else, and undoes itself |
| Evaluation.EvalIsKleene | crates/cypherlite-query/src/executor/eval.rs:599-662 | Every expression of AND, OR, NOT and null tests over booleans and Null evaluates without error to Kleene's strong valuation |
| Evaluation.KnownResultsStay | crates/cypherlite-query/src/executor/eval.rs:37-65 | A result of AND, OR and NOT that is true or false stays when a Null becomes a boolean |
| Evaluation.BooleanLaws | crates/cypherlite-query/src/executor/eval.rs:599-662 | De Morgan, double negation and commutation hold of the evaluated results although evaluation short-circuits |
| Evaluation.CommutesExactly | crates/cypherlite-query/src/executor/eval.rs:37-65 | On all operands and rows AND, and likewise OR, commutes if and only if neither order short-circuits past an operand that the other rejects and the operands do not fail differently |
| Evaluation.Regroup | crates/cypherlite-query/src/executor/eval.rs:37-65 | On all operands and rows two trees of ANDs, or of ORs, over the same operands in the same order give the same value or both fail |

## Left out

- Reading, writing, allocating and committing always succeed; crash recovery, locking, fsync modes, checksums and the 32768-page limit of the free-space map.
- Page deallocation: the engine never frees a page, so new pages are numbered upwards.
- Byte layouts of records, pages and headers, and the catalog's own serialization: records have sizes, the catalog is a byte string.
- Adjacency pointers of nodes and edges, transactions, the buffer pool and other stores that no modelled operation reads.
- Floating-point arithmetic and comparison in expressions, and sorting of results. Property values of floating point are modelled by their bits.
- Machine integers: ids, page numbers and milliseconds are unbounded; no overflow is modelled.
- Subgraph endpoints of edges, which no modelled operation creates, and version snapshots of edges, which the engine never takes.
- Plugins, triggers, planner, optimizer, semantic analysis, operators other than index creation and drop, language bindings.
- The tokenizer: parser theorems are over tokens, because text such as `--` is one token.
- Evaluation of anything but literals, variables, AND, OR, NOT, null tests and negation.
- Evaluation.Negates: floating-point numbers are real numbers there, and integers are unbounded, so the overflow of negating the least 64-bit integer is not modelled.
- Timestamps.ParseIso8601: text is a sequence of characters, so slicing inside a multi-byte character, which panics in the code, is not modelled.
- Answers of index lookups are compared as sets of ids; an index may list an id twice where a label or key is repeated.
- IndexManagers.IndexManager.FindRange: the panic of an upside-down range is a result None.
- SecondIndex.SecondBreaks: where a pair has several indexes, the one a search by pair meets first is one fixed choice that may depend on all index names; in the code it also depends on the hasher and on the order of insertions.
- IndexRuns.NodeIndexIsScan: searches by pair with the same fixed choice (`Indexes.Picker`), which cannot matter there because sessions keep to one index per pair.
- Cascades.EdgeLookupExactly: the same.
- StorageEngines.StorageEngine.CreateNodeIndex: does not record the index definition, nor the ids of new label and property names, in the catalog; `SetCatalog` stands for any change of the catalog's bytes.
- StorageEngines.StorageEngine.CreateEdgeIndex: does not record the ids of new names in the catalog.
- StorageEngines.StorageEngine.DropIndex: does not remove the index definition from the catalog.
- StorageEngines.StorageEngine.Reopen: requires well-formed page chains, which every reachable state has; otherwise a load might not end.
