# A verified model of the Algorand indexer

The indexer stores a ledger in SQL tables and answers searches over it. This project models the parts of
it where the answer depends on several functions working together, and proves what those parts promise.
Tables are sequences, sets or maps of rows; a database transaction is one step; the JSON codec, hashing and
the network are parameters or are absent.

| file | what it models |
|---|---|
| `Outcomes.dfy` | optional values and results |
| `Base64.dfy`, `PageToken.dfy` | sections 4 and 5 of RFC 4648, and the page tokens built on them |
| `Ledger.dfy` | the rows a block adds to `txn` and `txn_participation` |
| `TxnQuery.dfy` | the WHERE clause of a transaction search and what it means on the stored tables |
| `FilterMeaning.dfy` | what the transaction filter is documented to ask for, and when the query answers that |
| `Paging.dfy`, `TxnSearch.dfy` | pages of a search, their tokens, and whole paged runs |
| `StoredChain.dfy`, `SearchModes.dfy` | tables of a whole chain; skipping or returning inner transactions |
| `BlockImport.dfy` | adding blocks as a crash-tolerant protocol of two database transactions |
| `Rewind.dfy` | rolling an account back to an earlier round |
| `Migration.dfy`, `MigrationProgress.dfy` | the migration runner and the progress it persists |
| `Encoding.dfy` | the stored JSON form of transactions |
| `BlockHeaders.dfy` | the search for block headers |
| `TxnTree.dfy` | converting a transaction with its inner transactions for the API |
| `Normalize.dfy`, `AccountCompare.dfy` | the validator's two ways to compare accounts |
| `DisabledParams.dfy` | switching off endpoints and parameters |
| `BlockTxn.dfy` | the short form of a transaction in a block |
| `Sharding.dfy` | splitting the address space for validation |

The main results, in one line each:

- Following page tokens returns the roots of all matching rows, each once, in order, for every table a chain
  can produce, every filter, every limit and both directions (`TxnSearch.FetchAll`); such a table is what
  every run of the import protocol leaves behind at every moment (`BlockImport.ImportedTableWellStored`).
- The rows of a transaction search are the ones the documented filter asks for, with the exact conditions under
  which rows are lost (`FilterMeaning.QueryMeansDocumented`, `FilterMeaning.AlwaysSelected`).
- Under any failures, crashes, late commits, retries and pruning, an accounted block is stored as a whole
  (`BlockImport.ImportIsComplete`), and no search shows a row beyond the round it reports
  (`BlockImport.SnapshotIsConsistent`).
- Under any starts, failures, lost replies, crashes and late commits, the committed migrations are the first ones
  up to the persisted number, in order (`MigrationProgress.ProgressInOrder`), and each is committed once if no
  process starts while a dead one's transaction is pending (`MigrationProgress.CarefulIsExact`).
- Rewinding gives the earlier balance plus an exact error term, modulo 2^64, in any order of the rows
  (`Rewind.RewindBalance`, `Rewind.RewindAssets`).
- The stored form of a transaction loses nothing but the difference between empty and nil
  (`Encoding.StxnRoundTrip`, `Encoding.StoredExactly`).
- Two account trees have one normal form exactly when they differ only in what normalising ignores
  (`Normalize.SameNormal`, `Normalize.NormalSame`).

## Where the code does less than it seems to

Each of these is stated with the exact condition under which the code is right.

- A block whose fee sink proposes it and pays itself generates one participation row twice, so inserting it
  violates the unique index, and import takes that for "already stored": the block is accounted without any
  transaction rows (`Ledger.AddTransactionParticipation`, `BlockImport.ImportIsComplete`).
- Amounts of zero are not stored, and comparing with a missing amount selects nothing. A bound on an amount
  therefore loses the transactions whose amount is zero, and a bound on the effective amount all payments that
  close nothing: a payment of 5 is not found by "effective amount above 1". A row that is asked for is selected
  exactly when every amount that is bounded is stored, no role is asked of the zero address, and no tie of block
  times can lose its round (`FilterMeaning.AlwaysSelected`, `FilterMeaning.EffectiveAmountLost`,
  `FilterMeaning.ZeroAmountLost`).
- The time sub-selects of the transaction search do not order rounds with equal times: whatever the database
  returns is exact if and only if no two rounds share the latest time below the bound, or the earliest above it
  (`FilterMeaning.BeforeTimeBound`, `FilterMeaning.AfterTimeBound`, `FilterMeaning.TieWitness`). The header search
  does order them, but cuts an upper bound to whole seconds and so loses the blocks of that second
  (`BlockHeaders.AnswerIsWanted`).
- The search that skips inner transactions keeps offset bounds: it is right on every table exactly when they
  exclude no root that a match could have, or no position and time of a stored row can meet the filter's bounds
  (`SearchModes.OptimizationExact`).
- When inner transactions are returned themselves (application logs), the ascending page token is right exactly
  after a root without inner transactions, and the descending one exactly after a root. After a root with inner
  transactions the ascending token skips their rows; after an inner row it repeats them, and the descending token
  skips the root (`SearchModes.InnerRowToken`, `SearchModes.InnerRowTokenFails`).
- A root found through one of its inner transactions is converted with the inner row's id, so the created
  application or asset index of a creating root is that of the inner row (`TxnTree.RootFromInnerRow`).
- One root with a local delta for an account it does not list fails the whole page and so the whole run
  (`TxnSearch.FetchTransactions`, `TxnSearch.FetchAll`).
- Rewinding adds the closing amount of a payment by which another account closes to a third one, and misses
  clawbacks the account initiates, destroyed assets, and creations by others. `Rewind.BalanceError` and
  `Rewind.AssetError` give the terms; `Rewind.ErrorOnLedgerTxn` and `Rewind.AssetErrorExact` say when they are 0.
  The rewound copy shares the caller's list of holdings, which is therefore rewound too, also when the call fails
  on the way (`Rewind.AccountAtRound`).
- A migration whose transaction outlives its process can be committed twice: exactly when a process starts while
  such a transaction is pending (`MigrationProgress.ProgressIsExact`, `MigrationProgress.StartIsSafe`).
- A codec that omits empty maps and lists returns them as nil: the stored form is exact exactly when it omits
  nothing or the transaction holds nothing empty (`Encoding.StoredExactly`).
- Nothing is reported against an account whose amount is 0 at the node, whatever the indexer holds
  (`AccountCompare.EmptyAccountNotCompared`). For every other account an empty report means the same account
  exactly when the node lists no id twice (`AccountCompare.Equals`).
- The comment on `bytedec` says that it crashes on zero; the code wraps to the last byte and returns 2^(8n) - 2
  (`Sharding.ByteDec`). With more than 2^64 shards almost no address lies in a shard (`Sharding.TooManyShards`).
- A displayed configuration loses the verb: reading it back succeeds and disables the same parameters exactly when
  only parameters of GET operations are disabled (`DisabledParams.ShowAndRead`).
- The id 0 also stands for "no blocking task", so a writer whose first migration blocks nobody still keeps its
  channel open until that one is done; otherwise the channel is closed as soon as no blocking migration is
  outstanding (`MigrationProgress.CloseExact`, `MigrationProgress.FirstKeepsOpen`).

## Model

| member | source | states |
|---|---|---|
| `Base64.RoundTrip` | idb/postgres/internal/encoding/encoding.go:45-51 | decoding undoes encoding for every byte string, in the standard and the URL-safe alphabet |
| `Base64.Injective` | idb/postgres/internal/encoding/types.go:40-52 | different byte strings have different texts, so map keys stay distinct |
| `Base64.Alphabets` | idb/postgres/internal/encoding/encoding.go:45-51 | character by character, the two alphabets of the RFC |
| `Base64.QuadNumber` | idb/postgres/internal/encoding/encoding.go:45-51 | the four characters of a group are the digits to the base 64 of its 24-bit number, highest first |
| `Base64.DecodeShape` | idb/idb.go:104-113 | decoding accepts exactly whole groups of alphabet characters with at most two padding characters at the end |
| `PageToken.LittleEndianRoundTrip` | idb/idb.go:114-115 | reading the little-endian bytes of a number that fits gives the number |
| `PageToken.TokenRoundTrip` | idb/idb.go:73-117 | a token decodes to the 64-bit round and 32-bit offset it was made from |
| `PageToken.TokenBytes` | idb/idb.go:73-101 | the token is the text of twelve bytes: the round in eight and the offset in four, the low byte first |
| `PageToken.TokenShape` | idb/idb.go:104-117 | a text is a token exactly when it decodes to twelve bytes, and a block token exactly when to eight |
| `PageToken.BlockTokenRoundTrip` | idb/idb.go:27-33 | a block token decodes to the round it was made from |
| `Ledger.CountInner` | idb/idb.go:63-70 | the loop counts all transactions below a transaction, at every depth |
| `Ledger.YieldInnerTransactions` | idb/postgres/internal/writer/write_txn.go:68-110 | the preorder walk sends the rows of the forest and returns the offset after its last transaction |
| `Ledger.YieldTransactions` | idb/postgres/internal/writer/write_txn.go:113-202 | the rows of a block: every tree of the payset in turn, then the payout with its note |
| `Ledger.ForestLayout` | idb/postgres/internal/writer/write_txn.go:68-110 | inner rows have consecutive offsets, point to their root, carry its id and no tree of their own |
| `Ledger.BlockLayout` | idb/postgres/internal/writer/write_txn.go:113-177 | a block is a run of groups: a root and exactly the rows of its tree after it |
| `Ledger.RootsInOrder` | idb/postgres/internal/writer/write_txn.go:113-177 | tree k of the payset stands right after the trees before it, with the payout last and no other rows |
| `Ledger.PayoutMeans` | idb/postgres/internal/writer/write_txn.go:180-202 | the payout is a payment of the amount by the fee sink to the proposer, with a note that ends in the round in decimal digits |
| `Ledger.ConvertibleRows` | api/converter_utils.go:831-843 | a tree can be converted exactly when none of the rows it is stored in has a local delta for an unlisted account |
| `Ledger.GetParticipants` | idb/postgres/internal/writer/write_txn_participation.go:14-91 | each address that takes part, kind by kind, in the transaction (or in one below it, if asked), exactly once, and no other |
| `Ledger.AddInnerParticipation` | idb/postgres/internal/writer/write_txn_participation.go:97-112 | participation rows of a forest say who takes part in each of its rows, without repetition |
| `Ledger.ParticipationMeans` | idb/postgres/internal/writer/write_txn_participation.go:14-148 | a participation row belongs to some rows exactly when its address takes part in the row at its position: anywhere in the tree for a root, in the transaction itself for an inner row |
| `Ledger.AddTransactionParticipation` | idb/postgres/internal/writer/write_txn_participation.go:116-148 | participation rows of a block say exactly who takes part in which row; they repeat exactly when a payout pays its own fee sink |
| `TxnQuery.NumberParts` | idb/postgres/postgres.go:501-702 | the built conditions mention positions 1 to n, each once and in order, for n arguments |
| `TxnQuery.FillParts` | idb/postgres/postgres.go:501-702 | putting each argument at its position gives back the conditions that were meant |
| `TxnQuery.WhereClause.Append` | idb/postgres/postgres.go:511-513 | a condition, its arguments and the next position are added together |
| `TxnQuery.WhereClause.RoleParts` | idb/postgres/postgres.go:524-564 | one numbered alternative and one argument for each role that is asked for |
| `TxnQuery.WhereClause.BuildAddress` | idb/postgres/postgres.go:510-566 | the conditions on the participation table |
| `TxnQuery.BuildTransactionQuery` | idb/postgres/postgres.go:501-757 | fails exactly for different asset and application ids; otherwise every argument is used once at its own position, the filled clause, joins and order are those of the filter, and the limit is the one asked for, or none for 0 and for 16 or more of a group |
| `TxnQuery.RoleMeaning` | idb/postgres/postgres.go:524-564 | the role condition holds exactly when the address has one of the roles in the transaction |
| `TxnQuery.QueryMeansFilter` | idb/postgres/postgres.go:501-757 | the query selects a row exactly when the row satisfies the filter as the tables answer it, with missing values and sub-selects spelled out |
| `FilterMeaning.SomeRoundBefore` | idb/postgres/postgres.go:577-588 | the sub-select for an upper time bound always has an answer |
| `FilterMeaning.SomeRoundAfter` | idb/postgres/postgres.go:589-600 | so has the one for a lower bound |
| `FilterMeaning.BeforeTimeBound` | idb/postgres/postgres.go:577-588 | every answer the database may give lets in exactly the rounds before the time, if and only if no two rounds share the latest time below it |
| `FilterMeaning.AfterTimeBound` | idb/postgres/postgres.go:589-600 | the same for a lower time bound and the earliest time above it |
| `FilterMeaning.TieWitness` | idb/postgres/postgres.go:577-600 | two blocks of one second, and an answer that loses one of them, for each kind of bound |
| `FilterMeaning.QueryMeansDocumented` | idb/idb.go:243-300 | every selected row is asked for; without ties at the time bounds a row is selected exactly when it is asked for, every bounded amount is stored and no role is asked of the zero address |
| `FilterMeaning.AlwaysSelected` | idb/postgres/postgres.go:577-600 | over every admissible answer of the sub-selects: a row is always selected exactly when it is asked for, what is compared is stored and no tie can lose its round |
| `FilterMeaning.FoundDocumented` | idb/idb.go:243-300 | the rows a whole search runs through are the stored rows that are asked for, under the same conditions |
| `FilterMeaning.EffectiveAmountLost` | idb/idb.go:279-280 | a payment of 5 without a close is asked for by an effective amount above 1 and not found |
| `FilterMeaning.ZeroAmountLost` | idb/idb.go:269-270 | a payment of 0 is asked for by an amount below 10 and not found |
| `Paging.ExecuteQuery` | idb/postgres/postgres.go:695-757 | running the query returns the rows the filter means, in order, up to the limit |
| `Paging.QueryLength` | idb/postgres/postgres.go:728-757 | a query returns as many rows as asked for or all there are; everything for limit 0 and for a group with a limit of 16 or more |
| `Paging.TwoQueries` | idb/postgres/postgres.go:843-927 | the rest of the token's block followed by the other blocks is everything after the token |
| `Paging.OneQuery` | idb/postgres/postgres.go:903-906 | for a descending token in block 1 the first query is everything |
| `Paging.PageIsPrefix` | idb/postgres/postgres.go:843-927 | a page is a prefix of what remains, and empty only if nothing remains |
| `Paging.PageLength` | idb/postgres/postgres.go:843-927 | a page, first or resumed, never exceeds the limit and has exactly as many rows as asked for, or all that are left; without a limit a first page is the whole answer |
| `Paging.GroupOrder` | idb/idb.go:83-97 | rows of different groups are ordered as their roots are, and a group ends before the next begins |
| `Paging.PastGroup` | idb/idb.go:73-101 | resuming at a group's end skips exactly the groups up to that one, in both directions |
| `Paging.HitPerGroup` | api/handlers.go:1587-1595 | two rows have the same root exactly when they have the same root id |
| `Paging.PageAnswers` | api/handlers.go:1571-1614 | a page holds exactly the roots of its rows, each once, in order |
| `Paging.PageOrLater` | idb/idb.go:73-101 | a row that is left is covered by the page or left after it, never both |
| `Paging.Shrinks` | idb/postgres/postgres.go:843-927 | every non-empty page leaves fewer rows |
| `Paging.ProgressStep` | api/handlers.go:1571-1614 | what was returned and what is left make up the answer, before and after each page |
| `Paging.ReturnedRoot` | idb/postgres/postgres.go:929-994 | in root-converting mode every returned row carries the tree, id and position of its root |
| `TxnSearch.YieldRows` | idb/postgres/postgres.go:929-994 | every scanned row becomes a result row with the joined root or its own transaction, and the count is their number |
| `Paging.RestOfRoundMeaning` | idb/postgres/postgres.go:853-867 | the narrowed filter selects exactly the rows of the token's block that the filter selects and that come after the token |
| `Paging.OtherRoundsMeaning` | idb/postgres/postgres.go:889-913 | the widened filter selects exactly those of the other blocks after the token |
| `TxnSearch.NarrowToRound` | idb/postgres/postgres.go:853-867 | on every table the rewritten filter selects the rows of the token's block, among those of the original filter, that come after the token |
| `TxnSearch.WidenToOthers` | idb/postgres/postgres.go:889-913 | the rewritten filter becomes the one for the other blocks, with every original bound restored |
| `TxnSearch.TxnsWithNext` | idb/postgres/postgres.go:843-927 | fails exactly for a bad token or clashing ids; otherwise returns the rows after the token |
| `TxnSearch.Transactions` | idb/postgres/postgres.go:806-840 | fails exactly for a bad token or clashing ids; otherwise a first page or a resumed one, of exactly the asked number of rows or of all that are left |
| `TxnSearch.PutLittleEndian` | idb/idb.go:74-99 | writes exactly the bytes of the number and leaves the others |
| `TxnSearch.Next` | idb/idb.go:73-101 | fails exactly when ascending without a transaction; otherwise the token points past the group or at the root |
| `TxnSearch.Converted` | api/converter_utils.go:253-303 | a row of a search converts to its root, with the root's id and position, exactly when every local delta in the root's tree is for a listed account |
| `TxnSearch.Deduplicate` | api/handlers.go:1579-1596 | succeeds exactly when every row converts; then the loop keeps the root of every row once, in order, and the last row kept |
| `TxnSearch.FetchTransactions` | api/handlers.go:1571-1614 | fails exactly for a bad token, clashing ids or a root of the page that cannot be converted; otherwise a page is the roots of its rows, at most as many as asked for, and its token resumes after the group of the last root; without a limit a first page is the whole answer |
| `TxnSearch.FetchAll` | api/handlers.go:1571-1614 | following tokens until an empty page ends and returns exactly the roots of all matching rows, each once, in order, for every limit and both directions; it fails exactly for clashing ids or when one of those roots cannot be converted |
| `StoredChain.TableSorted` | idb/postgres/internal/schema/setup_postgres_sql.go:20-29 | the rows of any set of blocks, written in order, are in primary-key order |
| `StoredChain.TableWellStored` | idb/postgres/internal/schema/setup_postgres_sql.go:20-29 | the table of any set of whole blocks has the layout that paging relies on |
| `StoredChain.TableWholeGroups` | idb/postgres/internal/writer/write_txn.go:113-177 | in such a table every root is followed by a row for each transaction below it |
| `SearchModes.OptimizationMeans` | idb/postgres/postgres.go:782-803 | which filters are rewritten, condition by condition, and that only inner transactions are then skipped |
| `SearchModes.RootFound` | idb/postgres/postgres.go:782-803 | with offsets that keep roots, every matching row's root is found through its own row |
| `SearchModes.OptimizationSound` | idb/postgres/postgres.go:782-803 | with offsets that keep roots, skipping inner rows changes no answer |
| `SearchModes.NothingFound` | idb/postgres/postgres.go:782-803 | a filter whose bounds no position and time of a stored row meets finds nothing, on every table |
| `SearchModes.OptimizationUnsound` | idb/postgres/postgres.go:782-803 | for every other filter whose offsets may exclude roots, a stored block inside its bounds on which an answer is lost |
| `SearchModes.OptimizationExact` | idb/postgres/postgres.go:782-803 | for every filter it applies to: right on every table exactly when the offsets keep roots or nothing can meet the bounds |
| `SearchModes.InnerRowToken` | idb/idb.go:77-96 | the token of a row returned as itself continues with exactly the rows after it, ascending if and only if the row is a root without inner transactions, descending if and only if it is a root |
| `SearchModes.InnerRowTokenFails` | idb/idb.go:77-96 | a root with one inner transaction on which the token skips or repeats a row, in each failing case |
| `BlockImport.ViolationMeansStored` | idb/postgres/postgres.go:245-256 | under the invariant, a unique violation of a block that can be stored means it is stored already |
| `BlockImport.StepInv` | idb/postgres/postgres.go:192-263 | every step of import, crash, late commit, retry and pruning keeps the invariant |
| `BlockImport.PruneInv` | idb/postgres/postgres.go:2916-2958 | pruning keeps the invariant: blocks stay whole or go as a whole |
| `BlockImport.PruneDeletes` | idb/postgres/postgres.go:2916-2958 | after a pruning, in every run, nothing below the kept round is stored in either table or found by any search, and all else is as it was |
| `BlockImport.PrunedByRun` | idb/postgres/postgres.go:2916-2958 | the rounds that may be missing are exactly those below some kept round of the run |
| `BlockImport.ImportIsComplete` | idb/postgres/postgres.go:178-265 | in every reachable state an accounted, unpruned block has all its rows exactly when it does not pay its own fee sink, and a block that does never has any; the next has none or all; later ones none |
| `BlockImport.Importer.AddBlock` | idb/postgres/postgres.go:178-265 | a call takes exactly the protocol's steps for the way its transactions end; it succeeds exactly for the next round when the main one commits and the side one did not fail other than by a unique violation, and only then moves the counter |
| `BlockImport.CallAddsBlock` | idb/postgres/postgres.go:178-265 | an undisturbed call accounts the next block, writes its header, and adds its rows unless they are there |
| `BlockImport.SnapshotIsConsistent` | idb/postgres/postgres.go:806-840 | in every reachable state a search returns only rows up to the reported round, and all matching ones of complete blocks |
| `BlockImport.ReportedRound` | idb/postgres/postgres.go:428-441 | the reported round is the largest accounted one, and 0 before any is |
| `BlockImport.LateCommitAhead` | idb/postgres/postgres.go:192-263 | a run in which the rows of a dead process are committed before the block is accounted, and the retry accounts it over the violation |
| `BlockImport.ImportedTableWellStored` | idb/postgres/postgres.go:178-265 | in every reachable state the table pages correctly |
| `Rewind.Account.AssetUpdate` | accounting/rewind.go:23-45 | adjusts the first holding of the asset or appends one, in the list the account refers to, and makes a list only if there was none |
| `Rewind.AdjustedAmount` | accounting/rewind.go:23-45 | the asset's amount changes by the difference modulo 2^64, all others stay |
| `Rewind.AdjustedHoldings` | accounting/rewind.go:23-45 | only this asset's holding changes, in place, or one is added at the end |
| `Rewind.UndoTxn` | accounting/rewind.go:122-170 | one round of the loop applies the balance and holding updates of its transaction |
| `Rewind.Replay` | accounting/rewind.go:116-170 | the loop undoes the rows up to the first that it cannot, and fails exactly if there is one |
| `Rewind.AccountAtRound` | accounting/rewind.go:67-189 | fails exactly for the special accounts, an older answer, and rows that are inner transactions or no payment, key registration, asset configuration, transfer or freeze, or heartbeat; otherwise undoes all rows and resets the reward fields; the caller's shared list has the undone rows undone in either case |
| `Rewind.UndoPay` | accounting/rewind.go:127-147 | undoing a payment takes back the ledger's effect plus an exact error, whatever wraps around in between |
| `Rewind.RewindBalance` | accounting/rewind.go:116-189 | rewinding a history in any order gives the earlier balance plus the sum of the errors, modulo 2^64 |
| `Rewind.RewindExact` | accounting/rewind.go:116-189 | it gives the earlier balance exactly when the errors cancel out |
| `Rewind.ErrorOnLedgerTxn` | accounting/rewind.go:140-147 | on transactions the ledger accepts the only error is a third party's closing amount |
| `Rewind.RewindBalanceExact` | accounting/rewind.go:116-189 | a history that is not refused and has no closes of others to third accounts is rewound to the earlier balance, in any order |
| `Rewind.HiddenMoveSpoils` | accounting/rewind.go:120-169 | a row that hides what inner transactions moved is undone correctly exactly if they moved nothing: such rows must be refused |
| `Rewind.UndoTransfer` | accounting/rewind.go:155-164 | undoing an asset transfer takes back its effect, except for the initiator of a clawback |
| `Rewind.RewindAssets` | accounting/rewind.go:116-189 | every asset amount is the earlier one plus its error, exact exactly when the errors cancel out |
| `Rewind.AssetErrorExact` | accounting/rewind.go:150-164 | a row is undone without error for every asset exactly when the account creates what it creates, destroys nothing it holds, claws nothing back from others, and no inner transaction moves anything |
| `Rewind.RewindAssetsExact` | accounting/rewind.go:116-189 | a history of such rows, in any order, is rewound to every earlier amount |
| `Rewind.RewindKeepsOthers` | accounting/rewind.go:23-45 | ids stay distinct and holdings of assets in no row are untouched |
| `Migration.LastBlockingIsTask` | idb/migration/migration.go:87-114 | the id waited for is that of a blocking task, or 0 if there is none |
| `Migration.PastBlocking` | idb/migration/migration.go:191-219 | a task beyond that id has no blocking task after it |
| `Migration.Runner.SetTasks` | idb/migration/migration.go:87-114 | accepts exactly strictly ascending non-negative ids, and remembers the last blocking one |
| `Migration.Runner.Update` | idb/migration/migration.go:162-187 | sets the whole status at once and adds what readers can see |
| `Migration.Runner.RunMigrations` | idb/migration/migration.go:191-219 | the channel closes at most once, on success, and on failure exactly past the last blocking task; a status that does not block, or a closed channel, is only ever seen after all blocking tasks have succeeded |
| `MigrationProgress.MigrationStateBlocked` | idb/postgres/postgres_migrations.go:80-87 | true exactly while a blocking migration is outstanding |
| `MigrationProgress.MakeTasks` | idb/postgres/postgres_migrations.go:104-126 | one task per outstanding migration in order, with its number and text, blocking exactly if the migration is, then the one that marks all done, if any |
| `MigrationProgress.RunnerInv` | idb/postgres/postgres_migrations.go:179-209 | every step of a writer keeps memory, database and commits in agreement |
| `MigrationProgress.ProgressInOrder` | idb/postgres/postgres_migrations.go:96-209 | over any starts, failures, lost replies, crashes and late commits the committed migrations are exactly the first ones up to the persisted number, in order, and a closed channel means no blocking one is outstanding |
| `MigrationProgress.CloseExact` | idb/migration/migration.go:87-114 | the runner closes its channel before a task exactly when no blocking migration is outstanding and it is past migration 0 |
| `MigrationProgress.ClosesInTime` | idb/migration/migration.go:191-219 | so in every run |
| `MigrationProgress.FirstKeepsOpen` | idb/migration/migration.go:191-219 | a single migration 0 that blocks nobody, before which the channel stays open |
| `MigrationProgress.ProgressIsExact` | idb/postgres/postgres_migrations.go:96-209 | each is committed once exactly in the runs without a step that commits what a late commit, or a process unaware of one, has committed already |
| `MigrationProgress.CarefulIsExact` | idb/postgres/postgres_migrations.go:96-209 | that is so in every run in which no process starts while a dead one's transaction can still commit |
| `MigrationProgress.StartIsSafe` | idb/postgres/postgres_migrations.go:96-144 | a start can lead to a second commit exactly when such a transaction is pending |
| `MigrationProgress.RunCompletes` | idb/postgres/postgres_migrations.go:96-144 | an undisturbed run commits everything, persists that and closes the channel |
| `Encoding.ConvertStateDelta` | idb/postgres/internal/encoding/encoding.go:210-220 | the loop converts every value under its key |
| `Encoding.UnconvertStateDelta` | idb/postgres/internal/encoding/encoding.go:222-232 | the loop converts every value back under its key |
| `Encoding.ConvertSignedTxnWithAD` | idb/postgres/internal/encoding/encoding.go:127-332 | the stored record of the whole tree; at every depth a name, unit or url is stored as text if it is printable and not empty, and as raw bytes otherwise |
| `Encoding.UnconvertSignedTxnWithAD` | idb/postgres/internal/encoding/encoding.go:294-341 | the recursion with its loops computes the transaction from the overriding fields |
| `Encoding.KeysRoundTrip` | idb/postgres/internal/encoding/types.go:40-54 | a map whose keys travel as text arrives with all keys and their own values |
| `Encoding.DeltaRoundTrip` | idb/postgres/internal/encoding/encoding.go:197-232 | a state delta survives with any byte-string keys; an empty one becomes nil exactly if the codec omits it |
| `Encoding.StxnRoundTrip` | idb/postgres/internal/encoding/encoding.go:127-341 | convert, lose every overridden field and any unprintable text in JSON, unconvert: the same transaction up to omitted empties, for inner trees of any depth and names printable or not |
| `Encoding.SettledSame` | idb/postgres/internal/encoding/encoding.go:19-28 | omitting empties changes a transaction exactly when something in it, at any depth, is empty and not nil |
| `Encoding.StoredExactly` | idb/postgres/internal/encoding/encoding.go:127-341 | the round trip is exact exactly when nothing is omitted or nothing is empty |
| `BlockHeaders.EarliestAfterIs` | idb/postgres/postgres.go:1020-1032 | the sub-select returns the first header by time and round after the time, or none |
| `BlockHeaders.TimeAsRound` | idb/postgres/postgres.go:1017-1045 | with non-decreasing times the round bound selects exactly the headers on the right side of the time |
| `BlockHeaders.BuildBlockHeadersQuery` | idb/postgres/postgres.go:997-1081 | whatever the table holds, a header meets all collected terms exactly when it is in the rounds, on the right side of the times, and proposed, expired or suspended as asked |
| `BlockHeaders.TermsMean` | idb/postgres/postgres.go:997-1081 | the conjunction of the terms a filter calls for holds exactly when rounds, times and participation do |
| `BlockHeaders.QueryIsExact` | idb/postgres/postgres.go:997-1095 | a header is selected exactly when it is wanted and its second is not cut by the upper bound |
| `BlockHeaders.AnswerIsWanted` | idb/postgres/postgres.go:997-1095 | the whole answer is the ordered list of wanted headers exactly when none lies in a cut second |
| `BlockHeaders.FetchBlockHeaders` | api/handlers.go:1072-1109 | the first headers of the answer up to the limit, and the token of the last |
| `BlockHeaders.DecodeAddresses` | api/converter_utils.go:1027-1078 | the set of the list's addresses, and whether it is too long or holds a bad one |
| `BlockHeaders.BlockParamsToBlockFilter` | api/converter_utils.go:975-1080 | fails exactly for mixed-up rounds, a bad token or bad lists; otherwise the filter with the lower round raised past the token |
| `BlockHeaders.RequestMeans` | api/converter_utils.go:975-1080 | the query of an accepted request asks for exactly the headers that meet the request's own rounds, times and address lists |
| `BlockHeaders.Resume` | api/converter_utils.go:993-1004 | after header k the raised lower round leaves exactly the headers behind k |
| `BlockHeaders.SearchForBlockHeaders` | api/handlers.go:1040-1069 | fails exactly for bad parameters or an invalid filter; otherwise one page, of the asked, default or largest allowed size unless the answer ends, and its token |
| `BlockHeaders.FetchAllHeaders` | api/handlers.go:1040-1109 | is refused exactly for mixed-up or too large rounds, mixed-up times, several lists, a long or a malformed one; otherwise following tokens returns every header the request asks for, in the request's own terms, once, in order, for every positive limit |
| `TxnTree.EdIndexToAddress` | api/converter_utils.go:831-843 | the address at that index of sender, accounts and shared accounts, or a failure, for every 64-bit index |
| `TxnTree.ConvertLocals` | api/converter_utils.go:715-746 | fails exactly for an index outside the list; otherwise the non-empty deltas in ascending order of index with their addresses |
| `TxnTree.LocalsMean` | api/converter_utils.go:733-745 | entry i is the delta of the i-th smallest index with a non-empty delta, under the address that index has; there are no others |
| `TxnTree.SortedKeysUnique` | api/converter_utils.go:733 | there is only one ascending order of the indexes, whatever order they were collected in |
| `TxnTree.Convert` | api/converter_utils.go:715-829 | fails exactly when some node does; otherwise the converted tree |
| `TxnTree.FailsSomewhere` | api/converter_utils.go:720-780 | it succeeds exactly when at every path of the tree all indexes are inside the node's list |
| `TxnTree.SameShape` | api/converter_utils.go:757-780 | at every path, and at no other, stands the conversion of the node there, with the root's position and the node's own created id |
| `TxnTree.OwnFields` | api/converter_utils.go:757-829 | below the root every transaction reports its own sender, deltas, closing amount and created id, with the round, time and offset of the root |
| `TxnTree.RootFields` | api/converter_utils.go:253-303 | the root reports its own sender and deltas with the position, created id and closing amount of its row |
| `TxnTree.SameCount` | api/converter_utils.go:757-780 | the answer has as many transactions as the input |
| `TxnTree.RootFromInnerRow` | api/converter_utils.go:271-280 | a root converted with an inner row's data is the same exactly when it creates nothing or the ids agree |
| `Normalize.OneOrder` | cmd/validator/core/dynamic_processor.go:143-150 | elements with distinct numbers have one ascending order, whatever the sort does |
| `Normalize.NormalizeRecurse` | cmd/validator/core/dynamic_processor.go:172-274 | deleting fields, recursing in any order of keys, collecting and sorting computes the normal form or fails with it |
| `Normalize.CleanResult` | cmd/validator/core/dynamic_processor.go:172-274 | nothing empty, deleted or of one server only is left at any depth, and the four arrays are sorted |
| `Normalize.CleanFixed` | cmd/validator/core/dynamic_processor.go:172-274 | a clean value with distinct ids is its own normal form |
| `Normalize.Idempotent` | cmd/validator/core/dynamic_processor.go:172-274 | normalising twice is normalising once, even with different sorts |
| `Normalize.VoidVanishes` | cmd/validator/core/dynamic_processor.go:101-141 | a value vanishes exactly when it is empty, deleted, or holds nothing else at any depth |
| `Normalize.SameNormal` | cmd/validator/core/dynamic_processor.go:172-274 | values that differ only in vanishing values, fields of one server and the order of the four arrays have one normal form |
| `Normalize.NormalSame` | cmd/validator/core/dynamic_processor.go:172-274 | values with one normal form differ only in that |
| `Normalize.IgnoredFields` | cmd/validator/core/dynamic_processor.go:172-274 | name by name, the fields that are ignored whatever they hold, and no others |
| `Normalize.DeletedFlag` | cmd/validator/core/dynamic_processor.go:172-274 | the flag that removes its object, fails unless boolean, and is otherwise ignored |
| `Normalize.SortedArrays` | cmd/validator/core/dynamic_processor.go:143-150 | name by name, the arrays that are sorted and by which number; the others keep their order |
| `AccountCompare.LookupMap` | cmd/validator/core/struct_processor.go:414-468 | holds an id exactly when an undeleted entry has it, with the value of the last such entry |
| `AccountCompare.CompareAll` | cmd/validator/core/struct_processor.go:130-161 | no differences exactly when the numbers of entries agree and every entry of the node's list has a matching one |
| `AccountCompare.NothingLeftOver` | cmd/validator/core/struct_processor.go:130-161 | then no entry of the indexer is left over, exactly when the node's ids are distinct |
| `AccountCompare.TealKeyValueStoreEqual` | cmd/validator/core/struct_processor.go:319-335 | true exactly when both stores have the same keys and the same value where each is listed last |
| `AccountCompare.ParamsDiffs` | cmd/validator/core/struct_processor.go:163-232 | no differences exactly when all fifteen fields agree |
| `AccountCompare.AppDiffs` | cmd/validator/core/struct_processor.go:260-300 | no differences exactly when all fields agree, with global states compared as maps |
| `AccountCompare.WithoutSpacesMeans` | cmd/validator/core/struct_processor.go:126-128 | removing spaces works piece by piece, leaves nothing of a space and every other character |
| `AccountCompare.BasicDiffs` | cmd/validator/core/struct_processor.go:97-128 | no differences exactly when the basic fields agree up to the tolerated ones |
| `AccountCompare.Equals` | cmd/validator/core/struct_processor.go:82-303 | nothing is reported for an account that is empty at the node; for any other with distinct ids nothing is reported exactly when it is the same account, and with an id listed twice an empty report never means that |
| `AccountCompare.EmptyAccountNotCompared` | cmd/validator/core/struct_processor.go:82-96 | two different accounts, the node's one empty, without a reported difference |
| `AccountCompare.NoDifference` | cmd/validator/core/struct_processor.go:97-303 | what the walk over the node's lists finds equal is the same account in every resource, exactly when the node lists no id twice |
| `DisabledParams.IsDisabled` | api/disabled_parameters.go:277-289 | the scan finds exactly the listed names |
| `DisabledParams.MakeDisplay` | api/disabled_parameters.go:193-233 | a legal display with exactly one kind of line for each parameter, only disabled ones when limited |
| `DisabledParams.ToDisabledMapConfig` | api/disabled_parameters.go:134-171 | succeeds exactly for a legal display whose disabled names are GET parameters; then disables exactly those |
| `DisabledParams.Validate` | api/disabled_parameters.go:366-412 | accepts exactly known paths, operations and parameters, and stops exactly for names under a missing operation |
| `DisabledParams.GetIsReadable` | api/disabled_parameters.go:134-171 | a display of names disabled under GET is legal input |
| `DisabledParams.ShowAndRead` | api/disabled_parameters.go:134-233 | showing a valid configuration, limited or not, and reading it back succeeds and disables the same parameters exactly when only parameters of GET operations are disabled; any other that can be read comes back under GET |
| `DisabledParams.MakeDisabledMapFromOA3` | api/disabled_parameters.go:414-458 | succeeds exactly for a valid configuration; then every operation's entry holds what is disabled for it |
| `DisabledParams.Verify` | api/disabled_parameters.go:481-531 | rejects exactly when the endpoint is off or a disabled optional parameter is supplied |
| `DisabledParams.HandleRequest` | api/disabled_parameters.go:414-531 | a request is rejected exactly when a required parameter is disabled or a disabled one is supplied |
| `BlockTxn.EncodeSignedTxn` | util/util.go:147-187 | succeeds exactly for transactions that name this chain, or nothing where that is allowed |
| `BlockTxn.DecodeSignedTxn` | util/util.go:106-143 | succeeds exactly for short forms without genesis fields and needless flags |
| `BlockTxn.EncodeThenDecode` | util/util.go:106-187 | decoding undoes every successful encoding; the apply data is lost exactly without support for short forms |
| `BlockTxn.DecodeThenEncode` | util/util.go:106-187 | a decoded form encodes to itself exactly when its flags point at something in the header |
| `Sharding.BeforeIsLess` | e2e_tests/src/e2e_indexer/validate_accounting.py:853-856 | byte strings of one length compare as the numbers they stand for |
| `Sharding.Borrow` | e2e_tests/src/e2e_indexer/validate_accounting.py:775-782 | a borrow through any number of zeros subtracts one |
| `Sharding.ByteDec` | e2e_tests/src/e2e_indexer/validate_accounting.py:773-782 | the number minus one for every non-zero number of any length; on zero it wraps to 2^(8n) - 2 |
| `Sharding.ShardBounds` | e2e_tests/src/e2e_indexer/validate_accounting.py:788-809 | fails exactly for zero or negative numbers of shards; otherwise the bounds of the shard the clamped number names |
| `Sharding.ShardMeans` | e2e_tests/src/e2e_indexer/validate_accounting.py:785-809 | shard k spans the addresses from k - 1 to k equal steps of 2^64 / b times 2^192 |
| `Sharding.ShardsCover` | e2e_tests/src/e2e_indexer/validate_accounting.py:785-809 | up to 2^64 shards cover every 32-byte address |
| `Sharding.ShardsShare` | e2e_tests/src/e2e_indexer/validate_accounting.py:785-809 | two shards share an address exactly when they are neighbours and it is the one between them |
| `Sharding.TooManyShards` | e2e_tests/src/e2e_indexer/validate_accounting.py:788-809 | with more shards only the first and the last address lie in one |

## Left out

- Accounts, assets, applications and boxes: their queries are long field copies with plain keyset paging.
- HTTP handlers, generated routes and types, error texts, metrics, configuration files: plumbing.
- Contexts, timeouts and cancelled searches: a page is computed in one piece.
- The JSON and msgpack codecs: decoding a stored row never fails in the model, and a record after JSON is the record without its overridden fields and, for a codec that omits them, without empty maps and lists.
- SQL text: a query is a list of conditions with numbered arguments; types, quoting and execution plans are not modelled.
- Unknown transaction types and missing created ids: the writer's errors for them are not modelled; the id of a created application or asset is part of the transaction.
- Accounting: the tables the main import transaction writes besides the header and the round counter are not modelled, and loading the genesis block is the step that accounts round 0.
- TxnSearch.FetchAll: does not cover returning inner transactions themselves; `SearchModes.InnerRowToken` says when the tokens of that mode work.
- TxnSearch.TxnRowToTransaction: keeps identity, position, tree and failure of the root; the fields that depend on the row are in `TxnTree.RootFromInnerRow`, and whether a local delta is for a listed account is a flag here and computed in `TxnTree.EdIndexToAddress`.
- BlockImport.ImportIsComplete: the largest round ever given to the pruner bounds what may be missing; the age-based choice of that round is not modelled.
- Rewind.RewindAssets: the amount a destroyed asset's creator held, and what inner transactions moved, are parameters of the history, since no row shows them.
- TxnTree.Convert: a state delta keeps its content; the order of keys inside one delta and all copied fields are left out. An index that stops the program and one that is reported count as the same failure.
- Normalize.NormalizeRecurse: numbers are reals, and an error and a sort that stops the program count as the same failure; the shortcut for accounts without an amount is not modelled.
- AccountCompare.CompareAll: one procedure for the four resource lists, which the source writes out four times.
- DisabledParams.MakeDisplay: the YAML text is not modelled.
- BlockTxn.EncodeSignedTxn: genesis hashes and the fields that are not touched are numbers, with 0 for an absent hash.
- Ledger.YieldTransactions: the payset is already decoded, so a transaction that does not fit the block's genesis is not an error here; `BlockTxn.DecodeSignedTxn` models that step.
- FilterMeaning.QueryMeansDocumented: assumes that only payments carry an amount and a closing amount, as the ledger's transaction format has it, and that block times never go back, as the ledger guarantees.
- MigrationProgress.ProgressIsExact: the condition speaks of the steps of the run; `MigrationProgress.StartIsSafe` gives it as a test before a start.
