# A verified model of the Factom server's block building

The Factom server takes commits and reveals of entries, charges them to entry credit balances, and
every ten minutes turns what it accepted into linked blocks. This project models that engine in Dafny
and proves what it keeps, step by step and over whole runs:

- the message handlers and the orphan pool (`Ledger`, and the class in `Processor`), the building of
  blocks from the process list (`Builder`, and the class in `BlockBuilder`), and both together as a
  state machine whose steps are a message or the end of minute 10 (`Server`);
- what that engine answers and records, in seconds, credits and bytes: when a message is accepted and what it
  changes (`Acceptance`), what becomes of orphans (`Orphans`), how the blocks of every chain lead to one
  another and what each period leaves in them (`Records`);
- the structures under them: the replay filter (`ReplayFilter`), the growing sparse slice and the
  process list (`ProcessList`), the flat Merkle tree (`Merkle`), and the binary formats (`VarInt`,
  `Entries`, `EBlock`, `ECBlock`, `AdminBlock`, `DirectoryBlock`);
- what reads the blocks again: balances from entry credit blocks (`ECLedger`), chains from the key
  layout of the database (`EntryStore`, `ChainNumbers`), times from minute markers (`Minutes`), the
  check of the directory chain (`Validator`), the whole of start-up on a filled database (`TableScan`,
  `Startup`), the server's signatures (`Signatures`), and a client that catches up over the network
  (`SyncUp`, `SyncProofs`, `Agreement`).

## How it is put together

Code that updates state is written twice: as a function on values, which the lemmas speak about, and as
a method with the source's loops, branches and assignments, proved to compute that function. Properties
over runs are invariants of the state machine: `ServerBlocks.Inv` is the server's invariant, kept by
messages (`Server`, `Runs`) and by closing a block (`CloseProofs`); `SyncProofs.SyncInv` is the
client's. `Runs`, `Orphans`, `Records`, `Strangers`, `Validator`, `Restart` and `Agreement` state the results
for every state of every run. A run starts in a state that satisfies `Runs.Boot`: a database as servers
leave it, whatever became of single chains in it, and in memory what start-up reads from that.
`Restart.RestartOverRun` closes the circle: start-up on what any run has built gives such a state again.

A test that the code makes is defined once, as the code makes it; beside it stands a lemma that says what it
comes to without naming it: `Ledger.InTimeMeans` and `Ledger.FaultMeans`, `ReplayFilter.FreshInSeconds`,
`Signatures.AnswerMeans`, `Startup.AllSignedMeans`, `Validator.VerdictMeans`, `SyncUp.CompleteIff`. The main
results are stated in the latter terms.

Foreign code is a parameter. `Hashing` holds two arbitrary hash functions, so nothing assumes that
hashes differ: results that rest on it say "or here are two strings, both hashed on the way, with one
hash". Signing and verifying, the hash of a wire message, factoid blocks and transactions, the clock,
the exchange rate, the order in which Go walks a map or leveldb a table, and verdicts of foreign validity
checks are parameters too. History variables (`log`, `ecSealed`, `eSealed`, `aSealed`, `fSealed`, `snap`,
the filter's `log`) record the past and decide nothing; the invariants say what the tables hold in terms
of them (`ServerBlocks.Recorded`, `ServerBlocks.Tidy`).

What the model asks of the outside is what the Go code needs in order not to panic or wrap: a positive
exchange rate; a clock that does not run backwards and is first read at least a day after the epoch
(the replay filter starts with nil maps); at least one hash for a Merkle tree; counts and heights that
fit their fields (`Builder.Fits`); and that every chain to be created can be read from the database first
(`Builder.CanBuild`; `Strangers.ClosableIff` says when that is so). From the factoid library it asks that
factoid blocks carry the factoid chain's id; for restarts also that they report their heights and their
keys, and that the server's configuration keeps its keys (`Restart.StepHonest`).

## What does not hold

Some things one would expect are false of the code. Each has a lemma with the exact condition under which
it does hold, and most have one with a concrete failure.

- A chain can be known without having been paid for: `processRevealEntry` registers the chain before it
  checks the reveal, and a failed check leaves it registered (`ChainOrder.EntryWithoutChain`,
  `ChainOrder.CreatedUnlessPoisoned`, `Runs.ChainsPaidOverRun`).
- A chain whose id ends in byte 255 is not read back: the upper end of the scan wraps without a carry
  (`EntryStore.RecoveryLoses255`, `Runs.RecoveryOverRun`). It starts over at every start-up, and once
  more has a block number 0.
- A chain that was registered but not created leaves blocks behind that nothing accounts for: its first
  block is filed under no chain id (`Runs.FiledUnder`), the next ones under its own with numbers from 1.
  The id can then not be read any more (`Strangers.TwoPeriodsLeaveGap`; `Strangers.ReadsOverRun` and
  `ChainNumbers.ReadsIff` say exactly which ids can). A reveal that creates the chain after all, in this
  server life or a later one, panics when the block is built (`Strangers.ClosableIff`), after it has
  entered the chain in the chain table, and so does every start-up from then on
  (`Restart.FailedCreationLocksOut`).
- One large purchase makes a balance negative: the credits bought are cut to 32 bits
  (`Balances.BigPurchaseOverdraws`, `Balances.PurchaseSolventIff`).
- An entry whose hash equals a minute marker is lost to the reader (`Minutes.MinuteRoundTrip`).
- External ids of 2^15 bytes or more do not read back, because their size is read as a signed number
  (`Entries.EntryRoundTrip`). Entries that can be paid for are shorter (`Entries.PayableEntryRoundTrips`).
- A Merkle root alone does not fix the number of leaves (`Merkle.LastLeafAmbiguity`,
  `DirectoryBlock.CountIsNeeded`). With the count in the header it does (`DirectoryBlock.HistoryBinding`).
- A client panics while clearing its pool, after storing, exactly when the directory block names an entry
  block whose key an earlier entry has already cleared, or a listed entry block has been displaced by a
  message of another kind (`SyncProofs.ClientStopsIff`, `SyncProofs.RepeatedBlockStopsClient`; what a
  displacement takes is in `SyncProofs.DisplacedMeans`).
- An entry credit block whose header does not say what its body is passes every check, but is stored under
  another key than the one it is listed by, so a client's database is not always closed under reference
  (`SyncProofs.UnmatchedBlockBreaksClosure`; exactly when it is: `SyncProofs.ClosureOverRun`), and equal
  directory chains do not by themselves give equal balances (`Agreement.OtherBody`,
  `Agreement.OtherBalances`; exactly when the blocks are equal: `Agreement.ClientHasServersBalances`).

The comment of `InTime` says 12 hours and the error text of its callers says 24; the code, and the
model, use 12. A comment in `AddECBlockToDBEntry` puts the entry credit block first in a directory
block; the code, and the model, put it second.

## Model

| member | source | states |
|---|---|---|
| Runs.LedgerRefinement | process/processor.go:646-769 | in every reachable state the live balances are the replay of all sealed entry credit blocks plus the effect of the pending process list, and right after a block they are the replay alone |
| Restart.BalancesOnDisk | process/init.go:86-94 | the same of the database: the stored entry credit blocks, fetched in whatever order and sorted by height, replay to those balances, unless two of their headers collide |
| Runs.BalancesAreNet | process/init.go:240-262 | conservation: in every reachable state each balance is, in 32-bit arithmetic, all credits ever bought for the key minus all ever charged to it |
| Runs.NeverOverdrawn | process/processor.go:664-675 | if no purchase reaches 2^31 credits or lifts a balance to 2^31, no balance is negative in any reachable state, nor at any prefix of the replay of the entry credit chain |
| Runs.CommitsOverRun | process/processor.go:523-743 | in every reachable state the commit maps are exactly the open commits of the history; each accepted commit is of at most ten credits, twenty for a chain, for an entry that had none open; each accepted reveal uses up a commit that pays for its size, and for a chain also names it by its double hash and binds it by the weld, under the id that its external ids give; published cost plus open credit never exceeds committed credit |
| Runs.ListedOverRun | process/processor.go:257-425 | in every reachable state a message puts its item on the process list exactly if it is due, and nothing if it is not; what is due is written out in seconds, credits, sizes and hashes for each kind of message |
| Runs.ChainsFoundedOverRun | process/processor.go:588-615 | before every accepted first entry of a chain there is a chain commit for it that no other reveal has used, of 11 to 20 credits that pay ten more than the entry's size, whose chain hash is sha256(sha256(chain id)) and whose weld is sha256(sha256(entry hash + chain id)); the id is the sha256 of the joined sha256s of the external ids, and not a reserved one |
| Runs.EntriesPaidOverRun | process/processor.go:534-573 | before every accepted later entry there is an entry commit for it that no other reveal has used, of one to ten credits that pay for its size; its chain id is not a reserved one |
| Acceptance.EntryCommitAccepted | process/processor.go:646-693 | an entry commit is answered with success and appended exactly if its whole second is less than twelve hours from the clock in either direction, its hash is not open, it takes at most ten credits and the balance covers them, and there is room; then the whole new state, and what a commit that is not due or finds no room leaves |
| Acceptance.ChainCommitAccepted | process/processor.go:696-743 | the same for chain commits, with the limit of twenty credits |
| Acceptance.RevealAccepted | process/processor.go:523-643 | a reveal is accepted exactly if it is a paid entry of a known chain, or a paid first entry of an unknown one with the right id, chain hash and weld, in both cases under an id that is not reserved; the whole new state, refused or accepted |
| Acceptance.HonestEntryIsListed | process/processor.go:534-573 | a commit stamped within eleven hours, signed afresh, for an entry without an open one, of a known chain, with up to ten credits that cover the size and that the key has, and then its reveal, put both on the list, charge the key once and use up the commit |
| Acceptance.HonestChainIsListed | process/processor.go:574-637 | the same for a chain commit and the first entry of an unknown chain, which is known from then on |
| Acceptance.PurchaseServed | process/processor.go:394-420 | a transaction the factoid library takes is listed exactly if the replay filter passes it; each balance then goes up, in 32 bits, by the whole credits that the outputs to its key buy |
| Orphans.SecondChance | process/processor.go:772-804 | a reveal among the orphans whose chain is known by now and whose commit pays is on the list when the period ends, is an orphan no more, and has used up its commit, in whatever order the pool is walked |
| Orphans.OrphansOverRun | process/processor.go:545-551 | in every reachable state only reveals wait in the pool, each under the hash that commits name it by |
| Records.LinksOverRun | common/ecblock.go:45-58 | in every reachable state, restarts included, each block of the directory, entry credit and admin chains stands at its height, says what it holds, is listed by the hash of its bytes, and is what the next block, sealed or open, leads back to: prevHeaderHash by the sha256 of its header bytes and prevLedgerKeyMR by that of all its bytes for entry credit blocks, and likewise by the two hashes of directory blocks and the one of admin blocks |
| Records.EntryLinksOverRun | common/eblock.go:36-52 | the same for the blocks of every loaded or created entry chain, with the Merkle root of the body in the key, unless stored entry blocks collide, and except for ids that end in 255 |
| Records.PeriodOverRun | process/processor.go:820-898 | when a block closes, the sealed entry credit block records each commit, minute and bought output of the period once, in order and with its credits, and nothing else; the admin block its first minute; the next admin block starts with the signature of the new directory block's header; the list ends with minute 10 |
| Records.PublishedIsStored | process/processor.go:806-818 | every entry accepted in a closed period is in the database under its name, or an entry with the same name is and the hashed strings collide |
| Runs.ChargedOnceOverRun | process/processor.go:260-300 | no two accepted commits carry the same signed bytes, and two with one signature hash are a collision |
| Runs.AlternationOverRun | process/processor.go:572-637 | per entry hash, accepted commits and reveals of each kind strictly alternate, starting with a commit |
| Runs.CreationOverRun | process/processor.go:574-637 | each chain is created at most once, never if it was loaded, and before any entry of it is accepted |
| Runs.ChainsPaidOverRun | process/processor.go:581-615 | every known chain was loaded or paid for exactly as long as no reveal, fresh or retried, registered its chain and then failed |
| Runs.MinutesOverRun | process/processor.go:872-898 | whenever a block closes, each chain with an entry in the period gets one block of that period, which carries the chain's id unless nobody created the chain and it is its first, is the only new one that does, and is listed by the new directory block; reading it back reports every entry once, in order, at its minute, exactly when none looks like a marker |
| Runs.MinutesAreValid | process/processor.go:326-352 | only the ten minute markers ever reach a process list |
| Runs.RecoveryOverRun | process/init.go:288-312 | right after a block, a loaded or created chain is read back with its live height and open block unless two stored blocks collide; one whose id ends in 255 exactly when it has no block |
| Runs.RunKeepsInv | process/processor.go:257-425 | every state of every run satisfies the server's invariant, also when a run starts from a database with chains that start over or cannot be read |
| Runs.EmptyServerBoots | process/init.go:52-60 | a server with an empty database is a state that runs may start from |
| CloseProofs.BuildKeepsInv | process/processor.go:953-1030 | closing a block keeps the whole invariant: balances, chains, tables and directory chain |
| CloseProofs.SealKeepsLinked | common/directoryBlock.go:424-453 | sealing a directory block keeps the chain linked by both hashes and numbered by position, and the next open block links to it |
| CloseProofs.SealedBalances | process/processor.go:820-848 | the sealed entry credit block carries exactly the effect of the process list on balances |
| CloseProofs.NewListed | process/processor.go:953-996 | everything a new directory block lists is stored under the key it is listed by |
| Validator.BuilderMeetsValidator | process/init.go:325-495 | the directory chain and database of every reachable state pass the start-up check exactly when listed factoid blocks report their keys, unless two stored entry blocks collide |
| Restart.RestartOverRun | process/processor.go:110-177 | from every reachable state with a block, start-up succeeds on what is stored, in whatever order the tables are read, and gives a state that runs start from: the replayed balances, which right after a block are the live ones, the same directory chain, and every chain created before the open period as it was, except that one whose id ends in 255 comes back right exactly when it has no block; unless stored entry blocks or records of one table collide |
| Restart.RunKeepsHonest | process/processor.go:1243-1254 | every sealed admin block above height 0 carries as its first signature the server's, which verifies on the marshalled header of the directory block below, and the one at height 0 none; factoid blocks stand at their heights under their keys |
| Restart.UnreadableStops | process/processor.go:160-165 | one chain of the chain table that cannot be read stops start-up |
| Restart.FailedCreationLocksOut | process/processor.go:850-857 | when a period that fits cannot be closed, the first creation that fails has entered its chain in the chain table, and every start-up on what is then stored panics |
| Strangers.ReadsOverRun | process/init.go:288-297 | in every reachable state an id can be read exactly if it ends in 255, was created, or has no stored block, unless stored entry blocks collide |
| Strangers.ClosableIff | process/processor.go:850-868 | a period that fits can be closed exactly if each chain created in it has no stored block or an id ending in 255, unless stored entry blocks collide |
| Strangers.TwoPeriodsLeaveGap | process/processor.go:1054-1081 | a chain that nobody created and that gets entries in two periods can no longer be read |
| ChainNumbers.ReadsIff | process/init.go:288-297 | a chain can be read exactly if no number is missing below a stored one or its id ends in 255, unless stored entry blocks collide |
| ChainNumbers.FetchedChain | database/ldb/eblock.go:283-322 | the scan gives stored blocks of the chain, one for each of its numbers, in the order of the numbers, unless stored entry blocks collide |
| TableScan.SortedFetch | database/ldb/ecblock.go:135-156 | a table whose rows have distinct keys and stand at their heights reads back as it was written, in whatever order the iterator delivers it |
| Startup.InitializeECChain | process/init.go:80-125 | the loops fetch, sort and replay all entry credit blocks; the block opened leads to the newest one by the hash of its header and by that of all its bytes, or is the first, with the ten minutes of a block to come |
| Startup.InitializeAChain | process/init.go:128-162 | the loop checks the height and signature of every admin block and opens the next one; it succeeds only if each is signed as its height asks, over the header of the directory block below |
| Startup.InitializeFctChain | process/init.go:165-217 | the loop leaves the exchange rate of the newest factoid block, or 666666 where there is none |
| Startup.StartsIff | process/processor.go:110-177 | start-up succeeds exactly on a sound database: directory, admin and factoid blocks at their heights, entry credit and admin tables empty or as long as the directory, every admin block signed as its height asks, every chain of the chain table readable, and a directory chain that passes the validator |
| Startup.WhatStartsIsSigned | process/init.go:128-162 | if start-up succeeds, every stored admin block above height 0 has a first signature under the server's key that verifies on the marshalled header of the loaded directory block below |
| Signatures.AnswerMeans | process/syncup.go:427-457 | the check says yes exactly to a block whose first signature is under the server's key and verifies on the header of the directory block in the slot below, or to one at height 0 without a signature; it panics exactly where it finds the server's key and no such slot |
| Startup.InitializeEChains | process/processor.go:160-165 | the loop reads every chain of the chain table, in whatever order, or fails on one that cannot be read |
| Startup.InitProcessor | process/processor.go:110-177 | the whole sequence computes what start-up leaves in memory, or fails where the specification does |
| Validator.ValidMeans | process/init.go:325-423 | the check succeeds exactly on a non-empty chain of the expected length and genesis hash, linked throughout, with everything listed stored under its key |
| Validator.ValidatedHistoriesAgree | process/init.go:361-377 | two validated chains with one head key hold the same history, or two strings that were hashed collide |
| Validator.ValidateDChain | process/init.go:325-380 | the loop gives the verdict of the first failing block, its links before its contents |
| Validator.ValidateDBlock | process/init.go:383-423 | the loop gives the verdict of the first failing entry, and both hashes of a valid block |
| Validator.ValidateEBlockByMR | process/init.go:467-495 | an entry block is valid when it is found by its key, has that key, and all its non-marker entries are stored |
| DirectoryBlock.HistoryBinding | common/directoryBlock.go:616-642 | linked, numbered chains with one head key Merkle root are equal block for block, or a concrete pair of hashed strings collides |
| ECBlock.HistoryBinding | common/ecblock.go:45-58 | linked, numbered entry credit chains whose newest headers have one hash are equal block for block, or a concrete pair of hashed strings collides |
| AdminBlock.HistoryBinding | common/adminBlock.go:66-91 | linked, numbered admin chains that end in the same block are equal block for block, or two of their blocks have one half of SHA-512 |
| EBlock.HistoryBinding | common/eblock.go:36-52 | linked, numbered entry chains with one head key are equal block for block, or a concrete pair of strings hashed for keys collides |
| DirectoryBlock.CountIsNeeded | common/directoryBlock.go:616-629 | without the count an odd last entry can be repeated in place with every hash unchanged |
| DirectoryBlock.RoundTrip | common/directoryBlock.go:595-671 | a directory block reads back, with any trailing bytes left over, exactly when its header counts its entries |
| DirectoryBlock.EntriesLayout | common/directoryBlock.go:595-615 | entry i of the list lies at byte 64i, its chain id first and then its key |
| DirectoryBlock.UnmarshalEntriesBinary | common/directoryBlock.go:660-668 | the reading loop consumes that format, with the same errors |
| Merkle.BuildMerkleTreeStore | common/merkle.go:38-76 | the in-place array is the rows of the recursive tree over the padded leaves, and its last cell is the root |
| Merkle.LastCellIsRoot | common/merkle.go:38-76 | the last cell of the rows is the root of the recursive pairing that repeats an odd last node |
| Merkle.LevelsOfRows | common/merkle.go:50-74 | level k starts at its offset, holds its nodes first and only empty cells after, all within the array |
| Merkle.LevelSize | common/merkle.go:50-74 | level k of the tree over n leaves has ceil(n / 2^k) nodes |
| Merkle.NextPowerOfTwoCorrect | common/merkle.go:14-23 | the array size is a power of two p with n <= p < 2n |
| Merkle.PowerOfTwoTest | common/merkle.go:16-18 | the bit test means "power of two" |
| Merkle.RootCommits | common/merkle.go:28-36 | equal roots of equally many leaves mean equal leaves or a collision |
| Merkle.LastLeafAmbiguity | common/merkle.go:60-72 | repeating an odd last leaf keeps the root |
| ReplayFilter.Filter.IsTSValid | process/replay.go:37-75 | the 24 shifting buckets accept exactly what an unbounded log of (hash, hour) pairs would, whatever the gaps between calls: a time whose hour, of 3600 seconds, is from twelve before the clock's to eleven after, and a hash not accepted for that hour before |
| ReplayFilter.Filter.Advance | process/replay.go:44-56 | the shift loop keeps every bucket in agreement with the log, also after more than a day |
| ReplayFilter.NeverTwice | process/replay.go:37-75 | over a whole sequence of calls no hash is accepted twice for times in one hour of 3600 seconds |
| ReplayFilter.AcceptanceWindow | process/replay.go:21-75 | in seconds: a hash never accepted before passes within eleven hours of its time in either direction; nothing passes that is more than thirteen hours old or twelve hours ahead |
| ReplayFilter.FreshInSeconds | process/replay.go:21-35 | the decision and the record it leaves, in seconds |
| ProcessList.SliceRefinesMap | consensus/plist.go:34-51 | after any sequence of adds slot i holds the last item added there or nil |
| ProcessList.Slice.Put | consensus/plist.go:34-51 | growing, re-slicing and assigning in place writes one slot and loses none |
| ProcessList.ProcessList.AddMyProcessListItem | consensus/plistmgr.go:111-128 | the server's list stays dense and the acknowledgement's index is the position |
| ChargedOnce.NeverChargedTwice | common/commitentry.go:69-83 | a history whose filter keys are distinct has no two commits with the same signed bytes |
| ChargedOnce.ServeKeepsOnce | process/processor.go:260-300 | every message keeps the filter keys of accepted commits and purchases distinct and remembered |
| Commits.EntriesAlternate | process/processor.go:534-573 | between two commits of one entry hash there is a reveal, and before each reveal its own commit |
| Commits.ChainsAlternate | process/processor.go:574-637 | the same for chain commits and chain reveals |
| Commits.PublishedIsPaid | util/misc.go:34-56 | cost of published entries, plus 10 for each chain, plus open commits, is at most what was committed |
| ChainOrder.CreationComesFirst | process/processor.go:574-637 | one creation for each chain, before its entries |
| ChainOrder.CreatedUnlessPoisoned | process/processor.go:581-615 | a reveal keeps "every known chain was loaded or paid for" exactly when it does not register its chain and fail |
| ChainOrder.EntryWithoutChain | process/processor.go:581-597 | four messages that put an entry on the process list for a chain that nobody created |
| Balances.PurchaseSolventIff | process/processor.go:748-756 | a purchase leaves all balances non-negative exactly when each balance plus the credits bought is below 2^31 modulo 2^32 |
| Balances.BigPurchaseOverdraws | process/processor.go:752-754 | buying 2^31 credits makes an empty account negative |
| Balances.SolventAtEveryPrefix | process/init.go:240-262 | records that are each covered keep every balance non-negative at every prefix of the replay |
| Balances.ReplayIsNet | process/init.go:240-262 | replaying records adds their net effect to each balance, in 32-bit arithmetic |
| ECLedger.InitializeECreditMap | process/init.go:240-262 | the loop over one block is the replay of its records |
| ECLedger.BalancesFromBlocks | process/init.go:91-94 | the loop over a list of blocks computes their replay |
| ECLedger.CastsCancel | process/processor.go:831-832 | the cast of a purchase into the block and the cast out of it cancel |
| ECLedger.ReplayIncreases | process/processor.go:820-840 | replaying the records of a purchase is the purchase |
| Minutes.MinuteRoundTrip | wsapi/wsapi.go:357-382 | reading a chain's block reports every entry once, in order, at its minute, exactly when no entry of the chain looks like a marker |
| Minutes.ReaderUndoesWriter | wsapi/wsapi.go:366-382 | without such entries nothing is left over either |
| Minutes.HandleEntryBlock | wsapi/wsapi.go:366-382 | the loop with its stack of unstamped entries computes that reading |
| Minutes.TouchedChains | process/processor.go:873-883 | the forward scan finds the chains with an entry since the last marker |
| EntryStore.RecoveryIsExact | database/ldb/eblock.go:283-322 | for a chain id not ending in 255 the scan and sort give exactly the chain's blocks in order, so the live chain comes back, unless two stored blocks collide |
| EntryStore.RecoveryLoses255 | database/ldb/eblock.go:325-338 | for an id ending in 255 recovery is right exactly when nothing was stored |
| EntryStore.ScanFindsChain | database/ldb/eblock.go:287-310 | the range holds the chain's keys only, in the order of their sequence numbers |
| EntryStore.BigEndianOrder | database/ldb/eblock.go:84-88 | byte order of big-endian numbers is numeric order |
| EntryStore.AddOneToByteArray | database/ldb/eblock.go:325-338 | the loop always stops at the last byte, which wraps without a carry |
| EntryStore.StoredBlockIsFound | database/ldb/eblock.go:39-101 | a stored block is found by its hash, or another stored block collides with it |
| SyncProofs.SyncClosure | process/syncup.go:178-425 | however arrivals interleave with checking, storing and clearing, stored heights have no gap, balances are the replay of the stored entry credit blocks, and everything stored blocks refer to is stored, an entry credit block at least received under its key and written, unless the run contains a hash collision |
| SyncProofs.ClosureOverRun | process/syncup.go:299-313 | in every reachable state everything that stored blocks refer to is stored under its key exactly if each listed entry credit block came with a header that a stored block was written with, above all its own; or there is a hash collision |
| SyncProofs.UnmatchedBlockBreaksClosure | process/syncup.go:299-313 | a run of four steps after which a stored directory block refers to an entry credit block that is not stored, unless two headers collide |
| SyncProofs.LongHeaderIsRead | common/ecblock.go:279-329 | the block of that run is one that the reader accepts |
| SyncProofs.NothingClearedEarly | process/syncup.go:402-425 | a message leaves the pool only after the directory block that needs it was stored with everything it refers to, entry credit blocks exactly if they are matched in the sense of ClosureOverRun |
| SyncProofs.ClearingIff | process/syncup.go:402-425 | clearing does not panic exactly when every listed entry block is there and was not already cleared by an earlier entry, and then removes exactly the block's messages |
| SyncProofs.ClientStopsIff | process/syncup.go:402-425 | a client that has stored a block panics on clearing it exactly when an entry block's key is accounted for by an earlier entry, or a listed entry block has been displaced |
| SyncProofs.DisplacedMeans | process/mempool.go:64-74 | a displacement takes a hash collision or a factoid block whose hash is the key of a stored entry block |
| SyncProofs.RepeatedBlockStopsClient | process/syncup.go:413-419 | a client that has stored a directory block listing one entry block twice panics on clearing it |
| SyncProofs.StoredIsBacked | process/syncup.go:295-399 | what a client stored passes the validator's check of every listed block exactly if factoid blocks are honest and entry credit blocks matched, up to collisions |
| SyncProofs.StoredWasComplete | process/syncup.go:184-291 | every directory block that a client has stored was found complete at an earlier step of the run: all parts at hand, and each admin block above height 0 among them signed by the server over the directory block in the slot below |
| SyncProofs.ChainTableOverRun | process/syncup.go:344-363 | over a run the client's chain table holds exactly the chains whose block number 0 it has stored, each with an entry that such a block starts with, until the client stops |
| SyncProofs.ClientAdvances | process/syncup.go:184-206 | if the block after the newest is in its slot and complete, with parts of the right kinds, checking and storing put it on top |
| SyncUp.CompleteIff | process/syncup.go:233-291 | the check passes exactly a block whose parts are all at hand, with every admin block signed as its height asks and the expected hash at height 0 |
| SyncUp.CheckStopsIff | process/syncup.go:233-291 | the check panics exactly on an unexpected block at height 0, or where the first part that is not fine is one it cannot handle |
| EBlock.EqualKeyMR | common/eblock.go:104-113 | entry blocks with one key are equal or two strings hashed for it collide |
| SyncUp.Client.ValidateBlocksFromMemPool | process/syncup.go:233-291 | the loop answers with the first part that is missing or unusable, and yes exactly if the block is complete, the server's signature included |
| SyncUp.Client.StoreBlocksFromMemPool | process/syncup.go:295-399 | the loop stores part by part and the directory block last, stopping at the first failure |
| SyncUp.Client.DeleteBlocksFromMemPool | process/syncup.go:402-425 | the loop succeeds and clears exactly as ClearingIff describes |
| SyncUp.Client.ValidateAndStoreBlocks | process/syncup.go:184-206 | one round: nothing changes unless the next block is complete; then it is stored and cleared, as the steps of the client's state machine do |
| SyncUp.Client.ProcessDirBlock | process/syncup.go:22-71 | a directory block for a stored height changes nothing; another one takes its slot, and its place in the pool while that has room, as the arrival step of the state machine does |
| Agreement.ClientHasServersBalances | process/syncup.go:299-313 | a client whose stored directory chain is the server's has the server's entry credit blocks exactly if the header of each that it stored says what its body is, and then the server's balances; or there is a hash collision |
| Agreement.OtherBody | process/syncup.go:249-255 | another body of as many records under a server's header comes under the same key, is read, and matches its header exactly if it is the server's body, or the bodies collide |
| Agreement.OtherBalances | process/init.go:240-262 | such a body can replay to other balances |
| Agreement.ServersBlockIsAccepted | process/syncup.go:233-291 | a client that trusts the server's key accepts every directory block of every server run once its parts are in the pool and the block below is in its slot |
| ECBlock.RoundTrip | common/ecblock.go:80-131 | every entry credit block reads back with its header, its tagged records in order, and exactly the bytes that followed |
| ECBlock.BodyRoundTrip | common/ecblock.go:138-272 | tagged records of different lengths are cut apart again |
| ECBlock.RecordFormat | common/ecblock.go:138-151 | the tag byte of each kind of record and the bytes that follow it |
| ECBlock.MarshalBodyBinary | common/ecblock.go:138-151 | the writing loop produces that format |
| ECBlock.UnmarshalBodyBinary | common/ecblock.go:195-272 | the tag-dispatch loop consumes it, with the same errors |
| VarInt.RoundTrip | common/varint.go:13-59 | for every 64-bit v and every suffix, decoding the encoding gives v and the suffix |
| VarInt.Shortest | common/varint.go:32-59 | no shorter byte string decodes to v |
| VarInt.EncodedLength | common/varint.go:32-59 | the length is the least k >= 1 with v < 128^k |
| VarInt.VarIntLength | common/varint.go:61-67 | encoding and counting gives that length, at most 10 for 64 bits |
| VarInt.PrefixFree | common/varint.go:32-59 | no encoding is a proper prefix of another |
| VarInt.EncodeVarInt | common/varint.go:32-59 | the shift loop writes that encoding |
| VarInt.DecodeVarInt | common/varint.go:13-29 | the shift loop computes that decoding |
| Entries.EntryRoundTrip | common/entry.go:77-182 | an entry reads back exactly when its external ids take less than 2^15 bytes |
| Entries.PayableEntryRoundTrips | util/misc.go:34-56 | an entry that has a price reads back |
| Entries.EntryCostMeaning | util/misc.go:34-56 | the price is one credit for each started kilobyte, at least one, at most ten, and exists up to 10 KiB |
| Entries.UnmarshalExtIDsBinary | common/entry.go:152-176 | the countdown loop reads the format, with the same errors, an exhausted buffer included |
| Entries.IncreaseRoundTrip | common/increasebalance.go:56-97 | two consecutive varints are told apart |
| Entries.CommitEntryRoundTrip | common/commitentry.go:115-216 | a commit reads back |
| Entries.CommitChainRoundTrip | common/commitchain.go:120-246 | a chain commit reads back |
| Entries.SignedPartFixesTime | common/commitentry.go:69-83 | the signed part fixes the time that the replay filter is asked about |
| EBlock.RoundTrip | common/eblock.go:116-153 | an entry block reads back with entries, markers and trailing bytes |
| EBlock.UnmarshalBodyBinary | common/eblock.go:203-219 | the loop that reuses one buffer reads the format, short last hash included |
| AdminBlock.RoundTrip | common/adminBlock.go:133-186 | an admin block with right counts reads back |
| AdminBlock.EntryFormat | common/adminBlock.go:381-400 | the type byte of each kind of entry and where its fields lie |
| AdminBlock.MarshalledSize | common/adminBlock.go:147-157 | the size of header and entries summed up, in 64 bits, is the size written |
| AdminBlock.SealedBodySize | process/processor.go:1120-1121 | the recorded body size is the number of bytes after the header |
| AdminBlock.UnmarshalEntriesBinary | common/adminBlock.go:173-184 | the type-dispatch loop reads the format, with the same errors |
| BuildProofs.ListOnChains | process/processor.go:1033-1051 | building from a process list leaves each chain with exactly the body its entries and minutes prescribe |
| BuildProofs.SealChainsIs | process/processor.go:988-996 | sealing chain by chain is sealing all chains at once |
| Processor.Processor.ProcessCommitEntry | process/processor.go:646-693 | the handler on the maps and the process list moves the abstract state as the ledger prescribes, whose answer and new state Acceptance.EntryCommitAccepted writes out |
| Processor.Processor.ProcessCommitChain | process/processor.go:696-743 | likewise for chain commits (Acceptance.ChainCommitAccepted) |
| Processor.Processor.ProcessRevealEntry | process/processor.go:523-643 | likewise for reveals of either kind, retries included (Acceptance.RevealAccepted) |
| Processor.Processor.ProcessBuyEntryCredit | process/processor.go:746-769 | likewise for purchases, with the loop over outputs |
| Processor.Processor.ProcessFromOrphanPool | process/processor.go:772-804 | the loop over the orphan map retries them in some order |
| Processor.Processor.EndProcessList | process/processor.go:326-333 | minute 10 retries the orphans and ends the list |
| BlockBuilder.BlockBuilder.BuildFromProcessList | process/processor.go:1033-1051 | the loop over the list fills the open blocks as the builder prescribes |
| BlockBuilder.BlockBuilder.BuildEndOfMinute | process/processor.go:872-898 | markers go to exactly the touched chains, in whatever order the map is walked |
| BlockBuilder.BlockBuilder.BuildBlocks | process/processor.go:953-1030 | the whole in-place sequence of sealing, storing, linking and reopening ends in the state that the run theorems speak about; the new open entry credit and admin blocks lead to the blocks just sealed, whose headers say what they hold |
| BlockBuilder.BlockBuilder.EndPeriod | process/processor.go:326-340 | orphans, end of list and building together, for sorted chain ids and some order of orphans |
| BlockBuilder.SortedKeys | process/processor.go:981-986 | every known chain id once, in order |

## Left out

- Client-mode variants of the message handlers: a client does not charge, list or build.
- `fMemPool.pool`, `outMsgQueue` broadcasts, logging, the control panel, exports and timers: they decide nothing here.
- Bitcoin anchoring and `DirBlockInfo` records.
- Factoid state: a transaction is its hashes, time and entry credit outputs; a factoid block is its chain id, hash, key, height and rate; start-up does not replay its transactions.
- Building the genesis blocks on an empty database; `Startup` covers databases with at least one block.
- Stored bytes that do not decode: tables hold blocks, and the round trips say which blocks read back.
- A server stopped in the middle of closing a block, except by the panic of `buildRevealChain`.
- The cross-references by height and the heads of chains: the directory block that start-up signs is the newest one loaded.
- HTTP routing, JSON, configuration, wallet and key files.
- leveldb itself, batches and locks: tables are maps, and the number table is a list of rows in key order.
- Goroutines: handlers are atomic steps, except that a client's checking, storing and clearing are separate steps between which messages arrive.
- Chains are kept as values in the chain map; the source shares pointers to them, and nothing in the modelled code relies on two names for one chain.
- `math.Log2` in nextPowerOfTwo is the exact integer logarithm.
- `make` with a very large size, which fails for lack of memory.
- Process lists and directory chains with index 2^31 or more, where the slice code itself panics.
- The panics of `initEChainFromDB` on misnumbered blocks are an error value, and a block that would meet one is not built: the run ends there.
- Validator.BuilderMeetsValidator: takes the run's own first block as the genesis block, because the constant in the source is one particular hash.
- Restart.RestartOverRun: takes as genesis hash that of the run's own first block, and fewer than 2^32 blocks.
- Agreement.ClientHasServersBalances: compares clients by equal directory chains; that a client's chain is linked is only checked when it restarts, which Validator.ValidatedHistoriesAgree covers.
