# A verified model of the wallet indexer

eps-go is an Electrum personal server. It follows one trusted bitcoin node, derives the scripts of the
configured wallets, scans blocks for them, and answers Electrum clients from what it recorded. This project
models that indexer, the package `walletmanager`, and proves what it is for: **once caught up with a chain that
respects the gap limit, the tables a client is answered from are a function of that chain and of the heights above
which its wallets are followed**. It says exactly where the path taken shows all the same: through those heights,
and, beyond the gap, through the derivation indexes that a rollback leaves standing.

`dafny verify dfyconfig.toml` checks everything (Dafny 4.11).

## How it is built

| file | content |
|---|---|
| `Base.dfy` | identifiers, blocks, the uninterpreted functions of the outside world |
| `Merkle.dfy` | the Merkle code, in place over arrays, against a recursive tree |
| `Codec.dfy` | outpoint keys, flattened proofs, the text hashed into a status |
| `Tables.dfy` | the four scanning tables and `utxoIndex` as one value; each SQL statement as a change to it |
| `Oracle.dfy` | the chain as a list of events; what the tables *mean* after one scan; one step keeps the meaning |
| `Passes.dfy` | the tables in the middle of any number of passes over the chain; one step keeps them |
| `Rollback.dfy` | `deleteAllSinceBlock` against both; when its INSERT collides |
| `Derivation.dfy` | the gap-limit window |
| `Scan.dfy` | a scan whose watched set grows while it runs; the gap condition |
| `Chain.dfy`, `Headers.dfy` | header chains, their events, the header protocol with a peer |
| `Blocks.dfy` | events and blocks: every output and every input of the chain is one event, in order, with its own amount |
| `System.dfy`, `Invariant.dfy` | the state machine, its invariant, one preservation lemma a step |
| `Runs.dfy`, `Rescan.dfy`, `Theorems.dfy` | whole runs: path independence, added wallets, refused rollbacks, rollback undoing a scan, every reachable state |
| `Indexes.dfy` | the indexes a rollback leaves standing: when the blocks after it are recorded in full |
| `SmallWorld.dfy`, `Example.dfy` | one concrete world, and the runs in it in which the conditional results fail as they say |
| `Queries.dfy` | balances, unspent lists, histories, notifications, statuses |
| `OnChain.dfy` | the tables in terms of blocks alone: what each row says at any time, which rows there are at the tip |
| `Repository.dfy`, `WalletManager.dfy`, `Service.dfy` | the two Go objects as classes, every method proved against the specification function of its step; the process from an empty database |

The reading order is: `Oracle.Meaning` (what the tables should hold after one scan), `Passes.Overlay` (and in the
middle of several), `Invariant.Inv` (what every step keeps), `Theorems` (what follows), `TablesOnChain.TablesAre` (what
that is in terms of the blocks, without events).

The central idea is the *mark* of `Passes.dfy`: output o was recognised by a pass that has come to event `reach`.
The tables are a function, `Overlay`, of the set of marks alone. A block moves the marks of the present pass
forward; a wallet added with a low birth height starts a pass further down and leaves the marks as they are; a
rollback cuts every mark at the fork. At the tip all marks stand together and `Overlay` is the one scan `Meaning`.
So nothing has to be said about the order in which these things happen. That the premises of these results can be
met is shown by `Theorems.FreshIsGood`, from which every run starts, and by the runs of `Example.dfy`.

For each configured wallet the run carries the height above which it is followed (`Invariant.Scope`): the lowest
height at which a pass that watches it began, or to which a rollback has taken it back.

## What is assumed

- Hashes are functions without a body. A 32-byte hash is the 256-bit number of its little-endian bytes.
  Nothing is assumed injective except where a statement says so; the Merkle and status results name the one
  collision they exclude.
- A chain is valid (`Chain.ValidChain`): each header links to the one before, hashes do not repeat, txids are
  unique (BIP 30, BIP 34), outputs are created before they are spent and spent at most once, and an outpoint
  fixes its value and script. A coinbase's null input is never created, so it may repeat.
- Scripts derived for different (wallet, account, index) differ, for every uint32 index; outputs to wallet
  scripts use non-hardened indexes, below 2^31 (BIP 32). `Derivation.WindowWraps` says what happens otherwise.
- A peer's active chain stands still during one round. `getheaders` answers with up to `batch >= 1` headers
  after a known locator and from height 1 after an unknown one.
- A database transaction commits as one step. The rollback statement that fails leaves nothing behind.
- `New` starts from a table `blockheader` that holds one chain (`Chain.Stored`), which every method keeps.
- Wallets are added behind those already configured, and the wallet table has no row of any other wallet.

## What turned out to be false or conditional

- **Gap.** The scan finds everything an oracle watching every index would find *if and only if* each wallet
  output lies less than a gap past what its account used before it (`Scan.GapExact`).
- **Path independence: follow heights.** A rollback below a wallet's birth height makes it followed from the fork
  on. Two runs that have caught up with one gap-respecting chain agree *if and only if* that chain pays no wallet
  between the heights the two follow it from (`Runs.PathIndependence`, `Runs.OraclesAgreeIff`). If no peer ever
  parted from the others at or below the lowest birth height, that height is the one for every run
  (`Theorems.IndexIsAFunctionOfTheChain`, `Runs.LowStays`). Otherwise they can differ: the indexer that saw the
  reorg may record an output below the birth height which one that fetched the new chain directly does not
  (`Theorems.TwoHistories`, with a concrete case in `Example.TablesDiffer`).
- **Path independence: stored indexes.** A rollback lowers no derivation index, so on a chain that goes beyond the
  gap an orphaned block shows through the indexes it raised. What replaces it is recorded in full *if and only if*
  it lies within a gap of the indexes stored before the rollback (`StoredIndexes.AfterReorgExact`; from any state of
  a single pass, `StoredIndexes.SyncExact`). So two indexers can follow one chain from the same heights with
  different tables: each holds the oracle's on its own condition, and where the one that saw the reorg does, they
  agree *if and only if* the chain respects the gap (`StoredIndexes.IndexesShow`). In `Example.GapMissed` an
  orphaned payment to index 1999 lets one indexer record a payment to index 2500 that the other misses.
- **Rollback during a rescan.** After a wallet with a low birth height is added, an outpoint can be in
  `unspent_output` and `spent_output` at once. The rollback's plain INSERT is refused *if and only if* such an
  outpoint was spent above the fork (`Runs.RefusedIff`). In terms of the chain, new blocks brought by the header
  round of the restart included: an output known before, created where the second pass has been, is spent where it
  has not been but the first had, above the fork (`RescanProof.RefusedWhileRescanning`).
  `Example.RollbackRefused` is a run that gets there. Since a refusal changes nothing, every later start against
  that peer is refused again (`Runs.RefusedAgain`). At the tip, or while no wallet was added, none is refused.
- **Forks.** `checkReorg` finds the fork if and only if it is at height at least 1 and at most 6 below the tip;
  otherwise it panics (`Headers.ForkFindingExact`). A peer that knows only genesis answers every locator with
  nothing, which the search would take for a shared block; `syncHeaders` returns before searching such a peer, so
  only one that falls back to genesis between two calls misleads it (`Headers.GenesisOnlyPeer`).
  A peer that merely lags behind is a fork at its own tip, so stored blocks above it are rolled back.
- **Statuses.** `processReorg` notifies nobody. The status a subscriber was last told is still the current one
  *if and only if* no entry of that history lies above the fork, until a block touches the script hash
  (`Theorems.LastStatusIsCurrentIff`; in `Example.StatusStale` it is not).
- **Balances.** The uint64 sum is the true balance *if and only if* received less paid fits
  (`Queries.BalanceWrapsIff`). The balance answered is what the listed outputs add up to *if and only if* the script
  hash is watched or they add up to nothing (`Queries.AnswerIff`). It always is while every wallet stays configured
  (`Theorems.EveryAnswerIsTruthful`). After a restart with the first n wallets only, an output in the unchanged
  tables is watched *if and only if* its wallet is one of them (`Theorems.FewerWallets`): in `Example.WalletTakenOut`
  a script hash is answered 0 beside a listing of 3.
- **Merkle.** `merkleRoot` loops for ever on an empty list. With an injective pair hash an accepted leaf is a leaf
  of the tree at whatever position (`Merkle.AcceptedIsALeaf`), but acceptance says which leaf stands at `pos` *if and
  only if* `pos < len(leaves)` (`Merkle.PositionBoundIff`): at every position some leaf is accepted
  (`Merkle.EveryPositionAccepts`).
- **Status text.** `shStatus` leaves the txids of its argument reversed, so a second call on the same slice hashes
  another text (`Codec.SecondCallDiffers`). Its only caller passes a fresh slice.
- **Window.** With `nextIndex + gap >= 2^32` the target wraps and derivation stops (`Derivation.WindowWraps`).

## Model

| member | source | states |
|---|---|---|
| Theorems.IndexIsAFunctionOfTheChain | walletmanager/walletmanager.go:442-490 | Path independence: whatever run from an empty database (header rounds, reorgs, single committed blocks, restarts), if no peer parted from the others at or below the lowest birth height, no wallet was added, and the run has caught up with a gap-respecting chain, then the tables and the cache are those of an oracle watching every index of every wallet above that birth height on that chain alone |
| Theorems.IndexIsAnOracle | walletmanager/walletmanager.go:442-490 | Without those two conditions, wallets added included: the tables are the oracle's above the heights the run came to follow each wallet from |
| Runs.PathIndependence | walletmanager/walletmanager.go:630-770 | Two runs from one state, caught up with one gap-respecting chain, have equal tables if and only if that chain pays no wallet between the heights the two runs follow it from |
| Runs.OraclesAgreeIff | walletmanager/walletmanager.go:552-583 | Two oracles on one chain agree if and only if no output lies between the heights they follow from |
| Runs.LowStays | walletmanager/walletmanager.go:552-583 | If no wallet is added and no peer parts from the others at or below the heights wallets are followed from, those heights stand after every run |
| Theorems.TwoHistories | walletmanager/walletmanager.go:552-583 | An indexer that goes to chain a and through a reorg to b, forking below every birth height, and one that goes to b directly, both end on b, with equal tables if and only if b pays no wallet between the fork and the lowest birth height |
| Example.TablesDiffer | walletmanager/walletmanager.go:552-583 | A concrete world in which those two indexers end with different tables |
| StoredIndexes.SyncExact | walletmanager/walletmanager.go:630-684 | From any state of a single pass, whatever indexes earlier blocks left behind: `syncWallets` ends with the oracle's tables if and only if nothing is missing where it begins and every output from there on lies within a gap of the indexes the wallets stand at |
| StoredIndexes.AfterReorgExact | walletmanager/repository.go:665-723 | An index that is exact, rolled back to h and caught up with any chain from there, is exact again if and only if the new blocks lie within a gap of the indexes stored before the rollback, those the orphaned blocks raised included |
| StoredIndexes.IndexesShow | walletmanager/walletmanager.go:919-961 | Of two indexers that follow every wallet from below the fork, the one that went through the reorg is exact if and only if the new blocks lie within a gap of the indexes the orphaned ones left, the one that went there directly if and only if the chain respects the gap; where the first is exact, they agree if and only if the chain respects the gap |
| StoredIndexes.BlocksAlike | walletmanager/walletmanager.go:630-770 | Any blocks scanned one by one, heights and rows stored after each, leave the tables, the watched map and the indexes of one scan over their events |
| Example.GapMissed | walletmanager/walletmanager.go:919-961 | A concrete world in which two indexers follow one chain from the same heights and end with different tables, the one that saw an orphaned payment with the oracle's |
| Runs.RunsAreScansOfTheirChain | walletmanager/walletmanager.go:442-490 | From any state satisfying the invariant: a run that has caught up with a gap-respecting chain holds the oracle's tables for it; orphaned blocks leave no trace but in the heights wallets are followed from |
| Theorems.EveryReachableState | walletmanager/walletmanager.go:442-583 | Safety of every run, wallets added included: headers form one chain from genesis, `utxoIndex` equals `unspent_output`, memory and wallet rows agree, every account is derived exactly one gap past its next index under correct labels; a rollback to any height would be accepted at the tip, and always when no wallet was added |
| TablesOnChain.EveryRunIsOnChain | walletmanager/walletmanager.go:442-917 | After every run from an empty database: each unspent row is an output of a block with its own amount and script, each spent row one that the block at its height spends, each tx row the place of its transaction; and at the tip of a gap-respecting chain the five tables are exactly those `TablesOnChain.TablesAre` reads off the blocks |
| TablesOnChain.OracleOnChain | walletmanager/walletmanager.go:772-917 | The oracle in terms of blocks: an output is recorded if and only if some transaction creates it, with that amount and script, in a block above where its owner is followed; unspent if and only if no transaction of the chain spends it, else spent at the height that does; a pair or a tx row if and only if the transaction creates or spends such an output |
| TablesOnChain.TipOnChain | walletmanager/walletmanager.go:442-490 | The same tables in every caught-up state of the invariant on a gap-respecting chain |
| TablesOnChain.SpentAtTip | walletmanager/walletmanager.go:849-917 | At the tip of any chain an output in the tables is unspent if and only if no transaction of blocks 1 to the tip has it among its inputs, and spent at height t if and only if one of block t has |
| TablesOnChain.RowsAreOnChain | walletmanager/walletmanager.go:772-917 | In every state of the invariant, in the middle of a rescan too, every row says what a block says |
| TablesOnChain.TipHistory | walletmanager/repository.go:279-311 | At the tip of a gap-respecting chain the history query joins exactly the transactions that create or spend an output recorded for the script hash |
| Theorems.EveryAnswerIsTruthful | walletmanager/walletmanager.go:190-233 | In every reachable state, for every script hash: the listed rows are the outputs it holds, each at the block and position of the transaction that creates it, with that one's txid and the output's amount, in the order of the chain; the balance answered, 0 for an unwatched one, is what they add up to; the history is one list only, in the order of the chain, each entry at its transaction's height; every stored proof, cut back, leads its own txid at its own position to its block's Merkle root |
| Theorems.RollbackUndoesScanning | walletmanager/walletmanager.go:552-583 | Rollback inverts processing: from a caught-up state, scan any blocks above it while the watched set grows, then roll back to the old tip; headers, tx, scriptpubkey_tx, unspent, spent and utxoIndex are exactly those of before, every wallet height is the old tip, no derivation index is lower |
| Theorems.EveryBlockNotifies | walletmanager/walletmanager.go:707-768 | In every reachable state, a script hash that the next block does not notify has exactly the histories it had before |
| Theorems.LastStatusIsCurrentIff | walletmanager/walletmanager.go:552-583 | After a rollback to h, new headers, and blocks that did not notify a script hash, the history it was last told of is still its history if and only if nothing in it lies above h |
| Theorems.TipBalance | walletmanager/repository.go:257-272 | After every run from an empty database that has caught up with a gap-respecting chain, for every script hash: its balance plus what it paid equals what it received, over all outputs to wallet indexes above the heights they are followed from, and its history is exactly the transactions that create or spend one of those |
| Theorems.TipOfInv | walletmanager/repository.go:257-311 | The same of any caught-up state in the invariant, wallets added included |
| Theorems.TipAnswer | walletmanager/walletmanager.go:190-207 | At the tip of a gap-respecting chain the balance answered for any script hash is exactly what it received less what it paid, up to the 2,100,000,000,000,000 satoshi there can be |
| Theorems.FewerWallets | walletmanager/walletmanager.go:402-440 | A restart with the first n wallets only changes no table and leaves their windows as they were; an unspent output's script is then watched if and only if its owner is one of the n |
| Theorems.FreshIsGood | walletmanager/walletmanager.go:72-114 | A first start over an empty database satisfies the invariant with nothing recognised and every wallet followed from the lowest birth height |
| Theorems.SetupFresh | walletmanager/walletmanager.go:402-440 | On an empty wallet table each configured wallet gets a row, its birth height and exactly the first gap of both accounts |
| Theorems.FirstWindow | walletmanager/properties.go:5 | At the first start a derived script is watched if and only if its wallet is configured and its index is below 2000 |
| ServiceModule.Serve | walletmanager/walletmanager.go:72-114 | The object that New builds over an empty database, run against any list of peers: it ends in an error exactly when a specified round does, and otherwise with the oracle's tables; above the lowest birth height if the peers agree at and below it |
| ServiceModule.RoundsEndAtOracle | walletmanager/walletmanager.go:442-490 | What any number of rounds from an empty database ends with |
| Runs.EveryRunKeepsInv | walletmanager/walletmanager.go:442-490 | The invariant holds after every run that did not stop, with some set of passes |
| Runs.ActKeepsInv | walletmanager/walletmanager.go:442-490 | Header rounds, single blocks and restarts with or without added wallets each keep the invariant, and do to the passes what is said of each |
| Runs.TickKeepsInv | walletmanager/walletmanager.go:492-583 | A header round against any valid peer keeps the invariant, also through a reorg |
| Runs.RunKeepsOnePass | walletmanager/walletmanager.go:442-490 | While no wallet is added there is one pass only |
| Runs.RestartKeepsInv | walletmanager/walletmanager.go:402-440 | A restart at any time, with any wallets added at any birth height, keeps the invariant; the next pass begins where the lowest wallet stands and every wallet is followed at least from there |
| Runs.RestartAdds | walletmanager/walletmanager.go:402-440 | Such a restart leaves the tables and the wallets there were as they are, and gives each new one a row, its birth height and exactly the first gap |
| Runs.RestartRestores | walletmanager/walletmanager.go:402-440 | Rebuilding wallets and watched scripts from the rows and the cache from `unspent_output` gives back exactly what was in memory |
| Runs.SetupRebuilds | walletmanager/walletmanager.go:402-440 | Wallet by wallet, setup from the persisted rows reproduces the running wallets with full windows and changes no row |
| Runs.ScanBlocksKeepInv | walletmanager/walletmanager.go:630-684 | Every height above the lowest wallet height is scanned once, in order; each wallet ends at the maximum of its height and the last block, no index falls, and a single pass newly recognises only outputs created in those blocks |
| Runs.SyncWalletsCatchesUp | walletmanager/walletmanager.go:630-684 | `syncWallets` keeps the invariant, ends caught up, and leaves each wallet at the maximum of its old height and the tip |
| Runs.CaughtUpIsOneScan | walletmanager/walletmanager.go:630-684 | At the tip all passes have met: the tables are those of one scan of everything known, however many passes there were and however they were cut |
| Runs.CaughtUpIsOracle | walletmanager/walletmanager.go:630-684 | A caught-up state on a gap-respecting chain has exactly the oracle's tables |
| Runs.RefusedIff | walletmanager/repository.go:682-686 | In every reachable state the rollback to h is refused if and only if some output is unspent for one pass and was seen spent above h by another; never at the tip, nor with one pass |
| Runs.RefusedAgain | walletmanager/walletmanager.go:552-583 | A refused rollback, or a panic, meets the same peer again at every later start, whatever wallets are added |
| Runs.TickIsARun | walletmanager/walletmanager.go:465-488 | A round that does not stop is a header round followed by single committed blocks up to the tip |
| Runs.RoundsAreARun | walletmanager/walletmanager.go:442-490 | Any number of rounds is such a run, so what holds of runs holds of the process |
| Runs.HeadersConverge | walletmanager/walletmanager.go:492-583 | One header round leaves the peer's chain or a prefix of it if and only if the fork is in reach: the peer has the stored tip, or they part at a height at least 1 and at most 6 below it and the rollback there is accepted |
| Runs.TwoTicksConverge | walletmanager/walletmanager.go:442-490 | Then two rounds against a peer that stands still make the stored chain the peer's, bring every wallet to its tip and, if the chain respects the gap, leave the oracle's tables |
| Invariant.ReorgKeepsInv | walletmanager/walletmanager.go:552-583 | An accepted rollback to any stored height, in the middle of any number of passes and below any wallet's height, leaves the passes cut there over the shortened chain |
| Invariant.BlockKeepsInv | walletmanager/walletmanager.go:686-770 | Processing the next block keeps the invariant one height further |
| Invariant.ExtendKeepsInv | walletmanager/walletmanager.go:508-547 | New headers on top of the stored chain disturb nothing already scanned |
| Invariant.MoreKeepInv | walletmanager/walletmanager.go:402-440 | More wallets, and a pass that begins lower, keep the invariant with the tables and passes as they were |
| Passes.StepKeepsOverlay | walletmanager/walletmanager.go:772-917 | One output or input, recognised or not, however many passes have been here before, moves the present pass one event on and leaves the tables the overlay of all passes; no row is overwritten, so a spent height never changes |
| Passes.OverlayAddsUp | walletmanager/repository.go:374-406 | The tables of two sets of passes are the union of their tables |
| Passes.PassesMeet | walletmanager/walletmanager.go:630-684 | Passes that stand at one place leave the tables of one scan, with unspent and spent disjoint again |
| Passes.OverlayFits | walletmanager/repository.go:320-352 | In the middle of any passes every row says what the chain says and every output's transaction has its row |
| RollbackProof.RollbackCuts | walletmanager/repository.go:665-723 | From the tables of any number of passes, rollback to h plus cache reload yields exactly the tables of those passes cut at h |
| RollbackProof.RollbackOnUnion | walletmanager/repository.go:665-723 | The statement sequence of the rollback works on overlaid descriptions as on each of them |
| RollbackProof.RollbackInverts | walletmanager/repository.go:665-723 | From tables meaning "es[..p] scanned, r recognised", rollback to height h plus cache reload yields exactly the tables meaning "scanned up to h, r restricted to outputs created by then"; its INSERT cannot collide |
| RollbackProof.TxRollsBack | walletmanager/repository.go:703-710 | The tx rows left are those of transactions at or below the cut that touch a surviving recognised output |
| RollbackProof.ScriptTxsRollBack | walletmanager/repository.go:671-680 | The scriptpubkey_tx rows left are those of the scan up to the cut |
| RollbackProof.UnspentRollsBack | walletmanager/repository.go:682-701 | Re-inserting what was spent above the height and deleting what orphaned transactions created gives the unspent outputs at the cut |
| RollbackProof.SpentRollsBack | walletmanager/repository.go:688-690 | The spent rows left, with their heights, are those of the scan up to the cut |
| RollbackProof.RollbackRefusedIff | walletmanager/repository.go:682-686 | The plain INSERT fails if and only if some output is unspent for one pass and was seen spent above the height by another |
| RescanProof.AddedWalletsCatchUp | walletmanager/walletmanager.go:442-490 | Wallets of any birth heights are added to any reachable state, and the new process does a round with whatever new headers or reorg it brings: the tables end as those of one scan, the oracle's on a gap-respecting chain |
| RescanProof.RescanLeavesNoTrace | walletmanager/walletmanager.go:630-684 | If the added wallets have no output that is not known already, the second pass over the whole chain ends with the very tables it began with |
| RescanProof.RefusedWhileRescanning | walletmanager/repository.go:682-686 | Wallets are added to a synced index, the header round of the new process brings any longer chain, and the second pass, begun above one height, has come to any other: a rollback to h is refused if and only if an output known before was created in between, and spent above where the second pass stands, not above the old tip, and above h |
| RescanProof.RefusedMidway | walletmanager/repository.go:682-686 | The same from any state whose passes all stand at one height, with the second pass below or above it |
| RescanProof.TickRefusedIff | walletmanager/walletmanager.go:552-583 | A header round that finds a fork at h ends in an error exactly then |
| RescanProof.SeenAgain | walletmanager/walletmanager.go:789-795 | What was recognised once is recognised again by every later pass that meets it |
| Example.RollbackRefused | walletmanager/repository.go:682-686 | A concrete run from an empty database to a state where the header round is refused: caught up, a wallet added, one block scanned again, the peer gone over to a rival block |
| Example.StatusStale | walletmanager/walletmanager.go:552-583 | A concrete rollback after which the one history of a script hash is another and nobody has been notified |
| Example.WalletTakenOut | walletmanager/walletmanager.go:190-207 | A concrete restart with one wallet less after which a script hash is answered 0 beside listings that add up to 3 |
| Oracle.FundOnMeaning | walletmanager/repository.go:514-541 | Recording a recognised output extends every table by exactly the rows it should |
| Oracle.SpendOnMeaning | walletmanager/repository.go:593-624 | Spending a recognised output moves its row from unspent to spent with the height of its one spender |
| Oracle.SkipOnMeaning | walletmanager/walletmanager.go:862-870 | An event about an output that is not in the cache changes nothing that should change |
| Passes.FitsRow | walletmanager/repository.go:374-406 | Every stored tx row is the row of an event of the chain with its txid |
| Scan.GapExact | walletmanager/walletmanager.go:772-847 | The scan that extends its watched set on the fly leaves exactly the tables of an oracle watching every index, if and only if the scanned outputs respect the gap |
| Scan.GapComplete | walletmanager/walletmanager.go:919-961 | On outputs that respect the gap, from keys not behind, every output to a followed wallet is recognised and no account falls behind |
| Scan.RunSound | walletmanager/walletmanager.go:772-847 | Nothing but wallet outputs is ever recognised; the window stands and no index falls |
| Scan.MissedForGood | walletmanager/walletmanager.go:789-795 | An output outside the window when it was met is not recognised later in the run |
| Scan.RunKeepsOverlay | walletmanager/walletmanager.go:686-770 | However the watched set moves and however many passes came before, the tables after a run mean: scanned up to here, these outputs recognised |
| Scan.RunCounts | walletmanager/walletmanager.go:919-961 | Every output ever recognised stays below its account's next index, so its script stays watched |
| Scan.WatchedIff | walletmanager/walletmanager.go:789-795 | A script is watched exactly when its one owner is configured and its index lies inside the window |
| Derivation.RecogniseKeepsWindow | walletmanager/walletmanager.go:919-1022 | After a recognised output each account is again derived exactly one gap past its next index, which never falls; the map holds exactly those scripts with their own labels; only the label's account moved |
| Derivation.RefillAccountKeepsLabels | walletmanager/walletmanager.go:963-1022 | A refill leaves neither hole nor overlap in the labels of any account |
| Derivation.AddWalletKeepsWindow | walletmanager/walletmanager.go:402-440 | Setting up a wallet adds exactly its window and disturbs no other label |
| Derivation.WatchIsDetermined | walletmanager/walletmanager.go:402-440 | The watched map is a function of wallet hashes and persisted indexes |
| Derivation.WindowWraps | walletmanager/walletmanager.go:965-986 | In uint32 arithmetic a refill reaches its target if and only if the target does not wrap or is already reached |
| Derivation.WindowIs | walletmanager/walletmanager.go:965-986 | In numbers: a refill from the last derived index brings 2000 scripts as long as the next index is below 4,294,965,296, and none from there on |
| Headers.ForkFindingExact | walletmanager/walletmanager.go:593-628 | Against a peer that left the stored tip behind, `checkReorg` answers the last shared height if and only if it is at least 1 and at most 6 below the tip; the other cases are its two panics |
| Headers.ProbeDecides | walletmanager/walletmanager.go:617-625 | One probe answers exactly whether that height is on the peer's chain |
| Headers.GenesisOnlyPeer | walletmanager/walletmanager.go:514-524 | Against a peer that knows only genesis `syncHeaders` is up to date; the search, if it came to that, would return a height that is not shared |
| Headers.SyncOutcomes | walletmanager/walletmanager.go:492-550 | A header round keeps a linked chain, never loses a header, never ends in "unexpected block", and reports a reorg only at the true fork height |
| Headers.ForkExists | walletmanager/walletmanager.go:593-628 | Two chains from one genesis have a last shared height |
| Chain.MemberMeansPrefix | walletmanager/walletmanager.go:593-628 | If a stored hash is on the other chain, both agree up to its height |
| Blocks.EventIsOnChain | walletmanager/walletmanager.go:772-917 | Every event the scan meets is an output of the transaction at its height and position, under that txid and its own index, with its own amount and script; or an outpoint among that transaction's inputs |
| Blocks.OutputHasEvent | walletmanager/walletmanager.go:708-728 | Every output of every transaction of blocks 1 to the tip is met |
| Blocks.InputHasEvent | walletmanager/walletmanager.go:729-745 | So is every input |
| Blocks.EventsInOrder | walletmanager/walletmanager.go:708-745 | Block by block, transaction by transaction, a transaction's outputs first and in their order |
| Chain.OverlayShared | walletmanager/walletmanager.go:686-770 | The tables of any passes depend only on the scanned prefix, not on the chain it belongs to |
| Chain.MeaningShared | walletmanager/walletmanager.go:686-770 | Tables depend only on the scanned prefix, not on the chain it belongs to |
| Queries.Conservation | walletmanager/walletmanager.go:772-917 | For every prefix and recognised set, the balance of a script hash plus what it paid equals what it received |
| Queries.BalanceWrapsIff | walletmanager/repository.go:257-272 | The uint64 sum is received less paid if and only if that fits a uint64 |
| Queries.AnswerIsTotal | walletmanager/walletmanager.go:190-207 | If every unspent output of that script hash is watched, the balance answered is what the listing adds up to, for watched and unwatched script hashes |
| Queries.AnswerIff | walletmanager/walletmanager.go:190-207 | The balance answered is what the listing adds up to if and only if the script hash is watched or the listing adds up to 0 in uint64 |
| Queries.ListedSumIsBalance | walletmanager/repository.go:320-352 | Every unspent row joins to a tx row and a header row, so the joined outputs are all a script hash holds |
| Queries.ListingTotalIsBalance | walletmanager/repository.go:320-352 | The amounts of any result of the unspent query add up to the balance from the cache |
| Queries.HistoryIsExact | walletmanager/repository.go:279-311 | The history query joins exactly the scanned transactions that fund the script hash or spend one of its recognised outputs |
| Queries.HistoryIsStrict | walletmanager/repository.go:291-292 | Of two entries of a history the earlier names a transaction in a lower block of the stored chain, or earlier in the same block, each at the height the entry gives |
| Queries.HistoryIsOnChain | walletmanager/repository.go:279-311 | Every entry of a history names a transaction of the block at its height, in the order of the chain |
| Queries.ListingIsOnChain | walletmanager/repository.go:320-352 | Each row of the unspent query shows the height and position of the transaction that creates its output, that one's txid and the output's amount; all the script hash holds is there, in the order of the chain |
| Queries.HistoryIsUnique | walletmanager/repository.go:279-311 | The history of a script hash is one list |
| Queries.BlockNotificationsSuffice | walletmanager/walletmanager.go:707-768 | A script hash outside the set notified after a block has exactly the histories it had before |
| Queries.BlocksNotify | walletmanager/walletmanager.go:630-684 | Over any number of blocks, a script hash never notified has exactly the histories it had before |
| Queries.NotifiedHasCause | walletmanager/walletmanager.go:707-768 | A notified script hash has a transaction of that very block in its history |
| Queries.StaleIff | walletmanager/walletmanager.go:552-583 | A rollback to h leaves a script hash its history if and only if nothing in it lies above h |
| Queries.StoredProofsStayValid | walletmanager/walletmanager.go:292-318 | The bytes of a tx row, cut into hashes, lead its txid at its position to the Merkle root of its block |
| Codec.StatusTextInjective | walletmanager/walletmanager.go:1079-1097 | The text hashed into a status is uniquely decodable |
| Codec.StatusTextIff | walletmanager/walletmanager.go:1079-1097 | A text is the one hashed into a status if and only if it has, entry after entry, 64 lower-case hexadecimal digits of the txid's bytes from last to first, a colon, the decimal digits of the height without leading zeros, and a colon |
| Codec.HexAt | walletmanager/walletmanager.go:1090 | Digits 2k and 2k + 1 are the high and the low half of byte k, in `0123456789abcdef` |
| Codec.TwoEntries | walletmanager/walletmanager.go:1079-1097 | The status text of a concrete history, in full |
| Codec.StatusSeparatesHistories | walletmanager/walletmanager.go:1079-1097 | Two statuses agree if and only if the histories do, unless the hash collides on their two texts |
| Codec.SecondCallDiffers | walletmanager/walletmanager.go:1089-1091 | A second status of the same slice hashes the same text if and only if every txid reads the same in both directions; the second call restores the slice |
| Codec.ShStatus | walletmanager/walletmanager.go:1079-1097 | The append loop hashes the one text with the layout of `Codec.StatusTextIff` for the given history, answers nothing for an empty one, and leaves every txid of the slice reversed |
| Codec.TxidVoutIsFaithful | walletmanager/walletmanager.go:1070-1073 | The 36-byte key names one outpoint and its first 32 bytes name its transaction |
| Codec.TxidVoutAt | walletmanager/walletmanager.go:1070-1073 | Byte by byte: the txid as it is in memory, then the output index as four bytes, least significant first |
| Codec.FlattenBranch | walletmanager/walletmanager.go:807-810 | The append loop stores the branch as consecutive 32-byte hashes |
| Codec.CutBranch | walletmanager/walletmanager.go:303-308 | The slicing loop gives back the branch the bytes were made from |
| Merkle.HashPairs | walletmanager/walletmanager.go:1156-1172 | The in-place reduction yields the paired level, with an odd length padded by its last element, and touches nothing beyond its slice |
| Merkle.MerkleRoot | walletmanager/walletmanager.go:1107-1114 | Iterating it terminates on every nonempty list with the recursively defined root |
| Merkle.FindPos | walletmanager/walletmanager.go:1116-1124 | The first position of a txid, or -1 exactly when it is absent |
| Merkle.MerkleProof | walletmanager/walletmanager.go:1126-1154 | The first position and exactly the siblings on the way to the root, for every list length |
| Merkle.CheckMerkleProof | walletmanager/walletmanager.go:1174-1187 | Accepts exactly when the branch climbs to the given root |
| Merkle.ProveAndCheck | walletmanager/walletmanager.go:1107-1187 | Completeness: for every member of every list the proof is accepted against the root of the same list and has the tree's depth; with distinct txids it is found where it stands |
| Merkle.BranchClimbsToRoot | walletmanager/walletmanager.go:1126-1187 | Every leaf's branch climbs to the root |
| Merkle.ThreeLeaves | walletmanager/walletmanager.go:1107-1154 | The root and the three branches of a tree of three leaves, in full |
| Merkle.DepthIsCeilLog2 | walletmanager/walletmanager.go:1126-1154 | The branch length is the ceiling of the binary logarithm of the number of leaves |
| Merkle.BindingOrCollision | walletmanager/walletmanager.go:1174-1187 | An accepted branch of the right length and position is the honest branch of the honest leaf, or the proof and the tree exhibit a pair-hash collision |
| Merkle.BindingExact | walletmanager/walletmanager.go:1174-1187 | Under an injective pair hash, acceptance holds if and only if leaf and branch are the honest ones |
| Merkle.EveryPositionAccepts | walletmanager/walletmanager.go:1174-1187 | At every position, however large, some leaf is accepted with a branch of the tree's depth |
| Merkle.AcceptedIsALeaf | walletmanager/walletmanager.go:1174-1187 | Under an injective pair hash an accepted leaf is a leaf of the tree, whatever the position |
| Merkle.PositionBoundIff | walletmanager/walletmanager.go:1174-1187 | Acceptance at pos implies `pos < len(leaves)` and the leaf at pos, for all leaves and branches, if and only if `pos < len(leaves)` |
| Merkle.PhantomPosition | walletmanager/walletmanager.go:1174-1187 | In particular an odd last leaf is accepted one place further with its own branch |
| Merkle.PaddingKeepsRoot | walletmanager/walletmanager.go:1167-1171 | Padding an odd level by its last element does not change the root |
| RepositoryModule.Repository.constructor | walletmanager/repository.go:24-33 | Over whatever the database holds, the index starts as the unspent table |
| RepositoryModule.Repository.LoadUtxoIndex | walletmanager/repository.go:35-50 | The loading loop lays every unspent row over the index |
| RepositoryModule.Repository.ReloadCaches | walletmanager/repository.go:52-64 | Emptying the index in place and loading it makes it equal to `unspent_output` |
| RepositoryModule.Repository.InsertWalletData | walletmanager/repository.go:95-119 | Inserts a new wallet row, refused on an existing key |
| RepositoryModule.Repository.InsertBlockHeader | walletmanager/repository.go:354-372 | Inserts a header, refused on an existing hash |
| RepositoryModule.Repository.InsertTransaction | walletmanager/repository.go:374-406 | Keeps an existing tx row |
| RepositoryModule.Repository.InsertScriptPubkeyTransaction | walletmanager/repository.go:488-512 | Adds the pair once, in a table without a primary key |
| RepositoryModule.Repository.InsertUnspentOutput | walletmanager/repository.go:514-541 | Conditional on the table, unconditional on the index |
| RepositoryModule.Repository.SelectUnspentOutput | walletmanager/repository.go:576-591 | Reads the index, or reports not found |
| RepositoryModule.Repository.DeleteUnspentOutput | walletmanager/repository.go:593-624 | Copies the unspent row to spent unless one is there, deletes it, and deletes it from the index |
| RepositoryModule.Repository.UpdateWalletIndexes | walletmanager/repository.go:626-644 | Sets both indexes of one row |
| RepositoryModule.Repository.UpdateWalletHeight | walletmanager/repository.go:646-663 | Sets the height of one row |
| RepositoryModule.Repository.DeleteAllSinceBlock | walletmanager/repository.go:665-723 | Accepted exactly when the INSERT cannot collide, then the whole new state of six tables; refused, it changes nothing |
| RepositoryModule.Repository.SelectLastBlockHeader | walletmanager/repository.go:127-145 | The tip of the stored chain, or nothing when only genesis is known |
| RepositoryModule.Repository.SelectBlockHashesAtHeight | walletmanager/repository.go:147-182 | Up to `limit` hashes of the stored chain from a stored height on, in order; nothing from another height |
| RepositoryModule.Repository.SelectScriptHashBalance | walletmanager/repository.go:257-272 | In whatever order the map is visited, the uint64 sum of what the script hash holds |
| RepositoryModule.Repository.SelectScriptHashHistory | walletmanager/repository.go:279-311 | One entry for each joining row of a table without a primary key, at the height of its block, ordered by height and then position in the tx table, ascending; no transaction twice because no row is twice |
| RepositoryModule.Repository.SelectScriptHashUnspent | walletmanager/repository.go:320-352 | The rows are those of some enumeration of the joined outputs, each once; height from the header row, position from the tx row, ordered by height and then position, ascending |
| WalletManagerModule.WalletManager.constructor | walletmanager/walletmanager.go:72-114 | A process over a stored database is in the restarted state |
| WalletManagerModule.WalletManager.SetupWallet | walletmanager/walletmanager.go:402-440 | Takes the row's height and indexes, or inserts a row with the birth height; derives the window |
| WalletManagerModule.WalletManager.RefillWallet | walletmanager/walletmanager.go:963-1022 | Both accounts refilled as the specification says |
| WalletManagerModule.WalletManager.WalletUpdateIndexes | walletmanager/walletmanager.go:919-961 | Moves the next index of the label's account past the used one unless it is there already, in memory and in the row, and no other |
| WalletManagerModule.WalletManager.MakeRow | walletmanager/walletmanager.go:797-813 | The row holds the transaction's own position and its flattened branch; the panic on a differing position is unreachable |
| WalletManagerModule.WalletManager.ProcessOutput | walletmanager/walletmanager.go:772-847 | A watched output is stored under the transaction's own txid and this index with its own amount and script, in the index and, unless it is there, in the table, and its script hash is notified; an unwatched one changes nothing. Refines the step of the scan on that output |
| WalletManagerModule.WalletManager.ProcessInput | walletmanager/walletmanager.go:849-917 | The outpoint this very input names is looked up, moved from unspent to spent at this height and dropped from the index, and its script hash is notified; an unknown one changes nothing. Refines the step of the scan on that input |
| WalletManagerModule.WalletManager.ProcessBlock | walletmanager/walletmanager.go:686-770 | Refines the scan of a block's events in order, raises heights, and computes for exactly the touched script hashes the status of a history the tables then hold |
| WalletManagerModule.WalletManager.SyncWallets | walletmanager/walletmanager.go:630-684 | Batches of up to 2000 hashes visit every height above the lowest wallet height once, in order, and terminate because each batch is nonempty |
| WalletManagerModule.WalletManager.LoadTip | walletmanager/walletmanager.go:493-504 | The tip in memory is the last stored header, or genesis |
| WalletManagerModule.WalletManager.CheckReorg | walletmanager/walletmanager.go:593-628 | Terminates with the verdict of the specified search |
| WalletManagerModule.WalletManager.SyncHeaders | walletmanager/walletmanager.go:492-550 | Terminates, follows a peer that has the tip to the end of its chain, leaves the headers alone otherwise, and keeps tip, hash and table in agreement |
| WalletManagerModule.WalletManager.ProcessReorg | walletmanager/walletmanager.go:552-583 | Database rollback, cache reload and heights in memory together are the specified rollback; refused, nothing has changed |
| WalletManagerModule.WalletManager.Tick | walletmanager/walletmanager.go:465-488 | One round of `run` is the specified round; it stops exactly on a panic or on a refused rollback |
| WalletManagerModule.WalletManager.Run | walletmanager/walletmanager.go:442-490 | The rounds of `run`, until one stops, are the specified rounds |
| WalletManagerModule.WalletManager.GetScriptHashBalance | walletmanager/walletmanager.go:190-207 | 0 for an unwatched script hash, else the uint64 sum from the cache |
| WalletManagerModule.WalletManager.GetBlockHeaders | walletmanager/walletmanager.go:152-173 | With genesis spliced in front and the overflow cut off, the answer is the serialized headers of the slice of the chain asked for |
| WalletManagerModule.WalletManager.GetTransactionMerkle | walletmanager/walletmanager.go:292-318 | The branch the stored bytes were made from, with the stored position, or not found |

## Left out

- JSON-RPC and the Electrum handlers: parsing, formatting and sockets; `tx_pos` in the unspent reply is the
  transaction's position in its block, as the query selects it, not an output index.
- Subscriptions: the callbacks themselves; which script hashes are notified, and with which status, is modelled.
- SQL text and drivers: each statement is its effect on the tables; the column `serialized` is not kept.
- SHA-256, BIP 32, script construction, block and transaction parsing: functions without a body.
- Contexts, the ticker and the mutex: one round is one step. Time and progress estimates (`updateRemaining`),
  broadcasting, fee and mempool stubs, configuration and logging.
- Derivation errors: `setupWallet` drops the error of `refillWallet`; derivation is total here.
- A block whose database transaction fails: `run` ends there, so no later step is modelled.
- Wallets taken out of the configuration: what the restart does is modelled (`Theorems.FewerWallets`), no step after
  it. Wallets reordered, and a first start over a database with rows of other wallets.
- Header rounds whose peer changes its chain between two calls of one round.
- `GetTransactionMerkleFromPos`, `GetRawTx`, `GetBlockHeader`, `GetTipHeader`: single lookups; the first cuts
  proof bytes with the loop `Codec.CutBranch` models.
- WalletManagerModule.WalletManager.GetBlockHeaders: no negative limits.
- RepositoryModule.Repository.SelectScriptHashUnspent: the order of rows with equal height and position is left open, as the query leaves it.
