# A verified model of pwm-core

This project models the deterministic part of `pwm-core`, a proof-of-authority ledger, and one calendar
routine of `pwm-cli`, in Dafny 4.11. `dafny verify dfyconfig.toml` checks all of it.

## Layout

| files | what they model |
|---|---|
| `Basics`, `Division`, `Text`, `Utf8`, `Hex` | machine integers and their saturation, byte encodings, strings |
| `Transactions`, `TxMessage`, `TxDecoding` | the transaction types and their validation, the signed message, a parser for it |
| `Merkle`, `MerkleLengths`, `Blocks`, `BlockContents` | the two Merkle folds, headers, transaction roots and what they fix |
| `Chain`, `ChainRuns`, `ChainLaws` | sealing over any ledger, its runs, and what holds after every run |
| `Mempool`, `Pipeline` | the pool, and pool and chain together |
| `Ledger`, `LedgerState` | the ledger rules as functions of a ledger value, and the code that updates the state object |
| `LedgerInvariant`, `LedgerSupply`, `LedgerRuns`, `LedgerNonces`, `LedgerReturns`, `LedgerTurns`, `LedgerSafety`, `LedgerBooks`, `LedgerAdmission`, `LedgerEffects`, `LedgerRecords`, `LedgerExports`, `LedgerPolicies`, `LedgerRules`, `LedgerPaths` | what the ledger keeps, per step and over runs |
| `LedgerExamples` | concrete runs from genesis on which the code falls short |
| `LedgerGenesis`, `LedgerChain`, `LedgerBoot`, `LedgerBlocks` | genesis, rewards, the chain run on that ledger, what it can seal, and what its blocks hold |
| `Marks`, `Amounts`, `Calendar` | lazy marks, decimal amounts, civil dates |
| `Domains`, `AccountIds`, `AccountIdLaws`, `Wallet`, `WalletLaws` | label tables, account-id texts, wallet headers |

Code that works step by step (buffers, queues, folds, sealing, state updates, the book loop) is a method
or a class proved against a function; the laws are lemmas about the functions. Code made of expressions is
functions.

## Assumptions

- BLAKE3 is any function to 32-byte digests. A law that needs injectivity asks only that the function does
  not collide on the finite set of inputs that the law's own objects hash; no hash to 32 bytes is injective
  outright.
- Ed25519 (section 5.1 of RFC 8032) is any pair of functions; a key pair is one where what the key signs is
  accepted. SLIP-0010 derivation is any function.
- The bech32 library (BIP-173, BIP-350) is any codec that decodes what it encodes, writes `pwm1` in front,
  and decodes only texts that split at a last `1` before data characters.
- Sealing (`Chain`) takes the ledger as a type parameter with the operations it calls, so its laws hold for
  every ledger. Only sealing writes the epoch counter and the active set; `LedgerChain` supplies the ledger
  of `state.rs`.
- Clock readings are inputs of a seal; a missing reading is the clock failure.
- Release builds check overflow, so an overflowing `+` or `-` aborts. `CivilFromDays` and `SealEntries`
  take the values that do not abort; ledger operations return an explicit abort.
- Characters are Unicode scalar values, and texts are encoded by the `Utf8` module.

## Where the code falls short

Each of these comes with the condition under which the code does what is expected, as an equivalence, and
with an input at which it does not.

- A delayed transfer whose destination, by redirect, is its own sender overwrites the debit: coins appear
  (`LedgerSupply.DueConserves`, `LedgerExamples.ReturningTransfer`), and the nonce stays unspent, so that the
  same signed transfer can execute again (`LedgerNonces.ExecutedTwice`, `LedgerExamples.ReplayedTransfer`). An
  account that nobody names as a rescue account is safe from it (`LedgerReturns.UnnamedNeverRepeats`).
- The fast path for prevalidated transactions skips the signature and the policies. It applies what nobody
  signed and what a policy refuses (`LedgerPaths.CheckedPathAccepts`, `LedgerExamples.UnsignedTransfer`),
  ignores a redirect (`LedgerPaths.FastPathAgrees`, `LedgerExamples.DivertedTransfer`), and lets a finalized
  account spend (`LedgerPaths.SealedExactly`, `LedgerExamples.FinalizedSpends`). The precheck workers that are
  to verify signatures beforehand are not part of this model.
- Genesis grants no stake, so with a positive minimum, such as the default of 100000, no validator is ever
  active and a chain booted from genesis never seals a block (`LedgerBoot.GenesisSeals`,
  `LedgerBoot.NeverSeals`). The laws over runs hold from any well-formed ledger, staked ones included.
- Whoever pays an account moves its marks cursor, and an hour that had begun is lost
  (`Marks.OneCut`, `Marks.BegunHoursLost`, `LedgerSafety.OthersLaterMarks`).
- Deactivating a policy whose deferred row has matured leaves it in force, or is refused although it is in
  force (`LedgerPolicies.DeactivateEffect`, `LedgerPolicies.DeactivationWithoutEffect`,
  `LedgerPolicies.DeactivationRefused`).
- Validator indices are cut to 16 bits (`ChainLaws.ActiveIsExact`, `ChainLaws.ManyValidators`).
- A Merkle root does not fix the number of leaves (`MerkleLengths.RootBindsAcross`, `Merkle.RepeatedLastLeaf`).
- An address-book entry with white space around its address is rewritten without a reported change
  (`WalletLaws.UnreportedRewrite`, `WalletLaws.PaddedAddress`).
- A refused first Init leaves a blank account row (`LedgerSafety.RefusalKeeps`, `LedgerExamples.RefusedInit`);
  a seal drops it with the rest of its working copy.
- The season of one cuts a reward near the top of 128 bits (`LedgerChain.SeasonOfOne`,
  `LedgerChain.SeasonCuts`).

Policy rows past the 255th are left out of the message of an Init (`TxDecoding.RowsPast255AreUnsigned`).
Validation allows only 16, and for validated transactions the message is exact
(`TxDecoding.MessageIsInjective`).

## Model

| member | source | states |
|---|---|---|
| TxMessage.SigningMessage | crates/pwm-core/src/tx.rs:398-532 | the buffer built push by push is the declarative layout of every body kind, saturated prefixes included |
| TxMessage.ByteVec.PushLenPrefixedBytes | crates/pwm-core/src/tx.rs:747-751 | appends the saturated length and the bytes, and nothing else changes |
| TxMessage.ByteVec.PushPolicyAction | crates/pwm-core/src/tx.rs:763-790 | appends tag and fields of each policy action |
| TxMessage.ByteVec.PushPolicies | crates/pwm-core/src/tx.rs:419-432 | the loop writes the saturated count and only the rows the count covers |
| TxMessage.ByteVec.PushExt | crates/pwm-core/src/tx.rs:410-441 | appends the Init extension field by field |
| TxDecoding.ValidDecodes | crates/pwm-core/src/tx.rs:398-532 | a parser that knows only the layout reads the signed content of every shape-valid transaction back from its message |
| TxDecoding.MessageIsInjective | crates/pwm-core/src/tx.rs:398-808 | two shape-valid transactions have one message exactly when they agree on domain, key, index, nonce, body and the signed extras of that body |
| TxDecoding.RowsPast255AreUnsigned | crates/pwm-core/src/tx.rs:419-421 | why validation is needed: rows beyond the saturated count are not in the message of an unvalidated Init |
| TxDecoding.TxHashBinds | crates/pwm-core/src/tx.rs:534-536 | equal transaction hashes mean equal signed content, unless BLAKE3 collides on the two messages |
| TxDecoding.ExportIdBinds | crates/pwm-core/src/tx.rs:545-555 | shape-valid exports share an id exactly when they sign the same content, unless BLAKE3 collides on the inputs hashed for the two |
| Transactions.PolicyIdBack | crates/pwm-core/src/tx.rs:39-62 | policy ids and kinds are inverse to each other |
| Transactions.AccountIdBinds | crates/pwm-core/src/hd.rs:9-14 | account ids are equal exactly when key and derivation index are, unless BLAKE3 collides on the two inputs |
| Transactions.FlagBits | crates/pwm-core/src/types.rs:24-34 | the two flags are the low bits of the big-endian word in bytes 2 to 5 |
| Merkle.LevelKeepsRoot | crates/pwm-core/src/block.rs:58-68 | one pairing pass over a list of any length keeps the root of the top-down tree |
| Merkle.PairUp | crates/pwm-core/src/block.rs:59-67 | the inner pass is the next level: neighbours paired, an odd last node with itself |
| Merkle.FoldPairs | crates/pwm-core/src/block.rs:58-69 | the pairing loop ends, and returns the root of the tree that splits at the largest power of two below the length and lifts the right part |
| Merkle.TreeBinds | crates/pwm-core/src/block.rs:58-69 | perfect trees of one height have one value exactly when they are one tree, for a node function without collisions on their pairs |
| Merkle.RootBinds | crates/pwm-core/src/block.rs:58-69 | for a fixed length the root determines the leaves, and conversely |
| Merkle.RepeatedLastLeaf | crates/pwm-core/src/block.rs:58-68 | the root does not determine the length: repeating the last leaf of an odd list keeps the root |
| MerkleLengths.RootBindsAcross | crates/pwm-core/src/block.rs:58-69 | what it does determine for lists of any two lengths: they share a root exactly when the filled-up level of the taller tree at the height of the other is the other list filled up |
| MerkleLengths.DistinctRootBinds | crates/pwm-core/src/block.rs:58-69 | lists without repetition, of any two lengths, share a root exactly when they are equal, if the node function does not collide on their trees and yields none of their leaves where the heights differ |
| Merkle.MerkleRoot | crates/pwm-core/src/offchain.rs:16-34 | the off-chain loop computes the same tree under its own tags, and a tagged constant for no leaves |
| Merkle.TaggedRootBinds | crates/pwm-core/src/offchain.rs:16-34 | equal lengths and equal roots mean equal digest lists, and conversely, unless BLAKE3 collides on the nodes of the two trees |
| Blocks.ComputeTxsRoot | crates/pwm-core/src/block.rs:52-71 | the transaction loop computes the same tree over the transaction hashes |
| Blocks.TxsRootBinds | crates/pwm-core/src/block.rs:52-71 | two lists of as many shape-valid transactions share a root exactly when they sign the same contents in the same order, unless BLAKE3 collides on what is hashed for the two |
| BlockContents.RootFixesContents | crates/pwm-core/src/block.rs:52-71 | two lists of any lengths, in neither of which two transactions sign one content, share a root exactly when they sign the same contents in the same order, unless BLAKE3 collides on what is hashed for them or, with trees of different heights, a message reads as an inner node |
| Blocks.SignedVerifies | crates/pwm-core/src/block.rs:26-42 | signing replaces only the signature, by one over the digest of every other field, and the matching public key accepts it |
| Blocks.PreimageBinds | crates/pwm-core/src/block.rs:26-31 | two headers have one signing preimage exactly when they differ at most in their signatures, unless BLAKE3 collides on the two |
| Blocks.SignatureCovers | crates/pwm-core/src/block.rs:26-42 | what a matching key signed is accepted over the digest of its own fields, and no other header has that digest |
| Blocks.HdrBytesInjective | crates/pwm-core/src/block.rs:73-75 | distinct headers have distinct serialisations |
| Chain.ChainNode.constructor | crates/pwm-core/src/chain.rs:88-111 | boot: height zero, no blocks, and the active set of the genesis ledger |
| Chain.ChainNode.SealEntries | crates/pwm-core/src/chain.rs:170-250 | all or nothing: the node becomes exactly the sealed node, or nothing changes and the transactions come back in order |
| Chain.ChainNode.ApplyAll | crates/pwm-core/src/chain.rs:186-200 | entries are applied in order on a private ledger, the fast path only for entries prevalidated at the present tip |
| Chain.ChainNode.ExecuteBlock | crates/pwm-core/src/chain.rs:185-217 | refund, apply, refund, drain and reward in that order, or the first failure |
| Chain.ChainNode.PushBlock | crates/pwm-core/src/chain.rs:243-246 | appending and dropping from the front leaves the last 1000 blocks |
| Chain.AbsorbBlocksTail | crates/pwm-core/src/chain.rs:254-260 | the loader keeps exactly the last 1000 blocks of any list |
| Chain.SealKeepsReady | crates/pwm-core/src/chain.rs:40-62 | after a seal every active index still names a validator and a key |
| ChainRuns.StepKeepsInv | crates/pwm-core/src/chain.rs:170-250 | one seal attempt, successful or not, keeps heights, tail, epoch, active set, links, roots, turns and signatures together |
| ChainRuns.ReplayInv | crates/pwm-core/src/chain.rs:88-250 | every run from boot keeps that invariant |
| ChainRuns.SealGrows | crates/pwm-core/src/chain.rs:170-246 | a seal adds one block: its height and link, the clock reading or the deterministic time, its root over the given transactions, the producer whose turn it is, and its signature |
| ChainLaws.RetainedTail | crates/pwm-core/src/chain.rs:242-260 | the retained blocks are the last min(height, 1000) of the history, of consecutive heights ending at the canonical one, and what the loader keeps of the whole history |
| ChainLaws.RunIsLinked | crates/pwm-core/src/chain.rs:117-122 | every block links to its predecessor, the first to the genesis constant, and commits to its own transactions; given matching keys it verifies under the key of its producer slot |
| ChainLaws.RunSignaturesCover | crates/pwm-core/src/chain.rs:220-235 | so every block of every run carries a signature of its slot over all its fields, and no other header has what was signed |
| ChainLaws.StateRoots | crates/pwm-core/src/chain.rs:220-232 | every block of every run commits to the ledger it left behind, the epoch and the active set of its height |
| ChainLaws.TipBindsHistory | crates/pwm-core/src/chain.rs:117-122 | two linked histories with one tip hash have the same headers and so the same length, unless BLAKE3 collides on those headers |
| ChainLaws.ActiveIsExact | crates/pwm-core/src/chain.rs:40-54 | the validators whose account has at least the minimum at stake, in increasing order; the active set lists exactly these if and only if none of them has an index past 16 bits |
| ChainLaws.ActiveIsStaked | crates/pwm-core/src/chain.rs:40-54 | with at most 65536 validators one is active exactly when its account has the minimum at stake |
| ChainLaws.ManyValidators | crates/pwm-core/src/chain.rs:40-54 | an environment of 65537 eligible validators whose active set misses the last |
| ChainLaws.FewAreDistinct | crates/pwm-core/src/chain.rs:40-54 | with at most 65536 validators the active set lists none twice |
| ChainLaws.EpochRule | crates/pwm-core/src/chain.rs:64-73 | after any run the epoch counter is the height over the epoch length, and the active set is what the ledger just before the last boundary block called for |
| ChainLaws.SameProducer | crates/pwm-core/src/chain.rs:56-73 | two blocks of one epoch of a run have one producer exactly when their heights agree modulo the number of active validators, with at most 65536 validators |
| ChainLaws.TurnsFair | crates/pwm-core/src/chain.rs:56-62 | of k consecutive heights each slot of n gets k/n, rounded down or up |
| ChainLaws.FairRotation | crates/pwm-core/src/chain.rs:56-62 | over k consecutive heights of one epoch a validator holding m of n active slots produces m times k/n blocks, each share rounded down or up, however many validators there are; m is one for each active one when the entries are distinct, and zero for the others |
| ChainLaws.ProducersInRange | crates/pwm-core/src/chain.rs:183-233 | every producer index ever written is within the validator and key lists, also with more than 65536 validators |
| Mempool.Mpool.constructor | crates/pwm-core/src/mempool.rs:13-18 | an empty queue with its capacity |
| Mempool.Mpool.Push | crates/pwm-core/src/mempool.rs:24-30 | accepts at the back exactly when there is room |
| Mempool.Mpool.Take | crates/pwm-core/src/mempool.rs:33-42 | moves min(max, length) transactions from the front, in order |
| Mempool.Mpool.Snapshot | crates/pwm-core/src/mempool.rs:45-47 | a prefix of the queue of the length a take would give |
| Mempool.Mpool.PrependBlock | crates/pwm-core/src/mempool.rs:50-54 | puts a batch back in front in its own order |
| Pipeline.SealFromPool | crates/pwm-core/src/mempool.rs:96-115 | take, seal and give back: a failure leaves pool and chain as they were, a success moves exactly the oldest transactions into the new block |
| Pipeline.ExactlyOnce | crates/pwm-core/src/mempool.rs:24-54 | over any run of pushes, takes, seals, failed seals and give-backs, the accepted transactions are the sealed ones, then the batch, then the pool, in order; pool and batch stay within capacity plus one batch |
| Pipeline.FailedSealIsNoOp | crates/pwm-core/src/chain.rs:170-211 | a take, a failed seal for whatever reason, and a give-back change nothing at all |
| Pipeline.PipedChainIsReplay | crates/pwm-core/src/chain.rs:165-250 | the chain behind a pool is a plain run of seal attempts, so that every law of runs holds of it |
| Marks.LazyMarksAreExact | crates/pwm-core/src/marks.rs:17-53 | the saturating code is min(cap, stored + whole staked coins * rate * whole elapsed hours) over unbounded integers, for all inputs |
| Marks.TouchAllCredits | crates/pwm-core/src/marks.rs:17-53 | storing and moving the cursor at any ascending heights credits the sum of the whole hours of each piece |
| Marks.RebasingCost | crates/pwm-core/src/marks.rs:17-53 | re-basing at k heights yields no more than one evaluation at the last, falls short by less than k hours, and by nothing when the earlier cuts fall on whole hours |
| Marks.OneCut | crates/pwm-core/src/marks.rs:17-53 | one cut never raises what will have accrued later, and costs nothing exactly when the cap is reached anyway, nothing accrues, or no whole hour is lost by it |
| Marks.BegunHoursLost | crates/pwm-core/src/marks.rs:17-53 | a concrete account that earns a mark over 18 blocks, and none when it is touched after the first 9 of them |
| Amounts.FormatPwm | crates/pwm-core/src/display.rs:7-19 | the loop that drops trailing zeros prints the shortest decimal and the unit |
| Amounts.ParseDecimalPwmUnits | crates/pwm-core/src/display.rs:21-63 | the padding loop and the checked arithmetic compute the parsing function, error cases included |
| Amounts.ParseIsExact | crates/pwm-core/src/display.rs:21-63 | parsing succeeds exactly on digits with an optional fraction of 1 to 6 digits whose value fits 128 bits, and returns that value |
| Amounts.RoundTrip | crates/pwm-core/src/display.rs:7-63 | every amount survives printing and parsing, padded with white space or not |
| Amounts.ShownParses | crates/pwm-core/src/display.rs:7-63 | the printed number parses as it stands |
| Amounts.ShownIsShortest | crates/pwm-core/src/display.rs:7-19 | no text that parses to an amount is shorter than the printed one |
| Amounts.ParseErrors | crates/pwm-core/src/display.rs:21-63 | which error is reported for which text |
| Calendar.DayNumberOfCivil | crates/pwm-cli/src/purpose_expand.rs:35-48 | every day becomes a real Gregorian date, and counting years and months back gives the day |
| Calendar.CivilOfDayNumber | crates/pwm-cli/src/purpose_expand.rs:35-48 | every real date in range is the date of its own day count |
| Calendar.CivilStep | crates/pwm-cli/src/purpose_expand.rs:35-48 | the next day has the next date of the calendar |
| Calendar.DayNumberOfNext | crates/pwm-cli/src/purpose_expand.rs:35-48 | the calendar successor of a real date is real and counts one more |
| Calendar.CivilStart | crates/pwm-cli/src/purpose_expand.rs:35-37 | day zero is the 1st of January 1970 |
| Calendar.StampFields | crates/pwm-cli/src/purpose_expand.rs:19-33 | the 18-character stamp reads back as day, month, year of the century and second of the day |
| Calendar.StampBinds | crates/pwm-cli/src/purpose_expand.rs:19-33 | moments whose years are less than a century apart have different stamps |
| AccountIdLaws.RenderRoundTrip | crates/pwm-core/src/types.rs:36-94 | the printed form of every 32-byte id, in any domain, is accepted by all three parsers and read back |
| AccountIdLaws.RenderedText | crates/pwm-core/src/types.rs:255-275 | the printed form: prefix, domain part, the flag word in eight upper-case digits, the rest in 52 lower-case ones |
| AccountIdLaws.PayloadFields | crates/pwm-core/src/types.rs:126-137 | the canonical payload: version one, no flags, the domain, and the id |
| AccountIdLaws.ShippedRoundTrip | crates/pwm-core/src/domain_index.rs:1080-1109 | the same with the tables as shipped |
| AccountIdLaws.RenderInjective | crates/pwm-core/src/types.rs:255-275 | no two ids print alike |
| AccountIdLaws.HintParses | crates/pwm-core/src/types.rs:208-253 | the printed domain part is read back as the domain, and is never ambiguous |
| AccountIdLaws.HexForm | crates/pwm-core/src/types.rs:60-72 | 64 hexadecimal digits are the id they spell, for all three parsers |
| AccountIdLaws.LegacyForm | crates/pwm-core/src/types.rs:55-72 | so are they behind the legacy prefix |
| AccountIdLaws.Bech32Form | crates/pwm-core/src/types.rs:126-175 | the canonical bech32m form is read back by all three parsers |
| AccountIdLaws.StrictVsGeneral | crates/pwm-core/src/types.rs:75-124 | the strict parsers accept exactly what the general one accepts, less ambiguous domain texts, with the same id |
| AccountIdLaws.CountryAloneRefused | crates/pwm-core/src/types.rs:75-124 | a country label without its low byte is refused as ambiguous by the strict parsers, and read with a low byte of zero by the general one |
| Domains.ShippedIndexOk | crates/pwm-core/src/domain_index.rs:18-1078 | the shipped tables: one country row per high byte in order, and labels that cannot be confused in any letter case |
| Domains.RegulatoryDisplay | crates/pwm-core/src/domain_index.rs:1091-1102 | every domain in the country range is displayed with the row of its high byte |
| Domains.RegulatoryLabel | crates/pwm-core/src/domain_index.rs:1104-1109 | a country label finds its own row |
| Domains.OtherDisplay | crates/pwm-core/src/domain_index.rs:1097-1109 | outside that range a display label is an exact row, found again by its name |
| Wallet.NormalizeEntries | crates/pwm-core/src/wallet_read.rs:233-271 | the loop over the address book computes the normalised book, its change flag and its count of dropped entries |
| Wallet.NormalizeWalletHeader | crates/pwm-core/src/wallet_read.rs:107-124 | the header steps compute the normalised header and the change flag |
| WalletLaws.BookKeepsAccounts | crates/pwm-core/src/wallet_read.rs:233-271 | kept and ignored entries add up to the input; kept ones stay in order with their kind, label and account |
| WalletLaws.BookOutcome | crates/pwm-core/src/wallet_read.rs:240-268 | normalisation succeeds exactly when no entry is refused, and reports a change exactly when some entry is dropped or not canonical up to white space |
| WalletLaws.UnreportedRewrite | crates/pwm-core/src/wallet_read.rs:248-263 | with no change reported the book is the same exactly when no address carries white space |
| WalletLaws.PaddedAddress | crates/pwm-core/src/wallet_read.rs:248-263 | a book that is rewritten with no change reported |
| WalletLaws.SameIdentity | crates/pwm-core/src/wallet_read.rs:126-158 | the printed id that normalisation writes is read back as the same identity |
| WalletLaws.Idempotent | crates/pwm-core/src/wallet_read.rs:107-124 | a second pass succeeds with the same identity, changes nothing persisted, reports no change and drops nothing |
| LedgerState.State.RefundExpLocks | crates/pwm-core/src/state.rs:261-272 | the loop settles exactly what the refund function settles, whose payments are those of LedgerBooks.RefundBooks |
| LedgerState.State.ApplyDueConservation | crates/pwm-core/src/state.rs:296-343 | a due transfer, with the destination read before and written after the debit; it pays as LedgerBooks.DueBooks says, and refused ones change nothing |
| LedgerState.State.DrainConservationAtHeight | crates/pwm-core/src/state.rs:274-294 | the loop pays due rows in order and keeps those not due or refused |
| LedgerState.State.ApplyTransfer | crates/pwm-core/src/state.rs:458-506 | a transfer settles at once or waits, or is refused with nothing changed |
| LedgerState.State.ApplyExport | crates/pwm-core/src/state.rs:569-615 | an export debits, registers its provenance and locks the amount |
| LedgerState.State.ApplyImport | crates/pwm-core/src/state.rs:616-691 | an import pays once, against the registered or the declared export, as LedgerBooks.TxBooks says |
| LedgerState.State.ApplyPolicy | crates/pwm-core/src/state.rs:692-735 | a policy action, with the evacuation of an emergency activation |
| LedgerState.State.ApplyTxImpl | crates/pwm-core/src/state.rs:378-737 | one transaction with all its checks, field by field: applied as LedgerAdmission.TxAcceptedExactly and LedgerBooks.TxBooks say, and a refusal leaves what the specification says |
| LedgerState.State.RewardProducer | crates/pwm-core/src/state.rs:822-843 | credits a producer whose stake meets the minimum |
| LedgerInvariant.TxKeepsInv | crates/pwm-core/src/state.rs:378-737 | an applied transaction keeps every waiting transfer funded and next in its account, at most one an account, and every lock settled at most once |
| LedgerInvariant.DueRefusedByPolicyOnly | crates/pwm-core/src/state.rs:302-330 | so a due transfer is refused only because its sender was finalized or its recipient declines |
| LedgerInvariant.DrainKeepsInv | crates/pwm-core/src/state.rs:274-343 | so does a drain |
| LedgerInvariant.RefundKeepsInv | crates/pwm-core/src/state.rs:261-272 | so does a refund pass |
| LedgerInvariant.ImportFindsLock | crates/pwm-core/src/state.rs:616-691 | an import that finds a lock finds it unsettled and of the imported amount |
| LedgerSupply.TxSupply | crates/pwm-core/src/state.rs:378-737 | an applied transaction changes the supply by a claim's allocation, an import without a lock here, or an export under a used id, and by nothing else |
| LedgerSupply.RefundSupply | crates/pwm-core/src/state.rs:261-272 | refunds leave the supply as it was |
| LedgerSupply.DueConserves | crates/pwm-core/src/state.rs:296-343 | a delayed transfer conserves coins if and only if it is empty or does not return to its sender |
| LedgerRuns.RunSupply | crates/pwm-core/src/state.rs:261-843 | over any run the supply grows by what was created less what was destroyed, and nothing saturates while that fits 128 bits |
| LedgerBooks.TxBooks | crates/pwm-core/src/state.rs:378-737 | an applied transaction changes the balance and stake of every account, and the fee pool, by exactly the entry read off it: transfers pay the recipient or its rescue account, stakes move balance to stake and back, claims pay their phase, exports and imports pay and charge whom they name, emergencies move everything but the fee to the rescue account |
| LedgerBooks.AllocationOfPhase | crates/pwm-core/src/state.rs:19-25 | a claim is paid by the first row of its phase |
| LedgerBooks.DueBooks | crates/pwm-core/src/state.rs:331-342 | a due transfer takes amount and fee from its sender, gives the amount to its recipient or that account's rescue account and the fee to the pool, and touches nobody else; one that returns is paid and not charged |
| LedgerBooks.RowsBooks | crates/pwm-core/src/state.rs:274-294 | a drain adds these up, each row against the ledger as it stands at its turn |
| LedgerBooks.RefundBooks | crates/pwm-core/src/state.rs:261-272 | a refund pass gives every account exactly the amounts of its expired locks, and nothing to the pool |
| LedgerBooks.RewardBooks | crates/pwm-core/src/state.rs:822-843 | a reward goes to a producer with the stake for it, and to nobody else |
| LedgerBooks.RunBooks | crates/pwm-core/src/state.rs:261-843 | over any run every account, and the pool, ends with what it had plus the sum of its entries |
| LedgerAdmission.BodyShapedExactly | crates/pwm-core/src/tx.rs:628-808 | exactly which bodies and extras are well shaped |
| LedgerAdmission.PermittedExactly | crates/pwm-core/src/state.rs:740-797 | exactly what the policies permit: finalized senders, demanded cosignatures, and recipients that welcome the transfer |
| LedgerAdmission.ClaimSignedExactly | crates/pwm-core/src/state.rs:27-55 | a claim needs the signature of the registry that the first row of its phase names, over phase, root and claimant |
| LedgerAdmission.TxAcceptedExactly | crates/pwm-core/src/state.rs:378-737 | a transaction is applied if and only if it is well shaped, the sender's row has its key and nonce, the policies permit it, no waiting transfer holds it up, and the conditions of its kind hold: coins, stake, marks, provenance, the registry's or the rescue key's signature |
| LedgerAdmission.FirstError | crates/pwm-core/src/state.rs:378-432 | which error a refusal reports first: signature, domain, account, key, nonce, and a transfer that still waits |
| LedgerAdmission.DueExactly | crates/pwm-core/src/state.rs:296-330 | a well-formed waiting transfer goes through when due if and only if its sender is not finalized and its recipient is open and welcomes it |
| LedgerEffects.SenderEffect | crates/pwm-core/src/state.rs:401-737 | other than by an Init a transaction comes from an open account under its own key, keeps its marks at the height less what it burns, spends its nonce unless it waits, and keeps the rest of the account but for what its kind changes |
| LedgerEffects.OthersEffect | crates/pwm-core/src/state.rs:401-737 | it opens no account but its sender's, and does nothing to others than pay them, with marks brought up for whom a transfer pays at once |
| LedgerEffects.InitEffect | crates/pwm-core/src/state.rs:434-456 | an Init opens a closed account as its extension declares it, and touches nothing else |
| LedgerEffects.InitInstalls | crates/pwm-core/src/state.rs:448-450 | and installs its policies, the last entry for each deciding |
| LedgerEffects.PolicyTxEffect | crates/pwm-core/src/state.rs:692-735 | an applied policy change does to the sender's policies what its action says, and to no other policy anything |
| LedgerEffects.DueEffect | crates/pwm-core/src/state.rs:331-342 | a due transfer changes nothing else of its two accounts than balance, marks and the sender's nonce |
| LedgerEffects.RowsSettled | crates/pwm-core/src/state.rs:274-294 | every row of a drain is executed or kept |
| LedgerEffects.RefundEffect | crates/pwm-core/src/state.rs:261-272 | a refund pass changes balances only, and records exactly the ids of the expired locks |
| LedgerRecords.DelayedRecorded | crates/pwm-core/src/state.rs:470-486 | a transfer out of a conservation account only queues its record, due at its height plus the configured delay, and only when none waits |
| LedgerRecords.DelayHolds | crates/pwm-core/src/state.rs:274-294 | over any run a waiting transfer stays queued until a drain at its height or its sender's emergency activation |
| LedgerRecords.ExportRecorded | crates/pwm-core/src/state.rs:585-615 | an export registers its provenance and locks its amount until its height plus the configured timeout |
| LedgerRecords.ImportRecorded | crates/pwm-core/src/state.rs:633-690 | an import records its id and the export it settled |
| LedgerRecords.OthersUnrecorded | crates/pwm-core/src/state.rs:692-735 | no other transaction touches a record, but for the waiting transfers that its sender's emergency drops |
| LedgerRecords.ExpiredExportReturns | crates/pwm-core/src/state.rs:261-272 | after any run in which nothing settles the lock of an export, a refund pass at its height gives the sender its amount back, next to what other locks give |
| LedgerNonces.RunExecutes | crates/pwm-core/src/state.rs:296-343 | over any run each execution carries the nonce its account stands at and moves it up by one, unless it is a delayed transfer that returns to its sender |
| LedgerNonces.RunSpends | crates/pwm-core/src/state.rs:417-420 | over any run an account spends exactly the nonces from its first to its last, in order, each once |
| LedgerNonces.ExecutedTwice | crates/pwm-core/src/state.rs:296-343 | an account and nonce execute twice in a run if and only if a delayed transfer returns to its sender and that account executes anything afterwards |
| LedgerNonces.ExecutedAtMostOnce | crates/pwm-core/src/state.rs:417-420 | no account and nonce executes twice in a run in which no drained transfer returns to its sender |
| LedgerReturns.UnnamedNeverRepeats | crates/pwm-core/src/state.rs:296-343 | if nobody names an account as its rescue account, before the run or by an Init in it, and no waiting transfer of the account goes to itself, then no execution of it returns and none repeats |
| LedgerSafety.OnlySenderPays | crates/pwm-core/src/state.rs:401-416 | a transaction takes neither coins nor stored marks from anybody but the account its signer's key derives, changes nothing else of the others, and on the checked path is signed by that key |
| LedgerSafety.RefusalKeeps | crates/pwm-core/src/state.rs:394-405 | a refused transaction changes nothing if and only if it is not a well-formed first Init, which leaves exactly its blank row |
| LedgerSafety.NeverAborts | crates/pwm-core/src/state.rs:507-534 | while the supply fits 128 bits and the sender has a nonce left, no arithmetic overflows |
| LedgerSafety.DrainNeverAborts | crates/pwm-core/src/state.rs:274-294 | a drain overflows nothing while every waiting sender has a nonce left |
| LedgerSafety.OthersLaterMarks | crates/pwm-core/src/state.rs:478-500 | a transaction by somebody else never raises the marks an account will have at a later height, and lowers them by at most one hour of accrual |
| LedgerSafety.EmergencyEffect | crates/pwm-core/src/state.rs:706-731 | an emergency activation moves all coins to the rescue account, drops the waiting transfers, and finalizes unless the redirect was already on |
| LedgerSafety.TxKeepsSealed | crates/pwm-core/src/state.rs:746-748 | on the checked path no transaction takes coins or stored marks from a finalized account, changes anything else of it, or reopens it |
| LedgerPaths.RunKeepsSealed | crates/pwm-core/src/state.rs:740-797 | over any run in which what a finalized account sends itself is checked, it stays finalized and loses nothing, whoever else uses the fast path |
| LedgerPaths.SealedExactly | crates/pwm-core/src/state.rs:740-797 | over any run it is left as it was, credits of coins and marks apart, if and only if it gets nothing through itself but transfers that wait |
| LedgerPaths.FastPathAgrees | crates/pwm-core/src/state.rs:421-428 | what the checked path applies the fast path applies too, with the same effect if and only if no policy redirects it or the redirected transfer is idle: not delayed, of amount zero, between accounts already touched at this height |
| LedgerPaths.CheckedPathAccepts | crates/pwm-core/src/state.rs:386-428 | what the fast path applies the checked path applies too if and only if its signature verifies and no policy refuses it |
| LedgerExamples.ReturningTransfer | crates/pwm-core/src/state.rs:331-342 | a run from a funded genesis to a delayed transfer that returns to its sender: six coins appear and the nonce stays unspent |
| LedgerExamples.ReplayedTransfer | crates/pwm-core/src/state.rs:296-343 | a run from a funded genesis in which one signed transfer is queued and drained twice: it executes twice under one nonce and its payer has doubled its coins |
| LedgerExamples.DivertedTransfer | crates/pwm-core/src/state.rs:421-428 | a ledger that a run from genesis reaches, and a transfer that the checked path pays to the rescue account and the fast path to the finalized one |
| LedgerExamples.FinalizedSpends | crates/pwm-core/src/state.rs:421-428 | a run from genesis after which a finalized account spends by the fast path and cannot by the checked one |
| LedgerExamples.UnsignedTransfer | crates/pwm-core/src/state.rs:386-391 | a transfer without a valid signature, which the fast path applies and the checked path refuses |
| LedgerExamples.RefusedInit | crates/pwm-core/src/state.rs:394-420 | a first Init refused for its nonce, and the blank row it leaves |
| LedgerPolicies.SetModeEffect | crates/pwm-core/src/state.rs:918-936 | setting a policy decides from this height on when it is in force, and leaves every other policy as it was |
| LedgerPolicies.SetModesEffect | crates/pwm-core/src/state.rs:448-450 | of policies set one after the other the last entry for each decides |
| LedgerPolicies.SetModeKeepsOk | crates/pwm-core/src/state.rs:918-936 | each policy keeps at most one deferred row, and one still ahead is neither in force nor dormant by its bit |
| LedgerPolicies.ActivateEffect | crates/pwm-core/src/state.rs:865-892 | an activation puts the policy in force at every height, changes no other, and finalizes exactly when it turns the emergency redirect on |
| LedgerPolicies.DeactivateEffect | crates/pwm-core/src/state.rs:893-914 | a deactivation succeeds exactly for a reversible policy still ahead or in force by its bit, and ends it exactly when no deferred row for it has matured |
| LedgerPolicies.DeactivationWithoutEffect | crates/pwm-core/src/state.rs:893-944 | a concrete account on which deactivating succeeds and the policy stays in force |
| LedgerPolicies.DeactivationRefused | crates/pwm-core/src/state.rs:893-944 | and one on which the policy is in force and deactivating it is refused |
| LedgerRules.RunPoliciesOk | crates/pwm-core/src/state.rs:855-936 | over any run of rising heights every account keeps at most one deferred row for each policy, and one still ahead neither in force nor dormant by its bit |
| LedgerRules.RecipientRespected | crates/pwm-core/src/state.rs:754-783 | a checked transfer pays, or queues for, exactly the recipient when none of its refusing policies is in force, and exactly its rescue account when it is finalized with the redirect in force |
| LedgerRules.CosignEnforced | crates/pwm-core/src/state.rs:750-794 | transfers and policy changes that demand a cosignature carry one that verifies over the message, and no transaction on either path takes the demand of a flagged account out of force |
| LedgerRules.RunStillDemands | crates/pwm-core/src/state.rs:1065-1067 | over any run of rising heights, by either path, a flagged account's cosigning demand stays in force |
| LedgerExports.LockFate | crates/pwm-core/src/state.rs:261-272 | over any run a lock is settled by the first refund pass at its height or the first import of its id, whichever comes first, and then never changes |
| LedgerExports.ImportedAtMostOnce | crates/pwm-core/src/state.rs:633-635 | no export id is imported twice in a run |
| LedgerExports.ImportedStays | crates/pwm-core/src/state.rs:269-270 | nothing imported or refunded before a run is imported in it |
| LedgerExports.FreshExport | crates/pwm-core/src/state.rs:601-613 | an export with an unspent nonce never meets a lock under its id, unless BLAKE3 collides on the exports' inputs |
| LedgerExports.SupplyOnlyGrows | crates/pwm-core/src/state.rs:573-615 | so from a ledger without locks no export is lost: the supply is what it was plus what was created |
| LedgerTurns.NeverTwiceInARow | crates/pwm-core/src/state.rs:417-430 | of transactions applied in a row, two share a sender and a nonce only as a delayed transfer and the emergency activation that drops it |
| LedgerGenesis.State0 | crates/pwm-core/src/genesis.rs:157-166 | the funding loop builds the genesis accounts, a repeated row replacing the earlier one |
| LedgerGenesis.GenesisSupply | crates/pwm-core/src/genesis.rs:157-166 | genesis grants exactly the sum over the last funding row of each account, and starts all the invariants |
| LedgerGenesis.GenesisAccounts | crates/pwm-core/src/genesis.rs:157-166 | genesis has exactly the funded accounts, each open under the key of its last row with its balance, a mark for each whole coin, no stake and no policies |
| LedgerChain.BlockRuns | crates/pwm-core/src/chain.rs:185-222 | a sealed block's ledger is the run of refund, its transactions, refund, drain and reward |
| LedgerChain.LiveOpsRun | crates/pwm-core/src/chain.rs:185-218 | the ledger's own operations are what the chain laws ask of a ledger |
| LedgerChain.ReplayRuns | crates/pwm-core/src/chain.rs:170-250 | the ledger at every tip is genesis with exactly the transactions of the history applied in order |
| LedgerChain.ReplayRises | crates/pwm-core/src/chain.rs:170-250 | that work never falls in height and ends at the height of the tip |
| LedgerChain.ChainInvariants | crates/pwm-core/src/chain.rs:170-250 | at every tip the waiting transfers, the locks and every account's policies are well formed, from genesis or any other ledger of which this holds at height zero |
| LedgerChain.ChainSupply | crates/pwm-core/src/chain.rs:185-222 | at every height of every run, from genesis or any other well-formed ledger without locks, the supply is what that ledger held plus what the sealed blocks created |
| LedgerChain.ChainBooks | crates/pwm-core/src/chain.rs:185-222 | at every tip every account and the pool hold what they held at first plus what the chain's work entered for them |
| LedgerBlocks.RunIsClean | crates/pwm-core/src/chain.rs:185-200 | every block of every run holds well-formed transactions, no two of which sign one content |
| LedgerBlocks.TipFixesContents | crates/pwm-core/src/chain.rs:117-122 | so two linked histories with one tip hash have blocks with the same signed contents in the same order, unless BLAKE3 collides on what they hashed or, with trees of different heights, a message reads as an inner node |
| LedgerBoot.GenesisSeals | crates/pwm-core/src/genesis.rs:157-166 | a chain booted from genesis can ever seal a block if and only if the minimum stake of a validator is zero |
| LedgerBoot.NeverSeals | crates/pwm-core/src/chain.rs:40-54 | with a positive minimum every run from a ledger without stake ends where it began |
| LedgerBoot.ProducerNeverMissing | crates/pwm-core/src/chain.rs:88-103 | no seal of any run fails for want of its producer's account, unless the work of its block overflows |
| LedgerBoot.SealExactly | crates/pwm-core/src/chain.rs:170-250 | a seal succeeds if and only if the clock can be read, some validator is active, and every transaction of the block is applied in its turn without overflow |
| LedgerBoot.StakeMakesActive | crates/pwm-core/src/chain.rs:40-54 | after an applied Stake its sender's validator is in the next active set if and only if old stake and amount reach the minimum |
| LedgerBoot.ActiveByBooks | crates/pwm-core/src/chain.rs:40-54 | at every tip a validator is in the next active set if and only if its account exists and its first stake, with what the chain's work entered, reaches the minimum |
| LedgerChain.SeasonOfOne | crates/pwm-core/src/state.rs:829-843 | the present policy pays the computed block reward if and only if a million times that reward fits 128 bits |
| LedgerChain.SeasonShare | crates/pwm-core/src/state.rs:829-843 | with a season coefficient the reward is that many millionths of the base emission, rounded down |
| LedgerChain.SeasonCuts | crates/pwm-core/src/state.rs:829-843 | a reward that is cut to a millionth |

## Left out

- `Chain::set_canon_h` and `sync_canon_h`: overrides used when a snapshot is loaded, which step outside the
  invariants of sealing on purpose.
- The evidence log of the state, the two `accrue_marks` passes that sealing does not call, and the
  stand-alone `apply_tx` with its built-in clock and configuration.
- The serialised state behind the state root: the digest is any function of ledger, epoch and active set.
- Fields that a message does not carry: cosignatures, the signature, and extras that a body kind does not
  sign. The Init, BurnMark and ClaimIPv4Batch arms of the shape check answer before the guards on such
  fields, so injectivity is stated over signed content only.
- `sign_body` and the `set_*_signed` helpers, which fill a field and sign again.
- The checksum of bech32, the internals of the cryptographic primitives, and the error texts of the parsers.
- `days_to_ymd` of the build script, `expand_purpose` (plain text replacement around the stamp), the
  provider signature on an off-chain batch.
- JSON, YAML and bincode plumbing, wallet files and encryption, the older wallet schemas, commands, HTTP,
  RPC and terminal interfaces, address search, and the Python scripts.
- StampBinds: a two-digit year cannot tell centuries apart, so the moments must lie less than a century apart.
- The policy bit masks of an account are sets, and its owner fields are one record that no rule reads.
- Update in place is modelled for the pool, the node, the state object and the message buffer; an account
  is a value that is copied, changed and stored back, as the code does with its clones.
