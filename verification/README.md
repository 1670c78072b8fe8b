# A verified model of the deposit detector

The repository detects deposits on Bitcoin, Litecoin, Ethereum, Base and Solana, tells a
backend about them, and can reset its wallets. This project models the parts of it that must
not lose or double anything, and proves what they promise:

- **Wallet reset** (`ResetJournal`, `ResetProtocol`, `ResetGeneration`, `ResetRuns`,
  `ResetMaintenance`): the journal protocol with its lock, manifest, pending marker, commit and
  receipt. Every durable action is one step; a crash drops the lock and keeps the disk; daemons
  write only under the shared guard. The journal's commit is a program of checks, deletions and
  writes, so that a resumed commit can be compared with an uninterrupted one.
- **Base58Check and Ltub normalisation** (`Radix`, `Derivation`): the two carry loops against a
  theory of digits in any radix.
- **Durable outbox and scan cursors** (`Outbox`, `Ledger`, and for each chain a scan and a
  detector): `pending`, the credited and ignored sets and the scan position are changed step by
  step in memory; a snapshot reaches the disk in one step; a crash falls back to the last
  snapshot. What holds in every run is proved about the events; the methods of the classes follow
  the code branch by branch and record in a ghost trace which events they went through.
- **Block scan and reorganisations** (`UtxoPayments`, `UtxoScan`, `UtxoDetector`), **block ranges
  by source** (`EvmScan`, `EvmDetector`), **signature paging** (`SolanaSignatures`, `SolanaScan`,
  `SolanaDetector`).
- **Wallet assignment in Redis** (`SolanaPool`, `SolanaWallets`, `SolanaConsolidation`): each
  Redis command of each client is one step; lock expiry, failed commands and crashes can happen
  anywhere.
- **Litecoin blocks** (`Parsing`, `LitecoinBlock`): the encoder of the section "Serialization" of
  BIP 144, with the flag byte 0x08 of LIP-0002 and LIP-0003, is the specification; the reader
  inverts it and accepts nothing else.
- **Event keys and receipt sets** (`EventKeys`, `Receipts`).

Hashes are opaque: SHA-256d is any function to 32 bytes, a block hash or transaction ID is a
name. What the network, the webhook, the price service and the sweeps answer is an input or a
free choice; the theorems over runs are about whatever answers the providers may give
(`EvmScan.World.told`) and whichever deposits the dust filter may drop
(`SolanaScan.SolanaChain.small`). `Ledger.failures` counts refused webhooks and failed writes, so
that methods can say what they do when nothing fails; `Ledger.told` counts detection webhooks.

## Where the code does not meet the property

- Two resets of BTC or LTC can both get a receipt while the generation moves once: operation A is
  archived and crashes before its marker, B completes at the same tip, A is retried
  (`ResetRuns.TwoReceiptsOneGeneration`). `ResetGeneration.GenerationCountsResets` has the exact
  condition.
- A crash between manifest and marker lets a daemon start; if it rewrites its state file, the
  retry places the marker and neither it nor any later run can remove it
  (`ResetRuns.DaemonWriteBlocksTheRetry`, `ResetProtocol.StuckForever`).
- A UTXO scan may start after the present tip (the setting that skips the initial sync) or at a
  given height. If a payment is then pending above the first height only, it can be lost: mined
  again lower down, it is passed over as pending already, and a later reorganisation drops it with
  its old height (`UtxoScan.StartBelowPendingLoses`). A start is safe exactly if no payment is
  pending above it only (and, at height 0, no hash is remembered for it, where the reorganisation
  depth would exceed the height): `UtxoScan.StartIsSafeExactly`. Going on from the file is always
  safe (`UtxoScan.FileStartIsSafe`).
- A UTXO block recorded between the check of its predecessor and the request for its hash may be
  no child of that predecessor. Then the mismatch below is never seen and payments of the
  replaced block are missed (`UtxoScan.TornRecordMissesPayment`); the records agree with the
  chain exactly if they are linked (`UtxoScan.UnseenMismatchMeansTorn`).
- The comment in `src/solana_pool.rs:25-28` says that the user lock prevents several assignments
  per user. It does as long as no lock expires under its holder and no error falls between
  claiming and publishing an address (`SolanaPool.OneActiveAddress`). Each of the two leads to two
  active addresses (`SolanaPool.ExpiredLockMakesTwo`, `SolanaPool.FailedPublishMakesTwo`).
- If moreover no error falls between archiving an address and dropping it from the index, the
  index is at a live address whenever the lock is free (`SolanaPool.IndexStaysLive`). Such an
  error leaves the index at the dormant address (`SolanaPool.HalfRotationHappens`), which every
  later assignment then hands out (`SolanaPool.HalfRotationSticks`).
- The receipt fallback finds a token transfer that `eth_getLogs` would not if the receiver topic
  is not padded with zeros (`Receipts.FilterFindsPadded`).
- An SPL token with the symbol SOL shares its payment keys with native SOL
  (`SolanaScan.PaymentKeyInjective`).

## Model

| member | source | states |
|---|---|---|
| Radix.DigitsCanonical | src/derivation.rs:53-99 | the digits of a number have no leading zero, are in range, and have its value |
| Radix.CanonicalUnique | src/derivation.rs:53-139 | a digit string without leading zeros is the digits of its value |
| Radix.MulAddCanonical | src/derivation.rs:63-72 | one multiply-and-add carry pass takes canonical digits to the canonical digits of the new value |
| Radix.ConvertInverse | src/derivation.rs:53-139 | radix conversion that keeps leading zeros is inverted by conversion back |
| Derivation.PositionFinds | src/derivation.rs:54-61 | the alphabet search finds exactly the 58 symbols, each at its own index |
| Derivation.Base58DecodeCheck | src/derivation.rs:53-99 | the decoder accepts exactly the strings whose bytes carry their own checksum, and returns the payload before it |
| Derivation.DecodeNumber | src/derivation.rs:56-73 | the digit loop yields the canonical base-256 digits of the number, or fails at the first character outside the alphabet |
| Derivation.AccumulateDigit | src/derivation.rs:63-72 | the in-place carry loop multiplies by 58 and adds the digit, every digit staying below 256 |
| Derivation.KeepLeadingOnes | src/derivation.rs:75-81 | one zero byte in front for every leading 1 |
| Derivation.Base58EncodeCheck | src/derivation.rs:101-139 | the encoder yields the encoded form of payload and checksum |
| Derivation.AccumulateByte | src/derivation.rs:112-122 | the least-significant-first carry loop multiplies by 256 and adds the byte, every digit staying below 58 |
| Derivation.SpellNumber | src/derivation.rs:125-136 | a 1 for every leading zero byte, then the digits, most significant first |
| Derivation.DecodeInvertsEncode | src/derivation.rs:53-139 | decode(encode(p)) = p for every byte string p |
| Derivation.EncodeInvertsDecode | src/derivation.rs:53-139 | encode(decode(s)) = s for every accepted string s |
| Derivation.Base58CheckIsBijection | src/derivation.rs:53-139 | a string decodes to a payload exactly if it is that payload's encoding |
| Derivation.NormalizeXpubToBitcoin | src/derivation.rs:13-51 | each chain's branch: Bitcoin unchanged, Litecoin rewritten or refused, the others refused, with the error for the reason; it refuses exactly the keys without a normal form |
| Derivation.NormalFormUnique | src/derivation.rs:18-39 | the normalised key decodes to the same payload with only the four version bytes changed, and is the only such string |
| Derivation.NormalizationIsIdempotent | src/derivation.rs:13-51 | normalising twice is normalising once |
| ResetJournal.CommitSucceedsIff | src/reset.rs:459-540 | a commit succeeds exactly if every check, archived key and file passes in the starting state, and its result is then known |
| ResetJournal.ResumedCommitIsSameCommit | src/reset.rs:459-540 | wherever an interrupted attempt stopped, running the journal again ends in the files and keys of one uninterrupted commit |
| ResetJournal.CommitOutcome | src/reset.rs:480-539 | afterwards the journal's files hold their new content, no key of a chain in the journal is left, nothing else changed |
| ResetJournal.CommitArchivesWhatItRemoves | src/reset.rs:480-539 | each value removed equals the archived dump or content |
| ResetProtocol.DaemonsNeverSeeHalfAReset | src/reset.rs:93-99 | over every interleaving: with a daemon admitted no operation is half applied and no marker exists; a partly applied one is the one the marker names |
| ResetProtocol.ReceiptMeansFinished | src/reset.rs:632-667 | a receipt is written only when both files of every selected chain hold their new content (for BTC and LTC the second one is the generation file, for the others the pool file) and no key is left in Redis of a selected Ethereum, Solana or Base that keeps its assignments there |
| ResetProtocol.PreparedIsCommittable | src/reset.rs:360-540 | a fresh journal passes every check of the commit |
| ResetProtocol.PreparedArchives | src/reset.rs:267-449 | a fresh journal holds, with its value, every Redis key of a selected Ethereum, Solana or Base that keeps its assignments there |
| ResetProtocol.RetriesEndAlike | src/reset.rs:632-667 | over any run of crashes and retries of one operation without other writers, the journal stays committable and leads to the files and keys of one uninterrupted commit, but for keys expired since; with the receipt these are the files and keys |
| ResetProtocol.ResetsLoseNothing | src/reset.rs:480-539 | manifests and receipts are append-only, and whatever a reset removes is archived in its manifest |
| ResetProtocol.CompletedResetIsInert | src/reset.rs:632-643 | once an operation has its receipt, running it again changes no file, key, manifest or receipt |
| ResetProtocol.StuckForever | src/reset.rs:480-496 | a marked operation whose file is neither archived nor replaced content blocks every later run |
| ResetGeneration.GenerationCountsResets | src/reset.rs:111-123 | the generation stays below 2^31, never falls, and equals initial plus completed resets exactly if no completed journal was stale when marked |
| ResetGeneration.DerivationPathsAreFresh | src/reset.rs:125-157 | (generation, user) to derivation path is injective |
| ResetRuns.TwoReceiptsOneGeneration | src/reset.rs:645-663 | a run with two receipts and one generation step |
| ResetRuns.DaemonWriteBlocksTheRetry | src/reset.rs:645-663 | a run that leaves a marker no later run can clear |
| ResetMaintenance.Maintenance.ValidateStoragePaths | src/reset.rs:542-574 | accepts exactly the configurations whose storage files are pairwise distinct |
| ResetMaintenance.Maintenance.ReadGeneration | src/reset.rs:111-123 | 0 for a missing file, the stored generation if valid, else an error |
| ResetMaintenance.Maintenance.AddFile | src/reset.rs:192-221 | appends the path with its present and new content, or refuses a path already in the journal |
| ResetMaintenance.Maintenance.SnapshotRedis | src/reset.rs:267-311 | the dump of every key of the chain, and of no other |
| ResetMaintenance.Maintenance.PrepareJournal | src/reset.rs:360-457 | succeeds exactly if no storage is shared, every answer came, a chain is selected, the selected ones are configured and their generations valid and below the limit; the journal then has both files of each selected chain with their present contents and what they are reset to (the next generation for BTC and LTC, a new pool for the others), and with its value every Redis key of a selected Ethereum, Solana or Base that keeps its assignments there |
| ResetMaintenance.Maintenance.CompareAndDelete | src/reset.rs:529-533 | a missing key passes, an unchanged one is deleted, a changed one refuses |
| ResetMaintenance.Maintenance.Commit | src/reset.rs:459-540 | succeeds exactly if configuration and state allow it; on failure it has executed a prefix of the commit |
| ResetMaintenance.Maintenance.ExecuteAt | src/reset.rs:618-668 | goes through legal protocol events only; exactly when it succeeds, for new, archived and completed operations, and in which files, keys, receipts and marker it ends: after a success that is not a repetition, no assignment of a selected chain that keeps them in Redis is left there |
| Outbox.CreditsAreBounded | src/blockstream.rs:908-951 | an event is credited at most once plus once for each crash, always with its chain amount, after an acknowledged detection |
| Outbox.DetectionPrecedesCredit | src/ethereum.rs:1347-1395 | no credit is acknowledged before a detection of the same event |
| Outbox.PendingLeavesOnlyWhenDone | src/blockstream.rs:941-949 | a payment leaves pending only credited, ignored, or by rollback or crash |
| Outbox.ReceiverTotal | src/ethereum.rs:1276-1432 | a receiver that keeps one row per event ID ends with the sum of the chain amounts over the distinct credited IDs |
| Outbox.RecordedCreditIsFinal | src/blockstream.rs:817-840 | once a credit has reached the state file its event is never queued or credited again, through crashes and rollbacks |
| Outbox.CreditOutlivesRollback | src/blockstream.rs:1316-1337 | without a crash a recorded credit keeps its event from being queued again after a rollback |
| Outbox.AccountedStays | src/ethereum.rs:2154-2176 | without crash and rollback the union of pending, credited and ignored never shrinks |
| Outbox.UpdateChangesFirst | src/blockstream.rs:891-904 | the update of a payment changes the first entry with its ID, and no other |
| Ledger.Ledger.PersistState | src/blockstream.rs:804-815 | one atomic snapshot of memory, or a failure that leaves the file alone |
| Ledger.Ledger.NotifyDetection | src/blockstream.rs:884-906 | webhook, flag, snapshot: on success the detection is acknowledged, the first pending entry with this ID is marked as notified in memory and in the file, and every other entry is unchanged at its place; whatever fails, no other payment is concerned and no credit sent |
| Ledger.Ledger.MoveEntry | src/ethereum.rs:1311-1324 | the first pending entry with this ID is at the new height, every other one unchanged at its place; on success in the file too |
| Ledger.Ledger.SendCredit | src/blockstream.rs:923-940 | webhook, record, snapshot: on success exactly one credit of this payment's amount was sent and memory and file have it; on failure at most that |
| Ledger.Ledger.RetireEntry | src/blockstream.rs:941-949 | the payment, and no other, leaves pending; on success in the file too |
| Ledger.Ledger.CreditAndRetire | src/ethereum.rs:1386-1431 | one credit unless already credited, removal unless the sweep was deferred |
| UtxoPayments.PaymentKeyInjective | src/blockstream.rs:1453-1455 | keys are equal exactly for equal transaction and address, and are never a transaction ID |
| UtxoPayments.TotalIgnoresOrder | src/blockstream.rs:684-751 | the total of a payment is invariant under any permutation of the outputs |
| UtxoPayments.TotalPositive | src/blockstream.rs:1457-1476 | a payment has a positive total exactly if one of its outputs is positive |
| UtxoPayments.AggregateUtxoPayments | src/blockstream.rs:1457-1476 | the result holds each payment with a positive total once, with its sum as a u64 |
| UtxoPayments.AggregationIgnoresOrder | src/blockstream.rs:684-751 | any order of the same outputs aggregates to the same payments |
| UtxoPayments.RecoveredAmount | src/blockstream.rs:1043-1066 | the recovery's loop yields the saturating total of the expected address |
| UtxoPayments.RecoveryAgreesWithScan | src/blockstream.rs:997-1066 | the scan of a block finds a payment with the amount the recovery of its transaction computes |
| UtxoPayments.ScanRawBlock | src/blockstream.rs:671-752 | exactly the watched payments of the block, with their amounts |
| UtxoScan.NothingRecordedIsLost | src/blockstream.rs:1316-1418 | over every run whose starts are safe, in memory and in the file, each watched payment of each recorded block is credited or pending since that block |
| UtxoScan.StartBelowPendingLoses | src/blockstream.rs:817-840 | for any payment pending only above the first height, a run of the code that scans it again below and loses it in a reorganisation |
| UtxoScan.StartIsSafeExactly | src/blockstream.rs:1262-1288 | a start at any height, after the tip or from the file is safe if and only if no run from it loses a payment of a scanned block |
| UtxoScan.FileStartIsSafe | src/blockstream.rs:1274-1279 | going on after the last scanned height is safe |
| UtxoScan.ReorgDepthIsUnique | src/blockstream.rs:754-802 | the mismatching run below the next height has one length |
| UtxoScan.RollbackAgreesExactly | src/blockstream.rs:1316-1337 | a rollback leaves only agreeing records exactly if no mismatching record lay below a matching one |
| UtxoScan.RollbackFindsTheFork | src/blockstream.rs:1316-1337 | with linked records everything left after a rollback agrees with the chain |
| UtxoScan.ForkIsFound | src/blockstream.rs:754-802 | linked records of which the one at f - 1 still matches and the one at f does not are a reorganisation of exactly the blocks from f on, however many |
| UtxoScan.RecordsStay | src/blockstream.rs:1427-1429 | over every run without a start: the records of the last minConfirmations + 11 heights below the highest one reached are kept |
| UtxoScan.UnseenMismatchMeansTorn | src/blockstream.rs:754-802 | once the newest record matches, the records agree with the chain exactly if they are linked |
| UtxoScan.ChainedRun | src/blockstream.rs:1316-1418 | records stay consecutive and linked over runs that record children of the last record |
| UtxoScan.ChainWindowIsCovered | src/blockstream.rs:1316-1418 | then every watched payment of the chain's own blocks in the recorded window is credited or pending; while the process goes on, the window holds at least the last minConfirmations + 11 heights below the highest one reached, as far as the records went back |
| UtxoScan.TornRecordMissesPayment | src/blockstream.rs:1314-1361 | a legal run that records a stale block under a newer one misses a payment unseen |
| UtxoDetector.ChainDetector.DetectReorg | src/blockstream.rs:754-802 | the length of the maximal mismatching run, never above the next height |
| UtxoDetector.ChainDetector.EnqueueOrConfirm | src/blockstream.rs:817-840 | afterwards every payment is credited or pending, what was added are entries of listed payments at the scanned height, nothing else changed, and on success the file has it |
| UtxoDetector.ChainDetector.ProcessPendingPayment | src/blockstream.rs:864-951 | a credit is sent only for this payment, with at least minConfirmations (and one) blocks on top, and not credited before; without failures its detection is acknowledged and marked in memory and file, and once confirmed it is credited and leaves pending unless the sweep is deferred |
| UtxoDetector.ChainDetector.ProcessConfirmed | src/blockstream.rs:842-862 | keeps every pending payment or credits it, and adds none; if nothing fails, every confirmed payment is credited; at most one detection webhook goes out for each payment not marked as notified, and none for the others |
| UtxoDetector.ChainDetector.StartLoop | src/blockstream.rs:1257-1294 | which height is chosen, what is forgotten, when it fails, for every start; after a safe one all guarantees hold on |
| UtxoDetector.ChainDetector.ScanStep | src/blockstream.rs:1315-1418 | one turn: roll back, stop, or record the block with its payments, and no others, held and persisted; a recorded block keeps the records of the minConfirmations + 10 heights before it and no lower ones, a rollback forgets exactly the records and payments from its height on; if nothing fails, every payment of the block or pending before that has its confirmations is credited |
| UtxoDetector.ChainDetector.ScanBatch | src/blockstream.rs:1315-1418 | for fixed answers the loop ends; if everything was scanned the records agree with the chain, else an answer was missing or something failed. If the record at some height was still that of the chain and none above it was missing, every block of the chain from there to the tip is then recorded and its watched payments held, however many of the old ones were replaced, and the newest minConfirmations + 11 are remembered |
| EvmScan.Cursors.Set | src/ethereum.rs:121-128 | one cursor moves, never backwards |
| EvmScan.Cursors.CommonHeight | src/ethereum.rs:130-132 | the minimum of the three cursors, once all are set |
| EvmScan.ChunksTile | src/ethereum.rs:881-916 | every block between start and cursor lies in exactly one chunk, and no chunk reaches outside |
| EvmScan.NothingScannedIsLost | src/ethereum.rs:801-930 | over every run, in memory and in the file: every block up to a cursor is in exactly one chunk, with an answer that the providers gave for its blocks and addresses, whose qualifying transfers are all pending, credited or ignored |
| EvmScan.FileNeverGoesBack | src/ethereum.rs:920-930 | cursors and accounted payments of the file only grow, memory is never behind, the published height is the minimum of the cursors |
| EvmScan.CreditedCanBeIgnored | src/ethereum.rs:1306-1309 | credited and ignored are not disjoint |
| EvmDetector.EthereumDetector.ScanNativeEth | src/ethereum.rs:946-1014 | every qualifying transfer of the blocks is known already or returned, and nothing else is returned; a missing block or receipt fails the scan |
| EvmDetector.EthereumDetector.ScanErc20Logs | src/ethereum.rs:1062-1072 | the same for the transfer logs of a range |
| EvmDetector.EthereumDetector.ScanInternalCalls | src/ethereum.rs:1133-1233 | the same for internal calls; an address that fails fails the scan but not the other addresses |
| EvmDetector.EthereumDetector.EmitDetectedAndEnqueue | src/ethereum.rs:1243-1274 | a known event changes nothing; another adds exactly its own entry to pending, and on success to the file |
| EvmDetector.EthereumDetector.ScanChunk | src/ethereum.rs:881-913 | a chunk completes only with all its qualifying transfers accounted for, and queues only entries of qualifying transfers a provider reported |
| EvmDetector.EthereumDetector.SetScanCursor | src/ethereum.rs:920-930 | the cursor, the common height and the file afterwards |
| EvmDetector.EthereumDetector.ScanSource | src/ethereum.rs:857-918 | moves this source only, by whole chunks of 1, 25 or the cycle's maximum, each with what the providers answered for it; on success from a cursor at n to min(safe, n + max(maxBlocks, 1)), without one to min(safe, start + max(maxBlocks, 1) - 1), and without a start block to the safe block |
| EvmDetector.EthereumDetector.SkipSource | src/ethereum.rs:832-838 | a source without addresses goes to the safe block |
| EvmDetector.EthereumDetector.BeginScan | src/ethereum.rs:805-829 | an old state begins all three sources at its one height; a new one at the safe block, or without cursors if there is a start block |
| EvmDetector.EthereumDetector.ScanNewBlocks | src/ethereum.rs:801-855 | every block a cursor passed was asked for with the addresses looked up, and all that qualifies in the answer is accounted for; what was queued are entries of qualifying transfers a provider reported; each source is paused or has gone as far as `ScanSource` or `SkipSource` says; if nothing fails none is paused |
| EvmDetector.EthereumDetector.ScanCycles | src/ethereum.rs:2529-2558 | n smooth cycles at a fixed safe block take every source to it, or at least n blocks further |
| EvmDetector.EthereumDetector.ProcessCreditEntry | src/ethereum.rs:1298-1433 | the event is ignored exactly for a failed receipt or a gas-tank top-up; a credit needs a good receipt, no top-up, at least minConfirmations (and one) blocks and a sweep answer; success means ignored, or detected and once confirmed credited and, if swept, removed, with the notified flag and the mined height set in memory and file; no other payment is touched |
| EvmDetector.EthereumDetector.ProcessCredits | src/ethereum.rs:1276-1296 | new credits are of pending payments not credited before, and only payments the answers dismiss are ignored; if nothing fails and every answer comes, every payment is ignored if it is to be dismissed, and else credited or waiting for confirmations; at most one detection webhook goes out for each payment not marked as notified, and none for the others |
| EventKeys.EventIdInjective | src/ethereum.rs:981-1205 | distinct transfers have distinct event IDs, even with colons inside a trace ID |
| EventKeys.LogIndexExact | src/ethereum.rs:2865-2870 | the log index is read back from an ERC-20 event ID, and nothing from the others |
| Receipts.Pigeonhole | src/ethereum.rs:560-578 | as many distinct listed hashes as the list is long are the whole list, without duplicates |
| Receipts.CheckReceipts | src/ethereum.rs:560-578 | the checks pass exactly if receipts and transactions correspond one to one and each receipt names the block |
| Receipts.BlockReceipts | src/ethereum.rs:518-580 | it succeeds exactly if the block and all of its receipts are served, at once or one by one; then with a one-to-one set of receipts of the block |
| Receipts.FilterFindsPadded | src/ethereum.rs:1026-1040 | a transfer to a reserved address is found by the filter exactly if its receiver topic is padded |
| Receipts.LogsFromReceipts | src/ethereum.rs:1046-1061 | the fallback collects exactly the logs of the range, or fails for a block whose receipts are incomplete or do not say whether they succeeded |
| Receipts.ScanErc20Logs | src/ethereum.rs:1016-1126 | by either way the payments are those of the transfer logs really emitted, each with token, hash, index, block, receiver and amount; it fails only if the providers do, or for a log without its place |
| SolanaSignatures.GetNewSignatures | src/solana.rs:2318-2371 | exactly the signatures newer than the cursor when the first page came, oldest first, whatever is prepended between pages |
| SolanaScan.PaymentKeyInjective | src/solana.rs:120-122 | keys are equal exactly for equal signature, address and asset name |
| SolanaScan.NothingPassedIsLost | src/solana.rs:1166-1328 | over every run, in memory and in the file, each signature between first and present cursor deposited nothing, or so little that the dust filter dropped it, or is pending or credited |
| SolanaDetector.SolanaDetector.QueuePayment | src/solana.rs:2700-2714 | a credited or pending deposit changes nothing; another adds exactly its own entry; on success the file has it |
| SolanaDetector.SolanaDetector.UpdateLastProcessedSignature | src/solana.rs:2455-2470 | the cursor of the account, and no other, is at the signature |
| SolanaDetector.SolanaDetector.ProcessAccount | src/solana.rs:1166-1328 | every signature newly passed deposited nothing, was found too small, or is held, only what was found too small counts as dust, and only deposits not too small were queued; on success the cursor is at the newest signature the node knew; a failure stops before the signature that failed |
| SolanaDetector.SolanaDetector.ProcessCreditEntry | src/solana.rs:1357-1664 | a credit needs at least minConfirmations (and one) slots, an owner that did not change and a sweep answer; success means detected, marked as notified in memory and file, and once confirmed credited and, if swept, removed; a payment refused for its owner stays pending |
| SolanaDetector.SolanaDetector.ProcessCredits | src/solana.rs:1330-1355 | new credits are of pending payments, confirmed and not credited before; if nothing fails, every confirmed payment with an unchanged owner is credited; at most one detection webhook goes out for each payment not marked as notified, and none for the others |
| SolanaPool.AddressesArePermanent | src/solana_pool.rs:501-696 | over all interleavings, crashes and expired locks: owners and dormancy are permanent, the index names the user's own addresses, assigned keys are in the pool file, results belong to their user |
| SolanaPool.OneActiveAddress | src/solana_pool.rs:533-608 | at most one active address per user while no lock expires under its holder and no error falls between claim and publication |
| SolanaPool.FailedPublishMakesTwo | src/solana_pool.rs:583-596 | from a state without clients, an error in that place and the end of the lock lead to two active addresses |
| SolanaPool.ExpiredLockMakesTwo | src/solana_pool.rs:533-608 | from a state without clients, a lock that runs out under its holder leads to two active addresses |
| SolanaPool.IndexStaysLive | src/solana_pool.rs:889-1006 | without such errors, and none between archiving and dropping the index, the index names a live address whenever no one holds the lock |
| SolanaPool.HalfRotationHappens | src/solana_pool.rs:969-987 | from a state without clients, an error right after archiving leaves the index at the dormant address |
| SolanaPool.HalfRotationSticks | src/solana_pool.rs:516-520 | an index left at a dormant address stays there, and is what assignments return |
| SolanaWallets.Pool.AssignWalletForUser | src/solana_pool.rs:501-608 | command by command a client of the protocol; what it returns is the user's and in the pool file; a user is refused only if the lock was taken at each of 30 attempts, or every address of the pool is assigned and the pool is full or the new address taken |
| SolanaWallets.Pool.ClaimFirstUnassignedWallet | src/solana_pool.rs:610-696 | the claimed address was unassigned and is now the user's, reserved at the given time; none is claimed only if every address of the pool is assigned and the pool is full or the new address taken |
| SolanaWallets.Pool.AppendWallet | src/solana_pool.rs:648-663 | a pool that is not full gains exactly the new address, in file and memory; a full one nothing |
| SolanaWallets.Pool.RotateAssignment | src/solana_pool.rs:889-1006 | the retired address is the user's and dormant, the new one was unassigned and is the user's; it fails only for a lock taken at each of 30 attempts, an index that named no live address, or an exhausted pool; in any case the lock is released |
| SolanaConsolidation.Store.ConsolidateAssignments | src/solana_pool.rs:801-879 | whatever the scan and group order: duplicates dormant, canonical address indexed, nothing else changed; archived counts the duplicates |
| SolanaConsolidation.ConsolidationConverges | src/solana_pool.rs:801-879 | each user with an active address then has exactly one, indexed: the earliest reserved of those that were active, and of equally early ones the smallest address |
| SolanaConsolidation.LessIsLexicographic | src/solana_pool.rs:832-836 | the order of addresses is by the first character that differs, or by ending |
| SolanaConsolidation.ConsolidationIsIdempotent | src/solana_pool.rs:797-800 | a second run changes nothing |
| SolanaConsolidation.SecondRunArchivesNothing | src/solana_pool.rs:797-800 | and archives nothing |
| SolanaConsolidation.ConsolidationEstablishesLockInv | src/solana_pool.rs:801-879 | a consolidated store is one from which the protocol keeps one active address per user |
| Parsing.VarIntForward | src/litecoin_block.rs:50-57 | a minimal variable-length integer is read back, and exactly its bytes are consumed |
| Parsing.VecBackward | src/litecoin_block.rs:74-93 | an accepted list is the encoding of what was read |
| LitecoinBlock.TransactionInverts | src/litecoin_block.rs:71-127 | the transaction parser inverts every framing and accepts nothing else, consuming exactly its own bytes |
| LitecoinBlock.BlockParserIsExact | src/litecoin_block.rs:47-69 | bytes parse to a block exactly if they are a serialisation of it followed by anything |
| LitecoinBlock.UnknownFlagRefused | src/litecoin_block.rs:84-92 | a flag byte other than 0x01, 0x08 and 0x09 is refused |
| LitecoinBlock.InlineMwebRefused | src/litecoin_block.rs:136-143 | any other byte in place of the null MWEB byte is refused, whatever follows |
| LitecoinBlock.Reader.ReadWitnesses | src/litecoin_block.rs:104-112 | one witness per input, filled in place |
| LitecoinBlock.Reader.DecodeTransaction | src/litecoin_block.rs:71-127 | the branches on marker, flags, witnesses and MWEB byte yield what the parser function says |
| LitecoinBlock.Reader.SkipMwebPayload | src/litecoin_block.rs:136-143 | a null payload is skipped, an inline one refused |
| LitecoinBlock.DeserializeLitecoinBlock | src/litecoin_block.rs:47-69 | a block is returned exactly for bytes that serialise it |

## Left out

- HTTP handlers, the panel, QuickNode, Helius and Etherscan clients, webhook signing, pricing and configuration parsing: plumbing around the modelled logic.
- Key derivation, signatures, address encodings: library calls; derivation paths are integer sequences.
- Fiat values, dust thresholds and fee ratios: a free decision to defer, ignore or proceed.
- Sweeps and gas-tank maintenance: only whether a sweep failed, was deferred or done.
- Retries, back-off and read failover: a call returns a value or an error.
- src/ethereum_pool.rs: a weaker form of the Solana assignment protocol, without its lock.
- Memory limits inside the Bitcoin library's decoders and the cap on preallocated transactions: no limit in the model. The library is not part of this model.
- Canonical paths, symbolic links and the maintenance-root overlap test in `add_file`; recovery credentials; wallet file generation: contents are values and paths are names.
- The comparison of configuration and master keys before a commit: one free truth value.
- Errors of the file lock itself: a lock is taken or the call does not start.
- `recover_txid` as a step of the UTXO runs: its payments carry the height an explorer reports, which the coverage statements do not bound. Only its sum and key are modelled.
- Legacy event IDs of pending payments: only in the test for already credited payments.
- Reorganisations deeper than the confirmation window on EVM chains: a chunk's coverage is of what the providers answered for it.
- An Etherscan transaction hash that is not 32 bytes of hex is kept verbatim by the code; event IDs are modelled for well-formed hashes.
- `delete_all_assignments` and `load_assignment_for_user` in src/solana_pool.rs: the first breaks permanence on purpose, the second deletes an index without the lock.
- Consolidation while other clients run: it is modelled on its own, at process start.
- Failed Redis commands in the methods of `SolanaWallets.Pool`: they are events of `SolanaPool`, in which a client may stop or jump to the release at any point; the methods follow the commands that succeed.
- Unparseable assignment payloads: a stored payload parses.
- The endless polling loops and their sleeps.
- ResetMaintenance.Maintenance.SnapshotRedis: does not model the SCAN cursor, only the set of keys found.
- UtxoDetector.ChainDetector.ScanBatch: takes one set of answers for the whole batch, because with answers that keep changing the loop need not end; `ScanStep` takes any answers.
- UtxoScan.StartIsSafeExactly: is about chains that may have an empty block and, for each pending payment, a block with it; for a height given by an operator, about files that remember no hash above the last scanned height (for others the condition is only shown to suffice).
- UtxoDetector.ChainDetector.StartLoop: after an unsafe start it states the new position only; what may follow is said about the events.
- UtxoPayments.ScanRawBlock: assumes distinct transaction IDs in a block and totals below 2^64.
- EvmDetector.EthereumDetector.ProcessCredits: takes one set of answers for each event of a pass; another pass may get others.
- SolanaDetector.SolanaDetector.ProcessCredits: likewise one owner check and one sweep answer for each event of a pass.
- SolanaDetector.SolanaDetector.ProcessAccount: native and token accounts share one method; extraction of balances from a transaction is the chain's `amount`, and the fiat value behind the dust filter is left to `tooSmall`.
- SolanaWallets.Pool.AssignWalletForUser: does not promise that the address is active, since it may be read in the middle of a rotation.
