# A verified model of the Bitcoin–Starknet relayer backend

The backend moves value between Bitcoin and Starknet. It proves Bitcoin deposits by SPV, relays
block headers, pays withdrawals from a wallet or a covenant, keeps the authorizations for those
payouts in a table, encodes burn proofs, and runs hash time locks under an in-memory lock manager.
This project models that logic in Dafny and proves what it is relied on for.

| files | subject |
|---|---|
| `Bytes`, `Hex`, `CompactSize`, `Decimal`, `Sorting`, `Wrappers` | buffers, words, hex and decimal text, `Number()`, the stable sort |
| `Transactions`, `BitcoinProof`, `WitnessEncoding` | BIP 144 serializations, the witness stripper, the output search, the witness encoder |
| `Merkle`, `BlockHeader`, `SpvEndToEnd` | branch verification, the tree, header roots, and the pipeline as a whole |
| `CoinSelection`, `Payments` | largest-first selection and the amounts of a payment |
| `Authorizations`, `WithdrawalProtocol`, `WithdrawalVisits`, `WithdrawalProcessor` | the authorization table, the payout protocol, visits and passes as runs of it, the polling processor |
| `HeaderRelay` | relay cycles, one at a time and overlapping |
| `StarknetProof` | the 112-byte burn proof and its cache |
| `Locks`, `Htlc` | the lock manager and hash time locks |

Conventions of the model:

- Loops and mutable objects of the backend are Dafny methods and classes; each is proved against a
  function or a property, and the theorems are about that function. Protocols with several
  activities in flight are state machines whose events are the stretches of code between two awaits;
  theorems range over all event lists.
- Double SHA-256 is a parameter `H` from byte strings to 32 bytes, Poseidon a parameter from strings
  to strings. Nothing is assumed of either: soundness of Merkle branches hands over two colliding
  messages instead of assuming that there are none.
- Hex strings are decoded as Node does: decoding stops at the first pair that is not two hex digits.
  A 64-bit integer turned into a number is rounded to 53 significant bits, ties to even. Adding such
  a number to a cursor is exact in the model; from 2^53 on a cursor is past the end of any buffer,
  so rounding it could not change an answer.
- Fee rates are reals. Network results, receipts, timer firings and the clock are inputs.

Results where the code does not do what one might expect, each with the exact condition:

- Stripping a legacy serialization is the identity except for a transaction with no input and one
  output, whose bytes look marked; stripping twice equals stripping once except for the witness form
  of such a transaction, and both forms show the same vault output except for such a transaction
  (`StripTransaction`, `StripTwice`, `StripTransactionTwice`, `VaultOutputSameOnBothForms`, with
  examples in `EmptyPaymentStripsTwice` and `EmptyPaymentFormsDiffer`).
- `varInt` equals the CompactSize encoder only below 2^32 and throws from there on (`VarInt`).
- A payment is lost when its response does not come back or its txid is empty: the row goes back to
  pending although it was paid, and the next pass pays again (`LostResponsePaysTwice`). Every run
  pays an authorization once for its completion and once for each event that loses a payment of it,
  no more (`PayoutSafety`); payments and completions agree exactly when there is no such event
  (`PaidOnceIffNeverLost`, `RunConsistentIffNothingLost`, `ConsistentIffCleanOutcome`).
- An exit of the process strands the row in hand: no later run pays it or changes its status
  (`StrandedForGood`, `ExitStrandsUnpaid`). Every other row is paid by the next good pass
  (`OnePassPaysEveryone`).
- The Merkle verifier does not look at the length of the proof. At the depth of the tree an accepted
  proof is for a transaction of the block. Below it, what is accepted are 64-byte joins of two tree
  nodes, and those are; above it, a transaction of the block must itself be such a join, always up to a collision
  (`AcceptedProofIsInBlock`, `ShorterProofsExist`, `LongerProofsExist`).
- Relaying is gap-free from a stored cursor (`RelayIsGapFree`). From none it is gap-free from the
  start of some cycle, which need not be the first one (`UnsetRelayIsGapFree`,
  `FirstTipCanBePassedOver`).
- A burn proof can be read back from its 112 bytes exactly when both hashes denote 32 bytes
  (`RoundTripIffGoodHashes`, `LongHashesClash`).
- The lock excludes exactly as long as no operation outlives its timer; the release at the end of an
  operation is by key, whoever holds it by then (`ExclusionIffTimely`).
- The comment at backend/src/services/BitcoinProofService.ts:256-260 says that sibling hashes are
  read directly; the code reverses them, and the model follows the code. The main routine of
  backend/debug_spv_proof.js does not reverse them, which agrees only on hashes that read the same
  backwards (`UnreversedSiblings`).

## Model

| member | source | states |
|---|---|---|
| CompactSize.ReadEncoded | backend/src/services/BitcoinProofService.ts:114-121 | For every n below 2^64 and any bytes around it, the reader returns the encoder's n (the nearest double from 2^53 on) and the width consumed |
| CompactSize.ReadVarInt | backend/src/services/BitcoinProofService.ts:114-121 | It succeeds exactly when the first byte and the width it announces lie inside the buffer |
| CompactSize.EncodeBytes | backend/src/services/BitcoinProofService.ts:114-121 | The encoder's bytes: one below 253, else 253, 254 or 255 and two, four or eight bytes with the lowest first |
| Bytes.ToNumberMeans | backend/src/services/BitcoinProofService.ts:114-121 | Number() of a bigint: exact below 2^53, from there the nearest multiple of the power of two that leaves 53 significant bits, ties to the even one |
| Bytes.FromLEPlaces | backend/src/services/BitcoinProofService.ts:114-121 | In the fields read from a buffer the first byte counts least |
| Hex.DecodeMeans | backend/src/services/BitcoinProofService.ts:142 | Decoded bytes are the pairs of hex digits at the front, high digit first, up to the first pair that is not one |
| Hex.Digits | backend/src/services/BitcoinProofService.ts:142 | The hex digits of either case and their values |
| BitcoinProof.SkipInputs | backend/src/services/BitcoinProofService.ts:166-170 | The input loop ends where the recursive walk over that many inputs ends, with the same error |
| BitcoinProof.SkipOutputs | backend/src/services/BitcoinProofService.ts:178-182 | The output loop ends where the recursive walk ends |
| BitcoinProof.SkipWitness | backend/src/services/BitcoinProofService.ts:188-195 | The nested witness loops end where the recursive walk over the stacks ends |
| BitcoinProof.InputsEndAt | backend/src/services/BitcoinProofService.ts:166-170 | Over serialized inputs the cursor moves by exactly their encoded length |
| BitcoinProof.OutputsEndAt | backend/src/services/BitcoinProofService.ts:178-182 | Over serialized outputs the cursor moves by exactly their encoded length |
| BitcoinProof.StacksEndAt | backend/src/services/BitcoinProofService.ts:188-195 | Over serialized witness stacks, wherever they stand, the cursor moves by exactly their encoded length |
| BitcoinProof.StripWitnessData | backend/src/services/BitcoinProofService.ts:140-212 | The imperative stripper turns the witness serialization of every valid transaction into its legacy serialization, and on any string answers, errors included, as the function the theorems below are about |
| BitcoinProof.StripWitnessForm | backend/src/services/BitcoinProofService.ts:140-212 | Stripping the witness serialization of any valid transaction gives exactly its legacy serialization |
| BitcoinProof.StripIsIdentityIffUnmarked | backend/src/services/BitcoinProofService.ts:147-153 | On any string, the stripper returns its argument if and only if marker and flag are absent |
| BitcoinProof.StripTransaction | backend/src/services/BitcoinProofService.ts:140-212 | Both serializations: the witness form strips to the legacy form; the legacy form is a fixed point iff it is not of a transaction with no input and one output |
| BitcoinProof.StrippedMarker | backend/src/services/BitcoinProofService.ts:200-206 | A stripped result looks marked again iff bytes 6 and 7 of the original were 00 01 |
| BitcoinProof.StripTwice | backend/src/services/BitcoinProofService.ts:140-212 | On any input accepted once, stripping twice equals stripping once iff bytes 6 and 7 of a marked input are not 00 01 |
| BitcoinProof.StripTransactionTwice | backend/src/services/BitcoinProofService.ts:140-212 | For both serializations of every valid transaction: stripping twice equals stripping once iff it is not one with no input and one output; so always with an input |
| BitcoinProof.EmptyPaymentStripsTwice | backend/src/services/BitcoinProofService.ts:140-212 | The failing case exists: a valid transaction whose witness form strips to 19 bytes and those to 10 |
| BitcoinProof.FindVaultOutput | backend/src/services/BitcoinProofService.ts:78-112 | On the witness serialization of every valid transaction: the first output whose script matches and its amount, or the no-output error; on any string the answer of the function below, errors included |
| BitcoinProof.VaultOutputOnTransaction | backend/src/services/BitcoinProofService.ts:78-112 | From either serialization: the least output index whose script matches, with its amount, and the no-output error iff none matches |
| BitcoinProof.SearchErrors | backend/src/services/BitcoinProofService.ts:97-111 | On any bytes the search answers no vault output only if it can read every output, and fails otherwise exactly because it cannot |
| BitcoinProof.VaultOutputSameOnBothForms | backend/src/services/BitcoinProofService.ts:249-253 | The witness form and the stripped form of every valid transaction give the same answer, unless it has no input and one output |
| BitcoinProof.EmptyPaymentFormsDiffer | backend/src/services/BitcoinProofService.ts:249-253 | There they can differ: an example whose witness form pays output 0 and whose legacy form shows no output |
| BitcoinProof.HexHashToWords | backend/src/services/BitcoinProofService.ts:62-72 | In-place reversal and the word loop give the big-endian words of the reversed bytes; any other length is an error |
| BitcoinProof.BuildSpvProof | backend/src/services/BitcoinProofService.ts:224-268 | A proof is built iff stripping, the search and every sibling succeed, with the fields of each; otherwise the first error in that order, for siblings that of the first bad one |
| WitnessEncoding.VarInt | backend/src/services/BitcoinCovenantService.ts:314-318 | Equals the CompactSize encoding for n below 2^32 and throws for the rest |
| WitnessEncoding.VarIntOfStack | backend/src/services/BitcoinCovenantService.ts:323-328 | Equals the CompactSize encoding for every 64-bit n |
| WitnessEncoding.EncodeWitnessStack | backend/src/services/BitcoinCovenantService.ts:321-332 | The buffer grown item by item is the BIP 144 encoding of the stack |
| WitnessEncoding.EncodeThenSkip | backend/src/services/BitcoinProofService.ts:188-195 | Encoding a stack between any bytes and skipping it with the stripper's loop advances the cursor by the encoded length |
| Merkle.HashToWords | backend/debug_spv_proof.js:30-37 | Big-endian words of 32 bytes, an error for any other length |
| Bytes.WordsAt | backend/debug_spv_proof.js:30-37 | Word k is made of bytes 4k to 4k+3, the first of which counts most |
| Merkle.WordsBuffer | backend/debug_spv_proof.js:40-46 | Writing the eight words gives the 32 bytes they pack |
| Merkle.HashPair | backend/debug_spv_proof.js:54-65 | The hash of the left buffer followed by the right one, as words |
| Merkle.VerifyMerkleProof | backend/debug_spv_proof.js:68-101 | True iff folding the siblings at the position reaches the root, word for word |
| Merkle.FoldIsClimb | backend/debug_spv_proof.js:54-65 | Packing into words commutes with hashing up a branch of 32-byte nodes |
| Merkle.BranchClimbsToRoot | backend/debug_spv_proof.js:68-101 | Completeness: in every tree with the duplicate-last rule, the branch of a position climbs to the root, also for positions past the leaves |
| Merkle.SlotInRange | backend/debug_spv_proof.js:68-101 | The position of a leaf reaches that leaf |
| Merkle.ClimbIsBranchOrCollision | backend/debug_spv_proof.js:68-101 | Soundness for every position: a depth-length proof that reaches the root is the branch of the leaf reached, or two different 64-byte messages collide |
| Merkle.VerifierAcceptsExactlyBranches | backend/debug_spv_proof.js:68-101 | On words: acceptance of a depth-length proof iff leaf and siblings are those of the tree, up to a collision handed over |
| Merkle.LevelBranchClimbsToRoot | backend/debug_spv_proof.js:68-101 | Completeness at every level: the branch of a node j levels up has j siblings less and climbs to the root |
| Merkle.ShortClimb | backend/debug_spv_proof.js:68-101 | A proof shorter than the depth that reaches the root starts at the join of two adjacent nodes of the tree, or a collision is handed over |
| Merkle.ExtendedBranchClimbsToRoot | backend/debug_spv_proof.js:68-101 | Whatever climbs to a leaf climbs on to the root along that leaf's branch |
| Merkle.LongClimb | backend/debug_spv_proof.js:68-101 | A proof longer than the depth that reaches the root shows that a leaf is the hash of a 64-byte join, or a collision is handed over |
| Merkle.OnlyLowBitsCount | backend/debug_spv_proof.js:80-89 | The result depends only on the position modulo 2 to the number of siblings |
| Merkle.DepthIsLog | backend/debug_spv_proof.js:76-90 | The branch of n leaves has d siblings with n <= 2^d < 2n |
| BlockHeader.MerkleRootToU32Array | backend/src/services/BitcoinHeaderRelayService.ts:28-40 | Words of the 32 decoded bytes, an error for any other length |
| BlockHeader.RootOfHeader | backend/src/services/BitcoinHeaderRelayService.ts:116-121 | Cutting hex characters 72 to 136 and packing gives the words of header bytes 36 to 68 |
| SpvEndToEnd.BuiltProofIsAccepted | backend/src/services/BitcoinProofService.ts:224-268 | For every block, transaction and serialization: a proof exists iff an output pays the vault, names the first such output, carries the legacy bytes, and folds to the root words of the header |
| SpvEndToEnd.EveryBlockCanBePublished | backend/src/services/BitcoinProofService.ts:227-239 | For every block and position there are a header, Merkle data and a raw transaction that fit it, so the theorem speaks of every block |
| SpvEndToEnd.AcceptedProofIsInBlock | backend/debug_spv_proof.js:68-101 | Any proof of any length that folds to the root of the header: at depth length it carries the legacy bytes of the transaction its position reaches, below it the 64-byte join of two tree nodes, above it a transaction of the block is such a join; or two different messages collide |
| SpvEndToEnd.ShorterProofsExist | backend/debug_spv_proof.js:68-101 | The converse for shorter proofs: in every block, for every shorter length and every position, the join of two tree nodes is accepted with a proof of that length |
| SpvEndToEnd.LongerProofsExist | backend/debug_spv_proof.js:68-101 | The converse for longer ones: if a transaction of the block is the join of a hash and any other one, bytes with that hash are accepted with one sibling more than the depth |
| SpvEndToEnd.RelayedDepositIsAccepted | backend/src/services/BitcoinHeaderRelayService.ts:208-252 | After any run of overlapping relay cycles over a chain, the proof of a deposit in any block between the first cursor and the current one folds to the words that the header store holds at the proof's own block height |
| SpvEndToEnd.FetchedRoot | backend/debug_spv_proof.js:180-182 | The script's root words exist iff the header has 68 bytes, and equal the relay's on every full header |
| SpvEndToEnd.CheckDeposit | backend/debug_spv_proof.js:139-205 | The methods run in sequence, the root cut as the script cuts it, return true iff an output pays the vault, and the no-output error otherwise |
| SpvEndToEnd.UnreversedSiblings | backend/debug_spv_proof.js:148-154 | Packing a sibling without reversing it agrees with the service iff the hash reads the same backwards |
| CoinSelection.SelectUtxos | backend/src/services/BitcoinCovenantService.ts:285-311 | It throws iff no non-empty choice of coins covers amount plus fee for its size; otherwise a choice of the least size, and of that size the most valuable |
| CoinSelection.FrontIsRichest | backend/src/services/BitcoinCovenantService.ts:290-302 | Exchange argument: no k coins are worth more than the k largest |
| Sorting.SortStable | backend/src/services/BitcoinCovenantService.ts:290-291 | The sort keeps the order of coins of equal value |
| CoinSelection.FirstFitIsOptimal | backend/src/services/BitcoinCovenantService.ts:296-310 | For any requirement on the number of inputs, first fit over the sorted coins decides feasibility and is optimal |
| CoinSelection.SelectFromWallet | backend/src/services/BitcoinBroadcastService.ts:171-188 | The same optimality for the wallet's fee ceil((68n+74)*rate), the fee returned, and the array left sorted |
| Payments.CreateCovenantWithdrawal | backend/src/services/BitcoinCovenantService.ts:114-157 | It succeeds iff some coins are worth the amount and 2000 satoshis for each of them, with the fewest and then most valuable such coins; payment first, what is left as change iff more than 546, otherwise to the miner; else the error for a missing authorization, no coins, or too little |
| Payments.WithChange | backend/src/services/BitcoinCovenantService.ts:143-157 | The outputs exactly: the payment, and iff inputs less payment and fee exceed 546 satoshis that difference back to the sender; the miner keeps the fee, or fee and difference |
| Payments.BroadcastSignetTransaction | backend/src/services/BitcoinBroadcastService.ts:59-106 | It succeeds iff some coins are worth the amount and the rate for 68n+74 virtual bytes, with the fewest and then most valuable such coins, and outputs as above with the least whole fee that pays the rate |
| Payments.SendBitcoinToAddress | backend/src/services/BitcoinBroadcastService.ts:141-225 | The withdrawal copy is specified alike for addresses starting with tb1 and refuses others, leaving the coins alone |
| Payments.WalletPaysTheRate | backend/src/services/BitcoinBroadcastService.ts:176-225 | The miner gets at least the rate for the estimated size, and less than one satoshi plus the dust bound more |
| Authorizations.WithdrawalAuthorizationService.CreateAuthorization | backend/src/services/WithdrawalAuthorizationService.ts:38-111 | On success one pending row is added with the arguments in their columns; otherwise the first failing check, written out, with the table unchanged |
| Authorizations.CreateMeans | backend/src/services/WithdrawalAuthorizationService.ts:49-107 | Creation succeeds iff no check rejects the arguments: the tb1 prefix, the 0x prefix and 34 characters, an unused nullifier and transaction, a known vault and a new id, in that order |
| Authorizations.WithdrawalAuthorizationService.SetStatus | backend/src/services/WithdrawalAuthorizationService.ts:154-188 | Only the row with the id changes: its status, time and txid if completed, and the message if there is one; a completion without a txid is the only error |
| Authorizations.WithdrawalAuthorizationService.GetPendingAuthorizations | backend/src/services/WithdrawalAuthorizationService.ts:143-149 | Exactly the pending rows, each once, by creation time |
| Authorizations.WithdrawalAuthorizationService.GetStats | backend/src/services/WithdrawalAuthorizationService.ts:236-252 | The four counts, which add up to the number of rows |
| Authorizations.CallsKeepTable | backend/src/services/WithdrawalAuthorizationService.ts:38-188 | After any calls: ids, nullifiers and Starknet hashes unique, completed rows have a txid and a time, no row vanishes or changes its payout |
| Authorizations.CreateOpensOnce | backend/src/services/WithdrawalAuthorizationService.ts:83-111 | A new authorization validates at once, and its nullifier and transaction can never be authorized again |
| Authorizations.VerifyAcceptsOpenRows | backend/src/services/WithdrawalAuthorizationService.ts:194-231 | The validation returns a row iff that row has the nullifier and is pending or processing |
| Authorizations.VerifyMeans | backend/src/services/WithdrawalAuthorizationService.ts:194-231 | What the validation answers for any nullifier: unknown, used, failed with its message, or the open row |
| Authorizations.VerifyAfterUpdate | backend/src/services/WithdrawalAuthorizationService.ts:194-231 | After a status update: used if completed, the recorded message if failed, valid with the same payout otherwise |
| WithdrawalProtocol.StepKeeps | backend/src/services/WithdrawalProcessor.ts:98-166 | Every event of a pass, every arrival and every exit of the process keeps the payout invariant in wallet and in covenant mode and reopens no completed row; assumed only: a pass starts from the pending rows |
| WithdrawalProtocol.PayoutSafety | backend/src/services/WithdrawalProcessor.ts:98-166 | Over all runs, restarts included: an authorization is paid exactly as often as the events of the run lost a payment of it (an empty txid, a throw after the broadcast, an exit before the record), plus one iff it is completed or its payment is under way, always to its address and amount; the totals agree likewise, and no row but the one in hand and the stranded ones is processing or failed |
| WithdrawalProtocol.PaidAsAsked | backend/src/services/WithdrawalAuthorizationService.ts:38-111 | Every payment of every run goes to the address and for the amount that an accepted creation of the run asked for under its id |
| WithdrawalProtocol.PaidOnlyIfFinal | backend/src/services/WithdrawalProcessor.ts:132-139 | Over any run an authorization is paid at most as often as its receipt was found final while it was in hand |
| WithdrawalProtocol.PaidAtMostOnce | backend/src/services/WithdrawalProcessor.ts:98-166 | Unless an event of the run loses a payment of it, an authorization is paid at most once, and between payments iff it is completed |
| WithdrawalProtocol.PaidOnceIffNeverLost | backend/src/services/WithdrawalProcessor.ts:139-165 | And only then: between payments, paid once if completed and not at all otherwise, iff no event lost a payment of it |
| WithdrawalProtocol.RunConsistentIffNothingLost | backend/src/services/WithdrawalProcessor.ts:139-165 | The same for all authorizations at once: in step between payments iff no event of the run lost a payment |
| WithdrawalVisits.VisitEffect | backend/src/services/WithdrawalProcessor.ts:121-166 | Every visit, for every receipt, end of the send and arrivals: it pays its row's amount to its row's address iff the receipt is final and the payment is broadcast, and loses the payment iff no txid comes back |
| WithdrawalVisits.VisitLeaves | backend/src/services/WithdrawalProcessor.ts:121-166 | A visit leaves its row completed iff it paid and a non-empty txid came back, and pending otherwise |
| WithdrawalVisits.VisitRecords | backend/src/services/WithdrawalProcessor.ts:150-156 | The completed row holds that txid and the time of recording |
| WithdrawalProtocol.StrandedForGood | backend/src/services/WithdrawalProcessor.ts:252-264 | A row that is in hand when the process ends is left for good: over any later run its status stays and it is not paid again |
| WithdrawalVisits.ExitStrandsUnpaid | backend/src/services/WithdrawalProcessor.ts:252-264 | Any authorization that can be created can be stranded unpaid: after an exit during its receipt check, every run leaves it processing and unpaid |
| WithdrawalProtocol.ValidationNeverRefuses | backend/src/services/BitcoinBroadcastService.ts:267-283 | Inside the processor the validation always accepts the row in hand |
| WithdrawalVisits.OnePassPaysEveryone | backend/src/services/WithdrawalProcessor.ts:98-166 | If receipts are final and sends succeed, one pass completes every authorization that was in the table when it began, whatever arrives at its awaits, except stranded ones |
| WithdrawalProtocol.ConsistentIffCleanOutcome | backend/src/services/WithdrawalProcessor.ts:139-165 | A visit, with authorizations arriving at every await, keeps payments and completions in step iff the send did not broadcast or returned a non-empty txid |
| WithdrawalVisits.LostResponsePaysTwice | backend/src/services/WithdrawalProcessor.ts:154-165 | Any authorization that can be created can be paid twice: a run from the empty table in which the response to the first broadcast is lost and the next pass pays again |
| WithdrawalVisits.PaidTwice | backend/src/services/WithdrawalProcessor.ts:154-165 | For instance 1000 satoshis, paid twice |
| WithdrawalProcessor.WithdrawalProcessor.SendBitcoinWithAuthorization | backend/src/services/BitcoinBroadcastService.ts:263-310 | Look-up, validation, marking, payment and record are a run of the protocol, ending recorded or failing; a clean outcome loses no payment |
| WithdrawalProcessor.WithdrawalProcessor.RecordSend | backend/src/services/BitcoinBroadcastService.ts:288-309 | A returned txid is recorded as completed; an error, or an empty txid, marks the row failed with its message |
| WithdrawalProcessor.WithdrawalProcessor.ExecuteCovenantWithdrawal | backend/src/services/BitcoinCovenantService.ts:222-225 | The covenant payout is a run of the protocol that keeps no status of its own; a clean outcome loses no payment |
| WithdrawalProcessor.WithdrawalProcessor.ProcessAuthorization | backend/src/services/WithdrawalProcessor.ts:121-166 | One visit is a run of the protocol. Unless the receipt is final nothing is paid and the row is pending again; if it is, the row's amount goes to its address once iff the send broadcasts, and the row is completed with that txid and time iff a non-empty one comes back, else pending |
| WithdrawalProcessor.WithdrawalProcessor.ProcessAuthorizations | backend/src/services/WithdrawalProcessor.ts:98-116 | One pass is a run of the protocol over the rows pending when it began: the ledger grows by exactly what their visits pay, in order, and a row is completed iff its visit paid for good |
| WithdrawalProcessor.WithdrawalProcessor.AwaitBetweenPasses | backend/src/services/WithdrawalProcessor.ts:86-93 | The authorizations that arrive while a poll waits are created, which keeps the invariant and every completion |
| WithdrawalProcessor.WithdrawalProcessor.Poll | backend/src/services/WithdrawalProcessor.ts:86-93 | Passes and the arrivals of the waits between them, in turn, are a run of the protocol; a poll that waits makes its pass even if it is stopped meanwhile, and no other follows; the ledger grows by what the passes pay |
| WithdrawalProcessor.WithdrawalProcessor.Start | backend/src/services/WithdrawalProcessor.ts:46-93 | Over any table that earlier runs left: the passes made are those up to the first stop, the ledger grows by exactly what their visits pay (nothing if no receipt is final), every row whose visit pays for good ends completed (all open rows if all do), every other payment is a lost one, and every row is pending or completed unless an exit stranded it |
| HeaderRelay.HeaderRelay.SetLastRelayedHeight | backend/src/services/BitcoinHeaderRelayService.ts:135-140 | The height written as decimal text is the height read back; other keys stay |
| HeaderRelay.HeaderRelay.GetLastRelayedHeight | backend/src/services/BitcoinHeaderRelayService.ts:124-133 | The number at the front of the text stored under header_relay_last_height, not a number without one, and -1 if nothing is stored |
| HeaderRelay.HeaderRelay.RelayHeader | backend/src/services/BitcoinHeaderRelayService.ts:142-189 | A header is stored iff it can be fetched, has 160 characters, characters 72 to 136 decode to 32 bytes, and the header store accepts it; then under its height with the words of those bytes |
| HeaderRelay.HeaderRelay.RelayCycle | backend/src/services/BitcoinHeaderRelayService.ts:208-252 | From above the cursor, or the tip without one, at most ten consecutive heights are stored, each relayable, up to the tip or the first height that is not; the cursor is the last height stored; nothing without a tip or from a cursor text that is not a number |
| HeaderRelay.HeaderRelay.CatchUp | backend/src/services/BitcoinHeaderRelayService.ts:208-252 | Failure-free cycles store the missing headers in order without repeats and reach the tip T from c after ceil((T-c)/10) cycles |
| HeaderRelay.HeaderRelay.FullCycle | backend/src/services/BitcoinHeaderRelayService.ts:221-232 | A failure-free cycle advances the cursor by exactly min(10, T-c) |
| HeaderRelay.PostedUpToFirstFailure | backend/src/services/BitcoinHeaderRelayService.ts:225-246 | What a cycle stores are consecutive heights with the words of their fetched and accepted headers; the next height is past the end, or its header is missing, malformed or refused |
| HeaderRelay.NeverSkipsABlock | backend/src/services/BitcoinHeaderRelayService.ts:208-252 | Under any interleaving of overlapping cycles and failures, every height from an origin up to the cursor stays stored, also when the cursor moves back |
| HeaderRelay.KeepsStoringRoots | backend/src/services/BitcoinHeaderRelayService.ts:225-246 | Under any interleaving over one chain, the header store holds for every height it knows the root words cut from that height's header |
| HeaderRelay.RelayIsGapFree | backend/src/services/BitcoinHeaderRelayService.ts:270-279 | From cursor c0, over any run: the cursor is a number not below c0, every height above c0 up to it is in the header store, and over one chain with its root words |
| HeaderRelay.UnsetRelayIsGapFree | backend/src/services/BitcoinHeaderRelayService.ts:208-216 | Without a cursor, over any run: the heights from the start of some cycle that found none up to the cursor are in the header store |
| HeaderRelay.FirstTipCanBePassedOver | backend/src/services/BitcoinHeaderRelayService.ts:208-216 | That start need not be the first tip, even without overlap: a cycle that fails at tip t leaves no cursor, and the next one starts at t+1 |
| HeaderRelay.SoloCycle | backend/src/services/BitcoinHeaderRelayService.ts:225-246 | An undisturbed cycle is a run of the overlapping protocol that stores the headers and leaves the cursor of the sequential cycle |
| HeaderRelay.WholeCycle | backend/src/services/BitcoinHeaderRelayService.ts:208-252 | The same from its beginning: from above the cursor, or the tip without one, at most ten heights |
| StarknetProof.SerializeProofData | backend/src/services/StarknetProofService.ts:114-150 | The buffer after the five writes, as a single chunk, or the first integer that cannot be written |
| StarknetProof.SerializedLayout | backend/src/services/StarknetProofService.ts:114-150 | For every proof that serializes, byte by byte: what the last of the five writes reaching it put there, spills of over-long hashes included, or zero |
| StarknetProof.FieldsRead | backend/src/services/StarknetProofService.ts:114-150 | Whatever the hashes, both integers and the first 32 bytes of the transaction hash are read back from their offsets; the other fields wherever no hash is long enough to spill into them |
| StarknetProof.RoundTripIffGoodHashes | backend/src/services/StarknetProofService.ts:114-150 | The fields of a proof come back from its buffer iff both hashes denote 32 bytes |
| StarknetProof.LayoutOfFields | backend/src/services/StarknetProofService.ts:114-150 | Every 112-byte buffer is the concatenation of the fields read from it |
| StarknetProof.CodecInjective | backend/src/services/StarknetProofService.ts:114-150 | For 32-byte hashes equal buffers mean equal fields and the reverse; for any hashes equal buffers mean equal integers and equal first 32 bytes of the transaction hash |
| StarknetProof.LongHashesClash | backend/src/services/StarknetProofService.ts:118-129 | Beyond that it is not injective: up to sixteen more digits of a transaction hash disappear under the amount |
| StarknetProof.FeltsAreGood | backend/src/services/StarknetProofService.ts:118-120 | Any hash of 0x and at most 64 hex digits fills its field |
| StarknetProof.LeadingZeros | backend/src/services/StarknetProofService.ts:118-120 | Leading zeros after 0x do not change the field |
| StarknetProof.FeltNumber | backend/src/services/StarknetProofService.ts:118-120 | The 32 bytes of 0x and at most 64 hex digits denote, the first counting most, the number of those digits |
| StarknetProof.Without0xMeans | backend/src/services/StarknetProofService.ts:118-120 | Only the first 0x of a hash is removed, wherever it stands |
| StarknetProof.ScriptHashMeans | backend/src/services/StarknetProofService.ts:155-176 | The recipient field is what follows the fourth character of the address, read as hex, as far as twenty bytes |
| StarknetProof.IntegersMean | backend/src/services/StarknetProofService.ts:122-142 | Bigints or their decimal text serialize iff both are below 2^64 and not negative |
| StarknetProof.SplitIntoChunks | backend/src/services/StarknetProofService.ts:181-190 | For any positive size the chunks concatenate to the buffer, none is empty or too long, and all but the last are full |
| StarknetProof.CachedSerializesAlike | backend/src/services/StarknetProofService.ts:279-329 | A proof whose integers went through decimal text serializes to the same bytes, or fails alike |
| StarknetProof.CachedMeans | backend/src/services/StarknetProofService.ts:318-326 | Through the cache only the two integers change, into their decimal text |
| StarknetProof.ProofCache.GetProofForAuthorization | backend/src/services/StarknetProofService.ts:279-329 | The cached proof if there is one, otherwise the generated one, stored unless writing fails; an error without an authorization |
| StarknetProof.ProofCache.AskTwice | backend/src/services/StarknetProofService.ts:279-329 | The second answer, from the table, serializes like the first |
| Decimal.PrintParse | backend/src/services/StarknetProofService.ts:324 | Printing an integer and reading it with parseInt or BigInt gives the integer |
| Decimal.DigitsMean | backend/src/services/BitcoinHeaderRelayService.ts:135-140 | Decimal text has the remainder by ten last, after the digits of the quotient |
| Decimal.ParseMeans | backend/src/services/BitcoinHeaderRelayService.ts:124-133 | parseInt reads the digits at the front with their sign and ignores the rest; BigInt refuses a rest |
| Locks.LockManager.Begin | backend/src/middleware/lockManager.ts:16-32 | Refused iff the key is held; otherwise the lock, the timer and its record are set |
| Locks.LockManager.ReleaseLock | backend/src/middleware/lockManager.ts:51-58 | The lock goes, and the recorded timer is cleared with its record |
| Locks.LockManager.TimerFires | backend/src/middleware/lockManager.ts:25-30 | The timer is spent and the key released if it is held |
| Locks.AlwaysCoherent | backend/src/middleware/lockManager.ts:16-58 | In every reachable state locks and timeouts have the same keys and the live timers are exactly the recorded ones |
| Locks.AcquireRelease | backend/src/middleware/lockManager.ts:16-39 | An uninterrupted operation leaves no lock and no timer behind |
| Locks.TimelyRunsExclude | backend/src/middleware/lockManager.ts:16-58 | If operations end before their timers fire, no two running operations hold the same key |
| Locks.TimelyRunsFromStartExclude | backend/src/middleware/lockManager.ts:16-58 | The same from the empty lock manager, for every such run |
| Locks.EndFreesItsOwn | backend/src/middleware/lockManager.ts:34-38 | Then a release frees its own acquisition and its own timer, and all others stay locked |
| Locks.ExclusionIffTimely | backend/src/middleware/lockManager.ts:25-30 | Exclusion survives the next acquisition iff the fired timer was not that of a running operation |
| Htlc.HTLCService.CreateHtlc | backend/src/services/HTLCService.ts:41-64 | The pending lock with the hash of the preimage, which is not stored |
| Htlc.HTLCService.ClaimHtlc | backend/src/services/HTLCService.ts:70-93 | A claim succeeds iff its key is free, the lock is pending, the preimage is decimal or 0x and hex digits, and its hash is the hashlock up to case; then the lock is claimed. Otherwise the first failing check, the table unchanged; the locks as before |
| Htlc.HTLCService.RefundHtlc | backend/src/services/HTLCService.ts:99-117 | A refund succeeds iff its key is free, the lock is pending, the caller is its sender up to case and the timelock has come; then the lock is refunded. Otherwise the first failing check, the table unchanged; the locks as before |
| Htlc.ClaimMeans | backend/src/services/HTLCService.ts:74-92 | The same condition of the claim on the table, without the operation's own tests |
| Htlc.RefundMeans | backend/src/services/HTLCService.ts:103-116 | The same condition of the refund |
| Htlc.SettledForGood | backend/src/services/HTLCService.ts:70-117 | A claimed or refunded lock never changes again under any calls |
| Htlc.HowItSettled | backend/src/services/HTLCService.ts:70-117 | A lock that left pending was settled by one call while pending: a claim with a matching preimage, or a refund by its sender at or after the timelock |
| Htlc.EveryLockHasItsHistory | backend/src/services/HTLCService.ts:41-117 | From the empty table, every lock was created by one call with its terms and the hash of that call's preimage, and unless it is pending, a later call found it pending and settled it |
| Htlc.CreatorsPreimageClaims | backend/src/services/HTLCService.ts:41-93 | After any calls, a lock that is still pending can be claimed with the preimage of the call that created it |

## Left out

- StripWitnessData: the trimming of fetched text happens before the model; rawTxHex is the trimmed string.
- ScriptHash: the address placeholder is modelled as written, so most bech32 addresses give an empty hash; the recipient field is stated in terms of that hash, not of the address.
- ParseBigInt: hexadecimal text, white space and the empty string, which BigInt also accepts, are errors in the model; the cache never writes them.
- SelectFromWallet: the float rounding of fee rates and of their product is not modelled; rates are reals and satoshi amounts exact.
- Begin: the thirty seconds are not measured; a timer may fire at any moment, and withLock is modelled as its two halves around the operation.
- ClaimHtlc: computePoseidonHash is total; a preimage it would reject by throwing is not told apart from a wrong one.
- RelayIsGapFree: "stored" means that the header store's transaction was submitted; the root words are those of one chain, so a reorganisation between two fetches of a height is not covered, and only the heights are then known to be stored.
- PayoutSafety: passes of one processor that do not overlap. The immediate payout of the withdrawal route and the force-withdrawal paths are not modelled. An exit falls between two of the modelled stretches, not inside one.
- Start: the confirmation settings and the covenant status report only affect logging; the receipt check is one boolean input, its timeout included. A second start after a stop, while a poll still waits, is not modelled.
- ParseInt: leading white space and a plus sign, which parseInt also accepts, are not a number in the model; the cursor is never written with them.
- CreateAuthorization: the anonymity-set and deposit-sender checks only log; the uuid and the clock are parameters.
- MerkleRootToU32Array: the bigints it returns are integers here; the words are compared by value, as the contract stores them.
- HTTP requests, retries and back-off, database errors other than constraint violations, and log output.
- Signatures, PSBT building, taproot derivation, address decoding, and burn-event extraction.
- The other queries of the authorization and HTLC services, the Express routes, the Cairo contracts, the scripts and the frontend.
