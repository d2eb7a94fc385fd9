# UTXO transaction handler

A Dafny model of the transaction handler of a simple UTXO ledger. The
handler owns a pool of unspent transaction outputs, a map from
`(prevTxHash, outputIndex)` to an output `(value, address)`.

- `isValidTx` decides whether one transaction is valid against that pool.
  A transaction is valid when all five rules hold:
  - every output it claims is in the pool;
  - every input signature verifies against the owner of the output it claims;
  - no output is claimed twice within the transaction;
  - no output value is negative;
  - the claimed value covers the created value.
- `handleTxs` processes one epoch's batch of candidate transactions. It makes
  repeated passes over the candidates, in their given order. Each valid
  candidate is accepted at once, in place:
  - its claimed outputs leave the pool;
  - its outputs enter the pool under `(hash, i)`.

  The epoch ends after a pass that accepts nothing.

The project has these modules:

- `LedgerTypes` (`ledger_types.dfy`): the entities as datatypes.
  - Hashes, addresses and signatures are byte sequences.
  - The pool is a `map`.
  - Signature checking and the message to sign are foreign. They are a
    `Crypto` value of two total functions, supplied when the handler is
    created.
- `Validity` (`validity.dfy`): the five rules as predicates, and
  `ApplyTx`, the pool after accepting one transaction.
- `Chain` (`chain.dfy`): sequences of accepted transactions, each applied
  to the pool the earlier ones left. It covers:
  - the pool they lead to (`Replay`);
  - validity of each at its turn (`ValidChain`);
  - no double spend;
  - conservation of value.
- `Epochs` (`epochs.dfy`): what one `handleTxs` call computes, as
  functions (`Visit`, `Pass`, `RunToFixpoint`, `Epoch`), and what an epoch
  guarantees.
- `Handler` (`tx_handler.dfy`): the class `TxHandler`, whose `pool` field
  its methods update in place.
  - `IsValidTx` is two loops with early returns, proved equal to the five
    rules.
  - `HandleTxs` is the outer loop and the passes, proved equal to `Epoch`.
  - The helper lemmas carry the input loop's invariant.
- `Scenarios` (`scenarios.dfy`): epochs in particular situations and on a
  small concrete ledger:
  - a conflict between two candidates;
  - a spend of an output created in the same batch, in either order;
  - a payment with a good, a bad or a repeated signature.
- `Findings` (`findings.dfy`): the written batch loop, next to the
  corrected one (see "## Findings").

## Model

| member | source | states |
|---|---|---|
| Handler.TxHandler.constructor | src/TxHandler.java:4-12 | The handler's pool is the caller's pool and the crypto is the one supplied. Pools are values, so the caller's later changes cannot reach it. |
| Handler.TxHandler.IsValidTx | src/TxHandler.java:14-57 | The answer is true exactly when all five rules hold against the current pool. That includes false for a missing claimed output, a failing signature, a repeated claim, a negative output, and claimed value below created value. The pool is not modified. |
| Handler.TxHandler.CheckInputs | src/TxHandler.java:26-49 | The input loop succeeds exactly when rules 1-3 hold. On success its sum is the value the inputs claim. |
| Handler.TxHandler.CheckOutputs | src/TxHandler.java:51-55 | The output loop succeeds exactly when no output value is negative. On success its sum is the value the outputs create. |
| Handler.InputsCheckedStep | src/TxHandler.java:36-49 | One input that claims an unclaimed pool output with a verifying signature extends what the loop knows. That covers membership, signatures, distinct claims, the `claims` map and the running sum. |
| Handler.InputsCheckedReject | src/TxHandler.java:42-46 | An input that is missing from the pool, fails its signature, or repeats an earlier claim makes the transaction break rule 1, 2 or 3. |
| Handler.InputsCheckedAll | src/TxHandler.java:36-49 | After the last input, rules 1-3 hold and the sum is the value the inputs claim. |
| Handler.TxHandler.ApplyAccepted | src/TxHandler.java:76-84 | After accepting `tx`, the pool is `ApplyTx` of the old pool. |
| Handler.TxHandler.RemoveClaimed | src/TxHandler.java:77-79 | The pool loses exactly the keys the inputs claim. |
| Handler.TxHandler.AddCreated | src/TxHandler.java:82-84 | Output `i` is filed under `(tx.hash, i)`, overwriting any entry there. Nothing else changes. |
| Handler.TxHandler.HandleTxs | src/TxHandler.java:62-93 | Returns the accepted transactions in acceptance order and leaves the pool where the epoch leads. Every returned transaction is a candidate. Each was valid against the pool as it stood when accepted. The final pool is the replay of the returned list. Every candidate left out is invalid against the final pool. The loop terminates. |
| Validity.ApplyTx | src/TxHandler.java:76-84 | Exact pool delta of an acceptance. Claimed keys go. Output `i` is present under `(tx.hash, i)` with that output. Every other key stays with its old value. |
| Chain.ValidChainAt | src/TxHandler.java:70-88 | In an accepted sequence, transaction `i` is valid against the pool the first `i` lead to. |
| Chain.ValidChainAll | src/TxHandler.java:70-88 | Conversely, a sequence whose every transaction is valid at its turn is a valid accepted sequence. |
| Chain.ChainExtend | src/TxHandler.java:73-86 | Accepting one more transaction that is valid against the current pool extends the accepted sequence. The resulting pool is `ApplyTx` of the current one. |
| Chain.ChainConcat | src/TxHandler.java:62-93 | Two epochs run one after the other form one valid sequence and reach the same pool. |
| Chain.ReplayOrigin | src/TxHandler.java:76-84 | Every key in the pool after a prefix was in the starting pool or was created by a transaction of the prefix. |
| Chain.SpentStaysSpent | src/TxHandler.java:76-84 | With fresh hashes, a key claimed by transaction `i` is absent from every later pool. |
| Chain.NoDoubleSpend | src/TxHandler.java:62-88 | With fresh hashes, no two transactions of a valid sequence claim the same output. |
| Chain.ChainConserves | src/TxHandler.java:47-56 | The value a valid sequence creates never exceeds the value it claims. |
| Epochs.Visit | src/TxHandler.java:73-87 | One step of a pass accepts at most one transaction, marks only its own position, and otherwise changes nothing. |
| Epochs.PassFacts | src/TxHandler.java:72-88 | A pass only ever adds. It keeps every marked position, marks only positions it visits, and never shortens the accepted list. It leaves the state unchanged exactly when it accepts nothing, and otherwise marks a new position. |
| Epochs.RunStops | src/TxHandler.java:90 | The epoch stops at a state that a whole pass leaves unchanged. |
| Epochs.RunContinues | src/TxHandler.java:70-91 | After a pass that accepted something, the epoch goes on from the state that pass reached. |
| Epochs.PassCounted | src/TxHandler.java:72-88 | A pass marks exactly one new position per transaction it accepts. |
| Epochs.PassRecorded | src/TxHandler.java:72-88 | A pass keeps every marked position in range, with its candidate among the accepted ones. |
| Epochs.PassDrawn | src/TxHandler.java:72-88 | A pass accepts only candidates. |
| Epochs.VisitChain | src/TxHandler.java:73-86 | A step keeps the accepted list a valid sequence whose replay is the current pool. |
| Epochs.PassChain | src/TxHandler.java:72-88 | A pass keeps the accepted list a valid sequence whose replay is the current pool. |
| Epochs.QuietPass | src/TxHandler.java:72-90 | A pass that accepts nothing found every candidate it visited, and had not yet accepted, invalid. |
| Epochs.RunToFixpointSound | src/TxHandler.java:70-91 | Repeated passes keep the bookkeeping, keep the accepted list a valid sequence replaying to the pool, and end at a fixed point where every candidate left out is invalid. |
| Epochs.EpochSound | src/TxHandler.java:62-93 | The guarantees of an epoch, from a given pool. The accepted positions are in range, one per accepted transaction. The accepted transactions are candidates and form a valid sequence that replays to the final pool. Every candidate left out is invalid there. |
| Scenarios.SingleCandidate | src/TxHandler.java:70-91 | One candidate is accepted exactly when it is valid, and is then applied to the pool. |
| Scenarios.FirstClaimWins | src/TxHandler.java:72-88 | Of two candidates claiming the same output, the valid first one is accepted and the second is rejected, provided the first does not file one of its own outputs under that same key. |
| Scenarios.SpenderWaits | src/TxHandler.java:40-42 | A transaction spending an output that only another candidate creates is invalid before that candidate is accepted. |
| Scenarios.ChainedSpendInOrder | src/TxHandler.java:72-88 | Creator listed first: both are accepted in one pass, in order. |
| Scenarios.ChainedSpendReversed | src/TxHandler.java:70-91 | Spender listed first: it is rejected in the first pass and accepted in the second. The result is the same list and pool. |
| Scenarios.PaymentAccepted | src/TxHandler.java:24-93 | Alice pays 60 to Bob with 40 change, signature valid. The payment is valid, is accepted, and replaces her output with the two new ones. |
| Scenarios.BadSignatureRejected | src/TxHandler.java:43-45 | With a signature that does not verify, the payment is invalid and the epoch changes nothing. |
| Scenarios.DoubleClaimRejected | src/TxHandler.java:46 | Claiming the same output twice in one transaction is invalid whatever the signatures. |
| Scenarios.ValidationIsRepeatable | src/TxHandler.java:24-57 | Checking a transaction twice on the same handler gives the same answer. |
| Scenarios.GenesisEpoch | src/TxHandler.java:10-12 | Through the class: the caller's pool is copied in and untouched, the payment is accepted, and the handler's pool is updated. |
| Findings.StoreAt | src/TxHandler.java:74 | A store into a fixed-size array succeeds exactly in bounds, replacing one element and keeping the length and the others. |
| Findings.StoreAtLengthFails | src/TxHandler.java:74 | A store at index `length` always fails. |
| Findings.VisitWritten | src/TxHandler.java:73-87 | The written step. A valid candidate is stored at index `validTxs.length` before the pool is touched, so a failing store throws with the pool as it was. Otherwise the array keeps its length. A thrown state stays thrown. |
| Findings.ThrownStays | src/TxHandler.java:72-88 | Once the store has thrown, the rest of the pass does not run. |
| Findings.PassWrittenFrom | src/TxHandler.java:69-88 | From the empty array, the written pass from position `k` throws, with the pool unchanged, exactly when a candidate from `k` on is valid. Otherwise it ends with the array empty, the pool unchanged and `added` 0. |
| Findings.WrittenOutcome | src/TxHandler.java:67-93 | For every pool and batch, the written `handleTxs` throws, leaving the pool unchanged, exactly when some candidate is valid against the starting pool. Otherwise it returns the empty array after one pass, because `added` is 0 at line 90, and the pool is unchanged. |
| Findings.FirstAcceptanceThrows | src/TxHandler.java:69-74 | With Alice's signed payment, the written `handleTxs` throws and the pool keeps her output, while the corrected epoch accepts the payment. |
| Findings.VisitAppending | src/TxHandler.java:72-87 | The written step with the store at line 74 replaced by an append, and nothing else changed: it adds at most one transaction, without checking whether it was accepted before. |
| Findings.PassAppending | src/TxHandler.java:72-88 | The written pass with the store at line 74 replaced by an append never shortens the accepted list. |
| Findings.EmptyTxInert | src/TxHandler.java:24-57 | A transaction with no inputs and no outputs is valid against every pool, and accepting it changes nothing. |
| Findings.EmptyTxNeverSettles | src/TxHandler.java:70-91 | With the store at line 74 replaced by an append, a pass over such a transaction accepts it again from any state and leaves the pool unchanged. So `added` is never 0 after a pass and the loop never ends. The defect is latent in the source as written. |
| Findings.EmptyTxAcceptedOnce | src/TxHandler.java:62-65 | With accepted positions skipped, the same batch accepts it once and stops. |

## Left out

- Values and sums are mathematical integers; Java's `double` arithmetic and its rounding are not modelled.
- `UTXOPool`, `Transaction` and the signature classes are not part of this model. The pool is a `map`, transactions are datatypes, and the UTXO key is a datatype compared by value.
- Signature checking and `getRawDataToSign` are foreign: they are the two functions of a `Crypto` value supplied when the handler is created, about which nothing is assumed.
- Hashing is foreign: a transaction's hash is a field of the datatype, not computed from its contents.
- `System.out.println` of each accepted transaction is output only and is left out.
- `inputs.indexOf(input)` is modelled as the loop position. The two differ only when two inputs are equal, and such a transaction is rejected in both readings: the second input repeats the first one's claim.
- The accepted transactions are collected in a sequence, not a fixed-size array. The written store fails on the first acceptance (see "## Findings").
- Later passes skip positions already accepted. The written loop re-tests them. As written, this cannot show, because the first acceptance throws and every completed pass adds nothing. Once the store is repaired into an append, it makes the loop run forever (see "## Findings").
- Findings.VisitAppending: models the written step with the store at line 74 replaced by an append, not the step exactly as written; the exact written step is `Findings.VisitWritten`.
- Findings.PassAppending: models the written pass with the store at line 74 replaced by an append, not the pass exactly as written; the exact written pass is `Findings.PassWritten`, summed up by `Findings.WrittenOutcome`.
- Findings.EmptyTxNeverSettles: shows the non-termination only for the loop with the store repaired into an append; as written, the first pass throws on the empty transaction (`Findings.WrittenOutcome`).
- Scenarios.FirstClaimWins: requires that the winner does not file an output under the contested key, that is, that its hash is not the key's transaction hash; this follows from `FreshHashes(pool, [x])`, and without it the winner re-creates the key and the second claimant is accepted too.
- Chain.NoDoubleSpend: holds only under `FreshHashes` (accepted hashes are pairwise distinct and none names an output already in the starting pool), standing for the collision resistance of the hash; without it a later transaction can re-create a key that was spent.
- Chain.SpentStaysSpent: holds only under the same `FreshHashes` hypothesis, for the same reason.

## Findings

| source | as written | input that shows it | evidently intended | confidence | as-written member | corrected member |
|---|---|---|---|---|---|---|
| src/TxHandler.java:69-74 | `validTxs` is a zero-length array and each accepted transaction is stored at index `validTxs.length`, before the pool is updated; so `handleTxs` throws, pool unchanged, exactly when some candidate is valid against the starting pool, and otherwise returns an empty array | any batch with a valid candidate, e.g. Alice's signed payment from the genesis pool | append the transaction to a growing list of accepted transactions | high, not executed | Findings.WrittenOutcome | Handler.TxHandler.HandleTxs |
| src/TxHandler.java:70-91 | every pass re-tests every candidate, including those already accepted; latent as written, since the first acceptance throws at line 74, and shows once that store becomes an append | a batch holding a transaction with no inputs and no outputs: it is valid against every pool and changes nothing, so with the append every pass accepts it again | accept each candidate at most once, so the loop ends after a pass that accepts nothing | medium, not executed | Findings.EmptyTxNeverSettles | Findings.EmptyTxAcceptedOnce |
