/**
  What makes one transaction valid against a pool, and what accepting it
  does to the pool.
 */
module Validity {
  import opened LedgerTypes

  /** Rule 1: every output the transaction claims is in the pool. */
  predicate AllClaimsInPool(pool: Pool, tx: Transaction)
  {
    forall i :: 0 <= i < |tx.inputs| ==> Claimed(tx.inputs[i]) in pool
  }

  /**
    Rule 2: the signature on input `i` verifies against the owner of the
    output it claims, over the message to sign for position `i`.
   */
  predicate SignaturesVerify(c: Crypto, pool: Pool, tx: Transaction)
  {
    forall i :: 0 <= i < |tx.inputs| && Claimed(tx.inputs[i]) in pool ==>
      c.verifySignature(pool[Claimed(tx.inputs[i])].address, c.rawDataToSign(tx, i), tx.inputs[i].signature)
  }

  /** Rule 3: no output is claimed by two inputs of the transaction. */
  predicate NoDoubleClaim(tx: Transaction)
  {
    forall i, j :: 0 <= i < j < |tx.inputs| ==> Claimed(tx.inputs[i]) != Claimed(tx.inputs[j])
  }

  /** Rule 4: no output value is negative. */
  predicate OutputsNonNegative(tx: Transaction)
  {
    forall i :: 0 <= i < |tx.outputs| ==> tx.outputs[i].value >= 0
  }

  /** Value of the pool output an input claims (nothing when it is not in the pool). */
  function ClaimedValue(pool: Pool, input: Input): int
  {
    if Claimed(input) in pool then pool[Claimed(input)].value else 0
  }

  /** Sum of the values the inputs claim, added up in input order. */
  function InputSum(pool: Pool, inputs: seq<Input>): int
  {
    if |inputs| == 0 then 0
    else InputSum(pool, inputs[..|inputs| - 1]) + ClaimedValue(pool, inputs[|inputs| - 1])
  }

  /** Sum of the output values, added up in output order. */
  function OutputSum(outputs: seq<Output>): int
  {
    if |outputs| == 0 then 0
    else OutputSum(outputs[..|outputs| - 1]) + outputs[|outputs| - 1].value
  }

  /** Extending the inputs by one adds the value that input claims. */
  lemma InputSumStep(pool: Pool, inputs: seq<Input>, i: nat)
    requires i < |inputs|
    ensures InputSum(pool, inputs[..i + 1]) == InputSum(pool, inputs[..i]) + ClaimedValue(pool, inputs[i])
  {
    assert inputs[..i + 1][..i] == inputs[..i];
  }

  /** Extending the outputs by one adds that output's value. */
  lemma OutputSumStep(outputs: seq<Output>, k: nat)
    requires k < |outputs|
    ensures OutputSum(outputs[..k + 1]) == OutputSum(outputs[..k]) + outputs[k].value
  {
    assert outputs[..k + 1][..k] == outputs[..k];
  }

  /** Rule 5: the claimed value covers the created value; the difference is the fee. */
  predicate Conserves(pool: Pool, tx: Transaction)
  {
    InputSum(pool, tx.inputs) >= OutputSum(tx.outputs)
  }

  /** A transaction is valid against a pool exactly when all five rules hold. */
  predicate ValidTx(c: Crypto, pool: Pool, tx: Transaction)
  {
    && AllClaimsInPool(pool, tx)
    && SignaturesVerify(c, pool, tx)
    && NoDoubleClaim(tx)
    && OutputsNonNegative(tx)
    && Conserves(pool, tx)
  }

  /** The pool keys claimed by a sequence of inputs. */
  function ClaimedBy(inputs: seq<Input>): set<UTXO>
  {
    set input | input in inputs :: Claimed(input)
  }

  /** True when `u` is the key under which `tx` files one of its outputs. */
  predicate IsCreated(tx: Transaction, u: UTXO)
  {
    u.prevTxHash == tx.hash && 0 <= u.outputIndex < |tx.outputs|
  }

  /** The entries `tx` adds: output `i` under `(tx.hash, i)`. */
  function Created(tx: Transaction): map<UTXO, Output>
  {
    map i | 0 <= i < |tx.outputs| :: UTXO(tx.hash, i) := tx.outputs[i]
  }

  /** The keys `tx` adds are exactly the keys it creates. */
  lemma CreatedKeys(tx: Transaction)
    ensures forall u :: u in Created(tx) <==> IsCreated(tx, u)
  {
    forall u | IsCreated(tx, u) ensures u in Created(tx) {
      assert u == UTXO(tx.hash, u.outputIndex);
    }
  }

  /**
    The pool after accepting `tx`: every claimed key is removed, then every
    output is filed under `(tx.hash, i)`, overwriting any entry there.
    Every other entry is left as it was.
   */
  function ApplyTx(pool: Pool, tx: Transaction): (r: Pool)
    ensures forall i :: 0 <= i < |tx.outputs| ==>
      UTXO(tx.hash, i) in r && r[UTXO(tx.hash, i)] == tx.outputs[i]
    ensures forall u :: u in r <==> (u in pool && u !in ClaimedBy(tx.inputs)) || IsCreated(tx, u)
    ensures forall u :: u in r && !IsCreated(tx, u) ==> r[u] == pool[u]
  {
    CreatedKeys(tx);
    (pool - ClaimedBy(tx.inputs)) + Created(tx)
  }
}
