/**
  The transaction handler: it owns the unspent-output pool, checks single
  transactions against it and processes one epoch's batch of candidates,
  updating the pool in place.
 */
module Handler {
  import opened LedgerTypes
  import opened Validity
  import opened Chain
  import opened Epochs

  class TxHandler {
    /** Signature checking and the message to sign, supplied from outside. */
    const crypto: Crypto
    /** The current unspent-output pool; only `HandleTxs` changes it. */
    var pool: Pool

    /**
      Starts a ledger whose pool is the given one. The pool is a value, so
      the handler holds its own copy: nothing the caller does later can
      change it.
     */
    constructor (utxoPool: Pool, crypto: Crypto)
      ensures this.pool == utxoPool
      ensures this.crypto == crypto
    {
      this.crypto := crypto;
      this.pool := utxoPool;
    }

    /**
      Checks one transaction against the current pool, inputs first and
      then outputs, stopping at the first broken rule. The answer is
      exactly the five rules together, and the pool is left alone.
     */
    method IsValidTx(tx: Transaction) returns (ok: bool)
      ensures ok == ValidTx(crypto, pool, tx)
    {
      var inputsOk, inputSum := CheckInputs(tx);
      if !inputsOk {
        return false;
      }
      var outputsOk, outputSum := CheckOutputs(tx);
      if !outputsOk {
        return false;
      }
      return inputSum >= outputSum;
    }

    /**
      The loop over the inputs of `isValidTx`: every claimed output must be
      in the pool, carry a verifying signature and not be claimed earlier
      in the same transaction. When all are, `inputSum` is the claimed value.
     */
    method CheckInputs(tx: Transaction) returns (ok: bool, inputSum: int)
      ensures ok == (AllClaimsInPool(pool, tx) && SignaturesVerify(crypto, pool, tx) && NoDoubleClaim(tx))
      ensures ok ==> inputSum == InputSum(pool, tx.inputs)
    {
      // claims[u] records whether an earlier input of tx has already claimed u
      var claims := map u | u in pool :: false;
      inputSum := 0;
      InputsCheckedStart(crypto, pool, tx);

      var i := 0;
      while i < |tx.inputs|
        invariant InputsChecked(crypto, pool, tx, i, claims, inputSum)
        decreases |tx.inputs| - i
      {
        var input := tx.inputs[i];
        var utxo := UTXO(input.prevTxHash, input.outputIndex);
        if utxo !in pool {
          InputsCheckedReject(crypto, pool, tx, i, claims, inputSum);
          return false, inputSum;
        }
        var unspentOutput := pool[utxo];
        var verified := crypto.verifySignature(unspentOutput.address, crypto.rawDataToSign(tx, i), input.signature);
        if !verified {
          InputsCheckedReject(crypto, pool, tx, i, claims, inputSum);
          return false, inputSum;
        }
        if claims[utxo] {
          InputsCheckedReject(crypto, pool, tx, i, claims, inputSum);
          return false, inputSum;
        }
        InputsCheckedStep(crypto, pool, tx, i, claims, inputSum);
        inputSum := inputSum + unspentOutput.value;
        claims := claims[utxo := true];
        i := i + 1;
      }
      InputsCheckedAll(crypto, pool, tx, claims, inputSum);
      ok := true;
    }

    /**
      The loop over the outputs of `isValidTx`: no value may be negative.
      When none is, `outputSum` is the created value.
     */
    method CheckOutputs(tx: Transaction) returns (ok: bool, outputSum: int)
      ensures ok == OutputsNonNegative(tx)
      ensures ok ==> outputSum == OutputSum(tx.outputs)
    {
      outputSum := 0;
      var k := 0;
      while k < |tx.outputs|
        invariant 0 <= k <= |tx.outputs|
        invariant forall j :: 0 <= j < k ==> tx.outputs[j].value >= 0
        invariant outputSum == OutputSum(tx.outputs[..k])
      {
        var value := tx.outputs[k].value;
        if value < 0 {
          return false, outputSum;
        }
        OutputSumStep(tx.outputs, k);
        outputSum := outputSum + value;
        k := k + 1;
      }
      assert tx.outputs[..k] == tx.outputs;
      ok := true;
    }

    /**
      Accepts `tx` into the pool: removes every key it claims, then files
      each of its outputs under `(tx.hash, i)`.
     */
    method ApplyAccepted(tx: Transaction)
      modifies this
      ensures pool == ApplyTx(old(pool), tx)
    {
      RemoveClaimed(tx);
      AddCreated(tx);
    }

    /** Removes from the pool every key an input of `tx` claims; removing a missing key does nothing. */
    method RemoveClaimed(tx: Transaction)
      modifies this
      ensures pool == old(pool) - ClaimedBy(tx.inputs)
    {
      for j := 0 to |tx.inputs|
        invariant pool == old(pool) - ClaimedBy(tx.inputs[..j])
      {
        var input := tx.inputs[j];
        assert ClaimedBy(tx.inputs[..j + 1]) == ClaimedBy(tx.inputs[..j]) + {Claimed(input)} by {
          assert tx.inputs[..j + 1] == tx.inputs[..j] + [input];
        }
        pool := pool - {UTXO(input.prevTxHash, input.outputIndex)};
      }
      assert tx.inputs[..|tx.inputs|] == tx.inputs;
    }

    /** Files output `i` of `tx` under `(tx.hash, i)` for each `i`, overwriting any entry there. */
    method AddCreated(tx: Transaction)
      modifies this
      ensures pool == old(pool) + Created(tx)
    {
      for outIndex := 0 to |tx.outputs|
        invariant forall u :: u in pool <==> u in old(pool) || (IsCreated(tx, u) && u.outputIndex < outIndex)
        invariant forall u :: u in pool ==>
          pool[u] == if IsCreated(tx, u) && u.outputIndex < outIndex then tx.outputs[u.outputIndex] else old(pool)[u]
      {
        pool := pool[UTXO(tx.hash, outIndex) := tx.outputs[outIndex]];
      }
      CreatedKeys(tx);
      assert pool.Keys == (old(pool) + Created(tx)).Keys;
    }

    /**
      Processes one epoch: passes over the candidates in their given order,
      accepting each not yet accepted candidate that is valid against the
      pool as it stands, until a pass accepts nothing. Returns the accepted
      transactions in acceptance order.
     */
    method HandleTxs(possibleTxs: seq<Transaction>) returns (validTxs: seq<Transaction>)
      modifies this
      ensures var r := Epoch(crypto, old(pool), possibleTxs);
        validTxs == r.accepted && pool == r.pool
      ensures forall t :: t in validTxs ==> t in possibleTxs
      ensures ValidChain(crypto, old(pool), validTxs)
      ensures pool == Replay(old(pool), validTxs)
      ensures forall k :: 0 <= k < |possibleTxs| && possibleTxs[k] !in validTxs ==>
        !ValidTx(crypto, pool, possibleTxs[k])
    {
      validTxs := [];
      var done: set<nat> := {};
      while true
        invariant done <= Positions(|possibleTxs|)
        invariant RunToFixpoint(crypto, possibleTxs, Progress(pool, validTxs, done))
               == Epoch(crypto, old(pool), possibleTxs)
        decreases Positions(|possibleTxs|) - done
      {
        ghost var before := Progress(pool, validTxs, done);
        var added := 0;
        for k := 0 to |possibleTxs|
          invariant Pass(crypto, possibleTxs, k, Progress(pool, validTxs, done))
                 == Pass(crypto, possibleTxs, 0, before)
          invariant added == |validTxs| - |before.accepted|
        {
          var tx := possibleTxs[k];
          if k !in done {
            var isValid := IsValidTx(tx);
            if isValid {
              validTxs := validTxs + [tx];
              ApplyAccepted(tx);
              done := done + {k};
              added := added + 1;
            }
          }
        }
        PassFacts(crypto, possibleTxs, 0, before);
        if added == 0 {
          break;
        }
        ghost var j :| j in done && j !in before.done;
      }
      EpochSound(crypto, old(pool), possibleTxs);
    }
  }

  /**
    What the input loop of `IsValidTx` knows after the first `i` inputs:
    each claims a pool output and carries a verifying signature, no two
    claim the same output, `claims` marks exactly the outputs they claim,
    and `inputSum` is the value they claim.
   */
  ghost predicate InputsChecked(c: Crypto, pool: Pool, tx: Transaction, i: nat, claims: map<UTXO, bool>, inputSum: int)
  {
    && i <= |tx.inputs|
    && claims.Keys == pool.Keys
    && (forall j :: 0 <= j < i ==> Claimed(tx.inputs[j]) in pool)
    && (forall j :: 0 <= j < i ==>
         c.verifySignature(pool[Claimed(tx.inputs[j])].address, c.rawDataToSign(tx, j), tx.inputs[j].signature))
    && (forall j1, j2 :: 0 <= j1 < j2 < i ==> Claimed(tx.inputs[j1]) != Claimed(tx.inputs[j2]))
    && (forall u :: u in claims ==> claims[u] == (u in ClaimedUpTo(tx.inputs, i)))
    && inputSum == InputSum(pool, tx.inputs[..i])
  }

  /** The keys claimed by the first `n` inputs. */
  ghost function ClaimedUpTo(inputs: seq<Input>, n: nat): set<UTXO>
    requires n <= |inputs|
  {
    if n == 0 then {} else ClaimedUpTo(inputs, n - 1) + {Claimed(inputs[n - 1])}
  }

  /** A key among the first `n` claims is claimed by one of the first `n` inputs. */
  lemma {:induction false} ClaimedUpToWitness(inputs: seq<Input>, n: nat, u: UTXO) returns (j: nat)
    requires n <= |inputs| && u in ClaimedUpTo(inputs, n)
    ensures j < n && Claimed(inputs[j]) == u
  {
    if Claimed(inputs[n - 1]) == u {
      j := n - 1;
    } else {
      j := ClaimedUpToWitness(inputs, n - 1, u);
    }
  }

  /** A key outside the first `n` claims is claimed by none of the first `n` inputs. */
  lemma {:induction false} ClaimedUpToAbsent(inputs: seq<Input>, n: nat, u: UTXO)
    requires n <= |inputs| && u !in ClaimedUpTo(inputs, n)
    ensures forall j :: 0 <= j < n ==> Claimed(inputs[j]) != u
  {
    if n > 0 {
      ClaimedUpToAbsent(inputs, n - 1, u);
    }
  }

  /** Before the first input nothing is checked and nothing is claimed. */
  lemma InputsCheckedStart(c: Crypto, pool: Pool, tx: Transaction)
    ensures InputsChecked(c, pool, tx, 0, map u | u in pool :: false, 0)
  {
    assert tx.inputs[..0] == [];
  }

  /** An input that claims an unclaimed pool output with a verifying signature extends the checked prefix. */
  lemma InputsCheckedStep(c: Crypto, pool: Pool, tx: Transaction, i: nat, claims: map<UTXO, bool>, inputSum: int)
    requires InputsChecked(c, pool, tx, i, claims, inputSum) && i < |tx.inputs|
    requires Claimed(tx.inputs[i]) in pool
    requires c.verifySignature(pool[Claimed(tx.inputs[i])].address, c.rawDataToSign(tx, i), tx.inputs[i].signature)
    requires !claims[Claimed(tx.inputs[i])]
    ensures InputsChecked(c, pool, tx, i + 1, claims[Claimed(tx.inputs[i]) := true],
                          inputSum + pool[Claimed(tx.inputs[i])].value)
  {
    ClaimedUpToAbsent(tx.inputs, i, Claimed(tx.inputs[i]));
    InputSumStep(pool, tx.inputs, i);
  }

  /** An input that fails one of the three input rules makes the transaction fail them. */
  lemma InputsCheckedReject(c: Crypto, pool: Pool, tx: Transaction, i: nat, claims: map<UTXO, bool>, inputSum: int)
    requires InputsChecked(c, pool, tx, i, claims, inputSum) && i < |tx.inputs|
    requires Claimed(tx.inputs[i]) in pool ==>
      || !c.verifySignature(pool[Claimed(tx.inputs[i])].address, c.rawDataToSign(tx, i), tx.inputs[i].signature)
      || claims[Claimed(tx.inputs[i])]
    ensures !(AllClaimsInPool(pool, tx) && SignaturesVerify(c, pool, tx) && NoDoubleClaim(tx))
  {
    var u := Claimed(tx.inputs[i]);
    if u in pool && claims[u] {
      var j := ClaimedUpToWitness(tx.inputs, i, u);
      assert Claimed(tx.inputs[j]) == Claimed(tx.inputs[i]);
    }
  }

  /** Once every input is checked, the three input rules hold and the sum is the claimed value. */
  lemma InputsCheckedAll(c: Crypto, pool: Pool, tx: Transaction, claims: map<UTXO, bool>, inputSum: int)
    requires InputsChecked(c, pool, tx, |tx.inputs|, claims, inputSum)
    ensures AllClaimsInPool(pool, tx) && SignaturesVerify(c, pool, tx) && NoDoubleClaim(tx)
    ensures inputSum == InputSum(pool, tx.inputs)
  {
    assert tx.inputs[..|tx.inputs|] == tx.inputs;
  }
}
