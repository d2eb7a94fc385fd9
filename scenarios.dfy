/**
  What an epoch does in particular situations: one candidate, two
  candidates that claim the same output, and a transaction that spends an
  output created by another transaction of the same batch. Then a small
  concrete ledger: one genesis output of 100 owned by Alice.
 */
module Scenarios {
  import opened LedgerTypes
  import opened Validity
  import opened Epochs
  import opened Handler

  /** One candidate is accepted exactly when it is valid, and then applied. */
  lemma SingleCandidate(c: Crypto, pool: Pool, tx: Transaction)
    ensures var r := Epoch(c, pool, [tx]);
      && r.accepted == (if ValidTx(c, pool, tx) then [tx] else [])
      && r.pool == (if ValidTx(c, pool, tx) then ApplyTx(pool, tx) else pool)
  {
    var cands := [tx];
    var s0 := Progress(pool, [], {});
    if ValidTx(c, pool, tx) {
      var s1 := Progress(ApplyTx(pool, tx), [] + [tx], {} + {0});
      VisitAccepts(c, cands, 0, s0);
      VisitSkips(c, cands, 0, s1);
      RunContinues(c, cands, s0, s1);
      RunStops(c, cands, s1);
    } else {
      VisitSkips(c, cands, 0, s0);
      RunStops(c, cands, s0);
    }
  }

  /** A pass over two candidates visits the first, then the second. */
  lemma PassOverTwo(c: Crypto, cands: seq<Transaction>, s: Progress)
    requires |cands| == 2
    ensures Pass(c, cands, 0, s) == Visit(c, cands, 1, Visit(c, cands, 0, s))
  {
    var v := Visit(c, cands, 0, s);
    assert Pass(c, cands, 1, v) == Pass(c, cands, 2, Visit(c, cands, 1, v));
  }

  /**
    Conflict resolution: of two candidates that claim the same output, the
    one listed first wins when it is valid, and the other is rejected
    (provided the winner does not file an output under that same key).
   */
  lemma FirstClaimWins(c: Crypto, pool: Pool, x: Transaction, y: Transaction, u: UTXO)
    requires ValidTx(c, pool, x)
    requires u in ClaimedBy(x.inputs) && u in ClaimedBy(y.inputs)
    requires !IsCreated(x, u)
    ensures var r := Epoch(c, pool, [x, y]);
      r.accepted == [x] && r.pool == ApplyTx(pool, x)
  {
    var cands := [x, y];
    var s0 := Progress(pool, [], {});
    var p1 := ApplyTx(pool, x);
    var s1 := Progress(p1, [] + [x], {} + {0});
    assert !ValidTx(c, p1, y) by {
      assert u !in p1;
      var i :| 0 <= i < |y.inputs| && Claimed(y.inputs[i]) == u;
    }
    VisitAccepts(c, cands, 0, s0);
    VisitSkips(c, cands, 1, s1);
    VisitSkips(c, cands, 0, s1);
    PassOverTwo(c, cands, s0);
    PassOverTwo(c, cands, s1);
    RunContinues(c, cands, s0, s1);
    RunStops(c, cands, s1);
  }

  /** The hypotheses of a chained spend: `b` spends an output that only `a` creates. */
  ghost predicate ChainedSpend(c: Crypto, pool: Pool, a: Transaction, b: Transaction)
  {
    && ValidTx(c, pool, a)
    && ValidTx(c, ApplyTx(pool, a), b)
    && exists i :: 0 <= i < |b.inputs| && IsCreated(a, Claimed(b.inputs[i])) && Claimed(b.inputs[i]) !in pool
  }

  /** Without its creator's outputs, the spender of a chained spend is invalid. */
  lemma SpenderWaits(c: Crypto, pool: Pool, a: Transaction, b: Transaction)
    requires ChainedSpend(c, pool, a, b)
    ensures !ValidTx(c, pool, b)
  {
    var i :| 0 <= i < |b.inputs| && IsCreated(a, Claimed(b.inputs[i])) && Claimed(b.inputs[i]) !in pool;
  }

  /**
    Two transactions, the second valid once the first is applied, are both
    accepted in one pass when listed in that order.
   */
  lemma ChainedSpendInOrder(c: Crypto, pool: Pool, a: Transaction, b: Transaction)
    requires ValidTx(c, pool, a) && ValidTx(c, ApplyTx(pool, a), b)
    ensures var r := Epoch(c, pool, [a, b]);
      r.accepted == [a, b] && r.pool == ApplyTx(ApplyTx(pool, a), b)
  {
    var cands := [a, b];
    var p1 := ApplyTx(pool, a);
    var s0 := Progress(pool, [], {});
    var s1 := Progress(p1, [] + [a], {} + {0});
    var s2 := Progress(ApplyTx(p1, b), [] + [a] + [b], {} + {0} + {1});
    VisitAccepts(c, cands, 0, s0);
    VisitAccepts(c, cands, 1, s1);
    VisitSkips(c, cands, 0, s2);
    VisitSkips(c, cands, 1, s2);
    PassOverTwo(c, cands, s0);
    PassOverTwo(c, cands, s2);
    RunContinues(c, cands, s0, s2);
    RunStops(c, cands, s2);
    PairConcat(a, b);
  }

  /**
    A chained spend is accepted whole when the spender is listed first too:
    the spender is rejected in the first pass and accepted in the second.
   */
  lemma ChainedSpendReversed(c: Crypto, pool: Pool, a: Transaction, b: Transaction)
    requires ChainedSpend(c, pool, a, b)
    ensures var r := Epoch(c, pool, [b, a]);
      r.accepted == [a, b] && r.pool == ApplyTx(ApplyTx(pool, a), b)
  {
    SpenderWaits(c, pool, a, b);
    assert ValidTx(c, pool, a) && ValidTx(c, ApplyTx(pool, a), b);
    var cands := [b, a];
    var p1 := ApplyTx(pool, a);
    var s0 := Progress(pool, [], {});
    var s1 := Progress(p1, [] + [a], {} + {1});
    var s2 := Progress(ApplyTx(p1, b), [] + [a] + [b], {} + {1} + {0});
    VisitSkips(c, cands, 0, s0);
    VisitAccepts(c, cands, 1, s0);
    VisitAccepts(c, cands, 0, s1);
    VisitSkips(c, cands, 1, s2);
    VisitSkips(c, cands, 0, s2);
    PassOverTwo(c, cands, s0);
    PassOverTwo(c, cands, s1);
    PassOverTwo(c, cands, s2);
    RunContinues(c, cands, s0, s1);
    RunContinues(c, cands, s1, s2);
    RunStops(c, cands, s2);
    PairConcat(a, b);
  }

  /** Appending two elements one at a time to the empty sequence gives the pair. */
  lemma PairConcat<T>(a: T, b: T)
    ensures [] + [a] + [b] == [a, b]
  {
  }

  const GenesisHash: Bytes := [0]
  const Alice: Address := [0xA1]
  const Bob: Address := [0xB0]

  /** The starting ledger: one output of 100 owned by Alice. */
  function GenesisPool(): Pool
  {
    map[UTXO(GenesisHash, 0) := Output(100, Alice)]
  }

  /** Alice pays 60 to Bob and keeps 40 as change, signing with `sig`. */
  function Payment(sig: Bytes): Transaction
  {
    Transaction([1], [Input(GenesisHash, 0, sig)], [Output(60, Bob), Output(40, Alice)])
  }

  /** With Alice's valid signature the payment is valid and the epoch swaps her output for the two new ones. */
  lemma PaymentAccepted(c: Crypto, sig: Bytes)
    requires c.verifySignature(Alice, c.rawDataToSign(Payment(sig), 0), sig)
    ensures ValidTx(c, GenesisPool(), Payment(sig))
    ensures var r := Epoch(c, GenesisPool(), [Payment(sig)]);
      && r.accepted == [Payment(sig)]
      && r.pool == map[UTXO([1], 0) := Output(60, Bob), UTXO([1], 1) := Output(40, Alice)]
  {
    var tx := Payment(sig);
    assert Claimed(tx.inputs[0]) == UTXO(GenesisHash, 0);
    assert InputSum(GenesisPool(), tx.inputs) == 100 by {
      assert tx.inputs[..0] == [];
    }
    assert OutputSum(tx.outputs) == 100 by {
      assert tx.outputs[..1] == [Output(60, Bob)];
      assert [Output(60, Bob)][..0] == [];
      assert OutputSum([Output(60, Bob)]) == 60;
    }
    assert ValidTx(c, GenesisPool(), tx);
    SingleCandidate(c, GenesisPool(), tx);
    var expected := map[UTXO([1], 0) := Output(60, Bob), UTXO([1], 1) := Output(40, Alice)];
    var after := ApplyTx(GenesisPool(), tx);
    assert ClaimedBy(tx.inputs) == {UTXO(GenesisHash, 0)};
    assert forall u :: u in after <==> u in expected;
    assert after.Keys == expected.Keys;
  }

  /** With a signature that does not verify, the payment is invalid and the epoch changes nothing. */
  lemma BadSignatureRejected(c: Crypto, sig: Bytes)
    requires !c.verifySignature(Alice, c.rawDataToSign(Payment(sig), 0), sig)
    ensures !ValidTx(c, GenesisPool(), Payment(sig))
    ensures var r := Epoch(c, GenesisPool(), [Payment(sig)]);
      r.accepted == [] && r.pool == GenesisPool()
  {
    var tx := Payment(sig);
    assert Claimed(tx.inputs[0]) == UTXO(GenesisHash, 0);
    SingleCandidate(c, GenesisPool(), tx);
  }

  /** Claiming Alice's output twice in one transaction is invalid whatever the signatures. */
  lemma DoubleClaimRejected(c: Crypto, sig: Bytes)
    ensures !ValidTx(c, GenesisPool(),
      Transaction([3], [Input(GenesisHash, 0, sig), Input(GenesisHash, 0, sig)], [Output(60, Bob), Output(40, Alice)]))
  {
    var tx := Transaction([3], [Input(GenesisHash, 0, sig), Input(GenesisHash, 0, sig)], [Output(60, Bob), Output(40, Alice)]);
    assert Claimed(tx.inputs[0]) == Claimed(tx.inputs[1]);
  }

  /** Checking a transaction leaves the pool alone, so checking it again gives the same answer. */
  method ValidationIsRepeatable(handler: TxHandler, tx: Transaction) returns (first: bool, second: bool)
    ensures first == second
  {
    first := handler.IsValidTx(tx);
    second := handler.IsValidTx(tx);
  }

  /**
    The genesis ledger run through the handler: the caller's pool is
    copied in, the payment is accepted, and the caller's pool is untouched.
   */
  method GenesisEpoch(c: Crypto, sig: Bytes) returns (accepted: seq<Transaction>, callerPool: Pool, ledgerPool: Pool)
    requires c.verifySignature(Alice, c.rawDataToSign(Payment(sig), 0), sig)
    ensures accepted == [Payment(sig)]
    ensures callerPool == GenesisPool()
    ensures ledgerPool == map[UTXO([1], 0) := Output(60, Bob), UTXO([1], 1) := Output(40, Alice)]
  {
    callerPool := GenesisPool();
    var handler := new TxHandler(callerPool, c);
    accepted := handler.HandleTxs([Payment(sig)]);
    ledgerPool := handler.pool;
    PaymentAccepted(c, sig);
  }
}
