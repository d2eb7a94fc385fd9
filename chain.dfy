/**
  Sequences of accepted transactions, each applied to the pool left by
  the ones before it: the pool they lead to, the validity of each at its
  turn, and what follows from that — no output is spent twice and no
  value is created.
 */
module Chain {
  import opened LedgerTypes
  import opened Validity

  /** The pool after accepting `txs` in order, starting from `pool`. */
  function Replay(pool: Pool, txs: seq<Transaction>): Pool
  {
    if |txs| == 0 then pool
    else ApplyTx(Replay(pool, txs[..|txs| - 1]), txs[|txs| - 1])
  }

  /**
    Every transaction of `txs` was valid against the pool as it stood when
    it was accepted: the chain without its last transaction is valid, and
    the last one is valid against the pool that chain leads to.
   */
  ghost predicate ValidChain(c: Crypto, pool: Pool, txs: seq<Transaction>)
    decreases |txs|
  {
    |txs| == 0
    || (&& ValidChain(c, pool, txs[..|txs| - 1])
        && ValidTx(c, Replay(pool, txs[..|txs| - 1]), txs[|txs| - 1]))
  }

  /** In a valid chain, transaction `i` is valid against the pool the first `i` lead to. */
  lemma {:induction false} ValidChainAt(c: Crypto, pool: Pool, txs: seq<Transaction>, i: nat)
    requires ValidChain(c, pool, txs)
    requires i < |txs|
    ensures ValidTx(c, Replay(pool, txs[..i]), txs[i])
    decreases |txs|
  {
    var init := txs[..|txs| - 1];
    if i < |init| {
      ValidChainAt(c, pool, init, i);
      assert init[..i] == txs[..i];
    }
  }

  /** Conversely, a sequence whose every transaction is valid at its turn is a valid chain. */
  lemma {:induction false} ValidChainAll(c: Crypto, pool: Pool, txs: seq<Transaction>)
    requires forall i :: 0 <= i < |txs| ==> ValidTx(c, Replay(pool, txs[..i]), txs[i])
    ensures ValidChain(c, pool, txs)
    decreases |txs|
  {
    if |txs| > 0 {
      var init := txs[..|txs| - 1];
      forall i | 0 <= i < |init| ensures ValidTx(c, Replay(pool, init[..i]), init[i]) {
        assert init[..i] == txs[..i];
        assert ValidTx(c, Replay(pool, txs[..i]), txs[i]);
      }
      ValidChainAll(c, pool, init);
      assert ValidTx(c, Replay(pool, txs[..|init|]), txs[|init|]);
    }
  }

  /** Accepting one more transaction, valid against the current pool, extends a valid chain. */
  lemma ChainExtend(c: Crypto, pool: Pool, txs: seq<Transaction>, tx: Transaction)
    requires ValidChain(c, pool, txs)
    requires ValidTx(c, Replay(pool, txs), tx)
    ensures ValidChain(c, pool, txs + [tx])
    ensures Replay(pool, txs + [tx]) == ApplyTx(Replay(pool, txs), tx)
  {
    PrefixOfAppend(txs, tx);
  }

  /** Dropping the element appended to `s` gives back `s`. */
  lemma PrefixOfAppend<T>(s: seq<T>, x: T)
    ensures (s + [x])[..|s|] == s
  {
  }

  /**
    Two chains run back to back (one epoch after another on the same pool)
    form one valid chain, leading to the same pool.
   */
  lemma {:induction false} ChainConcat(c: Crypto, pool: Pool, first: seq<Transaction>, second: seq<Transaction>)
    requires ValidChain(c, pool, first)
    requires ValidChain(c, Replay(pool, first), second)
    ensures ValidChain(c, pool, first + second)
    ensures Replay(pool, first + second) == Replay(Replay(pool, first), second)
    decreases |second|
  {
    if |second| == 0 {
      assert first + second == first;
    } else {
      var mid := Replay(pool, first);
      var init := second[..|second| - 1];
      var last := second[|second| - 1];
      ChainConcat(c, pool, first, init);
      ChainExtend(c, pool, first + init, last);
      AppendSplit(first, second);
    }
  }

  /** Concatenating with a non-empty sequence is concatenating with its front, then its last element. */
  lemma AppendSplit<T>(a: seq<T>, b: seq<T>)
    requires |b| > 0
    ensures a + b == (a + b[..|b| - 1]) + [b[|b| - 1]]
  {
  }

  /**
    Every key in the pool after a prefix of the chain was either in the
    starting pool or created by a transaction of that prefix.
   */
  lemma {:induction false} ReplayOrigin(pool: Pool, txs: seq<Transaction>, k: nat, u: UTXO)
    requires k <= |txs|
    requires u in Replay(pool, txs[..k])
    ensures u in pool || exists m :: 0 <= m < k && IsCreated(txs[m], u)
    decreases k
  {
    if k > 0 {
      assert txs[..k][..k - 1] == txs[..k - 1];
      if !IsCreated(txs[k - 1], u) {
        ReplayOrigin(pool, txs, k - 1, u);
      }
    }
  }

  /**
    Transaction hashes are fresh: no accepted transaction has the hash of
    an output already in the starting pool, and no two share a hash. This
    stands for the collision resistance of the hash function.
   */
  ghost predicate FreshHashes(pool: Pool, txs: seq<Transaction>)
  {
    && (forall m, u :: 0 <= m < |txs| && u in pool ==> u.prevTxHash != txs[m].hash)
    && (forall m, n :: 0 <= m < n < |txs| ==> txs[m].hash != txs[n].hash)
  }

  /** Once transaction `i` has claimed `u`, no later transaction puts `u` back into the pool. */
  lemma {:induction false} SpentStaysSpent(pool: Pool, txs: seq<Transaction>, i: nat, k: nat, u: UTXO)
    requires FreshHashes(pool, txs)
    requires i < k <= |txs|
    requires u in ClaimedBy(txs[i].inputs)
    requires u in pool || exists m :: 0 <= m < i && IsCreated(txs[m], u)
    ensures u !in Replay(pool, txs[..k])
    decreases k
  {
    assert txs[..k][..k - 1] == txs[..k - 1];
    assert !IsCreated(txs[k - 1], u);
    if k - 1 > i {
      SpentStaysSpent(pool, txs, i, k - 1, u);
    }
  }

  /**
    No double spend: with fresh hashes, two different transactions of a
    valid chain never claim the same output.
   */
  lemma NoDoubleSpend(c: Crypto, pool: Pool, txs: seq<Transaction>, i: nat, j: nat)
    requires ValidChain(c, pool, txs)
    requires FreshHashes(pool, txs)
    requires i < j < |txs|
    ensures ClaimedBy(txs[i].inputs) !! ClaimedBy(txs[j].inputs)
  {
    forall u | u in ClaimedBy(txs[i].inputs) ensures u !in ClaimedBy(txs[j].inputs) {
      ValidChainAt(c, pool, txs, i);
      assert u in Replay(pool, txs[..i]);
      ReplayOrigin(pool, txs, i, u);
      SpentStaysSpent(pool, txs, i, j, u);
      ValidChainAt(c, pool, txs, j);
    }
  }

  /** Total value claimed by the chain, each input valued in the pool its transaction saw. */
  function ClaimedTotal(pool: Pool, txs: seq<Transaction>): int
  {
    if |txs| == 0 then 0
    else ClaimedTotal(pool, txs[..|txs| - 1])
         + InputSum(Replay(pool, txs[..|txs| - 1]), txs[|txs| - 1].inputs)
  }

  /** Total value created by the chain. */
  function ProducedTotal(txs: seq<Transaction>): int
  {
    if |txs| == 0 then 0
    else ProducedTotal(txs[..|txs| - 1]) + OutputSum(txs[|txs| - 1].outputs)
  }

  /** Conservation: a valid chain never creates more value than it claims. */
  lemma {:induction false} ChainConserves(c: Crypto, pool: Pool, txs: seq<Transaction>)
    requires ValidChain(c, pool, txs)
    ensures ProducedTotal(txs) <= ClaimedTotal(pool, txs)
    decreases |txs|
  {
    if |txs| > 0 {
      ChainConserves(c, pool, txs[..|txs| - 1]);
    }
  }
}
