/**
  The batch loop of `handleTxs` as it is written, next to the corrected
  behaviour the rest of the model uses. Two things keep the written loop
  from doing what it evidently means to do: accepted transactions are
  stored one past the end of a fixed-size array, so the first acceptance
  throws; and every pass visits every candidate again, including the ones
  it already accepted, which would keep the loop going forever once the
  store is repaired.
 */
module Findings {
  import opened LedgerTypes
  import opened Validity
  import opened Epochs
  import opened Scenarios

  datatype Option<T> = None | Some(value: T)

  /**
    Storing `x` at index `i` of a fixed-size array whose contents are `a`:
    in bounds it replaces one element, out of bounds it fails (the array
    index exception).
   */
  function StoreAt<T>(a: seq<T>, i: int, x: T): (r: Option<seq<T>>)
    ensures r.Some? <==> 0 <= i < |a|
    ensures r.Some? ==> |r.value| == |a| && r.value[i] == x
    ensures r.Some? ==> forall j :: 0 <= j < |a| && j != i ==> r.value[j] == a[j]
  {
    if 0 <= i < |a| then Some(a[i := x]) else None
  }

  /** Storing at index `length` of an array of that length always fails. */
  lemma StoreAtLengthFails<T>(a: seq<T>, x: T)
    ensures StoreAt(a, |a|, x) == None
  {
  }

  /**
    The state of the written loop: either the array store has thrown,
    leaving the pool as it was, or the pass goes on with the contents of
    the fixed-size `validTxs` array, the pool and the `added` counter.
   */
  datatype Written = Threw(pool: Pool) | Running(validTxs: seq<Transaction>, pool: Pool, added: int)

  /**
    One step of the written pass. A valid candidate is first stored at
    index `validTxs.length`, and only then applied to the pool and
    counted, so a failing store leaves the pool as it was. There is no
    check of whether the candidate was accepted before.
   */
  ghost function VisitWritten(c: Crypto, cands: seq<Transaction>, k: nat, w: Written): (r: Written)
    requires k < |cands|
    ensures w.Threw? ==> r == w
    ensures w.Running? && r.Running? ==> |r.validTxs| == |w.validTxs|
    ensures w.Running? && r.Threw? ==> r.pool == w.pool && ValidTx(c, w.pool, cands[k])
  {
    match w
    case Threw(_) => w
    case Running(validTxs, pool, added) =>
      var tx := cands[k];
      if ValidTx(c, pool, tx) then
        match StoreAt(validTxs, |validTxs|, tx)
        case None => Threw(pool)
        case Some(stored) => Running(stored, ApplyTx(pool, tx), added + 1)
      else w
  }

  /** The written pass from position `k` on. */
  ghost function PassWritten(c: Crypto, cands: seq<Transaction>, k: nat, w: Written): Written
    requires k <= |cands|
    decreases |cands| - k
  {
    if k == |cands| then w else PassWritten(c, cands, k + 1, VisitWritten(c, cands, k, w))
  }

  /** Once the store has thrown, the rest of the pass does not run. */
  lemma {:induction false} ThrownStays(c: Crypto, cands: seq<Transaction>, k: nat, pool: Pool)
    requires k <= |cands|
    ensures PassWritten(c, cands, k, Threw(pool)) == Threw(pool)
    decreases |cands| - k
  {
    if k < |cands| {
      ThrownStays(c, cands, k + 1, pool);
    }
  }

  /**
    From the empty array, the written pass throws, with the pool as it was,
    exactly when some candidate from position `k` on is valid against the
    pool; otherwise it ends with the array empty, the pool unchanged and
    nothing added.
   */
  lemma {:induction false} PassWrittenFrom(c: Crypto, cands: seq<Transaction>, k: nat, pool: Pool)
    requires k <= |cands|
    ensures PassWritten(c, cands, k, Running([], pool, 0))
         == if exists j :: k <= j < |cands| && ValidTx(c, pool, cands[j]) then Threw(pool) else Running([], pool, 0)
    decreases |cands| - k
  {
    if k < |cands| {
      if ValidTx(c, pool, cands[k]) {
        StoreAtLengthFails<Transaction>([], cands[k]);
        assert VisitWritten(c, cands, k, Running([], pool, 0)) == Threw(pool);
        ThrownStays(c, cands, k + 1, pool);
      } else {
        assert VisitWritten(c, cands, k, Running([], pool, 0)) == Running([], pool, 0);
        PassWrittenFrom(c, cands, k + 1, pool);
        if exists j :: k <= j < |cands| && ValidTx(c, pool, cands[j]) {
          var j :| k <= j < |cands| && ValidTx(c, pool, cands[j]);
          assert k + 1 <= j;
        }
      }
    }
  }

  /**
    The written `handleTxs` from the empty array: its first pass. That pass
    either throws or ends with `added == 0` (`WrittenOutcome`), so the
    `while (true)` loop never starts a second pass: the exception leaves
    it, or the `break` does.
   */
  ghost function HandleTxsAsWritten(c: Crypto, pool: Pool, cands: seq<Transaction>): Written
  {
    PassWritten(c, cands, 0, Running([], pool, 0))
  }

  /**
    What the written `handleTxs` does, for every pool and batch: it throws,
    leaving the pool unchanged, exactly when some candidate is valid
    against the starting pool; otherwise it returns the empty array after
    one pass that added nothing, again leaving the pool unchanged.
   */
  lemma WrittenOutcome(c: Crypto, pool: Pool, cands: seq<Transaction>)
    ensures var r := HandleTxsAsWritten(c, pool, cands);
      && (r.Threw? <==> exists k :: 0 <= k < |cands| && ValidTx(c, pool, cands[k]))
      && r.pool == pool
      && (r.Running? ==> r.validTxs == [] && r.added == 0)
  {
    PassWrittenFrom(c, cands, 0, pool);
  }

  /**
    Alice's signed payment from the genesis pool: the written loop throws
    and the pool keeps her output, where the corrected epoch accepts the
    payment.
   */
  lemma FirstAcceptanceThrows(c: Crypto, sig: Bytes)
    requires c.verifySignature(Alice, c.rawDataToSign(Payment(sig), 0), sig)
    ensures HandleTxsAsWritten(c, GenesisPool(), [Payment(sig)]) == Threw(GenesisPool())
    ensures Epoch(c, GenesisPool(), [Payment(sig)]).accepted == [Payment(sig)]
  {
    PaymentAccepted(c, sig);
    WrittenOutcome(c, GenesisPool(), [Payment(sig)]);
    assert ValidTx(c, GenesisPool(), [Payment(sig)][0]);
  }

  /**
    The second defect is latent: it shows only once the store at index
    `validTxs.length` is replaced by an append. This is the written step
    with that replacement and nothing else: there is still no check of
    whether the candidate was accepted before.
   */
  ghost function VisitAppending(c: Crypto, cands: seq<Transaction>, k: nat, s: Progress): (r: Progress)
    requires k < |cands|
    ensures |r.accepted| == |s.accepted| || |r.accepted| == |s.accepted| + 1
  {
    if ValidTx(c, s.pool, cands[k]) then
      Progress(ApplyTx(s.pool, cands[k]), s.accepted + [cands[k]], s.done + {k})
    else
      s
  }

  /** The written pass from position `k` on, with the store replaced by an append. */
  ghost function PassAppending(c: Crypto, cands: seq<Transaction>, k: nat, s: Progress): (r: Progress)
    requires k <= |cands|
    ensures |r.accepted| >= |s.accepted|
    decreases |cands| - k
  {
    if k == |cands| then s else PassAppending(c, cands, k + 1, VisitAppending(c, cands, k, s))
  }

  /** A transaction with no inputs and no outputs. */
  function EmptyTx(h: Bytes): Transaction
  {
    Transaction(h, [], [])
  }

  /** Such a transaction is valid against every pool, and accepting it changes nothing. */
  lemma EmptyTxInert(c: Crypto, pool: Pool, h: Bytes)
    ensures ValidTx(c, pool, EmptyTx(h))
    ensures ApplyTx(pool, EmptyTx(h)) == pool
  {
    var r := ApplyTx(pool, EmptyTx(h));
    assert r.Keys == pool.Keys;
  }

  /**
    With the store replaced by an append, the loop never ends on a batch
    holding an empty transaction: whatever has happened before, the next
    pass accepts it once more and leaves the pool as it was, so `added` is
    never 0 after a pass.
   */
  lemma EmptyTxNeverSettles(c: Crypto, h: Bytes, s: Progress)
    ensures var r := PassAppending(c, [EmptyTx(h)], 0, s);
      && r.accepted == s.accepted + [EmptyTx(h)]
      && r.pool == s.pool
  {
    EmptyTxInert(c, s.pool, h);
    var cands := [EmptyTx(h)];
    var v := VisitAppending(c, cands, 0, s);
    assert PassAppending(c, cands, 1, v) == v;
  }

  /** With accepted positions skipped, the same batch settles after accepting the transaction once. */
  lemma EmptyTxAcceptedOnce(c: Crypto, pool: Pool, h: Bytes)
    ensures var r := Epoch(c, pool, [EmptyTx(h)]);
      r.accepted == [EmptyTx(h)] && r.pool == pool
  {
    EmptyTxInert(c, pool, h);
    SingleCandidate(c, pool, EmptyTx(h));
  }
}
