/**
  What one call of `handleTxs` computes, as functions: repeated passes over
  the candidates in their given order, each accepting every not yet
  accepted candidate that is valid against the pool as it stands, until a
  pass accepts nothing.
 */
module Epochs {
  import opened LedgerTypes
  import opened Validity
  import opened Chain

  /**
    The state of an epoch: the pool, the transactions accepted so far in
    acceptance order, and the candidate positions already accepted.
   */
  datatype Progress = Progress(pool: Pool, accepted: seq<Transaction>, done: set<nat>)

  /** The positions of a candidate list. */
  ghost function Positions(n: nat): (r: set<nat>)
    ensures forall k: nat :: k in r <==> k < n
  {
    if n == 0 then {} else Positions(n - 1) + {n - 1}
  }

  /**
    One step of a pass: the candidate at position `k` is accepted when it
    is not accepted yet and is valid against the current pool; accepting
    it appends it to the accepted list, marks its position and applies it
    to the pool. A step adds at most that one transaction.
   */
  ghost function Visit(c: Crypto, cands: seq<Transaction>, k: nat, s: Progress): (r: Progress)
    requires k < |cands|
    ensures s.done <= r.done && r.done <= s.done + {k}
    ensures |r.accepted| == |s.accepted| ==> r == s
    ensures |r.accepted| != |s.accepted| ==> |r.accepted| == |s.accepted| + 1 && k in r.done && k !in s.done
  {
    if k !in s.done && ValidTx(c, s.pool, cands[k]) then
      Progress(ApplyTx(s.pool, cands[k]), s.accepted + [cands[k]], s.done + {k})
    else
      s
  }

  /** One pass over the candidates from position `k` on. */
  ghost function Pass(c: Crypto, cands: seq<Transaction>, k: nat, s: Progress): Progress
    requires k <= |cands|
    decreases |cands| - k
  {
    if k == |cands| then s else Pass(c, cands, k + 1, Visit(c, cands, k, s))
  }

  /**
    A pass only ever adds: it keeps every marked position, marks only
    positions it visits, never shortens the accepted list, returns its
    state unchanged when it accepts nothing, and marks a new position when
    it accepts something.
   */
  lemma {:induction false} PassFacts(c: Crypto, cands: seq<Transaction>, k: nat, s: Progress)
    requires k <= |cands|
    ensures var r := Pass(c, cands, k, s);
      && s.done <= r.done
      && (forall j :: j in r.done && j !in s.done ==> k <= j < |cands|)
      && |r.accepted| >= |s.accepted|
      && (|r.accepted| == |s.accepted| ==> r == s)
      && (|r.accepted| > |s.accepted| ==> exists j :: j in r.done && j !in s.done)
    decreases |cands| - k
  {
    if k < |cands| {
      PassFacts(c, cands, k + 1, Visit(c, cands, k, s));
    }
  }

  /** Passes repeated until one accepts nothing. */
  ghost function RunToFixpoint(c: Crypto, cands: seq<Transaction>, s: Progress): Progress
    requires s.done <= Positions(|cands|)
    decreases Positions(|cands|) - s.done
  {
    var next := Pass(c, cands, 0, s);
    if |next.accepted| == |s.accepted| then next
    else
      PassFacts(c, cands, 0, s);
      var j :| j in next.done && j !in s.done;
      assert j in Positions(|cands|) - s.done;
      RunToFixpoint(c, cands, next)
  }

  /** An epoch: the run that starts from `pool` with nothing accepted. */
  ghost function Epoch(c: Crypto, pool: Pool, cands: seq<Transaction>): Progress
  {
    RunToFixpoint(c, cands, Progress(pool, [], {}))
  }

  /** A visit accepts a candidate that is unaccepted and valid. */
  lemma VisitAccepts(c: Crypto, cands: seq<Transaction>, k: nat, s: Progress)
    requires k < |cands| && k !in s.done && ValidTx(c, s.pool, cands[k])
    ensures Visit(c, cands, k, s)
         == Progress(ApplyTx(s.pool, cands[k]), s.accepted + [cands[k]], s.done + {k})
  {
  }

  /** A visit skips a candidate that is already accepted or invalid. */
  lemma VisitSkips(c: Crypto, cands: seq<Transaction>, k: nat, s: Progress)
    requires k < |cands| && (k in s.done || !ValidTx(c, s.pool, cands[k]))
    ensures Visit(c, cands, k, s) == s
  {
  }

  /** A run stops at a state that a whole pass leaves unchanged. */
  lemma RunStops(c: Crypto, cands: seq<Transaction>, s: Progress)
    requires s.done <= Positions(|cands|)
    requires Pass(c, cands, 0, s) == s
    ensures RunToFixpoint(c, cands, s) == s
  {
    PassFacts(c, cands, 0, s);
  }

  /** A run goes on from the state a pass reaches when that pass accepted something. */
  lemma RunContinues(c: Crypto, cands: seq<Transaction>, s: Progress, next: Progress)
    requires s.done <= Positions(|cands|)
    requires Pass(c, cands, 0, s) == next && next != s
    ensures next.done <= Positions(|cands|)
    ensures RunToFixpoint(c, cands, s) == RunToFixpoint(c, cands, next)
  {
    PassFacts(c, cands, 0, s);
  }

  /** Each accepted position is a position of the list, and the candidate there is among the accepted ones. */
  ghost predicate Recorded(cands: seq<Transaction>, s: Progress)
  {
    forall k :: k in s.done ==> k < |cands| && cands[k] in s.accepted
  }

  /** Each acceptance marks exactly one new position. */
  ghost predicate Counted(s: Progress)
  {
    |s.accepted| == |s.done|
  }

  /** A pass marks one new position per transaction it accepts. */
  lemma {:induction false} PassCounted(c: Crypto, cands: seq<Transaction>, k: nat, s: Progress)
    requires k <= |cands|
    requires Counted(s)
    ensures Counted(Pass(c, cands, k, s))
    decreases |cands| - k
  {
    if k < |cands| {
      PassCounted(c, cands, k + 1, Visit(c, cands, k, s));
    }
  }

  /** Every accepted transaction is one of the candidates. */
  ghost predicate Drawn(cands: seq<Transaction>, s: Progress)
  {
    forall t :: t in s.accepted ==> t in cands
  }

  /** A visit keeps the accepted positions bookkept. */
  lemma VisitRecorded(c: Crypto, cands: seq<Transaction>, k: nat, s: Progress)
    requires k < |cands|
    requires Recorded(cands, s)
    ensures Recorded(cands, Visit(c, cands, k, s))
  {
  }

  /** A pass keeps the accepted positions bookkept. */
  lemma {:induction false} PassRecorded(c: Crypto, cands: seq<Transaction>, k: nat, s: Progress)
    requires k <= |cands|
    requires Recorded(cands, s)
    ensures Recorded(cands, Pass(c, cands, k, s))
    decreases |cands| - k
  {
    if k < |cands| {
      var v := Visit(c, cands, k, s);
      VisitRecorded(c, cands, k, s);
      PassRecorded(c, cands, k + 1, v);
      var r := Pass(c, cands, k + 1, v);
      assert Pass(c, cands, k, s) == r;
      assert Recorded(cands, r);
    }
  }

  /** A visit accepts only candidates. */
  lemma VisitDrawn(c: Crypto, cands: seq<Transaction>, k: nat, s: Progress)
    requires k < |cands|
    requires Drawn(cands, s)
    ensures Drawn(cands, Visit(c, cands, k, s))
  {
  }

  /** A pass accepts only candidates. */
  lemma {:induction false} PassDrawn(c: Crypto, cands: seq<Transaction>, k: nat, s: Progress)
    requires k <= |cands|
    requires Drawn(cands, s)
    ensures Drawn(cands, Pass(c, cands, k, s))
    decreases |cands| - k
  {
    if k < |cands| {
      VisitDrawn(c, cands, k, s);
      PassDrawn(c, cands, k + 1, Visit(c, cands, k, s));
    }
  }

  /**
    A visit keeps the accepted list a valid chain from `start` whose replay
    is the current pool.
   */
  lemma VisitChain(c: Crypto, cands: seq<Transaction>, k: nat, s: Progress, start: Pool)
    requires k < |cands|
    requires ValidChain(c, start, s.accepted) && s.pool == Replay(start, s.accepted)
    ensures var r := Visit(c, cands, k, s);
      ValidChain(c, start, r.accepted) && r.pool == Replay(start, r.accepted)
  {
    if k !in s.done && ValidTx(c, s.pool, cands[k]) {
      ChainExtend(c, start, s.accepted, cands[k]);
    }
  }

  /**
    A pass keeps the accepted list a valid chain from `start` whose replay
    is the current pool.
   */
  lemma {:induction false} PassChain(c: Crypto, cands: seq<Transaction>, k: nat, s: Progress, start: Pool)
    requires k <= |cands|
    requires ValidChain(c, start, s.accepted) && s.pool == Replay(start, s.accepted)
    ensures var r := Pass(c, cands, k, s);
      ValidChain(c, start, r.accepted) && r.pool == Replay(start, r.accepted)
    decreases |cands| - k
  {
    if k < |cands| {
      var v := Visit(c, cands, k, s);
      VisitChain(c, cands, k, s, start);
      PassChain(c, cands, k + 1, v, start);
      var r := Pass(c, cands, k + 1, v);
      assert Pass(c, cands, k, s) == r;
      assert ValidChain(c, start, r.accepted) && r.pool == Replay(start, r.accepted);
    }
  }

  /** A pass that accepts nothing found every unaccepted candidate it visited invalid. */
  lemma {:induction false} QuietPass(c: Crypto, cands: seq<Transaction>, k: nat, s: Progress)
    requires k <= |cands|
    requires Pass(c, cands, k, s) == s
    ensures forall j :: k <= j < |cands| && j !in s.done ==> !ValidTx(c, s.pool, cands[j])
    decreases |cands| - k
  {
    if k < |cands| {
      PassFacts(c, cands, k + 1, Visit(c, cands, k, s));
      assert Visit(c, cands, k, s) == s;
      QuietPass(c, cands, k + 1, s);
    }
  }

  /**
    What an epoch guarantees: its accepted list is drawn from the
    candidates, each accepted transaction was valid against the pool as it
    stood when accepted, the final pool is the replay of the accepted list,
    and every candidate left out is invalid against the final pool.
   */
  lemma {:induction false} RunToFixpointSound(c: Crypto, cands: seq<Transaction>, s: Progress, start: Pool)
    requires s.done <= Positions(|cands|)
    requires Recorded(cands, s) && Counted(s) && Drawn(cands, s)
    requires ValidChain(c, start, s.accepted) && s.pool == Replay(start, s.accepted)
    ensures var r := RunToFixpoint(c, cands, s);
      && Recorded(cands, r) && Counted(r) && Drawn(cands, r)
      && ValidChain(c, start, r.accepted) && r.pool == Replay(start, r.accepted)
      && forall k :: 0 <= k < |cands| && cands[k] !in r.accepted ==> !ValidTx(c, r.pool, cands[k])
    decreases Positions(|cands|) - s.done
  {
    var next := Pass(c, cands, 0, s);
    PassFacts(c, cands, 0, s);
    PassRecorded(c, cands, 0, s);
    PassCounted(c, cands, 0, s);
    PassDrawn(c, cands, 0, s);
    PassChain(c, cands, 0, s, start);
    if |next.accepted| == |s.accepted| {
      QuietPass(c, cands, 0, s);
    } else {
      var j :| j in next.done && j !in s.done;
      assert j in Positions(|cands|) - s.done;
      RunToFixpointSound(c, cands, next, start);
    }
  }

  /** The same guarantees, for an epoch started from `pool`. */
  lemma EpochSound(c: Crypto, pool: Pool, cands: seq<Transaction>)
    ensures var r := Epoch(c, pool, cands);
      && |r.accepted| == |r.done| && r.done <= Positions(|cands|)
      && (forall t :: t in r.accepted ==> t in cands)
      && ValidChain(c, pool, r.accepted) && r.pool == Replay(pool, r.accepted)
      && forall k :: 0 <= k < |cands| && cands[k] !in r.accepted ==> !ValidTx(c, r.pool, cands[k])
  {
    RunToFixpointSound(c, cands, Progress(pool, [], {}), pool);
  }
}
