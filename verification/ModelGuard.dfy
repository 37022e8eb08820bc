/** Exactly when the per-key model rejects a run: when a Put asks for a version of a key that is not stored. */
module ModelGuard {
  import opened KvServer
  import opened KvSystem
  import opened PutTruth
  import opened Linearizability
  import opened LateWrites
  import opened BrokenOrders
  import KvModel

  ghost predicate Explained(t: Trace) {
    exists h :: KvModel.Explains(t, h)
  }

  /** The call returned ErrNoKey. */
  ghost predicate ToldNoKey(t: Trace, id: nat) {
    exists r: nat :: r < |t| && t[r].Returned? && t[r].id == id && t[r].out.err == ErrNoKey
  }

  /** The guard of the branch that answers ErrNoKey, as it stands before the call. */
  predicate Missing(st: Store, req: Request) {
    req.Put? && req.version > 0 && req.key !in st
  }

  /** A Put told ErrNoKey met that guard already when it was invoked. */
  lemma ToldMeansMissing(t: Trace, r: nat)
    requires WellFormed(t) && r < |t| && t[r].Returned? && t[r].req.Put? && t[r].out.err == ErrNoKey
    ensures IsOp(t, t[r].id) && Missing(StoreAfter(t[..t[r].id]), t[t[r].id].req)
  {
    ReturnOf(t, r);
    var id, at, key := t[r].id, t[r].at, t[r].req.key;
    assert EventOk(t[..at], t[at]);
    VersionsGrow(t, id, at, key);
    StoredVersionsPositive(t[..id]);
  }

  lemma NotAheadNeverTold(t: Trace, id: nat)
    requires WellFormed(t) && NotAhead(t, id) && t[id].req.Put?
    ensures !ToldNoKey(t, id)
  {
    if r: nat :| r < |t| && t[r].Returned? && t[r].id == id && t[r].out.err == ErrNoKey {
      ReturnOf(t, r);
      ToldMeansMissing(t, r);
    }
  }

  /** The call's own answer arrives in three steps when nothing is lost. */
  lemma MissingIsTold(s: State, c: nat, req: Request)
    requires ClerkOf(s, c).Idle? && Missing(s.store, req)
    ensures Possible(s, Round(c, req)) && ToldNoKey(After(s, Round(c, req)).trace, |s.trace|)
  {
    RoundRuns(s, c, req);
    var t, n := After(s, Round(c, req)).trace, |s.trace|;
    assert t[n + 2] == Returned(n, req, Reply("", 0, ErrNoKey), n + 1);
  }

  /** A Put can return ErrNoKey if and only if it asks for a positive version of a key not stored when it is invoked. */
  lemma ToldIffMissing(s: State, c: nat, req: Request)
    requires Inv(s) && ClerkOf(s, c).Idle? && req.Put?
    ensures (exists run :: run != [] && run[0] == Invoke(c, req) && Possible(s, run) &&
                           ToldNoKey(After(s, run).trace, |s.trace|))
            <==> Missing(s.store, req)
  {
    if Missing(s.store, req) {
      MissingIsTold(s, c, req);
      assert Round(c, req)[0] == Invoke(c, req);
    }
    forall run | run != [] && run[0] == Invoke(c, req) && Possible(s, run) && ToldNoKey(After(s, run).trace, |s.trace|)
      ensures Missing(s.store, req)
    {
      RunStart(s, c, req, run);
      var t, n := After(s, run).trace, |s.trace|;
      var r: nat :| r < |t| && t[r].Returned? && t[r].id == n && t[r].out.err == ErrNoKey;
      ReturnOf(t, r);
      ToldMeansMissing(t, r);
    }
  }

  /** A record without Puts ahead of their keys is explained by the model. */
  lemma NotAheadExplained(t: Trace)
    requires WellFormed(t) && NotAheadFrom(t, 0)
    ensures Explained(t)
  {
    forall r | 0 <= r < |t| && t[r].Returned? && t[r].req.Put? ensures t[r].out.err != ErrNoKey {
      ReturnOf(t, r);
      assert NotAhead(t, t[r].id);
      NotAheadNeverTold(t, t[r].id);
    }
    NotAheadIsCareful(t);
    KvModel.ExplainedIffNoMissing(t);
  }

  /** Every run in which no Put is ahead of its key when invoked has an order that the model accepts. */
  lemma NotAheadRunsPassTheCheck(run: seq<Step>)
    requires Possible(INIT, run) && NotAheadFrom(After(INIT, run).trace, 0)
    ensures Explained(After(INIT, run).trace)
  {
    InitInv();
    RunKeepsInv(INIT, run);
    NotAheadExplained(After(INIT, run).trace);
  }

  /** The run of one call without losses, by a client that was not ahead before. */
  lemma OneMoreRound(s: State, c: nat, req: Request)
    requires Inv(s) && ClerkOf(s, c).Idle? && NotAheadFrom(s.trace, 0) && Possible(s, Round(c, req))
    ensures var t := After(s, Round(c, req)).trace;
            WellFormed(t) && Careful(t) && NotAheadFrom(t, |s.trace| + 1)
  {
    RoundRuns(s, c, req);
    RunKeepsInv(s, Round(c, req));
    var t, n := After(s, Round(c, req)).trace, |s.trace|;
    NoLaterCalls(s.trace, n, c, req, Answer(s.store, req));
    forall id: nat | IsOp(t, id) ensures CarefulCall(t, id) {
      if id < n {
        assert IsOp(s.trace, id) && NotAhead(s.trace, id);
        NotAheadPrefix(s.trace, t, id);
      } else {
        NotAbandoned(s, c, req);
      }
    }
  }

  lemma NoLaterCalls(past: Trace, n: nat, c: nat, req: Request, reply: Reply)
    requires n == |past|
    ensures NotAheadFrom(past + RoundEvents(n, c, req, reply), n + 1)
  {
    var t := past + RoundEvents(n, c, req, reply);
    forall id: nat | n + 1 <= id ensures !IsOp(t, id) {
      assert id == n + 1 || id == n + 2 || id >= |t|;
    }
  }

  /** No attempt of the new call is given up. */
  lemma NotAbandoned(s: State, c: nat, req: Request)
    requires Inv(s) && ClerkOf(s, c).Idle? && Possible(s, Round(c, req))
    ensures !HasAbandoned(After(s, Round(c, req)).trace, |s.trace|)
  {
    RoundRuns(s, c, req);
    var t, n := After(s, Round(c, req)).trace, |s.trace|;
    FreshName(s.trace);
    forall i | 0 <= i < |t| ensures t[i] != Abandoned(n) {
      if i < n {
        assert t[i] == s.trace[i];
      } else {
        assert i == n || i == n + 1 || i == n + 2;
      }
    }
  }

  /** A careful run that the model does not explain has a Put that met the guard: here, the only one that may. */
  lemma UnexplainedMeansMissing(s: State, c: nat, req: Request, run: seq<Step>)
    requires Inv(s) && NotAheadFrom(s.trace, 0) && req.Put?
    requires run != [] && run[0] == Invoke(c, req) && Possible(s, run)
    requires Careful(After(s, run).trace) && NotAheadFrom(After(s, run).trace, |s.trace| + 1)
    requires !Explained(After(s, run).trace)
    ensures Missing(s.store, req)
  {
    RunStart(s, c, req, run);
    var t, n := After(s, run).trace, |s.trace|;
    KvModel.ExplainedIffNoMissing(t);
    var r :| 0 <= r < |t| && t[r].Returned? && t[r].req.Put? && t[r].out.err == ErrNoKey;
    ReturnOf(t, r);
    ToldMeansMissing(t, r);
    var id := t[r].id;
    if id != n {
      assert NotAhead(t, id) by {
        if id < n {
          assert IsOp(s.trace, id) && NotAhead(s.trace, id);
          NotAheadPrefix(s.trace, t, id);
        }
      }
      NotAheadNeverTold(t, id);
    }
  }

  lemma MissingRejected(s: State, c: nat, req: Request) returns (run: seq<Step>)
    requires Inv(s) && NotAheadFrom(s.trace, 0) && ClerkOf(s, c).Idle? && Missing(s.store, req)
    ensures run != [] && run[0] == Invoke(c, req) && Possible(s, run)
    ensures Careful(After(s, run).trace) && NotAheadFrom(After(s, run).trace, |s.trace| + 1)
    ensures !Explained(After(s, run).trace)
  {
    run := Round(c, req);
    MissingIsTold(s, c, req);
    OneMoreRound(s, c, req);
    RunStart(s, c, req, run);
    ToldNotExplained(After(s, run).trace, |s.trace|);
  }

  /**
   The exact condition for the model's check, checkable before the call. In a state reached by Puts that
   were not ahead: a Put can end in a careful run that the model rejects, all later Puts again not being
   ahead, if and only if it asks for a positive version of a key that is not stored.
   */
  lemma RejectedIffMissing(s: State, c: nat, req: Request)
    requires Inv(s) && NotAheadFrom(s.trace, 0) && ClerkOf(s, c).Idle? && req.Put?
    ensures (exists run :: run != [] && run[0] == Invoke(c, req) && Possible(s, run) &&
                           Careful(After(s, run).trace) && NotAheadFrom(After(s, run).trace, |s.trace| + 1) &&
                           !Explained(After(s, run).trace))
            <==> Missing(s.store, req)
  {
    if Missing(s.store, req) {
      var run := MissingRejected(s, c, req);
    }
    forall run | run != [] && run[0] == Invoke(c, req) && Possible(s, run) && Careful(After(s, run).trace) &&
                 NotAheadFrom(After(s, run).trace, |s.trace| + 1) && !Explained(After(s, run).trace)
      ensures Missing(s.store, req)
    {
      UnexplainedMeansMissing(s, c, req, run);
    }
  }

  lemma ToldNotExplained(t: Trace, id: nat)
    requires WellFormed(t) && Careful(t) && IsOp(t, id) && t[id].req.Put? && ToldNoKey(t, id)
    ensures !Explained(t)
  {
    var r: nat :| r < |t| && t[r].Returned? && t[r].id == id && t[r].out.err == ErrNoKey;
    ReturnOf(t, r);
    KvModel.ExplainedIffNoMissing(t);
  }

  /** The smallest such run: one client, nothing lost, a first Put at version 1. */
  lemma FirstPutAtOneRejected(k: string, x: string)
    ensures Possible(INIT, Round(0, Put(k, x, 1)))
    ensures Careful(After(INIT, Round(0, Put(k, x, 1))).trace)
    ensures !Explained(After(INIT, Round(0, Put(k, x, 1))).trace)
  {
    InitInv();
    MissingIsTold(INIT, 0, Put(k, x, 1));
    OneMoreRound(INIT, 0, Put(k, x, 1));
    RoundRuns(INIT, 0, Put(k, x, 1));
    var t := After(INIT, Round(0, Put(k, x, 1))).trace;
    assert t[0] == Invoked(0, Put(k, x, 1));
    ToldNotExplained(t, 0);
  }
}
