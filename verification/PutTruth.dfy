/** What the trace of a run says about versions, writes and the answers Put returns. */
module PutTruth {
  import opened KvServer
  import opened KvSystem

  /** Event i is a write of version v to key. */
  predicate Writes(t: Trace, i: nat, key: string, v: nat) {
    Applied(t, i) && t[i].req.key == key && t[i].req.version == v
  }

  ghost predicate AppliedFor(t: Trace, id: nat) {
    exists i: nat :: i < |t| && Applied(t, i) && t[i].id == id
  }

  /**
   Only a handler left running after its attempt was given up can act late. The guard a caller can
   check before such a Put: the version it asks for is not ahead of the key.
   */
  ghost predicate NotAhead(t: Trace, id: nat) {
    IsOp(t, id) && (t[id].req.Put? ==> t[id].req.version <= VersionAt(t, id, t[id].req.key))
  }

  ghost predicate CarefulCall(t: Trace, id: nat) {
    HasAbandoned(t, id) ==> NotAhead(t, id)
  }

  ghost predicate Careful(t: Trace) {
    forall id: nat :: IsOp(t, id) ==> CarefulCall(t, id)
  }

  /** Every Put from position n on asks for a version that its key has reached. */
  ghost predicate NotAheadFrom(t: Trace, n: nat) {
    forall id: nat {:trigger NotAhead(t, id)} :: n <= id && IsOp(t, id) ==> NotAhead(t, id)
  }

  /** Later events do not change whether a call was ahead. */
  lemma NotAheadPrefix(t: Trace, u: Trace, id: nat)
    requires t <= u && id < |t|
    ensures NotAhead(t, id) <==> NotAhead(u, id)
  {
    assert u[..id] == t[..id];
  }

  lemma NotAheadIsCareful(t: Trace)
    requires NotAheadFrom(t, 0)
    ensures Careful(t)
  {
    forall id: nat | IsOp(t, id) ensures CarefulCall(t, id) {
      assert NotAhead(t, id);
    }
  }

  lemma StoreStep(t: Trace, i: nat)
    requires i < |t|
    ensures StoreAfter(t[..i + 1]) ==
            if t[i].Executed? then NextStore(StoreAfter(t[..i]), t[i].req) else StoreAfter(t[..i])
  {
    assert t[..i + 1][..i] == t[..i];
  }

  lemma {:induction false} StoredVersionsPositive(t: Trace)
    ensures VersionsPositive(StoreAfter(t))
    decreases |t|
  {
    if t != [] {
      StoredVersionsPositive(t[..|t| - 1]);
    }
  }

  lemma {:induction false} VersionsGrow(t: Trace, i: nat, j: nat, key: string)
    requires i <= j <= |t|
    ensures VersionAt(t, i, key) <= VersionAt(t, j, key)
    decreases j
  {
    if i < j {
      VersionsGrow(t, i, j - 1, key);
      StoreStep(t, j - 1);
    }
  }

  /** A write finds exactly the version it asked for and leaves the next one. */
  lemma WriteBumps(t: Trace, i: nat)
    requires WellFormed(t) && i < |t| && t[i].Executed? && t[i].req.Put?
    ensures Applied(t, i) <==> VersionAt(t, i, t[i].req.key) == t[i].req.version
    ensures Applied(t, i) ==> VersionAt(t, i + 1, t[i].req.key) == t[i].req.version + 1
    ensures !Applied(t, i) ==> StoreAfter(t[..i + 1]) == StoreAfter(t[..i])
  {
    assert EventOk(t[..i], t[i]);
    StoreStep(t, i);
  }

  /** Over a whole run at most one Put succeeds for each key and version. */
  lemma OneWritePerVersion(t: Trace, i: nat, j: nat, key: string, v: nat)
    requires WellFormed(t) && Writes(t, i, key, v) && Writes(t, j, key, v)
    ensures i == j
  {
    WriteBumps(t, i);
    WriteBumps(t, j);
    if i < j {
      VersionsGrow(t, i + 1, j, key);
    } else if j < i {
      VersionsGrow(t, j + 1, i, key);
    }
  }

  /** Below the current version, every version was written by someone. */
  lemma {:induction false} EveryVersionWritten(t: Trace, n: nat, key: string, v: nat) returns (i: nat)
    requires WellFormed(t) && n <= |t| && v < VersionAt(t, n, key)
    ensures i < n && Writes(t, i, key, v)
    decreases n
  {
    var m := n - 1;
    StoreStep(t, m);
    if v < VersionAt(t, m, key) {
      i := EveryVersionWritten(t, m, key, v);
    } else {
      WriteBumps(t, m);
      i := m;
    }
  }

  /** The stored value is the one written at the version below the current one. */
  lemma {:induction false} LastWriteReads(t: Trace, i: nat, n: nat, key: string, v: nat)
    requires WellFormed(t) && Writes(t, i, key, v) && i < n <= |t| && VersionAt(t, n, key) == v + 1
    ensures ValueOf(StoreAfter(t[..n]), key) == t[i].req.value
    decreases n
  {
    WriteBumps(t, i);
    StoreStep(t, n - 1);
    if i < n - 1 {
      VersionsGrow(t, i + 1, n - 1, key);
      VersionsGrow(t, n - 1, n, key);
      LastWriteReads(t, i, n - 1, key, v);
    } else {
      assert EventOk(t[..i], t[i]);
    }
  }

  lemma RequestOf(t: Trace, i: nat)
    requires WellFormed(t) && i < |t| && t[i].Executed?
    ensures IsOp(t, t[i].id) && t[i].id < i && t[t[i].id].req == t[i].req
  {
    assert EventOk(t[..i], t[i]);
  }

  /** Two attempts of one Put never both write. */
  lemma OneWritePerCall(t: Trace, i: nat, j: nat)
    requires WellFormed(t) && Applied(t, i) && Applied(t, j) && t[i].id == t[j].id
    ensures i == j
  {
    RequestOf(t, i);
    RequestOf(t, j);
    OneWritePerVersion(t, i, j, t[i].req.key, t[i].req.version);
  }

  lemma ReturnOf(t: Trace, r: nat)
    requires WellFormed(t) && r < |t| && t[r].Returned?
    ensures IsOp(t, t[r].id) && t[r].id < t[r].at < r && t[t[r].id].req == t[r].req
    ensures t[t[r].at].Executed? && t[t[r].at].id == t[r].id && t[t[r].at].req == t[r].req
    ensures t[r].out == ClerkResult(t[t[r].at].reply, HasFailed(t[..r], t[r].id))
  {
    assert EventOk(t[..r], t[r]);
    RequestOf(t, t[r].at);
  }

  /** Nothing of a call is lost, given up or returned after it returned. */
  lemma NothingAfterReturn(t: Trace, r: nat, q: nat)
    requires WellFormed(t) && r < q < |t| && t[r].Returned?
    ensures t[q] != Lost(t[r].id) && t[q] != Abandoned(t[r].id)
    ensures !(t[q].Returned? && t[q].id == t[r].id)
  {
    assert EventOk(t[..q], t[q]);
    assert t[..q][r] == t[r];
  }

  lemma OneReturnPerCall(t: Trace, r: nat, q: nat)
    requires WellFormed(t) && r < |t| && q < |t| && t[r].Returned? && t[q].Returned? && t[r].id == t[q].id
    ensures r == q
  {
    if r < q {
      NothingAfterReturn(t, r, q);
    } else if q < r {
      NothingAfterReturn(t, q, r);
    }
  }

  lemma NoFailureEver(t: Trace, r: nat)
    requires WellFormed(t) && r < |t| && t[r].Returned? && !HasFailed(t[..r], t[r].id)
    ensures !HasFailed(t, t[r].id)
  {
    forall f | 0 <= f < |t| ensures t[f] != Lost(t[r].id) && t[f] != Abandoned(t[r].id) {
      if f < r {
        assert t[..r][f] == t[f];
      } else if r < f {
        NothingAfterReturn(t, r, f);
      }
    }
  }

  lemma SecondRunNeedsFailure(t: Trace, i: nat, j: nat)
    requires WellFormed(t) && i < j < |t| && t[i].Executed? && t[j].Executed? && t[i].id == t[j].id
    ensures HasFailed(t, t[i].id)
  {
    var id := t[i].id;
    assert EventOk(t[..j], t[j]);
    assert t[..j][i] == t[i];
    var f :| 0 <= f < j && (t[..j][f] == Lost(id) || t[..j][f] == Abandoned(id));
    assert t[f] == t[..j][f];
  }

  /** A call that returned on its first attempt had exactly that one handler run. */
  lemma FirstTry(t: Trace, r: nat, i: nat)
    requires WellFormed(t) && r < |t| && t[r].Returned? && !HasFailed(t[..r], t[r].id)
    requires i < |t| && t[i].Executed? && t[i].id == t[r].id
    ensures i == t[r].at
  {
    ReturnOf(t, r);
    NoFailureEver(t, r);
    if i < t[r].at {
      SecondRunNeedsFailure(t, i, t[r].at);
    } else if t[r].at < i {
      SecondRunNeedsFailure(t, t[r].at, i);
    }
  }

  /** Without a stray handler, a call runs nothing after it returned. */
  lemma LateNeedsStray(t: Trace, r: nat, i: nat)
    requires WellFormed(t) && r < i < |t| && t[r].Returned? && t[i].Executed? && t[i].id == t[r].id
    ensures HasAbandoned(t, t[r].id)
  {
    assert EventOk(t[..i], t[i]);
    assert t[..i][r] == t[r];
    var a :| 0 <= a < i && t[..i][a] == Abandoned(t[r].id);
    assert t[a] == Abandoned(t[r].id);
  }

  /** Once a Put that is not ahead has met the server, its version is spent for good. */
  lemma SpentAfterRun(t: Trace, e: nat, n: nat)
    requires WellFormed(t) && e < n <= |t| && t[e].Executed? && t[e].req.Put? && NotAhead(t, t[e].id)
    ensures t[e].req.version < VersionAt(t, n, t[e].req.key)
  {
    RequestOf(t, e);
    WriteBumps(t, e);
    VersionsGrow(t, t[e].id, e, t[e].req.key);
    VersionsGrow(t, e, n, t[e].req.key);
    VersionsGrow(t, e + 1, n, t[e].req.key);
  }

  /** A careful Put writes only between its invocation and its return. */
  lemma WritesBeforeReturn(t: Trace, r: nat, i: nat)
    requires WellFormed(t) && r < |t| && t[r].Returned? && CarefulCall(t, t[r].id)
    requires Applied(t, i) && t[i].id == t[r].id
    ensures t[r].id < i < r
  {
    RequestOf(t, i);
    ReturnOf(t, r);
    if r < i {
      LateNeedsStray(t, r, i);
      SpentAfterRun(t, t[r].at, i);
      WriteBumps(t, i);
    }
  }

  /** The answer OK: written exactly once, between invocation and return. */
  lemma OkMeansOnce(t: Trace, r: nat, i: nat)
    requires WellFormed(t) && r < |t| && t[r].Returned? && t[r].req.Put? && t[r].out.err == OK
    requires i < |t|
    ensures Applied(t, i) && t[i].id == t[r].id <==> i == t[r].at
    ensures t[r].id < t[r].at < r
  {
    ReturnOf(t, r);
    assert Applied(t, t[r].at);
    if Applied(t, i) && t[i].id == t[r].id {
      OneWritePerCall(t, i, t[r].at);
    }
  }

  /** The answer ErrVersion: never written, with or without strays. */
  lemma ErrVersionMeansNever(t: Trace, r: nat)
    requires WellFormed(t) && r < |t| && t[r].Returned? && t[r].out.err == ErrVersion
    ensures !AppliedFor(t, t[r].id)
  {
    ReturnOf(t, r);
    if i: nat :| i < |t| && Applied(t, i) && t[i].id == t[r].id {
      FirstTry(t, r, i);
    }
  }

  /** A handler run that answers ErrNoKey finds version 0 and is asked for more. */
  lemma NoKeyMeansZero(t: Trace, at: nat)
    requires WellFormed(t) && at < |t| && t[at].Executed? && t[at].req.Put? && t[at].reply.err == ErrNoKey
    ensures VersionAt(t, at, t[at].req.key) == 0 < t[at].req.version
  {
    assert EventOk(t[..at], t[at]);
  }

  /** A run after the answering one is a stray's. */
  lemma RunAfterAnswer(t: Trace, r: nat, i: nat)
    requires WellFormed(t) && r < |t| && t[r].Returned? && t[r].at < i < r && t[i].Executed? && t[i].id == t[r].id
    ensures HasAbandoned(t, t[r].id)
  {
    assert EventOk(t[..r], t[r]) && Answering(t[..r], t[r].id, t[r].at);
    assert t[..r][i].Executed?;
    var a :| 0 <= a < r && t[..r][a] == Abandoned(t[r].id);
    assert t[a] == Abandoned(t[r].id);
  }

  /** The answer ErrNoKey: never written, unless a stray Put asked for a version ahead of the key. */
  lemma ErrNoKeyMeansNever(t: Trace, r: nat)
    requires WellFormed(t) && r < |t| && t[r].Returned? && CarefulCall(t, t[r].id)
    requires t[r].req.Put? && t[r].out.err == ErrNoKey
    ensures !AppliedFor(t, t[r].id)
  {
    ReturnOf(t, r);
    var at, key := t[r].at, t[r].req.key;
    NoKeyMeansZero(t, at);
    if i: nat :| i < |t| && Applied(t, i) && t[i].id == t[r].id {
      WritesBeforeReturn(t, r, i);
      RequestOf(t, i);
      WriteBumps(t, i);
      if i < at {
        VersionsGrow(t, i + 1, at, key);
      } else if at < i {
        RunAfterAnswer(t, r, i);
        VersionsGrow(t, t[r].id, at, key);
      }
    }
  }

  /**
   What a Put answer promises: OK is written exactly once, ErrVersion and ErrNoKey never, ErrMaybe at
   most once, and every write falls between invocation and return.
   */
  ghost predicate Truthful(t: Trace, r: nat)
    requires r < |t| && t[r].Returned?
  {
    var id := t[r].id;
    && (t[r].out.err == OK ==> AppliedFor(t, id))
    && (t[r].out.err == ErrVersion || t[r].out.err == ErrNoKey ==> !AppliedFor(t, id))
    && (forall i: nat, j: nat :: Applied(t, i) && Applied(t, j) && t[i].id == id && t[j].id == id ==> i == j)
    && (forall i: nat :: Applied(t, i) && t[i].id == id ==> id < i < r)
  }

  lemma AnswerTruthful(t: Trace, r: nat)
    requires WellFormed(t) && r < |t| && t[r].Returned? && t[r].req.Put? && CarefulCall(t, t[r].id)
    ensures Truthful(t, r)
  {
    var id := t[r].id;
    if t[r].out.err == OK {
      OkMeansOnce(t, r, t[r].at);
    } else if t[r].out.err == ErrVersion {
      ErrVersionMeansNever(t, r);
    } else if t[r].out.err == ErrNoKey {
      ErrNoKeyMeansNever(t, r);
    }
    forall i: nat, j: nat | Applied(t, i) && Applied(t, j) && t[i].id == id && t[j].id == id ensures i == j {
      OneWritePerCall(t, i, j);
    }
    forall i: nat | Applied(t, i) && t[i].id == id ensures id < i < r {
      WritesBeforeReturn(t, r, i);
    }
  }

  /** Over every run, every answer of a careful Put is truthful. */
  lemma PutAnswersAreTruthful(run: seq<Step>, r: nat)
    requires Possible(INIT, run)
    requires r < |After(INIT, run).trace| && After(INIT, run).trace[r].Returned? && After(INIT, run).trace[r].req.Put?
    requires CarefulCall(After(INIT, run).trace, After(INIT, run).trace[r].id)
    ensures Truthful(After(INIT, run).trace, r)
  {
    InitInv();
    RunKeepsInv(INIT, run);
    AnswerTruthful(After(INIT, run).trace, r);
  }

  /** The answer about to be delivered. */
  function PendingAnswer(k: Clerk): Reply
    requires k.Calling? && k.phase.Answered?
  {
    ClerkResult(k.phase.reply, k.failed > 0)
  }

  /** A Put about to be refused has not been written. */
  lemma RefusedNeverWritten(s: State, c: nat)
    requires Inv(s) && Enabled(s, Deliver(c)) && NotAhead(s.trace, ClerkOf(s, c).id)
    requires s.trace[ClerkOf(s, c).id].req.Put?
    requires PendingAnswer(ClerkOf(s, c)).err == ErrVersion || PendingAnswer(ClerkOf(s, c)).err == ErrNoKey
    ensures !AppliedFor(s.trace, ClerkOf(s, c).id)
  {
    var id, n := ClerkOf(s, c).id, |s.trace|;
    var e := EventOf(s, Deliver(c));
    StepKeepsInv(s, Deliver(c));
    StepAppends(s, Deliver(c));
    var t := s.trace + [e];
    assert CallOk(s.trace, c, s.clerks[c]);
    assert t[n] == e && t[id] == s.trace[id] && t[..id] == s.trace[..id];
    AnswerTruthful(t, n);
    AppliedForExtends(s.trace, e, id);
  }

  lemma AppliedForExtends(t: Trace, e: Event, id: nat)
    ensures AppliedFor(t, id) ==> AppliedFor(t + [e], id)
  {
    if i: nat :| i < |t| && Applied(t, i) && t[i].id == id {
      assert Applied(t + [e], i) && (t + [e])[i].id == id;
    }
  }
}
