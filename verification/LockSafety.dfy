/** What the lock guarantees over every run. */
module LockSafety {
  import opened KvServer
  import opened KvSystem
  import opened PutTruth
  import opened Lock

  /** From the return of Acquire until the holder's "" replaces its token in the store. */
  predicate Holds(s: LState, c: nat) {
    var pc := PcOf(s, c);
    pc.Holding? || pc.RelGetting? || ((pc.RelReading? || pc.RelPutting?) && ValueOf(s.kv.store, s.key) == pc.tok)
  }

  lemma OneHolder(s: LState, c: nat, d: nat)
    requires LockInv(s) && Holds(s, c) && Holds(s, d)
    ensures c == d
  {
    ClientAt(s, c);
    ClientAt(s, d);
  }

  /**
   Mutual exclusion: in every interleaving of any number of clients, with any losses and stray handlers, at
   most one client is between a returned Acquire and the moment its Release has cleared the lock.
   */
  lemma MutualExclusion(key: string, run: seq<LStep>, c: nat, d: nat)
    requires LPossible(LockInit(key), run)
    requires Holds(LAfter(LockInit(key), run), c) && Holds(LAfter(LockInit(key), run), d)
    ensures c == d
  {
    LockInitInv(key);
    LockRunKeepsInv(LockInit(key), run);
    OneHolder(LAfter(LockInit(key), run), c, d);
  }

  lemma RunParity(key: string, run: seq<LStep>)
    requires LPossible(LockInit(key), run)
    ensures Parity(ViewOf(LAfter(LockInit(key), run)))
  {
    LockInitInv(key);
    LockRunKeepsInv(LockInit(key), run);
  }

  lemma {:induction false} RunKeepsKey(s: LState, run: seq<LStep>)
    requires LPossible(s, run)
    ensures LAfter(s, run).key == s.key
    decreases |run|
  {
    if run != [] {
      RunKeepsKey(LDo(s, run[0]), run[1..]);
    }
  }

  /** In every reachable state the stored lock value is non-empty exactly when its version is odd. */
  lemma LockedIffOdd(key: string, run: seq<LStep>)
    requires LPossible(LockInit(key), run)
    ensures ValueOf(LAfter(LockInit(key), run).kv.store, key) != "" <==>
            VersionOf(LAfter(LockInit(key), run).kv.store, key) % 2 == 1
  {
    RunParity(key, run);
    RunKeepsKey(LockInit(key), run);
  }

  /** The client whose Put ran at event i. */
  function WriterOf(t: Trace, i: nat): nat
    requires i < |t| && t[i].Executed? && IsOp(t, t[i].id)
  {
    t[t[i].id].client
  }

  /** Tokens are put at even versions, "" at odd versions that the same client wrote up to. */
  ghost predicate LockTrace(t: Trace, key: string) {
    WellFormed(t) &&
    forall id: nat {:trigger IsLockPut(t, key, id)} :: IsLockPut(t, key, id) ==>
      if t[id].req.value == "" then t[id].req.version % 2 == 1 && WrittenBy(t, key, t[id].req.version - 1, t[id].client)
      else t[id].req.version % 2 == 0
  }

  lemma InvTrace(s: LState)
    requires LockInv(s)
    ensures LockTrace(s.kv.trace, s.key)
  {
    forall id: nat | IsLockPut(s.kv.trace, s.key, id)
      ensures PutOk(ViewOf(s), s.kv.trace, id, PcOf(s, s.kv.trace[id].client), ClerkOf(s.kv, s.kv.trace[id].client))
    {
      PutAt(s, id);
    }
  }

  lemma RunTrace(key: string, run: seq<LStep>)
    requires LPossible(LockInit(key), run)
    ensures LockTrace(LAfter(LockInit(key), run).kv.trace, key)
  {
    LockInitInv(key);
    LockRunKeepsInv(LockInit(key), run);
    RunKeepsKey(LockInit(key), run);
    InvTrace(LAfter(LockInit(key), run));
  }

  /** A write at an odd version clears the lock, and only for the client that claimed it. */
  lemma ClearedByHolder(t: Trace, key: string, i: nat, j: nat, v: nat)
    requires LockTrace(t, key) && Writes(t, i, key, v) && Writes(t, j, key, v + 1) && v % 2 == 0
    ensures IsOp(t, t[i].id) && IsOp(t, t[j].id)
    ensures t[i].req.value != "" && t[j].req.value == "" && WriterOf(t, i) == WriterOf(t, j)
  {
    RequestOf(t, i);
    RequestOf(t, j);
    assert IsLockPut(t, key, t[i].id) && IsLockPut(t, key, t[j].id);
    var k: nat :| k < |t| && Writes(t, k, key, v) && IsOp(t, t[k].id) && t[t[k].id].client == t[t[j].id].client;
    OneWritePerVersion(t, i, k, key, v);
  }

  /** Over every run the writes to the lock alternate: a token, then "" by the same client. */
  lemma WritesAlternate(key: string, run: seq<LStep>, i: nat, j: nat, v: nat)
    requires LPossible(LockInit(key), run) && v % 2 == 0
    requires Writes(LAfter(LockInit(key), run).kv.trace, i, key, v)
    requires Writes(LAfter(LockInit(key), run).kv.trace, j, key, v + 1)
    ensures var t := LAfter(LockInit(key), run).kv.trace;
            && IsOp(t, t[i].id) && IsOp(t, t[j].id)
            && t[i].req.value != "" && t[j].req.value == "" && WriterOf(t, i) == WriterOf(t, j)
  {
    RunTrace(key, run);
    ClearedByHolder(LAfter(LockInit(key), run).kv.trace, key, i, j, v);
  }

  /** The one write of version h is client c's "". */
  ghost predicate ClearedBy(t: Trace, key: string, h: nat, c: nat) {
    exists j: nat ::
      && Writes(t, j, key, h) && IsOp(t, t[j].id) && t[j].req.value == "" && WriterOf(t, j) == c
      && forall i: nat :: Writes(t, i, key, h) ==> i == j
  }

  lemma OnlyWrite(t: Trace, key: string, h: nat, j: nat)
    requires WellFormed(t) && Writes(t, j, key, h)
    ensures forall i: nat :: Writes(t, i, key, h) ==> i == j
  {
    forall i: nat | Writes(t, i, key, h) ensures i == j {
      OneWritePerVersion(t, i, j, key, h);
    }
  }

  lemma ClearedHere(t: Trace, key: string, h: nat, c: nat, i: nat, j: nat)
    requires LockTrace(t, key) && h % 2 == 1 && Writes(t, i, key, h - 1) && Writes(t, j, key, h)
    requires IsOp(t, t[i].id) && WriterOf(t, i) == c
    ensures ClearedBy(t, key, h, c)
  {
    ClearedByHolder(t, key, i, j, h - 1);
    OnlyWrite(t, key, h, j);
  }

  lemma ClaimedThenCleared(t: Trace, key: string, h: nat, c: nat)
    requires LockTrace(t, key) && h % 2 == 1 && WrittenBy(t, key, h - 1, c)
    requires h < VersionOf(StoreAfter(t), key)
    ensures ClearedBy(t, key, h, c)
  {
    assert t[..|t|] == t;
    var j := EveryVersionWritten(t, |t|, key, h);
    var i: nat :| i < |t| && Writes(t, i, key, h - 1) && IsOp(t, t[i].id) && t[t[i].id].client == c;
    ClearedHere(t, key, h, c, i, j);
  }

  lemma ReleaseDone(s: LState, c: nat, tok: string)
    requires LockInv(s) && LEnabled(s, Return(c, tok))
    requires PcOf(s, c).RelReading? && PcOf(LDo(s, Return(c, tok)), c).Out?
    ensures PcOf(s, c).ver % 2 == 1 && WrittenBy(s.kv.trace, s.key, PcOf(s, c).ver - 1, c)
    ensures PcOf(s, c).ver < VersionOf(StoreAfter(s.kv.trace), s.key)
  {
    ClientAt(s, c);
  }

  /**
   When Release returns for a client that held at version ver, the one write that ever succeeds at
   ver is that client's "", so nobody else's hold was cleared.
   */
  lemma ReleaseClears(key: string, run: seq<LStep>, c: nat, tok: string)
    requires LPossible(LockInit(key), run)
    requires LEnabled(LAfter(LockInit(key), run), Return(c, tok))
    requires PcOf(LAfter(LockInit(key), run), c).RelReading?
    requires PcOf(LDo(LAfter(LockInit(key), run), Return(c, tok)), c).Out?
    ensures ClearedBy(LAfter(LockInit(key), run).kv.trace, key, PcOf(LAfter(LockInit(key), run), c).ver, c)
  {
    var s := LAfter(LockInit(key), run);
    RunTrace(key, run);
    RunKeepsKey(LockInit(key), run);
    assert PcOf(s, c).ver % 2 == 1 && WrittenBy(s.kv.trace, s.key, PcOf(s, c).ver - 1, c) &&
           PcOf(s, c).ver < VersionOf(StoreAfter(s.kv.trace), s.key) by {
      LockInitInv(key);
      LockRunKeepsInv(LockInit(key), run);
      ReleaseDone(s, c, tok);
    }
    ClaimedThenCleared(s.kv.trace, key, PcOf(s, c).ver, c);
  }
}
