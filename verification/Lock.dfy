/**
 The lock built from Get and Put alone, as per-client programs over the clerks and the lossy network.

 Between two clerk calls a client is at one of the program points below. Tokens drawn by RandValue
 are taken to be fresh and non-empty. Clients that hold or do not want the lock may use other keys.
 */
module Lock {
  import opened KvServer
  import opened KvSystem
  import opened PutTruth

  /** In the last four points, tok and ver are the token and the version the client holds with. */
  datatype Pc =
    | Out
    | Getting
    | Claiming(tok: string, ver: nat, creating: bool)
    | Rereading(tok: string)
    | Holding(tok: string, ver: nat)
    | RelGetting(tok: string, ver: nat)
    | RelReading(tok: string, ver: nat, seen: nat)
    | RelPutting(tok: string, ver: nat, seen: nat, at: nat)

  datatype LState = LState(key: string, kv: State, pcs: map<nat, Pc>, owner: map<string, nat>)

  datatype LStep =
    | Net(step: Step)
    | StartAcquire(c: nat)
    | StartRelease(c: nat)
    | Call(c: nat)
    | Other(c: nat, req: Request)
    | Return(c: nat, tok: string)

  function LockInit(key: string): LState {
    LState(key, INIT, map[], map[])
  }

  function PcOf(s: LState, c: nat): Pc {
    if c in s.pcs then s.pcs[c] else Out
  }

  /** Points at which the client's next move is a clerk call on the lock key. */
  predicate Calls(pc: Pc) {
    !pc.Out? && !pc.Holding?
  }

  function NextReq(key: string, pc: Pc): Request
    requires Calls(pc)
  {
    match pc
    case Claiming(tok, ver, _) => Put(key, tok, ver)
    case RelPutting(_, _, _, at) => Put(key, "", at)
    case _ => Get(key)
  }

  /** Where the program goes when its clerk call answers out; tok is the fresh token. */
  function AfterReply(pc: Pc, out: Reply, tok: string): Pc
    requires Calls(pc)
  {
    match pc
    case Getting =>
      if out.err == ErrNoKey then Claiming(tok, 0, true)
      else if out.value == "" then Claiming(tok, out.version, false)
      else Getting
    case Claiming(mine, ver, creating) =>
      if out.err == OK then Holding(mine, ver + 1)
      else if out.err == ErrMaybe && !creating then Rereading(mine)
      else Getting
    case Rereading(mine) =>
      if out.err != OK then Rereading(mine)
      else if out.value == mine then Holding(mine, out.version)
      else Getting
    case RelGetting(mine, ver) => RelReading(mine, ver, out.version)
    case RelReading(mine, ver, seen) =>
      if out.err != OK then pc
      else if seen < out.version then Out
      else RelPutting(mine, ver, seen, out.version)
    case RelPutting(mine, ver, seen, _) => RelReading(mine, ver, seen)
  }

  predicate LEnabled(s: LState, step: LStep) {
    match step
    case Net(st) => !st.Invoke? && !st.Deliver? && Enabled(s.kv, st)
    case StartAcquire(c) => ClerkOf(s.kv, c).Idle? && PcOf(s, c).Out?
    case StartRelease(c) => ClerkOf(s.kv, c).Idle? && PcOf(s, c).Holding?
    case Call(c) => ClerkOf(s.kv, c).Idle? && Calls(PcOf(s, c))
    case Other(c, req) => ClerkOf(s.kv, c).Idle? && !Calls(PcOf(s, c)) && req.key != s.key
    case Return(c, tok) => Enabled(s.kv, Deliver(c)) && tok != "" && tok !in s.owner
  }

  function LDo(s: LState, step: LStep): LState
    requires LEnabled(s, step)
  {
    match step
    case Net(st) => s.(kv := Do(s.kv, st))
    case StartAcquire(c) => s.(pcs := s.pcs[c := Getting])
    case StartRelease(c) => s.(pcs := s.pcs[c := RelGetting(PcOf(s, c).tok, PcOf(s, c).ver)])
    case Call(c) => s.(kv := Do(s.kv, Invoke(c, NextReq(s.key, PcOf(s, c)))))
    case Other(c, req) => s.(kv := Do(s.kv, Invoke(c, req)))
    case Return(c, tok) =>
      var k, pc := ClerkOf(s.kv, c), PcOf(s, c);
      if Calls(pc) then
        var pc' := AfterReply(pc, ClerkResult(k.phase.reply, k.failed > 0), tok);
        s.(kv := Do(s.kv, Deliver(c)), pcs := s.pcs[c := pc'],
           owner := if pc'.Claiming? then s.owner[tok := c] else s.owner)
      else
        s.(kv := Do(s.kv, Deliver(c)))
  }

  predicate LPossible(s: LState, run: seq<LStep>)
    decreases |run|
  {
    run == [] || (LEnabled(s, run[0]) && LPossible(LDo(s, run[0]), run[1..]))
  }

  function LAfter(s: LState, run: seq<LStep>): LState
    requires LPossible(s, run)
    decreases |run|
  {
    if run == [] then s else LAfter(LDo(s, run[0]), run[1..])
  }

  // ----- The invariant

  /** What the store says about the lock. */
  datatype View = View(key: string, owner: map<string, nat>, value: string, version: nat)

  function ViewOf(s: LState): View {
    View(s.key, s.owner, ValueOf(s.kv.store, s.key), VersionOf(s.kv.store, s.key))
  }

  /** The lock is held exactly at odd versions. */
  predicate Parity(w: View) {
    w.value == "" <==> w.version % 2 == 0
  }

  ghost predicate WrittenBy(t: Trace, key: string, v: nat, c: nat) {
    exists i: nat :: i < |t| && Writes(t, i, key, v) && IsOp(t, t[i].id) && t[t[i].id].client == c
  }

  predicate Owns(w: View, tok: string, c: nat) {
    tok in w.owner && w.owner[tok] == c
  }

  /** The clerk call in progress is the one the program point asks for. */
  predicate CallMatches(w: View, t: Trace, pc: Pc, k: Clerk) {
    k.Calling? ==>
      if ReqOf(t, k.id).key == w.key then Calls(pc) && ReqOf(t, k.id) == NextReq(w.key, pc)
      else !Calls(pc)
  }

  /** What a client may rely on at its program point. */
  ghost predicate PcClaim(w: View, t: Trace, c: nat, pc: Pc) {
    match pc
    case Out => true
    case Getting => true
    case Claiming(tok, ver, _) => Owns(w, tok, c) && ver % 2 == 0 && ver <= w.version
    case Rereading(tok) => Owns(w, tok, c)
    case Holding(tok, ver) => Owns(w, tok, c) && w.value == tok && w.version == ver
    case RelGetting(tok, ver) => Owns(w, tok, c) && w.value == tok && w.version == ver
    case RelReading(tok, ver, seen) =>
      Owns(w, tok, c) && seen == ver && Releasing(w, t, c, tok, ver)
    case RelPutting(tok, ver, seen, at) =>
      Owns(w, tok, c) && seen == ver && at == ver && Releasing(w, t, c, tok, ver)
  }

  ghost predicate Releasing(w: View, t: Trace, c: nat, tok: string, ver: nat) {
    ver % 2 == 1 && ver <= w.version && (w.version == ver ==> w.value == tok) && WrittenBy(t, w.key, ver - 1, c)
  }

  /** What an answer not yet delivered tells about the store as it is now. */
  predicate ReplyClaim(w: View, pc: Pc, reply: Reply) {
    match pc
    case Getting =>
      && reply.version <= w.version && (reply.err == OK || reply.err == ErrNoKey)
      && (reply.err == OK && reply.value == "" ==> reply.version % 2 == 0)
    case Claiming(tok, ver, _) => reply.err == OK ==> w.value == tok && w.version == ver + 1
    case Rereading(tok) => reply.err == OK && reply.value == tok ==> w.value == tok && w.version == reply.version
    case RelGetting(_, ver) => reply.version == ver
    case RelReading(_, ver, _) => reply.err == OK ==> ver <= reply.version <= w.version
    case _ => true
  }

  ghost predicate ClientOk(w: View, t: Trace, c: nat, pc: Pc, k: Clerk) {
    && CallMatches(w, t, pc, k)
    && PcClaim(w, t, c, pc)
    && (k.Calling? && k.phase.Answered? && Calls(pc) ==> ReplyClaim(w, pc, k.phase.reply))
  }

  predicate IsLockPut(t: Trace, key: string, id: nat) {
    IsOp(t, id) && t[id].req.Put? && t[id].req.key == key
  }

  /**
   Every Put ever sent to the lock key: a claim writes a token of its client at an even version, a
   release writes "" at an odd version that its client claimed. Only the Put in progress can still match.
   */
  ghost predicate PutOk(w: View, t: Trace, id: nat, pc: Pc, k: Clerk)
    requires IsLockPut(t, w.key, id)
  {
    var c, value, v := t[id].client, t[id].req.value, t[id].req.version;
    && NotAhead(t, id) && v <= w.version
    && (if value == "" then v % 2 == 1 && WrittenBy(t, w.key, v - 1, c) else v % 2 == 0 && Owns(w, value, c))
    && (v == w.version ==> k.Calling? && k.id == id && Calls(pc))
  }

  ghost predicate LockInv(s: LState) {
    var w, t := ViewOf(s), s.kv.trace;
    && Inv(s.kv)
    && "" !in s.owner
    && Parity(w)
    && (forall c: nat {:trigger PcOf(s, c)} :: ClientOk(w, t, c, PcOf(s, c), ClerkOf(s.kv, c)))
    && (forall id: nat {:trigger IsLockPut(t, s.key, id)} ::
          IsLockPut(t, s.key, id) ==> PutOk(w, t, id, PcOf(s, t[id].client), ClerkOf(s.kv, t[id].client)))
  }

  // ----- What a longer trace keeps

  lemma WrittenByExtends(t: Trace, e: Event, key: string, v: nat, c: nat)
    requires WrittenBy(t, key, v, c)
    ensures WrittenBy(t + [e], key, v, c)
  {
    var i: nat :| i < |t| && Writes(t, i, key, v) && IsOp(t, t[i].id) && t[t[i].id].client == c;
    assert (t + [e])[i] == t[i] && (t + [e])[t[i].id] == t[t[i].id];
    assert Writes(t + [e], i, key, v);
  }

  lemma ClientExtends(w: View, t: Trace, e: Event, c: nat, pc: Pc, k: Clerk)
    requires ClientOk(w, t, c, pc, k) && (k.Calling? ==> IsOp(t, k.id))
    ensures ClientOk(w, t + [e], c, pc, k)
  {
    if pc.RelReading? || pc.RelPutting? {
      WrittenByExtends(t, e, w.key, pc.ver - 1, c);
    }
  }

  lemma PutExtends(w: View, t: Trace, e: Event, id: nat, pc: Pc, k: Clerk)
    requires IsLockPut(t, w.key, id) && PutOk(w, t, id, pc, k)
    ensures IsLockPut(t + [e], w.key, id) && PutOk(w, t + [e], id, pc, k)
  {
    assert (t + [e])[id] == t[id];
    assert (t + [e])[..id] == t[..id];
    if t[id].req.value == "" {
      WrittenByExtends(t, e, w.key, t[id].req.version - 1, t[id].client);
    }
  }

  lemma ClientAt(s: LState, c: nat)
    requires LockInv(s)
    ensures ClientOk(ViewOf(s), s.kv.trace, c, PcOf(s, c), ClerkOf(s.kv, c))
    ensures CallOk(s.kv.trace, c, ClerkOf(s.kv, c))
  {
  }

  lemma PutAt(s: LState, id: nat)
    requires LockInv(s) && IsLockPut(s.kv.trace, s.key, id)
    ensures PutOk(ViewOf(s), s.kv.trace, id, PcOf(s, s.kv.trace[id].client), ClerkOf(s.kv, s.kv.trace[id].client))
  {
  }

  // ----- Network and server steps

  /** The step runs a handler whose Put matches on the lock key. */
  predicate WritesLock(s: LState, st: Step)
    requires Enabled(s.kv, st)
  {
    var e := EventOf(s.kv, st);
    e.Executed? && e.req.key == s.key && Matches(s.kv.store, e.req)
  }

  lemma NetView(s: LState, st: Step)
    requires LockInv(s) && LEnabled(s, Net(st))
    ensures ViewOf(LDo(s, Net(st))) ==
            if WritesLock(s, st) then
              ViewOf(s).(value := EventOf(s.kv, st).req.value, version := EventOf(s.kv, st).req.version + 1)
            else ViewOf(s)
  {
  }

  /** A write to the lock comes from the one client whose Put is in progress. */
  lemma Writer(s: LState, st: Step) returns (d: nat)
    requires LockInv(s) && LEnabled(s, Net(st)) && WritesLock(s, st)
    ensures !st.ServeStray? ==> st.c == d
    ensures ClerkOf(s.kv, d).Calling? && ClerkOf(s.kv, d).id == EventOf(s.kv, st).id && ClerkOf(s.kv, d).phase.Waiting?
    ensures Calls(PcOf(s, d)) && EventOf(s.kv, st).req == NextReq(s.key, PcOf(s, d))
    ensures PcClaim(ViewOf(s), s.kv.trace, d, PcOf(s, d))
    ensures PcOf(s, d).Claiming? || PcOf(s, d).RelPutting?
    ensures PcOf(s, d).ver == ViewOf(s).version
    ensures ViewOf(LDo(s, Net(st))) ==
            ViewOf(s).(value := if PcOf(s, d).Claiming? then PcOf(s, d).tok else "", version := PcOf(s, d).ver + 1)
  {
    NetView(s, st);
    var t, e := s.kv.trace, EventOf(s.kv, st);
    StepAppends(s.kv, st);
    var id := e.id;
    assert IsLockPut(t, s.key, id) && t[id].req == e.req;
    d := t[id].client;
    PutAt(s, id);
    ClientAt(s, d);
    if !st.ServeStray? {
      ClientAt(s, st.c);
    }
    NotYetServed(s, d);
  }

  /** A Put that can still match has not met the server. */
  lemma NotYetServed(s: LState, d: nat)
    requires LockInv(s) && ClerkOf(s.kv, d).Calling? && IsLockPut(s.kv.trace, s.key, ClerkOf(s.kv, d).id)
    ensures s.kv.trace[ClerkOf(s.kv, d).id].req.version == ViewOf(s).version ==> ClerkOf(s.kv, d).phase.Waiting?
  {
    var t, k := s.kv.trace, ClerkOf(s.kv, d);
    ClientAt(s, d);
    PutAt(s, k.id);
    if k.phase.Answered? {
      SpentAfterRun(t, k.phase.at, |t|);
      assert t[..|t|] == t;
    }
  }

  /** The others' claims survive a write to the lock. */
  lemma WriteKeepsOther(w: View, t: Trace, c: nat, pc: Pc, k: Clerk, d: nat, pd: Pc)
    requires c != d && ClientOk(w, t, c, pc, k) && "" !in w.owner && Parity(w)
    requires PcClaim(w, t, d, pd)
    requires (pd.Claiming? && pd.ver == w.version) || (pd.RelPutting? && pd.ver == w.version)
    ensures ClientOk(w.(value := if pd.Claiming? then pd.tok else "", version := w.version + 1), t, c, pc, k)
  {
  }

  lemma ServedActor(w: View, t: Trace, c: nat, pc: Pc, k: Clerk, store: Store)
    requires ClientOk(w, t, c, pc, k) && k.Calling? && VersionsPositive(store) && "" !in w.owner
    requires w.value == ValueOf(store, w.key) && w.version == VersionOf(store, w.key)
    requires Parity(w)
    requires !(ReqOf(t, k.id).key == w.key && Matches(store, ReqOf(t, k.id)))
    ensures ClientOk(w, t, c, pc, k.(phase := Answered(|t|, Answer(store, ReqOf(t, k.id)))))
  {
  }

  lemma NetClientWrite(s: LState, st: Step, c: nat)
    requires LockInv(s) && LEnabled(s, Net(st)) && WritesLock(s, st)
    ensures var s' := LDo(s, Net(st));
            ClientOk(ViewOf(s'), s.kv.trace, c, PcOf(s, c), ClerkOf(s'.kv, c))
  {
    NetView(s, st);
    ClientAt(s, c);
    var d := Writer(s, st);
    if c != d {
      WriteKeepsOther(ViewOf(s), s.kv.trace, c, PcOf(s, c), ClerkOf(s.kv, c), d, PcOf(s, d));
    }
  }

  lemma NetClientQuiet(s: LState, st: Step, c: nat)
    requires LockInv(s) && LEnabled(s, Net(st)) && !WritesLock(s, st)
    ensures var s' := LDo(s, Net(st));
            ClientOk(ViewOf(s'), s.kv.trace, c, PcOf(s, c), ClerkOf(s'.kv, c))
  {
    NetView(s, st);
    ClientAt(s, c);
    if st == Serve(c) {
      ServedActor(ViewOf(s), s.kv.trace, c, PcOf(s, c), ClerkOf(s.kv, c), s.kv.store);
    }
  }

  lemma NetClient(s: LState, st: Step, c: nat)
    requires LockInv(s) && LEnabled(s, Net(st))
    ensures var s' := LDo(s, Net(st));
            ClientOk(ViewOf(s'), s'.kv.trace, c, PcOf(s', c), ClerkOf(s'.kv, c))
  {
    var s' := LDo(s, Net(st));
    StepAppends(s.kv, st);
    ClientAt(s, c);
    if WritesLock(s, st) {
      NetClientWrite(s, st, c);
    } else {
      NetClientQuiet(s, st, c);
    }
    ClientExtends(ViewOf(s'), s.kv.trace, EventOf(s.kv, st), c, PcOf(s, c), ClerkOf(s'.kv, c));
  }

  lemma Assemble(s: LState)
    requires Inv(s.kv) && "" !in s.owner
    requires Parity(ViewOf(s))
    requires forall c: nat :: ClientOk(ViewOf(s), s.kv.trace, c, PcOf(s, c), ClerkOf(s.kv, c))
    requires forall id: nat {:trigger IsLockPut(s.kv.trace, s.key, id)} :: IsLockPut(s.kv.trace, s.key, id) ==>
               PutOk(ViewOf(s), s.kv.trace, id, PcOf(s, s.kv.trace[id].client), ClerkOf(s.kv, s.kv.trace[id].client))
    ensures LockInv(s)
  {
  }

  lemma NetPut(s: LState, st: Step, id: nat)
    requires LockInv(s) && LEnabled(s, Net(st)) && IsLockPut(LDo(s, Net(st)).kv.trace, s.key, id)
    ensures var s' := LDo(s, Net(st)); var c := s'.kv.trace[id].client;
            PutOk(ViewOf(s'), s'.kv.trace, id, PcOf(s', c), ClerkOf(s'.kv, c))
  {
    var s' := LDo(s, Net(st));
    var t, e := s.kv.trace, EventOf(s.kv, st);
    NetView(s, st);
    StepAppends(s.kv, st);
    assert id < |t| && t[id] == s'.kv.trace[id];
    PutAt(s, id);
    var c := t[id].client;
    assert PutOk(ViewOf(s'), t, id, PcOf(s, c), ClerkOf(s'.kv, c));
    PutExtends(ViewOf(s'), t, e, id, PcOf(s, c), ClerkOf(s'.kv, c));
  }

  lemma WriteParity(w: View, t: Trace, d: nat, pd: Pc)
    requires PcClaim(w, t, d, pd) && "" !in w.owner && (pd.Claiming? || pd.RelPutting?)
    ensures Parity(w.(value := if pd.Claiming? then pd.tok else "", version := pd.ver + 1))
  {
  }

  lemma WriteKeepsParity(s: LState, st: Step)
    requires LockInv(s) && LEnabled(s, Net(st)) && WritesLock(s, st)
    ensures Parity(ViewOf(LDo(s, Net(st))))
  {
    var d := Writer(s, st);
    var w, w', pd := ViewOf(s), ViewOf(LDo(s, Net(st))), PcOf(s, d);
    assert "" !in w.owner;
    assert w' == w.(value := if pd.Claiming? then pd.tok else "", version := pd.ver + 1);
    WriteParity(w, s.kv.trace, d, pd);
  }

  lemma NetParity(s: LState, st: Step)
    requires LockInv(s) && LEnabled(s, Net(st))
    ensures Parity(ViewOf(LDo(s, Net(st))))
  {
    if WritesLock(s, st) {
      WriteKeepsParity(s, st);
    } else {
      NetView(s, st);
    }
  }

  lemma NetKeepsInv(s: LState, st: Step)
    requires LockInv(s) && LEnabled(s, Net(st))
    ensures LockInv(LDo(s, Net(st)))
  {
    var s' := LDo(s, Net(st));
    StepKeepsInv(s.kv, st);
    NetParity(s, st);
    forall c: nat ensures ClientOk(ViewOf(s'), s'.kv.trace, c, PcOf(s', c), ClerkOf(s'.kv, c)) {
      NetClient(s, st, c);
    }
    forall id: nat | IsLockPut(s'.kv.trace, s.key, id)
      ensures PutOk(ViewOf(s'), s'.kv.trace, id, PcOf(s', s'.kv.trace[id].client),
                    ClerkOf(s'.kv, s'.kv.trace[id].client))
    {
      NetPut(s, st, id);
    }
    Assemble(s');
  }

  // ----- Client steps

  /** The writer of the token now in the store is its owner. */
  lemma CurrentWriter(s: LState)
    requires LockInv(s) && ViewOf(s).value != ""
    ensures ViewOf(s).value in s.owner
    ensures WrittenBy(s.kv.trace, s.key, ViewOf(s).version - 1, s.owner[ViewOf(s).value])
  {
    var t, w := s.kv.trace, ViewOf(s);
    assert t[..|t|] == t;
    var i := EveryVersionWritten(t, |t|, s.key, w.version - 1);
    LastWriteReads(t, i, |t|, s.key, w.version - 1);
    RequestOf(t, i);
    PutAt(s, t[i].id);
  }

  /** An invocation: the clerk of c starts a call, on the lock key only if the program point asks for it. */
  lemma InvokeKeepsInv(s: LState, c: nat, req: Request)
    requires LockInv(s) && ClerkOf(s.kv, c).Idle?
    requires if Calls(PcOf(s, c)) then req == NextReq(s.key, PcOf(s, c)) else req.key != s.key
    ensures LockInv(s.(kv := Do(s.kv, Invoke(c, req))))
  {
    var s' := s.(kv := Do(s.kv, Invoke(c, req)));
    var w, t, e := ViewOf(s), s.kv.trace, Invoked(c, req);
    StepKeepsInv(s.kv, Invoke(c, req));
    assert s'.kv.trace == t + [e] && ViewOf(s') == w;
    forall d: nat ensures ClientOk(w, t + [e], d, PcOf(s', d), ClerkOf(s'.kv, d)) {
      ClientAt(s, d);
      ClientExtends(w, t, e, d, PcOf(s, d), ClerkOf(s.kv, d));
    }
    forall id: nat | IsLockPut(t + [e], s.key, id)
      ensures PutOk(w, t + [e], id, PcOf(s', (t + [e])[id].client), ClerkOf(s'.kv, (t + [e])[id].client))
    {
      if id < |t| {
        PutAt(s, id);
        assert PutOk(w, t, id, PcOf(s, t[id].client), ClerkOf(s'.kv, t[id].client));
        PutExtends(w, t, e, id, PcOf(s, t[id].client), ClerkOf(s'.kv, t[id].client));
      } else {
        NewPut(s, c, req);
      }
    }
    Assemble(s');
  }

  lemma NewPut(s: LState, c: nat, req: Request)
    requires LockInv(s) && Calls(PcOf(s, c)) && req == NextReq(s.key, PcOf(s, c)) && req.Put?
    ensures var t := s.kv.trace + [Invoked(c, req)];
            PutOk(ViewOf(s), t, |s.kv.trace|, PcOf(s, c), Calling(|s.kv.trace|, 0, Waiting))
  {
    var t := s.kv.trace + [Invoked(c, req)];
    assert t[..|s.kv.trace|] == s.kv.trace;
    ClientAt(s, c);
    if req.value == "" {
      WrittenByExtends(s.kv.trace, Invoked(c, req), s.key, req.version - 1, c);
    }
  }

  /** The claim of the next program point, from the answer just delivered. */
  lemma NextClaim(w: View, t: Trace, c: nat, pc: Pc, reply: Reply, resent: bool, tok: string)
    requires Calls(pc) && PcClaim(w, t, c, pc) && ReplyClaim(w, pc, reply) && Parity(w) && "" !in w.owner
    requires tok !in w.owner && (pc.RelGetting? ==> pc.ver > 0 && WrittenBy(t, w.key, pc.ver - 1, c))
    ensures var pc' := AfterReply(pc, ClerkResult(reply, resent), tok);
            PcClaim(w.(owner := if pc'.Claiming? then w.owner[tok := c] else w.owner), t, c, pc')
  {
  }

  lemma HolderWrote(s: LState, c: nat)
    requires LockInv(s) && PcOf(s, c).RelGetting?
    ensures PcOf(s, c).ver > 0 && WrittenBy(s.kv.trace, s.key, PcOf(s, c).ver - 1, c)
  {
    ClientAt(s, c);
    CurrentWriter(s);
  }

  /** A new token disturbs nobody. */
  lemma OwnerGrows(w: View, t: Trace, c: nat, tok: string, d: nat, pc: Pc, k: Clerk)
    requires ClientOk(w, t, d, pc, k) && tok !in w.owner
    ensures ClientOk(w.(owner := w.owner[tok := c]), t, d, pc, k)
  {
  }

  lemma ReturnActor(s: LState, c: nat, tok: string)
    requires LockInv(s) && LEnabled(s, Return(c, tok))
    ensures var s' := LDo(s, Return(c, tok)); ClientOk(ViewOf(s'), s.kv.trace, c, PcOf(s', c), Idle)
  {
    ClientAt(s, c);
    var k, pc := ClerkOf(s.kv, c), PcOf(s, c);
    if Calls(pc) {
      if pc.RelGetting? {
        HolderWrote(s, c);
      }
      NextClaim(ViewOf(s), s.kv.trace, c, pc, k.phase.reply, k.failed > 0, tok);
    }
  }

  lemma ReturnOther(s: LState, c: nat, tok: string, d: nat)
    requires LockInv(s) && LEnabled(s, Return(c, tok)) && d != c
    ensures var s' := LDo(s, Return(c, tok));
            && PcOf(s', d) == PcOf(s, d) && ClerkOf(s'.kv, d) == ClerkOf(s.kv, d)
            && ClientOk(ViewOf(s'), s.kv.trace, d, PcOf(s, d), ClerkOf(s.kv, d))
  {
    ClientAt(s, d);
    OwnerGrows(ViewOf(s), s.kv.trace, c, tok, d, PcOf(s, d), ClerkOf(s.kv, d));
  }

  lemma ReturnClient(s: LState, c: nat, tok: string, d: nat)
    requires LockInv(s) && LEnabled(s, Return(c, tok))
    ensures var s' := LDo(s, Return(c, tok));
            ClientOk(ViewOf(s'), s'.kv.trace, d, PcOf(s', d), ClerkOf(s'.kv, d))
  {
    var s' := LDo(s, Return(c, tok));
    StepAppends(s.kv, Deliver(c));
    if d == c {
      ReturnActor(s, c, tok);
    } else {
      ReturnOther(s, c, tok, d);
      ClientAt(s, d);
    }
    ClientExtends(ViewOf(s'), s.kv.trace, EventOf(s.kv, Deliver(c)), d, PcOf(s', d), ClerkOf(s'.kv, d));
  }

  /** A Put keeps its claim when owners grow; if it can no longer match, whatever its client does. */
  lemma PutKept(w: View, owner: map<string, nat>, t: Trace, id: nat, pc: Pc, k: Clerk, pc': Pc, k': Clerk)
    requires IsLockPut(t, w.key, id) && PutOk(w, t, id, pc, k)
    requires forall tok :: tok in w.owner ==> tok in owner && owner[tok] == w.owner[tok]
    requires (pc == pc' && k == k') || t[id].req.version != w.version
    ensures PutOk(w.(owner := owner), t, id, pc', k')
  {
  }

  lemma ReturnPutBefore(s: LState, c: nat, tok: string, id: nat)
    requires LockInv(s) && LEnabled(s, Return(c, tok)) && IsLockPut(s.kv.trace, s.key, id)
    ensures var s' := LDo(s, Return(c, tok)); var d := s.kv.trace[id].client;
            PutOk(ViewOf(s'), s.kv.trace, id, PcOf(s', d), ClerkOf(s'.kv, d))
  {
    var s', d := LDo(s, Return(c, tok)), s.kv.trace[id].client;
    PutAt(s, id);
    if d == c && ClerkOf(s.kv, c).id == id {
      NotYetServed(s, c);
    }
    assert ViewOf(s') == ViewOf(s).(owner := s'.owner);
    PutKept(ViewOf(s), s'.owner, s.kv.trace, id, PcOf(s, d), ClerkOf(s.kv, d), PcOf(s', d), ClerkOf(s'.kv, d));
  }

  lemma ReturnPut(s: LState, c: nat, tok: string, id: nat)
    requires LockInv(s) && LEnabled(s, Return(c, tok)) && IsLockPut(LDo(s, Return(c, tok)).kv.trace, s.key, id)
    ensures var s' := LDo(s, Return(c, tok)); var d := s'.kv.trace[id].client;
            PutOk(ViewOf(s'), s'.kv.trace, id, PcOf(s', d), ClerkOf(s'.kv, d))
  {
    var s' := LDo(s, Return(c, tok));
    var t, e := s.kv.trace, EventOf(s.kv, Deliver(c));
    StepAppends(s.kv, Deliver(c));
    assert id < |t| && s'.kv.trace[id] == t[id];
    ReturnPutBefore(s, c, tok, id);
    PutExtends(ViewOf(s'), t, e, id, PcOf(s', t[id].client), ClerkOf(s'.kv, t[id].client));
  }

  lemma ReturnKeepsInv(s: LState, c: nat, tok: string)
    requires LockInv(s) && LEnabled(s, Return(c, tok))
    ensures LockInv(LDo(s, Return(c, tok)))
  {
    var s' := LDo(s, Return(c, tok));
    StepKeepsInv(s.kv, Deliver(c));
    forall d: nat ensures ClientOk(ViewOf(s'), s'.kv.trace, d, PcOf(s', d), ClerkOf(s'.kv, d)) {
      ReturnClient(s, c, tok, d);
    }
    forall id: nat | IsLockPut(s'.kv.trace, s.key, id)
      ensures PutOk(ViewOf(s'), s'.kv.trace, id, PcOf(s', s'.kv.trace[id].client),
                    ClerkOf(s'.kv, s'.kv.trace[id].client))
    {
      ReturnPut(s, c, tok, id);
    }
    Assemble(s');
  }

  lemma StartKeepsInv(s: LState, step: LStep)
    requires LockInv(s) && LEnabled(s, step) && (step.StartAcquire? || step.StartRelease?)
    ensures LockInv(LDo(s, step))
  {
    var s' := LDo(s, step);
    forall d: nat ensures ClientOk(ViewOf(s'), s'.kv.trace, d, PcOf(s', d), ClerkOf(s'.kv, d)) {
      ClientAt(s, d);
    }
    forall id: nat | IsLockPut(s'.kv.trace, s.key, id)
      ensures PutOk(ViewOf(s'), s'.kv.trace, id, PcOf(s', s'.kv.trace[id].client),
                    ClerkOf(s'.kv, s'.kv.trace[id].client))
    {
      PutAt(s, id);
    }
    Assemble(s');
  }

  lemma LockStepKeepsInv(s: LState, step: LStep)
    requires LockInv(s) && LEnabled(s, step)
    ensures LockInv(LDo(s, step))
  {
    match step {
      case Net(st) => NetKeepsInv(s, st);
      case StartAcquire(_) => StartKeepsInv(s, step);
      case StartRelease(_) => StartKeepsInv(s, step);
      case Call(c) => InvokeKeepsInv(s, c, NextReq(s.key, PcOf(s, c)));
      case Other(c, req) => InvokeKeepsInv(s, c, req);
      case Return(c, tok) => ReturnKeepsInv(s, c, tok);
    }
  }

  lemma {:induction false} LockRunKeepsInv(s: LState, run: seq<LStep>)
    requires LockInv(s) && LPossible(s, run)
    ensures LockInv(LAfter(s, run))
    decreases |run|
  {
    if run != [] {
      LockStepKeepsInv(s, run[0]);
      LockRunKeepsInv(LDo(s, run[0]), run[1..]);
    }
  }

  lemma LockInitInv(key: string)
    ensures LockInv(LockInit(key))
  {
    InitInv();
  }
}
