/**
 Any number of clerks, one server and a network that may lose requests and replies.

 A clerk call is a loop of attempts. One attempt ends in one of four ways: its request is
 dropped before the handler runs, the handler runs and the reply is dropped, the network gives
 up while the handler is still going to run (a stray handler, which runs at any later time and
 whose reply nobody reads), or the handler runs and its reply is delivered. Every interleaving
 of these steps is a run. The trace records what happened; a call is named by the position of
 its Invoked event.
 */
module KvSystem {
  import opened KvServer

  datatype Phase = Waiting | Answered(at: nat, reply: Reply)

  /** failed counts the attempts whose Call returned false; requestCount is failed + 1 on return. */
  datatype Clerk = Idle | Calling(id: nat, failed: nat, phase: Phase)

  datatype Event =
    | Invoked(client: nat, req: Request)
    | Executed(id: nat, req: Request, reply: Reply)
    | Lost(id: nat)
    | Abandoned(id: nat)
    | Returned(id: nat, req: Request, out: Reply, at: nat)

  type Trace = seq<Event>

  datatype State = State(store: Store, clerks: map<nat, Clerk>, strays: multiset<nat>, trace: Trace)

  datatype Step =
    | Invoke(c: nat, req: Request)
    | Serve(c: nat)
    | DropRequest(c: nat)
    | DropReply(c: nat)
    | Abandon(c: nat)
    | ServeStray(id: nat)
    | Deliver(c: nat)

  const INIT := State(map[], map[], multiset{}, [])

  function ClerkOf(s: State, c: nat): Clerk {
    if c in s.clerks then s.clerks[c] else Idle
  }

  predicate IsOp(t: Trace, id: nat) {
    id < |t| && t[id].Invoked?
  }

  function ReqOf(t: Trace, id: nat): Request {
    if IsOp(t, id) then t[id].req else Get("")
  }

  /** The clerk's last word: a version error on a resend becomes ErrMaybe. */
  function ClerkResult(reply: Reply, resent: bool): Reply {
    if reply.err == ErrVersion && resent then reply.(err := ErrMaybe) else reply
  }

  predicate Enabled(s: State, step: Step) {
    match step
    case Invoke(c, _) => ClerkOf(s, c).Idle?
    case Serve(c) => ClerkOf(s, c).Calling? && ClerkOf(s, c).phase.Waiting?
    case DropRequest(c) => ClerkOf(s, c).Calling? && ClerkOf(s, c).phase.Waiting?
    case DropReply(c) => ClerkOf(s, c).Calling? && ClerkOf(s, c).phase.Answered?
    case Abandon(c) => ClerkOf(s, c).Calling? && ClerkOf(s, c).phase.Waiting?
    case ServeStray(id) => id in s.strays
    case Deliver(c) => ClerkOf(s, c).Calling? && ClerkOf(s, c).phase.Answered?
  }

  function Do(s: State, step: Step): State
    requires Enabled(s, step)
  {
    var n := |s.trace|;
    match step
    case Invoke(c, req) =>
      s.(clerks := s.clerks[c := Calling(n, 0, Waiting)], trace := s.trace + [Invoked(c, req)])
    case Serve(c) =>
      var k := ClerkOf(s, c);
      var req := ReqOf(s.trace, k.id);
      var reply := Answer(s.store, req);
      s.(store := NextStore(s.store, req),
         clerks := s.clerks[c := k.(phase := Answered(n, reply))],
         trace := s.trace + [Executed(k.id, req, reply)])
    case DropRequest(c) =>
      var k := ClerkOf(s, c);
      s.(clerks := s.clerks[c := k.(failed := k.failed + 1)], trace := s.trace + [Lost(k.id)])
    case DropReply(c) =>
      var k := ClerkOf(s, c);
      s.(clerks := s.clerks[c := k.(failed := k.failed + 1, phase := Waiting)], trace := s.trace + [Lost(k.id)])
    case Abandon(c) =>
      var k := ClerkOf(s, c);
      s.(clerks := s.clerks[c := k.(failed := k.failed + 1)],
         strays := s.strays + multiset{k.id},
         trace := s.trace + [Abandoned(k.id)])
    case ServeStray(id) =>
      var req := ReqOf(s.trace, id);
      s.(store := NextStore(s.store, req),
         strays := s.strays - multiset{id},
         trace := s.trace + [Executed(id, req, Answer(s.store, req))])
    case Deliver(c) =>
      var k := ClerkOf(s, c);
      var out := ClerkResult(k.phase.reply, k.failed > 0);
      s.(clerks := s.clerks[c := Idle],
         trace := s.trace + [Returned(k.id, ReqOf(s.trace, k.id), out, k.phase.at)])
  }

  /** A run is a sequence of steps, each enabled where it is taken. */
  predicate Possible(s: State, run: seq<Step>)
    decreases |run|
  {
    run == [] || (Enabled(s, run[0]) && Possible(Do(s, run[0]), run[1..]))
  }

  function After(s: State, run: seq<Step>): State
    requires Possible(s, run)
    decreases |run|
  {
    if run == [] then s else After(Do(s, run[0]), run[1..])
  }

  // ----- What a trace says

  ghost predicate HasExecuted(t: Trace, id: nat) {
    exists i :: 0 <= i < |t| && t[i].Executed? && t[i].id == id
  }

  ghost predicate HasReturned(t: Trace, id: nat) {
    exists i :: 0 <= i < |t| && t[i].Returned? && t[i].id == id
  }

  ghost predicate HasAbandoned(t: Trace, id: nat) {
    exists i :: 0 <= i < |t| && t[i] == Abandoned(id)
  }

  ghost predicate HasFailed(t: Trace, id: nat) {
    exists i :: 0 <= i < |t| && (t[i] == Lost(id) || t[i] == Abandoned(id))
  }

  /** The store that the handler runs of a trace produce. */
  function StoreAfter(t: Trace): Store {
    if t == [] then map[]
    else
      var n := |t| - 1;
      var st := StoreAfter(t[..n]);
      if t[n].Executed? then NextStore(st, t[n].req) else st
  }

  /** The version of a key before event i. */
  function VersionAt(t: Trace, i: nat, key: string): nat
    requires i <= |t|
  {
    VersionOf(StoreAfter(t[..i]), key)
  }

  /** Event i is a handler run that wrote the store. */
  predicate Applied(t: Trace, i: nat) {
    i < |t| && t[i].Executed? && t[i].req.Put? && t[i].reply.err == OK
  }

  /** Only a stray handler of the call can have run after its answering one. */
  ghost predicate Answering(t: Trace, id: nat, at: nat) {
    && id < at < |t| && t[at].Executed? && t[at].id == id
    && forall i :: at < i < |t| && t[i].Executed? && t[i].id == id ==> HasAbandoned(t, id)
  }

  /** What the past p allows event e to be. */
  ghost predicate EventOk(p: Trace, e: Event) {
    match e
    case Invoked(_, _) => true
    case Executed(id, req, reply) =>
      && IsOp(p, id) && p[id].req == req
      && reply == Answer(StoreAfter(p), req)
      && (HasExecuted(p, id) ==> HasFailed(p, id))
      && (HasReturned(p, id) ==> HasAbandoned(p, id))
    case Lost(id) => IsOp(p, id) && !HasReturned(p, id)
    case Abandoned(id) => IsOp(p, id) && !HasReturned(p, id)
    case Returned(id, req, out, at) =>
      && IsOp(p, id) && p[id].req == req
      && Answering(p, id, at)
      && !HasReturned(p, id)
      && out == ClerkResult(p[at].reply, HasFailed(p, id))
  }

  ghost predicate WellFormed(t: Trace) {
    forall i :: 0 <= i < |t| ==> EventOk(t[..i], t[i])
  }

  ghost predicate CallOk(t: Trace, c: nat, k: Clerk) {
    k.Calling? ==>
      && IsOp(t, k.id) && t[k.id].client == c
      && !HasReturned(t, k.id)
      && (k.failed > 0 <==> HasFailed(t, k.id))
      && (k.failed == 0 && k.phase.Waiting? ==> !HasExecuted(t, k.id))
      && (k.phase.Answered? ==>
            Answering(t, k.id, k.phase.at) && t[k.phase.at] == Executed(k.id, t[k.id].req, k.phase.reply))
  }

  /** Every step keeps this. */
  ghost predicate Inv(s: State) {
    && WellFormed(s.trace)
    && s.store == StoreAfter(s.trace)
    && VersionsPositive(s.store)
    && (forall c :: c in s.clerks ==> CallOk(s.trace, c, s.clerks[c]))
    && (forall id :: id in s.strays ==> IsOp(s.trace, id) && HasAbandoned(s.trace, id))
    && (forall id: nat :: IsOp(s.trace, id) && !HasReturned(s.trace, id) ==>
          ClerkOf(s, s.trace[id].client).Calling? && ClerkOf(s, s.trace[id].client).id == id)
  }

  lemma Extend(t: Trace, e: Event)
    ensures (t + [e])[..|t|] == t
    ensures forall i :: 0 <= i <= |t| ==> (t + [e])[..i] == t[..i]
    ensures forall id :: HasExecuted(t + [e], id) <==> HasExecuted(t, id) || (e.Executed? && e.id == id)
    ensures forall id :: HasReturned(t + [e], id) <==> HasReturned(t, id) || (e.Returned? && e.id == id)
    ensures forall id :: HasAbandoned(t + [e], id) <==> HasAbandoned(t, id) || e == Abandoned(id)
    ensures forall id :: HasFailed(t + [e], id) <==> HasFailed(t, id) || e == Lost(id) || e == Abandoned(id)
    ensures WellFormed(t) && EventOk(t, e) ==> WellFormed(t + [e])
  {
    var u := t + [e];
    assert forall i :: 0 <= i < |t| ==> u[i] == t[i];
    assert u[|t|] == e;
    if WellFormed(t) && EventOk(t, e) {
      forall i | 0 <= i < |u| ensures EventOk(u[..i], u[i]) {
        assert u[..i] == t[..i];
        assert t[..|t|] == t;
      }
    }
  }

  /** The event a step adds. */
  function EventOf(s: State, step: Step): Event
    requires Enabled(s, step)
  {
    Do(s, step).trace[|s.trace|]
  }

  lemma StepEventOk(s: State, step: Step)
    requires Inv(s) && Enabled(s, step)
    ensures EventOk(s.trace, EventOf(s, step))
  {
    if step.ServeStray? {
      assert HasAbandoned(s.trace, step.id);
      var i :| 0 <= i < |s.trace| && s.trace[i] == Abandoned(step.id);
      assert HasFailed(s.trace, step.id);
    } else if !step.Invoke? {
      var k := s.clerks[step.c];
      assert CallOk(s.trace, step.c, k);
      assert IsOp(s.trace, k.id) && !HasReturned(s.trace, k.id);
    }
  }

  lemma StepAppends(s: State, step: Step)
    requires Inv(s) && Enabled(s, step)
    ensures Do(s, step).trace == s.trace + [EventOf(s, step)]
    ensures EventOk(s.trace, EventOf(s, step))
    ensures Do(s, step).store == StoreAfter(Do(s, step).trace)
    ensures VersionsPositive(Do(s, step).store)
  {
    StepEventOk(s, step);
    assert (s.trace + [EventOf(s, step)])[..|s.trace|] == s.trace;
  }

  /** A call survives every event that is not one of its own losses or its return. */
  lemma CallSurvives(t: Trace, e: Event, c: nat, k: Clerk)
    requires CallOk(t, c, k)
    requires k.Calling? ==> e != Lost(k.id) && e != Abandoned(k.id)
    requires k.Calling? ==> !(e.Returned? && e.id == k.id)
    requires k.Calling? && e.Executed? && e.id == k.id ==> HasAbandoned(t, k.id)
    ensures CallOk(t + [e], c, k)
  {
    if k.Calling? {
      Extend(t, e);
      assert forall i :: 0 <= i < |t| ==> (t + [e])[i] == t[i];
    }
  }

  lemma StepKeepsOthers(s: State, step: Step, c: nat)
    requires Inv(s) && Enabled(s, step)
    requires c in s.clerks && (step.ServeStray? || step.c != c)
    ensures c in Do(s, step).clerks
    ensures CallOk(Do(s, step).trace, c, Do(s, step).clerks[c])
  {
    StepAppends(s, step);
    var k := s.clerks[c];
    assert CallOk(s.trace, c, k);
    if step.ServeStray? {
      assert HasAbandoned(s.trace, step.id);
    } else if !step.Invoke? {
      assert CallOk(s.trace, step.c, s.clerks[step.c]);
    }
    CallSurvives(s.trace, EventOf(s, step), c, k);
  }

  lemma StepKeepsActor(s: State, step: Step)
    requires Inv(s) && Enabled(s, step) && !step.ServeStray?
    ensures CallOk(Do(s, step).trace, step.c, Do(s, step).clerks[step.c])
  {
    StepAppends(s, step);
    var t, e := s.trace, EventOf(s, step);
    Extend(t, e);
    assert forall i :: 0 <= i < |t| ==> (t + [e])[i] == t[i];
    if step.Invoke? {
      FreshName(t);
    } else {
      assert CallOk(t, step.c, s.clerks[step.c]);
    }
  }

  /** No event names a call that has not started. */
  lemma FreshName(t: Trace)
    requires WellFormed(t)
    ensures !HasExecuted(t, |t|) && !HasReturned(t, |t|) && !HasFailed(t, |t|) && !HasAbandoned(t, |t|)
  {
    forall i | 0 <= i < |t| ensures !t[i].Invoked? ==> t[i].id < |t| {
      assert EventOk(t[..i], t[i]);
    }
  }

  /** A call goes on until its own clerk delivers. */
  lemma StillCalling(s: State, step: Step, c: nat)
    requires Enabled(s, step) && ClerkOf(s, c).Calling? && step != Deliver(c)
    ensures ClerkOf(Do(s, step), c).Calling? && ClerkOf(Do(s, step), c).id == ClerkOf(s, c).id
  {
  }

  lemma StepKeepsPending(s: State, step: Step, id: nat)
    requires Inv(s) && Enabled(s, step)
    requires IsOp(Do(s, step).trace, id) && !HasReturned(Do(s, step).trace, id)
    ensures ClerkOf(Do(s, step), Do(s, step).trace[id].client).Calling?
    ensures ClerkOf(Do(s, step), Do(s, step).trace[id].client).id == id
  {
    StepAppends(s, step);
    var t, e := s.trace, EventOf(s, step);
    assert forall i :: 0 <= i < |t| ==> (t + [e])[i] == t[i];
    if id < |t| {
      StillPending(t, e, id);
      assert IsOp(t, id) && !HasReturned(t, id);
      StillCalling(s, step, t[id].client);
    }
  }

  lemma StillPending(t: Trace, e: Event, id: nat)
    requires !HasReturned(t + [e], id)
    ensures !HasReturned(t, id) && !(e.Returned? && e.id == id)
  {
    Extend(t, e);
  }

  lemma StepKeepsInv(s: State, step: Step)
    requires Inv(s) && Enabled(s, step)
    ensures Inv(Do(s, step))
  {
    var s' := Do(s, step);
    StepAppends(s, step);
    Extend(s.trace, EventOf(s, step));
    forall c | c in s'.clerks ensures CallOk(s'.trace, c, s'.clerks[c]) {
      if !step.ServeStray? && step.c == c {
        StepKeepsActor(s, step);
      } else {
        StepKeepsOthers(s, step, c);
      }
    }
    forall id: nat | IsOp(s'.trace, id) && !HasReturned(s'.trace, id)
      ensures ClerkOf(s', s'.trace[id].client).Calling? && ClerkOf(s', s'.trace[id].client).id == id
    {
      StepKeepsPending(s, step, id);
    }
    StepKeepsStrays(s, step);
  }

  lemma StepKeepsStrays(s: State, step: Step)
    requires Inv(s) && Enabled(s, step)
    ensures forall id :: id in Do(s, step).strays ==> IsOp(Do(s, step).trace, id) && HasAbandoned(Do(s, step).trace, id)
  {
    StepAppends(s, step);
    Extend(s.trace, EventOf(s, step));
    if step.Abandon? {
      assert CallOk(s.trace, step.c, s.clerks[step.c]);
    }
  }

  lemma InitInv()
    ensures Inv(INIT)
  {
    assert forall id: nat :: !IsOp(INIT.trace, id);
  }

  lemma {:induction false} RunKeepsInv(s: State, run: seq<Step>)
    requires Inv(s) && Possible(s, run)
    ensures Inv(After(s, run))
    ensures s.trace <= After(s, run).trace
    decreases |run|
  {
    if run != [] {
      StepKeepsInv(s, run[0]);
      StepAppends(s, run[0]);
      RunKeepsInv(Do(s, run[0]), run[1..]);
    }
  }

  lemma {:induction false} RunConcat(s: State, run: seq<Step>, more: seq<Step>)
    requires Possible(s, run) && Possible(After(s, run), more)
    ensures Possible(s, run + more) && After(s, run + more) == After(After(s, run), more)
    decreases |run|
  {
    if run == [] {
      assert run + more == more;
    } else {
      assert (run + more)[1..] == run[1..] + more;
      RunConcat(Do(s, run[0]), run[1..], more);
    }
  }

  /** The record of a run that starts with a call. */
  lemma RunStart(s: State, c: nat, req: Request, run: seq<Step>)
    requires Inv(s) && run != [] && run[0] == Invoke(c, req) && Possible(s, run)
    ensures var t, n := After(s, run).trace, |s.trace|;
            WellFormed(t) && n < |t| && t[n] == Invoked(c, req) && t[..n] == s.trace && StoreAfter(t[..n]) == s.store
  {
    var s1 := Do(s, run[0]);
    StepKeepsInv(s, run[0]);
    RunKeepsInv(s1, run[1..]);
    assert s1.trace[..|s.trace|] == s.trace;
  }

  // ----- Short runs

  lemma RunOne(s: State, a: Step)
    requires Enabled(s, a)
    ensures Possible(s, [a]) && After(s, [a]) == Do(s, a)
  {
    var s1 := Do(s, a);
    assert [a][1..] == [];
    assert Possible(s1, []) && After(s1, []) == s1;
  }

  lemma RunTwo(s: State, a: Step, b: Step)
    requires Enabled(s, a) && Enabled(Do(s, a), b)
    ensures Possible(s, [a, b]) && After(s, [a, b]) == Do(Do(s, a), b)
  {
    RunOne(Do(s, a), b);
    assert [a, b][1..] == [b];
  }

  lemma RunThree(s: State, a: Step, b: Step, c: Step)
    requires Enabled(s, a) && Enabled(Do(s, a), b) && Enabled(Do(Do(s, a), b), c)
    ensures Possible(s, [a, b, c]) && After(s, [a, b, c]) == Do(Do(Do(s, a), b), c)
  {
    RunTwo(Do(s, a), b, c);
    assert [a, b, c][1..] == [b, c];
  }

  /** An uncontended call: invoked, served, answered. */
  function Round(d: nat, req: Request): seq<Step> {
    [Invoke(d, req), Serve(d), Deliver(d)]
  }

  function RoundEvents(n: nat, d: nat, req: Request, reply: Reply): Trace {
    [Invoked(d, req), Executed(n, req, reply), Returned(n, req, reply, n + 1)]
  }

  lemma RoundRuns(s: State, d: nat, req: Request)
    requires ClerkOf(s, d).Idle?
    ensures Possible(s, Round(d, req))
    ensures var z := After(s, Round(d, req));
            && z.trace == s.trace + RoundEvents(|s.trace|, d, req, Answer(s.store, req))
            && z.store == NextStore(s.store, req) && z.strays == s.strays && ClerkOf(z, d).Idle?
            && forall c: nat :: c != d ==> ClerkOf(z, c) == ClerkOf(s, c)
  {
    var s1 := Do(s, Invoke(d, req));
    assert ReqOf(s1.trace, |s.trace|) == req;
    RunThree(s, Invoke(d, req), Serve(d), Deliver(d));
  }
}
