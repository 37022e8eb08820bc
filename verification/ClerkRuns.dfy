/** Every way a retry loop can go is a run of the clerks, the server and the network. */
module ClerkRuns {
  import opened KvServer
  import opened KvSystem
  import opened PutTruth
  import C = Clerk

  /** Call id of clerk c waits after some failed attempts, with handlers of it still to run; clerk d is idle. */
  ghost predicate InCall(z: State, c: nat, d: nat, id: nat, req: Request, failed: nat, store: Store, left: int) {
    && ClerkOf(z, c) == Calling(id, failed, Waiting) && ClerkOf(z, d).Idle? && c != d
    && IsOp(z.trace, id) && z.trace[id].req == req && z.store == store && z.strays[id] == left
  }

  function StraysIn(es: seq<C.Served>): nat {
    if es == [] then 0 else StraysIn(es[..|es| - 1]) + if es[|es| - 1].Stray? then 1 else 0
  }

  /** Handlers given up by the first n attempts that have not run yet. */
  function Left(plan: seq<C.Attempt>, n: nat): int
    requires n <= |plan|
  {
    if n == 0 then 0 else LeftBy(Left(plan, n - 1), plan[n - 1])
  }

  function LeftBy(left: int, a: C.Attempt): int {
    left - StraysIn(a.before) + if a.fate.GivenUp? then 1 else 0
  }

  /** A handler runs late only if an earlier attempt left it running. */
  predicate StraysWereLeft(plan: seq<C.Attempt>) {
    forall n :: 0 <= n < |plan| ==> StraysIn(plan[n].before) <= Left(plan, n)
  }

  /** One request of clerk d, from call to answer, or one late handler of the call. */
  lemma OneServed(z: State, c: nat, d: nat, id: nat, req: Request, failed: nat, st: Store, left: int, e: C.Served)
    returns (run: seq<Step>)
    requires InCall(z, c, d, id, req, failed, st, left) && (e.Stray? ==> left > 0)
    ensures Possible(z, run)
    ensures InCall(After(z, run), c, d, id, req, failed, C.ServeOne(st, req, e), left - if e.Stray? then 1 else 0)
  {
    if e.Stray? {
      RunOne(z, ServeStray(id));
      run := [ServeStray(id)];
    } else {
      RoundRuns(z, d, e.req);
      run := Round(d, e.req);
    }
  }

  lemma {:induction false} AllServed(z: State, c: nat, d: nat, id: nat, req: Request, failed: nat, st: Store,
      left: int, es: seq<C.Served>)
    returns (run: seq<Step>)
    requires InCall(z, c, d, id, req, failed, st, left) && StraysIn(es) <= left
    ensures Possible(z, run)
    ensures InCall(After(z, run), c, d, id, req, failed, C.ServeAll(st, req, es), left - StraysIn(es))
    decreases |es|
  {
    if es == [] {
      run := [];
    } else {
      var front, e := es[..|es| - 1], es[|es| - 1];
      var first := AllServed(z, c, d, id, req, failed, st, left, front);
      var y := After(z, first);
      var last := OneServed(y, c, d, id, req, failed, C.ServeAll(st, req, front), left - StraysIn(front), e);
      RunConcat(z, first, last);
      run := first + last;
    }
  }

  /** An attempt that fails. */
  lemma AttemptFails(z: State, c: nat, d: nat, id: nat, req: Request, failed: nat, st: Store, left: int, fate: C.Fate)
    returns (run: seq<Step>)
    requires InCall(z, c, d, id, req, failed, st, left) && !fate.Delivered?
    ensures Possible(z, run)
    ensures InCall(After(z, run), c, d, id, req, failed + 1,
                   if C.Reaches(fate) then NextStore(st, req) else st, left + if fate.GivenUp? then 1 else 0)
  {
    match fate
    case RequestLost =>
      RunOne(z, DropRequest(c));
      run := [DropRequest(c)];
    case GivenUp =>
      RunOne(z, Abandon(c));
      run := [Abandon(c)];
    case ReplyLost =>
      RunTwo(z, Serve(c), DropReply(c));
      run := [Serve(c), DropReply(c)];
  }

  /** The call has returned with this answer. */
  ghost predicate Done(t: Trace, id: nat, req: Request, out: Reply) {
    |t| > 0 && t[|t| - 1].Returned? && t[|t| - 1].id == id && t[|t| - 1].req == req && t[|t| - 1].out == out
  }

  lemma AttemptReturns(z: State, c: nat, d: nat, id: nat, req: Request, failed: nat, st: Store,
      left: int) returns (run: seq<Step>)
    requires InCall(z, c, d, id, req, failed, st, left)
    ensures Possible(z, run) && After(z, run).store == NextStore(st, req)
    ensures Done(After(z, run).trace, id, req, ClerkResult(Answer(st, req), failed > 0))
  {
    RunTwo(z, Serve(c), Deliver(c));
    run := [Serve(c), Deliver(c)];
  }

  /** What is served before a failing attempt, and the attempt. */
  lemma OneAttempt(z: State, c: nat, d: nat, id: nat, req: Request, failed: nat, st: Store, left: int, a: C.Attempt)
    returns (run: seq<Step>)
    requires InCall(z, c, d, id, req, failed, st, left) && !a.fate.Delivered? && StraysIn(a.before) <= left
    ensures Possible(z, run)
    ensures InCall(After(z, run), c, d, id, req, failed + 1, C.Attempted(st, req, a), LeftBy(left, a))
  {
    var serve := AllServed(z, c, d, id, req, failed, st, left, a.before);
    var y := After(z, serve);
    var fail := AttemptFails(y, c, d, id, req, failed, C.ServeAll(st, req, a.before), left - StraysIn(a.before),
        a.fate);
    RunConcat(z, serve, fail);
    run := serve + fail;
  }

  lemma AttemptMore(z: State, first: seq<Step>, c: nat, d: nat, id: nat, req: Request, failed: nat, st: Store,
      left: int, a: C.Attempt)
    returns (run: seq<Step>)
    requires Possible(z, first) && InCall(After(z, first), c, d, id, req, failed, st, left)
    requires !a.fate.Delivered? && StraysIn(a.before) <= left
    ensures Possible(z, run) && InCall(After(z, run), c, d, id, req, failed + 1, C.Attempted(st, req, a),
            LeftBy(left, a))
  {
    var next := OneAttempt(After(z, first), c, d, id, req, failed, st, left, a);
    RunConcat(z, first, next);
    run := first + next;
  }

  /** The first n attempts, none of them delivered. */
  lemma {:induction false} AttemptsRun(z: State, c: nat, d: nat, id: nat, req: Request, st: Store,
      plan: seq<C.Attempt>, n: nat)
    returns (run: seq<Step>)
    requires InCall(z, c, d, id, req, 0, st, 0) && StraysWereLeft(plan)
    requires n <= |plan| && forall i :: 0 <= i < n ==> !plan[i].fate.Delivered?
    ensures Possible(z, run) && InCall(After(z, run), c, d, id, req, n, C.StoreThen(st, req, plan, n), Left(plan, n))
    decreases n
  {
    if n == 0 {
      run := [];
    } else {
      var m := n - 1;
      var first := AttemptsRun(z, c, d, id, req, st, plan, m);
      var a, met, left := plan[m], C.StoreThen(st, req, plan, m), Left(plan, m);
      assert StraysIn(a.before) <= left;
      run := AttemptMore(z, first, c, d, id, req, m, met, left, a);
    }
  }

  lemma LastRuns(z: State, c: nat, d: nat, id: nat, req: Request, plan: seq<C.Attempt>) returns (run: seq<Step>)
    requires InCall(z, c, d, id, req, 0, z.store, 0) && C.EndsDelivered(plan) && StraysWereLeft(plan)
    ensures Possible(z, run) && After(z, run).store == C.StoreThen(z.store, req, plan, |plan|)
    ensures Done(After(z, run).trace, id, req, ClerkResult(Answer(C.Met(z.store, req, plan, |plan| - 1), req),
            |plan| > 1))
  {
    var m := |plan| - 1;
    var first := AttemptsRun(z, c, d, id, req, z.store, plan, m);
    var st, left := C.StoreThen(z.store, req, plan, m), Left(plan, m);
    var y := After(z, first);
    var serve := AllServed(y, c, d, id, req, m, st, left, plan[m].before);
    var x := After(y, serve);
    var last := AttemptReturns(x, c, d, id, req, m, C.Met(z.store, req, plan, m), left - StraysIn(plan[m].before));
    RunConcat(y, serve, last);
    RunConcat(z, first, serve + last);
    run := first + (serve + last);
  }

  lemma Starts(s: State, c: nat, d: nat, req: Request)
    requires Inv(s) && c != d && ClerkOf(s, c).Idle? && ClerkOf(s, d).Idle?
    ensures Enabled(s, Invoke(c, req)) && InCall(Do(s, Invoke(c, req)), c, d, |s.trace|, req, 0, s.store, 0)
  {
    assert |s.trace| !in s.strays;
  }

  /**
   From every reachable state with two idle clerks, whatever plan the network and the others follow: some run
   of the whole system makes this call, leaves the store the loop leaves and returns what the loop returns.
   */
  lemma LoopIsRun(s: State, c: nat, d: nat, req: Request, plan: seq<C.Attempt>) returns (run: seq<Step>)
    requires Inv(s) && c != d && ClerkOf(s, c).Idle? && ClerkOf(s, d).Idle? && C.EndsDelivered(plan) &&
             StraysWereLeft(plan)
    ensures run != [] && run[0] == Invoke(c, req) && Possible(s, run)
    ensures After(s, run).store == C.StoreThen(s.store, req, plan, |plan|)
    ensures Done(After(s, run).trace, |s.trace|, req,
                 ClerkResult(Answer(C.Met(s.store, req, plan, |plan| - 1), req), |plan| > 1))
  {
    Starts(s, c, d, req);
    RunOne(s, Invoke(c, req));
    var rest := LastRuns(Do(s, Invoke(c, req)), c, d, |s.trace|, req, plan);
    RunConcat(s, [Invoke(c, req)], rest);
    run := [Invoke(c, req)] + rest;
  }

  /** So what holds of every run holds of the loop: a Put that is not ahead of its key is answered truthfully. */
  lemma LoopAnswersTruthful(s: State, c: nat, d: nat, req: Request, plan: seq<C.Attempt>) returns (run: seq<Step>)
    requires Inv(s) && c != d && ClerkOf(s, c).Idle? && ClerkOf(s, d).Idle? && C.EndsDelivered(plan) &&
             StraysWereLeft(plan)
    requires req.Put? && req.version <= VersionOf(s.store, req.key)
    ensures Possible(s, run)
    ensures var t := After(s, run).trace;
            && Done(t, |s.trace|, req, ClerkResult(Answer(C.Met(s.store, req, plan, |plan| - 1), req), |plan| > 1))
            && Truthful(t, |t| - 1)
  {
    run := LoopIsRun(s, c, d, req, plan);
    ReturnsTruthfully(s, c, req, run, ClerkResult(Answer(C.Met(s.store, req, plan, |plan| - 1), req), |plan| > 1));
  }

  lemma ReturnsTruthfully(s: State, c: nat, req: Request, run: seq<Step>, out: Reply)
    requires Inv(s) && run != [] && run[0] == Invoke(c, req) && Possible(s, run)
    requires req.Put? && req.version <= VersionOf(s.store, req.key) && Done(After(s, run).trace, |s.trace|, req, out)
    ensures Truthful(After(s, run).trace, |After(s, run).trace| - 1)
  {
    RunStart(s, c, req, run);
    DoneTruthfully(After(s, run).trace, |s.trace|, c, req, out);
  }

  lemma DoneTruthfully(t: Trace, id: nat, c: nat, req: Request, out: Reply)
    requires WellFormed(t) && id < |t| && t[id] == Invoked(c, req) && Done(t, id, req, out)
    requires req.Put? && req.version <= VersionOf(StoreAfter(t[..id]), req.key)
    ensures Truthful(t, |t| - 1)
  {
    assert NotAhead(t, id);
    AnswerTruthful(t, |t| - 1);
  }
}
