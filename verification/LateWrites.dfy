/** The guard on stray Puts is exact: ahead of the key, a Put can be written after it returned. */
module LateWrites {
  import opened KvServer
  import opened KvSystem
  import opened PutTruth
  import opened Linearizability

  ghost predicate WrittenAfterReturn(t: Trace, id: nat) {
    exists r: nat, i: nat :: r < i < |t| && t[r].Returned? && t[r].id == id && Applied(t, i) && t[i].id == id
  }

  /** From position n on no Put is ahead, and those on the key ask for less than version v. */
  ghost predicate TameFrom(t: Trace, n: nat, key: string, v: nat) {
    && NotAheadFrom(t, n)
    && forall id: nat {:trigger IsOp(t, id)} :: n <= id && IsOp(t, id) && t[id].req.Put? && t[id].req.key == key ==>
         t[id].req.version < v
  }

  /** One more uncontended call that is not ahead and asks for less than v. */
  lemma RoundKeepsTame(s: State, d: nat, req: Request, n: nat, key: string, v: nat)
    requires Inv(s) && ClerkOf(s, d).Idle? && TameFrom(s.trace, n, key, v)
    requires req.Put? ==> req.version <= VersionOf(s.store, req.key) && (req.key == key ==> req.version < v)
    ensures Possible(s, Round(d, req)) && TameFrom(After(s, Round(d, req)).trace, n, key, v)
  {
    RoundRuns(s, d, req);
    var t := After(s, Round(d, req)).trace;
    forall id: nat | n <= id && IsOp(t, id)
      ensures NotAhead(t, id) && (t[id].req.Put? && t[id].req.key == key ==> t[id].req.version < v)
    {
      if id < |s.trace| {
        assert IsOp(s.trace, id) && NotAhead(s.trace, id);
        NotAheadPrefix(s.trace, t, id);
      } else {
        assert t[..id] == s.trace;
      }
    }
  }

  /** One client, left alone, writes a key up to any version. */
  lemma {:induction false} BumpTo(s: State, d: nat, key: string, v: nat, n: nat) returns (more: seq<Step>)
    requires Inv(s) && ClerkOf(s, d).Idle? && VersionOf(s.store, key) <= v && TameFrom(s.trace, n, key, v)
    ensures Possible(s, more) && s.trace <= After(s, more).trace
    ensures VersionOf(After(s, more).store, key) == v && After(s, more).strays == s.strays
    ensures ClerkOf(After(s, more), d).Idle? && TameFrom(After(s, more).trace, n, key, v)
    decreases v - VersionOf(s.store, key)
  {
    var w := VersionOf(s.store, key);
    if w == v {
      more := [];
    } else {
      var round := Round(d, Put(key, "", w));
      RoundRuns(s, d, Put(key, "", w));
      RoundKeepsTame(s, d, Put(key, "", w), n, key, v);
      RunKeepsInv(s, round);
      var rest := BumpTo(After(s, round), d, key, v, n);
      RunConcat(s, round, rest);
      more := round + rest;
    }
  }

  /** A Put ahead of its key, given up once, answered on the second attempt, and still running. */
  lemma AnsweredWhileStray(s: State, c: nat, d: nat, req: Request) returns (run: seq<Step>)
    requires c != d && ClerkOf(s, c).Idle? && ClerkOf(s, d).Idle?
    requires req.Put? && VersionOf(s.store, req.key) < req.version
    ensures run != [] && run[0] == Invoke(c, req) && Possible(s, run)
    ensures var z, n := After(s, run), |s.trace|;
            && |z.trace| == n + 4 && s.trace <= z.trace && z.trace[n] == Invoked(c, req)
            && !z.trace[n + 1].Invoked? && !z.trace[n + 2].Invoked?
            && z.trace[n + 3].Returned? && z.trace[n + 3].id == n
            && z.store == s.store && n in z.strays && ClerkOf(z, d).Idle?
  {
    var n := |s.trace|;
    var s1 := Do(s, Invoke(c, req));
    var s2 := Do(s1, Abandon(c));
    assert ReqOf(s2.trace, n) == req;
    RunThree(s, Invoke(c, req), Abandon(c), Serve(c));
    var s3 := Do(s2, Serve(c));
    RunOne(s3, Deliver(c));
    RunConcat(s, [Invoke(c, req), Abandon(c), Serve(c)], [Deliver(c)]);
    run := [Invoke(c, req), Abandon(c), Serve(c)] + [Deliver(c)];
  }

  lemma StrayWrites(y: State, n: nat)
    requires n in y.strays && IsOp(y.trace, n) && Matches(y.store, y.trace[n].req)
    ensures Possible(y, [ServeStray(n)])
    ensures var z := After(y, [ServeStray(n)]);
            && z.trace == y.trace + [Executed(n, y.trace[n].req, Reply("", 0, OK))]
            && z.store == NextStore(y.store, y.trace[n].req) && z.clerks == y.clerks
  {
    RunOne(y, ServeStray(n));
  }

  /** The Put at n returned at n + 3, and after that a Put at w, below its version, was answered OK. */
  ghost predicate PassedBy(t: Trace, n: nat, c: nat, d: nat, req: Request, w: nat)
    requires req.Put?
  {
    && |t| >= n + 7 && t[n] == Invoked(c, req) && t[n + 3].Returned? && t[n + 3].id == n
    && w < req.version && t[n + 4] == Invoked(d, Put(req.key, "", w))
    && t[n + 6] == Returned(n + 4, Put(req.key, "", w), Reply("", 0, OK), n + 5)
  }

  lemma PassedByPrefix(t: Trace, u: Trace, n: nat, c: nat, d: nat, req: Request, w: nat)
    requires req.Put? && PassedBy(t, n, c, d, req, w) && t <= u
    ensures PassedBy(u, n, c, d, req, w)
  {
    assert forall i :: 0 <= i < |t| ==> u[i] == t[i];
  }

  /** The state in which a Put ahead of its key has returned while a handler of it is still to run. */
  ghost predicate AnsweredButRunning(z: State, n: nat, c: nat, d: nat, req: Request) {
    && Inv(z) && req.Put? && ClerkOf(z, d).Idle? && n in z.strays
    && |z.trace| == n + 4 && z.trace[n] == Invoked(c, req)
    && z.trace[n + 3].Returned? && z.trace[n + 3].id == n
    && TameFrom(z.trace, n + 1, req.key, req.version)
  }

  lemma ReachesRunning(s: State, c: nat, d: nat, req: Request) returns (run: seq<Step>)
    requires Inv(s) && c != d && ClerkOf(s, c).Idle? && ClerkOf(s, d).Idle?
    requires req.Put? && VersionOf(s.store, req.key) < req.version
    ensures run != [] && run[0] == Invoke(c, req) && Possible(s, run) && s.trace <= After(s, run).trace
    ensures After(s, run).store == s.store && AnsweredButRunning(After(s, run), |s.trace|, c, d, req)
  {
    run := AnsweredWhileStray(s, c, d, req);
    RunKeepsInv(s, run);
    NoCallsTame(After(s, run).trace, |s.trace|, req.key, req.version);
  }

  lemma NoCallsTame(t: Trace, n: nat, key: string, v: nat)
    requires |t| == n + 4 && !t[n + 1].Invoked? && !t[n + 2].Invoked? && !t[n + 3].Invoked?
    ensures TameFrom(t, n + 1, key, v)
  {
    forall id: nat | n + 1 <= id ensures !IsOp(t, id) {
      assert id == n + 1 || id == n + 2 || id == n + 3 || id >= |t|;
    }
  }

  /** Another client brings the key up to the version the Put asked for. */
  lemma BumpPast(z: State, n: nat, c: nat, d: nat, req: Request) returns (run: seq<Step>)
    requires AnsweredButRunning(z, n, c, d, req) && VersionOf(z.store, req.key) < req.version
    ensures Possible(z, run) && z.trace <= After(z, run).trace
    ensures ClerkOf(After(z, run), d).Idle? && n in After(z, run).strays
    ensures VersionOf(After(z, run).store, req.key) == req.version
    ensures PassedBy(After(z, run).trace, n, c, d, req, VersionOf(z.store, req.key))
    ensures TameFrom(After(z, run).trace, n + 1, req.key, req.version)
  {
    var w := VersionOf(z.store, req.key);
    var put := Put(req.key, "", w);
    RoundRuns(z, d, put);
    RoundKeepsTame(z, d, put, n + 1, req.key, req.version);
    RunKeepsInv(z, Round(d, put));
    var y := After(z, Round(d, put));
    assert PassedBy(y.trace, n, c, d, req, w);
    var more := BumpTo(y, d, req.key, req.version, n + 1);
    PassedByPrefix(y.trace, After(y, more).trace, n, c, d, req, w);
    RunConcat(z, Round(d, put), more);
    run := Round(d, put) + more;
  }

  lemma BumpAndWrite(z: State, n: nat, c: nat, d: nat, req: Request) returns (run: seq<Step>)
    requires AnsweredButRunning(z, n, c, d, req) && VersionOf(z.store, req.key) < req.version
    ensures Possible(z, run) && z.trace <= After(z, run).trace && ClerkOf(After(z, run), d).Idle?
    ensures LateShape(After(z, run).trace, n, c, d, req, VersionOf(z.store, req.key))
    ensures VersionOf(After(z, run).store, req.key) == req.version + 1
  {
    var more := BumpPast(z, n, c, d, req);
    var x := After(z, more);
    assert x.trace[n] == z.trace[n];
    StrayWrites(x, n);
    RunConcat(z, more, [ServeStray(n)]);
    run := more + [ServeStray(n)];
    WriteIsLate(x.trace, n, c, d, req, VersionOf(z.store, req.key));
  }

  lemma WriteIsLate(t: Trace, n: nat, c: nat, d: nat, req: Request, w: nat)
    requires req.Put? && PassedBy(t, n, c, d, req, w) && TameFrom(t, n + 1, req.key, req.version)
    ensures LateShape(t + [Executed(n, req, Reply("", 0, OK))], n, c, d, req, w)
  {
    var e := Executed(n, req, Reply("", 0, OK));
    PassedByPrefix(t, t + [e], n, c, d, req, w);
    EventKeepsTame(t, e, n + 1, req.key, req.version);
  }

  /** The Put was passed by, its write is the last event, and no other Put since is ahead. */
  ghost predicate LateShape(t: Trace, n: nat, c: nat, d: nat, req: Request, w: nat)
    requires req.Put?
  {
    && PassedBy(t, n, c, d, req, w) && TameFrom(t, n + 1, req.key, req.version)
    && Applied(t, |t| - 1) && t[|t| - 1].id == n
  }

  lemma EventKeepsTame(t: Trace, e: Event, n: nat, key: string, v: nat)
    requires TameFrom(t, n, key, v) && !e.Invoked?
    ensures TameFrom(t + [e], n, key, v)
  {
    var u := t + [e];
    forall id: nat | n <= id && IsOp(u, id)
      ensures NotAhead(u, id) && (u[id].req.Put? && u[id].req.key == key ==> u[id].req.version < v)
    {
      assert IsOp(t, id) && NotAhead(t, id);
      NotAheadPrefix(t, u, id);
    }
  }

  lemma AheadCanWriteLate(s: State, c: nat, d: nat, req: Request) returns (run: seq<Step>)
    requires Inv(s) && c != d && ClerkOf(s, c).Idle? && ClerkOf(s, d).Idle?
    requires req.Put? && VersionOf(s.store, req.key) < req.version
    ensures run != [] && run[0] == Invoke(c, req) && Possible(s, run) && s.trace <= After(s, run).trace
    ensures LateShape(After(s, run).trace, |s.trace|, c, d, req, VersionOf(s.store, req.key))
    ensures WrittenAfterReturn(After(s, run).trace, |s.trace|)
    ensures VersionOf(After(s, run).store, req.key) == req.version + 1 && ClerkOf(After(s, run), d).Idle?
  {
    var n := |s.trace|;
    var first := ReachesRunning(s, c, d, req);
    var z := After(s, first);
    var rest := BumpAndWrite(z, n, c, d, req);
    RunConcat(s, first, rest);
    run := first + rest;
    LateIsLate(After(z, rest).trace, n, c, d, req, VersionOf(s.store, req.key));
  }

  lemma LateIsLate(t: Trace, n: nat, c: nat, d: nat, req: Request, w: nat)
    requires req.Put? && LateShape(t, n, c, d, req, w)
    ensures WrittenAfterReturn(t, n)
  {
    var r, i := n + 3, |t| - 1;
    assert t[i].Executed?;
    assert r < i < |t| && t[r].Returned? && t[r].id == n && Applied(t, i) && t[i].id == n;
  }

  lemma NotAheadNeverLate(s: State, c: nat, req: Request, run: seq<Step>)
    requires Inv(s) && run != [] && run[0] == Invoke(c, req) && Possible(s, run)
    requires req.Put? && req.version <= VersionOf(s.store, req.key)
    ensures !WrittenAfterReturn(After(s, run).trace, |s.trace|)
  {
    var s1 := Do(s, run[0]);
    StepKeepsInv(s, run[0]);
    RunKeepsInv(s1, run[1..]);
    var n, t := |s.trace|, After(s, run).trace;
    assert t[n] == s1.trace[n];
    assert s1.trace[..n] == s.trace && t[..n] == s1.trace[..n];
    assert NotAhead(t, n);
    forall r: nat, i: nat | r < |t| && t[r].Returned? && t[r].id == n && Applied(t, i) && t[i].id == n ensures i < r {
      WritesBeforeReturn(t, r, i);
    }
  }

  /**
   The exact condition, checkable before the call: with another idle client about, a Put can be
   written after it has returned if and only if it asks for a version ahead of the key.
   */
  lemma LateWriteIffAhead(s: State, c: nat, d: nat, req: Request)
    requires Inv(s) && c != d && ClerkOf(s, c).Idle? && ClerkOf(s, d).Idle? && req.Put?
    ensures (exists run :: run != [] && run[0] == Invoke(c, req) && Possible(s, run) &&
                           WrittenAfterReturn(After(s, run).trace, |s.trace|))
            <==> VersionOf(s.store, req.key) < req.version
  {
    if VersionOf(s.store, req.key) < req.version {
      var run := AheadCanWriteLate(s, c, d, req);
    } else {
      forall run | run != [] && run[0] == Invoke(c, req) && Possible(s, run)
        ensures !WrittenAfterReturn(After(s, run).trace, |s.trace|)
      {
        NotAheadNeverLate(s, c, req, run);
      }
    }
  }
}
