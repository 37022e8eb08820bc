/** Exactly when a Put can break linearizability: when it asks for a version ahead of its key. */
module BrokenOrders {
  import opened KvServer
  import opened KvSystem
  import opened PutTruth
  import opened Linearizability
  import opened LateWrites

  ghost predicate Linearizable(t: Trace) {
    exists h :: IsLinearization(t, h)
  }

  /** Between two points of a sequential history every version in between is written by some Put. */
  lemma {:induction false} SeqCrossing(h: seq<SeqOp>, i: nat, n: nat, key: string, v: nat) returns (j: nat)
    requires i <= n <= |h|
    requires VersionOf(SeqStore(h[..i]), key) <= v < VersionOf(SeqStore(h[..n]), key)
    ensures i <= j < n && h[j].req.Put? && h[j].req.key == key && h[j].req.version == v
    ensures VersionOf(SeqStore(h[..j]), key) == v
    decreases n
  {
    assert h[..n][..n - 1] == h[..n - 1];
    if VersionOf(SeqStore(h[..n - 1]), key) > v {
      j := SeqCrossing(h, i, n - 1, key, v);
    } else {
      j := n - 1;
    }
  }

  lemma Listed(t: Trace, h: seq<SeqOp>, r: nat) returns (j: nat)
    requires IsLinearization(t, h) && r < |t| && t[r].Returned?
    ensures j < |h| && h[j] == SeqOp(t[r].id, t[r].req, t[r].out)
  {
    j :| 0 <= j < |h| && h[j] == SeqOp(t[r].id, t[r].req, t[r].out);
  }

  lemma InRealTime(t: Trace, h: seq<SeqOp>, i: nat, j: nat)
    requires IsLinearization(t, h) && i < |h| && j < |h| && Precedes(t, h[i].id, h[j].id)
    ensures i < j
  {
  }

  /** The answer of a listed call is one the sequential store allows at its place. */
  lemma AllowedAt(t: Trace, h: seq<SeqOp>, j: nat)
    requires IsLinearization(t, h) && j < |h|
    ensures Allowed(SeqStore(h[..j]), h[j].req, h[j].out) && IsOp(t, h[j].id) && t[h[j].id].req == h[j].req
  {
  }

  /**
   All Puts of the key at version v had returned when a Put at w < v was invoked that is answered OK, and
   a Get after that reads version v + 1. No order explains this: the version passes w, then v, but every
   Put at v comes before the Put at w.
   */
  lemma NoOrder(t: Trace, h: seq<SeqOp>, key: string, v: nat, p: nat, g: nat)
    requires p < |t| && t[p].Returned? && t[p].req.Put? && t[p].req.key == key && t[p].req.version < v &&
             t[p].out.err == OK
    requires g < |t| && t[g].Returned? && t[g].req == Get(key) && t[g].out.version == v + 1
    requires p < t[g].id
    requires forall id: nat {:trigger IsOp(t, id)} ::
               IsOp(t, id) && t[id].req.Put? && t[id].req.key == key && t[id].req.version == v ==>
                 Precedes(t, id, t[p].id)
    ensures !IsLinearization(t, h)
  {
    if IsLinearization(t, h) {
      var a := Listed(t, h, p);
      var b := Listed(t, h, g);
      assert Precedes(t, h[a].id, h[b].id);
      InRealTime(t, h, a, b);
      AllowedAt(t, h, a);
      AllowedAt(t, h, b);
      var j := SeqCrossing(h, a, b, key, v);
      AllowedAt(t, h, j);
      InRealTime(t, h, j, a);
    }
  }

  // ----- Ahead breaks the order

  /** Every Put of the key at version v so far has returned. */
  ghost predicate Settled(t: Trace, key: string, v: nat) {
    forall id: nat {:trigger IsOp(t, id)} ::
      IsOp(t, id) && t[id].req.Put? && t[id].req.key == key && t[id].req.version == v ==> HasReturned(t, id)
  }

  /** The record of a Put passed by and written late, with a Get at g that read what it wrote. */
  ghost predicate LateAndRead(t: Trace, n: nat, c: nat, d: nat, req: Request, w: nat, g: nat)
    requires req.Put?
  {
    && PassedBy(t, n, c, d, req, w) && TameFrom(t, n + 1, req.key, req.version)
    && g < |t| && t[g].Returned? && t[g].req == Get(req.key) && t[g].out.version == req.version + 1 && t[g].id > n + 6
  }

  /** A late write followed by a Get has no order. */
  lemma LateThenRead(t: Trace, past: Trace, c: nat, d: nat, req: Request, w: nat, g: nat, h: seq<SeqOp>)
    requires req.Put? && past <= t && Settled(past, req.key, req.version) && LateAndRead(t, |past|, c, d, req, w, g)
    ensures !IsLinearization(t, h)
  {
    var n := |past|;
    forall id: nat | IsOp(t, id) && t[id].req.Put? && t[id].req.key == req.key && t[id].req.version == req.version
      ensures Precedes(t, id, n + 4)
    {
      if id < n {
        assert IsOp(past, id);
        var r :| 0 <= r < |past| && past[r].Returned? && past[r].id == id;
        assert t[r] == past[r];
      } else {
        assert id == n;
        assert t[n + 3].Returned? && t[n + 3].id == n;
      }
    }
    NoOrder(t, h, req.key, req.version, n + 6, g);
  }

  lemma ReadRound(z: State, d: nat, n: nat, key: string, v: nat) returns (read: seq<Step>)
    requires Inv(z) && ClerkOf(z, d).Idle? && TameFrom(z.trace, n, key, v)
    ensures Possible(z, read) && TameFrom(After(z, read).trace, n, key, v)
    ensures After(z, read).trace == z.trace + RoundEvents(|z.trace|, d, Get(key), Answer(z.store, Get(key)))
  {
    read := Round(d, Get(key));
    RoundRuns(z, d, Get(key));
    RoundKeepsTame(z, d, Get(key), n, key, v);
  }

  lemma ReadShape(t: Trace, n: nat, c: nat, d: nat, req: Request, w: nat, reply: Reply)
    requires req.Put? && LateShape(t, n, c, d, req, w) && reply.version == req.version + 1
    requires TameFrom(t + RoundEvents(|t|, d, Get(req.key), reply), n + 1, req.key, req.version)
    ensures LateAndRead(t + RoundEvents(|t|, d, Get(req.key), reply), n, c, d, req, w, |t| + 2)
  {
    var u := t + RoundEvents(|t|, d, Get(req.key), reply);
    PassedByPrefix(t, u, n, c, d, req, w);
    assert t[n + 6].Returned? && t[|t| - 1].Executed?;
    assert u[|t| + 2] == Returned(|t|, Get(req.key), reply, |t| + 1);
  }

  lemma ReadLate(z: State, n: nat, c: nat, d: nat, req: Request, w: nat) returns (read: seq<Step>, g: nat)
    requires Inv(z) && ClerkOf(z, d).Idle? && req.Put? && LateShape(z.trace, n, c, d, req, w)
    requires VersionOf(z.store, req.key) == req.version + 1
    ensures Possible(z, read) && LateAndRead(After(z, read).trace, n, c, d, req, w, g)
  {
    read := ReadRound(z, d, n + 1, req.key, req.version);
    g := |z.trace| + 2;
    ReadShape(z.trace, n, c, d, req, w, Answer(z.store, Get(req.key)));
  }

  /** The late write, then a Get by the same other client. */
  lemma LateRead(s: State, c: nat, d: nat, req: Request) returns (run: seq<Step>, g: nat)
    requires Inv(s) && c != d && ClerkOf(s, c).Idle? && ClerkOf(s, d).Idle?
    requires req.Put? && VersionOf(s.store, req.key) < req.version
    ensures run != [] && run[0] == Invoke(c, req) && Possible(s, run)
    ensures LateAndRead(After(s, run).trace, |s.trace|, c, d, req, VersionOf(s.store, req.key), g)
  {
    var late := AheadCanWriteLate(s, c, d, req);
    RunKeepsInv(s, late);
    var read;
    read, g := ReadLate(After(s, late), |s.trace|, c, d, req, VersionOf(s.store, req.key));
    RunConcat(s, late, read);
    run := late + read;
  }

  /**
   From any state in which the Puts at that version have returned, a Put ahead of its key can end in a run
   without an order.
   */
  lemma AheadBreaksOrder(s: State, c: nat, d: nat, req: Request) returns (run: seq<Step>)
    requires Inv(s) && c != d && ClerkOf(s, c).Idle? && ClerkOf(s, d).Idle?
    requires req.Put? && VersionOf(s.store, req.key) < req.version && Settled(s.trace, req.key, req.version)
    ensures run != [] && run[0] == Invoke(c, req) && Possible(s, run)
    ensures NotAheadFrom(After(s, run).trace, |s.trace| + 1)
    ensures !Linearizable(After(s, run).trace)
  {
    var g;
    run, g := LateRead(s, c, d, req);
    RunKeepsInv(s, run);
    var t := After(s, run).trace;
    forall h ensures !IsLinearization(t, h) {
      LateThenRead(t, s.trace, c, d, req, VersionOf(s.store, req.key), g, h);
    }
  }

  // ----- Not ahead keeps it

  lemma NotAheadLinearizable(t: Trace)
    requires WellFormed(t) && NotAheadFrom(t, 0)
    ensures Linearizable(t)
  {
    NotAheadIsCareful(t);
    CarefulTraceLinearizable(t);
  }

  /** Every run in which no Put is ahead of its key when invoked is linearizable, with any losses and strays. */
  lemma NotAheadRunsAreLinearizable(run: seq<Step>)
    requires Possible(INIT, run) && NotAheadFrom(After(INIT, run).trace, 0)
    ensures Linearizable(After(INIT, run).trace)
  {
    InitInv();
    RunKeepsInv(INIT, run);
    NotAheadLinearizable(After(INIT, run).trace);
  }

  /** A Put that is not ahead joins calls that were not ahead before and are not after. */
  lemma NotAheadThroughout(s: State, c: nat, req: Request, run: seq<Step>)
    requires Inv(s) && NotAheadFrom(s.trace, 0) && req.Put? && req.version <= VersionOf(s.store, req.key)
    requires run != [] && run[0] == Invoke(c, req) && Possible(s, run) &&
             NotAheadFrom(After(s, run).trace, |s.trace| + 1)
    ensures WellFormed(After(s, run).trace) && NotAheadFrom(After(s, run).trace, 0)
  {
    var s1 := Do(s, run[0]);
    StepKeepsInv(s, run[0]);
    RunKeepsInv(s, run);
    RunKeepsInv(s1, run[1..]);
    var t, n := After(s, run).trace, |s.trace|;
    assert s1.trace <= t && t[n] == s1.trace[n] && t[..n] == s.trace;
    forall id: nat | IsOp(t, id) ensures NotAhead(t, id) {
      if id < n {
        assert IsOp(s.trace, id) && NotAhead(s.trace, id);
        NotAheadPrefix(s.trace, t, id);
      }
    }
  }

  /** No Put before the next call is ahead, so none asks for a version the key has not reached. */
  lemma NotAheadSettled(s: State, key: string, v: nat)
    requires Inv(s) && NotAheadFrom(s.trace, 0) && VersionOf(s.store, key) < v
    ensures Settled(s.trace, key, v)
  {
    var t := s.trace;
    forall id: nat | IsOp(t, id) && t[id].req.Put? && t[id].req.key == key ensures t[id].req.version < v {
      assert NotAhead(t, id);
      VersionsGrow(t, id, |t|, key);
      assert t[..|t|] == t;
    }
  }

  /**
   The exact condition for linearizability, checkable before the call. In a state reached by Puts that were
   not ahead, with another idle client about: a Put can end in a run without an order, all later Puts
   again not being ahead, if and only if it asks for a version ahead of its key.
   */
  lemma OrderBreaksIffAhead(s: State, c: nat, d: nat, req: Request)
    requires Inv(s) && NotAheadFrom(s.trace, 0)
    requires c != d && ClerkOf(s, c).Idle? && ClerkOf(s, d).Idle? && req.Put?
    ensures (exists run :: run != [] && run[0] == Invoke(c, req) && Possible(s, run) &&
                           NotAheadFrom(After(s, run).trace, |s.trace| + 1) && !Linearizable(After(s, run).trace))
            <==> VersionOf(s.store, req.key) < req.version
  {
    if VersionOf(s.store, req.key) < req.version {
      NotAheadSettled(s, req.key, req.version);
      var run := AheadBreaksOrder(s, c, d, req);
    } else {
      forall run | run != [] && run[0] == Invoke(c, req) && Possible(s, run) &&
          NotAheadFrom(After(s, run).trace, |s.trace| + 1)
        ensures Linearizable(After(s, run).trace)
      {
        NotAheadThroughout(s, c, req, run);
        NotAheadLinearizable(After(s, run).trace);
      }
    }
  }

  // ----- The smallest such run

  /** Client 0 puts ahead of a missing key; client 1 creates the key; the stray overwrites it. */
  function StaleOverwrite(k: string, x: string, y: string): seq<Step> {
    [Invoke(0, Put(k, x, 1)), Abandon(0), Serve(0)] +
    ([Deliver(0), Invoke(1, Put(k, y, 0)), Serve(1)] +
     ([Deliver(1), ServeStray(0), Invoke(1, Get(k))] + ([Serve(1)] + [Deliver(1)])))
  }

  function StaleTrace(k: string, x: string, y: string): Trace {
    [Invoked(0, Put(k, x, 1)), Abandoned(0),
     Executed(0, Put(k, x, 1), Reply("", 0, ErrNoKey)), Returned(0, Put(k, x, 1), Reply("", 0, ErrNoKey), 2),
     Invoked(1, Put(k, y, 0)),
     Executed(4, Put(k, y, 0), Reply("", 0, OK)), Returned(4, Put(k, y, 0), Reply("", 0, OK), 5),
     Executed(0, Put(k, x, 1), Reply("", 0, OK)),
     Invoked(1, Get(k)),
     Executed(8, Get(k), Reply(x, 2, OK)), Returned(8, Get(k), Reply(x, 2, OK), 9)]
  }

  lemma StaleFirst(k: string, x: string, y: string) returns (a: State)
    ensures Possible(INIT, [Invoke(0, Put(k, x, 1)), Abandon(0), Serve(0)])
    ensures a == After(INIT, [Invoke(0, Put(k, x, 1)), Abandon(0), Serve(0)])
    ensures a == State(map[], map[0 := Calling(0, 1, Answered(2, Reply("", 0, ErrNoKey)))], multiset{0},
                       StaleTrace(k, x, y)[..3])
  {
    RunThree(INIT, Invoke(0, Put(k, x, 1)), Abandon(0), Serve(0));
    a := Do(Do(Do(INIT, Invoke(0, Put(k, x, 1))), Abandon(0)), Serve(0));
  }

  lemma StaleSecond(k: string, x: string, y: string, a: State) returns (b: State)
    requires a == State(map[], map[0 := Calling(0, 1, Answered(2, Reply("", 0, ErrNoKey)))], multiset{0},
                        StaleTrace(k, x, y)[..3])
    ensures Possible(a, [Deliver(0), Invoke(1, Put(k, y, 0)), Serve(1)])
    ensures b == After(a, [Deliver(0), Invoke(1, Put(k, y, 0)), Serve(1)])
    ensures b == State(map[k := Entry(y, 1)], map[0 := Idle, 1 := Calling(4, 0, Answered(5, Reply("", 0, OK)))],
                       multiset{0}, StaleTrace(k, x, y)[..6])
  {
    var u := Do(a, Deliver(0));
    assert u.trace == StaleTrace(k, x, y)[..4];
    var v := Do(u, Invoke(1, Put(k, y, 0)));
    assert v.trace == StaleTrace(k, x, y)[..5];
    RunThree(a, Deliver(0), Invoke(1, Put(k, y, 0)), Serve(1));
    b := Do(v, Serve(1));
  }

  lemma StaleThird(k: string, x: string, y: string, b: State) returns (c: State)
    requires b == State(map[k := Entry(y, 1)], map[0 := Idle, 1 := Calling(4, 0, Answered(5, Reply("", 0, OK)))],
                        multiset{0}, StaleTrace(k, x, y)[..6])
    ensures Possible(b, [Deliver(1), ServeStray(0), Invoke(1, Get(k))])
    ensures c == After(b, [Deliver(1), ServeStray(0), Invoke(1, Get(k))])
    ensures c.store == map[k := Entry(x, 2)] && c.trace == StaleTrace(k, x, y)[..9]
    ensures ClerkOf(c, 1) == Calling(8, 0, Waiting)
  {
    var u := Do(b, Deliver(1));
    assert u.trace == StaleTrace(k, x, y)[..7];
    var v := Do(u, ServeStray(0));
    assert v.trace == StaleTrace(k, x, y)[..8];
    RunThree(b, Deliver(1), ServeStray(0), Invoke(1, Get(k)));
    c := Do(v, Invoke(1, Get(k)));
  }

  lemma StaleFourth(k: string, x: string, y: string, c: State)
    requires c.store == map[k := Entry(x, 2)] && c.trace == StaleTrace(k, x, y)[..9]
    requires ClerkOf(c, 1) == Calling(8, 0, Waiting)
    ensures Possible(c, [Serve(1)] + [Deliver(1)])
    ensures After(c, [Serve(1)] + [Deliver(1)]).trace == StaleTrace(k, x, y)
  {
    RunOne(c, Serve(1));
    var d := Do(c, Serve(1));
    assert d.trace == StaleTrace(k, x, y)[..10];
    RunOne(d, Deliver(1));
    RunConcat(c, [Serve(1)], [Deliver(1)]);
  }

  lemma StaleOverwriteRuns(k: string, x: string, y: string)
    ensures Possible(INIT, StaleOverwrite(k, x, y))
    ensures After(INIT, StaleOverwrite(k, x, y)).trace == StaleTrace(k, x, y)
  {
    var a := StaleFirst(k, x, y);
    var b := StaleSecond(k, x, y, a);
    var c := StaleThird(k, x, y, b);
    StaleFourth(k, x, y, c);
    var last := [Serve(1)] + [Deliver(1)];
    var third := [Deliver(1), ServeStray(0), Invoke(1, Get(k))];
    var second := [Deliver(0), Invoke(1, Put(k, y, 0)), Serve(1)];
    RunConcat(b, third, last);
    RunConcat(a, second, third + last);
    RunConcat(INIT, [Invoke(0, Put(k, x, 1)), Abandon(0), Serve(0)], second + (third + last));
  }

  /** The Get sees version 2, but the Put at version 1 had returned before the Put at version 0 was invoked. */
  lemma StaleTraceNotLinearizable(k: string, x: string, y: string)
    ensures !Linearizable(StaleTrace(k, x, y))
  {
    var t := StaleTrace(k, x, y);
    forall id: nat | IsOp(t, id) && t[id].req.Put? && t[id].req.version == 1 ensures Precedes(t, id, 4) {
      StaleCalls(k, x, y, id);
      assert t[3].Returned?;
    }
    forall h ensures !IsLinearization(t, h) {
      NoOrder(t, h, k, 1, 6, 10);
    }
  }

  lemma StaleCalls(k: string, x: string, y: string, id: nat)
    requires IsOp(StaleTrace(k, x, y), id)
    ensures id == 0 || id == 4 || id == 8
  {
    assert id <= 10;
  }
}
