/** Every careful run of the clerks is linearizable. */
module Linearizability {
  import opened KvServer
  import opened KvSystem
  import opened PutTruth

  /** A call together with the answer it gets in a sequential history. */
  datatype SeqOp = SeqOp(id: nat, req: Request, out: Reply)

  /** The answers a sequential store may give: the server's own, or "maybe" to a Put. */
  predicate Allowed(st: Store, req: Request, out: Reply) {
    out == Answer(st, req) || (req.Put? && out == Reply("", 0, ErrMaybe))
  }

  function SeqStore(h: seq<SeqOp>): Store {
    if h == [] then map[]
    else NextStore(SeqStore(h[..|h| - 1]), h[|h| - 1].req)
  }

  ghost predicate Legal(h: seq<SeqOp>) {
    forall j :: 0 <= j < |h| ==> Allowed(SeqStore(h[..j]), h[j].req, h[j].out)
  }

  /** Call a returned before call b was invoked. */
  ghost predicate Precedes(t: Trace, a: nat, b: nat) {
    exists r :: 0 <= r < b && r < |t| && t[r].Returned? && t[r].id == a
  }

  ghost predicate ReturnedWith(t: Trace, id: nat, out: Reply) {
    exists r :: 0 <= r < |t| && t[r].Returned? && t[r].id == id && t[r].out == out
  }

  /**
   h is a sequential order of the calls of t: each call at most once, every returned call with the
   answer it returned, besides those only Puts still pending, never against the real-time order,
   and legal for one sequential store.
   */
  ghost predicate IsLinearization(t: Trace, h: seq<SeqOp>) {
    && (forall j :: 0 <= j < |h| ==> IsOp(t, h[j].id) && t[h[j].id].req == h[j].req)
    && (forall i, j :: 0 <= i < |h| && 0 <= j < |h| && h[i].id == h[j].id ==> i == j)
    && (forall r :: 0 <= r < |t| && t[r].Returned? ==>
          exists j :: 0 <= j < |h| && h[j] == SeqOp(t[r].id, t[r].req, t[r].out))
    && (forall j :: 0 <= j < |h| ==>
          ReturnedWith(t, h[j].id, h[j].out) || (!HasReturned(t, h[j].id) && h[j].req.Put?))
    && (forall i, j :: 0 <= i < |h| && 0 <= j < |h| && Precedes(t, h[i].id, h[j].id) ==> i < j)
    && Legal(h)
  }

  // ----- The order: each call at its write, or at the run that answered it

  /** The handler run at which its call takes effect. */
  ghost predicate Point(t: Trace, i: nat) {
    i < |t| && t[i].Executed? &&
    (Applied(t, i) ||
     (!AppliedFor(t, t[i].id) && exists r :: 0 <= r < |t| && t[r].Returned? && t[r].at == i))
  }

  ghost function OutOf(t: Trace, id: nat): Reply {
    if HasReturned(t, id) then
      var r :| 0 <= r < |t| && t[r].Returned? && t[r].id == id;
      t[r].out
    else Reply("", 0, OK)
  }

  ghost function Points(t: Trace, n: nat): seq<nat>
    requires n <= |t|
  {
    if n == 0 then [] else Points(t, n - 1) + if Point(t, n - 1) then [n - 1] else []
  }

  ghost function OpAt(t: Trace, i: nat): SeqOp
    requires i < |t| && t[i].Executed?
  {
    SeqOp(t[i].id, t[i].req, OutOf(t, t[i].id))
  }

  ghost function Order(t: Trace, n: nat): seq<SeqOp>
    requires n <= |t|
  {
    if n == 0 then [] else Order(t, n - 1) + if Point(t, n - 1) then [OpAt(t, n - 1)] else []
  }

  lemma {:induction false} PointsSorted(t: Trace, n: nat)
    requires n <= |t|
    ensures |Points(t, n)| == |Order(t, n)|
    ensures forall j :: 0 <= j < |Points(t, n)| ==>
              Points(t, n)[j] < n && Point(t, Points(t, n)[j]) && Order(t, n)[j] == OpAt(t, Points(t, n)[j])
    ensures forall i, j :: 0 <= i < j < |Points(t, n)| ==> Points(t, n)[i] < Points(t, n)[j]
    ensures forall i: nat :: i < n && Point(t, i) ==> i in Points(t, n)
  {
    if n > 0 {
      PointsSorted(t, n - 1);
    }
  }

  lemma OutOfReturned(t: Trace, r: nat)
    requires WellFormed(t) && r < |t| && t[r].Returned?
    ensures OutOf(t, t[r].id) == t[r].out
  {
    assert HasReturned(t, t[r].id);
    var q :| 0 <= q < |t| && t[q].Returned? && t[q].id == t[r].id && OutOf(t, t[r].id) == t[q].out;
    OneReturnPerCall(t, q, r);
  }

  /** At its point the sequential store allows the answer of the call. */
  lemma PointAllows(t: Trace, i: nat)
    requires WellFormed(t) && Careful(t) && Point(t, i)
    ensures Allowed(StoreAfter(t[..i]), t[i].req, OutOf(t, t[i].id))
  {
    var id := t[i].id;
    assert EventOk(t[..i], t[i]);
    if r: nat :| r < |t| && t[r].Returned? && t[r].id == id {
      OutOfReturned(t, r);
      ReturnOf(t, r);
      assert EventOk(t[..t[r].at], t[t[r].at]);
      if Applied(t, i) {
        if t[r].out.err == ErrVersion {
          ErrVersionMeansNever(t, r);
        } else if t[r].out.err == ErrNoKey {
          RequestOf(t, i);
          ErrNoKeyMeansNever(t, r);
        }
      } else {
        var q :| 0 <= q < |t| && t[q].Returned? && t[q].at == i;
        ReturnOf(t, q);
        OneReturnPerCall(t, q, r);
      }
    } else if !Applied(t, i) {
      var q :| 0 <= q < |t| && t[q].Returned? && t[q].at == i;
      ReturnOf(t, q);
    }
  }

  lemma LegalExtend(h: seq<SeqOp>, o: SeqOp)
    requires Legal(h) && Allowed(SeqStore(h), o.req, o.out)
    ensures Legal(h + [o])
    ensures SeqStore(h + [o]) == NextStore(SeqStore(h), o.req)
  {
    assert (h + [o])[..|h|] == h;
    assert forall j :: 0 <= j < |h| ==> (h + [o])[..j] == h[..j];
  }

  /** An event that is no point leaves the store as it is. */
  lemma NoPointNoChange(t: Trace, i: nat)
    requires WellFormed(t) && i < |t| && !Point(t, i)
    ensures StoreAfter(t[..i + 1]) == StoreAfter(t[..i])
  {
    StoreStep(t, i);
    if t[i].Executed? && t[i].req.Put? {
      WriteBumps(t, i);
    }
  }

  /** The order is legal, and its store is the server's at every moment. */
  lemma {:induction false} OrderLegal(t: Trace, n: nat)
    requires WellFormed(t) && Careful(t) && n <= |t|
    ensures Legal(Order(t, n))
    ensures SeqStore(Order(t, n)) == StoreAfter(t[..n])
  {
    if n > 0 {
      var m := n - 1;
      OrderLegal(t, m);
      if Point(t, m) {
        StoreStep(t, m);
        PointAllows(t, m);
        LegalExtend(Order(t, m), OpAt(t, m));
      } else {
        NoPointNoChange(t, m);
        assert Order(t, n) == Order(t, m);
      }
    }
  }

  lemma OnePointPerCall(t: Trace, i: nat, j: nat)
    requires WellFormed(t) && Point(t, i) && Point(t, j) && t[i].id == t[j].id
    ensures i == j
  {
    if Applied(t, i) && Applied(t, j) {
      OneWritePerCall(t, i, j);
    } else if !Applied(t, i) && !Applied(t, j) {
      var r :| 0 <= r < |t| && t[r].Returned? && t[r].at == i;
      var q :| 0 <= q < |t| && t[q].Returned? && t[q].at == j;
      ReturnOf(t, r);
      ReturnOf(t, q);
      OneReturnPerCall(t, r, q);
    }
  }

  /** A returned call has its point strictly between invocation and return: its write if it has one. */
  lemma PointOfReturned(t: Trace, r: nat) returns (i: nat)
    requires WellFormed(t) && Careful(t) && r < |t| && t[r].Returned?
    ensures Point(t, i) && t[i].id == t[r].id && t[r].id < i < r
    ensures if AppliedFor(t, t[r].id) then Applied(t, i) else i == t[r].at
  {
    ReturnOf(t, r);
    if AppliedFor(t, t[r].id) {
      i :| i < |t| && Applied(t, i) && t[i].id == t[r].id;
      WritesBeforeReturn(t, r, i);
    } else {
      i := t[r].at;
    }
  }

  lemma PointBefore(t: Trace, i: nat, r: nat)
    requires WellFormed(t) && Careful(t) && Point(t, i) && r < |t| && t[r].Returned? && t[r].id == t[i].id
    ensures i < r
  {
    var k := PointOfReturned(t, r);
    OnePointPerCall(t, i, k);
  }

  lemma OrderComplete(t: Trace, r: nat)
    requires WellFormed(t) && Careful(t) && r < |t| && t[r].Returned?
    ensures exists j :: 0 <= j < |Order(t, |t|)| && Order(t, |t|)[j] == SeqOp(t[r].id, t[r].req, t[r].out)
  {
    PointsSorted(t, |t|);
    var i := PointOfReturned(t, r);
    var j :| 0 <= j < |Points(t, |t|)| && Points(t, |t|)[j] == i;
    OutOfReturned(t, r);
    ReturnOf(t, r);
    RequestOf(t, i);
    assert Order(t, |t|)[j] == OpAt(t, i);
  }

  lemma OrderRealTime(t: Trace, i: nat, j: nat)
    requires WellFormed(t) && Careful(t) && i < |Order(t, |t|)| && j < |Order(t, |t|)|
    ensures Precedes(t, Order(t, |t|)[i].id, Order(t, |t|)[j].id) ==> i < j
    ensures Order(t, |t|)[i].id == Order(t, |t|)[j].id ==> i == j
  {
    PointsSorted(t, |t|);
    var p := Points(t, |t|);
    if t[p[i]].id == t[p[j]].id {
      OnePointPerCall(t, p[i], p[j]);
    }
    if Precedes(t, t[p[i]].id, t[p[j]].id) {
      var r :| 0 <= r < t[p[j]].id && r < |t| && t[r].Returned? && t[r].id == t[p[i]].id;
      PointBefore(t, p[i], r);
      RequestOf(t, p[j]);
    }
  }

  lemma OrderAnswers(t: Trace, j: nat)
    requires WellFormed(t) && j < |Order(t, |t|)|
    ensures IsOp(t, Order(t, |t|)[j].id) && t[Order(t, |t|)[j].id].req == Order(t, |t|)[j].req
    ensures ReturnedWith(t, Order(t, |t|)[j].id, Order(t, |t|)[j].out) ||
            (!HasReturned(t, Order(t, |t|)[j].id) && Order(t, |t|)[j].req.Put?)
  {
    PointsSorted(t, |t|);
    var i := Points(t, |t|)[j];
    RequestOf(t, i);
    if r: nat :| r < |t| && t[r].Returned? && t[r].id == t[i].id {
      OutOfReturned(t, r);
    } else if !Applied(t, i) {
      var q :| 0 <= q < |t| && t[q].Returned? && t[q].at == i;
      ReturnOf(t, q);
    }
  }

  lemma CarefulTraceLinearizable(t: Trace)
    requires WellFormed(t) && Careful(t)
    ensures IsLinearization(t, Order(t, |t|))
  {
    var h := Order(t, |t|);
    OrderLegal(t, |t|);
    forall r | 0 <= r < |t| && t[r].Returned?
      ensures exists j :: 0 <= j < |h| && h[j] == SeqOp(t[r].id, t[r].req, t[r].out)
    {
      OrderComplete(t, r);
    }
    forall j | 0 <= j < |h|
      ensures IsOp(t, h[j].id) && t[h[j].id].req == h[j].req
      ensures ReturnedWith(t, h[j].id, h[j].out) || (!HasReturned(t, h[j].id) && h[j].req.Put?)
    {
      OrderAnswers(t, j);
    }
    forall i, j | 0 <= i < |h| && 0 <= j < |h|
      ensures Precedes(t, h[i].id, h[j].id) ==> i < j
      ensures h[i].id == h[j].id ==> i == j
    {
      OrderRealTime(t, i, j);
    }
  }

  /** Every run of any number of clerks over the lossy network is linearizable. */
  lemma RunsAreLinearizable(run: seq<Step>)
    requires Possible(INIT, run) && Careful(After(INIT, run).trace)
    ensures exists h :: IsLinearization(After(INIT, run).trace, h)
  {
    InitInv();
    RunKeepsInv(INIT, run);
    CarefulTraceLinearizable(After(INIT, run).trace);
  }
}
