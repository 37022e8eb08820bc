/** How many Puts a key has seen, counted at the server and counted by the clients. */
module PutCounts {
  import opened KvServer
  import opened KvSystem
  import opened PutTruth

  /** The handler runs that wrote the key. */
  function WritesOf(t: Trace, key: string): set<nat> {
    set i: nat | i < |t| && Applied(t, i) && t[i].req.key == key
  }

  /** The returns of Puts on the key by client c with the given answer. */
  predicate Answered(t: Trace, key: string, c: nat, err: Err, r: nat) {
    r < |t| && t[r].Returned? && t[r].req.Put? && t[r].req.key == key && t[r].out.err == err &&
    IsOp(t, t[r].id) && t[t[r].id].client == c
  }

  function AnswersOf(t: Trace, key: string, c: nat, err: Err): set<nat> {
    set r: nat | r < |t| && Answered(t, key, c, err, r)
  }

  /** Answers to the clients below n. */
  function AnswersBelow(t: Trace, key: string, n: nat, err: Err): set<nat>
  {
    set r: nat | r < |t| && t[r].Returned? && IsOp(t, t[r].id) && t[t[r].id].client < n &&
                 Answered(t, key, t[t[r].id].client, err, r)
  }

  /** Only clients below n put to the key, and each of their Puts has returned. */
  ghost predicate AllDone(t: Trace, key: string, n: nat) {
    forall id: nat :: IsOp(t, id) && t[id].req.Put? && t[id].req.key == key ==>
                        t[id].client < n && HasReturned(t, id)
  }

  lemma {:induction false} Injection(a: set<nat>, b: set<nat>, f: map<nat, nat>)
    requires forall x :: x in a ==> x in f && f[x] in b
    requires forall x, y :: x in a && y in a && f[x] == f[y] ==> x == y
    ensures |a| <= |b|
    decreases |a|
  {
    if a != {} {
      var x :| x in a;
      Injection(a - {x}, b - {f[x]}, f);
    }
  }

  lemma VersionStep(t: Trace, i: nat, key: string)
    requires WellFormed(t) && i < |t|
    ensures VersionAt(t, i + 1, key) == VersionAt(t, i, key) + if i in WritesOf(t, key) then 1 else 0
  {
    StoreStep(t, i);
    if t[i].Executed? && t[i].req.Put? {
      WriteBumps(t, i);
    }
  }

  function WritesBefore(t: Trace, n: nat, key: string): set<nat> {
    set i: nat | i < n && i in WritesOf(t, key)
  }

  lemma WritesBeforeStep(t: Trace, n: nat, key: string)
    ensures |WritesBefore(t, n + 1, key)| == |WritesBefore(t, n, key)| + if n in WritesOf(t, key) then 1 else 0
  {
    assert WritesBefore(t, n + 1, key) == WritesBefore(t, n, key) + if n in WritesOf(t, key) then {n} else {};
  }

  /** A key's version is the number of Puts applied to it so far. */
  lemma {:induction false} VersionCountsWrites(t: Trace, n: nat, key: string)
    requires WellFormed(t) && n <= |t|
    ensures VersionAt(t, n, key) == |WritesBefore(t, n, key)|
  {
    if n == 0 {
      assert WritesBefore(t, n, key) == {};
    } else {
      VersionCountsWrites(t, n - 1, key);
      VersionStep(t, n - 1, key);
      WritesBeforeStep(t, n - 1, key);
    }
  }

  lemma VersionIsWriteCount(t: Trace, key: string)
    requires WellFormed(t)
    ensures VersionOf(StoreAfter(t), key) == |WritesOf(t, key)|
  {
    VersionCountsWrites(t, |t|, key);
    assert t[..|t|] == t;
    assert WritesBefore(t, |t|, key) == WritesOf(t, key);
  }

  lemma OkAtMostVersion(t: Trace, key: string, n: nat)
    requires WellFormed(t)
    ensures |AnswersBelow(t, key, n, OK)| <= VersionOf(StoreAfter(t), key)
  {
    var a := AnswersBelow(t, key, n, OK);
    var f := map r | r in a :: t[r].at;
    forall r | r in a ensures f[r] in WritesOf(t, key) {
      ReturnOf(t, r);
    }
    forall r, q | r in a && q in a && f[r] == f[q] ensures r == q {
      ReturnOf(t, r);
      ReturnOf(t, q);
      OneReturnPerCall(t, r, q);
    }
    Injection(a, WritesOf(t, key), f);
    VersionIsWriteCount(t, key);
  }

  /** The return that accounts for a write. */
  lemma WriteIsAnswered(t: Trace, key: string, n: nat, i: nat) returns (r: nat)
    requires WellFormed(t) && Careful(t) && AllDone(t, key, n) && i in WritesOf(t, key)
    ensures r in AnswersBelow(t, key, n, OK) + AnswersBelow(t, key, n, ErrMaybe)
    ensures t[r].Returned? && t[r].id == t[i].id
  {
    RequestOf(t, i);
    assert HasReturned(t, t[i].id);
    r :| r < |t| && t[r].Returned? && t[r].id == t[i].id;
    ReturnOf(t, r);
    AnswerTruthful(t, r);
  }

  lemma VersionAtMostAnswers(t: Trace, key: string, n: nat)
    requires WellFormed(t) && Careful(t) && AllDone(t, key, n)
    ensures VersionOf(StoreAfter(t), key) <=
            |AnswersBelow(t, key, n, OK)| + |AnswersBelow(t, key, n, ErrMaybe)|
  {
    var w := WritesOf(t, key);
    var a := AnswersBelow(t, key, n, OK) + AnswersBelow(t, key, n, ErrMaybe);
    var f := AccountFor(t, key, n, w);
    forall i, j | i in w && j in w && f[i] == f[j] ensures i == j {
      OneWritePerCall(t, i, j);
    }
    Injection(w, a, f);
    VersionIsWriteCount(t, key);
  }

  lemma {:induction false} AccountFor(t: Trace, key: string, n: nat, w: set<nat>) returns (f: map<nat, nat>)
    requires WellFormed(t) && Careful(t) && AllDone(t, key, n) && w <= WritesOf(t, key)
    ensures f.Keys == w
    ensures forall i :: i in w ==>
              f[i] in AnswersBelow(t, key, n, OK) + AnswersBelow(t, key, n, ErrMaybe) &&
              t[f[i]].Returned? && t[f[i]].id == t[i].id
    decreases |w|
  {
    if w == {} {
      f := map[];
    } else {
      var i :| i in w;
      var r := WriteIsAnswered(t, key, n, i);
      var g := AccountFor(t, key, n, w - {i});
      f := g[i := r];
    }
  }

  /** ErrMaybe is only answered after a loss. */
  lemma MaybeMeansLoss(t: Trace, r: nat) returns (f: nat)
    requires WellFormed(t) && r < |t| && t[r].Returned? && t[r].out.err == ErrMaybe
    ensures f < |t| && (t[f].Lost? || t[f].Abandoned?)
  {
    ReturnOf(t, r);
    assert EventOk(t[..t[r].at], t[t[r].at]);
    f :| f < r && (t[..r][f] == Lost(t[r].id) || t[..r][f] == Abandoned(t[r].id));
  }

  lemma ReliableHasNoMaybe(t: Trace, key: string, n: nat)
    requires WellFormed(t) && forall i :: 0 <= i < |t| ==> !t[i].Lost? && !t[i].Abandoned?
    ensures AnswersBelow(t, key, n, ErrMaybe) == {}
  {
    if r :| r in AnswersBelow(t, key, n, ErrMaybe) {
      var f := MaybeMeansLoss(t, r);
    }
  }

  /** The event is the return of a Put on the key by client c with that answer. */
  predicate IsMine(t: Trace, e: Event, key: string, c: nat, err: Err) {
    e.Returned? && e.req.Put? && e.req.key == key && e.out.err == err && IsOp(t, e.id) && t[e.id].client == c
  }

  lemma AnswerKept(t: Trace, e: Event, key: string, c: nat, err: Err, r: nat)
    requires WellFormed(t) && r < |t|
    ensures Answered(t + [e], key, c, err, r) <==> Answered(t, key, c, err, r)
  {
    assert (t + [e])[r] == t[r];
    if t[r].Returned? {
      ReturnOf(t, r);
      assert (t + [e])[t[r].id] == t[t[r].id];
    }
  }

  lemma AnswerAdded(t: Trace, e: Event, key: string, c: nat, err: Err)
    requires e.Returned? ==> IsOp(t, e.id)
    ensures Answered(t + [e], key, c, err, |t|) <==> IsMine(t, e, key, c, err)
  {
    assert (t + [e])[|t|] == e;
    assert e.Returned? ==> (t + [e])[e.id] == t[e.id];
  }

  /** Only the return of a Put with that answer adds to the answers of a client. */
  lemma AnswersExtend(t: Trace, e: Event, key: string, c: nat, err: Err)
    requires WellFormed(t) && (e.Returned? ==> IsOp(t, e.id))
    ensures |AnswersOf(t + [e], key, c, err)| == |AnswersOf(t, key, c, err)| + if IsMine(t, e, key, c,
            err) then 1 else 0
  {
    var a, b := AnswersOf(t, key, c, err), AnswersOf(t + [e], key, c, err);
    forall r: nat ensures r in b <==> r in a || (r == |t| && IsMine(t, e, key, c, err)) {
      if r < |t| {
        AnswerKept(t, e, key, c, err, r);
      } else if r == |t| {
        AnswerAdded(t, e, key, c, err);
      }
    }
    assert b == a + if IsMine(t, e, key, c, err) then {|t|} else {};
    assert |t| !in a;
  }

  // ----- The test's tally

  datatype ClntRes = ClntRes(nok: nat, nmaybe: nat)

  function SumOk(rs: seq<ClntRes>): nat {
    if rs == [] then 0 else SumOk(rs[..|rs| - 1]) + rs[|rs| - 1].nok
  }

  function SumMaybe(rs: seq<ClntRes>): nat {
    if rs == [] then 0 else SumMaybe(rs[..|rs| - 1]) + rs[|rs| - 1].nmaybe
  }

  /** False where the test would stop with a wrong number of puts. */
  method CheckPutConcurrent(ver: nat, rs: seq<ClntRes>, reliable: bool) returns (ok: bool, res: ClntRes)
    ensures res == ClntRes(SumOk(rs), SumMaybe(rs))
    ensures ok <==> if reliable then ver == SumOk(rs) else ver <= SumOk(rs) + SumMaybe(rs)
  {
    res := ClntRes(0, 0);
    for i := 0 to |rs|
      invariant res == ClntRes(SumOk(rs[..i]), SumMaybe(rs[..i]))
    {
      assert rs[..i + 1][..i] == rs[..i];
      res := ClntRes(res.nok + rs[i].nok, res.nmaybe + rs[i].nmaybe);
    }
    assert rs[..|rs|] == rs;
    if reliable {
      ok := ver == res.nok;
    } else {
      ok := ver <= res.nok + res.nmaybe;
    }
  }

  /** Client c's result counts its own answers. */
  ghost predicate Tally(t: Trace, key: string, rs: seq<ClntRes>) {
    forall c :: 0 <= c < |rs| ==>
      rs[c].nok == |AnswersOf(t, key, c, OK)| && rs[c].nmaybe == |AnswersOf(t, key, c, ErrMaybe)|
  }

  lemma SplitAnswers(t: Trace, key: string, n: nat, err: Err)
    ensures |AnswersBelow(t, key, n + 1, err)| == |AnswersBelow(t, key, n, err)| + |AnswersOf(t, key, n, err)|
  {
    var a, b := AnswersBelow(t, key, n, err), AnswersOf(t, key, n, err);
    assert AnswersBelow(t, key, n + 1, err) == a + b;
    assert a !! b;
  }

  lemma {:induction false} TallySums(t: Trace, key: string, rs: seq<ClntRes>)
    requires Tally(t, key, rs)
    ensures SumOk(rs) == |AnswersBelow(t, key, |rs|, OK)|
    ensures SumMaybe(rs) == |AnswersBelow(t, key, |rs|, ErrMaybe)|
    decreases |rs|
  {
    if rs == [] {
      assert AnswersBelow(t, key, 0, OK) == {} && AnswersBelow(t, key, 0, ErrMaybe) == {};
    } else {
      var n := |rs| - 1;
      TallySums(t, key, rs[..n]);
      SplitAnswers(t, key, n, OK);
      SplitAnswers(t, key, n, ErrMaybe);
    }
  }

  lemma TraceCounts(t: Trace, key: string, rs: seq<ClntRes>)
    requires WellFormed(t) && Careful(t) && AllDone(t, key, |rs|) && Tally(t, key, rs)
    ensures SumOk(rs) <= VersionOf(StoreAfter(t), key) <= SumOk(rs) + SumMaybe(rs)
    ensures (forall i :: 0 <= i < |t| ==> !t[i].Lost? && !t[i].Abandoned?) ==>
            VersionOf(StoreAfter(t), key) == SumOk(rs)
  {
    TallySums(t, key, rs);
    OkAtMostVersion(t, key, |rs|);
    VersionAtMostAnswers(t, key, |rs|);
    if forall i :: 0 <= i < |t| ==> !t[i].Lost? && !t[i].Abandoned? {
      ReliableHasNoMaybe(t, key, |rs|);
    }
  }

  /**
   For every run in which the clients of a key have finished: successes <= version <= successes plus
   maybes, and when nothing was lost the version is exactly the number of successes.
   */
  lemma PutCountsAgree(run: seq<Step>, key: string, rs: seq<ClntRes>)
    requires Possible(INIT, run) && Careful(After(INIT, run).trace)
    requires AllDone(After(INIT, run).trace, key, |rs|) && Tally(After(INIT, run).trace, key, rs)
    ensures SumOk(rs) <= VersionOf(After(INIT, run).store, key) <= SumOk(rs) + SumMaybe(rs)
    ensures (forall i :: 0 <= i < |After(INIT, run).trace| ==>
               !After(INIT, run).trace[i].Lost? && !After(INIT, run).trace[i].Abandoned?)
            ==> VersionOf(After(INIT, run).store, key) == SumOk(rs)
  {
    InitInv();
    RunKeepsInv(INIT, run);
    TraceCounts(After(INIT, run).trace, key, rs);
  }
}
