/** The test's check of the append log, and that every run passes it. */
module AppendCheck {
  import opened KvServer
  import opened PutCounts
  import opened AppendLog

  /** One past the last number of client c in the list; 0 if it has none. */
  function NextNumber(es: seq<Item>, c: nat): nat {
    if es == [] then 0
    else if es[|es| - 1].id == c then es[|es| - 1].n + 1
    else NextNumber(es[..|es| - 1], c)
  }

  function CountOf(es: seq<Item>, c: nat): nat {
    if es == [] then 0
    else CountOf(es[..|es| - 1], c) + if es[|es| - 1].id == c then 1 else 0
  }

  /**
   What the check demands: numbers of each client increase, no put is missing at the server, the
   numbers a client skipped are covered by its maybes, and it did not get further than it counted.
   */
  ghost predicate Passes(es: seq<Item>, rs: seq<ClntRes>, ver: nat) {
    && Increasing(es)
    && |es| + 1 == ver
    && forall c :: 0 <= c < |rs| ==>
         NextNumber(es, c) - CountOf(es, c) <= rs[c].nmaybe && NextNumber(es, c) <= rs[c].nok + rs[c].nmaybe
  }

  /** All numbers of client c in the list are below m. */
  ghost predicate AllBelow(es: seq<Item>, c: nat, m: nat) {
    forall p :: 0 <= p < |es| && es[p].id == c ==> es[p].n < m
  }

  lemma {:induction false} NextIsLeast(es: seq<Item>, c: nat, m: nat)
    requires AllBelow(es, c, m)
    ensures NextNumber(es, c) <= m
    decreases |es|
  {
    if es != [] {
      NextIsLeast(es[..|es| - 1], c, m);
    }
  }

  lemma {:induction false} BelowNext(es: seq<Item>, c: nat)
    requires Increasing(es)
    ensures AllBelow(es, c, NextNumber(es, c))
    decreases |es|
  {
    if es != [] && es[|es| - 1].id != c {
      var front := es[..|es| - 1];
      BelowNext(front, c);
      assert forall p :: 0 <= p < |front| ==> front[p] == es[p];
    }
  }

  lemma {:induction false} CountAtMostNext(es: seq<Item>, c: nat)
    requires Increasing(es)
    ensures CountOf(es, c) <= NextNumber(es, c)
    decreases |es|
  {
    if es != [] {
      var front, last := es[..|es| - 1], es[|es| - 1];
      assert forall p :: 0 <= p < |front| ==> front[p] == es[p];
      CountAtMostNext(front, c);
      if last.id == c {
        NextIsLeast(front, c, last.n);
      }
    }
  }

  lemma {:induction false} CountBelowAtMost(es: seq<Item>, c: nat, i: nat)
    ensures CountBelow(es, c, i) <= CountOf(es, c)
    decreases |es|
  {
    if es != [] {
      CountBelowAtMost(es[..|es| - 1], c, i);
    }
  }

  /** An entry breaks the order exactly where the loop would stop the test. */
  lemma IncreasingStep(es: seq<Item>, n: nat)
    requires n < |es| && Increasing(es[..n])
    ensures Increasing(es[..n + 1]) <==> NextNumber(es[..n], es[n].id) <= es[n].n
  {
    var front, e := es[..n], es[n];
    assert es[..n + 1] == front + [e];
    BelowNext(front, e.id);
    if NextNumber(front, e.id) <= e.n {
      assert AllBelow(front, e.id, e.n);
    }
    if Increasing(front + [e]) {
      assert forall p :: 0 <= p < |front| ==> (front + [e])[p] == front[p];
      assert (front + [e])[n] == e;
      NextIsLeast(front, e.id, e.n);
    }
  }

  /** What the loop has counted after these entries. */
  predicate Tallied(es: seq<Item>, next: seq<int>, skipped: seq<int>) {
    |next| == |skipped| && forall c :: 0 <= c < |next| ==>
      next[c] == NextNumber(es, c) && skipped[c] == NextNumber(es, c) - CountOf(es, c)
  }

  lemma TallyStep(es: seq<Item>, e: Item, next: seq<int>, skipped: seq<int>)
    requires Tallied(es, next, skipped) && e.id < |next|
    ensures Tallied(es + [e], next[e.id := e.n + 1], skipped[e.id := skipped[e.id] + (e.n - next[e.id])])
  {
    assert (es + [e])[..|es|] == es;
  }

  /** Every entry comes from one of the clients that reported. */
  predicate FromClients(es: seq<Item>, n: nat) {
    forall p :: 0 <= p < |es| ==> es[p].id < n
  }

  /** False where the test would stop, be it on an index out of range for an entry of an unknown client. */
  method CheckAppends(es: seq<Item>, rs: seq<ClntRes>, ver: nat) returns (ok: bool)
    ensures ok <==> FromClients(es, |rs|) && Passes(es, rs, ver)
    ensures ok <==>
            && (forall p :: 0 <= p < |es| ==> es[p].id < |rs|)
            && (forall p, q :: 0 <= p < q < |es| && es[p].id == es[q].id ==> es[p].n < es[q].n)
            && |es| + 1 == ver
            && (forall c :: 0 <= c < |rs| ==>
                  NextNumber(es, c) - CountOf(es, c) <= rs[c].nmaybe && NextNumber(es, c) <= rs[c].nok + rs[c].nmaybe)
  {
    var next := seq(|rs|, _ => 0);
    var skipped := seq(|rs|, _ => 0);
    for n := 0 to |es|
      invariant Increasing(es[..n]) && FromClients(es[..n], |rs|) && |next| == |rs|
      invariant Tallied(es[..n], next, skipped)
    {
      var e := es[n];
      if e.id >= |rs| {
        return false;
      }
      assert es[..n + 1] == es[..n] + [e];
      IncreasingStep(es, n);
      TallyStep(es[..n], e, next, skipped);
      if next[e.id] > e.n {
        PrefixIncreasing(es, n + 1);
        return false;
      } else if next[e.id] == e.n {
        next := next[e.id := next[e.id] + 1];
      } else {
        var s := e.n - next[e.id];
        next := next[e.id := e.n + 1];
        skipped := skipped[e.id := skipped[e.id] + s];
      }
    }
    assert es[..|es|] == es;
    if |es| + 1 != ver {
      return false;
    }
    for c := 0 to |rs|
      invariant forall d :: 0 <= d < c ==>
        NextNumber(es, d) - CountOf(es, d) <= rs[d].nmaybe && NextNumber(es, d) <= rs[d].nok + rs[d].nmaybe
    {
      if skipped[c] > rs[c].nmaybe || next[c] > rs[c].nok + rs[c].nmaybe {
        return false;
      }
    }
    return true;
  }

  lemma PrefixIncreasing(es: seq<Item>, n: nat)
    requires n <= |es|
    ensures Increasing(es) ==> Increasing(es[..n])
  {
  }

  /** The results the clients below n report. */
  function Results(s: AState, n: nat): seq<ClntRes> {
    seq(n, c requires 0 <= c < n => ClntRes(AppOf(s, c).nok, AppOf(s, c).nmay))
  }

  lemma BooksAllBelow(s: AState, c: nat)
    requires AppendInv(s) && !AppOf(s, c).pc.Writing?
    ensures AllBelow(ViewOf(s).list, c, AppOf(s, c).i)
    ensures AppOf(s, c).nok + AppOf(s, c).nmay == AppOf(s, c).i
    ensures AppOf(s, c).nok <= CountBelow(ViewOf(s).list, c, AppOf(s, c).i)
  {
    ClientAt(s, c);
  }

  lemma BooksPass(s: AState, c: nat)
    requires AppendInv(s) && AppOf(s, c).pc.Done?
    ensures NextNumber(ViewOf(s).list, c) - CountOf(ViewOf(s).list, c) <= AppOf(s, c).nmay
    ensures NextNumber(ViewOf(s).list, c) <= AppOf(s, c).nok + AppOf(s, c).nmay
  {
    BooksAllBelow(s, c);
    NextIsLeast(ViewOf(s).list, c, AppOf(s, c).i);
    CountBelowAtMost(ViewOf(s).list, c, AppOf(s, c).i);
  }

  lemma InvPasses(s: AState, n: nat)
    requires AppendInv(s) && forall c :: 0 <= c < n ==> AppOf(s, c).pc.Done?
    ensures Passes(ViewOf(s).list, Results(s, n), ViewOf(s).version)
  {
    forall c | 0 <= c < n
      ensures var es, r := ViewOf(s).list, Results(s, n)[c];
              NextNumber(es, c) - CountOf(es, c) <= r.nmaybe && NextNumber(es, c) <= r.nok + r.nmaybe
    {
      BooksPass(s, c);
    }
  }

  /** A client that never began has no entry. */
  lemma OnlyStarted(s: AState, n: nat)
    requires AppendInv(s) && forall c :: c in s.apps ==> c < n
    ensures FromClients(ViewOf(s).list, n)
  {
    var es := ViewOf(s).list;
    forall p | 0 <= p < |es| ensures es[p].id < n {
      if es[p].id !in s.apps {
        BooksAllBelow(s, es[p].id);
      }
    }
  }

  /**
   Over every run of any number of append clients: when clients 0..n-1 are done, the stored list
   passes the check against the counts they report, and its entries are theirs if no other client began.
   */
  lemma AppendsPassTheCheck(cd: Codec, p: nat, run: seq<AStep>, n: nat)
    requires RoundTrips(cd) && APossible(AppendInit(cd, p), run)
    requires forall c :: 0 <= c < n ==> AppOf(AAfter(AppendInit(cd, p), run), c).pc.Done?
    ensures var s := AAfter(AppendInit(cd, p), run);
            && Passes(s.cd.dec(ValueOf(s.kv.store, K)), Results(s, n), VersionOf(s.kv.store, K))
            && ((forall c :: c in s.apps ==> c < n) ==> FromClients(s.cd.dec(ValueOf(s.kv.store, K)), n))
  {
    AppendInitInv(cd, p);
    AppendRunKeepsInv(AppendInit(cd, p), run);
    var s := AAfter(AppendInit(cd, p), run);
    InvPasses(s, n);
    if forall c :: c in s.apps ==> c < n {
      OnlyStarted(s, n);
    }
  }

  lemma ListLength(s: AState)
    requires AppendInv(s)
    ensures |s.cd.dec(ValueOf(s.kv.store, K))| + 1 == VersionOf(s.kv.store, K)
  {
  }

  lemma StepExtendsList(s: AState, step: AStep)
    requires AppendInv(s) && AEnabled(s, step)
    ensures var l, l' := ViewOf(s).list, ViewOf(ADo(s, step)).list;
            l' == l || (exists x :: l' == l + [x])
  {
    if step.Net? {
      if WritesList(s, step.step) {
        var d := Writer(s, step.step);
        WriteView(s, step.step, d);
      } else {
        QuietView(s, step.step);
      }
    }
  }

  /** Each step leaves the list alone or adds one entry at its end, and its length tells its version. */
  lemma ListOnlyGrows(cd: Codec, p: nat, run: seq<AStep>, step: AStep)
    requires RoundTrips(cd) && APossible(AppendInit(cd, p), run) && AEnabled(AAfter(AppendInit(cd, p), run), step)
    ensures var s := AAfter(AppendInit(cd, p), run);
            var l, l' := ViewOf(s).list, ViewOf(ADo(s, step)).list;
            |l| + 1 == ViewOf(s).version && (l' == l || (exists x :: l' == l + [x]))
  {
    AppendInitInv(cd, p);
    AppendRunKeepsInv(AppendInit(cd, p), run);
    StepExtendsList(AAfter(AppendInit(cd, p), run), step);
    ListLength(AAfter(AppendInit(cd, p), run));
  }
}
