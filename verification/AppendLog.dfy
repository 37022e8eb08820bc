/**
 The optimistic append log: any number of clients append to one shared list by reading it and putting
 the longer list back at the version they read. The codec between lists and stored strings is any pair
 of functions that round-trips.
 */
module AppendLog {
  import opened KvServer
  import opened KvSystem
  import opened PutTruth

  datatype Item = Item(id: nat, n: nat)

  datatype Codec = Codec(enc: seq<Item> -> string, dec: string -> seq<Item>)

  ghost predicate RoundTrips(cd: Codec) {
    forall es :: cd.dec(cd.enc(es)) == es
  }

  /** Deciding is the top of the client's loop, where it may be told to stop. */
  datatype Pc = Deciding | Reading | Writing(es: seq<Item>, ver: nat) | Done | Failed

  datatype App = App(i: nat, nok: nat, nmay: nat, pc: Pc)

  datatype AState = AState(cd: Codec, kv: State, apps: map<nat, App>)

  datatype AStep = Net(step: Step) | Begin(c: nat) | Finish(c: nat) | Call(c: nat) | Return(c: nat)

  const K := "k"

  function AppOf(s: AState, c: nat): App {
    if c in s.apps then s.apps[c] else App(0, 0, 0, Deciding)
  }

  predicate Calls(pc: Pc) {
    pc.Reading? || pc.Writing?
  }

  function NextReq(cd: Codec, pc: Pc): Request
    requires Calls(pc)
  {
    if pc.Reading? then Get(K) else Put(K, cd.enc(pc.es), pc.ver)
  }

  /** A Get that does not find the list stops the test; a Put is retried unless it answers OK or ErrMaybe. */
  function AfterReply(cd: Codec, c: nat, a: App, out: Reply): App
    requires Calls(a.pc)
  {
    if a.pc.Reading? then
      if out.err == OK then a.(pc := Writing(cd.dec(out.value) + [Item(c, a.i)], out.version))
      else a.(pc := Failed)
    else if out.err == OK then App(a.i + 1, a.nok + 1, a.nmay, Deciding)
    else if out.err == ErrMaybe then App(a.i + 1, a.nok, a.nmay + 1, Deciding)
    else a.(pc := Reading)
  }

  predicate AEnabled(s: AState, step: AStep) {
    match step
    case Net(st) => !st.Invoke? && !st.Deliver? && Enabled(s.kv, st)
    case Begin(c) => ClerkOf(s.kv, c).Idle? && AppOf(s, c).pc.Deciding?
    case Finish(c) => ClerkOf(s.kv, c).Idle? && AppOf(s, c).pc.Deciding?
    case Call(c) => ClerkOf(s.kv, c).Idle? && Calls(AppOf(s, c).pc)
    case Return(c) => Enabled(s.kv, Deliver(c)) && Calls(AppOf(s, c).pc)
  }

  function ADo(s: AState, step: AStep): AState
    requires AEnabled(s, step)
  {
    match step
    case Net(st) => s.(kv := Do(s.kv, st))
    case Begin(c) => s.(apps := s.apps[c := AppOf(s, c).(pc := Reading)])
    case Finish(c) => s.(apps := s.apps[c := AppOf(s, c).(pc := Done)])
    case Call(c) => s.(kv := Do(s.kv, Invoke(c, NextReq(s.cd, AppOf(s, c).pc))))
    case Return(c) =>
      var k := ClerkOf(s.kv, c);
      s.(kv := Do(s.kv, Deliver(c)),
         apps := s.apps[c := AfterReply(s.cd, c, AppOf(s, c), PendingAnswer(k))])
  }

  predicate APossible(s: AState, run: seq<AStep>)
    decreases |run|
  {
    run == [] || (AEnabled(s, run[0]) && APossible(ADo(s, run[0]), run[1..]))
  }

  function AAfter(s: AState, run: seq<AStep>): AState
    requires APossible(s, run)
    decreases |run|
  {
    if run == [] then s else AAfter(ADo(s, run[0]), run[1..])
  }

  /** The tester p creates the empty list at version 1; then the clients start. */
  function AppendInit(cd: Codec, p: nat): AState {
    var req := Put(K, cd.enc([]), 0);
    var s1 := Do(INIT, Invoke(p, req));
    var s2 := Do(s1, Serve(p));
    AState(cd, Do(s2, Deliver(p)), map[])
  }

  // ----- The invariant

  /** The shared list and its version. */
  datatype View = View(cd: Codec, list: seq<Item>, version: nat)

  function ViewOf(s: AState): View {
    View(s.cd, s.cd.dec(ValueOf(s.kv.store, K)), VersionOf(s.kv.store, K))
  }

  ghost predicate ListOk(w: View, store: Store) {
    && K in store && store[K] == Entry(w.cd.enc(w.list), w.version)
    && |w.list| + 1 == w.version
    && Increasing(w.list)
  }

  /** Each client's numbers strictly increase along the list. */
  ghost predicate Increasing(es: seq<Item>) {
    forall p, q :: 0 <= p < q < |es| && es[p].id == es[q].id ==> es[p].n < es[q].n
  }

  /** How many of the entries of client c have a number below i. */
  function CountBelow(es: seq<Item>, c: nat, i: nat): nat {
    if es == [] then 0
    else CountBelow(es[..|es| - 1], c, i) + if es[|es| - 1].id == c && es[|es| - 1].n < i then 1 else 0
  }

  predicate CallMatches(w: View, t: Trace, pc: Pc, k: Clerk) {
    k.Calling? ==> Calls(pc) && ReqOf(t, k.id) == NextReq(w.cd, pc)
  }

  /** The entry of iteration a.i is in the list only if the Put in progress was written. */
  ghost predicate Entered(w: View, t: Trace, c: nat, a: App, k: Clerk) {
    forall p :: 0 <= p < |w.list| && w.list[p].id == c ==>
      w.list[p].n < a.i || (w.list[p].n == a.i && a.pc.Writing? && k.Calling? && AppliedFor(t, k.id))
  }

  ghost predicate Counted(w: View, c: nat, a: App)
    requires |w.list| + 1 == w.version
  {
    && a.nok + a.nmay == a.i
    && a.nok <= CountBelow(w.list, c, a.i)
    && !a.pc.Failed?
    && (a.pc.Writing? ==>
          && 1 <= a.pc.ver <= w.version && |a.pc.es| == a.pc.ver
          && a.pc.es == w.list[..a.pc.ver - 1] + [Item(c, a.i)])
  }

  ghost predicate ReplyClaim(w: View, c: nat, a: App, reply: Reply)
    requires |w.list| + 1 == w.version
  {
    if a.pc.Reading? then
      reply.err == OK && 1 <= reply.version <= w.version && reply.value == w.cd.enc(w.list[..reply.version - 1])
    else
      reply.err == OK ==> Item(c, a.i) in w.list
  }

  ghost predicate ClientOk(w: View, t: Trace, c: nat, a: App, k: Clerk)
    requires |w.list| + 1 == w.version
  {
    && CallMatches(w, t, a.pc, k)
    && Counted(w, c, a)
    && Entered(w, t, c, a, k)
    && (k.Calling? && k.phase.Answered? && Calls(a.pc) ==> ReplyClaim(w, c, a, k.phase.reply))
  }

  predicate IsListPut(t: Trace, id: nat) {
    IsOp(t, id) && t[id].req.Put? && t[id].req.key == K
  }

  /** Only the Put in progress of its client can still match. */
  ghost predicate PutOk(w: View, t: Trace, id: nat, k: Clerk)
    requires IsListPut(t, id)
  {
    NotAhead(t, id) && t[id].req.version <= w.version &&
    (t[id].req.version == w.version ==> k.Calling? && k.id == id)
  }

  ghost predicate AppendInv(s: AState) {
    var w, t := ViewOf(s), s.kv.trace;
    && Inv(s.kv) && RoundTrips(s.cd)
    && ListOk(w, s.kv.store)
    && (forall c: nat {:trigger AppOf(s, c)} :: ClientOk(w, t, c, AppOf(s, c), ClerkOf(s.kv, c)))
    && (forall id: nat {:trigger IsListPut(t, id)} :: IsListPut(t, id) ==> PutOk(w, t, id, ClerkOf(s.kv, t[id].client)))
  }

  lemma ClientAt(s: AState, c: nat)
    requires AppendInv(s)
    ensures ClientOk(ViewOf(s), s.kv.trace, c, AppOf(s, c), ClerkOf(s.kv, c))
    ensures CallOk(s.kv.trace, c, ClerkOf(s.kv, c))
  {
    assert AppOf(s, c) == AppOf(s, c);
  }

  lemma PutAt(s: AState, id: nat)
    requires AppendInv(s) && IsListPut(s.kv.trace, id)
    ensures PutOk(ViewOf(s), s.kv.trace, id, ClerkOf(s.kv, s.kv.trace[id].client))
  {
  }

  lemma Assemble(s: AState)
    requires Inv(s.kv) && RoundTrips(s.cd) && ListOk(ViewOf(s), s.kv.store)
    requires forall c: nat {:trigger AppOf(s, c)} :: ClientOk(ViewOf(s), s.kv.trace, c, AppOf(s, c), ClerkOf(s.kv, c))
    requires forall id: nat {:trigger IsListPut(s.kv.trace, id)} :: IsListPut(s.kv.trace, id) ==>
               PutOk(ViewOf(s), s.kv.trace, id, ClerkOf(s.kv, s.kv.trace[id].client))
    ensures AppendInv(s)
  {
  }

  // ----- What a longer trace and a longer list keep

  lemma ClientExtends(w: View, t: Trace, e: Event, c: nat, a: App, k: Clerk)
    requires |w.list| + 1 == w.version && ClientOk(w, t, c, a, k) && (k.Calling? ==> IsOp(t, k.id))
    ensures ClientOk(w, t + [e], c, a, k)
  {
    if k.Calling? {
      AppliedForExtends(t, e, k.id);
    }
  }

  lemma PutExtends(w: View, t: Trace, e: Event, id: nat, k: Clerk)
    requires IsListPut(t, id) && PutOk(w, t, id, k)
    ensures IsListPut(t + [e], id) && PutOk(w, t + [e], id, k)
  {
    assert (t + [e])[id] == t[id] && (t + [e])[..id] == t[..id];
  }

  lemma {:induction false} CountGrows(es: seq<Item>, x: Item, c: nat, i: nat)
    ensures CountBelow(es + [x], c, i) == CountBelow(es, c, i) + if x.id == c && x.n < i then 1 else 0
  {
    assert (es + [x])[..|es|] == es;
  }

  /** Growing the bound by one counts exactly the entries numbered i. */
  lemma {:induction false} CountNext(es: seq<Item>, c: nat, i: nat)
    ensures CountBelow(es, c, i) <= CountBelow(es, c, i + 1)
    ensures Item(c, i) in es ==> CountBelow(es, c, i) < CountBelow(es, c, i + 1)
    decreases |es|
  {
    if es != [] {
      CountNext(es[..|es| - 1], c, i);
      assert es == es[..|es| - 1] + [es[|es| - 1]];
    }
  }

  /** The others' claims survive an append by d. */
  lemma AppendKeepsOther(w: View, t: Trace, c: nat, a: App, k: Clerk, x: Item)
    requires |w.list| + 1 == w.version && ClientOk(w, t, c, a, k) && x.id != c
    ensures ClientOk(w.(list := w.list + [x], version := w.version + 1), t, c, a, k)
  {
    CountGrows(w.list, x, c, a.i);
    var l := w.list + [x];
    assert forall n :: 0 <= n <= |w.list| ==> l[..n] == w.list[..n];
  }

  // ----- Network and server steps

  /** The step runs a handler whose Put matches on the list key. */
  predicate WritesList(s: AState, st: Step)
    requires Enabled(s.kv, st)
  {
    var e := EventOf(s.kv, st);
    e.Executed? && e.req.key == K && Matches(s.kv.store, e.req)
  }

  lemma QuietStore(w: View, store: Store, req: Request)
    requires ListOk(w, store) && !(req.key == K && Matches(store, req))
    ensures ListOk(w, NextStore(store, req))
    ensures ValueOf(NextStore(store, req), K) == ValueOf(store, K)
    ensures VersionOf(NextStore(store, req), K) == VersionOf(store, K)
  {
  }

  lemma QuietView(s: AState, st: Step)
    requires AppendInv(s) && AEnabled(s, Net(st)) && !WritesList(s, st)
    ensures ViewOf(ADo(s, Net(st))) == ViewOf(s) && ListOk(ViewOf(s), ADo(s, Net(st)).kv.store)
  {
    var e := EventOf(s.kv, st);
    if e.Executed? {
      QuietStore(ViewOf(s), s.kv.store, e.req);
    }
  }

  lemma NeverServed(s: AState, id: nat)
    requires AppendInv(s) && IsListPut(s.kv.trace, id) && s.kv.trace[id].req.version == ViewOf(s).version
    ensures !HasExecuted(s.kv.trace, id)
  {
    var t := s.kv.trace;
    PutAt(s, id);
    assert t[..|t|] == t;
    if i :| 0 <= i < |t| && t[i].Executed? && t[i].id == id {
      RequestOf(t, i);
      SpentAfterRun(t, i, |t|);
    }
  }

  /** A write comes from the one client whose Put is in progress, and its list is one entry longer. */
  lemma Writer(s: AState, st: Step) returns (d: nat)
    requires AppendInv(s) && AEnabled(s, Net(st)) && WritesList(s, st)
    ensures !st.ServeStray? ==> st.c == d
    ensures ClerkOf(s.kv, d).Calling? && ClerkOf(s.kv, d).id == EventOf(s.kv, st).id
    ensures ClerkOf(s.kv, d).phase.Waiting? && !HasExecuted(s.kv.trace, ClerkOf(s.kv, d).id)
    ensures AppOf(s, d).pc.Writing? && EventOf(s.kv, st).req == NextReq(s.cd, AppOf(s, d).pc)
    ensures AppOf(s, d).pc.ver == ViewOf(s).version
    ensures AppOf(s, d).pc.es == ViewOf(s).list + [Item(d, AppOf(s, d).i)]
  {
    var t, e := s.kv.trace, EventOf(s.kv, st);
    StepAppends(s.kv, st);
    assert IsListPut(t, e.id) && t[e.id].req == e.req;
    d := t[e.id].client;
    PutAt(s, e.id);
    ClientAt(s, d);
    if !st.ServeStray? {
      ClientAt(s, st.c);
    }
    NeverServed(s, e.id);
    var w := ViewOf(s);
    assert w.list[..w.version - 1] == w.list;
  }

  lemma WriteView(s: AState, st: Step, d: nat)
    requires AppendInv(s) && AEnabled(s, Net(st)) && WritesList(s, st)
    requires AppOf(s, d).pc.Writing? && EventOf(s.kv, st).req == NextReq(s.cd, AppOf(s, d).pc)
    requires AppOf(s, d).pc.es == ViewOf(s).list + [Item(d, AppOf(s, d).i)]
    ensures ViewOf(ADo(s, Net(st))) ==
            ViewOf(s).(list := ViewOf(s).list + [Item(d, AppOf(s, d).i)], version := ViewOf(s).version + 1)
    ensures K in ADo(s, Net(st)).kv.store
    ensures ADo(s, Net(st)).kv.store[K] == Entry(s.cd.enc(AppOf(s, d).pc.es), ViewOf(s).version + 1)
  {
  }

  lemma NoOwnEntryYet(w: View, t: Trace, d: nat, a: App, k: Clerk)
    requires Entered(w, t, d, a, k) && k.Calling? && !HasExecuted(t, k.id) && Increasing(w.list)
    ensures forall p :: 0 <= p < |w.list| && w.list[p].id == d ==> w.list[p].n < a.i
    ensures Increasing(w.list + [Item(d, a.i)])
  {
    assert !AppliedFor(t, k.id);
  }

  lemma WriteActor(w: View, t: Trace, e: Event, d: nat, a: App, k: Clerk)
    requires |w.list| + 1 == w.version && ClientOk(w, t, d, a, k) && Increasing(w.list)
    requires k.Calling? && k.phase.Waiting? && IsOp(t, k.id) && !HasExecuted(t, k.id)
    requires a.pc.Writing? && a.pc.ver == w.version
    requires e.Executed? && e.id == k.id && e.req.Put? && e.reply.err == OK
    ensures var w' := w.(list := w.list + [Item(d, a.i)], version := w.version + 1);
            ClientOk(w', t + [e], d, a, k) && ClientOk(w', t + [e], d, a, k.(phase := Answered(|t|, e.reply)))
  {
    var w' := w.(list := w.list + [Item(d, a.i)], version := w.version + 1);
    NoOwnEntryYet(w, t, d, a, k);
    CountGrows(w.list, Item(d, a.i), d, a.i);
    assert Applied(t + [e], |t|) && (t + [e])[|t|].id == k.id;
    assert AppliedFor(t + [e], k.id);
    assert w'.list[..a.pc.ver - 1] == w.list[..a.pc.ver - 1];
    assert w'.list[|w.list|] == Item(d, a.i);
  }

  lemma NetWrite(s: AState, st: Step, c: nat)
    requires AppendInv(s) && AEnabled(s, Net(st)) && WritesList(s, st)
    ensures var s' := ADo(s, Net(st));
            && ListOk(ViewOf(s'), s'.kv.store)
            && ClientOk(ViewOf(s'), s'.kv.trace, c, AppOf(s', c), ClerkOf(s'.kv, c))
  {
    var s' := ADo(s, Net(st));
    var w, t, e := ViewOf(s), s.kv.trace, EventOf(s.kv, st);
    var d := Writer(s, st);
    WriteView(s, st, d);
    StepAppends(s.kv, st);
    ClientAt(s, d);
    NoOwnEntryYet(w, t, d, AppOf(s, d), ClerkOf(s.kv, d));
    if c == d {
      WriteActor(w, t, e, d, AppOf(s, d), ClerkOf(s.kv, d));
    } else {
      ClientAt(s, c);
      AppendKeepsOther(w, t, c, AppOf(s, c), ClerkOf(s.kv, c), Item(d, AppOf(s, d).i));
      ClientExtends(ViewOf(s'), t, e, c, AppOf(s, c), ClerkOf(s.kv, c));
    }
  }

  lemma ServedActor(w: View, t: Trace, c: nat, a: App, k: Clerk, store: Store)
    requires ListOk(w, store) && ClientOk(w, t, c, a, k) && k.Calling?
    requires !(ReqOf(t, k.id).key == K && Matches(store, ReqOf(t, k.id)))
    ensures ClientOk(w, t, c, a, k.(phase := Answered(|t|, Answer(store, ReqOf(t, k.id)))))
  {
    assert w.list[..w.version - 1] == w.list;
  }

  lemma NetQuiet(s: AState, st: Step, c: nat)
    requires AppendInv(s) && AEnabled(s, Net(st)) && !WritesList(s, st)
    ensures var s' := ADo(s, Net(st));
            ClientOk(ViewOf(s), s'.kv.trace, c, AppOf(s', c), ClerkOf(s'.kv, c))
  {
    var s' := ADo(s, Net(st));
    ClientAt(s, c);
    StepAppends(s.kv, st);
    if st == Serve(c) {
      ServedActor(ViewOf(s), s.kv.trace, c, AppOf(s, c), ClerkOf(s.kv, c), s.kv.store);
    }
    ClientExtends(ViewOf(s), s.kv.trace, EventOf(s.kv, st), c, AppOf(s, c), ClerkOf(s'.kv, c));
  }

  lemma NetPut(s: AState, st: Step, id: nat)
    requires AppendInv(s) && AEnabled(s, Net(st)) && IsListPut(ADo(s, Net(st)).kv.trace, id)
    ensures var s' := ADo(s, Net(st));
            PutOk(ViewOf(s'), s'.kv.trace, id, ClerkOf(s'.kv, s'.kv.trace[id].client))
  {
    var s' := ADo(s, Net(st));
    var t, e := s.kv.trace, EventOf(s.kv, st);
    StepAppends(s.kv, st);
    assert id < |t| && t[id] == s'.kv.trace[id];
    PutAt(s, id);
    if WritesList(s, st) {
      var d := Writer(s, st);
      WriteView(s, st, d);
    } else {
      QuietView(s, st);
    }
    assert PutOk(ViewOf(s'), t, id, ClerkOf(s'.kv, t[id].client));
    PutExtends(ViewOf(s'), t, e, id, ClerkOf(s'.kv, t[id].client));
  }

  lemma NetClient(s: AState, st: Step, c: nat)
    requires AppendInv(s) && AEnabled(s, Net(st))
    ensures var s' := ADo(s, Net(st));
            && ListOk(ViewOf(s'), s'.kv.store)
            && ClientOk(ViewOf(s'), s'.kv.trace, c, AppOf(s', c), ClerkOf(s'.kv, c))
  {
    if WritesList(s, st) {
      NetWrite(s, st, c);
    } else {
      QuietView(s, st);
      NetQuiet(s, st, c);
    }
  }

  lemma NetKeepsInv(s: AState, st: Step)
    requires AppendInv(s) && AEnabled(s, Net(st))
    ensures AppendInv(ADo(s, Net(st)))
  {
    var s' := ADo(s, Net(st));
    StepKeepsInv(s.kv, st);
    NetClient(s, st, 0);
    forall c: nat ensures ClientOk(ViewOf(s'), s'.kv.trace, c, AppOf(s', c), ClerkOf(s'.kv, c)) {
      NetClient(s, st, c);
    }
    forall id: nat | IsListPut(s'.kv.trace, id)
      ensures PutOk(ViewOf(s'), s'.kv.trace, id, ClerkOf(s'.kv, s'.kv.trace[id].client))
    {
      NetPut(s, st, id);
    }
    Assemble(s');
  }

  // ----- Client steps

  lemma NewPut(s: AState, c: nat)
    requires AppendInv(s) && AppOf(s, c).pc.Writing?
    ensures var req := NextReq(s.cd, AppOf(s, c).pc);
            PutOk(ViewOf(s), s.kv.trace + [Invoked(c, req)], |s.kv.trace|, Calling(|s.kv.trace|, 0, Waiting))
  {
    var t := s.kv.trace + [Invoked(c, NextReq(s.cd, AppOf(s, c).pc))];
    assert t[..|s.kv.trace|] == s.kv.trace;
    ClientAt(s, c);
  }

  lemma CallClient(s: AState, c: nat, d: nat)
    requires AppendInv(s) && AEnabled(s, Call(c))
    ensures var s' := ADo(s, Call(c));
            ClientOk(ViewOf(s), s'.kv.trace, d, AppOf(s', d), ClerkOf(s'.kv, d))
  {
    var e := Invoked(c, NextReq(s.cd, AppOf(s, c).pc));
    ClientAt(s, d);
    ClientExtends(ViewOf(s), s.kv.trace, e, d, AppOf(s, d), ClerkOf(s.kv, d));
  }

  lemma CallKeepsInv(s: AState, c: nat)
    requires AppendInv(s) && AEnabled(s, Call(c))
    ensures AppendInv(ADo(s, Call(c)))
  {
    var s' := ADo(s, Call(c));
    var w, t, e := ViewOf(s), s.kv.trace, Invoked(c, NextReq(s.cd, AppOf(s, c).pc));
    StepKeepsInv(s.kv, Invoke(c, NextReq(s.cd, AppOf(s, c).pc)));
    assert s'.kv.trace == t + [e] && ViewOf(s') == w;
    forall d: nat ensures ClientOk(w, s'.kv.trace, d, AppOf(s', d), ClerkOf(s'.kv, d)) {
      CallClient(s, c, d);
    }
    forall id: nat | IsListPut(s'.kv.trace, id)
      ensures PutOk(w, s'.kv.trace, id, ClerkOf(s'.kv, s'.kv.trace[id].client))
    {
      if id < |t| {
        PutAt(s, id);
        assert PutOk(w, t, id, ClerkOf(s'.kv, t[id].client));
        PutExtends(w, t, e, id, ClerkOf(s'.kv, t[id].client));
      } else {
        NewPut(s, c);
      }
    }
    Assemble(s');
  }

  /** A Put that is about to answer neither OK nor ErrMaybe left no entry behind. */
  lemma RefusedLeavesNothing(s: AState, c: nat)
    requires AppendInv(s) && Enabled(s.kv, Deliver(c)) && AppOf(s, c).pc.Writing?
    requires PendingAnswer(ClerkOf(s.kv, c)).err == ErrVersion || PendingAnswer(ClerkOf(s.kv, c)).err == ErrNoKey
    ensures !AppliedFor(s.kv.trace, ClerkOf(s.kv, c).id)
  {
    ClientAt(s, c);
    PutAt(s, ClerkOf(s.kv, c).id);
    RefusedNeverWritten(s.kv, c);
  }

  lemma AnswerKinds(t: Trace, i: nat)
    requires WellFormed(t) && i < |t| && t[i].Executed?
    ensures t[i].reply.err != ErrMaybe
  {
    assert EventOk(t[..i], t[i]);
  }

  /** The client's books after an answer. */
  lemma NextBooks(w: View, t: Trace, c: nat, a: App, k: Clerk)
    requires |w.list| + 1 == w.version && ClientOk(w, t, c, a, k) && RoundTrips(w.cd)
    requires k.Calling? && k.phase.Answered? && Calls(a.pc) && k.phase.reply.err != ErrMaybe
    requires a.pc.Writing? && (PendingAnswer(k).err == ErrVersion || PendingAnswer(k).err == ErrNoKey) ==>
               !AppliedFor(t, k.id)
    ensures ClientOk(w, t, c, AfterReply(w.cd, c, a, PendingAnswer(k)), Idle)
  {
    CountNext(w.list, c, a.i);
  }

  lemma ReturnActor(s: AState, c: nat)
    requires AppendInv(s) && AEnabled(s, Return(c))
    ensures ClientOk(ViewOf(s), s.kv.trace, c, AppOf(ADo(s, Return(c)), c), Idle)
  {
    var k := ClerkOf(s.kv, c);
    ClientAt(s, c);
    AnswerKinds(s.kv.trace, k.phase.at);
    if AppOf(s, c).pc.Writing? && (PendingAnswer(k).err == ErrVersion || PendingAnswer(k).err == ErrNoKey) {
      RefusedLeavesNothing(s, c);
    }
    NextBooks(ViewOf(s), s.kv.trace, c, AppOf(s, c), k);
  }

  lemma ReturnClient(s: AState, c: nat, d: nat)
    requires AppendInv(s) && AEnabled(s, Return(c))
    ensures var s' := ADo(s, Return(c));
            ClientOk(ViewOf(s), s'.kv.trace, d, AppOf(s', d), ClerkOf(s'.kv, d))
  {
    var s' := ADo(s, Return(c));
    StepAppends(s.kv, Deliver(c));
    ClientAt(s, d);
    if d == c {
      ReturnActor(s, c);
    }
    ClientExtends(ViewOf(s), s.kv.trace, EventOf(s.kv, Deliver(c)), d, AppOf(s', d), ClerkOf(s'.kv, d));
  }

  lemma ReturnPut(s: AState, c: nat, id: nat)
    requires AppendInv(s) && AEnabled(s, Return(c)) && IsListPut(ADo(s, Return(c)).kv.trace, id)
    ensures var s' := ADo(s, Return(c));
            PutOk(ViewOf(s), s'.kv.trace, id, ClerkOf(s'.kv, s'.kv.trace[id].client))
  {
    var s' := ADo(s, Return(c));
    var t, e := s.kv.trace, EventOf(s.kv, Deliver(c));
    StepAppends(s.kv, Deliver(c));
    assert id < |t| && t[id] == s'.kv.trace[id];
    PutAt(s, id);
    ClientAt(s, c);
    if t[id].req.version == ViewOf(s).version {
      NeverServed(s, id);
    }
    assert PutOk(ViewOf(s), t, id, ClerkOf(s'.kv, t[id].client));
    PutExtends(ViewOf(s), t, e, id, ClerkOf(s'.kv, t[id].client));
  }

  lemma ReturnKeepsInv(s: AState, c: nat)
    requires AppendInv(s) && AEnabled(s, Return(c))
    ensures AppendInv(ADo(s, Return(c)))
  {
    var s' := ADo(s, Return(c));
    StepKeepsInv(s.kv, Deliver(c));
    assert ViewOf(s') == ViewOf(s);
    forall d: nat ensures ClientOk(ViewOf(s), s'.kv.trace, d, AppOf(s', d), ClerkOf(s'.kv, d)) {
      ReturnClient(s, c, d);
    }
    forall id: nat | IsListPut(s'.kv.trace, id)
      ensures PutOk(ViewOf(s), s'.kv.trace, id, ClerkOf(s'.kv, s'.kv.trace[id].client))
    {
      ReturnPut(s, c, id);
    }
    Assemble(s');
  }

  lemma TurnKeepsInv(s: AState, step: AStep)
    requires AppendInv(s) && AEnabled(s, step) && (step.Begin? || step.Finish?)
    ensures AppendInv(ADo(s, step))
  {
    var s' := ADo(s, step);
    forall d: nat ensures ClientOk(ViewOf(s), s.kv.trace, d, AppOf(s', d), ClerkOf(s.kv, d)) {
      ClientAt(s, d);
    }
    forall id: nat | IsListPut(s.kv.trace, id)
      ensures PutOk(ViewOf(s), s.kv.trace, id, ClerkOf(s.kv, s.kv.trace[id].client))
    {
      PutAt(s, id);
    }
    Assemble(s');
  }

  lemma CreatedStore(cd: Codec, p: nat)
    ensures var kv, req := AppendInit(cd, p).kv, Put(K, cd.enc([]), 0);
            && kv.store == map[K := Entry(cd.enc([]), 1)] && kv.clerks == map[p := Idle]
            && kv.trace == [Invoked(p, req), Executed(0, req, Reply("", 0, OK)), Returned(0, req, Reply("", 0, OK), 1)]
  {
    var req := Put(K, cd.enc([]), 0);
    var s1 := Do(INIT, Invoke(p, req));
    assert s1.trace == [Invoked(p, req)];
    var s2 := Do(s1, Serve(p));
    assert s2.trace == [Invoked(p, req), Executed(0, req, Reply("", 0, OK))];
  }

  lemma CreatedInv(cd: Codec, p: nat)
    ensures Inv(AppendInit(cd, p).kv)
  {
    var req := Put(K, cd.enc([]), 0);
    var s1 := Do(INIT, Invoke(p, req));
    var s2 := Do(s1, Serve(p));
    assert Inv(s2) by {
      InitInv();
      StepKeepsInv(INIT, Invoke(p, req));
      StepKeepsInv(s1, Serve(p));
    }
    StepKeepsInv(s2, Deliver(p));
  }

  lemma AppendInitInv(cd: Codec, p: nat)
    requires RoundTrips(cd)
    ensures AppendInv(AppendInit(cd, p))
  {
    var s := AppendInit(cd, p);
    CreatedStore(cd, p);
    CreatedInv(cd, p);
    assert ViewOf(s) == View(cd, [], 1);
    assert NotAhead(s.kv.trace, 0);
    Assemble(s);
  }

  lemma AppendStepKeepsInv(s: AState, step: AStep)
    requires AppendInv(s) && AEnabled(s, step)
    ensures AppendInv(ADo(s, step))
  {
    match step {
      case Net(st) => NetKeepsInv(s, st);
      case Begin(_) => TurnKeepsInv(s, step);
      case Finish(_) => TurnKeepsInv(s, step);
      case Call(c) => CallKeepsInv(s, c);
      case Return(c) => ReturnKeepsInv(s, c);
    }
  }

  lemma {:induction false} AppendRunKeepsInv(s: AState, run: seq<AStep>)
    requires AppendInv(s) && APossible(s, run)
    ensures AppendInv(AAfter(s, run))
    decreases |run|
  {
    if run != [] {
      AppendStepKeepsInv(s, run[0]);
      AppendRunKeepsInv(ADo(s, run[0]), run[1..]);
    }
  }
}
