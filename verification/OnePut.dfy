/**
 Clients racing to put to one key: each repeats a Put at the version it last read until the answer is OK
 or ErrMaybe, reading the key after every Put. The codec between entries and stored strings is any pair of
 functions that round-trips.
 */
module OnePut {
  import opened KvServer
  import opened KvSystem
  import opened PutTruth
  import opened PutCounts

  datatype EntryV = EntryV(id: nat, v: nat)

  datatype Codec = Codec(enc: EntryV -> string, dec: string -> EntryV)

  ghost predicate RoundTrips(cd: Codec) {
    forall e :: cd.dec(cd.enc(e)) == e
  }

  /** Choosing is the top of the client's loop; Failed is where the test would stop. */
  datatype Pc = Choosing | Putting | Reading(err: Err) | Done | Failed

  datatype Racer = Racer(ver: nat, nok: nat, nmay: nat, pc: Pc)

  datatype RState = RState(cd: Codec, key: string, kv: State, racers: map<nat, Racer>)

  datatype RStep = Net(step: Step) | Begin(c: nat) | Finish(c: nat) | Call(c: nat) | Return(c: nat)

  function RacerOf(s: RState, c: nat): Racer {
    if c in s.racers then s.racers[c] else Racer(0, 0, 0, Choosing)
  }

  predicate Calls(pc: Pc) {
    pc.Putting? || pc.Reading?
  }

  function NextReq(cd: Codec, key: string, c: nat, r: Racer): Request
    requires Calls(r.pc)
  {
    if r.pc.Putting? then Put(key, cd.enc(EntryV(c, r.ver)), r.ver) else Get(key)
  }

  /**
   After a Put the error must be OK, ErrVersion or ErrMaybe; after a Get the key must exist and, right after
   my Put, hold it.
   */
  function AfterReply(cd: Codec, c: nat, r: Racer, out: Reply): Racer
    requires Calls(r.pc)
  {
    if r.pc.Putting? then
      if out.err == ErrNoKey then r.(pc := Failed) else r.(pc := Reading(out.err))
    else if out.err != OK then r.(pc := Failed)
    else if r.pc.err == OK && out.version == r.ver + 1 && cd.dec(out.value).id != c && cd.dec(out.value).v != r.ver then
      r.(pc := Failed)
    else if r.pc.err == OK then Racer(out.version, r.nok + 1, r.nmay, Choosing)
    else if r.pc.err == ErrMaybe then Racer(out.version, r.nok, r.nmay + 1, Choosing)
    else r.(ver := out.version, pc := Putting)
  }

  predicate REnabled(s: RState, step: RStep) {
    match step
    case Net(st) => !st.Invoke? && !st.Deliver? && Enabled(s.kv, st)
    case Begin(c) => ClerkOf(s.kv, c).Idle? && RacerOf(s, c).pc.Choosing?
    case Finish(c) => ClerkOf(s.kv, c).Idle? && RacerOf(s, c).pc.Choosing?
    case Call(c) => ClerkOf(s.kv, c).Idle? && Calls(RacerOf(s, c).pc)
    case Return(c) => Enabled(s.kv, Deliver(c)) && Calls(RacerOf(s, c).pc)
  }

  function RDo(s: RState, step: RStep): RState
    requires REnabled(s, step)
  {
    match step
    case Net(st) => s.(kv := Do(s.kv, st))
    case Begin(c) => s.(racers := s.racers[c := RacerOf(s, c).(pc := Putting)])
    case Finish(c) => s.(racers := s.racers[c := RacerOf(s, c).(pc := Done)])
    case Call(c) => s.(kv := Do(s.kv, Invoke(c, NextReq(s.cd, s.key, c, RacerOf(s, c)))))
    case Return(c) =>
      s.(kv := Do(s.kv, Deliver(c)),
         racers := s.racers[c := AfterReply(s.cd, c, RacerOf(s, c), PendingAnswer(ClerkOf(s.kv, c)))])
  }

  predicate RPossible(s: RState, run: seq<RStep>)
    decreases |run|
  {
    run == [] || (REnabled(s, run[0]) && RPossible(RDo(s, run[0]), run[1..]))
  }

  function RAfter(s: RState, run: seq<RStep>): RState
    requires RPossible(s, run)
    decreases |run|
  {
    if run == [] then s else RAfter(RDo(s, run[0]), run[1..])
  }

  function RaceInit(cd: Codec, key: string): RState {
    RState(cd, key, INIT, map[])
  }

  // ----- The invariant

  /** The key as stored now. */
  datatype View = View(cd: Codec, key: string, value: string, version: nat)

  function ViewOf(s: RState): View {
    View(s.cd, s.key, ValueOf(s.kv.store, s.key), VersionOf(s.kv.store, s.key))
  }

  /** If the key is at version v then it holds what client c put there. */
  predicate HoldsMine(w: View, c: nat, ver: nat, value: string, version: nat) {
    version == ver + 1 ==> value == w.cd.enc(EntryV(c, ver))
  }

  predicate CallMatches(w: View, t: Trace, c: nat, r: Racer, k: Clerk) {
    k.Calling? ==> Calls(r.pc) && ReqOf(t, k.id) == NextReq(w.cd, w.key, c, r)
  }

  /** What a client may rely on: its version is not ahead, and after a Put the key exists. */
  predicate PcClaim(w: View, c: nat, r: Racer) {
    && r.ver <= w.version && !r.pc.Failed?
    && (r.pc.Reading? ==> w.version > 0 && (r.pc.err == OK || r.pc.err == ErrVersion || r.pc.err == ErrMaybe))
    && (r.pc.Reading? && r.pc.err == OK ==> r.ver < w.version && HoldsMine(w, c, r.ver, w.value, w.version))
  }

  predicate ReplyClaim(w: View, c: nat, r: Racer, reply: Reply) {
    if r.pc.Putting? then
      && w.version > 0 && (reply.err == OK || reply.err == ErrVersion)
      && (reply.err == OK ==> r.ver < w.version && HoldsMine(w, c, r.ver, w.value, w.version))
    else
      && reply.err == OK && reply.version <= w.version
      && (r.pc.Reading? && r.pc.err == OK ==> HoldsMine(w, c, r.ver, reply.value, reply.version))
  }

  predicate ClientOk(w: View, t: Trace, c: nat, r: Racer, k: Clerk) {
    && CallMatches(w, t, c, r, k)
    && PcClaim(w, c, r)
    && (k.Calling? && k.phase.Answered? && Calls(r.pc) ==> ReplyClaim(w, c, r, k.phase.reply))
  }

  /** The books agree with the answers returned; an answer being followed by its Get is not booked yet. */
  ghost predicate Booked(t: Trace, key: string, c: nat, r: Racer) {
    && |AnswersOf(t, key, c, OK)| == r.nok + (if r.pc == Reading(OK) then 1 else 0)
    && |AnswersOf(t, key, c, ErrMaybe)| == r.nmay + (if r.pc == Reading(ErrMaybe) then 1 else 0)
  }

  ghost predicate RaceInv(s: RState) {
    var w, t := ViewOf(s), s.kv.trace;
    && Inv(s.kv) && RoundTrips(s.cd)
    && (forall c: nat {:trigger RacerOf(s, c)} :: ClientOk(w, t, c, RacerOf(s, c), ClerkOf(s.kv, c)))
    && (forall c: nat {:trigger RacerOf(s, c)} :: Booked(t, s.key, c, RacerOf(s, c)))
    && (forall id: nat {:trigger NotAhead(t, id)} :: IsOp(t, id) ==> NotAhead(t, id))
  }

  lemma ClientAt(s: RState, c: nat)
    requires RaceInv(s)
    ensures ClientOk(ViewOf(s), s.kv.trace, c, RacerOf(s, c), ClerkOf(s.kv, c))
    ensures Booked(s.kv.trace, s.key, c, RacerOf(s, c))
    ensures CallOk(s.kv.trace, c, ClerkOf(s.kv, c))
  {
    assert RacerOf(s, c) == RacerOf(s, c);
  }

  lemma Assemble(s: RState)
    requires Inv(s.kv) && RoundTrips(s.cd)
    requires forall c: nat {:trigger RacerOf(s, c)} :: ClientOk(ViewOf(s), s.kv.trace, c, RacerOf(s, c),
             ClerkOf(s.kv, c))
    requires forall c: nat {:trigger RacerOf(s, c)} :: Booked(s.kv.trace, s.key, c, RacerOf(s, c))
    requires forall id: nat {:trigger NotAhead(s.kv.trace, id)} :: IsOp(s.kv.trace, id) ==> NotAhead(s.kv.trace, id)
    ensures RaceInv(s)
  {
  }

  // ----- What a longer trace keeps

  lemma ClientExtends(w: View, t: Trace, e: Event, c: nat, r: Racer, k: Clerk)
    requires ClientOk(w, t, c, r, k) && (k.Calling? ==> IsOp(t, k.id))
    ensures ClientOk(w, t + [e], c, r, k)
  {
  }

  /** An event that is no invocation leaves every call as far behind as it was. */
  lemma AllNotAheadExtend(t: Trace, e: Event)
    requires !e.Invoked? && forall id: nat {:trigger NotAhead(t, id)} :: IsOp(t, id) ==> NotAhead(t, id)
    ensures forall id: nat {:trigger NotAhead(t + [e], id)} :: IsOp(t + [e], id) ==> NotAhead(t + [e], id)
  {
    forall id: nat | IsOp(t + [e], id) ensures NotAhead(t + [e], id) {
      assert IsOp(t, id) && NotAhead(t, id);
      NotAheadPrefix(t, t + [e], id);
    }
  }

  lemma BookedExtends(t: Trace, e: Event, key: string, c: nat, r: Racer)
    requires WellFormed(t) && Booked(t, key, c, r)
    requires e.Returned? ==> IsOp(t, e.id) && (t[e.id].client != c || e.req.Get?)
    ensures Booked(t + [e], key, c, r)
  {
    AnswersExtend(t, e, key, c, OK);
    AnswersExtend(t, e, key, c, ErrMaybe);
  }

  // ----- Network and server steps

  /** The step runs a handler whose Put matches on the key. */
  predicate WritesKey(s: RState, st: Step)
    requires Enabled(s.kv, st)
  {
    var e := EventOf(s.kv, st);
    e.Executed? && e.req.key == s.key && Matches(s.kv.store, e.req)
  }

  lemma NetView(s: RState, st: Step)
    requires RaceInv(s) && REnabled(s, Net(st))
    ensures ViewOf(RDo(s, Net(st))) ==
            if WritesKey(s, st) then
              ViewOf(s).(value := EventOf(s.kv, st).req.value, version := ViewOf(s).version + 1)
            else ViewOf(s)
  {
  }

  /** A write moves the key past every version a client relies on. */
  lemma WriteKeepsClient(w: View, t: Trace, c: nat, r: Racer, k: Clerk, value: string)
    requires ClientOk(w, t, c, r, k)
    ensures ClientOk(w.(value := value, version := w.version + 1), t, c, r, k)
  {
  }

  lemma ServedActor(w: View, t: Trace, c: nat, r: Racer, k: Clerk, store: Store)
    requires ClientOk(w, t, c, r, k) && k.Calling? && VersionsPositive(store)
    requires w.value == ValueOf(store, w.key) && w.version == VersionOf(store, w.key)
    ensures var req := ReqOf(t, k.id);
            var w' := if req.key == w.key && Matches(store, req) then w.(value := req.value,
                version := w.version + 1) else w;
            ClientOk(w', t, c, r, k.(phase := Phase.Answered(|t|, Answer(store, req))))
  {
  }

  lemma NetClient(s: RState, st: Step, c: nat)
    requires RaceInv(s) && REnabled(s, Net(st))
    ensures var s' := RDo(s, Net(st));
            ClientOk(ViewOf(s'), s'.kv.trace, c, RacerOf(s', c), ClerkOf(s'.kv, c))
  {
    var s' := RDo(s, Net(st));
    NetView(s, st);
    StepAppends(s.kv, st);
    ClientAt(s, c);
    var r, k := RacerOf(s, c), ClerkOf(s.kv, c);
    if st == Serve(c) {
      ServedActor(ViewOf(s), s.kv.trace, c, r, k, s.kv.store);
    } else if WritesKey(s, st) {
      WriteKeepsClient(ViewOf(s), s.kv.trace, c, r, k, EventOf(s.kv, st).req.value);
    }
    ClientExtends(ViewOf(s'), s.kv.trace, EventOf(s.kv, st), c, r, ClerkOf(s'.kv, c));
  }

  lemma NetKeepsInv(s: RState, st: Step)
    requires RaceInv(s) && REnabled(s, Net(st))
    ensures RaceInv(RDo(s, Net(st)))
  {
    var s' := RDo(s, Net(st));
    var t, e := s.kv.trace, EventOf(s.kv, st);
    StepKeepsInv(s.kv, st);
    StepAppends(s.kv, st);
    forall c: nat ensures ClientOk(ViewOf(s'), s'.kv.trace, c, RacerOf(s', c), ClerkOf(s'.kv, c)) {
      NetClient(s, st, c);
    }
    forall c: nat ensures Booked(s'.kv.trace, s.key, c, RacerOf(s', c)) {
      ClientAt(s, c);
      BookedExtends(t, e, s.key, c, RacerOf(s, c));
    }
    AllNotAheadExtend(t, e);
    Assemble(s');
  }

  // ----- Client steps

  lemma NewCallNotAhead(t: Trace, c: nat, req: Request)
    requires forall id: nat {:trigger NotAhead(t, id)} :: IsOp(t, id) ==> NotAhead(t, id)
    requires req.Put? ==> req.version <= VersionOf(StoreAfter(t), req.key)
    ensures var u := t + [Invoked(c, req)];
            forall id: nat {:trigger NotAhead(u, id)} :: IsOp(u, id) ==> NotAhead(u, id)
  {
    var u := t + [Invoked(c, req)];
    forall id: nat | IsOp(u, id) ensures NotAhead(u, id) {
      if id < |t| {
        assert IsOp(t, id) && NotAhead(t, id);
        NotAheadPrefix(t, u, id);
      } else {
        assert u[..id] == t;
      }
    }
  }

  lemma CallKeepsInv(s: RState, c: nat)
    requires RaceInv(s) && REnabled(s, Call(c))
    ensures RaceInv(RDo(s, Call(c)))
  {
    var s' := RDo(s, Call(c));
    var req := NextReq(s.cd, s.key, c, RacerOf(s, c));
    var t, e := s.kv.trace, Invoked(c, req);
    StepKeepsInv(s.kv, Invoke(c, req));
    assert s'.kv.trace == t + [e] && ViewOf(s') == ViewOf(s);
    forall d: nat ensures ClientOk(ViewOf(s'), s'.kv.trace, d, RacerOf(s', d), ClerkOf(s'.kv, d)) {
      ClientAt(s, d);
      ClientExtends(ViewOf(s), t, e, d, RacerOf(s, d), ClerkOf(s.kv, d));
    }
    forall d: nat ensures Booked(s'.kv.trace, s.key, d, RacerOf(s', d)) {
      ClientAt(s, d);
      BookedExtends(t, e, s.key, d, RacerOf(s, d));
    }
    ClientAt(s, c);
    NewCallNotAhead(t, c, req);
    Assemble(s');
  }

  /** The claim of the next program point, from the answer just delivered. */
  lemma NextClaim(w: View, t: Trace, c: nat, r: Racer, k: Clerk)
    requires ClientOk(w, t, c, r, k) && RoundTrips(w.cd) && k.Calling? && k.phase.Answered? && Calls(r.pc)
    ensures ClientOk(w, t, c, AfterReply(w.cd, c, r, PendingAnswer(k)), Idle)
  {
  }

  lemma ReturnClient(s: RState, c: nat, d: nat)
    requires RaceInv(s) && REnabled(s, Return(c))
    ensures var s' := RDo(s, Return(c));
            ClientOk(ViewOf(s), s'.kv.trace, d, RacerOf(s', d), ClerkOf(s'.kv, d))
  {
    var s' := RDo(s, Return(c));
    StepAppends(s.kv, Deliver(c));
    ClientAt(s, d);
    if d == c {
      NextClaim(ViewOf(s), s.kv.trace, c, RacerOf(s, c), ClerkOf(s.kv, c));
    }
    ClientExtends(ViewOf(s), s.kv.trace, EventOf(s.kv, Deliver(c)), d, RacerOf(s', d), ClerkOf(s'.kv, d));
  }

  /** The answer just returned is entered in the books, now or after the Get that follows it. */
  lemma ActorBooks(w: View, t: Trace, e: Event, c: nat, r: Racer, k: Clerk)
    requires WellFormed(t) && Booked(t, w.key, c, r) && ClientOk(w, t, c, r, k) && RoundTrips(w.cd)
    requires k.Calling? && k.phase.Answered? && Calls(r.pc) && IsOp(t, k.id) && t[k.id].client == c
    requires e.Returned? && e.id == k.id && e.req == ReqOf(t, k.id) && e.out == PendingAnswer(k)
    ensures Booked(t + [e], w.key, c, AfterReply(w.cd, c, r, PendingAnswer(k)))
  {
    AnswersExtend(t, e, w.key, c, OK);
    AnswersExtend(t, e, w.key, c, ErrMaybe);
    NextClaim(w, t, c, r, k);
  }

  lemma ReturnBooks(s: RState, c: nat, d: nat)
    requires RaceInv(s) && REnabled(s, Return(c))
    ensures Booked(RDo(s, Return(c)).kv.trace, s.key, d, RacerOf(RDo(s, Return(c)), d))
  {
    var t, e := s.kv.trace, EventOf(s.kv, Deliver(c));
    StepAppends(s.kv, Deliver(c));
    ClientAt(s, c);
    if d == c {
      ActorBooks(ViewOf(s), t, e, c, RacerOf(s, c), ClerkOf(s.kv, c));
    } else {
      ClientAt(s, d);
      BookedExtends(t, e, s.key, d, RacerOf(s, d));
    }
  }

  lemma ReturnKeepsInv(s: RState, c: nat)
    requires RaceInv(s) && REnabled(s, Return(c))
    ensures RaceInv(RDo(s, Return(c)))
  {
    var s' := RDo(s, Return(c));
    var t, e := s.kv.trace, EventOf(s.kv, Deliver(c));
    StepKeepsInv(s.kv, Deliver(c));
    StepAppends(s.kv, Deliver(c));
    assert ViewOf(s') == ViewOf(s) && s'.kv.trace == t + [e];
    forall d: nat ensures ClientOk(ViewOf(s'), s'.kv.trace, d, RacerOf(s', d), ClerkOf(s'.kv, d)) {
      ReturnClient(s, c, d);
    }
    forall d: nat ensures Booked(s'.kv.trace, s.key, d, RacerOf(s', d)) {
      ReturnBooks(s, c, d);
    }
    AllNotAheadExtend(t, e);
    Assemble(s');
  }

  lemma TurnKeepsInv(s: RState, step: RStep)
    requires RaceInv(s) && REnabled(s, step) && (step.Begin? || step.Finish?)
    ensures RaceInv(RDo(s, step))
  {
    var s' := RDo(s, step);
    forall d: nat ensures ClientOk(ViewOf(s'), s'.kv.trace, d, RacerOf(s', d), ClerkOf(s'.kv, d)) {
      ClientAt(s, d);
    }
    forall d: nat ensures Booked(s'.kv.trace, s.key, d, RacerOf(s', d)) {
      ClientAt(s, d);
    }
    Assemble(s');
  }

  lemma RaceInitInv(cd: Codec, key: string)
    requires RoundTrips(cd)
    ensures RaceInv(RaceInit(cd, key))
  {
    var s := RaceInit(cd, key);
    InitInv();
    forall c: nat ensures Booked(s.kv.trace, key, c, RacerOf(s, c)) {
      assert AnswersOf([], key, c, OK) == {} && AnswersOf([], key, c, ErrMaybe) == {};
    }
    Assemble(s);
  }

  lemma {:induction false} RaceKeepsInv(s: RState, run: seq<RStep>)
    requires RaceInv(s) && RPossible(s, run)
    ensures RaceInv(RAfter(s, run)) && RAfter(s, run).key == s.key
    decreases |run|
  {
    if run != [] {
      match run[0] {
        case Net(st) => NetKeepsInv(s, st);
        case Begin(_) => TurnKeepsInv(s, run[0]);
        case Finish(_) => TurnKeepsInv(s, run[0]);
        case Call(c) => CallKeepsInv(s, c);
        case Return(c) => ReturnKeepsInv(s, c);
      }
      RaceKeepsInv(RDo(s, run[0]), run[1..]);
    }
  }

  // ----- The result

  function Results(s: RState, n: nat): seq<ClntRes> {
    seq(n, c requires 0 <= c < n => ClntRes(RacerOf(s, c).nok, RacerOf(s, c).nmay))
  }

  /** Clients 0..n-1 have finished and no other client ever put. */
  ghost predicate RaceOver(s: RState, n: nat) {
    && (forall c :: 0 <= c < n ==> RacerOf(s, c).pc.Done?)
    && (forall id: nat :: IsOp(s.kv.trace, id) ==> s.kv.trace[id].client < n)
  }

  lemma OverMeansDone(s: RState, n: nat)
    requires RaceInv(s) && RaceOver(s, n)
    ensures AllDone(s.kv.trace, s.key, n) && Tally(s.kv.trace, s.key, Results(s, n)) && Careful(s.kv.trace)
  {
    var t := s.kv.trace;
    forall id: nat | IsOp(t, id) && t[id].req.Put? && t[id].req.key == s.key ensures HasReturned(t, id) {
      ClientAt(s, t[id].client);
    }
    forall c | 0 <= c < n
      ensures Results(s, n)[c].nok == |AnswersOf(t, s.key, c, OK)| &&
              Results(s, n)[c].nmaybe == |AnswersOf(t, s.key, c, ErrMaybe)|
    {
      ClientAt(s, c);
    }
    forall id: nat | IsOp(t, id) ensures CarefulCall(t, id) {
      assert NotAhead(t, id);
    }
  }

  /**
   Over every race of n clients: nobody ever meets a condition that stops the test, and when all have
   finished, successes <= version <= successes plus maybes, with equality when nothing was lost.
   */
  lemma RaceCountsAgree(cd: Codec, key: string, run: seq<RStep>, n: nat)
    requires RoundTrips(cd) && RPossible(RaceInit(cd, key), run)
    ensures forall c: nat :: !RacerOf(RAfter(RaceInit(cd, key), run), c).pc.Failed?
    ensures var s := RAfter(RaceInit(cd, key), run);
            RaceOver(s, n) ==>
              && SumOk(Results(s, n)) <= VersionOf(s.kv.store, key) <= SumOk(Results(s, n)) + SumMaybe(Results(s, n))
              && ((forall i :: 0 <= i < |s.kv.trace| ==> !s.kv.trace[i].Lost? && !s.kv.trace[i].Abandoned?) ==>
                    VersionOf(s.kv.store, key) == SumOk(Results(s, n)))
  {
    RaceInitInv(cd, key);
    RaceKeepsInv(RaceInit(cd, key), run);
    var s := RAfter(RaceInit(cd, key), run);
    forall c: nat ensures !RacerOf(s, c).pc.Failed? {
      ClientAt(s, c);
    }
    if RaceOver(s, n) {
      OverMeansDone(s, n);
      TraceCounts(s.kv.trace, s.key, Results(s, n));
    }
  }
}
