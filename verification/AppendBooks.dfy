/** The counts an append client reports are the answers its Puts returned. */
module AppendBooks {
  import opened KvServer
  import opened KvSystem
  import opened PutTruth
  import opened PutCounts
  import opened AppendLog

  /** The tester's own Put of the empty list, the first call of the record, returned OK as well. */
  function Made(t: Trace, c: nat): nat {
    if |t| > 0 && t[0].Invoked? && t[0].client == c then 1 else 0
  }

  ghost predicate Booked(t: Trace, c: nat, a: App) {
    |AnswersOf(t, K, c, OK)| == a.nok + Made(t, c) && |AnswersOf(t, K, c, ErrMaybe)| == a.nmay
  }

  ghost predicate BooksInv(s: AState) {
    && AppendInv(s) && |s.kv.trace| > 0
    && forall c: nat {:trigger AppOf(s, c)} :: Booked(s.kv.trace, c, AppOf(s, c))
  }

  lemma BookedAt(s: AState, c: nat)
    requires BooksInv(s)
    ensures Booked(s.kv.trace, c, AppOf(s, c))
  {
    assert AppOf(s, c) == AppOf(s, c);
  }

  /** An event that returns no Put of client c leaves its books alone. */
  lemma BookedExtends(t: Trace, e: Event, c: nat, a: App)
    requires WellFormed(t) && |t| > 0 && Booked(t, c, a)
    requires e.Returned? ==> IsOp(t, e.id) && (t[e.id].client != c || e.req.Get?)
    ensures Booked(t + [e], c, a)
  {
    AnswersExtend(t, e, K, c, OK);
    AnswersExtend(t, e, K, c, ErrMaybe);
  }

  /** The answer just returned is entered: OK in nok, ErrMaybe in nmay, anything else nowhere. */
  lemma ActorBooked(cd: Codec, t: Trace, e: Event, c: nat, a: App)
    requires WellFormed(t) && |t| > 0 && Booked(t, c, a) && Calls(a.pc)
    requires e.Returned? && IsOp(t, e.id) && t[e.id].client == c && e.req == NextReq(cd, a.pc)
    ensures Booked(t + [e], c, AfterReply(cd, c, a, e.out))
  {
    AnswersExtend(t, e, K, c, OK);
    AnswersExtend(t, e, K, c, ErrMaybe);
  }

  lemma NetBooks(s: AState, st: Step, c: nat)
    requires BooksInv(s) && AEnabled(s, Net(st))
    ensures Booked(ADo(s, Net(st)).kv.trace, c, AppOf(s, c))
  {
    StepAppends(s.kv, st);
    BookedAt(s, c);
    BookedExtends(s.kv.trace, EventOf(s.kv, st), c, AppOf(s, c));
  }

  lemma CallBooks(s: AState, d: nat, c: nat)
    requires BooksInv(s) && AEnabled(s, Call(d))
    ensures Booked(ADo(s, Call(d)).kv.trace, c, AppOf(s, c))
  {
    BookedAt(s, c);
    BookedExtends(s.kv.trace, Invoked(d, NextReq(s.cd, AppOf(s, d).pc)), c, AppOf(s, c));
  }

  lemma ReturnBooks(s: AState, d: nat, c: nat)
    requires BooksInv(s) && AEnabled(s, Return(d))
    ensures Booked(ADo(s, Return(d)).kv.trace, c, AppOf(ADo(s, Return(d)), c))
  {
    var t, e := s.kv.trace, EventOf(s.kv, Deliver(d));
    StepAppends(s.kv, Deliver(d));
    BookedAt(s, c);
    ClientAt(s, d);
    if c == d {
      ActorBooked(s.cd, t, e, c, AppOf(s, c));
    } else {
      BookedExtends(t, e, c, AppOf(s, c));
    }
  }

  lemma StepKeepsBooks(s: AState, step: AStep)
    requires BooksInv(s) && AEnabled(s, step)
    ensures BooksInv(ADo(s, step))
  {
    var s' := ADo(s, step);
    AppendStepKeepsInv(s, step);
    forall c: nat ensures Booked(s'.kv.trace, c, AppOf(s', c)) {
      match step {
        case Net(st) => NetBooks(s, st, c);
        case Call(d) => CallBooks(s, d, c);
        case Return(d) => ReturnBooks(s, d, c);
        case _ => BookedAt(s, c);
      }
    }
  }

  lemma {:induction false} RunKeepsBooks(s: AState, run: seq<AStep>)
    requires BooksInv(s) && APossible(s, run)
    ensures BooksInv(AAfter(s, run)) && s.kv.trace <= AAfter(s, run).kv.trace
    decreases |run|
  {
    if run != [] {
      StepKeepsBooks(s, run[0]);
      TraceGrows(s, run[0]);
      RunKeepsBooks(ADo(s, run[0]), run[1..]);
    }
  }

  lemma TraceGrows(s: AState, step: AStep)
    requires AppendInv(s) && AEnabled(s, step)
    ensures s.kv.trace <= ADo(s, step).kv.trace
  {
    match step
    case Net(st) => StepAppends(s.kv, st);
    case Return(c) => StepAppends(s.kv, Deliver(c));
    case _ =>
  }

  lemma InitBooks(cd: Codec, p: nat)
    requires RoundTrips(cd)
    ensures BooksInv(AppendInit(cd, p))
  {
    var s := AppendInit(cd, p);
    AppendInitInv(cd, p);
    CreatedStore(cd, p);
    var t := s.kv.trace;
    forall c: nat ensures Booked(t, c, AppOf(s, c)) {
      assert AnswersOf(t, K, c, OK) == if c == p then {2} else {};
      assert AnswersOf(t, K, c, ErrMaybe) == {};
    }
  }

  /** The returns with that answer of the list Puts of client c, the creating Put of the tester set aside. */
  function ListAnswers(t: Trace, c: nat, err: Err): set<nat> {
    set r: nat | 3 <= r < |t| && PutCounts.Answered(t, K, c, err, r)
  }

  lemma CreationAside(cd: Codec, p: nat, t: Trace, c: nat)
    requires AppendInit(cd, p).kv.trace <= t
    ensures |ListAnswers(t, c, OK)| == |AnswersOf(t, K, c, OK)| - Made(t, c)
    ensures |ListAnswers(t, c, ErrMaybe)| == |AnswersOf(t, K, c, ErrMaybe)|
  {
    CreatedStore(cd, p);
    assert t[0].Invoked? && t[1].Executed?;
    assert t[2] == Returned(0, Put(K, cd.enc([]), 0), Reply("", 0, OK), 1);
    assert AnswersOf(t, K, c, OK) == ListAnswers(t, c, OK) + if c == p then {2} else {};
    assert AnswersOf(t, K, c, ErrMaybe) == ListAnswers(t, c, ErrMaybe);
  }

  /** Over every run: nok is the number of the client's list Puts that returned OK, nmay of those with ErrMaybe. */
  lemma ReportsAreAnswers(cd: Codec, p: nat, run: seq<AStep>, c: nat)
    requires RoundTrips(cd) && APossible(AppendInit(cd, p), run)
    ensures var s := AAfter(AppendInit(cd, p), run);
            && AppOf(s, c).nok == |ListAnswers(s.kv.trace, c, OK)|
            && AppOf(s, c).nmay == |ListAnswers(s.kv.trace, c, ErrMaybe)|
  {
    InitBooks(cd, p);
    RunKeepsBooks(AppendInit(cd, p), run);
    var s := AAfter(AppendInit(cd, p), run);
    BookedAt(s, c);
    CreationAside(cd, p, s.kv.trace, c);
  }
}
