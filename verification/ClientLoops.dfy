/** The test clients' loops over clerk calls, each tied to its step program. */
module AppendLoop {
  import opened KvServer
  import opened AppendLog
  import opened ScriptedClerks

  /** The top of the client's loop: rounds is how often it comes by before it is told to stop. */
  function Turn(a: App, rounds: nat): App {
    if a.pc.Deciding? then a.(pc := if a.i < rounds then Reading else Done) else a
  }

  /** The client after n answers. */
  function At(cd: Codec, c: nat, rounds: nat, outs: seq<Reply>, n: nat): App
    requires n <= |outs|
  {
    if n == 0 then Turn(App(0, 0, 0, Deciding), rounds)
    else
      var a := At(cd, c, rounds, outs, n - 1);
      if Calls(a.pc) then Turn(AfterReply(cd, c, a, outs[n - 1]), rounds) else a
  }

  /** The calls answered by then. */
  function Sent(cd: Codec, c: nat, rounds: nat, outs: seq<Reply>, n: nat): seq<Request>
    requires n <= |outs|
  {
    if n == 0 then []
    else
      var a := At(cd, c, rounds, outs, n - 1);
      Sent(cd, c, rounds, outs, n - 1) + if Calls(a.pc) then [NextReq(cd, a.pc)] else []
  }

  // ----- What the client does, said of its calls and their answers alone

  /** Of the first n calls, the Puts that were answered err. */
  function PutAnswers(sent: seq<Request>, outs: seq<Reply>, n: nat, err: Err): nat
    requires n <= |sent| && n <= |outs|
  {
    if n == 0 then 0
    else PutAnswers(sent, outs, n - 1, err) + if sent[n - 1].Put? && outs[n - 1].err == err then 1 else 0
  }

  /** The list put after the Get at j: what it read, and the client's next number, one per OK or ErrMaybe so far. */
  function Longer(cd: Codec, c: nat, sent: seq<Request>, outs: seq<Reply>, j: nat): seq<Item>
    requires j < |sent| <= |outs|
  {
    cd.dec(outs[j].value) + [Item(c, PutAnswers(sent, outs, j, OK) + PutAnswers(sent, outs, j, ErrMaybe))]
  }

  /** A Put follows each Get. */
  predicate ReadsNext(sent: seq<Request>, j: nat)
    requires j <= |sent|
  {
    j == 0 || sent[j - 1].Put?
  }

  /** Gets and Puts alternate; each Put carries the longer list at the version just read. */
  function CallAt(cd: Codec, c: nat, sent: seq<Request>, outs: seq<Reply>, j: nat): Request
    requires j <= |sent| <= |outs|
  {
    if ReadsNext(sent, j) then Get(K) else Put(K, cd.enc(Longer(cd, c, sent, outs, j - 1)), outs[j - 1].version)
  }

  predicate CallsAre(cd: Codec, c: nat, sent: seq<Request>, outs: seq<Reply>)
    requires |sent| <= |outs|
  {
    forall j :: 0 <= j < |sent| ==> sent[j] == CallAt(cd, c, sent, outs, j)
  }

  /** nok and nmay count the answers; the client stops at its last round, or where a Get finds no list. */
  predicate Observed(cd: Codec, c: nat, rounds: nat, sent: seq<Request>, outs: seq<Reply>, a: App)
    requires |sent| <= |outs|
  {
    var n := |sent|;
    && CallsAre(cd, c, sent, outs)
    && a.nok == PutAnswers(sent, outs, n, OK) && a.nmay == PutAnswers(sent, outs, n, ErrMaybe) && a.i == a.nok + a.nmay
    && (!ReadsNext(sent, n) ==> a.i < rounds)
    && a.pc == if ReadsNext(sent, n) then (if a.i < rounds then Reading else Done)
               else if outs[n - 1].err != OK then Failed
               else Writing(Longer(cd, c, sent, outs, n - 1), outs[n - 1].version)
  }

  lemma {:induction false} SameAnswers(sent: seq<Request>, more: seq<Request>, outs: seq<Reply>, n: nat, err: Err)
    requires n <= |sent| && sent <= more && |more| <= |outs|
    ensures PutAnswers(more, outs, n, err) == PutAnswers(sent, outs, n, err)
  {
    if n > 0 {
      SameAnswers(sent, more, outs, n - 1, err);
    }
  }

  lemma SameLonger(cd: Codec, c: nat, sent: seq<Request>, more: seq<Request>, outs: seq<Reply>, j: nat)
    requires j < |sent| && sent <= more && |more| <= |outs|
    ensures Longer(cd, c, more, outs, j) == Longer(cd, c, sent, outs, j)
  {
    SameAnswers(sent, more, outs, j, OK);
    SameAnswers(sent, more, outs, j, ErrMaybe);
  }

  lemma SameCall(cd: Codec, c: nat, sent: seq<Request>, more: seq<Request>, outs: seq<Reply>, j: nat)
    requires j <= |sent| && sent <= more && |more| <= |outs|
    ensures CallAt(cd, c, more, outs, j) == CallAt(cd, c, sent, outs, j)
  {
    if !ReadsNext(sent, j) {
      SameLonger(cd, c, sent, more, outs, j - 1);
    }
  }

  lemma CallsNext(cd: Codec, c: nat, sent: seq<Request>, req: Request, outs: seq<Reply>)
    requires |sent| < |outs| && CallsAre(cd, c, sent, outs) && req == CallAt(cd, c, sent, outs, |sent|)
    ensures CallsAre(cd, c, sent + [req], outs)
  {
    var more := sent + [req];
    forall j | 0 <= j < |more| ensures more[j] == CallAt(cd, c, more, outs, j) {
      SameCall(cd, c, sent, more, outs, j);
      assert j < |sent| ==> more[j] == sent[j];
    }
  }

  lemma AnswersNext(sent: seq<Request>, req: Request, outs: seq<Reply>, err: Err)
    requires |sent| < |outs|
    ensures var n := |sent|;
            PutAnswers(sent + [req], outs, n + 1, err) ==
            PutAnswers(sent, outs, n, err) + if req.Put? && outs[n].err == err then 1 else 0
  {
    SameAnswers(sent, sent + [req], outs, |sent|, err);
  }

  /** One more Get and its answer. */
  lemma GetObserved(cd: Codec, c: nat, rounds: nat, sent: seq<Request>, outs: seq<Reply>, a: App)
    requires |sent| < |outs| && Observed(cd, c, rounds, sent, outs, a) && a.pc.Reading?
    ensures Observed(cd, c, rounds, sent + [Get(K)], outs, Turn(AfterReply(cd, c, a, outs[|sent|]), rounds))
  {
    var n, more := |sent|, sent + [Get(K)];
    CallsNext(cd, c, sent, Get(K), outs);
    AnswersNext(sent, Get(K), outs, OK);
    AnswersNext(sent, Get(K), outs, ErrMaybe);
    SameAnswers(sent, more, outs, n, OK);
    SameAnswers(sent, more, outs, n, ErrMaybe);
    assert Longer(cd, c, more, outs, n) == cd.dec(outs[n].value) + [Item(c, a.i)];
  }

  /** One more Put and its answer. */
  lemma PutObserved(cd: Codec, c: nat, rounds: nat, sent: seq<Request>, outs: seq<Reply>, a: App)
    requires |sent| < |outs| && Observed(cd, c, rounds, sent, outs, a) && a.pc.Writing? && a.i < rounds
    ensures Observed(cd, c, rounds, sent + [NextReq(cd, a.pc)], outs, Turn(AfterReply(cd, c, a, outs[|sent|]), rounds))
  {
    var req := NextReq(cd, a.pc);
    PutCalled(cd, c, rounds, sent, outs, a);
    PutBooked(cd, c, sent, req, outs, a);
    RoundOver(cd, c, rounds, sent + [req], outs, AfterReply(cd, c, a, outs[|sent|]));
  }

  lemma PutCalled(cd: Codec, c: nat, rounds: nat, sent: seq<Request>, outs: seq<Reply>, a: App)
    requires |sent| < |outs| && Observed(cd, c, rounds, sent, outs, a) && a.pc.Writing?
    ensures CallsAre(cd, c, sent + [NextReq(cd, a.pc)], outs)
  {
    CallsNext(cd, c, sent, NextReq(cd, a.pc), outs);
  }

  /** The answer to a Put enters the counts. */
  lemma PutBooked(cd: Codec, c: nat, sent: seq<Request>, req: Request, outs: seq<Reply>, a: App)
    requires |sent| < |outs| && a.pc.Writing? && req.Put?
    requires a.nok == PutAnswers(sent, outs, |sent|, OK) && a.nmay == PutAnswers(sent, outs, |sent|, ErrMaybe)
    requires a.i == a.nok + a.nmay
    ensures var b, n := AfterReply(cd, c, a, outs[|sent|]), |sent|;
            && b.nok == PutAnswers(sent + [req], outs, n + 1, OK)
            && b.nmay == PutAnswers(sent + [req], outs, n + 1, ErrMaybe) && b.i == b.nok + b.nmay
  {
    AnswersNext(sent, req, outs, OK);
    AnswersNext(sent, req, outs, ErrMaybe);
  }

  /** Between two rounds, or before the next try of one. */
  lemma RoundOver(cd: Codec, c: nat, rounds: nat, sent: seq<Request>, outs: seq<Reply>, a: App)
    requires |sent| <= |outs| && ReadsNext(sent, |sent|) && CallsAre(cd, c, sent, outs)
    requires a.nok == PutAnswers(sent, outs, |sent|, OK) && a.nmay == PutAnswers(sent, outs, |sent|, ErrMaybe)
    requires a.i == a.nok + a.nmay && (a.pc.Deciding? || (a.pc.Reading? && a.i < rounds))
    ensures Observed(cd, c, rounds, sent, outs, Turn(a, rounds))
  {
  }

  lemma {:induction false} SentAtMost(cd: Codec, c: nat, rounds: nat, outs: seq<Reply>, n: nat)
    requires n <= |outs|
    ensures |Sent(cd, c, rounds, outs, n)| <= n
  {
    if n > 0 {
      SentAtMost(cd, c, rounds, outs, n - 1);
    }
  }

  /** What the program does when each of the first n answers was asked for. */
  lemma {:induction false} ProgramObserved(cd: Codec, c: nat, rounds: nat, outs: seq<Reply>, n: nat)
    requires n <= |outs| && |Sent(cd, c, rounds, outs, n)| == n
    ensures Observed(cd, c, rounds, Sent(cd, c, rounds, outs, n), outs, At(cd, c, rounds, outs, n))
  {
    if n > 0 {
      SentAtMost(cd, c, rounds, outs, n - 1);
      ProgramObserved(cd, c, rounds, outs, n - 1);
      var sent, a := Sent(cd, c, rounds, outs, n - 1), At(cd, c, rounds, outs, n - 1);
      if a.pc.Reading? {
        GetObserved(cd, c, rounds, sent, outs, a);
      } else {
        PutObserved(cd, c, rounds, sent, outs, a);
      }
    }
  }

  // ----- The loops

  /** The client is where the step program is, and has made its calls. */
  predicate Follows(cd: Codec, c: nat, rounds: nat, ck: ScriptedClerk, a: App)
    reads ck
  {
    ck.Valid() && ck.sent == Sent(cd, c, rounds, ck.outs, ck.n) && a == At(cd, c, rounds, ck.outs, ck.n)
  }

  /** The Put of the longer list; unless it answers OK or ErrMaybe the list is read again. */
  method PutBack(cd: Codec, me: nat, ghost rounds: nat, a: App, es: seq<Item>, ver: nat, ck: ScriptedClerk)
    returns (end: App)
    requires a.pc.Reading? && !ck.Over() && Follows(cd, me, rounds, ck, a.(pc := Writing(es, ver)))
    modifies ck
    ensures ck.n == old(ck.n) + 1 && ck.sent == old(ck.sent) + [Put(K, cd.enc(es), ver)]
    ensures Follows(cd, me, rounds, ck, Turn(end, rounds))
    ensures var err := ck.outs[old(ck.n)].err;
            end == match err
                   case OK => App(a.i + 1, a.nok + 1, a.nmay, Deciding)
                   case ErrMaybe => App(a.i + 1, a.nok, a.nmay + 1, Deciding)
                   case _ => a
  {
    var put := ck.Call(Put(K, cd.enc(es), ver));
    if put.err == OK {
      end := App(a.i + 1, a.nok + 1, a.nmay, Deciding);
    } else if put.err == ErrMaybe {
      end := App(a.i + 1, a.nok, a.nmay + 1, Deciding);
    } else {
      end := a;
    }
  }

  /** Keeps reading the list and putting it back one longer until the answer is OK or ErrMaybe. */
  method AppendOne(cd: Codec, me: nat, ghost rounds: nat, a: App, ck: ScriptedClerk) returns (end: App)
    requires a.pc.Reading? && Follows(cd, me, rounds, ck, a)
    modifies ck
    ensures Follows(cd, me, rounds, ck, Turn(end, rounds))
    ensures end.pc.Deciding? ==> end.i == a.i + 1
    ensures Calls(end.pc) ==> ck.Over()
    ensures !end.pc.Done?
  {
    while !ck.Over()
      invariant Follows(cd, me, rounds, ck, a)
      decreases |ck.outs| - ck.n
    {
      var got := ck.Call(Get(K));
      if got.err != OK {
        return a.(pc := Failed);
      }
      var es := cd.dec(got.value) + [Item(me, a.i)];
      if ck.Over() {
        return a.(pc := Writing(es, got.version));
      }
      end := PutBack(cd, me, rounds, a, es, got.version, ck);
      if end.pc.Deciding? {
        return;
      }
    }
    end := a;
  }

  /**
   The whole client: for any answers and any number of rounds it makes exactly the calls of the step program,
   and reports how many of its Puts were answered OK and ErrMaybe.
   */
  method OneClientAppend(cd: Codec, me: nat, rounds: nat, ck: ScriptedClerk) returns (end: App)
    requires ck.Valid() && ck.n == 0
    modifies ck
    ensures Follows(cd, me, rounds, ck, end) && Observed(cd, me, rounds, ck.sent, ck.outs, end)
    ensures end.pc.Done? || end.pc.Failed? || (Calls(end.pc) && ck.Over())
    ensures end.pc.Done? ==> end.nok + end.nmay == rounds
  {
    end := AppendAll(cd, me, rounds, ck);
    ProgramObserved(cd, me, rounds, ck.outs, ck.n);
  }

  method AppendAll(cd: Codec, me: nat, rounds: nat, ck: ScriptedClerk) returns (end: App)
    requires ck.Valid() && ck.n == 0
    modifies ck
    ensures Follows(cd, me, rounds, ck, end)
    ensures end.pc.Done? || end.pc.Failed? || (Calls(end.pc) && ck.Over())
    ensures end.pc.Done? ==> end.i == rounds
  {
    var a := App(0, 0, 0, Deciding);
    while a.i < rounds
      invariant a.pc.Deciding? && a.i <= rounds && Follows(cd, me, rounds, ck, Turn(a, rounds))
      decreases rounds - a.i
    {
      var next := AppendOne(cd, me, rounds, a.(pc := Reading), ck);
      if !next.pc.Deciding? {
        return next;
      }
      a := next;
    }
    end := a.(pc := Done);
  }
}

module OnePutLoop {
  import opened KvServer
  import opened OnePut
  import opened ScriptedClerks

  /** The top of the client's loop: rounds is how often it comes by before it is told to stop. */
  function Turn(r: Racer, rounds: nat): Racer {
    if r.pc.Choosing? then r.(pc := if r.nok + r.nmay < rounds then Putting else Done) else r
  }

  /** The client after n answers. */
  function At(cd: Codec, c: nat, rounds: nat, outs: seq<Reply>, n: nat): Racer
    requires n <= |outs|
  {
    if n == 0 then Turn(Racer(0, 0, 0, Choosing), rounds)
    else
      var r := At(cd, c, rounds, outs, n - 1);
      if Calls(r.pc) then Turn(AfterReply(cd, c, r, outs[n - 1]), rounds) else r
  }

  /** The calls answered by then. */
  function Sent(cd: Codec, key: string, c: nat, rounds: nat, outs: seq<Reply>, n: nat): seq<Request>
    requires n <= |outs|
  {
    if n == 0 then []
    else
      var r := At(cd, c, rounds, outs, n - 1);
      Sent(cd, key, c, rounds, outs, n - 1) + if Calls(r.pc) then [NextReq(cd, key, c, r)] else []
  }

  // ----- What the client does, said of its calls and their answers alone

  /** The version a Put at position j asks for: 0 at first, then what the Get before it read. */
  function VerAt(outs: seq<Reply>, j: nat): nat
    requires j <= |outs|
  {
    if j == 0 then 0 else outs[j - 1].version
  }

  /** A Put comes first and after each Get. */
  predicate PutsNext(sent: seq<Request>, j: nat)
    requires j <= |sent|
  {
    j == 0 || sent[j - 1].Get?
  }

  /** Puts and Gets alternate; each Put carries the client's entry at the version just read. */
  function CallAt(cd: Codec, key: string, c: nat, sent: seq<Request>, outs: seq<Reply>, j: nat): Request
    requires j <= |sent| <= |outs|
  {
    if PutsNext(sent, j) then Put(key, cd.enc(EntryV(c, VerAt(outs, j))), VerAt(outs, j)) else Get(key)
  }

  predicate CallsAre(cd: Codec, key: string, c: nat, sent: seq<Request>, outs: seq<Reply>)
    requires |sent| <= |outs|
  {
    forall j :: 0 <= j < |sent| ==> sent[j] == CallAt(cd, key, c, sent, outs, j)
  }

  /** Of the first n calls, the Gets that follow a Put answered err. */
  function ReadBacks(sent: seq<Request>, outs: seq<Reply>, n: nat, err: Err): nat
    requires n <= |sent| && n <= |outs|
  {
    if n <= 1 then 0
    else ReadBacks(sent, outs, n - 1, err) + if sent[n - 1].Get? && outs[n - 2].err == err then 1 else 0
  }

  /** Where the test stops: no key, or right after an own Put an entry that is not its own. */
  predicate WrongRead(cd: Codec, c: nat, outs: seq<Reply>, j: nat)
    requires 0 < j < |outs|
  {
    var v, e := VerAt(outs, j - 1), cd.dec(outs[j].value);
    outs[j].err != OK || (outs[j - 1].err == OK && outs[j].version == v + 1 && e.id != c && e.v != v)
  }

  /** The last call was a Get with such an answer. */
  predicate Stopped(cd: Codec, c: nat, sent: seq<Request>, outs: seq<Reply>)
    requires |sent| <= |outs|
  {
    |sent| > 1 && sent[|sent| - 1].Get? && WrongRead(cd, c, outs, |sent| - 1)
  }

  /** The counts are the answers read back; the client stops at its last round or where the test would. */
  predicate Observed(cd: Codec, key: string, c: nat, rounds: nat, sent: seq<Request>, outs: seq<Reply>, r: Racer)
    requires |sent| <= |outs|
  {
    var n := |sent|;
    && CallsAre(cd, key, c, sent, outs)
    && if Stopped(cd, c, sent, outs) then r.pc == Failed && BooksAre(sent, outs, n - 1, r)
       else
         && BooksAre(sent, outs, n, r)
         && (!PutsNext(sent, n) ==> r.nok + r.nmay < rounds)
         && r.ver == VerAt(outs, if PutsNext(sent, n) then n else n - 1)
         && r.pc == if PutsNext(sent, n) then (if r.nok + r.nmay < rounds then Putting else Done)
                    else if outs[n - 1].err == ErrNoKey then Failed
                    else Reading(outs[n - 1].err)
  }

  predicate BooksAre(sent: seq<Request>, outs: seq<Reply>, n: nat, r: Racer)
    requires n <= |sent| && n <= |outs|
  {
    r.nok == ReadBacks(sent, outs, n, OK) && r.nmay == ReadBacks(sent, outs, n, ErrMaybe)
  }

  lemma {:induction false} SameReadBacks(sent: seq<Request>, more: seq<Request>, outs: seq<Reply>, n: nat, err: Err)
    requires n <= |sent| && sent <= more && |more| <= |outs|
    ensures ReadBacks(more, outs, n, err) == ReadBacks(sent, outs, n, err)
  {
    if n > 1 {
      SameReadBacks(sent, more, outs, n - 1, err);
    }
  }

  lemma CallsNext(cd: Codec, key: string, c: nat, sent: seq<Request>, outs: seq<Reply>, r: Racer)
    requires |sent| < |outs| && CallsAre(cd, key, c, sent, outs) && Calls(r.pc)
    requires NextReq(cd, key, c, r) == CallAt(cd, key, c, sent, outs, |sent|)
    ensures CallsAre(cd, key, c, sent + [NextReq(cd, key, c, r)], outs)
  {
    var more := sent + [NextReq(cd, key, c, r)];
    forall j | 0 <= j < |more| ensures more[j] == CallAt(cd, key, c, more, outs, j) {
      assert j < |sent| ==> more[j] == sent[j];
      assert j > 0 ==> more[j - 1] == sent[j - 1];
    }
  }

  lemma SameBooks(sent: seq<Request>, req: Request, outs: seq<Reply>, r: Racer)
    requires |sent| < |outs| && BooksAre(sent, outs, |sent|, r)
    ensures BooksAre(sent + [req], outs, |sent|, r)
    ensures req.Put? ==> BooksAre(sent + [req], outs, |sent| + 1, r)
  {
    SameReadBacks(sent, sent + [req], outs, |sent|, OK);
    SameReadBacks(sent, sent + [req], outs, |sent|, ErrMaybe);
  }

  /** One more Put and its answer. */
  lemma PutObserved(cd: Codec, key: string, c: nat, rounds: nat, sent: seq<Request>, outs: seq<Reply>, r: Racer)
    requires |sent| < |outs| && Observed(cd, key, c, rounds, sent, outs, r) && r.pc.Putting?
    ensures Observed(cd, key, c, rounds, sent + [NextReq(cd, key, c, r)], outs, AfterReply(cd, c, r, outs[|sent|]))
  {
    CallsNext(cd, key, c, sent, outs, r);
    SameBooks(sent, NextReq(cd, key, c, r), outs, r);
  }

  /** What the Get read decides where the client goes and what it counts. */
  lemma ReadBooked(cd: Codec, key: string, c: nat, sent: seq<Request>, outs: seq<Reply>, r: Racer)
    requires 0 < |sent| < |outs| && BooksAre(sent, outs, |sent|, r) && r.pc == Reading(outs[|sent| - 1].err)
    requires r.ver == VerAt(outs, |sent| - 1)
    ensures var n, q := |sent|, AfterReply(cd, c, r, outs[|sent|]);
            if WrongRead(cd, c, outs, n) then q == r.(pc := Failed)
            else q.ver == outs[n].version && BooksAre(sent + [Get(key)], outs, n + 1, q) &&
                 q.pc == if r.pc.err == OK || r.pc.err == ErrMaybe then Choosing else Putting
  {
    SameBooks(sent, Get(key), outs, r);
  }

  /** One more Get and its answer. */
  lemma GetObserved(cd: Codec, key: string, c: nat, rounds: nat, sent: seq<Request>, outs: seq<Reply>, r: Racer)
    requires |sent| < |outs| && Observed(cd, key, c, rounds, sent, outs, r) && r.pc.Reading?
    ensures Observed(cd, key, c, rounds, sent + [Get(key)], outs, Turn(AfterReply(cd, c, r, outs[|sent|]), rounds))
  {
    CallsNext(cd, key, c, sent, outs, r);
    SameBooks(sent, Get(key), outs, r);
    ReadBooked(cd, key, c, sent, outs, r);
  }

  lemma {:induction false} SentAtMost(cd: Codec, key: string, c: nat, rounds: nat, outs: seq<Reply>, n: nat)
    requires n <= |outs|
    ensures |Sent(cd, key, c, rounds, outs, n)| <= n
  {
    if n > 0 {
      SentAtMost(cd, key, c, rounds, outs, n - 1);
    }
  }

  /** What the program does when each of the first n answers was asked for. */
  lemma {:induction false} ProgramObserved(cd: Codec, key: string, c: nat, rounds: nat, outs: seq<Reply>, n: nat)
    requires n <= |outs| && |Sent(cd, key, c, rounds, outs, n)| == n
    ensures Observed(cd, key, c, rounds, Sent(cd, key, c, rounds, outs, n), outs, At(cd, c, rounds, outs, n))
  {
    if n > 0 {
      SentAtMost(cd, key, c, rounds, outs, n - 1);
      ProgramObserved(cd, key, c, rounds, outs, n - 1);
      var sent, r := Sent(cd, key, c, rounds, outs, n - 1), At(cd, c, rounds, outs, n - 1);
      if r.pc.Putting? {
        PutObserved(cd, key, c, rounds, sent, outs, r);
      } else {
        GetObserved(cd, key, c, rounds, sent, outs, r);
      }
    }
  }

  // ----- The loops

  /** The client is where the step program is, and has made its calls. */
  predicate Follows(cd: Codec, key: string, c: nat, rounds: nat, ck: ScriptedClerk, r: Racer)
    reads ck
  {
    ck.Valid() && ck.sent == Sent(cd, key, c, rounds, ck.outs, ck.n) && r == At(cd, c, rounds, ck.outs, ck.n)
  }

  /** The Get after a Put answered err: it must find the key and, right after an own Put, the own entry. */
  method ReadBack(cd: Codec, key: string, me: nat, ghost rounds: nat, r: Racer, err: Err, ck: ScriptedClerk)
    returns (end: Racer)
    requires r.pc.Putting? && !ck.Over() && Follows(cd, key, me, rounds, ck, r.(pc := Reading(err)))
    modifies ck
    ensures ck.n == old(ck.n) + 1 && ck.sent == old(ck.sent) + [Get(key)]
    ensures Follows(cd, key, me, rounds, ck, Turn(end, rounds))
    ensures var got := ck.outs[old(ck.n)]; var e := cd.dec(got.value);
            if got.err != OK || (err == OK && got.version == r.ver + 1 && e.id != me && e.v != r.ver) then
              end == r.(pc := Failed)
            else
              end == match err
                     case OK => Racer(got.version, r.nok + 1, r.nmay, Choosing)
                     case ErrMaybe => Racer(got.version, r.nok, r.nmay + 1, Choosing)
                     case _ => r.(ver := got.version)
  {
    var got := ck.Call(Get(key));
    if got.err != OK {
      return r.(pc := Failed);
    }
    var e, ver0 := cd.dec(got.value), got.version;
    if err == OK && ver0 == r.ver + 1 {
      if e.id != me && e.v != r.ver {
        return r.(pc := Failed);
      }
    }
    if err == OK {
      end := Racer(ver0, r.nok + 1, r.nmay, Choosing);
    } else if err == ErrMaybe {
      end := Racer(ver0, r.nok, r.nmay + 1, Choosing);
    } else {
      end := r.(ver := ver0);
    }
  }

  /** Puts, then reads, until a Put answers OK or ErrMaybe; the version read last is the next to put at. */
  method PutOne(cd: Codec, key: string, me: nat, ghost rounds: nat, r: Racer, ck: ScriptedClerk) returns (end: Racer)
    requires r.pc.Putting? && Follows(cd, key, me, rounds, ck, r)
    modifies ck
    ensures Follows(cd, key, me, rounds, ck, Turn(end, rounds))
    ensures end.pc.Choosing? ==> end.nok + end.nmay == r.nok + r.nmay + 1
    ensures Calls(end.pc) ==> ck.Over()
    ensures !end.pc.Done?
  {
    end := r;
    while !ck.Over()
      invariant end == r.(ver := end.ver) && Follows(cd, key, me, rounds, ck, end)
      decreases |ck.outs| - ck.n
    {
      var put := ck.Call(Put(key, cd.enc(EntryV(me, end.ver)), end.ver));
      if put.err == ErrNoKey {
        return end.(pc := Failed);
      }
      if ck.Over() {
        return end.(pc := Reading(put.err));
      }
      end := ReadBack(cd, key, me, rounds, end, put.err, ck);
      if !end.pc.Putting? {
        return;
      }
    }
  }

  /**
   The whole client on one key: for any answers and any number of rounds it makes exactly the calls of the
   step program, putting first at version 0 and then at the version it read last.
   */
  method OneClientPut(cd: Codec, key: string, me: nat, rounds: nat, ck: ScriptedClerk) returns (end: Racer)
    requires ck.Valid() && ck.n == 0
    modifies ck
    ensures Follows(cd, key, me, rounds, ck, end)
    ensures Observed(cd, key, me, rounds, ck.sent, ck.outs, end)
    ensures end.pc.Done? || end.pc.Failed? || (Calls(end.pc) && ck.Over())
    ensures end.pc.Done? ==> end.nok + end.nmay == rounds
  {
    end := PutAll(cd, key, me, rounds, ck);
    ProgramObserved(cd, key, me, rounds, ck.outs, ck.n);
  }

  method PutAll(cd: Codec, key: string, me: nat, rounds: nat, ck: ScriptedClerk) returns (end: Racer)
    requires ck.Valid() && ck.n == 0
    modifies ck
    ensures Follows(cd, key, me, rounds, ck, end)
    ensures end.pc.Done? || end.pc.Failed? || (Calls(end.pc) && ck.Over())
    ensures end.pc.Done? ==> end.nok + end.nmay == rounds
  {
    var r := Racer(0, 0, 0, Choosing);
    while r.nok + r.nmay < rounds
      invariant r.pc.Choosing? && r.nok + r.nmay <= rounds
      invariant Follows(cd, key, me, rounds, ck, Turn(r, rounds))
      decreases rounds - (r.nok + r.nmay)
    {
      var next := PutOne(cd, key, me, rounds, r.(pc := Putting), ck);
      if !next.pc.Choosing? {
        return next;
      }
      r := next;
    }
    end := r.(pc := Done);
  }
}
