/** Exactly when the lock can never be held again: when its token is nobody's to hold with. */
module LockOrphan {
  import opened KvServer
  import opened KvSystem
  import opened PutTruth
  import opened Lock
  import opened LockSafety

  /** The client works with this token. */
  predicate HasToken(pc: Pc, tok: string) {
    !pc.Out? && !pc.Getting? && pc.tok == tok
  }

  /** A creating Put gives its token up unless it is answered OK, which no answer to come can be. */
  predicate GivesUp(pc: Pc, k: Clerk) {
    pc.Claiming? && pc.creating && !(k.Calling? && k.phase.Answered? && k.phase.reply.err == OK)
  }

  /** The lock is taken by a token that no client has, or only one that gives it up. */
  ghost predicate Orphaned(s: LState) {
    var v := ValueOf(s.kv.store, s.key);
    v != "" && forall c: nat {:trigger PcOf(s, c)} :: HasToken(PcOf(s, c), v) ==> GivesUp(PcOf(s, c), ClerkOf(s.kv, c))
  }

  lemma OrphanAt(s: LState, c: nat)
    requires LockInv(s) && Orphaned(s)
    ensures HasToken(PcOf(s, c), ViewOf(s).value) ==> GivesUp(PcOf(s, c), ClerkOf(s.kv, c))
    ensures ClientOk(ViewOf(s), s.kv.trace, c, PcOf(s, c), ClerkOf(s.kv, c))
    ensures ViewOf(s).version % 2 == 1 && !Holds(s, c)
  {
    ClientAt(s, c);
  }

  // ----- Once orphaned, for good

  lemma OrphanNotWritten(s: LState, st: Step)
    requires LockInv(s) && Orphaned(s) && LEnabled(s, Net(st))
    ensures !WritesLock(s, st)
  {
    if WritesLock(s, st) {
      var d := Writer(s, st);
      OrphanAt(s, d);
    }
  }

  /** A creating Put does not match a lock that is taken. */
  lemma ServedGivesUp(w: View, t: Trace, c: nat, pc: Pc, k: Clerk, store: Store)
    requires ClientOk(w, t, c, pc, k) && k.Calling? && pc.Claiming? && pc.creating
    requires w.version == VersionOf(store, w.key) && w.version % 2 == 1
    ensures GivesUp(pc, k.(phase := Answered(|t|, Answer(store, ReqOf(t, k.id)))))
  {
  }

  lemma NetKeepsOrphan(s: LState, st: Step)
    requires LockInv(s) && Orphaned(s) && LEnabled(s, Net(st))
    ensures Orphaned(LDo(s, Net(st))) && ViewOf(LDo(s, Net(st))) == ViewOf(s)
  {
    var s' := LDo(s, Net(st));
    OrphanNotWritten(s, st);
    NetView(s, st);
    forall c: nat | HasToken(PcOf(s', c), ViewOf(s').value) ensures GivesUp(PcOf(s', c), ClerkOf(s'.kv, c)) {
      OrphanAt(s, c);
      if st == Serve(c) {
        ServedGivesUp(ViewOf(s), s.kv.trace, c, PcOf(s, c), ClerkOf(s.kv, c), s.kv.store);
      }
    }
  }

  /** No answer lets a client take or keep the orphaned token. */
  lemma AnswerTakesNothing(w: View, t: Trace, c: nat, pc: Pc, k: Clerk, tok: string)
    requires ClientOk(w, t, c, pc, k) && k.Calling? && k.phase.Answered? && Calls(pc) && w.value != ""
    requires (HasToken(pc, w.value) ==> GivesUp(pc, k)) && tok != w.value
    ensures !HasToken(AfterReply(pc, ClerkResult(k.phase.reply, k.failed > 0), tok), w.value)
  {
  }

  lemma ReturnKeepsOrphan(s: LState, c: nat, tok: string)
    requires LockInv(s) && Orphaned(s) && LEnabled(s, Return(c, tok))
    ensures Orphaned(LDo(s, Return(c, tok))) && LDo(s, Return(c, tok)).kv.store == s.kv.store
  {
    var s', v := LDo(s, Return(c, tok)), ViewOf(s).value;
    CurrentWriter(s);
    forall d: nat | HasToken(PcOf(s', d), v) ensures GivesUp(PcOf(s', d), ClerkOf(s'.kv, d)) {
      OrphanAt(s, d);
      if d == c && Calls(PcOf(s, c)) {
        AnswerTakesNothing(ViewOf(s), s.kv.trace, c, PcOf(s, c), ClerkOf(s.kv, c), tok);
      }
    }
  }

  lemma QuietKeepsOrphan(s: LState, step: LStep)
    requires LockInv(s) && Orphaned(s) && LEnabled(s, step) && !step.Net? && !step.Return?
    ensures Orphaned(LDo(s, step)) && LDo(s, step).kv.store == s.kv.store
  {
    var s', v := LDo(s, step), ViewOf(s).value;
    forall d: nat | HasToken(PcOf(s', d), v) ensures GivesUp(PcOf(s', d), ClerkOf(s'.kv, d)) {
      OrphanAt(s, d);
    }
  }

  lemma {:induction false} OrphanStays(s: LState, run: seq<LStep>)
    requires LockInv(s) && Orphaned(s) && LPossible(s, run)
    ensures LockInv(LAfter(s, run)) && Orphaned(LAfter(s, run)) && LAfter(s, run).key == s.key
    ensures ValueOf(LAfter(s, run).kv.store, s.key) == ValueOf(s.kv.store, s.key)
    ensures VersionOf(LAfter(s, run).kv.store, s.key) == VersionOf(s.kv.store, s.key)
    decreases |run|
  {
    if run != [] {
      var s' := LDo(s, run[0]);
      match run[0] {
        case Net(st) => NetKeepsOrphan(s, st);
        case Return(c, tok) => ReturnKeepsOrphan(s, c, tok);
        case _ => QuietKeepsOrphan(s, run[0]);
      }
      LockStepKeepsInv(s, run[0]);
      OrphanStays(s', run[1..]);
    }
  }

  // ----- Otherwise somebody can still get it

  lemma LRunOne(s: LState, a: LStep)
    requires LEnabled(s, a)
    ensures LPossible(s, [a]) && LAfter(s, [a]) == LDo(s, a)
  {
    var s1 := LDo(s, a);
    assert [a][1..] == [];
    assert LPossible(s1, []) && LAfter(s1, []) == s1;
  }

  lemma LRunTwo(s: LState, a: LStep, b: LStep)
    requires LEnabled(s, a) && LEnabled(LDo(s, a), b)
    ensures LPossible(s, [a, b]) && LAfter(s, [a, b]) == LDo(LDo(s, a), b)
  {
    LRunOne(LDo(s, a), b);
    assert [a, b][1..] == [b];
  }

  lemma Unshift(run: seq<LStep>, more: seq<LStep>)
    requires run != []
    ensures (run + more)[0] == run[0] && (run + more)[1..] == run[1..] + more
  {
  }

  lemma {:induction false} LRunConcat(s: LState, run: seq<LStep>, more: seq<LStep>)
    requires LPossible(s, run) && LPossible(LAfter(s, run), more)
    ensures LPossible(s, run + more) && LAfter(s, run + more) == LAfter(LAfter(s, run), more)
    decreases |run|
  {
    if run == [] {
      assert run + more == more;
    } else {
      Unshift(run, more);
      LRunConcat(LDo(s, run[0]), run[1..], more);
    }
  }

  /** Wherever the clerk of c is in its call, or if it has none, it can come to wait with an attempt failed. */
  lemma Resend(s: LState, c: nat) returns (run: seq<LStep>)
    requires LockInv(s) && Calls(PcOf(s, c))
    ensures LPossible(s, run) && LockInv(LAfter(s, run))
    ensures var z, k := LAfter(s, run), ClerkOf(LAfter(s, run).kv, c);
            && z == s.(kv := z.kv) && z.kv.store == s.kv.store
            && k.Calling? && k.phase.Waiting? && k.failed > 0 && ReqOf(z.kv.trace, k.id) == NextReq(s.key, PcOf(s, c))
  {
    ClientAt(s, c);
    var k := ClerkOf(s.kv, c);
    if k.Idle? {
      LRunTwo(s, Call(c), Net(DropRequest(c)));
      run := [Call(c), Net(DropRequest(c))];
    } else if k.phase.Waiting? {
      LRunOne(s, Net(DropRequest(c)));
      run := [Net(DropRequest(c))];
    } else {
      LRunOne(s, Net(DropReply(c)));
      run := [Net(DropReply(c))];
    }
    LockRunKeepsInv(s, run);
  }

  /** A waiting call is served as the store stands. */
  lemma ServeCall(s: LState, c: nat)
    requires LockInv(s) && Calls(PcOf(s, c)) && ClerkOf(s.kv, c).Calling? && ClerkOf(s.kv, c).phase.Waiting?
    ensures LEnabled(s, Net(Serve(c)))
    ensures var z, req := LDo(s, Net(Serve(c))), ReqOf(s.kv.trace, ClerkOf(s.kv, c).id);
            && z == s.(kv := z.kv) && z.kv.store == NextStore(s.kv.store, req)
            && ClerkOf(z.kv, c) == ClerkOf(s.kv, c).(phase := Answered(|s.kv.trace|, Answer(s.kv.store, req)))
  {
  }

  /** Then it is answered. */
  lemma ReturnCall(s: LState, c: nat, tok: string)
    requires Calls(PcOf(s, c)) && tok != "" && tok !in s.owner
    requires var k := ClerkOf(s.kv, c); k.Calling? && k.phase.Answered?
    ensures LEnabled(s, Return(c, tok))
    ensures var z, k := LDo(s, Return(c, tok)), ClerkOf(s.kv, c);
            && z.key == s.key && z.kv.store == s.kv.store
            && PcOf(z, c) == AfterReply(PcOf(s, c), ClerkResult(k.phase.reply, k.failed > 0), tok)
            && ClerkOf(z.kv, c).Idle? && forall d: nat :: d != c ==> PcOf(z, d) == PcOf(s, d)
  {
  }

  /** From any point of a call, one more attempt can decide it. */
  lemma Decide(s: LState, c: nat, tok: string) returns (run: seq<LStep>)
    requires LockInv(s) && Calls(PcOf(s, c)) && tok != "" && tok !in s.owner
    ensures LPossible(s, run) && LockInv(LAfter(s, run)) && LAfter(s, run).key == s.key
    ensures LAfter(s, run).kv.store == NextStore(s.kv.store, NextReq(s.key, PcOf(s, c)))
    ensures PcOf(LAfter(s, run), c) ==
            AfterReply(PcOf(s, c), ClerkResult(Answer(s.kv.store, NextReq(s.key, PcOf(s, c))), true), tok)
    ensures ClerkOf(LAfter(s, run).kv, c).Idle? && forall d: nat :: d != c ==> PcOf(LAfter(s, run), d) == PcOf(s, d)
  {
    var first := Resend(s, c);
    var z := LAfter(s, first);
    ServeCall(z, c);
    var y := LDo(z, Net(Serve(c)));
    ReturnCall(y, c, tok);
    LRunTwo(z, Net(Serve(c)), Return(c, tok));
    LockStepKeepsInv(z, Net(Serve(c)));
    LockStepKeepsInv(y, Return(c, tok));
    LRunConcat(s, first, [Net(Serve(c)), Return(c, tok)]);
    run := first + [Net(Serve(c)), Return(c, tok)];
  }

  lemma {:induction false} SomeAbove(a: set<nat>) returns (b: nat)
    ensures forall x :: x in a ==> x < b
    decreases |a|
  {
    if a == {} {
      b := 0;
    } else {
      var x :| x in a;
      var rest := SomeAbove(a - {x});
      b := if x < rest then rest else x + 1;
      forall y | y in a ensures y < b {
        assert y == x || y in a - {x};
      }
    }
  }

  /** A token never drawn before. */
  lemma FreshToken(used: set<string>) returns (tok: string)
    ensures tok != "" && tok !in used
  {
    var lengths := set x | x in used :: |x|;
    var b := SomeAbove(lengths);
    tok := seq(b + 1, _ => 'a');
    assert tok in used ==> |tok| in lengths;
  }

  lemma FreshClient(s: LState) returns (c: nat)
    ensures PcOf(s, c).Out? && ClerkOf(s.kv, c).Idle?
  {
    var busy := s.pcs.Keys + s.kv.clerks.Keys;
    c := SomeAbove(busy);
    assert c !in busy;
  }

  /** A client that has just read its own token holds. */
  lemma RereadHolds(s: LState, c: nat) returns (run: seq<LStep>)
    requires LockInv(s) && PcOf(s, c).Rereading? && PcOf(s, c).tok == ViewOf(s).value
    ensures LPossible(s, run) && Holds(LAfter(s, run), c)
  {
    ClientAt(s, c);
    var tok := FreshToken(s.owner.Keys);
    run := Decide(s, c, tok);
  }

  /** A claim that was applied, not a creating one, is confirmed by reading it back. */
  lemma ClaimHolds(s: LState, c: nat) returns (run: seq<LStep>)
    requires LockInv(s) && PcOf(s, c).Claiming? && !PcOf(s, c).creating && PcOf(s, c).tok == ViewOf(s).value
    ensures LPossible(s, run) && Holds(LAfter(s, run), c)
  {
    ClientAt(s, c);
    var tok := FreshToken(s.owner.Keys);
    var first := Decide(s, c, tok);
    var z := LAfter(s, first);
    assert PcOf(z, c) == Rereading(PcOf(s, c).tok) && z.kv.store == s.kv.store;
    var rest := RereadHolds(z, c);
    LRunConcat(s, first, rest);
    run := first + rest;
  }

  lemma AnsweredHolds(s: LState, c: nat) returns (run: seq<LStep>)
    requires LockInv(s) && PcOf(s, c).Claiming?
    requires var k := ClerkOf(s.kv, c); k.Calling? && k.phase.Answered? && k.phase.reply.err == OK
    ensures LPossible(s, run) && Holds(LAfter(s, run), c)
  {
    var tok := FreshToken(s.owner.Keys);
    ReturnCall(s, c, tok);
    LRunOne(s, Return(c, tok));
    run := [Return(c, tok)];
  }

  /** A free lock can be acquired by a newcomer. */
  lemma FreeIsTaken(s: LState) returns (run: seq<LStep>, c: nat)
    requires LockInv(s) && ViewOf(s).value == ""
    ensures LPossible(s, run) && Holds(LAfter(s, run), c)
  {
    c := FreshClient(s);
    LRunOne(s, StartAcquire(c));
    var a := LDo(s, StartAcquire(c));
    LockStepKeepsInv(s, StartAcquire(c));
    var tok := FreshToken(a.owner.Keys);
    var get := Decide(a, c, tok);
    var b := LAfter(a, get);
    assert b.kv.store == s.kv.store;
    assert PcOf(b, c).Claiming? && PcOf(b, c).ver == ViewOf(s).version;
    var tok' := FreshToken(b.owner.Keys);
    var put := Decide(b, c, tok');
    LRunConcat(a, get, put);
    LRunConcat(s, [StartAcquire(c)], get + put);
    run := [StartAcquire(c)] + (get + put);
  }

  lemma NotOrphanedCanHold(s: LState) returns (run: seq<LStep>, c: nat)
    requires LockInv(s) && !Orphaned(s)
    ensures LPossible(s, run) && Holds(LAfter(s, run), c)
  {
    if ViewOf(s).value == "" {
      run, c := FreeIsTaken(s);
    } else {
      c :| HasToken(PcOf(s, c), ViewOf(s).value) && !GivesUp(PcOf(s, c), ClerkOf(s.kv, c));
      var pc := PcOf(s, c);
      if pc.Rereading? {
        run := RereadHolds(s, c);
      } else if pc.Claiming? && !pc.creating {
        run := ClaimHolds(s, c);
      } else if pc.Claiming? {
        run := AnsweredHolds(s, c);
      } else {
        run := [];
      }
    }
  }

  /** Some continuation has a client that holds the lock. */
  ghost predicate CanBeHeld(s: LState) {
    exists run, c: nat :: LPossible(s, run) && Holds(LAfter(s, run), c)
  }

  /**
   In every reachable state: the lock can never be held again, whatever the clients and the network do, if
   and only if it is orphaned.
   */
  lemma NeverHeldIffOrphaned(key: string, past: seq<LStep>)
    requires LPossible(LockInit(key), past)
    ensures !CanBeHeld(LAfter(LockInit(key), past)) <==> Orphaned(LAfter(LockInit(key), past))
  {
    LockInitInv(key);
    LockRunKeepsInv(LockInit(key), past);
    var s := LAfter(LockInit(key), past);
    if Orphaned(s) {
      forall run, c: nat | LPossible(s, run) ensures !Holds(LAfter(s, run), c) {
        OrphanStays(s, run);
        OrphanAt(LAfter(s, run), c);
      }
    } else {
      var run, c := NotOrphanedCanHold(s);
      assert LPossible(s, run) && Holds(LAfter(s, run), c);
    }
  }

  // ----- A holder can release

  /** The Put of a release clears the lock if it still matches; either way the version has moved on. */
  lemma ReleaseFromPutting(s: LState, c: nat) returns (run: seq<LStep>)
    requires LockInv(s) && PcOf(s, c).RelPutting?
    ensures LPossible(s, run) && PcOf(LAfter(s, run), c).Out?
  {
    ClientAt(s, c);
    var tok := FreshToken(s.owner.Keys);
    var put := Decide(s, c, tok);
    var z := LAfter(s, put);
    assert PcOf(z, c).RelReading? && PcOf(z, c).seen == PcOf(s, c).ver < VersionOf(z.kv.store, z.key);
    var tok' := FreshToken(z.owner.Keys);
    var get := Decide(z, c, tok');
    LRunConcat(s, put, get);
    run := put + get;
  }

  lemma ReleaseFromReading(s: LState, c: nat) returns (run: seq<LStep>)
    requires LockInv(s) && PcOf(s, c).RelReading?
    ensures LPossible(s, run) && PcOf(LAfter(s, run), c).Out?
  {
    ClientAt(s, c);
    var tok := FreshToken(s.owner.Keys);
    run := Decide(s, c, tok);
    var z := LAfter(s, run);
    if !PcOf(z, c).Out? {
      var more := ReleaseFromPutting(z, c);
      LRunConcat(s, run, more);
      run := run + more;
    }
  }

  lemma ReleaseFromGetting(s: LState, c: nat) returns (run: seq<LStep>)
    requires LockInv(s) && PcOf(s, c).RelGetting?
    ensures LPossible(s, run) && PcOf(LAfter(s, run), c).Out?
  {
    ClientAt(s, c);
    var tok := FreshToken(s.owner.Keys);
    var get := Decide(s, c, tok);
    var more := ReleaseFromReading(LAfter(s, get), c);
    LRunConcat(s, get, more);
    run := get + more;
  }

  /** The answer to a call on another key leaves the program where it is. */
  lemma DeliverOther(s: LState, c: nat) returns (run: seq<LStep>)
    requires LockInv(s) && !Calls(PcOf(s, c)) && ClerkOf(s.kv, c).Calling? && ClerkOf(s.kv, c).phase.Answered?
    ensures LPossible(s, run) && LockInv(LAfter(s, run))
    ensures PcOf(LAfter(s, run), c) == PcOf(s, c) && ClerkOf(LAfter(s, run).kv, c).Idle?
  {
    var tok := FreshToken(s.owner.Keys);
    ReturnElsewhere(s, c, tok);
    LRunOne(s, Return(c, tok));
    LockStepKeepsInv(s, Return(c, tok));
    run := [Return(c, tok)];
  }

  lemma ReturnElsewhere(s: LState, c: nat, tok: string)
    requires !Calls(PcOf(s, c)) && ClerkOf(s.kv, c).Calling? && ClerkOf(s.kv, c).phase.Answered?
    requires tok != "" && tok !in s.owner
    ensures LEnabled(s, Return(c, tok))
    ensures PcOf(LDo(s, Return(c, tok)), c) == PcOf(s, c) && ClerkOf(LDo(s, Return(c, tok)).kv, c).Idle?
  {
  }

  lemma ServeOther(s: LState, c: nat) returns (run: seq<LStep>)
    requires LockInv(s) && ClerkOf(s.kv, c).Calling? && ClerkOf(s.kv, c).phase.Waiting?
    ensures LPossible(s, run) && LockInv(LAfter(s, run)) && PcOf(LAfter(s, run), c) == PcOf(s, c)
    ensures ClerkOf(LAfter(s, run).kv, c).Calling? && ClerkOf(LAfter(s, run).kv, c).phase.Answered?
  {
    LRunOne(s, Net(Serve(c)));
    LockStepKeepsInv(s, Net(Serve(c)));
    run := [Net(Serve(c))];
  }

  /** A holder at work on another key can finish that call first. */
  lemma FinishOther(s: LState, c: nat) returns (run: seq<LStep>)
    requires LockInv(s) && PcOf(s, c).Holding?
    ensures LPossible(s, run) && LockInv(LAfter(s, run))
    ensures PcOf(LAfter(s, run), c) == PcOf(s, c) && ClerkOf(LAfter(s, run).kv, c).Idle?
  {
    var k := ClerkOf(s.kv, c);
    if k.Idle? {
      run := [];
    } else if k.phase.Answered? {
      run := DeliverOther(s, c);
    } else {
      var serve := ServeOther(s, c);
      var rest := DeliverOther(LAfter(s, serve), c);
      LRunConcat(s, serve, rest);
      run := serve + rest;
    }
  }

  lemma ReleaseFromHolding(s: LState, c: nat) returns (run: seq<LStep>)
    requires LockInv(s) && PcOf(s, c).Holding?
    ensures LPossible(s, run) && PcOf(LAfter(s, run), c).Out?
  {
    var other := FinishOther(s, c);
    var z := LAfter(s, other);
    LRunOne(z, StartRelease(c));
    LockStepKeepsInv(z, StartRelease(c));
    var rest := ReleaseFromGetting(LDo(z, StartRelease(c)), c);
    LRunConcat(z, [StartRelease(c)], rest);
    LRunConcat(s, other, [StartRelease(c)] + rest);
    run := other + ([StartRelease(c)] + rest);
  }

  /** In every reachable state whoever holds the lock can release it: some continuation ends its Release. */
  lemma HolderCanRelease(key: string, past: seq<LStep>, c: nat) returns (run: seq<LStep>)
    requires LPossible(LockInit(key), past) && Holds(LAfter(LockInit(key), past), c)
    ensures LPossible(LAfter(LockInit(key), past), run)
    ensures PcOf(LAfter(LAfter(LockInit(key), past), run), c).Out?
  {
    LockInitInv(key);
    LockRunKeepsInv(LockInit(key), past);
    var s := LAfter(LockInit(key), past);
    match PcOf(s, c) {
      case Holding(_, _) => run := ReleaseFromHolding(s, c);
      case RelGetting(_, _) => run := ReleaseFromGetting(s, c);
      case RelReading(_, _, _) => run := ReleaseFromReading(s, c);
      case RelPutting(_, _, _, _) => run := ReleaseFromPutting(s, c);
    }
  }

  // ----- The lock can become orphaned

  /** Client c is about to create the lock and nobody else is at work. */
  ghost predicate AboutToCreate(s: LState, c: nat) {
    && LockInv(s) && s.key !in s.kv.store && ClerkOf(s.kv, c).Idle?
    && PcOf(s, c).Claiming? && PcOf(s, c).creating && PcOf(s, c).ver == 0
    && forall d: nat :: d != c ==> PcOf(s, d).Out?
  }

  lemma StartsCreating(key: string) returns (run: seq<LStep>)
    ensures LPossible(LockInit(key), run) && AboutToCreate(LAfter(LockInit(key), run), 0) &&
            LAfter(LockInit(key), run).key == key
  {
    var s := LockInit(key);
    LockInitInv(key);
    LRunOne(s, StartAcquire(0));
    LockStepKeepsInv(s, StartAcquire(0));
    var a := LDo(s, StartAcquire(0));
    var tok := FreshToken(a.owner.Keys);
    var get := Decide(a, 0, tok);
    LRunConcat(s, [StartAcquire(0)], get);
    run := [StartAcquire(0)] + get;
  }

  /** The creating Put is applied; its reply has not arrived. */
  ghost predicate Created(s: LState, c: nat) {
    && LockInv(s) && s.key in s.kv.store && s.kv.store[s.key].version == 1
    && PcOf(s, c).Claiming? && PcOf(s, c).creating && PcOf(s, c).ver == 0
    && forall d: nat :: d != c ==> PcOf(s, d).Out?
  }

  lemma ServeCreates(s: LState, c: nat) returns (run: seq<LStep>)
    requires LockInv(s) && s.key !in s.kv.store && PcOf(s, c).Claiming? && PcOf(s, c).creating && PcOf(s, c).ver == 0
    requires forall d: nat :: d != c ==> PcOf(s, d).Out?
    requires ClerkOf(s.kv, c).Calling? && ClerkOf(s.kv, c).phase.Waiting?
    requires ReqOf(s.kv.trace, ClerkOf(s.kv, c).id) == NextReq(s.key, PcOf(s, c))
    ensures LPossible(s, run) && Created(LAfter(s, run), c)
  {
    ServeCall(s, c);
    LRunOne(s, Net(Serve(c)));
    LockStepKeepsInv(s, Net(Serve(c)));
    run := [Net(Serve(c))];
    var z := LDo(s, Net(Serve(c)));
    assert forall d: nat :: PcOf(z, d) == PcOf(s, d);
  }

  lemma Creates(s: LState, c: nat) returns (run: seq<LStep>)
    requires AboutToCreate(s, c)
    ensures LPossible(s, run) && Created(LAfter(s, run), c)
  {
    var send := Resend(s, c);
    var z := LAfter(s, send);
    assert forall d: nat :: PcOf(z, d) == PcOf(s, d);
    var serve := ServeCreates(z, c);
    LRunConcat(s, send, serve);
    run := send + serve;
  }

  /** The reply is lost: the resend answers ErrMaybe, and Acquire starts over with another token. */
  lemma LosesReply(s: LState, c: nat) returns (run: seq<LStep>)
    requires Created(s, c)
    ensures LPossible(s, run) && Orphaned(LAfter(s, run))
  {
    var tok := FreshToken(s.owner.Keys);
    MaybeStartsOver(s.kv.store, s.key, PcOf(s, c), tok);
    run := Decide(s, c, tok);
    NobodyHasIt(LAfter(s, run), c);
  }

  lemma MaybeStartsOver(store: Store, key: string, pc: Pc, tok: string)
    requires pc.Claiming? && pc.creating && pc.ver == 0 && key in store && store[key].version == 1
    ensures NextStore(store, NextReq(key, pc)) == store
    ensures AfterReply(pc, ClerkResult(Answer(store, NextReq(key, pc)), true), tok) == Getting
  {
  }

  lemma NobodyHasIt(s: LState, c: nat)
    requires Parity(ViewOf(s)) && VersionOf(s.kv.store, s.key) == 1
    requires PcOf(s, c).Getting? && forall d: nat :: d != c ==> PcOf(s, d).Out?
    ensures Orphaned(s)
  {
  }

  /** One client and one lost reply are enough. */
  lemma OrphanReachable(key: string) returns (run: seq<LStep>)
    ensures LPossible(LockInit(key), run) && Orphaned(LAfter(LockInit(key), run))
  {
    var first := StartsCreating(key);
    var s := LAfter(LockInit(key), first);
    var put := Creates(s, 0);
    var lose := LosesReply(LAfter(s, put), 0);
    LRunConcat(s, put, lose);
    LRunConcat(LockInit(key), first, put + lose);
    run := first + (put + lose);
  }
}
