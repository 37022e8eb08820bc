/**
 The lock's methods as they loop over clerk calls, against any answers of the clerk. Each method makes
 exactly the calls of the step program and ends exactly where the program is.
 */
module LockLoops {
  import opened KvServer
  import opened Lock
  import opened ScriptedClerks

  /** The program point after n answers; toks[i] is the value RandValue draws when answer i arrives. */
  function At(start: Pc, outs: seq<Reply>, toks: seq<string>, n: nat): Pc
    requires n <= |outs| == |toks|
  {
    if n == 0 then start
    else
      var pc := At(start, outs, toks, n - 1);
      if Calls(pc) then AfterReply(pc, outs[n - 1], toks[n - 1]) else pc
  }

  /** The calls answered by then. */
  function Sent(key: string, start: Pc, outs: seq<Reply>, toks: seq<string>, n: nat): seq<Request>
    requires n <= |outs| == |toks|
  {
    if n == 0 then []
    else
      var pc := At(start, outs, toks, n - 1);
      Sent(key, start, outs, toks, n - 1) + if Calls(pc) then [NextReq(key, pc)] else []
  }

  /** The clerk has been driven to where the step program is. */
  predicate Follows(ck: ScriptedClerk, key: string, start: Pc, toks: seq<string>)
    reads ck
  {
    ck.Valid() && |toks| == |ck.outs| && ck.sent == Sent(key, start, ck.outs, toks, ck.n)
  }

  function Now(ck: ScriptedClerk, start: Pc, toks: seq<string>): Pc
    requires ck.Valid() && |toks| == |ck.outs|
    reads ck
  {
    At(start, ck.outs, toks, ck.n)
  }

  function Gets(key: string, k: nat): seq<Request> {
    seq(k, _ => Get(key))
  }

  lemma OneMoreGet(sent: seq<Request>, key: string, k: nat)
    ensures sent + Gets(key, k) + [Get(key)] == sent + Gets(key, k + 1)
  {
  }

  /** Reads that fail leave a rereading program where it is. */
  lemma {:induction false} FailedReadsStay(key: string, start: Pc, outs: seq<Reply>, toks: seq<string>, a: nat, b: nat)
    requires a <= b <= |outs| == |toks|
    requires At(start, outs, toks, a).Rereading? || At(start, outs, toks, a).RelReading?
    requires forall i :: a <= i < b ==> outs[i].err != OK
    ensures At(start, outs, toks, b) == At(start, outs, toks, a)
    ensures Sent(key, start, outs, toks, b) == Sent(key, start, outs, toks, a) + Gets(key, b - a)
    decreases b - a
  {
    if a < b {
      FailedReadsStay(key, start, outs, toks, a, b - 1);
      OneMoreGet(Sent(key, start, outs, toks, a), key, b - 1 - a);
    } else {
      assert Gets(key, 0) == [];
    }
  }

  /** What ReadUntilSuccess did, from answer a to answer n, is what the program does while rereading. */
  lemma Reread(key: string, start: Pc, outs: seq<Reply>, toks: seq<string>, a: nat, n: nat, read: bool)
    requires a <= n <= |outs| == |toks|
    requires At(start, outs, toks, a).Rereading? || At(start, outs, toks, a).RelReading?
    requires forall i :: a <= i < n - 1 ==> outs[i].err != OK
    requires if read then a < n && outs[n - 1].err == OK else a < n ==> outs[n - 1].err != OK
    ensures Sent(key, start, outs, toks, n) == Sent(key, start, outs, toks, a) + Gets(key, n - a)
    ensures var pc := At(start, outs, toks, a);
            At(start, outs, toks, n) == if read then AfterReply(pc, outs[n - 1], toks[n - 1]) else pc
  {
    if read {
      FailedReadsStay(key, start, outs, toks, a, n - 1);
      OneMoreGet(Sent(key, start, outs, toks, a), key, n - 1 - a);
    } else {
      FailedReadsStay(key, start, outs, toks, a, n);
    }
  }

  /** Among the calls from a to n some Get was answered without an error and with a version above v. */
  predicate SawHigher(sent: seq<Request>, outs: seq<Reply>, a: nat, n: nat, v: nat)
    requires n <= |sent| && n <= |outs|
  {
    exists j :: a <= j < n && sent[j].Get? && outs[j].err == OK && outs[j].version > v
  }

  lemma {:induction false} SentAtMost(key: string, start: Pc, outs: seq<Reply>, toks: seq<string>, n: nat)
    requires n <= |outs| == |toks|
    ensures |Sent(key, start, outs, toks, n)| <= n
  {
    if n > 0 {
      SentAtMost(key, start, outs, toks, n - 1);
    }
  }

  /**
   From the reading loop of a release on, as long as each answer was asked for: the release has returned if
   and only if some read showed a version above the one first seen, and until then it keeps that version.
   */
  lemma {:induction false} ReturnsIffSeen(key: string, start: Pc, outs: seq<Reply>, toks: seq<string>, a: nat, n: nat)
    requires a <= n <= |outs| == |toks| && |Sent(key, start, outs, toks, n)| == n
    requires At(start, outs, toks, a).RelReading?
    ensures var sent, v, pc := Sent(key, start, outs, toks, n), At(start, outs, toks, a).seen, At(start, outs, toks, n);
            && (pc.Out? <==> SawHigher(sent, outs, a, n, v))
            && (pc.Out? || ((pc.RelReading? || pc.RelPutting?) && pc.seen == v))
    decreases n
  {
    if a < n {
      var m := n - 1;
      SentAtMost(key, start, outs, toks, m);
      ReturnsIffSeen(key, start, outs, toks, a, m);
      var sent, more := Sent(key, start, outs, toks, m), Sent(key, start, outs, toks, n);
      SeenNext(sent, more, outs, a, At(start, outs, toks, a).seen);
    }
  }

  lemma SeenNext(sent: seq<Request>, more: seq<Request>, outs: seq<Reply>, a: nat, v: nat)
    requires a <= |sent| < |outs| && |more| == |sent| + 1 && sent <= more
    ensures var m := |sent|;
            SawHigher(more, outs, a, m + 1, v) <==>
            SawHigher(sent, outs, a, m, v) || (more[m].Get? && outs[m].err == OK && outs[m].version > v)
  {
    var m := |sent|;
    assert forall j :: 0 <= j < m ==> more[j] == sent[j];
    if j :| a <= j < m && sent[j].Get? && outs[j].err == OK && outs[j].version > v {
      assert more[j].Get?;
    }
  }

  class LockWrapper {
    const key: string

    constructor (key: string)
      ensures this.key == key
    {
      this.key := key;
    }

    /** Stops at the first answer without an error, however many failed reads come before it. */
    method ReadUntilSuccess(ck: ScriptedClerk) returns (success: bool, value: string, version: nat)
      requires ck.Valid()
      modifies ck
      ensures ck.Valid() && old(ck.n) <= ck.n && ck.sent == old(ck.sent) + Gets(key, ck.n - old(ck.n))
      ensures forall i :: old(ck.n) <= i < ck.n - 1 ==> ck.outs[i].err != OK
      ensures success ==> old(ck.n) < ck.n && ck.outs[ck.n - 1] == Reply(value, version, OK)
      ensures !success ==> ck.Over() && (old(ck.n) < ck.n ==> ck.outs[ck.n - 1].err != OK)
    {
      success, value, version := false, "", 0;
      while !success && !ck.Over()
        invariant ck.Valid() && old(ck.n) <= ck.n && ck.sent == old(ck.sent) + Gets(key, ck.n - old(ck.n))
        invariant forall i :: old(ck.n) <= i < ck.n - 1 ==> ck.outs[i].err != OK
        invariant success ==> old(ck.n) < ck.n && ck.outs[ck.n - 1] == Reply(value, version, OK)
        invariant !success && old(ck.n) < ck.n ==> ck.outs[ck.n - 1].err != OK
        decreases |ck.outs| - ck.n
      {
        assert Gets(key, ck.n + 1 - old(ck.n)) == Gets(key, ck.n - old(ck.n)) + [Get(key)];
        var out := ck.Call(Get(key));
        if out.err == OK {
          success, value, version := true, out.value, out.version;
        }
      }
    }

    /** After ErrMaybe: the lock is held if its value is the token written. */
    method Confirm(ck: ScriptedClerk, valWritten: string, toks: seq<string>) returns (read: bool, mine: bool)
      requires Follows(ck, key, Getting, toks) && Now(ck, Getting, toks) == Rereading(valWritten)
      modifies ck
      ensures Follows(ck, key, Getting, toks)
      ensures read ==> old(ck.n) < ck.n && if mine then Now(ck, Getting, toks).Holding?
              else Now(ck, Getting, toks).Getting?
      ensures !read ==> ck.Over() && Calls(Now(ck, Getting, toks))
    {
      ghost var a := ck.n;
      var ok, val, _ := ReadUntilSuccess(ck);
      Reread(key, Getting, ck.outs, toks, a, ck.n, ok);
      read, mine := ok, val == valWritten;
    }

    /** Returns holding the lock, or stops when the answers end; the calls are those of the program. */
    method Acquire(ck: ScriptedClerk, toks: seq<string>) returns (held: bool)
      requires Follows(ck, key, Getting, toks) && Now(ck, Getting, toks).Getting?
      modifies ck
      ensures Follows(ck, key, Getting, toks)
      ensures held ==> Now(ck, Getting, toks).Holding?
      ensures !held ==> ck.Over() && Calls(Now(ck, Getting, toks))
    {
      var success := false;
      while !success && !ck.Over()
        invariant Follows(ck, key, Getting, toks)
        invariant if success then Now(ck, Getting, toks).Holding? else Now(ck, Getting, toks).Getting?
        decreases |ck.outs| - ck.n
      {
        var valWritten := toks[ck.n];
        var got := ck.Call(Get(key));
        if got.err == ErrNoKey {
          if ck.Over() {
            return false;
          }
          var put := ck.Call(Put(key, valWritten, 0));
          success := put.err == OK;
        } else if got.value == "" {
          if ck.Over() {
            return false;
          }
          var put := ck.Call(Put(key, valWritten, got.version));
          if put.err == OK {
            success := true;
          } else if put.err == ErrMaybe {
            var read, mine := Confirm(ck, valWritten, toks);
            if !read {
              return false;
            }
            success := mine;
          }
        }
      }
      held := success;
    }

    /** The Put inside CheckAndReput; whatever it answers, the version is read again. */
    method Reput(ck: ScriptedClerk, version: nat, ghost start: Pc, toks: seq<string>) returns (put: bool)
      requires Follows(ck, key, start, toks)
      requires Now(ck, start, toks).RelPutting? && Now(ck, start, toks).at == version
      modifies ck
      ensures Follows(ck, key, start, toks)
      ensures put ==> ck.n == old(ck.n) + 1
      ensures put ==> Now(ck, start, toks).RelReading? && Now(ck, start, toks).seen == old(Now(ck, start, toks).seen)
      ensures !put ==> ck.Over() && Calls(Now(ck, start, toks))
    {
      put := !ck.Over();
      if put {
        var _ := ck.Call(Put(key, "", version));
      }
    }

    /** Returns once the lock's version has moved past the one first seen. */
    method CheckAndReput(ck: ScriptedClerk, currVersion: nat, ghost start: Pc, toks: seq<string>)
        returns (released: bool)
      requires Follows(ck, key, start, toks)
      requires Now(ck, start, toks).RelReading? && Now(ck, start, toks).seen == currVersion
      modifies ck
      ensures Follows(ck, key, start, toks)
      ensures released ==> Now(ck, start, toks).Out?
      ensures !released ==> ck.Over() && Calls(Now(ck, start, toks))
      ensures old(ck.n) <= ck.n && (released <==> SawHigher(ck.sent, ck.outs, old(ck.n), ck.n, currVersion))
    {
      released := ReputUntilHigher(ck, currVersion, start, toks);
      ReturnsIffSeen(key, start, ck.outs, toks, old(ck.n), ck.n);
    }

    method ReputUntilHigher(ck: ScriptedClerk, currVersion: nat, ghost start: Pc, toks: seq<string>)
        returns (released: bool)
      requires Follows(ck, key, start, toks)
      requires Now(ck, start, toks).RelReading? && Now(ck, start, toks).seen == currVersion
      modifies ck
      ensures Follows(ck, key, start, toks) && old(ck.n) <= ck.n
      ensures released ==> Now(ck, start, toks).Out?
      ensures !released ==> ck.Over() && Calls(Now(ck, start, toks))
    {
      var success := false;
      while !success && !ck.Over()
        invariant Follows(ck, key, start, toks) && old(ck.n) <= ck.n
        invariant if success then Now(ck, start, toks).Out?
                  else Now(ck, start, toks).RelReading? && Now(ck, start, toks).seen == currVersion
        decreases |ck.outs| - ck.n
      {
        ghost var a := ck.n;
        var read, _, version := ReadUntilSuccess(ck);
        Reread(key, start, ck.outs, toks, a, ck.n, read);
        if !read {
          return false;
        }
        if currVersion < version {
          success := true;
        } else {
          released := Reput(ck, version, start, toks);
          if !released {
            return;
          }
        }
      }
      released := success;
    }

    /** The client holds with token tok at version ver. */
    method Release(ck: ScriptedClerk, ghost tok: string, ghost ver: nat, toks: seq<string>) returns (released: bool)
      requires Follows(ck, key, RelGetting(tok, ver), toks) && ck.n == 0
      modifies ck
      ensures Follows(ck, key, RelGetting(tok, ver), toks)
      ensures released ==> Now(ck, RelGetting(tok, ver), toks).Out?
      ensures !released ==> ck.Over() && Calls(Now(ck, RelGetting(tok, ver), toks))
      ensures released <==> ck.n > 0 && SawHigher(ck.sent, ck.outs, 1, ck.n, ck.outs[0].version)
    {
      if ck.Over() {
        return false;
      }
      var got := ck.Call(Get(key));
      released := CheckAndReput(ck, got.version, RelGetting(tok, ver), toks);
    }
  }
}
