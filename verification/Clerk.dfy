/** The clerk's retry loops, run against a server that other clients keep using. */
module Clerk {
  import opened KvServer

  /** GivenUp: Call answers false while the handler is still going to run, at any later time. */
  datatype Fate = RequestLost | ReplyLost | GivenUp | Delivered

  /**
   What reaches the server between attempts: another client's request, or a handler left running by an
   earlier attempt.
   */
  datatype Served = Theirs(req: Request) | Stray

  /** One attempt: what the server does before it, and what the network does to it. */
  datatype Attempt = Attempt(before: seq<Served>, fate: Fate)

  /** Call returns true on the last attempt and on no earlier one. */
  predicate EndsDelivered(plan: seq<Attempt>) {
    plan != [] && plan[|plan| - 1].fate.Delivered? &&
    forall i :: 0 <= i < |plan| - 1 ==> !plan[i].fate.Delivered?
  }

  function ServeOne(st: Store, own: Request, e: Served): Store {
    NextStore(st, if e.Stray? then own else e.req)
  }

  function ServeAll(st: Store, own: Request, es: seq<Served>): Store {
    if es == [] then st else ServeOne(ServeAll(st, own, es[..|es| - 1]), own, es[|es| - 1])
  }

  /** The store in which attempt n of the plan meets the server. */
  function Met(st: Store, req: Request, plan: seq<Attempt>, n: nat): Store
    requires n < |plan|
  {
    ServeAll(StoreThen(st, req, plan, n), req, plan[n].before)
  }

  /** The attempt's handler runs before its Call returns. */
  predicate Reaches(fate: Fate) {
    fate.ReplyLost? || fate.Delivered?
  }

  /** The store after one attempt and what was served before it. */
  function Attempted(st: Store, req: Request, a: Attempt): Store {
    var met := ServeAll(st, req, a.before);
    if Reaches(a.fate) then NextStore(met, req) else met
  }

  /** The store after the first n attempts. */
  function StoreThen(st: Store, req: Request, plan: seq<Attempt>, n: nat): Store
    requires n <= |plan|
  {
    if n == 0 then st else Attempted(StoreThen(st, req, plan, n - 1), req, plan[n - 1])
  }

  /** Attempt n reaches the server and writes. */
  predicate Writes(st: Store, req: Request, plan: seq<Attempt>, n: nat) {
    n < |plan| && Reaches(plan[n].fate) && Matches(Met(st, req, plan, n), req)
  }

  class Clerk {
    const server: KVServer

    constructor (server: KVServer)
      ensures this.server == server
    {
      this.server := server;
    }

    method Serve(req: Request) returns (reply: Reply)
      requires server.Valid()
      modifies server
      ensures server.Valid() && server.store == NextStore(old(server.store), req) &&
              reply == Answer(old(server.store), req)
    {
      match req
      case Get(key) => reply := server.HandleGet(key);
      case Put(key, value, version) => reply := server.HandlePut(key, value, version);
    }

    /** Other clients' requests, and handlers left running, reach the server. */
    method Meanwhile(own: Request, es: seq<Served>)
      requires server.Valid()
      modifies server
      ensures server.Valid() && server.store == ServeAll(old(server.store), own, es)
    {
      for i := 0 to |es|
        invariant server.Valid() && server.store == ServeAll(old(server.store), own, es[..i])
      {
        assert es[..i + 1][..i] == es[..i];
        var _ := Serve(if es[i].Stray? then own else es[i].req);
      }
      assert es[..|es|] == es;
    }

    /** Retries until a reply arrives; a version error on a resend is reported as ErrMaybe. */
    method Put(key: string, value: string, version: nat, plan: seq<Attempt>) returns (err: Err)
      requires server.Valid() && EndsDelivered(plan)
      modifies server
      ensures var req := Request.Put(key, value, version);
              && server.Valid() && server.store == StoreThen(old(server.store), req, plan, |plan|)
              && var got := Answer(Met(old(server.store), req, plan, |plan| - 1), req).err;
                 err == if got == ErrVersion && |plan| > 1 then ErrMaybe else got
    {
      var req := Request.Put(key, value, version);
      var ok := false;
      var requestCount := 0;
      var reply := Reply("", 0, OK);
      while !ok
        invariant server.Valid() && requestCount <= |plan|
        invariant server.store == StoreThen(old(server.store), req, plan, requestCount)
        invariant ok <==> requestCount == |plan|
        invariant ok ==> reply == Answer(Met(old(server.store), req, plan, |plan| - 1), req)
        decreases |plan| - requestCount
      {
        Meanwhile(req, plan[requestCount].before);
        if Reaches(plan[requestCount].fate) {
          var r := Serve(req);
          if plan[requestCount].fate.Delivered? {
            ok := true;
            reply := r;
          }
        }
        requestCount := requestCount + 1;
      }
      err := reply.err;
      if err == ErrVersion && requestCount > 1 {
        err := ErrMaybe;
      }
    }

    /** Retries until a reply arrives and returns what the last attempt read. */
    method Get(key: string, plan: seq<Attempt>) returns (reply: Reply)
      requires server.Valid() && EndsDelivered(plan)
      modifies server
      ensures server.Valid()
      ensures reply == Answer(Met(old(server.store), Request.Get(key), plan, |plan| - 1), Request.Get(key))
      ensures server.store == Met(old(server.store), Request.Get(key), plan, |plan| - 1)
    {
      var req := Request.Get(key);
      var ok := false;
      var n := 0;
      reply := Reply("", 0, OK);
      while !ok
        invariant server.Valid() && n <= |plan|
        invariant server.store == StoreThen(old(server.store), req, plan, n)
        invariant ok <==> n == |plan|
        invariant ok ==> reply == Answer(Met(old(server.store), req, plan, |plan| - 1), req)
        decreases |plan| - n
      {
        Meanwhile(req, plan[n].before);
        if Reaches(plan[n].fate) {
          var r := Serve(req);
          if plan[n].fate.Delivered? {
            ok := true;
            reply := r;
          }
        }
        n := n + 1;
      }
    }
  }

  // ----- What the answers mean, whatever the network and the others do

  lemma {:induction false} ServeGrows(st: Store, own: Request, es: seq<Served>, key: string)
    ensures VersionOf(st, key) <= VersionOf(ServeAll(st, own, es), key)
    ensures VersionsPositive(st) ==> VersionsPositive(ServeAll(st, own, es))
    decreases |es|
  {
    if es != [] {
      ServeGrows(st, own, es[..|es| - 1], key);
    }
  }

  lemma {:induction false} AttemptsGrow(st: Store, req: Request, plan: seq<Attempt>, m: nat, n: nat, key: string)
    requires m <= n <= |plan|
    ensures VersionOf(StoreThen(st, req, plan, m), key) <= VersionOf(StoreThen(st, req, plan, n), key)
    ensures VersionsPositive(st) ==> VersionsPositive(StoreThen(st, req, plan, n))
    decreases n
  {
    if n > 0 {
      ServeGrows(StoreThen(st, req, plan, n - 1), req, plan[n - 1].before, key);
      if m < n {
        AttemptsGrow(st, req, plan, m, n - 1, key);
      } else {
        AttemptsGrow(st, req, plan, n - 1, n - 1, key);
      }
    }
  }

  /** After a writing attempt every later one finds a higher version. */
  lemma WrittenThenAhead(st: Store, req: Request, plan: seq<Attempt>, m: nat, n: nat)
    requires Writes(st, req, plan, m) && m < n < |plan|
    ensures VersionOf(Met(st, req, plan, n), req.key) > req.version
  {
    AttemptsGrow(st, req, plan, m + 1, n, req.key);
    ServeGrows(StoreThen(st, req, plan, n), req, plan[n].before, req.key);
  }

  /**
   For every plan: at most one attempt writes; OK exactly when the last one does; ErrVersion on a single
   attempt and ErrNoKey at any time imply that none does.
   */
  lemma AnswersTruthful(st: Store, req: Request, plan: seq<Attempt>)
    requires VersionsPositive(st) && req.Put? && EndsDelivered(plan)
    ensures forall m: nat, n: nat :: Writes(st, req, plan, m) && Writes(st, req, plan, n) ==> m == n
    ensures var last := |plan| - 1; var got := Answer(Met(st, req, plan, last), req).err;
            && (got == OK <==> Writes(st, req, plan, last))
            && ((got == ErrVersion && |plan| == 1) || got == ErrNoKey ==> forall m: nat :: !Writes(st, req, plan, m))
  {
    forall m: nat, n: nat | Writes(st, req, plan, m) && Writes(st, req, plan, n) ensures m == n {
      if m < n {
        WrittenThenAhead(st, req, plan, m, n);
      } else if n < m {
        WrittenThenAhead(st, req, plan, n, m);
      }
    }
    var last := |plan| - 1;
    forall m: nat | Writes(st, req, plan, m)
      ensures m == last || VersionOf(Met(st, req, plan, last), req.key) > req.version
    {
      if m < last {
        WrittenThenAhead(st, req, plan, m, last);
      }
    }
  }
}
