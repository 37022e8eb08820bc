/**
 A clerk whose answers are fixed in advance, for client code that loops over calls. The answers may end at
 any point; a method then stops in the middle, where the original would still be waiting.
 */
module ScriptedClerks {
  import opened KvServer

  /** The answers the clerk is going to give, and the calls made so far. */
  class ScriptedClerk {
    const outs: seq<Reply>
    var n: nat
    var sent: seq<Request>

    predicate Valid()
      reads this
    {
      n <= |outs| && |sent| == n
    }

    predicate Over()
      reads this
    {
      n >= |outs|
    }

    constructor (outs: seq<Reply>)
      ensures Valid() && this.outs == outs && n == 0 && sent == []
    {
      this.outs := outs;
      n, sent := 0, [];
    }

    method Call(req: Request) returns (out: Reply)
      requires Valid() && !Over()
      modifies this
      ensures Valid() && n == old(n) + 1 && sent == old(sent) + [req] && out == outs[old(n)]
    {
      out := outs[n];
      n, sent := n + 1, sent + [req];
    }
  }
}
