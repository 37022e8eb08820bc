/** The sequential model of one key that recorded histories are checked against. */
module KvModel {
  import opened KvServer
  import opened KvSystem
  import opened PutTruth
  import opened Linearizability
  import opened Ordering

  datatype KvState = KvState(value: string, version: nat)

  const INIT_STATE := KvState("", 0)

  /** A Get is judged by its value alone; a Put may answer "maybe" whether or not it matched. */
  function Step(st: KvState, req: Request, out: Reply): (bool, KvState) {
    match req
    case Get(_) => (out.value == st.value, st)
    case Put(_, value, version) =>
      if st.version == version then (out.err == OK || out.err == ErrMaybe, KvState(value, st.version + 1))
      else (out.err == ErrVersion || out.err == ErrMaybe, st)
  }

  predicate AcceptedFrom(st: KvState, h: seq<SeqOp>)
    decreases |h|
  {
    h == [] || (Step(st, h[0].req, h[0].out).0 && AcceptedFrom(Step(st, h[0].req, h[0].out).1, h[1..]))
  }

  predicate Accepted(h: seq<SeqOp>) {
    AcceptedFrom(INIT_STATE, h)
  }

  function OfKey(h: seq<SeqOp>, key: string): seq<SeqOp> {
    if h == [] then []
    else (if h[0].req.key == key then [h[0]] else []) + OfKey(h[1..], key)
  }

  function KeysOf(h: seq<SeqOp>): set<string> {
    set i | 0 <= i < |h| :: h[i].req.key
  }

  lemma TailOfAppend(h: seq<SeqOp>, o: SeqOp)
    ensures h == [] ==> h + [o] == [o] && (h + [o])[1..] == []
    ensures h != [] ==> (h + [o])[0] == h[0] && (h + [o])[1..] == h[1..] + [o]
  {
  }

  lemma {:induction false} OfKeyAppend(h: seq<SeqOp>, o: SeqOp, key: string)
    ensures OfKey(h + [o], key) == OfKey(h, key) + if o.req.key == key then [o] else []
  {
    TailOfAppend(h, o);
    if h != [] {
      OfKeyAppend(h[1..], o, key);
    }
  }

  lemma {:induction false} OfKeyMissing(h: seq<SeqOp>, key: string)
    ensures key in KeysOf(h) <==> OfKey(h, key) != []
  {
    if h != [] {
      OfKeyMissing(h[1..], key);
      if key in KeysOf(h[1..]) {
        var i :| 0 <= i < |h[1..]| && h[1..][i].req.key == key;
        assert h[i + 1].req.key == key;
      }
      if key in KeysOf(h) && h[0].req.key != key {
        var i :| 0 <= i < |h| && h[i].req.key == key;
        assert h[1..][i - 1].req.key == key;
      }
    }
  }

  /** The keys of a history, sorted. */
  ghost predicate SortedKeys(h: seq<SeqOp>, keys: seq<string>) {
    StrictlySorted(keys) && forall k :: k in keys <==> k in KeysOf(h)
  }

  /** Splits a history by key: one part per key in key order, each part in history order. */
  method Partition(h: seq<SeqOp>) returns (keys: seq<string>, parts: seq<seq<SeqOp>>)
    ensures SortedKeys(h, keys)
    ensures |parts| == |keys| && forall i :: 0 <= i < |keys| ==> parts[i] == OfKey(h, keys[i])
  {
    var m: map<string, seq<SeqOp>> := map[];
    for n := 0 to |h|
      invariant m.Keys == KeysOf(h[..n])
      invariant forall k :: k in m ==> m[k] == OfKey(h[..n], k)
    {
      var k := h[n].req.key;
      assert h[..n + 1] == h[..n] + [h[n]];
      KeysAppend(h[..n], h[n]);
      forall x | x in m || x == k
        ensures OfKey(h[..n + 1], x) == OfKey(h[..n], x) + if x == k then [h[n]] else []
      {
        OfKeyAppend(h[..n], h[n], x);
      }
      OfKeyMissing(h[..n], k);
      m := m[k := (if k in m then m[k] else []) + [h[n]]];
    }
    assert h[..|h|] == h;
    keys := SortStrings(m.Keys);
    parts := [];
    for i := 0 to |keys|
      invariant |parts| == i && forall j :: 0 <= j < i ==> parts[j] == OfKey(h, keys[j])
    {
      parts := parts + [m[keys[i]]];
    }
  }

  lemma KeysAppend(h: seq<SeqOp>, o: SeqOp)
    ensures KeysOf(h + [o]) == KeysOf(h) + {o.req.key}
  {
    var g := h + [o];
    assert forall i :: 0 <= i < |h| ==> g[i] == h[i];
    assert g[|h|] == o;
    forall k | k in KeysOf(h) + {o.req.key} ensures k in KeysOf(g) {
      if k in KeysOf(h) {
        var i :| 0 <= i < |h| && h[i].req.key == k;
        assert g[i].req.key == k;
      } else {
        assert g[|h|].req.key == k;
      }
    }
  }

  // ----- Locality

  /** All keys at once: a key never written is in its initial state. */
  type States = map<string, KvState>

  function StateOf(m: States, key: string): KvState {
    if key in m then m[key] else INIT_STATE
  }

  predicate StoreAccepts(m: States, h: seq<SeqOp>)
    decreases |h|
  {
    h == [] ||
    (var st := Step(StateOf(m, h[0].req.key), h[0].req, h[0].out);
     st.0 && StoreAccepts(m[h[0].req.key := st.1], h[1..]))
  }

  /** A multi-key history is accepted by the whole store exactly when every key's part is accepted. */
  lemma {:induction false} Locality(m: States, h: seq<SeqOp>)
    ensures StoreAccepts(m, h) <==> forall k :: AcceptedFrom(StateOf(m, k), OfKey(h, k))
    decreases |h|
  {
    if h == [] {
      assert forall k :: OfKey(h, k) == [];
    } else {
      var key := h[0].req.key;
      var st := Step(StateOf(m, key), h[0].req, h[0].out);
      var m' := m[key := st.1];
      Locality(m', h[1..]);
      assert OfKey(h, key)[1..] == OfKey(h[1..], key);
      assert AcceptedFrom(StateOf(m, key), OfKey(h, key)) <==> st.0 && AcceptedFrom(st.1, OfKey(h[1..], key));
      forall k | k != key
        ensures AcceptedFrom(StateOf(m, k), OfKey(h, k)) <==> AcceptedFrom(StateOf(m', k), OfKey(h[1..], k))
      {
        assert OfKey(h, k) == OfKey(h[1..], k) && StateOf(m, k) == StateOf(m', k);
      }
      if StoreAccepts(m, h) {
        forall k ensures AcceptedFrom(StateOf(m, k), OfKey(h, k)) {
          assert AcceptedFrom(StateOf(m', k), OfKey(h[1..], k));
        }
      }
      if forall k :: AcceptedFrom(StateOf(m, k), OfKey(h, k)) {
        assert AcceptedFrom(StateOf(m, key), OfKey(h, key));
        forall k ensures AcceptedFrom(StateOf(m', k), OfKey(h[1..], k)) {
          assert AcceptedFrom(StateOf(m, k), OfKey(h, k));
        }
      }
    }
  }

  /** What Partition returns decides acceptance of the whole history. */
  lemma PartsDecide(h: seq<SeqOp>, keys: seq<string>)
    requires SortedKeys(h, keys)
    ensures StoreAccepts(map[], h) <==> forall i :: 0 <= i < |keys| ==> Accepted(OfKey(h, keys[i]))
  {
    Locality(map[], h);
    if forall i :: 0 <= i < |keys| ==> Accepted(OfKey(h, keys[i])) {
      forall k ensures AcceptedFrom(StateOf(map[], k), OfKey(h, k)) {
        OfKeyMissing(h, k);
        if k in KeysOf(h) {
          var i :| 0 <= i < |keys| && keys[i] == k;
          assert Accepted(OfKey(h, keys[i]));
        }
      }
    }
  }

  /** The operations of the parts named by keys, counted with multiplicity. */
  function PartsContent(h: seq<SeqOp>, keys: seq<string>): multiset<SeqOp> {
    if keys == [] then multiset{} else multiset(OfKey(h, keys[0])) + PartsContent(h, keys[1..])
  }

  lemma {:induction false} ContentDrop(h: seq<SeqOp>, keys: seq<string>)
    requires StrictlySorted(keys) && h != []
    ensures PartsContent(h, keys) ==
            PartsContent(h[1..], keys) + if h[0].req.key in keys then multiset{h[0]} else multiset{}
    decreases |keys|
  {
    if keys != [] {
      ContentDrop(h, keys[1..]);
      TailMember(keys, h[0].req.key);
    }
  }

  lemma HeadAndTail(h: seq<SeqOp>)
    requires h != []
    ensures KeysOf(h) == {h[0].req.key} + KeysOf(h[1..])
    ensures multiset(h) == multiset(h[1..]) + multiset{h[0]}
  {
    assert h == [h[0]] + h[1..];
  }

  /** Splitting by key neither loses nor duplicates an operation. */
  lemma {:induction false} PartsLoseNothing(h: seq<SeqOp>, keys: seq<string>)
    requires StrictlySorted(keys) && forall k :: k in KeysOf(h) ==> k in keys
    ensures PartsContent(h, keys) == multiset(h)
    decreases |h|
  {
    if h == [] {
      NoContent(keys);
    } else {
      HeadAndTail(h);
      PartsLoseNothing(h[1..], keys);
      ContentDrop(h, keys);
    }
  }

  lemma {:induction false} NoContent(keys: seq<string>)
    ensures PartsContent([], keys) == multiset{}
  {
    if keys != [] {
      NoContent(keys[1..]);
    }
  }

  // ----- Recorded runs pass the check

  lemma {:induction false} SameStates(m: States, n: States, h: seq<SeqOp>)
    requires forall k :: StateOf(m, k) == StateOf(n, k)
    ensures StoreAccepts(m, h) <==> StoreAccepts(n, h)
    decreases |h|
  {
    if h != [] {
      var key := h[0].req.key;
      var st := Step(StateOf(m, key), h[0].req, h[0].out);
      assert StateOf(m, key) == StateOf(n, key);
      var m', n' := m[key := st.1], n[key := st.1];
      forall k ensures StateOf(m', k) == StateOf(n', k) {
        assert StateOf(m, k) == StateOf(n, k);
      }
      SameStates(m', n', h[1..]);
    }
  }

  function StatesOf(st: Store): States {
    map k | k in st :: KvState(st[k].value, st[k].version)
  }

  ghost predicate NoKeyErrors(h: seq<SeqOp>) {
    forall j :: 0 <= j < |h| && h[j].req.Put? ==> h[j].out.err != ErrNoKey
  }

  /** What the check asks of one operation when it meets the store st. */
  predicate Justified(st: Store, req: Request, out: Reply) {
    match req
    case Get(key) => out.value == ValueOf(st, key)
    case Put(key, _, version) =>
      if version == VersionOf(st, key) then out.err == OK || out.err == ErrMaybe
      else out.err == ErrVersion || out.err == ErrMaybe
  }

  /** One step: the model accepts exactly what is justified, and moves on as the store does either way. */
  lemma StepIsJustified(st: Store, req: Request, out: Reply)
    ensures Step(StateOf(StatesOf(st), req.key), req, out).0 <==> Justified(st, req, out)
    ensures var m := StatesOf(st)[req.key := Step(StateOf(StatesOf(st), req.key), req, out).1];
            forall k :: StateOf(m, k) == StateOf(StatesOf(NextStore(st, req)), k)
  {
  }

  lemma {:induction false} AcceptedFromThere(h: seq<SeqOp>, j: nat)
    requires j <= |h|
    ensures StoreAccepts(StatesOf(SeqStore(h[..j])), h[j..]) <==>
            forall i :: j <= i < |h| ==> Justified(SeqStore(h[..i]), h[i].req, h[i].out)
    decreases |h| - j
  {
    if j < |h| {
      AcceptedFromThere(h, j + 1);
      assert h[..j + 1][..j] == h[..j];
      assert h[j..][0] == h[j] && h[j..][1..] == h[j + 1..];
      var st := SeqStore(h[..j]);
      StepIsJustified(st, h[j].req, h[j].out);
      var key := h[j].req.key;
      var m := StatesOf(st)[key := Step(StateOf(StatesOf(st), key), h[j].req, h[j].out).1];
      SameStates(m, StatesOf(NextStore(st, h[j].req)), h[j + 1..]);
    }
  }

  /**
   What acceptance means, for every history and without the model: each Get returned the value stored when
   its turn came, each Put that matched then answered OK or ErrMaybe, any other ErrVersion or ErrMaybe.
   */
  lemma AcceptedIffJustified(h: seq<SeqOp>)
    ensures (forall k :: Accepted(OfKey(h, k))) <==>
            forall j :: 0 <= j < |h| ==> Justified(SeqStore(h[..j]), h[j].req, h[j].out)
  {
    WholeStore(h);
    AcceptedFromThere(h, 0);
    assert h[0..] == h && h[..0] == [];
    assert StatesOf(SeqStore([])) == map[];
  }

  lemma WholeStore(h: seq<SeqOp>)
    ensures StoreAccepts(map[], h) <==> forall k :: Accepted(OfKey(h, k))
  {
    Locality(map[], h);
    forall k ensures Accepted(OfKey(h, k)) <==> AcceptedFrom(StateOf(map[], k), OfKey(h, k)) {
    }
  }

  /** The model has no answer ErrNoKey for a Put; that is the only disagreement. */
  lemma LegalIffAccepted(h: seq<SeqOp>)
    requires Legal(h)
    ensures (forall k :: Accepted(OfKey(h, k))) <==> NoKeyErrors(h)
  {
    AcceptedIffJustified(h);
    forall j | 0 <= j < |h|
      ensures Justified(SeqStore(h[..j]), h[j].req, h[j].out) <==> (h[j].req.Put? ==> h[j].out.err != ErrNoKey)
    {
      assert Allowed(SeqStore(h[..j]), h[j].req, h[j].out);
    }
  }

  /** No Put of the trace was told that its key is missing. */
  ghost predicate NoMissingKeys(t: Trace) {
    forall r :: 0 <= r < |t| && t[r].Returned? && t[r].req.Put? ==> t[r].out.err != ErrNoKey
  }

  lemma OrderAccepted(t: Trace)
    requires WellFormed(t) && Careful(t) && NoMissingKeys(t)
    ensures forall k :: Accepted(OfKey(Order(t, |t|), k))
  {
    var h := Order(t, |t|);
    OrderLegal(t, |t|);
    forall j | 0 <= j < |h| && h[j].req.Put? ensures h[j].out.err != ErrNoKey {
      OrderOutput(t, j);
    }
    LegalIffAccepted(h);
  }

  /** h orders the calls of t and the model accepts it key by key. */
  ghost predicate Explains(t: Trace, h: seq<SeqOp>) {
    IsLinearization(t, h) && forall k :: Accepted(OfKey(h, k))
  }

  /** An order that the model accepts has no Put that was told its key is missing. */
  lemma AcceptedNoMissing(t: Trace, h: seq<SeqOp>)
    requires Explains(t, h)
    ensures NoMissingKeys(t)
  {
    LegalIffAccepted(h);
    forall r | 0 <= r < |t| && t[r].Returned? && t[r].req.Put? ensures t[r].out.err != ErrNoKey {
      var j :| 0 <= j < |h| && h[j] == SeqOp(t[r].id, t[r].req, t[r].out);
    }
  }

  lemma ExplainedIffNoMissing(t: Trace)
    requires WellFormed(t) && Careful(t)
    ensures (exists h :: Explains(t, h)) <==> NoMissingKeys(t)
  {
    if NoMissingKeys(t) {
      CarefulTraceLinearizable(t);
      OrderAccepted(t);
      assert Explains(t, Order(t, |t|));
    }
    if h :| Explains(t, h) {
      AcceptedNoMissing(t, h);
    }
  }

  /**
   A careful run has a sequential order that the model accepts key by key if and only if no Put
   returned ErrNoKey.
   */
  lemma RunsPassTheCheck(run: seq<KvSystem.Step>)
    requires Possible(INIT, run) && Careful(After(INIT, run).trace)
    ensures (exists h :: Explains(After(INIT, run).trace, h)) <==> NoMissingKeys(After(INIT, run).trace)
  {
    InitInv();
    RunKeepsInv(INIT, run);
    ExplainedIffNoMissing(After(INIT, run).trace);
  }

  lemma OrderOutput(t: Trace, j: nat)
    requires WellFormed(t) && j < |Order(t, |t|)|
    ensures var o := Order(t, |t|)[j];
            o.out.err == OK || exists r :: 0 <= r < |t| && t[r].Returned? && t[r].req == o.req && t[r].out == o.out
  {
    PointsSorted(t, |t|);
    var i := Points(t, |t|)[j];
    RequestOf(t, i);
    if r: nat :| r < |t| && t[r].Returned? && t[r].id == t[i].id {
      OutOfReturned(t, r);
      ReturnOf(t, r);
    }
  }
}
