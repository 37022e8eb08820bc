/** Rebalancing changes the owner of as few validly owned shards as any balanced assignment could. */
module RebalanceOptimality {
  import opened ShardLoads
  import opened Rebalance

  /** The shards of member groups whose owner differs between base and s. */
  function Moved(base: seq<int>, s: seq<int>, G: set<int>): set<nat>
    requires |s| == |base|
  {
    set i: nat | i < |s| && base[i] in G && s[i] != base[i]
  }

  function GivenBy(base: seq<int>, s: seq<int>, g: int): set<nat>
    requires |s| == |base|
  {
    set i: nat | i < |s| && base[i] == g && s[i] != g
  }

  function ReceivedBy(base: seq<int>, s: seq<int>, g: int): set<nat>
    requires |s| == |base|
  {
    set i: nat | i < |s| && s[i] == g && base[i] != g
  }

  /** What a group had and received is what it gave and has. */
  lemma GroupConservation(base: seq<int>, s: seq<int>, g: int)
    requires |s| == |base|
    ensures Load(base, g) + |ReceivedBy(base, s, g)| == Load(s, g) + |GivenBy(base, s, g)|
    ensures !Gave(base, s, g) ==> |GivenBy(base, s, g)| == 0
    ensures !Received(base, s, g) ==> |ReceivedBy(base, s, g)| == 0
  {
    var kept := set i: nat | i < |s| && base[i] == g && s[i] == g;
    assert Owned(base, g) == kept + GivenBy(base, s, g);
    assert Owned(s, g) == kept + ReceivedBy(base, s, g);
    if !Gave(base, s, g) {
      assert GivenBy(base, s, g) == {};
    }
    if !Received(base, s, g) {
      assert ReceivedBy(base, s, g) == {};
    }
  }

  function SumGiven(gs: seq<int>, base: seq<int>, s: seq<int>): nat
    requires |s| == |base|
  {
    if gs == [] then 0 else |GivenBy(base, s, gs[0])| + SumGiven(gs[1..], base, s)
  }

  function SumReceived(gs: seq<int>, base: seq<int>, s: seq<int>): nat
    requires |s| == |base|
  {
    if gs == [] then 0 else |ReceivedBy(base, s, gs[0])| + SumReceived(gs[1..], base, s)
  }

  lemma {:induction false} SumConservation(gs: seq<int>, base: seq<int>, s: seq<int>)
    requires |s| == |base|
    ensures SumLoad(gs, base) + SumReceived(gs, base, s) == SumLoad(gs, s) + SumGiven(gs, base, s)
  {
    if gs != [] {
      SumConservation(gs[1..], base, s);
      GroupConservation(base, s, gs[0]);
    }
  }

  /** The moved shards are those given, group by group. */
  lemma {:induction false} MovedIsGiven(gs: seq<int>, base: seq<int>, s: seq<int>)
    requires |s| == |base| && Distinct(gs)
    ensures |Moved(base, s, SetOf(gs))| == SumGiven(gs, base, s)
    decreases |gs|
  {
    if gs == [] {
      assert Moved(base, s, SetOf(gs)) == {};
    } else {
      var rest := gs[1..];
      MovedIsGiven(rest, base, s);
      assert SetOf(gs) == SetOf(rest) + {gs[0]};
      assert gs[0] !in rest;
      assert Moved(base, s, SetOf(gs)) == Moved(base, s, SetOf(rest)) + GivenBy(base, s, gs[0]);
    }
  }

  lemma {:induction false} SumGivenMonotone(gs: seq<int>, base: seq<int>, s: seq<int>, t: seq<int>)
    requires |s| == |base| == |t|
    requires forall g :: g in gs ==> |GivenBy(base, s, g)| <= |GivenBy(base, t, g)|
    ensures SumGiven(gs, base, s) <= SumGiven(gs, base, t)
    decreases |gs|
  {
    if gs != [] {
      assert gs[0] in gs;
      SumGivenMonotone(gs[1..], base, s, t);
    }
  }

  lemma {:induction false} SumReceivedMonotone(gs: seq<int>, base: seq<int>, s: seq<int>, t: seq<int>)
    requires |s| == |base| == |t|
    requires forall g :: g in gs ==> |ReceivedBy(base, s, g)| <= |ReceivedBy(base, t, g)|
    ensures SumReceived(gs, base, s) <= SumReceived(gs, base, t)
    decreases |gs|
  {
    if gs != [] {
      assert gs[0] in gs;
      SumReceivedMonotone(gs[1..], base, s, t);
    }
  }

  /** A balanced assignment t of as many shards reaches down to the least and up to the greatest load of f. */
  lemma BalancedBounds(gs: seq<int>, f: seq<int>, t: seq<int>, g: int)
    requires |f| == |t| && Distinct(gs) && g in gs
    requires AllMembers(f, SetOf(gs)) && AllMembers(t, SetOf(gs)) && Balanced(t, SetOf(gs))
    ensures exists h :: h in gs && Load(f, h) <= Load(t, g)
    ensures exists h :: h in gs && Load(t, g) <= Load(f, h)
  {
    LoadsCoverShards(gs, f);
    LoadsCoverShards(gs, t);
    if forall h :: h in gs ==> Load(t, g) < Load(f, h) {
      forall h | h in gs ensures Load(t, h) <= Load(f, h) {
        assert h in SetOf(gs) && g in SetOf(gs);
      }
      SumLoadMonotone(gs, t, f);
    }
    if forall h :: h in gs ==> Load(f, h) < Load(t, g) {
      forall h | h in gs ensures Load(f, h) <= Load(t, h) {
        assert h in SetOf(gs) && g in SetOf(gs);
      }
      SumLoadMonotone(gs, f, t);
    }
  }

  /** Some receiver ended above the least load: then every giver gave no more than it had to. */
  lemma GiversMinimal(gs: seq<int>, base: seq<int>, f: seq<int>, t: seq<int>, r: int, k: int, g: int)
    requires |f| == |base| == |t| && Distinct(gs) && r in gs && k in gs && g in gs
    requires AllMembers(f, SetOf(gs)) && Balanced(f, SetOf(gs)) && OneWay(base, f, SetOf(gs))
    requires AllMembers(t, SetOf(gs)) && Balanced(t, SetOf(gs))
    requires Received(base, f, r) && Load(f, k) < Load(f, r)
    ensures |GivenBy(base, f, g)| <= |GivenBy(base, t, g)|
  {
    GroupConservation(base, f, g);
    GroupConservation(base, t, g);
    if Gave(base, f, g) {
      BalancedBounds(gs, f, t, g);
      var h :| h in gs && Load(t, g) <= Load(f, h);
      assert h in SetOf(gs) && k in SetOf(gs) && r in SetOf(gs) && g in SetOf(gs);
    }
  }

  /** Every receiver ended at the least load: then it received no more than it had to. */
  lemma ReceiversMinimal(gs: seq<int>, base: seq<int>, f: seq<int>, t: seq<int>, g: int)
    requires |f| == |base| == |t| && Distinct(gs) && g in gs
    requires AllMembers(f, SetOf(gs)) && OneWay(base, f, SetOf(gs))
    requires AllMembers(t, SetOf(gs)) && Balanced(t, SetOf(gs))
    requires Received(base, f, g) ==> forall k :: k in gs ==> Load(f, g) <= Load(f, k)
    ensures |ReceivedBy(base, f, g)| <= |ReceivedBy(base, t, g)|
  {
    GroupConservation(base, f, g);
    GroupConservation(base, t, g);
    if Received(base, f, g) {
      BalancedBounds(gs, f, t, g);
      assert g in SetOf(gs);
    }
  }

  lemma OneWayMovesLeast(gs: seq<int>, base: seq<int>, f: seq<int>, t: seq<int>)
    requires |f| == |base| == |t| && Distinct(gs)
    requires AllMembers(f, SetOf(gs)) && Balanced(f, SetOf(gs)) && OneWay(base, f, SetOf(gs))
    requires AllMembers(t, SetOf(gs)) && Balanced(t, SetOf(gs))
    ensures |Moved(base, f, SetOf(gs))| <= |Moved(base, t, SetOf(gs))|
  {
    MovedIsGiven(gs, base, f);
    MovedIsGiven(gs, base, t);
    if r, k :| r in gs && k in gs && Received(base, f, r) && Load(f, k) < Load(f, r) {
      forall g | g in gs ensures |GivenBy(base, f, g)| <= |GivenBy(base, t, g)| {
        GiversMinimal(gs, base, f, t, r, k, g);
      }
      SumGivenMonotone(gs, base, f, t);
    } else {
      forall g | g in gs ensures |ReceivedBy(base, f, g)| <= |ReceivedBy(base, t, g)| {
        ReceiversMinimal(gs, base, f, t, g);
      }
      SumReceivedMonotone(gs, base, f, t);
      SumConservation(gs, base, f);
      SumConservation(gs, base, t);
      LoadsCoverShards(gs, f);
      LoadsCoverShards(gs, t);
    }
  }

  lemma {:induction false} Enumerate(G: set<int>) returns (gs: seq<int>)
    ensures Distinct(gs) && SetOf(gs) == G
    decreases |G|
  {
    if G == {} {
      gs := [];
    } else {
      var x := SomeMember(G);
      var rest := Enumerate(G - {x});
      gs := [x] + rest;
      assert x !in SetOf(rest);
      assert forall j :: 0 <= j < |rest| ==> rest[j] in SetOf(rest);
      assert SetOf(gs) == {x} + SetOf(rest);
    }
  }

  /**
   Move-optimality: for every starting assignment and every non-empty set of groups, no balanced
   assignment to those groups changes the owner of fewer validly owned shards.
   */
  lemma RebalanceMovesLeast(base: seq<int>, G: set<int>, t: seq<int>)
    requires G != {} && |t| == |base| && AllMembers(t, G) && Balanced(t, G)
    ensures |Moved(base, Rebalanced(base, G), G)| <= |Moved(base, t, G)|
  {
    var gs := Enumerate(G);
    RebalancedIsBalanced(base, G);
    RebalancedOneWay(base, G);
    OneWayMovesLeast(gs, base, Rebalanced(base, G), t);
  }
}
