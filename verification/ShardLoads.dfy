/** Shard assignments and the loads they put on groups. */
module ShardLoads {

  /** The shards of group g under assignment s. */
  function Owned(s: seq<int>, g: int): set<nat> {
    set i: nat | i < |s| && s[i] == g
  }

  function Load(s: seq<int>, g: int): nat {
    |Owned(s, g)|
  }

  function SetOf(gs: seq<int>): set<int> {
    set g | g in gs
  }

  lemma LoadPush(s: seq<int>, x: int, g: int)
    ensures Load(s + [x], g) == Load(s, g) + if x == g then 1 else 0
  {
    assert Owned(s + [x], g) == Owned(s, g) + if x == g then {|s|} else {};
  }

  lemma LoadUpdate(s: seq<int>, i: nat, b: int, g: int)
    requires i < |s| && s[i] != b
    ensures Load(s[i := b], g) == Load(s, g) + (if g == b then 1 else 0) - (if g == s[i] then 1 else 0)
  {
    if g == b {
      assert Owned(s[i := b], g) == Owned(s, g) + {i};
    } else if g == s[i] {
      assert Owned(s[i := b], g) == Owned(s, g) - {i};
    } else {
      assert Owned(s[i := b], g) == Owned(s, g);
    }
  }

  /** No load exceeds the number of shards. */
  lemma {:induction false} LoadBound(s: seq<int>, g: int)
    ensures Load(s, g) <= |s|
  {
    if s == [] {
      assert Owned(s, g) == {};
    } else {
      var n := |s| - 1;
      LoadBound(s[..n], g);
      LoadPush(s[..n], s[n], g);
      assert s == s[..n] + [s[n]];
    }
  }

  lemma LoadPositive(s: seq<int>, g: int)
    ensures Load(s, g) > 0 <==> g in s
  {
    if g in s {
      var i :| 0 <= i < |s| && s[i] == g;
      assert i in Owned(s, g);
    } else {
      assert Owned(s, g) == {};
    }
  }

  /** The number of pairs of shards in one group: half the sum of squared loads, less half the shards. */
  function Pairs(s: seq<int>): nat {
    if s == [] then 0
    else var n := |s| - 1; Pairs(s[..n]) + Load(s[..n], s[n])
  }

  lemma {:induction false} PairsUpdate(s: seq<int>, i: nat, b: int)
    requires i < |s| && s[i] != b
    ensures Pairs(s[i := b]) == Pairs(s) + Load(s, b) - (Load(s, s[i]) - 1)
    decreases |s|
  {
    var n := |s| - 1;
    var front, x := s[..n], s[n];
    assert s == front + [x];
    LoadPush(front, x, s[i]);
    LoadPush(front, x, b);
    if i == n {
      assert s[i := b][..n] == front;
    } else {
      assert s[i := b][..n] == front[i := b];
      PairsUpdate(front, i, b);
      LoadUpdate(front, i, b, x);
    }
  }

  /** Moving a shard from a group to one at least two lighter lowers the count. */
  lemma MoveLowersPairs(s: seq<int>, i: nat, b: int)
    requires i < |s| && s[i] != b && Load(s, s[i]) >= Load(s, b) + 2
    ensures Pairs(s[i := b]) < Pairs(s)
  {
    PairsUpdate(s, i, b);
  }

  // ----- The most and the least loaded group, smallest gid first

  predicate IsMost(s: seq<int>, G: set<int>, g: int) {
    g in G && forall h :: h in G ==> Load(s, h) < Load(s, g) || (Load(s, h) == Load(s, g) && g <= h)
  }

  predicate IsLeast(s: seq<int>, G: set<int>, g: int) {
    g in G && forall h :: h in G ==> Load(s, h) > Load(s, g) || (Load(s, h) == Load(s, g) && g <= h)
  }

  lemma NoMembers(G: set<int>)
    requires forall y :: y !in G
    ensures G == {}
  {
    var none: set<int> := {};
    assert forall y: int :: y in G <==> y in none;
    assert G == none;
  }

  lemma SomeMember(G: set<int>) returns (x: int)
    requires G != {}
    ensures x in G
  {
    if forall y :: y !in G {
      NoMembers(G);
    }
    x :| x in G;
  }

  lemma {:induction false} ExtremesExist(s: seq<int>, G: set<int>)
    requires G != {}
    ensures exists g :: IsMost(s, G, g)
    ensures exists g :: IsLeast(s, G, g)
    decreases |G|
  {
    var x := SomeMember(G);
    var R := G - {x};
    if R == {} {
      assert G == {x};
      assert IsMost(s, G, x) && IsLeast(s, G, x);
    } else {
      ExtremesExist(s, R);
      var m :| IsMost(s, R, m);
      var l :| IsLeast(s, R, l);
      assert IsMost(s, G, if Load(s, x) > Load(s, m) || (Load(s, x) == Load(s, m) && x < m) then x else m);
      assert IsLeast(s, G, if Load(s, x) < Load(s, l) || (Load(s, x) == Load(s, l) && x < l) then x else l);
    }
  }

  ghost function Most(s: seq<int>, G: set<int>): (g: int)
    requires G != {}
    ensures IsMost(s, G, g)
  {
    ExtremesExist(s, G);
    var g :| IsMost(s, G, g); g
  }

  ghost function Least(s: seq<int>, G: set<int>): (g: int)
    requires G != {}
    ensures IsLeast(s, G, g)
  {
    ExtremesExist(s, G);
    var g :| IsLeast(s, G, g); g
  }

  // ----- Sums over groups

  predicate Distinct(gs: seq<int>) {
    forall i, j :: 0 <= i < j < |gs| ==> gs[i] != gs[j]
  }

  function SumLoad(gs: seq<int>, s: seq<int>): nat {
    if gs == [] then 0 else Load(s, gs[0]) + SumLoad(gs[1..], s)
  }

  lemma {:induction false} SumLoadPush(gs: seq<int>, s: seq<int>, x: int)
    requires Distinct(gs)
    ensures SumLoad(gs, s + [x]) == SumLoad(gs, s) + if x in gs then 1 else 0
    decreases |gs|
  {
    if gs != [] {
      SumLoadPush(gs[1..], s, x);
      LoadPush(s, x, gs[0]);
      assert x in gs <==> x == gs[0] || x in gs[1..];
      if x == gs[0] {
        assert x !in gs[1..];
      }
    }
  }

  /** Loads add up to the number of shards when every shard is owned by a listed group. */
  lemma {:induction false} LoadsCoverShards(gs: seq<int>, s: seq<int>)
    requires Distinct(gs) && forall i :: 0 <= i < |s| ==> s[i] in gs
    ensures SumLoad(gs, s) == |s|
    decreases |s|
  {
    if s == [] {
      NoShardsNoLoad(gs);
    } else {
      var n := |s| - 1;
      LoadsCoverShards(gs, s[..n]);
      SumLoadPush(gs, s[..n], s[n]);
      assert s == s[..n] + [s[n]];
    }
  }

  lemma {:induction false} NoShardsNoLoad(gs: seq<int>)
    ensures SumLoad(gs, []) == 0
  {
    if gs != [] {
      NoShardsNoLoad(gs[1..]);
      assert Owned([], gs[0]) == {};
    }
  }

  lemma {:induction false} SumLoadMonotone(gs: seq<int>, s: seq<int>, t: seq<int>)
    requires forall g :: g in gs ==> Load(s, g) <= Load(t, g)
    ensures SumLoad(gs, s) <= SumLoad(gs, t)
    ensures (exists g :: g in gs && Load(s, g) < Load(t, g)) ==> SumLoad(gs, s) < SumLoad(gs, t)
    decreases |gs|
  {
    if gs != [] {
      assert gs[0] in gs;
      SumLoadMonotone(gs[1..], s, t);
      if g :| g in gs && Load(s, g) < Load(t, g) {
        assert g == gs[0] || g in gs[1..];
      }
    }
  }
}
