/** Rebalancing as a function of the assignment and the set of groups: it ends, balances, and moves little. */
module Rebalance {
  import opened ShardLoads

  predicate AllMembers(s: seq<int>, G: set<int>) {
    forall i :: 0 <= i < |s| ==> s[i] in G
  }

  /** Loads of any two groups differ by at most one. */
  predicate Balanced(s: seq<int>, G: set<int>) {
    forall g, h :: g in G && h in G ==> Load(s, g) <= Load(s, h) + 1
  }

  function FirstOf(s: seq<int>, g: int): (i: nat)
    requires g in s
    ensures i < |s| && s[i] == g && g !in s[..i]
  {
    if s[0] == g then 0 else 1 + FirstOf(s[1..], g)
  }

  /** From shard i on, give every shard without a group to the least loaded group. */
  ghost function AssignFrom(s: seq<int>, G: set<int>, i: nat): (r: seq<int>)
    requires G != {} && i <= |s|
    ensures |r| == |s|
    decreases |s| - i
  {
    if i == |s| then s
    else if s[i] in G then AssignFrom(s, G, i + 1)
    else AssignFrom(s[i := Least(s, G)], G, i + 1)
  }

  predicate Spreadable(s: seq<int>, m: int, l: int) {
    Load(s, m) >= Load(s, l) + 2
  }

  lemma SpreadStep(s: seq<int>, m: int, l: int)
    requires Spreadable(s, m, l)
    ensures m in s && m != l && Pairs(s[FirstOf(s, m) := l]) < Pairs(s)
  {
    LoadPositive(s, m);
    MoveLowersPairs(s, FirstOf(s, m), l);
  }

  /** Move shards one by one from the most to the least loaded group until they are within one. */
  ghost function Spread(s: seq<int>, G: set<int>): (r: seq<int>)
    requires G != {}
    ensures |r| == |s|
    decreases Pairs(s)
  {
    var m, l := Most(s, G), Least(s, G);
    if !Spreadable(s, m, l) then s
    else
      SpreadStep(s, m, l);
      Spread(s[FirstOf(s, m) := l], G)
  }

  ghost function Rebalanced(s: seq<int>, G: set<int>): (r: seq<int>)
    ensures |r| == |s|
  {
    if G == {} then seq(|s|, _ => 0) else Spread(AssignFrom(s, G, 0), G)
  }

  lemma {:induction false} AssignsAll(s: seq<int>, G: set<int>, i: nat)
    requires G != {} && i <= |s| && AllMembers(s[..i], G)
    ensures AllMembers(AssignFrom(s, G, i), G)
    decreases |s| - i
  {
    if i == |s| {
      assert s[..i] == s;
    } else {
      var s' := if s[i] in G then s else s[i := Least(s, G)];
      assert s'[..i] == s[..i];
      assert s'[..i + 1] == s'[..i] + [s'[i]];
      AssignsAll(s', G, i + 1);
    }
  }

  lemma {:induction false} SpreadBalances(s: seq<int>, G: set<int>)
    requires G != {} && AllMembers(s, G)
    ensures AllMembers(Spread(s, G), G) && Balanced(Spread(s, G), G)
    decreases Pairs(s)
  {
    var m, l := Most(s, G), Least(s, G);
    if Spreadable(s, m, l) {
      SpreadStep(s, m, l);
      SpreadBalances(s[FirstOf(s, m) := l], G);
    }
  }

  /** Every shard ends with a member group and all loads within one; with no group every shard is 0. */
  lemma RebalancedIsBalanced(s: seq<int>, G: set<int>)
    ensures G != {} ==> AllMembers(Rebalanced(s, G), G)
    ensures Balanced(Rebalanced(s, G), G)
    ensures G == {} ==> Rebalanced(s, G) == seq(|s|, _ => 0)
  {
    if G != {} {
      AssignsAll(s, G, 0);
      SpreadBalances(AssignFrom(s, G, 0), G);
    }
  }

  // ----- No group that receives a shard later gives one away

  ghost predicate Gave(base: seq<int>, s: seq<int>, g: int)
    requires |s| == |base|
  {
    exists i :: 0 <= i < |s| && base[i] == g && s[i] != g
  }

  ghost predicate Received(base: seq<int>, s: seq<int>, g: int)
    requires |s| == |base|
  {
    exists i :: 0 <= i < |s| && s[i] == g && base[i] != g
  }

  /**
   A group that received is within one of every other from below, a group that gave from above, no
   group did both, and whoever received carries no more than whoever gave.
   */
  ghost predicate OneWay(base: seq<int>, s: seq<int>, G: set<int>)
    requires |s| == |base|
  {
    && (forall g, h :: g in G && h in G && Received(base, s, g) ==> Load(s, g) <= Load(s, h) + 1)
    && (forall g, h :: g in G && h in G && Gave(base, s, g) ==> Load(s, h) <= Load(s, g) + 1)
    && (forall g, h :: g in G && h in G && Gave(base, s, g) && Received(base, s, h) ==> Load(s, h) <= Load(s, g))
    && (forall g :: g in G && Gave(base, s, g) ==> !Received(base, s, g))
  }

  /** What one move of shard i from its original group m to l does to who gave and who received. */
  lemma MoveHistory(base: seq<int>, s: seq<int>, i: nat, l: int, g: int)
    requires |s| == |base| && i < |s| && s[i] != l && base[i] == s[i]
    ensures Gave(base, s[i := l], g) <==> Gave(base, s, g) || g == s[i]
    ensures Received(base, s[i := l], g) <==> Received(base, s, g) || g == l
  {
    var r := s[i := l];
    assert forall j :: 0 <= j < |s| && j != i ==> r[j] == s[j];
    assert r[i] == l;
    if Gave(base, s, g) {
      var j :| 0 <= j < |s| && base[j] == g && s[j] != g;
      assert base[j] == g && r[j] != g;
    }
    if Received(base, s, g) {
      var j :| 0 <= j < |s| && s[j] == g && base[j] != g;
      assert r[j] == g && base[j] != g;
    }
  }

  /** Before such a move the giving group has received nothing and the receiving group has given nothing. */
  lemma MoveIsOneWay(base: seq<int>, s: seq<int>, G: set<int>, m: int, l: int)
    requires |s| == |base| && OneWay(base, s, G) && m in G && l in G && Spreadable(s, m, l)
    ensures m in s && m != l && !Received(base, s, m) && !Gave(base, s, l) && base[FirstOf(s, m)] == m
  {
    SpreadStep(s, m, l);
  }

  /** What the move does to who gave, who received and the loads. */
  ghost predicate MovedOne(base: seq<int>, s: seq<int>, r: seq<int>, m: int, l: int, g: int)
    requires |s| == |base| == |r|
  {
    && (Gave(base, r, g) <==> Gave(base, s, g) || g == m)
    && (Received(base, r, g) <==> Received(base, s, g) || g == l)
    && Load(r, g) == Load(s, g) + (if g == l then 1 else 0) - (if g == m then 1 else 0)
  }

  lemma MovedKeepsOneWay(base: seq<int>, s: seq<int>, r: seq<int>, G: set<int>, m: int, l: int)
    requires |s| == |base| == |r| && OneWay(base, s, G) && IsMost(s, G, m) && IsLeast(s, G, l)
    requires Load(s, m) >= Load(s, l) + 2 && !Received(base, s, m) && !Gave(base, s, l)
    requires forall g {:trigger Load(r, g)} {:trigger Gave(base, r, g)} {:trigger Received(base, r, g)} ::
               MovedOne(base, s, r, m, l, g)
    ensures OneWay(base, r, G)
  {
  }

  lemma SpreadKeepsOneWay(base: seq<int>, s: seq<int>, G: set<int>, m: int, l: int)
    requires |s| == |base| && OneWay(base, s, G) && IsMost(s, G, m) && IsLeast(s, G, l) && Spreadable(s, m, l)
    ensures m in s && m != l && OneWay(base, s[FirstOf(s, m) := l], G)
  {
    MoveIsOneWay(base, s, G, m, l);
    var i := FirstOf(s, m);
    var r := s[i := l];
    forall g ensures MovedOne(base, s, r, m, l, g) {
      MoveHistory(base, s, i, l, g);
      LoadUpdate(s, i, l, g);
    }
    MovedKeepsOneWay(base, s, r, G, m, l);
  }

  lemma {:induction false} SpreadOneWay(base: seq<int>, s: seq<int>, G: set<int>)
    requires |s| == |base| && G != {} && OneWay(base, s, G)
    ensures OneWay(base, Spread(s, G), G)
    decreases Pairs(s)
  {
    var m, l := Most(s, G), Least(s, G);
    if Spreadable(s, m, l) {
      SpreadStep(s, m, l);
      SpreadKeepsOneWay(base, s, G, m, l);
      SpreadOneWay(base, s[FirstOf(s, m) := l], G);
    }
  }

  /** While shards are being assigned no member group gives any away. */
  lemma AssignKeepsOneWay(base: seq<int>, s: seq<int>, G: set<int>, i: nat, l: int)
    requires |s| == |base| && i < |s| && s[i] == base[i] && s[i] !in G && IsLeast(s, G, l)
    requires OneWay(base, s, G) && forall g :: g in G ==> !Gave(base, s, g)
    ensures OneWay(base, s[i := l], G) && forall g :: g in G ==> !Gave(base, s[i := l], g)
  {
    var r := s[i := l];
    forall g ensures Gave(base, r, g) <==> Gave(base, s, g) || g == s[i]
             ensures Received(base, r, g) <==> Received(base, s, g) || g == l
    {
      MoveHistory(base, s, i, l, g);
    }
    forall g ensures Load(r, g) == Load(s, g) + (if g == l then 1 else 0) - (if g == s[i] then 1 else 0) {
      LoadUpdate(s, i, l, g);
    }
  }

  lemma {:induction false} AssignOneWay(base: seq<int>, s: seq<int>, G: set<int>, i: nat)
    requires |s| == |base| && G != {} && i <= |s| && s[i..] == base[i..]
    requires OneWay(base, s, G) && forall g :: g in G ==> !Gave(base, s, g)
    ensures OneWay(base, AssignFrom(s, G, i), G)
    decreases |s| - i
  {
    if i < |s| {
      assert s[i] == s[i..][0] && base[i] == base[i..][0];
      assert s[i + 1..] == s[i..][1..] && base[i + 1..] == base[i..][1..];
      if s[i] in G {
        AssignOneWay(base, s, G, i + 1);
      } else {
        AssignKeepsOneWay(base, s, G, i, Least(s, G));
        assert s[i := Least(s, G)][i + 1..] == s[i + 1..];
        AssignOneWay(base, s[i := Least(s, G)], G, i + 1);
      }
    }
  }

  lemma RebalancedOneWay(s: seq<int>, G: set<int>)
    requires G != {}
    ensures OneWay(s, Rebalanced(s, G), G)
  {
    AssignedOneWay(s, G);
    SpreadOneWay(s, AssignFrom(s, G, 0), G);
  }

  lemma AssignedOneWay(s: seq<int>, G: set<int>)
    requires G != {}
    ensures OneWay(s, AssignFrom(s, G, 0), G)
  {
    assert forall g :: !Gave(s, s, g) && !Received(s, s, g);
    AssignOneWay(s, s, G, 0);
  }
}
