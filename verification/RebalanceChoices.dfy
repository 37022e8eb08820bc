/** Which shards go where: the choices of the rebalancer, said without the functions that make them. */
module RebalanceChoices {
  import opened ShardLoads
  import opened Rebalance

  /** g is the smallest gid among the groups with the largest load. */
  predicate MostLoaded(s: seq<int>, G: set<int>, g: int) {
    g in G && forall h :: h in G ==> Load(s, h) <= Load(s, g) && (Load(s, h) == Load(s, g) ==> g <= h)
  }

  /** g is the smallest gid among the groups with the smallest load. */
  predicate LeastLoaded(s: seq<int>, G: set<int>, g: int) {
    g in G && forall h :: h in G ==> Load(s, g) <= Load(s, h) && (Load(s, h) == Load(s, g) ==> g <= h)
  }

  // ----- Shards without a group

  /** Assigning from shard i on leaves the shards before it, and all that have a group, as they are. */
  lemma {:induction false} AssignLeaves(s: seq<int>, G: set<int>, i: nat, j: nat)
    requires G != {} && i <= |s| && j < |s| && (j < i || s[j] in G)
    ensures AssignFrom(s, G, i)[j] == s[j]
    decreases |s| - i
  {
    if i < |s| {
      AssignLeaves(if s[i] in G then s else s[i := Least(s, G)], G, i + 1, j);
    }
  }

  /**
   In the assignment r that results, shard i kept its group, or went to the least loaded group of what stood
   then: the final owners of the shards before it and the old owners of the rest.
   */
  ghost predicate Placed(s: seq<int>, r: seq<int>, G: set<int>, i: nat)
    requires |r| == |s| && i < |s|
  {
    if s[i] in G then r[i] == s[i] else LeastLoaded(r[..i] + s[i..], G, r[i])
  }

  lemma {:induction false} AssignPlaces(s: seq<int>, G: set<int>, i: nat, j: nat)
    requires G != {} && i <= j < |s|
    ensures Placed(s, AssignFrom(s, G, i), G, j)
    decreases |s| - i
  {
    var t := if s[i] in G then s else s[i := Least(s, G)];
    var r := AssignFrom(s, G, i);
    if i < j {
      AssignPlaces(t, G, i + 1, j);
      assert t[j..] == s[j..];
    } else {
      AssignLeaves(t, G, i + 1, i);
      AssignedPrefix(t, G, i + 1);
      assert r[..i] == t[..i] == s[..i];
      assert r[..i] + s[i..] == s;
    }
  }

  lemma AssignedPrefix(s: seq<int>, G: set<int>, i: nat)
    requires G != {} && i <= |s|
    ensures AssignFrom(s, G, i)[..i] == s[..i]
  {
    forall j: nat | j < i ensures AssignFrom(s, G, i)[j] == s[j] {
      AssignLeaves(s, G, i, j);
    }
  }

  /** Every shard of every assignment is placed that way, in order. */
  lemma AssignedInTurn(s: seq<int>, G: set<int>, i: nat)
    requires G != {} && i < |s|
    ensures Placed(s, AssignFrom(s, G, 0), G, i)
  {
    AssignPlaces(s, G, 0, i);
  }

  // ----- Moving shards

  /** One move: the first shard of the most loaded group goes to the least loaded one, two or more lighter. */
  ghost predicate IsMove(a: seq<int>, b: seq<int>, G: set<int>) {
    exists m, l, i: nat ::
      && MostLoaded(a, G, m) && LeastLoaded(a, G, l) && Load(a, m) >= Load(a, l) + 2
      && i < |a| && a[i] == m && (forall j :: 0 <= j < i ==> a[j] != m) && b == a[i := l]
  }

  /** The assignments from s to r, one move apart, until no two groups are two apart. */
  ghost predicate IsSpreading(cs: seq<seq<int>>, s: seq<int>, r: seq<int>, G: set<int>) {
    && |cs| > 0 && cs[0] == s && cs[|cs| - 1] == r
    && (forall k :: 0 <= k < |cs| - 1 ==> IsMove(cs[k], cs[k + 1], G))
    && (forall g, h :: g in G && h in G ==> Load(r, g) <= Load(r, h) + 1)
  }

  lemma FirstStep(s: seq<int>, G: set<int>)
    requires G != {} && Spreadable(s, Most(s, G), Least(s, G))
    ensures Most(s, G) in s && IsMove(s, s[FirstOf(s, Most(s, G)) := Least(s, G)], G)
  {
    var m, l := Most(s, G), Least(s, G);
    SpreadStep(s, m, l);
    var i := FirstOf(s, m);
    assert forall j :: 0 <= j < i ==> s[j] == s[..i][j];
    assert MostLoaded(s, G, m) && LeastLoaded(s, G, l) && i < |s| && s[i] == m;
  }

  lemma MovesLinked(s: seq<int>, b: seq<int>, rest: seq<seq<int>>, r: seq<int>, G: set<int>)
    requires IsMove(s, b, G) && IsSpreading(rest, b, r, G)
    ensures IsSpreading([s] + rest, s, r, G)
  {
    var cs := [s] + rest;
    forall k | 0 <= k < |cs| - 1 ensures IsMove(cs[k], cs[k + 1], G) {
      assert cs[k + 1] == rest[k];
      if k > 0 {
        assert cs[k] == rest[k - 1] && IsMove(rest[k - 1], rest[k], G);
      }
    }
  }

  /** The result of spreading is reached by exactly such moves. */
  lemma {:induction false} SpreadByMoves(s: seq<int>, G: set<int>) returns (cs: seq<seq<int>>)
    requires G != {}
    ensures IsSpreading(cs, s, Spread(s, G), G)
    decreases Pairs(s)
  {
    var m, l := Most(s, G), Least(s, G);
    if Spreadable(s, m, l) {
      FirstStep(s, G);
      SpreadStep(s, m, l);
      var b := s[FirstOf(s, m) := l];
      var rest := SpreadByMoves(b, G);
      MovesLinked(s, b, rest, Spread(s, G), G);
      cs := [s] + rest;
    } else {
      cs := [s];
    }
  }

  // ----- The shards a group gives away are its first ones

  /** Of two shards a group owned, if it kept the lower one it kept the higher one. */
  ghost predicate KeepsHigher(base: seq<int>, s: seq<int>, G: set<int>)
    requires |s| == |base|
  {
    forall i, j :: 0 <= i < j < |s| && base[i] in G && base[i] == base[j] && s[i] == base[i] ==> s[j] == base[j]
  }

  lemma MoveKeepsHigher(base: seq<int>, s: seq<int>, G: set<int>, m: int, l: int)
    requires |s| == |base| && KeepsHigher(base, s, G) && OneWay(base, s, G)
    requires m in G && l in G && Spreadable(s, m, l)
    ensures m in s && KeepsHigher(base, s[FirstOf(s, m) := l], G)
  {
    MoveIsOneWay(base, s, G, m, l);
    var i := FirstOf(s, m);
    assert forall j :: 0 <= j < i ==> s[j] == s[..i][j];
  }

  lemma {:induction false} SpreadKeepsHigher(base: seq<int>, s: seq<int>, G: set<int>)
    requires |s| == |base| && G != {} && KeepsHigher(base, s, G) && OneWay(base, s, G)
    ensures KeepsHigher(base, Spread(s, G), G)
    decreases Pairs(s)
  {
    var m, l := Most(s, G), Least(s, G);
    if Spreadable(s, m, l) {
      SpreadStep(s, m, l);
      MoveKeepsHigher(base, s, G, m, l);
      SpreadKeepsOneWay(base, s, G, m, l);
      SpreadKeepsHigher(base, s[FirstOf(s, m) := l], G);
    }
  }

  /** For every assignment and group set, what a group loses to rebalancing are its lowest-numbered shards. */
  lemma RebalancedKeepsHigher(base: seq<int>, G: set<int>)
    requires G != {}
    ensures KeepsHigher(base, Rebalanced(base, G), G)
  {
    var s := AssignFrom(base, G, 0);
    forall j: nat | j < |base| && base[j] in G ensures s[j] == base[j] {
      AssignLeaves(base, G, 0, j);
    }
    AssignedOneWay(base, G);
    SpreadKeepsHigher(base, s, G);
  }
}
