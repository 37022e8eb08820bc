/** The shard configuration object: rebalancing in place, joins, leaves and the test's check of it. */
module ShardConfig {
  import opened ShardLoads
  import opened Rebalance
  import Ordering

  type Groups = map<int, seq<string>>

  /** Changed: done. Refused: the call answers false. Fatal: the process stops. */
  datatype Outcome = Changed | Refused | Fatal

  predicate Increasing(gs: seq<int>) {
    forall i, j :: 0 <= i < j < |gs| ==> gs[i] < gs[j]
  }

  method InsertGid(gs: seq<int>, g: int) returns (r: seq<int>)
    requires Increasing(gs) && g !in gs
    ensures Increasing(r)
    ensures forall x :: x in r <==> x in gs || x == g
  {
    var i := 0;
    while i < |gs| && gs[i] < g
      invariant 0 <= i <= |gs|
      invariant forall j :: 0 <= j < i ==> gs[j] < g
    {
      i := i + 1;
    }
    r := gs[..i] + [g] + gs[i..];
    InsertedAt(gs, g, i);
    forall x ensures x in r <==> x in gs || x == g {
      Ordering.InsertedMember(gs, g, i, x);
    }
  }

  /** Putting g between what is below it and what is above it. */
  lemma InsertedAt(gs: seq<int>, g: int, i: nat)
    requires i <= |gs| && Increasing(gs) && g !in gs
    requires (forall j :: 0 <= j < i ==> gs[j] < g) && (i < |gs| ==> g <= gs[i])
    ensures Increasing(gs[..i] + [g] + gs[i..])
  {
    var r := gs[..i] + [g] + gs[i..];
    assert forall j :: 0 <= j < |r| ==> r[j] == if j < i then gs[j] else if j == i then g else gs[j - 1];
    assert forall j :: i <= j < |gs| ==> g < gs[j];
  }

  /** Lists the gids in increasing order, in whatever order the map yields them. */
  method SortGids(G: set<int>) returns (gs: seq<int>)
    ensures Increasing(gs)
    ensures forall g :: g in gs <==> g in G
  {
    gs := [];
    var rest := G;
    while rest != {}
      invariant rest <= G && Increasing(gs)
      invariant forall g :: g in gs <==> g in G && g !in rest
      decreases rest
    {
      ghost var w := SomeMember(rest);
      var g :| g in rest;
      gs := InsertGid(gs, g);
      rest := rest - {g};
    }
  }

  /** Reading a counter map: a missing key counts 0. */
  function CountIn(counts: map<int, int>, g: int): int {
    if g in counts then counts[g] else 0
  }

  lemma MostUnique(s: seq<int>, G: set<int>, g: int)
    requires G != {}
    ensures IsMost(s, G, g) ==> g == Most(s, G)
    ensures IsLeast(s, G, g) ==> g == Least(s, G)
  {
  }

  /** After the gids gs[..i]: the first of the most and of the least loaded ones. */
  ghost predicate Scanned(s: seq<int>, gs: seq<int>, i: nat, mg: int, mn: int, lg: int, ln: int)
    requires i <= |gs|
  {
    if i == 0 then mg == -1 && mn == -1 && lg == -1 && ln == 257
    else
      && mg in gs[..i] && mn == Load(s, mg)
      && (forall j :: 0 <= j < i ==> Load(s, gs[j]) < mn || (Load(s, gs[j]) == mn && mg <= gs[j]))
      && lg in gs[..i] && ln == Load(s, lg)
      && (forall j :: 0 <= j < i ==> Load(s, gs[j]) > ln || (Load(s, gs[j]) == ln && lg <= gs[j]))
  }

  lemma ScanStep(s: seq<int>, gs: seq<int>, i: nat, mg: int, mn: int, lg: int, ln: int)
    requires Increasing(gs) && i < |gs| && |s| <= 256 && Scanned(s, gs, i, mg, mn, lg, ln)
    ensures var n := Load(s, gs[i]);
            Scanned(s, gs, i + 1, if n > mn then gs[i] else mg, if n > mn then n else mn,
                    if n < ln then gs[i] else lg, if n < ln then n else ln)
  {
    LoadBound(s, gs[i]);
    assert gs[..i + 1] == gs[..i] + [gs[i]];
    assert gs[..i + 1][i] == gs[i];
  }

  lemma ScanDone(s: seq<int>, gs: seq<int>, G: set<int>, mg: int, mn: int, lg: int, ln: int)
    requires Scanned(s, gs, |gs|, mg, mn, lg, ln) && (forall g :: g in gs <==> g in G) && G != {}
    ensures IsMost(s, G, mg) && mn == Load(s, mg) && IsLeast(s, G, lg) && ln == Load(s, lg)
  {
    assert gs[..|gs|] == gs;
    var x := SomeMember(G);
    assert x in gs;
    forall h | h in G
      ensures Load(s, h) < mn || (Load(s, h) == mn && mg <= h)
      ensures Load(s, h) > ln || (Load(s, h) == ln && lg <= h)
    {
      var j :| 0 <= j < |gs| && gs[j] == h;
    }
  }

  /** The server lists of different groups share no server. */
  ghost predicate DisjointServers(gr: Groups) {
    forall g, h, x :: g in gr && h in gr && g != h && x in gr[g] ==> x !in gr[h]
  }

  /** Joining succeeds: something joins, nobody joins again, and no server is in two groups. */
  ghost predicate CanJoin(gr: Groups, servers: Groups) {
    && servers != map[]
    && (forall g :: g in servers ==> g !in gr)
    && (forall g, h, x :: g in servers && h in gr && x in gr[h] ==> x !in servers[g])
    && DisjointServers(servers)
  }

  /** The groups once all newcomers but those in rest have joined. */
  ghost function Joined(gr: Groups, servers: Groups, rest: set<int>): Groups {
    gr + map g | g in servers && g !in rest :: servers[g]
  }

  /** No newcomer outside rest was known before or shares a server with a group known before or with another. */
  ghost predicate JoinedCleanly(gr: Groups, servers: Groups, rest: set<int>) {
    && (forall g :: g in servers && g !in rest ==> g !in gr)
    && (forall g, h, x :: g in servers && g !in rest && h in gr && x in gr[h] ==> x !in servers[g])
    && (forall g, h, x :: g in servers && h in servers && g !in rest && h !in rest && g != h && x in servers[g] ==>
          x !in servers[h])
  }

  /** What a join leaves, whether it went through or stopped in the middle. */
  ghost predicate PartlyJoined(gr: Groups, servers: Groups, gr': Groups) {
    exists rest: set<int> {:trigger Joined(gr, servers, rest)} ::
      rest <= servers.Keys && gr' == Joined(gr, servers, rest) && JoinedCleanly(gr, servers, rest)
  }

  /** What a leave leaves: the groups listed so far are gone. */
  ghost predicate PartlyLeft(gr: Groups, gids: seq<int>, gr': Groups) {
    exists n :: 0 <= n <= |gids| && gr' == gr - SetOf(gids[..n])
  }

  lemma JoinOneMore(gr: Groups, servers: Groups, rest: set<int>, gid: int)
    requires JoinedCleanly(gr, servers, rest) && gid in rest && gid in servers
    requires gid !in Joined(gr, servers, rest)
    requires forall h, x :: h in Joined(gr, servers, rest) && x in Joined(gr, servers, rest)[h] ==> x !in servers[gid]
    ensures JoinedCleanly(gr, servers, rest - {gid})
    ensures Joined(gr, servers, rest - {gid}) == Joined(gr, servers, rest)[gid := servers[gid]]
  {
    var done := Joined(gr, servers, rest);
    assert forall h :: h in gr ==> h in done && done[h] == gr[h];
    assert forall h :: h in servers && h !in rest ==> h in done && done[h] == servers[h];
  }

  ghost predicate CanLeave(gr: Groups, gids: seq<int>) {
    gids != [] && Distinct(gids) && forall i :: 0 <= i < |gids| ==> gids[i] in gr
  }

  class Config {
    var num: int
    var shards: array<int>
    var groups: Groups

    /** The sentinel 257 that starts the search for the least load needs at most 256 shards. */
    ghost predicate Valid()
      reads this
    {
      shards.Length <= 256
    }

    constructor (nshards: nat)
      requires nshards <= 256
      ensures Valid() && num == 0 && groups == map[] && fresh(shards)
      ensures shards[..] == seq(nshards, _ => 0)
    {
      num := 0;
      shards := new int[nshards](_ => 0);
      groups := map[];
    }

    /** The smallest gid among the most loaded and among the least loaded groups, for every map order. */
    method Analyze() returns (mg: int, mn: int, lg: int, ln: int)
      requires Valid()
      ensures groups == map[] ==> mg == -1 && mn == -1 && lg == -1 && ln == 257
      ensures groups != map[] ==> IsMost(shards[..], groups.Keys, mg) && mn == Load(shards[..], mg)
      ensures groups != map[] ==> IsLeast(shards[..], groups.Keys, lg) && ln == Load(shards[..], lg)
      ensures groups != map[] ==> mg in groups && lg in groups
      ensures forall h :: h in groups ==> Load(shards[..], h) <= mn && (Load(shards[..], h) == mn ==> mg <= h)
      ensures forall h :: h in groups ==> Load(shards[..], h) >= ln && (Load(shards[..], h) == ln ==> lg <= h)
    {
      var counts := CountShards();
      mn, mg, ln, lg := -1, -1, 257, -1;
      var gs := SortGids(groups.Keys);
      for i := 0 to |gs|
        invariant Scanned(shards[..], gs, i, mg, mn, lg, ln)
      {
        var g := gs[i];
        ScanStep(shards[..], gs, i, mg, mn, lg, ln);
        if CountIn(counts, g) < ln {
          ln := CountIn(counts, g);
          lg := g;
        }
        if CountIn(counts, g) > mn {
          mn := CountIn(counts, g);
          mg := g;
        }
      }
      if groups != map[] {
        assert groups.Keys != {};
        ScanDone(shards[..], gs, groups.Keys, mg, mn, lg, ln);
      } else {
        ListedOrEmpty(gs);
      }
    }

    method CountShards() returns (counts: map<int, int>)
      ensures forall g :: CountIn(counts, g) == Load(shards[..], g)
    {
      counts := map[];
      assert forall g :: Owned([], g) == {};
      for i := 0 to shards.Length
        invariant forall g :: CountIn(counts, g) == Load(shards[..i], g)
      {
        assert shards[..i + 1] == shards[..i] + [shards[i]];
        var next := counts[shards[i] := CountIn(counts, shards[i]) + 1];
        forall g ensures CountIn(next, g) == Load(shards[..i + 1], g) {
          LoadPush(shards[..i], shards[i], g);
          assert CountIn(counts, g) == Load(shards[..i], g);
        }
        counts := next;
      }
      assert shards[..shards.Length] == shards[..];
    }

    method LeastLoaded() returns (lg: int)
      requires Valid()
      ensures groups != map[] ==> lg == Least(shards[..], groups.Keys)
    {
      var mg, mn, ln;
      mg, mn, lg, ln := Analyze();
      if groups != map[] {
        assert groups.Keys != {};
        MostUnique(shards[..], groups.Keys, lg);
      }
    }

    /** Gives the first shard of one group to another. */
    method MoveFirst(mg: int, lg: int)
      requires mg in shards[..]
      modifies shards
      ensures shards[..] == old(shards[..])[FirstOf(old(shards[..]), mg) := lg]
    {
      var s := 0;
      while shards[s] != mg
        invariant 0 <= s < shards.Length
        invariant mg !in shards[..s]
        decreases shards.Length - s
      {
        assert shards[..s + 1] == shards[..s] + [shards[s]];
        assert shards[..] == shards[..s + 1] + shards[s + 1..];
        s := s + 1;
      }
      FirstIs(shards[..], mg, s);
      shards[s] := lg;
    }

    /**
     Rebalances in place. The result is a function of the assignment and the set of gids alone, so every
     replica computes the same one; num and groups stay as they are.
     */
    method Rebalance()
      requires Valid()
      modifies shards
      ensures shards[..] == Rebalanced(old(shards[..]), groups.Keys)
    {
      if |groups| < 1 {
        for s := 0 to shards.Length
          invariant forall j :: 0 <= j < s ==> shards[j] == 0
        {
          shards[s] := 0;
        }
        assert groups.Keys == {};
        return;
      }
      AssignShards();
      SpreadShards();
    }

    method AssignShards()
      requires Valid() && |groups| >= 1
      modifies shards
      ensures groups.Keys != {} && shards[..] == AssignFrom(old(shards[..]), groups.Keys, 0)
    {
      ghost var G := groups.Keys;
      assert groups != map[] && G != {};
      for s := 0 to shards.Length
        invariant AssignFrom(shards[..], G, s) == AssignFrom(old(shards[..]), G, 0)
      {
        if shards[s] !in groups {
          var lg := LeastLoaded();
          ghost var before := shards[..];
          shards[s] := lg;
          assert shards[..] == before[s := lg];
        }
      }
    }

    method SpreadShards()
      requires Valid() && |groups| >= 1
      modifies shards
      ensures groups.Keys != {} && shards[..] == Spread(old(shards[..]), groups.Keys)
    {
      ghost var G := groups.Keys;
      assert groups != map[] && G != {};
      while true
        invariant Spread(shards[..], G) == Spread(old(shards[..]), G)
        decreases Pairs(shards[..])
      {
        var mg, mn, lg, ln := Analyze();
        MostUnique(shards[..], G, mg);
        MostUnique(shards[..], G, lg);
        if mn < ln + 2 {
          return;
        }
        SpreadStep(shards[..], mg, lg);
        MoveFirst(mg, lg);
      }
    }

    /** Is one of these servers already in some group? */
    method Clashes(servers: seq<string>) returns (clash: bool)
      ensures clash <==> exists g, x :: g in groups && x in groups[g] && x in servers
    {
      var rest := groups.Keys;
      while rest != {}
        invariant rest <= groups.Keys
        invariant forall g, x :: g in groups && g !in rest && x in groups[g] ==> x !in servers
        decreases rest
      {
        ghost var w := SomeMember(rest);
        var g :| g in rest;
        for i := 0 to |groups[g]|
          invariant forall j :: 0 <= j < i ==> groups[g][j] !in servers
        {
          if groups[g][i] in servers {
            assert g in groups && groups[g][i] in groups[g];
            return true;
          }
        }
        rest := rest - {g};
      }
      return false;
    }

    /**
     Adds groups one by one in whatever order the map yields them. A refused or fatal join leaves the
     groups added so far in place but never advances num.
     */
    method Join(servers: Groups) returns (out: Outcome)
      modifies this`num, this`groups
      ensures out.Changed? <==> CanJoin(old(groups), servers)
      ensures out.Changed? ==> groups == old(groups) + servers && num == old(num) + 1
      ensures !out.Changed? ==> num == old(num)
      ensures out.Refused? ==> exists g :: g in servers && g in old(groups)
      ensures PartlyJoined(old(groups), servers, groups)
    {
      var changed := false;
      var rest := servers.Keys;
      while rest != {}
        invariant rest <= servers.Keys && (changed <==> rest != servers.Keys)
        invariant groups == Joined(old(groups), servers, rest)
        invariant JoinedCleanly(old(groups), servers, rest)
        invariant num == old(num)
        decreases rest
      {
        ghost var w := SomeMember(rest);
        var gid :| gid in rest;
        assert PartlyJoined(old(groups), servers, groups);
        if gid in groups {
          return Refused;
        }
        var clash := Clashes(servers[gid]);
        if clash {
          return Fatal;
        }
        JoinOneMore(old(groups), servers, rest, gid);
        groups := groups[gid := servers[gid]];
        changed := true;
        rest := rest - {gid};
      }
      if !changed {
        return Fatal;
      }
      num := num + 1;
      return Changed;
    }

    /** Removes groups in list order; like Join, a refused leave keeps the removals made so far. */
    method Leave(gids: seq<int>) returns (out: Outcome)
      modifies this`num, this`groups
      ensures out.Changed? <==> CanLeave(old(groups), gids)
      ensures out.Fatal? <==> gids == []
      ensures out.Changed? ==> groups == old(groups) - SetOf(gids) && num == old(num) + 1
      ensures !out.Changed? ==> num == old(num)
      ensures PartlyLeft(old(groups), gids, groups)
    {
      var changed := false;
      for i := 0 to |gids|
        invariant changed <==> i > 0
        invariant groups == old(groups) - SetOf(gids[..i])
        invariant forall j, k :: 0 <= j < k < i ==> gids[j] != gids[k]
        invariant forall j :: 0 <= j < i ==> gids[j] in old(groups)
        invariant num == old(num)
      {
        assert forall j :: 0 <= j < i ==> gids[j] in SetOf(gids[..i]) by {
          assert forall j :: 0 <= j < i ==> gids[..i][j] == gids[j];
        }
        if gids[i] !in groups {
          assert gids[i] in SetOf(gids[..i]) || gids[i] !in old(groups);
          return Refused;
        }
        assert gids[..i + 1] == gids[..i] + [gids[i]];
        assert SetOf(gids[..i + 1]) == SetOf(gids[..i]) + {gids[i]};
        groups := groups - {gids[i]};
        changed := true;
      }
      assert gids[..|gids|] == gids;
      if !changed {
        return Fatal;
      }
      num := num + 1;
      return Changed;
    }

    method JoinBalance(servers: Groups) returns (out: Outcome)
      requires Valid()
      modifies this`num, this`groups, shards
      ensures out.Changed? <==> CanJoin(old(groups), servers)
      ensures out.Changed? ==>
                && num == old(num) + 1 && groups == old(groups) + servers
                && shards[..] == Rebalanced(old(shards[..]), (old(groups) + servers).Keys)
      ensures !out.Changed? ==>
                num == old(num) && shards[..] == old(shards[..]) && PartlyJoined(old(groups), servers, groups)
    {
      out := Join(servers);
      if out.Changed? {
        Rebalance();
      }
    }

    method LeaveBalance(gids: seq<int>) returns (out: Outcome)
      requires Valid()
      modifies this`num, this`groups, shards
      ensures out.Changed? <==> CanLeave(old(groups), gids)
      ensures out.Changed? ==>
                && num == old(num) + 1 && groups == old(groups) - SetOf(gids)
                && shards[..] == Rebalanced(old(shards[..]), (old(groups) - SetOf(gids)).Keys)
      ensures !out.Changed? ==>
                num == old(num) && shards[..] == old(shards[..]) && PartlyLeft(old(groups), gids, groups)
    {
      out := Leave(gids);
      if out.Changed? {
        Rebalance();
      }
    }

    method IsMember(gid: int) returns (member: bool)
      ensures member <==> Load(shards[..], gid) > 0
    {
      LoadPositive(shards[..], gid);
      for s := 0 to shards.Length
        invariant gid !in shards[..s]
      {
        assert shards[..s + 1] == shards[..s] + [shards[s]];
        if shards[s] == gid {
          assert shards[..][s] == gid;
          return true;
        }
      }
      assert shards[..shards.Length] == shards[..];
      return false;
    }

    /** False where the test would stop: wrong groups, a shard without a group, or loads more than one apart. */
    method CheckConfig(expected: seq<int>) returns (ok: bool)
      requires Valid()
      ensures ok <==>
                && |groups| == |expected| && (forall i :: 0 <= i < |expected| ==> expected[i] in groups)
                && (expected != [] ==> AllMembers(shards[..], groups.Keys))
                && Balanced(shards[..], groups.Keys)
    {
      if |groups| != |expected| {
        return false;
      }
      for i := 0 to |expected|
        invariant forall j :: 0 <= j < i ==> expected[j] in groups
      {
        if expected[i] !in groups {
          return false;
        }
      }
      if |expected| > 0 {
        for s := 0 to shards.Length
          invariant forall j :: 0 <= j < s ==> shards[..][j] in groups
        {
          if shards[s] !in groups {
            assert shards[..][s] !in groups.Keys;
            return false;
          }
        }
      }
      var min, max := LoadRange();
      ok := max <= min + 1;
    }

    /** The least and the greatest load of a group. */
    method LoadRange() returns (min: int, max: int)
      requires Valid()
      ensures forall g :: g in groups ==> min <= Load(shards[..], g) <= max
      ensures max <= min + 1 <==> Balanced(shards[..], groups.Keys)
    {
      var counts := CountShards();
      min, max := 257, 0;
      var rest := groups.Keys;
      ghost var lo, hi := 0, 0;
      while rest != {}
        invariant rest <= groups.Keys
        invariant forall g :: g in groups && g !in rest ==> min <= Load(shards[..], g) <= max
        invariant rest == groups.Keys ==> min == 257 && max == 0
        invariant rest != groups.Keys ==> lo in groups && lo !in rest && min == Load(shards[..], lo)
        invariant rest != groups.Keys ==> hi in groups && hi !in rest && max == Load(shards[..], hi)
        decreases rest
      {
        ghost var w := SomeMember(rest);
        var g :| g in rest;
        LoadBound(shards[..], g);
        if CountIn(counts, g) > max {
          max := CountIn(counts, g);
          hi := g;
        } else if rest == groups.Keys {
          hi := g;
        }
        if CountIn(counts, g) < min {
          min := CountIn(counts, g);
          lo := g;
        }
        rest := rest - {g};
      }
    }
  }

  lemma {:induction false} FirstIs(s: seq<int>, g: int, i: nat)
    requires i < |s| && s[i] == g && g !in s[..i]
    ensures g in s && FirstOf(s, g) == i
  {
    var j := FirstOf(s, g);
    assert forall k :: 0 <= k < i ==> s[..i][k] == s[k] && s[..i][k] in s[..i];
    assert forall k :: 0 <= k < j ==> s[..j][k] == s[k] && s[..j][k] in s[..j];
  }

  lemma ListedOrEmpty(gs: seq<int>)
    ensures gs == [] || gs[0] in gs
  {
  }
}
