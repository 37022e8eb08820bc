/** What every sequence of successful joins and leaves keeps. */
module ConfigRuns {
  import opened ShardLoads
  import opened Rebalance
  import opened RebalanceOptimality
  import opened ShardConfig

  /** The value of a configuration object. */
  datatype Cfg = Cfg(num: int, shards: seq<int>, groups: Groups)

  datatype Change = Joining(servers: Groups) | Leaving(gids: seq<int>)

  function Fresh(n: nat): Cfg {
    Cfg(0, seq(n, _ => 0), map[])
  }

  ghost predicate Succeeds(c: Cfg, ch: Change) {
    match ch
    case Joining(servers) => CanJoin(c.groups, servers)
    case Leaving(gids) => CanLeave(c.groups, gids)
  }

  function NextGroups(gr: Groups, ch: Change): Groups {
    match ch
    case Joining(servers) => gr + servers
    case Leaving(gids) => gr - SetOf(gids)
  }

  ghost function Apply(c: Cfg, ch: Change): Cfg {
    var gr := NextGroups(c.groups, ch);
    Cfg(c.num + 1, Rebalanced(c.shards, gr.Keys), gr)
  }

  ghost predicate AllSucceed(c: Cfg, chs: seq<Change>)
    decreases |chs|
  {
    chs == [] || (Succeeds(c, chs[0]) && AllSucceed(Apply(c, chs[0]), chs[1..]))
  }

  ghost function ApplyAll(c: Cfg, chs: seq<Change>): Cfg
    decreases |chs|
  {
    if chs == [] then c else ApplyAll(Apply(c, chs[0]), chs[1..])
  }

  ghost predicate Partly(gr: Groups, ch: Change, gr': Groups) {
    match ch
    case Joining(servers) => PartlyJoined(gr, servers, gr')
    case Leaving(gids) => PartlyLeft(gr, gids, gr')
  }

  /** One call: it goes through, or it stops with part of its groups changed and nothing else. */
  ghost predicate Called(c: Cfg, ch: Change, c': Cfg) {
    if Succeeds(c, ch) then c' == Apply(c, ch)
    else c'.num == c.num && c'.shards == c.shards && Partly(c.groups, ch, c'.groups)
  }

  /** The object's operations are these calls. */
  method Perform(cfg: Config, ch: Change) returns (out: Outcome)
    requires cfg.Valid()
    modifies cfg, cfg.shards
    ensures cfg.Valid() && cfg.shards == old(cfg.shards)
    ensures out.Changed? <==> Succeeds(old(Cfg(cfg.num, cfg.shards[..], cfg.groups)), ch)
    ensures Called(old(Cfg(cfg.num, cfg.shards[..], cfg.groups)), ch, Cfg(cfg.num, cfg.shards[..], cfg.groups))
  {
    match ch
    case Joining(servers) => out := cfg.JoinBalance(servers);
    case Leaving(gids) => out := cfg.LeaveBalance(gids);
  }

  /** What CheckConfig demands of the groups in force. */
  ghost predicate Sound(c: Cfg) {
    && (c.groups != map[] ==> AllMembers(c.shards, c.groups.Keys))
    && Balanced(c.shards, c.groups.Keys)
    && DisjointServers(c.groups)
  }

  lemma ApplySound(c: Cfg, ch: Change)
    requires Sound(c) && Succeeds(c, ch)
    ensures Sound(Apply(c, ch)) && |Apply(c, ch).shards| == |c.shards|
  {
    var gr := NextGroups(c.groups, ch);
    RebalancedIsBalanced(c.shards, gr.Keys);
    if gr != map[] {
      assert gr.Keys != {};
    }
  }

  lemma {:induction false} RunsSound(c: Cfg, chs: seq<Change>)
    requires Sound(c) && AllSucceed(c, chs)
    ensures Sound(ApplyAll(c, chs))
    ensures ApplyAll(c, chs).num == c.num + |chs| && |ApplyAll(c, chs).shards| == |c.shards|
    decreases |chs|
  {
    if chs != [] {
      ApplySound(c, chs[0]);
      RunsSound(Apply(c, chs[0]), chs[1..]);
    }
  }

  /** With at most as many groups as shards, every group of a balanced assignment owns a shard. */
  lemma EveryGroupServes(s: seq<int>, G: set<int>, g: int)
    requires AllMembers(s, G) && Balanced(s, G) && |G| <= |s| && g in G
    ensures Load(s, g) > 0
  {
    if Load(s, g) == 0 {
      var gs := Enumerate(G);
      SizeOf(gs);
      assert forall i :: 0 <= i < |s| ==> s[i] in SetOf(gs);
      LoadsCoverShards(gs, s);
      forall h | h in gs ensures Load(s, h) <= 1 {
        assert h in SetOf(gs);
      }
      assert g in SetOf(gs);
      FewLoads(gs, s, g);
    }
  }

  lemma {:induction false} SizeOf(gs: seq<int>)
    requires Distinct(gs)
    ensures |SetOf(gs)| == |gs|
  {
    if gs != [] {
      SizeOf(gs[1..]);
      assert SetOf(gs) == {gs[0]} + SetOf(gs[1..]);
      assert gs[0] !in SetOf(gs[1..]);
    }
  }

  lemma {:induction false} FewLoads(gs: seq<int>, s: seq<int>, g: int)
    requires forall h :: h in gs ==> Load(s, h) <= 1
    ensures SumLoad(gs, s) <= |gs|
    ensures g in gs && Load(s, g) == 0 ==> SumLoad(gs, s) < |gs|
    decreases |gs|
  {
    if gs != [] {
      assert gs[0] in gs;
      FewLoads(gs[1..], s, g);
      if g in gs && Load(s, g) == 0 {
        assert g == gs[0] || g in gs[1..];
      }
    }
  }

  ghost predicate MembersAreGroups(c: Cfg, n: nat) {
    1 <= |c.groups| <= n ==> forall g :: Load(c.shards, g) > 0 <==> g in c.groups
  }

  lemma SoundMembers(c: Cfg, n: nat)
    requires Sound(c) && |c.shards| == n
    ensures MembersAreGroups(c, n)
  {
    if 1 <= |c.groups| <= n {
      forall g ensures Load(c.shards, g) > 0 <==> g in c.groups {
        LoadPositive(c.shards, g);
        if g in c.groups {
          EveryGroupServes(c.shards, c.groups.Keys, g);
        }
      }
    }
  }

  /**
   After any successful joins and leaves from an empty configuration of n shards: num counts them,
   groups share no server, the check passes, and with 1 to n groups a gid is a member exactly when it
   is a group in force.
   */
  lemma EveryConfigSound(n: nat, chs: seq<Change>)
    requires AllSucceed(Fresh(n), chs)
    ensures var c := ApplyAll(Fresh(n), chs);
            c.num == |chs| && |c.shards| == n && Sound(c) && MembersAreGroups(c, n)
  {
    RunsSound(Fresh(n), chs);
    SoundMembers(ApplyAll(Fresh(n), chs), n);
  }

  // ----- Calls that fail, too

  lemma JoinedStaysDisjoint(gr: Groups, servers: Groups, rest: set<int>)
    requires DisjointServers(gr) && JoinedCleanly(gr, servers, rest)
    ensures DisjointServers(Joined(gr, servers, rest))
  {
  }

  lemma CallKeepsDisjoint(c: Cfg, ch: Change, c': Cfg)
    requires Called(c, ch, c') && DisjointServers(c.groups)
    ensures DisjointServers(c'.groups)
  {
    if !Succeeds(c, ch) && ch.Joining? {
      var rest: set<int> :| rest <= ch.servers.Keys && c'.groups == Joined(c.groups, ch.servers, rest) &&
                            JoinedCleanly(c.groups, ch.servers, rest);
      JoinedStaysDisjoint(c.groups, ch.servers, rest);
    }
  }

  /** Whatever failed calls left behind, a success makes the configuration sound again. */
  lemma SuccessRestores(c: Cfg, ch: Change)
    requires DisjointServers(c.groups) && Succeeds(c, ch)
    ensures Sound(Apply(c, ch))
  {
    var gr := NextGroups(c.groups, ch);
    RebalancedIsBalanced(c.shards, gr.Keys);
  }

  /** cfgs[k] is the configuration before call k. */
  ghost predicate IsHistory(n: nat, chs: seq<Change>, cfgs: seq<Cfg>) {
    && |cfgs| == |chs| + 1 && cfgs[0] == Fresh(n)
    && forall k :: 0 <= k < |chs| ==> Called(cfgs[k], chs[k], cfgs[k + 1])
  }

  /** How many of the first k calls went through. */
  ghost function Successes(chs: seq<Change>, cfgs: seq<Cfg>, k: nat): nat
    requires k <= |chs| < |cfgs|
  {
    if k == 0 then 0
    else Successes(chs, cfgs, k - 1) + if Succeeds(cfgs[k - 1], chs[k - 1]) then 1 else 0
  }

  lemma {:induction false} HistoryKeeps(n: nat, chs: seq<Change>, cfgs: seq<Cfg>, k: nat)
    requires IsHistory(n, chs, cfgs) && k <= |chs|
    ensures cfgs[k].num == Successes(chs, cfgs, k) && |cfgs[k].shards| == n && DisjointServers(cfgs[k].groups)
  {
    if k > 0 {
      var m := k - 1;
      HistoryKeeps(n, chs, cfgs, m);
      assert Called(cfgs[m], chs[m], cfgs[m + 1]);
      CallKeepsDisjoint(cfgs[m], chs[m], cfgs[k]);
    }
  }

  /**
   Over any joins and leaves, refused and fatal ones included: num counts the successes, groups never share
   a server, and after each success the check's conditions hold, with members exactly the groups in force
   when there are 1 to n of them.
   */
  lemma EveryCallKeepsSound(n: nat, chs: seq<Change>, cfgs: seq<Cfg>, k: nat)
    requires IsHistory(n, chs, cfgs) && k <= |chs|
    ensures cfgs[k].num == Successes(chs, cfgs, k) && DisjointServers(cfgs[k].groups)
    ensures k > 0 && Succeeds(cfgs[k - 1], chs[k - 1]) ==> Sound(cfgs[k]) && MembersAreGroups(cfgs[k], n)
  {
    HistoryKeeps(n, chs, cfgs, k);
    if k > 0 && Succeeds(cfgs[k - 1], chs[k - 1]) {
      var m := k - 1;
      HistoryKeeps(n, chs, cfgs, m);
      assert Called(cfgs[m], chs[m], cfgs[m + 1]);
      SuccessRestores(cfgs[m], chs[m]);
      SoundMembers(cfgs[k], n);
    }
  }
}
