/** Exactly when the role Leader can be held twice in one term: in every cluster of at least two peers. */
module RaftLeaders {
  import opened RaftPeer
  import opened RaftVotes

  lemma Unshift(run: seq<Step>, more: seq<Step>)
    requires run != []
    ensures (run + more)[0] == run[0] && (run + more)[1..] == run[1..] + more
  {
  }

  lemma {:induction false} RunConcat(s: Cluster, run: seq<Step>, more: seq<Step>)
    requires Possible(s, run) && Possible(After(s, run), more)
    ensures Possible(s, run + more) && After(s, run + more) == After(After(s, run), more)
    decreases |run|
  {
    if run == [] {
      assert run + more == more;
    } else {
      Unshift(run, more);
      RunConcat(Do(s, run[0]), run[1..], more);
    }
  }

  lemma RunOne(s: Cluster, a: Step)
    requires Enabled(s, a)
    ensures Possible(s, [a]) && After(s, [a]) == Do(s, a)
  {
    var s1 := Do(s, a);
    assert [a][1..] == [];
    assert Possible(s1, []) && After(s1, []) == s1;
  }

  lemma RunTwo(s: Cluster, a: Step, b: Step)
    requires Enabled(s, a) && Enabled(Do(s, a), b)
    ensures Possible(s, [a, b]) && After(s, [a, b]) == Do(Do(s, a), b)
  {
    var s1, s2 := Do(s, a), Do(Do(s, a), b);
    assert [b][1..] == [];
    assert Possible(s2, []) && After(s2, []) == s2;
    assert Possible(s1, [b]) && After(s1, [b]) == s2;
    assert [a, b][1..] == [b];
  }

  /** Peer i is in this term, has counted so many replies and has this role. */
  predicate Is(s: Cluster, i: nat, term: int, count: nat, role: Role) {
    i < |s.peers| && s.peers[i].me == i && s.peers[i].peers == |s.peers| &&
    s.peers[i].term == term && s.peers[i].votesReceived == count && s.peers[i].role == role
  }

  /** The role of a candidate that has counted so many replies. */
  function RoleAt(n: nat, count: nat): Role {
    if count == 0 then Follower else if count > n / 2 then Leader else Candidate
  }

  /** Peers 0 and 1 have gone through k elections and each counted one reply in each. */
  predicate Level(s: Cluster, k: nat) {
    Is(s, 0, k, k, RoleAt(|s.peers|, k)) && Is(s, 1, k, k, RoleAt(|s.peers|, k)) && 0 !in s.waiting && 1 !in s.waiting
  }

  function RequestTo(s: Cluster, to: nat, from: nat): Msg
    requires from < |s.peers|
  {
    VoteRequest(to, VoteArgs(s.peers[from].term, from, s.peers[from].lastTerm, s.peers[from].lastIndex))
  }

  lemma BothStand(s: Cluster, k: nat) returns (run: seq<Step>)
    requires Level(s, k)
    ensures Possible(s, run)
    ensures var z := After(s, run);
            && |z.peers| == |s.peers| && Is(z, 0, k + 1, k, Candidate) && Is(z, 1, k + 1, k, Candidate)
            && z.waiting == s.waiting + {0, 1}
  {
    RunTwo(s, Stand(0), Stand(1));
    run := [Stand(0), Stand(1)];
  }

  lemma BothAsk(s: Cluster, k: nat, waiting: set<nat>) returns (run: seq<Step>)
    requires Is(s, 0, k + 1, k, Candidate) && Is(s, 1, k + 1, k, Candidate)
    requires s.waiting == waiting + {0, 1} && 0 !in waiting && 1 !in waiting
    ensures Possible(s, run)
    ensures var z := After(s, run);
            z.peers == s.peers && z.waiting == waiting && RequestTo(s, 1, 0) in z.net && RequestTo(s, 0, 1) in z.net
  {
    RunTwo(s, Broadcast(0), Broadcast(1));
    run := [Broadcast(0), Broadcast(1)];
  }

  /** Each refuses the other, being in the same term. */
  lemma BothRefuse(s: Cluster, k: nat) returns (run: seq<Step>)
    requires Is(s, 0, k + 1, k, Candidate) && Is(s, 1, k + 1, k, Candidate)
    requires RequestTo(s, 1, 0) in s.net && RequestTo(s, 0, 1) in s.net
    ensures Possible(s, run)
    ensures var z := After(s, run);
            && z.peers == s.peers && z.waiting == s.waiting
            && VoteAnswer(0, 1, VoteReply(k + 1, false)) in z.net && VoteAnswer(1, 0, VoteReply(k + 1, false)) in z.net
  {
    var a, b := Receive(RequestTo(s, 1, 0)), Receive(RequestTo(s, 0, 1));
    assert Do(s, a).peers == s.peers;
    RunTwo(s, a, b);
    run := [a, b];
  }

  /** Each counts the other's refusal. */
  lemma BothCount(s: Cluster, k: nat) returns (run: seq<Step>)
    requires Is(s, 0, k + 1, k, Candidate) && Is(s, 1, k + 1, k, Candidate) && 0 !in s.waiting && 1 !in s.waiting
    requires VoteAnswer(0, 1, VoteReply(k + 1, false)) in s.net && VoteAnswer(1, 0, VoteReply(k + 1, false)) in s.net
    ensures Possible(s, run) && |After(s, run).peers| == |s.peers| && Level(After(s, run), k + 1)
  {
    var a, b := Receive(VoteAnswer(0, 1, VoteReply(k + 1, false))), Receive(VoteAnswer(1, 0, VoteReply(k + 1, false)));
    RunTwo(s, a, b);
    run := [a, b];
  }

  lemma Election(s: Cluster, k: nat) returns (run: seq<Step>)
    requires Level(s, k)
    ensures Possible(s, run) && |After(s, run).peers| == |s.peers| && Level(After(s, run), k + 1)
  {
    var stand := BothStand(s, k);
    var a := After(s, stand);
    var ask := BothAsk(a, k, s.waiting);
    var b := After(a, ask);
    var refuse := BothRefuse(b, k);
    var c := After(b, refuse);
    var count := BothCount(c, k);
    RunConcat(b, refuse, count);
    RunConcat(a, ask, refuse + count);
    RunConcat(s, stand, ask + (refuse + count));
    run := stand + (ask + (refuse + count));
  }

  lemma {:induction false} Elections(s: Cluster, k: nat) returns (run: seq<Step>)
    requires Level(s, 0)
    ensures Possible(s, run) && |After(s, run).peers| == |s.peers| && Level(After(s, run), k)
  {
    if k == 0 {
      run := [];
    } else {
      var first := Elections(s, k - 1);
      var next := Election(After(s, first), k - 1);
      RunConcat(s, first, next);
      run := first + next;
    }
  }

  /** Two different peers are in role Leader of one term. */
  ghost predicate TwoLeaders(s: Cluster) {
    exists i, j :: 0 <= i < j < |s.peers| && s.peers[i].role == Leader && s.peers[j].role == Leader &&
                   s.peers[i].term == s.peers[j].term
  }

  /** Refused by each other, peers 0 and 1 both end as leaders. */
  lemma RefusalsElect(logs: seq<(int, int)>) returns (run: seq<Step>)
    requires |logs| >= 2
    ensures Possible(Start(logs), run) && TwoLeaders(After(Start(logs), run))
  {
    var s, k := Start(logs), |logs| / 2 + 1;
    run := Elections(s, k);
    var z := After(s, run);
    assert z.peers[0].role == Leader && z.peers[1].role == Leader && z.peers[0].term == z.peers[1].term;
  }

  lemma {:induction false} PeersStay(s: Cluster, run: seq<Step>)
    requires Possible(s, run)
    ensures |After(s, run).peers| == |s.peers|
    decreases |run|
  {
    if run != [] {
      PeersStay(Do(s, run[0]), run[1..]);
    }
  }

  /** The run is possible from these logs and ends with two leaders of one term. */
  ghost predicate Clashes(logs: seq<(int, int)>, run: seq<Step>) {
    Possible(Start(logs), run) && TwoLeaders(After(Start(logs), run))
  }

  /** Whatever the logs, some run has two leaders of one term if and only if there are at least two peers. */
  lemma LeadersClashIffTwoPeers(logs: seq<(int, int)>)
    ensures (exists run :: Clashes(logs, run)) <==> |logs| >= 2
  {
    if |logs| >= 2 {
      var run := RefusalsElect(logs);
      assert Clashes(logs, run);
    } else {
      forall run | Possible(Start(logs), run) ensures !TwoLeaders(After(Start(logs), run)) {
        PeersStay(Start(logs), run);
      }
    }
  }
}
