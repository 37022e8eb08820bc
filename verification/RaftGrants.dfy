/** Whom votes are granted to: exactly to candidates whose last log entry no voter's is ahead of. */
module RaftGrants {
  import opened RaftPeer
  import opened RaftVotes
  import Leaders = RaftLeaders

  /** Peer v's last entry is not above peer c's, in term and in index. */
  predicate NotAbove(logs: seq<(int, int)>, v: nat, c: nat) {
    v < |logs| && c < |logs| && logs[v].0 <= logs[c].0 && logs[v].1 <= logs[c].1
  }

  /** Logs do not change, requests carry their candidate's last entry, and votes for others respect it. */
  ghost predicate LogInv(s: Cluster, logs: seq<(int, int)>) {
    && |s.peers| == |logs|
    && (forall i :: 0 <= i < |logs| ==> s.peers[i].lastTerm == logs[i].0 && s.peers[i].lastIndex == logs[i].1)
    && (forall m :: m in s.net && m.VoteRequest? ==>
          m.args.candidate < |logs| && m.args.lastTerm == logs[m.args.candidate].0 &&
          m.args.lastIndex == logs[m.args.candidate].1)
    && (forall v :: v in s.votes && v.voter != v.candidate ==> NotAbove(logs, v.voter, v.candidate))
  }

  lemma StepKeepsLogs(s: Cluster, step: Step, logs: seq<(int, int)>)
    requires LogInv(s, logs) && Enabled(s, step)
    ensures LogInv(Do(s, step), logs)
  {
  }

  lemma {:induction false} RunKeepsLogs(s: Cluster, run: seq<Step>, logs: seq<(int, int)>)
    requires LogInv(s, logs) && Possible(s, run)
    ensures LogInv(After(s, run), logs)
    decreases |run|
  {
    if run != [] {
      StepKeepsLogs(s, run[0], logs);
      RunKeepsLogs(Do(s, run[0]), run[1..], logs);
    }
  }

  /** Over every run, a vote for another peer was cast by one whose last entry is not above the candidate's. */
  lemma VotesRespectLogs(logs: seq<(int, int)>, run: seq<Step>, v: Vote)
    requires Possible(Start(logs), run) && v in After(Start(logs), run).votes && v.voter != v.candidate
    ensures NotAbove(logs, v.voter, v.candidate)
  {
    RunKeepsLogs(Start(logs), run, logs);
  }

  // ----- Such a candidate can get every vote

  /** Peer c asks in term 1; the peers below j have granted their votes, the others are as they started. */
  ghost predicate Asking(s: Cluster, logs: seq<(int, int)>, c: nat, j: nat) {
    && |s.peers| == |logs| && c < |logs|
    && (forall i: nat :: i < |logs| && i != c ==> VoteRequest(i, VoteArgs(1, c, logs[c].0, logs[c].1)) in s.net)
    && (forall i: nat :: j <= i < |logs| && i != c ==>
          s.peers[i].term == 0 && s.peers[i].lastTerm == logs[i].0 && s.peers[i].lastIndex == logs[i].1)
    && (forall i: nat :: i < j && i < |logs| && i != c ==> VoteAnswer(c, i, VoteReply(1, true)) in s.net)
  }

  lemma StandsAndAsks(logs: seq<(int, int)>, c: nat) returns (run: seq<Step>)
    requires c < |logs|
    ensures Possible(Start(logs), run) && Asking(After(Start(logs), run), logs, c, 0)
  {
    var s := Start(logs);
    Leaders.RunTwo(s, Stand(c), Broadcast(c));
    run := [Stand(c), Broadcast(c)];
    var a := Do(s, Stand(c));
    var z := Do(a, Broadcast(c));
    forall i: nat | i < |logs| && i != c ensures VoteRequest(i, VoteArgs(1, c, logs[c].0, logs[c].1)) in z.net {
      assert VoteRequest(i, VoteArgs(1, c, logs[c].0, logs[c].1)) in RequestsOf(a, c);
    }
  }

  lemma GrantsNext(s: Cluster, logs: seq<(int, int)>, c: nat, j: nat) returns (run: seq<Step>)
    requires Asking(s, logs, c, j) && j < |logs| && (j != c ==> NotAbove(logs, j, c))
    ensures Possible(s, run) && Asking(After(s, run), logs, c, j + 1)
  {
    if j == c {
      run := [];
    } else {
      var m := VoteRequest(j, VoteArgs(1, c, logs[c].0, logs[c].1));
      assert m in s.net;
      Leaders.RunOne(s, Receive(m));
      run := [Receive(m)];
      var z := Do(s, Receive(m));
      assert z.net == s.net + {VoteAnswer(c, j, VoteReply(1, true))};
    }
  }

  lemma {:induction false} GrantsUpTo(logs: seq<(int, int)>, c: nat, j: nat) returns (run: seq<Step>)
    requires c < |logs| && j <= |logs| && forall v: nat :: v < |logs| && v != c ==> NotAbove(logs, v, c)
    ensures Possible(Start(logs), run) && Asking(After(Start(logs), run), logs, c, j)
  {
    if j == 0 {
      run := StandsAndAsks(logs, c);
    } else {
      var first := GrantsUpTo(logs, c, j - 1);
      var next := GrantsNext(After(Start(logs), first), logs, c, j - 1);
      Leaders.RunConcat(Start(logs), first, next);
      run := first + next;
    }
  }

  /** Every other peer has granted c its vote of the term. */
  ghost predicate AllGrantIn(s: Cluster, c: nat, term: int) {
    forall v: nat :: v < |s.peers| && v != c ==> v in GrantsTo(s, c, term)
  }

  ghost predicate AllGrant(s: Cluster, c: nat) {
    exists term :: AllGrantIn(s, c, term)
  }

  /** The run is possible from these logs and ends with every other peer's vote granted to c. */
  ghost predicate Wins(logs: seq<(int, int)>, c: nat, run: seq<Step>) {
    Possible(Start(logs), run) && AllGrant(After(Start(logs), run), c)
  }

  lemma GrantedToAll(s: Cluster, logs: seq<(int, int)>, c: nat)
    requires Asking(s, logs, c, |logs|)
    ensures AllGrant(s, c)
  {
    forall v: nat | v < |s.peers| && v != c ensures v in GrantsTo(s, c, 1) {
      assert VoteAnswer(c, v, VoteReply(1, true)) in s.net;
    }
    assert AllGrantIn(s, c, 1);
  }

  lemma GrantedNotAbove(logs: seq<(int, int)>, c: nat, run: seq<Step>, v: nat)
    requires Wins(logs, c, run) && v < |logs| && v != c
    ensures NotAbove(logs, v, c)
  {
    var s := After(Start(logs), run);
    RunKeepsInv(Start(logs), run);
    RunKeepsLogs(Start(logs), run, logs);
    var term :| AllGrantIn(s, c, term);
    assert v in GrantsTo(s, c, term);
    VotesRespectLogs(logs, run, Vote(v, term, c));
  }

  /**
   From any logs: some run grants a peer the votes of all others if and only if no other peer's last entry
   is above its own, in term or in index.
   */
  lemma WinsIffNotBehind(logs: seq<(int, int)>, c: nat)
    requires c < |logs|
    ensures (exists run :: Wins(logs, c, run)) <==> forall v: nat :: v < |logs| && v != c ==> NotAbove(logs, v, c)
  {
    if forall v: nat :: v < |logs| && v != c ==> NotAbove(logs, v, c) {
      var run := GrantsUpTo(logs, c, |logs|);
      GrantedToAll(After(Start(logs), run), logs, c);
      assert Wins(logs, c, run);
    }
    if run :| Wins(logs, c, run) {
      forall v: nat | v < |logs| && v != c ensures NotAbove(logs, v, c) {
        GrantedNotAbove(logs, c, run, v);
      }
    }
  }

  // ----- What a change of term means

  /** A peer enters a new term by standing for it, as a candidate, or by hearing of it, as a follower. */
  lemma NewTermMeans(s: Cluster, step: Step, i: nat)
    requires Enabled(s, step) && i < |s.peers| && i < |Do(s, step).peers|
    requires Do(s, step).peers[i].term != s.peers[i].term
    ensures var p, q := s.peers[i], Do(s, step).peers[i];
            if step == Stand(i) then q.term == p.term + 1 && q.role == Candidate && q.votedFor == p.me
            else q.term > p.term && q.role == Follower && q.votesReceived == p.votesReceived
  {
  }
}
