/**
 Vote safety over whole runs: any number of peers, messages delayed, lost, reordered or delivered again,
 elections started at any time. Peers do not restart.
 */
module RaftVotes {
  import opened RaftPeer

  datatype Msg =
    | VoteRequest(to: nat, args: VoteArgs)
    | VoteAnswer(to: nat, from: nat, reply: VoteReply)
    | Heartbeat(to: nat, term: int)

  datatype Vote = Vote(voter: nat, term: int, candidate: nat)

  /** waiting: peers that have started an election but not yet sent their requests. votes: all votes ever cast. */
  datatype Cluster = Cluster(peers: seq<Peer>, waiting: set<nat>, net: set<Msg>, votes: set<Vote>)

  datatype Step =
    | Stand(i: nat)
    | Broadcast(i: nat)
    | Beat(i: nat)
    | Receive(m: Msg)

  /** One peer per log; of a log only the term and index of its last entry matter. */
  function Start(logs: seq<(int, int)>): Cluster {
    Cluster(seq(|logs|, i requires 0 <= i < |logs| => Peer(i, |logs|, 0, Follower, NONE, 0, logs[i].0,
        logs[i].1)), {}, {}, {})
  }

  predicate Enabled(s: Cluster, step: Step) {
    match step
    case Stand(i) => i < |s.peers| && i !in s.waiting
    case Broadcast(i) => i < |s.peers| && i in s.waiting
    case Beat(i) => i < |s.peers|
    case Receive(m) => m in s.net && m.to < |s.peers|
  }

  /** The request is built from the term the peer has when it sends, which may be later than the one it stood in. */
  function RequestsOf(s: Cluster, i: nat): set<Msg>
    requires i < |s.peers|
  {
    var p := s.peers[i];
    set j: nat | j < |s.peers| && j != i :: VoteRequest(j, VoteArgs(p.term, i, p.lastTerm, p.lastIndex))
  }

  /** The ticker looks at its role before it reads its term, so the sender may have stopped leading by now. */
  function HeartbeatsOf(s: Cluster, i: nat): set<Msg>
    requires i < |s.peers|
  {
    set j: nat | j < |s.peers| && j != i :: Heartbeat(j, s.peers[i].term)
  }

  function Do(s: Cluster, step: Step): Cluster
    requires Enabled(s, step)
  {
    match step
    case Stand(i) =>
      var p := Standing(s.peers[i]);
      s.(peers := s.peers[i := p], waiting := s.waiting + {i}, votes := s.votes + {Vote(i, p.term, i)})
    case Broadcast(i) => s.(waiting := s.waiting - {i}, net := s.net + RequestsOf(s, i))
    case Beat(i) => s.(net := s.net + HeartbeatsOf(s, i))
    case Receive(VoteRequest(to, a)) =>
      var p := s.peers[to];
      var p' := AfterVoteRequest(p, a);
      var granted := WouldGrant(p, a);
      s.(peers := s.peers[to := p'],
         net := s.net + {VoteAnswer(a.candidate, to, VoteReply(p'.term, granted))},
         votes := if granted then s.votes + {Vote(to, p'.term, a.candidate)} else s.votes)
    case Receive(VoteAnswer(to, _, r)) => s.(peers := s.peers[to := AfterVoteReply(s.peers[to], r)])
    case Receive(Heartbeat(to, term)) => s.(peers := s.peers[to := Raised(s.peers[to], term)])
  }

  predicate Possible(s: Cluster, run: seq<Step>)
    decreases |run|
  {
    run == [] || (Enabled(s, run[0]) && Possible(Do(s, run[0]), run[1..]))
  }

  function After(s: Cluster, run: seq<Step>): Cluster
    requires Possible(s, run)
    decreases |run|
  {
    if run == [] then s else After(Do(s, run[0]), run[1..])
  }

  /** One vote per voter and term; the current vote is the recorded one; every granted answer was a vote. */
  ghost predicate Inv(s: Cluster) {
    && (forall i :: 0 <= i < |s.peers| ==> s.peers[i].me == i)
    && (forall v :: v in s.votes ==>
          && v.voter < |s.peers| && v.term <= s.peers[v.voter].term
          && (v.term == s.peers[v.voter].term ==> v.candidate == s.peers[v.voter].votedFor))
    && (forall v, w :: v in s.votes && w in s.votes && v.voter == w.voter && v.term == w.term ==> v == w)
    && (forall m :: m in s.net && m.VoteAnswer? && m.reply.granted ==> Vote(m.from, m.reply.term, m.to) in s.votes)
  }

  /** A vote request is granted only in a term the voter has not seen, so it meets no earlier vote. */
  lemma VoteRequestKeepsInv(s: Cluster, m: Msg)
    requires Inv(s) && Enabled(s, Receive(m)) && m.VoteRequest?
    ensures Inv(Do(s, Receive(m)))
  {
  }

  lemma StandKeepsInv(s: Cluster, i: nat)
    requires Inv(s) && Enabled(s, Stand(i))
    ensures Inv(Do(s, Stand(i)))
  {
  }

  lemma StepKeepsInv(s: Cluster, step: Step)
    requires Inv(s) && Enabled(s, step)
    ensures Inv(Do(s, step))
  {
    match step
    case Stand(i) => StandKeepsInv(s, i);
    case Receive(VoteRequest(_, _)) => VoteRequestKeepsInv(s, step.m);
    case _ =>
  }

  /** Terms never decrease and votes are never withdrawn. */
  ghost predicate NotBefore(s: Cluster, z: Cluster) {
    && |s.peers| == |z.peers| && s.votes <= z.votes
    && forall i :: 0 <= i < |s.peers| ==> s.peers[i].term <= z.peers[i].term
  }

  lemma {:induction false} RunKeepsInv(s: Cluster, run: seq<Step>)
    requires Inv(s) && Possible(s, run)
    ensures Inv(After(s, run)) && NotBefore(s, After(s, run))
    decreases |run|
  {
    if run != [] {
      StepKeepsInv(s, run[0]);
      RunKeepsInv(Do(s, run[0]), run[1..]);
    }
  }

  /** The peers that voted for candidate c in a term. */
  function Supporters(s: Cluster, c: nat, term: int): set<nat> {
    set v | v in s.votes && v.term == term && v.candidate == c :: v.voter
  }

  /** The peers whose granted answer to c's request of a term is on the network. */
  function GrantsTo(s: Cluster, c: nat, term: int): set<nat> {
    set m | m in s.net && m.VoteAnswer? && m.to == c && m.reply == VoteReply(term, true) :: m.from
  }

  lemma {:induction false} RangeSize(a: set<nat>, n: nat)
    requires forall x :: x in a ==> x < n
    ensures |a| <= n
  {
    if n == 0 {
      assert a == {} by {
        assert forall x :: x !in a;
      }
    } else {
      RangeSize(a - {n - 1}, n - 1);
      assert a <= (a - {n - 1}) + {n - 1};
      SizeBound(a, a - {n - 1}, n - 1);
    }
  }

  lemma SizeBound(a: set<nat>, b: set<nat>, x: nat)
    requires b == a - {x}
    ensures |a| <= |b| + 1
  {
    if x in a {
      assert a == b + {x};
    } else {
      assert a == b;
    }
  }

  lemma QuorumsMeet(a: set<nat>, b: set<nat>, n: nat)
    requires (forall x :: x in a ==> x < n) && (forall x :: x in b ==> x < n)
    requires 2 * |a| > n && 2 * |b| > n
    ensures exists x :: x in a && x in b
  {
    RangeSize(a + b, n);
    assert |a + b| == |a| + |b| - |a * b|;
    var x :| x in a * b;
  }

  lemma OneWinner(s: Cluster, term: int, c: nat, d: nat)
    requires Inv(s) && 2 * |Supporters(s, c, term)| > |s.peers| && 2 * |Supporters(s, d, term)| > |s.peers|
    ensures c == d
  {
    QuorumsMeet(Supporters(s, c, term), Supporters(s, d, term), |s.peers|);
    var x :| x in Supporters(s, c, term) && x in Supporters(s, d, term);
    assert Vote(x, term, c) in s.votes && Vote(x, term, d) in s.votes;
  }

  /**
   Vote safety in every run: no peer votes for two candidates in one term, its own candidacy included;
   every granted answer is such a vote; and two candidates each with the votes of a strict majority in
   the same term are the same peer.
   */
  lemma VoteSafety(logs: seq<(int, int)>, run: seq<Step>)
    requires Possible(Start(logs), run)
    ensures var s := After(Start(logs), run);
            && (forall v, w :: v in s.votes && w in s.votes && v.voter == w.voter && v.term == w.term ==>
                  v.candidate == w.candidate)
            && (forall c, term :: GrantsTo(s, c, term) <= Supporters(s, c, term))
            && (forall c, d, term ::
                  2 * |Supporters(s, c, term)| > |logs| && 2 * |Supporters(s, d, term)| > |logs| ==> c == d)
  {
    RunKeepsInv(Start(logs), run);
    var s := After(Start(logs), run);
    forall c, term ensures GrantsTo(s, c, term) <= Supporters(s, c, term) {
      forall x | x in GrantsTo(s, c, term) ensures x in Supporters(s, c, term) {
        assert Vote(x, term, c) in s.votes;
      }
    }
    forall c, d, term | 2 * |Supporters(s, c, term)| > |logs| && 2 * |Supporters(s, d, term)| > |logs| ensures c == d {
      OneWinner(s, term, c, d);
    }
  }

  /** Along every run terms never decrease and votes once cast stay cast. */
  lemma TermsNeverDecrease(logs: seq<(int, int)>, run: seq<Step>, more: seq<Step>)
    requires Possible(Start(logs), run) && Possible(After(Start(logs), run), more)
    ensures NotBefore(After(Start(logs), run), After(After(Start(logs), run), more))
  {
    RunKeepsInv(Start(logs), run);
    RunKeepsInv(After(Start(logs), run), more);
  }
}
