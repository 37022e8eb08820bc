/** The election handlers of one Raft peer, as they change its fields. */
module RaftPeer {

  datatype Role = Follower | Candidate | Leader

  /** NONE is the original's -1: no vote in this term. */
  const NONE := -1

  datatype Peer = Peer(me: nat, peers: nat, term: int, role: Role, votedFor: int, votesReceived: nat,
                       lastTerm: int, lastIndex: int)

  datatype VoteArgs = VoteArgs(term: int, candidate: nat, lastTerm: int, lastIndex: int)

  datatype VoteReply = VoteReply(term: int, granted: bool)

  /** A higher term makes a follower that has not voted. */
  function Raised(p: Peer, term: int): Peer {
    if term > p.term then p.(role := Follower, term := term, votedFor := NONE) else p
  }

  /** A vote is given to the first candidate of a new term whose log is not behind on term or index. */
  predicate WouldGrant(p: Peer, a: VoteArgs) {
    a.term > p.term && a.lastTerm >= p.lastTerm && a.lastIndex >= p.lastIndex
  }

  function AfterVoteRequest(p: Peer, a: VoteArgs): Peer {
    if WouldGrant(p, a) then Raised(p, a.term).(votedFor := a.candidate) else Raised(p, a.term)
  }

  function AfterVoteReply(p: Peer, r: VoteReply): Peer {
    if r.term < p.term then p
    else if r.term > p.term then Raised(p, r.term)
    else
      p.(votesReceived := p.votesReceived + 1,
         role := if p.votesReceived + 1 > p.peers / 2 then Leader else p.role)
  }

  function Standing(p: Peer): Peer {
    p.(term := p.term + 1, role := Candidate, votedFor := p.me)
  }

  class Raft {
    const me: nat
    const peers: nat
    var currTerm: int
    var role: Role
    var votedFor: int
    var votesReceived: nat
    var log: seq<(int, int)>

    ghost predicate Valid()
      reads this
    {
      log != []
    }

    /** The peer's state; of the log only the last entry's term and index matter here. */
    ghost function State(): Peer
      requires Valid()
      reads this
    {
      Peer(me, peers, currTerm, role, votedFor, votesReceived, log[|log| - 1].0, log[|log| - 1].1)
    }

    constructor (me: nat, peers: nat)
      ensures Valid() && State() == Peer(me, peers, 0, Follower, NONE, 0, 0, 0)
    {
      this.me := me;
      this.peers := peers;
      currTerm, role, votedFor, votesReceived := 0, Follower, NONE, 0;
      log := [(0, 0)];
    }

    method CheckTerm(term: int) returns (legit: bool)
      requires Valid()
      modifies this
      ensures Valid() && State() == Raised(old(State()), term)
      ensures legit <==> term <= old(currTerm)
      ensures log == old(log) && votesReceived == old(votesReceived)
      ensures !legit ==> currTerm == term && role == Follower && votedFor == NONE
      ensures legit ==> currTerm == old(currTerm) && role == old(role) && votedFor == old(votedFor)
    {
      if term > currTerm {
        role := Follower;
        currTerm := term;
        votedFor := NONE;
        return false;
      }
      return true;
    }

    method RequestVote(a: VoteArgs) returns (reply: VoteReply)
      requires Valid()
      modifies this
      ensures Valid() && State() == AfterVoteRequest(old(State()), a)
      ensures reply.term == currTerm && log == old(log) && votesReceived == old(votesReceived)
      ensures reply.granted <==>
              a.term > old(currTerm) && a.lastTerm >= log[|log| - 1].0 && a.lastIndex >= log[|log| - 1].1
      ensures a.term > old(currTerm) ==>
                currTerm == a.term && role == Follower && votedFor == if reply.granted then a.candidate else NONE
      ensures a.term <= old(currTerm) ==>
                currTerm == old(currTerm) && role == old(role) && votedFor == old(votedFor)
    {
      var legit := CheckTerm(a.term);
      if legit {
        return VoteReply(currTerm, false);
      }
      if a.lastTerm < log[|log| - 1].0 {
        return VoteReply(currTerm, false);
      }
      if a.lastIndex < log[|log| - 1].1 {
        return VoteReply(currTerm, false);
      }
      reply := VoteReply(0, false);
      if votedFor == NONE {
        reply := VoteReply(currTerm, true);
        votedFor := a.candidate;
      }
    }

    method AppendEntries(term: int) returns (replyTerm: int, success: bool)
      requires Valid()
      modifies this
      ensures Valid() && State() == Raised(old(State()), term)
      ensures success <==> term > old(currTerm)
      ensures replyTerm == currTerm && currTerm == if success then term else old(currTerm)
      ensures success ==> role == Follower && votedFor == NONE
      ensures !success ==> role == old(role) && votedFor == old(votedFor)
    {
      var legit := CheckTerm(term);
      return currTerm, !legit;
    }

    method PreElection()
      requires Valid()
      modifies this
      ensures Valid() && State() == Standing(old(State()))
      ensures currTerm == old(currTerm) + 1 && role == Candidate && votedFor == me
    {
      currTerm := currTerm + 1;
      role := Candidate;
      votedFor := me;
    }

    /** What sendRequestVote does with a reply that arrived; it does not look at whether the vote was granted. */
    method ReceiveVoteReply(reply: VoteReply)
      requires Valid()
      modifies this
      ensures Valid() && State() == AfterVoteReply(old(State()), reply)
      ensures reply.term > old(currTerm) ==> currTerm == reply.term && role == Follower && votedFor == NONE
      ensures reply.term <= old(currTerm) ==> currTerm == old(currTerm) && votedFor == old(votedFor)
      ensures votesReceived == old(votesReceived) + if reply.term == old(currTerm) then 1 else 0
      ensures reply.term == old(currTerm) ==> role == if votesReceived > peers / 2 then Leader else old(role)
      ensures reply.term < old(currTerm) ==> role == old(role)
    {
      if reply.term < currTerm {
        return;
      }
      var legit := CheckTerm(reply.term);
      if !legit {
        return;
      }
      votesReceived := votesReceived + 1;
      if votesReceived > peers / 2 {
        role := Leader;
      }
    }
  }
}
