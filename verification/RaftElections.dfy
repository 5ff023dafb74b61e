/** The election steps keep the invariant. */
module RaftElections {
  import opened Types
  import opened Quorum
  import opened RaftSpec
  import opened RaftCluster
  import opened RaftHistory
  import opened RaftStable
  import opened RaftRecord

  // ---- Elect -----------------------------------------------------------------------------

  lemma ElectEffect(c: Cluster, h: History, p: nat, c': Cluster, h': History)
    requires TallyOk(c, h) && Steps(c, h, EElect(p), c', h')
    requires var u := c.nodes[p].currentTerm + 1; (p, u) !in h.vote && (p, u) !in h.cand
    ensures OthersSame(c, h, c', h', p) && TermsSame(h, h') && NoAck(h, h', p)
    ensures Later(c, h, c', h') && TallyOk(c', h') && NewMsgsOk(c, c', h')
  {
    var u := c.nodes[p].currentTerm + 1;
    LaterVote(c, h, c', h', p, u, p);
  }

  lemma ElectNode(c: Cluster, h: History, p: nat, c': Cluster, h': History)
    requires Steps(c, h, EElect(p), c', h') && Later(c, h, c', h') && NoAck(h, h', p) && NodeOk(c, h, p)
    requires var u := c.nodes[p].currentTerm + 1; u in h.leader ==> h.leader[u] != p
    ensures NodeOk(c', h', p)
  {
    RoleChange(c, h, c', h', p);
  }

  lemma ElectRecords(c: Cluster, h: History, p: nat, c': Cluster, h': History)
    requires Steps(c, h, EElect(p), c', h') && Later(c, h, c', h') && NodeOk(c, h, p) && NodeOk(c', h', p)
    ensures NewCandsOk(h, c', h') && NewVotesOk(h, c', h')
  {
  }

  lemma ElectOk(c: Cluster, h: History, p: nat, c': Cluster, h': History)
    requires Inv(c, h) && Steps(c, h, EElect(p), c', h')
    ensures Inv(c', h') && Later(c, h, c', h')
  {
    var u := c.nodes[p].currentTerm + 1;
    assert p < |c.nodes| && NodeOk(c, h, p) && TallyOk(c, h);
    hide *;
    NoFuture(c, h, p, u);
    ElectEffect(c, h, p, c', h');
    ElectNode(c, h, p, c', h');
    ElectRecords(c, h, p, c', h');
    TermsSameOk(c, h, c', h', p);
    Assemble(c, h, c', h', p);
  }

  // ---- RequestVote -----------------------------------------------------------------------

  /** A log at least as up-to-date as one that has position k of term t has it too, unless it is dead. */
  lemma UpToDateKeeps(c: Cluster, h: History, log: seq<Entry>, own: seq<Entry>, t: int, k: int)
    requires Inv(c, h) && LogOk(h, log) && LogOk(h, own)
    requires UpToDate(RequestVoteArgs(0, 0, |log| - 1, log[|log| - 1].term), own)
    requires OwnEntry(h, t, k) && Agree(own, h.llog[t], k)
    ensures Keeps(c, h, log, t, k)
  {
  }

  /** What the handler does to the node: grant, or at most adopt the newer term. */
  lemma RequestVoteCases(x: Node, va: RequestVoteArgs)
    requires |x.log| > 0
    ensures var (x', vr) := OnRequestVote(x, va);
      if vr.voteGranted then
        && x' == x.(currentTerm := va.term, votedFor := va.candidateId, role := FOLLOWER)
        && va.term >= x.currentTerm && UpToDate(va, x.log)
        && (va.term == x.currentTerm ==> x.votedFor == -1 || x.votedFor == va.candidateId)
      else x' == Observe(x, va.term)
  {
  }

  /** The effect of the step on cluster and history. */
  lemma RequestVoteEffect(c: Cluster, h: History, p: nat, va: RequestVoteArgs, c': Cluster, h': History)
    requires Steps(c, h, ERequestVote(p, va), c', h')
    ensures p < |c.nodes| && c'.nodes == c.nodes[p := OnRequestVote(c.nodes[p], va).0]
    ensures c'.answers == c.answers && c'.tally == c.tally
    ensures h' == if OnRequestVote(c.nodes[p], va).1.voteGranted then h.(vote := h.vote[(p, va.term) := va.candidateId]) else h
  {
  }

  lemma RequestVoteFrame(c: Cluster, h: History, p: nat, va: RequestVoteArgs, c': Cluster, h': History)
    requires Steps(c, h, ERequestVote(p, va), c', h')
    ensures OthersSame(c, h, c', h', p) && TermsSame(h, h') && NoAck(h, h', p) && NewCandsOk(h, c', h')
  {
    hide OnRequestVote, Steps;
    RequestVoteEffect(c, h, p, va, c', h');
  }

  lemma RequestVoteLater(c: Cluster, h: History, p: nat, va: RequestVoteArgs, c': Cluster, h': History)
    requires Steps(c, h, ERequestVote(p, va), c', h')
    requires VotedForOk(h, c.nodes[p], p)
    requires va.term > c.nodes[p].currentTerm ==> (p, va.term) !in h.vote
    ensures Later(c, h, c', h')
  {
    RequestVoteCases(c.nodes[p], va);
    RequestVoteEffect(c, h, p, va, c', h');
    hide OnRequestVote, UpToDate, Later, Steps;
    if OnRequestVote(c.nodes[p], va).1.voteGranted {
      LaterVote(c, h, c', h', p, va.term, va.candidateId);
    } else {
      LaterSame(c, h, c');
    }
  }

  lemma RequestVoteMsg(c: Cluster, h: History, p: nat, va: RequestVoteArgs, c': Cluster, h': History)
    requires Steps(c, h, ERequestVote(p, va), c', h')
    ensures NewMsgsOk(c, c', h')
  {
    hide OnRequestVote;
  }

  lemma RequestVoteNode(c: Cluster, h: History, p: nat, va: RequestVoteArgs, c': Cluster, h': History)
    requires Steps(c, h, ERequestVote(p, va), c', h') && Later(c, h, c', h') && NoAck(h, h', p)
    requires Inv(c, h) && NodeOk(c, h, p)
    ensures NodeOk(c', h', p)
  {
    hide Inv, OnRequestVote, UpToDate, Steps, LogOk;
    RequestVoteEffect(c, h, p, va, c', h');
    LogNonEmpty(h, c.nodes[p].log);
    RequestVoteCases(c.nodes[p], va);
    if OnRequestVote(c.nodes[p], va).1.voteGranted {
      RoleChange(c, h, c', h', p);
    } else {
      hide NodeOk;
      ObserveOk(c, h, c', p, va.term);
    }
  }

  lemma LogNonEmpty(h: History, log: seq<Entry>)
    requires LogOk(h, log)
    ensures |log| > 0
  {
  }

  lemma GrantedVote(c: Cluster, h: History, p: nat, va: RequestVoteArgs, c': Cluster, h': History)
    requires Steps(c, h, ERequestVote(p, va), c', h') && OnRequestVote(c.nodes[p], va).1.voteGranted
    requires Inv(c, h) && NodeOk(c, h, p) && Later(c, h, c', h') && NodeOk(c', h', p)
    requires MsgOk(|c.nodes|, h, VoteRequest(va)) && CandOk(c, h, va.candidateId, va.term)
    ensures VoteOk(c', h', p, va.term)
  {
    hide Inv, OnRequestVote, Steps, LogOk;
    RequestVoteEffect(c, h, p, va, c', h');
    var u, own := va.term, c.nodes[p].log;
    var log := h.cand[(va.candidateId, u)];
    assert |own| > 0 by { LogNonEmpty(h, own); }
    RequestVoteCases(c.nodes[p], va);
    forall t, k | t < u && Acked(h', p, t, k) && OwnEntry(h', t, k)
      ensures Keeps(c', h', log, t, k)
    {
      assert Acked(h, p, t, k) && OwnEntry(h, t, k);
      assert Keeps(c, h, own, t, k);
      if Agree(own, h.llog[t], k) {
        UpToDateKeeps(c, h, log, own, t, k);
      }
      KeepsStable(c, h, c', h', log, log, t, k);
    }
  }

  lemma RequestVoteRecords(c: Cluster, h: History, p: nat, va: RequestVoteArgs, c': Cluster, h': History)
    requires Steps(c, h, ERequestVote(p, va), c', h')
    requires Inv(c, h) && NodeOk(c, h, p) && Later(c, h, c', h') && NodeOk(c', h', p)
    ensures NewVotesOk(h, c', h')
  {
    if OnRequestVote(c.nodes[p], va).1.voteGranted {
      assert MsgOk(|c.nodes|, h, VoteRequest(va)) && CandOk(c, h, va.candidateId, va.term);
      hide Inv, NodeOk, CandOk, VoteOk, Later, UpToDate, Observe;
      GrantedVote(c, h, p, va, c', h');
    }
  }

  lemma RequestVoteOk(c: Cluster, h: History, p: nat, va: RequestVoteArgs, c': Cluster, h': History)
    requires Inv(c, h) && Steps(c, h, ERequestVote(p, va), c', h')
    ensures Inv(c', h') && Later(c, h, c', h')
  {
    assert p < |c.nodes| && NodeOk(c, h, p) && VotedForOk(h, c.nodes[p], p) && TallyOk(c, h);
    hide *;
    if va.term > c.nodes[p].currentTerm {
      NoFuture(c, h, p, va.term);
    }
    RequestVoteFrame(c, h, p, va, c', h');
    RequestVoteLater(c, h, p, va, c', h');
    RequestVoteEffect(c, h, p, va, c', h');
    TallyStable(c, h, c', h');
    RequestVoteMsg(c, h, p, va, c', h');
    RequestVoteNode(c, h, p, va, c', h');
    RequestVoteRecords(c, h, p, va, c', h');
    TermsSameOk(c, h, c', h', p);
    Assemble(c, h, c', h', p);
  }

  // ---- GetVoteAnswer ---------------------------------------------------------------------

  lemma VoteAnswerEffect(c: Cluster, h: History, voter: nat, va: RequestVoteArgs, vr: RequestVoteReply, c': Cluster)
    requires TallyOk(c, h) && MsgOk(|c.nodes|, h, VoteReply(voter, va, vr))
    requires Enabled(c, EVoteAnswer(voter, va, vr)) && c' == Apply(c, EVoteAnswer(voter, va, vr))
    ensures var p := va.candidateId;
      && p < |c.nodes| && OthersSame(c, h, c', h, p) && Later(c, h, c', h)
      && c'.nodes[p] == Observe(c.nodes[p], c'.nodes[p].currentTerm)
    ensures TallyOk(c', h) && NewMsgsOk(c, c', h) && NewCandsOk(h, c', h) && NewVotesOk(h, c', h)
  {
    LaterSame(c, h, c');
  }

  lemma VoteAnswerOk(c: Cluster, h: History, voter: nat, va: RequestVoteArgs, vr: RequestVoteReply, c': Cluster, h': History)
    requires Inv(c, h) && Steps(c, h, EVoteAnswer(voter, va, vr), c', h')
    ensures Inv(c', h') && Later(c, h, c', h')
  {
    var p := va.candidateId;
    assert h' == h && TermsSame(h, h) && TallyOk(c, h) && MsgOk(|c.nodes|, h, VoteReply(voter, va, vr));
    assert Enabled(c, EVoteAnswer(voter, va, vr)) && c' == Apply(c, EVoteAnswer(voter, va, vr));
    hide *;
    VoteAnswerEffect(c, h, voter, va, vr, c');
    ObserveOk(c, h, c', p, c'.nodes[p].currentTerm);
    TermsSameOk(c, h, c', h', p);
    Assemble(c, h, c', h', p);
  }

  // ---- collectVote -----------------------------------------------------------------------

  /** All of q voted for p in this term. */
  ghost predicate VotedFor(c: Cluster, h: History, q: set<int>, p: int, term: int) {
    forall v :: v in q ==> (v, term) in h.vote && h.vote[(v, term)] == p && VoteOk(c, h, v, term)
  }

  /** The counted vote makes the candidate p the leader, with the votes of q. */
  ghost predicate Won(c: Cluster, h: History, p: nat, term: nat, q: set<int>, c': Cluster, h': History) {
    && p < |c.nodes| && c.nodes[p].role == CANDIDATE && c.nodes[p].currentTerm == term
    && c'.nodes == c.nodes[p := BecomeLeader(c.nodes[p], |c.nodes|)] && c'.net == c.net
    && h' == h.(leader := h.leader[term := p], electors := h.electors[term := q],
                llog := h.llog[term := c.nodes[p].log], ack := h.ack[(p, term) := |c.nodes[p].log| - 1])
  }

  /** Every vote in the tally, and the one counted now, is a vote for p. */
  lemma TallyVotes(c: Cluster, h: History, p: nat, term: nat, voter: nat)
    requires TallyOk(c, h) && Enabled(c, ECollectVote(p, term, voter))
    ensures forall v :: v in c.tally[(p, term)] + {voter} ==> v != p && (v, term) in h.vote && h.vote[(v, term)] == p
  {
  }

  lemma TallyKept(c: Cluster, h: History, p: nat, term: nat, voter: nat, c': Cluster, h': History)
    requires TallyOk(c, h) && Steps(c, h, ECollectVote(p, term, voter), c', h')
    ensures TallyOk(c', h')
  {
  }

  lemma CountMajority(tally: set<int>, p: int, voter: int, n: nat)
    requires p !in tally && voter !in tally && voter != p && 2 + |tally| > n / 2
    requires forall v :: v in tally + {p, voter} ==> 0 <= v < n
    ensures Majority(tally + {p, voter}, n)
  {
  }

  lemma OwnVote(c: Cluster, h: History, p: nat, term: nat)
    requires Inv(c, h) && p < |c.nodes| && c.nodes[p].role == CANDIDATE && c.nodes[p].currentTerm == term
    ensures TallyOk(c, h) && (p, term) in h.vote && h.vote[(p, term)] == p
    ensures forall v :: (v, term) in h.vote ==> VoteOk(c, h, v, term) && 0 <= v < |c.nodes|
  {
    assert NodeOk(c, h, p) && VotedForOk(h, c.nodes[p], p);
    hide NodeOk, TallyOk, LogOk, Keeps;
  }

  lemma VotersMajority(c: Cluster, h: History, p: nat, term: nat, voter: nat)
    requires Inv(c, h) && Enabled(c, ECollectVote(p, term, voter)) && Wins(c, p, term)
    ensures var q := c.tally[(p, term)] + {p, voter}; VotedFor(c, h, q, p, term) && Majority(q, |c.nodes|)
  {
    hide Inv, TallyOk, VoteOk, Majority;
    OwnVote(c, h, p, term);
    TallyVotes(c, h, p, term, voter);
    CountMajority(c.tally[(p, term)], p, voter, |c.nodes|);
  }

  lemma CountEffect(c: Cluster, h: History, p: nat, term: nat, voter: nat, c': Cluster, h': History)
    requires Steps(c, h, ECollectVote(p, term, voter), c', h')
    ensures if Wins(c, p, term) then Won(c, h, p, term, c.tally[(p, term)] + {p, voter}, c', h')
            else c'.nodes == c.nodes && c'.net == c.net && h' == h
  {
  }

  /** Nobody has won the term before p does, so p still has the log it stood with. */
  lemma Unwon(c: Cluster, h: History, q: set<int>, p: nat, term: nat)
    requires Inv(c, h) && p < |c.nodes| && c.nodes[p].role == CANDIDATE && c.nodes[p].currentTerm == term
    requires VotedFor(c, h, q, p, term) && Majority(q, |c.nodes|)
    ensures term !in h.leader && term !in h.llog && (p, term) !in h.ack
    ensures CandOk(c, h, p, term) && h.cand[(p, term)] == c.nodes[p].log
  {
    assert NodeOk(c, h, p);
    assert CandidateOk(h, c.nodes[p], p) && AcksOk(c, h, p);
    assert CandOk(c, h, p, term);
    if term in h.leader {
      assert TermOk(c, h, term);
      var v := MajoritiesMeet(q, h.electors[term], |c.nodes|);
      assert false;
    }
    assert term in h.llog ==> TermOk(c, h, term);
  }

  lemma WinLater(c: Cluster, h: History, p: nat, term: nat, q: set<int>, c': Cluster, h': History)
    requires Won(c, h, p, term, q, c', h') && term !in h.leader && term !in h.llog && (p, term) !in h.ack
    ensures Later(c, h, c', h')
  {
  }

  lemma WinFrame(c: Cluster, h: History, p: nat, term: nat, q: set<int>, c': Cluster, h': History)
    requires Won(c, h, p, term, q, c', h')
    ensures OthersSame(c, h, c', h', p) && NewCandsOk(h, c', h') && NewVotesOk(h, c', h') && NewMsgsOk(c, c', h')
  {
  }

  lemma WinAcks(c: Cluster, h: History, p: nat, term: nat, q: set<int>, c': Cluster, h': History)
    requires Won(c, h, p, term, q, c', h') && Later(c, h, c', h') && AcksOk(c, h, p) && term !in h.llog && |c.nodes[p].log| > 0
    ensures AcksOk(c', h', p)
  {
    var log := c.nodes[p].log;
    hide Dead;
    forall t, k | Acked(h', p, t, k) && OwnEntry(h', t, k)
      ensures Keeps(c', h', log, t, k)
    {
      if t != term {
        assert Acked(h, p, t, k) && OwnEntry(h, t, k);
        KeepsStable(c, h, c', h', log, log, t, k);
      }
    }
  }

  lemma WinNode(c: Cluster, h: History, p: nat, term: nat, q: set<int>, c': Cluster, h': History)
    requires Won(c, h, p, term, q, c', h') && Later(c, h, c', h') && NodeOk(c, h, p) && term !in h.llog
    ensures NodeOk(c', h', p)
  {
    var x, x' := c.nodes[p], c'.nodes[p];
    LogOkStable(c, h, c', h', x.log);
    CommitOkStable(|c.nodes|, c, h, c', h', x.log, x.log, x.commitIndex);
    WinAcks(c, h, p, term, q, c', h');
    assert |x.log| > 0;
    hide LogOk, AcksOk, CommitOk, Later;
  }

  lemma NoneAcked(c: Cluster, h: History, q: set<int>, p: nat, term: nat, c': Cluster, h': History, t: int, k: int)
    requires Later(c, h, c', h') && VotedFor(c, h, q, p, term) && Majority(q, |c.nodes|) && t < term
    requires forall v :: v in q ==> !Acked(h', v, t, k)
    ensures Dead(c', h', t, k)
  {
  }

  /** Either a voter confirmed the entry, and would not vote for a log without it, or none of them ever will. */
  lemma WinComplete(c: Cluster, h: History, p: nat, term: nat, q: set<int>, c': Cluster, h': History)
    requires Won(c, h, p, term, q, c', h') && Later(c, h, c', h')
    requires VotedFor(c, h, q, p, term) && Majority(q, |c.nodes|)
    requires (p, term) in h.cand && h.cand[(p, term)] == c.nodes[p].log
    ensures LeaderComplete(c', h', term)
  {
    var log := c.nodes[p].log;
    forall t, k | t < term && OwnEntry(h', t, k)
      ensures Keeps(c', h', log, t, k)
    {
      assert OwnEntry(h, t, k);
      if v :| v in q && Acked(h', v, t, k) {
        assert VoteOk(c, h, v, term);
        assert Acked(h, v, t, k);
        KeepsStable(c, h, c', h', log, log, t, k);
      } else {
        NoneAcked(c, h, q, p, term, c', h', t, k);
      }
    }
  }

  lemma WinTerm(c: Cluster, h: History, p: nat, term: nat, q: set<int>, c': Cluster, h': History)
    requires Won(c, h, p, term, q, c', h') && Later(c, h, c', h')
    requires VotedFor(c, h, q, p, term) && Majority(q, |c.nodes|)
    requires CandOk(c, h, p, term) && Sorted(c.nodes[p].log) && h.cand[(p, term)] == c.nodes[p].log
    ensures TermOk(c', h', term) && TermsIn(c.nodes[p].log, term - 1)
  {
    LogOkStable(c, h, c', h', c.nodes[p].log);
    forall v | v in q ensures 0 <= v < |c.nodes| && c'.nodes[v].currentTerm >= term {
      assert VoteOk(c, h, v, term);
    }
  }

  lemma WinTerms(c: Cluster, h: History, p: nat, term: nat, q: set<int>, c': Cluster, h': History)
    requires Won(c, h, p, term, q, c', h')
    requires forall t :: t in h.leader ==> t in h.llog
    requires term !in h.llog && TermsIn(c.nodes[p].log, term - 1)
    requires TermOk(c', h', term) && LeaderComplete(c', h', term)
    ensures NewTermsOk(c, h, c', h', p)
  {
    hide TermOk, LeaderComplete;
  }

  lemma WinOk(c: Cluster, h: History, p: nat, term: nat, q: set<int>, c': Cluster, h': History)
    requires Inv(c, h) && Won(c, h, p, term, q, c', h') && TallyOk(c', h')
    requires VotedFor(c, h, q, p, term) && Majority(q, |c.nodes|)
    ensures Inv(c', h') && Later(c, h, c', h')
  {
    assert NodeOk(c, h, p) && forall t :: t in h.leader ==> t in h.llog;
    Unwon(c, h, q, p, term);
    LogSorted(c, h, c.nodes[p].log);
    assert (p, term) in h.cand;
    hide *;
    WinLater(c, h, p, term, q, c', h');
    WinFrame(c, h, p, term, q, c', h');
    WinNode(c, h, p, term, q, c', h');
    WinComplete(c, h, p, term, q, c', h');
    WinTerm(c, h, p, term, q, c', h');
    WinTerms(c, h, p, term, q, c', h');
    Assemble(c, h, c', h', p);
  }

  lemma CollectVoteOk(c: Cluster, h: History, p: nat, term: nat, voter: nat, c': Cluster, h': History)
    requires Inv(c, h) && Steps(c, h, ECollectVote(p, term, voter), c', h')
    ensures Inv(c', h') && Later(c, h, c', h')
  {
    assert p < |c.nodes| && NodeOk(c, h, p) && TallyOk(c, h) && Enabled(c, ECollectVote(p, term, voter));
    hide Inv, NodeOk, TallyOk;
    TallyKept(c, h, p, term, voter, c', h');
    CountEffect(c, h, p, term, voter, c', h');
    hide Enabled, Apply, Record, Steps;
    if Wins(c, p, term) {
      VotersMajority(c, h, p, term, voter);
      hide *;
      WinOk(c, h, p, term, c.tally[(p, term)] + {p, voter}, c', h');
    } else {
      QuietOk(c, h, p, c');
    }
  }
}
