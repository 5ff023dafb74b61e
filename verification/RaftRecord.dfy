/** What a step records in the history, and what several steps have in common. */
module RaftRecord {
  import opened Types
  import opened Quorum
  import opened RaftSpec
  import opened RaftCluster
  import opened RaftHistory
  import opened RaftStable

  // ---- The history of each step ----------------------------------------------------------

  ghost function Record(c: Cluster, h: History, e: Event): History
    requires Enabled(c, e)
  {
    match e
    case EElect(p) =>
      var x := Elect(c.nodes[p], p);
      h.(cand := h.cand[(p, x.currentTerm) := x.log], vote := h.vote[(p, x.currentTerm) := p])
    case ERequestVote(p, va) =>
      if OnRequestVote(c.nodes[p], va).1.voteGranted
      then h.(vote := h.vote[(p, va.term) := va.candidateId]) else h
    case ECollectVote(p, term, voter) =>
      if Wins(c, p, term)
      then h.(leader := h.leader[term := p],
              electors := h.electors[term := c.tally[(p, term)] + {p, voter}],
              llog := h.llog[term := c.nodes[p].log],
              ack := h.ack[(p, term) := |c.nodes[p].log| - 1])
      else h
    case EPush(p, entry) =>
      var t := c.nodes[p].currentTerm;
      h.(llog := h.llog[t := c.nodes[p].log + [entry]], ack := h.ack[(p, t) := |c.nodes[p].log|])
    case EAppend(p, aa) =>
      if OnAppendEntries(c.nodes[p], aa).1.success
      then h.(ack := h.ack[(p, aa.term) := Max(AckedUpTo(h, p, aa.term), aa.prevLogIndex + |aa.entries|)]) else h
    case _ => h
  }

  ghost predicate Wins(c: Cluster, p: nat, term: nat)
    requires p < |c.nodes| && (p, term) in c.tally
  {
    var count := 1 + |c.tally[(p, term)]|;
    count <= |c.nodes| / 2 < count + 1 && c.nodes[p].role == CANDIDATE && c.nodes[p].currentTerm == term
  }

  function Max(a: int, b: int): int { if a > b then a else b }

  ghost function AckedUpTo(h: History, v: int, t: int): int {
    if (v, t) in h.ack then h.ack[(v, t)] else 0
  }

  /** The step e leads from (c, h) to (c', h'). */
  ghost predicate Steps(c: Cluster, h: History, e: Event, c': Cluster, h': History) {
    Enabled(c, e) && c' == Apply(c, e) && h' == Record(c, h, e)
  }

  // ---- Shared by the steps ---------------------------------------------------------------

  /** No vote or confirmation of p is recorded for a term p has not reached. */
  lemma NoFuture(c: Cluster, h: History, p: int, t: int)
    requires Inv(c, h) && 0 <= p < |c.nodes| && t > c.nodes[p].currentTerm
    ensures (p, t) !in h.vote && (p, t) !in h.ack && (p, t) !in h.cand
    ensures t in h.leader ==> h.leader[t] != p
  {
    assert NodeOk(c, h, p);
    assert (p, t) in h.vote ==> VoteOk(c, h, p, t);
    assert (p, t) in h.cand ==> CandOk(c, h, p, t);
    if t in h.leader && h.leader[t] == p {
      ElectedCandidate(c, h, t);
    }
  }

  /** The winner of a term stood in it. */
  lemma ElectedCandidate(c: Cluster, h: History, u: int)
    requires Inv(c, h) && u in h.leader
    ensures CandOk(c, h, h.leader[u], u)
  {
    assert TermOk(c, h, u);
    var v := MajoritiesMeet(h.electors[u], h.electors[u], |c.nodes|);
    assert VoteOk(c, h, v, u);
  }

  /** A step that leaves the history alone. */
  lemma LaterSame(c: Cluster, h: History, c': Cluster)
    requires |c'.nodes| == |c.nodes|
    requires forall v :: 0 <= v < |c.nodes| ==> c.nodes[v].currentTerm <= c'.nodes[v].currentTerm
    ensures Later(c, h, c', h)
  {
  }

  /** A step that records one vote, and perhaps the log a candidate stands with. */
  lemma LaterVote(c: Cluster, h: History, c': Cluster, h': History, v: int, u: int, p: int)
    requires |c'.nodes| == |c.nodes|
    requires forall q :: 0 <= q < |c.nodes| ==> c.nodes[q].currentTerm <= c'.nodes[q].currentTerm
    requires (v, u) in h.vote ==> h.vote[(v, u)] == p
    requires h' == h.(vote := h.vote[(v, u) := p], cand := h'.cand)
    requires forall pu :: pu in h.cand ==> pu in h'.cand && h'.cand[pu] == h.cand[pu]
    ensures Later(c, h, c', h')
  {
  }

  lemma TallyStable(c: Cluster, h: History, c': Cluster, h': History)
    requires TallyOk(c, h) && Later(c, h, c', h') && c'.answers == c.answers && c'.tally == c.tally
    ensures TallyOk(c', h')
  {
  }

  /** A node that only changes its term, vote and role, and does not lead. */
  lemma RoleChange(c: Cluster, h: History, c': Cluster, h': History, p: int)
    requires 0 <= p < |c.nodes| && NodeOk(c, h, p) && Later(c, h, c', h') && NoAck(h, h', p)
    requires var x, x' := c.nodes[p], c'.nodes[p];
      && x' == x.(currentTerm := x'.currentTerm, votedFor := x'.votedFor, role := x'.role)
      && x'.currentTerm >= x.currentTerm && x'.role != LEADER
      && VotedForOk(h', x', p) && CandidateOk(h', x', p)
    ensures NodeOk(c', h', p)
  {
    var x := c.nodes[p];
    LogOkStable(c, h, c', h', x.log);
    AcksStable(c, h, c', h', p);
    CommitOkStable(|c.nodes|, c, h, c', h', x.log, x.log, x.commitIndex);
  }

  /** Adopting a newer term. */
  lemma ObserveOk(c: Cluster, h: History, c': Cluster, p: nat, t: nat)
    requires Inv(c, h) && p < |c.nodes| && Later(c, h, c', h)
    requires c'.nodes[p] == Observe(c.nodes[p], t)
    ensures NodeOk(c', h, p)
  {
    assert NodeOk(c, h, p);
    if t > c.nodes[p].currentTerm {
      NoFuture(c, h, p, t);
      hide Inv;
      RoleChange(c, h, c', h, p);
    } else {
      hide Inv;
      NodeStable(c, h, c', h, p);
    }
  }

  /** A step that changes no node, and records nothing. */
  lemma QuietOk(c: Cluster, h: History, p: nat, c': Cluster)
    requires Inv(c, h) && p < |c.nodes| && c'.nodes == c.nodes && NewMsgsOk(c, c', h) && TallyOk(c', h)
    ensures Inv(c', h) && Later(c, h, c', h)
  {
    LaterSame(c, h, c');
    assert NodeOk(c, h, p) && TermsSame(h, h) && NewCandsOk(h, c', h) && NewVotesOk(h, c', h) && OthersSame(c, h, c', h, p);
    NodeStable(c, h, c', h, p);
    TermsSameOk(c, h, c', h, p);
    hide *;
    Assemble(c, h, c', h, p);
  }
}
