/** Each part of the invariant that a step does not touch survives it. */
module RaftStable {
  import opened Types
  import opened Quorum
  import opened RaftSpec
  import opened RaftCluster
  import opened RaftHistory

  // ---- Logs ------------------------------------------------------------------------------

  lemma LogSorted(c: Cluster, h: History, log: seq<Entry>)
    requires Inv(c, h) && LogOk(h, log)
    ensures Sorted(log)
  {
  }

  // ---- Commitment ------------------------------------------------------------------------

  lemma DeadStable(c: Cluster, h: History, c': Cluster, h': History, t: int, k: int)
    requires Later(c, h, c', h') && Dead(c, h, t, k)
    ensures Dead(c', h', t, k)
  {
  }

  lemma CommittedStable(n: nat, c: Cluster, h: History, c': Cluster, h': History, t: int, k: int)
    requires Later(c, h, c', h') && Committed(n, h, t, k)
    ensures Committed(n, h', t, k)
  {
  }

  /** What is committed cannot be dead. */
  lemma CommittedNotDead(c: Cluster, h: History, t: int, k: int)
    requires Committed(|c.nodes|, h, t, k)
    ensures !Dead(c, h, t, k)
  {
    if Dead(c, h, t, k) {
      var a :| Majority(a, |c.nodes|) && AllAcked(h, a, t, k);
      var b :| Majority(b, |c.nodes|) && NoneCanAck(c, h, b, t, k);
      var v := MajoritiesMeet(a, b, |c.nodes|);
      assert false;
    }
  }

  lemma KeepsStable(c: Cluster, h: History, c': Cluster, h': History, log: seq<Entry>, log': seq<Entry>, t: int, k: int)
    requires Later(c, h, c', h') && OwnEntry(h, t, k) && Keeps(c, h, log, t, k) && Prefix(log, log')
    ensures Keeps(c', h', log', t, k)
  {
    if Dead(c, h, t, k) {
      DeadStable(c, h, c', h', t, k);
    }
  }

  lemma LogOkStable(c: Cluster, h: History, c': Cluster, h': History, log: seq<Entry>)
    requires Later(c, h, c', h') && LogOk(h, log)
    ensures LogOk(h', log)
  {
  }

  lemma CommitOkStable(n: nat, c: Cluster, h: History, c': Cluster, h': History, log: seq<Entry>, log': seq<Entry>, k: int)
    requires Later(c, h, c', h') && CommitOk(n, h, log, k) && Prefix(log, log')
    ensures CommitOk(n, h', log', k)
  {
  }

  // ---- Terms, candidacies, votes, messages -----------------------------------------------

  lemma TermStable(c: Cluster, h: History, c': Cluster, h': History, t: int)
    requires Later(c, h, c', h') && TermOk(c, h, t)
    requires h'.llog[t] == h.llog[t] && (t in h'.leader ==> t in h.leader)
    ensures TermOk(c', h', t)
  {
    LogOkStable(c, h, c', h', h.llog[t]);
  }

  lemma LeaderCompleteStable(c: Cluster, h: History, c': Cluster, h': History, u: int)
    requires Later(c, h, c', h') && LeaderComplete(c, h, u)
    requires forall t, k :: t < u && OwnEntry(h', t, k) && !OwnEntry(h, t, k) ==> Dead(c', h', t, k)
    ensures LeaderComplete(c', h', u)
  {
    forall t, k | t < u && OwnEntry(h', t, k)
      ensures Keeps(c', h', h'.llog[u], t, k)
    {
      if OwnEntry(h, t, k) {
        KeepsStable(c, h, c', h', h.llog[u], h'.llog[u], t, k);
      }
    }
  }

  lemma CandStable(c: Cluster, h: History, c': Cluster, h': History, p: int, u: int)
    requires Later(c, h, c', h') && CandOk(c, h, p, u)
    ensures CandOk(c', h', p, u)
  {
  }

  /** A confirmed position with an own entry had both before the step, if the step left v's term or v alone. */
  lemma AckedBefore(c: Cluster, h: History, c': Cluster, h': History, v: int, t: int, k: int)
    requires Later(c, h, c', h') && 0 <= v < |c.nodes| && AcksOk(c, h, v)
    requires Acked(h', v, t, k) && OwnEntry(h', t, k)
    requires t < c.nodes[v].currentTerm || NoAck(h, h', v)
    ensures Acked(h, v, t, k) && OwnEntry(h, t, k)
  {
  }

  lemma VoteStable(c: Cluster, h: History, c': Cluster, h': History, v: int, u: int)
    requires Later(c, h, c', h') && VoteOk(c, h, v, u) && AcksOk(c, h, v)
    ensures VoteOk(c', h', v, u)
  {
    var log := h.cand[(h.vote[(v, u)], u)];
    forall t, k | t < u && Acked(h', v, t, k) && OwnEntry(h', t, k)
      ensures Keeps(c', h', log, t, k)
    {
      AckedBefore(c, h, c', h', v, t, k);
      KeepsStable(c, h, c', h', log, log, t, k);
    }
  }

  lemma AppendStable(n: nat, c: Cluster, h: History, c': Cluster, h': History, aa: AppendEntriesArgs)
    requires Later(c, h, c', h') && AppendOk(n, h, aa)
    ensures AppendOk(n, h', aa)
  {
  }

  lemma MsgStable(n: nat, c: Cluster, h: History, c': Cluster, h': History, m: Msg)
    requires Later(c, h, c', h') && MsgOk(n, h, m)
    ensures MsgOk(n, h', m)
  {
    if m.AppendRequest? || m.AppendReply? {
      AppendStable(n, c, h, c', h', m.aa);
    }
  }

  // ---- Nodes -----------------------------------------------------------------------------

  /** The step records no vote and no confirmation of node q. */
  ghost predicate Quiet(h: History, h': History, q: int) {
    && (forall u :: (q, u) in h'.vote ==> (q, u) in h.vote)
    && NoAck(h, h', q)
  }

  ghost predicate NoAck(h: History, h': History, q: int) {
    forall t :: (q, t) in h'.ack ==> (q, t) in h.ack && h'.ack[(q, t)] == h.ack[(q, t)]
  }

  lemma AcksStable(c: Cluster, h: History, c': Cluster, h': History, q: int)
    requires Later(c, h, c', h') && 0 <= q < |c.nodes| && AcksOk(c, h, q) && NoAck(h, h', q)
    requires c'.nodes[q].currentTerm >= c.nodes[q].currentTerm && c'.nodes[q].log == c.nodes[q].log
    ensures AcksOk(c', h', q)
  {
    var log := c.nodes[q].log;
    forall t, k | Acked(h', q, t, k) && OwnEntry(h', t, k)
      ensures Keeps(c', h', log, t, k)
    {
      AckedBefore(c, h, c', h', q, t, k);
      KeepsStable(c, h, c', h', log, log, t, k);
    }
    forall t | (q, t) in h'.ack
      ensures t in h'.llog && 0 <= t <= c'.nodes[q].currentTerm && 0 <= h'.ack[(q, t)] < |h'.llog[t]|
      ensures t == c'.nodes[q].currentTerm ==> Agree(log, h'.llog[t], h'.ack[(q, t)])
    {
      assert (q, t) in h.ack;
      assert Prefix(h.llog[t], h'.llog[t]);
    }
  }

  lemma NodeStable(c: Cluster, h: History, c': Cluster, h': History, q: int)
    requires Later(c, h, c', h') && 0 <= q < |c.nodes| && NodeOk(c, h, q) && Quiet(h, h', q)
    requires c'.nodes[q] == c.nodes[q]
    requires c.nodes[q].role == LEADER ==> h'.llog[c.nodes[q].currentTerm] == h.llog[c.nodes[q].currentTerm]
    requires c.nodes[q].role == CANDIDATE && c.nodes[q].currentTerm !in h.leader && c.nodes[q].currentTerm in h'.leader
      ==> h'.leader[c.nodes[q].currentTerm] != q
    ensures NodeOk(c', h', q)
  {
    var x := c.nodes[q];
    LogOkStable(c, h, c', h', x.log);
    AcksStable(c, h, c', h', q);
    CommitOkStable(|c.nodes|, c, h, c', h', x.log, x.log, x.commitIndex);
    if x.role == LEADER {
      forall i | 0 <= i < |x.nextIndex| ensures PeerOk(h', x, i) {
        assert PeerOk(h, x, i);
      }
    }
  }

  // ---- Putting a step together -----------------------------------------------------------

  ghost predicate OthersSame(c: Cluster, h: History, c': Cluster, h': History, p: int) {
    && |c'.nodes| == |c.nodes|
    && forall q :: 0 <= q < |c.nodes| && q != p ==> c'.nodes[q] == c.nodes[q] && Quiet(h, h', q)
  }

  ghost predicate TermsSame(h: History, h': History) {
    h'.leader == h.leader && h'.electors == h.electors && h'.llog == h.llog
  }

  /** Terms won or extended by node p. */
  ghost predicate NewTermsOk(c: Cluster, h: History, c': Cluster, h': History, p: int) {
    && (forall t :: t in h'.leader ==> t in h'.llog)
    && (forall t :: t in h'.llog && t !in h.llog ==>
        TermOk(c', h', t) && LeaderComplete(c', h', t) && t in h'.leader && h'.leader[t] == p)
    && (forall t :: t in h.llog && t in h'.leader ==> t in h.leader)
    && (forall t :: t in h.llog && t in h'.llog && h'.llog[t] != h.llog[t] ==>
        TermOk(c', h', t) && t in h'.leader && h'.leader[t] == p)
    && (forall t, k, u :: u in h.llog && t < u && OwnEntry(h', t, k) && !OwnEntry(h, t, k) ==> Dead(c', h', t, k))
  }

  ghost predicate NewCandsOk(h: History, c': Cluster, h': History) {
    forall pu :: pu in h'.cand && pu !in h.cand ==> CandOk(c', h', pu.0, pu.1)
  }

  ghost predicate NewVotesOk(h: History, c': Cluster, h': History) {
    forall vu :: vu in h'.vote && vu !in h.vote ==> VoteOk(c', h', vu.0, vu.1)
  }

  ghost predicate NewMsgsOk(c: Cluster, c': Cluster, h': History) {
    forall m :: m in c'.net && m !in c.net ==> MsgOk(|c.nodes|, h', m)
  }

  lemma TermsSameOk(c: Cluster, h: History, c': Cluster, h': History, p: int)
    requires Inv(c, h) && TermsSame(h, h')
    ensures NewTermsOk(c, h, c', h', p)
  {
  }

  lemma AllTerms(c: Cluster, h: History, c': Cluster, h': History, p: int)
    requires Inv(c, h) && Later(c, h, c', h') && NewTermsOk(c, h, c', h', p)
    ensures forall t :: t in h'.llog ==> TermOk(c', h', t) && LeaderComplete(c', h', t)
  {
    forall t | t in h'.llog ensures TermOk(c', h', t) && LeaderComplete(c', h', t) {
      if t in h.llog {
        assert TermOk(c, h, t);
        if h'.llog[t] == h.llog[t] {
          TermStable(c, h, c', h', t);
        }
        LeaderCompleteStable(c, h, c', h', t);
      }
    }
  }

  lemma AllRecords(c: Cluster, h: History, c': Cluster, h': History)
    requires Inv(c, h) && Later(c, h, c', h')
    requires NewCandsOk(h, c', h') && NewVotesOk(h, c', h')
    ensures forall pu :: pu in h'.cand ==> CandOk(c', h', pu.0, pu.1)
    ensures forall vu :: vu in h'.vote ==> VoteOk(c', h', vu.0, vu.1)
  {
    forall pu | pu in h'.cand ensures CandOk(c', h', pu.0, pu.1) {
      if pu in h.cand {
        CandStable(c, h, c', h', pu.0, pu.1);
      }
    }
    forall vu | vu in h'.vote ensures VoteOk(c', h', vu.0, vu.1) {
      if vu in h.vote {
        assert NodeOk(c, h, vu.0);
        VoteStable(c, h, c', h', vu.0, vu.1);
      }
    }
  }

  lemma AllNodes(c: Cluster, h: History, c': Cluster, h': History, p: int)
    requires Inv(c, h) && Later(c, h, c', h') && 0 <= p < |c.nodes|
    requires OthersSame(c, h, c', h', p) && NewTermsOk(c, h, c', h', p) && NodeOk(c', h', p)
    ensures forall q :: 0 <= q < |c'.nodes| ==> NodeOk(c', h', q)
  {
    forall q | 0 <= q < |c'.nodes| ensures NodeOk(c', h', q) {
      if q != p {
        assert NodeOk(c, h, q);
        assert TermOk(c, h, c.nodes[q].currentTerm) || c.nodes[q].currentTerm !in h.llog;
        NodeStable(c, h, c', h', q);
      }
    }
  }

  /** Node p steps; what is new is shown, all else is kept. */
  lemma Assemble(c: Cluster, h: History, c': Cluster, h': History, p: int)
    requires Inv(c, h) && Later(c, h, c', h') && 0 <= p < |c.nodes|
    requires OthersSame(c, h, c', h', p) && NewTermsOk(c, h, c', h', p) && NodeOk(c', h', p)
    requires NewCandsOk(h, c', h') && NewVotesOk(h, c', h') && NewMsgsOk(c, c', h') && TallyOk(c', h')
    ensures Inv(c', h')
  {
    AllTerms(c, h, c', h', p);
    AllRecords(c, h, c', h');
    AllNodes(c, h, c', h', p);
    forall m | m in c'.net ensures MsgOk(|c'.nodes|, h', m) {
      if m in c.net {
        MsgStable(|c.nodes|, c, h, c', h', m);
      }
    }
  }
}
