/** A leader's pushes and sends keep the invariant. */
module RaftLeader {
  import opened Types
  import opened Quorum
  import opened RaftSpec
  import opened RaftLog
  import opened RaftCluster
  import opened RaftHistory
  import opened RaftStable
  import opened RaftRecord

  // ---- A leader pushes an entry ----------------------------------------------------------

  ghost predicate Pushed(c: Cluster, h: History, p: nat, entry: Entry, c': Cluster, h': History) {
    && p < |c.nodes| && c.nodes[p].role == LEADER && entry.term == c.nodes[p].currentTerm
    && c'.nodes == c.nodes[p := Push(c.nodes[p], entry)]
    && c'.net == c.net && c'.answers == c.answers && c'.tally == c.tally
    && var t := c.nodes[p].currentTerm;
    h' == h.(llog := h.llog[t := c.nodes[p].log + [entry]], ack := h.ack[(p, t) := |c.nodes[p].log|])
  }

  lemma PushLater(c: Cluster, h: History, p: nat, entry: Entry, c': Cluster, h': History)
    requires Pushed(c, h, p, entry, c', h') && LeaderOk(h, c.nodes[p], p)
    ensures Later(c, h, c', h') && OthersSame(c, h, c', h', p)
    ensures NewCandsOk(h, c', h') && NewVotesOk(h, c', h') && NewMsgsOk(c, c', h')
  {
  }

  lemma PushedLog(c: Cluster, h: History, p: nat, entry: Entry, c': Cluster, h': History)
    requires Pushed(c, h, p, entry, c', h') && Later(c, h, c', h') && NodeOk(c, h, p)
    ensures LogOk(h', c'.nodes[p].log)
  {
    var log, log' := c.nodes[p].log, c'.nodes[p].log;
    LogOkStable(c, h, c', h', log);
    forall i {:trigger log'[i]} | 0 <= i < |log'|
      ensures log'[i].term in h'.llog && Agree(log', h'.llog[log'[i].term], i)
    {
      if i < |log| {
        assert log[i].term in h'.llog && Agree(log, h'.llog[log[i].term], i);
      }
    }
  }

  lemma PushAcks(c: Cluster, h: History, p: nat, entry: Entry, c': Cluster, h': History)
    requires Pushed(c, h, p, entry, c', h') && Later(c, h, c', h') && AcksOk(c, h, p) && LeaderOk(h, c.nodes[p], p)
    ensures AcksOk(c', h', p)
  {
    var x, x' := c.nodes[p], c'.nodes[p];
    hide Dead;
    forall t, k | Acked(h', p, t, k) && OwnEntry(h', t, k)
      ensures Keeps(c', h', x'.log, t, k)
    {
      if t != x.currentTerm {
        assert Acked(h, p, t, k) && OwnEntry(h, t, k);
        KeepsStable(c, h, c', h', x.log, x'.log, t, k);
      }
    }
  }

  lemma PushNode(c: Cluster, h: History, p: nat, entry: Entry, c': Cluster, h': History)
    requires Pushed(c, h, p, entry, c', h') && Later(c, h, c', h') && NodeOk(c, h, p) && LogOk(h', c'.nodes[p].log)
    ensures NodeOk(c', h', p)
  {
    var x, x' := c.nodes[p], c'.nodes[p];
    hide LogOk, Later;
    CommitOkStable(|c.nodes|, c, h, c', h', x.log, x'.log, x.commitIndex);
    PushAcks(c, h, p, entry, c', h');
    hide AcksOk, CommitOk;
    forall i | 0 <= i < |x'.nextIndex| ensures PeerOk(h', x', i) {
      assert PeerOk(h, x, i);
    }
  }

  lemma PushTerm(c: Cluster, h: History, p: nat, entry: Entry, c': Cluster, h': History)
    requires Pushed(c, h, p, entry, c', h') && Later(c, h, c', h') && LogOk(h', c'.nodes[p].log)
    requires TermOk(c, h, c.nodes[p].currentTerm) && LeaderOk(h, c.nodes[p], p)
    ensures TermOk(c', h', c.nodes[p].currentTerm)
  {
  }

  /** An entry pushed after a later term was won can never be committed. */
  lemma PushedTooLate(c: Cluster, h: History, p: nat, entry: Entry, c': Cluster, h': History, u: int)
    requires Pushed(c, h, p, entry, c', h') && Later(c, h, c', h') && LeaderOk(h, c.nodes[p], p)
    requires TermOk(c, h, u) && c.nodes[p].currentTerm < u && u in h.llog
    requires forall v :: 0 <= v < |c.nodes| ==> AcksOk(c, h, v)
    ensures Dead(c', h', c.nodes[p].currentTerm, |c.nodes[p].log|)
  {
    var t, k, q := c.nodes[p].currentTerm, |c.nodes[p].log|, h.electors[u];
    forall v | v in q
      ensures 0 <= v < |c'.nodes| && c'.nodes[v].currentTerm > t && !Acked(h', v, t, k)
    {
      assert AcksOk(c, h, v);
    }
    assert NoneCanAck(c', h', q, t, k);
  }

  lemma PushTerms(c: Cluster, h: History, p: nat, entry: Entry, c': Cluster, h': History)
    requires Pushed(c, h, p, entry, c', h') && Later(c, h, c', h') && LeaderOk(h, c.nodes[p], p)
    requires forall t :: t in h.leader ==> t in h.llog
    requires forall u :: u in h.llog ==> TermOk(c, h, u)
    requires forall v :: 0 <= v < |c.nodes| ==> AcksOk(c, h, v)
    requires TermOk(c', h', c.nodes[p].currentTerm)
    ensures NewTermsOk(c, h, c', h', p)
  {
    hide TermOk, AcksOk, LeaderComplete, Dead, Later;
    forall t, k, u | u in h.llog && t < u && OwnEntry(h', t, k) && !OwnEntry(h, t, k)
      ensures Dead(c', h', t, k)
    {
      assert t == c.nodes[p].currentTerm && k == |c.nodes[p].log|;
      PushedTooLate(c, h, p, entry, c', h', u);
    }
  }

  lemma PushedStep(c: Cluster, h: History, p: nat, entry: Entry, c': Cluster, h': History)
    requires Steps(c, h, EPush(p, entry), c', h')
    ensures Pushed(c, h, p, entry, c', h') && p < |c.nodes| && c.nodes[p].role == LEADER
    ensures c'.answers == c.answers && c'.tally == c.tally
  {
  }

  lemma PushFacts(c: Cluster, h: History, p: nat)
    requires Inv(c, h) && p < |c.nodes| && c.nodes[p].role == LEADER
    ensures TallyOk(c, h) && NodeOk(c, h, p) && LeaderOk(h, c.nodes[p], p) && TermOk(c, h, c.nodes[p].currentTerm)
    ensures forall v :: 0 <= v < |c.nodes| ==> AcksOk(c, h, v)
    ensures forall u :: u in h.llog ==> TermOk(c, h, u)
    ensures forall t :: t in h.leader ==> t in h.llog
  {
    hide LogOk, CommitOk, AcksOk, TermOk, TallyOk;
    assert NodeOk(c, h, p);
    forall v | 0 <= v < |c.nodes| ensures AcksOk(c, h, v) {
      assert NodeOk(c, h, v);
    }
  }

  lemma PushOk(c: Cluster, h: History, p: nat, entry: Entry, c': Cluster, h': History)
    requires Inv(c, h) && Steps(c, h, EPush(p, entry), c', h')
    ensures Inv(c', h') && Later(c, h, c', h')
  {
    hide *;
    PushedStep(c, h, p, entry, c', h');
    PushFacts(c, h, p);
    PushLater(c, h, p, entry, c', h');
    TallyStable(c, h, c', h');
    PushedLog(c, h, p, entry, c', h');
    PushNode(c, h, p, entry, c', h');
    PushTerm(c, h, p, entry, c', h');
    PushTerms(c, h, p, entry, c', h');
    Assemble(c, h, c', h', p);
  }

  // ---- A leader sends --------------------------------------------------------------------

  /** The full suffix is sent, so the commit index sent lies within what is sent. */
  lemma SentOk(c: Cluster, h: History, p: nat, peer: nat)
    requires p < |c.nodes| && NodeOk(c, h, p) && c.nodes[p].role == LEADER && peer != p && CanSend(c.nodes[p], peer)
    ensures MsgOk(|c.nodes|, h, AppendRequest(peer, HeartBeatArgs(c.nodes[p], p, peer)))
  {
  }

  lemma SendEffect(c: Cluster, h: History, p: nat, peer: nat, c': Cluster)
    requires Enabled(c, ESend(p, peer)) && c' == Apply(c, ESend(p, peer)) && TallyOk(c, h)
    requires MsgOk(|c.nodes|, h, AppendRequest(peer, HeartBeatArgs(c.nodes[p], p, peer)))
    ensures c'.nodes == c.nodes && NewMsgsOk(c, c', h) && TallyOk(c', h)
  {
    hide MsgOk, HeartBeatArgs;
  }

  lemma SentStep(c: Cluster, h: History, p: nat, peer: nat, c': Cluster, h': History)
    requires Steps(c, h, ESend(p, peer), c', h')
    ensures p < |c.nodes| && c.nodes[p].role == LEADER && peer != p && CanSend(c.nodes[p], peer) && h' == h
    ensures Enabled(c, ESend(p, peer)) && c' == Apply(c, ESend(p, peer))
  {
  }

  lemma SendOk(c: Cluster, h: History, p: nat, peer: nat, c': Cluster, h': History)
    requires Inv(c, h) && Steps(c, h, ESend(p, peer), c', h')
    ensures Inv(c', h') && Later(c, h, c', h')
  {
    hide *;
    SentStep(c, h, p, peer, c', h');
    PushFacts(c, h, p);
    SentOk(c, h, p, peer);
    SendEffect(c, h, p, peer, c');
    QuietOk(c, h, p, c');
  }
}
