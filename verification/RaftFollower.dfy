/** The follower's AppendEntries handler keeps the invariant. */
module RaftFollower {
  import opened Types
  import opened Quorum
  import opened RaftSpec
  import opened RaftLog
  import opened RaftCluster
  import opened RaftHistory
  import opened RaftStable
  import opened RaftRecord

  lemma LogsMatch(h: History, a: seq<Entry>, b: seq<Entry>, k: nat)
    requires LogOk(h, a) && LogOk(h, b)
    ensures Matching(a, b)
    ensures k < |a| && k < |b| && a[k].term == b[k].term ==> Agree(a, b, k)
  {
  }

  /** Whatever a node confirmed or committed, the leader of a term it has not passed has too, or it is dead. */
  lemma SharedWithLeader(c: Cluster, h: History, p: nat, u: int, t: int, k: int)
    requires LeaderComplete(c, h, u) && u in h.llog
    requires p < |c.nodes| && LogOk(h, c.nodes[p].log) && AcksOk(c, h, p)
    requires t <= c.nodes[p].currentTerm <= u && OwnEntry(h, t, k)
    requires Agree(c.nodes[p].log, h.llog[t], k)
    ensures Agree(c.nodes[p].log, h.llog[u], k) || Dead(c, h, t, k)
  {
  }

  /** The follower's committed prefix is the leader's. */
  lemma CommitShared(c: Cluster, h: History, p: nat, u: int)
    requires LeaderComplete(c, h, u) && u in h.llog
    requires p < |c.nodes| && NodeOk(c, h, p) && c.nodes[p].currentTerm <= u && LogOk(h, h.llog[u])
    ensures Agree(c.nodes[p].log, h.llog[u], c.nodes[p].commitIndex)
  {
    var x := c.nodes[p];
    var k := x.commitIndex;
    if k > 0 {
      CommittedNotDead(c, h, x.log[k].term, k);
      SharedWithLeader(c, h, p, u, x.log[k].term, k);
    }
  }

  // ---- The step --------------------------------------------------------------------------

  ghost predicate Appended(c: Cluster, h: History, p: nat, aa: AppendEntriesArgs, c': Cluster, h': History) {
    && p < |c.nodes| && |c.nodes[p].log| > 0
    && var (x', ar) := OnAppendEntries(c.nodes[p], aa);
    && c'.nodes == c.nodes[p := x'] && c'.net == c.net + {AppendReply(p, aa, ar)}
    && c'.answers == c.answers && c'.tally == c.tally
    && h' == if ar.success then h.(ack := h.ack[(p, aa.term) := Max(AckedUpTo(h, p, aa.term), aa.prevLogIndex + |aa.entries|)]) else h
  }

  /** The three outcomes of the handler: a stale term, a conflict, a merge. */
  lemma AppendCases(x: Node, aa: AppendEntriesArgs)
    requires |x.log| > 0
    ensures var (x', ar) := OnAppendEntries(x, aa);
      ar.term == x'.currentTerm && x'.currentTerm >= aa.term &&
      if aa.term < x.currentTerm then x' == x && !ar.success && ar.term > aa.term
      else if aa.prevLogIndex >= |x.log| || x.log[aa.prevLogIndex].term != aa.prevLogTerm then
        && x' == Observe(x, aa.term) && !ar.success
        && (if aa.prevLogIndex >= |x.log| then ar.xTerm == -1 && ar.xLen == |x.log|
            else ar.xTerm == x.log[aa.prevLogIndex].term
                 && ar.xIndex == ScanBack(x.log, x.commitIndex, aa.prevLogIndex, ar.xTerm) + 1)
      else
        && ar.success
        && x'.log == Merge(x.log, aa.prevLogIndex, aa.entries) && |x'.log| > 0
        && x' == Observe(x, aa.term).(log := x'.log, commitIndex := NewCommit(x.commitIndex, aa.leaderCommit, |x'.log|))
  {
    if aa.term >= x.currentTerm && aa.prevLogIndex < |x.log| {
      MergeNonEmpty(x.log, aa.prevLogIndex, aa.entries, 0);
    }
  }

  lemma LaterAck(c: Cluster, h: History, c': Cluster, h': History, p: int, u: int, k: int)
    requires |c'.nodes| == |c.nodes| && 0 <= p < |c.nodes| && u >= c.nodes[p].currentTerm
    requires forall v :: 0 <= v < |c.nodes| ==> c.nodes[v].currentTerm <= c'.nodes[v].currentTerm
    requires h' == h.(ack := h.ack[(p, u) := k]) && ((p, u) in h.ack ==> h.ack[(p, u)] <= k)
    ensures Later(c, h, c', h')
  {
  }

  lemma AppendLater(c: Cluster, h: History, p: nat, aa: AppendEntriesArgs, c': Cluster, h': History)
    requires Appended(c, h, p, aa, c', h')
    ensures Later(c, h, c', h')
  {
    AppendCases(c.nodes[p], aa);
    hide OnAppendEntries, Later;
    if OnAppendEntries(c.nodes[p], aa).1.success {
      LaterAck(c, h, c', h', p, aa.term, h'.ack[(p, aa.term)]);
    } else {
      LaterSame(c, h, c');
    }
  }

  lemma AppendFrame(c: Cluster, h: History, p: nat, aa: AppendEntriesArgs, c': Cluster, h': History)
    requires Appended(c, h, p, aa, c', h')
    ensures OthersSame(c, h, c', h', p) && TermsSame(h, h') && NewCandsOk(h, c', h') && NewVotesOk(h, c', h')
  {
    hide OnAppendEntries;
  }

  lemma RequestFacts(c: Cluster, h: History, p: nat, aa: AppendEntriesArgs)
    requires Inv(c, h) && p < |c.nodes| && AppendRequest(p, aa) in c.net
    ensures NodeOk(c, h, p) && TermOk(c, h, aa.term) && LeaderComplete(c, h, aa.term)
    ensures AppendOk(|c.nodes|, h, aa) && p != aa.leaderId && TermOk(c, h, 0)
  {
    assert MsgOk(|c.nodes|, h, AppendRequest(p, aa));
  }

  // ---- A conflict ------------------------------------------------------------------------

  /** A conflict lies above the follower's commit index, so the scan moves and the hint is below the probe. */
  lemma ConflictHint(c: Cluster, h: History, p: nat, aa: AppendEntriesArgs)
    requires p < |c.nodes| && NodeOk(c, h, p) && AppendOk(|c.nodes|, h, aa)
    requires TermOk(c, h, 0) && TermOk(c, h, aa.term) && LeaderComplete(c, h, aa.term)
    requires aa.term >= c.nodes[p].currentTerm
    requires var x := c.nodes[p]; aa.prevLogIndex >= |x.log| || x.log[aa.prevLogIndex].term != aa.prevLogTerm
    ensures HintOk(aa, OnAppendEntries(c.nodes[p], aa).1)
    ensures aa.prevLogIndex > c.nodes[p].commitIndex
  {
    var x := c.nodes[p];
    AppendCases(x, aa);
    CommitShared(c, h, p, aa.term);
    if aa.prevLogIndex < |x.log| {
      assert Agree(x.log, h.llog[x.log[aa.prevLogIndex].term], aa.prevLogIndex);
    }
  }

  // ---- A merge ---------------------------------------------------------------------------

  lemma SentSlice(n: nat, h: History, aa: AppendEntriesArgs)
    requires AppendOk(n, h, aa)
    ensures aa.term in h.llog && aa.prevLogIndex < |h.llog[aa.term]| && h.llog[aa.term][aa.prevLogIndex].term == aa.prevLogTerm
    ensures SliceOf(aa.entries, h.llog[aa.term], aa.prevLogIndex)
  {
  }

  lemma MergeOk(n: nat, h: History, own: seq<Entry>, aa: AppendEntriesArgs)
    requires LogOk(h, own) && AppendOk(n, h, aa) && LogOk(h, h.llog[aa.term])
    requires aa.prevLogIndex < |own| && own[aa.prevLogIndex].term == aa.prevLogTerm
    ensures Merged(own, Merge(own, aa.prevLogIndex, aa.entries), h.llog[aa.term], aa.prevLogIndex + |aa.entries|)
  {
    hide *;
    SentSlice(n, h, aa);
    var log := h.llog[aa.term];
    LogsMatch(h, own, log, aa.prevLogIndex);
    MergeMerges(own, log, aa.prevLogIndex, aa.entries);
  }

  /** The follower's commit index is the old one or exactly the leader's, and what it covers is committed. */
  lemma MergedCommit(n: nat, h: History, own: seq<Entry>, m: seq<Entry>, ci: nat, aa: AppendEntriesArgs)
    requires AppendOk(n, h, aa) && Merged(own, m, h.llog[aa.term], aa.prevLogIndex + |aa.entries|)
    requires CommitOk(n, h, own, ci) && Agree(own, h.llog[aa.term], ci)
    ensures 0 < |m| && ci < |m| && CommitOk(n, h, m, NewCommit(ci, aa.leaderCommit, |m|))
    ensures NewCommit(ci, aa.leaderCommit, |m|) == if aa.leaderCommit > ci then aa.leaderCommit else ci
  {
  }

  lemma TermsGrow(log: seq<Entry>, s: int, t: int)
    requires TermsIn(log, s) && s <= t
    ensures TermsIn(log, t)
  {
  }

  lemma MergedLog(c: Cluster, h: History, c': Cluster, h': History, own: seq<Entry>, m: seq<Entry>, u: int, sent: nat)
    requires Later(c, h, c', h') && LogOk(h, own) && TermOk(c, h, u) && Merged(own, m, h.llog[u], sent)
    requires TermsIn(own, u)
    ensures LogOk(h', m) && TermsIn(m, u)
  {
  }

  /** What the follower confirmed before it still has, or it is dead. */
  lemma MergedKeeps(c: Cluster, h: History, p: nat, m: seq<Entry>, u: int, sent: nat, t: int, k: int)
    requires p < |c.nodes| && NodeOk(c, h, p) && LeaderComplete(c, h, u) && u in h.llog
    requires c.nodes[p].currentTerm <= u && Merged(c.nodes[p].log, m, h.llog[u], sent)
    requires Acked(h, p, t, k) && OwnEntry(h, t, k)
    ensures Keeps(c, h, m, t, k)
  {
    var own := c.nodes[p].log;
    assert Keeps(c, h, own, t, k);
    if Agree(own, h.llog[t], k) {
      SharedWithLeader(c, h, p, u, t, k);
      if Agree(own, h.llog[u], k) {
        assert Agree(m, h.llog[u], k);
        assert Agree(m, h.llog[t], k);
      }
    }
  }

  lemma MergedAcks(c: Cluster, h: History, p: nat, aa: AppendEntriesArgs, c': Cluster, h': History)
    requires Later(c, h, c', h') && p < |c.nodes| && NodeOk(c, h, p)
    requires AppendOk(|c.nodes|, h, aa) && LeaderComplete(c, h, aa.term) && c.nodes[p].currentTerm <= aa.term
    requires c'.nodes[p].currentTerm == aa.term
    requires h' == h.(ack := h.ack[(p, aa.term) := Max(AckedUpTo(h, p, aa.term), aa.prevLogIndex + |aa.entries|)])
    requires Merged(c.nodes[p].log, c'.nodes[p].log, h.llog[aa.term], aa.prevLogIndex + |aa.entries|)
    ensures AcksOk(c', h', p)
  {
    var u, sent, m := aa.term, aa.prevLogIndex + |aa.entries|, c'.nodes[p].log;
    forall t, k | Acked(h', p, t, k) && OwnEntry(h', t, k)
      ensures Keeps(c', h', m, t, k)
    {
      if t == u && k <= sent {
        assert Agree(m, h.llog[u], k);
      } else {
        assert Acked(h, p, t, k) && OwnEntry(h, t, k);
        MergedKeeps(c, h, p, m, u, sent, t, k);
        KeepsStable(c, h, c', h', m, m, t, k);
      }
    }
    assert (p, u) in h.ack ==> u == c.nodes[p].currentTerm && Agree(c.nodes[p].log, h.llog[u], h.ack[(p, u)]);
  }

  lemma MergedRole(h: History, x: Node, x': Node, p: nat, u: nat)
    requires VotedForOk(h, x, p) && CandidateOk(h, x, p) && LeaderOk(h, x, p)
    requires u in h.leader && h.leader[u] != p && u >= x.currentTerm
    requires u > x.currentTerm ==> (p, u) !in h.vote
    requires x' == Observe(x, u).(log := x'.log, commitIndex := x'.commitIndex)
    ensures VotedForOk(h, x', p) && CandidateOk(h, x', p) && LeaderOk(h, x', p) && x'.role != LEADER
  {
  }

  lemma MergedLater(c: Cluster, h: History, p: nat, aa: AppendEntriesArgs, c': Cluster, h': History)
    requires Appended(c, h, p, aa, c', h') && OnAppendEntries(c.nodes[p], aa).1.success && Later(c, h, c', h')
    requires NodeOk(c, h, p) && TermOk(c, h, aa.term) && LeaderComplete(c, h, aa.term)
    requires AppendOk(|c.nodes|, h, aa) && aa.term >= c.nodes[p].currentTerm && c'.nodes[p].currentTerm == aa.term
    requires Merged(c.nodes[p].log, c'.nodes[p].log, h.llog[aa.term], aa.prevLogIndex + |aa.entries|)
    ensures LogOk(h', c'.nodes[p].log) && TermsIn(c'.nodes[p].log, aa.term) && AcksOk(c', h', p)
  {
    var x, x', u, sent := c.nodes[p], c'.nodes[p], aa.term, aa.prevLogIndex + |aa.entries|;
    assert LogOk(h, x.log) && TermsIn(x.log, x.currentTerm);
    hide *;
    TermsGrow(x.log, x.currentTerm, u);
    MergedLog(c, h, c', h', x.log, x'.log, u, sent);
    AppendedAck(c, h, p, aa, c', h');
    MergedAcks(c, h, p, aa, c', h');
  }

  lemma AppendedAck(c: Cluster, h: History, p: nat, aa: AppendEntriesArgs, c': Cluster, h': History)
    requires Appended(c, h, p, aa, c', h') && OnAppendEntries(c.nodes[p], aa).1.success
    ensures h' == h.(ack := h.ack[(p, aa.term) := Max(AckedUpTo(h, p, aa.term), aa.prevLogIndex + |aa.entries|)])
    ensures c'.nodes == c.nodes[p := OnAppendEntries(c.nodes[p], aa).0]
  {
  }

  lemma MergedNode(c: Cluster, h: History, p: nat, aa: AppendEntriesArgs, c': Cluster, h': History)
    requires Appended(c, h, p, aa, c', h') && OnAppendEntries(c.nodes[p], aa).1.success && Later(c, h, c', h')
    requires NodeOk(c, h, p) && TermOk(c, h, aa.term) && LeaderComplete(c, h, aa.term)
    requires AppendOk(|c.nodes|, h, aa) && p != aa.leaderId
    requires aa.term > c.nodes[p].currentTerm ==> (p, aa.term) !in h.vote
    ensures NodeOk(c', h', p)
  {
    var x, x', u := c.nodes[p], c'.nodes[p], aa.term;
    AppendCases(x, aa);
    AppendedAck(c, h, p, aa, c', h');
    assert VotedForOk(h, x, p) && CandidateOk(h, x, p) && LeaderOk(h, x, p) && |x.nextIndex| == |c'.nodes|;
    hide *;
    MergedFacts(c, h, p, aa);
    ObserveTerm(x, u);
    MergedRole(h, x, x', p, u);
    MergedLater(c, h, p, aa, c', h');
    CommitOkStable(|c.nodes|, c, h, c', h', x'.log, x'.log, x'.commitIndex);
    NodeFrom(c', h', p, h);
  }

  lemma ObserveTerm(x: Node, u: nat)
    requires u >= x.currentTerm
    ensures Observe(x, u).currentTerm == u && Observe(x, u).nextIndex == x.nextIndex
  {
  }

  lemma NodeFrom(c: Cluster, h: History, p: nat, g: History)
    requires p < |c.nodes| && h.vote == g.vote && h.cand == g.cand && h.leader == g.leader
    requires var x := c.nodes[p];
      && |x.nextIndex| == |c.nodes| && LogOk(h, x.log) && TermsIn(x.log, x.currentTerm)
      && VotedForOk(g, x, p) && CandidateOk(g, x, p) && LeaderOk(g, x, p) && x.role != LEADER
      && AcksOk(c, h, p) && CommitOk(|c.nodes|, h, x.log, x.commitIndex)
    ensures NodeOk(c, h, p)
  {
  }

  lemma MergedFacts(c: Cluster, h: History, p: nat, aa: AppendEntriesArgs)
    requires p < |c.nodes| && NodeOk(c, h, p) && TermOk(c, h, aa.term) && LeaderComplete(c, h, aa.term)
    requires AppendOk(|c.nodes|, h, aa) && aa.term >= c.nodes[p].currentTerm
    requires aa.prevLogIndex < |c.nodes[p].log| && c.nodes[p].log[aa.prevLogIndex].term == aa.prevLogTerm
    ensures var m := Merge(c.nodes[p].log, aa.prevLogIndex, aa.entries);
      && Merged(c.nodes[p].log, m, h.llog[aa.term], aa.prevLogIndex + |aa.entries|)
      && c.nodes[p].commitIndex < |m|
      && CommitOk(|c.nodes|, h, m, NewCommit(c.nodes[p].commitIndex, aa.leaderCommit, |m|))
      && NewCommit(c.nodes[p].commitIndex, aa.leaderCommit, |m|)
         == if aa.leaderCommit > c.nodes[p].commitIndex then aa.leaderCommit else c.nodes[p].commitIndex
    ensures aa.term in h.leader && h.leader[aa.term] == aa.leaderId
  {
    var x := c.nodes[p];
    CommitShared(c, h, p, aa.term);
    assert LogOk(h, x.log) && LogOk(h, h.llog[aa.term]) && CommitOk(|c.nodes|, h, x.log, x.commitIndex);
    assert aa.term in h.leader && h.leader[aa.term] == aa.leaderId;
    hide NodeOk, TermOk, LeaderComplete, LogOk, CommitOk, AppendOk, Merged, Merge, NewCommit, Agree;
    MergeOk(|c.nodes|, h, x.log, aa);
    MergedCommit(|c.nodes|, h, x.log, Merge(x.log, aa.prevLogIndex, aa.entries), x.commitIndex, aa);
  }

  lemma AppendNode(c: Cluster, h: History, p: nat, aa: AppendEntriesArgs, c': Cluster, h': History)
    requires Inv(c, h) && Appended(c, h, p, aa, c', h') && Later(c, h, c', h') && AppendRequest(p, aa) in c.net
    ensures NodeOk(c', h', p)
  {
    var x := c.nodes[p];
    assert NodeOk(c, h, p) && MsgOk(|c.nodes|, h, AppendRequest(p, aa));
    assert TermOk(c, h, aa.term) && LeaderComplete(c, h, aa.term);
    AppendCases(x, aa);
    if aa.term > x.currentTerm {
      NoFuture(c, h, p, aa.term);
    }
    if OnAppendEntries(x, aa).1.success {
      hide Inv, OnAppendEntries, Later, NodeOk, TermOk, LeaderComplete;
      MergedNode(c, h, p, aa, c', h');
    } else {
      hide OnAppendEntries, Later, NodeOk, MsgOk, Inv;
      ObserveOk(c, h, c', p, aa.term);
    }
  }

  lemma AppendMsg(c: Cluster, h: History, p: nat, aa: AppendEntriesArgs, c': Cluster, h': History)
    requires Inv(c, h) && Appended(c, h, p, aa, c', h') && Later(c, h, c', h') && AppendRequest(p, aa) in c.net
    ensures NewMsgsOk(c, c', h')
  {
    hide Inv, LogOk;
    var x := c.nodes[p];
    var ar := OnAppendEntries(x, aa).1;
    RequestFacts(c, h, p, aa);
    AppendStable(|c.nodes|, c, h, c', h', aa);
    AppendCases(x, aa);
    if aa.term >= x.currentTerm && !ar.success {
      ConflictHint(c, h, p, aa);
    }
    hide OnAppendEntries, Later, NodeOk, TermOk, LeaderComplete, AppendOk, HintOk;
    assert ReplyOk(h', p, aa, ar);
    assert MsgOk(|c.nodes|, h', AppendReply(p, aa, ar));
  }

  lemma AppendedStep(c: Cluster, h: History, p: nat, aa: AppendEntriesArgs, c': Cluster, h': History)
    requires Steps(c, h, EAppend(p, aa), c', h')
    ensures Appended(c, h, p, aa, c', h') && AppendRequest(p, aa) in c.net && p < |c.nodes|
    ensures c'.answers == c.answers && c'.tally == c.tally
  {
    hide OnAppendEntries;
  }

  lemma TallyFacts(c: Cluster, h: History)
    requires Inv(c, h)
    ensures TallyOk(c, h)
  {
  }

  lemma AppendStepOk(c: Cluster, h: History, p: nat, aa: AppendEntriesArgs, c': Cluster, h': History)
    requires Inv(c, h) && Steps(c, h, EAppend(p, aa), c', h')
    ensures Inv(c', h') && Later(c, h, c', h')
  {
    hide *;
    AppendedStep(c, h, p, aa, c', h');
    TallyFacts(c, h);
    AppendLater(c, h, p, aa, c', h');
    AppendFrame(c, h, p, aa, c', h');
    AppendNode(c, h, p, aa, c', h');
    AppendMsg(c, h, p, aa, c', h');
    TallyStable(c, h, c', h');
    TermsSameOk(c, h, c', h', p);
    Assemble(c, h, c', h', p);
  }
}
