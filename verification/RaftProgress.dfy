/** What holds along every run about indices, commit indices and acknowledgements. */
module RaftProgress {
  import opened Types
  import opened Quorum
  import opened RaftSpec
  import opened RaftLog
  import opened RaftCluster
  import opened RaftHistory
  import opened RaftStable
  import opened RaftRecord
  import opened RaftFollower
  import opened RaftReplies
  import opened RaftSafety
  import opened BackOffRefinement
  import opened RaftExact

  // ---- Index safety ----------------------------------------------------------------------

  /** Every index the code computes with is in range, so the guards of the steps exclude nothing. */
  lemma IndexSafety(n: nat, cs: seq<Cluster>, a: nat, p: nat, i: nat, aa: AppendEntriesArgs)
    requires Run(n, cs) && a < |cs| && p < |cs[a].nodes| && i < |cs[a].nodes|
    ensures var x := cs[a].nodes[p];
      && x.commitIndex < |x.log| && |x.nextIndex| == |x.matchIndex| == |cs[a].nodes|
      && (x.role == LEADER ==> 1 <= x.nextIndex[i] <= |x.log| && 0 <= x.matchIndex[i] < |x.log|)
      && (x.role == LEADER ==> CanSend(x, i)) && CanHandleReply(x, i, aa)
  {
    var c, h, ha, hb := TwoTimes(n, cs, a, a);
    assert NodeOk(cs[a], ha, p);
    assert LeaderOk(ha, cs[a].nodes[p], p);
    assert cs[a].nodes[p].role == LEADER ==> PeerOk(ha, cs[a].nodes[p], i);
  }

  // ---- Monotone indices ------------------------------------------------------------------

  /** From x to x': the commit index does not fall, and a leader stays one through its term, its matches growing. */
  ghost predicate Grows(x: Node, x': Node) {
    && x.commitIndex <= x'.commitIndex && x.currentTerm <= x'.currentTerm
    && |x'.matchIndex| == |x.matchIndex|
    && (x.role == LEADER && x'.currentTerm == x.currentTerm ==>
      x'.role == LEADER && forall i :: 0 <= i < |x.matchIndex| ==> x.matchIndex[i] <= x'.matchIndex[i])
  }

  lemma GrowsVote(x: Node, va: RequestVoteArgs, p: nat)
    requires |x.log| > 0 && va.candidateId != p && (x.role == LEADER ==> x.votedFor == p)
    ensures Grows(x, OnRequestVote(x, va).0)
  {
  }

  lemma GrowsAppend(x: Node, aa: AppendEntriesArgs)
    requires |x.log| > 0 && x.commitIndex < |x.log|
    requires OnAppendEntries(x, aa).1.success ==> x.commitIndex < |OnAppendEntries(x, aa).0.log|
    ensures Grows(x, OnAppendEntries(x, aa).0)
  {
  }

  lemma GrowsReply(x: Node, p: nat, peer: nat, aa: AppendEntriesArgs, ar: AppendEntriesReply)
    requires |x.log| > 0 && CanHandleReply(x, peer, aa)
    ensures Grows(x, OnAppendReply(x, p, peer, aa, ar))
  {
    ReplyCases(x, p, peer, aa, ar);
    hide OnAppendReply;
  }

  lemma KeptCommit(c: Cluster, h: History, p: nat, aa: AppendEntriesArgs)
    requires Inv(c, h) && p < |c.nodes| && AppendRequest(p, aa) in c.net
    ensures |c.nodes[p].log| > 0 && c.nodes[p].commitIndex < |c.nodes[p].log|
    ensures OnAppendEntries(c.nodes[p], aa).1.success ==> c.nodes[p].commitIndex < |OnAppendEntries(c.nodes[p], aa).0.log|
  {
    assert NodeOk(c, h, p) && MsgOk(|c.nodes|, h, AppendRequest(p, aa));
    assert TermOk(c, h, aa.term) && LeaderComplete(c, h, aa.term) && AppendOk(|c.nodes|, h, aa);
    assert |c.nodes[p].log| > 0 && c.nodes[p].commitIndex < |c.nodes[p].log|;
    hide Inv, NodeOk, TermOk, LeaderComplete, AppendOk, OnAppendEntries;
    AppendCases(c.nodes[p], aa);
    if OnAppendEntries(c.nodes[p], aa).1.success {
      MergedFacts(c, h, p, aa);
    }
  }

  lemma NodeShape(c: Cluster, h: History, p: nat)
    requires Inv(c, h) && p < |c.nodes|
    ensures |c.nodes[p].log| > 0 && |c.nodes[p].matchIndex| == |c.nodes|
    ensures c.nodes[p].role == LEADER ==> c.nodes[p].votedFor == p
  {
    assert NodeOk(c, h, p);
  }

  lemma StepGrows(c: Cluster, h: History, e: Event, c': Cluster, p: nat)
    requires Inv(c, h) && Enabled(c, e) && c' == Apply(c, e) && p < |c.nodes|
    ensures |c'.nodes| == |c.nodes| && Grows(c.nodes[p], c'.nodes[p])
  {
    hide Inv, OnRequestVote, OnAppendEntries, OnAppendReply, Grows;
    NodeShape(c, h, p);
    if e.EAppend? && e.p == p {
      KeptCommit(c, h, p, e.aa);
    }
    match e
    case ERequestVote(q, va) =>
      if q == p { GrowsVote(c.nodes[p], va, p); } else { GrowsSame(c.nodes[p]); }
    case EAppend(q, aa) =>
      if q == p { GrowsAppend(c.nodes[p], aa); } else { GrowsSame(c.nodes[p]); }
    case EAppendReply(peer, aa, ar) =>
      if aa.leaderId == p { GrowsReply(c.nodes[p], p, peer, aa, ar); } else { GrowsSame(c.nodes[p]); }
    case _ => GrowsSimple(c, e, p);
  }

  lemma GrowsSame(x: Node)
    ensures Grows(x, x)
  {
  }

  lemma GrowsSimple(c: Cluster, e: Event, p: nat)
    requires Enabled(c, e) && p < |c.nodes| && !e.ERequestVote? && !e.EAppend? && !e.EAppendReply?
    requires e.ECollectVote? ==> |c.nodes[p].matchIndex| == |c.nodes|
    ensures Grows(c.nodes[p], Apply(c, e).nodes[p])
  {
  }

  lemma GrowsTrans(x: Node, y: Node, z: Node)
    requires Grows(x, y) && Grows(y, z)
    ensures Grows(x, z)
  {
  }

  /** No node's commit index ever falls; while a node leads a term its matches only grow. */
  lemma {:induction false} MonotoneIndices(n: nat, cs: seq<Cluster>, a: nat, b: nat, p: nat)
    requires Run(n, cs) && a <= b < |cs| && p < |cs[a].nodes|
    ensures |cs[a].nodes| == |cs[b].nodes| && Grows(cs[a].nodes[p], cs[b].nodes[p])
    decreases b - a
  {
    if a == b {
      GrowsSame(cs[a].nodes[p]);
    } else {
      assert Step(cs[a], cs[a + 1]);
      var e :| Enabled(cs[a], e) && cs[a + 1] == Apply(cs[a], e);
      hide Enabled, Apply, Grows, Inv, Later;
      var c, h, ha, hb := TwoTimes(n, cs, a, a);
      StepGrows(cs[a], ha, e, cs[a + 1], p);
      MonotoneIndices(n, cs, a + 1, b, p);
      GrowsTrans(cs[a].nodes[p], cs[a + 1].nodes[p], cs[b].nodes[p]);
    }
  }

  /**
    The leader's commit scan is exact: after a success the commit index is the greatest position above the
    old one whose entry is of the current term and which a strict majority, counting the leader, stores;
    or the old one, if there is none.
  */
  lemma CommitScanExact(x: Node, p: nat, peer: nat, aa: AppendEntriesArgs, ar: AppendEntriesReply)
    requires x.role == LEADER && aa.term == x.currentTerm && ar.success && |x.matchIndex| >= 2
    requires CanHandleReply(x, peer, aa)
    ensures var x' := OnAppendReply(x, p, peer, aa, ar);
      && x.commitIndex <= x'.commitIndex < |x.log| == |x'.log|
      && (x'.commitIndex > x.commitIndex ==> StoredByMajority(x', p, x'.commitIndex))
      && (forall k :: x'.commitIndex < k < |x.log| ==> !StoredByMajority(x', p, k))
  {
    ReplyCases(x, p, peer, aa, ar);
    var y := Matched(x, peer, aa.prevLogIndex + |aa.entries|);
    ScanCommitLow(y, p, |y.log| - 1);
    hide OnAppendReply, ScanCommit;
    var x' := OnAppendReply(x, p, peer, aa, ar);
    assert x' == y.(commitIndex := x'.commitIndex);
    forall k | 0 <= k < |x.log| ensures StoredByMajority(x', p, k) <==> Replicated(y, p, k) {
    }
  }

  ghost predicate StoredByMajority(x: Node, p: nat, k: nat)
    requires k < |x.log|
  {
    x.log[k].term == x.currentTerm && 1 + |Holders(x.matchIndex, p, k)| > |x.matchIndex| / 2
  }

  // ---- Acknowledgements ------------------------------------------------------------------

  /**
    matchIndex is truthful: what the leader p believes follower i to have, i does have, then and for
    as long as it stays in the leader's term.
  */
  lemma MatchIndexTruthful(n: nat, cs: seq<Cluster>, a: nat, b: nat, p: nat, i: nat)
    requires Run(n, cs) && a <= b < |cs| && p < |cs[a].nodes| && i < |cs[a].nodes|
    requires cs[a].nodes[p].role == LEADER && i < |cs[a].nodes[p].matchIndex| && cs[a].nodes[p].matchIndex[i] > 0
    requires i < |cs[b].nodes| && cs[b].nodes[i].currentTerm == cs[a].nodes[p].currentTerm
    ensures var m := cs[a].nodes[p].matchIndex[i];
      m < |cs[a].nodes[p].log| && m < |cs[b].nodes[i].log| && cs[b].nodes[i].log[..m + 1] == cs[a].nodes[p].log[..m + 1]
  {
    hide Run, Inv, Later;
    var c, h, ha, hb := TwoTimes(n, cs, a, b);
    var t := cs[a].nodes[p].currentTerm;
    LeaderPeer(cs[a], ha, p, i);
    NodeAcks(cs[b], hb, i);
    LaterAcks(cs[a], ha, cs[b], hb, i, t);
    hide LogOk, LeaderOk, AcksOk;
    assert Agree(cs[b].nodes[i].log, hb.llog[t], hb.ack[(i, t)]);
  }

  lemma LeaderPeer(c: Cluster, h: History, p: nat, i: nat)
    requires Inv(c, h) && p < |c.nodes| && i < |c.nodes| && c.nodes[p].role == LEADER
    ensures var x := c.nodes[p]; i < |x.nextIndex| == |x.matchIndex| && PeerOk(h, x, i)
    ensures LeaderOk(h, c.nodes[p], p) && |c.nodes[p].log| > 0 && c.nodes[p].log[0] == DUMMY
    ensures c.nodes[p].commitIndex < |c.nodes[p].log|
  {
    assert NodeOk(c, h, p);
  }

  lemma NodeAcks(c: Cluster, h: History, i: nat)
    requires Inv(c, h) && i < |c.nodes|
    ensures AcksOk(c, h, i)
    ensures var t := c.nodes[i].currentTerm;
      (i, t) in h.ack ==> t in h.llog && Agree(c.nodes[i].log, h.llog[t], h.ack[(i, t)])
  {
    assert NodeOk(c, h, i);
    hide Inv;
  }

  lemma LaterAcks(c: Cluster, h: History, c': Cluster, h': History, i: int, t: int)
    requires Later(c, h, c', h')
    ensures (i, t) in h.ack ==> (i, t) in h'.ack && h.ack[(i, t)] <= h'.ack[(i, t)]
    ensures t in h.llog ==> t in h'.llog && Prefix(h.llog[t], h'.llog[t])
  {
  }

  /**
    The follower's commit rule is exact: what it takes from the leader is the leader's commit index
    itself, and its log up to there is the log of whoever leads that term.
  */
  lemma FollowerCommit(n: nat, cs: seq<Cluster>, a: nat, b: nat, p: nat, aa: AppendEntriesArgs, q: nat)
    requires Run(n, cs) && a < |cs| && b < |cs| && p < |cs[a].nodes| && AppendRequest(p, aa) in cs[a].net
    requires |cs[a].nodes[p].log| > 0 && OnAppendEntries(cs[a].nodes[p], aa).1.success
    requires aa.leaderCommit > cs[a].nodes[p].commitIndex
    requires q < |cs[b].nodes| && cs[b].nodes[q].role == LEADER && cs[b].nodes[q].currentTerm == aa.term
    requires aa.leaderCommit < |cs[b].nodes[q].log|
    ensures var x' := OnAppendEntries(cs[a].nodes[p], aa).0;
      && x'.commitIndex == aa.leaderCommit < |x'.log|
      && x'.log[..x'.commitIndex + 1] == cs[b].nodes[q].log[..x'.commitIndex + 1]
  {
    hide Run, Inv, Later, OnAppendEntries, LogOk, CommitOk;
    var c, h, ha, hb := TwoTimes(n, cs, a, b);
    var x := cs[a].nodes[p];
    RequestFacts(cs[a], ha, p, aa);
    LeaderLog(cs[b], hb, q);
    AppendCases(x, aa);
    MergedFacts(cs[a], ha, p, aa);
    TermLogs(cs[a], ha, cs[b], hb, c, h, aa.term);
    var m := Merge(x.log, aa.prevLogIndex, aa.entries);
    assert Agree(m, ha.llog[aa.term], aa.leaderCommit) && Agree(ha.llog[aa.term], cs[b].nodes[q].log, aa.leaderCommit);
  }

  /** What two moments know of a term's log agrees as far as both know it. */
  lemma TermLogs(a: Cluster, ha: History, b: Cluster, hb: History, c: Cluster, h: History, t: int)
    requires Later(a, ha, c, h) && Later(b, hb, c, h) && t in ha.llog && t in hb.llog
    ensures forall k :: k < |ha.llog[t]| && k < |hb.llog[t]| ==> Agree(ha.llog[t], hb.llog[t], k)
  {
  }

  /** Once a follower has confirmed a request, an earlier or repeated request of that term succeeds and changes no entry. */
  lemma LateRequestKeepsLog(n: nat, cs: seq<Cluster>, b: nat, p: nat, aa: AppendEntriesArgs, ar: AppendEntriesReply, late: AppendEntriesArgs)
    requires Run(n, cs) && b < |cs| && p < |cs[b].nodes|
    requires AppendReply(p, aa, ar) in cs[b].net && ar.success && AppendRequest(p, late) in cs[b].net
    requires late.term == aa.term == cs[b].nodes[p].currentTerm
    requires late.prevLogIndex + |late.entries| <= aa.prevLogIndex + |aa.entries|
    ensures |cs[b].nodes[p].log| > 0
    ensures var (x', vr) := OnAppendEntries(cs[b].nodes[p], late);
      vr.success && x'.log == cs[b].nodes[p].log
  {
    hide Run, Inv, Later, OnAppendEntries, Merge;
    var c, h, ha, hb := TwoTimes(n, cs, b, b);
    var x, t := cs[b].nodes[p], late.term;
    RequestFacts(cs[b], hb, p, late);
    ReplyFacts(cs[b], hb, p, aa, ar);
    assert Agree(x.log, hb.llog[t], hb.ack[(p, t)]);
    assert Agree(x.log, hb.llog[t], late.prevLogIndex + |late.entries|);
    assert SliceOf(late.entries, hb.llog[t], late.prevLogIndex);
    assert x.log[late.prevLogIndex].term == late.prevLogTerm;
    hide NodeOk, TermOk, LeaderComplete, AppendOk, Agree, SliceOf;
    MergeAgain(x.log, hb.llog[t], late.prevLogIndex, late.entries, 0);
    AppendCases(x, late);
  }

  lemma ReplyFacts(c: Cluster, h: History, p: nat, aa: AppendEntriesArgs, ar: AppendEntriesReply)
    requires Inv(c, h) && p < |c.nodes| && AppendReply(p, aa, ar) in c.net && ar.success
    ensures Acked(h, p, aa.term, aa.prevLogIndex + |aa.entries|)
  {
    assert MsgOk(|c.nodes|, h, AppendReply(p, aa, ar));
  }

  // ---- Back-off --------------------------------------------------------------------------

  /**
    Any rejection that is there for the leader of its request does something: one from beyond the term
    makes the leader step down; any other, if it answers the current probe, strictly lowers nextIndex,
    which stays at least 1.
  */
  lemma RejectionLowersNext(n: nat, cs: seq<Cluster>, a: nat, peer: nat, aa: AppendEntriesArgs, ar: AppendEntriesReply)
    requires Run(n, cs) && a < |cs| && AppendReply(peer, aa, ar) in cs[a].net && aa.leaderId < |cs[a].nodes|
    requires !ar.success && aa.term == cs[a].nodes[aa.leaderId].currentTerm
    requires cs[a].nodes[aa.leaderId].role == LEADER
    ensures var x := cs[a].nodes[aa.leaderId];
      && peer < |x.nextIndex| && CanHandleReply(x, peer, aa)
      && var x' := OnAppendReply(x, aa.leaderId, peer, aa, ar);
      if ar.term != aa.term then ar.term > aa.term && x'.role == FOLLOWER && x'.currentTerm == ar.term
      else x.nextIndex[peer] == aa.prevLogIndex + 1 ==> 1 <= x'.nextIndex[peer] < x.nextIndex[peer]
  {
    hide Run, Inv, Later, LogOk, CommitOk, OnAppendReply, HintOk;
    var c, h, ha, hb := TwoTimes(n, cs, a, a);
    var x, p := cs[a].nodes[aa.leaderId], aa.leaderId;
    RejectionFacts(cs[a], ha, peer, aa, ar);
    LeaderPeer(cs[a], ha, p, peer);
    ReplyCases(x, p, peer, aa, ar);
    if ar.term == aa.term && x.nextIndex[peer] == aa.prevLogIndex + 1 {
      HintBacksOff(x.log, aa, ar);
    }
  }

  lemma HintBacksOff(log: seq<Entry>, aa: AppendEntriesArgs, ar: AppendEntriesReply)
    requires |log| > 0 && log[0] == DUMMY && HintOk(aa, ar)
    requires aa.prevLogIndex < |log| && log[aa.prevLogIndex].term == aa.prevLogTerm
    ensures 1 <= BackOff(log, aa.prevLogIndex + 1, ar) <= aa.prevLogIndex
  {
  }

  lemma RejectionFacts(c: Cluster, h: History, peer: nat, aa: AppendEntriesArgs, ar: AppendEntriesReply)
    requires Inv(c, h) && AppendReply(peer, aa, ar) in c.net && !ar.success
    ensures peer < |c.nodes| && AppendOk(|c.nodes|, h, aa) && ar.term >= aa.term && (ar.term == aa.term ==> HintOk(aa, ar))
  {
    assert MsgOk(|c.nodes|, h, AppendReply(peer, aa, ar));
  }

  /**
    When a follower that is not beyond the leader's term rejects the current probe, then the reply that
    its handler gives, whenever it arrives in that term, strictly lowers nextIndex.
  */
  lemma RejectedProbeLowersNext(n: nat, cs: seq<Cluster>, a: nat, b: nat, peer: nat, aa: AppendEntriesArgs)
    requires Run(n, cs) && a <= b < |cs| && peer < |cs[a].nodes| && AppendRequest(peer, aa) in cs[a].net
    requires |cs[a].nodes[peer].log| > 0 && cs[a].nodes[peer].currentTerm <= aa.term
    requires !OnAppendEntries(cs[a].nodes[peer], aa).1.success
    requires aa.leaderId < |cs[b].nodes| && cs[b].nodes[aa.leaderId].role == LEADER
    requires cs[b].nodes[aa.leaderId].currentTerm == aa.term
    requires peer < |cs[b].nodes[aa.leaderId].nextIndex| && cs[b].nodes[aa.leaderId].nextIndex[peer] == aa.prevLogIndex + 1
    ensures var x, ar := cs[b].nodes[aa.leaderId], OnAppendEntries(cs[a].nodes[peer], aa).1;
      && CanHandleReply(x, peer, aa)
      && 1 <= OnAppendReply(x, aa.leaderId, peer, aa, ar).nextIndex[peer] < x.nextIndex[peer]
  {
    hide Run, Inv, Later, LogOk, CommitOk, OnAppendReply, OnAppendEntries, HintOk;
    var c, h, ha, hb := TwoTimes(n, cs, a, b);
    var x, ar := cs[b].nodes[aa.leaderId], OnAppendEntries(cs[a].nodes[peer], aa).1;
    RequestFacts(cs[a], ha, peer, aa);
    TermRecordZero(cs[a], ha);
    AppendCases(cs[a].nodes[peer], aa);
    ConflictHint(cs[a], ha, peer, aa);
    LeaderPeer(cs[b], hb, aa.leaderId, peer);
    LaterAcks(cs[a], ha, cs[b], hb, peer, aa.term);
    assert x.log[aa.prevLogIndex].term == aa.prevLogTerm;
    hide NodeOk, TermOk, LeaderComplete, AppendOk;
    ReplyCases(x, aa.leaderId, peer, aa, ar);
    HintBacksOff(x.log, aa, ar);
  }

  lemma TermRecordZero(c: Cluster, h: History)
    requires Inv(c, h)
    ensures TermOk(c, h, 0)
  {
  }

  /** A follower that accepts a request then has the whole log that its leader had when it sent it. */
  lemma AcceptedHasWholeLog(n: nat, cs: seq<Cluster>, a: nat, b: nat, q: nat, p: nat)
    requires Run(n, cs) && a <= b < |cs| && q < |cs[a].nodes| && p < |cs[b].nodes|
    requires cs[a].nodes[q].role == LEADER && CanSend(cs[a].nodes[q], p)
    requires AppendRequest(p, HeartBeatArgs(cs[a].nodes[q], q, p)) in cs[b].net
    requires |cs[b].nodes[p].log| > 0
    requires OnAppendEntries(cs[b].nodes[p], HeartBeatArgs(cs[a].nodes[q], q, p)).1.success
    ensures cs[a].nodes[q].log <= OnAppendEntries(cs[b].nodes[p], HeartBeatArgs(cs[a].nodes[q], q, p)).0.log
  {
    hide Run, Inv, Later, LogOk, CommitOk, OnAppendEntries, HeartBeatArgs;
    var c, h, ha, hb := TwoTimes(n, cs, a, b);
    var x, aa := cs[b].nodes[p], HeartBeatArgs(cs[a].nodes[q], q, p);
    SendsWholeSuffix(cs[a].nodes[q], q, p);
    LeaderLog(cs[a], ha, q);
    RequestFacts(cs[b], hb, p, aa);
    AppendCases(x, aa);
    MergedFacts(cs[b], hb, p, aa);
    LaterAcks(cs[a], ha, cs[b], hb, p, aa.term);
    hide NodeOk, TermOk, LeaderComplete, AppendOk;
  }

  /**
    On runs the two back-offs agree: for a follower of an earlier or the same moment that has not
    passed the leader's term, the rounds end where plain stepping back does, at an accepted probe;
    from the nextIndex that the leader has, or from any other.
  */
  lemma SearchesAgree(n: nat, cs: seq<Cluster>, a: nat, b: nat, p: nat, q: nat, next: nat)
    requires Run(n, cs) && a <= b < |cs| && p < |cs[a].nodes| && q < |cs[b].nodes|
    requires cs[b].nodes[q].role == LEADER && cs[a].nodes[p].currentTerm <= cs[b].nodes[q].currentTerm
    requires p < |cs[b].nodes[q].nextIndex| && 1 <= next <= |cs[b].nodes[q].log|
    ensures var x, y := cs[a].nodes[p], cs[b].nodes[q];
      var lead := y.(nextIndex := y.nextIndex[p := next]);
      && Searching(x, lead, p)
      && FastSearch(x, lead, q, p) == SlowSearch(x.log, y.log, next) < next
      && Accepts(x.log, y.log, FastSearch(x, lead, q, p))
  {
    hide Run, Inv, Later, FastSearch, SlowSearch, LogOk;
    var c, h, ha, hb := TwoTimes(n, cs, a, b);
    var x, y := cs[a].nodes[p], cs[b].nodes[q];
    var lead := y.(nextIndex := y.nextIndex[p := next]);
    LogTerms(n, cs, a, p);
    LogTerms(n, cs, b, q);
    FollowerPrefix(cs[a], ha, cs[b], hb, p, q);
    PositiveTerms(cs[a], ha, p);
    LeaderPeer(cs[b], hb, q, p);
    assert Agree(x.log, y.log, 0);
    hide LeaderOk, PeerOk;
    FastIsSlow(x, lead, q, p);
    SearchEnds(x, lead, q, p, 0);
  }

  lemma FollowerPrefix(c: Cluster, h: History, c': Cluster, h': History, p: nat, q: nat)
    requires Inv(c, h) && Inv(c', h') && Later(c, h, c', h') && p < |c.nodes| && q < |c'.nodes| && |c.nodes| == |c'.nodes|
    requires c'.nodes[q].role == LEADER && c.nodes[p].currentTerm <= c'.nodes[q].currentTerm
    ensures Agree(c.nodes[p].log, c'.nodes[q].log, c.nodes[p].commitIndex)
  {
    hide Later, LogOk, Committed;
    var x, u := c.nodes[p], c'.nodes[q].currentTerm;
    NodeCommitted(c, h, c', h', p);
    LeaderLog(c', h', q);
    TermRecord(c', h', u);
    NodeTerms(c, h, p);
    hide Inv;
    if x.commitIndex > 0 {
      CommittedBelow(c', h', x.log, x.commitIndex, u);
    }
  }

  lemma TermRecord(c: Cluster, h: History, u: int)
    requires Inv(c, h) && u in h.llog
    ensures TermOk(c, h, u) && LeaderComplete(c, h, u)
  {
  }

  lemma NodeTerms(c: Cluster, h: History, p: nat)
    requires Inv(c, h) && p < |c.nodes|
    ensures TermsIn(c.nodes[p].log, c.nodes[p].currentTerm) && |c.nodes[p].log| > 0 && c.nodes[p].log[0] == DUMMY
  {
    assert NodeOk(c, h, p);
  }

  lemma CommittedBelow(c: Cluster, h: History, log: seq<Entry>, k: nat, u: int)
    requires k < |log| && log[k].term <= u && u in h.llog && LeaderComplete(c, h, u)
    requires Committed(|c.nodes|, h, log[k].term, k) && Agree(log, h.llog[log[k].term], k)
    ensures Agree(log, h.llog[u], k)
  {
    var t := log[k].term;
    CommittedNotDead(c, h, t, k);
    if t < u {
      assert Keeps(c, h, h.llog[u], t, k);
    }
  }

  lemma PositiveTerms(c: Cluster, h: History, p: nat)
    requires Inv(c, h) && p < |c.nodes|
    ensures forall i :: 1 <= i < |c.nodes[p].log| ==> c.nodes[p].log[i].term >= 1
  {
    assert NodeOk(c, h, p) && TermOk(c, h, 0);
    var log := c.nodes[p].log;
    forall i | 1 <= i < |log| ensures log[i].term >= 1 {
      assert Agree(log, h.llog[log[i].term], i);
    }
  }
}
