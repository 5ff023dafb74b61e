/** The leader's handling of AppendEntries replies keeps the invariant. */
module RaftReplies {
  import opened Types
  import opened Quorum
  import opened RaftSpec
  import opened RaftCluster
  import opened RaftHistory
  import opened RaftStable
  import opened RaftRecord

  /** The probe's back-off stays within the leader's log, whatever reply to whatever probe it uses. */
  lemma BackOffInRange(log: seq<Entry>, next: int, aa: AppendEntriesArgs, ar: AppendEntriesReply)
    requires |log| > 0 && log[0] == DUMMY && 1 <= next <= |log|
    requires HintOk(aa, ar) && aa.prevLogIndex < |log|
    ensures 1 <= BackOff(log, next, ar) <= |log|
  {
  }

  /** A majority stores position k of the leader's log, which is of the current term. */
  lemma ReplicatedCommitted(n: nat, h: History, x: Node, p: nat, k: nat)
    requires p < n && n >= 2 && |x.matchIndex| == n && x.role == LEADER && LeaderOk(h, x, p) && 0 < k < |x.log|
    requires Replicated(x, p, k)
    ensures Committed(n, h, x.currentTerm, k) && x.log[k].term == x.currentTerm
  {
    var holders := Holders(x.matchIndex, p, k);
    var q := holders + {p};
    forall v | v in q ensures Acked(h, v, x.currentTerm, k) {
      if v != p {
        assert PeerOk(h, x, v);
      }
    }
    assert |q| == |holders| + 1;
    assert Majority(q, n) && AllAcked(h, q, x.currentTerm, k);
  }

  /** The node with the reply's match recorded, before the commit scan. */
  function Matched(x: Node, target: nat, m: int): Node
    requires target < |x.nextIndex| == |x.matchIndex|
  {
    var best := if m > x.matchIndex[target] then m else x.matchIndex[target];
    x.(matchIndex := x.matchIndex[target := best], nextIndex := x.nextIndex[target := best + 1])
  }

  lemma MatchedOk(n: nat, h: History, x: Node, p: nat, target: nat, aa: AppendEntriesArgs)
    requires target < |x.nextIndex| == |x.matchIndex| && x.role == LEADER && LeaderOk(h, x, p)
    requires AppendOk(n, h, aa) && aa.term == x.currentTerm
    requires Acked(h, target, aa.term, aa.prevLogIndex + |aa.entries|)
    ensures LeaderOk(h, Matched(x, target, aa.prevLogIndex + |aa.entries|), p)
  {
    var y := Matched(x, target, aa.prevLogIndex + |aa.entries|);
    forall i | 0 <= i < |y.nextIndex| ensures PeerOk(h, y, i) {
      assert PeerOk(h, x, i);
    }
  }

  /** The scan commits only what a majority stores. */
  lemma ScanOk(n: nat, h: History, y: Node, p: nat)
    requires p < n && n >= 2 && |y.matchIndex| == n && y.role == LEADER && LeaderOk(h, y, p)
    requires CommitOk(n, h, y.log, y.commitIndex)
    ensures var k := ScanCommit(y, p, |y.log| - 1); y.commitIndex <= k < |y.log| && CommitOk(n, h, y.log, k)
  {
    var k := ScanCommit(y, p, |y.log| - 1);
    ScanCommitLow(y, p, |y.log| - 1);
    if k > y.commitIndex {
      ReplicatedCommitted(n, h, y, p, k);
    }
  }

  /** What the reply block does to the node. */
  lemma ReplyCases(x: Node, p: nat, target: nat, aa: AppendEntriesArgs, ar: AppendEntriesReply)
    requires |x.log| > 0 && CanHandleReply(x, target, aa)
    ensures var x' := OnAppendReply(x, p, target, aa, ar);
      if x.role != LEADER || aa.term != x.currentTerm || (!ar.success && ar.term < x.currentTerm) then x' == x
      else if ar.success then
        var y := Matched(x, target, aa.prevLogIndex + |aa.entries|);
        y.commitIndex <= ScanCommit(y, p, |y.log| - 1) && x' == y.(commitIndex := ScanCommit(y, p, |y.log| - 1))
      else if ar.term > x.currentTerm then x' == Observe(x, ar.term)
      else x' == x.(nextIndex := x.nextIndex[target := BackOff(x.log, x.nextIndex[target], ar)])
  {
    if x.role == LEADER && aa.term == x.currentTerm {
      ScanCommitLow(Matched(x, target, aa.prevLogIndex + |aa.entries|), p, |x.log| - 1);
    }
  }

  lemma CommitRaised(h: History, y: Node, y': Node, p: nat)
    requires LeaderOk(h, y, p) && y' == y.(commitIndex := y'.commitIndex)
    ensures LeaderOk(h, y', p)
  {
    if y.role == LEADER {
      forall i | 0 <= i < |y.nextIndex| ensures PeerOk(h, y', i) {
        assert PeerOk(h, y, i);
      }
    }
  }

  lemma BackedOff(n: nat, h: History, x: Node, p: nat, target: nat, aa: AppendEntriesArgs, ar: AppendEntriesReply)
    requires target < |x.nextIndex| == |x.matchIndex| && x.role == LEADER && LeaderOk(h, x, p)
    requires |x.log| > 0 && x.log[0] == DUMMY && AppendOk(n, h, aa) && aa.term == x.currentTerm && HintOk(aa, ar)
    requires x.nextIndex[target] <= |x.log|
    ensures LeaderOk(h, x.(nextIndex := x.nextIndex[target := BackOff(x.log, x.nextIndex[target], ar)]), p)
  {
    assert PeerOk(h, x, target);
    var x' := x.(nextIndex := x.nextIndex[target := BackOff(x.log, x.nextIndex[target], ar)]);
    BackOffInRange(x.log, x.nextIndex[target], aa, ar);
    hide BackOff;
    forall i | 0 <= i < |x'.nextIndex| ensures PeerOk(h, x', i) {
      assert PeerOk(h, x, i);
    }
  }

  /** The leader's bookkeeping after a success or a conflict. */
  lemma ReplyLeader(n: nat, h: History, x: Node, p: nat, target: nat, aa: AppendEntriesArgs, ar: AppendEntriesReply)
    requires |x.log| > 0 && CanHandleReply(x, target, aa) && p < n && n >= 2 && |x.matchIndex| == n
    requires x.role == LEADER && aa.term == x.currentTerm && (ar.success || ar.term == x.currentTerm)
    requires LogOk(h, x.log) && LeaderOk(h, x, p) && CommitOk(n, h, x.log, x.commitIndex)
    requires AppendOk(n, h, aa) && ReplyOk(h, target, aa, ar)
    ensures var x' := OnAppendReply(x, p, target, aa, ar);
      && x' == x.(nextIndex := x'.nextIndex, matchIndex := x'.matchIndex, commitIndex := x'.commitIndex)
      && |x'.nextIndex| == |x.nextIndex| && x.commitIndex <= x'.commitIndex
      && LeaderOk(h, x', p) && CommitOk(n, h, x.log, x'.commitIndex)
  {
    ReplyCases(x, p, target, aa, ar);
    assert x.log[0] == DUMMY;
    hide OnAppendReply, LogOk, CommitOk, LeaderOk, AppendOk;
    if ar.success {
      var y := Matched(x, target, aa.prevLogIndex + |aa.entries|);
      MatchedOk(n, h, x, p, target, aa);
      ScanOk(n, h, y, p);
      CommitRaised(h, y, OnAppendReply(x, p, target, aa, ar), p);
    } else {
      BackedOff(n, h, x, p, target, aa, ar);
    }
  }

  lemma LeaderNode(c: Cluster, h: History, c': Cluster, p: nat)
    requires p < |c.nodes| && NodeOk(c, h, p) && Later(c, h, c', h)
    requires var x, x' := c.nodes[p], c'.nodes[p];
      && x' == x.(nextIndex := x'.nextIndex, matchIndex := x'.matchIndex, commitIndex := x'.commitIndex)
      && |x'.nextIndex| == |x.nextIndex|
      && LeaderOk(h, x', p) && CommitOk(|c.nodes|, h, x.log, x'.commitIndex)
    ensures NodeOk(c', h, p)
  {
    hide LogOk, TermsIn, LeaderOk, CommitOk;
    AcksStable(c, h, c', h, p);
  }

  lemma ReplyNode(c: Cluster, h: History, peer: nat, aa: AppendEntriesArgs, ar: AppendEntriesReply, c': Cluster)
    requires Inv(c, h) && aa.leaderId < |c.nodes| && NodeOk(c, h, aa.leaderId) && Later(c, h, c', h)
    requires |c.nodes[aa.leaderId].log| > 0 && CanHandleReply(c.nodes[aa.leaderId], peer, aa)
    requires c'.nodes[aa.leaderId] == OnAppendReply(c.nodes[aa.leaderId], aa.leaderId, peer, aa, ar)
    requires MsgOk(|c.nodes|, h, AppendReply(peer, aa, ar)) && |c.nodes| >= 2
    ensures NodeOk(c', h, aa.leaderId)
  {
    var p, x, n := aa.leaderId, c.nodes[aa.leaderId], |c.nodes|;
    assert LogOk(h, x.log) && LeaderOk(h, x, p) && CommitOk(n, h, x.log, x.commitIndex) && |x.matchIndex| == n;
    assert AppendOk(n, h, aa) && ReplyOk(h, peer, aa, ar);
    ReplyCases(x, p, peer, aa, ar);
    hide Inv, NodeOk, OnAppendReply, LogOk, LeaderOk, CommitOk, AppendOk, ReplyOk, MsgOk, Later;
    if x.role == LEADER && aa.term == x.currentTerm && (ar.success || ar.term == x.currentTerm) {
      ReplyLeader(n, h, x, p, peer, aa, ar);
      LeaderNode(c, h, c', p);
    } else {
      ObserveOk(c, h, c', p, c'.nodes[p].currentTerm);
    }
  }

  lemma ReplyEffect(c: Cluster, h: History, peer: nat, aa: AppendEntriesArgs, ar: AppendEntriesReply, c': Cluster, h': History)
    requires Steps(c, h, EAppendReply(peer, aa, ar), c', h')
    requires TallyOk(c, h) && aa.leaderId < |c.nodes| && |c.nodes[aa.leaderId].log| > 0
    ensures h' == h && c'.nodes == c.nodes[aa.leaderId := OnAppendReply(c.nodes[aa.leaderId], aa.leaderId, peer, aa, ar)]
    ensures TallyOk(c', h) && OthersSame(c, h, c', h, aa.leaderId) && TermsSame(h, h)
    ensures NewMsgsOk(c, c', h) && NewCandsOk(h, c', h) && NewVotesOk(h, c', h)
  {
    hide OnAppendReply;
  }

  lemma ReplyLater(c: Cluster, h: History, peer: nat, aa: AppendEntriesArgs, ar: AppendEntriesReply, c': Cluster)
    requires aa.leaderId < |c.nodes| && |c.nodes[aa.leaderId].log| > 0 && CanHandleReply(c.nodes[aa.leaderId], peer, aa)
    requires c'.nodes == c.nodes[aa.leaderId := OnAppendReply(c.nodes[aa.leaderId], aa.leaderId, peer, aa, ar)]
    ensures Later(c, h, c', h)
  {
  }

  lemma ReplyStepOk(c: Cluster, h: History, peer: nat, aa: AppendEntriesArgs, ar: AppendEntriesReply, c': Cluster, h': History)
    requires Inv(c, h) && Steps(c, h, EAppendReply(peer, aa, ar), c', h')
    ensures Inv(c', h') && Later(c, h, c', h')
  {
    var p := aa.leaderId;
    assert NodeOk(c, h, p) && TallyOk(c, h) && |c.nodes| >= 2 && MsgOk(|c.nodes|, h, AppendReply(peer, aa, ar));
    assert p < |c.nodes| && |c.nodes[p].log| > 0 && CanHandleReply(c.nodes[p], peer, aa);
    hide *;
    ReplyEffect(c, h, peer, aa, ar, c', h');
    ReplyLater(c, h, peer, aa, ar, c');
    ReplyNode(c, h, peer, aa, ar, c');
    TermsSameOk(c, h, c', h, p);
    Assemble(c, h, c', h, p);
  }
}
