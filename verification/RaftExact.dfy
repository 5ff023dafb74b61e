/** Exactly when each block of the node says yes, and what its reply tells the other side, for every node and message. */
module RaftExact {
  import opened Types
  import opened RaftSpec
  import opened RaftHistory
  import opened RaftRecord

  // ---- Elections -------------------------------------------------------------------------

  /**
    A vote is granted if and only if the request is not of an earlier term, the vote of its term is free
    or already the candidate's, and the candidate's last entry is lexicographically at least the voter's.
  */
  lemma VoteGrantedExactly(x: Node, va: RequestVoteArgs)
    requires |x.log| > 0
    ensures var (x', vr) := OnRequestVote(x, va);
      var last := |x.log| - 1;
      && (vr.voteGranted <==>
          && va.term >= x.currentTerm
          && (va.term > x.currentTerm || x.votedFor == -1 || x.votedFor == va.candidateId)
          && (va.lastLogTerm > x.log[last].term || (va.lastLogTerm == x.log[last].term && va.lastLogIndex >= last)))
      && vr.term == x'.currentTerm == Max(va.term, x.currentTerm)
      && x'.votedFor == (if vr.voteGranted then va.candidateId else if va.term > x.currentTerm then -1 else x.votedFor)
      && x'.role == (if vr.voteGranted || va.term > x.currentTerm then FOLLOWER else x.role)
      && x'.log == x.log && x'.commitIndex == x.commitIndex
  {
  }

  /** A vote counts if and only if it was granted and the node is still a candidate of the term it asked in. */
  lemma VoteCountsExactly(x: Node, va: RequestVoteArgs, vr: RequestVoteReply)
    ensures var (x', won) := OnVoteAnswer(x, va, vr);
      && (won <==> vr.voteGranted && x.role == CANDIDATE && x.currentTerm == va.term)
      && x'.currentTerm == (if x.role == CANDIDATE && x.currentTerm == va.term then Max(vr.term, x.currentTerm) else x.currentTerm)
      && (x'.currentTerm == x.currentTerm ==> x' == x)
      && (x'.currentTerm > x.currentTerm ==> x'.role == FOLLOWER && x'.votedFor == -1)
      && x'.log == x.log && x'.commitIndex == x.commitIndex
  {
  }

  /** The counted vote makes a leader if and only if with it, and not before, a strict majority is reached. */
  lemma WonExactly(x: Node, n: nat, term: nat, count: nat)
    requires x.role != LEADER
    ensures var (x', count') := OnVoteWon(x, n, term, count);
      && count' == (if 2 * count > n then count else count + 1)
      && (x'.role == LEADER <==> x.role == CANDIDATE && x.currentTerm == term && 2 * count <= n < 2 * (count + 1))
      && (x'.role != LEADER ==> x' == x)
      && (x'.role == LEADER ==>
          && |x'.nextIndex| == |x'.matchIndex| == n
          && (forall i :: 0 <= i < n ==> x'.nextIndex[i] == |x.log| && x'.matchIndex[i] == 0)
          && x'.log == x.log && x'.currentTerm == x.currentTerm && x'.commitIndex == x.commitIndex)
  {
    assert count > n / 2 <==> 2 * count > n;
    assert count + 1 > n / 2 <==> 2 * (count + 1) > n;
  }

  // ---- Replication -----------------------------------------------------------------------

  /** What is sent starts at the peer's nextIndex and is all the log has from there. */
  lemma SendsWholeSuffix(x: Node, self: nat, i: nat)
    requires CanSend(x, i)
    ensures var aa := HeartBeatArgs(x, self, i);
      && aa.prevLogIndex + 1 == x.nextIndex[i] && aa.prevLogTerm == x.log[aa.prevLogIndex].term
      && aa.prevLogIndex + |aa.entries| == |x.log| - 1
      && (forall j :: 0 <= j < |aa.entries| ==> aa.entries[j] == x.log[aa.prevLogIndex + 1 + j])
      && aa.term == x.currentTerm && aa.leaderId == self && aa.leaderCommit == x.commitIndex
  {
  }

  lemma {:induction false} ScanBackExactly(log: seq<Entry>, commitIndex: nat, i: nat, t: int)
    requires i < |log|
    ensures var r := ScanBack(log, commitIndex, i, t);
      && (i <= commitIndex ==> r == i)
      && (i > commitIndex ==> r >= commitIndex && (r > commitIndex ==> log[r].term != t))
      && (forall j :: r < j <= i ==> log[j].term == t)
  {
    if i > commitIndex && log[i].term == t {
      ScanBackExactly(log, commitIndex, i - 1, t);
    }
  }

  /**
    The reply carries the greater of the two terms. It confirms if and only if the request is not of an
    earlier term and the log has the previous entry's term at its place. Otherwise it says how long the
    log is, or which term is there and which position above the commit index is the first of that term.
  */
  lemma AppendReplyExactly(x: Node, aa: AppendEntriesArgs)
    requires |x.log| > 0
    ensures var (x', ar) := OnAppendEntries(x, aa);
      var prev := aa.prevLogIndex;
      && ar.term == x'.currentTerm == Max(aa.term, x.currentTerm)
      && (ar.success <==> aa.term >= x.currentTerm && prev < |x.log| && x.log[prev].term == aa.prevLogTerm)
      && (!ar.success ==> x'.log == x.log && x'.commitIndex == x.commitIndex)
      && (aa.term >= x.currentTerm && prev >= |x.log| ==> ar.xTerm == -1 && ar.xLen == |x.log|)
      && (aa.term >= x.currentTerm && prev < |x.log| && !ar.success ==>
          && ar.xTerm == x.log[prev].term && ar.xLen == |x.log|
          && (prev <= x.commitIndex ==> ar.xIndex == prev + 1)
          && (prev > x.commitIndex ==>
              && x.commitIndex < ar.xIndex <= prev
              && (forall j :: ar.xIndex <= j <= prev ==> x.log[j].term == ar.xTerm)
              && (ar.xIndex - 1 > x.commitIndex ==> x.log[ar.xIndex - 1].term != ar.xTerm)))
  {
    if aa.term >= x.currentTerm && aa.prevLogIndex < |x.log| {
      MergeNonEmpty(x.log, aa.prevLogIndex, aa.entries, 0);
      ScanBackExactly(x.log, x.commitIndex, aa.prevLogIndex, x.log[aa.prevLogIndex].term);
    }
  }

  /**
    The new nextIndex after a rejection: the follower's length, if it is too short; else right behind the
    leader's last entry of the conflicting term below the probe, if it has one; else the first
    position of that term at the follower.
  */
  lemma BackOffExactly(log: seq<Entry>, next: nat, ar: AppendEntriesReply)
    requires Sorted(log) && 1 <= next <= |log|
    ensures var r := BackOff(log, next, ar);
      if ar.xTerm == -1 then r == AtLeastZero(ar.xLen)
      else if forall i :: 0 <= i < next ==> log[i].term != ar.xTerm then
        r == if log[0].term > ar.xTerm then 0 else AtLeastZero(ar.xIndex)
      else 1 <= r <= next && log[r - 1].term == ar.xTerm && forall i :: r <= i < next ==> log[i].term != ar.xTerm
  {
  }

  function AtLeastZero(i: int): int { if i > 0 then i else 0 }

  /** A confirmation moves the peer's match index to the last position confirmed, never back, and nextIndex right behind it. */
  lemma SuccessAdvances(x: Node, p: nat, peer: nat, aa: AppendEntriesArgs, ar: AppendEntriesReply)
    requires x.role == LEADER && aa.term == x.currentTerm && ar.success && CanHandleReply(x, peer, aa)
    ensures var x' := OnAppendReply(x, p, peer, aa, ar);
      && |x'.matchIndex| == |x.matchIndex| && |x'.nextIndex| == |x.nextIndex|
      && x'.matchIndex[peer] >= x.matchIndex[peer] && x'.matchIndex[peer] >= aa.prevLogIndex + |aa.entries|
      && (x'.matchIndex[peer] == x.matchIndex[peer] || x'.matchIndex[peer] == aa.prevLogIndex + |aa.entries|)
      && x'.nextIndex[peer] == x'.matchIndex[peer] + 1
      && (forall i :: 0 <= i < |x.matchIndex| && i != peer ==> x'.matchIndex[i] == x.matchIndex[i] && x'.nextIndex[i] == x.nextIndex[i])
      && x'.role == LEADER && x'.currentTerm == x.currentTerm && x'.log == x.log && x'.votedFor == x.votedFor
  {
  }

  /** Nothing is done on a reply to a request of another term, by a node that leads no more, or with an older term. */
  lemma StaleReplyIgnored(x: Node, p: nat, peer: nat, aa: AppendEntriesArgs, ar: AppendEntriesReply)
    requires CanHandleReply(x, peer, aa)
    requires x.role != LEADER || aa.term != x.currentTerm || (!ar.success && ar.term < x.currentTerm)
    ensures OnAppendReply(x, p, peer, aa, ar) == x
  {
  }

  /** A reply of a newer term makes the leader step down to it, whatever it says otherwise. */
  lemma NewerTermStepsDown(x: Node, p: nat, peer: nat, aa: AppendEntriesArgs, ar: AppendEntriesReply)
    requires x.role == LEADER && aa.term == x.currentTerm && !ar.success && ar.term > x.currentTerm
    requires CanHandleReply(x, peer, aa)
    ensures var x' := OnAppendReply(x, p, peer, aa, ar);
      x' == x.(currentTerm := ar.term, votedFor := -1, role := FOLLOWER)
  {
  }
}
