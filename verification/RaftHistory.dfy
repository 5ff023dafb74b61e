/** What the proof remembers about a run beyond the state, and the invariant that ties the two. */
module RaftHistory {
  import opened Types
  import opened Quorum
  import opened RaftSpec
  import opened RaftCluster

  /**
    leader, electors: per term, the node that won it and a majority that voted for it.
    llog: per term, the longest log its leader had while leading (term 0: the initial log).
    vote: per (voter, term), the candidate voted for.
    cand: per (candidate, term), the candidate's log when it stood.
    ack:  per (node, term), the last position up to which the node confirmed the leader's log.
  */
  datatype History = History(
    leader: map<int, int>,
    electors: map<int, set<int>>,
    llog: map<int, seq<Entry>>,
    vote: map<(int, int), int>,
    cand: map<(int, int), seq<Entry>>,
    ack: map<(int, int), int>)

  const NO_HISTORY := History(map[], map[], map[0 := [DUMMY]], map[], map[], map[])

  // ---- Logs ------------------------------------------------------------------------------

  /** Both logs reach position k and are equal up to and including it. */
  ghost predicate Agree(a: seq<Entry>, b: seq<Entry>, k: int) {
    k < |a| && k < |b| && forall j :: 0 <= j <= k ==> a[j] == b[j]
  }

  ghost predicate Prefix(a: seq<Entry>, b: seq<Entry>) {
    |a| <= |b| && forall j :: 0 <= j < |a| ==> a[j] == b[j]
  }

  ghost predicate Sorted(log: seq<Entry>) {
    forall i, j :: 0 <= i <= j < |log| ==> log[i].term <= log[j].term
  }

  ghost predicate TermsIn(log: seq<Entry>, max: int) {
    forall i :: 0 <= i < |log| ==> 0 <= log[i].term <= max
  }

  /** Up to any of its entries, the log is what the leader of that entry's term had. */
  ghost predicate LogOk(h: History, log: seq<Entry>) {
    && |log| > 0 && log[0] == DUMMY
    && forall i {:trigger log[i]} :: 0 <= i < |log| ==> log[i].term in h.llog && Agree(log, h.llog[log[i].term], i)
  }

  // ---- Commitment ------------------------------------------------------------------------

  ghost predicate Acked(h: History, v: int, t: int, k: int) {
    (v, t) in h.ack && k <= h.ack[(v, t)]
  }

  /** Position k of the term-t leader's log holds an entry of term t. */
  ghost predicate OwnEntry(h: History, t: int, k: int) {
    t in h.llog && 0 <= k < |h.llog[t]| && h.llog[t][k].term == t
  }

  ghost predicate AllAcked(h: History, q: set<int>, t: int, k: int) {
    forall v :: v in q ==> Acked(h, v, t, k)
  }

  /** A majority confirmed position k in term t. */
  ghost predicate Committed(n: nat, h: History, t: int, k: int) {
    OwnEntry(h, t, k) && exists q :: Majority(q, n) && AllAcked(h, q, t, k)
  }

  ghost predicate NoneCanAck(c: Cluster, h: History, q: set<int>, t: int, k: int) {
    forall v :: v in q ==> 0 <= v < |c.nodes| && c.nodes[v].currentTerm > t && !Acked(h, v, t, k)
  }

  /** A majority has left term t without confirming position k: it will never be committed. */
  ghost predicate Dead(c: Cluster, h: History, t: int, k: int) {
    exists q :: Majority(q, |c.nodes|) && NoneCanAck(c, h, q, t, k)
  }

  ghost predicate Keeps(c: Cluster, h: History, log: seq<Entry>, t: int, k: int) {
    OwnEntry(h, t, k) ==> Agree(log, h.llog[t], k) || Dead(c, h, t, k)
  }

  // ---- The invariant ---------------------------------------------------------------------

  /** The record of term t: its log, and, if t was won, its election. */
  ghost predicate TermOk(c: Cluster, h: History, t: int) {
    && t in h.llog && t >= 0
    && (t == 0 <==> t !in h.leader)
    && LogOk(h, h.llog[t]) && Sorted(h.llog[t]) && TermsIn(h.llog[t], t)
    && (t == 0 ==> h.llog[t] == [DUMMY])
    && (t in h.leader ==>
      && 0 <= h.leader[t] < |c.nodes|
      && t in h.electors && Majority(h.electors[t], |c.nodes|)
      && forall v :: v in h.electors[t] ==> (v, t) in h.vote && h.vote[(v, t)] == h.leader[t] && c.nodes[v].currentTerm >= t)
  }

  /** The leader of term u has everything that was, or still could be, committed in an earlier term. */
  ghost predicate LeaderComplete(c: Cluster, h: History, u: int) {
    u in h.llog && forall t, k :: t < u && OwnEntry(h, t, k) ==> Keeps(c, h, h.llog[u], t, k)
  }

  ghost predicate CandOk(c: Cluster, h: History, p: int, u: int) {
    && (p, u) in h.cand
    && 0 <= p < |c.nodes| && 1 <= u <= c.nodes[p].currentTerm
    && LogOk(h, h.cand[(p, u)]) && TermsIn(h.cand[(p, u)], u - 1)
  }

  /** Whoever v voted for in term u had every earlier entry v confirmed that may be committed. */
  ghost predicate VoteOk(c: Cluster, h: History, v: int, u: int) {
    && (v, u) in h.vote
    && 0 <= v < |c.nodes| && 0 <= u <= c.nodes[v].currentTerm
    && (h.vote[(v, u)], u) in h.cand
    && forall t, k :: t < u && Acked(h, v, t, k) && OwnEntry(h, t, k) ==> Keeps(c, h, h.cand[(h.vote[(v, u)], u)], t, k)
  }

  /** Confirmed positions are still there, unless they can never be committed; surely so in the same term. */
  ghost predicate AcksOk(c: Cluster, h: History, v: int)
    requires 0 <= v < |c.nodes|
  {
    && (forall t :: (v, t) in h.ack ==>
        t in h.llog && 0 <= t <= c.nodes[v].currentTerm && 0 <= h.ack[(v, t)] < |h.llog[t]|)
    && (forall t, k :: Acked(h, v, t, k) && OwnEntry(h, t, k) ==> Keeps(c, h, c.nodes[v].log, t, k))
    && (forall t :: (v, t) in h.ack && t == c.nodes[v].currentTerm ==> Agree(c.nodes[v].log, h.llog[t], h.ack[(v, t)]))
  }

  /** Position k of this log is committed. */
  ghost predicate CommitOk(n: nat, h: History, log: seq<Entry>, k: int) {
    0 <= k < |log| && (k == 0 || Committed(n, h, log[k].term, k))
  }

  ghost predicate VotedForOk(h: History, x: Node, p: int) {
    && (x.votedFor == -1 ==> (p, x.currentTerm) !in h.vote)
    && (x.votedFor != -1 ==> (p, x.currentTerm) in h.vote && h.vote[(p, x.currentTerm)] == x.votedFor)
    && (x.role != FOLLOWER ==> x.votedFor == p)
  }

  /** A candidate still has the log it stood with, unless another node has won the term. */
  ghost predicate CandidateOk(h: History, x: Node, p: int) {
    x.role == CANDIDATE ==>
      && (p, x.currentTerm) in h.cand
      && (x.currentTerm in h.leader ==> h.leader[x.currentTerm] != p)
      && (x.currentTerm !in h.leader ==> h.cand[(p, x.currentTerm)] == x.log)
  }

  ghost predicate PeerOk(h: History, x: Node, i: nat)
    requires i < |x.nextIndex| == |x.matchIndex|
  {
    && 1 <= x.nextIndex[i] <= |x.log|
    && 0 <= x.matchIndex[i] < |x.log|
    && (x.matchIndex[i] > 0 ==> Acked(h, i, x.currentTerm, x.matchIndex[i]))
  }

  ghost predicate LeaderOk(h: History, x: Node, p: int) {
    && |x.nextIndex| == |x.matchIndex|
    && (x.role == LEADER ==>
      && x.currentTerm in h.leader && h.leader[x.currentTerm] == p
      && x.currentTerm in h.llog && h.llog[x.currentTerm] == x.log
      && (p, x.currentTerm) in h.ack && h.ack[(p, x.currentTerm)] == |x.log| - 1
      && forall i :: 0 <= i < |x.nextIndex| ==> PeerOk(h, x, i))
  }

  ghost predicate NodeOk(c: Cluster, h: History, p: int)
    requires 0 <= p < |c.nodes|
  {
    var x := c.nodes[p];
    && |x.nextIndex| == |c.nodes|
    && LogOk(h, x.log) && TermsIn(x.log, x.currentTerm)
    && VotedForOk(h, x, p)
    && CandidateOk(h, x, p)
    && LeaderOk(h, x, p)
    && AcksOk(c, h, p)
    && CommitOk(|c.nodes|, h, x.log, x.commitIndex)
  }

  /** A sent AppendEntries is a slice of the term's log, up to and beyond the commit index it carries. */
  ghost predicate AppendOk(n: nat, h: History, aa: AppendEntriesArgs) {
    && aa.term in h.leader && h.leader[aa.term] == aa.leaderId && aa.term in h.llog
    && var log := h.llog[aa.term];
    && aa.prevLogIndex + |aa.entries| < |log|
    && log[aa.prevLogIndex].term == aa.prevLogTerm
    && (forall j :: 0 <= j < |aa.entries| ==> aa.entries[j] == log[aa.prevLogIndex + 1 + j])
    && aa.leaderCommit <= aa.prevLogIndex + |aa.entries|
    && CommitOk(n, h, log, aa.leaderCommit)
  }

  ghost predicate HintOk(aa: AppendEntriesArgs, ar: AppendEntriesReply) {
    if ar.xTerm == -1 then 1 <= ar.xLen <= aa.prevLogIndex
    else ar.xTerm >= 1 && ar.xTerm != aa.prevLogTerm && 1 <= ar.xIndex <= aa.prevLogIndex
  }

  ghost predicate ReplyOk(h: History, v: int, aa: AppendEntriesArgs, ar: AppendEntriesReply) {
    if ar.success then Acked(h, v, aa.term, aa.prevLogIndex + |aa.entries|)
    else ar.term >= aa.term && (ar.term == aa.term ==> HintOk(aa, ar))
  }

  ghost predicate MsgOk(n: nat, h: History, m: Msg) {
    match m
    case VoteRequest(va) =>
      && (va.candidateId, va.term) in h.cand
      && var log := h.cand[(va.candidateId, va.term)];
      && |log| > 0 && va.lastLogIndex == |log| - 1 && va.lastLogTerm == log[|log| - 1].term
    case VoteReply(v, va, vr) =>
      vr.voteGranted ==> v != va.candidateId && (v, va.term) in h.vote && h.vote[(v, va.term)] == va.candidateId
    case AppendRequest(dst, aa) => AppendOk(n, h, aa) && dst != aa.leaderId
    case AppendReply(v, aa, ar) => v < n && AppendOk(n, h, aa) && v != aa.leaderId && ReplyOk(h, v, aa, ar)
  }

  /** Every counted voter, and every answer waiting to be counted, did vote for the candidate. */
  ghost predicate TallyOk(c: Cluster, h: History) {
    && (forall a :: a in c.answers ==> a.2 != a.0 && (a.2, a.1) in h.vote && h.vote[(a.2, a.1)] == a.0)
    && (forall pu, v :: pu in c.tally && v in c.tally[pu] ==> v != pu.0 && (v, pu.1) in h.vote && h.vote[(v, pu.1)] == pu.0)
  }

  ghost predicate Inv(c: Cluster, h: History) {
    && |c.nodes| >= 2
    && (0 in h.llog && forall t :: t in h.llog ==> TermOk(c, h, t) && LeaderComplete(c, h, t))
    && (forall t :: t in h.leader ==> t in h.llog)
    && (forall pu :: pu in h.cand ==> CandOk(c, h, pu.0, pu.1))
    && (forall vu :: vu in h.vote ==> VoteOk(c, h, vu.0, vu.1))
    && (forall p :: 0 <= p < |c.nodes| ==> NodeOk(c, h, p))
    && (forall m :: m in c.net ==> MsgOk(|c.nodes|, h, m))
    && TallyOk(c, h)
  }

  // ---- What a later state keeps -----------------------------------------------------------

  ghost predicate Later(c: Cluster, h: History, c': Cluster, h': History) {
    && |c'.nodes| == |c.nodes|
    && (forall v :: 0 <= v < |c.nodes| ==> c.nodes[v].currentTerm <= c'.nodes[v].currentTerm)
    && (forall t :: t in h.llog ==> t in h'.llog && Prefix(h.llog[t], h'.llog[t]))
    && (forall t :: t in h.leader ==> t in h'.leader && h'.leader[t] == h.leader[t])
    && (forall t :: t in h.leader && t in h.electors ==> t in h'.electors && h'.electors[t] == h.electors[t])
    && (forall vu :: vu in h.vote ==> vu in h'.vote && h'.vote[vu] == h.vote[vu])
    && (forall pu :: pu in h.cand ==> pu in h'.cand && h'.cand[pu] == h.cand[pu])
    && (forall vt :: vt in h.ack ==> vt in h'.ack && h.ack[vt] <= h'.ack[vt])
    && NoLateAcks(c, h, h')
  }

  /** No node confirms anything in a term it has left. */
  ghost predicate NoLateAcks(c: Cluster, h: History, h': History) {
    forall vt :: vt in h'.ack && 0 <= vt.0 < |c.nodes| && vt.1 < c.nodes[vt.0].currentTerm
      ==> vt in h.ack && h'.ack[vt] == h.ack[vt]
  }
}
