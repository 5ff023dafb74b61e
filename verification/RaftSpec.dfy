/**
  The Raft node as a value, and every block the program runs under its mutex as a function on
  that value. lastIncludedIndex is 0 throughout (it is set once, to 0, and never assigned again),
  so virtual and real log indices coincide.
*/
module RaftSpec {
  import opened Types

  datatype Role = FOLLOWER | CANDIDATE | LEADER

  datatype RequestVoteArgs = RequestVoteArgs(term: nat, candidateId: nat, lastLogIndex: int, lastLogTerm: int)
  datatype RequestVoteReply = RequestVoteReply(term: nat, voteGranted: bool)
  datatype AppendEntriesArgs = AppendEntriesArgs(
    term: nat, leaderId: nat, prevLogIndex: nat, prevLogTerm: int, entries: seq<Entry>, leaderCommit: nat)
  datatype AppendEntriesReply = AppendEntriesReply(term: nat, success: bool, xTerm: int, xIndex: int, xLen: int)

  datatype Node = Node(
    currentTerm: nat,
    votedFor: int,
    role: Role,
    log: seq<Entry>,
    commitIndex: nat,
    nextIndex: seq<int>,
    matchIndex: seq<int>)

  /** The state a node is constructed in, for a cluster of n nodes and an empty log directory. */
  function InitialNode(n: nat): Node {
    Node(0, -1, FOLLOWER, [DUMMY], 0, seq(n, _ => 0), seq(n, _ => 0))
  }

  /** Adopt a newer term: forget the vote and step down. */
  function Observe(x: Node, term: nat): Node {
    if term > x.currentTerm then x.(currentTerm := term, votedFor := -1, role := FOLLOWER) else x
  }

  // ---- Elections -------------------------------------------------------------------------

  function Elect(x: Node, self: nat): Node {
    x.(currentTerm := x.currentTerm + 1, role := CANDIDATE, votedFor := self)
  }

  function ElectionArgs(x: Node, self: nat): RequestVoteArgs
    requires |x.log| > 0
  {
    RequestVoteArgs(x.currentTerm, self, |x.log| - 1, x.log[|x.log| - 1].term)
  }

  /** The candidate's log is at least as up-to-date as this one. */
  predicate UpToDate(args: RequestVoteArgs, log: seq<Entry>)
    requires |log| > 0
  {
    var last := log[|log| - 1].term;
    args.lastLogTerm > last || (args.lastLogTerm == last && args.lastLogIndex >= |log| - 1)
  }

  function OnRequestVote(x: Node, args: RequestVoteArgs): (Node, RequestVoteReply)
    requires |x.log| > 0
  {
    if args.term < x.currentTerm then
      (x, RequestVoteReply(x.currentTerm, false))
    else
      var y := Observe(x, args.term);
      if (y.votedFor == -1 || y.votedFor == args.candidateId) && UpToDate(args, y.log) then
        (y.(votedFor := args.candidateId, role := FOLLOWER), RequestVoteReply(args.term, true))
      else
        (y, RequestVoteReply(y.currentTerm, false))
  }

  /** The reply block of GetVoteAnswer: the new node, and whether the vote is reported as won. */
  function OnVoteAnswer(x: Node, args: RequestVoteArgs, reply: RequestVoteReply): (Node, bool) {
    if x.role != CANDIDATE || args.term != x.currentTerm then (x, false)
    else (Observe(x, reply.term), reply.voteGranted)
  }

  function BecomeLeader(x: Node, n: nat): Node {
    x.(role := LEADER, nextIndex := seq(n, _ => |x.log|), matchIndex := seq(n, _ => 0))
  }

  /** The tally in collectVote: count is the shared counter of the election for `term`. */
  function OnVoteWon(x: Node, n: nat, term: nat, count: nat): (Node, nat) {
    if count > n / 2 then (x, count)
    else if count + 1 > n / 2 && x.role == CANDIDATE && x.currentTerm == term then (BecomeLeader(x, n), count + 1)
    else (x, count + 1)
  }

  // ---- Replication: the leader's sends ---------------------------------------------------

  function Push(x: Node, e: Entry): Node {
    x.(log := x.log + [e])
  }

  function HeartBeatArgs(x: Node, self: nat, i: nat): AppendEntriesArgs
    requires CanSend(x, i)
  {
    var prev := x.nextIndex[i] - 1;
    AppendEntriesArgs(x.currentTerm, self, prev, x.log[prev].term,
                      if |x.log| - 1 > prev then x.log[prev + 1..] else [], x.commitIndex)
  }

  /** The index reads of the send are in range. */
  predicate CanSend(x: Node, i: nat) {
    i < |x.nextIndex| && 1 <= x.nextIndex[i] <= |x.log|
  }

  // ---- Replication: the follower ---------------------------------------------------------

  /** Where the follower's backward scan over one term stops; it does not go below commitIndex. */
  function ScanBack(log: seq<Entry>, commitIndex: nat, i: nat, xTerm: int): (r: nat)
    requires i < |log|
    ensures r <= i
  {
    if i > commitIndex && log[i].term == xTerm then ScanBack(log, commitIndex, i - 1, xTerm) else i
  }

  /** The merge of the sent entries idx, idx+1, .. behind position prev. */
  function Merge(log: seq<Entry>, prev: nat, entries: seq<Entry>, idx: nat := 0): seq<Entry>
    requires idx <= |entries| && prev + 1 + idx <= |log|
    decreases |entries| - idx
  {
    var ridx := prev + 1 + idx;
    if idx == |entries| then log
    else if ridx < |log| && log[ridx].term != entries[idx].term then log[..ridx] + entries[idx..]
    else if ridx == |log| then log + entries[idx..]
    else Merge(log, prev, entries, idx + 1)
  }

  function NewCommit(commitIndex: nat, leaderCommit: nat, size: nat): nat
    requires size > 0
  {
    if leaderCommit > commitIndex then (if leaderCommit > size - 1 then size - 1 else leaderCommit) else commitIndex
  }

  function OnAppendEntries(x: Node, args: AppendEntriesArgs): (Node, AppendEntriesReply)
    requires |x.log| > 0
  {
    if args.term < x.currentTerm then (x, AppendEntriesReply(x.currentTerm, false, 0, 0, 0))
    else CheckAndMerge(Observe(x, args.term), args)
  }

  /** The handler's work once the term is settled. */
  function CheckAndMerge(x: Node, args: AppendEntriesArgs): (Node, AppendEntriesReply)
    requires |x.log| > 0
  {
    if args.prevLogIndex >= |x.log| then
      (x, AppendEntriesReply(x.currentTerm, false, -1, 0, |x.log|))
    else if x.log[args.prevLogIndex].term != args.prevLogTerm then
      var xTerm := x.log[args.prevLogIndex].term;
      (x, AppendEntriesReply(x.currentTerm, false, xTerm,
                             ScanBack(x.log, x.commitIndex, args.prevLogIndex, xTerm) + 1, |x.log|))
    else
      var log := Merge(x.log, args.prevLogIndex, args.entries);
      MergeNonEmpty(x.log, args.prevLogIndex, args.entries, 0);
      (x.(log := log, commitIndex := NewCommit(x.commitIndex, args.leaderCommit, |log|)),
       AppendEntriesReply(x.currentTerm, true, 0, 0, 0))
  }

  lemma {:induction false} MergeNonEmpty(log: seq<Entry>, prev: nat, entries: seq<Entry>, idx: nat)
    requires idx <= |entries| && prev + 1 + idx <= |log|
    ensures |Merge(log, prev, entries, idx)| >= prev + 1 + |entries|
    decreases |entries| - idx
  {
    if idx < |entries| && prev + 1 + idx < |log| && log[prev + 1 + idx].term == entries[idx].term {
      MergeNonEmpty(log, prev, entries, idx + 1);
    }
  }

  // ---- Replication: the leader's reply handler -------------------------------------------

  /** The peers known to hold the log up to position k. */
  ghost function Holders(matchIndex: seq<int>, self: nat, k: int): set<int> {
    set i | 0 <= i < |matchIndex| && i != self && matchIndex[i] >= k
  }

  /** Position k is stored by a strict majority, counting the leader, and is of the current term. */
  ghost predicate Replicated(x: Node, self: nat, k: nat)
    requires k < |x.log|
  {
    1 + (if x.log[k].term == x.currentTerm then |Holders(x.matchIndex, self, k)| else 0) > |x.matchIndex| / 2
  }

  /** The commit scan downwards from k. */
  ghost function ScanCommit(x: Node, self: nat, k: int): int
    requires k < |x.log|
    decreases k
  {
    if k <= x.commitIndex || Replicated(x, self, k) then k else ScanCommit(x, self, k - 1)
  }

  function LastAtMost(log: seq<Entry>, i: nat, xTerm: int): (r: nat)
    requires i < |log|
    ensures r <= i
    ensures log[r].term <= xTerm || r == 0
    ensures forall j :: r < j <= i ==> log[j].term > xTerm
  {
    if i > 0 && log[i].term > xTerm then LastAtMost(log, i - 1, xTerm) else i
  }

  /** The new nextIndex of a follower whose reply rejected a probe. */
  function BackOff(log: seq<Entry>, next: int, reply: AppendEntriesReply): int
    requires |log| > 0 && next <= |log|
  {
    if reply.xTerm == -1 then
      if 0 >= reply.xLen then 0 else reply.xLen
    else
      var i := LastAtMost(log, if next - 1 < 0 then 0 else next - 1, reply.xTerm);
      if i == 0 && log[i].term > reply.xTerm then 0
      else if log[i].term == reply.xTerm then i + 1
      else if reply.xIndex <= 0 then 0 else reply.xIndex
  }

  /** The handler goes on to read the log and the peer's indices, and these reads are in range. */
  predicate CanHandleReply(x: Node, target: nat, args: AppendEntriesArgs) {
    x.role == LEADER && args.term == x.currentTerm ==>
      x.commitIndex < |x.log| && target < |x.nextIndex| == |x.matchIndex| && x.nextIndex[target] <= |x.log|
  }

  ghost function OnAppendReply(x: Node, self: nat, target: nat, args: AppendEntriesArgs, reply: AppendEntriesReply): Node
    requires CanHandleReply(x, target, args)
  {
    if x.role != LEADER || args.term != x.currentTerm then x
    else if reply.success then
      var m := args.prevLogIndex + |args.entries|;
      var best := if m > x.matchIndex[target] then m else x.matchIndex[target];
      var y := x.(matchIndex := x.matchIndex[target := best], nextIndex := x.nextIndex[target := best + 1]);
      var k := ScanCommit(y, self, |y.log| - 1);
      ScanCommitLow(y, self, |y.log| - 1);
      y.(commitIndex := k)
    else if reply.term > x.currentTerm then Observe(x, reply.term)
    else if reply.term == x.currentTerm then
      x.(nextIndex := x.nextIndex[target := BackOff(x.log, x.nextIndex[target], reply)])
    else x
  }

  lemma {:induction false} ScanCommitLow(x: Node, self: nat, k: int)
    requires x.commitIndex <= k < |x.log|
    ensures x.commitIndex <= ScanCommit(x, self, k) <= k
    ensures ScanCommit(x, self, k) > x.commitIndex ==> Replicated(x, self, ScanCommit(x, self, k))
    ensures forall j :: ScanCommit(x, self, k) < j <= k ==> !Replicated(x, self, j)
    decreases k
  {
    if k > x.commitIndex && !Replicated(x, self, k) {
      ScanCommitLow(x, self, k - 1);
    }
  }
}
