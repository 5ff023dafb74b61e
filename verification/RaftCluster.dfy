/**
  A cluster of Raft nodes as a step system. Every step is one block run under one node's mutex.
  The network is a set of messages that only grows, so messages may be delayed, reordered,
  delivered more than once, or never.
*/
module RaftCluster {
  import opened Types
  import opened RaftSpec

  datatype Msg =
    | VoteRequest(va: RequestVoteArgs)
    | VoteReply(voter: nat, va: RequestVoteArgs, vr: RequestVoteReply)
    | AppendRequest(dst: nat, aa: AppendEntriesArgs)
    | AppendReply(src: nat, aa: AppendEntriesArgs, ar: AppendEntriesReply)

  /**
    answers: the (candidate, term, voter) whose GetVoteAnswer returned true.
    tally:   the voters that collectVote has counted, per (candidate, term); the shared counter of
             that election is one more than their number.
  */
  datatype Cluster = Cluster(
    nodes: seq<Node>,
    net: set<Msg>,
    answers: set<(nat, nat, nat)>,
    tally: map<(nat, nat), set<int>>)

  datatype Event =
    | EElect(p: nat)
    | ERequestVote(p: nat, va: RequestVoteArgs)
    | EVoteAnswer(voter: nat, va: RequestVoteArgs, vr: RequestVoteReply)
    | ECollectVote(p: nat, term: nat, voter: nat)
    | EPush(p: nat, entry: Entry)
    | ESend(p: nat, peer: nat)
    | EAppend(p: nat, aa: AppendEntriesArgs)
    | EAppendReply(peer: nat, aa: AppendEntriesArgs, ar: AppendEntriesReply)

  function InitialCluster(n: nat): Cluster {
    Cluster(seq(n, _ => InitialNode(n)), {}, {}, map[])
  }

  /** The vote request is broadcast: any node but the candidate may receive it. */
  ghost predicate Enabled(c: Cluster, e: Event) {
    var n := |c.nodes|;
    match e
    case EElect(p) => p < n && |c.nodes[p].log| > 0
    case ERequestVote(p, va) => p < n && |c.nodes[p].log| > 0 && VoteRequest(va) in c.net && va.candidateId != p
    case EVoteAnswer(voter, va, vr) => va.candidateId < n && VoteReply(voter, va, vr) in c.net
    case ECollectVote(p, term, voter) =>
      && p < n && (p, term, voter) in c.answers
      && (p, term) in c.tally && voter !in c.tally[(p, term)]
    case EPush(p, entry) => p < n && c.nodes[p].role == LEADER && entry.term == c.nodes[p].currentTerm
    case ESend(p, peer) => p < n && peer < n && peer != p && c.nodes[p].role == LEADER && CanSend(c.nodes[p], peer)
    case EAppend(p, aa) => p < n && |c.nodes[p].log| > 0 && AppendRequest(p, aa) in c.net
    case EAppendReply(peer, aa, ar) =>
      && aa.leaderId < n && AppendReply(peer, aa, ar) in c.net
      && CanHandleReply(c.nodes[aa.leaderId], peer, aa)
  }

  function SetNode(c: Cluster, p: nat, x: Node): Cluster
    requires p < |c.nodes|
  {
    c.(nodes := c.nodes[p := x])
  }

  ghost function Apply(c: Cluster, e: Event): Cluster
    requires Enabled(c, e)
  {
    var n := |c.nodes|;
    match e
    case EElect(p) =>
      var x := Elect(c.nodes[p], p);
      SetNode(c, p, x).(net := c.net + {VoteRequest(ElectionArgs(x, p))},
                        tally := c.tally[(p, x.currentTerm) := {}])
    case ERequestVote(p, va) =>
      var (x, vr) := OnRequestVote(c.nodes[p], va);
      SetNode(c, p, x).(net := c.net + {VoteReply(p, va, vr)})
    case EVoteAnswer(voter, va, vr) =>
      var (x, won) := OnVoteAnswer(c.nodes[va.candidateId], va, vr);
      SetNode(c, va.candidateId, x).(answers := if won then c.answers + {(va.candidateId, va.term, voter)} else c.answers)
    case ECollectVote(p, term, voter) =>
      var voters := c.tally[(p, term)];
      var count := 1 + |voters|;
      var (x, count') := OnVoteWon(c.nodes[p], n, term, count);
      SetNode(c, p, x).(tally := if count' > count then c.tally[(p, term) := voters + {voter}] else c.tally)
    case EPush(p, entry) =>
      SetNode(c, p, Push(c.nodes[p], entry))
    case ESend(p, peer) =>
      c.(net := c.net + {AppendRequest(peer, HeartBeatArgs(c.nodes[p], p, peer))})
    case EAppend(p, aa) =>
      var (x, ar) := OnAppendEntries(c.nodes[p], aa);
      SetNode(c, p, x).(net := c.net + {AppendReply(p, aa, ar)})
    case EAppendReply(peer, aa, ar) =>
      SetNode(c, aa.leaderId, OnAppendReply(c.nodes[aa.leaderId], aa.leaderId, peer, aa, ar))
  }

  /** A run: from the initial cluster of n nodes, one step after another. */
  ghost predicate Run(n: nat, cs: seq<Cluster>) {
    && n >= 2
    && |cs| > 0 && cs[0] == InitialCluster(n)
    && forall i :: 0 <= i < |cs| - 1 ==> Step(cs[i], cs[i + 1])
  }

  ghost predicate Step(c: Cluster, c': Cluster) {
    exists e :: Enabled(c, e) && c' == Apply(c, e)
  }
}
