/** The Raft guarantees, over every run of every cluster. */
module RaftSafety {
  import opened Types
  import opened Quorum
  import opened RaftSpec
  import opened RaftLog
  import opened RaftCluster
  import opened RaftHistory
  import opened RaftStable
  import opened RaftRecord
  import opened RaftElections
  import opened RaftLeader
  import opened RaftFollower
  import opened RaftReplies

  // ---- The invariant holds over every run ------------------------------------------------

  lemma InitialOk(n: nat)
    requires n >= 2
    ensures Inv(InitialCluster(n), NO_HISTORY)
  {
  }

  lemma StepOk(c: Cluster, h: History, e: Event, c': Cluster, h': History)
    requires Inv(c, h) && Steps(c, h, e, c', h')
    ensures Inv(c', h') && Later(c, h, c', h')
  {
    hide *;
    match e
    case EElect(p) => ElectOk(c, h, p, c', h');
    case ERequestVote(p, va) => RequestVoteOk(c, h, p, va, c', h');
    case EVoteAnswer(voter, va, vr) => VoteAnswerOk(c, h, voter, va, vr, c', h');
    case ECollectVote(p, term, voter) => CollectVoteOk(c, h, p, term, voter, c', h');
    case EPush(p, entry) => PushOk(c, h, p, entry, c', h');
    case ESend(p, peer) => SendOk(c, h, p, peer, c', h');
    case EAppend(p, aa) => AppendStepOk(c, h, p, aa, c', h');
    case EAppendReply(peer, aa, ar) => ReplyStepOk(c, h, peer, aa, ar, c', h');
  }

  lemma NoLateAcksTrans(c: Cluster, h: History, c': Cluster, h': History, h'': History)
    requires |c'.nodes| == |c.nodes| && forall v :: 0 <= v < |c.nodes| ==> c.nodes[v].currentTerm <= c'.nodes[v].currentTerm
    requires NoLateAcks(c, h, h') && NoLateAcks(c', h', h'')
    ensures NoLateAcks(c, h, h'')
  {
  }

  lemma LaterTrans(c: Cluster, h: History, c': Cluster, h': History, c'': Cluster, h'': History)
    requires Later(c, h, c', h') && Later(c', h', c'', h'')
    ensures Later(c, h, c'', h'')
  {
    NoLateAcksTrans(c, h, c', h', h'');
    hide NoLateAcks;
  }

  /** The histories along a run. */
  ghost predicate Histories(cs: seq<Cluster>, hs: seq<History>) {
    && |hs| == |cs|
    && (forall i :: 0 <= i < |cs| ==> Inv(cs[i], hs[i]))
    && (forall i, j :: 0 <= i <= j < |cs| ==> Later(cs[i], hs[i], cs[j], hs[j]))
  }

  lemma {:induction false} RunOk(n: nat, cs: seq<Cluster>) returns (hs: seq<History>)
    requires Run(n, cs)
    ensures Histories(cs, hs)
    decreases |cs|
  {
    hide Inv, Later, Enabled, Apply, Record, InitialCluster, NO_HISTORY;
    if |cs| == 1 {
      InitialOk(n);
      LaterRefl(cs[0], NO_HISTORY);
      hs := [NO_HISTORY];
    } else {
      var m := |cs| - 1;
      assert forall i :: 0 <= i < m - 1 ==> Step(cs[i], cs[i + 1]);
      hs := RunOk(n, cs[..m]);
      assert Step(cs[m - 1], cs[m - 1 + 1]);
      var e :| Enabled(cs[m - 1], e) && cs[m] == Apply(cs[m - 1], e);
      var h := Record(cs[m - 1], hs[m - 1], e);
      Extend(cs, hs, e, h);
      hs := hs + [h];
    }
  }

  lemma Extend(cs: seq<Cluster>, hs: seq<History>, e: Event, h: History)
    requires |cs| >= 2 && Histories(cs[..|cs| - 1], hs)
    requires Steps(cs[|cs| - 2], hs[|cs| - 2], e, cs[|cs| - 1], h)
    ensures Histories(cs, hs + [h])
  {
    var m := |cs| - 1;
    hide Inv, Later, Steps, Enabled, Apply, Record;
    var hs' := hs + [h];
    assert cs[..m][m - 1] == cs[m - 1];
    StepOk(cs[m - 1], hs[m - 1], e, cs[m], h);
    LaterRefl(cs[m], h);
    forall i, j | 0 <= i <= j < |cs| ensures Later(cs[i], hs'[i], cs[j], hs'[j]) {
      if j < m {
        assert cs[..m][i] == cs[i] && cs[..m][j] == cs[j];
      } else if i < m {
        assert cs[..m][i] == cs[i];
        assert Later(cs[..m][i], hs[i], cs[..m][m - 1], hs[m - 1]);
        LaterTrans(cs[i], hs[i], cs[m - 1], hs[m - 1], cs[m], h);
      }
    }
    forall i | 0 <= i < |cs| ensures Inv(cs[i], hs'[i]) {
      if i < m {
        assert cs[..m][i] == cs[i];
      }
    }
  }

  lemma LaterRefl(c: Cluster, h: History)
    ensures Later(c, h, c, h)
  {
  }

  /** Two moments of a run, and what the later of them keeps of both. */
  lemma TwoTimes(n: nat, cs: seq<Cluster>, a: nat, b: nat) returns (c: Cluster, h: History, ha: History, hb: History)
    requires Run(n, cs) && a < |cs| && b < |cs|
    ensures Inv(cs[a], ha) && Inv(cs[b], hb) && Inv(c, h)
    ensures Later(cs[a], ha, c, h) && Later(cs[b], hb, c, h)
    ensures |cs[a].nodes| == |cs[b].nodes| == |c.nodes|
    ensures a <= b ==> Later(cs[a], ha, cs[b], hb) && h == hb
  {
    hide Inv, Run;
    var hs := RunOk(n, cs);
    var m := if a < b then b else a;
    c, h, ha, hb := cs[m], hs[m], hs[a], hs[b];
  }

  // ---- Elections -------------------------------------------------------------------------

  /** No two nodes ever lead in the same term. */
  lemma ElectionSafety(n: nat, cs: seq<Cluster>, a: nat, b: nat, p: nat, q: nat)
    requires Run(n, cs) && a < |cs| && b < |cs| && p < |cs[a].nodes| && q < |cs[b].nodes|
    requires cs[a].nodes[p].role == LEADER && cs[b].nodes[q].role == LEADER
    requires cs[a].nodes[p].currentTerm == cs[b].nodes[q].currentTerm
    ensures p == q
  {
    var c, h, ha, hb := TwoTimes(n, cs, a, b);
    assert NodeOk(cs[a], ha, p) && NodeOk(cs[b], hb, q);
  }

  /** Terms only grow, and within a term a node's vote, once cast, stays. */
  lemma OneVotePerTerm(n: nat, cs: seq<Cluster>, a: nat, b: nat, p: nat)
    requires Run(n, cs) && a <= b < |cs| && p < |cs[a].nodes|
    ensures p < |cs[b].nodes| && cs[a].nodes[p].currentTerm <= cs[b].nodes[p].currentTerm
    ensures cs[a].nodes[p].currentTerm == cs[b].nodes[p].currentTerm && cs[a].nodes[p].votedFor != -1
      ==> cs[b].nodes[p].votedFor == cs[a].nodes[p].votedFor
  {
    var c, h, ha, hb := TwoTimes(n, cs, a, b);
    assert NodeOk(cs[a], ha, p) && NodeOk(cs[b], hb, p);
    hide Inv;
    assert VotedForOk(ha, cs[a].nodes[p], p) && VotedForOk(hb, cs[b].nodes[p], p);
  }

  /** Whoever leads in the term of a sent AppendEntries is its sender; in particular the receiver never leads in it. */
  lemma SenderLeads(n: nat, cs: seq<Cluster>, a: nat, b: nat, dst: nat, aa: AppendEntriesArgs, p: nat)
    requires Run(n, cs) && a < |cs| && b < |cs| && AppendRequest(dst, aa) in cs[a].net
    requires p < |cs[b].nodes| && cs[b].nodes[p].role == LEADER && cs[b].nodes[p].currentTerm == aa.term
    ensures p == aa.leaderId && p != dst
  {
    var c, h, ha, hb := TwoTimes(n, cs, a, b);
    assert MsgOk(|cs[a].nodes|, ha, AppendRequest(dst, aa)) && NodeOk(cs[b], hb, p);
  }

  // ---- Logs ------------------------------------------------------------------------------

  lemma NodeLog(c: Cluster, h: History, c': Cluster, h': History, p: nat)
    requires Inv(c, h) && Later(c, h, c', h') && p < |c.nodes|
    ensures LogOk(h', c.nodes[p].log)
  {
    assert NodeOk(c, h, p);
    hide Inv;
    LogOkStable(c, h, c', h', c.nodes[p].log);
  }

  /** Logs with the same term at a position agree up to it, at whatever times they are looked at. */
  lemma LogMatching(n: nat, cs: seq<Cluster>, a: nat, b: nat, p: nat, q: nat, i: nat)
    requires Run(n, cs) && a < |cs| && b < |cs| && p < |cs[a].nodes| && q < |cs[b].nodes|
    requires i < |cs[a].nodes[p].log| && i < |cs[b].nodes[q].log|
    requires cs[a].nodes[p].log[i].term == cs[b].nodes[q].log[i].term
    ensures cs[a].nodes[p].log[..i + 1] == cs[b].nodes[q].log[..i + 1]
  {
    hide Run, Inv, Later, LogOk;
    var c, h, ha, hb := TwoTimes(n, cs, a, b);
    NodeLog(cs[a], ha, c, h, p);
    NodeLog(cs[b], hb, c, h, q);
    LogsMatch(h, cs[a].nodes[p].log, cs[b].nodes[q].log, i);
  }

  lemma RequestLog(c: Cluster, h: History, c': Cluster, h': History, dst: nat, aa: AppendEntriesArgs)
    requires Inv(c, h) && Later(c, h, c', h') && AppendRequest(dst, aa) in c.net
    ensures AppendOk(|c.nodes|, h, aa) && LogOk(h', h.llog[aa.term]) && dst != aa.leaderId
  {
    assert MsgOk(|c.nodes|, h, AppendRequest(dst, aa)) && TermOk(c, h, aa.term);
    hide Inv;
    LogOkStable(c, h, c', h', h.llog[aa.term]);
  }

  /** A log that has an entry's term at the position a sent AppendEntries gives it has all the message has up to there. */
  lemma LogMatchesRequest(n: nat, cs: seq<Cluster>, a: nat, b: nat, p: nat, dst: nat, aa: AppendEntriesArgs, j: nat)
    requires Run(n, cs) && a < |cs| && b < |cs| && p < |cs[a].nodes| && AppendRequest(dst, aa) in cs[b].net
    requires j < |aa.entries| && aa.prevLogIndex + 1 + j < |cs[a].nodes[p].log|
    requires cs[a].nodes[p].log[aa.prevLogIndex + 1 + j].term == aa.entries[j].term
    ensures cs[a].nodes[p].log[aa.prevLogIndex].term == aa.prevLogTerm
    ensures cs[a].nodes[p].log[aa.prevLogIndex + 1..aa.prevLogIndex + 2 + j] == aa.entries[..j + 1]
  {
    hide Run, Inv, Later, LogOk, CommitOk;
    var c, h, ha, hb := TwoTimes(n, cs, a, b);
    NodeLog(cs[a], ha, c, h, p);
    RequestLog(cs[b], hb, c, h, dst, aa);
    LogsMatch(h, cs[a].nodes[p].log, hb.llog[aa.term], aa.prevLogIndex + 1 + j);
  }

  /** The terms of a log do not decrease along it and never exceed the node's term. */
  lemma LogTerms(n: nat, cs: seq<Cluster>, a: nat, p: nat)
    requires Run(n, cs) && a < |cs| && p < |cs[a].nodes|
    ensures Sorted(cs[a].nodes[p].log) && TermsIn(cs[a].nodes[p].log, cs[a].nodes[p].currentTerm)
    ensures |cs[a].nodes[p].log| > 0 && cs[a].nodes[p].log[0] == DUMMY
  {
    var c, h, ha, hb := TwoTimes(n, cs, a, a);
    assert NodeOk(cs[a], ha, p);
    LogSorted(cs[a], ha, cs[a].nodes[p].log);
  }

  // ---- Commitment ------------------------------------------------------------------------

  /** Two committed positions: the logs they stem from agree up to the smaller. */
  lemma CommittedAgree(c: Cluster, h: History, s: int, i: int, t: int, j: int)
    requires Inv(c, h) && Committed(|c.nodes|, h, s, i) && Committed(|c.nodes|, h, t, j) && s <= t
    ensures Agree(h.llog[s], h.llog[t], if i < j then i else j)
  {
    if s < t {
      assert LeaderComplete(c, h, t);
      CommittedNotDead(c, h, s, i);
      assert Keeps(c, h, h.llog[t], s, i);
    }
  }

  /** What a node has committed, in a history at least as late. */
  lemma NodeCommitted(c: Cluster, h: History, c': Cluster, h': History, p: nat)
    requires Inv(c, h) && Later(c, h, c', h') && p < |c.nodes|
    ensures var x := c.nodes[p];
      && 0 <= x.commitIndex < |x.log| && LogOk(h', x.log)
      && (x.commitIndex > 0 ==> var t := x.log[x.commitIndex].term;
          Committed(|c.nodes|, h', t, x.commitIndex) && Agree(x.log, h'.llog[t], x.commitIndex))
  {
    var x := c.nodes[p];
    assert NodeOk(c, h, p);
    hide Inv;
    LogOkStable(c, h, c', h', x.log);
    if x.commitIndex > 0 {
      CommittedStable(|c.nodes|, c, h, c', h', x.log[x.commitIndex].term, x.commitIndex);
    }
  }

  /** If two nodes, at any two times, have committed position i, they have the same entry there. */
  lemma StateMachineSafety(n: nat, cs: seq<Cluster>, a: nat, b: nat, p: nat, q: nat, i: nat)
    requires Run(n, cs) && a < |cs| && b < |cs| && p < |cs[a].nodes| && q < |cs[b].nodes|
    requires i <= cs[a].nodes[p].commitIndex && i <= cs[b].nodes[q].commitIndex
    ensures i < |cs[a].nodes[p].log| && i < |cs[b].nodes[q].log|
    ensures cs[a].nodes[p].log[..i + 1] == cs[b].nodes[q].log[..i + 1]
  {
    hide Run, Inv, Later, LogOk, Committed;
    var c, h, ha, hb := TwoTimes(n, cs, a, b);
    var x, y := cs[a].nodes[p], cs[b].nodes[q];
    NodeCommitted(cs[a], ha, c, h, p);
    NodeCommitted(cs[b], hb, c, h, q);
    if i > 0 {
      var s, t := x.log[x.commitIndex].term, y.log[y.commitIndex].term;
      if s <= t {
        CommittedAgree(c, h, s, x.commitIndex, t, y.commitIndex);
      } else {
        CommittedAgree(c, h, t, y.commitIndex, s, x.commitIndex);
      }
    } else {
      LogTerms(n, cs, a, p);
      LogTerms(n, cs, b, q);
    }
  }

  /** Whatever any node has committed by then, of a term below u, is in the log of every leader of term u, at any time. */
  lemma LeaderCompleteness(n: nat, cs: seq<Cluster>, a: nat, b: nat, p: nat, q: nat, i: nat)
    requires Run(n, cs) && a < |cs| && b < |cs| && p < |cs[a].nodes| && q < |cs[b].nodes|
    requires i <= cs[a].nodes[p].commitIndex && cs[a].nodes[p].currentTerm < cs[b].nodes[q].currentTerm
    requires cs[b].nodes[q].role == LEADER
    ensures i < |cs[a].nodes[p].log| && i < |cs[b].nodes[q].log|
    ensures cs[a].nodes[p].log[..i + 1] == cs[b].nodes[q].log[..i + 1]
  {
    hide Run, Inv, Later, LogOk, Committed;
    var c, h, ha, hb := TwoTimes(n, cs, a, b);
    var x, y := cs[a].nodes[p], cs[b].nodes[q];
    var k, u := x.commitIndex, y.currentTerm;
    NodeCommitted(cs[a], ha, c, h, p);
    LeaderLog(cs[b], hb, q);
    LogTerms(n, cs, a, p);
    if k > 0 {
      LeaderHasCommitted(cs[b], hb, c, h, x.log[k].term, k, u);
    }
  }

  lemma LeaderLog(c: Cluster, h: History, q: nat)
    requires Inv(c, h) && q < |c.nodes| && c.nodes[q].role == LEADER
    ensures var y := c.nodes[q];
      y.currentTerm in h.leader && h.leader[y.currentTerm] == q && y.currentTerm in h.llog && h.llog[y.currentTerm] == y.log
      && |y.log| > 0 && y.log[0] == DUMMY
  {
    assert NodeOk(c, h, q) && LeaderOk(h, c.nodes[q], q);
  }

  /** A leader's log in an earlier state already had what is committed, even what was not pushed by then. */
  lemma LeaderHasCommitted(c: Cluster, h: History, c': Cluster, h': History, t: int, k: int, u: int)
    requires Inv(c, h) && Inv(c', h') && Later(c, h, c', h') && Committed(|c'.nodes|, h', t, k) && t < u && u in h.leader
    ensures Agree(h.llog[u], h'.llog[t], k)
  {
    assert TermOk(c, h, u) && LeaderComplete(c, h, u);
    assert t in h'.llog && TermOk(c', h', t);
    if OwnEntry(h, t, k) {
      if Dead(c, h, t, k) {
        DeadStable(c, h, c', h', t, k);
        CommittedNotDead(c', h', t, k);
        assert false;
      }
      assert Agree(h.llog[u], h.llog[t], k);
    } else {
      NotYetPushed(c, h, c', h', t, k, u);
      assert false;
    }
  }

  lemma NotYetPushed(c: Cluster, h: History, c': Cluster, h': History, t: int, k: int, u: int)
    requires Inv(c, h) && Later(c, h, c', h') && t < u && u in h.leader && OwnEntry(h', t, k) && !OwnEntry(h, t, k)
    ensures !Committed(|c'.nodes|, h', t, k)
  {
    assert TermOk(c, h, u);
    var q := h.electors[u];
    forall v | v in q
      ensures 0 <= v < |c.nodes| && c.nodes[v].currentTerm > t && !Acked(h, v, t, k)
    {
      assert NodeOk(c, h, v);
      assert AcksOk(c, h, v);
    }
    assert NoneCanAck(c, h, q, t, k);
    DeadStable(c, h, c', h', t, k);
    if Committed(|c'.nodes|, h', t, k) {
      CommittedNotDead(c', h', t, k);
    }
  }
}
