/**
  What the cluster can always still do. From every reachable state, whatever was lost or left half
  done, any majority can on its own elect a leader and commit one more entry on all its nodes. A block
  that refused what it should grant, or sent too little, would break this.
*/
module RaftAvailability {
  import opened Types
  import opened Quorum
  import opened RaftSpec
  import opened RaftExact
  import opened RaftLog
  import opened RaftCluster
  import opened RaftHistory
  import opened RaftStable
  import opened RaftRecord
  import opened RaftFollower
  import opened RaftReplies
  import opened RaftSafety
  import opened RaftProgress
  import opened BackOffRefinement

  // ---- Steps by some nodes ---------------------------------------------------------------

  /** The node whose block the event runs. */
  function Actor(e: Event): nat {
    match e
    case EElect(p) => p
    case ERequestVote(p, va) => p
    case EVoteAnswer(voter, va, vr) => va.candidateId
    case ECollectVote(p, term, voter) => p
    case EPush(p, entry) => p
    case ESend(p, peer) => p
    case EAppend(p, aa) => p
    case EAppendReply(peer, aa, ar) => aa.leaderId
  }

  ghost predicate StepBy(s: set<int>, c: Cluster, c': Cluster) {
    exists e :: Enabled(c, e) && Actor(e) in s && c' == Apply(c, e)
  }

  ghost predicate Path(s: set<int>, cs: seq<Cluster>) {
    forall i :: 0 <= i < |cs| - 1 ==> StepBy(s, cs[i], cs[i + 1])
  }

  /** Steps of the nodes in s alone lead from c to c'. */
  ghost predicate Reaches(s: set<int>, c: Cluster, c': Cluster) {
    exists cs :: |cs| > 0 && Path(s, cs) && cs[0] == c && cs[|cs| - 1] == c'
  }

  lemma ReachesTrans(s: set<int>, a: Cluster, b: Cluster, c: Cluster)
    requires Reaches(s, a, b) && Reaches(s, b, c)
    ensures Reaches(s, a, c)
  {
    hide StepBy;
    var xs :| |xs| > 0 && Path(s, xs) && xs[0] == a && xs[|xs| - 1] == b;
    var ys :| |ys| > 0 && Path(s, ys) && ys[0] == b && ys[|ys| - 1] == c;
    JoinPaths(s, xs, ys);
    var zs := xs + ys[1..];
    assert zs[0] == a && zs[|zs| - 1] == c;
  }

  lemma JoinPaths(s: set<int>, xs: seq<Cluster>, ys: seq<Cluster>)
    requires |xs| > 0 && |ys| > 0 && Path(s, xs) && Path(s, ys) && xs[|xs| - 1] == ys[0]
    ensures Path(s, xs + ys[1..])
  {
    hide StepBy;
    var zs := xs + ys[1..];
    forall i | 0 <= i < |zs| - 1 ensures StepBy(s, zs[i], zs[i + 1]) {
      if i < |xs| - 1 {
        assert StepBy(s, xs[i], xs[i + 1]);
      } else {
        var j := i - (|xs| - 1);
        assert zs[i] == ys[j] && zs[i + 1] == ys[j + 1];
        assert StepBy(s, ys[j], ys[j + 1]);
      }
    }
  }

  lemma ReachesSelf(s: set<int>, c: Cluster)
    ensures Reaches(s, c, c)
  {
    assert Path(s, [c]) && [c][0] == c && [c][|[c]| - 1] == c;
  }

  /** Take one step, with its record. */
  lemma Take(s: set<int>, c: Cluster, h: History, e: Event) returns (c': Cluster, h': History)
    requires Inv(c, h) && Enabled(c, e) && Actor(e) in s
    ensures c' == Apply(c, e) && Inv(c', h') && Reaches(s, c, c')
  {
    hide Inv, Enabled, Apply, Record, Actor;
    c', h' := Apply(c, e), Record(c, h, e);
    StepOk(c, h, e, c', h');
    assert StepBy(s, c, c');
    hide StepBy;
    assert Path(s, [c, c']) && [c, c'][0] == c && [c, c'][|[c, c']| - 1] == c';
  }

  // ---- The most up-to-date log -----------------------------------------------------------

  lemma Member(s: set<int>) returns (v: int)
    requires |s| > 0
    ensures v in s
  {
    if forall x :: x !in s {
      assert false;
    }
    v :| v in s;
  }

  /** A candidate with log b would get the vote of a node with log a. */
  predicate Below(a: seq<Entry>, b: seq<Entry>)
    requires |a| > 0 && |b| > 0
  {
    UpToDate(RequestVoteArgs(0, 0, |b| - 1, b[|b| - 1].term), a)
  }

  ghost predicate LogsThere(c: Cluster, s: set<int>) {
    forall v :: v in s ==> 0 <= v < |c.nodes| && |c.nodes[v].log| > 0
  }

  ghost predicate Greatest(c: Cluster, s: set<int>, p: int)
    requires LogsThere(c, s)
  {
    p in s && forall v :: v in s ==> Below(c.nodes[v].log, c.nodes[p].log)
  }

  lemma {:induction false} GreatestLog(c: Cluster, s: set<int>) returns (p: nat)
    requires |s| > 0 && LogsThere(c, s)
    ensures Greatest(c, s, p)
    decreases |s|
  {
    var v := Member(s);
    var rest := s - {v};
    if |rest| == 0 {
      assert s == {v};
      p := v;
    } else {
      var q := GreatestLog(c, rest);
      p := if Below(c.nodes[v].log, c.nodes[q].log) then q else v;
      forall w | w in s ensures Below(c.nodes[w].log, c.nodes[p].log) {
        assert w in rest ==> Below(c.nodes[w].log, c.nodes[q].log);
      }
    }
  }

  lemma {:induction false} GreatestTerm(c: Cluster, s: set<int>) returns (t: nat)
    requires |s| > 0 && LogsThere(c, s)
    ensures forall v :: v in s ==> c.nodes[v].currentTerm <= t
    ensures exists v :: v in s && c.nodes[v].currentTerm == t
    decreases |s|
  {
    var v := Member(s);
    var rest := s - {v};
    if |rest| == 0 {
      t := c.nodes[v].currentTerm;
      assert s == {v};
    } else {
      var u := GreatestTerm(c, rest);
      t := if c.nodes[v].currentTerm > u then c.nodes[v].currentTerm else u;
      assert forall w :: w in s ==> w == v || w in rest;
    }
  }

  // ---- An election -----------------------------------------------------------------------

  /** p stands in term u and has counted these votes besides its own; the other nodes of s can still vote for it. */
  ghost predicate Standing(c: Cluster, s: set<int>, p: nat, u: nat, counted: set<int>) {
    && LogsThere(c, s) && Greatest(c, s, p) && p !in counted && counted <= s
    && c.nodes[p].role == CANDIDATE && c.nodes[p].currentTerm == u
    && VoteRequest(ElectionArgs(c.nodes[p], p)) in c.net
    && (p, u) in c.tally && c.tally[(p, u)] == counted
    && (forall v :: v in s ==> c.nodes[v].currentTerm <= u)
    && (forall v :: v in s && v != p && v !in counted ==> c.nodes[v].currentTerm < u)
    && 2 * (|counted| + 1) <= |c.nodes|
  }

  ghost predicate SameLogs(c: Cluster, c': Cluster) {
    && |c'.nodes| == |c.nodes|
    && forall v :: 0 <= v < |c.nodes| ==> c'.nodes[v].log == c.nodes[v].log
  }

  lemma SameLogsGreatest(c: Cluster, c': Cluster, s: set<int>, p: int)
    requires LogsThere(c, s) && Greatest(c, s, p) && SameLogs(c, c')
    ensures LogsThere(c', s) && Greatest(c', s, p)
  {
    hide Below;
    forall v | v in s ensures Below(c'.nodes[v].log, c'.nodes[p].log) {
      assert Below(c.nodes[v].log, c.nodes[p].log);
    }
  }

  /** p stands, again and again, until its term is above t. */
  lemma {:induction false} StandAbove(s: set<int>, c: Cluster, h: History, p: nat, t: nat) returns (c': Cluster, h': History)
    requires Inv(c, h) && LogsThere(c, s) && Greatest(c, s, p) && c.nodes[p].currentTerm <= t
    requires forall v :: v in s ==> c.nodes[v].currentTerm <= t
    ensures Inv(c', h') && Reaches(s, c, c') && SameLogs(c, c') && Standing(c', s, p, t + 1, {})
    decreases t - c.nodes[p].currentTerm
  {
    hide Inv, Reaches, Below;
    c', h' := Take(s, c, h, EElect(p));
    assert SameLogs(c, c');
    SameLogsGreatest(c, c', s, p);
    if c.nodes[p].currentTerm < t {
      var c1, h1 := c', h';
      c', h' := StandAbove(s, c1, h1, p, t);
      ReachesTrans(s, c, c1, c');
    } else {
      TwoOrMore(c', h');
    }
  }

  lemma TwoOrMore(c: Cluster, h: History)
    requires Inv(c, h)
    ensures |c.nodes| >= 2
  {
  }

  /** What a vote for a standing candidate does. */
  lemma Granted(c: Cluster, s: set<int>, p: nat, u: nat, counted: set<int>, q: nat)
    requires Standing(c, s, p, u, counted) && q in s && q != p && q !in counted
    ensures var va := ElectionArgs(c.nodes[p], p);
      && Enabled(c, ERequestVote(q, va)) && va.term == u && va.candidateId == p
      && OnRequestVote(c.nodes[q], va).1 == RequestVoteReply(u, true)
      && OnRequestVote(c.nodes[q], va).0 == c.nodes[q].(currentTerm := u, votedFor := p, role := FOLLOWER)
  {
    var va := ElectionArgs(c.nodes[p], p);
    assert Below(c.nodes[q].log, c.nodes[p].log);
    assert c.nodes[q].currentTerm < u;
    VoteGrantedExactly(c.nodes[q], va);
  }

  lemma VoteTaken(c: Cluster, s: set<int>, p: nat, u: nat, counted: set<int>, q: nat, c1: Cluster)
    requires Standing(c, s, p, u, counted) && q in s && q != p && q !in counted
    requires Enabled(c, ERequestVote(q, ElectionArgs(c.nodes[p], p)))
    requires c1 == Apply(c, ERequestVote(q, ElectionArgs(c.nodes[p], p)))
    ensures c1.nodes == c.nodes[q := c.nodes[q].(currentTerm := u, votedFor := p, role := FOLLOWER)]
    ensures c1.net == c.net + {VoteReply(q, ElectionArgs(c.nodes[p], p), RequestVoteReply(u, true))}
    ensures c1.tally == c.tally && c1.answers == c.answers
  {
    Granted(c, s, p, u, counted, q);
    hide OnRequestVote, Standing, ElectionArgs;
  }

  lemma VoteReported(c1: Cluster, va: RequestVoteArgs, q: nat)
    requires va.candidateId < |c1.nodes| && VoteReply(q, va, RequestVoteReply(va.term, true)) in c1.net
    requires c1.nodes[va.candidateId].role == CANDIDATE && c1.nodes[va.candidateId].currentTerm == va.term
    ensures var e := EVoteAnswer(q, va, RequestVoteReply(va.term, true));
      && Enabled(c1, e)
      && Apply(c1, e) == c1.(answers := c1.answers + {(va.candidateId, va.term, q)})
  {
    VoteCountsExactly(c1.nodes[va.candidateId], va, RequestVoteReply(va.term, true));
    hide OnVoteAnswer;
    assert c1.nodes[va.candidateId := c1.nodes[va.candidateId]] == c1.nodes;
  }

  lemma VoteCounted(c2: Cluster, p: nat, u: nat, q: nat)
    requires p < |c2.nodes| && (p, u, q) in c2.answers && (p, u) in c2.tally && q !in c2.tally[(p, u)]
    requires c2.nodes[p].role == CANDIDATE && c2.nodes[p].currentTerm == u && 2 * (|c2.tally[(p, u)]| + 1) <= |c2.nodes|
    ensures var e, votes := ECollectVote(p, u, q), c2.tally[(p, u)];
      && Enabled(c2, e)
      && var c' := Apply(c2, e);
      && c'.net == c2.net && c'.tally == c2.tally[(p, u) := votes + {q}]
      && |c'.nodes| == |c2.nodes| && (forall v :: 0 <= v < |c2.nodes| && v != p ==> c'.nodes[v] == c2.nodes[v])
      && c'.nodes[p].log == c2.nodes[p].log && c'.nodes[p].currentTerm == u
      && (if 2 * (|votes| + 2) > |c2.nodes| then c'.nodes[p].role == LEADER else c'.nodes[p] == c2.nodes[p])
  {
    WonExactly(c2.nodes[p], |c2.nodes|, u, 1 + |c2.tally[(p, u)]|);
    hide OnVoteWon;
  }

  /** p leads in term u, and no node of s is beyond it. */
  ghost predicate Leading(c: Cluster, s: set<int>, p: nat, u: nat) {
    && LogsThere(c, s) && p in s && c.nodes[p].role == LEADER && c.nodes[p].currentTerm == u
    && forall v :: v in s ==> c.nodes[v].currentTerm <= u
  }

  /** One more node of s votes for p. */
  lemma OneVote(s: set<int>, c: Cluster, h: History, p: nat, u: nat, counted: set<int>, q: nat) returns (c': Cluster, h': History)
    requires Inv(c, h) && Standing(c, s, p, u, counted) && q in s && q != p && q !in counted
    ensures Inv(c', h') && Reaches(s, c, c') && SameLogs(c, c')
    ensures if 2 * (|counted| + 2) > |c.nodes| then Leading(c', s, p, u) else Standing(c', s, p, u, counted + {q})
  {
    hide Inv, Reaches, Apply, Enabled;
    var va := ElectionArgs(c.nodes[p], p);
    Granted(c, s, p, u, counted, q);
    var c1, h1 := Take(s, c, h, ERequestVote(q, va));
    VoteTaken(c, s, p, u, counted, q, c1);
    VoteReported(c1, va, q);
    var c2, h2 := Take(s, c1, h1, EVoteAnswer(q, va, RequestVoteReply(u, true)));
    VoteCounted(c2, p, u, q);
    c', h' := Take(s, c2, h2, ECollectVote(p, u, q));
    ReachesTrans(s, c, c1, c2);
    ReachesTrans(s, c, c2, c');
    hide Greatest, OnRequestVote;
    SameLogsGreatest(c, c', s, p);
  }

  lemma {:induction false} GatherVotes(s: set<int>, c: Cluster, h: History, p: nat, u: nat, counted: set<int>) returns (c': Cluster, h': History)
    requires Inv(c, h) && Standing(c, s, p, u, counted) && Majority(s, |c.nodes|)
    ensures Inv(c', h') && Reaches(s, c, c') && SameLogs(c, c') && Leading(c', s, p, u)
    decreases |s| - |counted|
  {
    hide Inv, Reaches, Leading;
    VoterLeft(c, s, p, u, counted);
    var q :| q in s && q != p && q !in counted;
    c', h' := OneVote(s, c, h, p, u, counted, q);
    if 2 * (|counted| + 2) <= |c.nodes| {
      var c1, h1 := c', h';
      hide Standing;
      SubsetSize(counted + {q}, s);
      c', h' := GatherVotes(s, c1, h1, p, u, counted + {q});
      ReachesTrans(s, c, c1, c');
    }
  }

  lemma VoterLeft(c: Cluster, s: set<int>, p: nat, u: nat, counted: set<int>)
    requires Standing(c, s, p, u, counted) && Majority(s, |c.nodes|)
    ensures exists q :: q in s && q != p && q !in counted
  {
    if forall q :: q in s ==> q == p || q in counted {
      assert s <= counted + {p};
      SubsetSize(s, counted + {p});
      assert false;
    }
  }

  /** A majority can elect one of its nodes. */
  lemma CanElect(s: set<int>, c: Cluster, h: History) returns (c': Cluster, h': History, p: nat, u: nat)
    requires Inv(c, h) && Majority(s, |c.nodes|)
    ensures Inv(c', h') && Reaches(s, c, c') && SameLogs(c, c') && Leading(c', s, p, u)
    ensures exists v :: v in s && u == c.nodes[v].currentTerm + 1
  {
    hide Inv, Reaches, Standing, Leading, Greatest, Majority;
    InvLogs(c, h, s);
    p := GreatestLog(c, s);
    var t := GreatestTerm(c, s);
    GreatestIn(c, s, p);
    u := t + 1;
    var c1, h1 := StandAbove(s, c, h, p, t);
    c', h' := GatherVotes(s, c1, h1, p, u, {});
    ReachesTrans(s, c, c1, c');
  }

  lemma GreatestIn(c: Cluster, s: set<int>, p: int)
    requires LogsThere(c, s) && Greatest(c, s, p)
    ensures p in s && 0 <= p < |c.nodes|
  {
  }

  lemma InvLogs(c: Cluster, h: History, s: set<int>)
    requires Inv(c, h) && Majority(s, |c.nodes|)
    ensures LogsThere(c, s) && |s| > 0
  {
    forall v | v in s ensures 0 <= v < |c.nodes| && |c.nodes[v].log| > 0 {
      assert NodeOk(c, h, v);
    }
  }

  // ---- One follower catches up -----------------------------------------------------------

  /** The leader's last entry is its own. */
  ghost predicate OwnTop(x: Node) {
    |x.log| > 0 && x.log[|x.log| - 1].term == x.currentTerm
  }

  /** The follower q has exactly the leader's log, and the leader knows. */
  ghost predicate Caught(c: Cluster, p: nat, q: int)
    requires p < |c.nodes| && 0 <= q < |c.nodes|
  {
    && c.nodes[q].log == c.nodes[p].log
    && q < |c.nodes[p].matchIndex| && c.nodes[p].matchIndex[q] == |c.nodes[p].log| - 1
  }

  /** Only p and q changed; p still leads, with the same log, and knows no less of the others. */
  ghost predicate Touched(c: Cluster, c': Cluster, p: nat, q: nat)
    requires p < |c.nodes| && q < |c.nodes|
  {
    var x, x' := c.nodes[p], if p < |c'.nodes| then c'.nodes[p] else c.nodes[p];
    && |c'.nodes| == |c.nodes|
    && (forall v :: 0 <= v < |c.nodes| && v != p && v != q ==> c'.nodes[v] == c.nodes[v])
    && x'.role == x.role && x'.currentTerm == x.currentTerm && x'.log == x.log
    && x.commitIndex <= x'.commitIndex && |x'.matchIndex| == |x.matchIndex| == |x'.nextIndex| == |x.nextIndex|
    && (forall i :: 0 <= i < |x.matchIndex| && i != q ==> x'.matchIndex[i] == x.matchIndex[i])
  }

  lemma TouchedTrans(a: Cluster, b: Cluster, c: Cluster, p: nat, q: nat)
    requires p < |a.nodes| && q < |a.nodes| && Touched(a, b, p, q) && Touched(b, c, p, q)
    ensures Touched(a, c, p, q)
  {
  }

  /** The leader p can send to q, and their logs are as the back-off needs them. */
  lemma CanSearch(c: Cluster, h: History, s: set<int>, p: nat, u: nat, q: nat)
    requires Inv(c, h) && Leading(c, s, p, u) && q in s && q != p
    ensures Searching(c.nodes[q], c.nodes[p], q) && |c.nodes[p].matchIndex| == |c.nodes|
    ensures 0 <= c.nodes[p].matchIndex[q] < |c.nodes[p].log|
  {
    hide Inv, LogOk, Later;
    LaterRefl(c, h);
    FollowerPrefix(c, h, c, h, q, p);
    PositiveTerms(c, h, q);
    NodeShape(c, h, p);
    LeaderPeer(c, h, p, q);
    LogShape(c, h, p);
    LogShape(c, h, q);
    hide Agree, Leading, LogsThere;
  }

  lemma LogShape(c: Cluster, h: History, p: nat)
    requires Inv(c, h) && p < |c.nodes|
    ensures Sorted(c.nodes[p].log) && TermsIn(c.nodes[p].log, c.nodes[p].currentTerm) && LogOk(h, c.nodes[p].log)
    ensures |c.nodes[p].log| > 0 && c.nodes[p].log[0] == DUMMY
  {
    assert NodeOk(c, h, p);
    LogSorted(c, h, c.nodes[p].log);
  }

  /** The three steps of a round: what they leave of cluster and history. */
  lemma Round(s: set<int>, c: Cluster, h: History, p: nat, q: nat) returns (c': Cluster, h': History, c1: Cluster, h1: History)
    requires Inv(c, h) && p < |c.nodes| && q < |c.nodes| && p != q && p in s && q in s
    requires Probing(c.nodes[q], c.nodes[p], q)
    ensures Inv(c', h') && Reaches(s, c, c')
    ensures c'.nodes == c.nodes[q := FollowerAfter(c.nodes[q], c.nodes[p], p, q)][p := LeaderAfter(c.nodes[q], c.nodes[p], p, q)]
    ensures Inv(c1, h1) && c1.nodes == c.nodes && AppendRequest(q, HeartBeatArgs(c.nodes[p], p, q)) in c1.net
  {
    hide Inv, Reaches, OnAppendEntries, OnAppendReply, HeartBeatArgs;
    var aa := HeartBeatArgs(c.nodes[p], p, q);
    SendsWholeSuffix(c.nodes[p], p, q);
    var ar := OnAppendEntries(c.nodes[q], aa).1;
    c1, h1 := Take(s, c, h, ESend(p, q));
    var c2, h2 := Take(s, c1, h1, EAppend(q, aa));
    assert c2.nodes[p] == c.nodes[p] && AppendReply(q, aa, ar) in c2.net;
    c', h' := Take(s, c2, h2, EAppendReply(q, aa, ar));
    ReachesTrans(s, c, c1, c2);
    ReachesTrans(s, c, c2, c');
  }

  /** Accepted: the follower has the leader's log, as far as it goes, and the leader's commit index. */
  lemma AcceptedRound(c: Cluster, h: History, p: nat, q: nat)
    requires Inv(c, h) && p < |c.nodes| && q < |c.nodes| && p != q && Probing(c.nodes[q], c.nodes[p], q)
    requires AppendRequest(q, HeartBeatArgs(c.nodes[p], p, q)) in c.net && OwnTop(c.nodes[p])
    requires Accepts(c.nodes[q].log, c.nodes[p].log, c.nodes[p].nextIndex[q] - 1)
    ensures var x' := FollowerAfter(c.nodes[q], c.nodes[p], p, q);
      && x'.log == c.nodes[p].log && x'.commitIndex >= c.nodes[p].commitIndex && x'.currentTerm == c.nodes[p].currentTerm
      && OnAppendEntries(c.nodes[q], HeartBeatArgs(c.nodes[p], p, q)).1.success
  {
    hide Inv, OnAppendEntries, HeartBeatArgs, LogOk, CommitOk, Merge;
    var own, lead, aa := c.nodes[q], c.nodes[p], HeartBeatArgs(c.nodes[p], p, q);
    SendsWholeSuffix(lead, p, q);
    AppendCases(own, aa);
    RequestFacts(c, h, q, aa);
    MergedFacts(c, h, q, aa);
    LeaderLog(c, h, p);
    LogShape(c, h, q);
    hide NodeOk, TermOk, LeaderComplete, AppendOk;
    var m := Merge(own.log, aa.prevLogIndex, aa.entries);
    assert Merged(own.log, m, lead.log, |lead.log| - 1);
    if m == own.log {
      NoLonger(h, own.log, lead);
    }
  }

  lemma EntryIndex(h: History, log: seq<Entry>, i: nat)
    requires LogOk(h, log) && i < |log|
    ensures log[i].term in h.llog && i < |h.llog[log[i].term]|
  {
  }

  /** A log that has all of the leader's own entries has no more. */
  lemma NoLonger(h: History, own: seq<Entry>, lead: Node)
    requires LogOk(h, own) && Sorted(own) && TermsIn(own, lead.currentTerm)
    requires OwnTop(lead) && lead.currentTerm in h.llog && h.llog[lead.currentTerm] == lead.log
    requires Agree(own, lead.log, |lead.log| - 1)
    ensures own == lead.log
  {
    hide LogOk;
    var n: nat := |lead.log|;
    if |own| > n {
      EntryIndex(h, own, n);
      assert false;
    }
  }

  /** What the leader makes of a confirmation: the match is its whole log, and a majority's match is committed. */
  lemma ConfirmedRound(lead: Node, p: nat, q: nat, aa: AppendEntriesArgs, ar: AppendEntriesReply)
    requires lead.role == LEADER && aa.term == lead.currentTerm && ar.success && CanHandleReply(lead, q, aa) && |lead.log| > 0
    requires aa.prevLogIndex + |aa.entries| == |lead.log| - 1 && lead.matchIndex[q] < |lead.log|
    ensures var x' := OnAppendReply(lead, p, q, aa, ar);
      && |x'.matchIndex| == |lead.matchIndex| == |x'.nextIndex| && x'.matchIndex[q] == |lead.log| - 1
      && (forall i :: 0 <= i < |lead.matchIndex| && i != q ==> x'.matchIndex[i] == lead.matchIndex[i])
      && x'.role == LEADER && x'.currentTerm == lead.currentTerm && x'.log == lead.log
      && lead.commitIndex <= x'.commitIndex
      && (Replicated(x', p, |lead.log| - 1) ==> x'.commitIndex == |lead.log| - 1)
  {
    SuccessAdvances(lead, p, q, aa, ar);
    ReplyCases(lead, p, q, aa, ar);
    var y := Matched(lead, q, |lead.log| - 1);
    var x' := OnAppendReply(lead, p, q, aa, ar);
    assert Replicated(x', p, |lead.log| - 1) ==> Replicated(y, p, |lead.log| - 1);
    hide OnAppendReply;
  }

  lemma RoundKeeps(c: Cluster, c': Cluster, s: set<int>, p: nat, u: nat, q: nat, f: Node, l: Node)
    requires Leading(c, s, p, u) && q in s && q != p && c'.nodes == c.nodes[q := f][p := l]
    requires l.role == LEADER && l.currentTerm == u && l.log == c.nodes[p].log && c.nodes[p].commitIndex <= l.commitIndex
    requires |l.matchIndex| == |c.nodes[p].matchIndex| == |l.nextIndex| == |c.nodes[p].nextIndex|
    requires forall i :: 0 <= i < |l.matchIndex| && i != q ==> l.matchIndex[i] == c.nodes[p].matchIndex[i]
    requires f.currentTerm <= u && |f.log| > 0
    ensures Leading(c', s, p, u) && Touched(c, c', p, q) && c'.nodes[p] == l && c'.nodes[q] == f
  {
  }

  /** After finitely many rounds the follower is caught up, whatever was in its log and whatever the leader assumed of it. */
  lemma {:induction false} CatchUp(s: set<int>, c: Cluster, h: History, p: nat, u: nat, q: nat) returns (c': Cluster, h': History)
    requires Inv(c, h) && Leading(c, s, p, u) && q in s && q != p && OwnTop(c.nodes[p])
    ensures Inv(c', h') && Reaches(s, c, c') && Leading(c', s, p, u) && Touched(c, c', p, q) && Caught(c', p, q)
    ensures c'.nodes[q].commitIndex >= c.nodes[p].commitIndex
    ensures Replicated(c'.nodes[p], p, |c.nodes[p].log| - 1) ==> c'.nodes[p].commitIndex == |c.nodes[p].log| - 1
    decreases if CanSend(c.nodes[p], q) then c.nodes[p].nextIndex[q] else 0
  {
    hide Inv, Reaches, Replicated, Comparable, FollowerAfter, LeaderAfter;
    CanSearch(c, h, s, p, u, q);
    var own, lead, aa := c.nodes[q], c.nodes[p], HeartBeatArgs(c.nodes[p], p, q);
    var f, l := FollowerAfter(own, lead, p, q), LeaderAfter(own, lead, p, q);
    var c1, h1;
    c', h', c1, h1 := Round(s, c, h, p, q);
    if Accepts(own.log, lead.log, lead.nextIndex[q] - 1) {
      AcceptedRound(c1, h1, p, q);
      LeaderConfirmed(own, lead, p, q);
      RoundKeeps(c, c', s, p, u, q, f, l);
    } else {
      OneBackOff(own, lead, p, q);
      RoundKeeps(c, c', s, p, u, q, f, l);
      var c2, h2 := c', h';
      hide Searching, Leading, Touched, Accepts;
      c', h' := CatchUp(s, c2, h2, p, u, q);
      ReachesTrans(s, c, c2, c');
      TouchedTrans(c, c2, c', p, q);
    }
  }

  lemma LeaderConfirmed(own: Node, lead: Node, p: nat, q: nat)
    requires Probing(own, lead, q) && OnAppendEntries(own, HeartBeatArgs(lead, p, q)).1.success && lead.matchIndex[q] < |lead.log|
    ensures var x' := LeaderAfter(own, lead, p, q);
      && |x'.matchIndex| == |lead.matchIndex| == |x'.nextIndex| && x'.matchIndex[q] == |lead.log| - 1
      && (forall i :: 0 <= i < |lead.matchIndex| && i != q ==> x'.matchIndex[i] == lead.matchIndex[i])
      && x'.role == LEADER && x'.currentTerm == lead.currentTerm && x'.log == lead.log
      && lead.commitIndex <= x'.commitIndex
      && (Replicated(x', p, |lead.log| - 1) ==> x'.commitIndex == |lead.log| - 1)
  {
    hide OnAppendEntries, OnAppendReply, HeartBeatArgs, Replicated;
    var aa := HeartBeatArgs(lead, p, q);
    SendsWholeSuffix(lead, p, q);
    ConfirmedRound(lead, p, q, aa, OnAppendEntries(own, aa).1);
  }

  // ---- All followers catch up ------------------------------------------------------------

  ghost predicate AllCaught(c: Cluster, p: nat, s: set<int>)
    requires p < |c.nodes|
  {
    forall v :: v in s && v != p ==> 0 <= v < |c.nodes| && Caught(c, p, v)
  }

  lemma CommonTop(c: Cluster, h: History, p: nat, s: set<int>)
    requires Inv(c, h) && Majority(s, |c.nodes|) && p < |c.nodes| && p in s && AllCaught(c, p, s) && OwnTop(c.nodes[p])
    ensures Replicated(c.nodes[p], p, |c.nodes[p].log| - 1)
  {
    NodeShape(c, h, p);
    var x := c.nodes[p];
    var holders := Holders(x.matchIndex, p, |x.log| - 1);
    forall v | v in s - {p} ensures v in holders {
      assert Caught(c, p, v);
    }
    SubsetSize(s - {p}, holders);
  }

  /** Those of s still to do catch up one after another; the last one makes the leader commit its whole log. */
  lemma {:induction false} CatchAll(s: set<int>, c: Cluster, h: History, p: nat, u: nat, todo: set<int>) returns (c': Cluster, h': History)
    requires Inv(c, h) && Leading(c, s, p, u) && OwnTop(c.nodes[p]) && Majority(s, |c.nodes|)
    requires todo <= s - {p} && AllCaught(c, p, s - todo)
    requires |todo| == 0 ==> c.nodes[p].commitIndex == |c.nodes[p].log| - 1
    ensures Inv(c', h') && Reaches(s, c, c') && Leading(c', s, p, u) && |c'.nodes| == |c.nodes|
    ensures c'.nodes[p].log == c.nodes[p].log && c'.nodes[p].commitIndex == |c.nodes[p].log| - 1 && AllCaught(c', p, s)
    ensures c.nodes[p].commitIndex <= c'.nodes[p].commitIndex
    ensures forall v :: v in s - todo && v != p ==> c'.nodes[v] == c.nodes[v]
    ensures forall v :: v in todo ==> c'.nodes[v].commitIndex >= c.nodes[p].commitIndex
    decreases |todo|
  {
    hide Inv, Reaches, Majority, Replicated;
    if |todo| == 0 {
      assert s - todo == s;
      ReachesSelf(s, c);
      c', h' := c, h;
    } else {
      var q := Member(todo);
      var c1, h1 := CatchUp(s, c, h, p, u, q);
      CaughtKept(c, c1, p, q, s, todo);
      if todo == {q} {
        assert s - (todo - {q}) == s;
        CommonTop(c1, h1, p, s);
      }
      hide Caught, Leading, AllCaught;
      c', h' := CatchAll(s, c1, h1, p, u, todo - {q});
      ReachesTrans(s, c, c1, c');
    }
  }

  lemma CaughtKept(c: Cluster, c1: Cluster, p: nat, q: nat, s: set<int>, todo: set<int>)
    requires p < |c.nodes| && q < |c.nodes| && Touched(c, c1, p, q) && AllCaught(c, p, s - todo) && Caught(c1, p, q)
    ensures AllCaught(c1, p, s - (todo - {q}))
  {
    forall v | v in s - (todo - {q}) && v != p ensures 0 <= v < |c1.nodes| && Caught(c1, p, v) {
      if v != q {
        assert v in s - todo && Caught(c, p, v);
      }
    }
  }

  // ---- One more entry --------------------------------------------------------------------

  /** The greatest term of which a log entry can still be stamped: its term field has 32 bits. */
  const LAST_TERM: nat := 0x7FFF_FFFF

  /** The entry that the leader p makes of a request, last in the log of every node of s and committed by each. */
  ghost predicate CommittedOn(c: Cluster, s: set<int>, p: nat, e: Entry) {
    && p in s && p < |c.nodes| && c.nodes[p].role == LEADER && |c.nodes[p].log| > 0
    && c.nodes[p].log[|c.nodes[p].log| - 1] == e && e.term == c.nodes[p].currentTerm
    && forall v :: v in s ==> 0 <= v < |c.nodes| && c.nodes[v].log == c.nodes[p].log && c.nodes[v].commitIndex == |c.nodes[p].log| - 1
  }

  lemma PushTaken(s: set<int>, c: Cluster, h: History, p: nat, u: nat, e: Entry) returns (c': Cluster, h': History)
    requires Inv(c, h) && Leading(c, s, p, u) && e.term == u
    ensures Inv(c', h') && Reaches(s, c, c') && Leading(c', s, p, u) && |c'.nodes| == |c.nodes|
    ensures c'.nodes[p].log == c.nodes[p].log + [e] && OwnTop(c'.nodes[p])
  {
    hide Inv, Reaches;
    c', h' := Take(s, c, h, EPush(p, e));
  }

  /** A leader of a majority commits an entry on all of it: once to copy the log, once more to tell the commit index. */
  lemma CanCommit(s: set<int>, c: Cluster, h: History, p: nat, u: nat, e: Entry) returns (c': Cluster, h': History)
    requires Inv(c, h) && Leading(c, s, p, u) && Majority(s, |c.nodes|) && e.term == u
    ensures Inv(c', h') && Reaches(s, c, c') && |c'.nodes| == |c.nodes|
    ensures p < |c.nodes| && CommittedOn(c', s, p, e) && c'.nodes[p].log == c.nodes[p].log + [e]
  {
    hide Inv, Reaches, Majority, Caught, OwnTop;
    var c1, h1 := PushTaken(s, c, h, p, u, e);
    OthersThere(c1, h1, s, p);
    assert AllCaught(c1, p, s - (s - {p}));
    var c2, h2 := CatchAll(s, c1, h1, p, u, s - {p});
    TopKept(c1.nodes[p], c2.nodes[p]);
    c', h' := CatchAll(s, c2, h2, p, u, s - {p});
    ReachesTrans(s, c, c1, c2);
    ReachesTrans(s, c, c2, c');
    forall v | v in s ensures 0 <= v < |c'.nodes| && c'.nodes[v].log == c'.nodes[p].log && c'.nodes[v].commitIndex == |c'.nodes[p].log| - 1 {
      CommitBelow(c', h', s, p, u, v);
    }
  }

  lemma TopKept(x: Node, x': Node)
    requires OwnTop(x) && x'.log == x.log && x'.currentTerm == x.currentTerm
    ensures OwnTop(x')
  {
  }

  lemma OthersThere(c: Cluster, h: History, s: set<int>, p: nat)
    requires Inv(c, h) && Majority(s, |c.nodes|) && p in s
    ensures |s - {p}| > 0
  {
    TwoOrMore(c, h);
    assert |s| == |s - {p}| + 1;
  }

  lemma CommitBelow(c: Cluster, h: History, s: set<int>, p: nat, u: nat, v: int)
    requires Inv(c, h) && Leading(c, s, p, u) && AllCaught(c, p, s) && v in s
    ensures 0 <= v < |c.nodes| && c.nodes[v].log == c.nodes[p].log && c.nodes[v].commitIndex < |c.nodes[p].log|
  {
    assert NodeOk(c, h, v);
    assert v != p ==> Caught(c, p, v);
  }

  // ---- Over runs -------------------------------------------------------------------------

  /** The run ds continues cs with steps of the nodes of s alone. */
  ghost predicate Continues(s: set<int>, cs: seq<Cluster>, ds: seq<Cluster>) {
    && 0 < |cs| <= |ds| && ds[..|cs|] == cs
    && forall i :: |cs| - 1 <= i < |ds| - 1 ==> StepBy(s, ds[i], ds[i + 1])
  }

  lemma Continue(n: nat, s: set<int>, cs: seq<Cluster>, c: Cluster) returns (ds: seq<Cluster>)
    requires Run(n, cs) && Reaches(s, cs[|cs| - 1], c)
    ensures Run(n, ds) && Continues(s, cs, ds) && ds[|ds| - 1] == c
  {
    hide Step, StepBy;
    var xs :| |xs| > 0 && Path(s, xs) && xs[0] == cs[|cs| - 1] && xs[|xs| - 1] == c;
    ds := cs + xs[1..];
    assert forall i :: |cs| - 1 <= i < |ds| ==> ds[i] == xs[i - (|cs| - 1)];
    forall i | |cs| - 1 <= i < |ds| - 1 ensures StepBy(s, ds[i], ds[i + 1]) {
      assert StepBy(s, xs[i - (|cs| - 1)], xs[i - (|cs| - 1) + 1]);
    }
    forall i | 0 <= i < |ds| - 1 ensures Step(ds[i], ds[i + 1]) {
      if i < |cs| - 1 {
        assert Step(cs[i], cs[i + 1]);
      } else {
        OneStep(s, ds[i], ds[i + 1]);
      }
    }
  }

  lemma OneStep(s: set<int>, c: Cluster, c': Cluster)
    requires StepBy(s, c, c')
    ensures Step(c, c')
  {
  }

  /** Every run can be continued by any majority alone to a state in which one of it leads. */
  lemma MajorityElects(n: nat, cs: seq<Cluster>, s: set<int>) returns (ds: seq<Cluster>, p: nat)
    requires Run(n, cs) && Majority(s, n)
    ensures Run(n, ds) && Continues(s, cs, ds)
    ensures p in s && p < |ds[|ds| - 1].nodes| && ds[|ds| - 1].nodes[p].role == LEADER
  {
    var last: nat := |cs| - 1;
    hide Run, Inv, Later, Reaches, Majority, Continues;
    var c, h, ha, hb := TwoTimes(n, cs, last, last);
    RunSize(n, cs, last);
    var c', h', q, u := CanElect(s, cs[last], ha);
    p := q;
    ds := Continue(n, s, cs, c');
  }

  lemma {:induction false} RunSize(n: nat, cs: seq<Cluster>, i: nat)
    requires Run(n, cs) && i < |cs|
    ensures |cs[i].nodes| == n
  {
    if i > 0 {
      RunSize(n, cs, i - 1);
      assert Step(cs[i - 1], cs[i - 1 + 1]);
    }
  }

  /** In particular some run of every cluster has a leader. */
  lemma SomeRunElects(n: nat) returns (cs: seq<Cluster>, p: nat)
    requires n >= 2
    ensures Run(n, cs) && p < |cs[|cs| - 1].nodes| && cs[|cs| - 1].nodes[p].role == LEADER
  {
    hide Step;
    assert Run(n, [InitialCluster(n)]);
    hide Run, Continues;
    cs, p := MajorityElects(n, [InitialCluster(n)], Ids(n));
  }

  /**
    Every run can be continued by any majority alone to a state in which each of its nodes has committed
    an entry for the request, as the last of one common log, as long as its terms leave room in an entry.
  */
  lemma MajorityCommits(n: nat, cs: seq<Cluster>, s: set<int>, request: Entry) returns (ds: seq<Cluster>, p: nat, e: Entry)
    requires Run(n, cs) && Majority(s, n)
    requires forall v :: v in s && v < |cs[|cs| - 1].nodes| ==> cs[|cs| - 1].nodes[v].currentTerm < LAST_TERM
    ensures Run(n, ds) && Continues(s, cs, ds)
    ensures e == request.(term := e.term) && CommittedOn(ds[|ds| - 1], s, p, e)
    ensures p < |cs[|cs| - 1].nodes| && ds[|ds| - 1].nodes[p].log == cs[|cs| - 1].nodes[p].log + [e]
  {
    var last: nat := |cs| - 1;
    hide Run, Inv, Later, Reaches, Continues, CommittedOn, Leading, SameLogs, Majority;
    var c, h, ha, hb := TwoTimes(n, cs, last, last);
    RunSize(n, cs, last);
    var c1, h1, q, u := CanElect(s, cs[last], ha);
    InvLogs(cs[last], ha, s);
    SameSize(cs[last], c1);
    p, e := q, request.(term := u);
    var c', h' := CanCommit(s, c1, h1, p, u, e);
    ReachesTrans(s, cs[last], c1, c');
    ds := Continue(n, s, cs, c');
  }

  lemma SameSize(c: Cluster, c': Cluster)
    requires SameLogs(c, c')
    ensures |c'.nodes| == |c.nodes| && forall v :: 0 <= v < |c.nodes| ==> c'.nodes[v].log == c.nodes[v].log
  {
  }
}
