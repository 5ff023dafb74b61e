/**
  The fast back-off against the plain one. A leader `lead` probes a follower `own`: a probe at
  position i is accepted if the follower has an entry there of the term the leader has there. The
  plain leader steps back by one after every rejection; this one sends, receives and answers with the
  node's own steps, so that a round uses the reply the handler gives, and all of it.
*/
module BackOffRefinement {
  import opened Types
  import opened RaftSpec
  import opened RaftHistory
  import opened RaftExact

  predicate Accepts(own: seq<Entry>, log: seq<Entry>, i: nat)
    requires i < |log|
  {
    i < |own| && own[i].term == log[i].term
  }

  /** Both logs are sorted, start alike, and agree on what the follower has committed. */
  ghost predicate Comparable(own: seq<Entry>, commitIndex: nat, log: seq<Entry>) {
    && Sorted(own) && Sorted(log)
    && |own| > 0 && own[0] == DUMMY && Agree(own, log, commitIndex)
    && forall i :: 1 <= i < |own| ==> own[i].term >= 1
  }

  /** The leader can send to the peer and read its answer, and the follower is not beyond its term. */
  ghost predicate Probing(own: Node, lead: Node, peer: nat) {
    && lead.role == LEADER && CanSend(lead, peer) && |lead.matchIndex| == |lead.nextIndex|
    && lead.commitIndex < |lead.log| && |own.log| > 0 && own.currentTerm <= lead.currentTerm
  }

  ghost predicate Searching(own: Node, lead: Node, peer: nat) {
    Probing(own, lead, peer) && Comparable(own.log, own.commitIndex, lead.log)
  }

  /** One round: the leader sends, the follower handles the request, and the leader its reply. */
  function FollowerAfter(own: Node, lead: Node, p: nat, peer: nat): Node
    requires Probing(own, lead, peer)
  {
    OnAppendEntries(own, HeartBeatArgs(lead, p, peer)).0
  }

  ghost function LeaderAfter(own: Node, lead: Node, p: nat, peer: nat): Node
    requires Probing(own, lead, peer)
  {
    var aa := HeartBeatArgs(lead, p, peer);
    OnAppendReply(lead, p, peer, aa, OnAppendEntries(own, aa).1)
  }

  /** Where plain stepping back ends: the highest accepted probe. */
  function SlowSearch(own: seq<Entry>, log: seq<Entry>, next: nat): nat
    requires next <= |log|
  {
    if next == 0 then 0 else if Accepts(own, log, next - 1) then next - 1 else SlowSearch(own, log, next - 1)
  }

  /** Where the rounds end. */
  ghost function FastSearch(own: Node, lead: Node, p: nat, peer: nat): nat
    requires Searching(own, lead, peer)
    decreases lead.nextIndex[peer]
  {
    if Accepts(own.log, lead.log, lead.nextIndex[peer] - 1) then lead.nextIndex[peer] - 1
    else
      OneBackOff(own, lead, p, peer);
      FastSearch(FollowerAfter(own, lead, p, peer), LeaderAfter(own, lead, p, peer), p, peer)
  }

  /** The reply to the probe before nextIndex. */
  function ProbeReply(own: Node, log: seq<Entry>, next: nat): AppendEntriesReply
    requires |own.log| > 0 && 1 <= next <= |log|
  {
    OnAppendEntries(own, AppendEntriesArgs(own.currentTerm, 0, next - 1, log[next - 1].term, [], 0)).1
  }

  /** A probe that is not accepted is rejected in the leader's term, and its reply makes the leader back off. */
  lemma RejectedRound(own: Node, lead: Node, p: nat, peer: nat)
    requires Probing(own, lead, peer) && !Accepts(own.log, lead.log, lead.nextIndex[peer] - 1)
    ensures FollowerAfter(own, lead, p, peer) == Observe(own, lead.currentTerm)
    ensures var next := lead.nextIndex[peer];
      LeaderAfter(own, lead, p, peer)
        == lead.(nextIndex := lead.nextIndex[peer := BackOff(lead.log, next, ProbeReply(own, lead.log, next))])
  {
  }

  lemma HintLowers(own: Node, log: seq<Entry>, next: nat)
    requires 1 <= next <= |log| && |own.log| > 0 && Comparable(own.log, own.commitIndex, log)
    requires !Accepts(own.log, log, next - 1)
    ensures var next' := BackOff(log, next, ProbeReply(own, log, next));
      && 1 <= next' < next
      && forall i :: next' <= i < next ==> !Accepts(own.log, log, i)
  {
    var prev := next - 1;
    assert log[0] == DUMMY;
    if prev < |own.log| {
      var t := own.log[prev].term;
      assert prev > own.commitIndex;
      ScanBackExactly(own.log, own.commitIndex, prev, t);
    }
  }

  /**
    One rejected round strictly lowers nextIndex, keeps it at least 1, and every probe it skips would
    have been rejected too; nothing else changes but the follower's term.
  */
  lemma OneBackOff(own: Node, lead: Node, p: nat, peer: nat)
    requires Searching(own, lead, peer) && !Accepts(own.log, lead.log, lead.nextIndex[peer] - 1)
    ensures var lead' := LeaderAfter(own, lead, p, peer);
      && |lead'.nextIndex| == |lead.nextIndex|
      && 1 <= lead'.nextIndex[peer] < lead.nextIndex[peer]
      && lead' == lead.(nextIndex := lead.nextIndex[peer := lead'.nextIndex[peer]])
      && (forall i :: lead'.nextIndex[peer] <= i < lead.nextIndex[peer] ==> !Accepts(own.log, lead.log, i))
      && FollowerAfter(own, lead, p, peer) == Observe(own, lead.currentTerm)
      && Searching(FollowerAfter(own, lead, p, peer), lead', peer)
  {
    RejectedRound(own, lead, p, peer);
    hide LeaderAfter, FollowerAfter;
    HintLowers(own, lead.log, lead.nextIndex[peer]);
    hide BackOff, ProbeReply;
  }

  /** The rounds end exactly where plain stepping back does. */
  lemma {:induction false} FastIsSlow(own: Node, lead: Node, p: nat, peer: nat)
    requires Searching(own, lead, peer)
    ensures FastSearch(own, lead, p, peer) == SlowSearch(own.log, lead.log, lead.nextIndex[peer])
    decreases lead.nextIndex[peer]
  {
    if !Accepts(own.log, lead.log, lead.nextIndex[peer] - 1) {
      OneBackOff(own, lead, p, peer);
      hide LeaderAfter, FollowerAfter, Comparable;
      var lead' := LeaderAfter(own, lead, p, peer);
      FastIsSlow(FollowerAfter(own, lead, p, peer), lead', p, peer);
      Skip(own.log, lead.log, lead'.nextIndex[peer], lead.nextIndex[peer]);
    }
  }

  lemma {:induction false} Skip(own: seq<Entry>, log: seq<Entry>, lo: nat, hi: nat)
    requires lo <= hi <= |log| && forall i :: lo <= i < hi ==> !Accepts(own, log, i)
    ensures SlowSearch(own, log, lo) == SlowSearch(own, log, hi)
  {
    if lo < hi {
      Skip(own, log, lo, hi - 1);
    }
  }

  /** The search never steps below a position up to which the logs agree, and the probe it ends with is accepted. */
  lemma {:induction false} SearchEnds(own: Node, lead: Node, p: nat, peer: nat, k: nat)
    requires Searching(own, lead, peer) && k < lead.nextIndex[peer] && Agree(own.log, lead.log, k)
    ensures var r := FastSearch(own, lead, p, peer);
      k <= r < lead.nextIndex[peer] && Accepts(own.log, lead.log, r)
    decreases lead.nextIndex[peer]
  {
    if !Accepts(own.log, lead.log, lead.nextIndex[peer] - 1) {
      OneBackOff(own, lead, p, peer);
      assert Accepts(own.log, lead.log, k);
      hide LeaderAfter, FollowerAfter, Comparable;
      SearchEnds(FollowerAfter(own, lead, p, peer), LeaderAfter(own, lead, p, peer), p, peer, k);
    }
  }

  /**
    For any sorted logs, committed prefix or not: a rejected round lowers nextIndex unless the follower
    has committed the conflicting entry and the leader has no entry of its term up to there.
  */
  lemma ProgressExactly(own: Node, lead: Node, p: nat, peer: nat)
    requires Probing(own, lead, peer) && Sorted(own.log) && Sorted(lead.log) && own.log[0] == DUMMY == lead.log[0]
    requires !Accepts(own.log, lead.log, lead.nextIndex[peer] - 1)
    ensures var prev := lead.nextIndex[peer] - 1;
      LeaderAfter(own, lead, p, peer).nextIndex[peer] < lead.nextIndex[peer]
      <==> !(prev < |own.log| && prev <= own.commitIndex && forall i :: 0 <= i <= prev ==> lead.log[i].term != own.log[prev].term)
  {
    RejectedRound(own, lead, p, peer);
    hide LeaderAfter;
    HintLowersExactly(own, lead.log, lead.nextIndex[peer]);
  }

  lemma HintLowersExactly(own: Node, log: seq<Entry>, next: nat)
    requires 1 <= next <= |log| && |own.log| > 0 && Sorted(own.log) && Sorted(log) && own.log[0] == DUMMY == log[0]
    requires !Accepts(own.log, log, next - 1)
    ensures var prev := next - 1;
      BackOff(log, next, ProbeReply(own, log, next)) < next
      <==> !(prev < |own.log| && prev <= own.commitIndex && forall i :: 0 <= i <= prev ==> log[i].term != own.log[prev].term)
  {
  }

  /** Such a case, where the leader would repeat its probe for ever; commit safety excludes it. */
  lemma StuckIfCommitDiffers()
    ensures exists own: Node, lead: Node ::
      && Probing(own, lead, 0) && Sorted(own.log) && Sorted(lead.log) && own.log[0] == DUMMY == lead.log[0]
      && !Accepts(own.log, lead.log, lead.nextIndex[0] - 1)
      && LeaderAfter(own, lead, 1, 0) == lead
  {
    var own := Node(3, -1, FOLLOWER, [DUMMY, Entry(0, 2, [], [])], 1, [], []);
    var lead := Node(3, 1, LEADER, [DUMMY, Entry(0, 1, [], [])], 0, [2, 2], [0, 0]);
    RejectedRound(own, lead, 1, 0);
    var reply := ProbeReply(own, lead.log, 2);
    assert reply.xTerm == 2 && reply.xIndex == 2;
    assert BackOff(lead.log, 2, reply) == 2;
    assert lead.nextIndex[0 := 2] == lead.nextIndex;
    hide LeaderAfter;
    assert LeaderAfter(own, lead, 1, 0) == lead;
  }
}
