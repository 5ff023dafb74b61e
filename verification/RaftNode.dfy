/**
  The Raft node as the program keeps it: an object with fields, two index arrays and a LogVec,
  whose methods are the blocks run under the mutex. Each method is proved to do to the node's
  value exactly what its step in RaftSpec does.
*/
module RaftNodeModule {
  import opened Types
  import opened EntryCodec
  import opened LogVecModule
  import opened RaftSpec

  /** The vote counter one election's threads share. */
  class VoteCount {
    var count: nat

    constructor ()
      ensures count == 1
    {
      count := 1;
    }
  }

  /**
    An entry the log stores without loss. Entries that arrive in a message are: its parser refuses a
    key that is not well-formed UTF-8.
  */
  predicate Clean(e: Entry) {
    Fits(e) && Stored(e) == e
  }

  class RaftNode {
    const size: nat
    const id: nat
    var currentTerm: nat
    var votedFor: int
    var role: Role
    var commitIndex: nat
    const log: LogVec
    const nextIndex: array<int>
    const matchIndex: array<int>

    ghost predicate Valid()
      reads this, log, nextIndex, matchIndex
    {
      && log.Valid() && |log.entries| > 0 && (forall e :: e in log.entries ==> Clean(e))
      && nextIndex != matchIndex && nextIndex.Length == matchIndex.Length == size
    }

    ghost function View(): Node
      reads this, log, nextIndex, matchIndex
    {
      Node(currentTerm, votedFor, role, log.entries, commitIndex, nextIndex[..], matchIndex[..])
    }

    constructor (n: nat, id: nat)
      ensures Valid() && size == n && this.id == id && View() == InitialNode(n)
      ensures fresh(log) && fresh(nextIndex) && fresh(matchIndex)
    {
      size := n;
      this.id := id;
      currentTerm, votedFor, role, commitIndex := 0, -1, FOLLOWER, 0;
      var files := new LogVec([], [], []);
      DefaultEntryIsEmpty();
      files.PushBack(DUMMY);
      log := files;
      nextIndex := new int[n](_ => 0);
      matchIndex := new int[n](_ => 0);
      new;
      assert nextIndex[..] == InitialNode(n).nextIndex;
      assert matchIndex[..] == InitialNode(n).matchIndex;
    }

    /** log[i], as it reads back from the files. */
    method EntryAt(i: nat) returns (e: Entry)
      requires Valid() && i < |log.entries|
      ensures e == log.entries[i]
    {
      e := log.At(i);
      assert log.entries[i] in log.entries;
    }

    // ---- Elections -----------------------------------------------------------------------

    method Elect() returns (args: RequestVoteArgs)
      requires Valid()
      modifies this
      ensures Valid() && View() == RaftSpec.Elect(old(View()), id) && args == ElectionArgs(View(), id)
    {
      currentTerm := currentTerm + 1;
      role := CANDIDATE;
      votedFor := id;
      var n := log.Size();
      var last := EntryAt(n - 1);
      args := RequestVoteArgs(currentTerm, id, n - 1, last.term);
    }

    method RequestVote(args: RequestVoteArgs) returns (reply: RequestVoteReply)
      requires Valid()
      modifies this
      ensures Valid() && (View(), reply) == OnRequestVote(old(View()), args)
    {
      if args.term < currentTerm {
        return RequestVoteReply(currentTerm, false);
      }
      if args.term > currentTerm {
        currentTerm := args.term;
        votedFor := -1;
        role := FOLLOWER;
      }
      if votedFor == -1 || votedFor == args.candidateId {
        var n := log.Size();
        var last := EntryAt(n - 1);
        if args.lastLogTerm > last.term || (args.lastLogTerm == last.term && args.lastLogIndex >= n - 1) {
          currentTerm := args.term;
          votedFor := args.candidateId;
          role := FOLLOWER;
          return RequestVoteReply(currentTerm, true);
        }
      }
      reply := RequestVoteReply(currentTerm, false);
    }

    /** The reply block of GetVoteAnswer. */
    method GetVoteAnswer(args: RequestVoteArgs, reply: RequestVoteReply) returns (won: bool)
      requires Valid()
      modifies this
      ensures Valid() && (View(), won) == OnVoteAnswer(old(View()), args, reply)
    {
      if role != CANDIDATE || args.term != currentTerm {
        return false;
      }
      if reply.term > currentTerm {
        currentTerm := reply.term;
        role := FOLLOWER;
        votedFor := -1;
      }
      won := reply.voteGranted;
    }

    /** The tally in collectVote, for a vote that GetVoteAnswer reported as won. */
    method CollectVote(args: RequestVoteArgs, voteCount: VoteCount)
      requires Valid()
      modifies this, voteCount, nextIndex, matchIndex
      ensures Valid() && (View(), voteCount.count) == OnVoteWon(old(View()), size, args.term, old(voteCount.count))
    {
      if voteCount.count > size / 2 {
        return;
      }
      voteCount.count := voteCount.count + 1;
      if voteCount.count > size / 2 {
        if role != CANDIDATE || currentTerm != args.term {
          return;
        }
        role := LEADER;
        var n := log.Size();
        for i := 0 to nextIndex.Length
          modifies nextIndex, matchIndex
          invariant forall j :: 0 <= j < i ==> nextIndex[j] == n && matchIndex[j] == 0
        {
          nextIndex[i] := n;
          matchIndex[i] := 0;
        }
        assert nextIndex[..] == BecomeLeader(old(View()), size).nextIndex;
        assert matchIndex[..] == BecomeLeader(old(View()), size).matchIndex;
      }
    }

    // ---- Sending -------------------------------------------------------------------------

    /** The arguments SendHeartBeats builds for peer i. */
    method HeartBeat(i: nat) returns (args: AppendEntriesArgs)
      requires Valid() && role == LEADER && CanSend(View(), i)
      ensures args == HeartBeatArgs(View(), id, i)
    {
      var prev := nextIndex[i] - 1;
      var entries: seq<Entry> := [];
      var n := log.Size();
      if n - 1 > prev {
        for j := prev + 1 to n
          invariant entries == log.entries[prev + 1..j]
        {
          var e := EntryAt(j);
          entries := entries + [e];
        }
        assert log.entries[prev + 1..n] == log.entries[prev + 1..];
      }
      var before := EntryAt(prev);
      args := AppendEntriesArgs(currentTerm, id, prev, before.term, entries, commitIndex);
    }

    // ---- Receiving -----------------------------------------------------------------------

    /** The handler may store these entries. */
    ghost predicate CanStore(entries: seq<Entry>)
      reads log
    {
      (forall e :: e in entries ==> Clean(e)) && |log.data| + |Data(entries)| < MAX_FILE
    }

    method AppendEntries(args: AppendEntriesArgs) returns (reply: AppendEntriesReply)
      requires Valid() && CanStore(args.entries)
      modifies this, log
      ensures Valid() && (View(), reply) == OnAppendEntries(old(View()), args)
    {
      if args.term < currentTerm {
        return AppendEntriesReply(currentTerm, false, 0, 0, 0);
      }
      if args.term > currentTerm {
        currentTerm := args.term;
        votedFor := -1;
        role := FOLLOWER;
      }
      reply := CheckAndMerge(args);
    }

    method CheckAndMerge(args: AppendEntriesArgs) returns (reply: AppendEntriesReply)
      requires Valid() && CanStore(args.entries)
      modifies this`commitIndex, log
      ensures Valid() && (View(), reply) == RaftSpec.CheckAndMerge(old(View()), args)
    {
      var n := log.Size();
      if args.prevLogIndex >= n {
        return AppendEntriesReply(currentTerm, false, -1, 0, n);
      }
      var before := EntryAt(args.prevLogIndex);
      if before.term != args.prevLogTerm {
        var i := ConflictStart(args.prevLogIndex, before.term);
        return AppendEntriesReply(currentTerm, false, before.term, i + 1, n);
      }
      MergeEntries(args.prevLogIndex, args.entries);
      MergeNonEmpty(old(log.entries), args.prevLogIndex, args.entries, 0);
      RaiseCommit(args.leaderCommit);
      reply := AppendEntriesReply(currentTerm, true, 0, 0, 0);
    }

    method RaiseCommit(leaderCommit: nat)
      requires Valid()
      modifies this`commitIndex
      ensures commitIndex == NewCommit(old(commitIndex), leaderCommit, |log.entries|)
    {
      if leaderCommit > commitIndex {
        var n := log.Size();
        if leaderCommit > n - 1 {
          commitIndex := n - 1;
        } else {
          commitIndex := leaderCommit;
        }
      }
    }

    /** The backward scan over the conflicting term. */
    method ConflictStart(prev: nat, xTerm: int) returns (i: nat)
      requires Valid() && prev < |log.entries|
      ensures i == ScanBack(log.entries, commitIndex, prev, xTerm)
    {
      i := prev;
      while i > commitIndex
        invariant i <= prev && ScanBack(log.entries, commitIndex, i, xTerm) == ScanBack(log.entries, commitIndex, prev, xTerm)
      {
        var e := EntryAt(i);
        if e.term != xTerm { break; }
        i := i - 1;
      }
    }

    /** The merge loop. */
    method MergeEntries(prev: nat, entries: seq<Entry>)
      requires Valid() && CanStore(entries) && prev < |log.entries|
      modifies log
      ensures Valid() && log.entries == Merge(old(log.entries), prev, entries)
    {
      MergeNonEmpty(log.entries, prev, entries, 0);
      var idx := 0;
      while idx < |entries|
        invariant idx <= |entries| && prev + 1 + idx <= |log.entries|
        invariant log.entries == old(log.entries) && log.data == old(log.data) && Valid()
        invariant Merge(log.entries, prev, entries, idx) == Merge(log.entries, prev, entries)
      {
        var ridx := prev + 1 + idx;
        var n := log.Size();
        if ridx < n {
          var e := EntryAt(ridx);
          if e.term != entries[idx].term {
            log.TruncateFrom(ridx);
            PushFrom(entries, idx);
            return;
          }
        } else if ridx == n {
          PushFrom(entries, idx);
          return;
        }
        idx := idx + 1;
      }
    }

    /** The push_back loops: the entries from idx on go to the end of the log. */
    method PushFrom(entries: seq<Entry>, idx: nat)
      requires Valid() && CanStore(entries) && idx <= |entries|
      modifies log
      ensures Valid() && log.entries == old(log.entries) + entries[idx..]
    {
      hide Data, Meta, Encode;
      for j := idx to |entries|
        invariant Valid() && log.entries == old(log.entries) + entries[idx..j]
        invariant |log.data| + |Data(entries)| < MAX_FILE + |Data(entries[..j])|
      {
        PushRoom(entries, j);
        assert entries[idx..j + 1] == entries[idx..j] + [entries[j]];
        log.PushBack(entries[j]);
      }
      assert entries[idx..|entries|] == entries[idx..];
    }

    // ---- Replies -------------------------------------------------------------------------

    /** The reply block of handleAppendEntries. */
    method HandleAppendReply(target: nat, args: AppendEntriesArgs, reply: AppendEntriesReply)
      requires Valid() && target < size && CanHandleReply(View(), target, args)
      modifies this, nextIndex, matchIndex
      ensures Valid() && View() == OnAppendReply(old(View()), id, target, args, reply)
    {
      if role != LEADER || args.term != currentTerm {
        return;
      }
      if reply.success {
        var newMatch := args.prevLogIndex + |args.entries|;
        if newMatch > matchIndex[target] {
          matchIndex[target] := newMatch;
        }
        nextIndex[target] := matchIndex[target] + 1;
        ghost var best := matchIndex[target];
        assert matchIndex[..] == old(matchIndex[..])[target := best];
        assert nextIndex[..] == old(nextIndex[..])[target := best + 1];
        var k := CommitScan();
        commitIndex := k;
        return;
      }
      if reply.term > currentTerm {
        currentTerm := reply.term;
        role := FOLLOWER;
        votedFor := -1;
        return;
      }
      if reply.term == currentTerm {
        var next := BackedOff(nextIndex[target], reply);
        nextIndex[target] := next;
      }
    }

    /** The commit scan, from the end of the log down to the commit index. */
    method CommitScan() returns (n: nat)
      requires Valid() && commitIndex < |log.entries|
      ensures n == ScanCommit(View(), id, |log.entries| - 1)
    {
      var m := log.Size();
      n := m - 1;
      while n > commitIndex
        invariant commitIndex <= n < |log.entries|
        invariant ScanCommit(View(), id, n) == ScanCommit(View(), id, |log.entries| - 1)
      {
        var count := CountHolders(n);
        if count > size / 2 { break; }
        n := n - 1;
      }
    }

    method CountHolders(n: nat) returns (count: nat)
      requires Valid() && n < |log.entries|
      ensures count > size / 2 <==> Replicated(View(), id, n)
    {
      count := 1;
      var e := EntryAt(n);
      for i := 0 to size
        invariant count == 1 + (if e.term == currentTerm then |HoldersBelow(matchIndex[..], id, n, i)| else 0)
      {
        HoldersStep(matchIndex[..], id, n, i);
        if i != id && matchIndex[i] >= n && e.term == currentTerm {
          count := count + 1;
        }
      }
      assert HoldersBelow(matchIndex[..], id, n, size) == Holders(matchIndex[..], id, n);
    }

    /** The new nextIndex after a rejection. */
    method BackedOff(next: int, reply: AppendEntriesReply) returns (r: int)
      requires Valid() && next <= |log.entries|
      ensures r == BackOff(log.entries, next, reply)
    {
      if reply.xTerm == -1 {
        return if 0 >= reply.xLen then 0 else reply.xLen;
      }
      var i := next - 1;
      if i < 0 {
        i := 0;
      }
      ghost var start := i;
      var e := EntryAt(i);
      while i > 0 && e.term > reply.xTerm
        invariant 0 <= i <= start && e == log.entries[i]
        invariant LastAtMost(log.entries, i, reply.xTerm) == LastAtMost(log.entries, start, reply.xTerm)
      {
        i := i - 1;
        e := EntryAt(i);
      }
      if i == 0 && e.term > reply.xTerm {
        r := 0;
      } else if e.term == reply.xTerm {
        r := i + 1;
      } else if reply.xIndex <= 0 {
        r := 0;
      } else {
        r := reply.xIndex;
      }
    }
  }

  lemma PushRoom(entries: seq<Entry>, j: nat)
    requires j < |entries|
    ensures |Data(entries[..j])| + |Encode(entries[j])| == |Data(entries[..j + 1])| <= |Data(entries)|
    ensures entries[j] in entries
  {
    FilesOfPrefix(entries, j + 1);
    DataPush(entries[..j], entries[j]);
    assert entries[..j + 1] == entries[..j] + [entries[j]];
  }

  ghost function HoldersBelow(matchIndex: seq<int>, self: nat, k: int, n: int): set<int> {
    set i | 0 <= i < n && i < |matchIndex| && i != self && matchIndex[i] >= k
  }

  lemma HoldersStep(matchIndex: seq<int>, self: nat, k: int, n: nat)
    requires n < |matchIndex|
    ensures HoldersBelow(matchIndex, self, k, 0) == {}
    ensures |HoldersBelow(matchIndex, self, k, n + 1)|
      == |HoldersBelow(matchIndex, self, k, n)| + if n != self && matchIndex[n] >= k then 1 else 0
  {
    var a, b := HoldersBelow(matchIndex, self, k, n), HoldersBelow(matchIndex, self, k, n + 1);
    if n != self && matchIndex[n] >= k {
      assert b == a + {n};
    } else {
      assert b == a;
    }
  }
}
