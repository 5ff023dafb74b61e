/** The follower's merge of sent entries into its log. */
module RaftLog {
  import opened Types
  import opened RaftSpec
  import opened RaftHistory

  /** Equal terms at a position mean equal entries there. */
  ghost predicate Matching(a: seq<Entry>, b: seq<Entry>) {
    forall j :: 0 <= j < |a| && j < |b| && a[j].term == b[j].term ==> a[j] == b[j]
  }

  /** The entries are the slice of `log` behind position prev. */
  ghost predicate SliceOf(entries: seq<Entry>, log: seq<Entry>, prev: nat) {
    prev + |entries| < |log| && forall j :: 0 <= j < |entries| ==> entries[j] == log[prev + 1 + j]
  }

  /**
    Merging a slice of a matching log: the result has the whole slice, keeps whatever already
    agreed, and is either the old log or ends with the slice.
  */
  lemma {:induction false} MergeSlice(own: seq<Entry>, log: seq<Entry>, prev: nat, entries: seq<Entry>, idx: nat, k: int)
    requires idx <= |entries| && Agree(own, log, prev + idx)
    requires SliceOf(entries, log, prev) && Matching(own, log)
    ensures var m := Merge(own, prev, entries, idx);
      && Agree(m, log, prev + |entries|)
      && (Agree(own, log, k) ==> Agree(m, log, k))
      && (m == own || m == log[..prev + 1 + |entries|])
    decreases |entries| - idx
  {
    var m, ridx := Merge(own, prev, entries, idx), prev + 1 + idx;
    if idx < |entries| {
      if ridx < |own| && own[ridx].term == entries[idx].term {
        MergeSlice(own, log, prev, entries, idx + 1, k);
      } else {
        assert m == own[..ridx] + entries[idx..];
        assert m == log[..prev + 1 + |entries|];
      }
    }
  }

  /** After the merge the log has all that was sent, keeps all it shared with the leader, and is one of two logs. */
  ghost predicate Merged(own: seq<Entry>, m: seq<Entry>, log: seq<Entry>, sent: nat) {
    && sent < |log| && Agree(m, log, sent)
    && (m == own || m == log[..sent + 1])
    && (forall k :: Agree(own, log, k) ==> Agree(m, log, k))
  }

  lemma MergeMerges(own: seq<Entry>, log: seq<Entry>, prev: nat, entries: seq<Entry>)
    requires Agree(own, log, prev) && SliceOf(entries, log, prev) && Matching(own, log)
    ensures Merged(own, Merge(own, prev, entries), log, prev + |entries|)
  {
    MergeSlice(own, log, prev, entries, 0, 0);
    forall k | Agree(own, log, k) ensures Agree(Merge(own, prev, entries), log, k) {
      MergeSlice(own, log, prev, entries, 0, k);
    }
  }

  /** What the merge does to any log, with no assumption on where the entries come from. */
  lemma {:induction false} MergeMeets(own: seq<Entry>, prev: nat, entries: seq<Entry>, idx: nat)
    requires idx <= |entries| && prev + 1 + idx <= |own|
    ensures var m := Merge(own, prev, entries, idx);
      && |m| >= prev + 1 + |entries|
      && m[..prev + 1 + idx] == own[..prev + 1 + idx]
      && (forall j :: idx <= j < |entries| ==> m[prev + 1 + j].term == entries[j].term)
      && ((forall j :: idx <= j < |entries| && prev + 1 + j < |own| ==> own[prev + 1 + j].term == entries[j].term)
          <==> own <= m)
      && (!(own <= m) ==> |m| == prev + 1 + |entries|)
    decreases |entries| - idx
  {
    var m, ridx := Merge(own, prev, entries, idx), prev + 1 + idx;
    if idx < |entries| {
      if ridx < |own| && own[ridx].term == entries[idx].term {
        MergeMeets(own, prev, entries, idx + 1);
        assert m[..ridx] == m[..ridx + 1][..ridx] == own[..ridx];
        assert m[ridx] == m[..ridx + 1][ridx] == own[ridx];
      } else if ridx < |own| {
        assert m == own[..ridx] + entries[idx..];
        assert m[ridx].term != own[ridx].term;
      } else {
        assert m == own + entries[idx..];
      }
    }
  }

  /** Delivering again, or late, what the log already has changes nothing. */
  lemma {:induction false} MergeAgain(own: seq<Entry>, log: seq<Entry>, prev: nat, entries: seq<Entry>, idx: nat)
    requires idx <= |entries| && SliceOf(entries, log, prev) && Agree(own, log, prev + |entries|)
    ensures Merge(own, prev, entries, idx) == own
    decreases |entries| - idx
  {
    if idx < |entries| {
      MergeAgain(own, log, prev, entries, idx + 1);
    }
  }
}
