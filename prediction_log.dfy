/**
 * The append-only prediction log, `predictions.csv`: absent until the first
 * save, then a flat sequence of rows. A save flattens the batches of one
 * predict action and appends them after whatever the file already holds.
 */
module PredictionLog {
  import opened Wrappers
  import opened Detections
  import opened Summary

  /** The batches one after another (`pd.concat(all_dfs)`). */
  function Flatten(batches: seq<seq<Row>>): seq<Row>
  {
    if batches == [] then [] else batches[0] + Flatten(batches[1..])
  }

  /** Where batch `k` starts in the flattened rows. */
  function Offset(batches: seq<seq<Row>>, k: nat): nat
    requires k <= |batches|
  {
    |Flatten(batches[..k])|
  }

  /** The persisted log after saving `batches` onto `log`: nothing happens
      when there are no batches; otherwise the flattened rows follow the rows
      already saved, or become the log when there is none yet. */
  function AppendLog(log: Option<seq<Row>>, batches: seq<seq<Row>>): Option<seq<Row>>
  {
    if batches == [] then log
    else match log
      case None => Some(Flatten(batches))
      case Some(prior) => Some(prior + Flatten(batches))
  }

  lemma {:induction false} FlattenAppend(a: seq<seq<Row>>, b: seq<seq<Row>>)
    ensures Flatten(a + b) == Flatten(a) + Flatten(b)
  {
    if a == [] {
      assert a + b == b;
    } else {
      assert (a + b)[1..] == a[1..] + b;
      FlattenAppend(a[1..], b);
    }
  }

  /** Empty batches contribute no rows. */
  lemma {:induction false} FlattenEmptyBatches(batches: seq<seq<Row>>)
    requires forall k :: 0 <= k < |batches| ==> batches[k] == []
    ensures Flatten(batches) == []
  {
    if batches != [] {
      FlattenEmptyBatches(batches[1..]);
    }
  }

  /** Batch `k` sits, unchanged and whole, at its offset in the flattened rows,
      after the batches before it. */
  lemma FlattenBatchAt(batches: seq<seq<Row>>, k: nat)
    requires k < |batches|
    ensures Offset(batches, k) + |batches[k]| <= |Flatten(batches)|
    ensures Flatten(batches)[Offset(batches, k)..Offset(batches, k) + |batches[k]|] == batches[k]
  {
    var before, after := batches[..k], batches[k + 1..];
    assert batches == before + ([batches[k]] + after);
    FlattenAppend(before, [batches[k]] + after);
    assert [batches[k]] + after == [batches[k]] + after;
    assert Flatten([batches[k]] + after) == batches[k] + Flatten(after) by {
      assert ([batches[k]] + after)[1..] == after;
    }
    var f := Flatten(batches);
    assert f == Flatten(before) + (batches[k] + Flatten(after));
  }

  /** A save keeps every earlier row, unchanged and first, and puts the new
      rows after them; with no earlier log the new rows are the log. */
  lemma AppendLogSpec(log: Option<seq<Row>>, batches: seq<seq<Row>>)
    requires batches != []
    ensures AppendLog(log, batches).Some?
    ensures var rows := AppendLog(log, batches).value;
      var prior := if log.Some? then log.value else [];
      && |rows| == |prior| + |Flatten(batches)|
      && rows[..|prior|] == prior
      && rows[|prior|..] == Flatten(batches)
  {
  }

  /** Saving only empty batches leaves the number of rows unchanged. */
  lemma AppendEmptyBatches(log: Option<seq<Row>>, batches: seq<seq<Row>>)
    requires forall k :: 0 <= k < |batches| ==> batches[k] == []
    ensures log.Some? ==> AppendLog(log, batches) == log
    ensures log.None? && batches != [] ==> AppendLog(log, batches) == Some([])
  {
    FlattenEmptyBatches(batches);
    if log.Some? {
      assert log.value + [] == log.value;
    }
  }

  /** Two saves in a row leave the same log as one save of both runs' batches:
      earlier log, then the first run's rows, then the second's. */
  lemma AppendTwice(log: Option<seq<Row>>, b1: seq<seq<Row>>, b2: seq<seq<Row>>)
    ensures AppendLog(AppendLog(log, b1), b2) == AppendLog(log, b1 + b2)
  {
    if b1 == [] {
      assert b1 + b2 == b2;
    } else if b2 == [] {
      assert b1 + b2 == b1;
    } else {
      FlattenAppend(b1, b2);
      if log.Some? {
        assert log.value + Flatten(b1) + Flatten(b2) == log.value + (Flatten(b1) + Flatten(b2));
      }
    }
  }

  /** The class counts after a save are the earlier counts plus the new rows' counts. */
  lemma AppendCounts(log: Option<seq<Row>>, batches: seq<seq<Row>>, name: string)
    requires batches != []
    ensures Count(AppendLog(log, batches).value, name) ==
            (if log.Some? then Count(log.value, name) else 0) + Count(Flatten(batches), name)
  {
    if log.Some? {
      CountAppend(log.value, Flatten(batches), name);
    }
  }

  /** The file `predictions.csv` in the working directory. */
  class PredictionsFile {
    /** Absent, or the rows the file holds. */
    var contents: Option<seq<Row>>

    constructor (initial: Option<seq<Row>>)
      ensures contents == initial
    {
      contents := initial;
    }

    /** Saves the batches of one predict action: read the old rows if the
        file exists, put the new rows after them, write the whole back. */
    method Save(allDfs: seq<seq<Row>>)
      modifies this
      ensures contents == AppendLog(old(contents), allDfs)
    {
      if allDfs != [] {
        var combined := Flatten(allDfs);
        if contents.Some? {
          var prior := contents.value;
          combined := prior + combined;
        }
        contents := Some(combined);
      }
    }

    /** The chart data: the class counts of the file's rows, or nothing when
        the file does not exist. */
    method ClassSummary() returns (counts: Option<seq<ClassCount>>)
      ensures counts.Some? <==> contents.Some?
      ensures counts.Some? ==> counts.value == ClassCounts(contents.value)
    {
      if contents.Some? {
        var allPreds := contents.value;
        counts := Some(ClassCounts(allPreds));
      } else {
        counts := None;
      }
    }
  }
}
