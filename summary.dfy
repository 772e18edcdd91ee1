/**
 * The class-count summary: how many log rows carry each class name, with the
 * names in ascending order (`value_counts().sort_index()` on the name column).
 */
module Summary {
  import opened Detections
  import opened StringOrder

  /** One bar of the chart: a class name and how many rows carry it. */
  datatype ClassCount = ClassCount(name: string, count: nat)

  /** The number of rows of `log` whose class name is `name`. */
  function Count(log: seq<Row>, name: string): nat
  {
    if log == [] then 0
    else (if log[0].name == name then 1 else 0) + Count(log[1..], name)
  }

  /** The class names that occur in `log`. */
  function Names(log: seq<Row>): set<string>
  {
    set r | r in log :: r.name
  }

  /** The names of a summary. */
  function Keys(counts: seq<ClassCount>): set<string>
  {
    set c | c in counts :: c.name
  }

  /** The sum of the counts of a summary. */
  function Total(counts: seq<ClassCount>): nat
  {
    if counts == [] then 0 else counts[0].count + Total(counts[1..])
  }

  /** The count a summary gives `name`: that of its first entry for `name`, or 0. */
  function Lookup(counts: seq<ClassCount>, name: string): nat
  {
    if counts == [] then 0
    else if counts[0].name == name then counts[0].count
    else Lookup(counts[1..], name)
  }

  /** Names strictly ascending, hence also pairwise distinct. */
  predicate StrictlyAscending(counts: seq<ClassCount>)
  {
    forall i, j :: 0 <= i < j < |counts| ==> Less(counts[i].name, counts[j].name)
  }

  lemma AscendingCons(c: ClassCount, rest: seq<ClassCount>)
    ensures StrictlyAscending([c] + rest) <==>
      StrictlyAscending(rest) && forall x :: x in Keys(rest) ==> Less(c.name, x)
  {
    var s := [c] + rest;
    assert forall j :: 0 <= j < |rest| ==> s[j + 1] == rest[j];
    if StrictlyAscending(rest) && forall x :: x in Keys(rest) ==> Less(c.name, x) {
      forall i, j | 0 <= i < j < |s| ensures Less(s[i].name, s[j].name) {
        if i == 0 {
          assert s[j] in rest;
        }
      }
    }
    if StrictlyAscending(s) {
      forall x | x in Keys(rest) ensures Less(c.name, x) {
        var j :| 0 <= j < |rest| && rest[j].name == x;
        assert s[0] == c && s[j + 1] == rest[j];
        assert Less(s[0].name, s[j + 1].name);
      }
    }
  }

  lemma {:induction false} LookupAbsent(counts: seq<ClassCount>, name: string)
    requires name !in Keys(counts)
    ensures Lookup(counts, name) == 0
  {
    if counts != [] {
      assert counts[0] in counts;
      assert Keys(counts[1..]) <= Keys(counts);
      LookupAbsent(counts[1..], name);
    }
  }

  /** Adds one row named `name` to a summary: the entry for `name` goes up by
      one, or a new entry with count 1 is inserted in its sorted place. */
  function Tally(counts: seq<ClassCount>, name: string): seq<ClassCount>
  {
    if counts == [] then [ClassCount(name, 1)]
    else if counts[0].name == name then [ClassCount(name, counts[0].count + 1)] + counts[1..]
    else if Less(name, counts[0].name) then [ClassCount(name, 1)] + counts
    else [counts[0]] + Tally(counts[1..], name)
  }

  lemma {:induction false} TallyKeys(counts: seq<ClassCount>, name: string)
    ensures Keys(Tally(counts, name)) == Keys(counts) + {name}
  {
    if counts != [] {
      assert counts == [counts[0]] + counts[1..];
      assert Keys(counts) == {counts[0].name} + Keys(counts[1..]);
      if counts[0].name != name && !Less(name, counts[0].name) {
        TallyKeys(counts[1..], name);
        assert Keys(Tally(counts, name)) == {counts[0].name} + Keys(Tally(counts[1..], name));
      }
    }
  }

  lemma {:induction false} TallyTotal(counts: seq<ClassCount>, name: string)
    ensures Total(Tally(counts, name)) == Total(counts) + 1
  {
    if counts != [] {
      var t := Tally(counts, name);
      assert t[1..] == if counts[0].name == name then counts[1..]
                       else if Less(name, counts[0].name) then counts
                       else Tally(counts[1..], name);
      if counts[0].name != name && !Less(name, counts[0].name) {
        TallyTotal(counts[1..], name);
      }
    }
  }

  lemma {:induction false} TallyLookup(counts: seq<ClassCount>, name: string, k: string)
    requires StrictlyAscending(counts)
    ensures Lookup(Tally(counts, name), k) == Lookup(counts, k) + (if k == name then 1 else 0)
  {
    if counts != [] {
      var head, rest := counts[0], counts[1..];
      assert counts == [head] + rest;
      AscendingCons(head, rest);
      var t := Tally(counts, name);
      if head.name == name {
        assert t[0].name == name && t[1..] == rest;
      } else if Less(name, head.name) {
        assert t[0].name == name && t[1..] == counts;
        if k == name {
          forall x | x in Keys(counts) ensures Less(name, x) {
            if x != head.name {
              LessTransitive(name, head.name, x);
            }
          }
          LessIrreflexive(name);
          LookupAbsent(counts, name);
        }
      } else {
        assert t[0] == head && t[1..] == Tally(rest, name);
        TallyLookup(rest, name, k);
      }
    }
  }

  lemma {:induction false} TallyAscending(counts: seq<ClassCount>, name: string)
    requires StrictlyAscending(counts)
    ensures StrictlyAscending(Tally(counts, name))
  {
    if counts != [] {
      var head, rest := counts[0], counts[1..];
      assert counts == [head] + rest;
      AscendingCons(head, rest);
      assert Keys(counts) == {head.name} + Keys(rest);
      if head.name == name {
        AscendingCons(ClassCount(name, head.count + 1), rest);
      } else if Less(name, head.name) {
        forall x | x in Keys(counts) ensures Less(name, x) {
          if x != head.name {
            LessTransitive(name, head.name, x);
          }
        }
        AscendingCons(ClassCount(name, 1), counts);
      } else {
        LessTotal(name, head.name);
        TallyAscending(rest, name);
        TallyKeys(rest, name);
        AscendingCons(head, Tally(rest, name));
      }
    }
  }

  /** The summary of a log. */
  function ClassCounts(log: seq<Row>): (r: seq<ClassCount>)
    ensures StrictlyAscending(r)
    ensures Keys(r) == Names(log)
    ensures forall k :: Lookup(r, k) == Count(log, k)
    ensures Total(r) == |log|
  {
    if log == [] then []
    else
      assert log == [log[0]] + log[1..];
      assert Names(log) == {log[0].name} + Names(log[1..]);
      var rest := ClassCounts(log[1..]);
      TallyAscending(rest, log[0].name);
      TallyKeys(rest, log[0].name);
      TallyTotal(rest, log[0].name);
      assert forall k :: Lookup(Tally(rest, log[0].name), k) == Count(log, k) by {
        forall k ensures Lookup(Tally(rest, log[0].name), k) == Count(log, k) {
          TallyLookup(rest, log[0].name, k);
        }
      }
      Tally(rest, log[0].name)
  }

  /** In a summary with distinct names, each entry's count is what lookup gives its name. */
  lemma {:induction false} LookupAt(counts: seq<ClassCount>, i: nat)
    requires StrictlyAscending(counts) && i < |counts|
    ensures Lookup(counts, counts[i].name) == counts[i].count
  {
    if i > 0 {
      assert counts == [counts[0]] + counts[1..];
      AscendingCons(counts[0], counts[1..]);
      assert counts[1..][i - 1] == counts[i];
      assert counts[i] in counts[1..];
      LessIrreflexive(counts[0].name);
      LookupAt(counts[1..], i - 1);
    }
  }

  /** What the chart shows: each bar's count is the number of log rows with
      that class name and is positive; the names are exactly the names in the
      log, strictly ascending; the counts add up to the number of rows. */
  lemma SummaryCorrect(log: seq<Row>)
    ensures var r := ClassCounts(log);
      && (forall i :: 0 <= i < |r| ==> r[i].count == Count(log, r[i].name) && r[i].count > 0)
      && (forall i :: 0 <= i < |r| ==> r[i].name in Names(log))
      && (forall row :: row in log ==> exists i :: 0 <= i < |r| && r[i].name == row.name)
      && (forall i, j :: 0 <= i < j < |r| ==> Less(r[i].name, r[j].name))
      && Total(r) == |log|
  {
    var r := ClassCounts(log);
    forall i | 0 <= i < |r| ensures r[i].count == Count(log, r[i].name) && r[i].count > 0 {
      LookupAt(r, i);
      assert r[i].name in Keys(r);
      CountPositive(log, r[i].name);
    }
    forall row | row in log ensures exists i :: 0 <= i < |r| && r[i].name == row.name {
      assert row.name in Names(log);
      assert row.name in Keys(r);
    }
  }

  lemma {:induction false} CountPositive(log: seq<Row>, name: string)
    requires name in Names(log)
    ensures Count(log, name) > 0
  {
    if log[0].name != name {
      assert log == [log[0]] + log[1..];
      assert name in Names(log[1..]);
      CountPositive(log[1..], name);
    }
  }

  /** The summary counts every occurrence: appending rows adds their counts. */
  lemma {:induction false} CountAppend(a: seq<Row>, b: seq<Row>, name: string)
    ensures Count(a + b, name) == Count(a, name) + Count(b, name)
  {
    if a == [] {
      assert a + b == b;
    } else {
      assert (a + b)[1..] == a[1..] + b;
      CountAppend(a[1..], b, name);
    }
  }

  /** Rows named A, B, A give the bars A: 2 and B: 1, in that order. */
  lemma SummaryOfThreeRows(row: Row)
    ensures ClassCounts([row.(name := "A"), row.(name := "B"), row.(name := "A")]) ==
            [ClassCount("A", 2), ClassCount("B", 1)]
  {
    var a, b := row.(name := "A"), row.(name := "B");
    var log := [a, b, a];
    assert log[1..] == [b, a] && log[1..][1..] == [a] && [a][1..] == [];
    assert ClassCounts([a]) == [ClassCount("A", 1)];
    assert !Less("B", "A");
    assert [ClassCount("A", 1)][1..] == [];
    assert Tally([ClassCount("A", 1)], "B") == [ClassCount("A", 1)] + Tally([], "B");
    assert ClassCounts([b, a]) == [ClassCount("A", 1), ClassCount("B", 1)];
  }
}
