/** The daily value log as the editor keeps it: looked up by date (first
    match), re-sorted by date after a new entry, overwritten in place for a
    known date. The sort is `Array.prototype.sort`, which is stable; dates are
    compared as `YYYY-MM-DD` strings. */
module Logs {
  import opened Common
  import opened Text
  import opened Portfolio

  /** Ascending by date. */
  predicate Sorted(logs: seq<LogEntry>)
  {
    forall i, j :: 0 <= i < j < |logs| ==> StrLe(logs[i].date, logs[j].date)
  }

  /** At most one entry per date. */
  predicate UniqueDates(logs: seq<LogEntry>)
  {
    forall i, j :: 0 <= i < j < |logs| ==> logs[i].date != logs[j].date
  }

  /** `logs.findIndex(l => l.date === date)`: the first position holding
      `date`, or None when no entry has it. */
  function FindDate(logs: seq<LogEntry>, date: string): (r: Option<nat>)
    ensures r.None? <==> forall i :: 0 <= i < |logs| ==> logs[i].date != date
    ensures r.Some? ==> r.value < |logs| && logs[r.value].date == date
    ensures r.Some? ==> forall i :: 0 <= i < r.value ==> logs[i].date != date
  {
    if |logs| == 0 then None
    else if logs[0].date == date then Some(0)
    else match FindDate(logs[1..], date)
      case None => None
      case Some(i) => Some(i + 1)
  }

  /** Two logs with the same dates position by position answer every lookup
      alike: the lookup never looks at values. */
  lemma FindDateIgnoresValues(a: seq<LogEntry>, b: seq<LogEntry>, date: string)
    requires |a| == |b|
    requires forall j :: 0 <= j < |a| ==> a[j].date == b[j].date
    ensures FindDate(a, date) == FindDate(b, date)
  {
  }

  /** One step of the stable sort: `e` goes in front of the first entry dated
      strictly after it, so it lands behind entries with the same date. */
  function Insert(s: seq<LogEntry>, e: LogEntry): (r: seq<LogEntry>)
    ensures |r| == |s| + 1
  {
    if |s| == 0 then [e]
    else if StrLt(e.date, s[0].date) then [e] + s
    else [s[0]] + Insert(s[1..], e)
  }

  /** Where `Insert` places `e`: in front of the first entry dated strictly
      after it, and behind every entry before that one. */
  function InsertPosition(s: seq<LogEntry>, e: LogEntry): (k: nat)
    ensures k <= |s|
  {
    if |s| == 0 || StrLt(e.date, s[0].date) then 0
    else 1 + InsertPosition(s[1..], e)
  }

  lemma {:induction false} InsertPositionIsFirstLater(s: seq<LogEntry>, e: LogEntry)
    ensures var k := InsertPosition(s, e);
      && (forall j :: 0 <= j < k ==> !StrLt(e.date, s[j].date))
      && (k < |s| ==> StrLt(e.date, s[k].date))
  {
    if |s| > 0 && !StrLt(e.date, s[0].date) {
      InsertPositionIsFirstLater(s[1..], e);
    }
  }

  /** Inserting keeps every old entry and their relative order: `e` goes in at
      one position and the entries on either side of it are untouched. */
  lemma {:induction false} InsertSplits(s: seq<LogEntry>, e: LogEntry)
    ensures Insert(s, e) == s[..InsertPosition(s, e)] + [e] + s[InsertPosition(s, e)..]
  {
    if |s| > 0 && !StrLt(e.date, s[0].date) {
      var t := s[1..];
      var k := InsertPosition(t, e);
      assert Insert(t, e) == t[..k] + [e] + t[k..] by {
        InsertSplits(t, e);
      }
      assert InsertPosition(s, e) == k + 1;
      assert Insert(s, e) == [s[0]] + Insert(t, e);
      assert s[..k + 1] + [e] + s[k + 1..] == [s[0]] + (t[..k] + [e] + t[k..]) by {
        assert s[..k + 1] == [s[0]] + t[..k];
        assert s[k + 1..] == t[k..];
      }
    }
  }

  /** Inserting adds exactly the one entry. */
  lemma InsertMultiset(s: seq<LogEntry>, e: LogEntry)
    ensures multiset(Insert(s, e)) == multiset(s) + multiset{e}
  {
    InsertSplits(s, e);
    var k := InsertPosition(s, e);
    assert s == s[..k] + s[k..];
  }

  /** Inserting into a sorted log keeps it sorted. */
  lemma {:induction false} InsertSorted(s: seq<LogEntry>, e: LogEntry)
    requires Sorted(s)
    ensures Sorted(Insert(s, e))
  {
    if |s| == 0 {
    } else if StrLt(e.date, s[0].date) {
      forall j | 0 <= j < |s| ensures StrLe(e.date, s[j].date) {
        if j > 0 {
          StrLeTransitive(e.date, s[0].date, s[j].date);
        }
      }
      assert Sorted([e] + s);
    } else {
      StrLtTrichotomy(e.date, s[0].date);
      assert StrLe(s[0].date, e.date);
      var t := Insert(s[1..], e);
      InsertSorted(s[1..], e);
      InsertMultiset(s[1..], e);
      forall j | 0 <= j < |t| ensures StrLe(s[0].date, t[j].date) {
        assert t[j] in multiset(t);
        if t[j] != e {
          assert t[j] in multiset(s[1..]);
          var q :| 0 <= q < |s[1..]| && s[1..][q] == t[j];
          assert s[q + 1] == t[j];
        }
      }
      assert Sorted([s[0]] + t);
    }
  }

  /** An entry dated on or after everything in the log goes at the end. */
  lemma {:induction false} InsertAtEnd(s: seq<LogEntry>, e: LogEntry)
    requires forall j :: 0 <= j < |s| ==> StrLe(s[j].date, e.date)
    ensures Insert(s, e) == s + [e]
  {
    if |s| > 0 {
      if StrLt(e.date, s[0].date) {
        StrLeAntisymmetric(e.date, s[0].date);
      }
      InsertAtEnd(s[1..], e);
      assert s == [s[0]] + s[1..];
    }
  }

  /** `logs.sort((a, b) => new Date(a.date) - new Date(b.date))`, as a stable
      insertion sort by date. */
  function SortByDate(logs: seq<LogEntry>): (r: seq<LogEntry>)
    ensures |r| == |logs|
    ensures multiset(r) == multiset(logs)
    ensures Sorted(r)
  {
    if |logs| == 0 then []
    else
      var init := logs[..|logs| - 1];
      assert logs == init + [logs[|logs| - 1]];
      InsertSorted(SortByDate(init), logs[|logs| - 1]);
      InsertMultiset(SortByDate(init), logs[|logs| - 1]);
      Insert(SortByDate(init), logs[|logs| - 1])
  }

  /** Sorting a log that is already in date order changes nothing. */
  lemma {:induction false} SortSortedIsIdentity(logs: seq<LogEntry>)
    requires Sorted(logs)
    ensures SortByDate(logs) == logs
  {
    if |logs| > 0 {
      var init, last := logs[..|logs| - 1], logs[|logs| - 1];
      assert logs == init + [last];
      SortedSplit(init, last);
      assert SortByDate(init) == init by {
        SortSortedIsIdentity(init);
      }
      assert Insert(init, last) == init + [last] by {
        InsertAtEnd(init, last);
      }
      assert logs == init + [last];
    }
  }

  /** The entries of a log carrying `date`, in log order. */
  function OfDate(logs: seq<LogEntry>, date: string): seq<LogEntry>
  {
    if |logs| == 0 then []
    else OfDate(logs[..|logs| - 1], date) + (if logs[|logs| - 1].date == date then [logs[|logs| - 1]] else [])
  }

  lemma {:induction false} OfDateAppend(a: seq<LogEntry>, b: seq<LogEntry>, date: string)
    ensures OfDate(a + b, date) == OfDate(a, date) + OfDate(b, date)
    decreases |b|
  {
    if |b| == 0 {
      assert a + b == a;
    } else {
      var b' := b[..|b| - 1];
      assert (a + b)[..|a + b| - 1] == a + b';
      OfDateAppend(a, b', date);
    }
  }

  lemma {:induction false} OfDateNone(logs: seq<LogEntry>, date: string)
    requires forall j :: 0 <= j < |logs| ==> logs[j].date != date
    ensures OfDate(logs, date) == []
  {
    if |logs| > 0 {
      OfDateNone(logs[..|logs| - 1], date);
    }
  }

  /** Inserting into a sorted log puts the new entry behind every entry with
      the same date: the entries of each date keep their order, and the new
      one comes last among its date. */
  lemma InsertOfDate(s: seq<LogEntry>, e: LogEntry, date: string)
    requires Sorted(s)
    ensures e.date == date ==> OfDate(Insert(s, e), date) == OfDate(s, date) + [e]
    ensures e.date != date ==> OfDate(Insert(s, e), date) == OfDate(s, date)
  {
    var k := InsertPosition(s, e);
    assert Insert(s, e) == s[..k] + [e] + s[k..] by {
      InsertSplits(s, e);
    }
    assert s == s[..k] + s[k..];
    LaterThanInsertPosition(s, e, k);
    OfDateAround(s[..k], e, s[k..], date);
  }

  /** Putting `e` between two pieces of a log, when no entry after it has
      its date, adds `e` at the end of the entries of that date. */
  lemma OfDateAround(pre: seq<LogEntry>, e: LogEntry, post: seq<LogEntry>, date: string)
    requires forall j :: 0 <= j < |post| ==> post[j].date != e.date
    ensures e.date == date ==> OfDate(pre + [e] + post, date) == OfDate(pre + post, date) + [e]
    ensures e.date != date ==> OfDate(pre + [e] + post, date) == OfDate(pre + post, date)
  {
    assert [e][..0] == [];
    OfDateAppend(pre + [e], post, date);
    OfDateAppend(pre, [e], date);
    OfDateAppend(pre, post, date);
    if e.date == date {
      OfDateNone(post, date);
      assert OfDate(pre, date) + [e] + [] == OfDate(pre, date) + [e];
      assert OfDate(pre, date) + [] == OfDate(pre, date);
    } else {
      assert OfDate(pre, date) + [] == OfDate(pre, date);
    }
  }

  /** No entry from the insertion point on has the inserted entry's date. */
  lemma LaterThanInsertPosition(s: seq<LogEntry>, e: LogEntry, k: nat)
    requires Sorted(s) && k == InsertPosition(s, e)
    ensures forall j :: 0 <= j < |s[k..]| ==> s[k..][j].date != e.date
  {
    InsertPositionIsFirstLater(s, e);
    forall j | 0 <= j < |s[k..]| ensures s[k..][j].date != e.date {
      if s[k + j].date == e.date {
        StrLeAntisymmetric(e.date, s[k].date);
      }
    }
  }

  /** The sort is stable: for every date, the entries carrying it come out in
      the order they went in. */
  lemma {:induction false} SortIsStable(logs: seq<LogEntry>, date: string)
    ensures OfDate(SortByDate(logs), date) == OfDate(logs, date)
  {
    if |logs| > 0 {
      var init, last := logs[..|logs| - 1], logs[|logs| - 1];
      SortIsStable(init, date);
      InsertOfDate(SortByDate(init), last, date);
      if last.date != date {
        assert OfDate(init, date) + [] == OfDate(init, date);
      }
    }
  }

  /** A sorted log is a sorted log followed by an entry dated on or after all of it. */
  lemma SortedSplit(init: seq<LogEntry>, last: LogEntry)
    requires Sorted(init + [last])
    ensures Sorted(init)
    ensures forall j :: 0 <= j < |init| ==> StrLe(init[j].date, last.date)
  {
    var logs := init + [last];
    forall j | 0 <= j < |init| ensures StrLe(init[j].date, last.date) {
      assert logs[j] == init[j] && logs[|init|] == last;
    }
    forall i, j | 0 <= i < j < |init| ensures StrLe(init[i].date, init[j].date) {
      assert logs[i] == init[i] && logs[j] == init[j];
    }
  }

  /** Sorting a log with one more entry is inserting that entry into the sorted log. */
  lemma SortSnoc(logs: seq<LogEntry>, e: LogEntry)
    ensures SortByDate(logs + [e]) == Insert(SortByDate(logs), e)
  {
    assert (logs + [e])[..|logs|] == logs;
  }

  /** The log upsert: a known date has its value overwritten in place; a new
      date is appended and the whole log re-sorted by date. */
  function Upsert(logs: seq<LogEntry>, date: string, value: real): (r: seq<LogEntry>)
    ensures FindDate(logs, date).Some? ==>
      var i := FindDate(logs, date).value;
      && |r| == |logs|
      && r[i].value == value
      && (forall j :: 0 <= j < |r| ==> r[j].date == logs[j].date)
      && (forall j :: 0 <= j < |r| && j != i ==> r[j] == logs[j])
    ensures FindDate(logs, date).None? ==>
      && |r| == |logs| + 1
      && multiset(r) == multiset(logs + [LogEntry(date, value)])
      && Sorted(r)
    ensures FindDate(logs, date).None? && Sorted(logs) ==> r == Insert(logs, LogEntry(date, value))
  {
    match FindDate(logs, date)
    case Some(i) => logs[i := logs[i].(value := value)]
    case None =>
      SortSnoc(logs, LogEntry(date, value));
      assert Sorted(logs) ==> SortByDate(logs) == logs by {
        if Sorted(logs) {
          SortSortedIsIdentity(logs);
        }
      }
      SortByDate(logs + [LogEntry(date, value)])
  }

  /** A new date inserted into a date-unique log keeps it date-unique. */
  lemma InsertUnique(s: seq<LogEntry>, e: LogEntry)
    requires UniqueDates(s)
    requires forall j :: 0 <= j < |s| ==> s[j].date != e.date
    ensures UniqueDates(Insert(s, e))
  {
    InsertSplits(s, e);
    var k := InsertPosition(s, e);
    var r := Insert(s, e);
    forall i, j | 0 <= i < j < |r| ensures r[i].date != r[j].date {
      if j < k {
        assert r[i] == s[i] && r[j] == s[j];
      } else if j == k {
        assert r[j] == e && r[i] == s[i];
      } else if i < k {
        assert r[i] == s[i] && r[j] == s[j - 1];
      } else if i == k {
        assert r[i] == e && r[j] == s[j - 1];
      } else {
        assert r[i] == s[i - 1] && r[j] == s[j - 1];
      }
    }
  }

  /** The editor's log invariant: a log that is sorted and has one entry per
      date stays so under every upsert, and afterwards holds exactly one entry
      for the date, carrying the new value. */
  lemma UpsertKeepsLogOrdered(logs: seq<LogEntry>, date: string, value: real)
    requires Sorted(logs) && UniqueDates(logs)
    ensures var r := Upsert(logs, date, value);
      && Sorted(r) && UniqueDates(r)
      && FindDate(r, date).Some?
      && r[FindDate(r, date).value].value == value
  {
    var r := Upsert(logs, date, value);
    match FindDate(logs, date)
    case Some(i) =>
      FindDateIgnoresValues(logs, r, date);
    case None =>
      var e := LogEntry(date, value);
      InsertUnique(logs, e);
      InsertSplits(logs, e);
      var k := InsertPosition(logs, e);
      assert r[k] == e;
  }

  /** Inserting the same new date with two values differs only at the new
      entry, which the lookup finds. */
  lemma {:induction false} ReinsertSameDate(s: seq<LogEntry>, date: string, v1: real, v2: real)
    requires forall j :: 0 <= j < |s| ==> s[j].date != date
    ensures var r := Insert(s, LogEntry(date, v1));
      && FindDate(r, date).Some?
      && r[FindDate(r, date).value := LogEntry(date, v2)] == Insert(s, LogEntry(date, v2))
  {
    if |s| > 0 && !StrLt(date, s[0].date) {
      ReinsertSameDate(s[1..], date, v1, v2);
      var t := Insert(s[1..], LogEntry(date, v1));
      var k := FindDate(t, date).value;
      assert FindDate([s[0]] + t, date) == Some(k + 1) by {
        assert ([s[0]] + t)[1..] == t;
      }
      assert ([s[0]] + t)[k + 1 := LogEntry(date, v2)] == [s[0]] + t[k := LogEntry(date, v2)];
    }
  }

  /** Upserting the same date twice is upserting it once with the later value:
      the log ends up with one entry for that date, holding the latest value. */
  lemma {:induction false} UpsertSameDateTwice(logs: seq<LogEntry>, date: string, v1: real, v2: real)
    ensures Upsert(Upsert(logs, date, v1), date, v2) == Upsert(logs, date, v2)
  {
    var r1 := Upsert(logs, date, v1);
    match FindDate(logs, date)
    case Some(i) =>
      FindDateIgnoresValues(logs, r1, date);
      assert r1[i := r1[i].(value := v2)] == logs[i := logs[i].(value := v2)];
    case None =>
      var sorted := SortByDate(logs);
      SortSnoc(logs, LogEntry(date, v1));
      SortSnoc(logs, LogEntry(date, v2));
      forall j | 0 <= j < |sorted| ensures sorted[j].date != date {
        assert sorted[j] in multiset(logs);
      }
      ReinsertSameDate(sorted, date, v1, v2);
      var k := FindDate(r1, date).value;
      assert r1[k].(value := v2) == LogEntry(date, v2);
  }

  /** Deleting a log row keeps a sorted, date-unique log sorted and date-unique. */
  lemma DeleteKeepsLogOrdered(logs: seq<LogEntry>, i: nat)
    requires Sorted(logs) && UniqueDates(logs)
    ensures Sorted(RemoveAt(logs, i)) && UniqueDates(RemoveAt(logs, i))
  {
    var r := RemoveAt(logs, i);
    if i < |logs| {
      forall a, b | 0 <= a < b < |r| ensures StrLe(r[a].date, r[b].date) && r[a].date != r[b].date {
        var a' := if a < i then a else a + 1;
        var b' := if b < i then b else b + 1;
        assert r[a] == logs[a'] && r[b] == logs[b'];
      }
    }
  }
}
