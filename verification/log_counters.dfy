/** `LogMsgLevelCounters` and the counts summary built from it. The counters
    are a Python dict, so they remember the order in which level names were
    first seen; `names` records that order. */
module LogCounters {
  import Text
  import LogLevels

  datatype Counters = Counters(names: seq<string>, counts: map<string, nat>)

  /** Each counted name appears once in `names`, and only counted names do. */
  predicate Valid(c: Counters) {
    && (forall i, j :: 0 <= i < j < |c.names| ==> c.names[i] != c.names[j])
    && c.counts.Keys == set n | n in c.names
  }

  const Empty: Counters := Counters([], map[])

  /** `get_count`: 0 for a name never counted. */
  function GetCount(c: Counters, name: string): (n: nat)
    ensures name !in c.counts ==> n == 0
  {
    if name in c.counts then c.counts[name] else 0
  }

  /** `inc_count`: one more message at `name`; every other count is unchanged,
      and a new name goes to the end of the order. */
  function IncCount(c: Counters, name: string): (r: Counters)
    requires Valid(c)
    ensures Valid(r)
    ensures GetCount(r, name) == GetCount(c, name) + 1
    ensures forall n :: n != name ==> GetCount(r, n) == GetCount(c, n)
    ensures name in c.counts ==> r.names == c.names
    ensures name !in c.counts ==> r.names == c.names + [name]
  {
    var names := if name in c.counts then c.names else c.names + [name];
    Counters(names, c.counts[name := GetCount(c, name) + 1])
  }

  /** `get_items`: the (name, count) pairs in first-seen order. Every
      counted name appears exactly once, with its count. */
  function Items(c: Counters): (r: seq<(string, nat)>)
    requires Valid(c)
    ensures |r| == |c.counts|
    ensures forall i :: 0 <= i < |r| ==> r[i].0 in c.counts && r[i].1 == c.counts[r[i].0]
    ensures forall i, j :: 0 <= i < j < |r| ==> r[i].0 != r[j].0
  {
    DistinctCardinality(c.names);
    seq(|c.names|, i requires 0 <= i < |c.names| => (c.names[i], GetCount(c, c.names[i])))
  }

  /** Every counted name has its pair among the items. */
  lemma ItemsCoverCounts(c: Counters, name: string)
    requires Valid(c) && name in c.counts
    ensures exists i :: 0 <= i < |Items(c)| && Items(c)[i] == (name, c.counts[name])
  {
    var i :| 0 <= i < |c.names| && c.names[i] == name;
    assert Items(c)[i].0 == name;
  }

  /** A sequence without repeats has as many elements as its set. */
  lemma {:induction false} DistinctCardinality(names: seq<string>)
    requires forall i, j :: 0 <= i < j < |names| ==> names[i] != names[j]
    ensures |set n | n in names| == |names|
  {
    if |names| > 0 {
      var init := names[..|names| - 1];
      DistinctCardinality(init);
      assert (set n | n in names) == (set n | n in init) + {names[|names| - 1]};
      assert names[|names| - 1] !in (set n | n in init);
    }
  }

  /** The dict keeps first-seen order: a new name is appended with count 1,
      and counting a known name changes only its own count, in place. */
  lemma ItemsAfterIncCount(c: Counters, name: string)
    requires Valid(c)
    ensures name !in c.counts ==> Items(IncCount(c, name)) == Items(c) + [(name, 1)]
    ensures name in c.counts ==>
      |Items(IncCount(c, name))| == |Items(c)|
      && forall i :: 0 <= i < |Items(c)| ==>
           Items(IncCount(c, name))[i] == (Items(c)[i].0, if Items(c)[i].0 == name then Items(c)[i].1 + 1 else Items(c)[i].1)
  {
  }

  /** A (name, count) entry together with the sort key computed for it. */
  datatype Keyed = Keyed(key: int, name: string, count: nat)

  /** The (name, count) pairs of keyed entries, keys dropped. */
  function Pairs(s: seq<Keyed>): (r: seq<(string, nat)>)
    ensures |r| == |s|
    ensures forall i :: 0 <= i < |s| ==> r[i] == (s[i].name, s[i].count)
  {
    seq(|s|, i requires 0 <= i < |s| => (s[i].name, s[i].count))
  }

  predicate Sorted(s: seq<Keyed>) {
    forall i, j :: 0 <= i < j < |s| ==> s[i].key <= s[j].key
  }

  lemma SortedSnoc(s: seq<Keyed>, x: Keyed)
    requires Sorted(s)
    requires forall i :: 0 <= i < |s| ==> s[i].key <= x.key
    ensures Sorted(s + [x])
  {
  }

  /** Inserts `e` after every element whose key does not exceed its own. */
  function Insert(s: seq<Keyed>, e: Keyed): (r: seq<Keyed>)
    requires Sorted(s)
    ensures Sorted(r)
    ensures multiset(r) == multiset(s) + multiset{e}
    ensures |s| == 0 || s[|s| - 1].key <= e.key ==> r == s + [e]
  {
    if |s| == 0 || s[|s| - 1].key <= e.key then
      SortedSnoc(s, e);
      s + [e]
    else
      var init, last := s[..|s| - 1], s[|s| - 1];
      assert s == init + [last];
      var front := Insert(init, e);
      assert forall i :: 0 <= i < |front| ==> front[i].key <= last.key by {
        forall i | 0 <= i < |front| ensures front[i].key <= last.key {
          assert front[i] in multiset(front);
          if front[i] in multiset(init) {
            var j :| 0 <= j < |init| && init[j] == front[i];
            assert s[j] == init[j];
          }
        }
      }
      SortedSnoc(front, last);
      front + [last]
  }

  /** Python's `sorted(..., key=...)`: a stable sort, by insertion. */
  function Sort(s: seq<Keyed>): (r: seq<Keyed>)
    ensures Sorted(r)
    ensures multiset(r) == multiset(s)
  {
    if |s| == 0 then []
    else
      assert s == s[..|s| - 1] + [s[|s| - 1]];
      Insert(Sort(s[..|s| - 1]), s[|s| - 1])
  }

  /** The entries of `s` whose key is `k`, in their order in `s`. */
  function WithKey(s: seq<Keyed>, k: int): seq<Keyed> {
    if |s| == 0 then []
    else WithKey(s[..|s| - 1], k) + (if s[|s| - 1].key == k then [s[|s| - 1]] else [])
  }

  /** Appending one entry extends the entries of its key only. */
  lemma WithKeySnoc(s: seq<Keyed>, x: Keyed, k: int)
    ensures WithKey(s + [x], k) == WithKey(s, k) + (if x.key == k then [x] else [])
  {
    assert (s + [x])[..|s|] == s;
  }

  /** Inserting `e` leaves the entries of every key in their order, with `e`
      after those sharing its key. */
  lemma {:induction false} InsertIsStable(s: seq<Keyed>, e: Keyed, k: int)
    requires Sorted(s)
    ensures WithKey(Insert(s, e), k) == WithKey(s, k) + (if e.key == k then [e] else [])
  {
    if |s| == 0 || s[|s| - 1].key <= e.key {
      InsertAtEnd(s, e);
      WithKeySnoc(s, e, k);
    } else {
      SortedInit(s);
      InsertIsStable(s[..|s| - 1], e, k);
      InsertIsStableStep(s, e, k);
    }
  }

  /** The inductive step of `InsertIsStable`: `e` goes in front of the last
      entry, whose key differs from `e`'s. */
  lemma InsertIsStableStep(s: seq<Keyed>, e: Keyed, k: int)
    requires Sorted(s) && |s| > 0 && e.key < s[|s| - 1].key
    requires Sorted(s[..|s| - 1])
    requires WithKey(Insert(s[..|s| - 1], e), k) == WithKey(s[..|s| - 1], k) + (if e.key == k then [e] else [])
    ensures WithKey(Insert(s, e), k) == WithKey(s, k) + (if e.key == k then [e] else [])
  {
    var init, last := s[..|s| - 1], s[|s| - 1];
    InsertBeforeLast(s, e);
    assert init + [last] == s;
    AppendLargerKey(Insert(init, e), init, e, last, k);
  }

  /** Appending an entry with a larger key than `e` to both sides keeps `e`
      after the entries of its key. */
  lemma AppendLargerKey(x: seq<Keyed>, y: seq<Keyed>, e: Keyed, last: Keyed, k: int)
    requires e.key < last.key
    requires WithKey(x, k) == WithKey(y, k) + (if e.key == k then [e] else [])
    ensures WithKey(x + [last], k) == WithKey(y + [last], k) + (if e.key == k then [e] else [])
  {
    WithKeySnoc(x, last, k);
    WithKeySnoc(y, last, k);
  }

  lemma SortedInit(s: seq<Keyed>)
    requires Sorted(s) && |s| > 0
    ensures Sorted(s[..|s| - 1])
  {
  }

  /** An entry whose key is below the last key goes in front of the last entry. */
  lemma InsertBeforeLast(s: seq<Keyed>, e: Keyed)
    requires Sorted(s) && |s| > 0 && e.key < s[|s| - 1].key
    ensures Insert(s, e) == Insert(s[..|s| - 1], e) + [s[|s| - 1]]
  {
  }

  /** `sorted` is stable: for every key, the entries with that key keep their
      relative order. */
  lemma {:induction false} SortIsStable(s: seq<Keyed>, k: int)
    ensures WithKey(Sort(s), k) == WithKey(s, k)
  {
    if |s| > 0 {
      SortIsStable(s[..|s| - 1], k);
      SortSnoc(s);
      InsertIsStable(Sort(s[..|s| - 1]), s[|s| - 1], k);
    }
  }

  /** Every entry of `s` carries the sort key `k`. */
  predicate AllKeys(s: seq<Keyed>, k: int) {
    forall i :: 0 <= i < |s| ==> s[i].key == k
  }

  /** Sorting entries that all carry the same key leaves their order alone. */
  lemma {:induction false} SortSameKeys(s: seq<Keyed>, k: int)
    requires AllKeys(s, k)
    ensures Sort(s) == s
  {
    if |s| > 0 {
      var init, last := s[..|s| - 1], s[|s| - 1];
      assert s == init + [last];
      AllKeysInit(s, k);
      SortSameKeys(init, k);
      SortKeepsLargerLast(init, last);
    }
  }

  /** When the front is already in sorted order and the last entry's key is
      not below the front's, sorting changes nothing. */
  lemma SortKeepsLargerLast(init: seq<Keyed>, last: Keyed)
    requires Sort(init) == init && Sorted(init)
    requires |init| == 0 || init[|init| - 1].key <= last.key
    ensures Sort(init + [last]) == init + [last]
  {
    var s := init + [last];
    assert s[..|s| - 1] == init;
    SortSnoc(s);
    InsertAtEnd(init, last);
  }

  /** Dropping the last entry keeps the keys equal, hence sorted. */
  lemma AllKeysInit(s: seq<Keyed>, k: int)
    requires AllKeys(s, k) && |s| > 0
    ensures AllKeys(s[..|s| - 1], k) && Sorted(s[..|s| - 1])
    ensures |s| == 1 || s[|s| - 2].key <= s[|s| - 1].key
  {
  }

  /** One step of the insertion sort: the last entry is inserted into the sorted prefix. */
  lemma SortSnoc(s: seq<Keyed>)
    requires |s| > 0
    ensures Sort(s) == Insert(Sort(s[..|s| - 1]), s[|s| - 1])
  {
  }

  /** An entry whose key is not below the last key of a sorted sequence is appended. */
  lemma InsertAtEnd(s: seq<Keyed>, e: Keyed)
    requires Sorted(s) && (|s| == 0 || s[|s| - 1].key <= e.key)
    ensures Insert(s, e) == s + [e]
  {
  }

  function Reverse<T>(s: seq<T>): (r: seq<T>)
    ensures |r| == |s|
    ensures forall i :: 0 <= i < |s| ==> r[i] == s[|s| - 1 - i]
  {
    if |s| == 0 then [] else Reverse(s[1..]) + [s[0]]
  }

  /** `"{}={}".format(name, count)`. */
  function Format(e: Keyed): string {
    e.name + "=" + Text.NatToString(e.count)
  }

  function Formatted(entries: seq<Keyed>): (r: seq<string>)
    ensures |r| == |entries|
    ensures forall i :: 0 <= i < |r| ==> r[i] == Format(entries[i])
  {
    if |entries| == 0 then [] else [Format(entries[0])] + Formatted(entries[1..])
  }

  /** `", ".join(...)` of the formatted entries. */
  function Summary(entries: seq<Keyed>): string {
    Text.Join(", ", Formatted(entries))
  }

  /** The sort key as written: `get_logging_level_value` receives the whole
      (name, count) pair, `getLevelName` cannot resolve a pair, and the caught
      error makes the key -1 for every entry. */
  function KeyedAsWritten(c: Counters): (r: seq<Keyed>)
    requires Valid(c)
    ensures Pairs(r) == Items(c)
    ensures AllKeys(r, -1)
  {
    seq(|c.names|, i requires 0 <= i < |c.names| => Keyed(-1, c.names[i], GetCount(c, c.names[i])))
  }

  /** The entries of `get_log_level_counts_str` as written. */
  function CountsEntriesAsWritten(c: Counters): seq<Keyed>
    requires Valid(c)
  {
    Reverse(Sort(KeyedAsWritten(c)))
  }

  /** As written, the summary lists names in reverse first-seen order, whatever their levels. */
  lemma CountsAsWrittenIgnoreLevels(c: Counters)
    requires Valid(c)
    ensures CountsEntriesAsWritten(c) == Reverse(KeyedAsWritten(c))
  {
    SortSameKeys(KeyedAsWritten(c), -1);
  }

  /** `get_log_level_counts_str` as written: empty exactly when nothing was
      counted, and otherwise led by the name counted first most recently. */
  function CountsStrAsWritten(c: Counters): (r: string)
    requires Valid(c)
    ensures r == "" <==> |c.names| == 0
    ensures |c.names| > 0 ==> c.names[|c.names| - 1] + "=" <= r
  {
    CountsAsWrittenIgnoreLevels(c);
    SummaryLeadsWithFirst(CountsEntriesAsWritten(c));
    Summary(CountsEntriesAsWritten(c))
  }

  /** The sort key evidently intended: the level number of the entry's name. */
  function KeyedByLevel(c: Counters): (r: seq<Keyed>)
    requires Valid(c)
    ensures Pairs(r) == Items(c)
    ensures forall i :: 0 <= i < |r| ==> r[i].key == LogLevels.LevelValue(r[i].name)
  {
    seq(|c.names|, i requires 0 <= i < |c.names| => Keyed(LogLevels.LevelValue(c.names[i]), c.names[i], GetCount(c, c.names[i])))
  }

  /** The entries of the counts summary: every counted name once with its
      count, highest level first. */
  function CountsEntries(c: Counters): (r: seq<Keyed>)
    requires Valid(c)
    ensures multiset(r) == multiset(KeyedByLevel(c))
    ensures forall i, j :: 0 <= i < j < |r| ==> r[i].key >= r[j].key
    ensures forall i :: 0 <= i < |r| ==> r[i].key == LogLevels.LevelValue(r[i].name)
  {
    var sorted := Sort(KeyedByLevel(c));
    LevelKeysSurviveSort(KeyedByLevel(c));
    ReverseMultiset(sorted);
    Reverse(sorted)
  }

  /** Sorting keeps every entry's key equal to the level of its name. */
  lemma LevelKeysSurviveSort(s: seq<Keyed>)
    requires forall i :: 0 <= i < |s| ==> s[i].key == LogLevels.LevelValue(s[i].name)
    ensures forall i :: 0 <= i < |Sort(s)| ==> Sort(s)[i].key == LogLevels.LevelValue(Sort(s)[i].name)
  {
    var sorted := Sort(s);
    forall i | 0 <= i < |sorted| ensures sorted[i].key == LogLevels.LevelValue(sorted[i].name) {
      assert sorted[i] in multiset(s);
    }
  }

  lemma {:induction false} ReverseMultiset<T>(s: seq<T>)
    ensures multiset(Reverse(s)) == multiset(s)
  {
    if |s| > 0 {
      ReverseMultiset(s[1..]);
      assert s == [s[0]] + s[1..];
    }
  }

  /** Dropping the first entry removes it from the entries of its key only. */
  lemma {:induction false} WithKeyCons(s: seq<Keyed>, k: int)
    requires |s| > 0
    ensures WithKey(s, k) == (if s[0].key == k then [s[0]] else []) + WithKey(s[1..], k)
  {
    if |s| > 1 {
      var init := s[..|s| - 1];
      WithKeyCons(init, k);
      assert init[1..] == s[1..][..|s| - 2];
      assert init[0] == s[0];
    }
  }

  /** Reversing reverses the entries of every key. */
  lemma {:induction false} WithKeyReverse(s: seq<Keyed>, k: int)
    ensures WithKey(Reverse(s), k) == Reverse(WithKey(s, k))
  {
    if |s| > 0 {
      WithKeyReverse(s[1..], k);
      WithKeySnoc(Reverse(s[1..]), s[0], k);
      WithKeyCons(s, k);
      ReverseSnoc(WithKey(s[1..], k), s[0], s[0].key == k);
    }
  }

  /** Reversing an optional first entry followed by `t`. */
  lemma ReverseSnoc(t: seq<Keyed>, x: Keyed, keep: bool)
    ensures Reverse((if keep then [x] else []) + t) == Reverse(t) + (if keep then [x] else [])
  {
    if keep {
      assert ([x] + t)[1..] == t;
    } else {
      assert [] + t == t;
    }
  }

  /** Names that share a level keep their relative order through the sort, so
      the summary lists them in reverse first-seen order. */
  lemma CountsEntriesKeepTies(c: Counters, k: int)
    requires Valid(c)
    ensures WithKey(CountsEntries(c), k) == Reverse(WithKey(KeyedByLevel(c), k))
  {
    SortIsStable(KeyedByLevel(c), k);
    WithKeyReverse(Sort(KeyedByLevel(c)), k);
  }

  /** `get_log_level_counts_str`, with the sort keyed on the level name. */
  function CountsStr(c: Counters): (r: string)
    requires Valid(c)
    ensures r == "" <==> |c.names| == 0
  {
    SummaryLeadsWithFirst(CountsEntries(c));
    Summary(CountsEntries(c))
  }

  /** The summary text begins with the first entry's name and `=`. */
  lemma SummaryLeadsWithFirst(entries: seq<Keyed>)
    ensures Summary(entries) == "" <==> |entries| == 0
    ensures |entries| > 0 ==> entries[0].name + "=" <= Summary(entries)
  {
    if |entries| > 0 {
      var f := Formatted(entries);
      assert f[0] == entries[0].name + "=" + Text.NatToString(entries[0].count);
      assert entries[0].name + "=" <= f[0];
    }
  }

  /** The corrected summary is led by a counted name of the highest counted level. */
  lemma CountsStrLeadsWithHighestLevel(c: Counters)
    requires Valid(c) && |c.names| > 0
    ensures exists i :: 0 <= i < |c.names| && c.names[i] + "=" <= CountsStr(c)
                        && forall j :: 0 <= j < |c.names| ==> LogLevels.LevelValue(c.names[j]) <= LogLevels.LevelValue(c.names[i])
  {
    var entries, keyed := CountsEntries(c), KeyedByLevel(c);
    SummaryLeadsWithFirst(entries);
    var i := TopOfDescending(entries, keyed);
    KeyedByLevelNames(c);
    assert c.names[i] + "=" <= CountsStr(c);
  }

  /** Entry `j` of the intended keying is name `j`, keyed by its level. */
  lemma KeyedByLevelNames(c: Counters)
    requires Valid(c)
    ensures |KeyedByLevel(c)| == |c.names|
    ensures forall j :: 0 <= j < |c.names| ==>
              KeyedByLevel(c)[j].name == c.names[j] && KeyedByLevel(c)[j].key == LogLevels.LevelValue(c.names[j])
  {
  }

  /** The first entry of a descending permutation is one of the largest. */
  lemma TopOfDescending(entries: seq<Keyed>, keyed: seq<Keyed>) returns (i: nat)
    requires |keyed| > 0 && multiset(entries) == multiset(keyed)
    requires forall a, b :: 0 <= a < b < |entries| ==> entries[a].key >= entries[b].key
    ensures i < |keyed| && |entries| > 0 && keyed[i] == entries[0]
    ensures forall j :: 0 <= j < |keyed| ==> keyed[j].key <= entries[0].key
  {
    assert keyed[0] in multiset(entries);
    assert entries[0] in multiset(keyed);
    i :| 0 <= i < |keyed| && keyed[i] == entries[0];
    forall j | 0 <= j < |keyed|
      ensures keyed[j].key <= entries[0].key
    {
      assert keyed[j] in multiset(entries);
      var p :| 0 <= p < |entries| && entries[p] == keyed[j];
    }
  }

  /** The counters after one ERROR message and then one DEBUG message. */
  function ErrorThenDebug(): (c: Counters)
    ensures Valid(c)
    ensures c.names == ["ERROR", "DEBUG"]
    ensures GetCount(c, "ERROR") == 1 && GetCount(c, "DEBUG") == 1
  {
    IncCount(IncCount(Empty, "ERROR"), "DEBUG")
  }

  lemma FormattedOfOne(a: Keyed)
    requires a.count == 1
    ensures Formatted([a]) == [a.name + "=1"]
  {
    assert Text.NatToString(1) == "1";
    assert Format(a) == a.name + "=1";
    assert [a][1..] == [];
  }

  lemma SummaryOfTwo(a: Keyed, b: Keyed)
    requires a.count == 1 && b.count == 1
    ensures Summary([a, b]) == a.name + "=1, " + b.name + "=1"
  {
    FormattedOfOne(a);
    FormattedOfOne(b);
    assert [a, b][1..] == [b];
    assert Formatted([a, b]) == [Format(a)] + Formatted([b]);
    var parts := Formatted([a, b]);
    assert parts == [a.name + "=1", b.name + "=1"];
    assert parts[1..] == [b.name + "=1"];
  }

  /** An error logged before a debug message: as written the summary puts
      DEBUG first. */
  lemma CountsOrderAsWrittenCounterexample()
    ensures CountsStrAsWritten(ErrorThenDebug()) == "DEBUG=1, ERROR=1"
  {
    EntriesAsWrittenErrorThenDebug();
    SummaryOfTwo(Keyed(-1, "DEBUG", 1), Keyed(-1, "ERROR", 1));
  }

  lemma EntriesAsWrittenErrorThenDebug()
    ensures CountsEntriesAsWritten(ErrorThenDebug()) == [Keyed(-1, "DEBUG", 1), Keyed(-1, "ERROR", 1)]
  {
    CountsAsWrittenIgnoreLevels(ErrorThenDebug());
    KeyedAsWrittenErrorThenDebug();
    ReverseTwo(Keyed(-1, "ERROR", 1), Keyed(-1, "DEBUG", 1));
  }

  lemma KeyedAsWrittenErrorThenDebug()
    ensures KeyedAsWritten(ErrorThenDebug()) == [Keyed(-1, "ERROR", 1), Keyed(-1, "DEBUG", 1)]
  {
  }

  lemma SortOne(e: Keyed)
    ensures Sort([e]) == [e]
  {
    assert [e][..0] == [];
    assert Sort([]) == [];
  }

  lemma InsertBelow(e: Keyed, d: Keyed)
    requires d.key < e.key
    ensures Insert([e], d) == [d, e]
  {
    assert [e][..0] == [];
    assert Insert([], d) == [d];
  }

  lemma SortErrorDebug(e: Keyed, d: Keyed)
    requires e == Keyed(40, "ERROR", 1) && d == Keyed(10, "DEBUG", 1)
    ensures Sort([e, d]) == [d, e]
  {
    assert [e, d][..1] == [e];
    SortOne(e);
    InsertBelow(e, d);
  }

  lemma KeyedErrorThenDebug()
    ensures KeyedByLevel(ErrorThenDebug()) == [Keyed(40, "ERROR", 1), Keyed(10, "DEBUG", 1)]
  {
    assert LogLevels.LevelValue("ERROR") == 40;
    assert LogLevels.LevelValue("DEBUG") == 10;
  }

  lemma EntriesErrorThenDebug(c: Counters)
    requires Valid(c) && KeyedByLevel(c) == [Keyed(40, "ERROR", 1), Keyed(10, "DEBUG", 1)]
    ensures CountsEntries(c) == [Keyed(40, "ERROR", 1), Keyed(10, "DEBUG", 1)]
  {
    SortErrorDebug(Keyed(40, "ERROR", 1), Keyed(10, "DEBUG", 1));
    ReverseTwo(Keyed(10, "DEBUG", 1), Keyed(40, "ERROR", 1));
  }

  lemma ReverseTwo(a: Keyed, b: Keyed)
    ensures Reverse([a, b]) == [b, a]
  {
  }

  lemma SummaryErrorDebug()
    ensures Summary([Keyed(40, "ERROR", 1), Keyed(10, "DEBUG", 1)]) == "ERROR=1, DEBUG=1"
  {
    SummaryOfTwo(Keyed(40, "ERROR", 1), Keyed(10, "DEBUG", 1));
  }

  /** Keyed on the level, the same counters are summarised ERROR first. */
  lemma CountsOrderByLevel()
    ensures CountsStr(ErrorThenDebug()) == "ERROR=1, DEBUG=1"
  {
    KeyedErrorThenDebug();
    EntriesErrorThenDebug(ErrorThenDebug());
    SummaryErrorDebug();
  }
}
