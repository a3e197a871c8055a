/**
 * The Stack Overflow dashboard's tag counting: every tag of every question
 * row is counted, and each distinct tag becomes one timestamped row
 * (count_unique_tags in the three posts_stats.py scripts). The current
 * date the rows are stamped with is taken as a parameter.
 */
module TagCounting {

  /** `[tag for tag_list in data for tag in tag_list]`: the rows laid end to end, in order. */
  function Flatten<T>(data: seq<seq<T>>): seq<T> {
    if |data| == 0 then [] else Flatten(data[..|data| - 1]) + data[|data| - 1]
  }

  lemma {:induction false} FlattenAppend<T>(a: seq<seq<T>>, b: seq<seq<T>>)
    ensures Flatten(a + b) == Flatten(a) + Flatten(b)
  {
    if |b| == 0 {
      assert a + b == a;
    } else {
      assert (a + b)[..|a + b| - 1] == a + b[..|b| - 1];
      FlattenAppend(a, b[..|b| - 1]);
    }
  }

  /** A tag is in the flattened list exactly when some row holds it. */
  lemma {:induction false} FlattenMembers<T>(data: seq<seq<T>>, x: T)
    ensures x in Flatten(data) <==> exists i :: 0 <= i < |data| && x in data[i]
  {
    if |data| > 0 {
      var init := data[..|data| - 1];
      FlattenMembers(init, x);
      assert forall i :: 0 <= i < |init| ==> init[i] == data[i];
    }
  }

  /** The number of occurrences of `x` in `s`, as `Counter` counts them. */
  function Occurrences<T(==)>(s: seq<T>, x: T): nat {
    multiset(s)[x]
  }

  predicate NoDuplicates<T(==)>(s: seq<T>) {
    forall i, j :: 0 <= i < j < |s| ==> s[i] != s[j]
  }

  /** The distinct elements of `s` in the order of their first occurrence: the order of a dict's keys. */
  function Distinct<T(==,!new)>(s: seq<T>): (d: seq<T>)
    ensures NoDuplicates(d)
    ensures forall x :: x in d <==> x in s
  {
    if |s| == 0 then []
    else
      var init := s[..|s| - 1];
      var d := Distinct(init);
      assert forall x :: x in s <==> x in init || x == s[|s| - 1];
      if s[|s| - 1] in d then d else d + [s[|s| - 1]]
  }

  /** One output row: `(date_time,) + (tag, count)`. */
  datatype TagRow<Tag, Time> = TagRow(timestamp: Time, tag: Tag, count: nat)

  /** `count_unique_tags` of the `Counter` scripts. */
  function CountUniqueTags<Tag(==,!new), Time>(data: seq<seq<Tag>>, date: Time): seq<TagRow<Tag, Time>> {
    var flat := Flatten(data);
    var tags := Distinct(flat);
    seq(|tags|, k requires 0 <= k < |tags| => TagRow(date, tags[k], Occurrences(flat, tags[k])))
  }

  /** Every tag of the input is in exactly one row, and every row's tag is from the input. */
  lemma OneRowPerTag<Tag(!new), Time>(data: seq<seq<Tag>>, date: Time)
    ensures var rows := CountUniqueTags(data, date);
      && (forall i, j :: 0 <= i < j < |rows| ==> rows[i].tag != rows[j].tag)
      && (forall x :: (exists i :: 0 <= i < |rows| && rows[i].tag == x) <==> x in Flatten(data))
  {
    var rows := CountUniqueTags(data, date);
    var tags := Distinct(Flatten(data));
    forall x
      ensures (exists i :: 0 <= i < |rows| && rows[i].tag == x) <==> x in Flatten(data)
    {
      if x in tags {
        var i :| 0 <= i < |tags| && tags[i] == x;
        assert rows[i].tag == x;
      }
    }
  }

  /** A row's count is how often its tag occurs, repeats within a question included; so at least 1. */
  lemma CountsAreOccurrences<Tag(!new), Time>(data: seq<seq<Tag>>, date: Time)
    ensures var rows := CountUniqueTags(data, date);
      forall i :: 0 <= i < |rows| ==>
        rows[i].count == Occurrences(Flatten(data), rows[i].tag) && rows[i].count >= 1
  {
    var rows := CountUniqueTags(data, date);
    var tags := Distinct(Flatten(data));
    forall i | 0 <= i < |rows|
      ensures rows[i].count >= 1
    {
      assert tags[i] in Flatten(data);
    }
  }

  /** Every row is stamped with the one date. */
  lemma SameTimestamp<Tag(!new), Time>(data: seq<seq<Tag>>, date: Time)
    ensures forall row :: row in CountUniqueTags(data, date) ==> row.timestamp == date
  {
  }

  /** No tags, or only empty rows, give no output. */
  lemma NoTagsNoRows<Tag(!new), Time>(data: seq<seq<Tag>>, date: Time)
    requires forall i :: 0 <= i < |data| ==> data[i] == []
    ensures CountUniqueTags(data, date) == []
  {
    var flat := Flatten(data);
    if flat != [] {
      FlattenMembers(data, flat[0]);
    }
  }

  /** The counts of the rows `keys` stands for. */
  function SumCounts<T(==)>(keys: seq<T>, s: seq<T>): nat {
    if |keys| == 0 then 0 else SumCounts(keys[..|keys| - 1], s) + Occurrences(s, keys[|keys| - 1])
  }

  function RowsTotal<Tag, Time>(rows: seq<TagRow<Tag, Time>>): nat {
    if |rows| == 0 then 0 else RowsTotal(rows[..|rows| - 1]) + rows[|rows| - 1].count
  }

  lemma {:induction false} SumCountsSnoc<T>(keys: seq<T>, s: seq<T>, x: T)
    ensures SumCounts(keys, s + [x]) == SumCounts(keys, s) + multiset(keys)[x]
  {
    if |keys| > 0 {
      var init := keys[..|keys| - 1];
      SumCountsSnoc(init, s, x);
      assert keys == init + [keys[|keys| - 1]];
      assert multiset(keys) == multiset(init) + multiset{keys[|keys| - 1]};
    }
  }

  lemma {:induction false} DistinctOnce<T>(keys: seq<T>, x: T)
    requires NoDuplicates(keys) && x in keys
    ensures multiset(keys)[x] == 1
  {
    var init := keys[..|keys| - 1];
    var last := keys[|keys| - 1];
    assert keys == init + [last];
    assert multiset(keys) == multiset(init) + multiset{last};
    if x == last {
      assert x !in init;
    } else {
      DistinctOnce(init, x);
    }
  }

  /** Counting every element of `s` once per distinct key adds up to the length of `s`. */
  lemma {:induction false} SumCountsOfCovering<T>(keys: seq<T>, s: seq<T>)
    requires NoDuplicates(keys)
    requires forall x :: x in s ==> x in keys
    ensures SumCounts(keys, s) == |s|
  {
    if |s| == 0 {
      SumCountsOfEmpty(keys, s);
    } else {
      var init := s[..|s| - 1];
      var last := s[|s| - 1];
      assert s == init + [last];
      SumCountsOfCovering(keys, init);
      SumCountsSnoc(keys, init, last);
      DistinctOnce(keys, last);
    }
  }

  lemma {:induction false} SumCountsOfEmpty<T>(keys: seq<T>, s: seq<T>)
    requires |s| == 0
    ensures SumCounts(keys, s) == 0
  {
    if |keys| > 0 {
      SumCountsOfEmpty(keys[..|keys| - 1], s);
    }
  }

  lemma {:induction false} RowsTotalIsSumCounts<Tag(!new), Time>(rows: seq<TagRow<Tag, Time>>, tags: seq<Tag>, flat: seq<Tag>)
    requires |rows| == |tags|
    requires forall k :: 0 <= k < |rows| ==> rows[k].tag == tags[k] && rows[k].count == Occurrences(flat, tags[k])
    ensures RowsTotal(rows) == SumCounts(tags, flat)
  {
    if |rows| > 0 {
      RowsTotalIsSumCounts(rows[..|rows| - 1], tags[..|tags| - 1], flat);
    }
  }

  /** The counts add up to the number of tags in the input. */
  lemma CountsSumToTotal<Tag(!new), Time>(data: seq<seq<Tag>>, date: Time)
    ensures RowsTotal(CountUniqueTags(data, date)) == |Flatten(data)|
  {
    var flat := Flatten(data);
    var tags := Distinct(flat);
    RowsTotalIsSumCounts(CountUniqueTags(data, date), tags, flat);
    SumCountsOfCovering(tags, flat);
  }

  /**
   * The `defaultdict(int)` of the older script after it has seen the tags
   * `seen`: its keys in insertion order, each mapped to how often it occurred.
   */
  ghost predicate Tally<Tag(!new)>(keys: seq<Tag>, tagCount: map<Tag, nat>, seen: seq<Tag>) {
    && keys == Distinct(seen)
    && (forall t :: t in tagCount <==> t in keys)
    && (forall t :: t in tagCount ==> tagCount[t] == Occurrences(seen, t))
  }

  lemma DistinctSnoc<T(!new)>(seen: seq<T>, tag: T)
    ensures Distinct(seen + [tag]) == if tag in Distinct(seen) then Distinct(seen) else Distinct(seen) + [tag]
  {
    var s := seen + [tag];
    assert s[..|s| - 1] == seen && s[|s| - 1] == tag;
  }

  lemma OccurrencesSnoc<T>(seen: seq<T>, tag: T, t: T)
    ensures Occurrences(seen + [tag], t) == Occurrences(seen, t) + if t == tag then 1 else 0
  {
    assert multiset(seen + [tag]) == multiset(seen) + multiset{tag};
  }

  /** `tag_count[tag] += 1` on a key already present adds one to its count only. */
  lemma TallyAddPresent<Tag(!new)>(keys: seq<Tag>, tagCount: map<Tag, nat>, seen: seq<Tag>, tag: Tag)
    requires Tally(keys, tagCount, seen) && tag in tagCount
    ensures Tally(keys, tagCount[tag := tagCount[tag] + 1], seen + [tag])
  {
    DistinctSnoc(seen, tag);
    forall t | t in tagCount
      ensures tagCount[tag := tagCount[tag] + 1][t] == Occurrences(seen + [tag], t)
    {
      OccurrencesSnoc(seen, tag, t);
    }
  }

  /** `tag_count[tag] += 1` on a new key puts it last, counted from the default 0. */
  lemma TallyAddNew<Tag(!new)>(keys: seq<Tag>, tagCount: map<Tag, nat>, seen: seq<Tag>, tag: Tag)
    requires Tally(keys, tagCount, seen) && tag !in tagCount
    ensures Tally(keys + [tag], tagCount[tag := 0 + 1], seen + [tag])
  {
    DistinctSnoc(seen, tag);
    forall t | t in tagCount[tag := 0 + 1]
      ensures tagCount[tag := 0 + 1][t] == Occurrences(seen + [tag], t)
    {
      OccurrencesSnoc(seen, tag, t);
    }
  }

  /** A tally depends on the tags counted, not on how the list of them was built. */
  lemma TallySame<Tag(!new)>(keys: seq<Tag>, tagCount: map<Tag, nat>, seen: seq<Tag>, seen': seq<Tag>)
    requires Tally(keys, tagCount, seen) && seen == seen'
    ensures Tally(keys, tagCount, seen')
  {
  }

  /**
   * `tag_count[tag] += 1` on the `defaultdict(int)` for the `j`-th tag of a
   * row: a missing key starts from 0 and is put last.
   */
  method AddTag<Tag(==,!new)>(keys: seq<Tag>, tagCount: map<Tag, nat>, row: seq<Tag>, j: nat, ghost seen: seq<Tag>)
    returns (keys': seq<Tag>, tagCount': map<Tag, nat>)
    requires j < |row| && Tally(keys, tagCount, seen + row[..j])
    ensures Tally(keys', tagCount', seen + row[..j + 1])
  {
    var tag := row[j];
    ghost var counted := seen + row[..j];
    if tag in tagCount {
      TallyAddPresent(keys, tagCount, counted, tag);
      keys', tagCount' := keys, tagCount[tag := tagCount[tag] + 1];
    } else {
      TallyAddNew(keys, tagCount, counted, tag);
      keys', tagCount' := keys + [tag], tagCount[tag := 0 + 1];
    }
    assert counted + [tag] == seen + row[..j + 1];
    TallySame(keys', tagCount', counted + [tag], seen + row[..j + 1]);
  }

  /** The inner loop of the older script: every tag of one question row is added. */
  method CountRow<Tag(==,!new)>(keys: seq<Tag>, tagCount: map<Tag, nat>, row: seq<Tag>, ghost seen: seq<Tag>)
    returns (keys': seq<Tag>, tagCount': map<Tag, nat>)
    requires Tally(keys, tagCount, seen)
    ensures Tally(keys', tagCount', seen + row)
  {
    keys', tagCount' := keys, tagCount;
    var j := 0;
    assert seen + row[..j] == seen;
    while j < |row|
      invariant 0 <= j <= |row|
      invariant Tally(keys', tagCount', seen + row[..j])
    {
      keys', tagCount' := AddTag(keys', tagCount', row, j, seen);
      j := j + 1;
    }
    assert seen + row[..j] == seen + row;
  }

  /**
   * `count_unique_tags` of the older script: nested loops that add one to a
   * `defaultdict(int)` per tag, then one row per item of the dict. It gives
   * the same rows as the `Counter` scripts.
   */
  method CountUniqueTagsByLoop<Tag(==,!new), Time>(data: seq<seq<Tag>>, date: Time) returns (rows: seq<TagRow<Tag, Time>>)
    ensures rows == CountUniqueTags(data, date)
  {
    var keys: seq<Tag> := [];
    var tagCount: map<Tag, nat> := map[];
    var i := 0;
    while i < |data|
      invariant 0 <= i <= |data|
      invariant Tally(keys, tagCount, Flatten(data[..i]))
    {
      keys, tagCount := CountRow(keys, tagCount, data[i], Flatten(data[..i]));
      assert data[..i + 1][..i] == data[..i];
      i := i + 1;
    }
    assert data[..i] == data;
    rows := seq(|keys|, k requires 0 <= k < |keys| => TagRow(date, keys[k], tagCount[keys[k]]));
  }

  /** A row of a query's result with the time it was read: `(date_time,) + row`. */
  datatype Stamped<Time, Row> = Stamped(timestamp: Time, row: Row)

  /** The row stamping of `get_posts_list_unanswered`. */
  function StampRows<Time, Row>(date: Time, results: seq<Row>): (rows: seq<Stamped<Time, Row>>)
    ensures |rows| == |results|
  {
    seq(|results|, k requires 0 <= k < |results| => Stamped(date, results[k]))
  }

  function Unstamp<Time, Row>(rows: seq<Stamped<Time, Row>>): seq<Row> {
    seq(|rows|, k requires 0 <= k < |rows| => rows[k].row)
  }

  /** Stamping keeps every row and their order, and puts the one date on all of them. */
  lemma StampRowsInverse<Time, Row>(date: Time, results: seq<Row>)
    ensures Unstamp(StampRows(date, results)) == results
    ensures forall row :: row in StampRows(date, results) ==> row.timestamp == date
  {
  }
}
