/** Aggregating shard reports, and running suggested shards until the benchmark is covered. */
module Aggregation {
  import opened Wrappers
  import opened Shards

  // ---------- Which reports cover which index ----------

  // Insertion-ordered: the reports that list each index, once per listing.
  datatype Table = Table(keys: seq<int>, owners: map<int, seq<nat>>)

  function Listed(t: Table, i: int): nat {
    if i in t.owners then |t.owners[i]| else 0
  }

  ghost predicate Counted(t: Table, all: seq<int>) {
    && (forall i :: Listed(t, i) == multiset(all)[i])
    && (forall i :: multiset(t.keys)[i] == if i in t.owners then 1 else 0)
    && (forall i :: i in t.owners ==> t.owners[i] != [])
  }

  function Recorded(t: Table, i: int, path: nat): Table {
    if i in t.owners then t.(owners := t.owners[i := t.owners[i] + [path]])
    else Table(t.keys + [i], t.owners[i := [path]])
  }

  lemma RecordedCounted(t: Table, all: seq<int>, i: int, path: nat)
    requires Counted(t, all)
    ensures Counted(Recorded(t, i, path), all + [i])
  {
    assert multiset(all + [i]) == multiset(all) + multiset{i};
    assert multiset(t.keys + [i]) == multiset(t.keys) + multiset{i};
  }

  lemma OneFurther(all: seq<int>, indices: seq<int>, k: nat)
    requires k < |indices|
    ensures all + indices[..k] + [indices[k]] == all + indices[..k + 1]
  {
  }

  // The table after one more included report.
  method AddReport(t: Table, indices: seq<int>, path: nat, ghost all: seq<int>) returns (r: Table)
    requires Counted(t, all)
    ensures Counted(r, all + indices)
  {
    r := t;
    assert all + indices[..0] == all;
    for k := 0 to |indices|
      invariant Counted(r, all + indices[..k])
    {
      RecordedCounted(r, all + indices[..k], indices[k], path);
      OneFurther(all, indices, k);
      r := Recorded(r, indices[k], path);
    }
    assert all + indices[..|indices|] == all + indices;
  }

  // ---------- Completeness ----------

  predicate ExactCover(all: seq<int>, size: nat) {
    multiset(all) == multiset(Range(0, size))
  }

  predicate Once(size: nat, i: int, n: nat) {
    n == if 0 <= i < size then 1 else 0
  }

  lemma {:induction false} RangeCount(size: nat, i: int)
    ensures Once(size, i, multiset(Range(0, size))[i])
  {
    if size > 0 {
      RangeCount(size - 1, i);
      assert Range(0, size) == Range(0, size - 1) + [size - 1];
    }
  }

  lemma CoverCounts(all: seq<int>, size: nat)
    ensures ExactCover(all, size) <==> forall i :: Once(size, i, multiset(all)[i])
  {
    forall i ensures Once(size, i, multiset(Range(0, size))[i]) { RangeCount(size, i); }
    if forall i :: Once(size, i, multiset(all)[i]) {
      assert forall i :: Once(size, i, multiset(all)[i]) && Once(size, i, multiset(Range(0, size))[i]);
      assert forall i :: multiset(all)[i] == multiset(Range(0, size))[i];
    } else {
      var i :| !Once(size, i, multiset(all)[i]);
      assert multiset(all)[i] != multiset(Range(0, size))[i];
    }
  }

  lemma CoverLength(all: seq<int>, size: nat)
    requires ExactCover(all, size)
    ensures |all| == size
  {
    RangeAt(0, size);
    assert |multiset(all)| == |all| && |multiset(Range(0, size))| == |Range(0, size)|;
  }

  datatype Summary = Summary(
    complete: bool, covered: seq<int>, duplicates: seq<int>, missing: seq<int>, outOfRange: seq<int>,
    sampleSize: int, suggested: Option<Shard>)

  // The lists the aggregate derives from its table.
  ghost predicate Derived(r: Summary, all: seq<int>, size: nat) {
    && (forall i :: i in r.duplicates <==> multiset(all)[i] > 1)
    && (forall i :: i in r.outOfRange <==> i in all && !(0 <= i < size))
    && (forall i :: multiset(r.covered)[i] == if i in all then 1 else 0)
    && r.missing == Missing(all, size)
    && r.sampleSize == |all|
  }

  predicate NothingWrong(r: Summary, size: nat) {
    |r.covered| == size && r.missing == [] && r.duplicates == [] && r.outOfRange == [] && r.sampleSize == size
  }

  lemma NothingWrongCovers(r: Summary, all: seq<int>, size: nat)
    requires Derived(r, all, size) && NothingWrong(r, size)
    ensures ExactCover(all, size)
  {
    MissingExact(all, size);
    forall i ensures Once(size, i, multiset(all)[i]) {
      assert i !in r.duplicates && i !in r.outOfRange && i !in r.missing;
      assert i in all <==> i in multiset(all);
    }
    CoverCounts(all, size);
  }

  lemma SomeMember(xs: seq<int>)
    ensures xs != [] ==> exists i :: i in xs
  {
    if xs != [] {
      var x := xs[0];
      assert x in xs;
    }
  }

  lemma NoMembers(xs: seq<int>)
    requires forall i :: i !in xs
    ensures xs == []
  {
    SomeMember(xs);
  }

  lemma CoverNothingWrong(r: Summary, all: seq<int>, size: nat)
    requires Derived(r, all, size) && ExactCover(all, size)
    ensures NothingWrong(r, size)
  {
    CoverCounts(all, size);
    MissingExact(all, size);
    forall i ensures i !in r.duplicates && i !in r.outOfRange && i !in r.missing && (i in all <==> 0 <= i < size) {
      assert Once(size, i, multiset(all)[i]);
      assert i in all <==> i in multiset(all);
    }
    NoMembers(r.duplicates);
    NoMembers(r.outOfRange);
    NoMembers(r.missing);
    forall i ensures Once(size, i, multiset(r.covered)[i]) { }
    CoverCounts(r.covered, size);
    CoverLength(r.covered, size);
    CoverLength(all, size);
  }

  // ---------- The aggregate ----------

  lemma IncludedSnoc(reports: seq<Report>, k: nat)
    requires k < |reports|
    ensures Included(reports[..k + 1]) == Included(reports[..k]) + if Matches(reports[k]) then reports[k].indices
      else []
  {
    assert reports[..k + 1][..k] == reports[..k];
  }

  // A finished, scored run of the expected agent on this benchmark, with evidence and one outcome per index.
  predicate Finished(r: Report) {
    && r.Report? && r.benchmark == "swe-bench-pro" && r.status == "completed" && r.evidence && r.scored
    && r.agentConfig == "external multiagent-native" && r.score.Some?
    && r.indices != [] && r.sampleSize == Some(|r.indices|) && r.outcomes == Some(|r.indices|)
  }

  /** An index counts exactly when a finished report lists it. */
  lemma {:induction false} IncludedOrigin(reports: seq<Report>, i: int)
    ensures i in Included(reports) <==>
      exists k :: 0 <= k < |reports| && Finished(reports[k]) && i in reports[k].indices
  {
    if reports != [] {
      var n := |reports| - 1;
      IncludedOrigin(reports[..n], i);
      if i in Included(reports[..n]) {
        var k :| 0 <= k < n && Finished(reports[..n][k]) && i in reports[..n][k].indices;
        assert Finished(reports[k]) && i in reports[k].indices;
      }
      if k :| 0 <= k < |reports| && Finished(reports[k]) && i in reports[k].indices {
        if k < n { assert reports[..n][k] == reports[k]; }
      }
    }
  }

  method Tabulate(reports: seq<Report>) returns (t: Table, sampleSize: int)
    ensures Counted(t, Included(reports)) && sampleSize == |Included(reports)|
  {
    t, sampleSize := Table([], map[]), 0;
    for k := 0 to |reports|
      invariant Counted(t, Included(reports[..k])) && sampleSize == |Included(reports[..k])|
    {
      IncludedSnoc(reports, k);
      if Matches(reports[k]) {
        t := AddReport(t, reports[k].indices, k, Included(reports[..k]));
        sampleSize := sampleSize + reports[k].sampleSize.value;
      } else {
        assert Included(reports[..k]) + [] == Included(reports[..k]);
      }
    }
    assert reports[..|reports|] == reports;
  }

  lemma SortedMembers(xs: seq<int>)
    ensures multiset(Sorted(xs)) == multiset(xs) && forall i :: i in Sorted(xs) <==> i in xs
  {
    SortedAscending(xs);
    assert forall i :: i in Sorted(xs) <==> i in multiset(Sorted(xs));
    assert forall i :: i in xs <==> i in multiset(xs);
  }

  lemma {:induction false} MissingSame(all: seq<int>, covered: seq<int>, size: nat)
    requires forall i :: i in all <==> i in covered
    ensures Missing(all, size) == Missing(covered, size)
  {
    if size > 0 { MissingSame(all, covered, size - 1); }
  }

  lemma KeysCover(t: Table, all: seq<int>)
    requires Counted(t, all)
    ensures forall i :: i in t.keys <==> i in all
    ensures forall i :: multiset(t.keys)[i] == if i in all then 1 else 0
  {
    forall i ensures (i in t.keys <==> i in all) && multiset(t.keys)[i] == if i in all then 1 else 0 {
      assert Listed(t, i) == multiset(all)[i];
      assert i in all <==> i in multiset(all);
      assert i in t.keys <==> i in multiset(t.keys);
    }
  }

  lemma Lists(t: Table, all: seq<int>, size: nat)
    requires Counted(t, all)
    ensures var covered := Sorted(t.keys);
      var duplicates := Sorted(Where(t.keys, i => Listed(t, i) > 1));
      var outOfRange := Sorted(Where(covered, i => i < 0 || i >= size));
      && Ascending(covered) && Ascending(duplicates) && Ascending(outOfRange)
      && Derived(Summary(false, covered, duplicates, Missing(covered, size), outOfRange, |all|, None), all, size)
  {
    KeysCover(t, all);
    SortedAscending(t.keys);
    SortedMembers(t.keys);
    var many, far := (i: int) => Listed(t, i) > 1, (i: int) => i < 0 || i >= size;
    WhereMembers(t.keys, many);
    SortedAscending(Where(t.keys, many));
    SortedMembers(Where(t.keys, many));
    WhereMembers(Sorted(t.keys), far);
    SortedAscending(Where(Sorted(t.keys), far));
    SortedMembers(Where(Sorted(t.keys), far));
    MissingSame(all, Sorted(t.keys), size);
    forall i ensures i in Sorted(Where(t.keys, many)) <==> multiset(all)[i] > 1 {
      assert i in all <==> i in multiset(all);
    }
  }

  /** When the dataset has the expected size the result is called complete exactly when the included reports
      list every index of the dataset once and nothing else; what is missing is always reported exactly. */
  method Aggregate(reports: seq<Report>, size: nat, fullSize: int, maxSize: int) returns (r: Summary)
    ensures r.complete <==> size == fullSize && ExactCover(Included(reports), size)
    ensures Derived(r, Included(reports), size)
    ensures Ascending(r.covered) && Ascending(r.duplicates) && Ascending(r.outOfRange)
    ensures r.suggested.None? <==> r.missing == []
    ensures r.suggested.Some? ==> Suggests(r.missing, maxSize, r.suggested.value)
  {
    ghost var all := Included(reports);
    var t, sampleSize := Tabulate(reports);
    var covered := Sorted(t.keys);
    var duplicates := Sorted(Where(t.keys, i => Listed(t, i) > 1));
    var outOfRange := Sorted(Where(covered, i => i < 0 || i >= size));
    var missing := Missing(covered, size);
    Lists(t, all, size);
    var suggested := SuggestedMissingShard(missing, maxSize);
    r := Summary(false, covered, duplicates, missing, outOfRange, sampleSize, suggested);
    r := r.(complete := size == fullSize && NothingWrong(r, size));
    if NothingWrong(r, size) { NothingWrongCovers(r, all, size); }
    if ExactCover(all, size) { CoverNothingWrong(r, all, size); }
  }

  // ---------- Running the suggested shards ----------

  // The report of a shard that ran to completion.
  function ShardReport(s: Shard, size: nat, score: real): Report {
    var indices := Selected(s.offset, Some(s.count), size);
    Report("swe-bench-pro", "completed", true, indices, Some(|indices|), Some(score), true, Some(|indices|),
      "external multiagent-native")
  }

  lemma SuggestionExists(missing: seq<int>, maxSize: int)
    requires missing != []
    ensures exists s :: Suggests(missing, maxSize, s)
  {
    var count := 1;
    while count < |missing| && missing[count] == missing[0] + count && count < maxSize
      invariant 1 <= count <= |missing| && (count == 1 || count <= maxSize)
      invariant forall i :: 0 <= i < count ==> missing[i] == missing[0] + i
    {
      count := count + 1;
    }
    assert Suggests(missing, maxSize, Shard(missing[0], count));
  }

  // Aggregate, run the suggested shard, add its report; once per score.
  ghost function Rounds(reports: seq<Report>, size: nat, maxSize: int, scores: seq<real>): seq<Report>
    decreases scores
  {
    if scores == [] || Missing(Included(reports), size) == [] then reports
    else
      SuggestionExists(Missing(Included(reports), size), maxSize);
      var s :| Suggests(Missing(Included(reports), size), maxSize, s);
      Rounds(reports + [ShardReport(s, size, scores[0])], size, maxSize, scores[1..])
  }

  /** The shard that the aggregate suggests is the one the next round runs. */
  lemma SuggestedRuns(reports: seq<Report>, size: nat, maxSize: int, scores: seq<real>, r: Summary)
    requires Derived(r, Included(reports), size) && scores != []
    requires r.suggested.Some? && Suggests(r.missing, maxSize, r.suggested.value)
    ensures Rounds(reports, size, maxSize, scores) ==
      Rounds(reports + [ShardReport(r.suggested.value, size, scores[0])], size, maxSize, scores[1..])
  {
    var missing := Missing(Included(reports), size);
    SuggestionExists(missing, maxSize);
    var s :| Suggests(missing, maxSize, s)
      && Rounds(reports, size, maxSize, scores) ==
        Rounds(reports + [ShardReport(s, size, scores[0])], size, maxSize, scores[1..]);
    SuggestsOne(missing, maxSize, s, r.suggested.value);
  }

  lemma MissingBounds(all: seq<int>, size: nat)
    ensures forall k :: 0 <= k < |Missing(all, size)| ==> 0 <= Missing(all, size)[k] < size
  {
    MissingExact(all, size);
    forall k | 0 <= k < |Missing(all, size)| ensures 0 <= Missing(all, size)[k] < size {
      assert Missing(all, size)[k] in Missing(all, size);
    }
  }

  /** A suggested shard is accepted, and selects exactly a prefix of what is missing. */
  lemma SuggestedAccepted(all: seq<int>, size: nat, maxSize: int, s: Shard)
    requires Suggests(Missing(all, size), maxSize, s)
    ensures AcceptsShard(s.offset, Some(s.count), size)
    ensures Selected(s.offset, Some(s.count), size) == Missing(all, size)[..s.count]
  {
    var missing := Missing(all, size);
    MissingBounds(all, size);
    assert missing[s.count - 1] == s.offset + s.count - 1;
    ShardAccepted(s.offset, Some(s.count), size);
    RangeAt(s.offset, s.count);
    assert Range(s.offset, s.count) == missing[..s.count];
  }

  lemma AfterPrefix(xs: seq<int>, k: nat, i: int)
    requires StrictlyAscending(xs) && k <= |xs|
    ensures i in xs[k..] <==> i in xs && i !in xs[..k]
  {
    assert xs == xs[..k] + xs[k..];
    if i in xs[k..] {
      var j :| 0 <= j < |xs[k..]| && xs[k..][j] == i;
      assert xs[k + j] == i;
      assert forall m :: 0 <= m < k ==> xs[..k][m] < xs[k + j];
    }
  }

  lemma SameHead(xs: seq<int>, ys: seq<int>)
    requires StrictlyAscending(xs) && StrictlyAscending(ys) && xs != [] && ys != []
    requires xs[0] in ys && ys[0] in xs
    ensures xs[0] == ys[0]
  {
  }

  lemma {:induction false} SameAscending(xs: seq<int>, ys: seq<int>)
    requires StrictlyAscending(xs) && StrictlyAscending(ys) && forall i :: i in xs <==> i in ys
    ensures xs == ys
  {
    if xs == [] {
      SomeMember(ys);
    } else if ys == [] {
      SomeMember(xs);
    } else {
      assert xs[0] in xs && ys[0] in ys;
      SameHead(xs, ys);
      forall i ensures i in xs[1..] <==> i in ys[1..] { AfterPrefix(xs, 1, i); AfterPrefix(ys, 1, i); }
      SameAscending(xs[1..], ys[1..]);
      assert xs == [xs[0]] + xs[1..] && ys == [ys[0]] + ys[1..];
    }
  }

  // What is missing after a prefix of it has been supplied.
  lemma {:induction false} MissingAfter(all: seq<int>, size: nat, k: nat)
    requires k <= |Missing(all, size)|
    ensures Missing(all + Missing(all, size)[..k], size) == Missing(all, size)[k..]
  {
    var missing := Missing(all, size);
    MissingExact(all, size);
    MissingExact(all + missing[..k], size);
    var rest := Missing(all + missing[..k], size);
    forall i ensures i in rest <==> i in missing[k..] { AfterPrefix(missing, k, i); }
    SameAscending(rest, missing[k..]);
  }

  // Indices are only ever added where they were missing, and then once.
  ghost predicate GrownAt(before: nat, after: nat, inRange: bool) {
    after == before || (before == 0 && after == 1 && inRange)
  }

  ghost predicate Grown(all: seq<int>, next: seq<int>, size: nat) {
    forall i :: GrownAt(multiset(all)[i], multiset(next)[i], 0 <= i < size)
  }

  lemma {:induction false} AtMostOnce(xs: seq<int>, i: int)
    requires StrictlyAscending(xs)
    ensures multiset(xs)[i] == if i in xs then 1 else 0
  {
    if xs != [] {
      AtMostOnce(xs[1..], i);
      AfterPrefix(xs, 1, i);
      assert xs == [xs[0]] + xs[1..];
      assert i in xs[..1] <==> i == xs[0];
    }
  }

  lemma SuppliedGrown(all: seq<int>, size: nat, k: nat)
    requires k <= |Missing(all, size)|
    ensures Grown(all, all + Missing(all, size)[..k], size)
  {
    var some := Missing(all, size)[..k];
    MissingExact(all, size);
    forall i ensures GrownAt(multiset(all)[i], multiset(all + some)[i], 0 <= i < size) {
      AtMostOnce(some, i);
      assert multiset(all + some) == multiset(all) + multiset(some);
      assert i in all <==> i in multiset(all);
      assert i in some ==> i in Missing(all, size);
    }
  }

  // One round supplies a prefix of what is missing, each index once.
  lemma RoundStep(reports: seq<Report>, size: nat, maxSize: int, s: Shard, score: real)
    requires Suggests(Missing(Included(reports), size), maxSize, s)
    ensures var all, next := Included(reports), Included(reports + [ShardReport(s, size, score)]);
      && Missing(next, size) == Missing(all, size)[s.count..]
      && Grown(all, next, size)
  {
    var all, missing := Included(reports), Missing(Included(reports), size);
    SuggestedAccepted(all, size, maxSize, s);
    assert (reports + [ShardReport(s, size, score)])[..|reports|] == reports;
    assert Matches(ShardReport(s, size, score));
    MissingAfter(all, size, s.count);
    SuppliedGrown(all, size, s.count);
  }

  lemma GrownTransitive(a: seq<int>, b: seq<int>, c: seq<int>, size: nat)
    requires Grown(a, b, size) && Grown(b, c, size)
    ensures Grown(a, c, size)
  {
    forall i ensures GrownAt(multiset(a)[i], multiset(c)[i], 0 <= i < size) {
      assert GrownAt(multiset(a)[i], multiset(b)[i], 0 <= i < size);
      assert GrownAt(multiset(b)[i], multiset(c)[i], 0 <= i < size);
    }
  }

  lemma {:induction false} RoundsGrow(reports: seq<Report>, size: nat, maxSize: int, scores: seq<real>)
    ensures var all, done := Included(reports), Included(Rounds(reports, size, maxSize, scores));
      Grown(all, done, size) && (|scores| >= |Missing(all, size)| ==> Missing(done, size) == [])
    decreases scores
  {
    if scores != [] && Missing(Included(reports), size) != [] {
      SuggestionExists(Missing(Included(reports), size), maxSize);
      var s :| Suggests(Missing(Included(reports), size), maxSize, s)
        && Rounds(reports, size, maxSize, scores) ==
          Rounds(reports + [ShardReport(s, size, scores[0])], size, maxSize, scores[1..]);
      var next := reports + [ShardReport(s, size, scores[0])];
      RoundStep(reports, size, maxSize, s, scores[0]);
      RoundsGrow(next, size, maxSize, scores[1..]);
      GrownTransitive(Included(reports), Included(next), Included(Rounds(next, size, maxSize, scores[1..])), size);
    }
  }

  predicate CleanAt(all: seq<int>, size: nat, i: int) {
    multiset(all)[i] <= if 0 <= i < size then 1 else 0
  }

  // No index twice, and none outside the dataset.
  ghost predicate Clean(all: seq<int>, size: nat) {
    forall i :: CleanAt(all, size, i)
  }

  lemma ConvergesAt(all: seq<int>, done: seq<int>, size: nat, i: int)
    requires Grown(all, done, size) && Missing(done, size) == []
    ensures Once(size, i, multiset(done)[i]) <==> CleanAt(all, size, i)
  {
    MissingExact(done, size);
    assert GrownAt(multiset(all)[i], multiset(done)[i], 0 <= i < size);
    assert i in done <==> i in multiset(done);
    assert i !in Missing(done, size);
  }

  /** Running as many suggested shards as there are missing indices leaves none missing, repeats nothing, and
      so covers the dataset exactly whenever the reports at the start had no repeated or stray index. */
  lemma Converges(reports: seq<Report>, size: nat, maxSize: int, scores: seq<real>)
    requires |scores| >= |Missing(Included(reports), size)|
    ensures var done := Included(Rounds(reports, size, maxSize, scores));
      Missing(done, size) == [] && (ExactCover(done, size) <==> Clean(Included(reports), size))
  {
    var all, done := Included(reports), Included(Rounds(reports, size, maxSize, scores));
    RoundsGrow(reports, size, maxSize, scores);
    CoverCounts(done, size);
    forall i ensures Once(size, i, multiset(done)[i]) <==> CleanAt(all, size, i) { ConvergesAt(all, done, size, i); }
  }

  /** A repeated or stray index is never repaired: no number of rounds makes the cover exact. */
  lemma NeverRepaired(reports: seq<Report>, size: nat, maxSize: int, scores: seq<real>)
    requires !Clean(Included(reports), size)
    ensures !ExactCover(Included(Rounds(reports, size, maxSize, scores)), size)
  {
    var all, done := Included(reports), Included(Rounds(reports, size, maxSize, scores));
    RoundsGrow(reports, size, maxSize, scores);
    var i :| !CleanAt(all, size, i);
    assert GrownAt(multiset(all)[i], multiset(done)[i], 0 <= i < size);
    CoverCounts(done, size);
    assert !Once(size, i, multiset(done)[i]);
  }

  const FIRST: Report := ShardReport(Shard(0, 1), 2, 0.0)

  /** Two reports of the same first shard of a two-instance dataset: both are included, and no further
      rounds complete it. */
  lemma RepeatedShard(maxSize: int, scores: seq<real>)
    ensures Included([FIRST, FIRST]) == [0, 0]
    ensures !ExactCover(Included(Rounds([FIRST, FIRST], 2, maxSize, scores)), 2)
  {
    RangeOne(0);
    assert FIRST.indices == [0] && Matches(FIRST);
    assert [FIRST, FIRST][..1] == [FIRST] && [FIRST][..0] == [];
    assert Included([FIRST]) == [] + [0] == [0];
    assert [0] + [0] == [0, 0] && multiset([0, 0])[0] == 2;
    assert !CleanAt([0, 0], 2, 0);
    NeverRepaired([FIRST, FIRST], 2, maxSize, scores);
  }
}
