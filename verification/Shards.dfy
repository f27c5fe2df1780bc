/** Benchmark shards: selecting them, aggregating their reports, and suggesting the next one. */
module Shards {
  import opened Wrappers

  // ---------- Sorted lists ----------

  predicate Ascending(xs: seq<int>) {
    forall i, j :: 0 <= i < j < |xs| ==> xs[i] <= xs[j]
  }

  predicate StrictlyAscending(xs: seq<int>) {
    forall i, j :: 0 <= i < j < |xs| ==> xs[i] < xs[j]
  }

  function Insert(x: int, xs: seq<int>): seq<int> {
    if xs == [] || x <= xs[0] then [x] + xs else [xs[0]] + Insert(x, xs[1..])
  }

  function Sorted(xs: seq<int>): seq<int> {
    if xs == [] then [] else Insert(xs[0], Sorted(xs[1..]))
  }

  lemma {:induction false} InsertCounts(x: int, xs: seq<int>)
    ensures multiset(Insert(x, xs)) == multiset(xs) + multiset{x}
  {
    if xs != [] && x > xs[0] {
      InsertCounts(x, xs[1..]);
      assert xs == [xs[0]] + xs[1..];
    }
  }

  lemma InsertMembers(x: int, xs: seq<int>)
    ensures forall y :: y in Insert(x, xs) ==> y == x || y in xs
  {
    InsertCounts(x, xs);
    assert forall y :: y in Insert(x, xs) ==> y in multiset(Insert(x, xs));
  }

  lemma PrependAscending(x: int, xs: seq<int>)
    requires Ascending(xs) && forall y :: y in xs ==> x <= y
    ensures Ascending([x] + xs)
  {
    var r := [x] + xs;
    forall i, j | 0 <= i < j < |r| ensures r[i] <= r[j] {
      assert r[j] == xs[j - 1] && xs[j - 1] in xs;
      if i > 0 { assert r[i] == xs[i - 1]; }
    }
  }

  lemma {:induction false} InsertAscending(x: int, xs: seq<int>)
    requires Ascending(xs)
    ensures Ascending(Insert(x, xs))
  {
    if xs == [] || x <= xs[0] {
      PrependAscending(x, xs);
    } else {
      InsertAscending(x, xs[1..]);
      InsertMembers(x, xs[1..]);
      PrependAscending(xs[0], Insert(x, xs[1..]));
    }
  }

  lemma {:induction false} SortedAscending(xs: seq<int>)
    ensures Ascending(Sorted(xs)) && multiset(Sorted(xs)) == multiset(xs)
  {
    if xs != [] {
      SortedAscending(xs[1..]);
      InsertAscending(xs[0], Sorted(xs[1..]));
      InsertCounts(xs[0], Sorted(xs[1..]));
      assert xs == [xs[0]] + xs[1..];
    }
  }

  function Range(first: int, count: nat): seq<int> {
    if count == 0 then [] else Range(first, count - 1) + [first + count - 1]
  }

  lemma {:induction false} RangeAt(first: int, count: nat)
    ensures |Range(first, count)| == count
    ensures forall i :: 0 <= i < count ==> Range(first, count)[i] == first + i
  {
    if count > 0 { RangeAt(first, count - 1); }
  }

  // Those that pass a test, in order.
  function Where(xs: seq<int>, test: int -> bool): seq<int> {
    if xs == [] then []
    else Where(xs[..|xs| - 1], test) + if test(xs[|xs| - 1]) then [xs[|xs| - 1]] else []
  }

  lemma {:induction false} WhereMembers(xs: seq<int>, test: int -> bool)
    ensures forall x :: x in Where(xs, test) <==> x in xs && test(x)
  {
    if xs != [] {
      WhereMembers(xs[..|xs| - 1], test);
      assert xs == xs[..|xs| - 1] + [xs[|xs| - 1]];
    }
  }

  // ---------- Ranges ----------

  datatype Span = Span(start: int, end: int, count: int)

  predicate WellSized(s: Span) {
    s.start <= s.end && s.count == s.end - s.start + 1
  }

  // Every value of every span, in order.
  function Expand(spans: seq<Span>): seq<int> {
    if spans == [] then []
    else
      var s := spans[|spans| - 1];
      Expand(spans[..|spans| - 1]) + Range(s.start, if s.start <= s.end then s.end - s.start + 1 else 0)
  }

  // No span could have been continued by the next.
  predicate Separate(spans: seq<Span>) {
    forall i :: 0 < i < |spans| ==> spans[i].start != spans[i - 1].end + 1
  }

  lemma ExpandSnoc(spans: seq<Span>, start: int, end: int)
    requires start <= end
    ensures Expand(spans + [Span(start, end, end - start + 1)]) == Expand(spans) + Range(start, end - start + 1)
  {
    assert (spans + [Span(start, end, end - start + 1)])[..|spans|] == spans;
  }

  lemma Appended(a: seq<int>, b: seq<int>, x: int)
    ensures a + (b + [x]) == a + b + [x]
  {
  }

  // The closed spans and the open one together list the values seen so far.
  predicate Listing(spans: seq<Span>, start: int, prev: int, seen: seq<int>) {
    && start <= prev
    && Expand(spans) + Range(start, prev - start + 1) == seen
    && Separate(spans) && (spans != [] ==> start != spans[|spans| - 1].end + 1)
    && forall k :: 0 <= k < |spans| ==> WellSized(spans[k])
  }

  lemma RangeOne(x: int)
    ensures Range(x, 1) == [x]
  {
    assert Range(x, 0) == [] && [] + [x] == [x];
  }

  lemma ListingExtends(spans: seq<Span>, start: int, prev: int, seen: seq<int>)
    requires Listing(spans, start, prev, seen)
    ensures Listing(spans, start, prev + 1, seen + [prev + 1])
  {
    Appended(Expand(spans), Range(start, prev - start + 1), prev + 1);
  }

  lemma ListingCloses(spans: seq<Span>, start: int, prev: int, seen: seq<int>)
    requires Listing(spans, start, prev, seen)
    ensures var closed := spans + [Span(start, prev, prev - start + 1)];
      Expand(closed) == seen && Separate(closed) && forall k :: 0 <= k < |closed| ==> WellSized(closed[k])
  {
    ExpandSnoc(spans, start, prev);
  }

  lemma ListingBreaks(spans: seq<Span>, start: int, prev: int, seen: seq<int>, value: int)
    requires Listing(spans, start, prev, seen) && value != prev + 1
    ensures Listing(spans + [Span(start, prev, prev - start + 1)], value, value, seen + [value])
  {
    ListingCloses(spans, start, prev, seen);
    RangeOne(value);
  }

  lemma ListingStarts(sorted: seq<int>)
    requires sorted != []
    ensures Listing([], sorted[0], sorted[0], sorted[..1])
  {
    RangeOne(sorted[0]);
    assert [] + [sorted[0]] == sorted[..1];
  }

  lemma ListingNext(spans: seq<Span>, start: int, prev: int, sorted: seq<int>, i: nat)
    requires i < |sorted| && Listing(spans, start, prev, sorted[..i])
    ensures if sorted[i] == prev + 1 then Listing(spans, start, prev + 1, sorted[..i + 1])
      else Listing(spans + [Span(start, prev, prev - start + 1)], sorted[i], sorted[i], sorted[..i + 1])
  {
    assert sorted[..i + 1] == sorted[..i] + [sorted[i]];
    if sorted[i] == prev + 1 {
      ListingExtends(spans, start, prev, sorted[..i]);
    } else {
      ListingBreaks(spans, start, prev, sorted[..i], sorted[i]);
    }
  }

  lemma SortedLength(xs: seq<int>)
    ensures |Sorted(xs)| == |xs|
  {
    SortedAscending(xs);
    assert |multiset(Sorted(xs))| == |multiset(xs)|;
  }

  /** The spans list the sorted values exactly, and are as long as they can be. */
  method ContiguousRanges(values: seq<int>) returns (spans: seq<Span>)
    ensures Expand(spans) == Sorted(values) && Separate(spans)
    ensures forall i :: 0 <= i < |spans| ==> WellSized(spans[i])
  {
    if values == [] { return []; }
    var sorted := Sorted(values);
    SortedLength(values);
    spans := [];
    var start, prev := sorted[0], sorted[0];
    ListingStarts(sorted);
    for i := 1 to |sorted|
      invariant Listing(spans, start, prev, sorted[..i])
    {
      ListingNext(spans, start, prev, sorted, i);
      var value := sorted[i];
      if value == prev + 1 {
        prev := value;
        continue;
      }
      spans := spans + [Span(start, prev, prev - start + 1)];
      start, prev := value, value;
    }
    ListingCloses(spans, start, prev, sorted[..|sorted|]);
    assert sorted[..|sorted|] == sorted;
    spans := spans + [Span(start, prev, prev - start + 1)];
  }

  // ---------- Selecting a shard ----------

  // The official indices a shard's summary lists.
  function Selected(offset: int, count: Option<int>, size: nat): seq<int> {
    if !(0 <= offset <= size) then []
    else match count
      case None => Range(offset, size - offset)
      case Some(n) => Range(offset, if n < 0 then 0 else if offset + n <= size then n else size - offset)
  }

  predicate AcceptsShard(offset: int, count: Option<int>, size: nat) {
    && 0 <= offset <= size
    && (count.Some? ==> count.value >= 1)
    && (offset > 0 || count.Some? ==> Selected(offset, count, size) != [])
    && (count.Some? ==> |Selected(offset, count, size)| == count.value)
  }

  /** A shard is accepted exactly when all of its instances exist: none is silently dropped. */
  lemma ShardAccepted(offset: int, count: Option<int>, size: nat)
    ensures AcceptsShard(offset, count, size) <==>
      match count
      case None => offset == 0 || 0 < offset < size
      case Some(n) => 0 <= offset && 1 <= n && offset + n <= size
  {
    if 0 <= offset <= size {
      RangeAt(offset, size - offset);
      if count.Some? && count.value >= 0 { RangeAt(offset, count.value); }
      if count.Some? && count.value < 0 { RangeAt(offset, 0); }
    }
  }

  // ---------- Reports ----------

  // A summary as far as the aggregate reads it; a field that is not the number it should be is None.
  datatype Report =
    | Unreadable
    | Report(benchmark: string, status: string, evidence: bool, indices: seq<int>, sampleSize: Option<int>,
             score: Option<real>, scored: bool, outcomes: Option<int>, agentConfig: string)

  predicate Matches(r: Report) {
    && r.Report? && r.benchmark == "swe-bench-pro" && r.status == "completed" && r.evidence && r.indices != []
    && r.sampleSize.Some? && r.sampleSize.value >= 1 && r.score.Some? && r.sampleSize.value == |r.indices|
    && r.scored && r.outcomes == r.sampleSize && r.agentConfig == "external multiagent-native"
  }

  // The official indices of all included reports, in order.
  function Included(reports: seq<Report>): seq<int> {
    if reports == [] then []
    else Included(reports[..|reports| - 1]) + var r := reports[|reports| - 1]; if Matches(r) then r.indices else []
  }

  // The expected indices no report covers, in order.
  function Missing(all: seq<int>, size: nat): seq<int> {
    if size == 0 then []
    else Missing(all, size - 1) + if size - 1 in all then [] else [size - 1]
  }

  lemma AppendAscending(xs: seq<int>, x: int)
    requires StrictlyAscending(xs) && forall y :: y in xs ==> y < x
    ensures StrictlyAscending(xs + [x])
  {
    var r := xs + [x];
    forall i, j | 0 <= i < j < |r| ensures r[i] < r[j] {
      assert r[i] == xs[i] && xs[i] in xs;
    }
  }

  lemma {:induction false} MissingExact(all: seq<int>, size: nat)
    ensures StrictlyAscending(Missing(all, size))
    ensures forall i :: i in Missing(all, size) <==> 0 <= i < size && i !in all
  {
    if size > 0 {
      MissingExact(all, size - 1);
      AppendAscending(Missing(all, size - 1), size - 1);
    }
  }

  datatype Shard = Shard(offset: int, count: int)

  // How many of these values continue first, first + 1, ..., up to a limit.
  predicate Suggests(missing: seq<int>, maxSize: int, s: Shard) {
    && missing != [] && s.offset == missing[0] && 1 <= s.count <= |missing|
    && (s.count == 1 || s.count <= maxSize)
    && (forall i :: 0 <= i < s.count ==> missing[i] == s.offset + i)
    && (s.count == |missing| || s.count >= maxSize || missing[s.count] != s.offset + s.count)
  }

  /** The longest run of missing indices from the first one, up to the size limit. */
  method SuggestedMissingShard(missing: seq<int>, maxSize: int) returns (s: Option<Shard>)
    ensures s.None? <==> missing == []
    ensures s.Some? ==> Suggests(missing, maxSize, s.value)
  {
    if missing == [] { return None; }
    var first, count := missing[0], 1;
    while count < |missing|
      invariant 1 <= count <= |missing| && (count == 1 || count <= maxSize)
      invariant forall i :: 0 <= i < count ==> missing[i] == first + i
      decreases |missing| - count
    {
      if missing[count] != first + count || count >= maxSize { break; }
      count := count + 1;
    }
    return Some(Shard(first, count));
  }

  // There is only one shard to suggest.
  lemma SuggestsOne(missing: seq<int>, maxSize: int, s: Shard, t: Shard)
    requires Suggests(missing, maxSize, s) && Suggests(missing, maxSize, t)
    ensures s == t
  {
  }
}
