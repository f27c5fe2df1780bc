/** Canonical JSON: objects sorted by key, recursively, then written compactly. */
module Canonical {
  import opened Json
  import opened Order

  // ---------- Sorting the fields of one object ----------

  predicate Sorted(fs: seq<Field>) {
    forall i, j :: 0 <= i < j < |fs| ==> Less(fs[i].key, fs[j].key)
  }

  predicate UniqueKeys(fs: seq<Field>) {
    forall i, j :: 0 <= i < j < |fs| ==> fs[i].key != fs[j].key
  }

  predicate Ascending(keys: seq<Bytes>) {
    forall i :: 0 < i < |keys| ==> Less(keys[i - 1], keys[i])
  }

  lemma AscendingJoin(a: seq<Bytes>, b: seq<Bytes>)
    requires a != [] && b != [] && Ascending(a) && Ascending(b) && Less(a[|a| - 1], b[0])
    ensures Ascending(a + b)
  {
  }

  lemma {:induction false} AscendingSorted(keys: seq<Bytes>, i: nat, j: nat)
    requires Ascending(keys) && i < j < |keys|
    ensures Less(keys[i], keys[j])
  {
    if i < j - 1 {
      AscendingSorted(keys, i, j - 1);
      LessTransitive(keys[i], keys[j - 1], keys[j]);
    }
  }

  function Insert(f: Field, fs: seq<Field>): (r: seq<Field>)
    ensures multiset(r) == multiset(fs) + multiset{f}
  {
    if fs == [] || !Less(fs[0].key, f.key) then [f] + fs
    else assert fs == [fs[0]] + fs[1..]; [fs[0]] + Insert(f, fs[1..])
  }

  // A stable sort of the key/value pairs.
  function Sort(fs: seq<Field>): (r: seq<Field>)
    ensures multiset(r) == multiset(fs)
  {
    if fs == [] then [] else assert fs == [fs[0]] + fs[1..]; Insert(fs[0], Sort(fs[1..]))
  }

  lemma SameMembers(a: seq<Field>, b: seq<Field>)
    requires multiset(a) == multiset(b)
    ensures |a| == |b| && forall f :: f in a <==> f in b
  {
    assert |multiset(a)| == |a| && |multiset(b)| == |b|;
    forall f ensures f in a <==> f in b {
      assert f in a <==> f in multiset(a);
    }
  }

  lemma {:induction false} InsertSorted(f: Field, fs: seq<Field>)
    requires Sorted(fs) && forall i :: 0 <= i < |fs| ==> fs[i].key != f.key
    ensures Sorted(Insert(f, fs))
  {
    if fs == [] {
    } else if Less(fs[0].key, f.key) {
      var rest := Insert(f, fs[1..]);
      InsertSorted(f, fs[1..]);
      forall i | 0 <= i < |rest| ensures Less(fs[0].key, rest[i].key) {
        assert rest[i] in multiset(rest);
        assert rest[i] == f || rest[i] in fs[1..];
      }
    } else {
      LessTotal(f.key, fs[0].key);
      forall i | 0 < i < |fs| ensures Less(f.key, fs[i].key) {
        LessTransitive(f.key, fs[0].key, fs[i].key);
      }
    }
  }

  lemma {:induction false} SortSorted(fs: seq<Field>)
    requires UniqueKeys(fs)
    ensures Sorted(Sort(fs))
  {
    if fs != [] {
      SortSorted(fs[1..]);
      SameMembers(Sort(fs[1..]), fs[1..]);
      forall i | 0 <= i < |Sort(fs[1..])| ensures Sort(fs[1..])[i].key != fs[0].key {
        assert Sort(fs[1..])[i] in fs[1..];
      }
      InsertSorted(fs[0], Sort(fs[1..]));
    }
  }

  // A sorted list is determined by its members.
  lemma {:induction false} SortedUnique(a: seq<Field>, b: seq<Field>)
    requires Sorted(a) && Sorted(b) && |a| == |b| && forall f :: f in a <==> f in b
    ensures a == b
  {
    if a == [] {
    } else {
      assert a[0] in b;
      assert b[0] in a;
      LessAsymmetric(a[0].key, b[0].key);
      assert a[0] == b[0];
      LessAsymmetric(a[0].key, a[0].key);
      forall f ensures f in a[1..] <==> f in b[1..] {
        if f in a[1..] { assert f in a; assert f in b; }
        if f in b[1..] { assert f in b; assert f in a; }
      }
      SortedUnique(a[1..], b[1..]);
      assert a == [a[0]] + a[1..] && b == [b[0]] + b[1..];
    }
  }

  lemma {:induction false} SortIdentity(fs: seq<Field>)
    requires Sorted(fs)
    ensures Sort(fs) == fs
  {
    if fs != [] {
      SortIdentity(fs[1..]);
      if |fs| > 1 { LessAsymmetric(fs[0].key, fs[1].key); }
      assert fs == [fs[0]] + fs[1..];
    }
  }

  // ---------- Canonical values ----------

  function Canonical(v: Value): Value
    decreases v, 1
  {
    match v
    case Array(items) => Array(CanonicalItems(items))
    case Object(fields) => Object(Sort(CanonicalFields(fields)))
    case _ => v
  }

  function CanonicalItems(items: seq<Value>): (r: seq<Value>)
    ensures |r| == |items|
    ensures forall i :: 0 <= i < |r| ==> r[i] == Canonical(items[i])
    decreases items, 0
  {
    if items == [] then [] else [Canonical(items[0])] + CanonicalItems(items[1..])
  }

  function CanonicalFields(fs: seq<Field>): (r: seq<Field>)
    ensures |r| == |fs|
    ensures forall i :: 0 <= i < |r| ==> r[i] == Field(fs[i].key, Canonical(fs[i].value))
    decreases fs, 0
  {
    if fs == [] then []
    else [Field(fs[0].key, Canonical(fs[0].value))] + CanonicalFields(fs[1..])
  }

  lemma {:induction false} InsertThenDescend(f: Field, fs: seq<Field>)
    ensures CanonicalFields(Insert(f, fs)) == Insert(Field(f.key, Canonical(f.value)), CanonicalFields(fs))
  {
    if fs == [] || !Less(fs[0].key, f.key) {
      assert ([f] + fs)[1..] == fs;
    } else {
      InsertThenDescend(f, fs[1..]);
      var rest := Insert(f, fs[1..]);
      assert ([fs[0]] + rest)[1..] == rest;
      assert CanonicalFields(fs)[1..] == CanonicalFields(fs[1..]);
    }
  }

  // The program sorts the pairs first and then descends into the values;
  // descending first gives the same list.
  lemma {:induction false} SortThenDescend(fs: seq<Field>)
    ensures CanonicalFields(Sort(fs)) == Sort(CanonicalFields(fs))
  {
    if fs != [] {
      SortThenDescend(fs[1..]);
      InsertThenDescend(fs[0], Sort(fs[1..]));
    }
  }

  // Every object inside has distinct keys, as every in-memory JSON map has.
  ghost predicate WellFormed(v: Value) {
    match v
    case Array(items) => forall i :: 0 <= i < |items| ==> WellFormed(items[i])
    case Object(fs) => UniqueKeys(fs) && forall i :: 0 <= i < |fs| ==> WellFormed(fs[i].value)
    case _ => true
  }

  // Every object inside is sorted.
  ghost predicate IsCanonical(v: Value) {
    match v
    case Array(items) => forall i :: 0 <= i < |items| ==> IsCanonical(items[i])
    case Object(fs) => Sorted(fs) && forall i :: 0 <= i < |fs| ==> IsCanonical(fs[i].value)
    case _ => true
  }

  lemma SortKeepsCanonical(fs: seq<Field>)
    requires forall i :: 0 <= i < |fs| ==> IsCanonical(fs[i].value)
    ensures forall i :: 0 <= i < |Sort(fs)| ==> IsCanonical(Sort(fs)[i].value)
  {
    SameMembers(Sort(fs), fs);
    forall i | 0 <= i < |Sort(fs)| ensures IsCanonical(Sort(fs)[i].value) { assert Sort(fs)[i] in fs; }
  }

  lemma {:induction false} CanonicalIsCanonical(v: Value)
    requires WellFormed(v)
    ensures IsCanonical(Canonical(v))
  {
    match v
    case Array(items) =>
      forall i | 0 <= i < |items| ensures IsCanonical(CanonicalItems(items)[i]) {
        CanonicalIsCanonical(items[i]);
      }
    case Object(fs) =>
      var each := CanonicalFields(fs);
      forall i | 0 <= i < |fs| ensures IsCanonical(each[i].value) { CanonicalIsCanonical(fs[i].value); }
      SortSorted(each);
      SortKeepsCanonical(each);
    case _ =>
  }

  lemma {:induction false} CanonicalFixed(v: Value)
    requires IsCanonical(v)
    ensures Canonical(v) == v
  {
    match v
    case Array(items) =>
      forall i | 0 <= i < |items| ensures Canonical(items[i]) == items[i] { CanonicalFixed(items[i]); }
      assert CanonicalItems(items) == items;
    case Object(fs) =>
      forall i | 0 <= i < |fs| ensures CanonicalFields(fs)[i] == fs[i] { CanonicalFixed(fs[i].value); }
      assert CanonicalFields(fs) == fs;
      SortIdentity(fs);
    case _ =>
  }

  /** Canonicalising twice changes nothing more. */
  lemma CanonicalIdempotent(v: Value)
    requires WellFormed(v)
    ensures Canonical(Canonical(v)) == Canonical(v)
  {
    CanonicalIsCanonical(v);
    CanonicalFixed(Canonical(v));
  }

  // ---------- Independence of key order ----------

  ghost function Keys(fs: seq<Field>): set<Bytes> {
    set i | 0 <= i < |fs| :: fs[i].key
  }

  // The same document up to the order of the fields of its objects.
  ghost predicate SameDocument(u: Value, v: Value)
    decreases u
  {
    match (u, v)
    case (Array(us), Array(vs)) =>
      |us| == |vs| && forall i :: 0 <= i < |us| ==> SameDocument(us[i], vs[i])
    case (Object(fs), Object(gs)) =>
      && Keys(fs) == Keys(gs)
      && forall i, j :: 0 <= i < |fs| && 0 <= j < |gs| && fs[i].key == gs[j].key ==>
        SameDocument(fs[i].value, gs[j].value)
    case _ => u == v
  }

  // The canonical form tells these two apart exactly as documents.
  ghost predicate Decides(u: Value, v: Value) {
    Canonical(u) == Canonical(v) <==> SameDocument(u, v)
  }

  lemma SameArrays(us: seq<Value>, vs: seq<Value>)
    requires |us| == |vs| ==> forall i :: 0 <= i < |us| ==>
      (Canonical(us[i]) == Canonical(vs[i]) <==> SameDocument(us[i], vs[i]))
    ensures Canonical(Array(us)) == Canonical(Array(vs)) <==> SameDocument(Array(us), Array(vs))
  {
    var cs, ds := CanonicalItems(us), CanonicalItems(vs);
    if |us| == |vs| {
      assert forall i :: 0 <= i < |us| ==> cs[i] == Canonical(us[i]) && ds[i] == Canonical(vs[i]);
      assert cs == ds <==> forall i :: 0 <= i < |us| ==> cs[i] == ds[i];
    }
  }

  lemma FieldOf(fs: seq<Field>, k: Bytes) returns (i: int)
    requires k in Keys(fs)
    ensures 0 <= i < |fs| && fs[i].key == k
  {
    i :| 0 <= i < |fs| && fs[i].key == k;
  }

  lemma {:induction false} KeysCount(fs: seq<Field>)
    requires UniqueKeys(fs)
    ensures |Keys(fs)| == |fs|
  {
    if fs != [] {
      KeysCount(fs[1..]);
      assert Keys(fs) == {fs[0].key} + Keys(fs[1..]);
      assert fs[0].key !in Keys(fs[1..]);
    }
  }

  lemma SameSorted(fs: seq<Field>, gs: seq<Field>)
    requires UniqueKeys(fs) && UniqueKeys(gs) && Keys(fs) == Keys(gs)
    requires forall i, j :: 0 <= i < |fs| && 0 <= j < |gs| && fs[i].key == gs[j].key ==>
      Canonical(fs[i].value) == Canonical(gs[j].value)
    ensures Sort(CanonicalFields(fs)) == Sort(CanonicalFields(gs))
  {
    var a, b := CanonicalFields(fs), CanonicalFields(gs);
    forall f ensures f in a <==> f in b {
      if f in a {
        var i :| 0 <= i < |a| && a[i] == f;
        assert fs[i].key in Keys(fs);
        var j := FieldOf(gs, fs[i].key);
        assert b[j] == f;
      }
      if f in b {
        var j :| 0 <= j < |b| && b[j] == f;
        assert gs[j].key in Keys(gs);
        var i := FieldOf(fs, gs[j].key);
        assert a[i] == f;
      }
    }
    SortSorted(a); SortSorted(b);
    SameMembers(Sort(a), a); SameMembers(Sort(b), b);
    KeysCount(fs); KeysCount(gs);
    SortedUnique(Sort(a), Sort(b));
  }

  lemma MemberIndex(f: Field, fs: seq<Field>) returns (i: int)
    requires f in fs
    ensures 0 <= i < |fs| && fs[i] == f
  {
    i :| 0 <= i < |fs| && fs[i] == f;
  }

  lemma PermutedKeys(a: seq<Field>, b: seq<Field>)
    requires multiset(a) == multiset(b)
    ensures Keys(a) <= Keys(b)
  {
    SameMembers(a, b);
    forall k | k in Keys(a) ensures k in Keys(b) {
      var i := FieldOf(a, k);
      assert a[i] in a;
      var j := MemberIndex(a[i], b);
    }
  }

  lemma PermutedValue(a: seq<Field>, b: seq<Field>, i: nat, j: nat)
    requires multiset(a) == multiset(b) && UniqueKeys(b)
    requires i < |a| && j < |b| && a[i].key == b[j].key
    ensures a[i] == b[j]
  {
    SameMembers(a, b);
    assert a[i] in a;
    var k := MemberIndex(a[i], b);
  }

  lemma CanonicalKeys(fs: seq<Field>)
    ensures Keys(CanonicalFields(fs)) == Keys(fs)
  {
    var a := CanonicalFields(fs);
    forall k | k in Keys(fs) ensures k in Keys(a) {
      var i := FieldOf(fs, k);
      assert a[i].key == k;
    }
  }

  lemma SortedSame(fs: seq<Field>, gs: seq<Field>, a: seq<Field>, b: seq<Field>)
    requires UniqueKeys(gs) && a == CanonicalFields(fs) && b == CanonicalFields(gs)
    requires multiset(a) == multiset(b)
    ensures Keys(fs) == Keys(gs)
    ensures forall i, j :: 0 <= i < |fs| && 0 <= j < |gs| && fs[i].key == gs[j].key ==>
      Canonical(fs[i].value) == Canonical(gs[j].value)
  {
    PermutedKeys(a, b);
    PermutedKeys(b, a);
    CanonicalKeys(fs);
    CanonicalKeys(gs);
    forall i, j | 0 <= i < |fs| && 0 <= j < |gs| && fs[i].key == gs[j].key
      ensures Canonical(fs[i].value) == Canonical(gs[j].value)
    {
      PermutedValue(a, b, i, j);
    }
  }

  lemma CanonicalSame(fs: seq<Field>, gs: seq<Field>)
    requires UniqueKeys(gs) && Sort(CanonicalFields(fs)) == Sort(CanonicalFields(gs))
    requires forall i, j :: 0 <= i < |fs| && 0 <= j < |gs| ==> Decides(fs[i].value, gs[j].value)
    ensures SameDocument(Object(fs), Object(gs))
  {
    SortedSame(fs, gs, CanonicalFields(fs), CanonicalFields(gs));
    forall i, j | 0 <= i < |fs| && 0 <= j < |gs| && fs[i].key == gs[j].key
      ensures SameDocument(fs[i].value, gs[j].value)
    {
      assert Decides(fs[i].value, gs[j].value);
    }
  }

  lemma SameCanonicalFields(fs: seq<Field>, gs: seq<Field>)
    requires UniqueKeys(fs) && UniqueKeys(gs) && SameDocument(Object(fs), Object(gs))
    requires forall i, j :: 0 <= i < |fs| && 0 <= j < |gs| ==> Decides(fs[i].value, gs[j].value)
    ensures Sort(CanonicalFields(fs)) == Sort(CanonicalFields(gs))
  {
    forall i, j | 0 <= i < |fs| && 0 <= j < |gs| && fs[i].key == gs[j].key
      ensures Canonical(fs[i].value) == Canonical(gs[j].value)
    {
      assert Decides(fs[i].value, gs[j].value);
    }
    SameSorted(fs, gs);
  }

  lemma SameObjects(fs: seq<Field>, gs: seq<Field>)
    requires UniqueKeys(fs) && UniqueKeys(gs)
    requires forall i, j :: 0 <= i < |fs| && 0 <= j < |gs| ==> Decides(fs[i].value, gs[j].value)
    ensures Decides(Object(fs), Object(gs))
  {
    if SameDocument(Object(fs), Object(gs)) { SameCanonicalFields(fs, gs); }
    if Sort(CanonicalFields(fs)) == Sort(CanonicalFields(gs)) { CanonicalSame(fs, gs); }
  }

  /** Two documents have the same canonical form exactly when they differ only in key order. */
  lemma {:induction false} SameCanonical(u: Value, v: Value)
    requires WellFormed(u) && WellFormed(v)
    ensures Canonical(u) == Canonical(v) <==> SameDocument(u, v)
    decreases u
  {
    match (u, v)
    case (Array(us), Array(vs)) =>
      if |us| == |vs| {
        forall i | 0 <= i < |us| ensures Canonical(us[i]) == Canonical(vs[i]) <==> SameDocument(us[i], vs[i]) {
          SameCanonical(us[i], vs[i]);
        }
      }
      SameArrays(us, vs);
    case (Object(fs), Object(gs)) =>
      forall i, j | 0 <= i < |fs| && 0 <= j < |gs|
        ensures Decides(fs[i].value, gs[j].value)
      {
        SameCanonical(fs[i].value, gs[j].value);
      }
      SameObjects(fs, gs);
    case _ =>
  }

  // ---------- The bytes that are stored and hashed ----------

  function CanonicalBytes(v: Value): Bytes {
    Encode(Canonical(v))
  }

  /** Stored bytes decide the document: equal bytes mean the same document up to key order. */
  lemma CanonicalBytesDecide(u: Value, v: Value)
    requires WellFormed(u) && WellFormed(v)
    ensures CanonicalBytes(u) == CanonicalBytes(v) <==> SameDocument(u, v)
  {
    EncodeInjective(Canonical(u), Canonical(v));
    SameCanonical(u, v);
  }
}
