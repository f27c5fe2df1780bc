/** Every record the store can build fits the ledger's record limit. */
module RecordSize {
  import opened Wrappers
  import opened Json
  import opened Events
  import opened Ledger
  import opened Replay
  import opened Storage
  import opened Logger

  const U64_LIMIT: nat := 0x1_0000_0000_0000_0000

  // ---------- Encoded lengths ----------

  function PowerOfTen(d: nat): nat {
    if d == 0 then 1 else 10 * PowerOfTen(d - 1)
  }

  lemma {:induction false} DecimalLength(n: nat, d: nat)
    requires d > 0 && n < PowerOfTen(d)
    ensures |Decimal(n)| <= d
  {
    if n >= 10 { DecimalLength(n / 10, d - 1); }
  }

  lemma NumberLength(n: nat)
    requires n < U64_LIMIT
    ensures |Encode(Number(n))| <= 20
  {
    assert PowerOfTen(6) == 1_000_000;
    assert PowerOfTen(12) == 1_000_000_000_000;
    assert PowerOfTen(18) == 1_000_000_000_000_000_000;
    assert PowerOfTen(20) == 100_000_000_000_000_000_000;
    DecimalLength(n, 20);
  }

  // At most six output bytes per byte, and the quotes.
  lemma {:induction false} QuoteLength(s: Bytes)
    ensures |Escape(s)| <= 6 * |s| && |Quote(s)| <= 6 * |s| + 2
  {
    if s != "" { QuoteLength(s[1..]); }
  }

  const REFERENCE_LIMIT: nat := 14_720

  lemma {:induction false} ItemsLength(items: seq<Value>)
    requires forall i :: 0 <= i < |items| ==> |Encode(items[i])| <= REFERENCE_LIMIT
    ensures |EncodeItems(items)| <= |items| * 14_721 + 1
  {
    if items != [] { ItemsLength(items[1..]); }
  }

  lemma ArrayLength(items: seq<Value>)
    requires forall i :: 0 <= i < |items| ==> |Encode(items[i])| <= REFERENCE_LIMIT
    ensures |Encode(Array(items))| <= |items| * 14_721 + 2
  {
    if items != [] { ItemsLength(items[1..]); }
  }

  // Keys have at most 18 bytes, so a field costs at most 111 bytes beside its value.
  lemma FieldLength(key: Bytes, v: Value)
    requires |key| <= 18
    ensures |EncodeField(Field(key, v))| <= |Encode(v)| + 111
  {
    QuoteLength(key);
  }

  lemma TextField(key: Bytes, s: Bytes, limit: nat)
    requires |key| <= 18 && |s| <= limit
    ensures |EncodeField(Field(key, String(s)))| <= 6 * limit + 113
  {
    FieldLength(key, String(s));
    QuoteLength(s);
  }

  lemma NumberField(key: Bytes, n: nat)
    requires |key| <= 18 && n < U64_LIMIT
    ensures |EncodeField(Field(key, Number(n)))| <= 131
  {
    FieldLength(key, Number(n));
    NumberLength(n);
  }

  // ---------- Structures ----------

  // Sizes are 64-bit in the event type.
  predicate Sized(rs: seq<ArtifactReference>) {
    forall i :: 0 <= i < |rs| && rs[i].size.Some? ==> rs[i].size.value < U64_LIMIT
  }

  // What the fields of an object cost, with their separators.
  function Cost(fs: seq<Field>): nat {
    if fs == [] then 0 else |EncodeField(fs[0])| + 1 + Cost(fs[1..])
  }

  lemma {:induction false} CostJoined(fs: seq<Field>, gs: seq<Field>)
    ensures Cost(fs + gs) == Cost(fs) + Cost(gs)
  {
    if fs == [] {
      assert fs + gs == gs;
    } else {
      assert (fs + gs)[1..] == fs[1..] + gs;
      CostJoined(fs[1..], gs);
    }
  }

  lemma {:induction false} CostOfFields(fs: seq<Field>)
    ensures |EncodeFields(fs)| == Cost(fs) + 1
  {
    if fs != [] { CostOfFields(fs[1..]); }
  }

  lemma CostOfObject(fs: seq<Field>)
    ensures |Encode(Object(fs))| <= Cost(fs) + 2
  {
    if fs != [] { CostOfFields(fs[1..]); }
  }

  lemma OptionalText(key: Bytes, o: Option<Bytes>, limit: nat)
    requires |key| <= 18 && (o.Some? ==> |o.value| <= limit)
    ensures Cost(Optional(key, Text(o))) <= 6 * limit + 114
  {
    if o.Some? { TextField(key, o.value, limit); }
  }

  lemma OptionalNumber(key: Bytes, o: Option<nat>)
    requires |key| <= 18 && (o.Some? ==> o.value < U64_LIMIT)
    ensures Cost(Optional(key, Size(o))) <= 132
  {
    if o.Some? { NumberField(key, o.value); }
  }

  lemma ReferenceLength(r: ArtifactReference)
    requires ValidReference(r) && (r.size.Some? ==> r.size.value < U64_LIMIT)
    ensures |Encode(ReferenceJson(r))| <= REFERENCE_LIMIT
  {
    var digest, mediaType := Optional("digest", Text(r.digest)), Optional("mediaType", Text(r.mediaType));
    var size, uri := Optional("size", Size(r.size)), [Field("uri", String(r.uri))];
    OptionalText("digest", r.digest, 71);
    OptionalText("mediaType", r.mediaType, 255);
    OptionalNumber("size", r.size);
    TextField("uri", r.uri, 2048);
    CostJoined(digest, mediaType);
    CostJoined(digest + mediaType, size);
    CostJoined(digest + mediaType + size, uri);
    CostOfObject(digest + mediaType + size + uri);
  }

  lemma ReferencesLength(rs: seq<ArtifactReference>)
    requires |rs| <= 64 && Sized(rs) && forall i :: 0 <= i < |rs| ==> ValidReference(rs[i])
    ensures |EncodeField(Field("artifactReferences", Array(ReferencesJson(rs))))| <= 942_257
  {
    forall i | 0 <= i < |rs| ensures |Encode(ReferencesJson(rs)[i])| <= REFERENCE_LIMIT { ReferenceLength(rs[i]); }
    ArrayLength(ReferencesJson(rs));
    FieldLength("artifactReferences", Array(ReferencesJson(rs)));
  }

  // A field with a short key and a short text or a 64-bit number.
  predicate Small(f: Field) {
    |f.key| <= 18 &&
    match f.value
    case String(s) => |s| <= 128
    case Number(n) => n < U64_LIMIT
    case _ => false
  }

  lemma {:induction false} SmallCost(fs: seq<Field>)
    requires forall i :: 0 <= i < |fs| ==> Small(fs[i])
    ensures Cost(fs) <= 882 * |fs|
  {
    if fs != [] {
      match fs[0].value {
        case String(s) => TextField(fs[0].key, s, 128);
        case Number(n) => NumberField(fs[0].key, n);
      }
      SmallCost(fs[1..]);
    }
  }

  lemma SmallAfter(v: Value, limit: nat)
    requires v.Object? && v.fields != [] && |EncodeField(v.fields[0])| <= limit
    requires forall i :: 1 <= i < |v.fields| ==> Small(v.fields[i])
    ensures |Encode(v)| <= limit + 882 * |v.fields|
  {
    SmallCost(v.fields[1..]);
    CostOfObject(v.fields);
  }

  // The lengths of the texts that the store itself supplies.
  ghost predicate Bounded(l: Library) {
    && |l.keyId| <= 128 && |l.loggerId| <= 128
    && forall b :: |l.sign(b)| <= 128
  }

  predicate ShortBody(b: EntryBody) {
    && |b.logId| <= 128 && |b.committedAt| <= 128 && |b.previousHash| <= 128 && |b.producerId| <= 128
    && |b.eventId| <= 128 && |b.eventType| <= 128 && |b.payloadDigest| <= 128
    && b.sequence < U64_LIMIT
  }

  predicate ShortEvent(a: AcceptedEvent) {
    && |a.event.eventId| <= 128 && |a.event.eventType| <= 128 && |a.event.payloadDigest| <= 128
    && |a.producerId| <= 128 && |a.event.sessionId| <= 128
  }

  lemma AcceptedSmall(a: AcceptedEvent, fs: seq<Field>)
    requires ShortEvent(a) && fs == AcceptedJson(a).fields
    ensures |fs| == 6 && fs[0] == Field("artifactReferences", Array(ReferencesJson(a.event.references)))
    ensures forall i :: 1 <= i < 6 ==> Small(fs[i])
  {
  }

  lemma EntrySmall(e: Entry, fs: seq<Field>)
    requires ShortBody(e.body) && |e.entryHash| <= 128 && fs == EntryJson(e).fields
    ensures |fs| == 10 && fs[0] == Field("artifactReferences", Array(ReferencesJson(e.body.references)))
    ensures forall i :: 1 <= i < 10 ==> Small(fs[i])
  {
  }

  // An object of references and small fields.
  lemma WithReferences(v: Value, rs: seq<ArtifactReference>)
    requires v.Object? && 0 < |v.fields| <= 10 && v.fields[0] == Field("artifactReferences", Array(ReferencesJson(rs)))
    requires forall i :: 1 <= i < |v.fields| ==> Small(v.fields[i])
    requires |rs| <= 64 && Sized(rs) && forall i :: 0 <= i < |rs| ==> ValidReference(rs[i])
    ensures |Encode(v)| <= 951_077
  {
    ReferencesLength(rs);
    SmallAfter(v, 942_257);
  }

  lemma SignatureLength(s: Signature, v: Value)
    requires |s.algorithm| <= 128 && |s.keyId| <= 128 && |s.signature| <= 128 && v == SignatureJson(s)
    ensures |EncodeField(Field("loggerSignature", v))| <= 2_759
  {
    SmallCost(v.fields);
    CostOfObject(v.fields);
    FieldLength("loggerSignature", v);
  }

  predicate ShortCheckpoint(p: CheckpointBody) {
    && |p.apiVersion| <= 128 && |p.checkpointId| <= 128 && |p.createdAt| <= 128 && |p.entryHash| <= 128
    && |p.kind| <= 128 && |p.logId| <= 128 && |p.loggerIdentity| <= 128 && p.sequence < U64_LIMIT
  }

  lemma CheckpointSmall(p: Checkpoint, fs: seq<Field>)
    requires ShortCheckpoint(p.body) && fs == CheckpointJson(p).fields
    ensures |fs| == 9 && fs[7] == Field("loggerSignature", SignatureJson(p.signature))
    ensures forall i :: 0 <= i < 9 && i != 7 ==> Small(fs[i])
  {
  }

  lemma SmallAround(v: Value, limit: nat)
    requires v.Object? && |v.fields| == 9 && |EncodeField(v.fields[7])| <= limit
    requires forall i :: 0 <= i < 9 && i != 7 ==> Small(v.fields[i])
    ensures |Encode(v)| <= limit + 882 * 9
  {
    var fs := v.fields;
    SmallCost(fs[..7]);
    SmallCost(fs[8..]);
    CostJoined(fs[..7], [fs[7]]);
    CostJoined(fs[..7] + [fs[7]], fs[8..]);
    assert fs == fs[..7] + [fs[7]] + fs[8..];
    CostOfObject(fs);
  }

  lemma ThreeParts(first: seq<Field>, middle: seq<Field>, last: seq<Field>)
    ensures |Encode(Object(first + middle + last))| <= Cost(first) + Cost(middle) + Cost(last) + 2
  {
    CostJoined(first, middle);
    CostJoined(first + middle, last);
    CostOfObject(first + middle + last);
  }

  lemma OptionalLarge(key: Bytes, o: Option<Value>, limit: nat)
    requires |key| <= 18 && (o.Some? ==> |Encode(o.value)| <= limit)
    ensures Cost(Optional(key, o)) <= limit + 112
  {
    if o.Some? { FieldLength(key, o.value); }
  }

  lemma CostOfTwo(a: Field, b: Field)
    ensures Cost([a, b]) == |EncodeField(a)| + |EncodeField(b)| + 2
  {
    CostJoined([a], [b]);
    assert [a, b] == [a] + [b];
  }

  lemma CostOfThree(a: Field, b: Field, c: Field)
    ensures Cost([a, b, c]) == |EncodeField(a)| + |EncodeField(b)| + |EncodeField(c)| + 3
  {
    CostOfTwo(a, b);
    CostJoined([a, b], [c]);
    assert [a, b, c] == [a, b] + [c];
  }

  lemma TwoAndThree(a: Field, b: Field, middle: seq<Field>, d: Field, e: Field, f: Field)
    ensures |Encode(Object([a, b] + middle + [d, e, f]))| <= |EncodeField(a)| + |EncodeField(b)| + Cost(middle)
      + |EncodeField(d)| + |EncodeField(e)| + |EncodeField(f)| + 7
  {
    CostOfTwo(a, b);
    CostOfThree(d, e, f);
    ThreeParts([a, b], middle, [d, e, f]);
  }

  lemma RecordFieldsLength(accepted: Value, apiVersion: Bytes, checkpoint: Option<Value>, entry: Value,
                           kind: Bytes, requestDigest: Bytes)
    requires |apiVersion| <= 128 && |kind| <= 128 && |requestDigest| <= 128
    requires |Encode(accepted)| <= 951_077 && |Encode(entry)| <= 951_077
    requires checkpoint.Some? ==> |Encode(checkpoint.value)| <= 11_000
    ensures |Encode(Object(RecordFields(accepted, apiVersion, checkpoint, entry, kind, requestDigest)))| <= 1_918_000
  {
    FieldLength("acceptedEvent", accepted);
    FieldLength("entry", entry);
    TextField("apiVersion", apiVersion, 128);
    TextField("kind", kind, 128);
    TextField("requestDigest", requestDigest, 128);
    OptionalLarge("checkpoint", checkpoint, 11_000);
    TwoAndThree(Field("acceptedEvent", accepted), Field("apiVersion", String(apiVersion)),
      Optional("checkpoint", checkpoint),
      Field("entry", entry), Field("kind", String(kind)), Field("requestDigest", String(requestDigest)));
  }

  // ---------- The record of an append ----------

  lemma ValidLengths(a: AcceptedEvent)
    requires ValidEvent(a.event) && ValidIdentifier(a.producerId)
    ensures ShortEvent(a)
  {
  }

  lemma AcceptedLength(a: AcceptedEvent, v: Value)
    requires ValidEvent(a.event) && ShortEvent(a) && Sized(a.event.references) && v == AcceptedJson(a)
    ensures |Encode(v)| <= 951_077
  {
    AcceptedSmall(a, v.fields);
    WithReferences(v, a.event.references);
  }

  lemma EntryLength(e: Entry, v: Value)
    requires ShortBody(e.body) && |e.entryHash| <= 128 && v == EntryJson(e)
    requires |e.body.references| <= 64 && Sized(e.body.references)
    requires forall i :: 0 <= i < |e.body.references| ==> ValidReference(e.body.references[i])
    ensures |Encode(v)| <= 951_077
  {
    EntrySmall(e, v.fields);
    WithReferences(v, e.body.references);
  }

  lemma CheckpointLength(p: Checkpoint, v: Value)
    requires ShortCheckpoint(p.body) && v == CheckpointJson(p)
    requires |p.signature.algorithm| <= 128 && |p.signature.keyId| <= 128 && |p.signature.signature| <= 128
    ensures |Encode(v)| <= 11_000
  {
    CheckpointSmall(p, v.fields);
    SignatureLength(p.signature, SignatureJson(p.signature));
    SmallAround(v, 2_759);
  }

  ghost predicate ShortRecord(r: LedgerRecord) {
    && ValidEvent(r.accepted.event) && ShortEvent(r.accepted) && Sized(r.accepted.event.references)
    && r.entry.body.references == r.accepted.event.references
    && ShortBody(r.entry.body) && |r.entry.entryHash| <= 128
    && |r.apiVersion| <= 128 && |r.kind| <= 128 && |r.requestDigest| <= 128
    && (r.checkpoint.Some? ==>
          && ShortCheckpoint(r.checkpoint.value.body)
          && |r.checkpoint.value.signature.algorithm| <= 128
          && |r.checkpoint.value.signature.keyId| <= 128
          && |r.checkpoint.value.signature.signature| <= 128)
  }

  lemma RecordLength(r: LedgerRecord, accepted: Value, entry: Value, checkpoint: Option<Value>)
    requires ShortRecord(r) && accepted == AcceptedJson(r.accepted) && entry == EntryJson(r.entry)
    requires checkpoint == OptionalCheckpoint(r.checkpoint)
    ensures |RecordBytes(r)| <= 1_918_000
  {
    RecordCanonical(r);
    AcceptedLength(r.accepted, accepted);
    EntryLength(r.entry, entry);
    if r.checkpoint.Some? { CheckpointLength(r.checkpoint.value, checkpoint.value); }
    RecordFieldsLength(accepted, r.apiVersion, checkpoint, entry, r.kind, r.requestDigest);
  }

  lemma HashLength(l: Library, st: LedgerState, log: Bytes)
    requires LogOk(ContextOf(l), st, log)
    ensures |HeadHash(st, log)| == 71
  {
    HeadIsLast(ContextOf(l), st, log);
    var es := EntriesOf(st, log);
    if es != [] {
      var b := es[|es| - 1].body;
      assert es[|es| - 1].entryHash == ContextOf(l).entryHash(b) == Digest(l, BodyBytes(b));
    }
  }

  lemma NextEntryShort(l: Library, st: LedgerState, a: AcceptedEvent, now: Bytes)
    requires ShortEvent(a) && |now| <= 128
    requires NextSequence(st, a.event.sessionId) < U64_LIMIT && |HeadHash(st, a.event.sessionId)| == 71
    ensures var e := NextEntry(ContextOf(l), st, a, now); ShortBody(e.body) && |e.entryHash| == 71
  {
  }

  lemma SignatureShort(l: Library, b: CheckpointBody)
    requires Bounded(l)
    ensures var s := SignBody(l, b); |s.algorithm| <= 128 && |s.keyId| <= 128 && |s.signature| <= 128
  {
  }

  lemma NameShort(l: Library, e: Entry)
    ensures |CheckpointName(l, e)| <= 128
  {
  }

  lemma CheckpointShape(l: Library, e: Entry, p: Checkpoint)
    requires p == CreateCheckpoint(ContextOf(l), e)
    ensures p.body == CheckpointBody(API_VERSION, CHECKPOINT_KIND, CheckpointName(l, e), e.body.logId, e.body.sequence,
      e.entryHash, e.body.committedAt, l.loggerId)
    ensures p.signature == SignBody(l, p.body)
  {
  }

  lemma CheckpointShort(l: Library, e: Entry, p: Checkpoint)
    requires Bounded(l) && ShortBody(e.body) && |e.entryHash| == 71 && p == CreateCheckpoint(ContextOf(l), e)
    ensures ShortCheckpoint(p.body)
    ensures |p.signature.algorithm| <= 128 && |p.signature.keyId| <= 128 && |p.signature.signature| <= 128
  {
    NameShort(l, e);
    CheckpointShape(l, e, p);
    SignatureShort(l, p.body);
  }

  /** Whatever valid event arrives, its record stays below the limit: the size rejection of an append
      is unreachable, and replay's line limit admits the record. */
  lemma RecordFits(l: Library, u: Setup, st: LedgerState, a: AcceptedEvent, now: Bytes)
    requires u.context == ContextOf(l) && Bounded(l) && LogOk(u.context, st, a.event.sessionId)
    requires ValidEvent(a.event) && ValidIdentifier(a.producerId) && Sized(a.event.references)
    requires |now| <= 128 && NextSequence(st, a.event.sessionId) < U64_LIMIT
    ensures |u.context.encode(NextRecord(u, st, a, now))| < MAX_RECORD_BYTES
  {
    var r := NextRecord(u, st, a, now);
    ValidLengths(a);
    HashLength(l, st, a.event.sessionId);
    NextEntryShort(l, st, a, now);
    CheckpointShort(l, r.entry, CreateCheckpoint(u.context, r.entry));
    RecordLength(r, AcceptedJson(a), EntryJson(r.entry), OptionalCheckpoint(r.checkpoint));
  }
}
