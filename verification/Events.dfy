/** Events, chain entries, checkpoints and ledger records: validation and JSON form. */
module Events {
  import opened Wrappers
  import opened Json
  import opened Canonical
  import opened Order

  datatype ArtifactReference = ArtifactReference(
    uri: Bytes, digest: Option<Bytes>, size: Option<nat>, mediaType: Option<Bytes>)

  datatype Event = Event(
    eventId: Bytes, sessionId: Bytes, eventType: Bytes, payloadDigest: Bytes, references: seq<ArtifactReference>)

  datatype AcceptedEvent = AcceptedEvent(event: Event, producerId: Bytes)

  datatype EntryBody = EntryBody(
    logId: Bytes, sequence: nat, previousHash: Bytes, committedAt: Bytes, producerId: Bytes,
    eventId: Bytes, eventType: Bytes, payloadDigest: Bytes, references: seq<ArtifactReference>)

  datatype Entry = Entry(body: EntryBody, entryHash: Bytes)

  datatype Signature = Signature(algorithm: Bytes, keyId: Bytes, signature: Bytes)

  datatype CheckpointBody = CheckpointBody(
    apiVersion: Bytes, kind: Bytes, checkpointId: Bytes, logId: Bytes, sequence: nat,
    entryHash: Bytes, createdAt: Bytes, loggerIdentity: Bytes)

  datatype Checkpoint = Checkpoint(body: CheckpointBody, signature: Signature)

  datatype LedgerRecord = LedgerRecord(
    apiVersion: Bytes, kind: Bytes, requestDigest: Bytes, accepted: AcceptedEvent,
    entry: Entry, checkpoint: Option<Checkpoint>)

  // ---------- Validation ----------

  predicate IsUpper(c: char) { 'A' <= c <= 'Z' }
  predicate IsLower(c: char) { 'a' <= c <= 'z' }
  predicate IsAlphanumeric(c: char) { IsUpper(c) || IsLower(c) || IsDigit(c) }

  predicate ValidIdentifier(s: Bytes) {
    && 0 < |s| <= 128
    && forall i :: 0 <= i < |s| ==> IsAlphanumeric(s[i]) || (i > 0 && s[i] in "._:-")
  }

  predicate ValidDigest(s: Bytes) {
    && "sha256:" <= s && |s| == 71
    && forall i :: 7 <= i < |s| ==> IsDigit(s[i]) || 'a' <= s[i] <= 'f'
  }

  predicate Separator(c: char) { c == '.' || c == '_' || c == '-' }

  function Separators(s: Bytes): nat {
    if s == "" then 0 else Separators(s[..|s| - 1]) + if Separator(s[|s| - 1]) then 1 else 0
  }

  // At most 16 non-empty lower-case segments, joined by single separators and
  // starting with a letter.
  predicate ValidEventType(s: Bytes) {
    && 0 < |s| <= 128 && IsLower(s[0])
    && (forall i :: 0 <= i < |s| ==> IsLower(s[i]) || IsDigit(s[i]) || Separator(s[i]))
    && (forall i :: 0 < i < |s| ==> !(Separator(s[i - 1]) && Separator(s[i])))
    && !Separator(s[|s| - 1])
    && Separators(s) < 16
  }

  /** The scan over the characters decides exactly the segment grammar. */
  method CheckEventType(s: Bytes) returns (ok: bool)
    ensures ok <==> ValidEventType(s)
  {
    if s == "" || |s| > 128 || !IsLower(s[0]) {
      return false;
    }
    var segments := 1;
    var previousSeparator := false;
    for i := 0 to |s|
      invariant segments == 1 + Separators(s[..i])
      invariant previousSeparator == (i > 0 && Separator(s[i - 1]))
      invariant forall j :: 0 <= j < i ==> IsLower(s[j]) || IsDigit(s[j]) || Separator(s[j])
      invariant forall j :: 0 < j < i ==> !(Separator(s[j - 1]) && Separator(s[j]))
    {
      assert s[..i + 1][..i] == s[..i];
      if Separator(s[i]) {
        if previousSeparator {
          return false;
        }
        previousSeparator := true;
        segments := segments + 1;
      } else if IsLower(s[i]) || IsDigit(s[i]) {
        previousSeparator := false;
      } else {
        return false;
      }
    }
    assert s[..|s|] == s;
    return !previousSeparator && segments <= 16;
  }

  predicate ValidReference(r: ArtifactReference) {
    && 0 < |r.uri| <= 2048
    && (forall i :: 0 <= i < |r.uri| ==> r.uri[i] !in "\r\n?#")
    && (r.digest.Some? ==> ValidDigest(r.digest.value))
    && (r.mediaType.Some? ==> 0 < |r.mediaType.value| <= 255)
  }

  predicate ValidEvent(e: Event) {
    && ValidIdentifier(e.eventId)
    && ValidIdentifier(e.sessionId)
    && ValidEventType(e.eventType)
    && ValidDigest(e.payloadDigest)
    && |e.references| <= 64
    && forall i :: 0 <= i < |e.references| ==> ValidReference(e.references[i])
  }

  // ---------- JSON form ----------
  // Field names are camelCase, absent options are left out, flattened structs
  // contribute their fields. The serializer's map keeps keys sorted.

  function Optional(key: Bytes, o: Option<Value>): seq<Field> {
    match o case None => [] case Some(v) => [Field(key, v)]
  }

  function Text(o: Option<Bytes>): Option<Value> {
    match o case None => None case Some(s) => Some(String(s))
  }

  function Size(o: Option<nat>): Option<Value> {
    match o case None => None case Some(n) => Some(Number(n))
  }

  function ReferenceFields(r: ArtifactReference): seq<Field> {
    Optional("digest", Text(r.digest)) + Optional("mediaType", Text(r.mediaType))
    + Optional("size", Size(r.size)) + [Field("uri", String(r.uri))]
  }

  function ReferenceJson(r: ArtifactReference): Value {
    Object(ReferenceFields(r))
  }

  function ReferencesJson(rs: seq<ArtifactReference>): (v: seq<Value>)
    ensures |v| == |rs| && forall i :: 0 <= i < |rs| ==> v[i] == ReferenceJson(rs[i])
  {
    if rs == [] then [] else [ReferenceJson(rs[0])] + ReferencesJson(rs[1..])
  }

  function AcceptedJson(a: AcceptedEvent): Value {
    Object([
      Field("artifactReferences", Array(ReferencesJson(a.event.references))),
      Field("eventId", String(a.event.eventId)),
      Field("eventType", String(a.event.eventType)),
      Field("payloadDigest", String(a.event.payloadDigest)),
      Field("producerId", String(a.producerId)),
      Field("sessionId", String(a.event.sessionId))])
  }

  function BodyJson(b: EntryBody): Value {
    Object([
      Field("artifactReferences", Array(ReferencesJson(b.references))),
      Field("committedAt", String(b.committedAt)),
      Field("eventId", String(b.eventId)),
      Field("eventType", String(b.eventType)),
      Field("logId", String(b.logId)),
      Field("payloadDigest", String(b.payloadDigest)),
      Field("previousHash", String(b.previousHash)),
      Field("producerId", String(b.producerId)),
      Field("sequence", Number(b.sequence))])
  }

  function EntryJson(e: Entry): Value {
    Object([
      Field("artifactReferences", Array(ReferencesJson(e.body.references))),
      Field("committedAt", String(e.body.committedAt)),
      Field("entryHash", String(e.entryHash)),
      Field("eventId", String(e.body.eventId)),
      Field("eventType", String(e.body.eventType)),
      Field("logId", String(e.body.logId)),
      Field("payloadDigest", String(e.body.payloadDigest)),
      Field("previousHash", String(e.body.previousHash)),
      Field("producerId", String(e.body.producerId)),
      Field("sequence", Number(e.body.sequence))])
  }

  function SignatureJson(s: Signature): Value {
    Object([
      Field("algorithm", String(s.algorithm)),
      Field("keyId", String(s.keyId)),
      Field("signature", String(s.signature))])
  }

  function CheckpointBodyJson(b: CheckpointBody): Value {
    Object([
      Field("apiVersion", String(b.apiVersion)),
      Field("checkpointId", String(b.checkpointId)),
      Field("createdAt", String(b.createdAt)),
      Field("entryHash", String(b.entryHash)),
      Field("kind", String(b.kind)),
      Field("logId", String(b.logId)),
      Field("loggerIdentity", String(b.loggerIdentity)),
      Field("sequence", Number(b.sequence))])
  }

  function CheckpointJson(c: Checkpoint): Value {
    Object([
      Field("apiVersion", String(c.body.apiVersion)),
      Field("checkpointId", String(c.body.checkpointId)),
      Field("createdAt", String(c.body.createdAt)),
      Field("entryHash", String(c.body.entryHash)),
      Field("kind", String(c.body.kind)),
      Field("logId", String(c.body.logId)),
      Field("loggerIdentity", String(c.body.loggerIdentity)),
      Field("loggerSignature", SignatureJson(c.signature)),
      Field("sequence", Number(c.body.sequence))])
  }

  function RecordFields(accepted: Value, apiVersion: Bytes, checkpoint: Option<Value>, entry: Value,
                        kind: Bytes, requestDigest: Bytes): seq<Field> {
    [Field("acceptedEvent", accepted), Field("apiVersion", String(apiVersion))]
    + Optional("checkpoint", checkpoint)
    + [Field("entry", entry), Field("kind", String(kind)), Field("requestDigest", String(requestDigest))]
  }

  function OptionalCheckpoint(o: Option<Checkpoint>): Option<Value> {
    match o case None => None case Some(c) => Some(CheckpointJson(c))
  }

  function RecordJson(r: LedgerRecord): Value {
    Object(RecordFields(AcceptedJson(r.accepted), r.apiVersion, OptionalCheckpoint(r.checkpoint),
      EntryJson(r.entry), r.kind, r.requestDigest))
  }

  function AcceptedBytes(a: AcceptedEvent): Bytes { CanonicalBytes(AcceptedJson(a)) }
  function BodyBytes(b: EntryBody): Bytes { CanonicalBytes(BodyJson(b)) }
  function EntryBytes(e: Entry): Bytes { CanonicalBytes(EntryJson(e)) }
  function CheckpointBodyBytes(b: CheckpointBody): Bytes { CanonicalBytes(CheckpointBodyJson(b)) }
  function RecordBytes(r: LedgerRecord): Bytes { CanonicalBytes(RecordJson(r)) }

  // ---------- Reading a record back ----------

  function StringAt(fs: seq<Field>, i: nat, key: Bytes): Option<Bytes> {
    if i < |fs| && fs[i].key == key && fs[i].value.String? then Some(fs[i].value.text) else None
  }

  function NumberAt(fs: seq<Field>, i: nat, key: Bytes): Option<nat> {
    if i < |fs| && fs[i].key == key && fs[i].value.Number? then Some(fs[i].value.n) else None
  }

  function DecodeReference(v: Value): Option<ArtifactReference> {
    if !v.Object? then None
    else
      var fs := v.fields;
      var digest := StringAt(fs, 0, "digest");
      var i := if digest.Some? then 1 else 0;
      var mediaType := StringAt(fs, i, "mediaType");
      var j := if mediaType.Some? then i + 1 else i;
      var size := NumberAt(fs, j, "size");
      var k := if size.Some? then j + 1 else j;
      match StringAt(fs, k, "uri")
      case None => None
      case Some(uri) => Some(ArtifactReference(uri, digest, size, mediaType))
  }

  function DecodeReferences(vs: seq<Value>): Option<seq<ArtifactReference>> {
    if vs == [] then Some([])
    else match (DecodeReference(vs[0]), DecodeReferences(vs[1..]))
      case (Some(r), Some(rs)) => Some([r] + rs)
      case _ => None
  }

  function ReferencesAt(fs: seq<Field>): Option<seq<ArtifactReference>> {
    if |fs| > 0 && fs[0].key == "artifactReferences" && fs[0].value.Array?
    then DecodeReferences(fs[0].value.items) else None
  }

  function DecodeAccepted(v: Value): Option<AcceptedEvent> {
    if !v.Object? then None
    else
      var fs := v.fields;
      match (ReferencesAt(fs), StringAt(fs, 1, "eventId"), StringAt(fs, 2, "eventType"),
             StringAt(fs, 3, "payloadDigest"), StringAt(fs, 4, "producerId"), StringAt(fs, 5, "sessionId"))
      case (Some(refs), Some(eventId), Some(eventType), Some(digest), Some(producer), Some(session)) =>
        Some(AcceptedEvent(Event(eventId, session, eventType, digest, refs), producer))
      case _ => None
  }

  function DecodeBody(v: Value): Option<EntryBody> {
    if !v.Object? then None
    else
      var fs := v.fields;
      match (ReferencesAt(fs), StringAt(fs, 1, "committedAt"), StringAt(fs, 2, "eventId"), StringAt(fs, 3, "eventType"),
             StringAt(fs, 4, "logId"), StringAt(fs, 5, "payloadDigest"), StringAt(fs, 6, "previousHash"),
             StringAt(fs, 7, "producerId"), NumberAt(fs, 8, "sequence"))
      case (Some(refs), Some(at), Some(eventId), Some(eventType), Some(logId), Some(digest), Some(previous),
        Some(producer), Some(sequence)) =>
        Some(EntryBody(logId, sequence, previous, at, producer, eventId, eventType, digest, refs))
      case _ => None
  }

  function DecodeEntry(v: Value): Option<Entry> {
    if !v.Object? || |v.fields| < 3 then None
    else
      match (DecodeBody(Object(v.fields[..2] + v.fields[3..])), StringAt(v.fields, 2, "entryHash"))
      case (Some(body), Some(hash)) => Some(Entry(body, hash))
      case _ => None
  }

  function DecodeSignature(v: Value): Option<Signature> {
    if !v.Object? then None
    else
      var fs := v.fields;
      match (StringAt(fs, 0, "algorithm"), StringAt(fs, 1, "keyId"), StringAt(fs, 2, "signature"))
      case (Some(algorithm), Some(keyId), Some(signature)) => Some(Signature(algorithm, keyId, signature))
      case _ => None
  }

  function DecodeCheckpointBody(v: Value): Option<CheckpointBody> {
    if !v.Object? then None
    else
      var fs := v.fields;
      match (StringAt(fs, 0, "apiVersion"), StringAt(fs, 1, "checkpointId"), StringAt(fs, 2, "createdAt"),
             StringAt(fs, 3, "entryHash"), StringAt(fs, 4, "kind"), StringAt(fs, 5, "logId"),
             StringAt(fs, 6, "loggerIdentity"), NumberAt(fs, 7, "sequence"))
      case (Some(version), Some(id), Some(at), Some(hash), Some(kind), Some(logId), Some(identity), Some(sequence)) =>
        Some(CheckpointBody(version, kind, id, logId, sequence, hash, at, identity))
      case _ => None
  }

  function DecodeCheckpoint(v: Value): Option<Checkpoint> {
    if !v.Object? || |v.fields| < 8 || v.fields[7].key != "loggerSignature" then None
    else
      match (DecodeCheckpointBody(Object(v.fields[..7] + v.fields[8..])), DecodeSignature(v.fields[7].value))
      case (Some(body), Some(signature)) => Some(Checkpoint(body, signature))
      case _ => None
  }

  function DecodeRecord(v: Value): Option<LedgerRecord> {
    if !v.Object? || |v.fields| < 5 || v.fields[0].key != "acceptedEvent" then None
    else
      var fs := v.fields;
      var i := if fs[2].key == "checkpoint" then 3 else 2;
      var checkpoint := if i == 3 then DecodeCheckpoint(fs[2].value) else None;
      if (i == 3 && checkpoint.None?) || fs[i].key != "entry" then None
      else
        match (DecodeAccepted(fs[0].value), StringAt(fs, 1, "apiVersion"), DecodeEntry(fs[i].value),
               StringAt(fs, i + 1, "kind"), StringAt(fs, i + 2, "requestDigest"))
        case (Some(accepted), Some(version), Some(entry), Some(kind), Some(digest)) =>
          Some(LedgerRecord(version, kind, digest, accepted, entry, checkpoint))
        case _ => None
  }

  // ---------- Every structure is read back from its JSON form ----------

  lemma ReferenceDecodes(r: ArtifactReference)
    ensures DecodeReference(ReferenceJson(r)) == Some(r)
  {
  }

  lemma {:induction false} ReferencesDecode(rs: seq<ArtifactReference>)
    ensures DecodeReferences(ReferencesJson(rs)) == Some(rs)
  {
    if rs != [] {
      ReferenceDecodes(rs[0]);
      ReferencesDecode(rs[1..]);
      assert ReferencesJson(rs)[1..] == ReferencesJson(rs[1..]);
      assert [rs[0]] + rs[1..] == rs;
    }
  }

  lemma AcceptedDecodes(a: AcceptedEvent)
    ensures DecodeAccepted(AcceptedJson(a)) == Some(a)
  {
    ReferencesDecode(a.event.references);
  }

  lemma BodyDecodes(b: EntryBody)
    ensures DecodeBody(BodyJson(b)) == Some(b)
  {
    ReferencesDecode(b.references);
  }

  lemma EntryDecodes(e: Entry)
    ensures DecodeEntry(EntryJson(e)) == Some(e)
  {
    BodyDecodes(e.body);
    var fs := EntryJson(e).fields;
    assert fs[..2] + fs[3..] == BodyJson(e.body).fields;
  }

  lemma CheckpointBodyDecodes(b: CheckpointBody)
    ensures DecodeCheckpointBody(CheckpointBodyJson(b)) == Some(b)
  {
  }

  lemma CheckpointDecodes(c: Checkpoint)
    ensures DecodeCheckpoint(CheckpointJson(c)) == Some(c)
  {
    var fs := CheckpointJson(c).fields;
    assert fs[..7] + fs[8..] == CheckpointBodyJson(c.body).fields;
  }

  lemma RecordShape(fs: seq<Field>, i: nat, r: LedgerRecord)
    requires i == 2 || i == 3
    requires |fs| == i + 3 && fs[2].key == (if i == 3 then "checkpoint" else "entry")
    requires fs[0].key == "acceptedEvent" && DecodeAccepted(fs[0].value) == Some(r.accepted)
    requires fs[1] == Field("apiVersion", String(r.apiVersion))
    requires i == 2 ==> r.checkpoint.None?
    requires i == 3 ==> r.checkpoint.Some? && DecodeCheckpoint(fs[2].value) == r.checkpoint
    requires fs[i].key == "entry" && DecodeEntry(fs[i].value) == Some(r.entry)
    requires fs[i + 1] == Field("kind", String(r.kind))
    requires fs[i + 2] == Field("requestDigest", String(r.requestDigest))
    ensures DecodeRecord(Object(fs)) == Some(r)
  {
  }

  lemma RecordDecodes(r: LedgerRecord)
    ensures DecodeRecord(RecordJson(r)) == Some(r)
  {
    AcceptedDecodes(r.accepted);
    EntryDecodes(r.entry);
    var fs := RecordJson(r).fields;
    if r.checkpoint.Some? {
      CheckpointDecodes(r.checkpoint.value);
      RecordShape(fs, 3, r);
    } else {
      RecordShape(fs, 2, r);
    }
  }

  // ---------- The JSON forms are already canonical ----------

  lemma FieldsCanonical(fs: seq<Field>, keys: seq<Bytes>)
    requires |fs| == |keys| && forall i :: 0 <= i < |fs| ==> fs[i].key == keys[i] && IsCanonical(fs[i].value)
    requires Ascending(keys)
    ensures IsCanonical(Object(fs))
  {
    forall i, j | 0 <= i < j < |fs| ensures Less(fs[i].key, fs[j].key) { AscendingSorted(keys, i, j); }
  }

  lemma ReferenceCanonical(r: ArtifactReference)
    ensures IsCanonical(ReferenceJson(r))
  {
    LessAt("digest", "mediaType", 0); LessAt("digest", "size", 0); LessAt("digest", "uri", 0);
    LessAt("mediaType", "size", 0); LessAt("mediaType", "uri", 0);
    LessAt("size", "uri", 0);
  }

  lemma ReferencesCanonical(rs: seq<ArtifactReference>)
    ensures IsCanonical(Array(ReferencesJson(rs)))
  {
    forall i | 0 <= i < |rs| ensures IsCanonical(ReferencesJson(rs)[i]) { ReferenceCanonical(rs[i]); }
  }

  lemma EarlyLess()
    ensures Less("artifactReferences", "committedAt")
    ensures Less("committedAt", "entryHash") && Less("committedAt", "eventId")
    ensures Less("entryHash", "eventId") && Less("eventId", "eventType")
  {
    LessAt("artifactReferences", "committedAt", 0);
    LessAt("committedAt", "entryHash", 0);
    LessAt("committedAt", "eventId", 0);
    LessAt("entryHash", "eventId", 1);
    LessAt("eventId", "eventType", 5);
  }

  lemma LateLess()
    ensures Less("eventType", "logId") && Less("logId", "payloadDigest") && Less("payloadDigest", "previousHash")
    ensures Less("previousHash", "producerId") && Less("producerId", "sequence")
  {
    LessAt("eventType", "logId", 0);
    LessAt("logId", "payloadDigest", 0);
    LessAt("payloadDigest", "previousHash", 1);
    LessAt("previousHash", "producerId", 2);
    LessAt("producerId", "sequence", 0);
  }

  lemma IdentityBeforeSignature()
    ensures Less("loggerIdentity", "loggerSignature")
  {
    LessAt("loggerIdentity", "loggerSignature", 6);
  }

  lemma LogBeforeLogger()
    ensures Less("logId", "loggerIdentity")
  {
    LessAt("logId", "loggerIdentity", 3);
  }

  lemma FiveAscend(a: Bytes, b: Bytes, c: Bytes, d: Bytes, e: Bytes)
    requires Less(a, b) && Less(b, c) && Less(c, d) && Less(d, e)
    ensures Ascending([a, b, c, d, e])
  {
  }

  lemma NineAscend(a: Bytes, b: Bytes, c: Bytes, d: Bytes, rest: seq<Bytes>)
    requires Less(a, b) && Less(b, c) && Less(c, d) && |rest| == 5 && Less(d, rest[0]) && Ascending(rest)
    ensures Ascending([a, b, c, d, rest[0], rest[1], rest[2], rest[3], rest[4]])
  {
    AscendingJoin([a, b, c, d], rest);
    assert [a, b, c, d] + rest == [a, b, c, d, rest[0], rest[1], rest[2], rest[3], rest[4]];
  }

  lemma LoggerLess()
    ensures Ascending(["kind", "logId", "loggerIdentity", "loggerSignature", "sequence"])
  {
    LessAt("kind", "logId", 0);
    LogBeforeLogger();
    IdentityBeforeSignature();
    LessAt("loggerSignature", "sequence", 0);
    FiveAscend("kind", "logId", "loggerIdentity", "loggerSignature", "sequence");
  }

  lemma CheckpointLess()
    ensures Less("apiVersion", "checkpointId") && Less("checkpointId", "createdAt") && Less("createdAt", "entryHash")
    ensures Less("entryHash", "kind")
  {
    LessAt("apiVersion", "checkpointId", 0);
    LessAt("checkpointId", "createdAt", 1);
    LessAt("createdAt", "entryHash", 0);
    LessAt("entryHash", "kind", 0);
  }

  lemma AcceptedAscend()
    ensures Ascending(["artifactReferences", "eventId", "eventType", "payloadDigest", "producerId", "sessionId"])
  {
    LessAt("artifactReferences", "eventId", 0);
    LessAt("eventId", "eventType", 5);
    LessAt("eventType", "payloadDigest", 0);
    LessAt("payloadDigest", "producerId", 1);
    LessAt("producerId", "sessionId", 0);
  }

  lemma BodyAscend()
    ensures Ascending(["artifactReferences", "committedAt", "eventId", "eventType", "logId", "payloadDigest",
      "previousHash", "producerId", "sequence"])
  {
    EarlyLess();
    LateLess();
  }

  lemma EntryAscend()
    ensures Ascending(["artifactReferences", "committedAt", "entryHash", "eventId", "eventType", "logId",
      "payloadDigest", "previousHash", "producerId", "sequence"])
  {
    EarlyLess();
    LateLess();
  }

  lemma CheckpointAscend()
    ensures Ascending(["apiVersion", "checkpointId", "createdAt", "entryHash", "kind", "logId", "loggerIdentity",
      "loggerSignature", "sequence"])
  {
    CheckpointLess();
    LoggerLess();
    NineAscend("apiVersion", "checkpointId", "createdAt", "entryHash",
      ["kind", "logId", "loggerIdentity", "loggerSignature", "sequence"]);
  }

  lemma CheckpointBodyAscend()
    ensures Ascending(["apiVersion", "checkpointId", "createdAt", "entryHash", "kind", "logId", "loggerIdentity",
      "sequence"])
  {
    CheckpointLess();
    LessAt("kind", "logId", 0);
    LogBeforeLogger();
    LessAt("loggerIdentity", "sequence", 0);
  }

  lemma RecordAscend()
    ensures Ascending(["acceptedEvent", "apiVersion", "checkpoint", "entry", "kind", "requestDigest"])
  {
    LessAt("acceptedEvent", "apiVersion", 1);
    LessAt("apiVersion", "checkpoint", 0);
    LessAt("checkpoint", "entry", 0);
    LessAt("entry", "kind", 0);
    LessAt("kind", "requestDigest", 0);
  }

  lemma PlainRecordAscend()
    ensures Ascending(["acceptedEvent", "apiVersion", "entry", "kind", "requestDigest"])
  {
    LessAt("acceptedEvent", "apiVersion", 1);
    LessAt("apiVersion", "entry", 0);
    LessAt("entry", "kind", 0);
    LessAt("kind", "requestDigest", 0);
  }

  lemma AcceptedCanonical(a: AcceptedEvent)
    ensures IsCanonical(AcceptedJson(a))
  {
    ReferencesCanonical(a.event.references);
    AcceptedAscend();
    FieldsCanonical(AcceptedJson(a).fields,
      ["artifactReferences", "eventId", "eventType", "payloadDigest", "producerId", "sessionId"]);
  }

  lemma BodyCanonical(b: EntryBody)
    ensures IsCanonical(BodyJson(b))
  {
    ReferencesCanonical(b.references);
    BodyAscend();
    FieldsCanonical(BodyJson(b).fields,
      ["artifactReferences", "committedAt", "eventId", "eventType", "logId", "payloadDigest", "previousHash",
        "producerId", "sequence"]);
  }

  lemma EntryCanonical(e: Entry)
    ensures IsCanonical(EntryJson(e))
  {
    ReferencesCanonical(e.body.references);
    EntryAscend();
    FieldsCanonical(EntryJson(e).fields,
      ["artifactReferences", "committedAt", "entryHash", "eventId", "eventType", "logId", "payloadDigest",
        "previousHash", "producerId", "sequence"]);
  }

  lemma SignatureCanonical(s: Signature)
    ensures IsCanonical(SignatureJson(s))
  {
    LessAt("algorithm", "keyId", 0); LessAt("keyId", "signature", 0); LessAt("algorithm", "signature", 0);
  }

  lemma CheckpointBodyCanonical(b: CheckpointBody)
    ensures IsCanonical(CheckpointBodyJson(b))
  {
    CheckpointBodyAscend();
    FieldsCanonical(CheckpointBodyJson(b).fields,
      ["apiVersion", "checkpointId", "createdAt", "entryHash", "kind", "logId", "loggerIdentity", "sequence"]);
  }

  lemma CheckpointCanonical(c: Checkpoint)
    ensures IsCanonical(CheckpointJson(c))
  {
    SignatureCanonical(c.signature);
    CheckpointAscend();
    FieldsCanonical(CheckpointJson(c).fields,
      ["apiVersion", "checkpointId", "createdAt", "entryHash", "kind", "logId", "loggerIdentity", "loggerSignature",
        "sequence"]);
  }

  lemma RecordCanonical(r: LedgerRecord)
    ensures IsCanonical(RecordJson(r)) && RecordBytes(r) == Encode(RecordJson(r))
  {
    AcceptedCanonical(r.accepted);
    EntryCanonical(r.entry);
    if r.checkpoint.Some? {
      CheckpointCanonical(r.checkpoint.value);
      RecordAscend();
      FieldsCanonical(RecordJson(r).fields,
        ["acceptedEvent", "apiVersion", "checkpoint", "entry", "kind", "requestDigest"]);
    } else {
      PlainRecordAscend();
      FieldsCanonical(RecordJson(r).fields, ["acceptedEvent", "apiVersion", "entry", "kind", "requestDigest"]);
    }
    CanonicalFixed(RecordJson(r));
  }

  // ---------- What the stored bytes determine ----------

  // One ledger line, read as JSON and then as a record.
  function DecodeLine(line: Bytes): Option<LedgerRecord> {
    match Parse(line)
    case None => None
    case Some(v) => DecodeRecord(v)
  }

  /** Every record is read back from the line that stores it. */
  lemma RecordRoundTrip(r: LedgerRecord)
    ensures DecodeLine(RecordBytes(r)) == Some(r)
  {
    RecordCanonical(r);
    RoundTrip(RecordJson(r));
    RecordDecodes(r);
  }

  // Reading a line and insisting that it is the canonical form of what was read.
  function ReadCanonical(decode: Bytes -> Option<LedgerRecord>, line: Bytes): Option<LedgerRecord> {
    match decode(line)
    case None => None
    case Some(r) => if RecordBytes(r) == line then Some(r) else None
  }

  /** A line is accepted exactly when it is the canonical form of a record, whatever else the
      decoder would tolerate: whitespace, key order, unknown fields, other escapes. */
  lemma CanonicalReaders(decode: Bytes -> Option<LedgerRecord>, line: Bytes)
    requires forall r :: decode(RecordBytes(r)) == Some(r)
    ensures ReadCanonical(decode, line).Some? <==> exists r :: RecordBytes(r) == line
    ensures forall r :: RecordBytes(r) == line ==> ReadCanonical(decode, line) == Some(r)
  {
  }

  /** An entry body is determined by the bytes that are hashed. */
  lemma BodyBytesInjective(a: EntryBody, b: EntryBody)
    requires BodyBytes(a) == BodyBytes(b)
    ensures a == b
  {
    BodyCanonical(a); BodyCanonical(b);
    CanonicalFixed(BodyJson(a)); CanonicalFixed(BodyJson(b));
    EncodeInjective(BodyJson(a), BodyJson(b));
    BodyDecodes(a); BodyDecodes(b);
  }

  /** An accepted event is determined by the bytes behind its request digest. */
  lemma AcceptedBytesInjective(a: AcceptedEvent, b: AcceptedEvent)
    requires AcceptedBytes(a) == AcceptedBytes(b)
    ensures a == b
  {
    AcceptedCanonical(a); AcceptedCanonical(b);
    CanonicalFixed(AcceptedJson(a)); CanonicalFixed(AcceptedJson(b));
    EncodeInjective(AcceptedJson(a), AcceptedJson(b));
    AcceptedDecodes(a); AcceptedDecodes(b);
  }

  // Signed bytes, read as JSON and then as a checkpoint body.
  function ReadSigned(text: Bytes): Option<CheckpointBody> {
    match Parse(text)
    case None => None
    case Some(v) => DecodeCheckpointBody(v)
  }

  /** The bytes that are signed say exactly the checkpoint body. */
  lemma SignedRoundTrip(b: CheckpointBody)
    ensures ReadSigned(CheckpointBodyBytes(b)) == Some(b)
  {
    CheckpointBodyCanonical(b);
    CanonicalFixed(CheckpointBodyJson(b));
    RoundTrip(CheckpointBodyJson(b));
    CheckpointBodyDecodes(b);
  }

  // One line of a projection, read as JSON and then as an entry.
  function ReadEntry(line: Bytes): Option<Entry> {
    match Parse(line)
    case None => None
    case Some(v) => DecodeEntry(v)
  }

  /** An entry is read back from the line that publishes it. */
  lemma EntryRoundTrip(e: Entry)
    ensures ReadEntry(EntryBytes(e)) == Some(e) && '\n' !in EntryBytes(e)
  {
    EntryCanonical(e);
    CanonicalFixed(EntryJson(e));
    RoundTrip(EntryJson(e));
    EntryDecodes(e);
    EncodePrintable(EntryJson(e));
  }

  /** Stored lines are never empty and never contain a newline. */
  lemma RecordOneLine(r: LedgerRecord)
    ensures RecordBytes(r) != "" && '\n' !in RecordBytes(r)
  {
    RecordCanonical(r);
    EncodePrintable(RecordJson(r));
    EncodeParses(RecordJson(r), "");
  }
}
