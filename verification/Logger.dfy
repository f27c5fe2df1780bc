/** The ledger as deployed: canonical JSON records, SHA-256 digests, Ed25519 checkpoints. */
module Logger {
  import opened Wrappers
  import opened Json
  import opened Events
  import opened Ledger
  import opened Replay
  import opened Commitment

  // Lower-case hexadecimal text of a 32-byte hash.
  type Hex = s: Bytes | |s| == 64
    witness "0000000000000000000000000000000000000000000000000000000000000000"

  // The cryptographic and calendar libraries, and the identity of the signer.
  datatype Library = Library(
    sha: Bytes -> Hex,
    sign: Bytes -> Bytes,
    verifies: (Bytes, Bytes) -> bool,
    rfc3339: Bytes -> bool,
    keyId: Bytes,
    loggerId: Bytes)

  // The one law of the signature scheme that is used.
  ghost predicate Genuine(l: Library) {
    forall b :: l.verifies(b, l.sign(b))
  }

  function Digest(l: Library, b: Bytes): Bytes {
    "sha256:" + l.sha(b)
  }

  function CheckpointName(l: Library, e: Entry): Bytes {
    "checkpoint-" + l.sha(e.body.logId + ":" + Decimal(e.body.sequence) + ":" + e.entryHash)[..48]
  }

  function SignBody(l: Library, b: CheckpointBody): Signature {
    Signature("Ed25519", l.keyId, l.sign(CheckpointBodyBytes(b)))
  }

  predicate VerifyBody(l: Library, b: CheckpointBody, s: Signature) {
    s.algorithm == "Ed25519" && s.keyId == l.keyId && l.verifies(CheckpointBodyBytes(b), s.signature)
  }

  function ContextOf(l: Library): Context {
    Context(
      RecordBytes, DecodeLine, EntryBytes,
      (a: AcceptedEvent) => Digest(l, AcceptedBytes(a)),
      (b: EntryBody) => Digest(l, BodyBytes(b)),
      (e: Entry) => CheckpointName(l, e),
      (b: CheckpointBody) => SignBody(l, b),
      (b: CheckpointBody, s: Signature) => VerifyBody(l, b, s),
      l.rfc3339, l.loggerId)
  }

  /** The deployed codec and signer obey the laws the ledger is proved from. */
  lemma ContextLawful(l: Library)
    requires Genuine(l)
    ensures Lawful(ContextOf(l))
  {
    forall r ensures ContextOf(l).decode(ContextOf(l).encode(r)) == Some(r) { RecordRoundTrip(r); }
    forall b ensures ContextOf(l).verify(b, ContextOf(l).sign(b)) {
      assert VerifyBody(l, b, SignBody(l, b));
    }
    forall r ensures ContextOf(l).encode(r) != "" && '\n' !in ContextOf(l).encode(r) { RecordOneLine(r); }
  }

  // Two byte strings that the hash does not tell apart.
  ghost predicate HashCollision(l: Library, x: Bytes, y: Bytes) {
    x != y && l.sha(x) == l.sha(y)
  }

  lemma DigestCollision(l: Library, x: Bytes, y: Bytes)
    requires Digest(l, x) == Digest(l, y)
    ensures l.sha(x) == l.sha(y)
  {
    assert Digest(l, x)[7..] == l.sha(x) && Digest(l, y)[7..] == l.sha(y);
  }

  // Two services that hash the same way; their signers may differ.
  ghost predicate SameHash(l: Library, l': Library) {
    forall b :: l.sha(b) == l'.sha(b)
  }

  lemma SameHashContexts(l: Library, l': Library)
    requires SameHash(l, l')
    ensures SameHashes(ContextOf(l), ContextOf(l'))
  {
    var c, d := ContextOf(l), ContextOf(l');
    forall b ensures c.entryHash(b) == d.entryHash(b) { assert l.sha(BodyBytes(b)) == l'.sha(BodyBytes(b)); }
    forall a ensures c.requestDigest(a) == d.requestDigest(a) {
      assert l.sha(AcceptedBytes(a)) == l'.sha(AcceptedBytes(a));
    }
  }

  lemma BodyCollision(l: Library, a: EntryBody, b: EntryBody)
    requires Collide(ContextOf(l), a, b)
    ensures HashCollision(l, BodyBytes(a), BodyBytes(b))
  {
    if BodyBytes(a) == BodyBytes(b) { BodyBytesInjective(a, b); }
    DigestCollision(l, BodyBytes(a), BodyBytes(b));
  }

  /** Two ledger files, possibly of different signers, with the same head hash for a log hold the same
      entries and accepted events for it, or give two byte strings with one SHA-256. */
  lemma HistoryCommitment(l: Library, l': Library, disk: Bytes, disk': Bytes, log: Bytes) returns (x: Bytes, y: Bytes)
    requires Genuine(l) && Genuine(l') && SameHash(l, l')
    requires ReplayFrom(ContextOf(l), EMPTY, disk).Ok? && ReplayFrom(ContextOf(l'), EMPTY, disk').Ok?
    requires var st, st' := ReplayFrom(ContextOf(l), EMPTY, disk).state, ReplayFrom(ContextOf(l'), EMPTY, disk').state;
      log in st.logs && log in st'.logs && st.logs[log].entryHash == st'.logs[log].entryHash
    ensures var st, st' := ReplayFrom(ContextOf(l), EMPTY, disk).state, ReplayFrom(ContextOf(l'), EMPTY, disk').state;
      HashCollision(l, x, y) ||
      (EntriesOf(st, log) == EntriesOf(st', log) && SameHistory(st, st', log, |EntriesOf(st, log)|))
  {
    var c, d := ContextOf(l), ContextOf(l');
    ContextLawful(l);
    ContextLawful(l');
    SameHashContexts(l, l');
    var a, b := HeadCommitment(c, d, disk, disk', log);
    x, y := BodyBytes(a), BodyBytes(b);
    if Collide(c, a, b) {
      BodyCollision(l, a, b);
    } else {
      var st, st' := ReplayFrom(c, EMPTY, disk).state, ReplayFrom(d, EMPTY, disk').state;
      var n := |EntriesOf(st, log)|;
      assert EntriesOf(st, log)[..n] == EntriesOf(st, log) && EntriesOf(st', log)[..n] == EntriesOf(st', log);
    }
  }

  /** Checkpoints of two ledger files that agree on log, sequence and entry hash force the same entries
      and accepted events up to there, or give two byte strings with one SHA-256. */
  lemma PrefixCommitment(l: Library, l': Library, disk: Bytes, disk': Bytes, log: Bytes, p: Checkpoint, q: Checkpoint)
    returns (x: Bytes, y: Bytes)
    requires Genuine(l) && Genuine(l') && SameHash(l, l')
    requires ReplayFrom(ContextOf(l), EMPTY, disk).Ok? && ReplayFrom(ContextOf(l'), EMPTY, disk').Ok?
    requires p in CheckpointsOf(ReplayFrom(ContextOf(l), EMPTY, disk).state, log)
    requires q in CheckpointsOf(ReplayFrom(ContextOf(l'), EMPTY, disk').state, log)
    requires p.body.sequence == q.body.sequence && p.body.entryHash == q.body.entryHash
    ensures var st, st' := ReplayFrom(ContextOf(l), EMPTY, disk).state, ReplayFrom(ContextOf(l'), EMPTY, disk').state;
      HashCollision(l, x, y) || SameHistory(st, st', log, p.body.sequence)
  {
    var c, d := ContextOf(l), ContextOf(l');
    ContextLawful(l);
    ContextLawful(l');
    SameHashContexts(l, l');
    ReplayInvariant(c, disk);
    ReplayInvariant(d, disk');
    var st, st' := ReplayFrom(c, EMPTY, disk).state, ReplayFrom(d, EMPTY, disk').state;
    var a, b := CheckpointCommitment(c, d, st, st', log, p, q);
    x, y := BodyBytes(a), BodyBytes(b);
    if Collide(c, a, b) { BodyCollision(l, a, b); }
  }

  // Two byte strings that one signature vouches for, each under its own service.
  ghost predicate SignatureClash(l: Library, l': Library, signature: Bytes, x: Bytes, y: Bytes) {
    x != y && l.verifies(x, signature) && l'.verifies(y, signature)
  }

  // What replay has checked of a listed checkpoint.
  lemma CheckpointSigned(l: Library, st: LedgerState, log: Bytes, p: Checkpoint)
    requires Invariant(ContextOf(l), st) && p in CheckpointsOf(st, log)
    ensures var n := p.body.sequence;
      && 1 <= n <= |EntriesOf(st, log)|
      && p.body == CheckpointBody("logger.multiagent.dev/v1", "LoggerCheckpoint", p.body.checkpointId, log, n,
           EntriesOf(st, log)[n - 1].entryHash, EntriesOf(st, log)[n - 1].body.committedAt, l.loggerId)
    ensures p.signature.algorithm == "Ed25519" && p.signature.keyId == l.keyId
    ensures l.verifies(CheckpointBodyBytes(p.body), p.signature.signature)
  {
    CheckpointSays(ContextOf(l), st, log, p);
    assert VerifyBody(l, p.body, p.signature);
  }

  /** A checkpoint of a replayed file names its log, the sequence, hash and time of an entry there and this
      service, and its signature over exactly that verifies. */
  lemma ReplayedCheckpoint(l: Library, disk: Bytes, log: Bytes, p: Checkpoint)
    requires Genuine(l) && ReplayFrom(ContextOf(l), EMPTY, disk).Ok?
    requires p in CheckpointsOf(ReplayFrom(ContextOf(l), EMPTY, disk).state, log)
    ensures var es, n := EntriesOf(ReplayFrom(ContextOf(l), EMPTY, disk).state, log), p.body.sequence;
      && 1 <= n <= |es|
      && p.body == CheckpointBody("logger.multiagent.dev/v1", "LoggerCheckpoint", p.body.checkpointId, log, n,
           es[n - 1].entryHash, es[n - 1].body.committedAt, l.loggerId)
    ensures p.signature.algorithm == "Ed25519" && p.signature.keyId == l.keyId
    ensures exists text :: ReadSigned(text) == Some(p.body) && l.verifies(text, p.signature.signature)
  {
    ContextLawful(l);
    ReplayInvariant(ContextOf(l), disk);
    CheckpointSigned(l, ReplayFrom(ContextOf(l), EMPTY, disk).state, log, p);
    SignedRoundTrip(p.body);
  }

  lemma SignedTexts(l: Library, l': Library, st: LedgerState, st': LedgerState, log: Bytes, log': Bytes, p: Checkpoint,
                    q: Checkpoint)
    requires Invariant(ContextOf(l), st) && Invariant(ContextOf(l'), st')
    requires p in CheckpointsOf(st, log) && q in CheckpointsOf(st', log')
    requires p.signature.signature == q.signature.signature
    ensures p.signature.algorithm == "Ed25519" && p.signature.keyId == l.keyId
    ensures (log == log' && p.body == q.body) ||
      SignatureClash(l, l', p.signature.signature, CheckpointBodyBytes(p.body), CheckpointBodyBytes(q.body))
  {
    CheckpointSigned(l, st, log, p);
    CheckpointSigned(l', st', log', q);
    SignedRoundTrip(p.body);
    SignedRoundTrip(q.body);
  }

  /** Two checkpoints of replayed files, in whatever logs, that carry one signature text have one body, or give
      two byte strings that the signature vouches for. */
  lemma SignedCommitment(l: Library, l': Library, disk: Bytes, disk': Bytes, log: Bytes, log': Bytes, p: Checkpoint,
                         q: Checkpoint)
    returns (x: Bytes, y: Bytes)
    requires Genuine(l) && Genuine(l')
    requires ReplayFrom(ContextOf(l), EMPTY, disk).Ok? && ReplayFrom(ContextOf(l'), EMPTY, disk').Ok?
    requires p in CheckpointsOf(ReplayFrom(ContextOf(l), EMPTY, disk).state, log)
    requires q in CheckpointsOf(ReplayFrom(ContextOf(l'), EMPTY, disk').state, log')
    requires p.signature.signature == q.signature.signature
    ensures p.signature.algorithm == "Ed25519" && p.signature.keyId == l.keyId
    ensures SignatureClash(l, l', p.signature.signature, x, y) || (log == log' && p.body == q.body)
  {
    ContextLawful(l);
    ContextLawful(l');
    ReplayInvariant(ContextOf(l), disk);
    ReplayInvariant(ContextOf(l'), disk');
    var st, st' := ReplayFrom(ContextOf(l), EMPTY, disk).state, ReplayFrom(ContextOf(l'), EMPTY, disk').state;
    x, y := CheckpointBodyBytes(p.body), CheckpointBodyBytes(q.body);
    SignedTexts(l, l', st, st', log, log', p, q);
  }

  /** So a shared signature forces the same entries and accepted events up to the checkpoint, or gives two byte
      strings with one SHA-256 or with one signature. */
  lemma SignedPrefix(l: Library, l': Library, disk: Bytes, disk': Bytes, log: Bytes, log': Bytes, p: Checkpoint,
                     q: Checkpoint)
    returns (x: Bytes, y: Bytes)
    requires Genuine(l) && Genuine(l') && SameHash(l, l')
    requires ReplayFrom(ContextOf(l), EMPTY, disk).Ok? && ReplayFrom(ContextOf(l'), EMPTY, disk').Ok?
    requires p in CheckpointsOf(ReplayFrom(ContextOf(l), EMPTY, disk).state, log)
    requires q in CheckpointsOf(ReplayFrom(ContextOf(l'), EMPTY, disk').state, log')
    requires p.signature.signature == q.signature.signature
    ensures var st, st' := ReplayFrom(ContextOf(l), EMPTY, disk).state, ReplayFrom(ContextOf(l'), EMPTY, disk').state;
      || SignatureClash(l, l', p.signature.signature, x, y)
      || HashCollision(l, x, y)
      || (log == log' && SameHistory(st, st', log, p.body.sequence))
  {
    x, y := SignedCommitment(l, l', disk, disk', log, log', p, q);
    if !SignatureClash(l, l', p.signature.signature, x, y) {
      x, y := PrefixCommitment(l, l', disk, disk', log, p, q);
    }
  }

  /** Different content under a known event id is answered Conflict, unless it collides with the
      committed content under SHA-256. */
  lemma DifferentContent(l: Library, a: AcceptedEvent, b: AcceptedEvent)
    requires a != b
    ensures ContextOf(l).requestDigest(a) != ContextOf(l).requestDigest(b) ||
      HashCollision(l, AcceptedBytes(a), AcceptedBytes(b))
  {
    if ContextOf(l).requestDigest(a) == ContextOf(l).requestDigest(b) {
      DigestCollision(l, AcceptedBytes(a), AcceptedBytes(b));
      if AcceptedBytes(a) == AcceptedBytes(b) { AcceptedBytesInjective(a, b); }
    }
  }
}
