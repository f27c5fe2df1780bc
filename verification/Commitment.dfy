/** What a head hash or a checkpoint commits to. */
module Commitment {
  import opened Json
  import opened Events
  import opened Ledger
  import opened Replay

  // Two bodies that the hash does not tell apart.
  ghost predicate Collide(c: Context, x: EntryBody, y: EntryBody) {
    x != y && c.entryHash(x) == c.entryHash(y)
  }

  // Two ledgers, possibly kept by different signers, that hash the same way.
  ghost predicate SameHashes(c: Context, d: Context) {
    && (forall b :: c.entryHash(b) == d.entryHash(b))
    && (forall a :: c.requestDigest(a) == d.requestDigest(a))
  }

  /** Equal hashes anywhere in two chains mean the same log, the same position and the same entries
      up to there, or else exhibit two different bodies with one hash. */
  lemma {:induction false} ChainCommitment(c: Context, d: Context, log: Bytes, es: seq<Entry>, i: nat,
                                           log': Bytes, fs: seq<Entry>, j: nat)
    returns (x: EntryBody, y: EntryBody)
    requires SameHashes(c, d) && Chain(c, log, es) && Chain(d, log', fs)
    requires i < |es| && j < |fs| && es[i].entryHash == fs[j].entryHash
    ensures Collide(c, x, y) || (log == log' && i == j && es[..i + 1] == fs[..i + 1])
    decreases i
  {
    x, y := es[i].body, fs[j].body;
    if x == y {
      assert es[i] == fs[j] && i == j;
      if i > 0 {
        x, y := ChainCommitment(c, d, log, es, i - 1, log', fs, j - 1);
      }
      assert es[..i + 1] == es[..i] + [es[i]] && fs[..i + 1] == fs[..i] + [fs[i]];
    }
  }

  // The accepted event behind an entry.
  function AcceptedOf(b: EntryBody): AcceptedEvent {
    AcceptedEvent(Event(b.eventId, b.logId, b.eventType, b.payloadDigest, b.references), b.producerId)
  }

  lemma EventOfEntry(c: Context, st: LedgerState, log: Bytes, i: nat)
    requires Invariant(c, st) && i < |EntriesOf(st, log)|
    ensures var e := EntriesOf(st, log)[i];
      e.body.eventId in st.events &&
      st.events[e.body.eventId] == StoredEvent(c.requestDigest(AcceptedOf(e.body)), AcceptedOf(e.body), e)
  {
    assert Recorded(st, log);
    assert Backed(c, st, EntriesOf(st, log)[i].body.eventId);
  }

  ghost predicate SameStored(st: LedgerState, st': LedgerState, id: Bytes) {
    id in st.events && id in st'.events && st.events[id] == st'.events[id]
  }

  // Two ledgers tell the same story about a log up to its n-th entry.
  ghost predicate SameHistory(st: LedgerState, st': LedgerState, log: Bytes, n: nat) {
    && n <= |EntriesOf(st, log)| && n <= |EntriesOf(st', log)|
    && EntriesOf(st, log)[..n] == EntriesOf(st', log)[..n]
    && forall i :: 0 <= i < n ==> SameStored(st, st', EntriesOf(st, log)[i].body.eventId)
  }

  lemma PrefixHistory(c: Context, d: Context, st: LedgerState, st': LedgerState, log: Bytes, n: nat)
    requires SameHashes(c, d) && Invariant(c, st) && Invariant(d, st')
    requires n <= |EntriesOf(st, log)| && n <= |EntriesOf(st', log)|
    requires EntriesOf(st, log)[..n] == EntriesOf(st', log)[..n]
    ensures SameHistory(st, st', log, n)
  {
    forall i | 0 <= i < n ensures SameStored(st, st', EntriesOf(st, log)[i].body.eventId) {
      assert EntriesOf(st, log)[i] == EntriesOf(st, log)[..n][i] == EntriesOf(st', log)[i];
      EventOfEntry(c, st, log, i);
      EventOfEntry(d, st', log, i);
    }
  }

  lemma HeadsAgree(c: Context, d: Context, st: LedgerState, st': LedgerState, log: Bytes)
    returns (x: EntryBody, y: EntryBody)
    requires SameHashes(c, d) && Invariant(c, st) && Invariant(d, st')
    requires log in st.logs && log in st'.logs && st.logs[log].entryHash == st'.logs[log].entryHash
    ensures Collide(c, x, y) ||
      (|EntriesOf(st, log)| == |EntriesOf(st', log)| && SameHistory(st, st', log, |EntriesOf(st, log)|))
  {
    assert LogOk(c, st, log) && LogOk(d, st', log);
    var es, fs := EntriesOf(st, log), EntriesOf(st', log);
    x, y := ChainCommitment(c, d, log, es, |es| - 1, log, fs, |fs| - 1);
    if !Collide(c, x, y) { PrefixHistory(c, d, st, st', log, |es|); }
  }

  /** A head hash fixes the whole history of its log: two accepted files with the same head have the
      same entries and accepted events, or a collision is in hand. */
  lemma HeadCommitment(c: Context, d: Context, disk: Bytes, disk': Bytes, log: Bytes)
    returns (x: EntryBody, y: EntryBody)
    requires Lawful(c) && Lawful(d) && SameHashes(c, d)
    requires ReplayFrom(c, EMPTY, disk).Ok? && ReplayFrom(d, EMPTY, disk').Ok?
    requires var st, st' := ReplayFrom(c, EMPTY, disk).state, ReplayFrom(d, EMPTY, disk').state;
      log in st.logs && log in st'.logs && st.logs[log].entryHash == st'.logs[log].entryHash
    ensures var st, st' := ReplayFrom(c, EMPTY, disk).state, ReplayFrom(d, EMPTY, disk').state;
      Collide(c, x, y) ||
      (|EntriesOf(st, log)| == |EntriesOf(st', log)| && SameHistory(st, st', log, |EntriesOf(st, log)|))
  {
    ReplayInvariant(c, disk);
    ReplayInvariant(d, disk');
    var st, st' := ReplayFrom(c, EMPTY, disk).state, ReplayFrom(d, EMPTY, disk').state;
    x, y := HeadsAgree(c, d, st, st', log);
  }

  // The entry a listed checkpoint certifies.
  lemma CheckpointEntry(c: Context, st: LedgerState, log: Bytes, p: Checkpoint)
    requires Invariant(c, st) && p in CheckpointsOf(st, log)
    ensures Chain(c, log, EntriesOf(st, log)) && 1 <= p.body.sequence <= |EntriesOf(st, log)|
    ensures EntriesOf(st, log)[p.body.sequence - 1].entryHash == p.body.entryHash
  {
    assert CheckpointChain(c, st, log) && LogOk(c, st, log);
    var i :| 0 <= i < |CheckpointsOf(st, log)| && CheckpointsOf(st, log)[i] == p;
    assert CheckpointOk(c, st, log, CheckpointsOf(st, log)[i]);
  }

  // What a checkpoint that certifies an entry says.
  lemma CertifiedBody(c: Context, b: CheckpointBody, e: Entry)
    requires Certifies(c, b, e)
    ensures b == CheckpointBody("logger.multiagent.dev/v1", "LoggerCheckpoint", b.checkpointId, e.body.logId,
      e.body.sequence, e.entryHash, e.body.committedAt, c.loggerId)
  {
  }

  lemma ListedOk(c: Context, st: LedgerState, log: Bytes, p: Checkpoint)
    requires CheckpointChain(c, st, log) && p in CheckpointsOf(st, log)
    ensures CheckpointOk(c, st, log, p)
  {
    var i :| 0 <= i < |CheckpointsOf(st, log)| && CheckpointsOf(st, log)[i] == p;
    assert CheckpointOk(c, st, log, CheckpointsOf(st, log)[i]);
  }

  lemma EntryLog(c: Context, st: LedgerState, log: Bytes, i: nat)
    requires LogOk(c, st, log) && i < |EntriesOf(st, log)|
    ensures EntriesOf(st, log)[i].body.logId == log
  {
  }

  lemma CheckpointCertifies(c: Context, st: LedgerState, log: Bytes, p: Checkpoint)
    requires Invariant(c, st) && p in CheckpointsOf(st, log)
    ensures var n := p.body.sequence;
      && 1 <= n <= |EntriesOf(st, log)| && Certifies(c, p.body, EntriesOf(st, log)[n - 1])
      && EntriesOf(st, log)[n - 1].body.logId == log
    ensures c.verify(p.body, p.signature)
  {
    assert CheckpointChain(c, st, log) && LogOk(c, st, log);
    ListedOk(c, st, log, p);
    EntryLog(c, st, log, p.body.sequence - 1);
  }

  // What a listed checkpoint says, and that its signature was checked.
  lemma CheckpointSays(c: Context, st: LedgerState, log: Bytes, p: Checkpoint)
    requires Invariant(c, st) && p in CheckpointsOf(st, log)
    ensures var n := p.body.sequence;
      && 1 <= n <= |EntriesOf(st, log)|
      && p.body == CheckpointBody("logger.multiagent.dev/v1", "LoggerCheckpoint", p.body.checkpointId, log, n,
           EntriesOf(st, log)[n - 1].entryHash, EntriesOf(st, log)[n - 1].body.committedAt, c.loggerId)
    ensures c.verify(p.body, p.signature)
  {
    CheckpointCertifies(c, st, log, p);
    CertifiedBody(c, p.body, EntriesOf(st, log)[p.body.sequence - 1]);
  }

  /** Checkpoints that agree on log, sequence and entry hash force agreement up to that sequence. */
  lemma CheckpointCommitment(c: Context, d: Context, st: LedgerState, st': LedgerState, log: Bytes,
                             p: Checkpoint, q: Checkpoint)
    returns (x: EntryBody, y: EntryBody)
    requires SameHashes(c, d) && Invariant(c, st) && Invariant(d, st')
    requires p in CheckpointsOf(st, log) && q in CheckpointsOf(st', log)
    requires p.body.sequence == q.body.sequence && p.body.entryHash == q.body.entryHash
    ensures Collide(c, x, y) || SameHistory(st, st', log, p.body.sequence)
  {
    CheckpointEntry(c, st, log, p);
    CheckpointEntry(d, st', log, q);
    var n := p.body.sequence;
    x, y := ChainCommitment(c, d, log, EntriesOf(st, log), n - 1, log, EntriesOf(st', log), n - 1);
    if !Collide(c, x, y) { PrefixHistory(c, d, st, st', log, n); }
  }
}
