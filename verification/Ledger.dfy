/** The in-memory index of the ledger, the rule for the next record, and what they keep. */
module Ledger {
  import opened Wrappers
  import opened Json
  import opened Events

  const API_VERSION: Bytes := "logger.multiagent.dev/v1"
  const RECORD_KIND: Bytes := "LoggerLedgerRecord"
  const CHECKPOINT_KIND: Bytes := "LoggerCheckpoint"
  const GENESIS_HASH: Bytes := "sha256:0000000000000000000000000000000000000000000000000000000000000000"

  // The functions the ledger is built from: how records are written and hashed,
  // how checkpoints are named and signed, which timestamps parse.
  datatype Context = Context(
    encode: LedgerRecord -> Bytes,
    decode: Bytes -> Option<LedgerRecord>,
    encodeEntry: Entry -> Bytes,
    requestDigest: AcceptedEvent -> Bytes,
    entryHash: EntryBody -> Bytes,
    checkpointId: Entry -> Bytes,
    sign: CheckpointBody -> Signature,
    verify: (CheckpointBody, Signature) -> bool,
    rfc3339: Bytes -> bool,
    loggerId: Bytes)

  // The laws they obey: a record is one non-empty line that is read back, and
  // the signer's own signatures verify.
  ghost predicate Lawful(c: Context) {
    && (forall r :: c.decode(c.encode(r)) == Some(r))
    && (forall r :: c.encode(r) != "" && '\n' !in c.encode(r))
    && (forall b :: c.verify(b, c.sign(b)))
  }

  datatype LogHead = LogHead(logId: Bytes, sequence: nat, entryHash: Bytes, updatedAt: Bytes)

  datatype StoredEvent = StoredEvent(requestDigest: Bytes, accepted: AcceptedEvent, entry: Entry)

  datatype LedgerState = LedgerState(
    logs: map<Bytes, LogHead>,
    events: map<Bytes, StoredEvent>,
    entries: map<Bytes, seq<Entry>>,
    checkpoints: map<Bytes, Checkpoint>,
    checkpointsByLog: map<Bytes, seq<Checkpoint>>)

  const EMPTY: LedgerState := LedgerState(map[], map[], map[], map[], map[])

  function EntriesOf(st: LedgerState, log: Bytes): seq<Entry> {
    if log in st.entries then st.entries[log] else []
  }

  function CheckpointsOf(st: LedgerState, log: Bytes): seq<Checkpoint> {
    if log in st.checkpointsByLog then st.checkpointsByLog[log] else []
  }

  // ---------- The next record ----------

  datatype Fault =
    | Contract | InvalidEvent | InvalidProducer | RequestDigestMismatch | DuplicateEvent | EntryMismatch
    | BadTimestamp | NotNextInLog | EntryHashMismatch
    | CheckpointMismatch | DuplicateCheckpoint | BadSignature

  datatype Check = Pass | Reject(fault: Fault)

  function NextSequence(st: LedgerState, log: Bytes): nat {
    if log in st.logs then st.logs[log].sequence + 1 else 1
  }

  function HeadHash(st: LedgerState, log: Bytes): Bytes {
    if log in st.logs then st.logs[log].entryHash else GENESIS_HASH
  }

  predicate Matches(a: AcceptedEvent, b: EntryBody) {
    && b.logId == a.event.sessionId
    && b.eventId == a.event.eventId
    && b.producerId == a.producerId
    && b.eventType == a.event.eventType
    && b.payloadDigest == a.event.payloadDigest
    && b.references == a.event.references
  }

  // The checkpoint names this signer and this entry.
  predicate Certifies(c: Context, checkpoint: CheckpointBody, entry: Entry) {
    && checkpoint.apiVersion == API_VERSION
    && checkpoint.kind == CHECKPOINT_KIND
    && checkpoint.loggerIdentity == c.loggerId
    && checkpoint.logId == entry.body.logId
    && checkpoint.sequence == entry.body.sequence
    && checkpoint.entryHash == entry.entryHash
    && checkpoint.createdAt == entry.body.committedAt
  }

  predicate SequenceTaken(checkpoints: seq<Checkpoint>, sequence: nat) {
    exists i :: 0 <= i < |checkpoints| && checkpoints[i].body.sequence == sequence
  }

  function ValidateCheckpoint(c: Context, st: LedgerState, checkpoint: Checkpoint, entry: Entry): Check {
    if !Certifies(c, checkpoint.body, entry) then Reject(CheckpointMismatch)
    else if checkpoint.body.checkpointId in st.checkpoints
         || SequenceTaken(CheckpointsOf(st, checkpoint.body.logId), checkpoint.body.sequence)
    then Reject(DuplicateCheckpoint)
    else if !c.verify(checkpoint.body, checkpoint.signature) then Reject(BadSignature)
    else Pass
  }

  function ValidateNext(c: Context, st: LedgerState, r: LedgerRecord): Check {
    if r.apiVersion != API_VERSION || r.kind != RECORD_KIND then Reject(Contract)
    else if !ValidEvent(r.accepted.event) then Reject(InvalidEvent)
    else if !ValidIdentifier(r.accepted.producerId) then Reject(InvalidProducer)
    else if c.requestDigest(r.accepted) != r.requestDigest then Reject(RequestDigestMismatch)
    else if r.accepted.event.eventId in st.events then Reject(DuplicateEvent)
    else if !Matches(r.accepted, r.entry.body) then Reject(EntryMismatch)
    else if !c.rfc3339(r.entry.body.committedAt) then Reject(BadTimestamp)
    else if r.entry.body.sequence != NextSequence(st, r.accepted.event.sessionId)
         || r.entry.body.previousHash != HeadHash(st, r.accepted.event.sessionId) then Reject(NotNextInLog)
    else if c.entryHash(r.entry.body) != r.entry.entryHash then Reject(EntryHashMismatch)
    else match r.checkpoint
      case None => Pass
      case Some(checkpoint) => ValidateCheckpoint(c, st, checkpoint, r.entry)
  }

  function Insert(st: LedgerState, r: LedgerRecord): LedgerState {
    var log := r.entry.body.logId;
    var indexed := st.(
      logs := st.logs[log := LogHead(log, r.entry.body.sequence, r.entry.entryHash, r.entry.body.committedAt)],
      entries := st.entries[log := EntriesOf(st, log) + [r.entry]],
      events := st.events[r.accepted.event.eventId := StoredEvent(r.requestDigest, r.accepted, r.entry)]);
    match r.checkpoint
    case None => indexed
    case Some(checkpoint) => indexed.(
      checkpointsByLog := st.checkpointsByLog[log := CheckpointsOf(st, log) + [checkpoint]],
      checkpoints := st.checkpoints[checkpoint.body.checkpointId := checkpoint])
  }

  // ---------- What every accepted ledger looks like ----------

  // One log: numbered from 1, linked from genesis, every link the hash of its entry.
  ghost predicate Chain(c: Context, log: Bytes, es: seq<Entry>) {
    forall i :: 0 <= i < |es| ==>
      && es[i].body.logId == log
      && es[i].body.sequence == i + 1
      && es[i].body.previousHash == (if i == 0 then GENESIS_HASH else es[i - 1].entryHash)
      && es[i].entryHash == c.entryHash(es[i].body)
  }

  function HeadOf(log: Bytes, e: Entry): LogHead {
    LogHead(log, e.body.sequence, e.entryHash, e.body.committedAt)
  }

  ghost predicate LogOk(c: Context, st: LedgerState, log: Bytes) {
    var es := EntriesOf(st, log);
    && Chain(c, log, es)
    && (log in st.entries <==> es != [])
    && (log in st.logs <==> es != [])
    && (es != [] ==> st.logs[log] == HeadOf(log, es[|es| - 1]))
  }

  ghost predicate ChainsOk(c: Context, st: LedgerState) {
    forall log :: LogOk(c, st, log)
  }

  // A stored event is backed by the entry it says, and says what was accepted.
  ghost predicate Backed(c: Context, st: LedgerState, id: Bytes)
    requires id in st.events
  {
    var s := st.events[id];
    && s.accepted.event.eventId == id
    && Matches(s.accepted, s.entry.body)
    && s.requestDigest == c.requestDigest(s.accepted)
    && 1 <= s.entry.body.sequence <= |EntriesOf(st, s.entry.body.logId)|
    && EntriesOf(st, s.entry.body.logId)[s.entry.body.sequence - 1] == s.entry
  }

  // Every entry of a log is the one its event is stored with.
  ghost predicate Recorded(st: LedgerState, log: Bytes) {
    forall i :: 0 <= i < |EntriesOf(st, log)| ==>
      && EntriesOf(st, log)[i].body.eventId in st.events
      && st.events[EntriesOf(st, log)[i].body.eventId].entry == EntriesOf(st, log)[i]
  }

  // Events and entries are in bijection.
  ghost predicate EventsOk(c: Context, st: LedgerState) {
    && (forall id :: id in st.events ==> Backed(c, st, id))
    && (forall log :: Recorded(st, log))
  }

  ghost predicate CheckpointOk(c: Context, st: LedgerState, log: Bytes, checkpoint: Checkpoint) {
    && 1 <= checkpoint.body.sequence <= |EntriesOf(st, log)|
    && Certifies(c, checkpoint.body, EntriesOf(st, log)[checkpoint.body.sequence - 1])
    && c.verify(checkpoint.body, checkpoint.signature)
    && checkpoint.body.checkpointId in st.checkpoints
    && st.checkpoints[checkpoint.body.checkpointId] == checkpoint
  }

  // Checkpoints of one log, in order, each certifying the entry at its sequence.
  ghost predicate CheckpointChain(c: Context, st: LedgerState, log: Bytes) {
    var cs := CheckpointsOf(st, log);
    && (forall i :: 0 <= i < |cs| ==> CheckpointOk(c, st, log, cs[i]))
    && (forall i, j :: 0 <= i < j < |cs| ==> cs[i].body.sequence < cs[j].body.sequence)
  }

  // The id-keyed map holds only checkpoints that their log lists.
  ghost predicate Listed(st: LedgerState, id: Bytes)
    requires id in st.checkpoints
  {
    && st.checkpoints[id].body.checkpointId == id
    && st.checkpoints[id] in CheckpointsOf(st, st.checkpoints[id].body.logId)
  }

  ghost predicate CheckpointsOk(c: Context, st: LedgerState) {
    && (forall log :: CheckpointChain(c, st, log))
    && (forall id :: id in st.checkpoints ==> Listed(st, id))
  }

  ghost predicate Invariant(c: Context, st: LedgerState) {
    ChainsOk(c, st) && EventsOk(c, st) && CheckpointsOk(c, st)
  }

  lemma HeadIsLast(c: Context, st: LedgerState, log: Bytes)
    requires LogOk(c, st, log)
    ensures NextSequence(st, log) == |EntriesOf(st, log)| + 1
    ensures HeadHash(st, log) ==
      if EntriesOf(st, log) == [] then GENESIS_HASH else EntriesOf(st, log)[|EntriesOf(st, log)| - 1].entryHash
  {
  }

  // The effect of an insertion on one log.
  lemma InsertOne(st: LedgerState, r: LedgerRecord, log: Bytes)
    ensures EntriesOf(Insert(st, r), log) ==
      if log == r.entry.body.logId then EntriesOf(st, log) + [r.entry] else EntriesOf(st, log)
    ensures CheckpointsOf(Insert(st, r), log) ==
      if log == r.entry.body.logId && r.checkpoint.Some?
      then CheckpointsOf(st, log) + [r.checkpoint.value] else CheckpointsOf(st, log)
  {
  }

  lemma ChainGrows(c: Context, log: Bytes, es: seq<Entry>, e: Entry)
    requires Chain(c, log, es)
    requires e.body.logId == log && e.body.sequence == |es| + 1 && e.entryHash == c.entryHash(e.body)
    requires e.body.previousHash == if es == [] then GENESIS_HASH else es[|es| - 1].entryHash
    ensures Chain(c, log, es + [e])
  {
    var fs := es + [e];
    assert fs[|es|] == e && forall i :: 0 <= i < |es| ==> fs[i] == es[i];
  }

  // What a passed check says about the index.
  ghost predicate Fits(c: Context, st: LedgerState, r: LedgerRecord) {
    var log := r.entry.body.logId;
    && r.accepted.event.eventId !in st.events
    && r.requestDigest == c.requestDigest(r.accepted)
    && Matches(r.accepted, r.entry.body)
    && r.entry.entryHash == c.entryHash(r.entry.body)
    && r.entry.body.sequence == NextSequence(st, log)
    && r.entry.body.previousHash == HeadHash(st, log)
    && (r.checkpoint.Some? ==>
          && Certifies(c, r.checkpoint.value.body, r.entry)
          && r.checkpoint.value.body.checkpointId !in st.checkpoints
          && c.verify(r.checkpoint.value.body, r.checkpoint.value.signature))
  }

  lemma PassFits(c: Context, st: LedgerState, r: LedgerRecord)
    requires ValidateNext(c, st, r).Pass?
    ensures Fits(c, st, r)
  {
  }

  lemma InsertKeepsOwnLog(c: Context, st: LedgerState, r: LedgerRecord)
    requires LogOk(c, st, r.entry.body.logId) && Fits(c, st, r)
    ensures LogOk(c, Insert(st, r), r.entry.body.logId)
  {
    var log := r.entry.body.logId;
    InsertOne(st, r, log);
    HeadIsLast(c, st, log);
    ChainGrows(c, log, EntriesOf(st, log), r.entry);
  }

  lemma InsertKeepsOtherLog(c: Context, st: LedgerState, r: LedgerRecord, log: Bytes)
    requires LogOk(c, st, log) && log != r.entry.body.logId
    ensures LogOk(c, Insert(st, r), log)
  {
    InsertOne(st, r, log);
  }

  lemma InsertKeepsChains(c: Context, st: LedgerState, r: LedgerRecord)
    requires ChainsOk(c, st) && Fits(c, st, r)
    ensures ChainsOk(c, Insert(st, r))
  {
    forall log ensures LogOk(c, Insert(st, r), log) {
      assert LogOk(c, st, log);
      if log == r.entry.body.logId { InsertKeepsOwnLog(c, st, r); } else { InsertKeepsOtherLog(c, st, r, log); }
    }
  }

  lemma InsertKeepsBacked(c: Context, st: LedgerState, r: LedgerRecord, id: Bytes)
    requires Fits(c, st, r) && r.entry.body.sequence == |EntriesOf(st, r.entry.body.logId)| + 1
    requires id in st.events ==> Backed(c, st, id)
    requires id in Insert(st, r).events
    ensures Backed(c, Insert(st, r), id)
  {
    if id != r.accepted.event.eventId {
      InsertOne(st, r, st.events[id].entry.body.logId);
    } else {
      InsertOne(st, r, r.entry.body.logId);
    }
  }

  lemma InsertKeepsRecorded(st: LedgerState, r: LedgerRecord, log: Bytes)
    requires Recorded(st, log)
    requires r.accepted.event.eventId !in st.events && r.entry.body.eventId == r.accepted.event.eventId
    ensures Recorded(Insert(st, r), log)
  {
    InsertOne(st, r, log);
    var es, es' := EntriesOf(st, log), EntriesOf(Insert(st, r), log);
    forall i | 0 <= i < |es'|
      ensures es'[i].body.eventId in Insert(st, r).events
      ensures Insert(st, r).events[es'[i].body.eventId].entry == es'[i]
    {
      if i < |es| { assert es'[i] == es[i]; }
    }
  }

  lemma InsertKeepsEvents(c: Context, st: LedgerState, r: LedgerRecord)
    requires ChainsOk(c, st) && EventsOk(c, st) && Fits(c, st, r)
    ensures EventsOk(c, Insert(st, r))
  {
    assert LogOk(c, st, r.entry.body.logId);
    HeadIsLast(c, st, r.entry.body.logId);
    forall id | id in Insert(st, r).events ensures Backed(c, Insert(st, r), id) {
      InsertKeepsBacked(c, st, r, id);
    }
    forall log ensures Recorded(Insert(st, r), log) {
      InsertKeepsRecorded(st, r, log);
    }
  }

  lemma InsertKeepsCheckpoint(c: Context, st: LedgerState, r: LedgerRecord, log: Bytes, checkpoint: Checkpoint)
    requires CheckpointOk(c, st, log, checkpoint)
    requires r.checkpoint.Some? ==> r.checkpoint.value.body.checkpointId !in st.checkpoints
    ensures CheckpointOk(c, Insert(st, r), log, checkpoint)
  {
    InsertOne(st, r, log);
    var i := checkpoint.body.sequence - 1;
    assert EntriesOf(Insert(st, r), log)[i] == EntriesOf(st, log)[i];
  }

  lemma InsertAddsCheckpoint(c: Context, st: LedgerState, r: LedgerRecord)
    requires Fits(c, st, r) && r.entry.body.sequence == |EntriesOf(st, r.entry.body.logId)| + 1
    requires r.checkpoint.Some?
    ensures CheckpointOk(c, Insert(st, r), r.entry.body.logId, r.checkpoint.value)
  {
    InsertOne(st, r, r.entry.body.logId);
  }

  lemma InsertKeepsCheckpointChain(c: Context, st: LedgerState, r: LedgerRecord, log: Bytes)
    requires Fits(c, st, r) && r.entry.body.sequence == |EntriesOf(st, r.entry.body.logId)| + 1
    requires CheckpointChain(c, st, log)
    ensures CheckpointChain(c, Insert(st, r), log)
  {
    InsertOne(st, r, log);
    var cs, cs' := CheckpointsOf(st, log), CheckpointsOf(Insert(st, r), log);
    forall i | 0 <= i < |cs'| ensures CheckpointOk(c, Insert(st, r), log, cs'[i]) {
      if i < |cs| {
        assert cs'[i] == cs[i];
        InsertKeepsCheckpoint(c, st, r, log, cs[i]);
      } else {
        InsertAddsCheckpoint(c, st, r);
      }
    }
    forall i, j | 0 <= i < j < |cs'| ensures cs'[i].body.sequence < cs'[j].body.sequence {
      assert CheckpointOk(c, st, log, cs[i]);
    }
  }

  lemma InsertKeepsCheckpoints(c: Context, st: LedgerState, r: LedgerRecord)
    requires ChainsOk(c, st) && CheckpointsOk(c, st) && Fits(c, st, r)
    ensures CheckpointsOk(c, Insert(st, r))
  {
    assert LogOk(c, st, r.entry.body.logId);
    HeadIsLast(c, st, r.entry.body.logId);
    forall log ensures CheckpointChain(c, Insert(st, r), log) {
      InsertKeepsCheckpointChain(c, st, r, log);
    }
    forall id | id in Insert(st, r).checkpoints ensures Listed(Insert(st, r), id) {
      assert id in st.checkpoints ==> Listed(st, id);
      InsertOne(st, r, Insert(st, r).checkpoints[id].body.logId);
    }
  }

  /** Whatever passes the check keeps the whole index consistent. */
  lemma InsertKeepsInvariant(c: Context, st: LedgerState, r: LedgerRecord)
    requires Invariant(c, st) && ValidateNext(c, st, r).Pass?
    ensures Invariant(c, Insert(st, r))
  {
    PassFits(c, st, r);
    InsertKeepsChains(c, st, r);
    InsertKeepsEvents(c, st, r);
    InsertKeepsCheckpoints(c, st, r);
  }
}
