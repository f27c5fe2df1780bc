/** What each operation of the store does to the file, the index and the projections. */
module Storage {
  import opened Wrappers
  import opened Json
  import opened Events
  import opened Ledger
  import opened Replay

  type Interval = n: nat | n > 0 witness 1

  // A store: its ledger file, index, write permission, logs whose projection is
  // out of date, and the published projection files.
  datatype System = System(
    disk: Bytes, index: LedgerState, writable: bool, dirty: set<Bytes>, files: map<Bytes, Bytes>)

  datatype Setup = Setup(context: Context, interval: Interval, projecting: bool)

  // A durable write either completes or leaves some prefix behind and fails.
  datatype Write = Durable | Torn(kept: nat)

  datatype Outcome = Appended | Duplicate | Conflict | Internal

  // ---------- Opening ----------

  function Opened(u: Setup, disk: Bytes, files: map<Bytes, Bytes>): Option<System> {
    match ReplayFrom(u.context, EMPTY, disk)
    case Err(_) => None
    case Ok(index) => Some(System(disk, index, true, if u.projecting then index.logs.Keys else {}, files))
  }

  // ---------- Appending ----------

  function CreateCheckpoint(c: Context, entry: Entry): Checkpoint {
    var body := CheckpointBody(API_VERSION, CHECKPOINT_KIND, c.checkpointId(entry), entry.body.logId,
      entry.body.sequence, entry.entryHash, entry.body.committedAt, c.loggerId);
    Checkpoint(body, c.sign(body))
  }

  function NextEntry(c: Context, st: LedgerState, a: AcceptedEvent, now: Bytes): Entry {
    var e := a.event;
    var body := EntryBody(e.sessionId, NextSequence(st, e.sessionId), HeadHash(st, e.sessionId), now,
      a.producerId, e.eventId, e.eventType, e.payloadDigest, e.references);
    Entry(body, c.entryHash(body))
  }

  function NextRecord(u: Setup, st: LedgerState, a: AcceptedEvent, now: Bytes): LedgerRecord {
    var entry := NextEntry(u.context, st, a, now);
    LedgerRecord(API_VERSION, RECORD_KIND, u.context.requestDigest(a), a, entry,
      if entry.body.sequence % u.interval == 0 then Some(CreateCheckpoint(u.context, entry)) else None)
  }

  function Kept(frame: Bytes, kept: nat): Bytes {
    if kept < |frame| then frame[..kept] else frame
  }

  predicate Admits(u: Setup, st: LedgerState, r: LedgerRecord) {
    ValidateNext(u.context, st, r).Pass? && |u.context.encode(r)| <= MAX_RECORD_BYTES
  }

  function Commit(u: Setup, s: System, r: LedgerRecord, w: Write): System {
    var frame := Frame(u.context, r);
    match w
    case Torn(kept) => s.(disk := s.disk + Kept(frame, kept), writable := false)
    case Durable => s.(
      disk := s.disk + frame,
      index := Insert(s.index, r),
      dirty := if u.projecting then s.dirty + {r.entry.body.logId} else s.dirty)
  }

  function Append(u: Setup, s: System, a: AcceptedEvent, now: Bytes, w: Write): (System, Outcome) {
    if !s.writable then (s, Internal)
    else if a.event.eventId in s.index.events then
      (s, if s.index.events[a.event.eventId].requestDigest == u.context.requestDigest(a) then Duplicate else Conflict)
    else
      var r := NextRecord(u, s.index, a, now);
      if !Admits(u, s.index, r) then (s, Internal)
      else (Commit(u, s, r, w), if w.Durable? then Appended else Internal)
  }

  // ---------- Verifying ----------

  predicate Intact(u: Setup, s: System) {
    s.writable && ReplayFrom(u.context, EMPTY, s.disk) == Ok(s.index)
  }

  // ---------- Projections ----------

  function Projection(c: Context, es: seq<Entry>): Bytes {
    if es == [] then "" else Projection(c, es[..|es| - 1]) + c.encodeEntry(es[|es| - 1]) + "\n"
  }

  // Publishing one file succeeds, fails before the rename, or fails after it.
  datatype Publish = Published | Unpublished | Unconfirmed

  // The files that publishing a set of logs leaves behind.
  function Written(c: Context, st: LedgerState, logs: set<Bytes>, result: Bytes -> Publish): map<Bytes, Bytes> {
    map log | log in logs && !result(log).Unpublished? :: Projection(c, EntriesOf(st, log))
  }

  function StillDirty(logs: set<Bytes>, result: Bytes -> Publish): set<Bytes> {
    set log | log in logs && !result(log).Published?
  }

  function Flush(u: Setup, s: System, result: Bytes -> Publish): System {
    s.(dirty := StillDirty(s.dirty, result), files := s.files + Written(u.context, s.index, s.dirty, result))
  }

  // ---------- Reading ----------

  function After(es: seq<Entry>, after: nat): seq<Entry> {
    if es == [] then []
    else if es[0].body.sequence > after then [es[0]] + After(es[1..], after)
    else After(es[1..], after)
  }

  function Page(es: seq<Entry>, after: nat, limit: nat): seq<Entry> {
    var found := After(es, after);
    if |found| <= limit then found else found[..limit]
  }

  // ---------- The invariant of every run ----------

  // Every log that is not waiting has a file with exactly its current entries.
  ghost predicate ProjectionsOk(u: Setup, s: System) {
    forall log :: log in s.index.logs && log !in s.dirty ==>
      log in s.files && s.files[log] == Projection(u.context, EntriesOf(s.index, log))
  }

  // The file is a ledger for the index, followed by some prefix of the next good record.
  ghost predicate TornAfter(u: Setup, s: System, base: Bytes, a: AcceptedEvent, now: Bytes, kept: nat) {
    var r := NextRecord(u, s.index, a, now);
    && s.disk == base + Kept(Frame(u.context, r), kept)
    && ReplayFrom(u.context, EMPTY, base) == Ok(s.index)
    && Admits(u, s.index, r)
  }

  ghost predicate Consistent(u: Setup, s: System) {
    && Invariant(u.context, s.index)
    && (s.writable ==> ReplayFrom(u.context, EMPTY, s.disk) == Ok(s.index))
    && (!s.writable ==> exists base, a, now, kept :: TornAfter(u, s, base, a, now, kept))
    && (u.projecting ==> ProjectionsOk(u, s))
  }

  lemma OpenedConsistent(u: Setup, disk: Bytes, files: map<Bytes, Bytes>)
    requires Lawful(u.context) && Opened(u, disk, files).Some?
    ensures Consistent(u, Opened(u, disk, files).value) && Intact(u, Opened(u, disk, files).value)
  {
    ReplayInvariant(u.context, disk);
  }

  lemma AppendedReplays(c: Context, disk: Bytes, st: LedgerState, t: Bytes)
    requires Lawful(c) && ReplayFrom(c, EMPTY, disk) == Ok(st)
    ensures ReplayFrom(c, EMPTY, disk + t) == ReplayFrom(c, st, t)
  {
    var rs := AcceptedIsFrames(c, EMPTY, disk);
    FramesReplay(c, EMPTY, rs, t);
  }

  // What a file ending in the first `kept` bytes of a record replays to.
  lemma TornReplays(u: Setup, base: Bytes, st: LedgerState, r: LedgerRecord, kept: nat)
    requires Lawful(u.context) && ReplayFrom(u.context, EMPTY, base) == Ok(st) && Admits(u, st, r)
    ensures ReplayFrom(u.context, EMPTY, base + Kept(Frame(u.context, r), kept)) ==
      if kept == 0 then Ok(st)
      else if kept < |Frame(u.context, r)| then Err(Truncated)
      else Ok(Insert(st, r))
  {
    AppendedReplays(u.context, base, st, Kept(Frame(u.context, r), kept));
    if 0 < kept < |Frame(u.context, r)| {
      TornTail(u.context, st, r, kept);
    } else if kept > 0 {
      FrameReplays(u.context, st, r, "");
      assert Frame(u.context, r) + "" == Frame(u.context, r);
    }
  }

  lemma CommitKeepsProjections(u: Setup, s: System, r: LedgerRecord, w: Write)
    requires u.projecting && ProjectionsOk(u, s)
    ensures ProjectionsOk(u, Commit(u, s, r, w))
  {
    var s' := Commit(u, s, r, w);
    forall log | log in s'.index.logs && log !in s'.dirty
      ensures log in s'.files && s'.files[log] == Projection(u.context, EntriesOf(s'.index, log))
    {
      InsertOne(s.index, r, log);
    }
  }

  lemma CommitConsistent(u: Setup, s: System, a: AcceptedEvent, now: Bytes, w: Write)
    requires Lawful(u.context) && Consistent(u, s) && s.writable && Admits(u, s.index, NextRecord(u, s.index, a, now))
    ensures Consistent(u, Commit(u, s, NextRecord(u, s.index, a, now), w))
  {
    var r := NextRecord(u, s.index, a, now);
    if u.projecting { CommitKeepsProjections(u, s, r, w); }
    match w
    case Torn(kept) => assert TornAfter(u, Commit(u, s, r, w), s.disk, a, now, kept);
    case Durable =>
      InsertKeepsInvariant(u.context, s.index, r);
      TornReplays(u, s.disk, s.index, r, |Frame(u.context, r)|);
  }

  /** Appending keeps file, index and projections in agreement, whatever the write does. */
  lemma AppendConsistent(u: Setup, s: System, a: AcceptedEvent, now: Bytes, w: Write)
    requires Lawful(u.context) && Consistent(u, s)
    ensures Consistent(u, Append(u, s, a, now, w).0)
  {
    if Append(u, s, a, now, w).0 != s {
      CommitConsistent(u, s, a, now, w);
    }
  }

  /** Flushing publishes exactly the current entries, and forgets a log only once its file is right. */
  lemma FlushConsistent(u: Setup, s: System, result: Bytes -> Publish)
    requires Consistent(u, s)
    ensures Consistent(u, Flush(u, s, result))
  {
    if !s.writable {
      var base, a, now, kept :| TornAfter(u, s, base, a, now, kept);
      assert TornAfter(u, Flush(u, s, result), base, a, now, kept);
    }
  }

  // ---------- Exactly when an append commits ----------

  lemma NextSequenceFree(c: Context, st: LedgerState, log: Bytes)
    requires Invariant(c, st)
    ensures !SequenceTaken(CheckpointsOf(st, log), NextSequence(st, log))
  {
    assert LogOk(c, st, log) && CheckpointChain(c, st, log);
    HeadIsLast(c, st, log);
    var cs := CheckpointsOf(st, log);
    forall i | 0 <= i < |cs| ensures cs[i].body.sequence != NextSequence(st, log) {
      assert CheckpointOk(c, st, log, cs[i]);
    }
  }

  /** A new event is refused only for its own content, its producer, the clock, or a taken checkpoint
      name; the per-log duplicate-sequence rule never refuses it. */
  lemma HonestAppend(u: Setup, st: LedgerState, a: AcceptedEvent, now: Bytes)
    requires Lawful(u.context) && Invariant(u.context, st) && a.event.eventId !in st.events
    ensures var r := NextRecord(u, st, a, now);
      ValidateNext(u.context, st, r).Pass? <==>
      && ValidEvent(a.event) && ValidIdentifier(a.producerId) && u.context.rfc3339(now)
      && (r.entry.body.sequence % u.interval == 0 ==> u.context.checkpointId(r.entry) !in st.checkpoints)
  {
    NextSequenceFree(u.context, st, a.event.sessionId);
  }
}
