/** The single-writer store object: an index updated in place beside the ledger file. */
module Store {
  import opened Wrappers
  import opened Json
  import opened Events
  import opened Ledger
  import opened Replay
  import opened Storage
  import opened Census

  class LedgerIndex {
    var logs: map<Bytes, LogHead>
    var events: map<Bytes, StoredEvent>
    var entries: map<Bytes, seq<Entry>>
    var checkpoints: map<Bytes, Checkpoint>
    var checkpointsByLog: map<Bytes, seq<Checkpoint>>

    function View(): LedgerState
      reads this
    {
      LedgerState(logs, events, entries, checkpoints, checkpointsByLog)
    }

    constructor ()
      ensures View() == EMPTY
    {
      logs, events, entries, checkpoints, checkpointsByLog := map[], map[], map[], map[], map[];
    }

    method InsertRecord(r: LedgerRecord)
      modifies this
      ensures View() == Insert(old(View()), r)
    {
      var log := r.entry.body.logId;
      logs := logs[log := LogHead(log, r.entry.body.sequence, r.entry.entryHash, r.entry.body.committedAt)];
      entries := entries[log := (if log in entries then entries[log] else []) + [r.entry]];
      events := events[r.accepted.event.eventId := StoredEvent(r.requestDigest, r.accepted, r.entry)];
      if r.checkpoint.Some? {
        checkpointsByLog := checkpointsByLog[log :=
          (if log in checkpointsByLog then checkpointsByLog[log] else []) + [r.checkpoint.value]];
        checkpoints := checkpoints[r.checkpoint.value.body.checkpointId := r.checkpoint.value];
      }
    }
  }

  // Replaying the rest from here gives what replaying the whole file gives.
  ghost predicate Resumes(c: Context, disk: Bytes, st: LedgerState, position: nat) {
    position <= |disk| && ReplayFrom(c, EMPTY, disk) == ReplayFrom(c, st, disk[position..])
  }

  lemma ReplayEnds(c: Context, disk: Bytes, st: LedgerState)
    requires Resumes(c, disk, st, |disk|)
    ensures ReplayFrom(c, EMPTY, disk) == Ok(st)
  {
    assert disk[|disk|..] == [];
  }

  lemma ReplayOneLine(c: Context, st: LedgerState, disk: Bytes, position: nat, n: nat, line: Line)
    requires position < |disk| && n == LineLength(disk[position..], MAX_RECORD_BYTES + 2)
    requires position + n <= |disk| && line == CheckLine(c, st, disk[position..position + n])
    requires Resumes(c, disk, st, position)
    ensures line.Refuse? ==> ReplayFrom(c, EMPTY, disk) == Err(line.fault)
    ensures line.Accept? ==> Resumes(c, disk, Insert(st, line.record), position + n)
  {
    assert disk[position..][..n] == disk[position..position + n];
    assert disk[position..][n..] == disk[position + n..];
  }

  method NextLine(c: Context, disk: Bytes, st: LedgerState, position: nat) returns (line: Line, next: nat)
    requires position < |disk| && Resumes(c, disk, st, position)
    ensures line.Refuse? ==> ReplayFrom(c, EMPTY, disk) == Err(line.fault)
    ensures line.Accept? ==> position < next <= |disk| && Resumes(c, disk, Insert(st, line.record), next)
  {
    var n := LineLength(disk[position..], MAX_RECORD_BYTES + 2);
    line, next := CheckLine(c, st, disk[position..position + n]), position + n;
    ReplayOneLine(c, st, disk, position, n, line);
  }

  // The next line of the file: its fault, or one more record in the index and the position behind it.
  method ReplayLine(c: Context, disk: Bytes, index: LedgerIndex, position: nat)
    returns (fault: Option<LineFault>, next: nat)
    requires position < |disk| && Resumes(c, disk, index.View(), position)
    modifies index
    ensures fault.Some? ==> ReplayFrom(c, EMPTY, disk) == Err(fault.value)
    ensures fault.None? ==> position < next <= |disk| && Resumes(c, disk, index.View(), next)
  {
    var line;
    line, next := NextLine(c, disk, index.View(), position);
    if line.Refuse? {
      return Some(line.fault), position;
    }
    index.InsertRecord(line.record);
    fault := None;
  }

  /** Reading the file line by line rebuilds exactly what the record-by-record definition gives. */
  method ReplayFile(c: Context, disk: Bytes) returns (index: LedgerIndex, fault: Option<LineFault>)
    ensures fresh(index)
    ensures ReplayFrom(c, EMPTY, disk) == if fault.None? then Ok(index.View()) else Err(fault.value)
  {
    index := new LedgerIndex();
    var position := 0;
    assert disk[0..] == disk;
    while position < |disk|
      invariant 0 <= position <= |disk|
      invariant fresh(index)
      invariant Resumes(c, disk, index.View(), position)
    {
      fault, position := ReplayLine(c, disk, index, position);
      if fault.Some? {
        return;
      }
    }
    ReplayEnds(c, disk, index.View());
    fault := None;
  }

  // The page so far and what follows in the rest of the log.
  predicate Collecting(es: seq<Entry>, after: nat, page: seq<Entry>, i: nat) {
    i <= |es| && After(es, after) == page + After(es[i..], after)
  }

  lemma Shifted(a: seq<Entry>, x: Entry, b: seq<Entry>)
    ensures a + ([x] + b) == a + [x] + b
  {
  }

  lemma CollectOne(es: seq<Entry>, after: nat, page: seq<Entry>, i: nat)
    requires i < |es| && Collecting(es, after, page, i)
    ensures Collecting(es, after, if es[i].body.sequence > after then page + [es[i]] else page, i + 1)
  {
    assert es[i..][1..] == es[i + 1..];
    if es[i].body.sequence > after { Shifted(page, es[i], After(es[i + 1..], after)); }
  }

  lemma Collected(es: seq<Entry>, after: nat, limit: nat, page: seq<Entry>, i: nat)
    requires Collecting(es, after, page, i) && |page| <= limit && (i == |es| || |page| == limit)
    ensures page == Page(es, after, limit)
  {
    if i == |es| {
      assert es[i..] == [];
    } else {
      assert (page + After(es[i..], after))[..limit] == page;
    }
  }

  datatype Verification = Verification(ok: bool, checkedLogs: nat, checkedEntries: nat, checkedCheckpoints: nat)

  // The logs a verification looks at: one, or all.
  function Selected(st: LedgerState, selected: Option<Bytes>): set<Bytes> {
    set log | log in st.logs && (selected.None? || log == selected.value)
  }

  // One log is looked at, or none of that name, or all.
  lemma SelectedTotals(st: LedgerState, selected: Option<Bytes>, count: Bytes -> nat)
    ensures var logs := Selected(st, selected);
      match selected
      case None => |logs| == |st.logs| && Total(count, logs) == Total(count, st.logs.Keys)
      case Some(log) =>
        if log in st.logs then |logs| == 1 && Total(count, logs) == count(log)
        else |logs| == 0 && Total(count, logs) == 0
  {
    var logs := Selected(st, selected);
    match selected
    case None =>
      assert logs == st.logs.Keys;
    case Some(log) =>
      if log in st.logs {
        assert logs == {log};
        TotalSplit(count, logs, log);
        assert logs - {log} == {};
      } else {
        assert logs == {};
      }
  }

  // What a verification of a readable file counts.
  ghost predicate Counted(st: LedgerState, selected: Option<Bytes>, v: Verification) {
    match selected
    case None =>
      && v.checkedLogs == |st.logs| && v.checkedEntries == Total(EntryCounts(st), st.logs.Keys)
      && v.checkedCheckpoints == Total(CheckpointCounts(st), st.logs.Keys)
    case Some(log) =>
      if log in st.logs
      then
        && v.checkedLogs == 1 && v.checkedEntries == |EntriesOf(st, log)|
        && v.checkedCheckpoints == |CheckpointsOf(st, log)|
      else v.checkedLogs == 0 && v.checkedEntries == 0 && v.checkedCheckpoints == 0
  }

  method Sum(count: Bytes -> nat, logs: set<Bytes>) returns (n: nat)
    ensures n == Total(count, logs)
  {
    var remaining := logs;
    n := 0;
    while remaining != {}
      invariant n + Total(count, remaining) == Total(count, logs)
    {
      var log :| log in remaining;
      TotalSplit(count, remaining, log);
      n := n + count(log);
      remaining := remaining - {log};
    }
  }

  method ProjectionText(c: Context, es: seq<Entry>) returns (text: Bytes)
    ensures text == Projection(c, es)
  {
    text := "";
    for i := 0 to |es|
      invariant text == Projection(c, es[..i])
    {
      assert es[..i + 1][..i] == es[..i];
      text := text + c.encodeEntry(es[i]) + "\n";
    }
    assert es[..|es|] == es;
  }

  lemma WrittenOneMore(c: Context, st: LedgerState, logs: set<Bytes>, log: Bytes, result: Bytes -> Publish,
      files: map<Bytes, Bytes>)
    ensures files + Written(c, st, logs + {log}, result) ==
      if result(log).Unpublished? then files + Written(c, st, logs, result)
      else (files + Written(c, st, logs, result))[log := Projection(c, EntriesOf(st, log))]
  {
  }

  lemma DirtyOneMore(pending: set<Bytes>, done: set<Bytes>, log: Bytes, result: Bytes -> Publish)
    requires pending !! done && log in pending
    ensures (pending - {log}) + StillDirty(done + {log}, result) ==
      if result(log).Published? then pending + StillDirty(done, result) - {log} else pending + StillDirty(done, result)
    ensures |StillDirty(done + {log}, result)| == |StillDirty(done, result)| + if result(log).Published? then 0 else 1
  {
    assert StillDirty(done + {log}, result) ==
      if result(log).Published? then StillDirty(done, result) else StillDirty(done, result) + {log};
  }

  lemma OneMore(pending: set<Bytes>, done: set<Bytes>, log: Bytes)
    requires pending !! done && log in pending
    ensures pending - {log} !! done + {log} && (pending - {log}) + (done + {log}) == pending + done
    ensures |done + {log}| == |done| + 1 && |pending - {log}| < |pending|
  {
  }

  lemma NothingDone(c: Context, st: LedgerState, dirty: set<Bytes>, files: map<Bytes, Bytes>, result: Bytes -> Publish)
    ensures dirty + StillDirty({}, result) == dirty && {} + StillDirty(dirty, result) == StillDirty(dirty, result)
    ensures files + Written(c, st, {}, result) == files && StillDirty({}, result) == {}
  {
  }

  method PublishPending(c: Context, st: LedgerState, dirty: set<Bytes>, files: map<Bytes, Bytes>,
      result: Bytes -> Publish)
    returns (dirty': set<Bytes>, files': map<Bytes, Bytes>, success: nat, failed: nat)
    ensures dirty' == StillDirty(dirty, result)
    ensures files' == files + Written(c, st, dirty, result)
    ensures failed == |dirty'| && success + failed == |dirty|
  {
    NothingDone(c, st, dirty, files, result);
    var pending, done := dirty, {};
    dirty', files', success, failed := dirty, files, 0, 0;
    while pending != {}
      invariant pending !! done && pending + done == dirty
      invariant dirty' == pending + StillDirty(done, result)
      invariant files' == files + Written(c, st, done, result)
      invariant failed == |StillDirty(done, result)| && success + failed == |done|
      decreases |pending|
    {
      var log :| log in pending;
      WrittenOneMore(c, st, done, log, result, files);
      DirtyOneMore(pending, done, log, result);
      OneMore(pending, done, log);
      var text := ProjectionText(c, EntriesOf(st, log));
      files' := if result(log).Unpublished? then files' else files'[log := text];
      if result(log).Published? {
        dirty', success := dirty' - {log}, success + 1;
      } else {
        failed := failed + 1;
      }
      pending, done := pending - {log}, done + {log};
    }
  }

  class LedgerStore {
    const setup: Setup
    var disk: Bytes
    var index: LedgerIndex
    var writable: bool
    var dirty: set<Bytes>
    var files: map<Bytes, Bytes>

    ghost function State(): System
      reads this, index
    {
      System(disk, index.View(), writable, dirty, files)
    }

    ghost predicate Valid()
      reads this, index
    {
      Lawful(setup.context) && Consistent(setup, State())
    }

    constructor (setup: Setup, disk: Bytes, files: map<Bytes, Bytes>, index: LedgerIndex)
      requires Lawful(setup.context) && ReplayFrom(setup.context, EMPTY, disk) == Ok(index.View())
      ensures Valid() && this.setup == setup && this.index == index
      ensures Opened(setup, disk, files) == Some(State())
    {
      this.setup := setup;
      this.disk, this.index, this.files, this.writable := disk, index, files, true;
      this.dirty := if setup.projecting then index.logs.Keys else {};
      new;
      OpenedConsistent(setup, disk, files);
    }

    static method Open(setup: Setup, disk: Bytes, files: map<Bytes, Bytes>) returns (store: LedgerStore?)
      requires Lawful(setup.context)
      ensures store == null <==> Opened(setup, disk, files).None?
      ensures store != null ==> fresh(store) && fresh(store.index) && store.Valid() && store.setup == setup
      ensures store != null ==> Opened(setup, disk, files) == Some(store.State())
    {
      var index, fault := ReplayFile(setup.context, disk);
      if fault.Some? {
        return null;
      }
      store := new LedgerStore(setup, disk, files, index);
    }

    /** One append: refuse, recognise, or commit one framed record to file, index and dirty set. */
    method Append(a: AcceptedEvent, now: Bytes, w: Write) returns (outcome: Outcome)
      requires Valid()
      modifies this, index
      ensures Valid() && index == old(index)
      ensures (State(), outcome) == Storage.Append(setup, old(State()), a, now, w)
    {
      AppendConsistent(setup, State(), a, now, w);
      if !writable {
        return Internal;
      }
      var digest := setup.context.requestDigest(a);
      if a.event.eventId in index.events {
        return if index.events[a.event.eventId].requestDigest == digest then Duplicate else Conflict;
      }
      var record := NextRecord(setup, index.View(), a, now);
      if ValidateNext(setup.context, index.View(), record).Reject? {
        return Internal;
      }
      var encoded := setup.context.encode(record);
      if |encoded| > MAX_RECORD_BYTES {
        return Internal;
      }
      Write(record, encoded + "\n", w);
      return if w.Durable? then Appended else Internal;
    }

    // The durable write, and what follows it when it succeeds.
    method Write(record: LedgerRecord, frame: Bytes, w: Write)
      requires frame == Frame(setup.context, record)
      modifies this, index
      ensures index == old(index) && State() == Commit(setup, old(State()), record, w)
    {
      match w {
        case Torn(kept) =>
          disk := disk + Kept(frame, kept);
          writable := false;
          return;
        case Durable =>
          disk := disk + frame;
      }
      index.InsertRecord(record);
      if setup.projecting {
        dirty := dirty + {record.entry.body.logId};
      }
    }

    /** Entries after a sequence number, at most `limit` of them. */
    method Entries(log: Bytes, after: nat, limit: nat) returns (page: seq<Entry>)
      ensures page == Page(EntriesOf(index.View(), log), after, limit)
    {
      var es := if log in index.entries then index.entries[log] else [];
      page := [];
      var i := 0;
      while i < |es| && |page| < limit
        invariant 0 <= i <= |es| && |page| <= limit
        invariant Collecting(es, after, page, i)
      {
        CollectOne(es, after, page, i);
        if es[i].body.sequence > after {
          page := page + [es[i]];
        }
        i := i + 1;
      }
      Collected(es, after, limit, page, i);
    }

    /** Replay the file and compare: ok exactly when writes are enabled and the file gives this index. */
    method Verify(selected: Option<Bytes>) returns (v: Verification)
      ensures v.ok == Intact(setup, State())
      ensures match ReplayFrom(setup.context, EMPTY, disk)
        case Err(_) => v == Verification(false, 0, 0, 0)
        case Ok(st) => Counted(st, selected, v)
    {
      var replayed, fault := ReplayFile(setup.context, disk);
      if fault.Some? {
        return Verification(false, 0, 0, 0);
      }
      var ok := writable && replayed.View() == index.View();
      var logs := Selected(replayed.View(), selected);
      SelectedTotals(replayed.View(), selected, EntryCounts(replayed.View()));
      SelectedTotals(replayed.View(), selected, CheckpointCounts(replayed.View()));
      var entries := Sum(EntryCounts(replayed.View()), logs);
      var checkpoints := Sum(CheckpointCounts(replayed.View()), logs);
      return Verification(ok, |logs|, entries, checkpoints);
    }

    /** Rewrite every waiting projection; a log stops waiting only when its file was confirmed. */
    method FlushProjections(result: Bytes -> Publish) returns (success: nat, failed: nat)
      requires Valid()
      modifies this
      ensures Valid() && index == old(index)
      ensures State() == Flush(setup, old(State()), result)
      ensures failed == |dirty| && success + failed == |old(dirty)|
    {
      FlushConsistent(setup, State(), result);
      dirty, files, success, failed := PublishPending(setup.context, index.View(), dirty, files, result);
    }
  }
}
