/** Whole runs of a store: opening, appending, verifying, flushing, crashing and reopening. */
module Runs {
  import opened Json
  import opened Events
  import opened Ledger
  import opened Replay
  import opened Storage

  datatype Op =
    | Submit(accepted: AcceptedEvent, now: Bytes, write: Write)
    | Verify
    | FlushProjections(result: Bytes -> Publish)
    | Reopen

  // A restart that finds an unreadable file leaves the service down: nothing changes.
  function Step(u: Setup, s: System, op: Op): System {
    match op
    case Submit(a, now, w) => Append(u, s, a, now, w).0
    case Verify => s
    case FlushProjections(result) => Flush(u, s, result)
    case Reopen => (match Opened(u, s.disk, s.files) case None => s case Some(s') => s')
  }

  function Run(u: Setup, s: System, ops: seq<Op>): System
    decreases ops
  {
    if ops == [] then s else Run(u, Step(u, s, ops[0]), ops[1..])
  }

  lemma StepConsistent(u: Setup, s: System, op: Op)
    requires Lawful(u.context) && Consistent(u, s)
    ensures Consistent(u, Step(u, s, op))
  {
    match op
    case Submit(a, now, w) => AppendConsistent(u, s, a, now, w);
    case Verify =>
    case FlushProjections(result) => FlushConsistent(u, s, result);
    case Reopen => if Opened(u, s.disk, s.files).Some? { OpenedConsistent(u, s.disk, s.files); }
  }

  /** File, index and projections agree after every run, failed writes and restarts included. */
  lemma {:induction false} RunConsistent(u: Setup, s: System, ops: seq<Op>)
    requires Lawful(u.context) && Consistent(u, s)
    ensures Consistent(u, Run(u, s, ops))
    decreases ops
  {
    if ops != [] {
      StepConsistent(u, s, ops[0]);
      RunConsistent(u, Step(u, s, ops[0]), ops[1..]);
    }
  }

  ghost predicate NoFailedWrite(ops: seq<Op>) {
    forall i :: 0 <= i < |ops| && ops[i].Submit? ==> ops[i].write.Durable?
  }

  lemma StepWritable(u: Setup, s: System, op: Op)
    requires Consistent(u, s) && s.writable && (op.Submit? ==> op.write.Durable?)
    ensures Step(u, s, op).writable
  {
  }

  /** Without a failed write, the bytes on disk always replay to exactly the index in memory,
      so verification reports success. */
  lemma {:induction false} RunIntact(u: Setup, s: System, ops: seq<Op>)
    requires Lawful(u.context) && Consistent(u, s) && s.writable && NoFailedWrite(ops)
    ensures Intact(u, Run(u, s, ops))
    decreases ops
  {
    if ops != [] {
      StepConsistent(u, s, ops[0]);
      StepWritable(u, s, ops[0]);
      RunIntact(u, Step(u, s, ops[0]), ops[1..]);
    }
  }

  // ---------- History only grows ----------

  ghost predicate SameEvent(st: LedgerState, st': LedgerState, id: Bytes) {
    id in st.events ==> id in st'.events && st'.events[id] == st.events[id]
  }

  predicate LogGrows(st: LedgerState, st': LedgerState, log: Bytes) {
    EntriesOf(st, log) <= EntriesOf(st', log) && CheckpointsOf(st, log) <= CheckpointsOf(st', log)
  }

  ghost predicate Grows(st: LedgerState, st': LedgerState) {
    && (forall id :: SameEvent(st, st', id))
    && (forall log :: LogGrows(st, st', log))
  }

  lemma InsertGrows(st: LedgerState, r: LedgerRecord)
    requires r.accepted.event.eventId !in st.events
    ensures Grows(st, Insert(st, r))
  {
    forall log ensures LogGrows(st, Insert(st, r), log) { InsertOne(st, r, log); }
  }

  lemma TornIndex(u: Setup, s: System, base: Bytes, a: AcceptedEvent, now: Bytes, kept: nat)
    requires Lawful(u.context) && !s.writable && TornAfter(u, s, base, a, now, kept)
    ensures var t, r := Step(u, s, Reopen), NextRecord(u, s.index, a, now);
      t.index == s.index || (Admits(u, s.index, r) && t.index == Insert(s.index, r))
  {
    TornReplays(u, base, s.index, NextRecord(u, s.index, a, now), kept);
  }

  // A restart brings back the index, or the index with the one record whose write was reported failed.
  lemma ReopenIndex(u: Setup, s: System) returns (a: AcceptedEvent, now: Bytes)
    requires Lawful(u.context) && Consistent(u, s)
    ensures var t := Step(u, s, Reopen);
      t.index == s.index ||
      (Admits(u, s.index, NextRecord(u, s.index, a, now)) && t.index == Insert(s.index, NextRecord(u, s.index, a, now)))
  {
    if s.writable {
      a, now := AcceptedEvent(Event("", "", "", "", []), ""), "";
    } else {
      var base, b, at, kept :| TornAfter(u, s, base, b, at, kept);
      TornIndex(u, s, base, b, at, kept);
      a, now := b, at;
    }
  }

  lemma ReopenGrows(u: Setup, s: System)
    requires Lawful(u.context) && Consistent(u, s)
    ensures Grows(s.index, Step(u, s, Reopen).index)
  {
    var a, now := ReopenIndex(u, s);
    if Step(u, s, Reopen).index != s.index {
      PassFits(u.context, s.index, NextRecord(u, s.index, a, now));
      InsertGrows(s.index, NextRecord(u, s.index, a, now));
    }
  }

  lemma AppendGrows(u: Setup, s: System, a: AcceptedEvent, now: Bytes, w: Write)
    ensures Grows(s.index, Append(u, s, a, now, w).0.index)
  {
    var r := NextRecord(u, s.index, a, now);
    if Append(u, s, a, now, w).1.Appended? {
      InsertGrows(s.index, r);
    }
  }

  lemma StepGrows(u: Setup, s: System, op: Op)
    requires Lawful(u.context) && Consistent(u, s)
    ensures Grows(s.index, Step(u, s, op).index)
  {
    match op
    case Submit(a, now, w) => AppendGrows(u, s, a, now, w);
    case Verify =>
    case FlushProjections(_) =>
    case Reopen => ReopenGrows(u, s);
  }

  lemma GrowsTransitive(a: LedgerState, b: LedgerState, c: LedgerState)
    requires Grows(a, b) && Grows(b, c)
    ensures Grows(a, c)
  {
    forall id ensures SameEvent(a, c, id) {
      assert SameEvent(a, b, id) && SameEvent(b, c, id);
    }
    forall log ensures LogGrows(a, c, log) {
      assert LogGrows(a, b, log) && LogGrows(b, c, log);
    }
  }

  /** No run rewrites or loses a committed entry, event or checkpoint. */
  lemma {:induction false} RunGrows(u: Setup, s: System, ops: seq<Op>)
    requires Lawful(u.context) && Consistent(u, s)
    ensures Grows(s.index, Run(u, s, ops).index)
    decreases ops
  {
    if ops != [] {
      var s' := Step(u, s, ops[0]);
      StepConsistent(u, s, ops[0]);
      StepGrows(u, s, ops[0]);
      RunGrows(u, s', ops[1..]);
      GrowsTransitive(s.index, s'.index, Run(u, s, ops).index);
    }
  }

  // ---------- Idempotence ----------

  /** An event id is committed by at most one entry across all logs. */
  lemma OneEntryPerEvent(c: Context, st: LedgerState, log: Bytes, i: nat, log': Bytes, i': nat)
    requires Invariant(c, st)
    requires i < |EntriesOf(st, log)| && i' < |EntriesOf(st, log')|
    requires EntriesOf(st, log)[i].body.eventId == EntriesOf(st, log')[i'].body.eventId
    ensures log == log' && i == i'
  {
    assert Recorded(st, log) && Recorded(st, log');
    assert LogOk(c, st, log) && LogOk(c, st, log');
  }

  // The answer to a submission whose event id is already known.
  lemma KnownEvent(u: Setup, s: System, b: AcceptedEvent, now: Bytes, w: Write, digest: Bytes)
    requires b.event.eventId in s.index.events && s.index.events[b.event.eventId].requestDigest == digest
    ensures Append(u, s, b, now, w) ==
      (s, if !s.writable then Internal else if u.context.requestDigest(b) == digest then Duplicate else Conflict)
  {
  }

  lemma CommittedEvent(u: Setup, s: System, a: AcceptedEvent, now: Bytes, w: Write)
    requires Append(u, s, a, now, w).1.Appended?
    ensures var st := Append(u, s, a, now, w).0.index;
      a.event.eventId in st.events && st.events[a.event.eventId].requestDigest == u.context.requestDigest(a)
  {
  }

  /** Once an event is committed, every later submission under its id changes nothing: with the same
      digest it is a duplicate, with another digest a conflict, for as long as the store writes. */
  lemma Resubmission(u: Setup, s: System, a: AcceptedEvent, now: Bytes, w: Write, ops: seq<Op>,
                     b: AcceptedEvent, now': Bytes, w': Write)
    requires Lawful(u.context) && Consistent(u, s)
    requires Append(u, s, a, now, w).1.Appended?
    requires b.event.eventId == a.event.eventId
    ensures var t := Run(u, Append(u, s, a, now, w).0, ops);
      Append(u, t, b, now', w') == (t,
        if !t.writable then Internal
        else if u.context.requestDigest(b) == u.context.requestDigest(a) then Duplicate
        else Conflict)
  {
    var s1 := Append(u, s, a, now, w).0;
    AppendConsistent(u, s, a, now, w);
    RunGrows(u, s1, ops);
    CommittedEvent(u, s, a, now, w);
    assert SameEvent(s1.index, Run(u, s1, ops).index, a.event.eventId);
    KnownEvent(u, Run(u, s1, ops), b, now', w', u.context.requestDigest(a));
  }

  /** After a failed write and a successful restart the event is either entirely absent or entirely
      committed, and submitting it again, at whatever time, leaves exactly one entry for it: the one of
      the attempt that reached the file. */
  lemma CrashRecovery(u: Setup, s: System, a: AcceptedEvent, now: Bytes, kept: nat, now': Bytes)
    requires Lawful(u.context) && Consistent(u, s) && s.writable && a.event.eventId !in s.index.events
    requires Admits(u, s.index, NextRecord(u, s.index, a, now)) && Admits(u, s.index, NextRecord(u, s.index, a, now'))
    ensures var r := NextRecord(u, s.index, a, now);
      var crashed := Append(u, s, a, now, Torn(kept)).0;
      var up := Opened(u, crashed.disk, crashed.files);
      && (up.Some? <==> kept == 0 || kept >= |Frame(u.context, r)|)
      && (up.Some? ==>
            && up.value.index == (if kept == 0 then s.index else Insert(s.index, r))
            && Append(u, up.value, a, now', Durable).0.index ==
               Insert(s.index, NextRecord(u, s.index, a, if kept == 0 then now' else now))
            && Append(u, up.value, a, now', Durable).1 == if kept == 0 then Appended else Duplicate)
  {
    var r := NextRecord(u, s.index, a, now);
    TornReplays(u, s.disk, s.index, r, kept);
    var up := Opened(u, s.disk + Kept(Frame(u.context, r), kept), s.files);
    if up.Some? && kept > 0 {
      KnownEvent(u, up.value, a, now', Durable, u.context.requestDigest(a));
    }
  }

  // ---------- Cuts ----------

  // The store after so many operations.
  function Moment(u: Setup, s: System, ops: seq<Op>, j: nat): System
    requires j <= |ops|
  {
    Run(u, s, ops[..j])
  }

  lemma MomentNext(u: Setup, s: System, ops: seq<Op>, j: nat)
    requires 0 < j <= |ops|
    ensures Moment(u, s, ops, j) == Moment(u, Step(u, s, ops[0]), ops[1..], j - 1)
  {
    assert ops[..j][1..] == ops[1..][..j - 1];
  }

  // One operation whose write does not fail leaves file and index alone, or adds one record to both.
  lemma StepDisk(u: Setup, s: System, op: Op) returns (a: AcceptedEvent, now: Bytes)
    requires Consistent(u, s) && s.writable && (op.Submit? ==> op.write.Durable?)
    ensures var t, r := Step(u, s, op), NextRecord(u, s.index, a, now);
      || (t.disk == s.disk && t.index == s.index)
      || (Admits(u, s.index, r) && t.disk == s.disk + Frame(u.context, r) && t.index == Insert(s.index, r))
  {
    a, now := AcceptedEvent(Event("", "", "", "", []), ""), "";
    if op.Submit? { a, now := op.accepted, op.now; }
  }

  lemma {:induction false} RunDisk(u: Setup, s: System, ops: seq<Op>)
    requires Lawful(u.context) && Consistent(u, s) && s.writable && NoFailedWrite(ops)
    ensures s.disk <= Run(u, s, ops).disk
    decreases ops
  {
    if ops != [] {
      var a, now := StepDisk(u, s, ops[0]);
      StepConsistent(u, s, ops[0]);
      StepWritable(u, s, ops[0]);
      RunDisk(u, Step(u, s, ops[0]), ops[1..]);
    }
  }

  lemma CutPrefix(base: Bytes, frame: Bytes, whole: Bytes, cut: nat)
    requires base + frame <= whole && |base| < cut < |base| + |frame|
    ensures whole[..cut] == base + Kept(frame, cut - |base|)
  {
  }

  // Cutting inside the record that one operation added.
  lemma CutInside(u: Setup, base: Bytes, st: LedgerState, r: LedgerRecord, whole: Bytes, cut: nat)
    requires Lawful(u.context) && ReplayFrom(u.context, EMPTY, base) == Ok(st) && Admits(u, st, r)
    requires base + Frame(u.context, r) <= whole && |base| < cut < |base| + |Frame(u.context, r)|
    ensures ReplayFrom(u.context, EMPTY, whole[..cut]).Err?
  {
    TornReplays(u, base, st, r, cut - |base|);
    CutPrefix(base, Frame(u.context, r), whole, cut);
  }

  // What a cut replays to: the state at a moment when the file had that length, or an error.
  ghost predicate CutAt(u: Setup, s: System, ops: seq<Op>, cut: nat, result: Replayed) {
    && (result.Ok? ==> exists j :: 0 <= j <= |ops| && |Moment(u, s, ops, j).disk| == cut)
    && forall j :: 0 <= j <= |ops| && |Moment(u, s, ops, j).disk| == cut ==> result == Ok(Moment(u, s, ops, j).index)
  }

  lemma {:induction false} MomentsGrow(u: Setup, s: System, ops: seq<Op>, j: nat)
    requires Lawful(u.context) && Consistent(u, s) && s.writable && NoFailedWrite(ops) && j <= |ops|
    ensures s.disk <= Moment(u, s, ops, j).disk
  {
    assert NoFailedWrite(ops[..j]);
    RunDisk(u, s, ops[..j]);
  }

  lemma MomentLater(u: Setup, s: System, ops: seq<Op>, cut: nat, result: Replayed, j: nat)
    requires ops != [] && CutAt(u, Step(u, s, ops[0]), ops[1..], cut, result)
    requires |s.disk| <= |Step(u, s, ops[0]).disk| <= cut && (|s.disk| == cut ==> s.index == Step(u, s, ops[0]).index)
    requires j <= |ops| && |Moment(u, s, ops, j).disk| == cut
    ensures result == Ok(Moment(u, s, ops, j).index)
  {
    if j > 0 {
      MomentNext(u, s, ops, j);
    } else {
      assert Moment(u, s, ops, 0) == s && Moment(u, Step(u, s, ops[0]), ops[1..], 0) == Step(u, s, ops[0]);
    }
  }

  // Everything from the first operation on, for a cut in or beyond the file it leaves.
  lemma CutLater(u: Setup, s: System, ops: seq<Op>, cut: nat, result: Replayed)
    requires ops != [] && CutAt(u, Step(u, s, ops[0]), ops[1..], cut, result)
    requires |s.disk| <= |Step(u, s, ops[0]).disk| <= cut && (|s.disk| == cut ==> s.index == Step(u, s, ops[0]).index)
    ensures CutAt(u, s, ops, cut, result)
  {
    if result.Ok? {
      var j :| 0 <= j <= |ops[1..]| && |Moment(u, Step(u, s, ops[0]), ops[1..], j).disk| == cut;
      MomentNext(u, s, ops, j + 1);
    }
    forall j | 0 <= j <= |ops| && |Moment(u, s, ops, j).disk| == cut ensures result == Ok(Moment(u, s, ops, j).index) {
      MomentLater(u, s, ops, cut, result, j);
    }
  }

  lemma MomentBeyond(u: Setup, s: System, ops: seq<Op>, j: nat)
    requires Lawful(u.context) && Consistent(u, s) && s.writable && NoFailedWrite(ops) && 0 < j <= |ops|
    ensures |Moment(u, s, ops, j).disk| >= |Step(u, s, ops[0]).disk|
  {
    MomentNext(u, s, ops, j);
    StepConsistent(u, s, ops[0]);
    StepWritable(u, s, ops[0]);
    MomentsGrow(u, Step(u, s, ops[0]), ops[1..], j - 1);
  }

  // A cut in the record that the first operation added, or right before it.
  lemma CutFirst(u: Setup, s: System, ops: seq<Op>, cut: nat, whole: Bytes, r: LedgerRecord)
    requires Lawful(u.context) && Consistent(u, s) && s.writable && NoFailedWrite(ops) && ops != []
    requires Admits(u, s.index, r) && Step(u, s, ops[0]).disk == s.disk + Frame(u.context, r) <= whole
    requires |s.disk| <= cut < |Step(u, s, ops[0]).disk|
    ensures CutAt(u, s, ops, cut, ReplayFrom(u.context, EMPTY, whole[..cut]))
  {
    assert Moment(u, s, ops, 0) == s;
    if cut == |s.disk| {
      assert whole[..cut] == s.disk;
    } else {
      CutInside(u, s.disk, s.index, r, whole, cut);
    }
    forall j | 0 < j <= |ops| ensures |Moment(u, s, ops, j).disk| > cut { MomentBeyond(u, s, ops, j); }
  }

  lemma {:induction false} CutsReplay(u: Setup, s: System, ops: seq<Op>, cut: nat)
    requires Lawful(u.context) && Consistent(u, s) && s.writable && NoFailedWrite(ops)
    requires |s.disk| <= cut <= |Run(u, s, ops).disk|
    ensures CutAt(u, s, ops, cut, ReplayFrom(u.context, EMPTY, Run(u, s, ops).disk[..cut]))
    decreases ops
  {
    var whole := Run(u, s, ops).disk;
    if ops == [] {
      assert whole[..cut] == s.disk && Moment(u, s, ops, 0) == s;
    } else {
      var t := Step(u, s, ops[0]);
      var a, now := StepDisk(u, s, ops[0]);
      StepConsistent(u, s, ops[0]);
      StepWritable(u, s, ops[0]);
      RunDisk(u, t, ops[1..]);
      if cut < |t.disk| {
        CutFirst(u, s, ops, cut, whole, NextRecord(u, s.index, a, now));
      } else {
        CutsReplay(u, t, ops[1..], cut);
        CutLater(u, s, ops, cut, ReplayFrom(u.context, EMPTY, whole[..cut]));
      }
    }
  }

  /** After any run without a failed write, the file cut at or beyond its starting length replays exactly when
      it is cut to the length it had at some earlier moment, and then to the index of that moment. */
  lemma CutMoments(u: Setup, s: System, ops: seq<Op>, cut: nat)
    requires Lawful(u.context) && Consistent(u, s) && s.writable && NoFailedWrite(ops)
    requires |s.disk| <= cut <= |Run(u, s, ops).disk|
    ensures var result := ReplayFrom(u.context, EMPTY, Run(u, s, ops).disk[..cut]);
      && (result.Ok? <==> exists j :: 0 <= j <= |ops| && |Moment(u, s, ops, j).disk| == cut)
      && forall j :: 0 <= j <= |ops| && |Moment(u, s, ops, j).disk| == cut ==> result == Ok(Moment(u, s, ops, j).index)
  {
    CutsReplay(u, s, ops, cut);
  }

  // ---------- Paging ----------

  lemma {:induction false} AfterAll(es: seq<Entry>, after: nat)
    requires forall i :: 0 <= i < |es| ==> es[i].body.sequence > after
    ensures After(es, after) == es
  {
    if es != [] { AfterAll(es[1..], after); }
  }

  lemma {:induction false} AfterSuffix(es: seq<Entry>, start: nat, after: nat)
    requires forall i :: 0 <= i < |es| ==> es[i].body.sequence == start + i + 1
    requires start <= after <= start + |es|
    ensures After(es, after) == es[after - start..]
  {
    if es != [] {
      if after == start {
        AfterAll(es, after);
      } else {
        AfterSuffix(es[1..], start + 1, after);
      }
    }
  }

  // A reader that remembers what it has seen and asks for what comes after.
  function ReadNext(es: seq<Entry>, seen: seq<Entry>, limit: nat): seq<Entry> {
    seen + Page(es, if seen == [] then 0 else seen[|seen| - 1].body.sequence, limit)
  }

  datatype Round = Round(ops: seq<Op>, limit: nat)

  // Each round lets any operations happen and then reads one page.
  function Read(u: Setup, s: System, log: Bytes, seen: seq<Entry>, rounds: seq<Round>): (System, seq<Entry>)
    decreases rounds
  {
    if rounds == [] then (s, seen)
    else
      var s' := Run(u, s, rounds[0].ops);
      Read(u, s', log, ReadNext(EntriesOf(s'.index, log), seen, rounds[0].limit), rounds[1..])
  }

  function Least(a: nat, b: nat): nat { if a < b then a else b }

  lemma PrefixPage(es: seq<Entry>, n: nat, limit: nat)
    requires n <= |es|
    ensures var found := es[n..];
      es[..n] + (if |found| <= limit then found else found[..limit]) == es[..Least(n + limit, |es|)]
  {
  }

  lemma ReadNextPrefix(es: seq<Entry>, seen: seq<Entry>, limit: nat)
    requires (forall i :: 0 <= i < |es| ==> es[i].body.sequence == i + 1) && seen <= es
    ensures ReadNext(es, seen, limit) == es[..Least(|seen| + limit, |es|)]
  {
    AfterSuffix(es, 0, |seen|);
    assert es[..|seen|] == seen;
    PrefixPage(es, |seen|, limit);
    assert seen != [] ==> seen[|seen| - 1].body.sequence == |seen|;
  }

  lemma ConsecutiveEntries(u: Setup, s: System, log: Bytes)
    requires Consistent(u, s)
    ensures forall i :: 0 <= i < |EntriesOf(s.index, log)| ==> EntriesOf(s.index, log)[i].body.sequence == i + 1
  {
    assert LogOk(u.context, s.index, log);
  }

  lemma PrefixThrough(a: seq<Entry>, b: seq<Entry>, c: seq<Entry>)
    requires a <= b <= c
    ensures a <= c
  {
  }

  // A longer run never shortens or rewrites a log.
  lemma RunExtends(u: Setup, s: System, ops: seq<Op>, log: Bytes)
    requires Lawful(u.context) && Consistent(u, s)
    ensures EntriesOf(s.index, log) <= EntriesOf(Run(u, s, ops).index, log)
  {
    RunGrows(u, s, ops);
    assert LogGrows(s.index, Run(u, s, ops).index, log);
  }

  lemma OnePage(u: Setup, s: System, log: Bytes, seen: seq<Entry>, round: Round)
    requires Lawful(u.context) && Consistent(u, s) && seen <= EntriesOf(s.index, log)
    ensures var t := Run(u, s, round.ops); var next := ReadNext(EntriesOf(t.index, log), seen, round.limit);
      Consistent(u, t) && seen <= next <= EntriesOf(t.index, log)
  {
    var t := Run(u, s, round.ops);
    RunConsistent(u, s, round.ops);
    RunExtends(u, s, round.ops, log);
    ConsecutiveEntries(u, t, log);
    PrefixThrough(seen, EntriesOf(s.index, log), EntriesOf(t.index, log));
    ReadNextPrefix(EntriesOf(t.index, log), seen, round.limit);
  }

  /** Paging by the last seen sequence always concatenates to a prefix of the chain, however many
      operations happen between the pages. */
  lemma {:induction false} PagingPrefix(u: Setup, s: System, log: Bytes, seen: seq<Entry>, rounds: seq<Round>)
    requires Lawful(u.context) && Consistent(u, s) && seen <= EntriesOf(s.index, log)
    ensures var (t, all) := Read(u, s, log, seen, rounds); seen <= all <= EntriesOf(t.index, log)
    decreases rounds
  {
    if rounds != [] {
      var s' := Run(u, s, rounds[0].ops);
      OnePage(u, s, log, seen, rounds[0]);
      PagingPrefix(u, s', log, ReadNext(EntriesOf(s'.index, log), seen, rounds[0].limit), rounds[1..]);
    }
  }

  // ---------- Checkpoint schedule ----------

  // Checkpoints of a log of n entries: in order, exactly at the multiples of the interval.
  ghost predicate OnSchedule(k: Interval, n: nat, cs: seq<Checkpoint>) {
    && (forall i :: 0 <= i < |cs| ==> 1 <= cs[i].body.sequence <= n && cs[i].body.sequence % k == 0)
    && (forall i, j :: 0 <= i < j < |cs| ==> cs[i].body.sequence < cs[j].body.sequence)
    && (forall m {:trigger m % k} :: 1 <= m <= n && m % k == 0 ==> SequenceTaken(cs, m))
  }

  ghost predicate LogScheduled(k: Interval, st: LedgerState, log: Bytes) {
    OnSchedule(k, |EntriesOf(st, log)|, CheckpointsOf(st, log))
  }

  ghost predicate Scheduled(k: Interval, st: LedgerState) {
    forall log :: LogScheduled(k, st, log)
  }

  lemma ScheduleGrows(k: Interval, n: nat, cs: seq<Checkpoint>, next: Checkpoint)
    requires OnSchedule(k, n, cs) && next.body.sequence == n + 1
    ensures OnSchedule(k, n + 1, if (n + 1) % k == 0 then cs + [next] else cs)
  {
    if (n + 1) % k == 0 {
      var cs' := cs + [next];
      forall m | 1 <= m <= n + 1 && m % k == 0 ensures SequenceTaken(cs', m) {
        if m <= n {
          assert SequenceTaken(cs, m);
          var i :| 0 <= i < |cs| && cs[i].body.sequence == m;
          assert cs'[i].body.sequence == m;
        } else {
          assert cs'[|cs|].body.sequence == m;
        }
      }
    }
  }

  lemma NextScheduled(u: Setup, st: LedgerState, a: AcceptedEvent, now: Bytes)
    requires var log := a.event.sessionId; LogOk(u.context, st, log) && LogScheduled(u.interval, st, log)
    ensures LogScheduled(u.interval, Insert(st, NextRecord(u, st, a, now)), a.event.sessionId)
  {
    var r, log := NextRecord(u, st, a, now), a.event.sessionId;
    InsertOne(st, r, log);
    HeadIsLast(u.context, st, log);
    ScheduleGrows(u.interval, |EntriesOf(st, log)|, CheckpointsOf(st, log), CreateCheckpoint(u.context, r.entry));
  }

  lemma InsertScheduled(u: Setup, st: LedgerState, a: AcceptedEvent, now: Bytes)
    requires Invariant(u.context, st) && Scheduled(u.interval, st)
    ensures Scheduled(u.interval, Insert(st, NextRecord(u, st, a, now)))
  {
    var r := NextRecord(u, st, a, now);
    forall log ensures LogScheduled(u.interval, Insert(st, r), log) {
      assert LogScheduled(u.interval, st, log) && LogOk(u.context, st, log);
      InsertOne(st, r, log);
      if log == r.entry.body.logId { NextScheduled(u, st, a, now); }
    }
  }

  lemma StepScheduled(u: Setup, s: System, op: Op)
    requires Lawful(u.context) && Consistent(u, s) && Scheduled(u.interval, s.index)
    ensures Scheduled(u.interval, Step(u, s, op).index)
  {
    match op
    case Submit(a, now, w) => if Append(u, s, a, now, w).1.Appended? { InsertScheduled(u, s.index, a, now); }
    case Verify =>
    case FlushProjections(_) =>
    case Reopen =>
      var a, now := ReopenIndex(u, s);
      InsertScheduled(u, s.index, a, now);
  }

  /** With one interval from an empty ledger, each log's checkpoints sit exactly at the multiples of
      the interval up to its head, after every run, failed writes and restarts included. */
  lemma {:induction false} RunScheduled(u: Setup, s: System, ops: seq<Op>)
    requires Lawful(u.context) && Consistent(u, s) && Scheduled(u.interval, s.index)
    ensures Scheduled(u.interval, Run(u, s, ops).index)
    decreases ops
  {
    if ops != [] {
      StepScheduled(u, s, ops[0]);
      StepConsistent(u, s, ops[0]);
      RunScheduled(u, Step(u, s, ops[0]), ops[1..]);
    }
  }

  lemma EmptyScheduled(k: Interval)
    ensures Scheduled(k, EMPTY)
  {
    assert forall log :: EntriesOf(EMPTY, log) == [] && CheckpointsOf(EMPTY, log) == [];
  }
}
