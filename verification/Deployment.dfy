/** The ledger service from its first start, with the deployed codec, hash and signer. */
module Deployment {
  import opened Wrappers
  import opened Json
  import opened Events
  import opened Ledger
  import opened Replay
  import opened Storage
  import opened Logger
  import opened RecordSize
  import opened Runs
  import opened CheckpointNames

  lemma FreshStart(u: Setup)
    requires Lawful(u.context)
    ensures Opened(u, "", map[]) == Some(System("", EMPTY, true, {}, map[]))
    ensures Consistent(u, System("", EMPTY, true, {}, map[]))
  {
    assert EMPTY.logs.Keys == {};
    assert ReplayFrom(u.context, EMPTY, "") == Ok(EMPTY);
    OpenedConsistent(u, "", map[]);
  }

  /** From an empty file, after every run of appends, verifications, flushes and restarts: the index has the
      full invariant and file, index and projections agree; checkpoints are on schedule; and unless a write
      failed the file replays to the index. The signer verifying what it signed is the only hypothesis. */
  lemma EveryRun(l: Library, interval: Interval, projecting: bool, ops: seq<Op>)
    requires Genuine(l)
    ensures var u := Setup(ContextOf(l), interval, projecting);
      && Opened(u, "", map[]).Some?
      && var t := Run(u, Opened(u, "", map[]).value, ops);
      && Consistent(u, t)
      && Scheduled(interval, t.index)
      && (NoFailedWrite(ops) ==> Intact(u, t))
  {
    var u := Setup(ContextOf(l), interval, projecting);
    var s := System("", EMPTY, true, {}, map[]);
    ContextLawful(l);
    FreshStart(u);
    EmptyScheduled(interval);
    RunConsistent(u, s, ops);
    RunScheduled(u, s, ops);
    if NoFailedWrite(ops) { RunIntact(u, s, ops); }
  }

  /** From an empty file, after any run without a failed write, every cut of the file replays exactly when the
      file had that length at some moment of the run, and then to the index of that moment. */
  lemma EveryCut(l: Library, interval: Interval, projecting: bool, ops: seq<Op>, cut: nat)
    requires Genuine(l) && NoFailedWrite(ops)
    ensures var u, s := Setup(ContextOf(l), interval, projecting), System("", EMPTY, true, {}, map[]);
      cut <= |Run(u, s, ops).disk| ==>
      var result := ReplayFrom(u.context, EMPTY, Run(u, s, ops).disk[..cut]);
      && (result.Ok? <==> exists j :: 0 <= j <= |ops| && |Moment(u, s, ops, j).disk| == cut)
      && forall j :: 0 <= j <= |ops| && |Moment(u, s, ops, j).disk| == cut ==> result == Ok(Moment(u, s, ops, j).index)
  {
    var u, s := Setup(ContextOf(l), interval, projecting), System("", EMPTY, true, {}, map[]);
    ContextLawful(l);
    FreshStart(u);
    if cut <= |Run(u, s, ops).disk| { CutMoments(u, s, ops, cut); }
  }

  /** After any run, a second submission under a committed id changes nothing. While the store writes, the
      same content is answered Duplicate and other content Conflict, unless the two collide under SHA-256. */
  lemma ResubmittedContent(l: Library, u: Setup, s: System, a: AcceptedEvent, now: Bytes, w: Write, ops: seq<Op>,
                           b: AcceptedEvent, now': Bytes, w': Write)
    requires Genuine(l) && u.context == ContextOf(l) && Consistent(u, s)
    requires Append(u, s, a, now, w).1.Appended? && b.event.eventId == a.event.eventId
    ensures var t := Run(u, Append(u, s, a, now, w).0, ops);
      var (t', outcome) := Append(u, t, b, now', w');
      && t' == t
      && (t.writable && a == b ==> outcome == Duplicate)
      && (t.writable && a != b ==> outcome == Conflict || HashCollision(l, AcceptedBytes(a), AcceptedBytes(b)))
  {
    ContextLawful(l);
    Resubmission(u, s, a, now, w, ops, b, now', w');
    if a != b { DifferentContent(l, a, b); }
  }

  lemma AppendedIf(u: Setup, s: System, a: AcceptedEvent, now: Bytes, w: Write)
    ensures Append(u, s, a, now, w).1.Appended? <==>
      && s.writable && w.Durable? && a.event.eventId !in s.index.events
      && Admits(u, s.index, NextRecord(u, s.index, a, now))
  {
  }

  lemma NewEventAdmitted(l: Library, u: Setup, st: LedgerState, a: AcceptedEvent, now: Bytes)
    requires u.context == ContextOf(l) && Lawful(u.context) && Bounded(l)
    requires Invariant(u.context, st) && a.event.eventId !in st.events
    requires Sized(a.event.references) && |now| <= 128 && NextSequence(st, a.event.sessionId) < U64_LIMIT
    ensures var e := NextRecord(u, st, a, now).entry;
      Admits(u, st, NextRecord(u, st, a, now)) <==>
      && ValidEvent(a.event) && ValidIdentifier(a.producerId) && l.rfc3339(now)
      && (e.body.sequence % u.interval == 0 ==> CheckpointName(l, e) !in st.checkpoints)
  {
    HonestAppend(u, st, a, now);
    assert LogOk(u.context, st, a.event.sessionId);
    if ValidEvent(a.event) && ValidIdentifier(a.producerId) { RecordFits(l, u, st, a, now); }
  }

  /** With the deployed functions an append commits exactly when the store writes, the id is new, event,
      producer and clock are well formed, a due checkpoint's name is free, and the write is durable: the
      size limit never decides. */
  lemma AppendedIfNamed(l: Library, u: Setup, s: System, a: AcceptedEvent, now: Bytes, w: Write)
    requires Genuine(l) && Bounded(l) && u.context == ContextOf(l) && Consistent(u, s)
    requires Sized(a.event.references) && |now| <= 128 && NextSequence(s.index, a.event.sessionId) < U64_LIMIT
    ensures var e := NextRecord(u, s.index, a, now).entry;
      Append(u, s, a, now, w).1.Appended? <==>
      && s.writable && w.Durable? && a.event.eventId !in s.index.events
      && ValidEvent(a.event) && ValidIdentifier(a.producerId) && l.rfc3339(now)
      && (e.body.sequence % u.interval == 0 ==> CheckpointName(l, e) !in s.index.checkpoints)
  {
    ContextLawful(l);
    AppendedIf(u, s, a, now, w);
    if a.event.eventId !in s.index.events {
      NewEventAdmitted(l, u, s.index, a, now);
    }
  }

  /** From an empty file, after every run, an append commits exactly when the store writes, the id is new, event,
      producer and clock are well formed and the write is durable: neither the size limit nor a taken checkpoint
      name ever decides, unless two byte strings whose SHA-256 texts agree on 48 digits are in hand. */
  lemma AppendedExactly(l: Library, interval: Interval, projecting: bool, ops: seq<Op>, a: AcceptedEvent, now: Bytes,
                        w: Write)
    returns (x: Bytes, y: Bytes)
    requires Genuine(l) && Bounded(l) && Sized(a.event.references) && |now| <= 128
    requires var u := Setup(ContextOf(l), interval, projecting);
      NextSequence(Run(u, System("", EMPTY, true, {}, map[]), ops).index, a.event.sessionId) < U64_LIMIT
    ensures var u := Setup(ContextOf(l), interval, projecting);
      var t := Run(u, System("", EMPTY, true, {}, map[]), ops);
      NameCollision(l, x, y) ||
      (Append(u, t, a, now, w).1.Appended? <==>
       && t.writable && w.Durable? && a.event.eventId !in t.index.events
       && ValidEvent(a.event) && ValidIdentifier(a.producerId) && l.rfc3339(now))
  {
    var u, s := Setup(ContextOf(l), interval, projecting), System("", EMPTY, true, {}, map[]);
    var t := Run(u, s, ops);
    ContextLawful(l);
    FreshStart(u);
    EmptyNamed(u.context);
    RunConsistent(u, s, ops);
    RunNamed(u, s, ops);
    x, y := NextNameFree(l, t.index, a, now);
    AppendedIfNamed(l, u, t, a, now, w);
  }
}
