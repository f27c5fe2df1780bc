/** The names of checkpoints: why a taken name never stands in the way of an append. */
module CheckpointNames {
  import opened Json
  import opened Events
  import opened Ledger
  import opened Storage
  import opened Runs
  import opened Logger

  // ---------- What a name is the digest of ----------

  lemma {:induction false} DecimalDigits(n: nat)
    ensures forall i :: 0 <= i < |Decimal(n)| ==> IsDigit(Decimal(n)[i])
  {
    if n >= 10 { DecimalDigits(n / 10); }
  }

  lemma DecimalInjective(m: nat, n: nat)
    requires Decimal(m) == Decimal(n)
    ensures m == n
  {
    assert Decimal(m) + "" == Decimal(m);
    NumberParses(m, "");
    NumberParses(n, "");
  }

  // The last colon of a text whose tail has none.
  lemma LastColon(a: Bytes, d: Bytes, a': Bytes, d': Bytes)
    requires a + ":" + d == a' + ":" + d' && ':' !in d && ':' !in d'
    ensures a == a' && d == d'
  {
    var s := a + ":" + d;
    assert s[|a|] == ':' && s[|a'|] == ':';
    assert a == s[..|a|] && a' == s[..|a'|] && d == s[|a| + 1..] && d' == s[|a'| + 1..];
  }

  function NameText(e: Entry): Bytes {
    e.body.logId + ":" + Decimal(e.body.sequence) + ":" + e.entryHash
  }

  // A log id may contain colons, so the text is read from the right.
  lemma NameTextInjective(e: Entry, f: Entry)
    requires NameText(e) == NameText(f) && |e.entryHash| == |f.entryHash|
    ensures e.body.logId == f.body.logId && e.body.sequence == f.body.sequence && e.entryHash == f.entryHash
  {
    var s, n := NameText(e), |NameText(e)| - |e.entryHash|;
    assert s[n..] == e.entryHash && s[n..] == f.entryHash;
    var d, d' := Decimal(e.body.sequence), Decimal(f.body.sequence);
    assert s[..n - 1] == e.body.logId + ":" + d && s[..n - 1] == f.body.logId + ":" + d';
    DecimalDigits(e.body.sequence);
    DecimalDigits(f.body.sequence);
    LastColon(e.body.logId, d, f.body.logId, d');
    DecimalInjective(e.body.sequence, f.body.sequence);
  }

  // Two byte strings whose SHA-256 texts agree on their first 48 digits.
  ghost predicate NameCollision(l: Library, x: Bytes, y: Bytes) {
    x != y && l.sha(x)[..48] == l.sha(y)[..48]
  }

  /** Two entries have one checkpoint name only if they agree on log, sequence and hash, or else their texts have
      digests that agree on 48 digits. */
  lemma NameDecides(l: Library, e: Entry, f: Entry)
    requires CheckpointName(l, e) == CheckpointName(l, f) && |e.entryHash| == |f.entryHash|
    ensures NameCollision(l, NameText(e), NameText(f)) ||
      (e.body.logId == f.body.logId && e.body.sequence == f.body.sequence && e.entryHash == f.entryHash)
  {
    assert CheckpointName(l, e)[11..] == l.sha(NameText(e))[..48];
    assert CheckpointName(l, f)[11..] == l.sha(NameText(f))[..48];
    if NameText(e) == NameText(f) { NameTextInjective(e, f); }
  }

  // ---------- Every stored checkpoint has its entry's name ----------

  predicate NamedAfter(c: Context, es: seq<Entry>, p: Checkpoint) {
    1 <= p.body.sequence <= |es| && p.body.checkpointId == c.checkpointId(es[p.body.sequence - 1])
  }

  ghost predicate LogNamed(c: Context, st: LedgerState, log: Bytes) {
    forall i :: 0 <= i < |CheckpointsOf(st, log)| ==> NamedAfter(c, EntriesOf(st, log), CheckpointsOf(st, log)[i])
  }

  ghost predicate Named(c: Context, st: LedgerState) {
    forall log :: LogNamed(c, st, log)
  }

  lemma NextNamed(u: Setup, st: LedgerState, a: AcceptedEvent, now: Bytes)
    requires var log := a.event.sessionId; LogOk(u.context, st, log) && LogNamed(u.context, st, log)
    ensures LogNamed(u.context, Insert(st, NextRecord(u, st, a, now)), a.event.sessionId)
  {
    var r, log := NextRecord(u, st, a, now), a.event.sessionId;
    InsertOne(st, r, log);
    HeadIsLast(u.context, st, log);
    var es, es' := EntriesOf(st, log), EntriesOf(Insert(st, r), log);
    var cs, cs' := CheckpointsOf(st, log), CheckpointsOf(Insert(st, r), log);
    forall i | 0 <= i < |cs'| ensures NamedAfter(u.context, es', cs'[i]) {
      if i < |cs| {
        assert cs'[i] == cs[i] && NamedAfter(u.context, es, cs[i]);
      } else {
        assert cs'[i] == CreateCheckpoint(u.context, r.entry) && es'[|es|] == r.entry;
      }
    }
  }

  lemma InsertNamed(u: Setup, st: LedgerState, a: AcceptedEvent, now: Bytes)
    requires Invariant(u.context, st) && Named(u.context, st)
    ensures Named(u.context, Insert(st, NextRecord(u, st, a, now)))
  {
    var r := NextRecord(u, st, a, now);
    forall log ensures LogNamed(u.context, Insert(st, r), log) {
      assert LogNamed(u.context, st, log) && LogOk(u.context, st, log);
      InsertOne(st, r, log);
      if log == r.entry.body.logId { NextNamed(u, st, a, now); }
    }
  }

  lemma StepNamed(u: Setup, s: System, op: Op)
    requires Lawful(u.context) && Consistent(u, s) && Named(u.context, s.index)
    ensures Named(u.context, Step(u, s, op).index)
  {
    match op
    case Submit(a, now, w) => if Append(u, s, a, now, w).1.Appended? { InsertNamed(u, s.index, a, now); }
    case Verify =>
    case FlushProjections(_) =>
    case Reopen =>
      var a, now := ReopenIndex(u, s);
      InsertNamed(u, s.index, a, now);
  }

  /** In every run, failed writes and restarts included, each checkpoint is named after the entry it certifies. */
  lemma {:induction false} RunNamed(u: Setup, s: System, ops: seq<Op>)
    requires Lawful(u.context) && Consistent(u, s) && Named(u.context, s.index)
    ensures Named(u.context, Run(u, s, ops).index)
    decreases ops
  {
    if ops != [] {
      StepNamed(u, s, ops[0]);
      StepConsistent(u, s, ops[0]);
      RunNamed(u, Step(u, s, ops[0]), ops[1..]);
    }
  }

  lemma EmptyNamed(c: Context)
    ensures Named(c, EMPTY)
  {
    assert forall log :: CheckpointsOf(EMPTY, log) == [];
  }

  // ---------- A taken name ----------

  // The entry behind a name that is in use.
  lemma NameInUse(c: Context, st: LedgerState, id: Bytes) returns (f: Entry)
    requires Invariant(c, st) && Named(c, st) && id in st.checkpoints
    ensures c.checkpointId(f) == id && f.entryHash == c.entryHash(f.body)
    ensures f.body.sequence <= |EntriesOf(st, f.body.logId)|
  {
    assert Listed(st, id);
    var p := st.checkpoints[id];
    var log := p.body.logId;
    var i :| 0 <= i < |CheckpointsOf(st, log)| && CheckpointsOf(st, log)[i] == p;
    assert LogNamed(c, st, log) && LogOk(c, st, log);
    assert NamedAfter(c, EntriesOf(st, log), CheckpointsOf(st, log)[i]);
    f := EntriesOf(st, log)[p.body.sequence - 1];
  }

  /** The name of the next entry's checkpoint is free, or two byte strings whose digests agree on 48 digits are
      in hand. */
  lemma NextNameFree(l: Library, st: LedgerState, a: AcceptedEvent, now: Bytes) returns (x: Bytes, y: Bytes)
    requires Invariant(ContextOf(l), st) && Named(ContextOf(l), st)
    ensures NameCollision(l, x, y) || CheckpointName(l, NextEntry(ContextOf(l), st, a, now)) !in st.checkpoints
  {
    var e := NextEntry(ContextOf(l), st, a, now);
    x, y := "", "";
    if CheckpointName(l, e) in st.checkpoints {
      var f := NameInUse(ContextOf(l), st, CheckpointName(l, e));
      x, y := NameText(e), NameText(f);
      NameDecides(l, e, f);
      assert LogOk(ContextOf(l), st, a.event.sessionId);
      HeadIsLast(ContextOf(l), st, a.event.sessionId);
    }
  }
}
