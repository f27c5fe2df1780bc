/** What every event in a ledger has been checked for, and why its log can name a file. */
module Admission {
  import opened Json
  import opened Events
  import opened Ledger
  import opened Replay
  import opened Storage

  predicate Vetted(c: Context, s: StoredEvent) {
    ValidEvent(s.accepted.event) && ValidIdentifier(s.accepted.producerId) && c.rfc3339(s.entry.body.committedAt)
  }

  ghost predicate AllVetted(c: Context, st: LedgerState) {
    forall id :: id in st.events ==> Vetted(c, st.events[id])
  }

  lemma InsertVetted(c: Context, st: LedgerState, r: LedgerRecord)
    requires AllVetted(c, st) && ValidateNext(c, st, r).Pass?
    ensures AllVetted(c, Insert(st, r))
  {
  }

  lemma {:induction false} AcceptsVetted(c: Context, st: LedgerState, rs: seq<LedgerRecord>)
    requires AllVetted(c, st) && Accepts(c, st, rs)
    ensures AllVetted(c, InsertAll(st, rs))
    decreases rs
  {
    if rs != [] {
      InsertVetted(c, st, rs[0]);
      AcceptsVetted(c, Insert(st, rs[0]), rs[1..]);
    }
  }

  // "sha256:" and 64 lower-case hexadecimal digits.
  predicate DigestShape(s: Bytes) {
    |s| == 71 && s[..7] == "sha256:" && forall i :: 7 <= i < 71 ==> '0' <= s[i] <= '9' || 'a' <= s[i] <= 'f'
  }

  // This version and kind of record, about an event whose payload has a digest.
  predicate KnownRecord(r: LedgerRecord) {
    && r.apiVersion == "logger.multiagent.dev/v1" && r.kind == "LoggerLedgerRecord"
    && DigestShape(r.accepted.event.payloadDigest) && |r.accepted.event.references| <= 64
  }

  lemma {:induction false} AcceptsShaped(c: Context, st: LedgerState, rs: seq<LedgerRecord>, i: nat)
    requires Accepts(c, st, rs) && i < |rs|
    ensures KnownRecord(rs[i])
    decreases rs
  {
    if i > 0 { AcceptsShaped(c, Insert(st, rs[0]), rs[1..], i - 1); }
  }

  /** An accepted file is a sequence of framed records of the one known version and kind. */
  lemma ReplayedRecords(c: Context, disk: Bytes) returns (rs: seq<LedgerRecord>)
    requires Lawful(c) && ReplayFrom(c, EMPTY, disk).Ok?
    ensures Frames(c, rs) == disk && forall i :: 0 <= i < |rs| ==> KnownRecord(rs[i])
  {
    rs := AcceptedIsFrames(c, EMPTY, disk);
    forall i | 0 <= i < |rs| ensures KnownRecord(rs[i]) { AcceptsShaped(c, EMPTY, rs, i); }
  }

  /** Every event of an accepted file is valid, has a valid producer and a time that parses. */
  lemma ReplayVetted(c: Context, disk: Bytes)
    requires Lawful(c) && ReplayFrom(c, EMPTY, disk).Ok?
    ensures AllVetted(c, ReplayFrom(c, EMPTY, disk).state)
  {
    var rs := AcceptedIsFrames(c, EMPTY, disk);
    AcceptsVetted(c, EMPTY, rs);
    FramesReplay(c, EMPTY, rs, "");
    assert Frames(c, rs) + "" == Frames(c, rs);
  }

  // A store that writes agrees with its file; one that does not still agrees with what was durable.
  lemma ConsistentVetted(u: Setup, s: System)
    requires Lawful(u.context) && Consistent(u, s)
    ensures AllVetted(u.context, s.index)
  {
    if s.writable {
      ReplayVetted(u.context, s.disk);
    } else {
      var base, a, now, kept :| TornAfter(u, s, base, a, now, kept);
      ReplayVetted(u.context, base);
    }
  }

  lemma LogVetted(c: Context, st: LedgerState, log: Bytes)
    requires Invariant(c, st) && AllVetted(c, st) && log in st.logs
    ensures ValidIdentifier(log)
  {
    assert LogOk(c, st, log) && Recorded(st, log);
    var e := EntriesOf(st, log)[0];
    assert Backed(c, st, e.body.eventId);
  }

  // A name of one file in its directory that is no hidden one.
  predicate FileName(s: Bytes) {
    s != "" && s[0] != '.' && '/' !in s && '\\' !in s && '\0' !in s && '\n' !in s
  }

  lemma IdentifierFile(log: Bytes)
    requires ValidIdentifier(log)
    ensures FileName(log + ".jsonl")
  {
    var name, tail := log + ".jsonl", ".jsonl";
    forall i | 0 <= i < |name| ensures name[i] !in "/\\\0\n" {
      if i < |log| { assert name[i] == log[i]; } else { assert name[i] == tail[i - |log|]; }
    }
  }

  /** In every consistent store each log's projection has a plain file name, and different logs have different
      ones. */
  lemma ProjectionNames(u: Setup, s: System, log: Bytes, log': Bytes)
    requires Lawful(u.context) && Consistent(u, s) && log in s.index.logs && log' in s.index.logs
    ensures FileName(log + ".jsonl") && (log + ".jsonl" == log' + ".jsonl" ==> log == log')
  {
    ConsistentVetted(u, s);
    LogVetted(u.context, s.index, log);
    IdentifierFile(log);
    assert log == (log + ".jsonl")[..|log|] && log' == (log' + ".jsonl")[..|log'|];
  }
}
