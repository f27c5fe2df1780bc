/** Counting what a verification has checked. */
module Census {
  import opened Json
  import opened Events
  import opened Ledger
  import opened Replay

  // How much each log holds.
  function EntryCounts(st: LedgerState): Bytes -> nat {
    log => |EntriesOf(st, log)|
  }

  function CheckpointCounts(st: LedgerState): Bytes -> nat {
    log => |CheckpointsOf(st, log)|
  }

  // The sum over a set of logs, in whatever order they are visited.
  ghost function Total(count: Bytes -> nat, logs: set<Bytes>): nat {
    if logs == {} then 0
    else var log :| log in logs; count(log) + Total(count, logs - {log})
  }

  lemma {:induction false} TotalSplit(count: Bytes -> nat, logs: set<Bytes>, log: Bytes)
    requires log in logs
    ensures Total(count, logs) == count(log) + Total(count, logs - {log})
    decreases logs
  {
    var first :| first in logs && Total(count, logs) == count(first) + Total(count, logs - {first});
    if first != log {
      TotalSplit(count, logs - {first}, log);
      TotalSplit(count, logs - {log}, first);
      assert logs - {first} - {log} == logs - {log} - {first};
    }
  }

  lemma {:induction false} TotalSame(count: Bytes -> nat, count': Bytes -> nat, logs: set<Bytes>)
    requires forall log :: log in logs ==> count(log) == count'(log)
    ensures Total(count, logs) == Total(count', logs)
    decreases logs
  {
    if logs != {} {
      var log :| log in logs;
      TotalSplit(count, logs, log);
      TotalSplit(count', logs, log);
      TotalSame(count, count', logs - {log});
    }
  }

  // One log gains something, perhaps as a new log.
  lemma TotalGains(count: Bytes -> nat, count': Bytes -> nat, logs: set<Bytes>, log: Bytes, gain: nat)
    requires forall l :: l != log ==> count(l) == count'(l)
    requires count'(log) == count(log) + gain && (log !in logs ==> count(log) == 0)
    ensures Total(count', logs + {log}) == Total(count, logs) + gain
  {
    TotalSplit(count', logs + {log}, log);
    TotalSame(count, count', logs - {log});
    assert logs + {log} - {log} == logs - {log};
    if log in logs { TotalSplit(count, logs, log); } else { assert logs - {log} == logs; }
  }

  function Checkpoints(rs: seq<LedgerRecord>): nat {
    if rs == [] then 0 else (if rs[0].checkpoint.Some? then 1 else 0) + Checkpoints(rs[1..])
  }

  lemma NoCheckpoint(c: Context, st: LedgerState, log: Bytes, checkpoint: Checkpoint)
    requires CheckpointOk(c, st, log, checkpoint)
    ensures EntriesOf(st, log) != []
  {
  }

  // A log the index does not know has neither entries nor checkpoints.
  lemma UnknownLogEmpty(c: Context, st: LedgerState, log: Bytes)
    requires Invariant(c, st) && log !in st.logs
    ensures EntriesOf(st, log) == [] && CheckpointsOf(st, log) == []
  {
    assert LogOk(c, st, log) && CheckpointChain(c, st, log);
    if CheckpointsOf(st, log) != [] { NoCheckpoint(c, st, log, CheckpointsOf(st, log)[0]); }
  }

  lemma InsertTotal(c: Context, st: LedgerState, r: LedgerRecord)
    requires Invariant(c, st)
    ensures var next := Insert(st, r);
      && Total(EntryCounts(next), next.logs.Keys) == Total(EntryCounts(st), st.logs.Keys) + 1
      && Total(CheckpointCounts(next), next.logs.Keys) ==
         Total(CheckpointCounts(st), st.logs.Keys) + if r.checkpoint.Some? then 1 else 0
  {
    var log, next := r.entry.body.logId, Insert(st, r);
    assert next.logs.Keys == st.logs.Keys + {log};
    if log !in st.logs { UnknownLogEmpty(c, st, log); }
    forall l | l != log
      ensures EntriesOf(st, l) == EntriesOf(next, l) && CheckpointsOf(st, l) == CheckpointsOf(next, l)
    {
      InsertOne(st, r, l);
    }
    InsertOne(st, r, log);
    TotalGains(EntryCounts(st), EntryCounts(next), st.logs.Keys, log, 1);
    TotalGains(CheckpointCounts(st), CheckpointCounts(next), st.logs.Keys, log, if r.checkpoint.Some? then 1 else 0);
  }

  lemma {:induction false} RecordsTotal(c: Context, st: LedgerState, rs: seq<LedgerRecord>)
    requires Invariant(c, st) && Accepts(c, st, rs)
    ensures var all := InsertAll(st, rs);
      && Total(EntryCounts(all), all.logs.Keys) == Total(EntryCounts(st), st.logs.Keys) + |rs|
      && Total(CheckpointCounts(all), all.logs.Keys) == Total(CheckpointCounts(st), st.logs.Keys) + Checkpoints(rs)
    decreases rs
  {
    if rs != [] {
      InsertTotal(c, st, rs[0]);
      InsertKeepsInvariant(c, st, rs[0]);
      RecordsTotal(c, Insert(st, rs[0]), rs[1..]);
    }
  }

  /** An unfiltered verification counts every record and every checkpoint of the file exactly once. */
  lemma VerificationCountsRecords(c: Context, rs: seq<LedgerRecord>)
    requires Lawful(c) && Accepts(c, EMPTY, rs)
    ensures var all := InsertAll(EMPTY, rs);
      && ReplayFrom(c, EMPTY, Frames(c, rs)) == Ok(all)
      && Total(EntryCounts(all), all.logs.Keys) == |rs|
      && Total(CheckpointCounts(all), all.logs.Keys) == Checkpoints(rs)
  {
    ReplayCharacterised(c, EMPTY, Frames(c, rs));
    EmptyInvariant(c);
    RecordsTotal(c, EMPTY, rs);
  }
}
