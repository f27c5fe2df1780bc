/** Rebuilding the index from the bytes of the ledger file. */
module Replay {
  import opened Wrappers
  import opened Json
  import opened Events
  import opened Ledger

  const MAX_RECORD_BYTES: nat := 2 * 1024 * 1024

  datatype LineFault = TooLong | Truncated | EmptyLine | Undecodable | NotCanonical | Invalid(fault: Fault)

  datatype Replayed = Ok(state: LedgerState) | Err(fault: LineFault)

  datatype Line = Accept(record: LedgerRecord) | Refuse(fault: LineFault)

  // How many bytes a bounded read up to and including the next newline takes.
  function LineLength(s: Bytes, limit: nat): (n: nat)
    ensures n <= |s| && n <= limit
    ensures s != "" && limit > 0 ==> n > 0
  {
    if s == "" || limit == 0 then 0
    else if s[0] == '\n' then 1
    else 1 + LineLength(s[1..], limit - 1)
  }

  function CheckLine(c: Context, st: LedgerState, line: Bytes): Line {
    if |line| > MAX_RECORD_BYTES + 1 then Refuse(TooLong)
    else if line == "" || line[|line| - 1] != '\n' then Refuse(Truncated)
    else
      var body := line[..|line| - 1];
      if body == "" then Refuse(EmptyLine)
      else match c.decode(body)
        case None => Refuse(Undecodable)
        case Some(r) =>
          if c.encode(r) != body then Refuse(NotCanonical)
          else match ValidateNext(c, st, r)
            case Reject(fault) => Refuse(Invalid(fault))
            case Pass => Accept(r)
  }

  function ReplayFrom(c: Context, st: LedgerState, disk: Bytes): Replayed
    decreases |disk|
  {
    if disk == "" then Ok(st)
    else
      var n := LineLength(disk, MAX_RECORD_BYTES + 2);
      match CheckLine(c, st, disk[..n])
      case Refuse(fault) => Err(fault)
      case Accept(r) => ReplayFrom(c, Insert(st, r), disk[n..])
  }

  // ---------- Framing ----------

  function Frame(c: Context, r: LedgerRecord): Bytes {
    c.encode(r) + "\n"
  }

  function Frames(c: Context, rs: seq<LedgerRecord>): Bytes {
    if rs == [] then "" else Frame(c, rs[0]) + Frames(c, rs[1..])
  }

  // Each record passes the check on the state its predecessors leave, and fits the size limit.
  ghost predicate Accepts(c: Context, st: LedgerState, rs: seq<LedgerRecord>)
    decreases rs
  {
    rs == [] ||
    (&& ValidateNext(c, st, rs[0]).Pass?
     && |c.encode(rs[0])| <= MAX_RECORD_BYTES
     && Accepts(c, Insert(st, rs[0]), rs[1..]))
  }

  function InsertAll(st: LedgerState, rs: seq<LedgerRecord>): LedgerState
    decreases rs
  {
    if rs == [] then st else InsertAll(Insert(st, rs[0]), rs[1..])
  }

  lemma {:induction false} LineLengthAt(body: Bytes, t: Bytes, limit: nat)
    requires '\n' !in body && |body| < limit
    ensures LineLength(body + "\n" + t, limit) == |body| + 1
  {
    var s := body + "\n" + t;
    if body != "" {
      LineLengthAt(body[1..], t, limit - 1);
      assert s[1..] == body[1..] + "\n" + t;
    }
  }

  lemma {:induction false} LineLengthAll(s: Bytes, limit: nat)
    requires '\n' !in s && |s| <= limit
    ensures LineLength(s, limit) == |s|
  {
    if s != "" { LineLengthAll(s[1..], limit - 1); }
  }

  lemma FrameLine(c: Context, r: LedgerRecord, t: Bytes)
    requires Lawful(c) && |c.encode(r)| <= MAX_RECORD_BYTES
    ensures LineLength(Frame(c, r) + t, MAX_RECORD_BYTES + 2) == |Frame(c, r)|
    ensures (Frame(c, r) + t)[..|Frame(c, r)|] == Frame(c, r)
    ensures (Frame(c, r) + t)[|Frame(c, r)|..] == t
  {
    LineLengthAt(c.encode(r), t, MAX_RECORD_BYTES + 2);
  }

  lemma FrameChecked(c: Context, st: LedgerState, r: LedgerRecord)
    requires Lawful(c) && |c.encode(r)| <= MAX_RECORD_BYTES && ValidateNext(c, st, r).Pass?
    ensures CheckLine(c, st, Frame(c, r)) == Accept(r)
  {
    assert Frame(c, r)[..|Frame(c, r)| - 1] == c.encode(r);
  }

  lemma FrameReplays(c: Context, st: LedgerState, r: LedgerRecord, t: Bytes)
    requires Lawful(c) && ValidateNext(c, st, r).Pass? && |c.encode(r)| <= MAX_RECORD_BYTES
    ensures ReplayFrom(c, st, Frame(c, r) + t) == ReplayFrom(c, Insert(st, r), t)
  {
    FrameLine(c, r, t);
    FrameChecked(c, st, r);
  }

  /** Accepted records replay in order, and what follows them is read from the state they leave. */
  lemma {:induction false} FramesReplay(c: Context, st: LedgerState, rs: seq<LedgerRecord>, t: Bytes)
    requires Lawful(c) && Accepts(c, st, rs)
    ensures ReplayFrom(c, st, Frames(c, rs) + t) == ReplayFrom(c, InsertAll(st, rs), t)
    decreases rs
  {
    if rs == [] {
      assert Frames(c, rs) + t == t;
    } else {
      FrameReplays(c, st, rs[0], Frames(c, rs[1..]) + t);
      Joined(Frame(c, rs[0]), Frames(c, rs[1..]), t);
      FramesReplay(c, Insert(st, rs[0]), rs[1..], t);
    }
  }

  lemma CheckedFrame(c: Context, st: LedgerState, line: Bytes)
    requires CheckLine(c, st, line).Accept?
    ensures var r := CheckLine(c, st, line).record;
      && line == Frame(c, r) && |c.encode(r)| <= MAX_RECORD_BYTES && ValidateNext(c, st, r).Pass?
  {
    assert line == line[..|line| - 1] + [line[|line| - 1]];
  }

  lemma AcceptedFirst(c: Context, st: LedgerState, r: LedgerRecord, rest: seq<LedgerRecord>)
    requires ValidateNext(c, st, r).Pass? && |c.encode(r)| <= MAX_RECORD_BYTES && Accepts(c, Insert(st, r), rest)
    ensures Accepts(c, st, [r] + rest) && Frames(c, [r] + rest) == Frame(c, r) + Frames(c, rest)
    ensures InsertAll(st, [r] + rest) == InsertAll(Insert(st, r), rest)
  {
    assert ([r] + rest)[1..] == rest;
  }

  lemma FirstFrame(disk: Bytes, n: nat, frame: Bytes, rest: Bytes)
    requires n <= |disk| && disk[..n] == frame && disk[n..] == rest
    ensures disk == frame + rest
  {
  }

  lemma {:induction false} AcceptedIsFrames(c: Context, st: LedgerState, disk: Bytes) returns (rs: seq<LedgerRecord>)
    requires Lawful(c)
    ensures ReplayFrom(c, st, disk).Ok? ==>
      disk == Frames(c, rs) && Accepts(c, st, rs) && ReplayFrom(c, st, disk) == Ok(InsertAll(st, rs))
    decreases |disk|
  {
    rs := [];
    if ReplayFrom(c, st, disk).Ok? && disk != "" {
      var n := LineLength(disk, MAX_RECORD_BYTES + 2);
      CheckedFrame(c, st, disk[..n]);
      var r := CheckLine(c, st, disk[..n]).record;
      var rest := AcceptedIsFrames(c, Insert(st, r), disk[n..]);
      rs := [r] + rest;
      AcceptedFirst(c, st, r, rest);
      FirstFrame(disk, n, Frame(c, r), Frames(c, rest));
    }
  }

  /** A file is accepted exactly when it is the frames of records that pass one after the other. */
  lemma ReplayCharacterised(c: Context, st: LedgerState, disk: Bytes)
    requires Lawful(c)
    ensures ReplayFrom(c, st, disk).Ok? <==> exists rs :: Accepts(c, st, rs) && disk == Frames(c, rs)
    ensures forall rs :: Accepts(c, st, rs) && disk == Frames(c, rs) ==>
      ReplayFrom(c, st, disk) == Ok(InsertAll(st, rs))
  {
    var rs := AcceptedIsFrames(c, st, disk);
    forall qs | Accepts(c, st, qs) && disk == Frames(c, qs)
      ensures ReplayFrom(c, st, disk) == Ok(InsertAll(st, qs))
    {
      FramesReplay(c, st, qs, "");
      assert Frames(c, qs) + "" == Frames(c, qs);
    }
  }

  // ---------- Crashes ----------

  lemma TornTail(c: Context, st: LedgerState, r: LedgerRecord, kept: nat)
    requires Lawful(c) && |c.encode(r)| <= MAX_RECORD_BYTES && 0 < kept < |Frame(c, r)|
    ensures ReplayFrom(c, st, Frame(c, r)[..kept]) == Err(Truncated)
  {
    var t := Frame(c, r)[..kept];
    assert t == c.encode(r)[..kept];
    LineLengthAll(t, MAX_RECORD_BYTES + 2);
    assert t[..|t|] == t;
  }

  // The offset at which the first k records end.
  function Boundary(c: Context, rs: seq<LedgerRecord>, k: nat): nat
    requires k <= |rs|
  {
    |Frames(c, rs[..k])|
  }

  lemma BoundaryTail(c: Context, rs: seq<LedgerRecord>, k: nat)
    requires 0 < k <= |rs|
    ensures Boundary(c, rs, k) == |Frame(c, rs[0])| + Boundary(c, rs[1..], k - 1)
  {
    assert rs[..k][1..] == rs[1..][..k - 1];
  }

  // What a cut inside or after the first record leaves to read.
  lemma CutHead(c: Context, st: LedgerState, rs: seq<LedgerRecord>, cut: nat)
    requires Lawful(c) && Accepts(c, st, rs) && rs != [] && 0 < cut <= |Frames(c, rs)|
    ensures ReplayFrom(c, st, Frames(c, rs)[..cut]) ==
      if cut < |Frame(c, rs[0])| then Err(Truncated)
      else ReplayFrom(c, Insert(st, rs[0]), Frames(c, rs[1..])[..cut - |Frame(c, rs[0])|])
  {
    var head, rest := Frame(c, rs[0]), Frames(c, rs[1..]);
    if cut < |head| {
      TornTail(c, st, rs[0], cut);
      assert (head + rest)[..cut] == head[..cut];
    } else {
      FrameReplays(c, st, rs[0], rest[..cut - |head|]);
      assert (head + rest)[..cut] == head + rest[..cut - |head|];
    }
  }

  // The number of whole records before the cut, when the cut is a boundary.
  function WholeRecords(c: Context, rs: seq<LedgerRecord>, cut: nat): Option<nat>
    decreases rs
  {
    if cut == 0 then Some(0)
    else if rs == [] || cut < |Frame(c, rs[0])| then None
    else match WholeRecords(c, rs[1..], cut - |Frame(c, rs[0])|)
      case None => None
      case Some(k) => Some(k + 1)
  }

  lemma {:induction false} WholeRecordsExact(c: Context, rs: seq<LedgerRecord>, cut: nat, k: nat)
    requires k <= |rs|
    ensures Boundary(c, rs, k) == cut <==> WholeRecords(c, rs, cut) == Some(k)
    decreases rs
  {
    if k > 0 {
      BoundaryTail(c, rs, k);
      if cut >= |Frame(c, rs[0])| { WholeRecordsExact(c, rs[1..], cut - |Frame(c, rs[0])|, k - 1); }
    } else if cut > 0 && rs != [] && cut >= |Frame(c, rs[0])| {
      assert WholeRecords(c, rs, cut) != Some(0);
    }
  }

  // Whole records replay to the state after them; anything else is an error.
  ghost predicate CutResult(st: LedgerState, rs: seq<LedgerRecord>, whole: Option<nat>, result: Replayed) {
    match whole
    case None => result.Err?
    case Some(k) => k <= |rs| && result == Ok(InsertAll(st, rs[..k]))
  }

  lemma CutResultAfter(st: LedgerState, rs: seq<LedgerRecord>, whole: Option<nat>, result: Replayed)
    requires rs != [] && CutResult(Insert(st, rs[0]), rs[1..], whole, result)
    ensures CutResult(st, rs, match whole case None => None case Some(k) => Some(k + 1), result)
  {
    if whole.Some? { assert rs[..whole.value + 1][1..] == rs[1..][..whole.value]; }
  }

  lemma CutStep(c: Context, st: LedgerState, rs: seq<LedgerRecord>, cut: nat, result: Replayed)
    requires rs != [] && 0 < |Frame(c, rs[0])| <= cut
    requires CutResult(Insert(st, rs[0]), rs[1..], WholeRecords(c, rs[1..], cut - |Frame(c, rs[0])|), result)
    ensures CutResult(st, rs, WholeRecords(c, rs, cut), result)
  {
    CutResultAfter(st, rs, WholeRecords(c, rs[1..], cut - |Frame(c, rs[0])|), result);
  }

  lemma {:induction false} CutReplays(c: Context, st: LedgerState, rs: seq<LedgerRecord>, cut: nat)
    requires Lawful(c) && Accepts(c, st, rs) && cut <= |Frames(c, rs)|
    ensures CutResult(st, rs, WholeRecords(c, rs, cut), ReplayFrom(c, st, Frames(c, rs)[..cut]))
    decreases rs
  {
    if cut > 0 {
      CutHead(c, st, rs, cut);
      var n := |Frame(c, rs[0])|;
      if cut >= n {
        CutReplays(c, Insert(st, rs[0]), rs[1..], cut - n);
        CutStep(c, st, rs, cut, ReplayFrom(c, st, Frames(c, rs)[..cut]));
      }
    }
  }

  /** Cutting an accepted file anywhere: it is accepted again exactly when the cut is at the
      end of some record, and then holds the state after precisely that many records. */
  lemma CrashCut(c: Context, st: LedgerState, rs: seq<LedgerRecord>, cut: nat)
    requires Lawful(c) && Accepts(c, st, rs) && cut <= |Frames(c, rs)|
    ensures ReplayFrom(c, st, Frames(c, rs)[..cut]).Ok? <==> exists k :: 0 <= k <= |rs| && Boundary(c, rs, k) == cut
    ensures forall k :: 0 <= k <= |rs| && Boundary(c, rs, k) == cut ==>
      ReplayFrom(c, st, Frames(c, rs)[..cut]) == Ok(InsertAll(st, rs[..k]))
  {
    CutReplays(c, st, rs, cut);
    forall k | 0 <= k <= |rs| ensures Boundary(c, rs, k) == cut <==> WholeRecords(c, rs, cut) == Some(k) {
      WholeRecordsExact(c, rs, cut, k);
    }
  }

  // ---------- Every accepted file is a consistent ledger ----------

  lemma EmptyInvariant(c: Context)
    ensures Invariant(c, EMPTY)
  {
    assert forall log :: EntriesOf(EMPTY, log) == [] && CheckpointsOf(EMPTY, log) == [];
  }

  lemma {:induction false} AcceptedInvariant(c: Context, st: LedgerState, rs: seq<LedgerRecord>)
    requires Invariant(c, st) && Accepts(c, st, rs)
    ensures Invariant(c, InsertAll(st, rs))
    decreases rs
  {
    if rs != [] {
      InsertKeepsInvariant(c, st, rs[0]);
      AcceptedInvariant(c, Insert(st, rs[0]), rs[1..]);
    }
  }

  /** Sequences, links, heads, events and checkpoints agree in every ledger that replay accepts. */
  lemma ReplayInvariant(c: Context, disk: Bytes)
    requires Lawful(c) && ReplayFrom(c, EMPTY, disk).Ok?
    ensures Invariant(c, ReplayFrom(c, EMPTY, disk).state)
  {
    var rs := AcceptedIsFrames(c, EMPTY, disk);
    EmptyInvariant(c);
    AcceptedInvariant(c, EMPTY, rs);
  }
}
