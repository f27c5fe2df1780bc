/** Concurrent request handlers around one locked store and one unlocked readiness flag. */
module Server {
  import opened Wrappers
  import opened Json
  import opened Events
  import opened Ledger
  import opened Storage
  import Runs

  // Where a handler stands between two points at which others may run.
  datatype Handler =
    | EventReceived(accepted: AcceptedEvent, authorised: bool, now: Bytes, write: Write)
    | EventAdmitted(accepted: AcceptedEvent, now: Bytes, write: Write)
    | EventAppended(accepted: AcceptedEvent, outcome: Outcome)
    | VerifyReceived
    | VerifyComputed(ok: bool)
    | Answered(event: Option<AcceptedEvent>, status: nat)

  // The locked store, the flag, the handlers, and what has been decided so far.
  datatype Server = Server(
    store: System, ready: bool, handlers: map<nat, Handler>, commits: nat, verdicts: seq<bool>)

  datatype Action = Arrive(id: nat, request: Handler) | Advance(id: nat) | Tick(result: Bytes -> Publish)

  function Move(s: Server, id: nat, h: Handler): Server {
    s.(handlers := s.handlers[id := h])
  }

  function Continue(u: Setup, s: Server, id: nat, h: Handler): Server {
    match h
    case EventReceived(a, authorised, now, w) =>
      if !s.ready then Move(s, id, Answered(Some(a), 503))
      else if !authorised then Move(s, id, Answered(Some(a), 401))
      else if !ValidEvent(a.event) then Move(s, id, Answered(Some(a), 400))
      else Move(s, id, EventAdmitted(a, now, w))
    case EventAdmitted(a, now, w) =>
      var (store, outcome) := Append(u, s.store, a, now, w);
      var commits := s.commits + if outcome.Appended? then 1 else 0;
      Move(s.(store := store, commits := commits), id, EventAppended(a, outcome))
    case EventAppended(a, outcome) =>
      Move(if outcome.Internal? then s.(ready := false) else s, id,
        Answered(Some(a), match outcome case Internal => 500 case Conflict => 409 case _ => 204))
    case VerifyReceived =>
      var ok := Intact(u, s.store);
      Move(s.(verdicts := s.verdicts + [ok]), id, VerifyComputed(ok))
    case VerifyComputed(ok) => Move(s.(ready := ok), id, Answered(None, if ok then 200 else 503))
    case Answered(_, _) => s
  }

  function Act(u: Setup, s: Server, action: Action): Server {
    match action
    case Arrive(id, request) =>
      if id in s.handlers || !(request.EventReceived? || request.VerifyReceived?) then s else Move(s, id, request)
    case Tick(result) => s.(store := Flush(u, s.store, result))
    case Advance(id) => if id in s.handlers then Continue(u, s, id, s.handlers[id]) else s
  }

  function Execute(u: Setup, s: Server, actions: seq<Action>): Server
    decreases actions
  {
    if actions == [] then s else Execute(u, Act(u, s, actions[0]), actions[1..])
  }

  // ---------- Interleavings are runs ----------

  // What one action does to the store.
  function StoreSteps(s: Server, action: Action): seq<Runs.Op> {
    match action
    case Tick(result) => [Runs.FlushProjections(result)]
    case Advance(id) =>
      if id in s.handlers && s.handlers[id].EventAdmitted?
      then [Runs.Submit(s.handlers[id].accepted, s.handlers[id].now, s.handlers[id].write)] else []
    case Arrive(_, _) => []
  }

  function StoreRun(u: Setup, s: Server, actions: seq<Action>): seq<Runs.Op>
    decreases actions
  {
    if actions == [] then [] else StoreSteps(s, actions[0]) + StoreRun(u, Act(u, s, actions[0]), actions[1..])
  }

  lemma ActSteps(u: Setup, s: Server, action: Action)
    ensures Act(u, s, action).store ==
      if StoreSteps(s, action) == [] then s.store else Runs.Step(u, s.store, StoreSteps(s, action)[0])
  {
  }

  lemma RunAfter(u: Setup, s: System, first: seq<Runs.Op>, rest: seq<Runs.Op>)
    requires |first| <= 1
    ensures Runs.Run(u, s, first + rest) == Runs.Run(u, if first == [] then s else Runs.Step(u, s, first[0]), rest)
  {
    if first == [] { assert first + rest == rest; } else { assert (first + rest)[1..] == rest; }
  }

  /** However handlers interleave, the store goes through a run of whole appends and flushes. */
  lemma {:induction false} ExecuteRuns(u: Setup, s: Server, actions: seq<Action>)
    ensures Execute(u, s, actions).store == Runs.Run(u, s.store, StoreRun(u, s, actions))
    decreases actions
  {
    if actions != [] {
      ActSteps(u, s, actions[0]);
      ExecuteRuns(u, Act(u, s, actions[0]), actions[1..]);
      RunAfter(u, s.store, StoreSteps(s, actions[0]), StoreRun(u, Act(u, s, actions[0]), actions[1..]));
    }
  }

  /** So in every interleaving file, index and projections agree, nothing committed is lost, and the
      checkpoints stay on schedule. */
  lemma EveryInterleaving(u: Setup, s: Server, actions: seq<Action>)
    requires Lawful(u.context) && Consistent(u, s.store)
    ensures var t := Execute(u, s, actions);
      && Consistent(u, t.store)
      && Runs.Grows(s.store.index, t.store.index)
      && (Runs.Scheduled(u.interval, s.store.index) ==> Runs.Scheduled(u.interval, t.store.index))
  {
    var ops := StoreRun(u, s, actions);
    ExecuteRuns(u, s, actions);
    Runs.RunConsistent(u, s.store, ops);
    Runs.RunGrows(u, s.store, ops);
    if Runs.Scheduled(u.interval, s.store.index) { Runs.RunScheduled(u, s.store, ops); }
  }

  // ---------- What an answer means ----------

  // The event is committed with exactly this content's digest, or its id with another's.
  predicate Committed(u: Setup, st: LedgerState, a: AcceptedEvent) {
    a.event.eventId in st.events && st.events[a.event.eventId].requestDigest == u.context.requestDigest(a)
  }

  predicate Contradicted(u: Setup, st: LedgerState, a: AcceptedEvent) {
    a.event.eventId in st.events && st.events[a.event.eventId].requestDigest != u.context.requestDigest(a)
  }

  // An acknowledged event is committed; a conflict is with a committed event.
  predicate Truthful(u: Setup, st: LedgerState, h: Handler) {
    match h
    case EventAppended(a, outcome) =>
      && (outcome.Appended? || outcome.Duplicate? ==> Committed(u, st, a))
      && (outcome.Conflict? ==> Contradicted(u, st, a))
    case Answered(Some(a), status) =>
      && (status == 204 ==> Committed(u, st, a))
      && (status == 409 ==> Contradicted(u, st, a))
    case _ => true
  }

  ghost predicate AllTruthful(u: Setup, s: Server) {
    forall id :: id in s.handlers ==> Truthful(u, s.store.index, s.handlers[id])
  }

  lemma TruthKept(u: Setup, st: LedgerState, st': LedgerState, h: Handler)
    requires Truthful(u, st, h) && forall id :: Runs.SameEvent(st, st', id)
    ensures Truthful(u, st', h)
  {
    if h.EventAppended? { assert Runs.SameEvent(st, st', h.accepted.event.eventId); }
    if h.Answered? && h.event.Some? { assert Runs.SameEvent(st, st', h.event.value.event.eventId); }
  }

  lemma AppendTruthful(u: Setup, s: System, a: AcceptedEvent, now: Bytes, w: Write)
    ensures var (t, outcome) := Append(u, s, a, now, w); Truthful(u, t.index, EventAppended(a, outcome))
  {
  }

  // The handler that moves stays truthful, and the others do not move.
  lemma ContinueTruthful(u: Setup, s: Server, id: nat)
    requires id in s.handlers && Truthful(u, s.store.index, s.handlers[id])
    ensures var t := Continue(u, s, id, s.handlers[id]);
      id in t.handlers && t.handlers == s.handlers[id := t.handlers[id]] && Truthful(u, t.store.index, t.handlers[id])
  {
    var h := s.handlers[id];
    if h.EventAdmitted? { AppendTruthful(u, s.store, h.accepted, h.now, h.write); }
  }

  lemma ActTruthful(u: Setup, s: Server, action: Action)
    requires Lawful(u.context) && Consistent(u, s.store) && AllTruthful(u, s)
    ensures AllTruthful(u, Act(u, s, action))
  {
    var t := Act(u, s, action);
    ActSteps(u, s, action);
    if StoreSteps(s, action) != [] { Runs.StepGrows(u, s.store, StoreSteps(s, action)[0]); }
    if action.Advance? && action.id in s.handlers { ContinueTruthful(u, s, action.id); }
    forall id | id in t.handlers ensures Truthful(u, t.store.index, t.handlers[id]) {
      if id in s.handlers && t.handlers[id] == s.handlers[id] {
        TruthKept(u, s.store.index, t.store.index, s.handlers[id]);
      }
    }
  }

  /** However handlers interleave, and whatever fails: an event answered 204 is committed with its own digest, and
      one answered 409 has its id committed with another. */
  lemma {:induction false} Acknowledged(u: Setup, s: Server, actions: seq<Action>)
    requires Lawful(u.context) && Consistent(u, s.store) && AllTruthful(u, s)
    ensures AllTruthful(u, Execute(u, s, actions))
    decreases actions
  {
    if actions != [] {
      ActTruthful(u, s, actions[0]);
      ActSteps(u, s, actions[0]);
      if StoreSteps(s, actions[0]) != [] { Runs.StepConsistent(u, s.store, StoreSteps(s, actions[0])[0]); }
      Acknowledged(u, Act(u, s, actions[0]), actions[1..]);
    }
  }

  // ---------- Nothing is committed unasked ----------

  // What authorised requests have asked to commit.
  function Requested(actions: seq<Action>): set<AcceptedEvent> {
    set i | 0 <= i < |actions| && actions[i].Arrive? && actions[i].request.EventReceived?
      && actions[i].request.authorised :: actions[i].request.accepted
  }

  predicate FromRequest(asked: set<AcceptedEvent>, h: Handler) {
    match h
    case EventReceived(a, authorised, _, _) => authorised ==> a in asked
    case EventAdmitted(a, _, _) => a in asked && ValidEvent(a.event)
    case _ => true
  }

  predicate StoredFrom(before: LedgerState, st: LedgerState, asked: set<AcceptedEvent>, id: Bytes) {
    id in st.events && id !in before.events ==> st.events[id].accepted in asked
  }

  // Handlers under way and events stored since then were asked for by authorised requests.
  ghost predicate Sanctioned(before: LedgerState, s: Server, asked: set<AcceptedEvent>) {
    && (forall id :: id in s.handlers ==> FromRequest(asked, s.handlers[id]))
    && (forall id :: StoredFrom(before, s.store.index, asked, id))
  }

  lemma AppendStored(u: Setup, s: System, a: AcceptedEvent, now: Bytes, w: Write, id: Bytes)
    ensures var st := Append(u, s, a, now, w).0.index;
      id in st.events ==> (id in s.index.events && st.events[id] == s.index.events[id]) || st.events[id].accepted == a
  {
  }

  lemma ActStored(u: Setup, before: LedgerState, s: Server, action: Action, asked: set<AcceptedEvent>, id: Bytes)
    requires StoredFrom(before, s.store.index, asked, id)
    requires forall k :: k in s.handlers ==> FromRequest(asked, s.handlers[k])
    ensures StoredFrom(before, Act(u, s, action).store.index, asked, id)
  {
    if action.Advance? && action.id in s.handlers && s.handlers[action.id].EventAdmitted? {
      var h := s.handlers[action.id];
      AppendStored(u, s.store, h.accepted, h.now, h.write, id);
    }
  }

  lemma ActFromRequest(u: Setup, s: Server, action: Action, asked: set<AcceptedEvent>, id: nat)
    requires (id in s.handlers ==> FromRequest(asked, s.handlers[id])) && Requested([action]) <= asked
    requires id in Act(u, s, action).handlers
    ensures FromRequest(asked, Act(u, s, action).handlers[id])
  {
    if action.Arrive? && action.request.EventReceived? && action.request.authorised {
      assert [action][0] == action && action.request.accepted in Requested([action]);
    }
  }

  lemma ActSanctioned(u: Setup, before: LedgerState, s: Server, action: Action, asked: set<AcceptedEvent>)
    requires Sanctioned(before, s, asked) && Requested([action]) <= asked
    ensures Sanctioned(before, Act(u, s, action), asked)
  {
    var t := Act(u, s, action);
    forall id | id in t.handlers ensures FromRequest(asked, t.handlers[id]) { ActFromRequest(u, s, action, asked, id); }
    forall id ensures StoredFrom(before, t.store.index, asked, id) {
      assert StoredFrom(before, s.store.index, asked, id);
      ActStored(u, before, s, action, asked, id);
    }
  }

  lemma RequestedSplit(actions: seq<Action>)
    requires actions != []
    ensures Requested([actions[0]]) <= Requested(actions) && Requested(actions[1..]) <= Requested(actions)
  {
    forall a | a in Requested([actions[0]]) ensures a in Requested(actions) {
      assert [actions[0]][0] == actions[0];
    }
    forall a | a in Requested(actions[1..]) ensures a in Requested(actions) {
      var i :| 0 <= i < |actions[1..]| && actions[1..][i].Arrive? && actions[1..][i].request.EventReceived?
        && actions[1..][i].request.authorised && actions[1..][i].request.accepted == a;
      assert actions[i + 1] == actions[1..][i];
    }
  }

  lemma {:induction false} ExecuteSanctioned(u: Setup, before: LedgerState, s: Server, actions: seq<Action>,
                                             asked: set<AcceptedEvent>)
    requires Sanctioned(before, s, asked) && Requested(actions) <= asked
    ensures Sanctioned(before, Execute(u, s, actions), asked)
    decreases actions
  {
    if actions != [] {
      RequestedSplit(actions);
      ActSanctioned(u, before, s, actions[0], asked);
      ExecuteSanctioned(u, before, Act(u, s, actions[0]), actions[1..], asked);
    }
  }

  /** From a server without handlers, in every interleaving: whatever is committed was asked for, exactly as it is
      stored, by an authorised request. */
  lemma NothingUnasked(u: Setup, s: Server, actions: seq<Action>, id: Bytes)
    requires s.handlers == map[]
    ensures StoredFrom(s.store.index, Execute(u, s, actions).store.index, Requested(actions), id)
  {
    ExecuteSanctioned(u, s.store.index, s, actions, Requested(actions));
  }

  // ---------- Fail-stop ----------

  // Nothing was committed between the two, and every verification in between failed.
  ghost predicate Stopped(s: Server, t: Server) {
    && !t.store.writable
    && t.store.disk == s.store.disk
    && t.store.index == s.store.index
    && t.commits == s.commits
    && s.verdicts <= t.verdicts
    && forall i :: |s.verdicts| <= i < |t.verdicts| ==> !t.verdicts[i]
  }

  lemma ActStopped(u: Setup, s: Server, action: Action)
    requires !s.store.writable
    ensures Stopped(s, Act(u, s, action))
  {
  }

  /** After one failed durable write, no interleaving of handlers ever commits another event, and
      every later verification fails, whatever the readiness flag says. */
  lemma {:induction false} FailStop(u: Setup, s: Server, actions: seq<Action>)
    requires !s.store.writable
    ensures Stopped(s, Execute(u, s, actions))
    decreases actions
  {
    if actions != [] {
      ActStopped(u, s, actions[0]);
      FailStop(u, Act(u, s, actions[0]), actions[1..]);
    }
  }

  // ---------- The readiness flag ----------

  // A verification that succeeded but has not stored its verdict yet.
  ghost predicate StaleSuccess(s: Server) {
    exists id :: id in s.handlers && s.handlers[id] == VerifyComputed(true)
  }

  lemma ActQuiet(u: Setup, s: Server, action: Action)
    requires !s.store.writable && !s.ready && !StaleSuccess(s)
    ensures !Act(u, s, action).store.writable && !Act(u, s, action).ready && !StaleSuccess(Act(u, s, action))
  {
    var t := Act(u, s, action);
    forall id | id in t.handlers ensures t.handlers[id] != VerifyComputed(true) {
      assert id in s.handlers ==> s.handlers[id] != VerifyComputed(true);
    }
  }

  lemma {:induction false} StaysQuiet(u: Setup, s: Server, actions: seq<Action>)
    requires !s.store.writable && !s.ready && !StaleSuccess(s)
    ensures !Execute(u, s, actions).ready
    decreases actions
  {
    if actions != [] {
      ActQuiet(u, s, actions[0]);
      StaysQuiet(u, Act(u, s, actions[0]), actions[1..]);
    }
  }

  /** After a failure the flag can read true again exactly when it still does, or when a verification
      that succeeded before the failure has yet to store its verdict. */
  lemma ReadyAgain(u: Setup, s: Server)
    requires !s.store.writable
    ensures (exists actions :: Execute(u, s, actions).ready) <==> s.ready || StaleSuccess(s)
  {
    if s.ready {
      assert Execute(u, s, []).ready;
    } else if StaleSuccess(s) {
      var id :| id in s.handlers && s.handlers[id] == VerifyComputed(true);
      var actions := [Advance(id)];
      assert Execute(u, s, actions) == Execute(u, Act(u, s, Advance(id)), []);
      assert Execute(u, s, actions).ready;
    } else {
      forall actions ensures !Execute(u, s, actions).ready { StaysQuiet(u, s, actions); }
    }
  }

  lemma First(u: Setup, s: Server, action: Action, rest: seq<Action>)
    ensures Execute(u, s, [action] + rest) == Execute(u, Act(u, s, action), rest)
  {
    assert ([action] + rest)[1..] == rest;
  }

  lemma Five(u: Setup, s: Server, a: Action, b: Action, c: Action, d: Action, e: Action)
    ensures Execute(u, s, [a] + ([b] + ([c] + ([d] + ([e] + []))))) ==
      Act(u, Act(u, Act(u, Act(u, Act(u, s, a), b), c), d), e)
  {
    var s1 := Act(u, s, a);
    var s2 := Act(u, s1, b);
    var s3 := Act(u, s2, c);
    var s4 := Act(u, s3, d);
    First(u, s, a, [b] + ([c] + ([d] + ([e] + []))));
    First(u, s1, b, [c] + ([d] + ([e] + [])));
    First(u, s2, c, [d] + ([e] + []));
    First(u, s3, d, [e] + []);
    First(u, s4, e, []);
  }

  // An admitted event whose write is torn: the handler marks the service not ready.
  lemma TornAppend(u: Setup, s: Server, a: AcceptedEvent, now: Bytes, kept: nat)
    requires s.ready && s.store.writable && a.event.eventId !in s.store.index.events && ValidEvent(a.event)
    requires Admits(u, s.store.index, NextRecord(u, s.store.index, a, now))
    requires 1 in s.handlers && s.handlers[1] == EventReceived(a, true, now, Torn(kept))
    ensures var t := Act(u, Act(u, Act(u, s, Advance(1)), Advance(1)), Advance(1));
      && !t.store.writable && !t.ready
      && forall id :: id in s.handlers && id != 1 ==> id in t.handlers && t.handlers[id] == s.handlers[id]
  {
    var s2 := Act(u, s, Advance(1));
    assert s2 == Move(s, 1, EventAdmitted(a, now, Torn(kept)));
    var s3 := Act(u, s2, Advance(1));
    assert s3.handlers[1] == EventAppended(a, Internal) && !s3.store.writable;
  }

  // Verify, then a whole event, then the verdict.
  const LATE: seq<Action> := [Advance(0)] + ([Advance(1)] + ([Advance(1)] + ([Advance(1)] + ([Advance(0)] + []))))

  function LateStart(store: System, a: AcceptedEvent, now: Bytes, kept: nat): Server {
    Server(store, true, map[0 := VerifyReceived, 1 := EventReceived(a, true, now, Torn(kept))], 0, [])
  }

  lemma LateRun(u: Setup, store: System, a: AcceptedEvent, now: Bytes, kept: nat)
    requires Intact(u, store) && a.event.eventId !in store.index.events && ValidEvent(a.event)
    requires Admits(u, store.index, NextRecord(u, store.index, a, now))
    ensures var t := Execute(u, LateStart(store, a, now, kept), LATE); t.ready && !t.store.writable
  {
    var s := LateStart(store, a, now, kept);
    var s1 := Act(u, s, Advance(0));
    assert s1.handlers[0] == VerifyComputed(true) && s1.handlers[1] == EventReceived(a, true, now, Torn(kept));
    TornAppend(u, s1, a, now, kept);
    var s4 := Act(u, Act(u, Act(u, s1, Advance(1)), Advance(1)), Advance(1));
    assert Act(u, s4, Advance(0)) == Continue(u, s4, 0, VerifyComputed(true));
    Five(u, s, Advance(0), Advance(1), Advance(1), Advance(1), Advance(0));
  }

  /** The flag alone is not the safeguard: in every state that can commit, a verification that starts
      before a failing append and stores after it leaves the service marked ready while writes are off. */
  lemma LateStore(u: Setup, store: System, a: AcceptedEvent, now: Bytes, kept: nat)
    requires Intact(u, store) && a.event.eventId !in store.index.events && ValidEvent(a.event)
    requires Admits(u, store.index, NextRecord(u, store.index, a, now))
    ensures exists actions :: var t := Execute(u, LateStart(store, a, now, kept), actions); t.ready && !t.store.writable
  {
    LateRun(u, store, a, now, kept);
  }
}
