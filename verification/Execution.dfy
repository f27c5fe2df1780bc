/** The authority a session runs with: read-only, or one bounded mutation grant. */
module Execution {
  import opened Wrappers
  import opened Tables
  import opened Order

  // ---------- Repository paths ----------

  // Length of a string in UTF-8 bytes.
  function ByteLength(s: string): nat {
    if s == "" then 0 else
    ByteLength(s[1..]) +
      (if s[0] as int < 0x80 then 1 else if s[0] as int < 0x800 then 2 else if s[0] as int < 0x10000 then 3 else 4)
  }

  predicate Bounded(s: string, max: nat) {
    Trim(s) != "" && ByteLength(s) <= max
  }

  function Slashes(s: string): (r: string)
    ensures |r| == |s|
    ensures forall i :: 0 <= i < |s| ==> r[i] == if s[i] == '\\' then '/' else s[i]
  {
    if s == "" then "" else [if s[0] == '\\' then '/' else s[0]] + Slashes(s[1..])
  }

  // A relative path all of whose components are ordinary names. Empty components
  // and inner "." are dropped by the path type, a leading "." is not.
  predicate Plain(s: string) {
    var parts := Split(s, '/');
    s != "" && s[0] != '/' && parts[0] != "." && forall i :: 0 <= i < |parts| ==> parts[i] != ".."
  }

  function NormalizedRepoPath(s: string): Option<string> {
    if Bounded(s, 512) && Plain(Slashes(s)) then Some(Slashes(s)) else None
  }

  lemma {:induction false} TrimBlank(s: string)
    ensures Trim(s) == "" <==> forall i :: 0 <= i < |s| ==> Whitespace(s[i])
  {
    if s == "" {
    } else if Whitespace(s[0]) {
      TrimBlank(s[1..]);
      assert forall i :: 0 < i < |s| ==> s[i] == s[1..][i - 1];
    } else if Whitespace(s[|s| - 1]) {
      TrimBlank(s[..|s| - 1]);
      assert s[..|s| - 1][0] == s[0];
    }
  }

  lemma {:induction false} SlashesLength(s: string)
    ensures ByteLength(Slashes(s)) == ByteLength(s)
  {
    if s != "" {
      SlashesLength(s[1..]);
      assert Slashes(s)[1..] == Slashes(s[1..]);
    }
  }

  lemma SlashesBounded(s: string, max: nat)
    ensures Bounded(Slashes(s), max) <==> Bounded(s, max)
  {
    TrimBlank(s);
    TrimBlank(Slashes(s));
    SlashesLength(s);
    assert forall i :: 0 <= i < |s| ==> (Whitespace(Slashes(s)[i]) <==> Whitespace(s[i]));
  }

  /** A normalized path is already normal. */
  lemma NormalizedStable(s: string)
    requires NormalizedRepoPath(s).Some?
    ensures NormalizedRepoPath(NormalizedRepoPath(s).value) == NormalizedRepoPath(s)
  {
    SlashesBounded(s, 512);
    assert Slashes(Slashes(s)) == Slashes(s);
  }

  // The normalized form of every path that has one.
  function NormalizedPaths(values: seq<string>): seq<string> {
    if values == [] then []
    else (match NormalizedRepoPath(values[0]) case None => [] case Some(p) => [p]) + NormalizedPaths(values[1..])
  }

  function Elements(values: seq<string>): set<string> {
    set s | s in values
  }

  // ---------- Grants and records ----------

  const ALLOWED_EFFECTS: set<string> := {"reviewed-ops", "source-write"}

  function NormalizedEffects(values: seq<string>): Option<set<string>> {
    var effects := Elements(values);
    if effects != {} && |effects| == |values| && effects <= ALLOWED_EFFECTS then Some(effects) else None
  }

  function ValidatedPaths(values: seq<string>, sourceWrite: bool): Option<set<string>> {
    var paths := Elements(NormalizedPaths(values));
    if |values| <= 32 && |paths| == |values| && sourceWrite == (values != []) then Some(paths) else None
  }

  datatype ReviewGrant = ReviewGrant(
    kind: string, effects: seq<string>, repository: string, paths: seq<string>, reviewId: string,
    sourceSessionId: string, sourceEventId: string, questionSha256: string, grantedToSessionId: string,
    approvedBy: string, approvedAt: string)

  datatype ActiveExecution = ActiveExecution(
    schemaVersion: nat, ordinal: nat, kind: string, effects: seq<string>, repository: string,
    paths: seq<string>, sessionId: string)

  // A document that may be missing, unreadable, or hold a record.
  datatype Document<+T> = Absent | Malformed | Holds(record: T)

  // What the process is started with.
  datatype Environment = Environment(
    scope: string, grant: Document<ReviewGrant>, session: Option<string>, repository: Option<string>)

  datatype Mandate = Mandate(
    scope: string, ordinal: nat, grantedPaths: set<string>, sourceWrite: bool, reviewedOps: bool, fixedGrant: bool)

  datatype Result<+T> = Ok(value: T) | Err

  function OrDefault(o: Option<string>): string {
    match o case None => "" case Some(s) => s
  }

  function ReadOnly(scope: string): Mandate {
    Mandate(scope, 1, {}, false, false, false)
  }

  predicate HexDigit(c: char) {
    '0' <= c <= '9' || 'a' <= c <= 'f' || 'A' <= c <= 'F'
  }

  predicate DigestText(s: string) {
    "sha256:" <= s && |s| == 71 && forall i :: 7 <= i < 71 ==> HexDigit(s[i])
  }

  function FromReviewGrant(scope: string, g: ReviewGrant, session: string, repository: string): Result<Mandate> {
    match NormalizedEffects(g.effects)
    case None => Err
    case Some(effects) =>
      var sourceWrite := "source-write" in effects;
      match ValidatedPaths(g.paths, sourceWrite)
      case None => Err
      case Some(paths) =>
        if g.kind == "review-approved-repair" && g.repository == repository && g.grantedToSessionId == session
          && Bounded(g.reviewId, 128) && Bounded(g.sourceSessionId, 63) && Bounded(g.sourceEventId, 128)
          && DigestText(g.questionSha256) && Bounded(g.approvedBy, 256) && Bounded(g.approvedAt, 64)
        then Ok(Mandate(scope, 1, paths, sourceWrite, "reviewed-ops" in effects, true))
        else Err
  }

  function FromActiveExecution(a: ActiveExecution, session: string, repository: string): Result<Mandate> {
    match NormalizedEffects(a.effects)
    case None => Err
    case Some(effects) =>
      var sourceWrite := "source-write" in effects;
      match ValidatedPaths(a.paths, sourceWrite)
      case None => Err
      case Some(paths) =>
        if a.schemaVersion == 1 && a.ordinal >= 2 && a.kind == "user-requested-mutation"
          && a.repository == repository && a.sessionId == session
        then Ok(Mandate("user", a.ordinal, paths, sourceWrite, "reviewed-ops" in effects, false))
        else Err
  }

  // The authority in force, from the environment and the active-execution file.
  function Configured(env: Environment, file: Document<ActiveExecution>): Result<Mandate> {
    var session, repository := OrDefault(env.session), OrDefault(env.repository);
    match env.scope
    case "human" =>
      if env.grant.Absent? then Ok(Mandate("human", 1, {}, true, true, true)) else Err
    case "observe" => if env.grant.Absent? then Ok(ReadOnly("observe")) else Err
    case "diagnosis-only" => if env.grant.Absent? then Ok(ReadOnly("diagnosis-only")) else Err
    case "user" =>
      (match env.grant
       case Holds(g) => FromReviewGrant("user", g, session, repository)
       case Malformed => Err
       case Absent =>
         match file
         case Absent => Ok(ReadOnly("user"))
         case Malformed => Err
         case Holds(a) => FromActiveExecution(a, session, repository))
    case _ => Err
  }

  predicate IsReadOnly(e: Mandate) {
    !e.sourceWrite && !e.reviewedOps
  }

  // A writer's path: outside the repository, or relative to its root.
  datatype OwnedPath = Outside | Under(relative: string)

  predicate Granted(paths: set<string>, p: OwnedPath) {
    p.Under? && NormalizedRepoPath(p.relative).Some? && NormalizedRepoPath(p.relative).value in paths
  }

  predicate PermitsWorkspaceWrite(e: Mandate, owned: seq<OwnedPath>) {
    e.scope == "human" ||
    (e.sourceWrite && owned != [] && forall i :: 0 <= i < |owned| ==> Granted(e.grantedPaths, owned[i]))
  }

  predicate PermitsReviewedOps(e: Mandate) {
    e.scope == "human" || e.reviewedOps
  }

  predicate PermitsMutationRequest(e: Mandate) {
    e.scope == "user" && IsReadOnly(e) && !e.fixedGrant
  }

  // ---------- Asking for a mutation ----------

  // Insertion into a list kept in order.
  function InsertSorted(s: string, values: seq<string>): (r: seq<string>)
    ensures multiset(r) == multiset(values) + multiset{s}
  {
    if values == [] || !Less(values[0], s) then [s] + values
    else assert values == [values[0]] + values[1..]; [values[0]] + InsertSorted(s, values[1..])
  }

  function Sorted(values: seq<string>): (r: seq<string>)
    ensures multiset(r) == multiset(values)
  {
    if values == [] then []
    else
      assert values == [values[0]] + values[1..];
      InsertSorted(values[0], Sorted(values[1..]))
  }

  predicate InOrder(values: seq<string>) {
    forall i :: 0 < i < |values| ==> !Less(values[i], values[i - 1])
  }

  lemma InOrderCons(s: string, values: seq<string>)
    requires InOrder(values) && (values != [] ==> !Less(values[0], s))
    ensures InOrder([s] + values)
  {
  }

  lemma {:induction false} InsertInOrder(s: string, values: seq<string>)
    requires InOrder(values)
    ensures InOrder(InsertSorted(s, values))
    ensures InsertSorted(s, values)[0] == s || (values != [] && InsertSorted(s, values)[0] == values[0])
  {
    if values == [] || !Less(values[0], s) {
      InOrderCons(s, values);
    } else {
      LessAsymmetric(s, values[0]);
      assert values[1..] != [] ==> !Less(values[1], values[0]);
      InsertInOrder(s, values[1..]);
      InOrderCons(values[0], InsertSorted(s, values[1..]));
    }
  }

  /** The paths of a record are written in order, each as often as it was asked for. */
  lemma {:induction false} SortedInOrder(values: seq<string>)
    ensures InOrder(Sorted(values)) && multiset(Sorted(values)) == multiset(values)
  {
    if values != [] {
      SortedInOrder(values[1..]);
      InsertInOrder(values[0], Sorted(values[1..]));
    }
  }

  predicate AcceptablePaths(paths: seq<string>, reviewedOps: bool) {
    var normalized := Elements(NormalizedPaths(paths));
    |paths| <= 32 && |normalized| == |paths| && (normalized != {} || reviewedOps)
  }

  function NewRecord(env: Environment, paths: seq<string>, reviewedOps: bool, ordinal: nat): ActiveExecution {
    var normalized := NormalizedPaths(paths);
    ActiveExecution(1, ordinal, "user-requested-mutation",
      (if normalized != [] then ["source-write"] else []) + (if reviewedOps then ["reviewed-ops"] else []),
      OrDefault(env.repository), Sorted(normalized), OrDefault(env.session))
  }

  // ---------- The record is accepted by its own reader ----------

  lemma {:induction false} ElementsCount(values: seq<string>)
    ensures |Elements(values)| <= |values|
  {
    if values != [] {
      ElementsCount(values[1..]);
      assert Elements(values) == Elements(values[1..]) + {values[0]};
    }
  }

  lemma {:induction false} NormalizedCount(values: seq<string>)
    ensures |NormalizedPaths(values)| <= |values|
    ensures forall p :: p in NormalizedPaths(values) ==> NormalizedRepoPath(p) == Some(p)
  {
    if values != [] {
      NormalizedCount(values[1..]);
      if NormalizedRepoPath(values[0]).Some? { NormalizedStable(values[0]); }
    }
  }

  lemma {:induction false} NormalizedFixed(values: seq<string>)
    requires forall p :: p in values ==> NormalizedRepoPath(p) == Some(p)
    ensures NormalizedPaths(values) == values
  {
    if values != [] {
      NormalizedFixed(values[1..]);
      assert values == [values[0]] + values[1..];
    }
  }

  lemma SortedMembers(values: seq<string>)
    ensures |Sorted(values)| == |values| && forall p :: p in Sorted(values) <==> p in values
  {
    var sorted := Sorted(values);
    assert |multiset(sorted)| == |sorted| && |multiset(values)| == |values|;
    assert forall p :: p in sorted <==> p in multiset(sorted);
    assert forall p :: p in values <==> p in multiset(values);
  }

  lemma SortedPaths(paths: seq<string>)
    requires |Elements(NormalizedPaths(paths))| == |paths|
    ensures var n := NormalizedPaths(paths);
      && |Sorted(n)| == |n| == |paths|
      && NormalizedPaths(Sorted(n)) == Sorted(n)
      && Elements(Sorted(n)) == Elements(n)
  {
    var n := NormalizedPaths(paths);
    NormalizedCount(paths);
    ElementsCount(n);
    SortedMembers(n);
    NormalizedFixed(Sorted(n));
  }

  lemma EffectsAccepted(sourceWrite: bool, reviewedOps: bool)
    requires sourceWrite || reviewedOps
    ensures
      var effects := (if sourceWrite then ["source-write"] else []) + (if reviewedOps then ["reviewed-ops"] else []);
      && NormalizedEffects(effects).Some?
      && ("source-write" in NormalizedEffects(effects).value <==> sourceWrite)
      && ("reviewed-ops" in NormalizedEffects(effects).value <==> reviewedOps)
  {
    var effects := (if sourceWrite then ["source-write"] else []) + (if reviewedOps then ["reviewed-ops"] else []);
    assert "source-write" != "reviewed-ops" by { assert "source-write"[0] != "reviewed-ops"[0]; }
    if sourceWrite && reviewedOps {
      assert Elements(effects) == {"source-write", "reviewed-ops"};
    } else if sourceWrite {
      assert Elements(effects) == {"source-write"};
    } else {
      assert Elements(effects) == {"reviewed-ops"};
    }
  }

  lemma UserConfigured(env: Environment, a: ActiveExecution)
    requires env.scope == "user" && env.grant.Absent?
    ensures Configured(env, Absent) == Ok(ReadOnly("user"))
    ensures Configured(env, Holds(a)) == FromActiveExecution(a, OrDefault(env.session), OrDefault(env.repository))
  {
  }

  lemma ActiveAccepted(a: ActiveExecution, session: string, repository: string, effects: set<string>,
                       paths: set<string>)
    requires NormalizedEffects(a.effects) == Some(effects)
    requires ValidatedPaths(a.paths, "source-write" in effects) == Some(paths)
    requires a.schemaVersion == 1 && a.ordinal >= 2 && a.kind == "user-requested-mutation"
    requires a.repository == repository && a.sessionId == session
    ensures FromActiveExecution(a, session, repository) ==
      Ok(Mandate("user", a.ordinal, paths, "source-write" in effects, "reviewed-ops" in effects, false))
  {
  }

  /** The record a successful request writes is read back as exactly the authority asked for: the
      requested normalized paths, write access if there are any, and reviewed operations if asked. */
  lemma RecordAccepted(env: Environment, paths: seq<string>, reviewedOps: bool, ordinal: nat)
    requires env.scope == "user" && env.grant.Absent? && ordinal >= 2 && AcceptablePaths(paths, reviewedOps)
    ensures Configured(env, Holds(NewRecord(env, paths, reviewedOps, ordinal))) ==
      Ok(Mandate("user", ordinal, Elements(NormalizedPaths(paths)), NormalizedPaths(paths) != [], reviewedOps, false))
  {
    var n := NormalizedPaths(paths);
    var a := NewRecord(env, paths, reviewedOps, ordinal);
    SortedPaths(paths);
    assert n == [] ==> Elements(n) == {};
    EffectsAccepted(n != [], reviewedOps);
    UserConfigured(env, a);
    ActiveAccepted(a, OrDefault(env.session), OrDefault(env.repository), NormalizedEffects(a.effects).value,
      Elements(n));
  }

  // ---------- Exactly when a mutation is granted ----------

  predicate UserSession(env: Environment) {
    env.scope == "user" && env.grant.Absent?
  }

  predicate Grantable(env: Environment, file: Document<ActiveExecution>, paths: seq<string>, reviewedOps: bool) {
    && UserSession(env) && file.Absent? && AcceptablePaths(paths, reviewedOps)
    && env.repository.Some? && env.session.Some?
  }

  function Granting(paths: seq<string>, reviewedOps: bool): Mandate {
    Mandate("user", 2, Elements(NormalizedPaths(paths)), NormalizedPaths(paths) != [], reviewedOps, false)
  }

  // Only a user session without a grant and without an active execution may ask.
  lemma MayAsk(env: Environment, file: Document<ActiveExecution>)
    ensures (Configured(env, file).Ok? && PermitsMutationRequest(Configured(env, file).value)) <==>
      UserSession(env) && file.Absent?
    ensures UserSession(env) && file.Absent? ==> Configured(env, file) == Ok(ReadOnly("user"))
  {
    if UserSession(env) && file.Holds? { UserConfigured(env, file.record); }
  }
}
