/** Whole sessions: any sequence of requests through the supervisor's gates, and the launches between them. */
module Sessions {
  import opened Wrappers
  import opened Tables
  import opened Execution
  import opened RepositoryPaths
  import opened Grants
  import opened Authority
  import opened LaunchText
  import opened Launches
  import opened Lifecycles
  import opened Identities

  // What becomes of the process that carries out an admitted request.
  datatype Child = Ran | NotStarted | Lost

  // One client request; a launch request carries what it asks to register.
  datatype Request = Request(uid: nat, op: Operation, args: seq<string>, launch: Registration, child: Child)

  // The active-execution file, the mutations granted, the authorizations on disk, the paths opened to
  // writers, and the number of operations published or executed.
  datatype Session = Session(
    file: Document<ActiveExecution>, mutations: seq<Mutation>, registry: Registry, boundaries: seq<seq<OwnedPath>>,
    operations: nat)

  const START: Session := Session(Absent, [], NONE, [], 0)

  datatype Reply = Refused | Done | Stopped | Failed

  const PEERS: set<nat> := {0, ORCHESTRATOR_UID, WRITER_UID, READER_UID, OPS_UID, REVIEWER_UID}

  function Advance(env: Environment, s: Session, m: Mutation): (Session, Reply) {
    if Grantable(env, s.file, m.paths, m.reviewedOps)
    then (s.(file := Holds(NewRecord(env, m.paths, m.reviewedOps, 2)), mutations := s.mutations + [m]), Done)
    else (s, Refused)
  }

  function Register(h: Host, s: Session, q: Registration, e: Mandate): (Session, Reply) {
    (s.(registry := Step(h, s.registry, Enrol(q, e))),
     if AfterRegister(h, e, s.registry.dirs, q).Some? then Done else Refused)
  }

  function Perform(env: Environment, h: Host, s: Session, r: Request, e: Mandate): (Session, Reply) {
    match r.op
    case ExecutionMutationRequest =>
      (match MutationOptions(["request-mutation"] + r.args)
       case None => (s, Refused)
       case Some(m) => Advance(env, s, m))
    case SupervisorRegisterLaunch => Register(h, s, r.launch.(renew := false), e)
    case SupervisorRenewLaunch => Register(h, s, r.launch.(renew := true), e)
    case OpsPublishBound | OpsPublish | OpsExecute => (s.(operations := s.operations + 1), Done)
    case _ => (s, Done)
  }

  // The gates, in order: known peer, shutdown, role, and the session's authority.
  function Serve(env: Environment, h: Host, s: Session, r: Request): (Session, Reply) {
    if r.uid !in PEERS then (s, Refused)
    else if r.op.SupervisorShutdown? then (s, Stopped)
    else if !AuthorizedFor(r.op, r.uid) then (s, Refused)
    else match Configured(env, s.file)
      case Err => (s, Failed)
      case Ok(e) =>
        if !AllowedForExecution(r.op, r.args, e) then (s, Refused)
        else match r.child
          case NotStarted => (s, Failed)
          case Ran => Perform(env, h, s, r, e)
          case Lost => (Perform(env, h, s, r, e).0, Failed)
  }

  function Opened(env: Environment, s: Session, owned: seq<OwnedPath>): Session {
    match Configured(env, s.file)
    case Err => s
    case Ok(e) => if PermitsWorkspaceWrite(e, owned) then s.(boundaries := s.boundaries + [owned]) else s
  }

  // The launcher claims an authorization and, for a writer, opens the paths its assignment now names,
  // after asking the session's authority again. Any other check in between may fail.
  function Launched(env: Environment, h: Host, s: Session, name: string, owned: Option<seq<OwnedPath>>,
      fit: bool): Session {
    if AfterClaim(h, s.registry.dirs, name, owned.Some?).None? then s
    else
      var l := View(s.registry.dirs[name]);
      var claimed := s.(registry := Step(h, s.registry, Start(name, owned.Some?)));
      if !fit || l.access != "workspace-write" || l.role != "worker" then claimed
      else Opened(env, claimed, owned.value)
  }

  datatype Happening =
    | Asked(request: Request)
    | Launch(name: string, owned: Option<seq<OwnedPath>>, fit: bool)
    | Ended(name: string)

  function Happen(env: Environment, h: Host, s: Session, x: Happening): Session {
    match x
    case Asked(r) => Serve(env, h, s, r).0
    case Launch(name, owned, fit) => Launched(env, h, s, name, owned, fit)
    case Ended(name) => s.(registry := Step(h, s.registry, End(name)))
  }

  function Course(env: Environment, h: Host, s: Session, xs: seq<Happening>): Session
    decreases xs
  {
    if xs == [] then s else Course(env, h, Happen(env, h, s, xs[0]), xs[1..])
  }

  // ---------- What every session keeps ----------

  predicate Confined(owned: seq<OwnedPath>, m: Mutation) {
    owned != [] && forall i :: 0 <= i < |owned| ==> Granted(Elements(NormalizedPaths(m.paths)), owned[i])
  }

  // Everything that happened lies within this mutation.
  predicate Within(s: Session, m: Mutation) {
    && (s.operations > 0 ==> m.reviewedOps)
    && forall i :: 0 <= i < |s.boundaries| ==> Confined(s.boundaries[i], m)
  }

  ghost predicate GrantBounded(env: Environment, s: Session) {
    if s.mutations == [] then s.file.Absent? && s.boundaries == [] && s.operations == 0
    else
      var m := s.mutations[0];
      && |s.mutations| == 1
      && AcceptablePaths(m.paths, m.reviewedOps)
      && s.file == Holds(NewRecord(env, m.paths, m.reviewedOps, 2))
      && Within(s, m)
  }

  // The mandate in force at each stage.
  function InForce(s: Session): Mandate {
    if s.mutations == [] then ReadOnly("user") else Granting(s.mutations[0].paths, s.mutations[0].reviewedOps)
  }

  lemma ForceConfigured(env: Environment, s: Session)
    requires UserSession(env) && GrantBounded(env, s)
    ensures Configured(env, s.file) == Ok(InForce(s))
  {
    if s.mutations == [] {
      MayAsk(env, s.file);
    } else {
      RecordAccepted(env, s.mutations[0].paths, s.mutations[0].reviewedOps, 2);
    }
  }

  // Write access is permitted exactly within the mutation.
  lemma PermittedConfined(s: Session, owned: seq<OwnedPath>)
    requires PermitsWorkspaceWrite(InForce(s), owned)
    ensures s.mutations != [] && Confined(owned, s.mutations[0])
  {
  }

  lemma AcceptableNotReadOnly(paths: seq<string>, reviewedOps: bool)
    requires AcceptablePaths(paths, reviewedOps)
    ensures NormalizedPaths(paths) != [] || reviewedOps
  {
    assert NormalizedPaths(paths) == [] ==> Elements(NormalizedPaths(paths)) == {};
  }

  lemma PerformBounded(env: Environment, h: Host, s: Session, r: Request)
    requires UserSession(env) && GrantBounded(env, s) && AllowedForExecution(r.op, r.args, InForce(s))
    ensures var t := Perform(env, h, s, r, InForce(s)).0; GrantBounded(env, t) && s.mutations <= t.mutations
  {
    if r.op.ExecutionMutationRequest? && s.mutations != [] {
      AcceptableNotReadOnly(s.mutations[0].paths, s.mutations[0].reviewedOps);
    }
  }

  // A request leaves the session alone, or is one the authority in force admits.
  lemma ServeOutcome(env: Environment, h: Host, s: Session, r: Request)
    requires Configured(env, s.file) == Ok(InForce(s))
    ensures Serve(env, h, s, r).0 == s ||
      (AllowedForExecution(r.op, r.args, InForce(s)) && Serve(env, h, s, r).0 == Perform(env, h, s, r, InForce(s)).0)
  {
  }

  lemma ServeBounded(env: Environment, h: Host, s: Session, r: Request)
    requires UserSession(env) && GrantBounded(env, s)
    ensures GrantBounded(env, Serve(env, h, s, r).0) && s.mutations <= Serve(env, h, s, r).0.mutations
  {
    ForceConfigured(env, s);
    ServeOutcome(env, h, s, r);
    if AllowedForExecution(r.op, r.args, InForce(s)) { PerformBounded(env, h, s, r); }
  }

  lemma OpenedBounded(env: Environment, s: Session, owned: seq<OwnedPath>)
    requires UserSession(env) && GrantBounded(env, s)
    ensures GrantBounded(env, Opened(env, s, owned)) && Opened(env, s, owned).mutations == s.mutations
  {
    ForceConfigured(env, s);
    if PermitsWorkspaceWrite(InForce(s), owned) { PermittedConfined(s, owned); }
  }

  lemma MovedBounded(env: Environment, s: Session, registry: Registry)
    requires GrantBounded(env, s)
    ensures GrantBounded(env, s.(registry := registry))
  {
  }

  lemma LaunchedBounded(env: Environment, h: Host, s: Session, name: string, owned: Option<seq<OwnedPath>>, fit: bool)
    requires UserSession(env) && GrantBounded(env, s)
    ensures var t := Launched(env, h, s, name, owned, fit); GrantBounded(env, t) && s.mutations == t.mutations
  {
    var registry := Step(h, s.registry, Start(name, owned.Some?));
    MovedBounded(env, s, registry);
    if owned.Some? { OpenedBounded(env, s.(registry := registry), owned.value); }
  }

  lemma HappenBounded(env: Environment, h: Host, s: Session, x: Happening)
    requires UserSession(env) && GrantBounded(env, s)
    ensures GrantBounded(env, Happen(env, h, s, x)) && s.mutations <= Happen(env, h, s, x).mutations
  {
    match x
    case Asked(r) => ServeBounded(env, h, s, r);
    case Launch(name, owned, fit) => LaunchedBounded(env, h, s, name, owned, fit);
    case Ended(_) =>
  }

  // A path that was asked for, up to the lean of its slashes, and that leads to a place inside the repository.
  predicate AskedInside(p: OwnedPath, asked: seq<string>) {
    && p.Under? && StaysInside(p.relative)
    && exists k :: 0 <= k < |asked| && SamePath(p.relative, asked[k])
  }

  // Every path opened to a writer is one that the one mutation asked for.
  predicate Indoors(s: Session) {
    forall i, j :: 0 <= i < |s.boundaries| && 0 <= j < |s.boundaries[i]| ==>
      |s.mutations| == 1 && AskedInside(s.boundaries[i][j], s.mutations[0].paths)
  }

  lemma {:induction false} NormalizedFrom(values: seq<string>, p: string)
    requires p in NormalizedPaths(values)
    ensures exists k :: 0 <= k < |values| && Slashes(values[k]) == p
  {
    if NormalizedRepoPath(values[0]) == Some(p) {
      assert Slashes(values[0]) == p;
    } else {
      NormalizedFrom(values[1..], p);
      var k :| 0 <= k < |values[1..]| && Slashes(values[1..][k]) == p;
      assert Slashes(values[k + 1]) == p;
    }
  }

  lemma GrantedAsked(p: OwnedPath, asked: seq<string>)
    requires Granted(Elements(NormalizedPaths(asked)), p)
    ensures AskedInside(p, asked)
  {
    NeverLeaves(p.relative);
    NormalizedFrom(asked, Slashes(p.relative));
    var k :| 0 <= k < |asked| && Slashes(asked[k]) == Slashes(p.relative);
    SameNormal(p.relative, asked[k]);
  }

  lemma BoundedIndoors(env: Environment, s: Session)
    requires GrantBounded(env, s)
    ensures Indoors(s)
  {
    forall i, j | 0 <= i < |s.boundaries| && 0 <= j < |s.boundaries[i]|
      ensures |s.mutations| == 1 && AskedInside(s.boundaries[i][j], s.mutations[0].paths)
    {
      assert Confined(s.boundaries[i], s.mutations[0]);
      GrantedAsked(s.boundaries[i][j], s.mutations[0].paths);
    }
  }

  /** A user session without an initial grant: at most one mutation request ever succeeds; until it does, no
      operation is published or executed and nothing is opened to a writer; afterwards every path ever opened
      lies in exactly the requested normalized paths, none leads out of the repository, and operations happen
      only if they were asked for. */
  lemma {:induction false} OneShot(env: Environment, h: Host, s: Session, xs: seq<Happening>)
    requires UserSession(env) && GrantBounded(env, s)
    ensures GrantBounded(env, Course(env, h, s, xs)) && s.mutations <= Course(env, h, s, xs).mutations
    ensures Indoors(Course(env, h, s, xs))
    decreases xs
  {
    if xs == [] { BoundedIndoors(env, s); }
    if xs != [] {
      HappenBounded(env, h, s, xs[0]);
      OneShot(env, h, Happen(env, h, s, xs[0]), xs[1..]);
    }
  }

  // ---------- Who can change what ----------

  // Root, or the peer with this user id.
  predicate From(x: Happening, uid: nat) {
    x.Asked? && (x.request.uid == 0 || x.request.uid == uid)
  }

  predicate RegisteredWriter(s: Session, name: string) {
    && name in s.registry.dirs
    && var l := View(s.registry.dirs[name]);
       l.role == "worker" && l.access == "workspace-write" && l.state == "registered"
  }

  // A mutation or a registration takes the orchestrator; an operation takes the operations peer, the reviewer to
  // execute it or the orchestrator to publish it bound; paths are opened only by launching a registered writer.
  predicate Attributed(s: Session, t: Session, x: Happening) {
    && (t.mutations != s.mutations ==> From(x, 10001))
    && (x.Asked? && t.registry != s.registry ==> From(x, 10001))
    && (t.operations != s.operations ==>
          || From(x, 10005)
          || (From(x, 10007) && x.request.op.OpsExecute?)
          || (From(x, 10001) && x.request.op.OpsPublishBound?))
    && (t.boundaries != s.boundaries ==> x.Launch? && RegisteredWriter(s, x.name))
  }

  lemma ServeAttributed(env: Environment, h: Host, s: Session, r: Request)
    ensures Attributed(s, Serve(env, h, s, r).0, Asked(r))
  {
  }

  lemma LaunchAttributed(env: Environment, h: Host, s: Session, name: string, owned: Option<seq<OwnedPath>>, fit: bool)
    ensures Attributed(s, Launched(env, h, s, name, owned, fit), Happening.Launch(name, owned, fit))
  {
  }

  /** Every change in a session is attributed to a peer that may make it. */
  lemma HappenAttributed(env: Environment, h: Host, s: Session, x: Happening)
    ensures Attributed(s, Happen(env, h, s, x), x)
  {
    match x
    case Asked(r) => ServeAttributed(env, h, s, r);
    case Launch(name, owned, fit) => LaunchAttributed(env, h, s, name, owned, fit);
    case Ended(_) =>
  }

  /** A course in which neither root nor the orchestrator asks for anything obtains no mutation, and one in which
      the operations peer and the reviewer do not ask either performs no operation. */
  lemma {:induction false} Unasked(env: Environment, h: Host, s: Session, xs: seq<Happening>)
    requires forall i :: 0 <= i < |xs| ==> !From(xs[i], 10001)
    ensures Course(env, h, s, xs).mutations == s.mutations
    ensures (forall i :: 0 <= i < |xs| ==> !From(xs[i], 10005) && !From(xs[i], 10007)) ==>
      Course(env, h, s, xs).operations == s.operations
    decreases xs
  {
    if xs != [] {
      HappenAttributed(env, h, s, xs[0]);
      assert !From(xs[0], 10001);
      Unasked(env, h, Happen(env, h, s, xs[0]), xs[1..]);
    }
  }

  // ---------- Writers on disk ----------

  // An authorization that reads as a writer was admitted for paths within the one mutation.
  predicate WriterWithin(s: Session, name: string) {
    name in s.registry.dirs && View(s.registry.dirs[name]).access == "workspace-write" ==>
      s.mutations != [] && Confined(s.registry.dirs[name].owned, s.mutations[0])
  }

  ghost predicate WritersBounded(s: Session) {
    forall name :: WriterWithin(s, name)
  }

  // No access line of the workflow id ever reads as write access.
  ghost predicate Unforged(h: Host) {
    Digests(h) && !Forges(WorkflowLines(h.workflowId))
  }

  // Steps that leave an authorization's access and paths alone.
  lemma SameWriter(s: Session, t: Session, name: string)
    requires WriterWithin(s, name) && s.mutations <= t.mutations
    requires name in t.registry.dirs ==>
      && name in s.registry.dirs
      && View(t.registry.dirs[name]).access == View(s.registry.dirs[name]).access
      && t.registry.dirs[name].owned == s.registry.dirs[name].owned
    ensures WriterWithin(t, name)
  {
  }

  // Where an access line exists, nothing on disk reads as a writer.
  lemma NoWriter(h: Host, t: Session, name: string)
    requires Unforged(h) && "access" in WorkflowLines(h.workflowId)
    requires name in t.registry.dirs ==> Proper(h, name, t.registry.dirs[name])
    ensures WriterWithin(t, name)
  {
    if name in t.registry.dirs { NeverForged(h, name, t.registry.dirs[name]); }
  }

  lemma EnrolWriter(h: Host, s: Session, q: Registration, name: string)
    requires Unforged(h) && Regular(h, s.registry) && WriterWithin(s, name)
    ensures WriterWithin(Register(h, s, q, InForce(s)).0, name)
  {
    var e, t := InForce(s), Register(h, s, q, InForce(s)).0;
    if "access" in WorkflowLines(h.workflowId) {
      if name in t.registry.dirs { StepProper(h, s.registry, Enrol(q, e), name); }
      NoWriter(h, t, name);
    } else if name != q.name {
      StepOthers(h, s.registry, Enrol(q, e), name);
      SameWriter(s, t, name);
    } else if AfterRegister(h, e, s.registry.dirs, q).Some? && View(t.registry.dirs[name]).access == "workspace-write" {
      AdmittedWriter(h, e, s.registry.dirs, q);
      PermittedConfined(s, q.owned);
    }
  }

  lemma EnrolWriters(h: Host, s: Session, q: Registration)
    requires Unforged(h) && Regular(h, s.registry) && WritersBounded(s)
    ensures WritersBounded(Register(h, s, q, InForce(s)).0) && Regular(h, Register(h, s, q, InForce(s)).0.registry)
  {
    StepRegular(h, s.registry, Enrol(q, InForce(s)));
    forall name ensures WriterWithin(Register(h, s, q, InForce(s)).0, name) {
      assert WriterWithin(s, name);
      EnrolWriter(h, s, q, name);
    }
  }

  lemma MovedWriter(h: Host, s: Session, op: Op, name: string)
    requires Unforged(h) && Regular(h, s.registry) && WriterWithin(s, name) && !op.Enrol?
    ensures WriterWithin(s.(registry := Step(h, s.registry, op)), name)
  {
    var t := s.(registry := Step(h, s.registry, op));
    MovedAccess(h, s.registry, op, name);
    if "access" in WorkflowLines(h.workflowId) {
      if name in t.registry.dirs { StepProper(h, s.registry, op, name); }
      NoWriter(h, t, name);
    } else {
      SameWriter(s, t, name);
    }
  }

  // Claiming and finishing change neither access nor paths.
  lemma MovedWriters(h: Host, s: Session, op: Op)
    requires Unforged(h) && Regular(h, s.registry) && WritersBounded(s) && !op.Enrol?
    ensures WritersBounded(s.(registry := Step(h, s.registry, op))) && Regular(h, Step(h, s.registry, op))
  {
    StepRegular(h, s.registry, op);
    forall name ensures WriterWithin(s.(registry := Step(h, s.registry, op)), name) {
      assert WriterWithin(s, name);
      MovedWriter(h, s, op, name);
    }
  }

  // Nothing about the registry changed.
  lemma SameWriters(s: Session, t: Session)
    requires WritersBounded(s) && t.registry == s.registry && s.mutations <= t.mutations
    ensures WritersBounded(t)
  {
    forall name ensures WriterWithin(t, name) { assert WriterWithin(s, name); SameWriter(s, t, name); }
  }

  lemma PerformWriters(env: Environment, h: Host, s: Session, r: Request)
    requires Unforged(h) && Regular(h, s.registry) && WritersBounded(s)
    ensures var t := Perform(env, h, s, r, InForce(s)).0; WritersBounded(t) && Regular(h, t.registry)
  {
    match r.op
    case SupervisorRegisterLaunch => EnrolWriters(h, s, r.launch.(renew := false));
    case SupervisorRenewLaunch => EnrolWriters(h, s, r.launch.(renew := true));
    case _ => SameWriters(s, Perform(env, h, s, r, InForce(s)).0);
  }

  lemma ServeWriters(env: Environment, h: Host, s: Session, r: Request)
    requires UserSession(env) && GrantBounded(env, s) && Unforged(h) && Regular(h, s.registry) && WritersBounded(s)
    ensures var t := Serve(env, h, s, r).0; WritersBounded(t) && Regular(h, t.registry)
  {
    ForceConfigured(env, s);
    ServeOutcome(env, h, s, r);
    PerformWriters(env, h, s, r);
  }

  lemma LaunchWriters(env: Environment, h: Host, s: Session, name: string, owned: Option<seq<OwnedPath>>, fit: bool)
    requires Unforged(h) && Regular(h, s.registry) && WritersBounded(s)
    ensures var t := Launched(env, h, s, name, owned, fit); WritersBounded(t) && Regular(h, t.registry)
  {
    var op := Start(name, owned.Some?);
    MovedWriters(h, s, op);
    var t := Launched(env, h, s, name, owned, fit);
    if t != s { SameWriters(s.(registry := Step(h, s.registry, op)), t); }
  }

  lemma HappenWriters(env: Environment, h: Host, s: Session, x: Happening)
    requires UserSession(env) && GrantBounded(env, s) && Unforged(h) && Regular(h, s.registry) && WritersBounded(s)
    ensures var t := Happen(env, h, s, x); WritersBounded(t) && Regular(h, t.registry)
  {
    match x
    case Asked(r) => ServeWriters(env, h, s, r);
    case Launch(name, owned, fit) => LaunchWriters(env, h, s, name, owned, fit);
    case Ended(name) => MovedWriters(h, s, End(name));
  }

  /** In every course of a session whose workflow id forges no access, before the mutation no authorization on
      disk reads as a writer, and afterwards each one that does was admitted for paths within exactly the
      requested ones. */
  lemma {:induction false} WritersOnDisk(env: Environment, h: Host, s: Session, xs: seq<Happening>)
    requires UserSession(env) && GrantBounded(env, s) && Unforged(h) && Regular(h, s.registry) && WritersBounded(s)
    ensures WritersBounded(Course(env, h, s, xs))
    decreases xs
  {
    if xs != [] {
      HappenWriters(env, h, s, xs[0]);
      HappenBounded(env, h, s, xs[0]);
      WritersOnDisk(env, h, Happen(env, h, s, xs[0]), xs[1..]);
    }
  }

  /** From the start of a session both hold, whatever is asked, launched and finished. */
  lemma EverySession(env: Environment, h: Host, xs: seq<Happening>)
    requires UserSession(env)
    ensures GrantBounded(env, Course(env, h, START, xs)) && Indoors(Course(env, h, START, xs))
    ensures Unforged(h) ==> WritersBounded(Course(env, h, START, xs))
  {
    OneShot(env, h, START, xs);
    if Unforged(h) { WritersOnDisk(env, h, START, xs); }
  }

  // ---------- Exactly which workflow ids forge a writer ----------

  function AskReader(n: string, g: Equipment): Happening {
    Asked(Request(0, SupervisorRegisterLaunch, [], AsReader(n, g, ReadOnly("user")).request, Ran))
  }

  lemma CourseFirst(env: Environment, h: Host, s: Session, x: Happening, rest: seq<Happening>)
    ensures Course(env, h, s, [x] + rest) == Course(env, h, Happen(env, h, s, x), rest)
  {
    assert ([x] + rest)[1..] == rest;
  }

  // Root registers a reader in a session that has granted nothing.
  lemma ReaderAsked(env: Environment, h: Host, g: Equipment, n: string)
    requires UserSession(env)
    ensures Happen(env, h, START, AskReader(n, g)) ==
      START.(registry := Step(h, NONE, AsReader(n, g, ReadOnly("user"))))
  {
    ForceConfigured(env, START);
  }

  lemma ReaderLaunched(env: Environment, h: Host, s: Session, n: string)
    requires AfterClaim(h, s.registry.dirs, n, true).Some?
    ensures Happen(env, h, s, Happening.Launch(n, Some([]), false)) ==
      s.(registry := Step(h, s.registry, Start(n, true)))
  {
  }

  // A writer on disk in a session that granted nothing.
  lemma Unadmitted(registry: Registry, n: string)
    requires n in registry.dirs && View(registry.dirs[n]).access == "workspace-write"
    ensures !WritersBounded(START.(registry := registry))
  {
    assert !WriterWithin(START.(registry := registry), n);
  }

  lemma ForgedAtOnce(env: Environment, h: Host, g: Equipment) returns (xs: seq<Happening>)
    requires UserSession(env) && Digests(h) && HasBackend(h, g)
    requires "access" in WorkflowLines(h.workflowId) && WorkflowLines(h.workflowId)["access"] == "workspace-write"
    ensures !WritersBounded(Course(env, h, START, xs))
  {
    AlignmentValid();
    xs := [AskReader(ALIGNMENT, g)] + [];
    CourseFirst(env, h, START, AskReader(ALIGNMENT, g), []);
    ReaderAsked(env, h, g, ALIGNMENT);
    ReaderRegistered(h, g, ALIGNMENT, ReadOnly("user"));
    Unadmitted(Step(h, NONE, AsReader(ALIGNMENT, g, ReadOnly("user"))), ALIGNMENT);
  }

  // The session after a reader was registered and claimed, and how it came about.
  lemma ReaderRunning(env: Environment, h: Host, g: Equipment, n: string, rest: seq<Happening>)
    requires UserSession(env) && Digests(h) && HasBackend(h, g) && Claimable(WorkflowLines(h.workflowId))
    requires n == UsableName(WorkflowLines(h.workflowId))
    ensures var t := Step(h, Step(h, NONE, AsReader(n, g, ReadOnly("user"))), Start(n, true));
      Course(env, h, START, [AskReader(n, g)] + ([Happening.Launch(n, Some([]), false)] + rest)) ==
      Course(env, h, START.(registry := t), rest)
  {
    var ask, launch := AskReader(n, g), Happening.Launch(n, Some([]), false);
    var one := Happen(env, h, START, ask);
    ReaderAsked(env, h, g, n);
    ReaderClaimed(h, g, n, ReadOnly("user"));
    ReaderLaunched(env, h, one, n);
    CourseFirst(env, h, START, ask, [launch] + rest);
    CourseFirst(env, h, one, launch, rest);
  }

  lemma ForgedByClaim(env: Environment, h: Host, g: Equipment) returns (xs: seq<Happening>)
    requires UserSession(env) && Digests(h) && HasBackend(h, g) && Claimable(WorkflowLines(h.workflowId))
    requires "access" in WorkflowLines(h.workflowId)
    requires DropReturn(WorkflowLines(h.workflowId)["access"]) == "workspace-write"
    ensures !WritersBounded(Course(env, h, START, xs))
  {
    var n := UsableName(WorkflowLines(h.workflowId));
    xs := [AskReader(n, g)] + ([Happening.Launch(n, Some([]), false)] + []);
    ReaderRunning(env, h, g, n, []);
    ReaderClaimed(h, g, n, ReadOnly("user"));
    Unadmitted(Step(h, Step(h, NONE, AsReader(n, g, ReadOnly("user"))), Start(n, true)), n);
  }

  lemma ReaderEnded(env: Environment, h: Host, g: Equipment, n: string)
    requires UserSession(env) && Digests(h) && HasBackend(h, g) && Claimable(WorkflowLines(h.workflowId))
    requires n == UsableName(WorkflowLines(h.workflowId))
    ensures Course(env, h, START, [AskReader(n, g)] + ([Happening.Launch(n, Some([]), false)] + ([Ended(n)] + []))) ==
      START.(registry := Step(h, Step(h, Step(h, NONE, AsReader(n, g, ReadOnly("user"))), Start(n, true)), End(n)))
  {
    var t := Step(h, Step(h, NONE, AsReader(n, g, ReadOnly("user"))), Start(n, true));
    ReaderRunning(env, h, g, n, [Ended(n)] + []);
    CourseFirst(env, h, START.(registry := t), Ended(n), []);
  }

  // The values a finish still needs.
  lemma LivesOn(m: map<string, string>)
    requires "role" in m ==> DropReturn(m["role"]) != ""
    requires "access" in m && DropReturn(DropReturn(m["access"])) == "workspace-write"
    ensures DropReturn(Overridden(m, "role", "reader")) != "" && DropReturn(Overridden(m, "access", "read-only")) != ""
  {
    assert LineSafe("reader");
  }

  lemma ForgedByFinish(env: Environment, h: Host, g: Equipment) returns (xs: seq<Happening>)
    requires UserSession(env) && Digests(h) && HasBackend(h, g) && Claimable(WorkflowLines(h.workflowId))
    requires "role" in WorkflowLines(h.workflowId) ==> DropReturn(WorkflowLines(h.workflowId)["role"]) != ""
    requires "access" in WorkflowLines(h.workflowId)
    requires DropReturn(DropReturn(WorkflowLines(h.workflowId)["access"])) == "workspace-write"
    ensures !WritersBounded(Course(env, h, START, xs))
  {
    var n := UsableName(WorkflowLines(h.workflowId));
    xs := [AskReader(n, g)] + ([Happening.Launch(n, Some([]), false)] + ([Ended(n)] + []));
    ReaderEnded(env, h, g, n);
    LivesOn(WorkflowLines(h.workflowId));
    ReaderFinished(h, g, n, ReadOnly("user"));
    Unadmitted(Step(h, Step(h, Step(h, NONE, AsReader(n, g, ReadOnly("user"))), Start(n, true)), End(n)), n);
  }

  // The forged writer: at once, after a claim, or after a claim and a finish.
  lemma ForgedWriter(env: Environment, h: Host, g: Equipment) returns (xs: seq<Happening>)
    requires UserSession(env) && Digests(h) && HasBackend(h, g) && Forges(WorkflowLines(h.workflowId))
    ensures !WritersBounded(Course(env, h, START, xs))
  {
    var m := WorkflowLines(h.workflowId);
    if m["access"] == "workspace-write" {
      xs := ForgedAtOnce(env, h, g);
    } else if DropReturn(m["access"]) == "workspace-write" {
      xs := ForgedByClaim(env, h, g);
    } else {
      xs := ForgedByFinish(env, h, g);
    }
  }

  /** On a host with a backend, every writer on disk is one that was admitted, in every course from the start,
      if and only if no access line of the workflow id reads as write access. */
  lemma WritersExact(env: Environment, h: Host, g: Equipment)
    requires UserSession(env) && Digests(h) && HasBackend(h, g)
    ensures !Forges(WorkflowLines(h.workflowId)) <==> forall xs :: WritersBounded(Course(env, h, START, xs))
  {
    if Forges(WorkflowLines(h.workflowId)) {
      var xs := ForgedWriter(env, h, g);
    } else {
      forall xs ensures WritersBounded(Course(env, h, START, xs)) { EverySession(env, h, xs); }
    }
  }

  // ---------- Exactly when a mutation is granted ----------

  /** The first request succeeds exactly when the orchestrator (or root) sends a well-formed one from a
      session bound to a repository, naming at most 32 distinct plain paths, or reviewed operations. */
  lemma FirstMutation(env: Environment, h: Host, s: Session, r: Request)
    requires UserSession(env) && GrantBounded(env, s) && s.mutations == [] && r.op.ExecutionMutationRequest? &&
      r.child.Ran?
    ensures Serve(env, h, s, r).1.Done? <==>
      && (r.uid == 0 || r.uid == ORCHESTRATOR_UID)
      && MutationOptions(["request-mutation"] + r.args).Some?
      && env.repository.Some? && env.session.Some?
      && var m := MutationOptions(["request-mutation"] + r.args).value; AcceptablePaths(m.paths, m.reviewedOps)
  {
    ForceConfigured(env, s);
  }

  /** After one mutation has been granted every further request for one is refused and changes nothing. */
  lemma SecondMutationRefused(env: Environment, h: Host, s: Session, r: Request)
    requires UserSession(env) && GrantBounded(env, s) && s.mutations != [] && r.op.ExecutionMutationRequest?
    ensures Serve(env, h, s, r) == (s, Refused)
  {
    ForceConfigured(env, s);
    AcceptableNotReadOnly(s.mutations[0].paths, s.mutations[0].reviewedOps);
  }
}
