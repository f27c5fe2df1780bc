/** Requests to the authority supervisor: who may send them, and what a session's authority admits. */
module Authority {
  import opened Wrappers
  import opened Execution

  const ORCHESTRATOR_UID: nat := 10001
  const WRITER_UID: nat := 10002
  const READER_UID: nat := 10003
  const OPS_UID: nat := 10005
  const REVIEWER_UID: nat := 10007

  datatype Operation =
    | Workflow | Decision | Dag | OrchestratorComplete | ExecutionMutationRequest
    | SupervisorRegisterLaunch | SupervisorRenewLaunch | SupervisorShutdown
    | AssignmentCreate | AssignmentShow | AssignmentStatus | AssignmentCheck
    | CheckpointUpdate | CheckpointShow | FindingCreate | FindingShow | FindingList | FindingDismiss
    | TodoCreate | TodoShow | TodoList | TodoAssign | TodoStatus | ResolutionCreate | TodoClose
    | ValidationLeaseAcquire | ValidationLeaseStatus | ValidationLeaseShow | ValidationLeaseList
    | GateCheck | OpsDescribe | OpsRead | OpsPublishBound | OpsPublish | OpsExecute

  predicate AuthorizedFor(op: Operation, uid: nat) {
    uid == 0 ||
    match op
    case OpsDescribe | OpsRead => uid in {ORCHESTRATOR_UID, WRITER_UID, READER_UID, OPS_UID, REVIEWER_UID}
    case OpsPublish => uid == OPS_UID
    case OpsExecute => uid == OPS_UID || uid == REVIEWER_UID
    case FindingCreate => uid == READER_UID
    case FindingDismiss | TodoClose => uid == ORCHESTRATOR_UID || uid == READER_UID
    case ResolutionCreate => uid == WRITER_UID
    case CheckpointUpdate | CheckpointShow | FindingShow | FindingList | TodoShow | TodoList
      | ValidationLeaseShow | ValidationLeaseList => uid in {ORCHESTRATOR_UID, WRITER_UID, READER_UID}
    case ValidationLeaseAcquire | ValidationLeaseStatus => uid == WRITER_UID || uid == READER_UID
    case _ => uid == ORCHESTRATOR_UID
  }

  predicate HasOptionValue(args: seq<string>, option: string, expected: string) {
    exists i :: 0 < i < |args| && args[i - 1] == option && args[i] == expected
  }

  const READ_ONLY_ROUTES: set<string> := {
    "--observe", "--request-review", "--direct-response", "--clarification", "--auto", "--auto-clarification",
    "--read-only", "--human-review"}

  predicate AllowedForScope(op: Operation, args: seq<string>, scope: string) {
    if scope == "human" then true
    else if scope == "observe" || scope == "diagnosis-only" then
      match op
      case ResolutionCreate => false
      case AssignmentCreate => !HasOptionValue(args, "--role", "exploitation")
      case SupervisorRegisterLaunch => !HasOptionValue(args, "--access", "workspace-write")
      case OrchestratorComplete => args != [] && args[0] in READ_ONLY_ROUTES
      case OpsPublishBound | OpsPublish | OpsExecute => false
      case _ => true
    else false
  }

  predicate AllowedForExecution(op: Operation, args: seq<string>, e: Mandate) {
    if e.scope == "human" || e.scope == "observe" || e.scope == "diagnosis-only" then AllowedForScope(op, args, e.scope)
    else if e.scope == "user" then
      match op
      case ExecutionMutationRequest => PermitsMutationRequest(e)
      case OpsPublishBound | OpsPublish | OpsExecute => PermitsReviewedOps(e)
      case _ => true
    else false
  }

  /** No peer but root can both submit a resolution and judge it, by creating or dismissing a finding or closing
      the todo; and the writer can neither publish nor execute an operation. */
  lemma SeparateDuties(uid: nat)
    requires uid != 0
    ensures AuthorizedFor(ResolutionCreate, uid) ==>
      !AuthorizedFor(FindingCreate, uid) && !AuthorizedFor(FindingDismiss, uid) && !AuthorizedFor(TodoClose, uid)
    ensures uid == 10002 ==>
      !AuthorizedFor(OpsPublishBound, uid) && !AuthorizedFor(OpsPublish, uid) && !AuthorizedFor(OpsExecute, uid)
  {
  }

  /** A session that only observes submits no resolution, performs no operation, asks for no mutation that could be
      granted, and registers no writer that asks for write access outright. */
  lemma ObserversObserve(op: Operation, args: seq<string>, e: Mandate)
    requires (e.scope == "observe" || e.scope == "diagnosis-only") && AllowedForExecution(op, args, e)
    ensures !op.ResolutionCreate? && !op.OpsPublishBound? && !op.OpsPublish? && !op.OpsExecute?
    ensures op.SupervisorRegisterLaunch? ==>
      forall i :: 0 < i < |args| && args[i - 1] == "--access" ==> args[i] != "workspace-write"
    ensures op.AssignmentCreate? ==> forall i :: 0 < i < |args| && args[i - 1] == "--role" ==> args[i] != "exploitation"
    ensures !PermitsMutationRequest(e)
  {
  }

  // ---------- Arguments of a mutation request ----------

  datatype Mutation = Mutation(paths: seq<string>, reviewedOps: bool)

  // The remaining arguments, after the paths and flag already read.
  function Options(args: seq<string>, paths: seq<string>, reviewedOps: bool): Option<Mutation> {
    if args == [] then Some(Mutation(paths, reviewedOps))
    else if args[0] == "--path" && |args| > 1 && args[1] != "" then Options(args[2..], paths + [args[1]], reviewedOps)
    else if args[0] == "--reviewed-ops" && !reviewedOps then Options(args[1..], paths, true)
    else None
  }

  function MutationOptions(args: seq<string>): Option<Mutation> {
    if |args| < 2 || args[0] != "request-mutation" then None
    else match Options(args[1..], [], false)
      case None => None
      case Some(m) => if m.paths == [] && !m.reviewedOps then None else Some(m)
  }

  /** The router's check and the handler's parser accept exactly the same command lines. */
  method ValidMutationRequestArgs(args: seq<string>) returns (ok: bool)
    ensures ok <==> MutationOptions(args).Some?
  {
    if |args| < 2 || args[0] != "request-mutation" {
      return false;
    }
    var hasPath, reviewedOps := false, false;
    ghost var paths: seq<string> := [];
    var index := 1;
    while index < |args|
      invariant 1 <= index <= |args| && hasPath == (paths != [])
      invariant Options(args[1..], [], false) == Options(args[index..], paths, reviewedOps)
    {
      if args[index] == "--path" && index + 1 < |args| && args[index + 1] != "" {
        assert args[index..][2..] == args[index + 2..];
        hasPath, paths := true, paths + [args[index + 1]];
        index := index + 2;
      } else if args[index] == "--reviewed-ops" && !reviewedOps {
        assert args[index..][1..] == args[index + 1..];
        reviewedOps := true;
        index := index + 1;
      } else {
        return false;
      }
    }
    return hasPath || reviewedOps;
  }

  method MutationRequestOptions(args: seq<string>) returns (result: Option<Mutation>)
    ensures result == MutationOptions(args)
  {
    if |args| < 2 || args[0] != "request-mutation" {
      return None;
    }
    var paths, reviewedOps := [], false;
    var index := 1;
    while index < |args|
      invariant 1 <= index <= |args|
      invariant Options(args[1..], [], false) == Options(args[index..], paths, reviewedOps)
    {
      if args[index] == "--path" && index + 1 < |args| && args[index + 1] != "" {
        assert args[index..][2..] == args[index + 2..];
        paths := paths + [args[index + 1]];
        index := index + 2;
      } else if args[index] == "--reviewed-ops" && !reviewedOps {
        assert args[index..][1..] == args[index + 1..];
        reviewedOps := true;
        index := index + 1;
      } else {
        return None;
      }
    }
    return if paths == [] && !reviewedOps then None else Some(Mutation(paths, reviewedOps));
  }

  // The grammar: flags in any order, each path non-empty, reviewed-ops at most once.
  datatype Flag = Path(value: string) | ReviewedOps

  function Render(flags: seq<Flag>): seq<string> {
    if flags == [] then []
    else (match flags[0] case Path(p) => ["--path", p] case ReviewedOps => ["--reviewed-ops"]) + Render(flags[1..])
  }

  function PathsOf(flags: seq<Flag>): seq<string> {
    if flags == [] then []
    else (match flags[0] case Path(p) => [p] case ReviewedOps => []) + PathsOf(flags[1..])
  }

  ghost predicate LegalFlags(flags: seq<Flag>, reviewedOps: bool)
    decreases flags
  {
    flags == [] ||
    match flags[0]
    case Path(p) => p != "" && LegalFlags(flags[1..], reviewedOps)
    case ReviewedOps => !reviewedOps && LegalFlags(flags[1..], true)
  }

  lemma {:induction false} OptionsComplete(flags: seq<Flag>, paths: seq<string>, reviewedOps: bool)
    requires LegalFlags(flags, reviewedOps)
    ensures Options(Render(flags), paths, reviewedOps) ==
      Some(Mutation(paths + PathsOf(flags), reviewedOps || ReviewedOps in flags))
    decreases flags
  {
    if flags == [] {
      assert paths + PathsOf(flags) == paths;
    } else {
      var args, rest := Render(flags), Render(flags[1..]);
      match flags[0]
      case Path(p) =>
        OptionsComplete(flags[1..], paths + [p], reviewedOps);
        assert args[2..] == rest;
        assert paths + [p] + PathsOf(flags[1..]) == paths + PathsOf(flags);
        assert ReviewedOps in flags <==> ReviewedOps in flags[1..];
      case ReviewedOps =>
        OptionsComplete(flags[1..], paths, true);
        assert args[1..] == rest && args[0] != "--path";
        assert PathsOf(flags) == PathsOf(flags[1..]);
    }
  }

  lemma {:induction false} OptionsSound(args: seq<string>, paths: seq<string>, reviewedOps: bool)
      returns (flags: seq<Flag>)
    requires Options(args, paths, reviewedOps).Some?
    ensures Render(flags) == args && LegalFlags(flags, reviewedOps)
    decreases args
  {
    if args == [] {
      flags := [];
    } else if args[0] == "--path" && |args| > 1 && args[1] != "" {
      var rest := OptionsSound(args[2..], paths + [args[1]], reviewedOps);
      flags := [Path(args[1])] + rest;
      assert flags[1..] == rest && args == [args[0], args[1]] + args[2..];
    } else {
      var rest := OptionsSound(args[1..], paths, true);
      flags := [ReviewedOps] + rest;
      assert flags[1..] == rest && args == [args[0]] + args[1..];
    }
  }

  lemma GrammarAccepted(flags: seq<Flag>, args: seq<string>)
    requires flags != [] && LegalFlags(flags, false) && args == ["request-mutation"] + Render(flags)
    ensures MutationOptions(args) == Some(Mutation(PathsOf(flags), ReviewedOps in flags))
  {
    OptionsComplete(flags, [], false);
    assert args[1..] == Render(flags);
    assert [] + PathsOf(flags) == PathsOf(flags);
    assert flags[0].Path? ==> PathsOf(flags) != [];
    assert flags[0] in flags;
  }

  /** Accepted command lines are exactly those of the grammar, and give back its paths and flag. */
  lemma MutationGrammar(args: seq<string>)
    ensures MutationOptions(args).Some? <==>
      exists flags :: flags != [] && LegalFlags(flags, false) && args == ["request-mutation"] + Render(flags)
    ensures forall flags :: flags != [] && LegalFlags(flags, false) && args == ["request-mutation"] + Render(flags) ==>
      MutationOptions(args) == Some(Mutation(PathsOf(flags), ReviewedOps in flags))
  {
    forall flags | flags != [] && LegalFlags(flags, false) && args == ["request-mutation"] + Render(flags)
      ensures MutationOptions(args) == Some(Mutation(PathsOf(flags), ReviewedOps in flags))
    {
      GrammarAccepted(flags, args);
    }
    if MutationOptions(args).Some? {
      var flags := OptionsSound(args[1..], [], false);
      assert args == ["request-mutation"] + Render(flags);
    }
  }
}
