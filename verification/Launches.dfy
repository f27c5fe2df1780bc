/** Launch authorizations: registered, running, completed, and registered again. */
module Launches {
  import opened Wrappers
  import Json
  import opened Tables
  import opened LaunchText
  import opened Execution

  // What a workflow's lifecycle file vouches for before implementation: the digest of the sealed plan, and the
  // text of the registered task unless none is.
  datatype Sealed = Sealed(plan: string, task: Option<string>)

  // The task and plan a reviewer is bound to, as the workflow module identifies them.
  datatype Binding = Binding(content: string, sha: string, planSha: string, taskSha: string)

  // What the supervisor process is configured with, and the library functions it uses.
  datatype Host = Host(
    workflowId: string,
    binary: string -> Option<string>,
    note: Binding -> string,
    sha: string -> string)

  // Digests are non-empty single lines.
  ghost predicate Digests(h: Host) {
    forall b :: h.sha(b) != "" && LineSafe(h.sha(b))
  }

  // One authorization on disk, with the paths a writer was admitted for.
  datatype Folder = Folder(env: string, instruction: string, owned: seq<OwnedPath>)

  function Get(m: map<string, string>, key: string): string {
    if key in m then m[key] else ""
  }

  function LaunchOf(m: map<string, string>): Launch {
    Launch(Get(m, "name"), Get(m, "role"), Get(m, "access"), Get(m, "workflow_id"), Get(m, "cli"), Get(m, "cli_bin"),
      Get(m, "instruction_sha256"), Get(m, "iteration_plan_sha256"), Get(m, "original_task_sha256"),
      Get(m, "alignment_binding_sha256"), Get(m, "state"))
  }

  // The authorization a folder's key=value file says.
  function View(f: Folder): Launch {
    LaunchOf(ParseEnv(f.env))
  }

  // ---------- Registering and renewing ----------

  // The request, what the name's assignment says (whether it is active and readable, and its paths), and what
  // the lifecycle file of the workflow says, if it can be read and its artifacts are unchanged.
  datatype Registration = Registration(
    name: string, role: string, access: Option<string>, cli: string, cliBin: string, plan: Option<string>,
    instruction: string, active: bool, owned: seq<OwnedPath>, sealed: Option<Sealed>, renew: bool)

  predicate ValidName(s: string) {
    ValidId(s) && s[0] != '-' && s != "orchestrator"
  }

  predicate Contains(s: string, part: string) {
    part <= s || (s != "" && Contains(s[1..], part))
  }

  function LaunchAccess(role: string, requested: Option<string>): Option<string> {
    var access := match requested
      case Some(a) => a
      case None => if role == "worker" then "workspace-write" else "read-only";
    if access != "read-only" && access != "workspace-write" then None
    else if access == "workspace-write" && role != "worker" then None
    else Some(access)
  }

  const ROLES: set<string> := {"worker", "reader", "verifier", "reviewer", "scout", "ops"}
  const BACKENDS: set<string> := {"codex", "claude", "qwen"}

  predicate PlanAlignment(q: Registration) {
    q.role == "reviewer" && Contains(q.name, "plan-alignment-reviewer")
  }

  predicate Writes(q: Registration) {
    LaunchAccess(q.role, q.access) == Some("workspace-write")
  }

  // The checks on the request itself, under the session's authority.
  predicate WellFormed(h: Host, e: Mandate, q: Registration) {
    && ValidName(q.name)
    && q.role in ROLES && q.cli in BACKENDS && q.cliBin != "" && OneLine(q.cliBin)
    && (q.plan.Some? ==> OneLine(q.plan.value))
    && h.binary(q.cli) == Some(q.cliBin)
    && LaunchAccess(q.role, q.access).Some?
    && (Writes(q) ==> q.active && PermitsWorkspaceWrite(e, q.owned))
  }

  function PlanOf(dirs: map<string, Folder>, q: Registration): string {
    match q.plan
    case Some(plan) => plan
    case None => if q.renew && q.name in dirs then View(dirs[q.name]).planSha else ""
  }

  predicate HexDigest(s: string) {
    |s| == 64 && forall i :: 0 <= i < |s| ==> '0' <= s[i] <= '9' || 'a' <= s[i] <= 'f' || 'A' <= s[i] <= 'F'
  }

  function BindingValue(workflowId: string, planSha: string, taskSha: string): Json.Value {
    Json.Object([
      Json.Field("apiVersion", Json.String("multiagent.moveindustries.io/v1")),
      Json.Field("iterationPlanSha256", Json.String(planSha)),
      Json.Field("kind", Json.String("PlanAlignmentBinding")),
      Json.Field("originalTaskSha256", Json.String(taskSha)),
      Json.Field("workflowId", Json.String(workflowId))])
  }

  function BindingText(workflowId: string, planSha: string, taskSha: string): string {
    Json.Encode(BindingValue(workflowId, planSha, taskSha)) + "\n"
  }

  function TaskDigest(h: Host, task: Option<string>): string {
    match task case None => "" case Some(text) => h.sha(text)
  }

  // The binding of a workflow to the plan asked for, refused unless the id is valid and that plan is sealed.
  function PlanBinding(h: Host, sealed: Option<Sealed>, plan: string): Option<Binding> {
    if !ValidId(h.workflowId) || sealed.None? then None
    else if !HexDigest(sealed.value.plan) || sealed.value.plan != plan then None
    else
      var task := TaskDigest(h, sealed.value.task);
      var content := BindingText(h.workflowId, plan, task);
      Some(Binding(content, h.sha(content), plan, task))
  }

  // The sealed binding a registration carries: none for ordinary launches.
  function BindingOf(h: Host, dirs: map<string, Folder>, q: Registration): Option<Option<Binding>> {
    if !PlanAlignment(q) then (if q.plan.Some? then None else Some(None))
    else if h.workflowId == "" || PlanOf(dirs, q) == "" then None
    else match PlanBinding(h, q.sealed, PlanOf(dirs, q))
      case None => None
      case Some(b) => Some(Some(b))
  }

  function ShaOf(b: Option<Binding>): string { match b case None => "" case Some(x) => x.sha }
  function TaskOf(b: Option<Binding>): string { match b case None => "" case Some(x) => x.taskSha }

  predicate SameIdentity(l: Launch, m: Launch) {
    l.role == m.role && l.access == m.access && l.cli == m.cli && l.cliBin == m.cliBin
  }

  function NewLaunch(h: Host, dirs: map<string, Folder>, q: Registration, b: Option<Binding>, instruction: string)
    : Launch
    requires LaunchAccess(q.role, q.access).Some?
  {
    Launch(q.name, q.role, LaunchAccess(q.role, q.access).value, h.workflowId, q.cli, q.cliBin, h.sha(instruction),
      PlanOf(dirs, q), TaskOf(b), ShaOf(b), "registered")
  }

  function Instruction(h: Host, q: Registration, b: Option<Binding>): string {
    q.instruction + match b case None => "" case Some(x) => h.note(x)
  }

  // The owned-paths file is written only when there are paths to write.
  function OwnedAfter(dirs: map<string, Folder>, q: Registration): seq<OwnedPath> {
    if Writes(q) && q.owned != [] then q.owned else if q.name in dirs then dirs[q.name].owned else []
  }

  predicate Renewable(current: Launch, next: Launch, planAlignment: bool) {
    && current.state == "completed"
    && SameIdentity(current, next)
    && (planAlignment ==> current.bindingSha == next.bindingSha)
  }

  // The directory afterwards, if the registration is accepted.
  function AfterRegister(h: Host, e: Mandate, dirs: map<string, Folder>, q: Registration): Option<map<string, Folder>> {
    if !WellFormed(h, e, q) then None
    else match BindingOf(h, dirs, q)
      case None => None
      case Some(b) =>
        var instruction := Instruction(h, q, b);
        var l := NewLaunch(h, dirs, q, b, instruction);
        if (q.name in dirs) != q.renew then None
        else if q.renew && !Renewable(View(dirs[q.name]), l, PlanAlignment(q)) then None
        else Some(dirs[q.name := Folder(EnvText(RegisterPairs(l)), instruction, OwnedAfter(dirs, q))])
  }

  // ---------- Claiming and finishing ----------

  predicate Complete(l: Launch) {
    l.name != "" && l.role != "" && l.access != "" && l.cli != "" && l.cliBin != "" && l.instructionSha != ""
  }

  function AfterClaim(h: Host, dirs: map<string, Folder>, name: string, ownedReadable: bool)
    : Option<map<string, Folder>>
  {
    if name !in dirs then None
    else
      var l := View(dirs[name]);
      if l.name != name || l.state != "registered" || l.instructionSha != h.sha(dirs[name].instruction)
        || !ownedReadable || !Complete(l) then None
      else Some(dirs[name := dirs[name].(env := EnvText(StatePairs(l.(state := "running"))))])
  }

  function AfterFinish(dirs: map<string, Folder>, name: string): Option<map<string, Folder>> {
    if name !in dirs then None
    else
      var l := View(dirs[name]);
      if l.state != "running" || !Complete(l) then None
      else Some(dirs[name := dirs[name].(env := EnvText(StatePairs(l.(state := "completed"))))])
  }

  // ---------- What is on disk ----------

  // A known role on a known backend; only workers write.
  predicate Sanctioned(l: Launch) {
    && l.role in ROLES && l.cli in BACKENDS
    && (l.access == "read-only" || (l.access == "workspace-write" && l.role == "worker"))
  }

  lemma ViewOf(f: Folder, l: Launch)
    requires Represents(ParseEnv(f.env), l)
    ensures View(f) == l
  {
  }

  lemma StatesSafe()
    ensures LineSafe("registered") && LineSafe("running") && LineSafe("completed") && LineSafe("")
  {
  }

  lemma RoleSafe(role: string)
    requires role in ROLES
    ensures role != "" && LineSafe(role)
  {
  }

  lemma BackendSafe(cli: string)
    requires cli in BACKENDS
    ensures cli != "" && LineSafe(cli)
  {
  }

  lemma AccessSafe(role: string, requested: Option<string>)
    requires LaunchAccess(role, requested).Some?
    ensures LaunchAccess(role, requested).value != "" && LineSafe(LaunchAccess(role, requested).value)
  {
    assert LineSafe("read-only") && LineSafe("workspace-write");
  }

  lemma NewLaunchSafe(h: Host, e: Mandate, dirs: map<string, Folder>, q: Registration, b: Option<Binding>,
                      instruction: string)
    requires Digests(h) && WellFormed(h, e, q) && BindingOf(h, dirs, q) == Some(b)
    requires q.renew && q.name in dirs ==> LineSafe(View(dirs[q.name]).planSha)
    ensures var l := NewLaunch(h, dirs, q, b, instruction); Complete(l) && Sanctioned(l) && SingleLines(l)
  {
    StatesSafe();
    RoleSafe(q.role);
    BackendSafe(q.cli);
    AccessSafe(q.role, q.access);
    assert LineSafe(q.name);
    assert h.sha(instruction) != "" && LineSafe(h.sha(instruction));
    assert LineSafe(PlanOf(dirs, q));
  }

  // What a registration writes, and what it reads back as.
  lemma Registered(h: Host, e: Mandate, dirs: map<string, Folder>, q: Registration)
    requires Digests(h) && AfterRegister(h, e, dirs, q).Some?
    requires q.name in dirs ==> LineSafe(View(dirs[q.name]).planSha)
    ensures var b := BindingOf(h, dirs, q).value;
      var l := NewLaunch(h, dirs, q, b, Instruction(h, q, b));
      && View(AfterRegister(h, e, dirs, q).value[q.name]) == ReadBack(l)
      && Complete(l) && Sanctioned(l) && SingleLines(l)
  {
    var b := BindingOf(h, dirs, q).value;
    var l := NewLaunch(h, dirs, q, b, Instruction(h, q, b));
    NewLaunchSafe(h, e, dirs, q, b, Instruction(h, q, b));
    RegisterReads(l, RegisterPairs(l));
    ViewOf(AfterRegister(h, e, dirs, q).value[q.name], ReadBack(l));
  }

  predicate Agrees(m: map<string, string>, key: string, value: string) {
    key in m ==> m[key] == value
  }

  /** An accepted registration asks for read-only access, or for a worker to write, which is a worker's default.
      It reads back with the name, role and access asked for exactly when the lines of the workflow id do not say
      otherwise. */
  lemma RegisteredAsAsked(h: Host, e: Mandate, dirs: map<string, Folder>, q: Registration)
    requires Digests(h) && AfterRegister(h, e, dirs, q).Some?
    requires q.name in dirs ==> LineSafe(View(dirs[q.name]).planSha)
    ensures var l, m := View(AfterRegister(h, e, dirs, q).value[q.name]), WorkflowLines(h.workflowId);
      var access := match q.access
        case Some(a) => a
        case None => if q.role == "worker" then "workspace-write" else "read-only";
      && (access == "read-only" || (access == "workspace-write" && q.role == "worker"))
      && ((l.name == q.name && l.role == q.role && l.access == access) <==>
          (Agrees(m, "name", q.name) && Agrees(m, "role", q.role) && Agrees(m, "access", access)))
  {
    Registered(h, e, dirs, q);
  }

  // ---------- A workflow id that says more ----------

  const FORGED: Host := Host("w" + "\n" + EnvLine(Pair("access", "workspace-write")),
    cli => Some("b"), b => "", text => "0")
  const READER: Registration := Registration("r", "reader", None, "codex", "b", None, "", false, [], None, false)

  /** With a line break in the workflow id a reader's registration is accepted and reads back with write
      access. */
  lemma ForgedAccess(e: Mandate)
    ensures LaunchAccess(READER.role, READER.access) == Some("read-only")
    ensures AfterRegister(FORGED, e, map[], READER).Some?
    ensures View(AfterRegister(FORGED, e, map[], READER).value["r"]).access == "workspace-write"
  {
    assert ValidName("r") && OneLine("b");
    assert LineSafe("0");
    assert LineSafe("workspace-write");
    ShortKeys();
    AddedLine("w", Pair("access", "workspace-write"));
    Registered(FORGED, e, map[], READER);
  }
}
