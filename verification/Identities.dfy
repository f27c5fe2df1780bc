/** Whom an authorization is for and what it is bound to: what every run keeps. */
module Identities {
  import opened Wrappers
  import opened Tables
  import opened LaunchText
  import opened Execution
  import opened Launches
  import opened Lifecycles

  // ---------- What is on disk, for every workflow id ----------

  // Without its last carriage return, so many times.
  function Chops(s: string, k: nat): string {
    if k == 0 then s else DropReturn(Chops(s, k - 1))
  }

  lemma {:induction false} ChopsSafe(s: string, k: nat)
    requires LineSafe(s)
    ensures Chops(s, k) == s
  {
    if k > 0 { ChopsSafe(s, k - 1); }
  }

  // How often the file has been rewritten since it was registered.
  function Stage(state: string): nat {
    if state == "registered" then 0 else if state == "running" then 1 else 2
  }

  predicate IsState(state: string) {
    state == "registered" || state == "running" || state == "completed"
  }

  // A value the workflow id's lines set, as the rewrites leave it.
  predicate Traced(m: map<string, string>, key: string, value: string, k: nat) {
    key in m ==> value == Chops(m[key], k)
  }

  // A required value was not empty at any of the rewrites.
  predicate Survived(m: map<string, string>, key: string, k: nat) {
    key in m ==> (k > 0 ==> m[key] != "") && (k > 1 ==> DropReturn(m[key]) != "")
  }

  // Role and access are what was asked for unless a line says otherwise.
  predicate AskedFor(m: map<string, string>, l: Launch) {
    && ("role" !in m ==> l.role in ROLES)
    && ("access" !in m ==> l.access == "read-only" || l.access == "workspace-write")
    && ("role" !in m && "access" !in m && l.access == "workspace-write" ==> l.role == "worker")
  }

  const ALIGNMENT: string := "plan-alignment-reviewer"

  // The text of a SHA-256 digest.
  predicate Digits64(s: string) {
    |s| == 64 && forall i :: 0 <= i < |s| ==> s[i] in "0123456789abcdefABCDEF"
  }

  // Only a plan-alignment reviewer of a workflow with a valid id is bound, to the plan and task on record.
  predicate BoundFor(h: Host, name: string, l: Launch) {
    l.bindingSha != "" ==>
      && ValidId(h.workflowId) && Contains(name, ALIGNMENT) && l.role == "reviewer" && Digits64(l.planSha)
      && l.bindingSha == h.sha(BindingText(h.workflowId, l.planSha, l.taskSha))
  }

  ghost predicate Proper(h: Host, name: string, f: Folder) {
    var l, m := View(f), WorkflowLines(h.workflowId);
    && ValidName(name) && IsState(l.state) && Rewritable(l)
    && l.cli in BACKENDS && l.cliBin != "" && h.binary(l.cli) == Some(l.cliBin)
    && l.instructionSha == h.sha(f.instruction) && l.instructionSha != ""
    && l.name == Overridden(m, "name", name)
    && (l.state != "registered" ==> l.name == name)
    && Survived(m, "role", Stage(l.state)) && Survived(m, "access", Stage(l.state))
    && Traced(m, "role", l.role, Stage(l.state)) && Traced(m, "access", l.access, Stage(l.state))
    && AskedFor(m, l) && BoundFor(h, name, l)
  }

  ghost predicate Regular(h: Host, s: Registry) {
    forall name :: name in s.dirs ==> Proper(h, name, s.dirs[name])
  }

  lemma ReadBackRewritable(l: Launch)
    requires SingleLines(l)
    ensures Rewritable(ReadBack(l))
  {
    var text := EnvLine(Pair("workflow_id", l.workflowId)) + "\n";
    var m := WorkflowLines(l.workflowId);
    WorkflowIdKept(l.workflowId);
    ParsedNewlineFree(text, "workflow_id");
    if "name" in m { ParsedNewlineFree(text, "name"); }
    if "role" in m { ParsedNewlineFree(text, "role"); }
    if "access" in m { ParsedNewlineFree(text, "access"); }
  }

  // The plan and the task on record are those the workflow's lifecycle file vouches for.
  predicate BoundTo(h: Host, sealed: Option<Sealed>, l: Launch) {
    sealed.Some? && l.planSha == sealed.value.plan && l.taskSha == TaskDigest(h, sealed.value.task)
  }

  // The authorization afterwards, and the one a renewal replaces.
  ghost predicate Renewed(h: Host, dirs: map<string, Folder>, q: Registration, l: Launch) {
    var m, access := WorkflowLines(h.workflowId), LaunchAccess(q.role, q.access);
    && access.Some?
    && l.state == "registered" && l.cli == q.cli && l.cliBin == q.cliBin
    && l.role == Overridden(m, "role", q.role) && l.access == Overridden(m, "access", access.value)
    && q.role in ROLES
    && (!PlanAlignment(q) ==> l.bindingSha == "")
    && (PlanAlignment(q) ==> l.bindingSha != "" && BoundTo(h, q.sealed, l))
    && (q.name in dirs ==>
          var before := View(dirs[q.name]);
          && before.state == "completed" && before.role == q.role && before.access == access.value
          && before.cli == q.cli && before.cliBin == q.cliBin
          && (PlanAlignment(q) ==> before.bindingSha == l.bindingSha))
  }

  // A valid id makes one line.
  lemma ValidIdLine(workflowId: string)
    requires ValidId(workflowId)
    ensures "role" !in WorkflowLines(workflowId) && "access" !in WorkflowLines(workflowId)
  {
    PlainWorkflowId(workflowId);
  }

  lemma HexIsDigits(s: string)
    requires HexDigest(s)
    ensures Digits64(s)
  {
    var digits := "0123456789abcdefABCDEF";
    forall i | 0 <= i < |s| ensures s[i] in digits {
      var k := if s[i] <= '9' then s[i] as int - '0' as int
        else if s[i] >= 'a' then s[i] as int - 'a' as int + 10 else s[i] as int - 'A' as int + 16;
      assert digits[k] == s[i];
    }
  }

  /** What an accepted registration leaves on disk, and what a renewal was compared with. */
  lemma RegisterStep(h: Host, e: Mandate, dirs: map<string, Folder>, q: Registration)
    requires Digests(h) && AfterRegister(h, e, dirs, q).Some? && (q.name in dirs ==> Proper(h, q.name, dirs[q.name]))
    ensures var dirs', m := AfterRegister(h, e, dirs, q).value, WorkflowLines(h.workflowId);
      && dirs' == dirs[q.name := dirs'[q.name]]
      && Proper(h, q.name, dirs'[q.name])
      && Renewed(h, dirs, q, View(dirs'[q.name]))
  {
    var b := BindingOf(h, dirs, q).value;
    var l := NewLaunch(h, dirs, q, b, Instruction(h, q, b));
    Registered(h, e, dirs, q);
    ReadBackRewritable(l);
    if b.Some? {
      ValidIdLine(h.workflowId);
      HexIsDigits(b.value.planSha);
    }
  }

  lemma NameSafe(name: string)
    requires ValidName(name)
    ensures name != "" && DropReturn(name) == name
  {
  }

  lemma AskedSafe(m: map<string, string>, l: Launch)
    requires AskedFor(m, l)
    ensures "role" !in m ==> l.role != "" && DropReturn(l.role) == l.role
    ensures "access" !in m ==> l.access != "" && DropReturn(l.access) == l.access
  {
    if "role" !in m { RoleSafe(l.role); }
    assert LineSafe("read-only") && LineSafe("workspace-write");
  }

  // One more rewrite of a value that is not empty.
  lemma TracedOn(m: map<string, string>, key: string, value: string, k: nat)
    requires Traced(m, key, value, k) && Survived(m, key, k) && value != "" && k < 2
    ensures Traced(m, key, DropReturn(value), k + 1) && Survived(m, key, k + 1)
  {
    if key in m { assert Chops(m[key], 0) == m[key] && Chops(m[key], 1) == DropReturn(m[key]); }
  }

  lemma RewrittenRewritable(l: Launch)
    requires Rewritable(l)
    ensures Rewritable(Rewritten(l))
  {
  }

  /** A claim or a finish changes the state, and drops one carriage return at the end of a role or access that
      a line of the workflow id set. */
  lemma StateStep(h: Host, name: string, f: Folder, state: string)
    requires Proper(h, name, f) && View(f).name == name && Complete(View(f))
    requires (View(f).state, state) in {("registered", "running"), ("running", "completed")}
    ensures var f' := f.(env := EnvText(StatePairs(View(f).(state := state))));
      && Proper(h, name, f')
      && View(f') == View(f).(state := state, role := DropReturn(View(f).role), access := DropReturn(View(f).access),
                              workflowId := DropReturn(View(f).workflowId))
  {
    var l := View(f).(state := state);
    var f' := f.(env := EnvText(StatePairs(l)));
    StatesSafe();
    StateReads(l, StatePairs(l));
    ViewOf(f', Rewritten(l));
    NameSafe(name);
    var m, k := WorkflowLines(h.workflowId), Stage(View(f).state);
    AskedSafe(m, View(f));
    TracedOn(m, "role", l.role, k);
    TracedOn(m, "access", l.access, k);
    RewrittenRewritable(l);
  }

  lemma StepProper(h: Host, s: Registry, op: Op, name: string)
    requires Digests(h) && name in Step(h, s, op).dirs && (name in s.dirs ==> Proper(h, name, s.dirs[name]))
    ensures Proper(h, name, Step(h, s, op).dirs[name])
  {
    if name != Subject(op) {
      StepOthers(h, s, op, name);
    } else {
      match op
      case Enrol(q, e) => if AfterRegister(h, e, s.dirs, q).Some? { RegisterStep(h, e, s.dirs, q); }
      case Start(_, readable) =>
        if AfterClaim(h, s.dirs, name, readable).Some? { StateStep(h, name, s.dirs[name], "running"); }
      case End(_) =>
        if AfterFinish(s.dirs, name).Some? { StateStep(h, name, s.dirs[name], "completed"); }
    }
  }

  lemma StepRegular(h: Host, s: Registry, op: Op)
    requires Digests(h) && Regular(h, s)
    ensures Regular(h, Step(h, s, op))
  {
    forall name | name in Step(h, s, op).dirs ensures Proper(h, name, Step(h, s, op).dirs[name]) {
      StepProper(h, s, op, name);
    }
  }

  lemma {:induction false} RunRegular(h: Host, s: Registry, ops: seq<Op>)
    requires Digests(h) && Regular(h, s)
    ensures Regular(h, Run(h, s, ops))
    decreases ops
  {
    if ops != [] {
      StepRegular(h, s, ops[0]);
      RunRegular(h, Step(h, s, ops[0]), ops[1..]);
    }
  }

  /** Where no line of the workflow id sets role or access, only workers ever hold write access. */
  lemma OnlyWorkersWrite(h: Host, name: string, f: Folder)
    requires Proper(h, name, f) && "role" !in WorkflowLines(h.workflowId) && "access" !in WorkflowLines(h.workflowId)
    ensures Sanctioned(View(f))
  {
  }

  // Two texts that the hash does not tell apart.
  predicate Collides(h: Host, x: string, y: string) {
    x != y && h.sha(x) == h.sha(y)
  }

  /** Whatever the instruction file holds when a registration is claimed, the claim succeeds only if it is the
      instruction that was registered, or two texts with one digest are in hand. */
  lemma InstructionGuarded(h: Host, e: Mandate, dirs: map<string, Folder>, q: Registration, text: string,
                           readable: bool)
    requires Digests(h) && AfterRegister(h, e, dirs, q).Some? && (q.name in dirs ==> Proper(h, q.name, dirs[q.name]))
    ensures var dirs' := AfterRegister(h, e, dirs, q).value;
      var replaced := dirs'[q.name := dirs'[q.name].(instruction := text)];
      AfterClaim(h, replaced, q.name, readable).Some? ==>
        text == dirs'[q.name].instruction || Collides(h, text, dirs'[q.name].instruction)
  {
    RegisterStep(h, e, dirs, q);
  }

  // ---------- The binding, for every workflow id ----------

  predicate SameBinding(s: Registry, t: Registry, name: string) {
    name in s.dirs ==> name in t.dirs && View(s.dirs[name]).bindingSha == View(t.dirs[name]).bindingSha
  }

  ghost predicate Bindings(s: Registry, t: Registry) {
    forall name :: SameBinding(s, t, name)
  }

  // A renewal under the role on record is one for a plan-alignment reviewer if the authorization is bound.
  lemma RenewedBinding(h: Host, e: Mandate, dirs: map<string, Folder>, q: Registration)
    requires Digests(h) && AfterRegister(h, e, dirs, q).Some? && q.name in dirs && Proper(h, q.name, dirs[q.name])
    ensures View(AfterRegister(h, e, dirs, q).value[q.name]).bindingSha == View(dirs[q.name]).bindingSha
  {
    RegisterStep(h, e, dirs, q);
  }

  lemma StepBinding(h: Host, s: Registry, op: Op, name: string)
    requires Digests(h) && (name in s.dirs ==> Proper(h, name, s.dirs[name]))
    ensures SameBinding(s, Step(h, s, op), name)
  {
    if name != Subject(op) {
      StepOthers(h, s, op, name);
    } else if name in s.dirs {
      match op
      case Enrol(q, e) => if AfterRegister(h, e, s.dirs, q).Some? { RenewedBinding(h, e, s.dirs, q); }
      case Start(_, readable) =>
        if AfterClaim(h, s.dirs, name, readable).Some? { StateStep(h, name, s.dirs[name], "running"); }
      case End(_) =>
        if AfterFinish(s.dirs, name).Some? { StateStep(h, name, s.dirs[name], "completed"); }
    }
  }

  lemma StepBindings(h: Host, s: Registry, op: Op)
    requires Digests(h) && Regular(h, s)
    ensures Bindings(s, Step(h, s, op))
  {
    forall name ensures SameBinding(s, Step(h, s, op), name) { StepBinding(h, s, op, name); }
  }

  lemma BindingsTransitive(s: Registry, t: Registry, u: Registry)
    requires Bindings(s, t) && Bindings(t, u)
    ensures Bindings(s, u)
  {
    forall name ensures SameBinding(s, u, name) { assert SameBinding(s, t, name) && SameBinding(t, u, name); }
  }

  /** Whatever the workflow id is, in every run the plan-alignment binding of every authorization stays what it
      was, even while the workflow seals other plans. */
  lemma {:induction false} BindingKept(h: Host, s: Registry, ops: seq<Op>)
    requires Digests(h) && Regular(h, s)
    ensures Bindings(s, Run(h, s, ops))
    decreases ops
  {
    if ops != [] {
      var s' := Step(h, s, ops[0]);
      StepRegular(h, s, ops[0]);
      StepBindings(h, s, ops[0]);
      BindingKept(h, s', ops[1..]);
      BindingsTransitive(s, s', Run(h, s, ops));
    }
  }

  lemma BindingTextInjective(w: string, p: string, d: string, w': string, p': string, d': string)
    requires BindingText(w, p, d) == BindingText(w', p', d')
    ensures w == w' && p == p' && d == d'
  {
    var v, v' := BindingValue(w, p, d), BindingValue(w', p', d');
    assert Json.Encode(v) == BindingText(w, p, d)[..|BindingText(w, p, d)| - 1];
    assert Json.Encode(v') == BindingText(w', p', d')[..|BindingText(w', p', d')| - 1];
    Json.EncodeInjective(v, v');
    assert v.fields[1] == v'.fields[1] && v.fields[3] == v'.fields[3] && v.fields[4] == v'.fields[4];
  }

  /** Equal bindings are bindings to one plan and one task text, or two texts with one digest are in hand. */
  lemma BindingDecides(h: Host, x: Option<Sealed>, y: Option<Sealed>, plan: string, plan': string)
    requires Digests(h) && PlanBinding(h, x, plan).Some? && PlanBinding(h, y, plan').Some?
    requires PlanBinding(h, x, plan).value.sha == PlanBinding(h, y, plan').value.sha
    ensures
      || (plan == plan' && x.value.task == y.value.task)
      || Collides(h, PlanBinding(h, x, plan).value.content, PlanBinding(h, y, plan').value.content)
      || (x.value.task.Some? && y.value.task.Some? && Collides(h, x.value.task.value, y.value.task.value))
  {
    var b, b' := PlanBinding(h, x, plan).value, PlanBinding(h, y, plan').value;
    if b.content == b'.content {
      BindingTextInjective(h.workflowId, b.planSha, b.taskSha, h.workflowId, b'.planSha, b'.taskSha);
    }
  }

  // The text an authorization's binding is the digest of.
  function BoundText(h: Host, l: Launch): string {
    BindingText(h.workflowId, l.planSha, l.taskSha)
  }

  predicate SameReview(h: Host, s: Registry, t: Registry, name: string) {
    name in s.dirs && View(s.dirs[name]).bindingSha != "" ==>
      && name in t.dirs
      && var l, l' := View(s.dirs[name]), View(t.dirs[name]);
         (l.planSha == l'.planSha && l.taskSha == l'.taskSha) || Collides(h, BoundText(h, l), BoundText(h, l'))
  }

  lemma BoundReview(h: Host, s: Registry, t: Registry, name: string)
    requires Regular(h, s) && Regular(h, t) && SameBinding(s, t, name)
    ensures SameReview(h, s, t, name)
  {
    if name in s.dirs && View(s.dirs[name]).bindingSha != "" {
      assert Proper(h, name, s.dirs[name]) && Proper(h, name, t.dirs[name]);
      var l, l' := View(s.dirs[name]), View(t.dirs[name]);
      if BoundText(h, l) == BoundText(h, l') {
        BindingTextInjective(h.workflowId, l.planSha, l.taskSha, h.workflowId, l'.planSha, l'.taskSha);
      }
    }
  }

  /** From the empty directory, on every host: only plan-alignment reviewers under a valid id are bound; no binding
      ever changes, so neither does the plan or the task, or two texts with one digest are in hand. */
  lemma EveryBinding(h: Host, ops: seq<Op>, more: seq<Op>)
    requires Digests(h)
    ensures var s := Run(h, NONE, ops); var t := Run(h, s, more);
      && (forall name :: name in t.dirs ==> BoundFor(h, name, View(t.dirs[name])))
      && Bindings(s, t) && forall name :: SameReview(h, s, t, name)
  {
    var s := Run(h, NONE, ops);
    var t := Run(h, s, more);
    RunRegular(h, NONE, ops);
    RunRegular(h, s, more);
    BindingKept(h, s, more);
    forall name ensures SameReview(h, s, t, name) {
      assert SameBinding(s, t, name);
      BoundReview(h, s, t, name);
    }
  }

  // ---------- Which workflow ids keep the identity ----------

  // Who an authorization is for, and what it is bound to, is the same at both moments.
  ghost predicate Kept(s: Registry, t: Registry, name: string) {
    SameBinding(s, t, name) && (name in s.dirs ==> SameIdentity(View(s.dirs[name]), View(t.dirs[name])))
  }

  // Some authorization can be claimed: the lines leave a usable name and no empty required value.
  predicate Claimable(m: map<string, string>) {
    && ("name" in m ==> ValidName(m["name"]))
    && ("role" in m ==> m["role"] != "")
    && ("access" in m ==> m["access"] != "")
  }

  // A line sets a role or access that a rewrite changes.
  predicate Frays(m: map<string, string>) {
    Claimable(m) && (("role" in m && !LineSafe(m["role"])) || ("access" in m && !LineSafe(m["access"])))
  }

  // A claim shows that the lines leave something to claim.
  lemma ClaimedClaimable(h: Host, name: string, f: Folder)
    requires Proper(h, name, f) && View(f).name == name && Complete(View(f))
    ensures Claimable(WorkflowLines(h.workflowId))
  {
    var l, m := View(f), WorkflowLines(h.workflowId);
    if "role" in m { assert Stage(l.state) == 0 ==> l.role == Chops(m["role"], 0) == m["role"]; }
    if "access" in m { assert Stage(l.state) == 0 ==> l.access == Chops(m["access"], 0) == m["access"]; }
  }

  // A value that no rewrite changes.
  lemma SteadyValue(m: map<string, string>, key: string, value: string, k: nat)
    requires Traced(m, key, value, k) && (key in m ==> LineSafe(m[key])) && (key !in m ==> DropReturn(value) == value)
    ensures DropReturn(value) == value
  {
    if key in m { ChopsSafe(m[key], k); }
  }

  lemma MovedKept(h: Host, name: string, f: Folder, state: string)
    requires Proper(h, name, f) && View(f).name == name && Complete(View(f)) && !Frays(WorkflowLines(h.workflowId))
    requires (View(f).state, state) in {("registered", "running"), ("running", "completed")}
    ensures var f' := f.(env := EnvText(StatePairs(View(f).(state := state))));
      SameIdentity(View(f), View(f'))
  {
    var l, m := View(f), WorkflowLines(h.workflowId);
    StateStep(h, name, f, state);
    ClaimedClaimable(h, name, f);
    AskedSafe(m, l);
    SteadyValue(m, "role", l.role, Stage(l.state));
    SteadyValue(m, "access", l.access, Stage(l.state));
  }

  // A completed authorization has its lines' role and access, unfrayed.
  lemma CompletedSteady(h: Host, name: string, f: Folder)
    requires Proper(h, name, f) && View(f).state == "completed" && !Frays(WorkflowLines(h.workflowId))
    ensures var l, m := View(f), WorkflowLines(h.workflowId);
      ("role" in m ==> l.role == m["role"]) && ("access" in m ==> l.access == m["access"])
  {
    var m := WorkflowLines(h.workflowId);
    assert Claimable(m);
    if "role" in m { ChopsSafe(m["role"], 2); }
    if "access" in m { ChopsSafe(m["access"], 2); }
  }

  lemma RenewedKept(h: Host, e: Mandate, dirs: map<string, Folder>, q: Registration)
    requires Digests(h) && !Frays(WorkflowLines(h.workflowId))
    requires AfterRegister(h, e, dirs, q).Some? && q.name in dirs && Proper(h, q.name, dirs[q.name])
    ensures SameIdentity(View(dirs[q.name]), View(AfterRegister(h, e, dirs, q).value[q.name]))
  {
    RegisterStep(h, e, dirs, q);
    CompletedSteady(h, q.name, dirs[q.name]);
  }

  lemma StepKept(h: Host, s: Registry, op: Op, name: string)
    requires Digests(h) && !Frays(WorkflowLines(h.workflowId)) && (name in s.dirs ==> Proper(h, name, s.dirs[name]))
    ensures Kept(s, Step(h, s, op), name)
  {
    StepBinding(h, s, op, name);
    if name != Subject(op) {
      StepOthers(h, s, op, name);
    } else if name in s.dirs {
      match op
      case Enrol(q, e) => if AfterRegister(h, e, s.dirs, q).Some? { RenewedKept(h, e, s.dirs, q); }
      case Start(_, readable) =>
        if AfterClaim(h, s.dirs, name, readable).Some? { MovedKept(h, name, s.dirs[name], "running"); }
      case End(_) =>
        if AfterFinish(s.dirs, name).Some? { MovedKept(h, name, s.dirs[name], "completed"); }
    }
  }

  lemma KeptTransitive(s: Registry, t: Registry, u: Registry, name: string)
    requires Kept(s, t, name) && Kept(t, u, name)
    ensures Kept(s, u, name)
  {
  }

  ghost predicate AllKept(s: Registry, t: Registry) {
    forall name :: Kept(s, t, name)
  }

  lemma AllKeptTransitive(s: Registry, t: Registry, u: Registry)
    requires AllKept(s, t) && AllKept(t, u)
    ensures AllKept(s, u)
  {
    forall name ensures Kept(s, u, name) { KeptTransitive(s, t, u, name); }
  }

  lemma StepAllKept(h: Host, s: Registry, op: Op)
    requires Digests(h) && !Frays(WorkflowLines(h.workflowId)) && Regular(h, s)
    ensures AllKept(s, Step(h, s, op))
  {
    forall name ensures Kept(s, Step(h, s, op), name) { StepKept(h, s, op, name); }
  }

  /** Unless a line of the workflow id frays, in every run role, access, cli and binary of every authorization
      stay what they were too. */
  lemma {:induction false} IdentityKept(h: Host, s: Registry, ops: seq<Op>)
    requires Digests(h) && !Frays(WorkflowLines(h.workflowId)) && Regular(h, s)
    ensures AllKept(s, Run(h, s, ops))
    decreases ops
  {
    if ops != [] {
      var s' := Step(h, s, ops[0]);
      StepRegular(h, s, ops[0]);
      StepAllKept(h, s, ops[0]);
      IdentityKept(h, s', ops[1..]);
      AllKeptTransitive(s, s', Run(h, s, ops));
    }
  }

  // ---------- And exactly those ----------

  // A configured backend.
  datatype Equipment = Equipment(cli: string, bin: string)

  predicate HasBackend(h: Host, g: Equipment) {
    g.cli in BACKENDS && h.binary(g.cli) == Some(g.bin) && g.bin != "" && OneLine(g.bin)
  }

  const HUMAN: Mandate := Mandate("human", 1, {}, true, true, true)

  // A name under which the lines let an authorization be claimed.
  function UsableName(m: map<string, string>): string {
    if "name" in m then m["name"] else ALIGNMENT
  }

  lemma AlignmentValid()
    ensures ValidName(ALIGNMENT) && Contains(ALIGNMENT, ALIGNMENT)
  {
  }

  function AsReader(n: string, g: Equipment, e: Mandate): Op {
    Enrol(Registration(n, "reader", None, g.cli, g.bin, None, "", false, [], None, false), e)
  }

  // A fresh registration that can be claimed.
  lemma Claimed(h: Host, s: Registry, n: string)
    requires n in s.dirs && Proper(h, n, s.dirs[n]) && View(s.dirs[n]).state == "registered"
    requires View(s.dirs[n]).name == n && View(s.dirs[n]).role != "" && View(s.dirs[n]).access != ""
    ensures AfterClaim(h, s.dirs, n, true).Some?
    ensures var t := Step(h, s, Start(n, true));
      && n in t.dirs && Proper(h, n, t.dirs[n])
      && View(t.dirs[n]) == View(s.dirs[n]).(state := "running", role := DropReturn(View(s.dirs[n]).role),
           access := DropReturn(View(s.dirs[n]).access), workflowId := DropReturn(View(s.dirs[n]).workflowId))
  {
    NameSafe(n);
    BackendSafe(View(s.dirs[n]).cli);
    StateStep(h, n, s.dirs[n], "running");
  }

  lemma Completed(h: Host, s: Registry, n: string)
    requires n in s.dirs && Proper(h, n, s.dirs[n]) && View(s.dirs[n]).state == "running"
    requires View(s.dirs[n]).role != "" && View(s.dirs[n]).access != ""
    ensures var t := Step(h, s, End(n));
      && n in t.dirs && Proper(h, n, t.dirs[n])
      && View(t.dirs[n]) == View(s.dirs[n]).(state := "completed", role := DropReturn(View(s.dirs[n]).role),
           access := DropReturn(View(s.dirs[n]).access), workflowId := DropReturn(View(s.dirs[n]).workflowId))
  {
    NameSafe(n);
    BackendSafe(View(s.dirs[n]).cli);
    StateStep(h, n, s.dirs[n], "completed");
  }

  lemma ReaderRegistered(h: Host, g: Equipment, n: string, e: Mandate)
    requires Digests(h) && HasBackend(h, g) && ValidName(n)
    ensures var s, m := Step(h, NONE, AsReader(n, g, e)), WorkflowLines(h.workflowId);
      && n in s.dirs && Proper(h, n, s.dirs[n]) && View(s.dirs[n]).state == "registered"
      && View(s.dirs[n]).role == Overridden(m, "role", "reader")
      && View(s.dirs[n]).access == Overridden(m, "access", "read-only")
  {
    var q := AsReader(n, g, e).request;
    assert AfterRegister(h, e, map[], q).Some?;
    RegisterStep(h, e, map[], q);
  }

  // The reader under a usable name, claimed.
  lemma ReaderClaimed(h: Host, g: Equipment, n: string, e: Mandate)
    requires Digests(h) && HasBackend(h, g) && Claimable(WorkflowLines(h.workflowId))
    requires n == UsableName(WorkflowLines(h.workflowId))
    ensures var m, s := WorkflowLines(h.workflowId), Step(h, NONE, AsReader(n, g, e));
      var t := Step(h, s, Start(n, true));
      && n in s.dirs && AfterClaim(h, s.dirs, n, true).Some?
      && n in t.dirs && Proper(h, n, t.dirs[n]) && View(t.dirs[n]).state == "running"
      && View(t.dirs[n]).role == DropReturn(Overridden(m, "role", "reader"))
      && View(t.dirs[n]).access == DropReturn(Overridden(m, "access", "read-only"))
  {
    AlignmentValid();
    ReaderRegistered(h, g, n, e);
    Claimed(h, Step(h, NONE, AsReader(n, g, e)), n);
  }

  lemma ReaderFinished(h: Host, g: Equipment, n: string, e: Mandate)
    requires Digests(h) && HasBackend(h, g) && Claimable(WorkflowLines(h.workflowId))
    requires n == UsableName(WorkflowLines(h.workflowId))
    requires DropReturn(Overridden(WorkflowLines(h.workflowId), "role", "reader")) != ""
    requires DropReturn(Overridden(WorkflowLines(h.workflowId), "access", "read-only")) != ""
    ensures var m := WorkflowLines(h.workflowId);
      var t := Step(h, Step(h, Step(h, NONE, AsReader(n, g, e)), Start(n, true)), End(n));
      n in t.dirs && View(t.dirs[n]).access == DropReturn(DropReturn(Overridden(m, "access", "read-only")))
  {
    ReaderClaimed(h, g, n, e);
    Completed(h, Step(h, Step(h, NONE, AsReader(n, g, e)), Start(n, true)), n);
  }

  /** A role or access line that a rewrite changes: a reader's first claim changes whom it is for. */
  lemma FrayedClaim(h: Host, g: Equipment)
    requires Digests(h) && HasBackend(h, g) && Frays(WorkflowLines(h.workflowId))
    ensures var n := UsableName(WorkflowLines(h.workflowId));
      var s := Step(h, NONE, AsReader(n, g, HUMAN)); !Kept(s, Step(h, s, Start(n, true)), n)
  {
    var m := WorkflowLines(h.workflowId);
    var n := UsableName(m);
    AlignmentValid();
    ReaderRegistered(h, g, n, HUMAN);
    var s := Step(h, NONE, AsReader(n, g, HUMAN));
    Claimed(h, s, n);
    assert "role" in m && !LineSafe(m["role"]) ==> DropReturn(m["role"]) != m["role"];
    assert "access" in m && !LineSafe(m["access"]) ==> DropReturn(m["access"]) != m["access"];
  }

  lemma RunFirst(h: Host, s: Registry, op: Op, rest: seq<Op>)
    ensures Run(h, s, [op] + rest) == Run(h, Step(h, s, op), rest)
  {
    assert ([op] + rest)[1..] == rest;
  }

  /** On a host with a backend, role, access, cli, binary and binding of every authorization survive every run if
      and only if no role or access line of the workflow id frays. */
  lemma IdentityExact(h: Host, g: Equipment)
    requires Digests(h) && HasBackend(h, g)
    ensures !Frays(WorkflowLines(h.workflowId)) <==>
      forall ops, more :: AllKept(Run(h, NONE, ops), Run(h, Run(h, NONE, ops), more))
  {
    if Frays(WorkflowLines(h.workflowId)) {
      var n := UsableName(WorkflowLines(h.workflowId));
      FrayedClaim(h, g);
      RunFirst(h, NONE, AsReader(n, g, HUMAN), []);
      RunFirst(h, Step(h, NONE, AsReader(n, g, HUMAN)), Start(n, true), []);
      var ops, more := [AsReader(n, g, HUMAN)] + [], [Start(n, true)] + [];
      assert !Kept(Run(h, NONE, ops), Run(h, Run(h, NONE, ops), more), n);
      assert !AllKept(Run(h, NONE, ops), Run(h, Run(h, NONE, ops), more));
    } else {
      forall ops, more ensures AllKept(Run(h, NONE, ops), Run(h, Run(h, NONE, ops), more)) {
        RunRegular(h, NONE, ops);
        IdentityKept(h, Run(h, NONE, ops), more);
      }
    }
  }

  // ---------- Write access that nobody asked for ----------

  // An access line reads as write access, at once or after the rewrites it lives to see.
  predicate Forges(m: map<string, string>) {
    && "access" in m
    && (|| m["access"] == "workspace-write"
        || (Claimable(m) && DropReturn(m["access"]) == "workspace-write")
        || (Claimable(m) && ("role" in m ==> DropReturn(m["role"]) != "")
            && DropReturn(DropReturn(m["access"])) == "workspace-write"))
  }

  lemma NeverForged(h: Host, name: string, f: Folder)
    requires Proper(h, name, f) && "access" in WorkflowLines(h.workflowId) && !Forges(WorkflowLines(h.workflowId))
    ensures View(f).access != "workspace-write"
  {
    var l, m := View(f), WorkflowLines(h.workflowId);
    var a := m["access"];
    assert Chops(a, 0) == a && Chops(a, 1) == DropReturn(a) && Chops(a, 2) == DropReturn(DropReturn(a));
    assert l.state != "registered" ==> Claimable(m);
  }

  // A claim or a finish keeps the paths, and the access where no line sets it.
  lemma MovedAccess(h: Host, s: Registry, op: Op, name: string)
    requires !op.Enrol? && (name in s.dirs ==> Proper(h, name, s.dirs[name]))
    ensures var t := Step(h, s, op);
      && (name in t.dirs <==> name in s.dirs)
      && (name in s.dirs ==> t.dirs[name].owned == s.dirs[name].owned)
      && (name in s.dirs && "access" !in WorkflowLines(h.workflowId) ==>
            View(t.dirs[name]).access == View(s.dirs[name]).access)
  {
    if name != Subject(op) {
      StepOthers(h, s, op, name);
    } else if name in s.dirs {
      AskedSafe(WorkflowLines(h.workflowId), View(s.dirs[name]));
      match op
      case Start(_, readable) =>
        if AfterClaim(h, s.dirs, name, readable).Some? { StateStep(h, name, s.dirs[name], "running"); }
      case End(_) =>
        if AfterFinish(s.dirs, name).Some? { StateStep(h, name, s.dirs[name], "completed"); }
    }
  }

  /** A registration that reads as a writer, where no access line says so, was made under an authority that
      permits its owned paths, which are recorded with it. */
  lemma AdmittedWriter(h: Host, e: Mandate, dirs: map<string, Folder>, q: Registration)
    requires Digests(h) && AfterRegister(h, e, dirs, q).Some? && (q.name in dirs ==> Proper(h, q.name, dirs[q.name]))
    requires "access" !in WorkflowLines(h.workflowId)
    requires View(AfterRegister(h, e, dirs, q).value[q.name]).access == "workspace-write"
    ensures q.active && PermitsWorkspaceWrite(e, q.owned)
    ensures q.owned != [] ==> AfterRegister(h, e, dirs, q).value[q.name].owned == q.owned
  {
    RegisterStep(h, e, dirs, q);
  }

  /** A registration that does not ask to write leaves the recorded paths as they were, whatever paths its
      assignment names. */
  lemma ReadersOwnNothing(h: Host, e: Mandate, dirs: map<string, Folder>, q: Registration)
    requires AfterRegister(h, e, dirs, q).Some?
    requires q.access == Some("read-only") || (q.access.None? && q.role != "worker")
    ensures AfterRegister(h, e, dirs, q).value[q.name].owned == if q.name in dirs then dirs[q.name].owned else []
  {
    assert LaunchAccess(q.role, q.access) == Some("read-only");
  }

  // ---------- One such id ----------

  const RETURNS: string := "reader" + "\r"
  const FRAYED: Host := Host("w" + "\n" + EnvLine(Pair("role", RETURNS + "\r")), cli => Some("b"), b => "", text => "0")

  /** With the workflow id "w", a line break, "role=reader" and two carriage returns, a reader is registered with
      a carriage return in its role and claimed without it. */
  lemma ReturnLine()
    ensures var s := Step(FRAYED, NONE, AsReader(ALIGNMENT, Equipment("codex", "b"), HUMAN));
      var t := Step(FRAYED, s, Start(ALIGNMENT, true));
      && ALIGNMENT in s.dirs && View(s.dirs[ALIGNMENT]).role == RETURNS
      && ALIGNMENT in t.dirs && View(t.dirs[ALIGNMENT]).role == "reader"
  {
    assert LineSafe("0") && LineSafe("w") && OneLine("b");
    assert DropReturn(RETURNS + "\r") == RETURNS && DropReturn(RETURNS) == "reader";
    ShortKeys();
    AddedLine("w", Pair("role", RETURNS + "\r"));
    AlignmentValid();
    ReaderRegistered(FRAYED, Equipment("codex", "b"), ALIGNMENT, HUMAN);
    ReaderClaimed(FRAYED, Equipment("codex", "b"), ALIGNMENT, HUMAN);
  }
}
