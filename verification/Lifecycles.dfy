/** Runs of registering, claiming and finishing: what every authorization goes through. */
module Lifecycles {
  import opened Tables
  import opened LaunchText
  import opened Execution
  import opened Launches

  // ---------- Runs ----------

  datatype Counts = Counts(registrations: nat, claims: nat, finishes: nat)

  datatype Registry = Registry(dirs: map<string, Folder>, counts: map<string, Counts>)

  const NONE: Registry := Registry(map[], map[])

  datatype Op =
    | Enrol(request: Registration, mandate: Mandate)
    | Start(name: string, ownedReadable: bool)
    | End(name: string)

  function CountOf(s: Registry, name: string): Counts {
    if name in s.counts then s.counts[name] else Counts(0, 0, 0)
  }

  function Step(h: Host, s: Registry, op: Op): Registry {
    match op
    case Enrol(q, e) =>
      (match AfterRegister(h, e, s.dirs, q)
       case None => s
       case Some(dirs) =>
         var k := CountOf(s, q.name);
         Registry(dirs, s.counts[q.name := k.(registrations := k.registrations + 1)]))
    case Start(name, readable) =>
      (match AfterClaim(h, s.dirs, name, readable)
       case None => s
       case Some(dirs) => var k := CountOf(s, name); Registry(dirs, s.counts[name := k.(claims := k.claims + 1)]))
    case End(name) =>
      (match AfterFinish(s.dirs, name)
       case None => s
       case Some(dirs) => var k := CountOf(s, name); Registry(dirs, s.counts[name := k.(finishes := k.finishes + 1)]))
  }

  function Run(h: Host, s: Registry, ops: seq<Op>): Registry
    decreases ops
  {
    if ops == [] then s else Run(h, Step(h, s, ops[0]), ops[1..])
  }

  function Subject(op: Op): string {
    match op case Enrol(q, _) => q.name case Start(name, _) => name case End(name) => name
  }

  lemma StepOthers(h: Host, s: Registry, op: Op, name: string)
    requires name != Subject(op)
    ensures (name in Step(h, s, op).dirs <==> name in s.dirs) && CountOf(Step(h, s, op), name) == CountOf(s, name)
    ensures name in s.dirs ==> Step(h, s, op).dirs[name] == s.dirs[name]
  {
  }

  // ---------- The cycle, for every host ----------

  // The state of an authorization follows from how often each thing happened to it.
  predicate Accounted(state: string, k: Counts) {
    match state
    case "registered" => k.registrations == k.claims + 1 && k.finishes == k.claims
    case "running" => k.registrations == k.claims && k.claims == k.finishes + 1
    case "completed" => k.registrations == k.claims == k.finishes && k.claims > 0
    case _ => false
  }

  predicate AccountedFor(s: Registry, name: string) {
    if name in s.dirs then Accounted(View(s.dirs[name]).state, CountOf(s, name))
    else CountOf(s, name) == Counts(0, 0, 0)
  }

  ghost predicate AllAccounted(s: Registry) {
    forall name :: AccountedFor(s, name)
  }

  // The only transitions, and the only way an authorization appears.
  predicate Cycles(s: Registry, t: Registry, name: string) {
    (name in s.dirs ==> name in t.dirs) &&
    (name in t.dirs ==>
      var after := View(t.dirs[name]).state;
      if name !in s.dirs then after == "registered"
      else
        var before := View(s.dirs[name]).state;
        after == before || (before, after) in {("registered", "running"), ("running", "completed"),
          ("completed", "registered")})
  }

  lemma StateWritten(f: Folder, ps: seq<Pair>, state: string)
    requires f.env == EnvText(ps) && |ps| > 1 && ps[|ps| - 1] == Pair("state", state) && LineSafe(state)
    ensures View(f).state == state
  {
    LastState(ps, state);
  }

  lemma EnrolState(h: Host, e: Mandate, dirs: map<string, Folder>, q: Registration)
    requires AfterRegister(h, e, dirs, q).Some?
    ensures var dirs' := AfterRegister(h, e, dirs, q).value;
      && q.name in dirs' && View(dirs'[q.name]).state == "registered"
      && (q.name in dirs ==> View(dirs[q.name]).state == "completed")
  {
    var b := BindingOf(h, dirs, q).value;
    var l := NewLaunch(h, dirs, q, b, Instruction(h, q, b));
    StatesSafe();
    StateWritten(AfterRegister(h, e, dirs, q).value[q.name], RegisterPairs(l), "registered");
  }

  lemma EnrolCycles(h: Host, s: Registry, q: Registration, e: Mandate)
    requires AccountedFor(s, q.name)
    ensures var t := Step(h, s, Enrol(q, e)); AccountedFor(t, q.name) && Cycles(s, t, q.name)
  {
    if AfterRegister(h, e, s.dirs, q).Some? { EnrolState(h, e, s.dirs, q); }
  }

  lemma StartCycles(h: Host, s: Registry, name: string, readable: bool)
    requires AccountedFor(s, name)
    ensures var t := Step(h, s, Start(name, readable)); AccountedFor(t, name) && Cycles(s, t, name)
  {
    if AfterClaim(h, s.dirs, name, readable).Some? {
      StatesSafe();
      StateWritten(AfterClaim(h, s.dirs, name, readable).value[name],
        StatePairs(View(s.dirs[name]).(state := "running")), "running");
    }
  }

  lemma EndCycles(h: Host, s: Registry, name: string)
    requires AccountedFor(s, name)
    ensures var t := Step(h, s, End(name)); AccountedFor(t, name) && Cycles(s, t, name)
  {
    if AfterFinish(s.dirs, name).Some? {
      StatesSafe();
      StateWritten(AfterFinish(s.dirs, name).value[name],
        StatePairs(View(s.dirs[name]).(state := "completed")), "completed");
    }
  }

  /** Each step, on any host, keeps every authorization accounted for and moves it at most one place along
      registered, running, completed, registered. */
  lemma StepCycles(h: Host, s: Registry, op: Op)
    requires AllAccounted(s)
    ensures AllAccounted(Step(h, s, op)) && forall name :: Cycles(s, Step(h, s, op), name)
  {
    var t := Step(h, s, op);
    forall name ensures AccountedFor(t, name) && Cycles(s, t, name) {
      assert AccountedFor(s, name);
      if name != Subject(op) {
        StepOthers(h, s, op, name);
      } else {
        match op
        case Enrol(q, e) => EnrolCycles(h, s, q, e);
        case Start(_, readable) => StartCycles(h, s, name, readable);
        case End(_) => EndCycles(h, s, name);
      }
    }
  }

  /** In every run on any host, whatever its workflow id and digests, the state of each authorization is the
      one its counts give, so claims never exceed registrations and renewals. */
  lemma {:induction false} Lifecycle(h: Host, s: Registry, ops: seq<Op>)
    requires AllAccounted(s)
    ensures AllAccounted(Run(h, s, ops))
    ensures forall name :: CountOf(Run(h, s, ops), name).claims <= CountOf(Run(h, s, ops), name).registrations
    decreases ops
  {
    var t := Run(h, s, ops);
    if ops != [] {
      StepCycles(h, s, ops[0]);
      Lifecycle(h, Step(h, s, ops[0]), ops[1..]);
    }
    forall name ensures CountOf(t, name).claims <= CountOf(t, name).registrations { assert AccountedFor(t, name); }
  }

  /** The same from the empty directory. */
  lemma EveryLaunch(h: Host, ops: seq<Op>)
    ensures AllAccounted(Run(h, NONE, ops))
    ensures forall name :: CountOf(Run(h, NONE, ops), name).claims <= CountOf(Run(h, NONE, ops), name).registrations
  {
    Lifecycle(h, NONE, ops);
  }
}
