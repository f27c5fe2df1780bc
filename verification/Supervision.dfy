/** The supervisor and the launcher as they update the session's files. */
module Supervision {
  import opened Wrappers
  import opened Execution
  import opened ActiveText
  import opened Authority
  import opened Launches
  import opened Lifecycles
  import opened Identities
  import opened LaunchStore
  import opened Sessions

  lemma UnclaimedStays(h: Host, s: Registry, name: string, readable: bool)
    ensures AfterClaim(h, s.dirs, name, readable).None? ==> Step(h, s, Start(name, readable)) == s
    ensures !readable ==> AfterClaim(h, s.dirs, name, readable).None?
  {
  }

  function AllAsked(rs: seq<Request>): seq<Happening> {
    if rs == [] then [] else [Asked(rs[0])] + AllAsked(rs[1..])
  }

  lemma {:induction false} AskedOneMore(env: Environment, h: Host, s: Session, rs: seq<Request>, i: nat)
    requires i < |rs|
    ensures Course(env, h, s, AllAsked(rs[..i + 1])) == Serve(env, h, Course(env, h, s, AllAsked(rs[..i])), rs[i]).0
    decreases i
  {
    var x := AllAsked(rs[..i + 1]);
    if i > 0 {
      assert rs[..i + 1][1..] == rs[1..][..i] && rs[..i][1..] == rs[1..][..i - 1];
      assert x[1..] == AllAsked(rs[1..][..i]) && AllAsked(rs[..i])[1..] == AllAsked(rs[1..][..i - 1]);
      AskedOneMore(env, h, Serve(env, h, s, rs[0]).0, rs[1..], i - 1);
    } else {
      assert rs[..1][1..] == [] && x[1..] == [];
    }
  }

  lemma PerformAnswers(env: Environment, h: Host, s: Session, r: Request, e: Mandate)
    ensures Perform(env, h, s, r, e).1.Done? || Perform(env, h, s, r, e).1.Refused?
  {
  }

  // Only a shutdown, or a process that failed, ends the serving of a bounded session.
  lemma ServeAnswers(env: Environment, h: Host, s: Session, r: Request)
    requires UserSession(env) && GrantBounded(env, s)
    ensures Serve(env, h, s, r).1.Stopped? || Serve(env, h, s, r).1.Failed? ==>
      r.op.SupervisorShutdown? || !r.child.Ran?
  {
    ForceConfigured(env, s);
    PerformAnswers(env, h, s, r, InForce(s));
  }

  // The session after the first so many requests.
  ghost function Served(env: Environment, h: Host, s: Session, rs: seq<Request>, i: nat): Session
    requires i <= |rs|
  {
    Course(env, h, s, AllAsked(rs[..i]))
  }

  lemma ServedNext(env: Environment, h: Host, s: Session, rs: seq<Request>, i: nat, now: Session)
    requires i < |rs| && now == Served(env, h, s, rs, i) && UserSession(env) && GrantBounded(env, now)
    ensures Serve(env, h, now, rs[i]).0 == Served(env, h, s, rs, i + 1)
    ensures Serve(env, h, now, rs[i]).1.Stopped? || Serve(env, h, now, rs[i]).1.Failed? ==>
      rs[i].op.SupervisorShutdown? || !rs[i].child.Ran?
  {
    ServeAnswers(env, h, now, rs[i]);
    AskedOneMore(env, h, s, rs, i);
  }

  class Supervisor {
    const env: Environment
    const host: Host
    const active: ActiveFile
    const launches: LaunchDirectory
    var mutations: seq<Mutation>
    var boundaries: seq<seq<OwnedPath>>
    var operations: nat
    ghost var counts: map<string, Counts>

    ghost function State(): Session
      reads this, active, launches
    {
      Session(active.File(), mutations, Registry(launches.dirs, counts), boundaries, operations)
    }

    // A user session: everything granted, and every writer on disk, lies within one mutation.
    ghost predicate Valid()
      reads this, active, launches
    {
      && active.env == env && launches.host == host && UserSession(env)
      && GrantBounded(env, State())
      && (Unforged(host) ==> Regular(host, State().registry) && WritersBounded(State()))
    }

    constructor (e: Environment, h: Host)
      requires UserSession(e)
      ensures Valid() && env == e && host == h && State() == START
    {
      env, host := e, h;
      active := new ActiveFile(e);
      launches := new LaunchDirectory(h);
      mutations, boundaries, operations, counts := [], [], 0, map[];
      new;
      EverySession(e, h, []);
    }

    // Carry out an admitted request.
    method Execute(r: Request, e: Mandate) returns (reply: Reply)
      requires active.env == env && launches.host == host
      modifies this, active, launches
      ensures (State(), reply) == Perform(env, host, old(State()), r, e)
    {
      match r.op {
        case ExecutionMutationRequest =>
          var m := MutationRequestOptions(["request-mutation"] + r.args);
          if m.None? { return Refused; }
          var answer := active.RequestMutation(m.value.paths, m.value.reviewedOps);
          if answer.Err? { return Refused; }
          mutations := mutations + [m.value];
        case SupervisorRegisterLaunch =>
          reply := RegisterLaunch(r.launch.(renew := false), e);
          return;
        case SupervisorRenewLaunch =>
          reply := RegisterLaunch(r.launch.(renew := true), e);
          return;
        case OpsPublishBound | OpsPublish | OpsExecute =>
          operations := operations + 1;
        case _ =>
      }
      return Done;
    }

    method RegisterLaunch(q: Registration, e: Mandate) returns (reply: Reply)
      requires launches.host == host
      modifies this, launches
      ensures active.text == old(active.text)
      ensures (State(), reply) == Register(host, old(State()), q, e)
    {
      var ok := launches.Register(q, e);
      if !ok { return Refused; }
      ghost var k := CountOf(old(State()).registry, q.name);
      counts := counts[q.name := k.(registrations := k.registrations + 1)];
      return Done;
    }

    /** One request through the gates; everything granted stays bounded. */
    method Handle(r: Request) returns (reply: Reply)
      requires Valid()
      modifies this, active, launches
      ensures Valid()
      ensures (State(), reply) == Serve(env, host, old(State()), r)
    {
      ServeBounded(env, host, State(), r);
      if Unforged(host) { ServeWriters(env, host, State(), r); }
      if r.uid !in PEERS { return Refused; }
      if r.op.SupervisorShutdown? { return Stopped; }
      if !AuthorizedFor(r.op, r.uid) { return Refused; }
      var e := Configured(env, active.File());
      if e.Err? { return Failed; }
      if !AllowedForExecution(r.op, r.args, e.value) { return Refused; }
      if r.child.NotStarted? { return Failed; }
      reply := Execute(r, e.value);
      if r.child.Lost? { reply := Failed; }
    }

    // The next request of a list, and whether serving ends with it.
    method HandleNext(rs: seq<Request>, i: nat, ghost start: Session) returns (ends: bool)
      requires Valid() && i < |rs| && State() == Served(env, host, start, rs, i)
      modifies this, active, launches
      ensures Valid() && State() == Served(env, host, start, rs, i + 1)
      ensures ends ==> rs[i].op.SupervisorShutdown? || !rs[i].child.Ran?
    {
      ServedNext(env, host, start, rs, i, State());
      var reply := Handle(rs[i]);
      ends := reply.Stopped? || reply.Failed?;
    }

    /** Serve until a shutdown, or until the process for a request cannot be started or read. */
    method HandleAll(rs: seq<Request>) returns (served: nat)
      requires Valid()
      modifies this, active, launches
      ensures Valid()
      ensures served <= |rs| && State() == Served(env, host, old(State()), rs, served)
      ensures served < |rs| ==> served > 0 && (rs[served - 1].op.SupervisorShutdown? || !rs[served - 1].child.Ran?)
    {
      ghost var start := State();
      for i := 0 to |rs|
        invariant Valid() && State() == Served(env, host, start, rs, i)
      {
        var ends := HandleNext(rs, i, start);
        if ends {
          return i + 1;
        }
      }
      return |rs|;
    }

    method ClaimLaunch(name: string, readable: bool) returns (l: Option<LaunchText.Launch>)
      requires launches.host == host
      modifies this, launches
      ensures l.Some? == AfterClaim(host, old(launches.dirs), name, readable).Some?
      ensures l.Some? ==> name in old(launches.dirs) && l.value == View(old(launches.dirs)[name])
      ensures State() == old(State()).(registry := Step(host, old(State()).registry, Start(name, readable)))
    {
      l := launches.Claim(name, readable);
      if l.Some? {
        ghost var k := CountOf(old(State()).registry, name);
        counts := counts[name := k.(claims := k.claims + 1)];
      }
    }

    method OpenPaths(owned: seq<OwnedPath>)
      modifies this
      ensures State() == Sessions.Opened(env, old(State()), owned)
    {
      var e := Configured(env, active.File());
      if e.Ok? && PermitsWorkspaceWrite(e.value, owned) {
        boundaries := boundaries + [owned];
      }
    }

    method FinishLaunch(name: string)
      requires launches.host == host
      modifies this, launches
      ensures State() == old(State()).(registry := Step(host, old(State()).registry, Lifecycles.End(name)))
    {
      var ok := launches.Finish(name);
      if ok {
        ghost var k := CountOf(old(State()).registry, name);
        counts := counts[name := k.(finishes := k.finishes + 1)];
      }
    }

    /** Claim an authorization; open a writer's paths only as the session's authority allows now. */
    method Launch(name: string, owned: Option<seq<OwnedPath>>, fit: bool)
      requires Valid()
      modifies this, launches
      ensures Valid()
      ensures State() == Launched(env, host, old(State()), name, owned, fit)
    {
      HappenBounded(env, host, State(), Happening.Launch(name, owned, fit));
      if Unforged(host) { HappenWriters(env, host, State(), Happening.Launch(name, owned, fit)); }
      UnclaimedStays(host, State().registry, name, owned.Some?);
      var l := ClaimLaunch(name, owned.Some?);
      if l.None? { return; }
      if !fit || l.value.access != "workspace-write" || l.value.role != "worker" { return; }
      OpenPaths(owned.value);
    }

    method End(name: string)
      requires Valid()
      modifies this, launches
      ensures Valid()
      ensures State() == Happen(env, host, old(State()), Ended(name))
    {
      HappenBounded(env, host, State(), Ended(name));
      if Unforged(host) { HappenWriters(env, host, State(), Ended(name)); }
      FinishLaunch(name);
    }
  }
}
