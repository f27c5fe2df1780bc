/** The launch-authorization directory as the supervisor updates it. */
module LaunchStore {
  import opened Wrappers
  import opened LaunchText
  import opened Execution
  import opened Launches

  // The lines for these keys; a missing value is written as empty text.
  function PairsOf(m: map<string, string>, keys: seq<string>): (ps: seq<Pair>)
    ensures |ps| == |keys| && forall i :: 0 <= i < |keys| ==> ps[i] == Pair(keys[i], Get(m, keys[i]))
  {
    if keys == [] then [] else PairsOf(m, keys[..|keys| - 1]) + [Pair(keys[|keys| - 1], Get(m, keys[|keys| - 1]))]
  }

  const REQUIRED: seq<string> := ["name", "role", "access", "cli", "cli_bin", "instruction_sha256"]
  const OPTIONAL: seq<string> := ["workflow_id", "iteration_plan_sha256", "original_task_sha256",
    "alignment_binding_sha256"]

  predicate HasAll(m: map<string, string>, keys: seq<string>) {
    forall i :: 0 <= i < |keys| ==> Get(m, keys[i]) != ""
  }

  lemma NextPair(m: map<string, string>, keys: seq<string>, before: seq<Pair>, i: nat)
    requires i < |keys|
    ensures EnvText(before + PairsOf(m, keys[..i + 1])) ==
      EnvText(before + PairsOf(m, keys[..i])) + (keys[i] + "=" + Get(m, keys[i]) + "\n")
  {
    var p := Pair(keys[i], Get(m, keys[i]));
    assert keys[..i + 1][..i] == keys[..i];
    assert before + PairsOf(m, keys[..i + 1]) == before + PairsOf(m, keys[..i]) + [p];
    EnvTextSnoc(before + PairsOf(m, keys[..i]), p);
  }

  /** The text with these lines added, or nothing when a required value is missing or empty. */
  method PushPairs(m: map<string, string>, keys: seq<string>, required: bool, ghost before: seq<Pair>, text: string)
    returns (r: Option<string>)
    requires text == EnvText(before)
    ensures r.Some? <==> (required ==> HasAll(m, keys))
    ensures r.Some? ==> r.value == EnvText(before + PairsOf(m, keys))
  {
    var out := text;
    assert before + PairsOf(m, []) == before;
    for i := 0 to |keys|
      invariant required ==> HasAll(m, keys[..i])
      invariant out == EnvText(before + PairsOf(m, keys[..i]))
    {
      if required && Get(m, keys[i]) == "" { return None; }
      NextPair(m, keys, before, i);
      out := out + (keys[i] + "=" + Get(m, keys[i]) + "\n");
    }
    assert keys[..|keys|] == keys;
    return Some(out);
  }

  lemma CompleteKeys(f: Folder)
    ensures HasAll(ParseEnv(f.env), REQUIRED) <==> Complete(View(f))
  {
    assert REQUIRED[0] == "name" && REQUIRED[1] == "role" && REQUIRED[2] == "access" && REQUIRED[3] == "cli";
    assert REQUIRED[4] == "cli_bin" && REQUIRED[5] == "instruction_sha256";
  }

  lemma StateLayout(m: map<string, string>, l: Launch, state: string)
    requires l == LaunchOf(m)
    ensures [] + PairsOf(m, REQUIRED) + PairsOf(m, OPTIONAL) + [Pair("state", state)] == StatePairs(l.(state := state))
  {
  }

  /** The rewritten file: every field but the state as it was read. */
  method StateText(f: Folder, state: string) returns (r: Option<string>)
    ensures r.Some? <==> Complete(View(f))
    ensures r.Some? ==> r.value == EnvText(StatePairs(View(f).(state := state)))
  {
    var m := ParseEnv(f.env);
    CompleteKeys(f);
    var first := PushPairs(m, REQUIRED, true, [], "");
    if first.None? { return None; }
    var all := PushPairs(m, OPTIONAL, false, [] + PairsOf(m, REQUIRED), first.value);
    EnvTextSnoc([] + PairsOf(m, REQUIRED) + PairsOf(m, OPTIONAL), Pair("state", state));
    StateLayout(m, View(f), state);
    return Some(all.value + ("state" + "=" + state + "\n"));
  }

  class LaunchDirectory {
    const host: Host
    var dirs: map<string, Folder>

    constructor (h: Host)
      ensures host == h && dirs == map[]
    {
      host, dirs := h, map[];
    }

    /** Registers or renews, and changes nothing when the request is refused. */
    method Register(q: Registration, e: Mandate) returns (ok: bool)
      modifies this
      ensures ok == AfterRegister(host, e, old(dirs), q).Some?
      ensures dirs == if ok then AfterRegister(host, e, old(dirs), q).value else old(dirs)
    {
      if !WellFormed(host, e, q) { return false; }
      var binding := BindingOf(host, dirs, q);
      if binding.None? { return false; }
      if q.name in dirs {
        if !q.renew { return false; }
        var current := View(dirs[q.name]);
        if current.state != "completed" { return false; }
        if current.role != q.role || current.access != LaunchAccess(q.role, q.access).value
          || current.cli != q.cli || current.cliBin != q.cliBin { return false; }
        if PlanAlignment(q) && current.bindingSha != ShaOf(binding.value) { return false; }
      } else if q.renew {
        return false;
      }
      var instruction := Instruction(host, q, binding.value);
      var l := NewLaunch(host, dirs, q, binding.value, instruction);
      var owned := if q.name in dirs then dirs[q.name].owned else [];
      if Writes(q) && q.owned != [] { owned := q.owned; }
      dirs := dirs[q.name := Folder(EnvText(RegisterPairs(l)), instruction, owned)];
      return true;
    }

    /** Hands the authorization out once; it then reads as running. */
    method Claim(name: string, ownedReadable: bool) returns (r: Option<Launch>)
      modifies this
      ensures r.Some? == AfterClaim(host, old(dirs), name, ownedReadable).Some?
      ensures r.Some? ==> name in old(dirs) && r.value == View(old(dirs)[name])
      ensures dirs == if r.Some? then AfterClaim(host, old(dirs), name, ownedReadable).value else old(dirs)
    {
      if name !in dirs { return None; }
      var l := View(dirs[name]);
      if l.name != name || l.state != "registered" { return None; }
      if l.instructionSha != host.sha(dirs[name].instruction) { return None; }
      if !ownedReadable || l.role == "" || l.access == "" || l.cli == "" || l.cliBin == "" { return None; }
      var text := StateText(dirs[name], "running");
      if text.None? { return None; }
      dirs := dirs[name := dirs[name].(env := text.value)];
      return Some(l);
    }

    method Finish(name: string) returns (ok: bool)
      modifies this
      ensures ok == AfterFinish(old(dirs), name).Some?
      ensures dirs == if ok then AfterFinish(old(dirs), name).value else old(dirs)
    {
      if name !in dirs || View(dirs[name]).state != "running" { return false; }
      var text := StateText(dirs[name], "completed");
      if text.None? { return false; }
      dirs := dirs[name := dirs[name].(env := text.value)];
      return true;
    }
  }
}
