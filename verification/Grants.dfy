/** Where authority to change anything comes from, and which paths it can be asked for. */
module Grants {
  import opened Execution
  import opened RepositoryPaths

  // ---------- Which lists of paths are acceptable ----------

  // The texts differ at most in which way their slashes lean.
  predicate SamePath(s: string, t: string) {
    |s| == |t| && forall i :: 0 <= i < |s| ==> s[i] == t[i] || (Separator(s[i]) && Separator(t[i]))
  }

  lemma SameNormal(s: string, t: string)
    ensures SamePath(s, t) <==> Slashes(s) == Slashes(t)
  {
    if SamePath(s, t) {
      assert forall i :: 0 <= i < |s| ==> Slashes(s)[i] == Slashes(t)[i];
    } else if |s| == |t| {
      var i :| 0 <= i < |s| && !(s[i] == t[i] || (Separator(s[i]) && Separator(t[i])));
      assert Slashes(s)[i] != Slashes(t)[i];
    } else {
      assert |Slashes(s)| != |Slashes(t)|;
    }
  }

  predicate Distinct(values: seq<string>) {
    forall i, j :: 0 <= i < j < |values| ==> values[i] != values[j]
  }

  lemma {:induction false} DistinctCount(values: seq<string>)
    ensures |Elements(values)| <= |values|
    ensures |Elements(values)| == |values| <==> Distinct(values)
  {
    if values != [] {
      var rest := values[1..];
      DistinctCount(rest);
      assert values == [values[0]] + rest;
      assert Elements(values) == Elements(rest) + {values[0]};
      if values[0] in rest {
        var j :| 0 <= j < |rest| && rest[j] == values[0];
        assert values[j + 1] == values[0];
        assert Elements(values) == Elements(rest);
      } else {
        assert Distinct(rest) ==> Distinct(values);
      }
      assert Distinct(values) ==> Distinct(rest) by {
        assert forall i :: 0 <= i < |rest| ==> rest[i] == values[i + 1];
      }
    }
  }

  lemma {:induction false} AllNormalized(values: seq<string>)
    ensures |NormalizedPaths(values)| <= |values|
    ensures |NormalizedPaths(values)| == |values| <==>
      forall i :: 0 <= i < |values| ==> NormalizedRepoPath(values[i]).Some?
    ensures |NormalizedPaths(values)| == |values| ==>
      forall i :: 0 <= i < |values| ==> NormalizedPaths(values)[i] == Slashes(values[i])
  {
    if values != [] {
      AllNormalized(values[1..]);
      assert forall i :: 0 < i < |values| ==> values[i] == values[1..][i - 1];
    }
  }

  lemma DistinctPaths(paths: seq<string>, normal: seq<string>)
    requires |normal| == |paths| && forall i :: 0 <= i < |paths| ==> normal[i] == Slashes(paths[i])
    ensures Distinct(normal) <==> forall i, j :: 0 <= i < j < |paths| ==> !SamePath(paths[i], paths[j])
  {
    forall i, j | 0 <= i < j < |paths| ensures normal[i] == normal[j] <==> SamePath(paths[i], paths[j]) {
      SameNormal(paths[i], paths[j]);
    }
  }

  /** Paths can be asked for exactly when there are at most 32, each is acceptable, no two are the same path, and
      there are some or operations are asked for. */
  lemma AcceptableExactly(paths: seq<string>, reviewedOps: bool)
    ensures AcceptablePaths(paths, reviewedOps) <==>
      && |paths| <= 32
      && (forall i :: 0 <= i < |paths| ==> Acceptable(paths[i]))
      && (forall i, j :: 0 <= i < j < |paths| ==> !SamePath(paths[i], paths[j]))
      && (paths != [] || reviewedOps)
  {
    var normal := NormalizedPaths(paths);
    AllNormalized(paths);
    DistinctCount(normal);
    forall i | 0 <= i < |paths| ensures NormalizedRepoPath(paths[i]).Some? <==> Acceptable(paths[i]) {
      RepositoryPaths.AcceptedExactly(paths[i]);
    }
    if |normal| == |paths| { DistinctPaths(paths, normal); }
    assert Elements(normal) == {} <==> normal == [] by { if normal != [] { assert normal[0] in Elements(normal); } }
  }

  // ---------- Where authority comes from ----------

  // A person at the terminal, with no grant in the way.
  predicate Attended(env: Environment) {
    env.scope == "human" && env.grant.Absent?
  }

  // A reviewed grant made out to this session and repository.
  predicate GrantedHere(env: Environment) {
    && env.scope == "user" && env.grant.Holds?
    && var g := env.grant.record;
      && g.kind == "review-approved-repair"
      && g.grantedToSessionId == OrDefault(env.session) && g.repository == OrDefault(env.repository)
  }

  // This session's own active execution in this repository.
  predicate ActiveHere(env: Environment, file: Document<ActiveExecution>) {
    && env.scope == "user" && env.grant.Absent? && file.Holds?
    && var a := file.record;
      && a.schemaVersion == 1 && a.ordinal >= 2 && a.kind == "user-requested-mutation"
      && a.sessionId == OrDefault(env.session) && a.repository == OrDefault(env.repository)
  }

  lemma ValidatedInside(values: seq<string>, sourceWrite: bool)
    requires ValidatedPaths(values, sourceWrite).Some?
    ensures forall p :: p in ValidatedPaths(values, sourceWrite).value ==> StaysInside(p)
  {
    NormalizedCount(values);
    forall p | p in ValidatedPaths(values, sourceWrite).value ensures StaysInside(p) {
      assert p in NormalizedPaths(values);
      NeverLeaves(p);
    }
  }

  /** Authority to write or to operate comes only from a person at the terminal, a reviewed grant made out to this
      session and repository, or this session's own active execution there; at most 32 paths are ever granted, and
      none leads out. */
  lemma AuthorityOrigin(env: Environment, file: Document<ActiveExecution>)
    requires Configured(env, file).Ok?
    ensures var e := Configured(env, file).value;
      && (e.sourceWrite || e.reviewedOps ==> Attended(env) || GrantedHere(env) || ActiveHere(env, file))
      && |e.grantedPaths| <= 32
      && forall p :: p in e.grantedPaths ==> StaysInside(p)
  {
    if env.scope == "user" && env.grant.Holds? {
      var g := env.grant.record;
      ValidatedInside(g.paths, "source-write" in NormalizedEffects(g.effects).value);
    } else if env.scope == "user" && file.Holds? {
      ValidatedInside(file.record.paths, "source-write" in NormalizedEffects(file.record.effects).value);
    }
  }
}
