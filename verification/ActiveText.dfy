/** The active-execution file as text. */
module ActiveText {
  import opened Wrappers
  import opened Json
  import opened PrettyJson
  import opened Execution

  function Texts(values: seq<string>): (items: seq<Value>)
    ensures |items| == |values| && forall i :: 0 <= i < |values| ==> items[i] == String(values[i])
  {
    if values == [] then [] else [String(values[0])] + Texts(values[1..])
  }

  function ActiveJson(a: ActiveExecution): Value {
    Object([Field("schemaVersion", Number(a.schemaVersion)), Field("ordinal", Number(a.ordinal)),
            Field("kind", String(a.kind)), Field("effects", Array(Texts(a.effects))),
            Field("repository", String(a.repository)), Field("paths", Array(Texts(a.paths))),
            Field("sessionId", String(a.sessionId))])
  }

  function ActiveFileText(a: ActiveExecution): string {
    Pretty(ActiveJson(a), 0) + "\n"
  }

  function TextsOf(items: seq<Value>): Option<seq<string>> {
    if items == [] then Some([])
    else match (items[0], TextsOf(items[1..]))
      case (String(s), Some(rest)) => Some([s] + rest)
      case _ => None
  }

  predicate ActiveKeys(fs: seq<Field>) {
    && |fs| == 7 && fs[0].key == "schemaVersion" && fs[1].key == "ordinal" && fs[2].key == "kind"
    && fs[3].key == "effects" && fs[4].key == "repository" && fs[5].key == "paths" && fs[6].key == "sessionId"
  }

  function ActiveOf(v: Value): Option<ActiveExecution> {
    if !(v.Object? && ActiveKeys(v.fields)) then None
    else
      var fs := v.fields;
      match (fs[0].value, fs[1].value, fs[2].value, fs[3].value, fs[4].value, fs[5].value, fs[6].value)
      case (Number(version), Number(ordinal), String(kind), Array(effects), String(repository), Array(paths),
        String(session)) =>
        (match (TextsOf(effects), TextsOf(paths))
         case (Some(es), Some(ps)) => Some(ActiveExecution(version, ordinal, kind, es, repository, ps, session))
         case _ => None)
      case _ => None
  }

  // What the file says: nothing, something unreadable, or a record.
  function DocumentOf(text: Option<string>): Document<ActiveExecution> {
    match text
    case None => Absent
    case Some(t) =>
      match Read(t)
      case None => Malformed
      case Some(v) => match ActiveOf(v) case None => Malformed case Some(a) => Holds(a)
  }

  lemma {:induction false} TextsRead(values: seq<string>)
    ensures TextsOf(Texts(values)) == Some(values)
  {
    if values != [] {
      TextsRead(values[1..]);
      assert Texts(values)[1..] == Texts(values[1..]);
      assert [values[0]] + values[1..] == values;
    }
  }

  lemma ActiveDecodes(a: ActiveExecution)
    ensures ActiveOf(ActiveJson(a)) == Some(a)
  {
    TextsRead(a.effects);
    TextsRead(a.paths);
  }

  lemma DocumentWritten(v: Value)
    ensures DocumentOf(Some(Pretty(v, 0) + "\n")) == match ActiveOf(v) case None => Malformed case Some(a) => Holds(a)
  {
    PrettyRoundTrip(v);
  }

  /** Every record, whatever its texts contain, is read back from the file it was written to. */
  lemma ActiveRoundTrip(a: ActiveExecution)
    ensures DocumentOf(Some(ActiveFileText(a))) == Holds(a)
  {
    ActiveDecodes(a);
    DocumentWritten(ActiveJson(a));
  }

  /** The text a granted request writes gives, when it is read, exactly the authority that was asked for. */
  lemma GrantedText(env: Environment, paths: seq<string>, reviewedOps: bool)
    requires UserSession(env) && AcceptablePaths(paths, reviewedOps)
    ensures Configured(env, DocumentOf(Some(ActiveFileText(NewRecord(env, paths, reviewedOps, 2))))) ==
      Ok(Granting(paths, reviewedOps))
  {
    ActiveRoundTrip(NewRecord(env, paths, reviewedOps, 2));
    RecordAccepted(env, paths, reviewedOps, 2);
  }

  /** The session's active-execution file, which only a mutation request rewrites. */
  class ActiveFile {
    const env: Environment
    var text: Option<string>

    constructor (e: Environment)
      ensures env == e && text == None
    {
      env, text := e, None;
    }

    function File(): Document<ActiveExecution>
      reads this
    {
      DocumentOf(text)
    }

    /** Granted exactly to a bound user session that has no grant and no execution yet and names acceptable
        paths; the answer is then exactly what was asked for and what the text now says, and otherwise
        nothing is written. */
    method RequestMutation(paths: seq<string>, reviewedOps: bool) returns (answer: Result<Mandate>)
      modifies this
      ensures answer == if Grantable(env, old(File()), paths, reviewedOps) then Ok(Granting(paths, reviewedOps))
        else Err
      ensures answer.Ok? ==> File() == Holds(NewRecord(env, paths, reviewedOps, 2)) && Configured(env, File()) == answer
      ensures answer.Err? ==> text == old(text)
    {
      var current := Configured(env, File());
      MayAsk(env, File());
      if current.Err? || !PermitsMutationRequest(current.value) { return Err; }
      if |paths| > 32 || |Elements(NormalizedPaths(paths))| != |paths| { return Err; }
      if Elements(NormalizedPaths(paths)) == {} && !reviewedOps { return Err; }
      if env.repository.None? || env.session.None? { return Err; }
      GrantedText(env, paths, reviewedOps);
      ActiveRoundTrip(NewRecord(env, paths, reviewedOps, 2));
      text := Some(ActiveFileText(NewRecord(env, paths, reviewedOps, current.value.ordinal + 1)));
      answer := Configured(env, File());
    }
  }
}
