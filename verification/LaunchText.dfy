/** Key=value files, and the launch authorization they hold. */
module LaunchText {
  import opened Tables

  datatype Pair = Pair(key: string, value: string)

  function EnvLine(p: Pair): string {
    p.key + "=" + p.value
  }

  function EnvLines(ps: seq<Pair>): (rows: seq<string>)
    ensures |rows| == |ps| && forall i :: 0 <= i < |ps| ==> rows[i] == EnvLine(ps[i])
  {
    if ps == [] then [] else [EnvLine(ps[0])] + EnvLines(ps[1..])
  }

  function EnvText(ps: seq<Pair>): string {
    Text(EnvLines(ps))
  }

  datatype Cut = NoCut | Cut(pair: Pair)

  // The text before and after the first '='.
  function SplitOnce(line: string): Cut {
    if line == "" then NoCut
    else if line[0] == '=' then Cut(Pair("", line[1..]))
    else match SplitOnce(line[1..])
      case NoCut => NoCut
      case Cut(p) => Cut(Pair([line[0]] + p.key, p.value))
  }

  // Lines without '=' are ignored; later lines win.
  function Fold(rows: seq<string>): map<string, string> {
    if rows == [] then map[]
    else
      match SplitOnce(rows[|rows| - 1])
      case NoCut => Fold(rows[..|rows| - 1])
      case Cut(p) => Fold(rows[..|rows| - 1])[p.key := p.value]
  }

  function ParseEnv(text: string): map<string, string> {
    Fold(Lines(text))
  }

  function MapOf(ps: seq<Pair>): map<string, string> {
    if ps == [] then map[] else MapOf(ps[..|ps| - 1])[ps[|ps| - 1].key := ps[|ps| - 1].value]
  }

  predicate UniqueKeys(ps: seq<Pair>) {
    forall i, j :: 0 <= i < j < |ps| ==> ps[i].key != ps[j].key
  }

  lemma {:induction false} MapOfAt(ps: seq<Pair>, i: nat)
    requires UniqueKeys(ps) && i < |ps|
    ensures ps[i].key in MapOf(ps) && MapOf(ps)[ps[i].key] == ps[i].value
  {
    if i < |ps| - 1 { MapOfAt(ps[..|ps| - 1], i); }
  }

  lemma {:induction false} SplitOnceAt(key: string, value: string)
    requires Free(key, '=')
    ensures SplitOnce(key + "=" + value) == Cut(Pair(key, value))
  {
    var line := key + "=" + value;
    if key == "" {
      assert line[1..] == value;
    } else {
      SplitOnceAt(key[1..], value);
      assert line[1..] == key[1..] + "=" + value;
      assert [key[0]] + key[1..] == key;
    }
  }

  lemma {:induction false} FoldLines(ps: seq<Pair>)
    requires forall i :: 0 <= i < |ps| ==> Free(ps[i].key, '=')
    ensures Fold(EnvLines(ps)) == MapOf(ps)
  {
    if ps != [] {
      var n := |ps| - 1;
      SplitOnceAt(ps[n].key, ps[n].value);
      assert EnvLines(ps)[..n] == EnvLines(ps[..n]);
      FoldLines(ps[..n]);
    }
  }

  // A key that can stand before '=' on a line.
  predicate KeyText(s: string) {
    s != "" && Free(s, '=') && OneLine(s)
  }

  lemma EnvLineSafe(p: Pair)
    requires KeyText(p.key) && LineSafe(p.value)
    ensures LineSafe(EnvLine(p))
  {
    var line := EnvLine(p);
    if p.value != "" { assert line[|line| - 1] == p.value[|p.value| - 1]; }
  }

  /** A file of pairs is read back as the map of those pairs when every value survives as a line. */
  lemma EnvReads(ps: seq<Pair>)
    requires forall i :: 0 <= i < |ps| ==> KeyText(ps[i].key) && LineSafe(ps[i].value)
    ensures ParseEnv(EnvText(ps)) == MapOf(ps)
  {
    forall i | 0 <= i < |ps| ensures LineSafe(EnvLines(ps)[i]) { EnvLineSafe(ps[i]); }
    LinesText(EnvLines(ps));
    FoldLines(ps);
  }

  // ---------- Launch authorizations ----------

  datatype Launch = Launch(
    name: string, role: string, access: string, workflowId: string, cli: string, cliBin: string,
    instructionSha: string, planSha: string, taskSha: string, bindingSha: string, state: string)

  // As a registration writes them.
  function RegisterPairs(l: Launch): seq<Pair> {
    [Pair("name", l.name), Pair("role", l.role), Pair("access", l.access), Pair("workflow_id", l.workflowId),
     Pair("cli", l.cli), Pair("cli_bin", l.cliBin), Pair("instruction_sha256", l.instructionSha),
     Pair("iteration_plan_sha256", l.planSha), Pair("original_task_sha256", l.taskSha),
     Pair("alignment_binding_sha256", l.bindingSha), Pair("state", l.state)]
  }

  // As a state change writes them.
  function StatePairs(l: Launch): seq<Pair> {
    [Pair("name", l.name), Pair("role", l.role), Pair("access", l.access),
     Pair("cli", l.cli), Pair("cli_bin", l.cliBin),
     Pair("instruction_sha256", l.instructionSha), Pair("workflow_id", l.workflowId),
     Pair("iteration_plan_sha256", l.planSha), Pair("original_task_sha256", l.taskSha),
     Pair("alignment_binding_sha256", l.bindingSha), Pair("state", l.state)]
  }

  predicate Entry(m: map<string, string>, key: string, value: string) {
    key in m && m[key] == value
  }

  // The file holds this authorization.
  predicate Represents(m: map<string, string>, l: Launch) {
    && Entry(m, "name", l.name) && Entry(m, "role", l.role) && Entry(m, "access", l.access)
    && Entry(m, "workflow_id", l.workflowId) && Entry(m, "cli", l.cli) && Entry(m, "cli_bin", l.cliBin)
    && Entry(m, "instruction_sha256", l.instructionSha) && Entry(m, "iteration_plan_sha256", l.planSha)
    && Entry(m, "original_task_sha256", l.taskSha) && Entry(m, "alignment_binding_sha256", l.bindingSha)
    && Entry(m, "state", l.state)
  }

  lemma StateUnique(l: Launch)
    ensures UniqueKeys(StatePairs(l))
  {
  }

  lemma ShortKeys()
    ensures KeyText("name") && KeyText("role") && KeyText("access") && KeyText("workflow_id") && KeyText("cli")
    ensures KeyText("cli_bin") && KeyText("state")
  {
  }

  lemma LongKeys()
    ensures KeyText("instruction_sha256") && KeyText("iteration_plan_sha256")
    ensures KeyText("original_task_sha256") && KeyText("alignment_binding_sha256")
  {
  }

  lemma StateRepresents(l: Launch, ps: seq<Pair>)
    requires ps == StatePairs(l)
    ensures Represents(MapOf(ps), l)
  {
    StateUnique(l);
    MapOfAt(ps, 0); MapOfAt(ps, 1); MapOfAt(ps, 2); MapOfAt(ps, 3); MapOfAt(ps, 4); MapOfAt(ps, 5);
    MapOfAt(ps, 6); MapOfAt(ps, 7); MapOfAt(ps, 8); MapOfAt(ps, 9); MapOfAt(ps, 10);
  }

  // Everything but the workflow id is written from checked single-line values.
  predicate SingleLines(l: Launch) {
    && LineSafe(l.name) && LineSafe(l.role) && LineSafe(l.access) && LineSafe(l.cli) && LineSafe(l.cliBin)
    && LineSafe(l.instructionSha) && LineSafe(l.planSha) && LineSafe(l.taskSha) && LineSafe(l.bindingSha)
    && LineSafe(l.state)
  }

  // ---------- Exactly which workflow ids survive ----------

  lemma {:induction false} SplitOnceFree(line: string)
    requires Free(line, '\n') && SplitOnce(line).Cut?
    ensures Free(SplitOnce(line).pair.value, '\n')
  {
    if line[0] != '=' { SplitOnceFree(line[1..]); }
  }

  lemma {:induction false} FoldFree(rows: seq<string>, key: string)
    requires (forall i :: 0 <= i < |rows| ==> Free(rows[i], '\n')) && key in Fold(rows)
    ensures Free(Fold(rows)[key], '\n')
  {
    var n := |rows| - 1;
    match SplitOnce(rows[n])
    case NoCut => FoldFree(rows[..n], key);
    case Cut(p) => if p.key == key { SplitOnceFree(rows[n]); } else { FoldFree(rows[..n], key); }
  }

  lemma ParsedNewlineFree(text: string, key: string)
    requires key in ParseEnv(text)
    ensures Free(ParseEnv(text)[key], '\n')
  {
    LinesNewlineFree(text);
    FoldFree(Lines(text), key);
  }

  lemma EnvLineFree(p: Pair)
    requires KeyText(p.key) && Free(p.value, '\n')
    ensures Free(EnvLine(p), '\n')
  {
  }

  function Chopped(p: Pair): Pair {
    if p.value != "" && p.value[|p.value| - 1] == '\r' then p.(value := p.value[..|p.value| - 1]) else p
  }

  // A value that ends in a carriage return loses it.
  lemma ReturnDropped(p: Pair)
    requires KeyText(p.key)
    ensures DropReturn(EnvLine(p)) == EnvLine(Chopped(p))
  {
    var line := EnvLine(p);
    if p.value == "" {
      assert line[|line| - 1] == '=';
    } else {
      assert line[|line| - 1] == p.value[|p.value| - 1];
      assert line[..|line| - 1] == p.key + "=" + p.value[..|p.value| - 1];
    }
  }

  predicate ChoppedTo(p: Pair, q: Pair) {
    KeyText(p.key) && Free(p.value, '\n') && q == Chopped(p)
  }

  lemma ChoppedLines(ps: seq<Pair>, qs: seq<Pair>)
    requires |qs| == |ps| && forall i :: 0 <= i < |ps| ==> ChoppedTo(ps[i], qs[i])
    ensures Lines(EnvText(ps)) == EnvLines(qs)
  {
    forall i | 0 <= i < |ps| ensures Free(EnvLines(ps)[i], '\n') && DropReturn(EnvLines(ps)[i]) == EnvLines(qs)[i] {
      assert ChoppedTo(ps[i], qs[i]);
      EnvLineFree(ps[i]);
      ReturnDropped(ps[i]);
    }
    LinesTextRows(EnvLines(ps));
  }

  lemma ChoppedKey(p: Pair, q: Pair)
    requires ChoppedTo(p, q)
    ensures Free(q.key, '=')
  {
  }

  lemma EnvReadsChopped(ps: seq<Pair>, qs: seq<Pair>)
    requires |qs| == |ps| && forall i :: 0 <= i < |ps| ==> ChoppedTo(ps[i], qs[i])
    ensures ParseEnv(EnvText(ps)) == MapOf(qs)
  {
    ChoppedLines(ps, qs);
    forall i | 0 <= i < |qs| ensures Free(qs[i].key, '=') { ChoppedKey(ps[i], qs[i]); }
    FoldLines(qs);
  }

  lemma SafeUnchopped(p: Pair)
    requires KeyText(p.key) && LineSafe(p.value)
    ensures ChoppedTo(p, p)
  {
  }

  // The values a state change writes unchecked hold no newline; the others survive as lines.
  predicate Rewritable(l: Launch) {
    && Free(l.name, '\n') && Free(l.role, '\n') && Free(l.access, '\n') && Free(l.workflowId, '\n')
    && LineSafe(l.cli) && LineSafe(l.cliBin) && LineSafe(l.instructionSha) && LineSafe(l.planSha)
    && LineSafe(l.taskSha) && LineSafe(l.bindingSha) && LineSafe(l.state)
  }

  // What such a file says: one carriage return at the end of a value is lost.
  function Rewritten(l: Launch): Launch {
    l.(name := DropReturn(l.name), role := DropReturn(l.role), access := DropReturn(l.access),
       workflowId := DropReturn(l.workflowId))
  }

  /** A state change rewrites the file without disturbing anything but the state, up to a carriage return at
      the end of name, role, access or workflow id. */
  lemma StateReads(l: Launch, ps: seq<Pair>)
    requires ps == StatePairs(l) && Rewritable(l)
    ensures Represents(ParseEnv(EnvText(ps)), Rewritten(l))
  {
    ShortKeys();
    LongKeys();
    var qs := StatePairs(Rewritten(l));
    forall i | 0 <= i < |ps| ensures ChoppedTo(ps[i], qs[i]) {
      if i > 2 && i != 6 { SafeUnchopped(ps[i]); }
    }
    EnvReadsChopped(ps, qs);
    StateRepresents(Rewritten(l), qs);
  }

  lemma EnvTextSnoc(ps: seq<Pair>, p: Pair)
    ensures EnvText(ps + [p]) == EnvText(ps) + (p.key + "=" + p.value + "\n")
  {
    assert EnvLines(ps + [p]) == EnvLines(ps) + [EnvLine(p)];
    TextSnoc(EnvLines(ps), EnvLine(p));
  }

  // ---------- Any workflow id ----------

  // What the lines that a workflow id makes say.
  function WorkflowLines(workflowId: string): map<string, string> {
    ParseEnv(EnvLine(Pair("workflow_id", workflowId)) + "\n")
  }

  lemma {:induction false} FoldAppend(rows: seq<string>, more: seq<string>)
    ensures Fold(rows + more) == Fold(rows) + Fold(more)
  {
    if more == [] {
      assert rows + more == rows && Fold(more) == map[];
    } else {
      var n := |more| - 1;
      assert (rows + more)[..|rows| + n] == rows + more[..n];
      FoldAppend(rows, more[..n]);
    }
  }

  predicate SafePair(p: Pair) {
    KeyText(p.key) && LineSafe(p.value)
  }

  lemma EnvTextAround(before: seq<Pair>, p: Pair, after: seq<Pair>)
    ensures EnvText(before + [p] + after) == EnvText(before) + (EnvLine(p) + "\n" + EnvText(after))
  {
    assert EnvLines(before + [p] + after) == EnvLines(before) + ([EnvLine(p)] + EnvLines(after));
    TextAppend(EnvLines(before), [EnvLine(p)] + EnvLines(after));
    assert ([EnvLine(p)] + EnvLines(after))[1..] == EnvLines(after);
  }

  lemma SafeLines(ps: seq<Pair>)
    requires forall i :: 0 <= i < |ps| ==> SafePair(ps[i])
    ensures forall i :: 0 <= i < |ps| ==> LineSafe(EnvLines(ps)[i])
    ensures forall i :: 0 <= i < |ps| ==> KeyText(ps[i].key) && LineSafe(ps[i].value) && Free(ps[i].key, '=')
  {
    forall i | 0 <= i < |ps| ensures LineSafe(EnvLines(ps)[i]) { EnvLineSafe(ps[i]); }
  }

  lemma MergeAssociates(a: map<string, string>, b: map<string, string>, c: map<string, string>)
    ensures a + (b + c) == a + b + c
  {
  }

  lemma FoldAround(rows: seq<string>, line: string, tail: string)
    requires forall i :: 0 <= i < |rows| ==> LineSafe(rows[i])
    ensures ParseEnv(Text(rows) + (line + "\n" + tail)) == Fold(rows) + ParseEnv(line + "\n") + ParseEnv(tail)
  {
    LinesTextThen(rows, line + "\n" + tail);
    LinesFromThen(line, tail, "");
    FoldAppend(rows, Lines(line + "\n") + Lines(tail));
    FoldAppend(Lines(line + "\n"), Lines(tail));
    MergeAssociates(Fold(rows), ParseEnv(line + "\n"), ParseEnv(tail));
  }

  // The lines of a workflow id override what stands before it and are overridden by what follows.
  lemma EnvAround(before: seq<Pair>, workflowId: string, after: seq<Pair>)
    requires forall i :: 0 <= i < |before| ==> SafePair(before[i])
    requires forall i :: 0 <= i < |after| ==> SafePair(after[i])
    ensures ParseEnv(EnvText(before + [Pair("workflow_id", workflowId)] + after)) ==
      MapOf(before) + WorkflowLines(workflowId) + MapOf(after)
  {
    var p := Pair("workflow_id", workflowId);
    SafeLines(before);
    SafeLines(after);
    EnvTextAround(before, p, after);
    FoldAround(EnvLines(before), EnvLine(p), EnvText(after));
    EnvReads(after);
    FoldLines(before);
  }

  lemma {:induction false} MapOfKeys(ps: seq<Pair>, key: string)
    requires forall i :: 0 <= i < |ps| ==> ps[i].key != key
    ensures key !in MapOf(ps)
  {
    if ps != [] { MapOfKeys(ps[..|ps| - 1], key); }
  }

  function Overridden(m: map<string, string>, key: string, value: string): string {
    if key in m then m[key] else value
  }

  // The authorization a registration is read back as.
  function ReadBack(l: Launch): Launch {
    var m := WorkflowLines(l.workflowId);
    l.(name := Overridden(m, "name", l.name), role := Overridden(m, "role", l.role),
       access := Overridden(m, "access", l.access), workflowId := Overridden(m, "workflow_id", ""))
  }

  function HeadPairs(l: Launch): seq<Pair> {
    [Pair("name", l.name), Pair("role", l.role), Pair("access", l.access)]
  }

  function TailPairs(l: Launch): seq<Pair> {
    [Pair("cli", l.cli), Pair("cli_bin", l.cliBin), Pair("instruction_sha256", l.instructionSha),
     Pair("iteration_plan_sha256", l.planSha), Pair("original_task_sha256", l.taskSha),
     Pair("alignment_binding_sha256", l.bindingSha), Pair("state", l.state)]
  }

  lemma TailRead(l: Launch, m: map<string, string>)
    requires m == MapOf(TailPairs(l))
    ensures Entry(m, "cli", l.cli) && Entry(m, "cli_bin", l.cliBin) && Entry(m, "instruction_sha256", l.instructionSha)
    ensures Entry(m, "iteration_plan_sha256", l.planSha) && Entry(m, "original_task_sha256", l.taskSha)
    ensures Entry(m, "alignment_binding_sha256", l.bindingSha) && Entry(m, "state", l.state)
    ensures "name" !in m && "role" !in m && "access" !in m && "workflow_id" !in m
  {
    var ps := TailPairs(l);
    assert UniqueKeys(ps);
    MapOfAt(ps, 0); MapOfAt(ps, 1); MapOfAt(ps, 2); MapOfAt(ps, 3); MapOfAt(ps, 4); MapOfAt(ps, 5); MapOfAt(ps, 6);
    MapOfKeys(ps, "name"); MapOfKeys(ps, "role"); MapOfKeys(ps, "access"); MapOfKeys(ps, "workflow_id");
  }

  lemma HeadRead(l: Launch, m: map<string, string>)
    requires m == MapOf(HeadPairs(l))
    ensures Entry(m, "name", l.name) && Entry(m, "role", l.role) && Entry(m, "access", l.access)
  {
    var ps := HeadPairs(l);
    assert UniqueKeys(ps);
    MapOfAt(ps, 0); MapOfAt(ps, 1); MapOfAt(ps, 2);
  }

  lemma {:induction false} FoldKeeps(rows: seq<string>, key: string)
    requires rows != [] && SplitOnce(rows[0]).Cut? && SplitOnce(rows[0]).pair.key == key
    ensures key in Fold(rows)
  {
    var n := |rows| - 1;
    if n == 0 { assert rows[..0] == []; } else { FoldKeeps(rows[..n], key); }
  }

  lemma {:induction false} FirstLine(s: string, line: string, n: nat)
    requires n <= |s| && forall i :: 0 <= i < n ==> s[i] != '\n'
    ensures LinesFrom(s, line) == LinesFrom(s[n..], line + s[..n])
  {
    if n == 0 {
      assert s[n..] == s && line + s[..n] == line;
    } else {
      FirstLine(s[1..], line + [s[0]], n - 1);
      assert s[1..][n - 1..] == s[n..] && line + [s[0]] + s[1..][..n - 1] == line + s[..n];
    }
  }

  lemma {:induction false} LinesFromStarts(s: string, line: string, key: string)
    requires key + "=" <= line && key != ""
    ensures LinesFrom(s, line) != [] && key + "=" <= LinesFrom(s, line)[0]
  {
    if s == "" {
    } else if s[0] == '\n' {
      var first := DropReturn(line);
      assert line[|key|] == '=' && |key| < |first|;
      assert first[..|key| + 1] == line[..|key| + 1];
    } else {
      LinesFromStarts(s[1..], line + [s[0]], key);
    }
  }

  lemma WorkflowKey()
    ensures |"workflow_id" + "="| == 12 && Free("workflow_id" + "=", '\n')
  {
    ShortKeys();
  }

  lemma WorkflowIdKept(workflowId: string)
    ensures "workflow_id" in WorkflowLines(workflowId)
  {
    var key := "workflow_id";
    var text := EnvLine(Pair(key, workflowId)) + "\n";
    WorkflowKey();
    assert text[..12] == key + "=";
    assert forall i :: 0 <= i < 12 ==> text[i] == text[..12][i];
    FirstLine(text, "", 12);
    assert "" + text[..12] == key + "=";
    LinesFromStarts(text[12..], key + "=", key);
    var first := Lines(text)[0];
    assert first == key + "=" + first[12..];
    SplitOnceAt(key, first[12..]);
    FoldKeeps(Lines(text), key);
  }

  /** Whatever the workflow id is, the file reads as the registration with name, role, access and workflow
      id as the lines of that id leave them. */
  lemma RegisterReads(l: Launch, ps: seq<Pair>)
    requires ps == RegisterPairs(l) && SingleLines(l)
    ensures Represents(ParseEnv(EnvText(ps)), ReadBack(l))
  {
    var before, after := HeadPairs(l), TailPairs(l);
    ShortKeys();
    LongKeys();
    assert forall i :: 0 <= i < |before| ==> SafePair(before[i]);
    assert forall i :: 0 <= i < |after| ==> SafePair(after[i]);
    assert ps == before + [Pair("workflow_id", l.workflowId)] + after;
    EnvAround(before, l.workflowId, after);
    HeadRead(l, MapOf(before));
    TailRead(l, MapOf(after));
    WorkflowIdKept(l.workflowId);
  }

  lemma OneRow(row: string)
    ensures Text([row]) == row + "\n"
  {
    assert [row][1..] == [] && row + "\n" + "" == row + "\n";
  }

  lemma AddedText(key: string, start: string, more: string)
    ensures EnvLine(Pair(key, start + "\n" + more)) + "\n" == EnvLine(Pair(key, start)) + "\n" + (more + "\n")
  {
  }

  lemma PlainWorkflowId(workflowId: string)
    requires Free(workflowId, '\n')
    ensures WorkflowLines(workflowId) == map["workflow_id" := DropReturn(workflowId)]
  {
    var p, q := Pair("workflow_id", workflowId), Pair("workflow_id", DropReturn(workflowId));
    ShortKeys();
    assert ChoppedTo(p, q);
    EnvReadsChopped([p], [q]);
    OneRow(EnvLine(p));
    assert EnvLines([p]) == [EnvLine(p)];
    assert [q][..0] == [] && MapOf([q]) == map[][q.key := q.value];
  }

  // A line break in a workflow id adds whatever pair follows it.
  lemma AddedLine(start: string, p: Pair)
    requires KeyText(p.key) && Free(p.value, '\n') && Free(start, '\n')
    ensures WorkflowLines(start + "\n" + EnvLine(p)) ==
      map["workflow_id" := DropReturn(start)][p.key := DropReturn(p.value)]
  {
    var line, tail := EnvLine(Pair("workflow_id", start)), EnvText([p]);
    OneRow(EnvLine(p));
    assert EnvLines([p]) == [EnvLine(p)];
    AddedText("workflow_id", start, EnvLine(p));
    FoldAround([], line, tail);
    assert Text([]) + (line + "\n" + tail) == line + "\n" + tail;
    var q := Pair(p.key, DropReturn(p.value));
    assert ChoppedTo(p, q);
    EnvReadsChopped([p], [q]);
    PlainWorkflowId(start);
    assert [q][..0] == [] && MapOf([q]) == map[q.key := q.value];
  }

  /** A registration is read back as written exactly when the workflow id has no newline and does not
      end in a carriage return. */
  lemma RegistrationExact(l: Launch, ps: seq<Pair>)
    requires ps == RegisterPairs(l) && SingleLines(l)
    ensures Represents(ParseEnv(EnvText(ps)), l) <==> LineSafe(l.workflowId)
  {
    RegisterReads(l, ps);
    if Free(l.workflowId, '\n') {
      PlainWorkflowId(l.workflowId);
    } else if Represents(ParseEnv(EnvText(ps)), l) {
      ParsedNewlineFree(EnvText(ps), "workflow_id");
    }
  }

  // ---------- The state is the last line ----------

  lemma StateAfter(text: string, state: string)
    requires LineSafe(state)
    ensures Entry(ParseEnv(text + "\n" + EnvText([Pair("state", state)])), "state", state)
  {
    var p := Pair("state", state);
    ShortKeys();
    FoldAround([], text, EnvText([p]));
    assert Text([]) + (text + "\n" + EnvText([p])) == text + "\n" + EnvText([p]);
    EnvReads([p]);
    MapOfAt([p], 0);
  }

  /** Whatever the other values are, the last line decides the state. */
  lemma LastState(ps: seq<Pair>, state: string)
    requires |ps| > 1 && ps[|ps| - 1] == Pair("state", state) && LineSafe(state)
    ensures Entry(ParseEnv(EnvText(ps)), "state", state)
  {
    var n := |ps| - 1;
    var p := Pair("state", state);
    assert ps == ps[..n] + [p] && ps[..n] == ps[..n - 1] + [ps[n - 1]];
    EnvTextSnoc(ps[..n - 1], ps[n - 1]);
    EnvTextSnoc(ps[..n], p);
    StateAfter(EnvText(ps[..n - 1]) + (ps[n - 1].key + "=" + ps[n - 1].value), state);
    assert EnvText(ps) == EnvText(ps[..n - 1]) + (ps[n - 1].key + "=" + ps[n - 1].value) + "\n" + EnvText([p]) by {
      OneRow(EnvLine(p));
      assert EnvLines([p]) == [EnvLine(p)];
    }
  }
}
