/** Building a workflow node by node: what every reachable workflow looks like. */
module Dag {
  import opened Graph
  import opened Tables
  import opened Workflow

  // ---------- Requests ----------

  datatype Request = Request(
    nodeId: string, agent: string, assignmentId: string, role: string, branch: string, owned: string,
    dependsOn: string, status: string, decisionId: string, planId: string)

  predicate ValidRequest(q: Request) {
    && ValidId(q.nodeId)
    && q.agent != "" && q.assignmentId != "" && q.role != "" && q.branch != "" && q.owned != ""
    && q.role in ROLES && q.status in STATUSES
    && OneLine(q.agent) && OneLine(q.assignmentId) && OneLine(q.role) && OneLine(q.branch) && OneLine(q.owned)
    && OneLine(q.dependsOn) && OneLine(q.decisionId) && OneLine(q.planId)
  }

  function NonEmptyTrimmed(parts: seq<string>): seq<string> {
    if parts == [] then []
    else (if Trim(parts[0]) == "" then [] else [Trim(parts[0])]) + NonEmptyTrimmed(parts[1..])
  }

  function Dependencies(q: Request): seq<string> {
    NonEmptyTrimmed(Split(q.dependsOn, ','))
  }

  // ---------- Adding a node ----------

  predicate HasNode(ns: seq<Node>, id: string) {
    exists i :: 0 <= i < |ns| && ns[i].nodeId == id
  }

  function NewNode(q: Request, stamp: string): Node {
    Node(q.nodeId, q.agent, q.assignmentId, q.role, q.branch, q.owned, q.status, q.decisionId, q.planId, stamp)
  }

  function EdgesTo(ds: seq<string>, to: string, stamp: string): (es: seq<Edge>)
    ensures |es| == |ds| && forall k :: 0 <= k < |es| ==> es[k] == Edge(ds[k], to, stamp)
  {
    if ds == [] then [] else [Edge(ds[0], to, stamp)] + EdgesTo(ds[1..], to, stamp)
  }

  function NewEdges(q: Request, stamp: string): (es: seq<Edge>)
    ensures |es| == |Dependencies(q)|
    ensures forall k :: 0 <= k < |es| ==> es[k] == Edge(Dependencies(q)[k], q.nodeId, stamp)
  {
    EdgesTo(Dependencies(q), q.nodeId, stamp)
  }

  datatype Refusal = InvalidRequest | NodeExists | NoDependency | DependencyCycle

  // Why an addition is refused before the cycle check, if it is.
  function Objection(ns: seq<Node>, q: Request): seq<Refusal> {
    if !ValidRequest(q) then [InvalidRequest]
    else if HasNode(ns, q.nodeId) then [NodeExists]
    else if exists k :: 0 <= k < |Dependencies(q)| && !HasNode(ns, Dependencies(q)[k]) then [NoDependency]
    else []
  }

  function SetStatus(ns: seq<Node>, id: string, status: string): (r: seq<Node>)
    ensures |r| == |ns|
  {
    if ns == [] then []
    else if ns[0].nodeId == id then [ns[0].(status := status)] + ns[1..]
    else [ns[0]] + SetStatus(ns[1..], id, status)
  }

  // ---------- The invariant ----------

  predicate UniqueIds(ns: seq<Node>) {
    forall i, j :: 0 <= i < j < |ns| ==> ns[i].nodeId != ns[j].nodeId
  }

  // One node was added before the other.
  predicate Before(ns: seq<Node>, a: string, b: string) {
    exists i, j :: 0 <= i < j < |ns| && ns[i].nodeId == a && ns[j].nodeId == b
  }

  ghost predicate Sound(ns: seq<Node>, es: seq<Edge>) {
    && UniqueIds(ns)
    && (forall k :: 0 <= k < |es| ==> Before(ns, es[k].from, es[k].to))
    && (forall i :: 0 <= i < |ns| ==> CleanNode(ns[i]))
    && (forall k :: 0 <= k < |es| ==> CleanEdge(es[k]))
  }

  lemma IdClean(id: string)
    requires ValidId(id)
    ensures OneLine(id) && Free(id, '\t')
  {
  }

  lemma StatusClean(status: string)
    requires status in STATUSES
    ensures OneLine(status) && Free(status, '\t')
  {
  }

  lemma NewNodeStored(q: Request, stamp: string)
    requires ValidRequest(q) && OneLine(stamp)
    ensures RowOneLine(Row(NewNode(q, stamp)))
    ensures CleanNode(Stored(NewNode(q, stamp))) && Stored(NewNode(q, stamp)).nodeId == q.nodeId
  {
    IdClean(q.nodeId);
    StatusClean(q.status);
    StoredClean(NewNode(q, stamp));
  }

  lemma BeforeGrows(ns: seq<Node>, n: Node, a: string, b: string)
    requires Before(ns, a, b)
    ensures Before(ns + [n], a, b)
  {
    var i, j :| 0 <= i < j < |ns| && ns[i].nodeId == a && ns[j].nodeId == b;
    assert (ns + [n])[i].nodeId == a && (ns + [n])[j].nodeId == b;
  }

  lemma BeforeNew(ns: seq<Node>, n: Node, a: string)
    requires HasNode(ns, a)
    ensures Before(ns + [n], a, n.nodeId)
  {
    var i :| 0 <= i < |ns| && ns[i].nodeId == a;
    assert (ns + [n])[i].nodeId == a && (ns + [n])[|ns|].nodeId == n.nodeId;
  }

  // The new node alone, as a crash between the two table writes leaves it.
  lemma NodeKeepsSound(ns: seq<Node>, es: seq<Edge>, n: Node)
    requires Sound(ns, es) && CleanNode(n) && !HasNode(ns, n.nodeId)
    ensures Sound(ns + [n], es)
  {
    forall k | 0 <= k < |es| ensures Before(ns + [n], es[k].from, es[k].to) {
      BeforeGrows(ns, n, es[k].from, es[k].to);
    }
  }

  lemma DependencyClean(ns: seq<Node>, d: string)
    requires HasNode(ns, d) && forall i :: 0 <= i < |ns| ==> CleanNode(ns[i])
    ensures OneLine(d) && Free(d, '\t')
  {
    var i :| 0 <= i < |ns| && ns[i].nodeId == d;
    assert Row(ns[i])[0] == d;
  }

  lemma AddKeepsSound(ns: seq<Node>, es: seq<Edge>, q: Request, stamp: string)
    requires Sound(ns, es) && Objection(ns, q) == [] && OneLine(stamp) && Free(stamp, '\t')
    ensures Sound(ns + [Stored(NewNode(q, stamp))], es + NewEdges(q, stamp))
  {
    var n := Stored(NewNode(q, stamp));
    NewNodeStored(q, stamp);
    NodeKeepsSound(ns, es, n);
    IdClean(q.nodeId);
    var all := es + NewEdges(q, stamp);
    forall k | 0 <= k < |all| ensures Before(ns + [n], all[k].from, all[k].to) && CleanEdge(all[k]) {
      if k < |es| {
        assert all[k] == es[k];
      } else {
        var d := Dependencies(q)[k - |es|];
        assert all[k] == Edge(d, q.nodeId, stamp);
        BeforeNew(ns, n, d);
        DependencyClean(ns, d);
      }
    }
  }

  // ---------- No cycle ----------

  lemma {:induction false} WalkGoesForward(ns: seq<Node>, es: seq<Edge>, p: seq<Name>, k: nat, i: nat, j: nat)
    requires UniqueIds(ns) && (forall k :: 0 <= k < |es| ==> Before(ns, es[k].from, es[k].to))
    requires IsPath(es, p) && 0 < k < |p|
    requires i < |ns| && ns[i].nodeId == p[0] && j < |ns| && ns[j].nodeId == p[k]
    ensures i < j
  {
    assert HasEdge(es, p[k - 1], p[k]);
    var i', j' :| 0 <= i' < j' < |ns| && ns[i'].nodeId == p[k - 1] && ns[j'].nodeId == p[k];
    if k > 1 { WalkGoesForward(ns, es, p, k - 1, i, i'); }
  }

  lemma SoundAcyclic(ns: seq<Node>, es: seq<Edge>)
    requires UniqueIds(ns) && (forall k :: 0 <= k < |es| ==> Before(ns, es[k].from, es[k].to))
    ensures !Cyclic(es)
  {
    if Cyclic(es) {
      var v :| Reaches(es, v, v);
      var p :| Walk(es, v, v, p);
      assert HasEdge(es, p[0], p[1]);
      var i, j :| 0 <= i < j < |ns| && ns[i].nodeId == p[0] && ns[j].nodeId == p[1];
      WalkGoesForward(ns, es, p, |p| - 1, i, i);
    }
  }

  // ---------- Status changes ----------

  lemma {:induction false} SetStatusAt(ns: seq<Node>, id: string, status: string, i: nat)
    requires i < |ns| && ns[i].nodeId == id && forall j :: 0 <= j < i ==> ns[j].nodeId != id
    ensures SetStatus(ns, id, status) == ns[i := ns[i].(status := status)]
  {
    if i > 0 {
      SetStatusAt(ns[1..], id, status, i - 1);
      assert ns == [ns[0]] + ns[1..];
    }
  }

  lemma StatusKeepsClean(n: Node, status: string)
    requires CleanNode(n) && status in STATUSES
    ensures CleanNode(n.(status := status))
  {
    StatusClean(status);
    assert Row(n.(status := status)) == Row(n)[6 := status];
  }

  // Order depends only on the ids.
  lemma SameIdsBefore(ns: seq<Node>, ns': seq<Node>, a: string, b: string)
    requires |ns| == |ns'| && (forall i :: 0 <= i < |ns| ==> ns[i].nodeId == ns'[i].nodeId) && Before(ns, a, b)
    ensures Before(ns', a, b)
  {
    var i, j :| 0 <= i < j < |ns| && ns[i].nodeId == a && ns[j].nodeId == b;
    assert ns'[i].nodeId == a && ns'[j].nodeId == b;
  }

  lemma SetStatusKeepsSound(ns: seq<Node>, es: seq<Edge>, id: string, status: string, i: nat)
    requires Sound(ns, es) && status in STATUSES && i < |ns| && ns[i].nodeId == id
    ensures SetStatus(ns, id, status) == ns[i := ns[i].(status := status)]
    ensures Sound(SetStatus(ns, id, status), es)
  {
    SetStatusAt(ns, id, status, i);
    StatusKeepsClean(ns[i], status);
    var ns' := SetStatus(ns, id, status);
    forall k | 0 <= k < |es| ensures Before(ns', es[k].from, es[k].to) {
      SameIdsBefore(ns, ns', es[k].from, es[k].to);
    }
  }

  // ---------- Reachable workflows ----------

  datatype Content = Content(nodes: seq<Node>, edges: seq<Edge>)

  // An addition may be cut off between the nodes write and the edges write.
  datatype Op =
    | Add(request: Request, stamp: string, crash: bool)
    | Update(id: string, status: string)

  predicate Stamped(op: Op) {
    op.Add? ==> OneLine(op.stamp) && Free(op.stamp, '\t')
  }

  function Apply(t: Content, op: Op): Content {
    match op
    case Add(q, stamp, crash) =>
      if Objection(t.nodes, q) != [] then t
      else Content(t.nodes + [Stored(NewNode(q, stamp))], if crash then t.edges else t.edges + NewEdges(q, stamp))
    case Update(id, status) =>
      if ValidId(id) && status in STATUSES && HasNode(t.nodes, id)
      then t.(nodes := SetStatus(t.nodes, id, status)) else t
  }

  function ApplyAll(t: Content, ops: seq<Op>): Content
    decreases ops
  {
    if ops == [] then t else ApplyAll(Apply(t, ops[0]), ops[1..])
  }

  lemma ApplyKeepsSound(t: Content, op: Op)
    requires Sound(t.nodes, t.edges) && Stamped(op)
    ensures Sound(Apply(t, op).nodes, Apply(t, op).edges)
  {
    match op
    case Add(q, stamp, crash) =>
      if Objection(t.nodes, q) == [] {
        NewNodeStored(q, stamp);
        NodeKeepsSound(t.nodes, t.edges, Stored(NewNode(q, stamp)));
        AddKeepsSound(t.nodes, t.edges, q, stamp);
      }
    case Update(id, status) =>
      if ValidId(id) && status in STATUSES && HasNode(t.nodes, id) {
        var i :| 0 <= i < |t.nodes| && t.nodes[i].nodeId == id;
        SetStatusKeepsSound(t.nodes, t.edges, id, status, i);
      }
  }

  /** Every reachable workflow, interrupted additions included, has distinct node ids, edges only from
      earlier to later nodes, and no cycle. */
  lemma {:induction false} ReachableSound(t: Content, ops: seq<Op>)
    requires Sound(t.nodes, t.edges) && forall i :: 0 <= i < |ops| ==> Stamped(ops[i])
    ensures Sound(ApplyAll(t, ops).nodes, ApplyAll(t, ops).edges) && !Cyclic(ApplyAll(t, ops).edges)
    decreases ops
  {
    if ops == [] {
      SoundAcyclic(t.nodes, t.edges);
    } else {
      ApplyKeepsSound(t, ops[0]);
      ReachableSound(Apply(t, ops[0]), ops[1..]);
    }
  }

  lemma NodesReadBack(ns: seq<Node>, n: Node)
    requires (forall i :: 0 <= i < |ns| ==> CleanNode(ns[i])) && RowOneLine(Row(n))
    ensures ReadNodes(NodesText(ns + [n])) == ns + [Stored(n)]
  {
    NodesRead(ns + [n]);
    forall i | 0 <= i < |ns| ensures ReadNodes(NodesText(ns + [n]))[i] == ns[i] {
      assert (ns + [n])[i] == ns[i];
      NodeExact(ns[i]);
    }
  }

  lemma AdditionReadsBack(ns: seq<Node>, es: seq<Edge>, q: Request, stamp: string, crash: bool)
    requires Sound(ns, es) && Objection(ns, q) == [] && OneLine(stamp) && Free(stamp, '\t')
    ensures !Cyclic(es + NewEdges(q, stamp))
    ensures Apply(Content(ns, es), Add(q, stamp, crash)) == Content(
      ReadNodes(NodesText(ns + [NewNode(q, stamp)])),
      if crash then es else ReadEdges(EdgesText(es + NewEdges(q, stamp))))
  {
    AddKeepsSound(ns, es, q, stamp);
    SoundAcyclic(ns + [Stored(NewNode(q, stamp))], es + NewEdges(q, stamp));
    NewNodeStored(q, stamp);
    NodesReadBack(ns, NewNode(q, stamp));
    EdgesRoundTrip(es + NewEdges(q, stamp));
  }

  // ---------- The files ----------

  // The checks on a request, the search for a cycle last.
  method Refused(nodes: seq<Node>, edges: seq<Edge>, q: Request, stamp: string) returns (refusal: seq<Refusal>)
    requires Sound(nodes, edges) && OneLine(stamp) && Free(stamp, '\t')
    ensures refusal == Objection(nodes, q)
  {
    refusal := Objection(nodes, q);
    if refusal != [] {
      return;
    }
    AdditionReadsBack(nodes, edges, q, stamp, false);
    var cyclic := HasCycle(edges + NewEdges(q, stamp));
    if cyclic {
      return [DependencyCycle];
    }
  }

  function TextContent(nodesText: string, edgesText: string): Content {
    Content(ReadNodes(nodesText), ReadEdges(edgesText))
  }

  ghost predicate SoundContent(t: Content) {
    Sound(t.nodes, t.edges)
  }

  // Both tables afterwards; a crash between the two writes leaves the edges as they were.
  method Rewritten(nodesText: string, edgesText: string, q: Request, stamp: string, crash: bool)
    returns (nodesText': string, edgesText': string, refusal: seq<Refusal>)
    requires SoundContent(TextContent(nodesText, edgesText)) && OneLine(stamp) && Free(stamp, '\t')
    ensures SoundContent(TextContent(nodesText', edgesText'))
    ensures TextContent(nodesText', edgesText') == Apply(TextContent(nodesText, edgesText), Add(q, stamp, crash))
    ensures refusal == Objection(TextContent(nodesText, edgesText).nodes, q)
    ensures refusal != [] ==> nodesText' == nodesText && edgesText' == edgesText
  {
    nodesText', edgesText' := nodesText, edgesText;
    var nodes, edges := ReadNodes(nodesText), ReadEdges(edgesText);
    ApplyKeepsSound(Content(nodes, edges), Add(q, stamp, crash));
    refusal := Refused(nodes, edges, q, stamp);
    if refusal != [] {
      return;
    }
    AdditionReadsBack(nodes, edges, q, stamp, crash);
    nodesText' := NodesText(nodes + [NewNode(q, stamp)]);
    if !crash {
      edgesText' := EdgesText(edges + NewEdges(q, stamp));
    }
  }

  class WorkflowFiles {
    var nodesFile: string
    var edgesFile: string

    ghost function Contents(): Content
      reads this
    {
      TextContent(nodesFile, edgesFile)
    }

    ghost predicate Valid()
      reads this
    {
      SoundContent(Contents())
    }

    constructor ()
      ensures Valid() && Contents() == Content([], [])
    {
      nodesFile, edgesFile := NodesText([]), EdgesText([]);
      new;
      NodesRoundTrip([]);
      EdgesRoundTrip([]);
    }

    method Replace(nodes: string, edges: string)
      modifies this
      ensures Contents() == TextContent(nodes, edges) && nodesFile == nodes && edgesFile == edges
    {
      nodesFile, edgesFile := nodes, edges;
    }

    /** Adding a node rewrites both tables; what is read back is the old content with the node and its
        edges. The cycle rejection never fires. */
    method AddNode(q: Request, stamp: string, crash: bool) returns (refusal: seq<Refusal>)
      requires Valid() && OneLine(stamp) && Free(stamp, '\t')
      modifies this
      ensures Valid()
      ensures Contents() == Apply(old(Contents()), Add(q, stamp, crash))
      ensures refusal == Objection(old(Contents()).nodes, q)
      ensures refusal != [] ==> nodesFile == old(nodesFile) && edgesFile == old(edgesFile)
    {
      var nodes, edges;
      nodes, edges, refusal := Rewritten(nodesFile, edgesFile, q, stamp, crash);
      Replace(nodes, edges);
    }

    method UpdateStatus(id: string, status: string) returns (ok: bool)
      requires Valid()
      modifies this
      ensures Valid() && Contents() == Apply(old(Contents()), Update(id, status))
      ensures ok <==> ValidId(id) && status in STATUSES && HasNode(old(Contents()).nodes, id)
    {
      ApplyKeepsSound(Contents(), Update(id, status));
      var nodes := ReadNodes(nodesFile);
      if !ValidId(id) || status !in STATUSES || !HasNode(nodes, id) {
        return false;
      }
      nodes := SetStatus(nodes, id, status);
      NodesRoundTrip(nodes);
      nodesFile := NodesText(nodes);
      return true;
    }
  }

  // ---------- A field with a tab ----------

  const TABBED: Request := Request("n", "a\tb", "x", "qa", "main", "src", "", "pending", "", "")

  lemma TabbedAccepted()
    ensures Objection([], TABBED) == []
  {
    assert ValidRequest(TABBED);
    assert Split("", ',') == [""];
    assert Dependencies(TABBED) == [];
  }

  /** A request whose agent contains a tab is accepted, and its node reads back as another one. */
  lemma TabbedAgent(stamp: string)
    ensures Objection([], TABBED) == []
    ensures Apply(Content([], []), Add(TABBED, stamp, false)).nodes == [Stored(NewNode(TABBED, stamp))]
    ensures Stored(NewNode(TABBED, stamp)) != NewNode(TABBED, stamp)
  {
    TabbedAccepted();
    var n := NewNode(TABBED, stamp);
    NodeExact(n);
    assert Row(n)[1] == "a\tb" && "a\tb"[1] == '\t';
  }
}
