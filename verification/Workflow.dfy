/** Workflow graphs kept in two text tables, and the operations that rewrite them. */
module Workflow {
  import opened Graph
  import opened Tables

  const NODE_HEADER: string :=
    "node_id\tagent\tassignment_id\trole" + "\tbranch\towned_paths\tstatus" + "\tdecision_id\tplan_id\tadded_at"
  const EDGE_HEADER: string := "from_node\tto_node\tadded_at"

  const STATUSES: set<string> := {"pending", "ready", "running", "blocked", "done", "failed", "skipped"}
  const ROLES: set<string> := {"exploitation", "exploration", "reflection", "architecture", "qa", "verifier", "scout"}

  datatype Node = Node(
    nodeId: string, agent: string, assignmentId: string, role: string, branch: string,
    ownedPaths: string, status: string, decisionId: string, planId: string, addedAt: string)

  // ---------- Rows ----------

  function Row(n: Node): (fs: seq<string>)
    ensures |fs| == 10
  {
    [n.nodeId, n.agent, n.assignmentId, n.role, n.branch, n.ownedPaths, n.status, n.decisionId, n.planId, n.addedAt]
  }

  function FromRow(fs: seq<string>): Node
    requires |fs| == 10
  {
    Node(fs[0], fs[1], fs[2], fs[3], fs[4], fs[5], fs[6], fs[7], fs[8], fs[9])
  }

  function NodeLine(n: Node): string {
    Join(Row(n), '\t')
  }

  function ParseNode(line: string): Node {
    FromRow(Fields(line, 10))
  }

  function EdgeLine(e: Edge): string {
    Join([e.from, e.to, e.addedAt], '\t')
  }

  function ParseEdge(line: string): seq<Edge> {
    var parts := Split(line, '\t');
    if |parts| < 2 then [] else [Edge(parts[0], parts[1], if |parts| > 2 then parts[2] else "")]
  }

  /** A node row reads back as written exactly when none of its fields contains a tab. */
  lemma NodeExact(n: Node)
    ensures ParseNode(NodeLine(n)) == n <==> TabFree(Row(n))
  {
    RowExact(Row(n));
    var fs := Fields(NodeLine(n), 10);
    if ParseNode(NodeLine(n)) == n {
      forall i | 0 <= i < 10 ensures fs[i] == Row(n)[i] { assert Row(FromRow(fs))[i] == fs[i]; }
      assert fs == Row(n);
    }
  }

  // ---------- Tables ----------

  function NodeLines(ns: seq<Node>): (rows: seq<string>)
    ensures |rows| == |ns| && forall i :: 0 <= i < |ns| ==> rows[i] == NodeLine(ns[i])
  {
    if ns == [] then [] else [NodeLine(ns[0])] + NodeLines(ns[1..])
  }

  function EdgeLines(es: seq<Edge>): (rows: seq<string>)
    ensures |rows| == |es| && forall i :: 0 <= i < |es| ==> rows[i] == EdgeLine(es[i])
  {
    if es == [] then [] else [EdgeLine(es[0])] + EdgeLines(es[1..])
  }

  function ParseNodes(rows: seq<string>): (ns: seq<Node>)
    ensures |ns| == |rows| && forall i :: 0 <= i < |ns| ==> ns[i] == ParseNode(rows[i])
  {
    if rows == [] then [] else [ParseNode(rows[0])] + ParseNodes(rows[1..])
  }

  function ParseEdges(rows: seq<string>): seq<Edge> {
    if rows == [] then [] else ParseEdge(rows[0]) + ParseEdges(rows[1..])
  }

  function NodesText(ns: seq<Node>): string { Text([NODE_HEADER] + NodeLines(ns)) }
  function EdgesText(es: seq<Edge>): string { Text([EDGE_HEADER] + EdgeLines(es)) }

  function SkipHeader(rows: seq<string>): seq<string> { if rows == [] then [] else rows[1..] }

  function ReadNodes(text: string): seq<Node> { ParseNodes(SkipHeader(Lines(text))) }
  function ReadEdges(text: string): seq<Edge> { ParseEdges(SkipHeader(Lines(text))) }

  predicate RowOneLine(fs: seq<string>) {
    forall i :: 0 <= i < |fs| ==> OneLine(fs[i])
  }

  predicate CleanNode(n: Node) { RowOneLine(Row(n)) && TabFree(Row(n)) }

  predicate CleanEdge(e: Edge) {
    RowOneLine([e.from, e.to, e.addedAt]) && TabFree([e.from, e.to, e.addedAt])
  }

  lemma HeadersOneLine()
    ensures OneLine(NODE_HEADER) && OneLine(EDGE_HEADER)
  {
    assert OneLine("node_id\tagent\tassignment_id\trole");
    assert OneLine("\tbranch\towned_paths\tstatus");
    assert OneLine("\tdecision_id\tplan_id\tadded_at");
  }

  /** Rows without line breaks come back one by one, each as its own line reads. */
  lemma NodesRead(ns: seq<Node>)
    requires forall i :: 0 <= i < |ns| ==> RowOneLine(Row(ns[i]))
    ensures |ReadNodes(NodesText(ns))| == |ns|
    ensures forall i :: 0 <= i < |ns| ==> ReadNodes(NodesText(ns))[i] == ParseNode(NodeLine(ns[i]))
  {
    HeadersOneLine();
    forall i | 0 <= i < |ns| ensures OneLine(NodeLines(ns)[i]) { JoinedOneLine(Row(ns[i])); }
    LinesText([NODE_HEADER] + NodeLines(ns));
    assert SkipHeader([NODE_HEADER] + NodeLines(ns)) == NodeLines(ns);
  }

  /** A table of clean rows is read back exactly. */
  lemma NodesRoundTrip(ns: seq<Node>)
    requires forall i :: 0 <= i < |ns| ==> CleanNode(ns[i])
    ensures ReadNodes(NodesText(ns)) == ns
  {
    NodesRead(ns);
    forall i | 0 <= i < |ns| ensures ReadNodes(NodesText(ns))[i] == ns[i] { NodeExact(ns[i]); }
  }

  lemma EdgeRoundTrip(e: Edge)
    requires CleanEdge(e)
    ensures ParseEdge(EdgeLine(e)) == [e] && OneLine(EdgeLine(e))
  {
    SplitJoin([e.from, e.to, e.addedAt], '\t');
    JoinedOneLine([e.from, e.to, e.addedAt]);
  }

  lemma {:induction false} EdgesParse(es: seq<Edge>)
    requires forall i :: 0 <= i < |es| ==> CleanEdge(es[i])
    ensures ParseEdges(EdgeLines(es)) == es
  {
    if es != [] {
      EdgeRoundTrip(es[0]);
      EdgesParse(es[1..]);
      assert EdgeLines(es)[1..] == EdgeLines(es[1..]);
      assert [es[0]] + es[1..] == es;
    }
  }

  lemma EdgesRoundTrip(es: seq<Edge>)
    requires forall i :: 0 <= i < |es| ==> CleanEdge(es[i])
    ensures ReadEdges(EdgesText(es)) == es
  {
    HeadersOneLine();
    forall i | 0 <= i < |es| ensures OneLine(EdgeLines(es)[i]) { EdgeRoundTrip(es[i]); }
    LinesText([EDGE_HEADER] + EdgeLines(es));
    assert SkipHeader([EDGE_HEADER] + EdgeLines(es)) == EdgeLines(es);
    EdgesParse(es);
  }

  // What a row turns into once it has been through the file.
  function Stored(n: Node): Node {
    ParseNode(NodeLine(n))
  }

  lemma StoredClean(n: Node)
    requires RowOneLine(Row(n))
    ensures CleanNode(Stored(n))
    ensures Free(n.nodeId, '\t') ==> Stored(n).nodeId == n.nodeId
  {
    JoinedOneLine(Row(n));
    SplitOneLine(NodeLine(n), '\t');
    var fs := Fields(NodeLine(n), 10);
    assert Row(Stored(n)) == fs;
    if Free(n.nodeId, '\t') { FirstField(Row(n), 10); }
  }
}
