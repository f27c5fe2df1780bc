/** What adding a node does: one row with the requested fields, and one edge for each dependency named. */
module Additions {
  import opened Graph
  import opened Tables
  import opened Workflow
  import opened Dag

  // ---------- The dependencies of a request ----------

  // The words between commas.
  function Words(q: Request): seq<string> {
    Split(q.dependsOn, ',')
  }

  predicate WordAt(clean: string -> string, words: seq<string>, i: int, d: string) {
    0 <= i < |words| && clean(words[i]) == d && d != ""
  }

  predicate Increasing(at: seq<int>) {
    forall j, k :: 0 <= j < k < |at| ==> at[j] < at[k]
  }

  // Where the named dependencies stand among the words: all that are not blank, in order.
  ghost predicate Placed(clean: string -> string, words: seq<string>, ds: seq<string>, at: seq<int>) {
    && |at| == |ds| && Increasing(at)
    && (forall k :: 0 <= k < |at| ==> WordAt(clean, words, at[k], ds[k]))
    && (forall i, d :: WordAt(clean, words, i, d) ==> i in at)
  }

  lemma {:induction false} TrimmedSnoc(words: seq<string>, w: string)
    ensures NonEmptyTrimmed(words + [w]) == NonEmptyTrimmed(words) + if Trim(w) == "" then [] else [Trim(w)]
  {
    if words == [] {
      assert [w][1..] == [];
    } else {
      assert (words + [w])[1..] == words[1..] + [w];
      TrimmedSnoc(words[1..], w);
    }
  }

  lemma WordSnoc(clean: string -> string, words: seq<string>, w: string, i: int, d: string)
    ensures WordAt(clean, words + [w], i, d) <==>
      WordAt(clean, words, i, d) || (i == |words| && clean(w) == d && d != "")
  {
    if 0 <= i < |words| { assert (words + [w])[i] == words[i]; }
  }

  lemma PlacedBlank(clean: string -> string, words: seq<string>, ds: seq<string>, at: seq<int>, w: string)
    requires Placed(clean, words, ds, at) && clean(w) == ""
    ensures Placed(clean, words + [w], ds, at)
  {
    forall i, d ensures WordAt(clean, words + [w], i, d) <==> WordAt(clean, words, i, d) {
      WordSnoc(clean, words, w, i, d);
    }
  }

  lemma PlacedWord(clean: string -> string, words: seq<string>, ds: seq<string>, at: seq<int>, w: string)
    requires Placed(clean, words, ds, at) && clean(w) != ""
    ensures Placed(clean, words + [w], ds + [clean(w)], at + [|words|])
  {
    var at', ds' := at + [|words|], ds + [clean(w)];
    forall k | 0 <= k < |at'| ensures WordAt(clean, words + [w], at'[k], ds'[k]) {
      WordSnoc(clean, words, w, at'[k], ds'[k]);
    }
    forall k | 0 <= k < |at| ensures at[k] < |words| { assert WordAt(clean, words, at[k], ds[k]); }
    forall i, d | WordAt(clean, words + [w], i, d) ensures i in at' { WordSnoc(clean, words, w, i, d); }
  }

  lemma {:induction false} DependenciesPlaced(words: seq<string>) returns (at: seq<int>)
    ensures Placed(Trim, words, NonEmptyTrimmed(words), at)
  {
    at := [];
    if words != [] {
      var before, w := words[..|words| - 1], words[|words| - 1];
      assert before + [w] == words;
      at := DependenciesPlaced(before);
      TrimmedSnoc(before, w);
      if Trim(w) == "" {
        PlacedBlank(Trim, before, NonEmptyTrimmed(before), at, w);
      } else {
        PlacedWord(Trim, before, NonEmptyTrimmed(before), at, w);
        at := at + [|before|];
      }
    }
  }

  // Some word between commas names this dependency.
  predicate Names(q: Request, d: string) {
    d != "" && exists i :: 0 <= i < |Words(q)| && Trim(Words(q)[i]) == d
  }

  lemma NamedDependency(q: Request, d: string)
    requires Names(q, d)
    ensures d in Dependencies(q)
  {
    var at := DependenciesPlaced(Words(q));
    var i :| 0 <= i < |Words(q)| && Trim(Words(q)[i]) == d;
    assert WordAt(Trim, Words(q), i, d);
    var k :| 0 <= k < |at| && at[k] == i;
    assert WordAt(Trim, Words(q), at[k], Dependencies(q)[k]);
    assert Dependencies(q)[k] == d;
  }

  lemma DependencyNamed(q: Request, d: string)
    ensures d in Dependencies(q) <==> Names(q, d)
  {
    if Names(q, d) {
      NamedDependency(q, d);
    } else {
      var at := DependenciesPlaced(Words(q));
    }
  }

  // ---------- One addition ----------

  // The row as it was asked for.
  predicate AsRequested(n: Node, q: Request, stamp: string) {
    && n.nodeId == q.nodeId && n.agent == q.agent && n.assignmentId == q.assignmentId && n.role == q.role
    && n.branch == q.branch && n.ownedPaths == q.owned && n.status == q.status && n.decisionId == q.decisionId
    && n.planId == q.planId && n.addedAt == stamp
  }

  // No field of the request would be read as two.
  predicate Untabbed(q: Request) {
    && Free(q.agent, '\t') && Free(q.assignmentId, '\t') && Free(q.role, '\t') && Free(q.branch, '\t')
    && Free(q.owned, '\t') && Free(q.decisionId, '\t') && Free(q.planId, '\t')
  }

  lemma StoredAsRequested(q: Request, stamp: string)
    requires ValidRequest(q) && Untabbed(q) && Free(stamp, '\t')
    ensures AsRequested(Stored(NewNode(q, stamp)), q, stamp)
  {
    IdClean(q.nodeId);
    StatusClean(q.status);
    NodeExact(NewNode(q, stamp));
  }

  lemma RoleOneLine(role: string)
    requires role in ROLES
    ensures role != "" && OneLine(role)
  {
  }

  // No field holds a line break.
  predicate SingleLined(fields: seq<string>) {
    forall k :: 0 <= k < |fields| ==> '\n' !in fields[k] && '\r' !in fields[k]
  }

  predicate WellFormed(q: Request) {
    && q.nodeId != "" && (forall i :: 0 <= i < |q.nodeId| ==> IdChar(q.nodeId[i]))
    && q.agent != "" && q.assignmentId != "" && q.branch != "" && q.owned != ""
    && q.role in {"exploitation", "exploration", "reflection", "architecture", "qa", "verifier", "scout"}
    && q.status in {"pending", "ready", "running", "blocked", "done", "failed", "skipped"}
    && SingleLined([q.agent, q.assignmentId, q.branch, q.owned, q.dependsOn, q.decisionId, q.planId])
  }

  lemma ValidExactly(q: Request)
    ensures ValidRequest(q) <==> WellFormed(q)
  {
    var fields := [q.agent, q.assignmentId, q.branch, q.owned, q.dependsOn, q.decisionId, q.planId];
    assert fields[0] == q.agent && fields[1] == q.assignmentId && fields[2] == q.branch && fields[3] == q.owned;
    assert fields[4] == q.dependsOn && fields[5] == q.decisionId && fields[6] == q.planId;
    assert forall k :: 0 <= k < |fields| ==> (OneLine(fields[k]) <==> '\n' !in fields[k] && '\r' !in fields[k]);
    if q.role in ROLES { RoleOneLine(q.role); }
  }

  /** An addition is accepted exactly when its fields are well formed, no row has its id, and every dependency it
      names has a row. */
  lemma AcceptedExactly(ns: seq<Node>, q: Request)
    ensures Objection(ns, q) == [] <==>
      && WellFormed(q)
      && (forall i :: 0 <= i < |ns| ==> ns[i].nodeId != q.nodeId)
      && (forall d :: Names(q, d) ==> exists i :: 0 <= i < |ns| && ns[i].nodeId == d)
  {
    ValidExactly(q);
    forall d ensures d in Dependencies(q) <==> Names(q, d) { DependencyNamed(q, d); }
    forall d ensures HasNode(ns, d) <==> exists i :: 0 <= i < |ns| && ns[i].nodeId == d { }
    if Objection(ns, q) == [NoDependency] {
      var k :| 0 <= k < |Dependencies(q)| && !HasNode(ns, Dependencies(q)[k]);
      assert Names(q, Dependencies(q)[k]);
    } else if Objection(ns, q) == [] {
      forall d | Names(q, d) ensures HasNode(ns, d) {
        var k :| 0 <= k < |Dependencies(q)| && Dependencies(q)[k] == d;
      }
    }
  }

  // ---------- Edges into a node ----------

  lemma EdgeHasTarget(ns: seq<Node>, es: seq<Edge>, d: string, id: string)
    requires Sound(ns, es) && HasEdge(es, d, id)
    ensures HasNode(ns, id)
  {
    var k :| 0 <= k < |es| && es[k].from == d && es[k].to == id;
    assert Before(ns, es[k].from, es[k].to);
  }

  lemma EdgesAdded(es: seq<Edge>, q: Request, stamp: string, d: string, id: string)
    ensures HasEdge(es + NewEdges(q, stamp), d, id) <==> HasEdge(es, d, id) || (id == q.nodeId && d in Dependencies(q))
  {
    var added := NewEdges(q, stamp);
    var all := es + added;
    if HasEdge(all, d, id) {
      var k :| 0 <= k < |all| && all[k].from == d && all[k].to == id;
      if k < |es| { assert es[k] == all[k]; } else { assert all[k] == added[k - |es|]; }
    }
    if HasEdge(es, d, id) {
      var k :| 0 <= k < |es| && es[k].from == d && es[k].to == id;
      assert all[k] == es[k];
    }
    if id == q.nodeId && d in Dependencies(q) {
      var k :| 0 <= k < |Dependencies(q)| && Dependencies(q)[k] == d;
      assert all[|es| + k] == added[k];
    }
  }

  /** An accepted addition that is not interrupted adds one row, with the requested fields where no tab splits
      them, and edges into the new row from exactly the dependencies the request names. */
  lemma AddedExactly(t: Content, q: Request, stamp: string)
    requires Sound(t.nodes, t.edges) && Objection(t.nodes, q) == [] && OneLine(stamp) && Free(stamp, '\t')
    ensures var t' := Apply(t, Add(q, stamp, false));
      && |t'.nodes| == |t.nodes| + 1 && t'.nodes[..|t.nodes|] == t.nodes
      && (Untabbed(q) ==> AsRequested(t'.nodes[|t.nodes|], q, stamp))
      && t'.nodes[|t.nodes|].nodeId == q.nodeId
      && t.edges <= t'.edges
      && forall d :: HasEdge(t'.edges, d, q.nodeId) <==> Names(q, d)
  {
    NewNodeStored(q, stamp);
    if Untabbed(q) { StoredAsRequested(q, stamp); }
    var t' := Apply(t, Add(q, stamp, false));
    forall d ensures HasEdge(t'.edges, d, q.nodeId) <==> Names(q, d) {
      EdgesAdded(t.edges, q, stamp, d, q.nodeId);
      if HasEdge(t.edges, d, q.nodeId) { EdgeHasTarget(t.nodes, t.edges, d, q.nodeId); }
      DependencyNamed(q, d);
    }
  }

  lemma StepEdges(t: Content, op: Op, id: string, d: string)
    requires HasNode(t.nodes, id)
    ensures HasEdge(Apply(t, op).edges, d, id) <==> HasEdge(t.edges, d, id)
  {
    if op.Add? && Objection(t.nodes, op.request) == [] { EdgesAdded(t.edges, op.request, op.stamp, d, id); }
  }

  lemma StepHasNode(t: Content, op: Op, id: string)
    requires Sound(t.nodes, t.edges) && HasNode(t.nodes, id) && Stamped(op)
    ensures HasNode(Apply(t, op).nodes, id)
  {
    var i :| 0 <= i < |t.nodes| && t.nodes[i].nodeId == id;
    match op
    case Add(q, stamp, crash) =>
      if Objection(t.nodes, q) == [] { assert Apply(t, op).nodes[i].nodeId == id; }
    case Update(other, status) =>
      if ValidId(other) && status in STATUSES && HasNode(t.nodes, other) {
        var j :| 0 <= j < |t.nodes| && t.nodes[j].nodeId == other;
        SetStatusKeepsSound(t.nodes, t.edges, other, status, j);
        assert Apply(t, op).nodes[i].nodeId == id;
      }
  }

  lemma {:induction false} EdgesStay(t: Content, ops: seq<Op>, id: string, d: string)
    requires Sound(t.nodes, t.edges) && HasNode(t.nodes, id) && forall i :: 0 <= i < |ops| ==> Stamped(ops[i])
    ensures HasEdge(ApplyAll(t, ops).edges, d, id) <==> HasEdge(t.edges, d, id)
    decreases ops
  {
    if ops != [] {
      ApplyKeepsSound(t, ops[0]);
      StepHasNode(t, ops[0], id);
      StepEdges(t, ops[0], id, d);
      EdgesStay(Apply(t, ops[0]), ops[1..], id, d);
    }
  }

  // The node is there and depends on exactly what the request names.
  ghost predicate Rooted(t: Content, q: Request, d: string) {
    Sound(t.nodes, t.edges) && HasNode(t.nodes, q.nodeId) && (HasEdge(t.edges, d, q.nodeId) <==> Names(q, d))
  }

  lemma AddedNode(t: Content, q: Request, stamp: string, d: string)
    requires Sound(t.nodes, t.edges) && Objection(t.nodes, q) == [] && OneLine(stamp) && Free(stamp, '\t')
    ensures Rooted(Apply(t, Add(q, stamp, false)), q, d)
  {
    ApplyKeepsSound(t, Add(q, stamp, false));
    AddedExactly(t, q, stamp);
    assert Apply(t, Add(q, stamp, false)).nodes[|t.nodes|].nodeId == q.nodeId;
  }

  lemma RootedStays(t: Content, q: Request, ops: seq<Op>, d: string)
    requires Rooted(t, q, d) && forall i :: 0 <= i < |ops| ==> Stamped(ops[i])
    ensures HasEdge(ApplyAll(t, ops).edges, d, q.nodeId) <==> Names(q, d)
  {
    EdgesStay(t, ops, q.nodeId, d);
  }

  /** Whatever is added or updated afterwards, a node depends on exactly what its own addition named. */
  lemma DependenciesStay(t: Content, q: Request, stamp: string, ops: seq<Op>, d: string)
    requires Sound(t.nodes, t.edges) && Objection(t.nodes, q) == [] && OneLine(stamp) && Free(stamp, '\t')
    requires forall i :: 0 <= i < |ops| ==> Stamped(ops[i])
    ensures HasEdge(ApplyAll(Apply(t, Add(q, stamp, false)), ops).edges, d, q.nodeId) <==> Names(q, d)
  {
    AddedNode(t, q, stamp, d);
    RootedStays(Apply(t, Add(q, stamp, false)), q, ops, d);
  }
}
