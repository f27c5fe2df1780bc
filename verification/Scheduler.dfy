/** Which nodes are ready, and why a workflow can always be driven to its end. */
module Scheduler {
  import opened Graph
  import opened Workflow
  import opened Dag

  datatype Found = Missing | Status(value: string)

  // The status a lookup by id gives: the last row with that id.
  function StatusOf(ns: seq<Node>, id: string): Found {
    if ns == [] then Missing
    else if ns[|ns| - 1].nodeId == id then Status(ns[|ns| - 1].status)
    else StatusOf(ns[..|ns| - 1], id)
  }

  predicate Settled(f: Found) {
    f == Status("done") || f == Status("skipped")
  }

  predicate Listed(ns: seq<Node>, es: seq<Edge>, n: Node) {
    n.status == "ready" ||
    (n.status == "pending" && forall k :: 0 <= k < |es| && es[k].to == n.nodeId ==> Settled(StatusOf(ns, es[k].from)))
  }

  // The ids of the listed rows, in table order.
  function ReadyList(ns: seq<Node>, es: seq<Edge>, rows: seq<Node>): seq<string> {
    if rows == [] then []
    else
      var last := rows[|rows| - 1];
      ReadyList(ns, es, rows[..|rows| - 1]) + (if Listed(ns, es, last) then [last.nodeId] else [])
  }

  // ---------- Lookups in a table with distinct ids ----------

  lemma {:induction false} StatusAt(ns: seq<Node>, i: nat)
    requires UniqueIds(ns) && i < |ns|
    ensures StatusOf(ns, ns[i].nodeId) == Status(ns[i].status)
  {
    if i < |ns| - 1 { StatusAt(ns[..|ns| - 1], i); }
  }

  lemma {:induction false} ReadyMember(ns: seq<Node>, es: seq<Edge>, rows: seq<Node>, i: nat)
    requires i < |rows| && Listed(ns, es, rows[i])
    ensures rows[i].nodeId in ReadyList(ns, es, rows)
  {
    if i < |rows| - 1 { ReadyMember(ns, es, rows[..|rows| - 1], i); }
  }

  lemma {:induction false} ReadyIndex(ns: seq<Node>, es: seq<Edge>, rows: seq<Node>, id: string) returns (i: nat)
    requires id in ReadyList(ns, es, rows)
    ensures i < |rows| && rows[i].nodeId == id && Listed(ns, es, rows[i])
  {
    var last := |rows| - 1;
    if id in ReadyList(ns, es, rows[..last]) {
      i := ReadyIndex(ns, es, rows[..last], id);
    } else {
      i := last;
    }
  }

  // The row an edge comes from has been finished or skipped.
  predicate SourceFinished(ns: seq<Node>, e: Edge) {
    exists a :: 0 <= a < |ns| && ns[a].nodeId == e.from && (ns[a].status == "done" || ns[a].status == "skipped")
  }

  // Marked ready, or waiting with every edge into it from a finished or skipped row.
  predicate Runnable(ns: seq<Node>, es: seq<Edge>, n: Node) {
    || n.status == "ready"
    || (n.status == "pending" && forall k :: 0 <= k < |es| && es[k].to == n.nodeId ==> SourceFinished(ns, es[k]))
  }

  lemma {:induction false} StatusRow(ns: seq<Node>, id: string) returns (a: nat)
    requires StatusOf(ns, id).Status?
    ensures a < |ns| && ns[a].nodeId == id && StatusOf(ns, id) == Status(ns[a].status)
  {
    a := |ns| - 1;
    if ns[a].nodeId != id { a := StatusRow(ns[..|ns| - 1], id); }
  }

  lemma SettledSource(ns: seq<Node>, e: Edge)
    requires UniqueIds(ns)
    ensures Settled(StatusOf(ns, e.from)) <==> SourceFinished(ns, e)
  {
    if SourceFinished(ns, e) {
      var a :| 0 <= a < |ns| && ns[a].nodeId == e.from && (ns[a].status == "done" || ns[a].status == "skipped");
      StatusAt(ns, a);
    } else if StatusOf(ns, e.from).Status? {
      var a := StatusRow(ns, e.from);
    }
  }

  lemma ListedRunnable(ns: seq<Node>, es: seq<Edge>, n: Node)
    requires UniqueIds(ns)
    ensures Listed(ns, es, n) <==> Runnable(ns, es, n)
  {
    forall k | 0 <= k < |es| ensures Settled(StatusOf(ns, es[k].from)) <==> SourceFinished(ns, es[k]) {
      SettledSource(ns, es[k]);
    }
  }

  predicate RowAt(ns: seq<Node>, i: int, id: string) {
    0 <= i < |ns| && ns[i].nodeId == id
  }

  predicate HasRow(ns: seq<Node>, id: string) {
    exists i :: 0 <= i < |ns| && RowAt(ns, i, id)
  }

  // Each listed id belongs to a row, and the rows stand in table order.
  ghost predicate InTableOrder(ns: seq<Node>, listed: seq<string>) {
    && (forall p :: 0 <= p < |listed| ==> HasRow(ns, listed[p]))
    && (forall p, q, i, j :: 0 <= p < q < |listed| && RowAt(ns, i, listed[p]) && RowAt(ns, j, listed[q]) ==> i < j)
  }

  lemma {:induction false} ReadyOrder(ns: seq<Node>, es: seq<Edge>, rows: seq<Node>)
    requires UniqueIds(rows)
    ensures InTableOrder(rows, ReadyList(ns, es, rows))
  {
    if rows != [] {
      var n := |rows| - 1;
      var before, listed := ReadyList(ns, es, rows[..n]), ReadyList(ns, es, rows);
      ReadyOrder(ns, es, rows[..n]);
      forall p | 0 <= p < |listed| ensures HasRow(rows, listed[p]) {
        if p < |before| {
          assert HasRow(rows[..n], before[p]);
          var i :| 0 <= i < n && RowAt(rows[..n], i, before[p]);
          assert RowAt(rows, i, listed[p]);
        } else {
          assert RowAt(rows, n, listed[p]);
        }
      }
      forall p, q, i, j | 0 <= p < q < |listed| && RowAt(rows, i, listed[p]) && RowAt(rows, j, listed[q])
        ensures i < j
      {
        assert HasRow(rows[..n], before[p]);
        var k :| 0 <= k < n && RowAt(rows[..n], k, before[p]);
        assert i == k;
        if q < |before| {
          assert HasRow(rows[..n], before[q]);
          var m :| 0 <= m < n && RowAt(rows[..n], m, before[q]);
          assert j == m;
        }
      }
    }
  }

  /** In a table with distinct ids, a row is listed exactly when it is marked ready, or waits and every edge into
      it comes from a row that is done or skipped; the list follows the table. */
  lemma ReadyExact(ns: seq<Node>, es: seq<Edge>)
    requires UniqueIds(ns)
    ensures forall i :: 0 <= i < |ns| ==> (ns[i].nodeId in ReadyList(ns, es, ns) <==> Runnable(ns, es, ns[i]))
    ensures InTableOrder(ns, ReadyList(ns, es, ns))
  {
    ReadyOrder(ns, es, ns);
    forall i | 0 <= i < |ns| ensures ns[i].nodeId in ReadyList(ns, es, ns) <==> Runnable(ns, es, ns[i]) {
      ListedRunnable(ns, es, ns[i]);
      if ns[i].nodeId in ReadyList(ns, es, ns) {
        var j := ReadyIndex(ns, es, ns, ns[i].nodeId);
      } else if Runnable(ns, es, ns[i]) {
        ReadyMember(ns, es, ns, i);
      }
    }
  }

  /** The report lists exactly the rows that can run, in table order. */
  method Ready(ns: seq<Node>, es: seq<Edge>) returns (listed: seq<string>)
    ensures listed == ReadyList(ns, es, ns)
    ensures UniqueIds(ns) ==>
      && (forall i :: 0 <= i < |ns| ==> (ns[i].nodeId in listed <==> Runnable(ns, es, ns[i])))
      && InTableOrder(ns, listed)
  {
    if UniqueIds(ns) { ReadyExact(ns, es); }
    var statuses: map<string, string> := map[];
    for i := 0 to |ns|
      invariant forall id :: StatusOf(ns[..i], id) == if id in statuses then Status(statuses[id]) else Missing
    {
      assert ns[..i + 1][..i] == ns[..i];
      statuses := statuses[ns[i].nodeId := ns[i].status];
    }
    assert ns[..|ns|] == ns;
    listed := [];
    for i := 0 to |ns|
      invariant listed == ReadyList(ns, es, ns[..i])
    {
      assert ns[..i + 1][..i] == ns[..i];
      var node := ns[i];
      if node.status == "ready" {
        listed := listed + [node.nodeId];
      } else if node.status == "pending" {
        var all := true;
        for k := 0 to |es|
          invariant all <==> forall j :: 0 <= j < k && es[j].to == node.nodeId ==> Settled(StatusOf(ns, es[j].from))
        {
          if es[k].to == node.nodeId {
            var from := es[k].from;
            all := all && from in statuses && (statuses[from] == "done" || statuses[from] == "skipped");
          }
        }
        if all {
          listed := listed + [node.nodeId];
        }
      }
    }
  }

  // ---------- Progress ----------

  // Only waiting and finished nodes: nothing running, blocked, failed or marked ready.
  predicate Calm(ns: seq<Node>) {
    forall i :: 0 <= i < |ns| ==> ns[i].status == "pending" || ns[i].status == "done" || ns[i].status == "skipped"
  }

  function Pending(ns: seq<Node>): nat {
    if ns == [] then 0 else Pending(ns[1..]) + if ns[0].status == "pending" then 1 else 0
  }

  lemma {:induction false} FirstPending(ns: seq<Node>) returns (i: nat)
    requires Pending(ns) > 0
    ensures i < |ns| && ns[i].status == "pending" && forall j :: 0 <= j < i ==> ns[j].status != "pending"
  {
    if ns[0].status == "pending" {
      i := 0;
    } else {
      i := FirstPending(ns[1..]);
      i := i + 1;
    }
  }

  /** In every sound, calm workflow with something left to do, the report lists a pending node. */
  lemma Progress(ns: seq<Node>, es: seq<Edge>) returns (i: nat)
    requires Sound(ns, es) && Calm(ns) && Pending(ns) > 0
    ensures i < |ns| && ns[i].status == "pending" && ns[i].nodeId in ReadyList(ns, es, ns)
  {
    i := FirstPending(ns);
    forall k | 0 <= k < |es| && es[k].to == ns[i].nodeId ensures Settled(StatusOf(ns, es[k].from)) {
      var a, b :| 0 <= a < b < |ns| && ns[a].nodeId == es[k].from && ns[b].nodeId == es[k].to;
      assert b == i;
      StatusAt(ns, a);
    }
    ReadyMember(ns, es, ns, i);
  }

  lemma {:induction false} PendingDrops(ns: seq<Node>, i: nat)
    requires i < |ns| && ns[i].status == "pending"
    ensures Pending(ns[i := ns[i].(status := "done")]) == Pending(ns) - 1
  {
    var ns' := ns[i := ns[i].(status := "done")];
    if i > 0 {
      PendingDrops(ns[1..], i - 1);
      assert ns'[1..] == ns[1..][i - 1 := ns[i].(status := "done")];
    } else {
      assert ns'[1..] == ns[1..];
    }
  }

  lemma FinishOne(ns: seq<Node>, es: seq<Edge>, id: string) returns (i: nat)
    requires Sound(ns, es) && Calm(ns) && id in ReadyList(ns, es, ns)
    ensures i < |ns| && ns[i].nodeId == id && ns[i].status == "pending" && Listed(ns, es, ns[i])
    ensures var ns' := SetStatus(ns, id, "done");
      ns' == ns[i := ns[i].(status := "done")] && Sound(ns', es) && Calm(ns') && Pending(ns') == Pending(ns) - 1
  {
    i := ReadyIndex(ns, es, ns, id);
    SetStatusKeepsSound(ns, es, id, "done", i);
    PendingDrops(ns, i);
  }

  // ---------- Driving a workflow to its end ----------

  // Each pick is listed when it is made, and is then marked done.
  ghost predicate Schedule(ns: seq<Node>, es: seq<Edge>, picks: seq<string>)
    decreases picks
  {
    picks == [] || (picks[0] in ReadyList(ns, es, ns) && Schedule(SetStatus(ns, picks[0], "done"), es, picks[1..]))
  }

  function Drain(ns: seq<Node>, picks: seq<string>): seq<Node>
    decreases picks
  {
    if picks == [] then ns else Drain(SetStatus(ns, picks[0], "done"), picks[1..])
  }

  /** Every schedule finishes one node per pick, so none is longer than the number of pending nodes. */
  lemma {:induction false} ScheduleCounts(ns: seq<Node>, es: seq<Edge>, picks: seq<string>)
    requires Sound(ns, es) && Calm(ns) && Schedule(ns, es, picks)
    ensures Sound(Drain(ns, picks), es) && Calm(Drain(ns, picks))
    ensures |picks| <= Pending(ns) && Pending(Drain(ns, picks)) == Pending(ns) - |picks|
    decreases picks
  {
    if picks != [] {
      var i := FinishOne(ns, es, picks[0]);
      ScheduleCounts(SetStatus(ns, picks[0], "done"), es, picks[1..]);
    }
  }

  lemma {:induction false} ScheduleJoin(ns: seq<Node>, es: seq<Edge>, picks: seq<string>, next: string)
    requires Schedule(ns, es, picks) && next in ReadyList(Drain(ns, picks), es, Drain(ns, picks))
    ensures Schedule(ns, es, picks + [next])
    decreases picks
  {
    if picks == [] {
      assert (picks + [next])[1..] == [];
      assert Schedule(SetStatus(ns, next, "done"), es, []);
    } else {
      ScheduleJoin(SetStatus(ns, picks[0], "done"), es, picks[1..], next);
      assert (picks + [next])[1..] == picks[1..] + [next];
    }
  }

  /** A schedule that has not finished everything can always be continued. */
  lemma ScheduleContinues(ns: seq<Node>, es: seq<Edge>, picks: seq<string>) returns (next: string)
    requires Sound(ns, es) && Calm(ns) && Schedule(ns, es, picks) && |picks| < Pending(ns)
    ensures Schedule(ns, es, picks + [next])
  {
    ScheduleCounts(ns, es, picks);
    var i := Progress(Drain(ns, picks), es);
    next := Drain(ns, picks)[i].nodeId;
    ScheduleJoin(ns, es, picks, next);
  }

  /** So any schedule extends to one that settles every node, with exactly one pick per pending node. */
  lemma {:induction false} ScheduleCompletes(ns: seq<Node>, es: seq<Edge>, picks: seq<string>)
      returns (all: seq<string>)
    requires Sound(ns, es) && Calm(ns) && Schedule(ns, es, picks)
    ensures picks <= all && Schedule(ns, es, all) && |all| == Pending(ns) && Pending(Drain(ns, all)) == 0
    decreases Pending(ns) - |picks|
  {
    ScheduleCounts(ns, es, picks);
    if |picks| == Pending(ns) {
      all := picks;
    } else {
      var next := ScheduleContinues(ns, es, picks);
      ScheduleCounts(ns, es, picks + [next]);
      all := ScheduleCompletes(ns, es, picks + [next]);
    }
  }

  // Marking one node leaves every other node's status alone.
  lemma OthersUntouched(ns: seq<Node>, i: nat, a: nat)
    requires UniqueIds(ns) && i < |ns| && a < |ns| && a != i
    ensures StatusOf(ns[i := ns[i].(status := "done")], ns[a].nodeId) == StatusOf(ns, ns[a].nodeId)
  {
    StatusAt(ns, a);
    StatusAt(ns[i := ns[i].(status := "done")], a);
  }

  ghost predicate PickedBefore(picks: seq<string>, p: nat, id: string)
    requires p <= |picks|
  {
    exists q :: 0 <= q < p && picks[q] == id
  }

  lemma PickedLater(picks: seq<string>, p: nat, id: string)
    requires 0 < p <= |picks| && (id == picks[0] || PickedBefore(picks[1..], p - 1, id))
    ensures PickedBefore(picks, p, id)
  {
    if id != picks[0] {
      var q :| 0 <= q < p - 1 && picks[1..][q] == id;
      assert picks[q + 1] == id;
    }
  }

  lemma EarlierIndex(ns: seq<Node>, a: string, b: string) returns (i: nat)
    requires Before(ns, a, b)
    ensures i < |ns| && ns[i].nodeId == a
  {
    var m, n :| 0 <= m < n < |ns| && ns[m].nodeId == a && ns[n].nodeId == b;
    i := m;
  }

  lemma DependencyIndex(ns: seq<Node>, es: seq<Edge>, k: nat) returns (a: nat)
    requires Sound(ns, es) && k < |es|
    ensures a < |ns| && ns[a].nodeId == es[k].from
  {
    assert Before(ns, es[k].from, es[k].to);
    a := EarlierIndex(ns, es[k].from, es[k].to);
  }

  lemma {:induction false} SettledOrPicked(ns: seq<Node>, es: seq<Edge>, picks: seq<string>, p: nat, k: nat)
    requires Sound(ns, es) && Calm(ns) && Schedule(ns, es, picks)
    requires p < |picks| && k < |es| && es[k].to == picks[p]
    ensures Settled(StatusOf(ns, es[k].from)) || PickedBefore(picks, p, es[k].from)
    decreases picks
  {
    var i := FinishOne(ns, es, picks[0]);
    if p > 0 {
      SettledOrPicked(SetStatus(ns, picks[0], "done"), es, picks[1..], p - 1, k);
      if es[k].from == picks[0] || PickedBefore(picks[1..], p - 1, es[k].from) {
        PickedLater(picks, p, es[k].from);
      } else {
        var a := DependencyIndex(ns, es, k);
        OthersUntouched(ns, i, a);
      }
    }
  }

  /** Every pick comes after all its dependencies: each was done or skipped from the start, or picked before. */
  lemma ScheduleRespectsDependencies(ns: seq<Node>, es: seq<Edge>, picks: seq<string>, p: nat, k: nat)
    requires Sound(ns, es) && Calm(ns) && Schedule(ns, es, picks)
    requires p < |picks| && k < |es| && es[k].to == picks[p]
    ensures SourceFinished(ns, es[k]) || PickedBefore(picks, p, es[k].from)
  {
    SettledOrPicked(ns, es, picks, p, k);
    SettledSource(ns, es[k]);
  }
}
