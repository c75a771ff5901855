/** The dependency graph of a data refresh DAG (dag_factory.py, lines 180-182):
    the month check branches to the popularity-metrics recompute and to the
    materialized view refresh, the recompute feeds the view refresh, and the view
    refresh feeds the remote data refresh. */
module DagGraph {
  import opened Tasks

  /** `(u, d)`: task `d` runs downstream of task `u`. */
  type Edge = (TaskId, TaskId)

  /** `upstream >> [d0, d1, ...]`: one edge from `upstream` to each listed task. */
  function SetDownstream(g: set<Edge>, upstream: TaskId, downstream: seq<TaskId>): (r: set<Edge>)
    ensures forall e :: e in r <==> e in g || (e.0 == upstream && e.1 in downstream)
    decreases |downstream|
  {
    if |downstream| == 0 then g
    else
      assert forall d :: d in downstream <==> d == downstream[0] || d in downstream[1..];
      SetDownstream(g + {(upstream, downstream[0])}, upstream, downstream[1..])
  }

  /** `t0 >> t1 >> ... >> tn`: one edge between each pair of neighbours. */
  function Chain(g: set<Edge>, tasks: seq<TaskId>): (r: set<Edge>)
    ensures forall e :: e in r <==> e in g || exists i :: 0 <= i < |tasks| - 1 && e == (tasks[i], tasks[i + 1])
    decreases |tasks|
  {
    if |tasks| < 2 then g
    else
      var r := Chain(g + {(tasks[0], tasks[1])}, tasks[1..]);
      forall e | e !in g && e != (tasks[0], tasks[1]) && exists i :: 0 <= i < |tasks| - 1 && e == (tasks[i], tasks[i + 1])
        ensures e in r
      {
        var i :| 0 <= i < |tasks| - 1 && e == (tasks[i], tasks[i + 1]);
        assert e == (tasks[1..][i - 1], tasks[1..][i]);
      }
      r
  }

  /** The two dependency statements of `create_data_refresh_dag`. */
  function DataRefreshEdges(): set<Edge> {
    var branches := SetDownstream({}, MonthCheckTask, [RefreshPopularityMetrics, RefreshMatview]);
    Chain(branches, [RefreshPopularityMetrics, RefreshMatview, DataRefreshGroup])
  }

  function Successors(g: set<Edge>, t: TaskId): set<TaskId> {
    set e | e in g && e.0 == t :: e.1
  }

  function Predecessors(g: set<Edge>, t: TaskId): set<TaskId> {
    set e | e in g && e.1 == t :: e.0
  }

  /** The graph holds exactly four edges. */
  lemma DataRefreshEdgesExact()
    ensures DataRefreshEdges() == {
      (MonthCheckTask, RefreshPopularityMetrics),
      (MonthCheckTask, RefreshMatview),
      (RefreshPopularityMetrics, RefreshMatview),
      (RefreshMatview, DataRefreshGroup)
    }
  {
    var chain := [RefreshPopularityMetrics, RefreshMatview, DataRefreshGroup];
    assert (chain[0], chain[1]) == (RefreshPopularityMetrics, RefreshMatview);
    assert (chain[1], chain[2]) == (RefreshMatview, DataRefreshGroup);
  }

  /** The month check may hand control to either refresh, and to nothing else. */
  lemma MonthCheckBranches()
    ensures Successors(DataRefreshEdges(), MonthCheckTask) == {RefreshPopularityMetrics, RefreshMatview}
    ensures Predecessors(DataRefreshEdges(), MonthCheckTask) == {}
  {
    DataRefreshEdgesExact();
    var g := DataRefreshEdges();
    assert (MonthCheckTask, RefreshPopularityMetrics) in g;
    assert (MonthCheckTask, RefreshMatview) in g;
  }

  /** The remote data refresh waits on the view refresh alone, and the view
      refresh has both the month check and the recompute upstream. */
  lemma DataRefreshAfterMatviewOnly()
    ensures Predecessors(DataRefreshEdges(), DataRefreshGroup) == {RefreshMatview}
    ensures Predecessors(DataRefreshEdges(), RefreshMatview) == {MonthCheckTask, RefreshPopularityMetrics}
    ensures Successors(DataRefreshEdges(), DataRefreshGroup) == {}
  {
    DataRefreshEdgesExact();
    var g := DataRefreshEdges();
    assert (RefreshMatview, DataRefreshGroup) in g;
    assert (MonthCheckTask, RefreshMatview) in g;
    assert (RefreshPopularityMetrics, RefreshMatview) in g;
  }

  /** A non-empty walk along edges of `g`. */
  ghost predicate IsPath(g: set<Edge>, p: seq<TaskId>) {
    |p| >= 1 && forall i :: 0 <= i < |p| - 1 ==> (p[i], p[i + 1]) in g
  }

  /** No walk of one or more edges returns to where it started. */
  ghost predicate Acyclic(g: set<Edge>) {
    forall p :: IsPath(g, p) && |p| >= 2 ==> p[0] != p[|p| - 1]
  }

  /** The position of each task in the order the DAG runs them. */
  function Stage(t: TaskId): nat {
    match t
    case MonthCheckTask => 0
    case RefreshPopularityMetrics => 1
    case RefreshMatview => 2
    case DataRefreshGroup => 3
  }

  lemma {:induction false} PathRaisesStage(p: seq<TaskId>)
    requires IsPath(DataRefreshEdges(), p)
    ensures Stage(p[|p| - 1]) >= Stage(p[0]) + |p| - 1
    decreases |p|
  {
    if |p| > 1 {
      DataRefreshEdgesExact();
      assert (p[0], p[1]) in DataRefreshEdges();
      assert IsPath(DataRefreshEdges(), p[1..]) by {
        forall i | 0 <= i < |p[1..]| - 1
          ensures (p[1..][i], p[1..][i + 1]) in DataRefreshEdges()
        {
          assert (p[i + 1], p[i + 2]) in DataRefreshEdges();
        }
      }
      PathRaisesStage(p[1..]);
    }
  }

  /** The dependency graph has no cycle, so every run of the DAG terminates
      its scheduling. */
  lemma DataRefreshAcyclic()
    ensures Acyclic(DataRefreshEdges())
  {
    forall p | IsPath(DataRefreshEdges(), p) && |p| >= 2
      ensures p[0] != p[|p| - 1]
    {
      PathRaisesStage(p);
    }
  }
}
