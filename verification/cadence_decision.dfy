/** The branching decision `_month_check` of a data refresh DAG
    (dag_factory.py, lines 69-121): recompute the popularity metrics on the first
    run of a calendar month, or when forced, and otherwise only refresh the
    materialized view. */
module CadenceDecision {
  import opened Wrappers
  import opened Tasks
  import opened RunHistory
  import DagGraph

  /** No RUNNING DagRun exists for the DAG, so its `conf` cannot be read. */
  datatype DecisionError = NoRunningDagRun

  /** The task the branch operator follows for the DAG `dagId`, given every
      DagRun stored in the metadata database. */
  function MonthCheck(dagId: string, runs: seq<RunRecord>): (r: Result<TaskId, DecisionError>)
    ensures r.Err? <==> forall x :: x in runs ==> !IsRunOf(x, dagId, Running)
    ensures r.Ok? ==> r.value == RefreshPopularityMetrics || r.value == RefreshMatview
  {
    match CurrentDagRun(runs, dagId)
    case None => Err(NoRunningDagRun)
    case Some(current) =>
      match current.conf.forceRefreshMetrics
      case Some(force) => Ok(if force then RefreshPopularityMetrics else RefreshMatview)
      case None =>
        match LatestSuccessfulRun(runs, dagId)
        case None => Ok(RefreshPopularityMetrics)
        case Some(latest) =>
          Ok(if SameMonth(current.startDate, latest.startDate) then RefreshMatview else RefreshPopularityMetrics)
  }

  /** An explicit `force_refresh_metrics` decides alone: true selects the
      recompute, false the view refresh, whatever runs are stored after the
      current one, successful or not. */
  lemma {:induction false} ForceRefreshMetricsWins(dagId: string, runs: seq<RunRecord>, later: seq<RunRecord>, force: bool)
    requires CurrentDagRun(runs, dagId).Some?
    requires CurrentDagRun(runs, dagId).value.conf.forceRefreshMetrics == Some(force)
    ensures MonthCheck(dagId, runs + later) == Ok(if force then RefreshPopularityMetrics else RefreshMatview)
  {
    QueryAppend(runs, later, dagId, Running);
  }

  /** Without an override, a DAG that has never succeeded recomputes. */
  lemma NoSuccessMeansFullRecompute(dagId: string, runs: seq<RunRecord>)
    requires exists x :: x in runs && IsRunOf(x, dagId, Running)
    requires CurrentDagRun(runs, dagId).value.conf.forceRefreshMetrics.None?
    requires forall x :: x in runs ==> !IsRunOf(x, dagId, Success)
    ensures MonthCheck(dagId, runs) == Ok(RefreshPopularityMetrics)
  {
  }

  /** Without an override, the view-only branch is taken exactly when a latest
      successful run started in the current run's year and month; the same month
      of another year recomputes. `latest` may be any successful run that no
      other one postdates, so which of several tied runs the query returns does
      not matter. */
  lemma LatestSuccessMonthDecides(dagId: string, runs: seq<RunRecord>, current: RunRecord, latest: RunRecord)
    requires CurrentDagRun(runs, dagId) == Some(current)
    requires current.conf.forceRefreshMetrics.None?
    requires latest in runs && IsRunOf(latest, dagId, Success)
    requires forall x :: x in runs && IsRunOf(x, dagId, Success) ==> NotAfter(x.startDate, latest.startDate)
    ensures MonthCheck(dagId, runs) == Ok(RefreshMatview) <==>
      current.startDate.month == latest.startDate.month && current.startDate.year == latest.startDate.year
    ensures MonthCheck(dagId, runs) == Ok(RefreshPopularityMetrics) <==>
      current.startDate.month != latest.startDate.month || current.startDate.year != latest.startDate.year
  {
    var chosen := LatestSuccessfulRun(runs, dagId).value;
    NotAfterAntisymmetric(chosen.startDate, latest.startDate);
  }

  /** The decision against an independent reading of "first run of the month":
      when no success is dated after the current run, the view-only branch is
      taken exactly when it is forced, or when nothing is forced and some
      successful run of the DAG started in the current calendar month. */
  lemma FirstRunOfMonthRecomputes(dagId: string, runs: seq<RunRecord>, current: RunRecord)
    requires CurrentDagRun(runs, dagId) == Some(current)
    requires forall x :: x in runs && IsRunOf(x, dagId, Success) ==> NotAfter(x.startDate, current.startDate)
    ensures MonthCheck(dagId, runs) == Ok(RefreshMatview) <==>
      || current.conf.forceRefreshMetrics == Some(false)
      || (current.conf.forceRefreshMetrics.None? &&
          exists x :: x in runs && IsRunOf(x, dagId, Success) && SameMonth(x.startDate, current.startDate))
  {
    if current.conf.forceRefreshMetrics.None? {
      match LatestSuccessfulRun(runs, dagId)
      case None =>
      case Some(latest) =>
        if exists x :: x in runs && IsRunOf(x, dagId, Success) && SameMonth(x.startDate, current.startDate) {
          var x :| x in runs && IsRunOf(x, dagId, Success) && SameMonth(x.startDate, current.startDate);
          assert NotAfter(x.startDate, latest.startDate);
          assert NotAfter(latest.startDate, current.startDate);
          assert SameMonth(current.startDate, latest.startDate);
        }
    }
  }

  /** A stored run of another DAG, or one of this DAG that is neither RUNNING
      nor SUCCESS, never changes the decision. */
  lemma {:induction false} IrrelevantRunIgnored(dagId: string, before: seq<RunRecord>, x: RunRecord, after: seq<RunRecord>)
    requires x.dagId != dagId || (x.state != Running && x.state != Success)
    ensures MonthCheck(dagId, before + [x] + after) == MonthCheck(dagId, before + after)
  {
    QueryAppend(before + [x], after, dagId, Running);
    QueryAppend(before, [x], dagId, Running);
    QueryAppend(before, after, dagId, Running);
    QueryAppend(before + [x], after, dagId, Success);
    QueryAppend(before, [x], dagId, Success);
    QueryAppend(before, after, dagId, Success);
    assert Query([x], dagId, Running) == [] && Query([x], dagId, Success) == [];
    assert Query(before, dagId, Running) + [] == Query(before, dagId, Running);
    assert Query(before, dagId, Success) + [] == Query(before, dagId, Success);
  }

  /** Only the set of successful runs matters, not the order the database
      returns them in: equal start dates are equal calendar months, so ties
      between latest runs are harmless. */
  lemma SuccessOrderIrrelevant(dagId: string, runs1: seq<RunRecord>, runs2: seq<RunRecord>)
    requires CurrentDagRun(runs1, dagId) == CurrentDagRun(runs2, dagId)
    requires forall x :: x in runs1 && IsRunOf(x, dagId, Success) <==> x in runs2 && IsRunOf(x, dagId, Success)
    ensures MonthCheck(dagId, runs1) == MonthCheck(dagId, runs2)
  {
    var l1 := LatestSuccessfulRun(runs1, dagId);
    var l2 := LatestSuccessfulRun(runs2, dagId);
    if l1.Some? && l2.Some? {
      NotAfterAntisymmetric(l1.value.startDate, l2.value.startDate);
    }
  }

  /** Whatever the decision, it names a task directly downstream of the month
      check in the DAG's graph. */
  lemma DecisionIsBranchTarget(dagId: string, runs: seq<RunRecord>)
    requires exists x :: x in runs && IsRunOf(x, dagId, Running)
    ensures MonthCheck(dagId, runs).Ok?
    ensures MonthCheck(dagId, runs).value in DagGraph.Successors(DagGraph.DataRefreshEdges(), MonthCheckTask)
  {
    DagGraph.MonthCheckBranches();
  }

  /** A DAG with one success on 2023-01-15: a run
      started 2023-01-20 only refreshes the view; one started 2023-02-01, or in
      January 2024, recomputes. */
  lemma JanuaryScenario(prior: RunRecord, current: RunRecord)
    requires prior == RunRecord("image_data_refresh", Success, StartDate(2023, 1, 15), Conf(None))
    requires current.dagId == "image_data_refresh" && current.state == Running && current.conf == Conf(None)
    ensures current.startDate == StartDate(2023, 1, 20) ==> MonthCheck("image_data_refresh", [prior, current]) == Ok(RefreshMatview)
    ensures current.startDate == StartDate(2023, 2, 1) ==> MonthCheck("image_data_refresh", [prior, current]) == Ok(RefreshPopularityMetrics)
    ensures current.startDate == StartDate(2024, 1, 1) ==> MonthCheck("image_data_refresh", [prior, current]) == Ok(RefreshPopularityMetrics)
  {
    assert Query([prior, current], "image_data_refresh", Running) == [current];
    assert Query([prior, current], "image_data_refresh", Success) == [prior];
  }
}
