/** The DagRun history that the month check reads, and the two queries it runs
    over it (dag_factory.py, lines 80-103). */
module RunHistory {
  import opened Wrappers

  /** The DagRun states that matter here; any other state behaves like `Failed`. */
  datatype RunState = Queued | Running | Success | Failed

  type Month = m: int | 1 <= m <= 12 witness 1

  /** A run's start date, reduced to the calendar year and month the decision
      compares, plus the position inside the month (day and time of day), which
      only serves to order runs. */
  datatype StartDate = StartDate(year: int, month: Month, withinMonth: nat)

  /** The chronological order on start dates: `a` is not later than `b`. */
  predicate NotAfter(a: StartDate, b: StartDate) {
    || a.year < b.year
    || (a.year == b.year && a.month < b.month)
    || (a.year == b.year && a.month == b.month && a.withinMonth <= b.withinMonth)
  }

  /** Two dates in the same calendar month of the same year. */
  predicate SameMonth(a: StartDate, b: StartDate) {
    a.month == b.month && a.year == b.year
  }

  /** The part of a run's `conf` that is read: the `force_refresh_metrics` key,
      absent (`None`) or set to a truth value. */
  datatype Conf = Conf(forceRefreshMetrics: Option<bool>)

  datatype RunRecord = RunRecord(dagId: string, state: RunState, startDate: StartDate, conf: Conf)

  predicate IsRunOf(x: RunRecord, dagId: string, state: RunState) {
    x.dagId == dagId && x.state == state
  }

  lemma NotAfterAntisymmetric(a: StartDate, b: StartDate)
    requires NotAfter(a, b) && NotAfter(b, a)
    ensures a == b
  {
  }

  /** `session.query(DagRun).filter(dag_id == d, state == s)`: the matching runs
      in storage order. */
  function Query(runs: seq<RunRecord>, dagId: string, state: RunState): (r: seq<RunRecord>)
    ensures forall x :: x in r <==> x in runs && IsRunOf(x, dagId, state)
    ensures |r| <= |runs|
  {
    if |runs| == 0 then []
    else
      var rest := Query(runs[1..], dagId, state);
      assert forall x :: x in runs <==> x == runs[0] || x in runs[1..];
      if IsRunOf(runs[0], dagId, state) then [runs[0]] + rest else rest
  }

  lemma {:induction false} QueryAppend(a: seq<RunRecord>, b: seq<RunRecord>, dagId: string, state: RunState)
    ensures Query(a + b, dagId, state) == Query(a, dagId, state) + Query(b, dagId, state)
  {
    if |a| > 0 {
      assert (a + b)[1..] == a[1..] + b;
      QueryAppend(a[1..], b, dagId, state);
    } else {
      assert a + b == b;
    }
  }

  /** The query's `.first()`: the earliest stored match, if any. */
  function First(rs: seq<RunRecord>): Option<RunRecord> {
    if |rs| == 0 then None else Some(rs[0])
  }

  /** The run of `dagId` currently in the RUNNING state (lines 81-84). */
  function CurrentDagRun(runs: seq<RunRecord>, dagId: string): (r: Option<RunRecord>)
    ensures r.None? <==> forall x :: x in runs ==> !IsRunOf(x, dagId, Running)
    ensures r.Some? ==> r.value in runs && IsRunOf(r.value, dagId, Running)
  {
    var q := Query(runs, dagId, Running);
    assert |q| > 0 ==> q[0] in q;
    First(q)
  }

  /** A run with the greatest start date, the first of `rs` among equals:
      `.order_by(start_date.desc()).first()`. */
  function Latest(rs: seq<RunRecord>): (r: Option<RunRecord>)
    ensures r.None? <==> |rs| == 0
    ensures r.Some? ==> r.value in rs
    ensures r.Some? ==> forall x :: x in rs ==> NotAfter(x.startDate, r.value.startDate)
  {
    if |rs| == 0 then None
    else
      assert forall x :: x in rs <==> x == rs[0] || x in rs[1..];
      match Latest(rs[1..])
      case None => Some(rs[0])
      case Some(m) => if NotAfter(m.startDate, rs[0].startDate) then Some(rs[0]) else Some(m)
  }

  /** The most recent successful run of `dagId` (lines 98-103). */
  function LatestSuccessfulRun(runs: seq<RunRecord>, dagId: string): (r: Option<RunRecord>)
    ensures r.None? <==> forall x :: x in runs ==> !IsRunOf(x, dagId, Success)
    ensures r.Some? ==> r.value in runs && IsRunOf(r.value, dagId, Success)
    ensures r.Some? ==> forall x :: x in runs && IsRunOf(x, dagId, Success) ==> NotAfter(x.startDate, r.value.startDate)
  {
    var q := Query(runs, dagId, Success);
    assert |q| > 0 ==> q[0] in q;
    Latest(q)
  }
}
