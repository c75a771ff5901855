/** The task identifiers of one data refresh DAG. */
module Tasks {

  /** The four nodes of a data refresh DAG. `RefreshPopularityMetrics` stands for
      the popularity-metrics task group; as a branch target it names the group's
      first task, the one the branch operator returns. */
  datatype TaskId =
    | MonthCheckTask            // the branching operator `month_check`
    | RefreshPopularityMetrics  // full recompute of the popularity tables
    | RefreshMatview            // incremental refresh of the materialized view
    | DataRefreshGroup          // the remote data refresh task group
}
