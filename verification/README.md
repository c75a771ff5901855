# Data refresh cadence, DAG wiring and the ADW record filter

A Dafny model of two small, pure pieces of the Openverse catalog.

**Data refresh DAGs** (`openverse_catalog/dags/data_refresh/dag_factory.py`). Each media type gets one data refresh DAG. Its first task, `month_check`, is a branch operator. It picks one of two tasks:

- the popularity-metrics recompute, a full recompute;
- the materialized-view refresh, incremental only.

The metrics task then feeds the view refresh, and the view refresh feeds the remote data refresh task group. Every DAG is also handed the ids of all the other data refresh DAGs, so that their remote refresh steps never overlap.

The model covers:

- the branch decision `_month_check`;
- the four-edge dependency graph;
- the generation loop that computes each DAG's sibling set.

The Airflow session queries are modelled as filters over a sequence of `RunRecord`s, each with a DAG id, a state, a start date and a `conf`. That sequence stands for the DagRun table in storage order.

**Animal Diversity Web** (`src/providers/AnimalDiversityWeb.py`). `filterData` keeps the tab-separated Common Crawl index lines whose first field starts with the site's domain followed by `/accounts/`, `/collections/` or `/site/`. It stores the kept lines in `self.data` and returns them.

Modules:

- `Wrappers`: `Option` and `Result`.
- `Tasks`: the four task ids.
- `RunHistory`: run records, start dates and the two DagRun queries.
- `CadenceDecision`: `_month_check`.
- `DagGraph`: the `>>` wiring and graph properties.
- `DagRegistry`: DAG generation and sibling sets.
- `AdwFilter`: `filterData`.

Design choices:

- A start date is abstracted to its year, its month (1-12) and a position inside the month. Runs are ordered lexicographically on those three, so two runs with equal order keys have equal dates, and ties for "latest" cannot change the decision.
- A missing RUNNING DagRun gives the error `NoRunningDagRun`. The source fails there with an attribute access on `None` (line 89); the model does not substitute a default.
- The override is read with `is not None` and then by its truthiness (lines 89-96), so it is modelled as `Option<bool>`.
- The edge `refresh_popularity_metrics >> refresh_matview` (line 182) is static. Whether the view refresh still runs after a skipped recompute depends on a trigger rule outside this model; the model states the static edge set.

## Model

| member | source | states |
|---|---|---|
| RunHistory.Query | openverse_catalog/dags/data_refresh/dag_factory.py:82-84 | the filtered query holds exactly the stored runs of the given DAG id in the given state |
| RunHistory.CurrentDagRun | openverse_catalog/dags/data_refresh/dag_factory.py:80-84 | there is a current run exactly when some stored run of the DAG is RUNNING, and the one returned is such a run |
| RunHistory.Latest | openverse_catalog/dags/data_refresh/dag_factory.py:99-103 | ordering by start date descending and taking the first yields a member whose start date is not before any other's, and yields nothing only for an empty list |
| RunHistory.LatestSuccessfulRun | openverse_catalog/dags/data_refresh/dag_factory.py:98-103 | absent exactly when the DAG has no SUCCESS run; otherwise a SUCCESS run of that DAG with the greatest start date among them |
| CadenceDecision.MonthCheck | openverse_catalog/dags/data_refresh/dag_factory.py:69-121 | fails exactly when no RUNNING run of the DAG exists; otherwise returns one of the two refresh task ids |
| CadenceDecision.ForceRefreshMetricsWins | openverse_catalog/dags/data_refresh/dag_factory.py:86-96 | a set `force_refresh_metrics` decides alone (true: metrics, false: view), whatever runs are stored after the current one, including when there is no success |
| CadenceDecision.NoSuccessMeansFullRecompute | openverse_catalog/dags/data_refresh/dag_factory.py:98-107 | with no override and no SUCCESS run of the DAG, the metrics recompute is chosen |
| CadenceDecision.LatestSuccessMonthDecides | openverse_catalog/dags/data_refresh/dag_factory.py:99-121 | with no override, for any SUCCESS run of the DAG that no other SUCCESS run postdates, the view refresh is chosen iff its month and year equal the current run's, and the metrics task iff either differs; so ties for latest are harmless |
| CadenceDecision.FirstRunOfMonthRecomputes | openverse_catalog/dags/data_refresh/dag_factory.py:71-74 | when no success is dated after the current run, the view-only branch is taken iff it is forced, or nothing is forced and some success started in the current calendar month |
| CadenceDecision.IrrelevantRunIgnored | openverse_catalog/dags/data_refresh/dag_factory.py:82-103 | inserting a run of another DAG, or one that is neither RUNNING nor SUCCESS, anywhere in the history leaves the decision unchanged |
| CadenceDecision.SuccessOrderIrrelevant | openverse_catalog/dags/data_refresh/dag_factory.py:99-103 | two histories with the same current run and the same SUCCESS runs of the DAG, in any order, give the same decision, so ties for latest are harmless |
| CadenceDecision.DecisionIsBranchTarget | openverse_catalog/dags/data_refresh/dag_factory.py:92-121 | when a RUNNING run exists the decision succeeds, and the chosen task is a direct successor of `month_check` in the DAG's graph |
| CadenceDecision.JanuaryScenario | openverse_catalog/dags/data_refresh/dag_factory.py:109-121 | after a success on 2023-01-15, a run on 2023-01-20 refreshes the view; runs on 2023-02-01 or in January 2024 recompute |
| DagGraph.SetDownstream | openverse_catalog/dags/data_refresh/dag_factory.py:181 | `u >> [d0, d1, ...]` adds exactly the edges from `u` to each listed task |
| DagGraph.Chain | openverse_catalog/dags/data_refresh/dag_factory.py:182 | `t0 >> t1 >> ...` adds exactly the edges between neighbouring tasks |
| DagGraph.DataRefreshEdgesExact | openverse_catalog/dags/data_refresh/dag_factory.py:180-182 | the edge set is exactly month_check→metrics, month_check→matview, metrics→matview, matview→data_refresh |
| DagGraph.MonthCheckBranches | openverse_catalog/dags/data_refresh/dag_factory.py:181 | the successors of `month_check` are exactly the two refresh tasks, and it has no predecessor |
| DagGraph.DataRefreshAfterMatviewOnly | openverse_catalog/dags/data_refresh/dag_factory.py:181-182 | the data refresh group's only predecessor is the view refresh, which itself waits on month_check and the metrics task; nothing follows the data refresh group |
| DagGraph.PathRaisesStage | openverse_catalog/dags/data_refresh/dag_factory.py:180-182 | along any walk of the graph each step moves to a strictly later stage |
| DagGraph.DataRefreshAcyclic | openverse_catalog/dags/data_refresh/dag_factory.py:180-182 | no walk of one or more edges returns to its starting task |
| DagRegistry.GenerateDags | openverse_catalog/dags/data_refresh/dag_factory.py:187-197 | one DAG per distinct configured id, each with the four-edge graph; each sibling set excludes the DAG's own id and with it equals all ids; any two distinct DAGs list each other; a repeated id keeps its last configuration |
| DagRegistry.OtherDagIds | openverse_catalog/dags/data_refresh/dag_factory.py:192 | the sibling set omits the DAG's own id, and with it gives back all ids |
| DagRegistry.OtherDagIdsSize | openverse_catalog/dags/data_refresh/dag_factory.py:192 | the sibling set is one smaller than the set of all data refresh DAG ids |
| DagRegistry.SiblingsSymmetric | openverse_catalog/dags/data_refresh/dag_factory.py:188-192 | for ids in the set, a is b's sibling iff b is a's, iff they differ |
| AdwFilter.FirstField | src/providers/AnimalDiversityWeb.py:32 | `split('\t')[0]` is a tab-free prefix of the line that stops at the first tab or the end |
| AdwFilter.Filter | src/providers/AnimalDiversityWeb.py:31-32 | the result is a subsequence of the input (order kept); every kept line passes the prefix test; every passing line is kept as many times as it occurs |
| AdwFilter.FilterData | src/providers/AnimalDiversityWeb.py:29-35 | returns the filtered lines and stores the same list in `data`, leaving the provider's other fields alone |
| AdwFilter.FilterDataIgnoresCondition | src/providers/AnimalDiversityWeb.py:29-35 | the `_condition` argument never changes the result |
| AdwFilter.FilterKeepsKeptLines | src/providers/AnimalDiversityWeb.py:32 | a list whose every line passes is returned unchanged |
| AdwFilter.FilterIdempotent | src/providers/AnimalDiversityWeb.py:29-35 | filtering an already filtered list returns it unchanged |
| AdwFilter.FirstFieldStartsWith | src/providers/AnimalDiversityWeb.py:32 | the first field starts with a prefix iff the whole line does and the prefix holds no tab |
| AdwFilter.KeepIffLineStartsWith | src/providers/AnimalDiversityWeb.py:31-32 | a line passes iff it starts with one of the three allowed prefixes and that prefix holds no tab |
| AdwFilter.NoTabLineTestedWhole | src/providers/AnimalDiversityWeb.py:32 | a line without a tab passes iff the whole line starts with an allowed prefix |
| AdwFilter.LaterFieldsIgnored | src/providers/AnimalDiversityWeb.py:32 | text after the first tab never changes the test, so a matching URL only in a later field does not keep the line |
| AdwFilter.TabInDomainKeepsNothing | src/providers/AnimalDiversityWeb.py:31-32 | if the domain contains a tab, nothing passes |

## Left out

- Airflow session, ORM and `@provide_session`: replaced by pure filters over a sequence of run records in storage order.
- RunHistory.CurrentDagRun: the RUNNING query has no `order_by`, so which run the database returns first is unspecified. The model takes the first in storage order. With `max_active_runs=1` there is normally only one.
- RunHistory.LatestSuccessfulRun: a SUCCESS run with a NULL start date is not modelled. Such a run can exist (a queued run marked successful), and PostgreSQL sorts NULLs first under `ORDER BY start_date DESC`, so the source would pick it at lines 99-103 and fail on `.month` at line 113.
- The DAG's scheduling options (`max_active_runs`, `catchup`, `schedule_interval`, `start_date`, `default_args`, `doc_md`, tags) and logging: scheduling configuration with no logic here.
- The task-group factories (popularity-metrics SQL, matview refresh, `create_data_refresh_task_group`) are not part of this model. The same goes for their trigger rules, skip propagation, the cross-DAG mutual-exclusion sensors, lock timeouts and remote polling. Only the edge set and the sibling ids handed to them are modelled.
- The literal task-id strings: they are defined in those factories. The model uses an enum, and the metrics task group is a single node whose entry task is the branch target.
- Real datetimes and time zones: abstracted to (year, month, position in month).
- Python truthiness of arbitrary `conf` values: modelled as `Option<bool>`.
- `AnimalDiversityWeb.getMetaData` is not part of this model. It relies on HTML parsing (BeautifulSoup), URL parsing, the license lookup of the `Provider` base class and unicode-escape encoding, all foreign-library calls.
- AdwFilter.FilterData: the file is Python 2 code (it imports `urlparse`), where `filter` returns a list; the model takes that list semantics. The source stores and returns one list object (lines 33-35); the model returns two equal values, so later mutation through either reference is not modelled.
- The `Provider` base class is not part of this model. Only the `name`, `domain`, `cc_index` and `data` fields are kept.
