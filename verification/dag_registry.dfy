/** The generation of one data refresh DAG per configuration, each told the ids
    of all the other data refresh DAGs so that their remote refresh steps exclude
    each other (dag_factory.py, lines 124-197). */
module DagRegistry {
  import opened Tasks
  import opened DagGraph

  /** The part of a data refresh configuration the factory reads here; the
      schedule, start date and default arguments are not modelled. */
  datatype DataRefresh = DataRefresh(dagId: string, mediaType: string)

  /** A generated DAG: the configuration it was built from, its dependency
      graph, and the DAG ids its remote refresh must not overlap with. */
  datatype Dag = Dag(config: DataRefresh, edges: set<Edge>, externalDagIds: set<string>)

  /** `create_data_refresh_dag`: the same four-edge graph for every media type. */
  function CreateDataRefreshDag(dataRefresh: DataRefresh, externalDagIds: set<string>): Dag {
    Dag(dataRefresh, DataRefreshEdges(), externalDagIds)
  }

  /** `all_data_refresh_dag_ids` (line 188). */
  function AllDataRefreshDagIds(configs: seq<DataRefresh>): set<string> {
    set c | c in configs :: c.dagId
  }

  /** `configs[k]` is the last of the first `n` configurations with its DAG id. */
  ghost predicate LastWithId(configs: seq<DataRefresh>, n: nat, k: nat)
    requires k < n <= |configs|
  {
    forall j :: k < j < n ==> configs[j].dagId != configs[k].dagId
  }

  /** What the generation loop has built after its first `n` configurations. */
  ghost predicate Registered(configs: seq<DataRefresh>, n: nat, all: set<string>, dags: map<string, Dag>)
    requires n <= |configs|
  {
    && dags.Keys == (set j | 0 <= j < n :: configs[j].dagId)
    && (forall id :: id in dags ==> dags[id].config.dagId == id)
    && (forall id :: id in dags ==> dags[id].edges == DataRefreshEdges())
    && (forall id :: id in dags ==> dags[id].externalDagIds == all - {id})
    && (forall id :: id in dags ==>
          exists k :: 0 <= k < n && configs[k] == dags[id].config && LastWithId(configs, n, k))
  }

  /** One iteration of the generation loop keeps `Registered`. */
  lemma RegisterStep(configs: seq<DataRefresh>, n: nat, all: set<string>, dags: map<string, Dag>)
    requires n < |configs| && Registered(configs, n, all, dags)
    ensures Registered(configs, n + 1, all,
      dags[configs[n].dagId := CreateDataRefreshDag(configs[n], all - {configs[n].dagId})])
  {
    var id0 := configs[n].dagId;
    var after := dags[id0 := CreateDataRefreshDag(configs[n], all - {id0})];
    assert after.Keys == (set j | 0 <= j < n + 1 :: configs[j].dagId) by {
      assert after.Keys == dags.Keys + {id0};
      forall id | id in after.Keys
        ensures id in (set j | 0 <= j < n + 1 :: configs[j].dagId)
      {
        if id != id0 {
          var j :| 0 <= j < n && configs[j].dagId == id;
        }
      }
    }
    forall id | id in after
      ensures exists k :: 0 <= k < n + 1 && configs[k] == after[id].config && LastWithId(configs, n + 1, k)
    {
      if id == id0 {
        assert LastWithId(configs, n + 1, n);
      } else {
        var k :| 0 <= k < n && configs[k] == dags[id].config && LastWithId(configs, n, k);
        assert LastWithId(configs, n + 1, k);
      }
    }
  }

  /** Once every configuration is registered, each id of `configs` has its DAG,
      and each DAG lists all the other ids. */
  lemma RegisteredAll(configs: seq<DataRefresh>, dags: map<string, Dag>)
    requires Registered(configs, |configs|, AllDataRefreshDagIds(configs), dags)
    ensures dags.Keys == AllDataRefreshDagIds(configs)
    ensures forall id :: id in dags ==>
      id !in dags[id].externalDagIds && dags[id].externalDagIds + {id} == AllDataRefreshDagIds(configs)
    ensures forall a, b :: a in dags && b in dags && a != b ==> a in dags[b].externalDagIds && b in dags[a].externalDagIds
  {
    var all := AllDataRefreshDagIds(configs);
    assert forall id :: id in all ==> exists j :: 0 <= j < |configs| && configs[j].dagId == id;
  }

  /** The module-level loop (lines 190-197): each DAG is registered under its id
      and told the ids of all the others; a later configuration with a repeated
      id replaces the earlier DAG. */
  method GenerateDags(configs: seq<DataRefresh>) returns (dags: map<string, Dag>)
    ensures dags.Keys == AllDataRefreshDagIds(configs)
    ensures forall id :: id in dags ==> dags[id].edges == DataRefreshEdges()
    ensures forall id :: id in dags ==>
      id !in dags[id].externalDagIds && dags[id].externalDagIds + {id} == AllDataRefreshDagIds(configs)
    ensures forall a, b :: a in dags && b in dags && a != b ==> a in dags[b].externalDagIds && b in dags[a].externalDagIds
    ensures forall id :: id in dags ==>
      (exists k :: 0 <= k < |configs| && configs[k] == dags[id].config && LastWithId(configs, |configs|, k))
    ensures forall id :: id in dags ==> dags[id].config.dagId == id
  {
    var all := AllDataRefreshDagIds(configs);
    dags := map[];
    var i := 0;
    while i < |configs|
      invariant 0 <= i <= |configs|
      invariant Registered(configs, i, all, dags)
    {
      assert configs[i] in configs;
      var otherDagIds := OtherDagIds(all, configs[i].dagId);
      assert otherDagIds == all - {configs[i].dagId};
      RegisterStep(configs, i, all, dags);
      dags := dags[configs[i].dagId := CreateDataRefreshDag(configs[i], otherDagIds)];
      i := i + 1;
    }
    RegisteredAll(configs, dags);
  }

  /** The sibling set of one DAG (line 192). */
  function OtherDagIds(all: set<string>, dagId: string): (r: set<string>)
    requires dagId in all
    ensures dagId !in r
    ensures r + {dagId} == all
  {
    all - {dagId}
  }

  /** A DAG waits on one fewer DAG than there are data refresh DAGs. */
  lemma OtherDagIdsSize(all: set<string>, dagId: string)
    requires dagId in all
    ensures |OtherDagIds(all, dagId)| == |all| - 1
  {
  }

  /** Exclusion is mutual: `a` waits for `b` exactly when `b` waits for `a`. */
  lemma SiblingsSymmetric(all: set<string>, a: string, b: string)
    requires a in all && b in all
    ensures a in OtherDagIds(all, b) <==> b in OtherDagIds(all, a)
    ensures a in OtherDagIds(all, b) <==> a != b
  {
  }
}
