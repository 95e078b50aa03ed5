/** The cluster configuration written by createCustomConfigMap (e2e/configmap.go). */
module ClusterConfig {

  datatype ClusterInfo = ClusterInfo(id: string, monitors: seq<string>, subvolumeGroup: string, radosNamespace: string)

  function Lookup(m: map<string, string>, key: string): string {
    if key in m then m[key] else ""
  }

  function Entry(id: string, monitors: seq<string>, items: map<string, string>): ClusterInfo {
    ClusterInfo(id, monitors, Lookup(items, "subvolumeGroup"), Lookup(items, "radosNamespace"))
  }

  /** The items of one cluster that have been visited. */
  ghost function Visited(items: map<string, string>, left: set<string>): map<string, string> {
    map k | k in items && k !in left :: items[k]
  }

  /** The key order of a Go map: any order, each key once. */
  method Keys<V>(m: map<string, V>) returns (order: seq<string>)
    ensures forall k :: k in order <==> k in m
    ensures forall i, j :: 0 <= i < j < |order| ==> order[i] != order[j]
  {
    order := [];
    var left := m.Keys;
    while left != {}
      invariant left <= m.Keys
      invariant forall k :: k in order <==> k in m && k !in left
      invariant forall i, j :: 0 <= i < j < |order| ==> order[i] != order[j]
    {
      var k :| k in left;
      left := left - {k};
      order := order + [k];
    }
  }

  /**
    For every iteration order: one entry per cluster, holding that cluster's own values, or "" for a
    value it does not give.
  */
  method BuildClusters(info: map<string, map<string, string>>, monitors: seq<string>)
    returns (clusters: seq<ClusterInfo>)
    ensures forall i, j :: 0 <= i < j < |clusters| ==> clusters[i].id != clusters[j].id
    ensures forall i :: 0 <= i < |clusters| ==>
              clusters[i].id in info && clusters[i] == Entry(clusters[i].id, monitors, info[clusters[i].id])
    ensures forall id :: id in info ==> exists i :: 0 <= i < |clusters| && clusters[i].id == id
    ensures forall i :: 0 <= i < |clusters| ==>
              && clusters[i].monitors == monitors
              && clusters[i].subvolumeGroup ==
                 (if "subvolumeGroup" in info[clusters[i].id] then info[clusters[i].id]["subvolumeGroup"] else "")
              && clusters[i].radosNamespace ==
                 (if "radosNamespace" in info[clusters[i].id] then info[clusters[i].id]["radosNamespace"] else "")
  {
    var ids := Keys(info);
    var conmap := NameClusters(ids, monitors);
    var left := info.Keys;
    while left != {}
      invariant left <= info.Keys
      invariant forall j :: 0 <= j < |ids| ==>
                  conmap[j] == Entry(ids[j], monitors, if ids[j] in left then map[] else info[ids[j]])
    {
      var cluster :| cluster in left;
      left := left - {cluster};
      FillCluster(conmap, cluster, info[cluster]);
    }
    clusters := conmap[..];
    OnePerCluster(info, monitors, ids, clusters);
  }

  method NameClusters(ids: seq<string>, monitors: seq<string>) returns (conmap: array<ClusterInfo>)
    ensures fresh(conmap) && conmap.Length == |ids|
    ensures forall j :: 0 <= j < |ids| ==> conmap[j] == Entry(ids[j], monitors, map[])
  {
    conmap := new ClusterInfo[|ids|](_ => ClusterInfo("", [], "", ""));
    for i := 0 to |ids|
      invariant forall j :: 0 <= j < i ==> conmap[j] == Entry(ids[j], monitors, map[])
    {
      conmap[i] := ClusterInfo(ids[i], monitors, "", "");
    }
  }

  lemma OnePerCluster(info: map<string, map<string, string>>, monitors: seq<string>, ids: seq<string>,
                      clusters: seq<ClusterInfo>)
    requires forall k :: k in ids <==> k in info
    requires forall i, j :: 0 <= i < j < |ids| ==> ids[i] != ids[j]
    requires |clusters| == |ids| && forall i :: 0 <= i < |ids| ==> clusters[i] == Entry(ids[i], monitors, info[ids[i]])
    ensures forall i, j :: 0 <= i < j < |clusters| ==> clusters[i].id != clusters[j].id
    ensures forall i :: 0 <= i < |clusters| ==>
              clusters[i].id in info && clusters[i] == Entry(clusters[i].id, monitors, info[clusters[i].id])
    ensures forall id :: id in info ==> exists i :: 0 <= i < |clusters| && clusters[i].id == id
  {
  }

  /** The loop over the items of one cluster. */
  method FillCluster(conmap: array<ClusterInfo>, cluster: string, items: map<string, string>)
    requires forall j :: 0 <= j < conmap.Length && conmap[j].id == cluster ==>
               conmap[j].subvolumeGroup == "" && conmap[j].radosNamespace == ""
    modifies conmap
    ensures forall j :: 0 <= j < conmap.Length ==>
              conmap[j] == if old(conmap[j]).id == cluster
                           then Entry(cluster, old(conmap[j]).monitors, items) else old(conmap[j])
  {
    var left := items.Keys;
    while left != {}
      invariant left <= items.Keys
      invariant forall j :: 0 <= j < conmap.Length ==>
                  conmap[j] == if old(conmap[j]).id == cluster
                               then Entry(cluster, old(conmap[j]).monitors, Visited(items, left)) else old(conmap[j])
    {
      var key :| key in left;
      left := left - {key};
      label before:
      if key == "subvolumeGroup" || key == "radosNamespace" {
        for c := 0 to conmap.Length
          invariant forall j :: 0 <= j < conmap.Length ==>
                      conmap[j] == if j < c
                                   then Set(old@before(conmap[j]), cluster, key, items[key]) else old@before(conmap[j])
        {
          if conmap[c].id == cluster {
            if key == "subvolumeGroup" {
              conmap[c] := conmap[c].(subvolumeGroup := items[key]);
            } else {
              conmap[c] := conmap[c].(radosNamespace := items[key]);
            }
          }
        }
      }
    }
    assert Visited(items, {}) == items;
  }

  function Set(e: ClusterInfo, cluster: string, key: string, value: string): ClusterInfo {
    if e.id != cluster then e
    else if key == "subvolumeGroup" then e.(subvolumeGroup := value)
    else if key == "radosNamespace" then e.(radosNamespace := value)
    else e
  }
}
