/**
  The parameters of the StorageClasses that the tests create (e2e/rbd_helper.go,
  e2e/nvmeof-deploy.go): defaults, overridden by the caller's parameters in no particular order.
*/
module StorageClasses {

  type Parameters = map<string, string>

  /** What the caller's parameters do to one key: an empty value removes it. */
  ghost predicate MergedAt(result: Parameters, base: Parameters, parameters: Parameters, key: string) {
    if key in parameters then
      if parameters[key] == "" then key !in result else key in result && result[key] == parameters[key]
    else if key in base then key in result && result[key] == base[key]
    else key !in result
  }

  /** (base overridden by parameters) without the keys given an empty value */
  function Merged(base: Parameters, parameters: Parameters): Parameters {
    (base + parameters) - (set k | k in parameters && parameters[k] == "")
  }

  lemma MergedIs(base: Parameters, parameters: Parameters)
    ensures forall key :: MergedAt(Merged(base, parameters), base, parameters, key)
  {
  }

  /** The loop that applies the caller's parameters, for every iteration order. */
  method Override(base: Parameters, parameters: Parameters) returns (result: Parameters)
    ensures result == Merged(base, parameters)
    ensures forall k :: k in parameters && parameters[k] == "" ==> k !in result
    ensures forall k :: k in parameters && parameters[k] != "" ==> k in result && result[k] == parameters[k]
    ensures forall k :: k !in parameters ==> (k in result <==> k in base) && (k in result ==> result[k] == base[k])
  {
    result := base;
    var left := parameters.Keys;
    while left != {}
      invariant left <= parameters.Keys
      invariant forall key :: if key in left then key in result <==> key in base
                              else MergedAt(result, base, parameters, key)
      invariant forall key :: key in left && key in base ==> result[key] == base[key]
    {
      var k :| k in left;
      left := left - {k};
      result := result[k := parameters[k]];
      if parameters[k] == "" {
        result := result - {k};
      }
    }
    MergedIs(base, parameters);
    assert forall key :: MergedAt(result, base, parameters, key);
  }

  function NameKey(role: string): string {
    "csi.storage.k8s.io/" + role + "-secret-name"
  }

  function NamespaceKey(role: string): string {
    "csi.storage.k8s.io/" + role + "-secret-namespace"
  }

  /** The secrets that refer to the given names in the given namespace. */
  function Secrets(roles: seq<string>, namespace: string, name: string): Parameters {
    if roles == [] then map[]
    else Secrets(roles[1..], namespace, name)[NamespaceKey(roles[0]) := namespace][NameKey(roles[0]) := name]
  }

  lemma SecretKeys(a: string, b: string)
    ensures NameKey(a) == NameKey(b) <==> a == b
    ensures NamespaceKey(a) == NamespaceKey(b) <==> a == b
    ensures NameKey(a) != NamespaceKey(b)
    ensures NameKey(a) != "pool" && NameKey(a) != "clusterID"
    ensures NamespaceKey(a) != "pool" && NamespaceKey(a) != "clusterID"
  {
    var p := |"csi.storage.k8s.io/"|;
    assert NameKey(a)[p..p + |a|] == a && NamespaceKey(a)[p..p + |a|] == a;
    assert NameKey(b)[p..p + |b|] == b && NamespaceKey(b)[p..p + |b|] == b;
    assert NameKey(a)[|NameKey(a)| - 2] == 'm' && NamespaceKey(b)[|NamespaceKey(b)| - 2] == 'c';
    assert NameKey(a)[1] == 's' && NamespaceKey(a)[1] == 's';
  }

  /** Every role of the list has its secret, and there is nothing else. */
  lemma {:induction false} SecretsAre(roles: seq<string>, namespace: string, name: string, role: string)
    ensures var m := Secrets(roles, namespace, name);
            && (role in roles ==> NameKey(role) in m && m[NameKey(role)] == name)
            && (role in roles ==> NamespaceKey(role) in m && m[NamespaceKey(role)] == namespace)
            && (role !in roles ==> NameKey(role) !in m && NamespaceKey(role) !in m)
            && "pool" !in m && "clusterID" !in m
  {
    if roles != [] {
      SecretsAre(roles[1..], namespace, name, role);
      SecretKeys(role, roles[0]);
      SecretKeys(roles[0], role);
    }
  }

  datatype Settings = Settings(namespace: string, provisionerSecret: string, nodeSecret: string, clusterId: string)

  function RbdDefaults(template: Parameters, s: Settings, pool: string, parameters: Parameters): Parameters {
    var sc := if "topologyConstrainedPools" in parameters then template else template["pool" := pool];
    (sc + Secrets(["provisioner", "controller-expand", "controller-publish"], s.namespace, s.provisionerSecret)
        + Secrets(["node-stage", "node-publish"], s.namespace, s.nodeSecret))["clusterID" := s.clusterId]
  }

  /** The defaults, key by key: which secret goes with which role, the cluster and the pool. */
  lemma RbdDefaultsAre(template: Parameters, s: Settings, pool: string, parameters: Parameters, role: string)
    ensures var m := RbdDefaults(template, s, pool, parameters);
            var name, namespace :=
              "csi.storage.k8s.io/" + role + "-secret-name", "csi.storage.k8s.io/" + role + "-secret-namespace";
            && (role in {"provisioner", "controller-expand", "controller-publish"} ==>
                  name in m && m[name] == s.provisionerSecret && namespace in m && m[namespace] == s.namespace)
            && (role in {"node-stage", "node-publish"} ==>
                  name in m && m[name] == s.nodeSecret && namespace in m && m[namespace] == s.namespace)
            && "clusterID" in m && m["clusterID"] == s.clusterId
            && ("topologyConstrainedPools" !in parameters ==> "pool" in m && m["pool"] == pool)
            && ("topologyConstrainedPools" in parameters ==>
                  ("pool" in m <==> "pool" in template) && ("pool" in m ==> m["pool"] == template["pool"]))
  {
    SecretsAre(["provisioner", "controller-expand", "controller-publish"], s.namespace, s.provisionerSecret, role);
    SecretsAre(["node-stage", "node-publish"], s.namespace, s.nodeSecret, role);
    SecretKeys(role, role);
  }

  /** The parameters set by createRBDStorageClass. */
  method RbdParameters(template: Parameters, s: Settings, pool: string, parameters: Parameters) returns (sc: Parameters)
    ensures sc == Merged(RbdDefaults(template, s, pool, parameters), parameters)
    ensures forall k :: k in sc && k in parameters ==> sc[k] == parameters[k] != ""
  {
    sc := template;
    if "topologyConstrainedPools" !in parameters {
      sc := sc["pool" := pool];
    }
    sc := sc + Secrets(["provisioner", "controller-expand", "controller-publish"], s.namespace, s.provisionerSecret);
    sc := sc + Secrets(["node-stage", "node-publish"], s.namespace, s.nodeSecret);
    sc := sc["clusterID" := s.clusterId];
    sc := Override(sc, parameters);
  }

  datatype Gateway = Gateway(subsystem: string, address: string, networkMask: string, listeners: string)

  function NvmeofDefaults(template: Parameters, s: Settings): Parameters {
    (template + Secrets(["provisioner", "controller-publish", "controller-expand"], s.namespace, s.provisionerSecret)
              + Secrets(["node-stage"], s.namespace, s.nodeSecret))["clusterID" := s.clusterId]
  }

  lemma NvmeofDefaultsAre(template: Parameters, s: Settings, role: string)
    ensures var m := NvmeofDefaults(template, s);
            var name, namespace :=
              "csi.storage.k8s.io/" + role + "-secret-name", "csi.storage.k8s.io/" + role + "-secret-namespace";
            && (role in {"provisioner", "controller-publish", "controller-expand"} ==>
                  name in m && m[name] == s.provisionerSecret && namespace in m && m[namespace] == s.namespace)
            && (role == "node-stage" ==>
                  name in m && m[name] == s.nodeSecret && namespace in m && m[namespace] == s.namespace)
            && "clusterID" in m && m["clusterID"] == s.clusterId
  {
    SecretsAre(["provisioner", "controller-publish", "controller-expand"], s.namespace, s.provisionerSecret, role);
    SecretsAre(["node-stage"], s.namespace, s.nodeSecret, role);
    SecretKeys(role, role);
  }

  const SKIP := "skipSubsystemNQN"

  /** The keys that createNVMeoFStorageClass sets or deletes after the merge. */
  predicate SetLast(key: string, skip: bool) {
    key in {SKIP, "networkMask", "listeners", "nvmeofGatewayAddress"} || (key == "subsystemNQN" && !skip)
  }

  /** What createNVMeoFStorageClass does after the merge. */
  method SetGateway(merged: Parameters, gw: Gateway, skip: bool, useNetworkMask: bool) returns (sc: Parameters)
    ensures "skipSubsystemNQN" !in sc
    ensures if useNetworkMask then "networkMask" in sc && sc["networkMask"] == gw.networkMask && "listeners" !in sc
            else "listeners" in sc && sc["listeners"] == gw.listeners && "networkMask" !in sc
    ensures "nvmeofGatewayAddress" in sc && sc["nvmeofGatewayAddress"] == gw.address
    ensures !skip ==> "subsystemNQN" in sc && sc["subsystemNQN"] == gw.subsystem
    ensures forall k :: !SetLast(k, skip) ==> (k in sc <==> k in merged) && (k in sc ==> sc[k] == merged[k])
  {
    sc := merged;
    if !skip {
      sc := sc["subsystemNQN" := gw.subsystem];
    }
    sc := sc - {SKIP};
    sc := sc["nvmeofGatewayAddress" := gw.address];
    if useNetworkMask {
      sc := sc["networkMask" := gw.networkMask];
      sc := sc - {"listeners"};
    } else {
      sc := sc["listeners" := gw.listeners];
      sc := sc - {"networkMask"};
    }
  }

  /** The parameters set by createNVMeoFStorageClass. */
  method NvmeofParameters(template: Parameters, s: Settings, gw: Gateway, parameters: Parameters, useNetworkMask: bool)
    returns (sc: Parameters)
    ensures "skipSubsystemNQN" !in sc
    ensures if useNetworkMask then "networkMask" in sc && sc["networkMask"] == gw.networkMask && "listeners" !in sc
            else "listeners" in sc && sc["listeners"] == gw.listeners && "networkMask" !in sc
    ensures "nvmeofGatewayAddress" in sc && sc["nvmeofGatewayAddress"] == gw.address
    ensures "skipSubsystemNQN" !in parameters ==> "subsystemNQN" in sc && sc["subsystemNQN"] == gw.subsystem
    ensures forall k :: k !in {"skipSubsystemNQN", "networkMask", "listeners", "nvmeofGatewayAddress"} &&
                        (k != "subsystemNQN" || "skipSubsystemNQN" in parameters) ==>
              MergedAt(sc, NvmeofDefaults(template, s), parameters, k)
  {
    var roles := ["provisioner", "controller-publish", "controller-expand"];
    sc := template + Secrets(roles, s.namespace, s.provisionerSecret);
    sc := sc + Secrets(["node-stage"], s.namespace, s.nodeSecret);
    sc := sc["clusterID" := s.clusterId];
    sc := Override(sc, parameters);
    MergedIs(NvmeofDefaults(template, s), parameters);
    sc := SetGateway(sc, gw, SKIP in parameters, useNetworkMask);
  }
}
