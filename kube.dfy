/**
 * The Kubernetes cluster as the service sees it: namespaces and, per
 * namespace, ConfigMaps, Secrets, Deployments, StatefulSets and Services,
 * together with the write calls its API server accepts or refuses.
 */
module Kube {
  import opened Envelope

  /** The data of a ConfigMap or a Secret: key to value. */
  type Data = map<string, string>

  /** The two replica counts the readiness probe compares. */
  datatype Workload = Workload(replicas: int, readyReplicas: int)

  datatype Verb = Create | Update | Patch | Delete | List

  datatype Kind = NamespaceKind | ConfigMapKind | SecretKind

  /** One write or list call to the API server, by verb, resource kind, namespace and object name. */
  datatype Call = Call(verb: Verb, kind: Kind, namespace: string, name: string)

  const AuthPatchPrefix: string := "{\"data\": {\"auth\": \""

  const AuthPatchSuffix: string := "\"}}"

  /** The JSON merge-patch body that sets a Secret's `auth` key to base64 text `encoded`. */
  function AuthPatch(encoded: string): string
  {
    AuthPatchPrefix + encoded + AuthPatchSuffix
  }

  /** How the API server reads a merge-patch body of that one shape; any other body is refused. */
  function ParseAuthPatch(body: string): (r: Option<string>)
    ensures r.Some? ==> body == AuthPatch(r.value)
  {
    var p, s := |AuthPatchPrefix|, |AuthPatchSuffix|;
    if |body| >= p + s && body[..p] == AuthPatchPrefix && body[|body| - s..] == AuthPatchSuffix then
      assert body == body[..p] + body[p..|body| - s] + body[|body| - s..];
      Some(body[p..|body| - s])
    else
      None
  }

  lemma ParseAuthPatchRoundTrip(encoded: string)
    ensures ParseAuthPatch(AuthPatch(encoded)) == Some(encoded)
  {
    var body := AuthPatch(encoded);
    var p, s := |AuthPatchPrefix|, |AuthPatchSuffix|;
    assert body[..p] == AuthPatchPrefix;
    assert body[|body| - s..] == AuthPatchSuffix;
    assert body[p..|body| - s] == encoded;
  }

  class Cluster {
    var namespaces: set<string>
    /** Namespace to ConfigMap name to data. */
    var configMaps: map<string, map<string, Data>>
    /** Namespace to Secret name to data. */
    var secrets: map<string, map<string, Data>>
    var deployments: map<string, map<string, Workload>>
    var statefulSets: map<string, map<string, Workload>>
    /** Namespace to Service name to the IPs of its load-balancer ingress entries, in order. */
    var services: map<string, map<string, seq<string>>>
    /** The calls the API server refuses (a conflict, a quota, an admission hook, a lost connection). */
    const rejects: set<Call>
    /** The API server's base64 decoding of Secret values in a JSON body. */
    const decodeBase64: string -> Option<string>

    /** Every namespaced object lives in a namespace that exists. */
    ghost predicate Valid()
      reads this
    {
      && configMaps.Keys <= namespaces
      && secrets.Keys <= namespaces
      && deployments.Keys <= namespaces
      && statefulSets.Keys <= namespaces
      && services.Keys <= namespaces
    }

    constructor (namespaces: set<string>, configMaps: map<string, map<string, Data>>,
                 secrets: map<string, map<string, Data>>, deployments: map<string, map<string, Workload>>,
                 statefulSets: map<string, map<string, Workload>>, services: map<string, map<string, seq<string>>>,
                 rejects: set<Call>, decodeBase64: string -> Option<string>)
      requires configMaps.Keys <= namespaces && secrets.Keys <= namespaces
      requires deployments.Keys <= namespaces && statefulSets.Keys <= namespaces && services.Keys <= namespaces
      ensures Valid()
      ensures this.namespaces == namespaces && this.configMaps == configMaps && this.secrets == secrets
      ensures this.deployments == deployments && this.statefulSets == statefulSets && this.services == services
      ensures this.rejects == rejects && this.decodeBase64 == decodeBase64
    {
      this.namespaces, this.configMaps, this.secrets := namespaces, configMaps, secrets;
      this.deployments, this.statefulSets, this.services := deployments, statefulSets, services;
      this.rejects, this.decodeBase64 := rejects, decodeBase64;
    }

    function ConfigMapsIn(ns: string): map<string, Data>
      reads this`configMaps
    {
      if ns in configMaps then configMaps[ns] else map[]
    }

    function SecretsIn(ns: string): map<string, Data>
      reads this`secrets
    {
      if ns in secrets then secrets[ns] else map[]
    }

    function DeploymentNamed(ns: string, name: string): Option<Workload>
      reads this`deployments
    {
      if ns in deployments && name in deployments[ns] then Some(deployments[ns][name]) else None
    }

    function StatefulSetNamed(ns: string, name: string): Option<Workload>
      reads this`statefulSets
    {
      if ns in statefulSets && name in statefulSets[ns] then Some(statefulSets[ns][name]) else None
    }

    /** The ingress IPs of the Service, or None when there is no such Service. */
    function ServiceNamed(ns: string, name: string): Option<seq<string>>
      reads this`services
    {
      if ns in services && name in services[ns] then Some(services[ns][name]) else None
    }

    method CreateNamespace(ns: string) returns (err: Option<Error>)
      requires Valid()
      modifies this`namespaces
      ensures Valid()
      ensures err.None? <==> ns !in old(namespaces) && Call(Create, NamespaceKind, ns, ns) !in rejects
      ensures namespaces == if err.None? then old(namespaces) + {ns} else old(namespaces)
    {
      if ns in namespaces {
        return Some(Error(AlreadyExists, ns));
      }
      if Call(Create, NamespaceKind, ns, ns) in rejects {
        return Some(Error(Rejected, ns));
      }
      namespaces := namespaces + {ns};
      err := None;
    }

    method CreateConfigMap(ns: string, name: string, data: Data) returns (err: Option<Error>)
      requires Valid()
      modifies this`configMaps
      ensures Valid()
      ensures err.None? <==>
        ns in namespaces && name !in old(ConfigMapsIn(ns)) && Call(Create, ConfigMapKind, ns, name) !in rejects
      ensures configMaps == if err.None? then old(configMaps)[ns := old(ConfigMapsIn(ns))[name := data]] else old(configMaps)
    {
      if ns !in namespaces {
        return Some(Error(NotFound, ns));
      }
      if name in ConfigMapsIn(ns) {
        return Some(Error(AlreadyExists, name));
      }
      if Call(Create, ConfigMapKind, ns, name) in rejects {
        return Some(Error(Rejected, name));
      }
      configMaps := configMaps[ns := ConfigMapsIn(ns)[name := data]];
      err := None;
    }

    method UpdateConfigMap(ns: string, name: string, data: Data) returns (err: Option<Error>)
      requires Valid()
      modifies this`configMaps
      ensures Valid()
      ensures err.None? <==>
        ns in namespaces && name in old(ConfigMapsIn(ns)) && Call(Update, ConfigMapKind, ns, name) !in rejects
      ensures configMaps == if err.None? then old(configMaps)[ns := old(ConfigMapsIn(ns))[name := data]] else old(configMaps)
    {
      if ns !in namespaces || name !in ConfigMapsIn(ns) {
        return Some(Error(NotFound, name));
      }
      if Call(Update, ConfigMapKind, ns, name) in rejects {
        return Some(Error(Rejected, name));
      }
      configMaps := configMaps[ns := ConfigMapsIn(ns)[name := data]];
      err := None;
    }

    method DeleteConfigMap(ns: string, name: string) returns (err: Option<Error>)
      requires Valid()
      modifies this`configMaps
      ensures Valid()
      ensures err.None? <==>
        ns in namespaces && name in old(ConfigMapsIn(ns)) && Call(Delete, ConfigMapKind, ns, name) !in rejects
      ensures configMaps == if err.None? then old(configMaps)[ns := old(ConfigMapsIn(ns)) - {name}] else old(configMaps)
    {
      if ns !in namespaces || name !in ConfigMapsIn(ns) {
        return Some(Error(NotFound, name));
      }
      if Call(Delete, ConfigMapKind, ns, name) in rejects {
        return Some(Error(Rejected, name));
      }
      configMaps := configMaps[ns := ConfigMapsIn(ns) - {name}];
      err := None;
    }

    /** The names of the namespace's ConfigMaps, in an order the model leaves open. */
    method ListConfigMaps(ns: string) returns (r: Result<seq<string>>)
      ensures r.Success? <==> ns in namespaces && Call(List, ConfigMapKind, ns, "") !in rejects
      ensures r.Success? ==> forall n :: n in r.value <==> n in ConfigMapsIn(ns)
      ensures r.Success? ==> forall i, j :: 0 <= i < j < |r.value| ==> r.value[i] != r.value[j]
    {
      if ns !in namespaces {
        return Failure(Error(NotFound, ns));
      }
      if Call(List, ConfigMapKind, ns, "") in rejects {
        return Failure(Error(Rejected, ns));
      }
      var all := ConfigMapsIn(ns).Keys;
      var left := all;
      var names: seq<string> := [];
      while left != {}
        invariant left <= all
        invariant forall n :: n in names <==> n in all && n !in left
        invariant forall i, j :: 0 <= i < j < |names| ==> names[i] != names[j]
        decreases left
      {
        var n :| n in left;
        names := names + [n];
        left := left - {n};
      }
      r := Success(names);
    }

    method CreateSecret(ns: string, name: string, data: Data) returns (err: Option<Error>)
      requires Valid()
      modifies this`secrets
      ensures Valid()
      ensures err.None? <==>
        ns in namespaces && name !in old(SecretsIn(ns)) && Call(Create, SecretKind, ns, name) !in rejects
      ensures secrets == if err.None? then old(secrets)[ns := old(SecretsIn(ns))[name := data]] else old(secrets)
    {
      if ns !in namespaces {
        return Some(Error(NotFound, ns));
      }
      if name in SecretsIn(ns) {
        return Some(Error(AlreadyExists, name));
      }
      if Call(Create, SecretKind, ns, name) in rejects {
        return Some(Error(Rejected, name));
      }
      secrets := secrets[ns := SecretsIn(ns)[name := data]];
      err := None;
    }

    /** The `auth` value a body sets, once the API server has parsed and decoded it. */
    function PatchedAuth(body: string): Option<string>
    {
      match ParseAuthPatch(body)
      case None => None
      case Some(encoded) => decodeBase64(encoded)
    }

    /** A JSON merge patch of a Secret: replaces the `auth` key and keeps every other key. */
    method PatchSecret(ns: string, name: string, body: string) returns (err: Option<Error>)
      requires Valid()
      modifies this`secrets
      ensures Valid()
      ensures err.None? <==>
        ns in namespaces && name in old(SecretsIn(ns)) && Call(Patch, SecretKind, ns, name) !in rejects
        && PatchedAuth(body).Some?
      ensures err.None? ==>
        secrets == old(secrets)[ns := old(SecretsIn(ns))[name := old(SecretsIn(ns))[name]["auth" := PatchedAuth(body).value]]]
      ensures err.Some? ==> secrets == old(secrets)
    {
      if ns !in namespaces || name !in SecretsIn(ns) {
        return Some(Error(NotFound, name));
      }
      if Call(Patch, SecretKind, ns, name) in rejects {
        return Some(Error(Rejected, name));
      }
      var auth := PatchedAuth(body);
      if auth.None? {
        return Some(Error(BadRequest, name));
      }
      var existing := SecretsIn(ns);
      secrets := secrets[ns := existing[name := existing[name]["auth" := auth.value]]];
      err := None;
    }

    method DeleteSecret(ns: string, name: string) returns (err: Option<Error>)
      requires Valid()
      modifies this`secrets
      ensures Valid()
      ensures err.None? <==>
        ns in namespaces && name in old(SecretsIn(ns)) && Call(Delete, SecretKind, ns, name) !in rejects
      ensures secrets == if err.None? then old(secrets)[ns := old(SecretsIn(ns)) - {name}] else old(secrets)
    {
      if ns !in namespaces || name !in SecretsIn(ns) {
        return Some(Error(NotFound, name));
      }
      if Call(Delete, SecretKind, ns, name) in rejects {
        return Some(Error(Rejected, name));
      }
      secrets := secrets[ns := SecretsIn(ns) - {name}];
      err := None;
    }
  }

  /**
   * The step both create handlers share: look the namespace up and create
   * it when it is missing.
   */
  method EnsureNamespace(kube: Cluster, ns: string) returns (err: Option<Error>)
    requires kube.Valid()
    modifies kube`namespaces
    ensures kube.Valid()
    ensures err.None? <==> ns in old(kube.namespaces) || Call(Create, NamespaceKind, ns, ns) !in kube.rejects
    ensures kube.namespaces == if err.None? then old(kube.namespaces) + {ns} else old(kube.namespaces)
  {
    if ns in kube.namespaces {
      return None;
    }
    err := kube.CreateNamespace(ns);
  }
}
