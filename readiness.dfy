/**
 * The readiness service: whether the instance's Deployment, or failing
 * that its StatefulSet, has all its desired replicas ready.
 */
module Readiness {
  import opened Envelope
  import opened Kube

  /** The workload a readiness probe inspects: the Deployment when there is one, else the StatefulSet. */
  function Probed(deployment: Option<Workload>, statefulSet: Option<Workload>): (w: Option<Workload>)
  {
    if deployment.Some? then deployment else statefulSet
  }

  /** A workload is ready when as many replicas are ready as are desired. */
  predicate IsReady(w: Workload)
  {
    w.replicas == w.readyReplicas
  }

  class ReadinessServiceServer {
    const kube: Cluster

    constructor (kube: Cluster)
      ensures this.kube == kube
    {
      this.kube := kube;
    }

    /**
     * OK when the probed workload is ready, PENDING while it is not, and
     * FAILED with an error when the namespace or both workloads are missing.
     */
    method CheckIfReady(req: InstanceRequest) returns (reply: Reply<ServiceResponse>)
      ensures CheckApi(req.api, ApiVersion).Some? ==> reply == Reply(None, CheckApi(req.api, ApiVersion))
      ensures var ns := req.deployment.namespace;
        CheckApi(req.api, ApiVersion).None? && ns !in kube.namespaces ==>
          FailedWith(reply, NamespaceNotFound)
      ensures var ns, uid := req.deployment.namespace, req.deployment.uid;
        var dep := kube.DeploymentNamed(ns, uid);
        CheckApi(req.api, ApiVersion).None? && ns in kube.namespaces && dep.Some? ==>
          reply == if IsReady(dep.value) then Respond(OK, "Deployment is ready", None)
                   else Respond(PENDING, "Waiting for deployment", None)
      ensures var ns, uid := req.deployment.namespace, req.deployment.uid;
        var sts := kube.StatefulSetNamed(ns, uid);
        CheckApi(req.api, ApiVersion).None? && ns in kube.namespaces
        && kube.DeploymentNamed(ns, uid).None? && sts.Some? ==>
          reply == if IsReady(sts.value) then Respond(OK, "StatefulSet is ready", None)
                   else Respond(PENDING, "Waiting for statefulset", None)
      ensures var ns, uid := req.deployment.namespace, req.deployment.uid;
        CheckApi(req.api, ApiVersion).None? && ns in kube.namespaces
        && kube.DeploymentNamed(ns, uid).None? && kube.StatefulSetNamed(ns, uid).None? ==>
          FailedWith(reply, "Neither Deployment nor StatefulSet found!")
      // each status, stated in terms of the probed workload
      ensures var ns, uid := req.deployment.namespace, req.deployment.uid;
        var w := Probed(kube.DeploymentNamed(ns, uid), kube.StatefulSetNamed(ns, uid));
        && (StatusOf(reply) == Some(OK) <==>
              CheckApi(req.api, ApiVersion).None? && ns in kube.namespaces && w.Some? && IsReady(w.value))
        && (StatusOf(reply) == Some(PENDING) <==>
              CheckApi(req.api, ApiVersion).None? && ns in kube.namespaces && w.Some? && !IsReady(w.value))
        && (StatusOf(reply) == Some(FAILED) <==>
              CheckApi(req.api, ApiVersion).None? && (ns !in kube.namespaces || w.None?))
    {
      var gate := CheckApi(req.api, ApiVersion);
      if gate.Some? {
        return Reply(None, gate);
      }
      var depl := req.deployment;
      if depl.namespace !in kube.namespaces {
        return Respond(FAILED, NamespaceNotFound, Some(Error(NotFound, depl.namespace)));
      }
      var dep := kube.DeploymentNamed(depl.namespace, depl.uid);
      if dep.None? {
        var sts := kube.StatefulSetNamed(depl.namespace, depl.uid);
        if sts.None? {
          return Respond(FAILED, "Neither Deployment nor StatefulSet found!", Some(Error(NotFound, depl.uid)));
        }
        if sts.value.replicas == sts.value.readyReplicas {
          return Respond(OK, "StatefulSet is ready", None);
        }
        return Respond(PENDING, "Waiting for statefulset", None);
      }
      if dep.value.replicas == dep.value.readyReplicas {
        return Respond(OK, "Deployment is ready", None);
      }
      reply := Respond(PENDING, "Waiting for deployment", None);
    }
  }
}
