/**
 * The information service: the first load-balancer ingress IP of the
 * instance's Service, and whether that Service exists.
 */
module Information {
  import opened Envelope
  import opened Kube

  /** The status of an info reply that has a response. */
  function InfoStatusOf(reply: Reply<InfoServiceResponse>): Option<Status>
  {
    match reply.response
    case Some(r) => Some(r.status)
    case None => None
  }

  /** `reply` carries a FAILED response with this message, no info and a non-nil error. */
  predicate InfoFailedWith(reply: Reply<InfoServiceResponse>, message: string)
  {
    reply.response == Some(PrepareInfoResponse(FAILED, message, "")) && reply.err.Some?
  }

  class InformationServiceServer {
    const kube: Cluster

    constructor (kube: Cluster)
      ensures this.kube == kube
    {
      this.kube := kube;
    }

    /**
     * OK with the first ingress IP of the Service; FAILED when the
     * namespace or the Service is missing (with an error) or when the
     * Service has no ingress or its first ingress has no IP (without one).
     */
    method RetrieveServiceIp(req: InstanceRequest) returns (reply: Reply<InfoServiceResponse>)
      ensures CheckApi(req.api, ApiVersion).Some? ==> reply == Reply(None, CheckApi(req.api, ApiVersion))
      ensures var ns := req.deployment.namespace;
        CheckApi(req.api, ApiVersion).None? && ns !in kube.namespaces ==>
          InfoFailedWith(reply, NamespaceNotFound)
      ensures var ns, uid := req.deployment.namespace, req.deployment.uid;
        var service := kube.ServiceNamed(ns, uid);
        CheckApi(req.api, ApiVersion).None? && ns in kube.namespaces ==>
          && (service.None? ==> InfoFailedWith(reply, "Service not found!"))
          && (service.Some? && |service.value| == 0 ==>
                reply == RespondInfo(FAILED, "Service ingress not found!", "", None))
          && (service.Some? && |service.value| > 0 && service.value[0] == "" ==>
                reply == RespondInfo(FAILED, "Ip not found!", "", None))
      // OK exactly when the first ingress has an IP, and then the info is that IP
      ensures var ns, uid := req.deployment.namespace, req.deployment.uid;
        var service := kube.ServiceNamed(ns, uid);
        InfoStatusOf(reply) == Some(OK) <==>
          CheckApi(req.api, ApiVersion).None? && ns in kube.namespaces
          && service.Some? && |service.value| > 0 && service.value[0] != ""
      ensures var ns, uid := req.deployment.namespace, req.deployment.uid;
        InfoStatusOf(reply) == Some(OK) ==>
          reply == RespondInfo(OK, "", kube.ServiceNamed(ns, uid).value[0], None)
    {
      var gate := CheckApi(req.api, ApiVersion);
      if gate.Some? {
        return Reply(None, gate);
      }
      var depl := req.deployment;
      if depl.namespace !in kube.namespaces {
        return RespondInfo(FAILED, NamespaceNotFound, "", Some(Error(NotFound, depl.namespace)));
      }
      var app := kube.ServiceNamed(depl.namespace, depl.uid);
      if app.None? {
        return RespondInfo(FAILED, "Service not found!", "", Some(Error(NotFound, depl.uid)));
      }
      if |app.value| > 0 {
        var ip := app.value[0];
        if ip != "" {
          return RespondInfo(OK, "", ip, None);
        }
        return RespondInfo(FAILED, "Ip not found!", "", None);
      }
      reply := RespondInfo(FAILED, "Service ingress not found!", "", None);
    }

    /** OK with the Service's name when it exists in the namespace; FAILED with an error otherwise. */
    method CheckServiceExists(req: InstanceRequest) returns (reply: Reply<InfoServiceResponse>)
      ensures CheckApi(req.api, ApiVersion).Some? ==> reply == Reply(None, CheckApi(req.api, ApiVersion))
      ensures var ns := req.deployment.namespace;
        CheckApi(req.api, ApiVersion).None? && ns !in kube.namespaces ==>
          InfoFailedWith(reply, NamespaceNotFound)
      ensures var ns, uid := req.deployment.namespace, req.deployment.uid;
        CheckApi(req.api, ApiVersion).None? && ns in kube.namespaces && kube.ServiceNamed(ns, uid).None? ==>
          InfoFailedWith(reply, "Service not found!")
      ensures var ns, uid := req.deployment.namespace, req.deployment.uid;
        InfoStatusOf(reply) == Some(OK) <==>
          CheckApi(req.api, ApiVersion).None? && ns in kube.namespaces && kube.ServiceNamed(ns, uid).Some?
      ensures InfoStatusOf(reply) == Some(OK) ==> reply == RespondInfo(OK, "", req.deployment.uid, None)
    {
      var gate := CheckApi(req.api, ApiVersion);
      if gate.Some? {
        return Reply(None, gate);
      }
      var depl := req.deployment;
      if depl.namespace !in kube.namespaces {
        return RespondInfo(FAILED, NamespaceNotFound, "", Some(Error(NotFound, depl.namespace)));
      }
      var ser := kube.ServiceNamed(depl.namespace, depl.uid);
      if ser.None? {
        return RespondInfo(FAILED, "Service not found!", "", Some(Error(NotFound, depl.uid)));
      }
      reply := RespondInfo(OK, "", depl.uid, None);
    }
  }
}
