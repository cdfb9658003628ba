/**
 * The basic-auth service, which derives a salted apr1 credential and
 * creates or patches the instance's auth Secret, and the cert-manager
 * service, which removes the instance's TLS Secret.
 */
module Secrets {
  import opened Envelope
  import opened Kube

  newtype byte = b: int | 0 <= b < 256

  /** The apr1 hash of a password under a salt; None when hashing fails. */
  type Apr1 = (string, string) -> Option<string>

  /** The length of the salt drawn for every hash. */
  const SaltLength: nat := 8

  /** The key of the auth Secret's only entry. */
  const AuthKey: string := "auth"

  /** A salt the generator can produce: eight letters from 'A' to 'Y'. */
  predicate IsSalt(salt: string)
  {
    |salt| == SaltLength && forall i :: 0 <= i < |salt| ==> 'A' <= salt[i] <= 'Y'
  }

  /**
   * `l` letters, each 65 plus a draw from [0, 25): 'A' to 'Y', never 'Z'.
   * The draws are left open.
   */
  method RandomString(l: nat) returns (s: string)
    ensures |s| == l
    ensures forall i :: 0 <= i < |s| ==> 'A' <= s[i] <= 'Y'
  {
    var bytes := new byte[l];
    for i := 0 to l
      invariant forall k :: 0 <= k < i ==> 65 <= bytes[k] <= 89
    {
      var draw :| 0 <= draw < 90 - 65;
      bytes[i] := (65 + draw) as byte;
    }
    s := seq(l, k requires 0 <= k < l reads bytes => bytes[k] as int as char);
  }

  /** `v` is "user:hash", where hash is the apr1 hash of the password under some salt the generator can draw. */
  ghost predicate IsAuthValue(apr1: Apr1, user: string, password: string, v: string)
  {
    exists salt :: IsSalt(salt) && apr1(password, salt).Some? && v == user + ":" + apr1(password, salt).value
  }

  function GetAuthSecretName(uid: string): (name: string)
    ensures uid <= name && name[|uid|..] == "-auth"
  {
    uid + "-auth"
  }

  function TlsSecretName(uid: string): (name: string)
    ensures uid <= name && name[|uid|..] == "-tls"
  {
    uid + "-tls"
  }

  /** Each instance has its own auth Secret, and no auth Secret is any instance's TLS Secret. */
  lemma SecretNamesDistinct(u1: string, u2: string)
    ensures GetAuthSecretName(u1) == GetAuthSecretName(u2) ==> u1 == u2
    ensures TlsSecretName(u1) == TlsSecretName(u2) ==> u1 == u2
    ensures GetAuthSecretName(u1) != TlsSecretName(u2)
  {
    if GetAuthSecretName(u1) == GetAuthSecretName(u2) {
      assert u1 == GetAuthSecretName(u1)[..|u1|];
    }
    if TlsSecretName(u1) == TlsSecretName(u2) {
      assert u1 == TlsSecretName(u1)[..|u1|];
    }
    var a, t := GetAuthSecretName(u1), TlsSecretName(u2);
    assert a[|a| - 1] == 'h' && t[|t| - 1] == 's';
  }

  /** A patch built from `encode` carries `v` to the API server unchanged, given that it decodes what `encode` produces. */
  lemma PatchCarriesAuthValue(kube: Cluster, encode: string -> string, v: string)
    requires forall s :: kube.decodeBase64(encode(s)) == Some(s)
    ensures kube.PatchedAuth(AuthPatch(encode(v))) == Some(v)
  {
    ParseAuthPatchRoundTrip(encode(v));
  }

  /**
   * The outcome of removing Secret `name` for `req`: the version gate, then
   * the namespace, then "absent is success", then the Delete call.
   */
  twostate predicate DeletedIfExists(kube: Cluster, req: InstanceRequest, name: string, new reply: Reply<ServiceResponse>)
    reads kube
  {
    var ns := req.deployment.namespace;
    var gate := CheckApi(req.api, ApiVersion);
    && (gate.Some? ==> reply == Reply(None, gate) && kube.secrets == old(kube.secrets))
    && (gate.None? && ns !in kube.namespaces ==>
          FailedWith(reply, NamespaceNotFound) && kube.secrets == old(kube.secrets))
    && (gate.None? && ns in kube.namespaces && name !in old(kube.SecretsIn(ns)) ==>
          reply == Respond(OK, "Secret does not exist", None) && kube.secrets == old(kube.secrets))
    && (gate.None? && ns in kube.namespaces && name in old(kube.SecretsIn(ns))
        && Call(Delete, SecretKind, ns, name) in kube.rejects ==>
          FailedWith(reply, "Error while removing secret!") && kube.secrets == old(kube.secrets))
    && (gate.None? && ns in kube.namespaces && name in old(kube.SecretsIn(ns))
        && Call(Delete, SecretKind, ns, name) !in kube.rejects ==>
          reply == Respond(OK, "Secret deleted successfully", None)
          && kube.secrets == old(kube.secrets)[ns := old(kube.SecretsIn(ns)) - {name}])
    // FAILED only for a missing namespace or a refused Delete; after OK the Secret is gone
    && (StatusOf(reply) == Some(FAILED) <==>
          gate.None? && (ns !in kube.namespaces
                         || (name in old(kube.SecretsIn(ns)) && Call(Delete, SecretKind, ns, name) in kube.rejects)))
    && (StatusOf(reply) == Some(OK) ==> name !in kube.SecretsIn(ns))
  }

  /** The handler body both Secret-removing services share. */
  method DeleteSecretIfExists(kube: Cluster, req: InstanceRequest, secretName: string) returns (reply: Reply<ServiceResponse>)
    requires kube.Valid()
    modifies kube`secrets
    ensures kube.Valid()
    ensures DeletedIfExists(kube, req, secretName, reply)
  {
    var gate := CheckApi(req.api, ApiVersion);
    if gate.Some? {
      return Reply(None, gate);
    }
    var ns := req.deployment.namespace;
    if ns !in kube.namespaces {
      return Respond(FAILED, NamespaceNotFound, Some(Error(NotFound, ns)));
    }
    if secretName !in kube.SecretsIn(ns) {
      return Respond(OK, "Secret does not exist", None);
    }
    var err := kube.DeleteSecret(ns, secretName);
    if err.Some? {
      return Respond(FAILED, "Error while removing secret!", err);
    }
    reply := Respond(OK, "Secret deleted successfully", None);
  }

  class BasicAuthServiceServer {
    const kube: Cluster
    const apr1: Apr1
    /** Base64 encoding (RFC 4648, section 4, with padding). */
    const base64: string -> string

    /** The cluster is consistent and decodes what this service encodes. */
    ghost predicate Valid()
      reads this, kube
    {
      kube.Valid() && forall s :: kube.decodeBase64(base64(s)) == Some(s)
    }

    constructor (kube: Cluster, apr1: Apr1, base64: string -> string)
      requires kube.Valid() && forall s :: kube.decodeBase64(base64(s)) == Some(s)
      ensures this.kube == kube && this.apr1 == apr1 && this.base64 == base64
      ensures Valid()
    {
      this.kube, this.apr1, this.base64 := kube, apr1, base64;
    }

    /** "user:hash" for a password hashed under a fresh salt, or an Internal error when hashing fails. */
    method AprHashCredentials(user: string, password: string) returns (r: Result<string>)
      ensures r.Success? ==> IsAuthValue(apr1, user, password, r.value)
      ensures r.Failure? ==>
        r.error == Error(Internal, "Failed to execute apr hashing")
        && exists salt :: IsSalt(salt) && apr1(password, salt).None?
    {
      var salt := RandomString(SaltLength);
      var out := apr1(password, salt);
      if out.None? {
        return Failure(Error(Internal, "Failed to execute apr hashing"));
      }
      r := Success(user + ":" + out.value);
    }

    /** The data of a new auth Secret: the single key `auth`, holding the credential. */
    method PrepareSecretDataFromCredentials(credentials: Credentials) returns (r: Result<Data>)
      ensures r.Success? ==>
        r.value.Keys == {AuthKey} && IsAuthValue(apr1, credentials.user, credentials.password, r.value[AuthKey])
      ensures r.Failure? ==>
        r.error == Error(Internal, "Failed to execute apr hashing")
        && exists salt :: IsSalt(salt) && apr1(credentials.password, salt).None?
    {
      var hash := AprHashCredentials(credentials.user, credentials.password);
      if hash.Failure? {
        return Failure(hash.error);
      }
      r := Success(map[AuthKey := hash.value]);
    }

    /** The merge-patch body that sets `auth` to the base64 text of a fresh credential. */
    method PrepareSecretJsonFromCredentials(credentials: Credentials) returns (r: Result<string>)
      ensures r.Success? ==>
        exists v :: IsAuthValue(apr1, credentials.user, credentials.password, v) && r.value == AuthPatch(base64(v))
      ensures r.Failure? ==>
        r.error == Error(Internal, "Failed to execute htpasswd executable")
        && exists salt :: IsSalt(salt) && apr1(credentials.password, salt).None?
    {
      var hash := AprHashCredentials(credentials.user, credentials.password);
      if hash.Failure? {
        return Failure(Error(Internal, "Failed to execute htpasswd executable"));
      }
      var result := AuthPatchPrefix;
      result := result + base64(hash.value);
      result := result + AuthPatchSuffix;
      r := Success(result);
    }

    /**
     * The outcome of creating the absent auth Secret `name`, as the Secrets
     * of its namespace before and after: on OK the new Secret holds only
     * `auth`, with a fresh credential, and nothing else changed; it fails,
     * changing nothing, only when hashing fails for some salt or the Create
     * is refused, and a refused Create is a failure.
     */
    ghost predicate Created(before: map<string, Data>, after: map<string, Data>, name: string,
                            c: Credentials, refused: bool, reply: Reply<ServiceResponse>)
    {
      && (StatusOf(reply) == Some(OK) ==>
            reply == Respond(OK, "Secret created successfully", None)
            && name in after && after[name].Keys == {AuthKey}
            && IsAuthValue(apr1, c.user, c.password, after[name][AuthKey])
            && after - {name} == before - {name})
      && (StatusOf(reply) != Some(OK) ==>
            ((FailedWith(reply, "Error while preparing secret!")
              && reply.err == Some(Error(Internal, "Failed to execute apr hashing"))
              && exists salt :: IsSalt(salt) && apr1(c.password, salt).None?)
             || (FailedWith(reply, "Error while creating secret!") && refused))
            && after == before)
      && (refused ==> StatusOf(reply) == Some(FAILED))
    }

    /**
     * The outcome of patching the present auth Secret `name`: on OK only its
     * `auth` entry changed, to a fresh credential; it fails, changing
     * nothing, only when hashing fails for some salt or the Patch is
     * refused, and a refused Patch is a failure.
     */
    ghost predicate Patched(before: map<string, Data>, after: map<string, Data>, name: string,
                            c: Credentials, refused: bool, reply: Reply<ServiceResponse>)
      requires name in before
    {
      && (StatusOf(reply) == Some(OK) ==>
            reply == Respond(OK, "Secret updated successfully", None)
            && name in after && AuthKey in after[name]
            && after[name] - {AuthKey} == before[name] - {AuthKey}
            && IsAuthValue(apr1, c.user, c.password, after[name][AuthKey])
            && after - {name} == before - {name})
      && (StatusOf(reply) != Some(OK) ==>
            ((FailedWith(reply, "Error while parsing configuration data")
              && reply.err == Some(Error(Internal, "Failed to execute htpasswd executable"))
              && exists salt :: IsSalt(salt) && apr1(c.password, salt).None?)
             || (FailedWith(reply, "Error while patching secret!") && refused))
            && after == before)
      && (refused ==> StatusOf(reply) == Some(FAILED))
    }

    /** When hashing succeeds for every salt and the Create is accepted, the Secret is created. */
    lemma CreatedPromisesOk(before: map<string, Data>, after: map<string, Data>, name: string,
                            c: Credentials, reply: Reply<ServiceResponse>)
      requires Created(before, after, name, c, false, reply)
      requires forall salt :: IsSalt(salt) ==> apr1(c.password, salt).Some?
      ensures reply == Respond(OK, "Secret created successfully", None)
      ensures name in after && after[name].Keys == {AuthKey}
    {
    }

    /** When hashing succeeds for every salt and the Patch is accepted, the Secret is updated. */
    lemma PatchedPromisesOk(before: map<string, Data>, after: map<string, Data>, name: string,
                            c: Credentials, reply: Reply<ServiceResponse>)
      requires name in before && Patched(before, after, name, c, false, reply)
      requires forall salt :: IsSalt(salt) ==> apr1(c.password, salt).Some?
      ensures reply == Respond(OK, "Secret updated successfully", None)
      ensures name in after && after[name] - {AuthKey} == before[name] - {AuthKey}
    {
    }

    /** The branch of CreateOrReplace for an absent Secret. */
    method CreateAuthSecret(ns: string, name: string, c: Credentials) returns (reply: Reply<ServiceResponse>)
      requires Valid() && ns in kube.namespaces && name !in kube.SecretsIn(ns)
      modifies kube`secrets
      ensures Valid()
      ensures forall m :: m != ns ==> kube.SecretsIn(m) == old(kube.SecretsIn(m))
      ensures Created(old(kube.SecretsIn(ns)), kube.SecretsIn(ns), name, c,
                      Call(Create, SecretKind, ns, name) in kube.rejects, reply)
    {
      var data := PrepareSecretDataFromCredentials(c);
      if data.Failure? {
        return Respond(FAILED, "Error while preparing secret!", Some(data.error));
      }
      var err := kube.CreateSecret(ns, name, data.value);
      if err.Some? {
        return Respond(FAILED, "Error while creating secret!", err);
      }
      reply := Respond(OK, "Secret created successfully", None);
    }

    /** The branch of CreateOrReplace for a present Secret. */
    method PatchAuthSecret(ns: string, name: string, c: Credentials) returns (reply: Reply<ServiceResponse>)
      requires Valid() && ns in kube.namespaces && name in kube.SecretsIn(ns)
      modifies kube`secrets
      ensures Valid()
      ensures forall m :: m != ns ==> kube.SecretsIn(m) == old(kube.SecretsIn(m))
      ensures Patched(old(kube.SecretsIn(ns)), kube.SecretsIn(ns), name, c,
                      Call(Patch, SecretKind, ns, name) in kube.rejects, reply)
    {
      var patch := PrepareSecretJsonFromCredentials(c);
      if patch.Failure? {
        return Respond(FAILED, "Error while parsing configuration data", Some(patch.error));
      }
      ghost var v :| IsAuthValue(apr1, c.user, c.password, v) && patch.value == AuthPatch(base64(v));
      PatchCarriesAuthValue(kube, base64, v);
      var err := kube.PatchSecret(ns, name, patch.value);
      if err.Some? {
        return Respond(FAILED, "Error while patching secret!", err);
      }
      reply := Respond(OK, "Secret updated successfully", None);
    }

    /**
     * Creates the auth Secret when it is absent and patches its `auth` key
     * when it is present, never both; every call draws a new salt.
     */
    method CreateOrReplace(req: InstanceCredentialsRequest) returns (reply: Reply<ServiceResponse>)
      requires Valid()
      modifies kube`namespaces, kube`secrets
      ensures Valid()
      ensures CheckApi(req.api, ApiVersion).Some? ==>
        reply == Reply(None, CheckApi(req.api, ApiVersion)) && unchanged(kube)
      ensures var ns := req.instance.namespace;
        CheckApi(req.api, ApiVersion).None?
        && ns !in old(kube.namespaces) && Call(Create, NamespaceKind, ns, ns) in kube.rejects ==>
          FailedWith(reply, NamespaceNotFound) && unchanged(kube)
      ensures var ns := req.instance.namespace;
        CheckApi(req.api, ApiVersion).None?
        && (ns in old(kube.namespaces) || Call(Create, NamespaceKind, ns, ns) !in kube.rejects) ==>
          && kube.namespaces == old(kube.namespaces) + {ns}
          && (forall m :: m != ns ==> kube.SecretsIn(m) == old(kube.SecretsIn(m)))
      ensures var ns := req.instance.namespace;
        var name := GetAuthSecretName(req.instance.uid);
        CheckApi(req.api, ApiVersion).None?
        && (ns in old(kube.namespaces) || Call(Create, NamespaceKind, ns, ns) !in kube.rejects)
        && name !in old(kube.SecretsIn(ns)) ==>
          Created(old(kube.SecretsIn(ns)), kube.SecretsIn(ns), name, req.credentials,
                  Call(Create, SecretKind, ns, name) in kube.rejects, reply)
      ensures var ns := req.instance.namespace;
        var name := GetAuthSecretName(req.instance.uid);
        CheckApi(req.api, ApiVersion).None?
        && (ns in old(kube.namespaces) || Call(Create, NamespaceKind, ns, ns) !in kube.rejects)
        && name in old(kube.SecretsIn(ns)) ==>
          Patched(old(kube.SecretsIn(ns)), kube.SecretsIn(ns), name, req.credentials,
                  Call(Patch, SecretKind, ns, name) in kube.rejects, reply)
    {
      var gate := CheckApi(req.api, ApiVersion);
      if gate.Some? {
        return Reply(None, gate);
      }
      var depl := req.instance;
      var err := EnsureNamespace(kube, depl.namespace);
      if err.Some? {
        return Respond(FAILED, NamespaceNotFound, err);
      }
      var secretName := GetAuthSecretName(depl.uid);
      if secretName !in kube.SecretsIn(depl.namespace) {
        reply := CreateAuthSecret(depl.namespace, secretName, req.credentials);
      } else {
        reply := PatchAuthSecret(depl.namespace, secretName, req.credentials);
      }
    }

    method DeleteIfExists(req: InstanceRequest) returns (reply: Reply<ServiceResponse>)
      requires kube.Valid()
      modifies kube`secrets
      ensures kube.Valid()
      ensures DeletedIfExists(kube, req, GetAuthSecretName(req.deployment.uid), reply)
    {
      reply := DeleteSecretIfExists(kube, req, GetAuthSecretName(req.deployment.uid));
    }
  }

  class CertManagerServiceServer {
    const kube: Cluster

    constructor (kube: Cluster)
      ensures this.kube == kube
    {
      this.kube := kube;
    }

    method DeleteIfExists(req: InstanceRequest) returns (reply: Reply<ServiceResponse>)
      requires kube.Valid()
      modifies kube`secrets
      ensures kube.Valid()
      ensures DeletedIfExists(kube, req, TlsSecretName(req.deployment.uid), reply)
    {
      reply := DeleteSecretIfExists(kube, req, TlsSecretName(req.deployment.uid));
    }
  }
}
