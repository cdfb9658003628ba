# nmaas-janitor service handlers, modelled in Dafny

nmaas-janitor is a gRPC service that tends to the Kubernetes side of
applications deployed by NMaaS. This project models its service layer,
`pkg/service/v1/config-service.go`, which has five servers:

- **ConfigService** locates the instance's GitLab project. It compiles the
  repository into one configuration group per directory and writes each
  group as a ConfigMap named `uid` (the root) or `uid-<directory>`. It
  removes every ConfigMap it regards as the instance's.
- **BasicAuthService** derives an apr1 credential `user:hash` under a fresh
  eight-letter salt. It creates the `uid-auth` Secret, or merge-patches that
  Secret's `auth` key when it exists. It also deletes the Secret.
- **CertManagerService** deletes the instance's `uid-tls` Secret.
- **ReadinessService** reports OK, PENDING or FAILED from the replica counts
  of the instance's Deployment. It looks at the StatefulSet only when there
  is no Deployment.
- **InformationService** returns the first load-balancer ingress IP of the
  instance's Service, and whether that Service exists.

Every handler first passes the API-version gate. An empty version or
`"v1"` is accepted; anything else is refused with `Unimplemented` and no
response.

## Structure

| file | module | contents |
|---|---|---|
| `envelope.dfy` | `Envelope` | requests, replies, status and error codes, the version gate |
| `kube.dfy` | `Kube` | the Kubernetes API server as a `Cluster` object with namespaces, ConfigMaps, Secrets, workloads and Services; its write calls update the fields in place |
| `gitlab.dfy` | `GitLab` | the GitLab instance as a read-only `Store` value |
| `config_service.dfy` | `ConfigService` | project lookup, repository compilation, ConfigMap naming, reconciliation and deletion |
| `secrets.dfy` | `Secrets` | salt generation, credential hashing, the auth Secret, Secret deletion |
| `readiness.dfy` | `Readiness` | the readiness probe |
| `information.dfy` | `Information` | Service IP and existence |

The cluster's failures are data. `Cluster.rejects` is the set of write or
list calls the API server refuses. A refused call returns an error and
changes nothing. A Get is modelled by presence in the maps: a missing
object is the only Get failure. The GitLab store answers each query with
`None` when the query fails.

Go's iteration over a map has no fixed order. The ConfigMap writer picks the
next directory with `:|`, so its contract holds for every visiting order. A
ConfigMap listing returns the names in an order the model leaves open.

## Model

| member | source | states |
|---|---|---|
| Envelope.CheckApi | pkg/service/v1/config-service.go:73-79 | the gate passes exactly when the requested version is empty or equals the current one; a refusal carries `Unimplemented` |
| Envelope.CheckApiCases | pkg/service/v1/config-service_test.go:5-18 | a mismatching version is refused and a matching one passes |
| Envelope.PrepareResponse | pkg/service/v1/config-service.go:82-88 | every response carries the service's API version `v1` with the given status and message |
| Envelope.PrepareInfoResponse | pkg/service/v1/config-service.go:91-98 | every info response carries `v1` with the given status, message and info |
| Kube.ParseAuthPatch | pkg/service/v1/config-service.go:351-353 | a parsed body is exactly the `{"data": {"auth": "<value>"}}` merge patch of the value it yields |
| Kube.ParseAuthPatchRoundTrip | pkg/service/v1/config-service.go:351-353 | the API server reads back the value put into the patch body |
| Kube.Cluster.CreateNamespace | pkg/service/v1/config-service.go:229-234 | succeeds exactly when the namespace is new and the call is not refused; on success the namespace is added, otherwise nothing changes |
| Kube.EnsureNamespace | pkg/service/v1/config-service.go:226-235 | succeeds exactly when the namespace exists or its creation is not refused; afterwards the namespace exists on success |
| Kube.Cluster.CreateConfigMap | pkg/service/v1/config-service.go:259-264 | succeeds exactly when the namespace exists, the name is free and the call is not refused; the ConfigMap then holds the data |
| Kube.Cluster.UpdateConfigMap | pkg/service/v1/config-service.go:266-271 | succeeds exactly when the ConfigMap exists and the call is not refused; its data is then replaced |
| Kube.Cluster.DeleteConfigMap | pkg/service/v1/config-service.go:304-307 | succeeds exactly when the ConfigMap exists and the call is not refused; it is then removed |
| Kube.Cluster.ListConfigMaps | pkg/service/v1/config-service.go:294-297 | succeeds exactly when the namespace exists and the list is not refused; the listed names are exactly the namespace's ConfigMaps, each once |
| Kube.Cluster.CreateSecret | pkg/service/v1/config-service.go:395-399 | succeeds exactly when the namespace exists, the name is free and the call is not refused; the Secret then holds the data |
| Kube.Cluster.PatchSecret | pkg/service/v1/config-service.go:408-412 | succeeds exactly when the Secret exists, the call is not refused and the body decodes; only its `auth` key changes, to the decoded value |
| Kube.Cluster.DeleteSecret | pkg/service/v1/config-service.go:440-444 | succeeds exactly when the Secret exists and the call is not refused; it is then removed |
| ConfigService.FirstNamedIsFirstMatch | pkg/service/v1/config-service.go:119-125 | the scan finds a project exactly when one has the name, and returns the id of the first one |
| ConfigService.ProjectLookupMeaning | pkg/service/v1/config-service.go:101-128 | a lookup succeeds exactly when the domain search finds one group whose project list names the instance; it returns the first match's id; every failure is `NotFound` |
| ConfigService.FindGitlabProjectId | pkg/service/v1/config-service.go:101-128 | the loop returns the lookup's id, or -1 with the lookup's error |
| ConfigService.CollectBlobsMeaning | pkg/service/v1/config-service.go:143-162 | collecting a listing succeeds exactly when every blob is readable; the keys are the blob names; each name holds the content of its last blob; non-blob entries are skipped |
| ConfigService.CollectDirectoriesMeaning | pkg/service/v1/config-service.go:171-207 | collecting the directories succeeds exactly when every file under every directory is readable; each directory name holds the files of its last listing |
| ConfigService.CompileTreeMeaning | pkg/service/v1/config-service.go:131-210 | compiling succeeds exactly when every file is readable, and otherwise fails with `Internal` "Error while reading file from Gitlab!"; the groups are the root `""` and the directory names; a failed listing counts as empty |
| ConfigService.CollectFiles | pkg/service/v1/config-service.go:146-162 | the loop over a listing computes the collected files |
| ConfigService.PrepareDataMapFromRepository | pkg/service/v1/config-service.go:131-210 | the two loops compute the compiled tree, error included |
| ConfigService.ConfigMapName | pkg/service/v1/config-service.go:247-252 | the name starts with the uid; it is longer than the uid exactly for a non-root directory, and then continues with `-` and the directory |
| ConfigService.DirectoryOfConfigMapName | pkg/service/v1/config-service.go:247-252 | a group's directory is recovered from its ConfigMap name |
| ConfigService.ConfigMapNameInjective | pkg/service/v1/config-service.go:247-252 | distinct directories give distinct ConfigMap names |
| ConfigService.IsGroupNameExactly | pkg/service/v1/config-service.go:247-252 | a name belongs to a group exactly when it is that group's ConfigMap name |
| ConfigService.ReconcileStep | pkg/service/v1/config-service.go:245-273 | writing one more group keeps every group written so far and leaves non-group ConfigMaps as they were |
| ConfigService.AllRefusedChangesNothing | pkg/service/v1/config-service.go:259-271 | when every group's write is refused, the writer's failure leaves the namespace's ConfigMaps exactly as they were |
| ConfigService.ConfigMapNamesAreOwned | pkg/service/v1/config-service.go:247-252 | every ConfigMap the writer creates is one the deleter regards as the instance's |
| ConfigService.Owned | pkg/service/v1/config-service.go:301 | a ConfigMap is the instance's exactly when its name is the uid or `uid-` occurs at some position of it |
| ConfigService.ContainsOccurs | pkg/service/v1/config-service.go:301 | the substring test holds exactly when the needle starts at some position of the text |
| ConfigService.ContainsPrefixed | pkg/service/v1/config-service.go:301 | a substring stays a substring when text is put in front |
| ConfigService.SubstringMatchReachesOtherInstances | pkg/service/v1/config-service.go:301 | the substring test also claims another instance's directory ConfigMaps when that instance's uid ends with this uid |
| ConfigService.DeleterRemovesForeignConfigMap | pkg/service/v1/config-service.go:247-252 | for any instance `prefix + uid` whose uid does not start with `uid-`, the deleter of `uid` removes that instance's directory ConfigMaps, which the writer of `uid` never writes |
| ConfigService.AppDeletesMyappConfig | pkg/service/v1/config-service.go:301 | instance `app` deletes `myapp-config`, which it never writes |
| ConfigService.AfterDeletionIdempotent | pkg/service/v1/config-service.go:299-309 | deleting twice leaves what deleting once leaves |
| ConfigService.DeletionClearsReconciled | pkg/service/v1/config-service.go:245-309 | when no delete is refused, deletion removes every ConfigMap a reconciliation wrote |
| ConfigService.ConfigServiceServer.constructor | pkg/service/v1/config-service.go:49-51 | the server holds the given cluster and GitLab store |
| ConfigService.ConfigServiceServer.WriteConfigMaps | pkg/service/v1/config-service.go:245-275 | OK exactly when no group's Create or Update is refused, and then every group's ConfigMap holds its files; otherwise it stops at a refused write of some group, reports "Failed to create ConfigMap" when that write was a Create and "Error while updating configmap!" when it was an Update, with an error, and the groups written before it, whose writes were all accepted, stay written while nothing else changed |
| ConfigService.ConfigServiceServer.CreateOrReplace | pkg/service/v1/config-service.go:213-276 | the gate, the project lookup and the namespace creation each fail with their reply and change nothing; a compilation failure replies FAILED "Failed to create ConfigMap" with the read error and writes no ConfigMap, though a namespace created just before stays; then the writer's contract, failure reply included |
| ConfigService.ConfigServiceServer.DeleteIfExists | pkg/service/v1/config-service.go:279-312 | gate, then namespace; a refused listing is OK and changes nothing; otherwise OK with the namespace's ConfigMaps as left by the deletion |
| Secrets.GetAuthSecretName | pkg/service/v1/config-service.go:358-360 | the auth Secret's name is the uid followed by `-auth` |
| Secrets.TlsSecretName | pkg/service/v1/config-service.go:463 | the TLS Secret's name is the uid followed by `-tls` |
| Secrets.RandomString | pkg/service/v1/config-service.go:314-320 | the string has the requested length and every letter lies in 'A'..'Y' |
| Secrets.SecretNamesDistinct | pkg/service/v1/config-service.go:358-360 | auth Secret names are injective in the uid, so are TLS Secret names, and the two never coincide |
| Secrets.PatchCarriesAuthValue | pkg/service/v1/config-service.go:344-356 | when the API server decodes what the service encodes, the patch body brings the credential through unchanged |
| Secrets.DeleteSecretIfExists | pkg/service/v1/config-service.go:418-447 | gate, then namespace; an absent Secret is OK "Secret does not exist"; a refused delete fails; otherwise OK and the Secret is gone |
| Secrets.BasicAuthServiceServer.constructor | pkg/service/v1/config-service.go:53-55 | the server holds the cluster, the hash and the encoder, and is valid when the cluster decodes what the encoder produces |
| Secrets.BasicAuthServiceServer.AprHashCredentials | pkg/service/v1/config-service.go:322-330 | on success the value is `user:` followed by the hash under a generator salt; on failure it is `Internal` "Failed to execute apr hashing", and some generator salt makes the hash fail |
| Secrets.BasicAuthServiceServer.PrepareSecretDataFromCredentials | pkg/service/v1/config-service.go:332-342 | the Secret data has the single key `auth`, holding a credential for the user and password; it fails only when hashing fails for some salt, and passes that error on |
| Secrets.BasicAuthServiceServer.PrepareSecretJsonFromCredentials | pkg/service/v1/config-service.go:344-356 | the body is the merge patch of the base64 text of such a credential; it fails only when hashing fails for some salt, with `Internal` "Failed to execute htpasswd executable" |
| Secrets.BasicAuthServiceServer.CreateAuthSecret | pkg/service/v1/config-service.go:385-401 | on OK the new Secret holds only `auth`, a credential for the user; it fails, changing nothing, only when hashing fails ("Error while preparing secret!", passing on `Internal` "Failed to execute apr hashing") or the Create is refused ("Error while creating secret!"); a refused Create fails |
| Secrets.BasicAuthServiceServer.PatchAuthSecret | pkg/service/v1/config-service.go:402-415 | on OK only the `auth` key changes, to a new credential; it fails, changing nothing, only when hashing fails ("Error while parsing configuration data", passing on `Internal` "Failed to execute htpasswd executable") or the Patch is refused ("Error while patching secret!"); a refused Patch fails |
| Secrets.BasicAuthServiceServer.CreatedPromisesOk | pkg/service/v1/config-service.go:385-401 | when hashing works for every salt and the Create is accepted, the reply is OK "Secret created successfully" and the Secret exists with the single key `auth` |
| Secrets.BasicAuthServiceServer.PatchedPromisesOk | pkg/service/v1/config-service.go:402-415 | when hashing works for every salt and the Patch is accepted, the reply is OK "Secret updated successfully" and only `auth` changed |
| Secrets.BasicAuthServiceServer.CreateOrReplace | pkg/service/v1/config-service.go:362-416 | gate, then namespace creation; then Create when the auth Secret is absent and Patch when it is present, never both; other namespaces' Secrets and the namespace's other Secrets are untouched |
| Secrets.BasicAuthServiceServer.DeleteIfExists | pkg/service/v1/config-service.go:418-447 | the shared deletion, applied to `uid-auth` |
| Secrets.CertManagerServiceServer.constructor | pkg/service/v1/config-service.go:57-59 | the server holds the given cluster |
| Secrets.CertManagerServiceServer.DeleteIfExists | pkg/service/v1/config-service.go:449-478 | the shared deletion, applied to `uid-tls` |
| Readiness.ReadinessServiceServer.constructor | pkg/service/v1/config-service.go:61-63 | the server holds the given cluster |
| Readiness.ReadinessServiceServer.CheckIfReady | pkg/service/v1/config-service.go:480-522 | OK exactly when the probed workload (the Deployment if any, else the StatefulSet) has all replicas ready; PENDING exactly when it exists but is not ready; FAILED exactly when the namespace or both workloads are missing; each case with its message |
| Information.InformationServiceServer.constructor | pkg/service/v1/config-service.go:65-67 | the server holds the given cluster |
| Information.InformationServiceServer.RetrieveServiceIp | pkg/service/v1/config-service.go:524-564 | OK exactly when the Service exists and its first ingress has an IP, and then the info is that IP; missing namespace or Service fails with an error; no ingress, or a first ingress without an IP, fails without one |
| Information.InformationServiceServer.CheckServiceExists | pkg/service/v1/config-service.go:566-592 | OK exactly when the namespace holds the Service, with the Service's name as the info; otherwise FAILED with an error |

## Left out

- The gRPC transport, the server bootstrap and the command-line entry points are not modelled (`pkg/protocol/grpc/server.go`, `pkg/api/cmd/server.go`, `pkg/cmd/server/main.go`).
- Logging and the request context are not modelled, because they do not affect the replies or the cluster.
- Network failures, timeouts and concurrent writers are not modelled. Each handler runs alone against a fixed cluster and store.
- Get failures other than "object absent" (permission denied, API server down) are not modelled. A Get either finds the object or it does not.
- The API server's error values are not modelled. They are abstracted to a code and the object's name, so the handlers' pass-through errors are stated as "some error" (`err.Some?`).
- The apr1 MD5-crypt algorithm and base64 encoding are not modelled; they are opaque functions. The only assumption is that the cluster decodes what the service encodes (`BasicAuthServiceServer.Valid`).
- `math/rand` is not modelled. Each salt letter is an arbitrary draw in its range, so a fresh salt on each call is not something the model can state.
- Secrets.BasicAuthServiceServer.AprHashCredentials: says "some generator salt" rather than naming the salt drawn, because the draw is nondeterministic.
- Readiness.ReadinessServiceServer.CheckIfReady: assumes the desired replica count is always set. The source reads that count without checking that it is present.
- Lists are not paginated: one `List` call is taken to return every ConfigMap.
- Strings and byte slices are both modelled as `string`. The conversions between them in the source copy bytes and do not change the data.

## Surprising behaviour of the code

- **Deletion matching.** `DeleteIfExists` removes every ConfigMap named `uid` or whose name contains `uid-` anywhere, not only those starting with it. So it also removes another instance's directory ConfigMaps when that instance's uid ends with this one (`SubstringMatchReachesOtherInstances`, `DeleterRemovesForeignConfigMap`). The model follows the code.
- **Listing failures.** `PrepareDataMapFromRepository` treats a failed tree listing as an empty one: the root and per-directory listing errors are only logged, and the recursive listing's error is not checked at all. Only a failed file read aborts compilation. The model does the same.
