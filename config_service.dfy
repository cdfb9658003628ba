/**
 * The ConfigMap service: resolve the GitLab project of an instance, read
 * its repository into one group of files per directory, and reconcile one
 * ConfigMap per group; and delete the ConfigMaps that belong to an instance.
 */
module ConfigService {
  import opened Envelope
  import opened Kube
  import opened GitLab

  /** Directory name ("" for the repository root) to file name to file content. */
  type ConfigTree = map<string, Data>

  const GroupNotFound: string := "Gitlab Group for given domain does not exist"
  const ProjectNotFound: string := "Project containing config not found on Gitlab"
  const ReadFailed: Error := Error(Internal, "Error while reading file from Gitlab!")

  // ---------------------------------------------------------------------
  // Project lookup

  /** The ID of the first project in list order whose name is `uid`. */
  function FirstNamed(projects: seq<Project>, uid: string): Option<int>
  {
    if projects == [] then None
    else if projects[0].name == uid then Some(projects[0].id)
    else FirstNamed(projects[1..], uid)
  }

  lemma {:induction false} FirstNamedIsFirstMatch(projects: seq<Project>, uid: string)
    ensures FirstNamed(projects, uid).Some? <==> exists k :: 0 <= k < |projects| && projects[k].name == uid
    ensures forall k :: 0 <= k < |projects| && projects[k].name == uid
                        && (forall j :: 0 <= j < k ==> projects[j].name != uid)
                        ==> FirstNamed(projects, uid) == Some(projects[k].id)
  {
    if projects != [] && projects[0].name != uid {
      var rest := projects[1..];
      FirstNamedIsFirstMatch(rest, uid);
      if FirstNamed(projects, uid).Some? {
        var k :| 0 <= k < |rest| && rest[k].name == uid;
        assert projects[k + 1].name == uid;
      }
      forall k | 0 <= k < |projects| && projects[k].name == uid
                 && (forall j :: 0 <= j < k ==> projects[j].name != uid)
        ensures FirstNamed(projects, uid) == Some(projects[k].id)
      {
        assert k > 0;
        assert rest[k - 1] == projects[k];
        assert forall j :: 0 <= j < k - 1 ==> rest[j] == projects[j + 1];
      }
    }
  }

  /** The outcome of the group search, then the project search, for one instance. */
  function ProjectLookup(git: Store, uid: string, domain: string): Result<int>
  {
    match SearchGroup(git, domain)
    case None => Failure(Error(NotFound, GroupNotFound))
    case Some(groups) =>
      if |groups| != 1 then Failure(Error(NotFound, GroupNotFound))
      else match ListGroupProjects(git, groups[0].id)
        case None => Failure(Error(NotFound, ProjectNotFound))
        case Some(projects) =>
          if |projects| == 0 then Failure(Error(NotFound, ProjectNotFound))
          else match FirstNamed(projects, uid)
            case Some(id) => Success(id)
            case None => Failure(Error(NotFound, ProjectNotFound))
  }

  /** The projects of the one group a domain search found, when it found exactly one. */
  ghost predicate SoleGroupProjects(git: Store, domain: string, projects: seq<Project>)
  {
    && SearchGroup(git, domain).Some?
    && |SearchGroup(git, domain).value| == 1
    && ListGroupProjects(git, SearchGroup(git, domain).value[0].id) == Some(projects)
  }

  lemma ProjectLookupMeaning(git: Store, uid: string, domain: string)
    ensures ProjectLookup(git, uid, domain).Failure? ==> ProjectLookup(git, uid, domain).error.code == NotFound
    ensures ProjectLookup(git, uid, domain).Success? <==>
      exists projects: seq<Project> :: SoleGroupProjects(git, domain, projects)
                         && exists k :: 0 <= k < |projects| && projects[k].name == uid
    ensures forall projects: seq<Project>, k: int :: SoleGroupProjects(git, domain, projects)
                                  && 0 <= k < |projects| && projects[k].name == uid
                                  && (forall j :: 0 <= j < k ==> projects[j].name != uid)
                                  ==> ProjectLookup(git, uid, domain) == Success(projects[k].id)
  {
    var found := SearchGroup(git, domain);
    if found.Some? && |found.value| == 1 {
      var projects := ListGroupProjects(git, found.value[0].id);
      if projects.Some? {
        FirstNamedIsFirstMatch(projects.value, uid);
        assert SoleGroupProjects(git, domain, projects.value);
      }
    }
  }

  method FindGitlabProjectId(git: Store, uid: string, domain: string) returns (id: int, err: Option<Error>)
    ensures err.None? ==> ProjectLookup(git, uid, domain) == Success(id)
    ensures err.Some? ==> ProjectLookup(git, uid, domain) == Failure(err.value) && id == -1
  {
    var groups := SearchGroup(git, domain);
    if groups.None? || |groups.value| != 1 {
      return -1, Some(Error(NotFound, GroupNotFound));
    }
    var projects := ListGroupProjects(git, groups.value[0].id);
    if projects.None? || |projects.value| == 0 {
      return -1, Some(Error(NotFound, ProjectNotFound));
    }
    var projs := projects.value;
    for i := 0 to |projs|
      invariant FirstNamed(projs, uid) == FirstNamed(projs[i..], uid)
    {
      assert projs[i..][1..] == projs[i + 1..];
      if projs[i].name == uid {
        return projs[i].id, None;
      }
    }
    return -1, Some(Error(NotFound, ProjectNotFound));
  }

  // ---------------------------------------------------------------------
  // Reading the repository

  /** A listing whose call failed counts as empty: the failure is only logged. */
  function Entries(git: Store, project: int, opt: ListTreeOptions): seq<TreeNode>
  {
    match ListTree(git, project, opt)
    case Some(entries) => entries
    case None => []
  }

  const RootListing: ListTreeOptions := ListTreeOptions(None, false)

  const RecursiveListing: ListTreeOptions := ListTreeOptions(None, true)

  function DirectoryListing(directory: TreeNode): ListTreeOptions
  {
    ListTreeOptions(Some(directory.path), true)
  }

  /**
   * Adds to `acc`, in listing order, each blob entry's content under its
   * file name; None as soon as one content cannot be fetched.
   */
  function CollectBlobs(git: Store, project: int, acc: Data, entries: seq<TreeNode>): Option<Data>
    decreases |entries|
  {
    if entries == [] then Some(acc)
    else if entries[0].kind != Blob then CollectBlobs(git, project, acc, entries[1..])
    else match GetRawFile(git, project, entries[0].path)
      case None => None
      case Some(content) => CollectBlobs(git, project, acc[entries[0].name := content], entries[1..])
  }

  /** Adds to `acc`, in listing order, one group per tree entry, keyed by the directory's name. */
  function CollectDirectories(git: Store, project: int, acc: ConfigTree, dirs: seq<TreeNode>): Option<ConfigTree>
    decreases |dirs|
  {
    if dirs == [] then Some(acc)
    else if dirs[0].kind != TreeType then CollectDirectories(git, project, acc, dirs[1..])
    else match CollectBlobs(git, project, map[], Entries(git, project, DirectoryListing(dirs[0])))
      case None => None
      case Some(files) => CollectDirectories(git, project, acc[dirs[0].name := files], dirs[1..])
  }

  /** The repository of `project` grouped by directory: the root listing under "", then each directory. */
  function CompileTree(git: Store, project: int): Result<ConfigTree>
  {
    match CollectBlobs(git, project, map[], Entries(git, project, RootListing))
    case None => Failure(ReadFailed)
    case Some(root) =>
      match CollectDirectories(git, project, map["" := root], Entries(git, project, RecursiveListing))
      case None => Failure(ReadFailed)
      case Some(tree) => Success(tree)
  }

  /** Every blob entry's content can be fetched. */
  ghost predicate Fetchable(git: Store, project: int, entries: seq<TreeNode>)
  {
    forall k :: 0 <= k < |entries| && entries[k].kind == Blob ==> GetRawFile(git, project, entries[k].path).Some?
  }

  function BlobNames(entries: seq<TreeNode>): set<string>
  {
    set k | 0 <= k < |entries| && entries[k].kind == Blob :: entries[k].name
  }

  /** Entry k is a blob and no later blob entry has its name. */
  ghost predicate LastBlob(entries: seq<TreeNode>, k: int)
  {
    && 0 <= k < |entries| && entries[k].kind == Blob
    && forall j :: k < j < |entries| && entries[j].kind == Blob ==> entries[j].name != entries[k].name
  }

  lemma BlobNamesCons(entries: seq<TreeNode>)
    requires entries != []
    ensures BlobNames(entries) ==
      (if entries[0].kind == Blob then {entries[0].name} else {}) + BlobNames(entries[1..])
  {
    var rest := entries[1..];
    forall n | n in BlobNames(entries)
      ensures n in (if entries[0].kind == Blob then {entries[0].name} else {}) + BlobNames(rest)
    {
      var k :| 0 <= k < |entries| && entries[k].kind == Blob && entries[k].name == n;
      if k > 0 {
        assert rest[k - 1] == entries[k];
      }
    }
    forall n | n in BlobNames(rest) ensures n in BlobNames(entries) {
      var k :| 0 <= k < |rest| && rest[k].kind == Blob && rest[k].name == n;
      assert entries[k + 1] == rest[k];
    }
  }

  /**
   * A successful collection holds exactly the blob entries' file names,
   * each with the content of the last blob entry of that name; it fails
   * exactly when some blob cannot be fetched.
   */
  lemma {:induction false} CollectBlobsMeaning(git: Store, project: int, acc: Data, entries: seq<TreeNode>)
    ensures CollectBlobs(git, project, acc, entries).Some? <==> Fetchable(git, project, entries)
    ensures CollectBlobs(git, project, acc, entries).Some? ==>
      CollectBlobs(git, project, acc, entries).value.Keys == acc.Keys + BlobNames(entries)
    ensures CollectBlobs(git, project, acc, entries).Some? ==>
      forall n :: n in acc && n !in BlobNames(entries) ==> CollectBlobs(git, project, acc, entries).value[n] == acc[n]
    ensures CollectBlobs(git, project, acc, entries).Some? ==>
      forall k :: LastBlob(entries, k) ==>
        CollectBlobs(git, project, acc, entries).value[entries[k].name] == GetRawFile(git, project, entries[k].path).value
    decreases |entries|
  {
    if entries == [] {
      return;
    }
    var e, rest := entries[0], entries[1..];
    assert forall k :: 1 <= k < |entries| ==> entries[k] == rest[k - 1];
    BlobNamesCons(entries);
    var acc' := if e.kind == Blob && GetRawFile(git, project, e.path).Some?
                then acc[e.name := GetRawFile(git, project, e.path).value] else acc;
    if e.kind == Blob && GetRawFile(git, project, e.path).None? {
      assert !Fetchable(git, project, entries);
      return;
    }
    CollectBlobsMeaning(git, project, acc', rest);
    var r := CollectBlobs(git, project, acc, entries);
    assert r == CollectBlobs(git, project, acc', rest);
    assert Fetchable(git, project, entries) <==> Fetchable(git, project, rest) by {
      if Fetchable(git, project, rest) {
        forall k | 0 <= k < |entries| && entries[k].kind == Blob
          ensures GetRawFile(git, project, entries[k].path).Some?
        {
          if k > 0 { assert entries[k] == rest[k - 1]; }
        }
      }
    }
    if r.Some? {
      forall k | LastBlob(entries, k)
        ensures r.value[entries[k].name] == GetRawFile(git, project, entries[k].path).value
      {
        if k == 0 {
          forall j | 0 <= j < |rest| && rest[j].kind == Blob ensures rest[j].name != e.name {
            assert entries[j + 1] == rest[j];
          }
          assert e.name !in BlobNames(rest);
        } else {
          assert LastBlob(rest, k - 1);
        }
      }
    }
  }

  /** Every tree entry's directory listing can be collected. */
  ghost predicate DirectoriesFetchable(git: Store, project: int, dirs: seq<TreeNode>)
  {
    forall k :: 0 <= k < |dirs| && dirs[k].kind == TreeType ==>
      Fetchable(git, project, Entries(git, project, DirectoryListing(dirs[k])))
  }

  function TreeNames(dirs: seq<TreeNode>): set<string>
  {
    set k | 0 <= k < |dirs| && dirs[k].kind == TreeType :: dirs[k].name
  }

  /** Entry k is a tree and no later tree entry has its name. */
  ghost predicate LastTree(dirs: seq<TreeNode>, k: int)
  {
    && 0 <= k < |dirs| && dirs[k].kind == TreeType
    && forall j :: k < j < |dirs| && dirs[j].kind == TreeType ==> dirs[j].name != dirs[k].name
  }

  /** The files of one directory's recursive listing. */
  function DirectoryFiles(git: Store, project: int, directory: TreeNode): Option<Data>
  {
    CollectBlobs(git, project, map[], Entries(git, project, DirectoryListing(directory)))
  }

  lemma TreeNamesCons(dirs: seq<TreeNode>)
    requires dirs != []
    ensures TreeNames(dirs) ==
      (if dirs[0].kind == TreeType then {dirs[0].name} else {}) + TreeNames(dirs[1..])
  {
    var rest := dirs[1..];
    forall n | n in TreeNames(dirs)
      ensures n in (if dirs[0].kind == TreeType then {dirs[0].name} else {}) + TreeNames(rest)
    {
      var k :| 0 <= k < |dirs| && dirs[k].kind == TreeType && dirs[k].name == n;
      if k > 0 {
        assert rest[k - 1] == dirs[k];
      }
    }
    forall n | n in TreeNames(rest) ensures n in TreeNames(dirs) {
      var k :| 0 <= k < |rest| && rest[k].kind == TreeType && rest[k].name == n;
      assert dirs[k + 1] == rest[k];
    }
  }

  lemma DirectoriesFetchableCons(git: Store, project: int, dirs: seq<TreeNode>)
    requires dirs != []
    ensures DirectoriesFetchable(git, project, dirs) <==>
      (dirs[0].kind == TreeType ==> Fetchable(git, project, Entries(git, project, DirectoryListing(dirs[0]))))
      && DirectoriesFetchable(git, project, dirs[1..])
  {
    var rest := dirs[1..];
    if DirectoriesFetchable(git, project, dirs) {
      forall k | 0 <= k < |rest| && rest[k].kind == TreeType
        ensures Fetchable(git, project, Entries(git, project, DirectoryListing(rest[k])))
      {
        assert dirs[k + 1] == rest[k];
      }
    }
    if DirectoriesFetchable(git, project, rest) {
      forall k | 0 <= k < |dirs| && dirs[k].kind == TreeType && k > 0
        ensures Fetchable(git, project, Entries(git, project, DirectoryListing(dirs[k])))
      {
        assert dirs[k] == rest[k - 1];
      }
    }
  }

  lemma {:induction false} CollectDirectoriesMeaning(git: Store, project: int, acc: ConfigTree, dirs: seq<TreeNode>)
    ensures CollectDirectories(git, project, acc, dirs).Some? <==> DirectoriesFetchable(git, project, dirs)
    ensures CollectDirectories(git, project, acc, dirs).Some? ==>
      CollectDirectories(git, project, acc, dirs).value.Keys == acc.Keys + TreeNames(dirs)
    ensures CollectDirectories(git, project, acc, dirs).Some? ==>
      forall n :: n in acc && n !in TreeNames(dirs) ==> CollectDirectories(git, project, acc, dirs).value[n] == acc[n]
    ensures CollectDirectories(git, project, acc, dirs).Some? ==>
      forall k :: LastTree(dirs, k) ==>
        && DirectoryFiles(git, project, dirs[k]).Some?
        && CollectDirectories(git, project, acc, dirs).value[dirs[k].name] == DirectoryFiles(git, project, dirs[k]).value
    decreases |dirs|
  {
    if dirs == [] {
      return;
    }
    var d, rest := dirs[0], dirs[1..];
    TreeNamesCons(dirs);
    DirectoriesFetchableCons(git, project, dirs);
    var files := DirectoryFiles(git, project, d);
    CollectBlobsMeaning(git, project, map[], Entries(git, project, DirectoryListing(d)));
    if d.kind == TreeType && files.None? {
      return;
    }
    var acc' := if d.kind == TreeType then acc[d.name := files.value] else acc;
    CollectDirectoriesMeaning(git, project, acc', rest);
    var r := CollectDirectories(git, project, acc, dirs);
    assert r == CollectDirectories(git, project, acc', rest);
    if r.Some? {
      forall k | LastTree(dirs, k)
        ensures DirectoryFiles(git, project, dirs[k]).Some?
        ensures r.value[dirs[k].name] == DirectoryFiles(git, project, dirs[k]).value
      {
        if k == 0 {
          forall j | 0 <= j < |rest| && rest[j].kind == TreeType ensures rest[j].name != d.name {
            assert dirs[j + 1] == rest[j];
          }
          assert d.name !in TreeNames(rest);
        } else {
          assert dirs[k] == rest[k - 1];
          forall j | k - 1 < j < |rest| && rest[j].kind == TreeType ensures rest[j].name != rest[k - 1].name {
            assert dirs[j + 1] == rest[j];
          }
          assert LastTree(rest, k - 1);
        }
      }
    }
  }

  /**
   * The grouping the repository reader produces: key "" holds the blobs of
   * the root listing, one key per tree entry's name holds the blobs of that
   * directory's recursive listing, and a fetch failure anywhere is an
   * Internal error.
   */
  lemma CompileTreeMeaning(git: Store, project: int)
    ensures var root := Entries(git, project, RootListing);
            var dirs := Entries(git, project, RecursiveListing);
            CompileTree(git, project).Success? <==>
              Fetchable(git, project, root) && DirectoriesFetchable(git, project, dirs)
    ensures CompileTree(git, project).Failure? ==> CompileTree(git, project).error == ReadFailed
    ensures var dirs := Entries(git, project, RecursiveListing);
            CompileTree(git, project).Success? ==> CompileTree(git, project).value.Keys == {""} + TreeNames(dirs)
    ensures var root := Entries(git, project, RootListing);
            var dirs := Entries(git, project, RecursiveListing);
            CompileTree(git, project).Success? && "" !in TreeNames(dirs) ==>
              && CompileTree(git, project).value[""].Keys == BlobNames(root)
              && forall k :: LastBlob(root, k) ==>
                   CompileTree(git, project).value[""][root[k].name] == GetRawFile(git, project, root[k].path).value
    ensures var dirs := Entries(git, project, RecursiveListing);
            CompileTree(git, project).Success? ==>
              forall k :: LastTree(dirs, k) ==>
                && CompileTree(git, project).value[dirs[k].name].Keys
                     == BlobNames(Entries(git, project, DirectoryListing(dirs[k])))
                && DirectoryFiles(git, project, dirs[k]).Some?
                && CompileTree(git, project).value[dirs[k].name] == DirectoryFiles(git, project, dirs[k]).value
  {
    var root := Entries(git, project, RootListing);
    var dirs := Entries(git, project, RecursiveListing);
    CollectBlobsMeaning(git, project, map[], root);
    var rootFiles := CollectBlobs(git, project, map[], root);
    if rootFiles.Some? {
      CollectDirectoriesMeaning(git, project, map["" := rootFiles.value], dirs);
      forall k | LastTree(dirs, k)
        ensures DirectoryFiles(git, project, dirs[k]).Some? ==>
          DirectoryFiles(git, project, dirs[k]).value.Keys == BlobNames(Entries(git, project, DirectoryListing(dirs[k])))
      {
        CollectBlobsMeaning(git, project, map[], Entries(git, project, DirectoryListing(dirs[k])));
      }
      if CompileTree(git, project).Success? {
        forall k | LastTree(dirs, k) ensures DirectoryFiles(git, project, dirs[k]).Some? {
          assert Fetchable(git, project, Entries(git, project, DirectoryListing(dirs[k])));
          CollectBlobsMeaning(git, project, map[], Entries(git, project, DirectoryListing(dirs[k])));
        }
      }
    }
  }

  /** One pass over a listing, fetching each blob: the loop both directory passes run. */
  method CollectFiles(git: Store, project: int, entries: seq<TreeNode>) returns (r: Option<Data>)
    ensures r == CollectBlobs(git, project, map[], entries)
  {
    var directoryMap: Data := map[];
    for i := 0 to |entries|
      invariant CollectBlobs(git, project, map[], entries) == CollectBlobs(git, project, directoryMap, entries[i..])
    {
      assert entries[i..][1..] == entries[i + 1..];
      var file := entries[i];
      if file.kind != Blob {
        continue;
      }
      var content := GetRawFile(git, project, file.path);
      if content.None? {
        return None;
      }
      directoryMap := directoryMap[file.name := content.value];
    }
    assert entries[|entries|..] == [];
    r := Some(directoryMap);
  }

  method PrepareDataMapFromRepository(git: Store, repoId: int) returns (r: Result<ConfigTree>)
    ensures r == CompileTree(git, repoId)
  {
    var rootFiles := CollectFiles(git, repoId, Entries(git, repoId, RootListing));
    if rootFiles.None? {
      return Failure(ReadFailed);
    }
    var compiledMap: ConfigTree := map["" := rootFiles.value];
    var treeRec := Entries(git, repoId, RecursiveListing);
    for i := 0 to |treeRec|
      invariant CollectDirectories(git, repoId, map["" := rootFiles.value], treeRec)
                == CollectDirectories(git, repoId, compiledMap, treeRec[i..])
    {
      assert treeRec[i..][1..] == treeRec[i + 1..];
      var directory := treeRec[i];
      if directory.kind == TreeType {
        var files := CollectFiles(git, repoId, Entries(git, repoId, DirectoryListing(directory)));
        if files.None? {
          return Failure(ReadFailed);
        }
        compiledMap := compiledMap[directory.name := files.value];
      }
    }
    assert treeRec[|treeRec|..] == [];
    r := Success(compiledMap);
  }

  // ---------------------------------------------------------------------
  // ConfigMap naming

  /** The ConfigMap of a directory group: the bare uid for the root, `uid-directory` otherwise. */
  function ConfigMapName(uid: string, directory: string): (name: string)
    ensures uid <= name
    ensures |directory| > 0 <==> |name| > |uid|
    ensures |directory| > 0 ==> name[|uid|..] == "-" + directory
  {
    if |directory| > 0 then uid + "-" + directory else uid
  }

  /** The directory whose group a ConfigMap name would hold. */
  function DirectoryOf(uid: string, name: string): string
  {
    if |name| > |uid| then name[|uid| + 1..] else ""
  }

  lemma DirectoryOfConfigMapName(uid: string, directory: string)
    ensures DirectoryOf(uid, ConfigMapName(uid, directory)) == directory
  {
    if |directory| > 0 {
      assert ConfigMapName(uid, directory)[|uid| + 1..] == directory;
    }
  }

  /** Distinct directories never share a ConfigMap. */
  lemma ConfigMapNameInjective(uid: string, d1: string, d2: string)
    ensures ConfigMapName(uid, d1) == ConfigMapName(uid, d2) ==> d1 == d2
  {
    DirectoryOfConfigMapName(uid, d1);
    DirectoryOfConfigMapName(uid, d2);
  }

  /** `name` is the ConfigMap of one of the directories in `groups`. */
  ghost predicate IsGroupName(uid: string, name: string, groups: set<string>)
  {
    DirectoryOf(uid, name) in groups && ConfigMapName(uid, DirectoryOf(uid, name)) == name
  }

  lemma IsGroupNameExactly(uid: string, name: string, groups: set<string>)
    ensures IsGroupName(uid, name, groups) <==> exists d :: d in groups && ConfigMapName(uid, d) == name
  {
    if d :| d in groups && ConfigMapName(uid, d) == name {
      DirectoryOfConfigMapName(uid, d);
    }
  }

  // ---------------------------------------------------------------------
  // ConfigMap create-or-replace

  /** The write a group needs: an Update when its ConfigMap exists, a Create otherwise. */
  function GroupWrite(before: map<string, Data>, ns: string, uid: string, directory: string): Call
  {
    var name := ConfigMapName(uid, directory);
    Call(if name in before then Update else Create, ConfigMapKind, ns, name)
  }

  /**
   * `after` is `before` with each group in `groups` written to its
   * ConfigMap and every other ConfigMap untouched.
   */
  ghost predicate Reconciled(before: map<string, Data>, after: map<string, Data>, uid: string,
                             tree: ConfigTree, groups: set<string>)
    requires groups <= tree.Keys
  {
    && (forall d :: d in groups ==> ConfigMapName(uid, d) in after && after[ConfigMapName(uid, d)] == tree[d])
    && (forall n :: n in after ==> n in before || IsGroupName(uid, n, groups))
    && (forall n :: n in before && !IsGroupName(uid, n, groups) ==> n in after && after[n] == before[n])
  }

  lemma ReconcileStep(before: map<string, Data>, cur: map<string, Data>, uid: string,
                      tree: ConfigTree, done: set<string>, d: string)
    requires done <= tree.Keys && d in tree && d !in done
    requires Reconciled(before, cur, uid, tree, done)
    ensures ConfigMapName(uid, d) in cur <==> ConfigMapName(uid, d) in before
    ensures Reconciled(before, cur[ConfigMapName(uid, d) := tree[d]], uid, tree, done + {d})
  {
    var name := ConfigMapName(uid, d);
    DirectoryOfConfigMapName(uid, d);
    assert !IsGroupName(uid, name, done);
    var after := cur[name := tree[d]];
    forall e | e in done + {d} ensures ConfigMapName(uid, e) in after && after[ConfigMapName(uid, e)] == tree[e] {
      ConfigMapNameInjective(uid, d, e);
    }
    forall n | n in before && !IsGroupName(uid, n, done + {d}) ensures n in after && after[n] == before[n] {
      assert n != name;
    }
  }

  /** The message of a refused group write: one for a refused Create, one for a refused Update. */
  function RefusalMessage(write: Call): string
  {
    if write.verb == Create then "Failed to create ConfigMap" else "Error while updating configmap!"
  }

  /** The API server accepted the write of every group in `groups`. */
  predicate AllAccepted(rejects: set<Call>, before: map<string, Data>, ns: string, uid: string, groups: set<string>)
  {
    forall e :: e in groups ==> GroupWrite(before, ns, uid, e) !in rejects
  }

  /**
   * The writer stopped at a refused write of group `d`: the groups in
   * `done` were written, their writes accepted, before it, everything else is untouched, and the
   * reply names the refused call's verb.
   */
  ghost predicate StoppedAtRefusal(rejects: set<Call>, before: map<string, Data>, after: map<string, Data>,
                                   ns: string, uid: string, tree: ConfigTree, reply: Reply<ServiceResponse>)
  {
    exists done, d :: done <= tree.Keys && d in tree && d !in done
      && Reconciled(before, after, uid, tree, done)
      && AllAccepted(rejects, before, ns, uid, done)
      && GroupWrite(before, ns, uid, d) in rejects
      && FailedWith(reply, RefusalMessage(GroupWrite(before, ns, uid, d)))
  }

  /** When every group's write is refused, the writer stops at the first and changes nothing. */
  lemma AllRefusedChangesNothing(rejects: set<Call>, before: map<string, Data>, after: map<string, Data>,
                                 ns: string, uid: string, tree: ConfigTree, reply: Reply<ServiceResponse>)
    requires StoppedAtRefusal(rejects, before, after, ns, uid, tree, reply)
    requires forall d :: d in tree ==> GroupWrite(before, ns, uid, d) in rejects
    ensures after == before
  {
    var done, d :| done <= tree.Keys && d in tree && d !in done
      && Reconciled(before, after, uid, tree, done)
      && AllAccepted(rejects, before, ns, uid, done)
      && GroupWrite(before, ns, uid, d) in rejects
      && FailedWith(reply, RefusalMessage(GroupWrite(before, ns, uid, d)));
    assert done == {};
    assert after.Keys == before.Keys;
  }

  // ---------------------------------------------------------------------
  // ConfigMap deletion

  /** Go's strings.Contains: `needle` occurs somewhere in `s`. */
  predicate Contains(s: string, needle: string)
    decreases |s|
  {
    needle <= s || (|s| > 0 && Contains(s[1..], needle))
  }

  /** Whether the deletion handler treats ConfigMap `name` as belonging to instance `uid`. */
  predicate Owned(uid: string, name: string): (r: bool)
    ensures r <==> name == uid || exists i :: 0 <= i <= |name| && uid + "-" <= name[i..]
  {
    ContainsOccurs(name, uid + "-");
    name == uid || Contains(name, uid + "-")
  }

  /** The recursive `Contains` agrees with the usual definition: `needle` starts at some position of `s`. */
  lemma {:induction false} ContainsOccurs(s: string, needle: string)
    ensures Contains(s, needle) <==> exists i :: 0 <= i <= |s| && needle <= s[i..]
    decreases |s|
  {
    assert s[0..] == s;
    if |s| > 0 && !(needle <= s) {
      ContainsOccurs(s[1..], needle);
      if i :| 0 <= i <= |s| && needle <= s[i..] {
        assert i > 0;
        assert s[1..][i - 1..] == s[i..];
      }
      if i :| 0 <= i <= |s[1..]| && needle <= s[1..][i..] {
        assert s[1..][i..] == s[i + 1..];
      }
    }
  }

  /** Every ConfigMap the create handler writes is one the delete handler removes. */
  lemma ConfigMapNamesAreOwned(uid: string, directory: string)
    ensures Owned(uid, ConfigMapName(uid, directory))
  {
    var name := ConfigMapName(uid, directory);
    if |directory| > 0 {
      assert name[..|uid + "-"|] == uid + "-";
    }
  }

  lemma {:induction false} ContainsPrefixed(prefix: string, s: string, needle: string)
    requires needle <= s
    ensures Contains(prefix + s, needle)
    decreases |prefix|
  {
    if prefix != [] {
      ContainsPrefixed(prefix[1..], s, needle);
      assert (prefix + s)[1..] == prefix[1..] + s;
    }
  }

  /**
   * The match is on a substring, not a prefix: instance `uid` also owns the
   * ConfigMaps of every instance whose uid ends in `uid`, such as those of
   * "myapp" for "app".
   */
  lemma SubstringMatchReachesOtherInstances(prefix: string, uid: string, directory: string)
    requires |directory| > 0
    ensures Owned(uid, ConfigMapName(prefix + uid, directory))
  {
    var name := ConfigMapName(prefix + uid, directory);
    assert name == prefix + (uid + "-" + directory);
    assert (uid + "-") <= uid + "-" + directory;
    ContainsPrefixed(prefix, uid + "-" + directory, uid + "-");
  }

  /**
   * The delete handler removes a ConfigMap the create handler of `uid`
   * never writes: a directory ConfigMap of instance `prefix + uid`, when
   * that uid does not itself start with `uid-`.
   */
  lemma DeleterRemovesForeignConfigMap(prefix: string, uid: string, directory: string)
    requires |prefix| > 0 && |directory| > 0 && !(uid + "-" <= prefix + uid)
    ensures Owned(uid, ConfigMapName(prefix + uid, directory))
    ensures forall d :: ConfigMapName(uid, d) != ConfigMapName(prefix + uid, directory)
  {
    SubstringMatchReachesOtherInstances(prefix, uid, directory);
    var foreign := ConfigMapName(prefix + uid, directory);
    forall d ensures ConfigMapName(uid, d) != foreign {
      if |d| > 0 {
        assert ConfigMapName(uid, d)[..|uid| + 1] == uid + "-";
        assert foreign[..|uid| + 1] == (prefix + uid)[..|uid| + 1];
        assert (prefix + uid)[..|uid| + 1] != uid + "-";
      }
    }
  }

  /** For example, instance "app" deletes "myapp-config", which only instance "myapp" writes. */
  lemma AppDeletesMyappConfig()
    ensures Owned("app", ConfigMapName("myapp", "config"))
    ensures forall d :: ConfigMapName("app", d) != ConfigMapName("myapp", "config")
  {
    assert "my" + "app" == "myapp";
    assert !("app-" <= "myapp") by {
      assert "app-"[0] != "myapp"[0];
    }
    DeleterRemovesForeignConfigMap("my", "app", "config");
  }

  /** Whether the delete handler removes ConfigMap `name`: it is owned and the API server accepts the Delete. */
  predicate Removes(rejects: set<Call>, ns: string, uid: string, name: string)
  {
    Owned(uid, name) && Call(Delete, ConfigMapKind, ns, name) !in rejects
  }

  /** The ConfigMaps of a namespace after the delete handler's pass over them. */
  function AfterDeletion(existing: map<string, Data>, rejects: set<Call>, ns: string, uid: string): (r: map<string, Data>)
  {
    map n | n in existing && !Removes(rejects, ns, uid, n) :: existing[n]
  }

  /** A second pass removes nothing more. */
  lemma AfterDeletionIdempotent(existing: map<string, Data>, rejects: set<Call>, ns: string, uid: string)
    ensures AfterDeletion(AfterDeletion(existing, rejects, ns, uid), rejects, ns, uid) == AfterDeletion(existing, rejects, ns, uid)
  {
    var once := AfterDeletion(existing, rejects, ns, uid);
    assert AfterDeletion(once, rejects, ns, uid).Keys == once.Keys;
  }

  /** Deleting after creating, with no Delete refused, leaves none of the instance's ConfigMaps. */
  lemma DeletionClearsReconciled(before: map<string, Data>, after: map<string, Data>, rejects: set<Call>,
                                 ns: string, uid: string, tree: ConfigTree)
    requires Reconciled(before, after, uid, tree, tree.Keys)
    requires forall n :: Call(Delete, ConfigMapKind, ns, n) !in rejects
    ensures forall d :: d in tree ==> ConfigMapName(uid, d) !in AfterDeletion(after, rejects, ns, uid)
  {
    forall d | d in tree ensures ConfigMapName(uid, d) !in AfterDeletion(after, rejects, ns, uid) {
      ConfigMapNamesAreOwned(uid, d);
    }
  }

  // ---------------------------------------------------------------------
  // The service

  class ConfigServiceServer {
    const kube: Cluster
    const git: Store

    constructor (kube: Cluster, git: Store)
      ensures this.kube == kube && this.git == git
    {
      this.kube := kube;
      this.git := git;
    }

    /**
     * Writes every group of `tree` to its ConfigMap of namespace `ns`,
     * creating the absent ones and updating the present ones, in an order
     * the model leaves open; stops at the first refused write.
     */
    method WriteConfigMaps(ns: string, uid: string, tree: ConfigTree) returns (reply: Reply<ServiceResponse>)
      requires kube.Valid() && ns in kube.namespaces
      modifies kube`configMaps
      ensures kube.Valid()
      ensures forall m :: m != ns ==> kube.ConfigMapsIn(m) == old(kube.ConfigMapsIn(m))
      ensures StatusOf(reply) == Some(OK) <==>
        forall d :: d in tree ==> GroupWrite(old(kube.ConfigMapsIn(ns)), ns, uid, d) !in kube.rejects
      ensures StatusOf(reply) == Some(OK) ==>
        reply == Respond(OK, "ConfigMap created successfully", None)
        && Reconciled(old(kube.ConfigMapsIn(ns)), kube.ConfigMapsIn(ns), uid, tree, tree.Keys)
      ensures StatusOf(reply) != Some(OK) ==>
        StoppedAtRefusal(kube.rejects, old(kube.ConfigMapsIn(ns)), kube.ConfigMapsIn(ns), ns, uid, tree, reply)
    {
      ghost var before := kube.ConfigMapsIn(ns);
      var todo := tree.Keys;
      ghost var done: set<string> := {};
      while todo != {}
        invariant todo + done == tree.Keys && todo !! done
        invariant kube.Valid()
        invariant forall m :: m != ns ==> kube.ConfigMapsIn(m) == old(kube.ConfigMapsIn(m))
        invariant Reconciled(before, kube.ConfigMapsIn(ns), uid, tree, done)
        invariant AllAccepted(kube.rejects, before, ns, uid, done)
        decreases todo
      {
        var directory :| directory in todo;
        var name := ConfigMapName(uid, directory);
        ReconcileStep(before, kube.ConfigMapsIn(ns), uid, tree, done, directory);
        var err;
        if name !in kube.ConfigMapsIn(ns) {
          err := kube.CreateConfigMap(ns, name, tree[directory]);
          if err.Some? {
            reply := Respond(FAILED, "Failed to create ConfigMap", err);
            assert GroupWrite(before, ns, uid, directory) == Call(Create, ConfigMapKind, ns, name);
            assert StoppedAtRefusal(kube.rejects, before, kube.ConfigMapsIn(ns), ns, uid, tree, reply);
            return;
          }
        } else {
          err := kube.UpdateConfigMap(ns, name, tree[directory]);
          if err.Some? {
            reply := Respond(FAILED, "Error while updating configmap!", err);
            assert GroupWrite(before, ns, uid, directory) == Call(Update, ConfigMapKind, ns, name);
            assert StoppedAtRefusal(kube.rejects, before, kube.ConfigMapsIn(ns), ns, uid, tree, reply);
            return;
          }
        }
        todo := todo - {directory};
        done := done + {directory};
      }
      reply := Respond(OK, "ConfigMap created successfully", None);
    }

    method CreateOrReplace(req: InstanceRequest) returns (reply: Reply<ServiceResponse>)
      requires kube.Valid()
      modifies kube`namespaces, kube`configMaps
      ensures kube.Valid()
      ensures CheckApi(req.api, ApiVersion).Some? ==>
        reply == Reply(None, CheckApi(req.api, ApiVersion)) && unchanged(kube)
      ensures var lookup := ProjectLookup(git, req.deployment.uid, req.deployment.domain);
        CheckApi(req.api, ApiVersion).None? && lookup.Failure? ==>
          reply == Respond(FAILED, "Cannot find corresponding gitlab assets", Some(lookup.error)) && unchanged(kube)
      ensures var ns := req.deployment.namespace;
        var lookup := ProjectLookup(git, req.deployment.uid, req.deployment.domain);
        CheckApi(req.api, ApiVersion).None? && lookup.Success?
        && ns !in old(kube.namespaces) && Call(Create, NamespaceKind, ns, ns) in kube.rejects ==>
          FailedWith(reply, NamespaceNotFound) && unchanged(kube)
      ensures var ns := req.deployment.namespace;
        var lookup := ProjectLookup(git, req.deployment.uid, req.deployment.domain);
        CheckApi(req.api, ApiVersion).None? && lookup.Success?
        && (ns in old(kube.namespaces) || Call(Create, NamespaceKind, ns, ns) !in kube.rejects) ==>
          kube.namespaces == old(kube.namespaces) + {ns}
          && forall m :: m != ns ==> kube.ConfigMapsIn(m) == old(kube.ConfigMapsIn(m))
      ensures var ns := req.deployment.namespace;
        var lookup := ProjectLookup(git, req.deployment.uid, req.deployment.domain);
        CheckApi(req.api, ApiVersion).None? && lookup.Success? && ns in kube.namespaces
        && CompileTree(git, lookup.value).Failure? ==>
          reply == Respond(FAILED, "Failed to create ConfigMap", Some(ReadFailed))
          && kube.configMaps == old(kube.configMaps)
      ensures var ns := req.deployment.namespace;
        var uid := req.deployment.uid;
        var lookup := ProjectLookup(git, uid, req.deployment.domain);
        var tree := if lookup.Success? then CompileTree(git, lookup.value) else Failure(ReadFailed);
        CheckApi(req.api, ApiVersion).None? && lookup.Success? && ns in kube.namespaces && tree.Success? ==>
          && (StatusOf(reply) == Some(OK) <==>
                forall d :: d in tree.value ==> GroupWrite(old(kube.ConfigMapsIn(ns)), ns, uid, d) !in kube.rejects)
          && (StatusOf(reply) == Some(OK) ==>
                reply == Respond(OK, "ConfigMap created successfully", None)
                && Reconciled(old(kube.ConfigMapsIn(ns)), kube.ConfigMapsIn(ns), uid, tree.value, tree.value.Keys))
          && (StatusOf(reply) != Some(OK) ==>
                StoppedAtRefusal(kube.rejects, old(kube.ConfigMapsIn(ns)), kube.ConfigMapsIn(ns), ns, uid, tree.value, reply))
    {
      var gate := CheckApi(req.api, ApiVersion);
      if gate.Some? {
        return Reply(None, gate);
      }
      var depl := req.deployment;
      var proj, err := FindGitlabProjectId(git, depl.uid, depl.domain);
      if err.Some? {
        return Respond(FAILED, "Cannot find corresponding gitlab assets", err);
      }
      err := EnsureNamespace(kube, depl.namespace);
      if err.Some? {
        return Respond(FAILED, NamespaceNotFound, err);
      }
      var repo := PrepareDataMapFromRepository(git, proj);
      if repo.Failure? {
        return Respond(FAILED, "Failed to create ConfigMap", Some(repo.error));
      }
      reply := WriteConfigMaps(depl.namespace, depl.uid, repo.value);
    }

    /**
     * Deletes, one by one, every ConfigMap of the namespace that the
     * instance owns; refused deletions are skipped.
     */
    method DeleteIfExists(req: InstanceRequest) returns (reply: Reply<ServiceResponse>)
      requires kube.Valid()
      modifies kube`configMaps
      ensures kube.Valid()
      ensures CheckApi(req.api, ApiVersion).Some? ==>
        reply == Reply(None, CheckApi(req.api, ApiVersion)) && unchanged(kube)
      ensures var ns := req.deployment.namespace;
        CheckApi(req.api, ApiVersion).None? && ns !in kube.namespaces ==>
          FailedWith(reply, NamespaceNotFound) && unchanged(kube)
      ensures var ns := req.deployment.namespace;
        CheckApi(req.api, ApiVersion).None? && ns in kube.namespaces ==>
          StatusOf(reply) == Some(OK) && reply.err.None?
          && forall m :: m != ns ==> kube.ConfigMapsIn(m) == old(kube.ConfigMapsIn(m))
      ensures var ns := req.deployment.namespace;
        CheckApi(req.api, ApiVersion).None? && ns in kube.namespaces
        && Call(List, ConfigMapKind, ns, "") in kube.rejects ==>
          reply == Respond(OK, "Could not retrieve list of ConfigMaps in namespace", None) && unchanged(kube)
      ensures var ns := req.deployment.namespace;
        CheckApi(req.api, ApiVersion).None? && ns in kube.namespaces
        && Call(List, ConfigMapKind, ns, "") !in kube.rejects ==>
          reply == Respond(OK, "ConfigMaps deleted successfully", None)
          && kube.ConfigMapsIn(ns) == AfterDeletion(old(kube.ConfigMapsIn(ns)), kube.rejects, ns, req.deployment.uid)
    {
      var gate := CheckApi(req.api, ApiVersion);
      if gate.Some? {
        return Reply(None, gate);
      }
      var depl := req.deployment;
      var ns, uid := depl.namespace, depl.uid;
      if ns !in kube.namespaces {
        return Respond(FAILED, NamespaceNotFound, Some(Error(NotFound, ns)));
      }
      var configMaps := kube.ListConfigMaps(ns);
      if configMaps.Failure? {
        return Respond(OK, "Could not retrieve list of ConfigMaps in namespace", None);
      }
      var items := configMaps.value;
      ghost var before := kube.ConfigMapsIn(ns);
      for i := 0 to |items|
        invariant kube.Valid()
        invariant forall m :: m != ns ==> kube.ConfigMapsIn(m) == old(kube.ConfigMapsIn(m))
        invariant forall n :: n in kube.ConfigMapsIn(ns) <==>
                    n in before && !(n in items[..i] && Removes(kube.rejects, ns, uid, n))
        invariant forall n :: n in kube.ConfigMapsIn(ns) ==> kube.ConfigMapsIn(ns)[n] == before[n]
      {
        assert items[..i + 1] == items[..i] + [items[i]];
        var name := items[i];
        if name == uid || Contains(name, uid + "-") {
          var _ := kube.DeleteConfigMap(ns, name);
        }
      }
      assert items[..|items|] == items;
      assert kube.ConfigMapsIn(ns) == AfterDeletion(before, kube.rejects, ns, uid);
      reply := Respond(OK, "ConfigMaps deleted successfully", None);
    }
  }
}
