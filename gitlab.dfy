/**
 * The GitLab instance as the service reads it: group search by name, the
 * projects of a group, tree listings of a project's repository and the raw
 * content of its files on the `master` branch. Each lookup may fail (None).
 */
module GitLab {
  import opened Envelope

  /** The entry types a tree listing reports. */
  const Blob: string := "blob"
  const TreeType: string := "tree"

  datatype TreeNode = TreeNode(kind: string, name: string, path: string)

  datatype Group = Group(id: int, name: string)

  datatype Project = Project(id: int, name: string)

  /** An optional directory path and whether the listing descends into subdirectories. */
  datatype ListTreeOptions = ListTreeOptions(path: Option<string>, recursive: bool)

  datatype Store = Store(
    groupSearch: map<string, seq<Group>>,
    groupProjects: map<int, seq<Project>>,
    trees: map<(int, ListTreeOptions), seq<TreeNode>>,
    rawFiles: map<(int, string), string>)

  function SearchGroup(git: Store, domain: string): Option<seq<Group>>
  {
    if domain in git.groupSearch then Some(git.groupSearch[domain]) else None
  }

  function ListGroupProjects(git: Store, group: int): Option<seq<Project>>
  {
    if group in git.groupProjects then Some(git.groupProjects[group]) else None
  }

  function ListTree(git: Store, project: int, opt: ListTreeOptions): Option<seq<TreeNode>>
  {
    if (project, opt) in git.trees then Some(git.trees[(project, opt)]) else None
  }

  /** The content of the file at `path` on branch `master`. */
  function GetRawFile(git: Store, project: int, path: string): Option<string>
  {
    if (project, path) in git.rawFiles then Some(git.rawFiles[(project, path)]) else None
  }
}
