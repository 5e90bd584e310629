/** Bucket paths in the explorer panel: a path is the bucket names from the
    root joined by '/', the empty path being the root itself. */
module PanelPaths {
  import opened Text

  /** The path of bucket `name` inside `parent`: the name alone at the root,
      otherwise `parent/name`. */
  function ChildPath(parent: string, name: string): (r: string)
    ensures parent == "" ==> r == name
    ensures parent != "" ==> r == parent + "/" + name
  {
    if parent == "" then name else parent + "/" + name
  }

  /** A child path names the parent's buckets and then the child. */
  lemma ChildPathSplit(parent: string, name: string)
    requires '/' !in name
    ensures Split(ChildPath(parent, name), '/') == (if parent == "" then [] else Split(parent, '/')) + [name]
  {
    SplitPlain(name, '/');
    if parent != "" {
      SplitConcat(parent, name, '/');
    }
  }

  /** Going into a child and dropping the last name gives back the parent. */
  lemma ChildPathParent(parent: string, name: string)
    requires '/' !in name && parent != ""
    ensures var parts := Split(ChildPath(parent, name), '/');
      Join(parts[..|parts| - 1], '/') == parent && parts[|parts| - 1] == name
  {
    ChildPathSplit(parent, name);
    var parts := Split(ChildPath(parent, name), '/');
    assert parts[..|parts| - 1] == Split(parent, '/');
    JoinSplit(parent, '/');
  }

  /** A link of the breadcrumb bar: its text and the path it navigates to. */
  datatype Link = Link(text: string, target: string)

  /** `createBreadcrumbPanel`: a root link to "", then for a non-empty path
      one link per name of `currentPath.split("/")`, each targeting the
      names up to and including it. */
  method Breadcrumbs(currentPath: string) returns (links: seq<Link>)
    ensures |links| >= 1 && links[0] == Link("Root", "")
    ensures currentPath == "" ==> |links| == 1
    ensures currentPath != "" ==>
      var parts := Split(currentPath, '/');
      && |links| == |parts| + 1
      && (forall i :: 1 <= i < |links| ==> links[i] == Link(parts[i - 1], Join(parts[..i], '/')))
      && links[|links| - 1].target == currentPath
    ensures forall i :: 0 <= i < |links| ==> links[i].target <= currentPath
  {
    links := [Link("Root", "")];
    if currentPath != "" {
      var pathParts := Split(currentPath, '/');
      var currentSegment := "";
      for i := 0 to |pathParts|
        invariant |links| == i + 1 && links[0] == Link("Root", "")
        invariant forall j :: 1 <= j < |links| ==> links[j] == Link(pathParts[j - 1], Join(pathParts[..j], '/'))
        invariant i == 0 ==> currentSegment == ""
        invariant i > 0 ==> currentSegment == Join(pathParts[..i], '/')
      {
        if i > 0 {
          currentSegment := currentSegment + "/";
        }
        currentSegment := currentSegment + pathParts[i];
        if i > 0 {
          assert pathParts[..i + 1] == pathParts[..i] + [pathParts[i]];
          JoinSnoc(pathParts[..i], pathParts[i], '/');
        } else {
          assert pathParts[..1] == [pathParts[0]];
        }
        links := links + [Link(pathParts[i], currentSegment)];
      }
      assert pathParts[..|pathParts|] == pathParts;
      JoinSplit(currentPath, '/');
      forall i | 1 <= i < |links| ensures links[i].target <= currentPath {
        JoinPrefix(pathParts, i, '/');
      }
    }
  }
}
