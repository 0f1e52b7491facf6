/**
 * The in-memory workspace file tree of the `useFileSystem` hook: a forest
 * of `FileNode`s addressed by path, the list of open editor tabs and the
 * active file, with the hook's create / delete / rename / open / close /
 * edit / save operations.
 */
module FileSystem {
  import opened JsText
  import opened SeqUtil

  datatype Kind = File | Folder

  /**
   * A node of the tree. `content` is present on files (absent on folders);
   * a missing `children` array behaves exactly like an empty one in every
   * operation (`if (file.children)` is true for `[]`, and
   * `folder.children || []`), so it is an empty sequence here.
   */
  datatype FileNode = FileNode(
    id: string,
    name: string,
    kind: Kind,
    content: Option<string>,
    children: seq<FileNode>,
    path: string)

  // ---------------------------------------------------------------------
  // Reference views of a forest: pre-order listing and index addresses
  // ---------------------------------------------------------------------

  /** Every node of the forest, depth first, a parent before its children, siblings left to right. */
  function Preorder(fs: seq<FileNode>): seq<FileNode> {
    if fs == [] then [] else [fs[0]] + Preorder(fs[0].children) + Preorder(fs[1..])
  }

  lemma {:induction false} PreorderAppend(a: seq<FileNode>, b: seq<FileNode>)
    ensures Preorder(a + b) == Preorder(a) + Preorder(b)
  {
    if a == [] {
      assert a + b == b;
    } else {
      assert (a + b)[0] == a[0];
      assert (a + b)[1..] == a[1..] + b;
      PreorderAppend(a[1..], b);
    }
  }

  /** The listing of a prefix grows by one node and its subtree. */
  lemma PreorderPrefix(fs: seq<FileNode>, i: nat)
    requires i < |fs|
    ensures Preorder(fs[..i + 1]) == Preorder(fs[..i]) + [fs[i]] + Preorder(fs[i].children)
  {
    assert fs[..i + 1] == fs[..i] + [fs[i]];
    PreorderAppend(fs[..i], [fs[i]]);
    assert [fs[i]][1..] == [];
  }

  /** The first node of a listing whose path is `p`. */
  function FirstWithPath(p: string, s: seq<FileNode>): (r: Option<FileNode>)
    ensures r.None? <==> forall i :: 0 <= i < |s| ==> s[i].path != p
    ensures r.Some? ==> r.value.path == p && r.value in s
  {
    if s == [] then None
    else if s[0].path == p then Some(s[0])
    else FirstWithPath(p, s[1..])
  }

  lemma {:induction false} FirstWithPathAppend(p: string, a: seq<FileNode>, b: seq<FileNode>)
    ensures FirstWithPath(p, a + b) ==
      if FirstWithPath(p, a).Some? then FirstWithPath(p, a) else FirstWithPath(p, b)
  {
    if a == [] {
      assert a + b == b;
    } else {
      assert (a + b)[1..] == a[1..] + b;
      FirstWithPathAppend(p, a[1..], b);
    }
  }

  /** No node of the forest, at any depth, has path `p`. */
  predicate Absent(p: string, fs: seq<FileNode>) {
    FirstWithPath(p, Preorder(fs)).None?
  }

  /**
   * The node reached from the roots by the index path `a`
   * (`a[0]` among the roots, `a[1]` among its children, ...).
   */
  function At(fs: seq<FileNode>, a: seq<nat>): Option<FileNode>
    decreases |a|
  {
    if a == [] || a[0] >= |fs| then None
    else if |a| == 1 then Some(fs[a[0]])
    else At(fs[a[0]].children, a[1..])
  }

  /** No node strictly above the one at `a` has path `p`. */
  predicate Exposed(p: string, fs: seq<FileNode>, a: seq<nat>)
    decreases |a|
  {
    |a| <= 1 || (a[0] < |fs| && fs[a[0]].path != p && Exposed(p, fs[a[0]].children, a[1..]))
  }

  /** A node with every field but `children` erased to compare nodes shallowly. */
  function Shallow(n: FileNode): FileNode {
    n.(children := [])
  }

  function Shallows(s: seq<FileNode>): (r: seq<FileNode>)
    ensures |r| == |s| && forall i :: 0 <= i < |s| ==> r[i] == Shallow(s[i])
  {
    if s == [] then [] else [Shallow(s[0])] + Shallows(s[1..])
  }

  lemma {:induction false} ShallowsAppend(a: seq<FileNode>, b: seq<FileNode>)
    ensures Shallows(a + b) == Shallows(a) + Shallows(b)
  {
    assert Shallows(a + b) == Shallows(a) + Shallows(b) by {
      forall i | 0 <= i < |a + b|
        ensures Shallows(a + b)[i] == (Shallows(a) + Shallows(b))[i]
      {
      }
    }
  }

  // ---------------------------------------------------------------------
  // findFileByPath
  // ---------------------------------------------------------------------

  /**
   * `findFileByPath(path, fileList)`: a loop over the siblings with an
   * early return, descending into each node's children before moving to
   * the next sibling. It returns the first node in pre-order with that path.
   */
  method FindFileByPath(path: string, fileList: seq<FileNode>) returns (r: Option<FileNode>)
    ensures r == FirstWithPath(path, Preorder(fileList))
  {
    var i := 0;
    while i < |fileList|
      invariant 0 <= i <= |fileList|
      invariant FirstWithPath(path, Preorder(fileList[..i])).None?
    {
      var file := fileList[i];
      PreorderPrefix(fileList, i);
      assert fileList == fileList[..i + 1] + fileList[i + 1..];
      PreorderAppend(fileList[..i + 1], fileList[i + 1..]);
      FirstWithPathAppend(path, Preorder(fileList[..i]) + [file] + Preorder(file.children),
                          Preorder(fileList[i + 1..]));
      FirstWithPathAppend(path, Preorder(fileList[..i]) + [file], Preorder(file.children));
      FirstWithPathAppend(path, Preorder(fileList[..i]), [file]);
      if file.path == path {
        return Some(file);
      }
      var found := FindFileByPath(path, file.children);
      if found.Some? {
        return found;
      }
      i := i + 1;
    }
    assert fileList[..i] == fileList;
    return None;
  }

  // ---------------------------------------------------------------------
  // updateFileInTree
  // ---------------------------------------------------------------------

  /**
   * `updateFileInTree(path, updater, fileList)`: every node whose path
   * matches is replaced by `updater(node)` (its children are not visited);
   * every other node is copied with its children updated the same way.
   */
  function UpdateInTree(path: string, updater: FileNode -> FileNode, fileList: seq<FileNode>): (r: seq<FileNode>)
    ensures |r| == |fileList|
  {
    if fileList == [] then []
    else
      var file := fileList[0];
      [if file.path == path then updater(file)
       else file.(children := UpdateInTree(path, updater, file.children))]
      + UpdateInTree(path, updater, fileList[1..])
  }

  lemma {:induction false} UpdateIndex(path: string, updater: FileNode -> FileNode, fs: seq<FileNode>, i: nat)
    requires i < |fs|
    ensures UpdateInTree(path, updater, fs)[i] ==
      if fs[i].path == path then updater(fs[i])
      else fs[i].(children := UpdateInTree(path, updater, fs[i].children))
  {
    if i > 0 {
      UpdateIndex(path, updater, fs[1..], i - 1);
    }
  }

  /**
   * At every address not below a matching node: a matching node is
   * replaced by `updater(node)`, any other node keeps all its fields and its
   * number of children (so sibling order and tree shape are unchanged).
   */
  lemma {:induction false} UpdateAt(path: string, updater: FileNode -> FileNode, fs: seq<FileNode>, a: seq<nat>)
    requires At(fs, a).Some? && Exposed(path, fs, a)
    ensures var n := At(fs, a).value;
      var m := At(UpdateInTree(path, updater, fs), a);
      && m.Some?
      && (n.path == path ==> m.value == updater(n))
      && (n.path != path ==> m.value.(children := n.children) == n
                             && |m.value.children| == |n.children|)
    decreases |a|
  {
    var r := UpdateInTree(path, updater, fs);
    UpdateIndex(path, updater, fs, a[0]);
    if |a| > 1 {
      UpdateAt(path, updater, fs[a[0]].children, a[1..]);
    }
  }

  /** Updating a path that no node has changes nothing. */
  lemma {:induction false} UpdateAbsent(path: string, updater: FileNode -> FileNode, fs: seq<FileNode>)
    requires Absent(path, fs)
    ensures UpdateInTree(path, updater, fs) == fs
  {
    if fs != [] {
      FirstWithPathAppend(path, [fs[0]] + Preorder(fs[0].children), Preorder(fs[1..]));
      FirstWithPathAppend(path, [fs[0]], Preorder(fs[0].children));
      UpdateAbsent(path, updater, fs[0].children);
      UpdateAbsent(path, updater, fs[1..]);
    }
  }

  // ---------------------------------------------------------------------
  // removeFromTree
  // ---------------------------------------------------------------------

  /**
   * `removeFromTree` inside `deleteFile`: drops every node whose path
   * matches (with its whole subtree) and recurses into the survivors.
   */
  function RemoveFromTree(path: string, fileList: seq<FileNode>): (r: seq<FileNode>)
    ensures |r| <= |fileList|
    ensures forall i :: 0 <= i < |r| ==> r[i].path != path
  {
    if fileList == [] then []
    else if fileList[0].path == path then RemoveFromTree(path, fileList[1..])
    else [fileList[0].(children := RemoveFromTree(path, fileList[0].children))]
         + RemoveFromTree(path, fileList[1..])
  }

  /** After the removal no node at any depth has the removed path. */
  lemma {:induction false} RemoveLeavesNone(path: string, fs: seq<FileNode>)
    ensures Absent(path, RemoveFromTree(path, fs))
  {
    if fs != [] {
      RemoveLeavesNone(path, fs[0].children);
      RemoveLeavesNone(path, fs[1..]);
      if fs[0].path != path {
        var n := fs[0].(children := RemoveFromTree(path, fs[0].children));
        var rest := RemoveFromTree(path, fs[1..]);
        assert RemoveFromTree(path, fs) == [n] + rest;
        FirstWithPathAppend(path, [n] + Preorder(n.children), Preorder(rest));
        FirstWithPathAppend(path, [n], Preorder(n.children));
      }
    }
  }

  /** Removing a path that no node has changes nothing. */
  lemma {:induction false} RemoveAbsent(path: string, fs: seq<FileNode>)
    requires Absent(path, fs)
    ensures RemoveFromTree(path, fs) == fs
  {
    if fs != [] {
      FirstWithPathAppend(path, [fs[0]] + Preorder(fs[0].children), Preorder(fs[1..]));
      FirstWithPathAppend(path, [fs[0]], Preorder(fs[0].children));
      RemoveAbsent(path, fs[0].children);
      RemoveAbsent(path, fs[1..]);
    }
  }

  /** The surviving nodes appear in the same pre-order as before: nothing is added or reordered. */
  lemma {:induction false} RemoveKeepsOrder(path: string, fs: seq<FileNode>)
    ensures IsSubseq(Shallows(Preorder(RemoveFromTree(path, fs))), Shallows(Preorder(fs)))
  {
    if fs == [] {
    } else {
      var x := fs[0];
      RemoveKeepsOrder(path, x.children);
      RemoveKeepsOrder(path, fs[1..]);
      var restR := Preorder(RemoveFromTree(path, fs[1..]));
      var kidsR := Preorder(RemoveFromTree(path, x.children));
      ShallowsAppend([x] + Preorder(x.children), Preorder(fs[1..]));
      ShallowsAppend([x], Preorder(x.children));
      if x.path == path {
        SubseqPrepend(Shallows(restR), Shallows([x] + Preorder(x.children)), Shallows(Preorder(fs[1..])));
      } else {
        var n := x.(children := RemoveFromTree(path, x.children));
        assert RemoveFromTree(path, fs) == [n] + RemoveFromTree(path, fs[1..]);
        ShallowsAppend([n] + kidsR, restR);
        ShallowsAppend([n], kidsR);
        assert Shallows([n]) == Shallows([x]);
        SubseqRefl(Shallows([x]));
        SubseqConcat(Shallows([n]), Shallows([x]), Shallows(kidsR), Shallows(Preorder(x.children)));
        SubseqConcat(Shallows([n]) + Shallows(kidsR), Shallows([x]) + Shallows(Preorder(x.children)),
                     Shallows(restR), Shallows(Preorder(fs[1..])));
      }
    }
  }

  /** A kept root reappears, with its children cleaned, in the result. */
  lemma {:induction false} RemoveKeepsRoot(path: string, fs: seq<FileNode>, i: nat)
    requires i < |fs| && fs[i].path != path
    ensures fs[i].(children := RemoveFromTree(path, fs[i].children)) in RemoveFromTree(path, fs)
  {
    if i > 0 {
      RemoveKeepsRoot(path, fs[1..], i - 1);
    }
  }

  /** Every member of a root's subtree listing is in the forest's listing. */
  lemma {:induction false} PreorderOfMember(fs: seq<FileNode>, n: FileNode)
    requires n in fs
    ensures n in Preorder(fs)
    ensures forall m :: m in Preorder(n.children) ==> m in Preorder(fs)
  {
    if fs[0] != n {
      PreorderOfMember(fs[1..], n);
    }
  }

  /** A node whose own path and whose ancestors' paths all differ from the removed path survives. */
  lemma {:induction false} RemoveKeepsExposed(path: string, fs: seq<FileNode>, a: seq<nat>)
    requires At(fs, a).Some? && Exposed(path, fs, a) && At(fs, a).value.path != path
    ensures Shallow(At(fs, a).value) in Shallows(Preorder(RemoveFromTree(path, fs)))
    decreases |a|
  {
    var x := fs[a[0]];
    var kept := x.(children := RemoveFromTree(path, x.children));
    RemoveKeepsRoot(path, fs, a[0]);
    PreorderOfMember(RemoveFromTree(path, fs), kept);
    var listing := Preorder(RemoveFromTree(path, fs));
    if |a| == 1 {
      var k :| 0 <= k < |listing| && listing[k] == kept;
      assert Shallows(listing)[k] == Shallow(x);
    } else {
      RemoveKeepsExposed(path, x.children, a[1..]);
      var inner := Preorder(RemoveFromTree(path, x.children));
      var k :| 0 <= k < |inner| && Shallows(inner)[k] == Shallow(At(fs, a).value);
      assert inner[k] in listing;
      var k2 :| 0 <= k2 < |listing| && listing[k2] == inner[k];
      assert Shallows(listing)[k2] == Shallow(At(fs, a).value);
    }
  }

  /** An address into the tail of a forest, moved one root to the right, addresses the same node. */
  lemma ShiftAddress(p: string, fs: seq<FileNode>, b: seq<nat>)
    requires fs != [] && b != []
    ensures At(fs, [b[0] + 1] + b[1..]) == At(fs[1..], b)
    ensures Exposed(p, fs, [b[0] + 1] + b[1..]) == Exposed(p, fs[1..], b)
  {
    var a := [b[0] + 1] + b[1..];
    assert a[1..] == b[1..];
  }

  /** `n` matches, shallowly, an exposed node of `fs` with another path. */
  ghost predicate SurvivorOf(path: string, fs: seq<FileNode>, n: FileNode) {
    exists a :: At(fs, a).Some? && Exposed(path, fs, a) && At(fs, a).value.path != path
                && Shallow(At(fs, a).value) == Shallow(n)
  }

  /** A survivor among the later roots is a survivor of the whole forest. */
  lemma SurvivorOfTail(path: string, fs: seq<FileNode>, n: FileNode)
    requires fs != [] && SurvivorOf(path, fs[1..], n)
    ensures SurvivorOf(path, fs, n)
  {
    var b :| At(fs[1..], b).Some? && Exposed(path, fs[1..], b) && At(fs[1..], b).value.path != path
             && Shallow(At(fs[1..], b).value) == Shallow(n);
    ShiftAddress(path, fs, b);
    assert At(fs, [b[0] + 1] + b[1..]).Some?;
  }

  /** A survivor among a kept root's children is a survivor of the whole forest. */
  lemma SurvivorOfChild(path: string, fs: seq<FileNode>, n: FileNode)
    requires fs != [] && fs[0].path != path && SurvivorOf(path, fs[0].children, n)
    ensures SurvivorOf(path, fs, n)
  {
    var b :| At(fs[0].children, b).Some? && Exposed(path, fs[0].children, b) && At(fs[0].children, b).value.path != path
             && Shallow(At(fs[0].children, b).value) == Shallow(n);
    var a := [0] + b;
    assert a[1..] == b;
    assert At(fs, a) == At(fs[0].children, b);
  }

  /** A kept root is a survivor. */
  lemma SurvivorFirst(path: string, fs: seq<FileNode>, n: FileNode)
    requires fs != [] && fs[0].path != path && Shallow(n) == Shallow(fs[0])
    ensures SurvivorOf(path, fs, n)
  {
    assert At(fs, [0]) == Some(fs[0]);
  }

  /**
   * Conversely, every node that survives the removal is an exposed node of
   * the original forest with another path: a deleted folder's descendants
   * are gone with it, and nothing is moved up or invented.
   */
  lemma {:induction false} RemoveOnlyExposed(path: string, fs: seq<FileNode>, n: FileNode)
    requires n in Preorder(RemoveFromTree(path, fs))
    ensures exists a :: At(fs, a).Some? && Exposed(path, fs, a) && At(fs, a).value.path != path
                        && Shallow(At(fs, a).value) == Shallow(n)
  {
    var x := fs[0];
    var rest := RemoveFromTree(path, fs[1..]);
    if x.path == path {
      assert n in Preorder(rest);
      RemoveOnlyExposed(path, fs[1..], n);
      SurvivorOfTail(path, fs, n);
    } else {
      var m := x.(children := RemoveFromTree(path, x.children));
      assert RemoveFromTree(path, fs) == [m] + rest;
      PreorderAppend([m], rest);
      assert Preorder([m]) == [m] + Preorder(m.children);
      if n == m {
        SurvivorFirst(path, fs, n);
      } else if n in Preorder(m.children) {
        RemoveOnlyExposed(path, x.children, n);
        SurvivorOfChild(path, fs, n);
      } else {
        assert n in Preorder(rest);
        RemoveOnlyExposed(path, fs[1..], n);
        SurvivorOfTail(path, fs, n);
      }
    }
  }

  // ---------------------------------------------------------------------
  // New paths and nodes
  // ---------------------------------------------------------------------

  /** `s.replace(/\/+/g, '/')`: every run of slashes becomes one slash. */
  function CollapseSlashes(s: string): (r: string)
    ensures |r| <= |s|
    ensures s != [] ==> r != [] && r[0] == s[0]
  {
    if |s| < 2 then s
    else if s[0] == '/' && s[1] == '/' then CollapseSlashes(s[1..])
    else [s[0]] + CollapseSlashes(s[1..])
  }

  predicate NoDoubleSlash(s: string) {
    forall i :: 0 <= i < |s| - 1 ==> !(s[i] == '/' && s[i + 1] == '/')
  }

  /** The characters other than `/`, in order. */
  function NonSlash(s: string): string {
    if s == [] then [] else (if s[0] == '/' then [] else [s[0]]) + NonSlash(s[1..])
  }

  lemma {:induction false} CollapseNoDoubleSlash(s: string)
    ensures NoDoubleSlash(CollapseSlashes(s))
  {
    if |s| >= 2 {
      CollapseNoDoubleSlash(s[1..]);
    }
  }

  lemma {:induction false} CollapseKeepsOtherChars(s: string)
    ensures NonSlash(CollapseSlashes(s)) == NonSlash(s)
  {
    if |s| >= 2 {
      CollapseKeepsOtherChars(s[1..]);
      if !(s[0] == '/' && s[1] == '/') {
        var r := [s[0]] + CollapseSlashes(s[1..]);
        assert r[1..] == CollapseSlashes(s[1..]);
      }
    }
  }

  lemma {:induction false} CollapseWithoutRuns(s: string)
    requires NoDoubleSlash(s)
    ensures CollapseSlashes(s) == s
  {
    if |s| >= 2 {
      CollapseWithoutRuns(s[1..]);
    }
  }

  /**
   * Two slashes in a row anywhere become one. With CollapseWithoutRuns this
   * pins the function: applying this step until no run is left gives the
   * collapsed text, so every run leaves exactly one slash in its place.
   */
  lemma {:induction false} CollapseRun(p: string, q: string)
    ensures CollapseSlashes(p + "//" + q) == CollapseSlashes(p + "/" + q)
  {
    var s := p + "//" + q;
    var t := p + "/" + q;
    if p == [] {
      assert s[1..] == t;
    } else {
      assert s[0] == t[0] == p[0];
      assert s[1] == t[1];
      assert s[1..] == p[1..] + "//" + q;
      assert t[1..] == p[1..] + "/" + q;
      CollapseRun(p[1..], q);
    }
  }

  /** `${parentPath}/${name}` with runs of slashes collapsed. */
  function NewPath(parentPath: string, name: string): (r: string)
    ensures NoDoubleSlash(r)
    ensures r != [] && r[0] == (if parentPath == [] then '/' else parentPath[0])
    ensures NoDoubleSlash(parentPath + "/" + name) ==> r == parentPath + "/" + name
  {
    CollapseNoDoubleSlash(parentPath + "/" + name);
    CollapseKeepsPlain(parentPath + "/" + name);
    CollapseSlashes(parentPath + "/" + name)
  }

  lemma CollapseKeepsPlain(s: string)
    ensures NoDoubleSlash(s) ==> CollapseSlashes(s) == s
  {
    if NoDoubleSlash(s) {
      CollapseWithoutRuns(s);
    }
  }

  /** A parent path written with a trailing slash gives the same new path as without it. */
  lemma NewPathTrailingSlash(parentPath: string, name: string)
    ensures NewPath(parentPath + "/", name) == NewPath(parentPath, name)
  {
    assert parentPath + "/" + "/" + name == parentPath + "//" + name;
    CollapseRun(parentPath, name);
  }

  /** Under the root `/` a plain name gets the path `/name`. */
  lemma NewPathAtRoot(name: string)
    requires NoDoubleSlash(name) && (name == [] || name[0] != '/')
    ensures NewPath("/", name) == "/" + name
  {
    var s := "/" + "/" + name;
    assert s[1..] == "/" + name;
    CollapseWithoutRuns("/" + name);
  }

  function NewFileNode(id: string, name: string, parentPath: string): FileNode {
    FileNode(id, name, File, Some(""), [], NewPath(parentPath, name))
  }

  function NewFolderNode(id: string, name: string, parentPath: string): FileNode {
    FileNode(id, name, Folder, None, [], NewPath(parentPath, name))
  }

  /** The updater `folder => ({...folder, children: [...(folder.children || []), child]})`. */
  function AppendChild(child: FileNode): FileNode -> FileNode {
    (folder: FileNode) => folder.(children := folder.children + [child])
  }

  /** The forest after `createFile`/`createFolder` with the node `child`. */
  function InsertNode(files: seq<FileNode>, parentPath: string, child: FileNode): (r: seq<FileNode>)
    ensures parentPath == "/" ==> |r| == |files| + 1 && r[..|files|] == files && r[|files|] == child
    ensures parentPath != "/" ==> |r| == |files|
  {
    if parentPath == "/" then files + [child] else UpdateInTree(parentPath, AppendChild(child), files)
  }

  /**
   * Creating under a parent path: at the root the node becomes the last
   * root; otherwise it becomes the last child of every matching node not
   * below another match; with no matching node the tree is unchanged.
   */
  lemma CreateUnder(files: seq<FileNode>, parentPath: string, child: FileNode, a: seq<nat>)
    requires parentPath != "/"
    requires At(files, a).Some? && Exposed(parentPath, files, a) && At(files, a).value.path == parentPath
    ensures var m := At(InsertNode(files, parentPath, child), a);
      m.Some? && m.value == At(files, a).value.(children := At(files, a).value.children + [child])
      && m.value.children[|m.value.children| - 1] == child
  {
    UpdateAt(parentPath, AppendChild(child), files, a);
  }

  lemma CreateWithoutParent(files: seq<FileNode>, parentPath: string, child: FileNode)
    requires parentPath != "/" && Absent(parentPath, files)
    ensures InsertNode(files, parentPath, child) == files
  {
    UpdateAbsent(parentPath, AppendChild(child), files);
  }

  // ---------------------------------------------------------------------
  // Rename and content updaters
  // ---------------------------------------------------------------------

  /** The path after renaming: the last `/`-separated segment is replaced by the new name. */
  function RenamedPath(path: string, newName: string): string {
    ReplaceLastSegment(path, '/', newName)
  }

  lemma RenamedPathSpec(path: string, newName: string)
    ensures LastIndexOf(path, '/').None? ==> RenamedPath(path, newName) == newName
    ensures LastIndexOf(path, '/').Some? ==>
      RenamedPath(path, newName) == path[..LastIndexOf(path, '/').value + 1] + newName
  {
    ReplaceLastSegmentSpec(path, '/', newName);
  }

  function Renamer(newName: string, newPath: string): FileNode -> FileNode {
    (file: FileNode) => file.(name := newName, path := newPath)
  }

  function SetContent(content: string): FileNode -> FileNode {
    (file: FileNode) => file.(content := Some(content))
  }

  /**
   * A renamed node gets the new name and path and keeps its content and
   * children: the descendants' paths are not rewritten.
   */
  lemma RenameAt(files: seq<FileNode>, path: string, newName: string, a: seq<nat>)
    requires At(files, a).Some? && Exposed(path, files, a) && At(files, a).value.path == path
    ensures var n := At(files, a).value;
      At(UpdateInTree(path, Renamer(newName, RenamedPath(path, newName)), files), a)
        == Some(n.(name := newName, path := RenamedPath(path, newName)))
  {
    UpdateAt(path, Renamer(newName, RenamedPath(path, newName)), files, a);
  }

  /** After an edit, looking the path up finds the first match with the new content. */
  lemma {:induction false} EditThenFind(path: string, content: string, fs: seq<FileNode>)
    requires FirstWithPath(path, Preorder(fs)).Some?
    ensures FirstWithPath(path, Preorder(UpdateInTree(path, SetContent(content), fs)))
      == Some(FirstWithPath(path, Preorder(fs)).value.(content := Some(content)))
  {
    var x := fs[0];
    var r := UpdateInTree(path, SetContent(content), fs);
    var y := r[0];
    UpdateIndex(path, SetContent(content), fs, 0);
    assert r[1..] == UpdateInTree(path, SetContent(content), fs[1..]);
    FirstWithPathAppend(path, [x] + Preorder(x.children), Preorder(fs[1..]));
    FirstWithPathAppend(path, [x], Preorder(x.children));
    FirstWithPathAppend(path, [y] + Preorder(y.children), Preorder(r[1..]));
    FirstWithPathAppend(path, [y], Preorder(y.children));
    if x.path != path {
      if FirstWithPath(path, Preorder(x.children)).Some? {
        EditThenFind(path, content, x.children);
      } else {
        UpdateAbsent(path, SetContent(content), x.children);
        EditThenFind(path, content, fs[1..]);
      }
    }
  }

  /** `openFiles.map(file => file.path === path ? {...file, content} : file)`. */
  function SetContentWhere(path: string, content: string, open: seq<FileNode>): (r: seq<FileNode>)
    ensures |r| == |open|
    ensures forall i :: 0 <= i < |open| ==>
      r[i] == if open[i].path == path then open[i].(content := Some(content)) else open[i]
  {
    if open == [] then []
    else [if open[0].path == path then open[0].(content := Some(content)) else open[0]]
         + SetContentWhere(path, content, open[1..])
  }

  // ---------------------------------------------------------------------
  // Open tabs and the active file
  // ---------------------------------------------------------------------

  /** `file => file.path !== path`. */
  function NotAt(path: string): FileNode -> bool {
    (file: FileNode) => file.path != path
  }

  predicate IsOpen(open: seq<FileNode>, path: string) {
    exists i :: 0 <= i < |open| && open[i].path == path
  }

  /** No two tabs have the same path. */
  predicate DistinctPaths(open: seq<FileNode>) {
    forall i, j :: 0 <= i < j < |open| ==> open[i].path != open[j].path
  }

  predicate AllFiles(open: seq<FileNode>) {
    forall i :: 0 <= i < |open| ==> open[i].kind == File
  }

  function FirstOrNone(s: seq<FileNode>): Option<FileNode> {
    if s == [] then None else Some(s[0])
  }

  lemma {:induction false} FilterKeepsTabs(path: string, open: seq<FileNode>)
    requires DistinctPaths(open) && AllFiles(open)
    ensures var r := Filter(NotAt(path), open);
      DistinctPaths(r) && AllFiles(r) && !IsOpen(r, path)
  {
    FilterKeepsDistinct(path, open);
    var r := Filter(NotAt(path), open);
    forall i | 0 <= i < |r| ensures r[i].kind == File && r[i].path != path {
      assert NotAt(path)(r[i]) && r[i] in open;
    }
  }

  lemma {:induction false} FilterKeepsDistinct(path: string, open: seq<FileNode>)
    requires DistinctPaths(open)
    ensures DistinctPaths(Filter(NotAt(path), open))
  {
    if open != [] {
      var tail := open[1..];
      assert DistinctPaths(tail) by {
        forall i, j | 0 <= i < j < |tail| ensures tail[i].path != tail[j].path {
          assert tail[i] == open[i + 1] && tail[j] == open[j + 1];
        }
      }
      FilterKeepsDistinct(path, tail);
      if open[0].path != path {
        var rest := Filter(NotAt(path), tail);
        forall j | 0 <= j < |rest| ensures rest[j].path != open[0].path {
          assert rest[j] in tail;
          var k :| 0 <= k < |tail| && tail[k] == rest[j];
          assert open[k + 1] == rest[j];
        }
        DistinctCons(open[0], rest);
      }
    }
  }

  lemma DistinctCons(f: FileNode, rest: seq<FileNode>)
    requires DistinctPaths(rest) && forall j :: 0 <= j < |rest| ==> rest[j].path != f.path
    ensures DistinctPaths([f] + rest)
  {
    var r := [f] + rest;
    forall i, j | 0 <= i < j < |r| ensures r[i].path != r[j].path {
      assert r[j] == rest[j - 1];
      if i > 0 {
        assert r[i] == rest[i - 1];
      }
    }
  }

  /**
   * `closeFile`: when the closed tab was active, the new active file is the
   * first remaining tab of the list as it was before the close, or none.
   */
  function ActiveAfterClose(active: Option<FileNode>, open: seq<FileNode>, path: string): (r: Option<FileNode>)
    ensures active.Some? && active.value.path == path ==>
      r == FirstOrNone(Filter(NotAt(path), open))
    ensures !(active.Some? && active.value.path == path) ==> r == active
    ensures active.Some? && active.value.path == path && r.Some? ==>
      exists i :: (0 <= i < |open| && r.value == open[i] && open[i].path != path
        && forall j :: 0 <= j < i ==> open[j].path == path)
  {
    if active.Some? && active.value.path == path then
      if Filter(NotAt(path), open) != [] then
        FirstKept(path, open);
        FirstOrNone(Filter(NotAt(path), open))
      else
        None
    else active
  }

  /** The first tab the filter keeps is the first tab with another path. */
  lemma {:induction false} FirstKept(path: string, open: seq<FileNode>)
    requires Filter(NotAt(path), open) != []
    ensures exists i :: (0 <= i < |open| && Filter(NotAt(path), open)[0] == open[i] && open[i].path != path
      && forall j :: 0 <= j < i ==> open[j].path == path)
  {
    if open[0].path != path {
      assert Filter(NotAt(path), open)[0] == open[0];
    } else {
      assert Filter(NotAt(path), open) == Filter(NotAt(path), open[1..]);
      FirstKept(path, open[1..]);
      var i :| 0 <= i < |open[1..]| && Filter(NotAt(path), open[1..])[0] == open[1..][i] && open[1..][i].path != path
        && forall j :: 0 <= j < i ==> open[1..][j].path == path;
      assert forall j :: 0 <= j < i + 1 ==> open[j].path == path by {
        forall j | 0 <= j < i + 1 ensures open[j].path == path {
          if j > 0 {
            assert open[j] == open[1..][j - 1];
          }
        }
      }
      assert Filter(NotAt(path), open)[0] == open[i + 1];
    }
  }

  /** The file made active by a close is never the closed one, and is still open. */
  lemma ActiveAfterCloseIsOpen(active: Option<FileNode>, open: seq<FileNode>, path: string)
    requires active.Some? && active.value.path == path
    ensures var r := ActiveAfterClose(active, open, path);
      r.None? || (r.value.path != path && r.value in Filter(NotAt(path), open))
    ensures ActiveAfterClose(active, open, path).None? <==> forall i :: 0 <= i < |open| ==> open[i].path == path
  {
    var rest := Filter(NotAt(path), open);
    if forall i :: 0 <= i < |open| ==> open[i].path == path {
      FilterNoneKept(NotAt(path), open);
    } else {
      var i :| 0 <= i < |open| && open[i].path != path;
      assert open[i] in rest;
    }
  }

  /**
   * `deleteFile` as written: when the deleted path was active, the new
   * active file is `openFiles[0]` of the list from BEFORE the delete.
   */
  function ActiveAfterDeleteAsWritten(active: Option<FileNode>, open: seq<FileNode>, path: string): Option<FileNode> {
    if active.Some? && active.value.path == path then FirstOrNone(open) else active
  }

  /**
   * The delete rule can make the deleted file itself active again: with the
   * deleted file as the only (or first) open tab, it stays the active file
   * although its tab was closed and its node removed.
   */
  lemma DeleteReselectsDeletedFile(readme: FileNode)
    requires readme.kind == File
    ensures var active := ActiveAfterDeleteAsWritten(Some(readme), [readme], readme.path);
      active == Some(readme) && !IsOpen(Filter(NotAt(readme.path), [readme]), readme.path)
      && active.value.path == readme.path
  {
    assert Filter(NotAt(readme.path), [readme]) == [];
  }

  // ---------------------------------------------------------------------
  // The hook's state
  // ---------------------------------------------------------------------

  /** The request `saveFile` sends: the path and the node's content. */
  datatype SaveRequest = SaveRequest(path: string, content: Option<string>)

  /** Initial contents of `/src/main.py`, `/src/api.py` and `/README.md`. */
  const MAIN_PY: string := "# Welcome to your backend development workspace!\n# Start coding here...\n\nprint(\"Hello, World!\")\n"

  const API_PY: string := "from flask import Flask\n\napp = Flask(__name__)\n\n@app.route(\"/\")\ndef hello():\n    return \"Hello from Flask!\"\n\nif __name__ == \"__main__\":\n    app.run(debug=True)\n"

  const README_MD: string := "# Backend Development Project\n\nThis is your workspace for learning backend development.\n\n## Getting Started\n\n1. Explore the files in the left panel\n2. Open files to edit them\n3. Use the terminal to run your code\n4. Chat with your AI mentor for help\n"

  /** The tree the hook starts with. */
  function InitialFiles(): seq<FileNode> {
    [ FileNode("1", "src", Folder, None,
        [ FileNode("2", "main.py", File,
            Some(MAIN_PY),
            [], "/src/main.py"),
          FileNode("3", "api.py", File,
            Some(API_PY),
            [], "/src/api.py") ],
        "/src"),
      FileNode("4", "README.md", File,
        Some(README_MD),
        [], "/README.md") ]
  }

  class Workspace {
    var files: seq<FileNode>
    var activeFile: Option<FileNode>
    var openFiles: seq<FileNode>

    /** Tabs have distinct paths and, like the active file, are never folders. */
    ghost predicate Valid()
      reads this
    {
      DistinctPaths(openFiles) && AllFiles(openFiles)
      && (activeFile.Some? ==> activeFile.value.kind == File)
    }

    constructor ()
      ensures Valid()
      ensures files == InitialFiles() && activeFile == None && openFiles == []
    {
      files := InitialFiles();
      activeFile := None;
      openFiles := [];
    }

    /** `createFile(name, parentPath)`, with the new node's id supplied by the caller. */
    method CreateFile(name: string, parentPath: string, id: string)
      requires Valid()
      modifies this
      ensures Valid()
      ensures files == InsertNode(old(files), parentPath, NewFileNode(id, name, parentPath))
      ensures openFiles == old(openFiles) && activeFile == old(activeFile)
    {
      var newFile := FileNode(id, name, File, Some(""), [], CollapseSlashes(parentPath + "/" + name));
      if parentPath == "/" {
        files := files + [newFile];
      } else {
        files := UpdateInTree(parentPath, AppendChild(newFile), files);
      }
    }

    /** `createFolder(name, parentPath)`, with the new node's id supplied by the caller. */
    method CreateFolder(name: string, parentPath: string, id: string)
      requires Valid()
      modifies this
      ensures Valid()
      ensures files == InsertNode(old(files), parentPath, NewFolderNode(id, name, parentPath))
      ensures openFiles == old(openFiles) && activeFile == old(activeFile)
    {
      var newFolder := FileNode(id, name, Folder, None, [], CollapseSlashes(parentPath + "/" + name));
      if parentPath == "/" {
        files := files + [newFolder];
      } else {
        files := UpdateInTree(parentPath, AppendChild(newFolder), files);
      }
    }

    /**
     * `deleteFile(path)`: the nodes go, the tab goes, and an active deleted
     * file is replaced by the first tab of the list from before the delete.
     */
    method DeleteFile(path: string)
      requires Valid()
      modifies this
      ensures Valid()
      ensures files == RemoveFromTree(path, old(files))
      ensures openFiles == Filter(NotAt(path), old(openFiles)) && !IsOpen(openFiles, path)
      ensures activeFile == ActiveAfterDeleteAsWritten(old(activeFile), old(openFiles), path)
    {
      var before := openFiles;
      files := RemoveFromTree(path, files);
      FilterKeepsTabs(path, openFiles);
      openFiles := Filter(NotAt(path), openFiles);
      if activeFile.Some? && activeFile.value.path == path {
        activeFile := if |before| > 0 then Some(before[0]) else None;
      }
    }

    /** `renameFile(path, newName)`: only the tree changes; tabs keep their old nodes. */
    method RenameFile(path: string, newName: string)
      requires Valid()
      modifies this
      ensures Valid()
      ensures files == UpdateInTree(path, Renamer(newName, RenamedPath(path, newName)), old(files))
      ensures openFiles == old(openFiles) && activeFile == old(activeFile)
    {
      var newPath := ReplaceLastSegment(path, '/', newName);
      files := UpdateInTree(path, Renamer(newName, newPath), files);
    }

    /** `openFile(file)`: folders are ignored; a file gets a tab unless one with its path exists, and becomes active. */
    method OpenFile(file: FileNode)
      requires Valid()
      modifies this
      ensures Valid()
      ensures files == old(files)
      ensures file.kind == Folder ==> openFiles == old(openFiles) && activeFile == old(activeFile)
      ensures file.kind == File ==> activeFile == Some(file)
      ensures file.kind == File ==>
        openFiles == if IsOpen(old(openFiles), file.path) then old(openFiles) else old(openFiles) + [file]
      ensures file.kind == File ==> IsOpen(openFiles, file.path)
    {
      if file.kind == Folder {
        return;
      }
      if !IsOpen(openFiles, file.path) {
        openFiles := openFiles + [file];
        assert openFiles[|openFiles| - 1].path == file.path;
      }
      activeFile := Some(file);
    }

    /** `closeFile(path)`. */
    method CloseFile(path: string)
      requires Valid()
      modifies this
      ensures Valid()
      ensures files == old(files)
      ensures openFiles == Filter(NotAt(path), old(openFiles)) && !IsOpen(openFiles, path)
      ensures activeFile == ActiveAfterClose(old(activeFile), old(openFiles), path)
    {
      var before := openFiles;
      FilterKeepsTabs(path, openFiles);
      openFiles := Filter(NotAt(path), openFiles);
      if activeFile.Some? && activeFile.value.path == path {
        var remaining := Filter(NotAt(path), before);
        activeFile := if |remaining| > 0 then Some(remaining[0]) else None;
      }
    }

    /** `updateFileContent(path, content)`: the tree, the matching tabs and a matching active file get the content. */
    method UpdateFileContent(path: string, content: string)
      requires Valid()
      modifies this
      ensures Valid()
      ensures files == UpdateInTree(path, SetContent(content), old(files))
      ensures openFiles == SetContentWhere(path, content, old(openFiles))
      ensures activeFile ==
        if old(activeFile).Some? && old(activeFile).value.path == path
        then Some(old(activeFile).value.(content := Some(content)))
        else old(activeFile)
    {
      files := UpdateInTree(path, SetContent(content), files);
      openFiles := SetContentWhere(path, content, openFiles);
      if activeFile.Some? && activeFile.value.path == path {
        activeFile := Some(activeFile.value.(content := Some(content)));
      }
    }

    /**
     * `saveFile(path)`: looks the node up and, when found, posts its path
     * and content. A failing post is caught and logged, so the call never
     * fails; the request (if any) is the result here.
     */
    method SaveFile(path: string) returns (request: Option<SaveRequest>)
      ensures request.None? <==> Absent(path, files)
      ensures request.Some? ==>
        request.value.path == path
        && request.value.content == FirstWithPath(path, Preorder(files)).value.content
    {
      var file := FindFileByPath(path, files);
      if file.None? {
        return None;
      }
      return Some(SaveRequest(path, file.value.content));
    }
  }
}
