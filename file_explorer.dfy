/**
 * The file explorer: one row per visible node, indented by its depth,
 * with a menu whose create entries exist only on folders, and a per-row
 * rename editor (Enter commits, Escape cancels, leaving the field commits).
 */
module FileExplorer {
  import opened JsText
  import opened FileSystem

  /** The left padding of a row at `depth`, in pixels. */
  function Indent(depth: nat): (px: nat)
    ensures px >= 8 && (px - 8) % 16 == 0 && (px - 8) / 16 == depth
  {
    depth * 16 + 8
  }

  /** A rendered row: the node and the depth it is drawn at. */
  datatype Row = Row(node: FileNode, depth: nat)

  /**
   * The rows of a forest drawn at `depth`: each node, then, when it is a
   * folder whose row is expanded, its children one level deeper. Rows are
   * keyed by node id, and `collapsed` holds the ids of collapsed rows.
   */
  function Rows(nodes: seq<FileNode>, depth: nat, collapsed: set<string>): (r: seq<Row>)
    ensures |r| >= |nodes|
    ensures forall i :: 0 <= i < |r| ==> r[i].depth >= depth
  {
    if nodes == [] then []
    else
      var n := nodes[0];
      [Row(n, depth)]
      + (if n.kind == Folder && n.id !in collapsed then Rows(n.children, depth + 1, collapsed) else [])
      + Rows(nodes[1..], depth, collapsed)
  }

  function Nodes(rows: seq<Row>): (ns: seq<FileNode>)
    ensures |ns| == |rows| && forall i :: 0 <= i < |rows| ==> ns[i] == rows[i].node
  {
    if rows == [] then [] else [rows[0].node] + Nodes(rows[1..])
  }

  lemma {:induction false} NodesAppend(a: seq<Row>, b: seq<Row>)
    ensures Nodes(a + b) == Nodes(a) + Nodes(b)
  {
  }

  /** No file node has children anywhere in the forest. */
  predicate FilesAreLeaves(nodes: seq<FileNode>) {
    forall n :: n in Preorder(nodes) && n.kind == File ==> n.children == []
  }

  lemma {:induction false} FilesAreLeavesSplit(nodes: seq<FileNode>)
    requires nodes != [] && FilesAreLeaves(nodes)
    ensures nodes[0].kind == File ==> nodes[0].children == []
    ensures FilesAreLeaves(nodes[0].children) && FilesAreLeaves(nodes[1..])
  {
    assert Preorder(nodes) == [nodes[0]] + Preorder(nodes[0].children) + Preorder(nodes[1..]);
  }

  /**
   * With every folder expanded, the explorer lists exactly the nodes of the
   * tree in depth-first pre-order (files never show children).
   */
  lemma {:induction false} ExpandedRowsArePreorder(nodes: seq<FileNode>, depth: nat)
    requires FilesAreLeaves(nodes)
    ensures Nodes(Rows(nodes, depth, {})) == Preorder(nodes)
  {
    if nodes != [] {
      var n := nodes[0];
      FilesAreLeavesSplit(nodes);
      ExpandedRowsArePreorder(n.children, depth + 1);
      ExpandedRowsArePreorder(nodes[1..], depth);
      var kids := if n.kind == Folder then Rows(n.children, depth + 1, {}) else [];
      assert Nodes(kids) == Preorder(n.children);
      NodesAppend([Row(n, depth)] + kids, Rows(nodes[1..], depth, {}));
      NodesAppend([Row(n, depth)], kids);
    }
  }

  /** Every node strictly above the one at address `a` is a folder whose row is expanded. */
  predicate OpenAlong(nodes: seq<FileNode>, a: seq<nat>, collapsed: set<string>)
    decreases |a|
  {
    |a| <= 1 ||
    (a[0] < |nodes| && nodes[a[0]].kind == Folder && nodes[a[0]].id !in collapsed
     && OpenAlong(nodes[a[0]].children, a[1..], collapsed))
  }

  /** The block of rows of the `i`-th node lies inside the rows of its siblings. */
  lemma {:induction false} RowsOfMember(nodes: seq<FileNode>, i: nat, depth: nat, collapsed: set<string>)
    requires i < |nodes|
    ensures Row(nodes[i], depth) in Rows(nodes, depth, collapsed)
    ensures nodes[i].kind == Folder && nodes[i].id !in collapsed ==>
      forall x :: x in Rows(nodes[i].children, depth + 1, collapsed) ==> x in Rows(nodes, depth, collapsed)
  {
    if i > 0 {
      RowsOfMember(nodes[1..], i - 1, depth, collapsed);
    }
  }

  /**
   * A node whose ancestors are all expanded folders is drawn, at the
   * starting depth plus its nesting depth (the roots at nesting depth 0,
   * their children at 1, ...).
   */
  lemma {:induction false} RowAtAddress(nodes: seq<FileNode>, depth: nat, collapsed: set<string>, a: seq<nat>)
    requires At(nodes, a).Some? && OpenAlong(nodes, a, collapsed)
    ensures Row(At(nodes, a).value, depth + |a| - 1) in Rows(nodes, depth, collapsed)
    decreases |a|
  {
    RowsOfMember(nodes, a[0], depth, collapsed);
    if |a| > 1 {
      var n := nodes[a[0]];
      assert At(nodes, a) == At(n.children, a[1..]);
      RowAtAddress(n.children, depth + 1, collapsed, a[1..]);
      assert depth + 1 + |a[1..]| - 1 == depth + |a| - 1;
      var row := Row(At(nodes, a).value, depth + |a| - 1);
      assert row in Rows(n.children, depth + 1, collapsed);
    }
  }

  /** A visible node at address `a` is padded 16 pixels per level more than the roots. */
  lemma IndentAtAddress(nodes: seq<FileNode>, depth: nat, collapsed: set<string>, a: seq<nat>)
    requires At(nodes, a).Some? && OpenAlong(nodes, a, collapsed)
    ensures exists row :: (row in Rows(nodes, depth, collapsed) && row.node == At(nodes, a).value
      && Indent(row.depth) == Indent(depth) + 16 * (|a| - 1))
  {
    RowAtAddress(nodes, depth, collapsed, a);
    var row := Row(At(nodes, a).value, depth + |a| - 1);
    assert row in Rows(nodes, depth, collapsed);
  }

  /** The first node's own row sits at address `[0]`. */
  lemma FirstRowAddress(nodes: seq<FileNode>, depth: nat, collapsed: set<string>, row: Row)
    requires nodes != [] && row == Row(nodes[0], depth)
    ensures exists a :: At(nodes, a) == Some(row.node) && OpenAlong(nodes, a, collapsed) && row.depth == depth + |a| - 1
  {
    assert At(nodes, [0]) == Some(row.node);
  }

  /** The address in `nodes` of a row found among the first node's children. */
  lemma LiftChild(nodes: seq<FileNode>, depth: nat, collapsed: set<string>, row: Row)
    requires nodes != [] && nodes[0].kind == Folder && nodes[0].id !in collapsed
    requires exists b :: At(nodes[0].children, b) == Some(row.node) && OpenAlong(nodes[0].children, b, collapsed)
                         && row.depth == depth + 1 + |b| - 1
    ensures exists a :: At(nodes, a) == Some(row.node) && OpenAlong(nodes, a, collapsed) && row.depth == depth + |a| - 1
  {
    var b :| At(nodes[0].children, b) == Some(row.node) && OpenAlong(nodes[0].children, b, collapsed)
             && row.depth == depth + 1 + |b| - 1;
    var a := [0] + b;
    assert a[1..] == b;
    assert At(nodes, a) == Some(row.node);
  }

  /** The address in `nodes` of a row found among the later siblings. */
  lemma LiftSibling(nodes: seq<FileNode>, depth: nat, collapsed: set<string>, row: Row)
    requires nodes != []
    requires exists b :: At(nodes[1..], b) == Some(row.node) && OpenAlong(nodes[1..], b, collapsed)
                         && row.depth == depth + |b| - 1
    ensures exists a :: At(nodes, a) == Some(row.node) && OpenAlong(nodes, a, collapsed) && row.depth == depth + |a| - 1
  {
    var b :| At(nodes[1..], b) == Some(row.node) && OpenAlong(nodes[1..], b, collapsed) && row.depth == depth + |b| - 1;
    var a := [b[0] + 1] + b[1..];
    ShiftAddress("", nodes, b);
    assert a[1..] == b[1..];
    assert At(nodes, a) == Some(row.node);
  }

  /** A row of a non-empty forest is the first node's row, one of its children's rows, or a later sibling's. */
  lemma RowsMember(nodes: seq<FileNode>, depth: nat, collapsed: set<string>, row: Row)
    requires row in Rows(nodes, depth, collapsed)
    ensures nodes != []
    ensures row == Row(nodes[0], depth)
         || (nodes[0].kind == Folder && nodes[0].id !in collapsed && row in Rows(nodes[0].children, depth + 1, collapsed))
         || row in Rows(nodes[1..], depth, collapsed)
  {
  }

  /**
   * Conversely, every row is such a node, drawn at the starting depth plus
   * its nesting depth: no row is drawn at any other indentation.
   */
  lemma {:induction false} RowsComeFromAddresses(nodes: seq<FileNode>, depth: nat, collapsed: set<string>, row: Row)
    requires row in Rows(nodes, depth, collapsed)
    ensures exists a :: At(nodes, a) == Some(row.node) && OpenAlong(nodes, a, collapsed) && row.depth == depth + |a| - 1
  {
    RowsMember(nodes, depth, collapsed, row);
    var n := nodes[0];
    if row == Row(n, depth) {
      FirstRowAddress(nodes, depth, collapsed, row);
    } else if n.kind == Folder && n.id !in collapsed && row in Rows(n.children, depth + 1, collapsed) {
      RowsComeFromAddresses(n.children, depth + 1, collapsed, row);
      LiftChild(nodes, depth, collapsed, row);
    } else {
      RowsComeFromAddresses(nodes[1..], depth, collapsed, row);
      LiftSibling(nodes, depth, collapsed, row);
    }
  }

  /** Top-level nodes are drawn at depth 0, each one's row first in its block. */
  lemma RootsAtDepthZero(nodes: seq<FileNode>, collapsed: set<string>)
    requires nodes != []
    ensures Rows(nodes, 0, collapsed)[0] == Row(nodes[0], 0)
  {
  }

  /** A collapsed folder shows its own row and none of its subtree. */
  lemma CollapsedFolderHidesSubtree(n: FileNode, depth: nat, collapsed: set<string>)
    requires n.kind == Folder && n.id in collapsed
    ensures Rows([n], depth, collapsed) == [Row(n, depth)]
  {
    assert [n][1..] == [];
  }

  /** An entry of a row's menu. */
  datatype MenuItem =
    | NewFile(name: string, parentPath: string)
    | NewFolder(name: string, parentPath: string)
    | Rename
    | Delete(path: string)

  /** The menu of a row: create entries only on folders, under the folder's own path. */
  function Menu(file: FileNode): (m: seq<MenuItem>)
    ensures (exists i :: 0 <= i < |m| && m[i].NewFile?) <==> file.kind == Folder
    ensures (exists i :: 0 <= i < |m| && m[i].NewFolder?) <==> file.kind == Folder
    ensures forall i :: 0 <= i < |m| && (m[i].NewFile? || m[i].NewFolder?) ==> m[i].parentPath == file.path
    ensures |m| >= 2 && m[|m| - 2] == Rename && m[|m| - 1] == Delete(file.path)
  {
    var common := [Rename, Delete(file.path)];
    if file.kind == Folder then
      var m := [NewFile("new-file.py", file.path), NewFolder("new-folder", file.path)] + common;
      assert m[0].NewFile? && m[1].NewFolder?;
      m
    else common
  }

  /** The header buttons create at the top level (the hook's default parent "/"). */
  const HeaderButtons: seq<MenuItem> := [NewFile("new-file.py", "/"), NewFolder("new-folder", "/")]

  /** A header button puts its node last among the top-level entries. */
  lemma HeaderButtonCreatesAtRoot(files: seq<FileNode>, id: string)
    ensures InsertNode(files, HeaderButtons[0].parentPath, NewFileNode(id, HeaderButtons[0].name, "/"))
      == files + [NewFileNode(id, "new-file.py", "/")]
  {
  }

  /** One explorer row and its local state. */
  class FileItem {
    const file: FileNode
    const depth: nat
    var isExpanded: bool
    var isRenaming: bool
    var newName: string

    constructor (file: FileNode, depth: nat)
      ensures this.file == file && this.depth == depth
      ensures isExpanded && !isRenaming && newName == file.name
    {
      this.file := file;
      this.depth := depth;
      isExpanded := true;
      isRenaming := false;
      newName := file.name;
    }

    /** Whether the row's children are drawn. */
    predicate ShowsChildren(): (r: bool)
      reads this
      // a file never draws children; a folder draws them exactly while expanded
      ensures r ==> file.kind == Folder
      ensures file.kind == Folder ==> (r <==> isExpanded)
    {
      file.kind == Folder && isExpanded
    }

    /** The chevron button. */
    method ToggleExpanded()
      modifies this
      ensures isExpanded == !old(isExpanded)
      ensures isRenaming == old(isRenaming) && newName == old(newName)
    {
      isExpanded := !isExpanded;
    }

    /** The Rename menu entry opens the editor on the current text. */
    method StartRename()
      modifies this
      ensures isRenaming && isExpanded == old(isExpanded) && newName == old(newName)
    {
      isRenaming := true;
    }

    /** Typing in the rename field. */
    method Edit(value: string)
      modifies this
      ensures newName == value && isRenaming == old(isRenaming) && isExpanded == old(isExpanded)
    {
      newName := value;
    }

    /**
     * `handleRename()`: the rename request goes out only for a non-empty
     * name that differs from the current one; the editor always closes.
     */
    method HandleRename() returns (request: Option<(string, string)>)
      modifies this
      ensures request.Some? <==> old(newName) != "" && old(newName) != file.name
      ensures request.Some? ==> request.value == (file.path, old(newName))
      ensures !isRenaming && newName == old(newName) && isExpanded == old(isExpanded)
    {
      if newName != "" && newName != file.name {
        request := Some((file.path, newName));
      } else {
        request := None;
      }
      isRenaming := false;
    }

    /** `handleKeyPress(key)`: Enter commits, Escape restores the name and closes, other keys do nothing. */
    method HandleKeyPress(key: string) returns (request: Option<(string, string)>)
      modifies this
      ensures key == "Enter" ==>
        (request.Some? <==> old(newName) != "" && old(newName) != file.name) && !isRenaming && newName == old(newName)
      ensures key == "Escape" ==> request.None? && !isRenaming && newName == file.name
      ensures key != "Enter" && key != "Escape" ==>
        request.None? && isRenaming == old(isRenaming) && newName == old(newName)
      ensures request.Some? ==> request.value == (file.path, old(newName))
      ensures isExpanded == old(isExpanded)
    {
      request := None;
      if key == "Enter" {
        request := HandleRename();
      } else if key == "Escape" {
        newName := file.name;
        isRenaming := false;
      }
    }
  }

  /** Escape cancels for good: a later commit without typing requests nothing. */
  method EscapeThenCommit(item: FileItem) returns (request: Option<(string, string)>)
    modifies item
    ensures request.None? && !item.isRenaming && item.newName == item.file.name
  {
    var cancelled := item.HandleKeyPress("Escape");
    item.StartRename();
    request := item.HandleKeyPress("Enter");
  }
}
