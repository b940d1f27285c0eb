/** The in-memory file system of lib/filesystem.js: a tree of nodes whose directories map
    child names to nodes and whose nodes point back to their parent.

    Node objects are modelled as an object store: the `FileSystem` class holds a map from
    node identities (`NodeId`) to node records (`FSNode`), so two references to the same
    node share one entry, and an update through one is seen through the other. The tree
    invariant, path resolution and the effect of each operation are stated as functions on
    that store (`Tree`); the methods of `FileSystem` are proved to update the store as those
    functions say. */
module FileSystem {
  import opened Text

  datatype Kind = File | Directory

  /** A node's `name` property: a string, or `undefined` when the operation that created or
      renamed the node found no segment in its target path (`mkdir /`). */
  datatype Name = Named(s: string) | Undefined

  /** The property key a name is stored under in `children`: `undefined` becomes "undefined". */
  function Key(n: Name): string {
    match n
    case Named(s) => s
    case Undefined => "undefined"
  }

  /** How `Array.prototype.join` renders a name: `undefined` becomes the empty string. */
  function Display(n: Name): string {
    match n
    case Named(s) => s
    case Undefined => ""
  }

  /** Every name below the root: its key is a non-empty string without '/'. */
  predicate ValidName(n: Name) {
    IsSegment(Key(n))
  }

  /** A name that path resolution treats as an ordinary segment. */
  predicate PlainName(n: Name) {
    n.Named? && n.s != "." && n.s != ".."
  }

  datatype FsError =
    | ParentNotFound | NotADirectory | AlreadyExists | CannotOverwriteDirectory
    | NotFound | NotAFile | CannotDeleteRoot | DirectoryNotEmpty | DeleteFailed
    | SourceNotFound | DestinationParentNotFound | DestinationNotADirectory | DestinationExists

  /** One entry of `listDirectory`; `size` is `None` for the '-' shown for directories. */
  datatype Item = Item(name: Name, kind: Kind, size: Option<nat>, modified: nat)

  /** The `{success, message | content | items}` objects the operations return. */
  datatype FsResult =
    | Ok(message: string)
    | FileContent(content: string)
    | Listing(items: set<Item>)
    | Fail(error: FsError, message: string)
  {
    predicate Success() { !Fail? }
  }

  /** The identity of a node object; `Nil` stands for `null`. */
  type NodeId = int

  const Nil: NodeId := -1

  /** The fields of one `FSNode` object. */
  datatype FSNode = FSNode(name: Name, kind: Kind, content: string, parent: NodeId,
                           children: map<string, NodeId>, modifiedAt: nat)

  type Tree = map<NodeId, FSNode>

  /** Parent and child references stay inside the tree; no node has the identity `Nil`. */
  predicate Closed(t: Tree) {
    Nil !in t && forall n {:trigger t[n]} | n in t :: (t[n].parent == Nil || t[n].parent in t) && t[n].children.Values <= t.Keys
  }

  predicate ChildLinked(t: Tree, path: map<NodeId, seq<string>>, n: NodeId, k: string)
    requires n in t && k in t[n].children
  {
    var c := t[n].children[k];
    c in t && n in path && c in path && t[c].parent == n && Key(t[c].name) == k && path[c] == path[n] + [k]
  }

  predicate ParentLinked(t: Tree, n: NodeId)
    requires n in t
  {
    var p := t[n].parent;
    p != Nil && p in t && Key(t[n].name) in t[p].children && t[p].children[Key(t[n].name)] == n
  }

  predicate RootOk(t: Tree, root: NodeId, path: map<NodeId, seq<string>>) {
    root in t && root in path && path[root] == []
    && t[root].parent == Nil && t[root].name == Named("/") && t[root].kind == Directory
  }

  /** Every child entry points to a node of the tree whose parent and name agree with it. */
  predicate ChildrenLinked(t: Tree, path: map<NodeId, seq<string>>) {
    forall n, k {:trigger k in t[n].children} | n in t && k in t[n].children :: ChildLinked(t, path, n, k)
  }

  /** Every node but the root is the entry of its name in its parent's children. */
  predicate ParentsLinked(t: Tree, root: NodeId) {
    forall n {:trigger ParentLinked(t, n)} | n in t && n != root :: ParentLinked(t, n) && ValidName(t[n].name)
  }

  predicate FilesAreLeaves(t: Tree) {
    forall n {:trigger t[n]} | n in t && t[n].kind == File :: t[n].children == map[]
  }

  predicate PathsDistinct(t: Tree, path: map<NodeId, seq<string>>) {
    forall m, n {:trigger path[m], path[n]} | m in t && n in t && m in path && n in path && path[m] == path[n] :: m == n
  }

  /** The tree invariant. `path` gives, for every node, the keys from the root down to it;
      it is ghost bookkeeping that makes the parent links acyclic. */
  predicate TreeInv(t: Tree, root: NodeId, path: map<NodeId, seq<string>>) {
    && Closed(t) && path.Keys == t.Keys && RootOk(t, root, path)
    && ChildrenLinked(t, path) && ParentsLinked(t, root) && FilesAreLeaves(t) && PathsDistinct(t, path)
  }

  lemma ParentStep(t: Tree, root: NodeId, path: map<NodeId, seq<string>>, n: NodeId)
    requires TreeInv(t, root, path) && n in t && n != root
    ensures t[n].parent != Nil && t[n].parent in t
    ensures Key(t[n].name) in t[t[n].parent].children && t[t[n].parent].children[Key(t[n].name)] == n
    ensures path[n] == path[t[n].parent] + [Key(t[n].name)]
    ensures path[t[n].parent] == path[n][..|path[n]| - 1] && Key(t[n].name) == path[n][|path[n]| - 1]
    ensures |path[t[n].parent]| < |path[n]|
    ensures ValidName(t[n].name)
  {
    assert ParentLinked(t, n);
    assert ChildLinked(t, path, t[n].parent, Key(t[n].name));
  }

  // ---------------------------------------------------------------------------------------
  // Path resolution (resolvePath, lib/filesystem.js:46-87)

  datatype Resolution = Found(node: NodeId) | Missing(node: NodeId, remainingPath: string)

  /** Walks `parts` from `cur`: '.' stays, '..' climbs unless at a node without parent, any
      other segment must be a key of the current node's children. */
  function Walk(t: Tree, cur: NodeId, parts: seq<string>): (r: Resolution)
    requires Closed(t) && cur in t
    ensures r.node in t
    decreases parts
  {
    if |parts| == 0 then Found(cur)
    else if parts[0] == "." then Walk(t, cur, parts[1..])
    else if parts[0] == ".." then Walk(t, if t[cur].parent != Nil then t[cur].parent else cur, parts[1..])
    else if parts[0] !in t[cur].children then Missing(cur, Join(parts, "/"))
    else Walk(t, t[cur].children[parts[0]], parts[1..])
  }

  /** `resolvePath(p, start)`: "/" is the root; otherwise a leading '/' starts at the root,
      and a relative path starts at `start`, or the root when there is none. */
  function Resolve(t: Tree, root: NodeId, p: string, start: NodeId): Resolution
    requires Closed(t) && root in t && (start == Nil || start in t)
  {
    if p == "/" then Found(root)
    else Walk(t, if StartsWith(p, "/") || start == Nil then root else start, Segments(p))
  }

  /** The names of the nodes from just below the root down to `n`. */
  function NamesTo(t: Tree, root: NodeId, path: map<NodeId, seq<string>>, n: NodeId): seq<Name>
    requires TreeInv(t, root, path) && n in t
    decreases |path[n]|
  {
    if n == root then []
    else
      ParentStep(t, root, path, n);
      NamesTo(t, root, path, t[n].parent) + [t[n].name]
  }

  function DisplayAll(names: seq<Name>): (r: seq<string>)
    ensures |r| == |names| && forall k :: 0 <= k < |names| ==> r[k] == Display(names[k])
  {
    seq(|names|, k requires 0 <= k < |names| => Display(names[k]))
  }

  /** `getNodePath(n)`: '/' followed by the names from the root to `n`, joined by '/'. */
  function NodePath(t: Tree, root: NodeId, path: map<NodeId, seq<string>>, n: NodeId): string
    requires TreeInv(t, root, path) && n in t
  {
    "/" + Join(DisplayAll(NamesTo(t, root, path, n)), "/")
  }

  // ---------------------------------------------------------------------------------------
  // The string arithmetic shared by the operations (lib/filesystem.js:111-113)

  /** `path.startsWith('/') ? path : `${basePath}/${path}`.replace('//', '/')` */
  function AbsolutePath(p: string, basePath: string): string {
    if StartsWith(p, "/") then p else ReplaceFirst(basePath + "/" + p, "//", "/")
  }

  /** `absolutePath.split('/').filter(p => p !== '').pop()`: `undefined` when there is no segment. */
  function TargetName(abs: string): (n: Name)
    ensures ValidName(n)
  {
    var segs := Segments(abs);
    if |segs| == 0 then Undefined else Named(segs[|segs| - 1])
  }

  /** `absolutePath.substring(0, absolutePath.lastIndexOf('/')) || '/'` */
  function ParentPath(abs: string): string {
    var pre := PrefixTo(abs, LastIndexOfChar(abs, '/'));
    if pre == "" then "/" else pre
  }

  // ---------------------------------------------------------------------------------------
  // The operations as functions of the tree (lib/filesystem.js:110-345)

  /** `t` with `c` added under `q`, described by `v`. */
  function AddLeaf(t: Tree, q: NodeId, c: NodeId, v: FSNode): Tree
    requires q in t
  {
    t[q := t[q].(children := t[q].children[Key(v.name) := c])][c := v]
  }

  function MkdirOutcome(t: Tree, root: NodeId, abs: string): FsResult
    requires Closed(t) && root in t
  {
    var pp := ParentPath(abs);
    var res := Resolve(t, root, pp, Nil);
    if !res.Found? then Fail(ParentNotFound, "Parent directory does not exist: " + pp)
    else if t[res.node].kind != Directory then Fail(NotADirectory, pp + " is not a directory")
    else if Key(TargetName(abs)) in t[res.node].children then Fail(AlreadyExists, abs + " already exists")
    else Ok("Directory created: " + abs)
  }

  function WriteOutcome(t: Tree, root: NodeId, abs: string): FsResult
    requires Closed(t) && root in t
  {
    var pp := ParentPath(abs);
    var res := Resolve(t, root, pp, Nil);
    var key := Key(TargetName(abs));
    if !res.Found? then Fail(ParentNotFound, "Parent directory does not exist: " + pp)
    else if t[res.node].kind != Directory then Fail(NotADirectory, pp + " is not a directory")
    else if key in t[res.node].children && t[t[res.node].children[key]].kind == Directory then
      Fail(CannotOverwriteDirectory, "Cannot overwrite directory with file: " + abs)
    else Ok("File written: " + abs)
  }

  function ReadOutcome(t: Tree, root: NodeId, abs: string): FsResult
    requires Closed(t) && root in t
  {
    var res := Resolve(t, root, abs, Nil);
    if !res.Found? then Fail(NotFound, "File not found: " + abs)
    else if t[res.node].kind != File then Fail(NotAFile, abs + " is not a file")
    else FileContent(t[res.node].content)
  }

  function ItemOf(v: FSNode): Item {
    Item(v.name, v.kind, if v.kind == File then Some(|v.content|) else None, v.modifiedAt)
  }

  function ListOutcome(t: Tree, root: NodeId, p: string): FsResult
    requires Closed(t) && root in t
  {
    var res := Resolve(t, root, p, Nil);
    if !res.Found? then Fail(NotFound, "Directory not found: " + p)
    else if t[res.node].kind != Directory then Fail(NotADirectory, p + " is not a directory")
    else
      var d := t[res.node];
      Listing(set c | c in d.children.Values && c in t :: ItemOf(t[c]))
  }

  function DeleteOutcome(t: Tree, root: NodeId, abs: string): FsResult
    requires Closed(t) && root in t
  {
    if abs == "/" then Fail(CannotDeleteRoot, "Cannot delete root directory")
    else
      var res := Resolve(t, root, abs, Nil);
      if !res.Found? then Fail(NotFound, "Path not found: " + abs)
      else if t[res.node].kind == Directory && |t[res.node].children| > 0 then
        Fail(DirectoryNotEmpty, "Directory not empty: " + abs)
      else if t[res.node].parent == Nil then Fail(DeleteFailed, "Failed to delete: " + abs)
      else Ok("Deleted: " + abs)
  }

  /** The checks `move` and `copy` share; `success` is the message when they all pass. */
  function TransferOutcome(t: Tree, root: NodeId, src: string, dst: string, success: string): FsResult
    requires Closed(t) && root in t
  {
    var s := Resolve(t, root, src, Nil);
    var dpp := ParentPath(dst);
    var d := Resolve(t, root, dpp, Nil);
    if !s.Found? then Fail(SourceNotFound, "Source not found: " + src)
    else if !d.Found? then Fail(DestinationParentNotFound, "Destination parent directory not found: " + dpp)
    else if t[d.node].kind != Directory then Fail(DestinationNotADirectory, "Destination is not a directory: " + dpp)
    else if Key(TargetName(dst)) in t[d.node].children then Fail(DestinationExists, "Destination already exists: " + dst)
    else Ok(success)
  }

  function MoveOutcome(t: Tree, root: NodeId, src: string, dst: string): FsResult
    requires Closed(t) && root in t
  {
    TransferOutcome(t, root, src, dst, "Moved " + src + " to " + dst)
  }

  function CopyOutcome(t: Tree, root: NodeId, src: string, dst: string): FsResult
    requires Closed(t) && root in t
  {
    var s := Resolve(t, root, src, Nil);
    var verb := if s.Found? && t[s.node].kind == File then "Copied " else "Copied directory ";
    TransferOutcome(t, root, src, dst, verb + src + " to " + dst)
  }

  // ---------------------------------------------------------------------------------------
  // The new tree after each operation

  /** The tree after `mkdir`: on success a fresh empty directory `c` under the parent. */
  function MkdirTree(t: Tree, root: NodeId, abs: string, c: NodeId, now: nat): Tree
    requires Closed(t) && root in t
  {
    if !MkdirOutcome(t, root, abs).Ok? then t
    else
      var q := Resolve(t, root, ParentPath(abs), Nil).node;
      AddLeaf(t, q, c, FSNode(TargetName(abs), Directory, "", q, map[], now))
  }

  /** The tree after `writeFile`: an existing file gets the new content, otherwise a fresh file `c`. */
  function WriteTree(t: Tree, root: NodeId, abs: string, content: string, c: NodeId, now: nat): Tree
    requires Closed(t) && root in t
  {
    if !WriteOutcome(t, root, abs).Ok? then t
    else
      var q := Resolve(t, root, ParentPath(abs), Nil).node;
      var key := Key(TargetName(abs));
      if key in t[q].children then
        var f := t[q].children[key];
        t[f := t[f].(content := content, modifiedAt := now)]
      else AddLeaf(t, q, c, FSNode(TargetName(abs), File, content, q, map[], now))
  }

  /** `x` removed from the tree and from its parent's children. */
  function RemoveLeaf(t: Tree, x: NodeId): Tree
    requires x in t && t[x].parent != Nil && t[x].parent in t
  {
    var p := t[x].parent;
    (t - {x})[p := t[p].(children := t[p].children - {Key(t[x].name)})]
  }

  function DeleteTree(t: Tree, root: NodeId, abs: string): Tree
    requires Closed(t) && root in t
  {
    if !DeleteOutcome(t, root, abs).Ok? then t
    else RemoveLeaf(t, Resolve(t, root, abs, Nil).node)
  }

  /** `s` renamed to `dn` and re-attached under `dp`, in the order `move` does it: the new
      entry is added to `dp` before the old one is removed from the old parent. */
  function Relink(t: Tree, s: NodeId, dp: NodeId, dn: Name, now: nat): Tree
    requires s in t && dp in t && t[s].parent != Nil && t[s].parent in t
  {
    var sp := t[s].parent;
    var t1 := t[s := t[s].(name := dn, parent := dp, modifiedAt := now)];
    var t2 := t1[dp := t1[dp].(children := t1[dp].children[Key(dn) := s])];
    t2[sp := t2[sp].(children := t2[sp].children - {Key(t[s].name)})]
  }

  /** The paths after a move: everything at or below `s` now hangs below `dp` under `k`. */
  function RelinkPath(path: map<NodeId, seq<string>>, s: NodeId, dp: NodeId, k: string): map<NodeId, seq<string>>
    requires s in path && dp in path
  {
    map x | x in path :: if path[s] <= path[x] then path[dp] + [k] + path[x][|path[s]|..] else path[x]
  }

  /** The tree after `copy`: a fresh node `c` of the source's kind; a file keeps its content, a
      directory is copied without its children. */
  function CopyTree(t: Tree, root: NodeId, src: string, dst: string, c: NodeId, now: nat): Tree
    requires Closed(t) && root in t
  {
    if !CopyOutcome(t, root, src, dst).Ok? then t
    else
      var s := Resolve(t, root, src, Nil).node;
      var q := Resolve(t, root, ParentPath(dst), Nil).node;
      var v := t[s];
      AddLeaf(t, q, c, FSNode(TargetName(dst), v.kind, if v.kind == File then v.content else "", q, map[], now))
  }

  // ---------------------------------------------------------------------------------------
  // The tree invariant is preserved

  /** What `AddLeaf` needs: a directory `q`, a fresh `c`, an unused valid name, no children. */
  predicate CanAddLeaf(t: Tree, root: NodeId, path: map<NodeId, seq<string>>, q: NodeId, c: NodeId, v: FSNode) {
    TreeInv(t, root, path) && q in t && c !in t && c != Nil && t[q].kind == Directory
    && Key(v.name) !in t[q].children && v.parent == q && v.children == map[] && ValidName(v.name)
  }

  lemma AddLeafLinks(t: Tree, root: NodeId, path: map<NodeId, seq<string>>, q: NodeId, c: NodeId, v: FSNode)
    requires CanAddLeaf(t, root, path, q, c, v)
    ensures var t', path' := AddLeaf(t, q, c, v), path[c := path[q] + [Key(v.name)]];
      ChildrenLinked(t', path') && ParentsLinked(t', root)
  {
    var k := Key(v.name);
    var t', path' := AddLeaf(t, q, c, v), path[c := path[q] + [k]];
    forall n, k2 | n in t' && k2 in t'[n].children
      ensures ChildLinked(t', path', n, k2)
    {
      if n != q || k2 != k {
        assert ChildLinked(t, path, n, k2);
      }
    }
    forall n | n in t' && n != root
      ensures ParentLinked(t', n) && ValidName(t'[n].name)
    {
      if n != c {
        assert ParentLinked(t, n);
      }
    }
  }

  lemma AddLeafDistinct(t: Tree, root: NodeId, path: map<NodeId, seq<string>>, q: NodeId, c: NodeId, v: FSNode)
    requires CanAddLeaf(t, root, path, q, c, v)
    ensures PathsDistinct(AddLeaf(t, q, c, v), path[c := path[q] + [Key(v.name)]])
  {
    var k := Key(v.name);
    forall m | m in t
      ensures path[m] != path[q] + [k]
    {
      if m != root {
        ParentStep(t, root, path, m);
      }
    }
  }

  lemma AddLeafKeepsInv(t: Tree, root: NodeId, path: map<NodeId, seq<string>>, q: NodeId, c: NodeId, v: FSNode)
    requires CanAddLeaf(t, root, path, q, c, v)
    ensures TreeInv(AddLeaf(t, q, c, v), root, path[c := path[q] + [Key(v.name)]])
  {
    AddLeafLinks(t, root, path, q, c, v);
    AddLeafDistinct(t, root, path, q, c, v);
  }

  lemma RemoveLeafLinks(t: Tree, root: NodeId, path: map<NodeId, seq<string>>, x: NodeId)
    requires TreeInv(t, root, path) && x in t && x != root && t[x].children == map[]
    ensures t[x].parent != Nil && t[x].parent in t
    ensures ChildrenLinked(RemoveLeaf(t, x), path - {x}) && ParentsLinked(RemoveLeaf(t, x), root)
  {
    ParentStep(t, root, path, x);
    RemoveLeafChildren(t, root, path, x);
    RemoveLeafParents(t, root, path, x);
  }

  lemma RemoveLeafChildren(t: Tree, root: NodeId, path: map<NodeId, seq<string>>, x: NodeId)
    requires TreeInv(t, root, path) && x in t && x != root && t[x].children == map[]
    requires t[x].parent != Nil && t[x].parent in t
    ensures ChildrenLinked(RemoveLeaf(t, x), path - {x})
  {
    var t' := RemoveLeaf(t, x);
    var path' := path - {x};
    forall n, k2 | n in t' && k2 in t'[n].children
      ensures ChildLinked(t', path', n, k2)
    {
      assert ChildLinked(t, path, n, k2);
    }
  }

  lemma RemoveLeafParents(t: Tree, root: NodeId, path: map<NodeId, seq<string>>, x: NodeId)
    requires TreeInv(t, root, path) && x in t && x != root && t[x].children == map[]
    requires t[x].parent != Nil && t[x].parent in t
    ensures ParentsLinked(RemoveLeaf(t, x), root)
  {
    ParentStep(t, root, path, x);
    var t' := RemoveLeaf(t, x);
    forall n | n in t' && n != root
      ensures ParentLinked(t', n) && ValidName(t'[n].name)
    {
      assert ParentLinked(t, n);
    }
  }

  lemma RemoveLeafKeepsInv(t: Tree, root: NodeId, path: map<NodeId, seq<string>>, x: NodeId)
    requires TreeInv(t, root, path) && x in t && x != root && t[x].children == map[]
    ensures t[x].parent != Nil && t[x].parent in t
    ensures TreeInv(RemoveLeaf(t, x), root, path - {x})
  {
    RemoveLeafLinks(t, root, path, x);
    ParentStep(t, root, path, x);
    var t' := RemoveLeaf(t, x);
    assert t[x].parent != x;
    assert t'.Keys == t.Keys - {x};
    assert Closed(t') by {
      forall n | n in t'
        ensures t'[n].parent == Nil || t'[n].parent in t'
        ensures t'[n].children.Values <= t'.Keys
      {
        if n != root {
          assert ParentLinked(t', n);
        }
        forall c | c in t'[n].children.Values
          ensures c in t'
        {
          var k2 :| k2 in t'[n].children && t'[n].children[k2] == c;
          assert ChildLinked(t', path - {x}, n, k2);
        }
      }
    }
  }

  /** No node lies below the missing entry `k` of `dp`. */
  lemma {:induction false} NothingBelowMissing(t: Tree, root: NodeId, path: map<NodeId, seq<string>>, dp: NodeId, k: string, y: NodeId)
    requires TreeInv(t, root, path) && dp in t && y in t && k !in t[dp].children
    ensures !(path[dp] + [k] <= path[y])
    decreases |path[y]|
  {
    if |path[y]| > |path[dp]| {
      ParentStep(t, root, path, y);
      if |path[y]| > |path[dp]| + 1 {
        NothingBelowMissing(t, root, path, dp, k, t[y].parent);
      }
    }
  }

  /** A node strictly below `s` has a parent at or below `s`. */
  lemma BelowStep(t: Tree, root: NodeId, path: map<NodeId, seq<string>>, s: NodeId, x: NodeId)
    requires TreeInv(t, root, path) && s in t && x in t && x != s && path[s] <= path[x]
    ensures x != root && t[x].parent != Nil && t[x].parent in t && path[s] <= path[t[x].parent]
  {
    assert path[x] != path[s];
    assert x != root;
    ParentStep(t, root, path, x);
    assert path[t[x].parent] == path[x][..|path[x]| - 1];
  }

  /** What `Relink` needs: `s` is not the root, `dp` is a directory outside the subtree of `s`,
      and `dn` is a valid name not yet used in `dp`. */
  predicate CanRelink(t: Tree, root: NodeId, path: map<NodeId, seq<string>>, s: NodeId, dp: NodeId, dn: Name) {
    TreeInv(t, root, path) && s in t && s != root && dp in t && t[dp].kind == Directory
    && Key(dn) !in t[dp].children && ValidName(dn) && !(path[s] <= path[dp])
    && t[s].parent != Nil && t[s].parent in t  // follows from the invariant, stated for `Relink`
  }

  /** `t'` is `t` with `s` renamed to `dn` and moved from its parent to `dp`. */
  predicate RelinkedAs(t: Tree, t': Tree, s: NodeId, dp: NodeId, dn: Name)
    requires s in t && dp in t && t[s].parent != Nil && t[s].parent in t
  {
    var sp, ks, k := t[s].parent, Key(t[s].name), Key(dn);
    && t'.Keys == t.Keys
    && t'[s] == t[s].(name := dn, parent := dp, modifiedAt := t'[s].modifiedAt)
    && t'[dp].children == (if dp == sp then t[dp].children[k := s] - {ks} else t[dp].children[k := s])
    && (sp != dp ==> t'[sp].children == t[sp].children - {ks})
    && (forall x | x in t && x != s :: t'[x].name == t[x].name && t'[x].parent == t[x].parent && t'[x].kind == t[x].kind)
    && (forall x | x in t && x != dp && x != sp :: t'[x].children == t[x].children)
  }

  lemma RelinkNodes(t: Tree, s: NodeId, dp: NodeId, dn: Name, now: nat)
    requires s in t && dp in t && t[s].parent != Nil && t[s].parent in t
    requires t[s].parent != s && dp != s && (Key(dn) != Key(t[s].name) || t[s].parent != dp)
    ensures RelinkedAs(t, Relink(t, s, dp, dn, now), s, dp, dn)
  {
  }

  lemma RelinkShape(t: Tree, root: NodeId, path: map<NodeId, seq<string>>, s: NodeId, dp: NodeId, dn: Name, now: nat)
    requires CanRelink(t, root, path, s, dp, dn)
    ensures t[s].parent != s && dp != s
    ensures !(path[s] <= path[t[s].parent]) && !(path[s] <= path[root])
    ensures Key(t[s].name) in t[t[s].parent].children && t[t[s].parent].children[Key(t[s].name)] == s
    ensures Key(dn) != Key(t[s].name) || t[s].parent != dp
    ensures RelinkedAs(t, Relink(t, s, dp, dn, now), s, dp, dn)
  {
    ParentStep(t, root, path, s);
    RelinkNodes(t, s, dp, dn, now);
  }

  /** The facts about a relink that the clause lemmas share. */
  predicate RelinkSetting(t: Tree, t': Tree, root: NodeId, path: map<NodeId, seq<string>>, s: NodeId, dp: NodeId, dn: Name) {
    && CanRelink(t, root, path, s, dp, dn) && RelinkedAs(t, t', s, dp, dn)
    && t[s].parent != s && dp != s && !(path[s] <= path[t[s].parent])
    && Key(t[s].name) in t[t[s].parent].children && t[t[s].parent].children[Key(t[s].name)] == s
    && (Key(dn) != Key(t[s].name) || t[s].parent != dp)
  }

  lemma RelinkChildAt(t: Tree, t': Tree, root: NodeId, path: map<NodeId, seq<string>>, s: NodeId, dp: NodeId, dn: Name,
                      n: NodeId, k2: string)
    requires RelinkSetting(t, t', root, path, s, dp, dn) && n in t' && k2 in t'[n].children
    ensures ChildLinked(t', RelinkPath(path, s, dp, Key(dn)), n, k2)
  {
    var k := Key(dn);
    if n == dp && k2 == k {
      var path' := RelinkPath(path, s, dp, k);
      assert path'[s] == path[dp] + [k];
    } else {
      RelinkOldEntry(t, t', root, path, s, dp, dn, n, k2);
      RelinkKeptChild(t, t', root, path, s, dp, dn, n, k2);
    }
  }

  /** Any entry of the relinked tree other than the new one was already there, and not for `s`. */
  lemma RelinkOldEntry(t: Tree, t': Tree, root: NodeId, path: map<NodeId, seq<string>>, s: NodeId, dp: NodeId, dn: Name,
                       n: NodeId, k2: string)
    requires RelinkSetting(t, t', root, path, s, dp, dn) && n in t' && k2 in t'[n].children
    requires !(n == dp && k2 == Key(dn))
    ensures n in t && k2 in t[n].children && t'[n].children[k2] == t[n].children[k2] != s
  {
    var c := t'[n].children[k2];
    assert k2 in t[n].children && t[n].children[k2] == c;
    assert ChildLinked(t, path, n, k2);
  }

  /** An entry kept by the relink still links its child, under the new paths. */
  lemma RelinkKeptChild(t: Tree, t': Tree, root: NodeId, path: map<NodeId, seq<string>>, s: NodeId, dp: NodeId, dn: Name,
                        n: NodeId, k2: string)
    requires RelinkSetting(t, t', root, path, s, dp, dn) && n in t && k2 in t[n].children && k2 in t'[n].children
    requires t'[n].children[k2] == t[n].children[k2] != s
    ensures ChildLinked(t', RelinkPath(path, s, dp, Key(dn)), n, k2)
  {
    var c, L, k := t[n].children[k2], |path[s]|, Key(dn);
    var path' := RelinkPath(path, s, dp, k);
    assert ChildLinked(t, path, n, k2);
    assert t'[c].parent == n && t'[c].name == t[c].name;
    if path[s] <= path[n] {
      assert path[s] <= path[c];
      assert path[c][L..] == path[n][L..] + [k2];
      assert path'[n] == path[dp] + [k] + path[n][L..];
      assert path'[c] == path[dp] + [k] + path[c][L..];
    } else {
      if path[s] <= path[c] {
        BelowStep(t, root, path, s, c);
      }
      assert path'[n] == path[n] && path'[c] == path[c];
    }
  }

  lemma RelinkChildren(t: Tree, t': Tree, root: NodeId, path: map<NodeId, seq<string>>, s: NodeId, dp: NodeId, dn: Name)
    requires RelinkSetting(t, t', root, path, s, dp, dn)
    ensures ChildrenLinked(t', RelinkPath(path, s, dp, Key(dn)))
  {
    forall n, k2 | n in t' && k2 in t'[n].children
      ensures ChildLinked(t', RelinkPath(path, s, dp, Key(dn)), n, k2)
    {
      RelinkChildAt(t, t', root, path, s, dp, dn, n, k2);
    }
  }

  lemma RelinkParents(t: Tree, t': Tree, root: NodeId, path: map<NodeId, seq<string>>, s: NodeId, dp: NodeId, dn: Name)
    requires RelinkSetting(t, t', root, path, s, dp, dn)
    ensures ParentsLinked(t', root) && FilesAreLeaves(t')
  {
    forall n | n in t' && n != root
      ensures ParentLinked(t', n) && ValidName(t'[n].name)
    {
      if n != s {
        assert ParentLinked(t, n);
      }
    }
  }

  lemma RelinkDistinct(t: Tree, root: NodeId, path: map<NodeId, seq<string>>, s: NodeId, dp: NodeId, dn: Name, now: nat)
    requires CanRelink(t, root, path, s, dp, dn)
    ensures PathsDistinct(Relink(t, s, dp, dn, now), RelinkPath(path, s, dp, Key(dn)))
  {
    var k, L := Key(dn), |path[s]|;
    var path' := RelinkPath(path, s, dp, k);
    forall m, n | m in path && n in path && path'[m] == path'[n]
      ensures m == n
    {
      var sm, sn := path[s] <= path[m], path[s] <= path[n];
      if sm && sn {
        assert path'[m][|path[dp]| + 1..] == path[m][L..];
        assert path'[n][|path[dp]| + 1..] == path[n][L..];
        assert path[m] == path[s] + path[m][L..];
        assert path[n] == path[s] + path[n][L..];
      } else if sm {
        assert path[dp] + [k] <= path'[m];
        NothingBelowMissing(t, root, path, dp, k, n);
      } else if sn {
        assert path[dp] + [k] <= path'[n];
        NothingBelowMissing(t, root, path, dp, k, m);
      }
    }
  }

  lemma RelinkKeepsInv(t: Tree, root: NodeId, path: map<NodeId, seq<string>>, s: NodeId, dp: NodeId, dn: Name, now: nat)
    requires CanRelink(t, root, path, s, dp, dn)
    ensures t[s].parent != Nil && t[s].parent in t
    ensures TreeInv(Relink(t, s, dp, dn, now), root, RelinkPath(path, s, dp, Key(dn)))
  {
    var t', path' := Relink(t, s, dp, dn, now), RelinkPath(path, s, dp, Key(dn));
    RelinkShape(t, root, path, s, dp, dn, now);
    RelinkChildren(t, t', root, path, s, dp, dn);
    RelinkParents(t, t', root, path, s, dp, dn);
    RelinkDistinct(t, root, path, s, dp, dn, now);
    assert Closed(t') by {
      forall n | n in t'
        ensures t'[n].parent == Nil || t'[n].parent in t'
        ensures t'[n].children.Values <= t'.Keys
      {
        if n != root {
          assert ParentLinked(t', n);
        }
        forall c | c in t'[n].children.Values
          ensures c in t'
        {
          var k2 :| k2 in t'[n].children && t'[n].children[k2] == c;
          assert ChildLinked(t', path', n, k2);
        }
      }
    }
  }

  // ---------------------------------------------------------------------------------------
  // Properties of path resolution

  /** Walking `a` and then `b` is walking `a + b`, once `a` has been fully resolved. */
  lemma {:induction false} WalkConcat(t: Tree, cur: NodeId, a: seq<string>, b: seq<string>)
    requires Closed(t) && cur in t && Walk(t, cur, a).Found?
    ensures Walk(t, cur, a + b) == Walk(t, Walk(t, cur, a).node, b)
    decreases |a|
  {
    if |a| == 0 {
      assert a + b == b;
    } else {
      assert (a + b)[0] == a[0] && (a + b)[1..] == a[1..] + b;
      var next := if a[0] == "." then cur
        else if a[0] == ".." then (if t[cur].parent != Nil then t[cur].parent else cur)
        else t[cur].children[a[0]];
      WalkConcat(t, next, a[1..], b);
    }
  }

  /** A failed walk stops at the first segment that is not a child of the node reached so far;
      its `remainingPath` is that segment and all after it, joined by '/'. */
  lemma {:induction false} WalkMissing(t: Tree, cur: NodeId, parts: seq<string>)
    requires Closed(t) && cur in t && Walk(t, cur, parts).Missing?
    ensures var r := Walk(t, cur, parts);
      exists i :: 0 <= i < |parts| && Walk(t, cur, parts[..i]) == Found(r.node)
        && parts[i] != "." && parts[i] != ".." && parts[i] !in t[r.node].children
        && r.remainingPath == Join(parts[i..], "/")
    decreases |parts|
  {
    var r := Walk(t, cur, parts);
    if parts[0] != "." && parts[0] != ".." && parts[0] !in t[cur].children {
      assert parts[..0] == [] && parts[0..] == parts;
    } else {
      var next := if parts[0] == "." then cur
        else if parts[0] == ".." then (if t[cur].parent != Nil then t[cur].parent else cur)
        else t[cur].children[parts[0]];
      WalkMissing(t, next, parts[1..]);
      var i :| 0 <= i < |parts[1..]| && Walk(t, next, parts[1..][..i]) == Found(r.node)
        && parts[1..][i] != "." && parts[1..][i] != ".." && parts[1..][i] !in t[r.node].children
        && r.remainingPath == Join(parts[1..][i..], "/");
      assert parts[..i + 1][0] == parts[0] && parts[..i + 1][1..] == parts[1..][..i];
      assert parts[1..][i..] == parts[i + 1..];
    }
  }

  /** `n` copies of "..". */
  function Ups(n: nat): (r: seq<string>)
    ensures |r| == n && forall k :: 0 <= k < n ==> r[k] == ".."
  {
    seq(n, _ => "..")
  }

  /** At a node without parent (the root), any number of ".." goes nowhere. */
  lemma {:induction false} ClimbAtTop(t: Tree, top: NodeId, n: nat, parts: seq<string>)
    requires Closed(t) && top in t && t[top].parent == Nil
    ensures Walk(t, top, Ups(n) + parts) == Walk(t, top, parts)
  {
    if n == 0 {
      assert Ups(n) + parts == parts;
    } else {
      assert (Ups(n) + parts)[0] == ".." && (Ups(n) + parts)[1..] == Ups(n - 1) + parts;
      ClimbAtTop(t, top, n - 1, parts);
    }
  }

  /** The segments other than ".". */
  function WithoutDots(parts: seq<string>): (r: seq<string>)
    ensures forall k :: 0 <= k < |r| ==> r[k] != "."
  {
    if |parts| == 0 then []
    else if parts[0] == "." then WithoutDots(parts[1..])
    else [parts[0]] + WithoutDots(parts[1..])
  }

  /** "." segments change nothing: the same node is reached, and found or not alike. */
  lemma {:induction false} DotsChangeNothing(t: Tree, cur: NodeId, parts: seq<string>)
    requires Closed(t) && cur in t
    ensures Walk(t, cur, parts).node == Walk(t, cur, WithoutDots(parts)).node
    ensures Walk(t, cur, parts).Found? == Walk(t, cur, WithoutDots(parts)).Found?
    decreases |parts|
  {
    if |parts| > 0 {
      var next := if parts[0] == "." then cur
        else if parts[0] == ".." then (if t[cur].parent != Nil then t[cur].parent else cur)
        else if parts[0] in t[cur].children then t[cur].children[parts[0]] else cur;
      DotsChangeNothing(t, next, parts[1..]);
      if parts[0] != "." {
        var w := WithoutDots(parts);
        assert w[0] == parts[0] && w[1..] == WithoutDots(parts[1..]);
      }
    }
  }

  /** The keys on the way to a node are its ancestors' names, and they are all segments. */
  lemma {:induction false} NamesAreKeys(t: Tree, root: NodeId, path: map<NodeId, seq<string>>, n: NodeId)
    requires TreeInv(t, root, path) && n in t
    ensures |NamesTo(t, root, path, n)| == |path[n]|
    ensures forall k :: 0 <= k < |path[n]| ==> Key(NamesTo(t, root, path, n)[k]) == path[n][k] && IsSegment(path[n][k])
    decreases |path[n]|
  {
    if n != root {
      ParentStep(t, root, path, n);
      NamesAreKeys(t, root, path, t[n].parent);
    }
  }

  /** Walking from the root along a node's keys reaches it, unless a key on the way is "." or "..". */
  lemma {:induction false} WalkToNode(t: Tree, root: NodeId, path: map<NodeId, seq<string>>, n: NodeId)
    requires TreeInv(t, root, path) && n in t
    requires forall k :: 0 <= k < |path[n]| ==> path[n][k] != "." && path[n][k] != ".."
    ensures Walk(t, root, path[n]) == Found(n)
    decreases |path[n]|
  {
    if n != root {
      ParentStep(t, root, path, n);
      var p := t[n].parent;
      WalkToNode(t, root, path, p);
      WalkConcat(t, root, path[p], [Key(t[n].name)]);
    }
  }

  /** `resolvePath(getNodePath(n))` is `n` when every name from the root down to `n` is a plain
      segment. */
  lemma RoundTrip(t: Tree, root: NodeId, path: map<NodeId, seq<string>>, n: NodeId)
    requires TreeInv(t, root, path) && n in t
    requires forall k :: 0 <= k < |NamesTo(t, root, path, n)| ==> PlainName(NamesTo(t, root, path, n)[k])
    ensures Resolve(t, root, NodePath(t, root, path, n), Nil) == Found(n)
  {
    NamesAreKeys(t, root, path, n);
    var names := NamesTo(t, root, path, n);
    assert DisplayAll(names) == path[n];
    SegmentsOfAbsolute(path[n]);
    WalkToNode(t, root, path, n);
    if NodePath(t, root, path, n) == "/" {
      SegmentsRoot();
      assert path[n] == path[root];
    }
  }

  /** The round trip needs plain names: a directory named ".." (which `mkdir /home/..` creates)
      prints as a path that resolves somewhere else. */
  lemma DotDotEscapes(t: Tree, root: NodeId, path: map<NodeId, seq<string>>, n: NodeId)
    requires TreeInv(t, root, path) && n in t && n != root && t[n].name == Named("..")
    requires t[n].parent != Nil && t[n].parent in t
    requires forall k :: 0 <= k < |NamesTo(t, root, path, t[n].parent)| ==> PlainName(NamesTo(t, root, path, t[n].parent)[k])
    ensures Resolve(t, root, NodePath(t, root, path, n), Nil) != Found(n)
  {
    ParentStep(t, root, path, n);
    var p := t[n].parent;
    NamesAreKeys(t, root, path, p);
    assert DisplayAll(NamesTo(t, root, path, p)) == path[p];
    assert DisplayAll(NamesTo(t, root, path, n)) == path[p] + [".."];
    var np := NodePath(t, root, path, n);
    assert forall k :: 0 <= k < |path[p] + [".."]| ==> IsSegment((path[p] + [".."])[k]);
    SegmentsOfAbsolute(path[p] + [".."]);
    WalkToNode(t, root, path, p);
    WalkConcat(t, root, path[p], [".."]);
    var up := if t[p].parent != Nil then t[p].parent else p;
    if p != root {
      ParentStep(t, root, path, p);
    }
    assert |path[up]| < |path[n]|;
    assert np != "/";
  }

  // ---------------------------------------------------------------------------------------
  // The target-name and parent-path arithmetic

  /** A path ending in '/' followed by a segment splits into that prefix and that segment. */
  lemma SplitTarget(q: string, w: string)
    requires IsSegment(w)
    ensures ParentPath(q + "/" + w) == (if q == "" then "/" else q)
    ensures TargetName(q + "/" + w) == Named(w)
    ensures Segments(q + "/" + w) == Segments(q) + [w]
  {
    var abs := q + "/" + w;
    assert abs[|q|] == '/';
    assert forall j :: |q| < j < |abs| ==> abs[j] == w[j - |q| - 1];
    assert LastIndexOfChar(abs, '/') == |q|;
    assert abs[..|q|] == q;
    SegmentsAppend(q, w);
  }

  /** A trailing '/' names the last segment again: `mkdir /home/` targets "home" inside "/home". */
  lemma TrailingSlash(q: string)
    ensures ParentPath(q + "/") == (if q == "" then "/" else q)
    ensures TargetName(q + "/") == TargetName(q)
  {
    var abs := q + "/";
    assert LastIndexOfChar(abs, '/') == |q|;
    assert abs[..|q|] == q;
    SegmentsAppend(q, "");
  }

  /** Only the first "//" is collapsed: `a//b` relative to "/" becomes "/a//b". */
  lemma OnlyFirstSlashesCollapse(p: string)
    requires !StartsWith(p, "/")
    ensures AbsolutePath(p, "/") == "/" + p
  {
    var j := "/" + "/" + p;
    assert OccursAt(j, "//", 0);
    assert IndexOf(j, "//") == 0;
    assert j[2..] == p;
  }

  /** Resolving the parent path is walking the segments before the last '/' from the root. */
  lemma ResolveParentPath(t: Tree, root: NodeId, q: string)
    requires Closed(t) && root in t
    ensures Resolve(t, root, if q == "" then "/" else q, Nil) == Walk(t, root, Segments(q))
  {
    SegmentsRoot();
  }

  /** Resolving `q/w` is resolving its parent path and then looking `w` up there. */
  lemma ResolveChild(t: Tree, root: NodeId, q: string, w: string)
    requires Closed(t) && root in t && IsSegment(w)
    requires Resolve(t, root, ParentPath(q + "/" + w), Nil).Found?
    ensures Resolve(t, root, q + "/" + w, Nil) == Walk(t, Resolve(t, root, ParentPath(q + "/" + w), Nil).node, [w])
  {
    SplitTarget(q, w);
    ResolveParentPath(t, root, q);
    WalkConcat(t, root, Segments(q), [w]);
    assert q + "/" + w != "/";
  }

  /** Below a file nothing can be found: resolution stops at the file. */
  lemma ResolveBelowFile(t: Tree, root: NodeId, path: map<NodeId, seq<string>>, q: string, w: string)
    requires TreeInv(t, root, path) && IsSegment(w) && w != "." && w != ".."
    requires Resolve(t, root, ParentPath(q + "/" + w), Nil).Found?
    requires t[Resolve(t, root, ParentPath(q + "/" + w), Nil).node].kind == File
    ensures Resolve(t, root, q + "/" + w, Nil) == Missing(Resolve(t, root, ParentPath(q + "/" + w), Nil).node, w)
  {
    ResolveChild(t, root, q, w);
  }

  // ---------------------------------------------------------------------------------------
  // Growing the tree keeps every successful resolution

  /** `t'` keeps every node of `t` with its parent and its child entries. */
  predicate Extends(t: Tree, t': Tree) {
    forall n | n in t :: n in t' && t'[n].parent == t[n].parent && t[n].children.Keys <= t'[n].children.Keys
      && forall k | k in t[n].children :: t'[n].children[k] == t[n].children[k]
  }

  lemma {:induction false} WalkExtends(t: Tree, t': Tree, cur: NodeId, parts: seq<string>)
    requires Closed(t) && Closed(t') && Extends(t, t') && cur in t && Walk(t, cur, parts).Found?
    ensures Walk(t', cur, parts) == Walk(t, cur, parts)
    decreases |parts|
  {
    if |parts| > 0 {
      var next := if parts[0] == "." then cur
        else if parts[0] == ".." then (if t[cur].parent != Nil then t[cur].parent else cur)
        else t[cur].children[parts[0]];
      WalkExtends(t, t', next, parts[1..]);
    }
  }

  lemma AddLeafExtends(t: Tree, root: NodeId, path: map<NodeId, seq<string>>, q: NodeId, c: NodeId, v: FSNode)
    requires CanAddLeaf(t, root, path, q, c, v)
    ensures Extends(t, AddLeaf(t, q, c, v))
  {
  }

  // ---------------------------------------------------------------------------------------
  // What each operation does to the tree

  /** A successful `mkdir` adds exactly one empty directory under the parent and changes no
      other node; the tree stays well formed, and the same `mkdir` now fails. */
  lemma MkdirAddsDirectory(t: Tree, root: NodeId, path: map<NodeId, seq<string>>, abs: string, c: NodeId, now: nat)
    requires TreeInv(t, root, path) && c !in t && c != Nil && MkdirOutcome(t, root, abs).Ok?
    ensures var q, k := Resolve(t, root, ParentPath(abs), Nil).node, Key(TargetName(abs));
      var t' := MkdirTree(t, root, abs, c, now);
      && t'.Keys == t.Keys + {c}
      && t'[c] == FSNode(TargetName(abs), Directory, "", q, map[], now)
      && t'[q].children == t[q].children[k := c]
      && (forall n | n in t && n != q :: t'[n] == t[n])
      && TreeInv(t', root, path[c := path[q] + [k]])
      && MkdirOutcome(t', root, abs) == Fail(AlreadyExists, abs + " already exists")
  {
    var q := Resolve(t, root, ParentPath(abs), Nil).node;
    var v := FSNode(TargetName(abs), Directory, "", q, map[], now);
    AddLeafKeepsInv(t, root, path, q, c, v);
    AddLeafExtends(t, root, path, q, c, v);
    var pp := ParentPath(abs);
    if pp != "/" {
      WalkExtends(t, AddLeaf(t, q, c, v), root, Segments(pp));
    }
  }

  /** Replacing one node's content keeps every link of the tree. */
  lemma ReplaceContentExtends(t: Tree, f: NodeId, content: string, now: nat)
    requires Closed(t) && f in t
    ensures Closed(t[f := t[f].(content := content, modifiedAt := now)])
    ensures Extends(t, t[f := t[f].(content := content, modifiedAt := now)])
  {
    var t' := t[f := t[f].(content := content, modifiedAt := now)];
    assert t'.Keys == t.Keys;
    forall n | n in t'
      ensures t'[n].parent == t[n].parent && t'[n].children == t[n].children
    {
    }
  }

  /** `writeFile` followed by `readFile` of the same absolute path gives back the content, when
      the path ends in a plain segment. */
  lemma WriteThenRead(t: Tree, root: NodeId, path: map<NodeId, seq<string>>, q: string, w: string,
                      content: string, c: NodeId, now: nat)
    requires TreeInv(t, root, path) && c !in t && c != Nil && IsSegment(w) && w != "." && w != ".."
    requires WriteOutcome(t, root, q + "/" + w).Ok?
    ensures Closed(WriteTree(t, root, q + "/" + w, content, c, now))
    ensures ReadOutcome(WriteTree(t, root, q + "/" + w, content, c, now), root, q + "/" + w) == FileContent(content)
  {
    var abs := q + "/" + w;
    SplitTarget(q, w);
    var d := Resolve(t, root, ParentPath(abs), Nil).node;
    var t' := WriteTree(t, root, abs, content, c, now);
    if w in t[d].children {
      var f := t[d].children[w];
      assert ChildLinked(t, path, d, w);
      ReplaceContentExtends(t, f, content, now);
    } else {
      var v := FSNode(Named(w), File, content, d, map[], now);
      AddLeafKeepsInv(t, root, path, d, c, v);
      AddLeafExtends(t, root, path, d, c, v);
    }
    ResolveParentPath(t, root, q);
    ResolveParentPath(t', root, q);
    WalkExtends(t, t', root, Segments(q));
    ResolveChild(t', root, q, w);
  }

  /** `writeFile` on an existing file replaces only that file's content (and its timestamp);
      otherwise it adds one file holding the content. */
  lemma WriteReplacesOrAdds(t: Tree, root: NodeId, path: map<NodeId, seq<string>>, abs: string,
                            content: string, c: NodeId, now: nat)
    requires TreeInv(t, root, path) && c !in t && c != Nil && WriteOutcome(t, root, abs).Ok?
    ensures var q, k := Resolve(t, root, ParentPath(abs), Nil).node, Key(TargetName(abs));
      var t' := WriteTree(t, root, abs, content, c, now);
      if k in t[q].children then
        var f := t[q].children[k];
        t'.Keys == t.Keys && t[f].kind == File
        && t'[f] == t[f].(content := content, modifiedAt := now)
        && (forall n | n in t && n != f :: t'[n] == t[n])
        && TreeInv(t', root, path)
      else
        t'.Keys == t.Keys + {c} && t'[c] == FSNode(TargetName(abs), File, content, q, map[], now)
        && t'[q].children == t[q].children[k := c]
        && TreeInv(t', root, path[c := path[q] + [k]])
  {
    var q, k := Resolve(t, root, ParentPath(abs), Nil).node, Key(TargetName(abs));
    if k in t[q].children {
      var f := t[q].children[k];
      assert ChildLinked(t, path, q, k);
      ReplaceKeepsInv(t, root, path, f, content, now);
    } else {
      AddLeafKeepsInv(t, root, path, q, c, FSNode(TargetName(abs), File, content, q, map[], now));
    }
  }

  /** Replacing one node's content and timestamp keeps the tree invariant. */
  lemma ReplaceKeepsInv(t: Tree, root: NodeId, path: map<NodeId, seq<string>>, f: NodeId, content: string, now: nat)
    requires TreeInv(t, root, path) && f in t
    ensures TreeInv(t[f := t[f].(content := content, modifiedAt := now)], root, path)
  {
    var t' := t[f := t[f].(content := content, modifiedAt := now)];
    assert forall n | n in t' ::
      t'[n].parent == t[n].parent && t'[n].children == t[n].children && t'[n].name == t[n].name && t'[n].kind == t[n].kind;
    assert ChildrenLinked(t', path) by {
      forall n, k2 | n in t' && k2 in t'[n].children
        ensures ChildLinked(t', path, n, k2)
      {
        assert ChildLinked(t, path, n, k2);
      }
    }
    assert ParentsLinked(t', root) by {
      forall n | n in t' && n != root
        ensures ParentLinked(t', n) && ValidName(t'[n].name)
      {
        assert ParentLinked(t, n);
      }
    }
  }

  /** A successful `delete` removes a node without children, never the root (even when the path
      reaches it through ".."), and exactly its name from its parent's children. */
  lemma DeleteRemovesLeaf(t: Tree, root: NodeId, path: map<NodeId, seq<string>>, abs: string)
    requires TreeInv(t, root, path) && DeleteOutcome(t, root, abs).Ok?
    ensures var x := Resolve(t, root, abs, Nil).node;
      && x in t && x != root && t[x].children == map[] && t[x].parent != Nil && t[x].parent in t
      && t[x].parent != x
      && DeleteTree(t, root, abs) == RemoveLeaf(t, x)
      && TreeInv(RemoveLeaf(t, x), root, path - {x})
  {
    var x := Resolve(t, root, abs, Nil).node;
    if t[x].kind == File {
      assert t[x].children == map[];
    }
    RemoveLeafKeepsInv(t, root, path, x);
    ParentStep(t, root, path, x);
  }

  /** A successful `copy` adds one node of the source's kind under the destination parent: a
      file with the source's content, or an empty directory. The source keeps its name, kind,
      content and parent (and its children, unless it is the destination parent itself). */
  lemma CopyIsShallow(t: Tree, root: NodeId, path: map<NodeId, seq<string>>, src: string, dst: string,
                      c: NodeId, now: nat)
    requires TreeInv(t, root, path) && c !in t && c != Nil && CopyOutcome(t, root, src, dst).Ok?
    ensures var s, q, k := Resolve(t, root, src, Nil).node, Resolve(t, root, ParentPath(dst), Nil).node, Key(TargetName(dst));
      var t' := CopyTree(t, root, src, dst, c, now);
      && t'.Keys == t.Keys + {c}
      && t'[c].kind == t[s].kind && t'[c].children == map[] && t'[c].parent == q && t'[c].name == TargetName(dst)
      && t'[c].content == (if t[s].kind == File then t[s].content else "")
      && t'[s].name == t[s].name && t'[s].kind == t[s].kind && t'[s].content == t[s].content
      && t'[s].parent == t[s].parent && (s != q ==> t'[s].children == t[s].children)
      && t'[q].children == t[q].children[k := c]
      && TreeInv(t', root, path[c := path[q] + [k]])
  {
    var s, q := Resolve(t, root, src, Nil).node, Resolve(t, root, ParentPath(dst), Nil).node;
    var v := t[s];
    var node := FSNode(TargetName(dst), v.kind, if v.kind == File then v.content else "", q, map[], now);
    AddLeafKeepsInv(t, root, path, q, c, node);
    var t' := AddLeaf(t, q, c, node);
    assert CopyTree(t, root, src, dst, c, now) == t';
    assert t'[c] == node && t'[q] == t[q].(children := t[q].children[Key(node.name) := c]);
    assert t'[s] == if s == q then t'[q] else t[s];
  }

  /** The cases `move` leaves unguarded: moving the root, and moving a directory into itself or
      below itself. A move that passes every check is assumed to be neither. */
  predicate MoveStaysInTree(t: Tree, root: NodeId, path: map<NodeId, seq<string>>, src: string, dst: string)
    requires TreeInv(t, root, path)
  {
    MoveOutcome(t, root, src, dst).Ok? ==>
      var s, d := Resolve(t, root, src, Nil).node, Resolve(t, root, ParentPath(dst), Nil).node;
      s != root && !(path[s] <= path[d])
  }

  /** The tree after `move`. */
  function MoveTree(t: Tree, root: NodeId, path: map<NodeId, seq<string>>, src: string, dst: string, now: nat): Tree
    requires TreeInv(t, root, path) && MoveStaysInTree(t, root, path, src, dst)
  {
    if !MoveOutcome(t, root, src, dst).Ok? then t
    else
      var s, d := Resolve(t, root, src, Nil).node, Resolve(t, root, ParentPath(dst), Nil).node;
      ParentStep(t, root, path, s);
      Relink(t, s, d, TargetName(dst), now)
  }

  /** A successful `move` renames the node to the destination name, hangs it under the
      destination parent, drops its old entry, keeps its content and children, and keeps the
      tree well formed. */
  lemma MoveRelinks(t: Tree, root: NodeId, path: map<NodeId, seq<string>>, src: string, dst: string, now: nat)
    requires TreeInv(t, root, path) && MoveStaysInTree(t, root, path, src, dst) && MoveOutcome(t, root, src, dst).Ok?
    ensures var s, d, dn := Resolve(t, root, src, Nil).node, Resolve(t, root, ParentPath(dst), Nil).node, TargetName(dst);
      var t' := MoveTree(t, root, path, src, dst, now);
      && t[s].parent != Nil && t[s].parent in t
      && t'.Keys == t.Keys
      && t'[s] == t[s].(name := dn, parent := d, modifiedAt := now)
      && Key(dn) in t'[d].children && t'[d].children[Key(dn)] == s
      && (t[s].parent != d ==> t'[t[s].parent].children == t[t[s].parent].children - {Key(t[s].name)})
      && TreeInv(t', root, RelinkPath(path, s, d, Key(dn)))
  {
    var s, d, dn := Resolve(t, root, src, Nil).node, Resolve(t, root, ParentPath(dst), Nil).node, TargetName(dst);
    ParentStep(t, root, path, s);
    assert CanRelink(t, root, path, s, d, dn);
    RelinkShape(t, root, path, s, d, dn, now);
    RelinkKeepsInv(t, root, path, s, d, dn, now);
    RelinkFields(t, s, d, dn, now);
  }

  /** The moved node and the two directories after `Relink`. */
  lemma RelinkFields(t: Tree, s: NodeId, dp: NodeId, dn: Name, now: nat)
    requires s in t && dp in t && t[s].parent != Nil && t[s].parent in t
    requires t[s].parent != s && dp != s && (Key(dn) != Key(t[s].name) || t[s].parent != dp)
    ensures var t', sp := Relink(t, s, dp, dn, now), t[s].parent;
      && t'.Keys == t.Keys
      && t'[s] == t[s].(name := dn, parent := dp, modifiedAt := now)
      && Key(dn) in t'[dp].children && t'[dp].children[Key(dn)] == s
      && (sp != dp ==> t'[sp].children == t[sp].children - {Key(t[s].name)})
  {
  }

  /** `writeFile` will update an existing entry rather than add one. */
  predicate WritesExisting(t: Tree, root: NodeId, abs: string)
    requires Closed(t) && root in t
  {
    var res := Resolve(t, root, ParentPath(abs), Nil);
    res.Found? && Key(TargetName(abs)) in t[res.node].children
  }

  const Welcome := "Welcome to irisos!\n\nThis is a  text-based operating system.\nType \"help\" to see available commands.\n"

  /** The tree `initializeFileSystem` builds: the root (0) holding home (1), bin (2), etc (3)
      and README.txt (5), and home holding user (4); every node is stamped at time 0. */
  function SeedTree(): Tree {
    map[0 := FSNode(Named("/"), Directory, "", Nil, map["home" := 1, "bin" := 2, "etc" := 3, "README.txt" := 5], 0),
        1 := FSNode(Named("home"), Directory, "", 0, map["user" := 4], 0),
        2 := FSNode(Named("bin"), Directory, "", 0, map[], 0),
        3 := FSNode(Named("etc"), Directory, "", 0, map[], 0),
        4 := FSNode(Named("user"), Directory, "", 1, map[], 0),
        5 := FSNode(Named("README.txt"), File, Welcome, 0, map[], 0)]
  }

  function SeedPath(): map<NodeId, seq<string>> {
    map[0 := [], 1 := ["home"], 2 := ["bin"], 3 := ["etc"], 4 := ["home", "user"], 5 := ["README.txt"]]
  }

  lemma SeedChildren()
    ensures ChildrenLinked(SeedTree(), SeedPath())
  {
    var t, path := SeedTree(), SeedPath();
    forall n, k | n in t && k in t[n].children
      ensures ChildLinked(t, path, n, k)
    {
      if n == 0 {
        SeedRootChild(k);
      } else {
        assert n == 1 && k == "user";
      }
    }
  }

  lemma SeedRootChild(k: string)
    requires k in SeedTree()[0].children
    ensures ChildLinked(SeedTree(), SeedPath(), 0, k)
  {
    assert k == "home" || k == "bin" || k == "etc" || k == "README.txt";
  }

  lemma SeedNames()
    ensures IsSegment("home") && IsSegment("bin") && IsSegment("etc") && IsSegment("user")
    ensures IsSegment("README.txt")
  {
  }

  lemma SeedParents()
    ensures ParentsLinked(SeedTree(), 0)
  {
    var t := SeedTree();
    SeedNames();
    forall n | n in t && n != 0
      ensures ParentLinked(t, n) && ValidName(t[n].name)
    {
    }
  }

  lemma SeedShape()
    ensures Closed(SeedTree()) && FilesAreLeaves(SeedTree())
    ensures SeedPath().Keys == SeedTree().Keys && RootOk(SeedTree(), 0, SeedPath())
  {
    var t := SeedTree();
    assert t.Keys == {0, 1, 2, 3, 4, 5};
    forall n | n in t
      ensures (t[n].parent == Nil || t[n].parent in t) && t[n].children.Values <= t.Keys
    {
    }
  }

  lemma SeedDistinct()
    ensures PathsDistinct(SeedTree(), SeedPath())
  {
  }

  /** The seed tree satisfies the tree invariant. */
  lemma SeedValid()
    ensures TreeInv(SeedTree(), 0, SeedPath())
  {
    SeedShape();
    SeedChildren();
    SeedParents();
    SeedDistinct();
  }

  // ---------------------------------------------------------------------------------------
  // The file system object

  class FileSystem {
    /** The `FSNode` objects, by identity. */
    var nodes: Tree
    /** `this.root`. */
    const root: NodeId
    /** The identity the next `new FSNode` receives. */
    var nextId: NodeId
    /** The number of timestamps taken so far; stands for `new Date()`. */
    var clock: nat
    /** The keys from the root to each node. */
    ghost var path: map<NodeId, seq<string>>

    ghost predicate Valid()
      reads this
    {
      TreeInv(nodes, root, path) && forall n | n in nodes :: 0 <= n < nextId
    }

    /** `initializeFileSystem`: the root with home, bin, etc and README.txt, and home/user. */
    constructor ()
      ensures Valid() && nodes == SeedTree() && root == 0 && clock == 0
    {
      root := 0;
      nodes := SeedTree();
      nextId := 6;
      clock := 0;
      path := SeedPath();
      SeedValid();
    }

    /** `parent.children[name] = new FSNode(name, kind, parent)`, stamped with a fresh time. */
    method Attach(q: NodeId, name: Name, kind: Kind, content: string) returns (c: NodeId)
      requires Valid() && q in nodes && nodes[q].kind == Directory && Key(name) !in nodes[q].children
      requires ValidName(name)
      modifies this
      ensures Valid() && c == old(nextId) && c !in old(nodes) && nextId == c + 1 && clock == old(clock) + 1
      ensures nodes == AddLeaf(old(nodes), q, c, FSNode(name, kind, content, q, map[], clock))
      ensures path == old(path)[c := old(path)[q] + [Key(name)]]
    {
      clock := clock + 1;
      c := nextId;
      nextId := nextId + 1;
      var node := FSNode(name, kind, content, q, map[], clock);
      AddLeafKeepsInv(nodes, root, path, q, c, node);
      path := path[c := path[q] + [Key(name)]];
      nodes := AddLeaf(nodes, q, c, node);
    }

    /** `node.content = content; node.modifiedAt = new Date()` */
    method Replace(f: NodeId, content: string)
      requires Valid() && f in nodes
      modifies this
      ensures Valid() && clock == old(clock) + 1 && nextId == old(nextId)
      ensures nodes == old(nodes)[f := old(nodes)[f].(content := content, modifiedAt := clock)]
    {
      clock := clock + 1;
      ReplaceKeepsInv(nodes, root, path, f, content, clock);
      nodes := nodes[f := nodes[f].(content := content, modifiedAt := clock)];
    }

    /** The updates `move` makes once its checks pass: rename and re-parent the node, add it to
        the destination, then drop it from its old parent. */
    method Relocate(s: NodeId, d: NodeId, dn: Name)
      requires Valid() && CanRelink(nodes, root, path, s, d, dn)
      modifies this
      ensures Valid() && clock == old(clock) + 1 && nextId == old(nextId)
      ensures nodes == Relink(old(nodes), s, d, dn, clock)
    {
      ghost var t0, p0 := nodes, path;
      var sourceParent := nodes[s].parent;
      var sourceName := nodes[s].name;
      clock := clock + 1;
      nodes := nodes[s := nodes[s].(name := dn, parent := d, modifiedAt := clock)];
      nodes := nodes[d := nodes[d].(children := nodes[d].children[Key(dn) := s])];
      nodes := nodes[sourceParent := nodes[sourceParent].(children := nodes[sourceParent].children - {Key(sourceName)})];
      path := RelinkPath(path, s, d, Key(dn));
      assert Valid() by {
        RelinkKeepsInv(t0, root, p0, s, d, dn, clock);
        assert nodes == Relink(t0, s, d, dn, clock);
      }
    }

    /** `resolvePath(p, start)`, proved to walk as `Resolve` does. */
    method ResolvePath(p: string, start: NodeId) returns (r: Resolution)
      requires Valid() && (start == Nil || start in nodes)
      ensures r == Resolve(nodes, root, p, start)
      ensures r.node in nodes
    {
      var current := if start != Nil then start else root;
      if p == "/" {
        return Found(root);
      }
      var parts := Segments(p);
      if StartsWith(p, "/") {
        current := root;
      }
      var i := 0;
      while i < |parts|
        invariant 0 <= i <= |parts| && current in nodes
        invariant Walk(nodes, current, parts[i..]) == Resolve(nodes, root, p, start)
      {
        var part := parts[i];
        if part == "." {
        } else if part == ".." {
          if nodes[current].parent != Nil {
            current := nodes[current].parent;
          }
        } else if part !in nodes[current].children {
          return Missing(current, Join(parts[i..], "/"));
        } else {
          current := nodes[current].children[part];
        }
        i := i + 1;
      }
      return Found(current);
    }

    /** `getNodePath(n)`: climbs the parent links, collecting names, until the root. */
    method GetNodePath(n: NodeId) returns (s: string)
      requires Valid() && n in nodes
      ensures s == NodePath(nodes, root, path, n)
    {
      var pathParts: seq<Name> := [];
      var current := n;
      while current != Nil
        invariant current != Nil && current in nodes
        invariant NamesTo(nodes, root, path, current) + pathParts == NamesTo(nodes, root, path, n)
        decreases |path[current]|
      {
        if nodes[current].name == Named("/") {
          break;
        }
        assert current != root;
        ParentStep(nodes, root, path, current);
        pathParts := [nodes[current].name] + pathParts;
        current := nodes[current].parent;
      }
      assert current == root by {
        if current != root {
          ParentStep(nodes, root, path, current);
        }
      }
      assert [] + pathParts == pathParts;
      return "/" + Join(DisplayAll(pathParts), "/");
    }

    /** `mkdir(path, basePath)` */
    method Mkdir(p: string, basePath: string) returns (r: FsResult)
      requires Valid()
      modifies this
      ensures Valid()
      ensures r == MkdirOutcome(old(nodes), root, AbsolutePath(p, basePath))
      ensures clock == if r.Ok? then old(clock) + 1 else old(clock)
      ensures nodes == MkdirTree(old(nodes), root, AbsolutePath(p, basePath), old(nextId), clock)
    {
      var abs := AbsolutePath(p, basePath);
      var dirName := TargetName(abs);
      var parentPath := ParentPath(abs);
      var res := ResolvePath(parentPath, Nil);
      if !res.Found? {
        return Fail(ParentNotFound, "Parent directory does not exist: " + parentPath);
      }
      var parentNode := res.node;
      if nodes[parentNode].kind != Directory {
        return Fail(NotADirectory, parentPath + " is not a directory");
      }
      if Key(dirName) in nodes[parentNode].children {
        return Fail(AlreadyExists, abs + " already exists");
      }
      var c := Attach(parentNode, dirName, Directory, "");
      return Ok("Directory created: " + abs);
    }

    /** `writeFile(path, content, basePath)` */
    method WriteFile(p: string, content: string, basePath: string) returns (r: FsResult)
      requires Valid()
      modifies this
      ensures Valid()
      ensures r == WriteOutcome(old(nodes), root, AbsolutePath(p, basePath))
      ensures clock == if r.Ok? then old(clock) + 1 else old(clock)
      ensures nodes == WriteTree(old(nodes), root, AbsolutePath(p, basePath), content, old(nextId), clock)
    {
      var abs := AbsolutePath(p, basePath);
      var fileName := TargetName(abs);
      var parentPath := ParentPath(abs);
      var res := ResolvePath(parentPath, Nil);
      if !res.Found? {
        return Fail(ParentNotFound, "Parent directory does not exist: " + parentPath);
      }
      var parentNode := res.node;
      if nodes[parentNode].kind != Directory {
        return Fail(NotADirectory, parentPath + " is not a directory");
      }
      var key := Key(fileName);
      if key in nodes[parentNode].children && nodes[nodes[parentNode].children[key]].kind == Directory {
        return Fail(CannotOverwriteDirectory, "Cannot overwrite directory with file: " + abs);
      }
      if key in nodes[parentNode].children {
        Replace(nodes[parentNode].children[key], content);
      } else {
        var c := Attach(parentNode, fileName, File, content);
      }
      return Ok("File written: " + abs);
    }

    /** `readFile(path, basePath)` */
    method ReadFile(p: string, basePath: string) returns (r: FsResult)
      requires Valid()
      ensures r == ReadOutcome(nodes, root, AbsolutePath(p, basePath))
    {
      var abs := AbsolutePath(p, basePath);
      var res := ResolvePath(abs, Nil);
      if !res.Found? {
        return Fail(NotFound, "File not found: " + abs);
      }
      if nodes[res.node].kind != File {
        return Fail(NotAFile, abs + " is not a file");
      }
      return FileContent(nodes[res.node].content);
    }

    /** `listDirectory(path)`: one item per child. */
    method ListDirectory(p: string) returns (r: FsResult)
      requires Valid()
      ensures r == ListOutcome(nodes, root, p)
    {
      var res := ResolvePath(p, Nil);
      if !res.Found? {
        return Fail(NotFound, "Directory not found: " + p);
      }
      if nodes[res.node].kind != Directory {
        return Fail(NotADirectory, p + " is not a directory");
      }
      var d := nodes[res.node];
      return Listing(set c | c in d.children.Values && c in nodes :: ItemOf(nodes[c]));
    }

    /** `delete(path, basePath)` */
    method Delete(p: string, basePath: string) returns (r: FsResult)
      requires Valid()
      modifies this
      ensures Valid() && clock == old(clock) && nextId == old(nextId)
      ensures r == DeleteOutcome(old(nodes), root, AbsolutePath(p, basePath))
      ensures nodes == DeleteTree(old(nodes), root, AbsolutePath(p, basePath))
    {
      var abs := AbsolutePath(p, basePath);
      if abs == "/" {
        return Fail(CannotDeleteRoot, "Cannot delete root directory");
      }
      var res := ResolvePath(abs, Nil);
      if !res.Found? {
        return Fail(NotFound, "Path not found: " + abs);
      }
      var node := res.node;
      if nodes[node].kind == Directory && |nodes[node].children| > 0 {
        return Fail(DirectoryNotEmpty, "Directory not empty: " + abs);
      }
      var name := nodes[node].name;
      var parent := nodes[node].parent;
      if parent != Nil {
        DeleteRemovesLeaf(nodes, root, path, abs);
        ghost var after := RemoveLeaf(nodes, node);
        nodes := nodes - {node};
        nodes := nodes[parent := nodes[parent].(children := nodes[parent].children - {Key(name)})];
        assert nodes == after;
        path := path - {node};
        return Ok("Deleted: " + abs);
      }
      return Fail(DeleteFailed, "Failed to delete: " + abs);
    }

    /** `move(sourcePath, destPath, basePath)`. The source performs no check against moving
        the root or moving a directory below itself; those moves are excluded here. */
    method Move(sourcePath: string, destPath: string, basePath: string) returns (r: FsResult)
      requires Valid()
      requires MoveStaysInTree(nodes, root, path, AbsolutePath(sourcePath, basePath), AbsolutePath(destPath, basePath))
      modifies this
      ensures Valid() && nextId == old(nextId)
      ensures r == MoveOutcome(old(nodes), root, AbsolutePath(sourcePath, basePath), AbsolutePath(destPath, basePath))
      ensures clock == if r.Ok? then old(clock) + 1 else old(clock)
      ensures nodes == MoveTree(old(nodes), root, old(path), AbsolutePath(sourcePath, basePath),
                                AbsolutePath(destPath, basePath), clock)
    {
      var sourceAbs := AbsolutePath(sourcePath, basePath);
      var destAbs := AbsolutePath(destPath, basePath);
      var sres := ResolvePath(sourceAbs, Nil);
      if !sres.Found? {
        return Fail(SourceNotFound, "Source not found: " + sourceAbs);
      }
      var sourceNode := sres.node;
      var destName := TargetName(destAbs);
      var destParentPath := ParentPath(destAbs);
      var dres := ResolvePath(destParentPath, Nil);
      if !dres.Found? {
        return Fail(DestinationParentNotFound, "Destination parent directory not found: " + destParentPath);
      }
      var destParent := dres.node;
      if nodes[destParent].kind != Directory {
        return Fail(DestinationNotADirectory, "Destination is not a directory: " + destParentPath);
      }
      if Key(destName) in nodes[destParent].children {
        return Fail(DestinationExists, "Destination already exists: " + destAbs);
      }
      ParentStep(nodes, root, path, sourceNode);
      Relocate(sourceNode, destParent, destName);
      return Ok("Moved " + sourceAbs + " to " + destAbs);
    }

    /** `copy(sourcePath, destPath, basePath)`: a file with the same content, or an empty
        directory. */
    method Copy(sourcePath: string, destPath: string, basePath: string) returns (r: FsResult)
      requires Valid()
      modifies this
      ensures Valid()
      ensures r == CopyOutcome(old(nodes), root, AbsolutePath(sourcePath, basePath), AbsolutePath(destPath, basePath))
      ensures clock == if r.Ok? then old(clock) + 1 else old(clock)
      ensures nodes == CopyTree(old(nodes), root, AbsolutePath(sourcePath, basePath),
                                AbsolutePath(destPath, basePath), old(nextId), clock)
    {
      var sourceAbs := AbsolutePath(sourcePath, basePath);
      var destAbs := AbsolutePath(destPath, basePath);
      var sres := ResolvePath(sourceAbs, Nil);
      if !sres.Found? {
        return Fail(SourceNotFound, "Source not found: " + sourceAbs);
      }
      var sourceNode := sres.node;
      var destName := TargetName(destAbs);
      var destParentPath := ParentPath(destAbs);
      var dres := ResolvePath(destParentPath, Nil);
      if !dres.Found? {
        return Fail(DestinationParentNotFound, "Destination parent directory not found: " + destParentPath);
      }
      var destParent := dres.node;
      if nodes[destParent].kind != Directory {
        return Fail(DestinationNotADirectory, "Destination is not a directory: " + destParentPath);
      }
      if Key(destName) in nodes[destParent].children {
        return Fail(DestinationExists, "Destination already exists: " + destAbs);
      }
      // A file is copied with its content; a directory is copied without its children.
      var source := nodes[sourceNode];
      var c := Attach(destParent, destName, source.kind, if source.kind == File then source.content else "");
      if source.kind == File {
        return Ok("Copied " + sourceAbs + " to " + destAbs);
      } else {
        return Ok("Copied directory " + sourceAbs + " to " + destAbs);
      }
    }
  }
}
