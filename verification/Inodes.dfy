// The inode map of a mounted archive (crates/vfs/src/lib.rs): three maps that must tell one story.
module Inodes {
  import opened Common

  /** A relative path, by components; the root is the empty path. */
  type Path = seq<string>

  const ROOT_INODE: nat := 1

  datatype Node =
    | File(offset: nat, size: nat, mode: nat, mtime: nat, parent: Option<nat>)
    | Directory(children: map<string, nat>, parent: Option<nat>)

  predicate StartsWith(p: Path, prefix: Path) { |prefix| <= |p| && p[..|prefix|] == prefix }

  /** The map as a value. */
  datatype Tree = Tree(nodes: map<nat, Node>, pathToIno: map<Path, nat>, inoToPath: map<nat, Path>, nextInode: nat) {
    function Lookup(parent: nat, name: string): Option<nat> {
      if parent in nodes && nodes[parent].Directory? && name in nodes[parent].children
      then Some(nodes[parent].children[name]) else None
    }

    function GetInode(p: Path): Option<nat> { if p in pathToIno then Some(pathToIno[p]) else None }

    /** Looking up one component after the other, from the root. */
    function Walk(p: Path): Option<nat>
      decreases |p|
    {
      if p == [] then Some(ROOT_INODE)
      else
        match Walk(p[..|p| - 1])
        case None => None
        case Some(d) => Lookup(d, p[|p| - 1])
    }

    predicate IsDir(ino: nat) { ino in nodes && nodes[ino].Directory? }

    /** The two path maps are inverse to each other, apart from the root, which only has a path. */
    ghost predicate MapsInverse() {
      && ROOT_INODE in inoToPath && inoToPath[ROOT_INODE] == [] && [] !in pathToIno
      && (forall p {:trigger pathToIno[p]} :: p in pathToIno ==>
        pathToIno[p] in inoToPath && inoToPath[pathToIno[p]] == p)
      && (forall i {:trigger inoToPath[i]} :: i in inoToPath && i != ROOT_INODE ==>
        inoToPath[i] in pathToIno && pathToIno[inoToPath[i]] == i)
    }

    /** Every link leads to the inode of the longer path. */
    ghost predicate LinksRight() {
      && (forall d, n {:trigger Lookup(d, n)} :: d in nodes && Lookup(d, n).Some? ==>
        Lookup(d, n).value in nodes && d in inoToPath && Lookup(d, n).value in inoToPath
        && inoToPath[Lookup(d, n).value] == inoToPath[d] + [n])
    }

    /** Every path is linked from its parent directory. */
    ghost predicate AllLinked() {
      forall p {:trigger p in pathToIno} :: p in pathToIno && p != [] ==>
        var d := if |p| == 1 then Some(ROOT_INODE) else GetInode(p[..|p| - 1]);
        d.Some? && Lookup(d.value, p[|p| - 1]) == Some(pathToIno[p])
    }

    /** A node knows the directory that it is linked from; the root knows none. */
    ghost predicate ParentsRight() {
      && (ROOT_INODE in nodes ==> nodes[ROOT_INODE].parent == None)
      && forall d: nat, n {:trigger Lookup(d, n)} :: Lookup(d, n).Some? && Lookup(d, n).value in nodes ==>
        nodes[Lookup(d, n).value].parent == Some(d)
    }

    /** What holds after any additions, whether or not the maps agree: links lead to nodes, and these know it. */
    ghost predicate Linked() {
      && IsDir(ROOT_INODE) && nextInode >= 2 && ParentsRight()
      && (forall i {:trigger i in nodes} :: i in nodes ==> i < nextInode)
      && (forall d, n {:trigger Lookup(d, n)} :: Lookup(d, n).Some? ==> Lookup(d, n).value in nodes)
    }

    ghost predicate Valid() {
      && IsDir(ROOT_INODE) && nextInode >= 2 && ParentsRight()
      && (forall i {:trigger i in nodes} :: i in nodes ==> i < nextInode)
      && inoToPath.Keys == nodes.Keys
      && MapsInverse() && LinksRight() && AllLinked()
    }

    /** A new node under the next free inode, with its path, linked into its parent if that is a directory. */
    function Insert(parentIno: nat, path: Path, node: Node): Tree
      requires path != []
    {
      var with := nodes[nextInode := node];
      Tree(
        if parentIno in with && with[parentIno].Directory?
        then with[parentIno := with[parentIno].(children := with[parentIno].children[path[|path| - 1] := nextInode])]
        else with,
        pathToIno[path := nextInode], inoToPath[nextInode := path], nextInode + 1)
    }

    ghost predicate Insertable(parentIno: nat, path: Path, node: Node) {
      && Valid() && path != [] && path !in pathToIno
      && IsDir(parentIno) && inoToPath[parentIno] == path[..|path| - 1]
      && (node.Directory? ==> node.children == map[]) && node.parent == Some(parentIno)
    }

    lemma InsertLookup(parentIno: nat, path: Path, node: Node, d: nat, n: string)
      requires Insertable(parentIno, path, node)
      ensures Insert(parentIno, path, node).Lookup(d, n) ==
        if d == parentIno && n == path[|path| - 1] then Some(nextInode) else Lookup(d, n)
    {
      hide MapsInverse, LinksRight, AllLinked;
    }

    lemma InsertInverse(parentIno: nat, path: Path, node: Node)
      requires Insertable(parentIno, path, node)
      ensures Insert(parentIno, path, node).MapsInverse()
    {
      hide LinksRight, AllLinked;
    }

    lemma InsertFacts(parentIno: nat, path: Path, node: Node)
      requires Insertable(parentIno, path, node)
      ensures var t := Insert(parentIno, path, node);
        && t.nodes.Keys == nodes.Keys + {nextInode} && t.inoToPath == inoToPath[nextInode := path]
        && t.pathToIno == pathToIno[path := nextInode]
      ensures nextInode !in nodes && nextInode !in inoToPath && parentIno in inoToPath && path != []
      ensures path == inoToPath[parentIno] + [path[|path| - 1]] && LinksRight() && AllLinked() && MapsInverse()
      ensures forall n: string {:trigger Lookup(nextInode, n)} :: Lookup(nextInode, n) == None
    {
      hide MapsInverse, LinksRight, AllLinked;
      assert path == path[..|path| - 1] + [path[|path| - 1]];
    }

    lemma InsertLinks(parentIno: nat, path: Path, node: Node)
      requires Insertable(parentIno, path, node)
      ensures Insert(parentIno, path, node).LinksRight()
    {
      hide Insertable, Insert, Lookup, MapsInverse, AllLinked;
      InsertFacts(parentIno, path, node);
      var t := Insert(parentIno, path, node);
      forall d, n {:trigger t.Lookup(d, n)} | d in t.nodes && t.Lookup(d, n).Some?
        ensures t.Lookup(d, n).value in t.nodes && d in t.inoToPath && t.Lookup(d, n).value in t.inoToPath
        ensures t.inoToPath[t.Lookup(d, n).value] == t.inoToPath[d] + [n]
      {
        InsertLookup(parentIno, path, node, d, n);
      }
    }

    lemma InsertAllLinked(parentIno: nat, path: Path, node: Node)
      requires Insertable(parentIno, path, node)
      ensures Insert(parentIno, path, node).AllLinked()
    {
      var t := Insert(parentIno, path, node);
      ParentOfNew(parentIno, path, node);
      InsertFacts(parentIno, path, node);
      hide Insertable, Insert, Lookup, MapsInverse, LinksRight;
      forall p {:trigger p in t.pathToIno} | p in t.pathToIno && p != []
        ensures var d := if |p| == 1 then Some(ROOT_INODE) else t.GetInode(p[..|p| - 1]);
          d.Some? && t.Lookup(d.value, p[|p| - 1]) == Some(t.pathToIno[p])
      {
        if p == path {
          InsertLookup(parentIno, path, node, parentIno, p[|p| - 1]);
        } else {
          assert p in pathToIno;
          var d := if |p| == 1 then Some(ROOT_INODE) else GetInode(p[..|p| - 1]);
          InsertLookup(parentIno, path, node, d.value, p[|p| - 1]);
          OtherChild(parentIno, path, node, p, d.value);
        }
      }
    }

    /** The new path's parent is where its first components lead. */
    lemma ParentOfNew(parentIno: nat, path: Path, node: Node)
      requires Insertable(parentIno, path, node)
      ensures if |path| == 1 then parentIno == ROOT_INODE else GetInode(path[..|path| - 1]) == Some(parentIno)
      ensures |path| > 1 ==> path[..|path| - 1] != path
    {
      hide LinksRight, AllLinked;
    }

    lemma InsertParents(parentIno: nat, path: Path, node: Node)
      requires Insertable(parentIno, path, node)
      ensures Insert(parentIno, path, node).ParentsRight()
    {
      hide MapsInverse, AllLinked;
      var t := Insert(parentIno, path, node);
      forall d: nat, n {:trigger t.Lookup(d, n)} | t.Lookup(d, n).Some? && t.Lookup(d, n).value in t.nodes
        ensures t.nodes[t.Lookup(d, n).value].parent == Some(d)
      {
        InsertLookup(parentIno, path, node, d, n);
        assert Lookup(d, n).Some? ==> Lookup(d, n).value in nodes;
      }
    }

    /** Another path's link is not the new one. */
    lemma OtherChild(parentIno: nat, path: Path, node: Node, p: Path, d: nat)
      requires Insertable(parentIno, path, node) && p in pathToIno && p != path && p != []
      requires Lookup(d, p[|p| - 1]) == Some(pathToIno[p])
      ensures d != parentIno || p[|p| - 1] != path[|path| - 1]
      ensures |p| > 1 && GetInode(p[..|p| - 1]).Some? ==> p[..|p| - 1] != path
    {
      hide AllLinked;
      assert p == p[..|p| - 1] + [p[|p| - 1]] && path == path[..|path| - 1] + [path[|path| - 1]];
    }

    /** Adding below a directory at a new path keeps everything in agreement. */
    lemma InsertValid(parentIno: nat, path: Path, node: Node)
      requires Insertable(parentIno, path, node)
      ensures Insert(parentIno, path, node).Valid()
      ensures Insert(parentIno, path, node).GetInode(path) == Some(nextInode)
    {
      hide MapsInverse, LinksRight, AllLinked, ParentsRight;
      InsertInverse(parentIno, path, node);
      InsertParents(parentIno, path, node);
      InsertLinks(parentIno, path, node);
      InsertAllLinked(parentIno, path, node);
    }

    /** Walking down from the root and asking for the path give the same answer, for every path. */
    lemma {:induction false} WalkIsGetInode(p: Path)
      requires Valid()
      ensures p != [] ==> Walk(p) == GetInode(p)
      decreases |p|
    {
      if p != [] {
        var n := |p| - 1;
        WalkIsGetInode(p[..n]);
        var d := Walk(p[..n]);
        if d.Some? {
          assert inoToPath[d.value] == p[..n];
          var c := Lookup(d.value, p[n]);
          if c.Some? {
            assert p == p[..n] + [p[n]];
            assert inoToPath[c.value] == p;
          }
        }
      }
    }
  }

  // ---------------------------------------------------------------------------------------------
  // Adding

  /** A proper prefix of the path is a file. */
  ghost predicate FileAbove(t: Tree, path: Path) {
    exists k :: 0 < k < |path| && FileAt(t, path[..k])
  }

  predicate FileAt(t: Tree, path: Path) {
    path in t.pathToIno && t.pathToIno[path] in t.nodes && t.nodes[t.pathToIno[path]].File?
  }

  /** `now` is `before` with directories added along the first `k` components of `path`, and nothing else. */
  ghost predicate Grown(before: Tree, now: Tree, path: Path, k: nat)
    requires k <= |path|
  {
    && before.nextInode <= now.nextInode
    && (forall p {:trigger p in before.pathToIno} :: p in before.pathToIno ==>
      p in now.pathToIno && now.pathToIno[p] == before.pathToIno[p])
    && (forall p {:trigger p in now.pathToIno} :: p in now.pathToIno ==>
      p in before.pathToIno || (0 < |p| <= k && p == path[..|p|]))
    && (forall i {:trigger i in before.nodes} :: i in before.nodes ==>
      i in now.nodes && now.nodes[i].Directory? == before.nodes[i].Directory?
      && (before.nodes[i].File? ==> now.nodes[i] == before.nodes[i]))
  }

  // ---------------------------------------------------------------------------------------------
  // Additions in any order, agreeing or not

  predicate WalksToFile(t: Tree, p: Path) {
    t.Walk(p).Some? && t.Walk(p).value in t.nodes && t.nodes[t.Walk(p).value].File?
  }

  /** Walking along `p` meets a file, at its end or before. */
  ghost predicate Walled(t: Tree, p: Path) {
    exists j {:trigger p[..j]} :: 0 < j <= |p| && WalksToFile(t, p[..j])
  }

  /** Nodes keep their kind, and files their contents. */
  ghost predicate NodesKept(t: Tree, u: Tree) {
    && t.nextInode <= u.nextInode
    && forall i {:trigger i in t.nodes} :: i in t.nodes ==>
      i in u.nodes && u.nodes[i].Directory? == t.nodes[i].Directory? && (t.nodes[i].File? ==> u.nodes[i] == t.nodes[i])
  }

  /** Besides, a link keeps its target or leads to a file now. */
  ghost predicate Replaces(t: Tree, u: Tree) {
    && NodesKept(t, u)
    && forall d, n {:trigger t.Lookup(d, n)} :: t.Lookup(d, n).Some? ==>
      && u.Lookup(d, n).Some?
      && (u.Lookup(d, n) == t.Lookup(d, n) || (u.Lookup(d, n).value in u.nodes && u.nodes[u.Lookup(d, n).value].File?))
  }

  /** No path loses its inode, and only `path` and what lies above it gain one. */
  ghost predicate KeysGrow(t: Tree, u: Tree, path: Path) {
    && (forall p {:trigger p in t.pathToIno} :: p in t.pathToIno ==> p in u.pathToIno)
    && (forall p {:trigger p in u.pathToIno} :: p in u.pathToIno ==>
      p in t.pathToIno || (p != [] && StartsWith(path, p)))
  }

  lemma ValidIsLinked(t: Tree)
    requires t.Valid()
    ensures t.Linked()
  {
  }

  lemma ReplacesItself(t: Tree, path: Path)
    ensures Replaces(t, t) && KeysGrow(t, t, path)
  {
  }

  lemma ReplacesAll(t: Tree, u: Tree, v: Tree)
    requires Replaces(t, u) && Replaces(u, v) && u.Linked()
    ensures Replaces(t, v)
  {
    forall d, n {:trigger t.Lookup(d, n)} | t.Lookup(d, n).Some?
      ensures v.Lookup(d, n).Some?
      ensures v.Lookup(d, n) == t.Lookup(d, n) ||
        (v.Lookup(d, n).value in v.nodes && v.nodes[v.Lookup(d, n).value].File?)
    {
      assert u.Lookup(d, n).Some?;
    }
  }

  lemma KeysGrowOn(t: Tree, u: Tree, v: Tree, path: Path)
    requires KeysGrow(t, u, path) && KeysGrow(u, v, path)
    ensures KeysGrow(t, v, path)
  {
  }

  /** A walk goes the same way as before, unless it now meets a file. */
  lemma {:induction false} WalkAfter(t: Tree, u: Tree, p: Path)
    requires Replaces(t, u) && t.Walk(p).Some?
    ensures Walled(u, p) || u.Walk(p) == t.Walk(p)
    decreases |p|
  {
    hide Tree.Lookup;
    if p != [] {
      var n := |p| - 1;
      WalkAfter(t, u, p[..n]);
      var d := t.Walk(p[..n]).value;
      assert t.Lookup(d, p[n]).Some?;
      if Walled(u, p[..n]) {
        WalledOn(u, p, n);
      } else if u.Lookup(d, p[n]) != t.Lookup(d, p[n]) {
        assert p[..|p|] == p && WalksToFile(u, p);
      }
    }
  }

  lemma WalledOn(t: Tree, p: Path, n: nat)
    requires n <= |p| && Walled(t, p[..n])
    ensures Walled(t, p)
  {
    hide Tree.Walk;
    var j :| 0 < j <= n && WalksToFile(t, p[..n][..j]);
    assert p[..n][..j] == p[..j];
  }

  lemma WalledStays(t: Tree, u: Tree, p: Path)
    requires Replaces(t, u) && Walled(t, p)
    ensures Walled(u, p)
  {
    hide Tree.Walk, Tree.Lookup;
    var j :| 0 < j <= |p| && WalksToFile(t, p[..j]);
    WalkAfter(t, u, p[..j]);
    if Walled(u, p[..j]) { WalledOn(u, p, j); }
  }

  /** Nothing lies below a file. */
  lemma {:induction false} BeyondFile(t: Tree, p: Path, k: nat)
    requires k < |p| && WalksToFile(t, p[..k])
    ensures t.Walk(p) == None
    decreases |p|
  {
    var n := |p| - 1;
    if k < n {
      assert p[..n][..k] == p[..k];
      BeyondFile(t, p[..n], k);
    }
  }

  lemma BeyondWall(t: Tree, p: Path, q: Path)
    requires Walled(t, p) && StartsWith(q, p) && p != q
    ensures t.Walk(q) == None
  {
    var j :| 0 < j <= |p| && WalksToFile(t, p[..j]);
    assert q[..|p|][..j] == q[..j];
    BeyondFile(t, q, j);
  }

  /** Inserting a node that has no children. */
  ghost predicate Fresh(t: Tree, parentIno: nat, path: Path, node: Node) {
    && t.Linked() && path != [] && parentIno in t.nodes
    && (node.Directory? ==> node.children == map[]) && node.parent == Some(parentIno)
  }

  lemma FreshLookup(t: Tree, parentIno: nat, path: Path, node: Node, d: nat, n: string)
    requires Fresh(t, parentIno, path, node)
    ensures t.Insert(parentIno, path, node).Lookup(d, n) ==
      if t.IsDir(parentIno) && d == parentIno && n == path[|path| - 1] then Some(t.nextInode) else t.Lookup(d, n)
    ensures t.nextInode !in t.nodes
  {
  }

  lemma FreshParents(t: Tree, parentIno: nat, path: Path, node: Node)
    requires Fresh(t, parentIno, path, node)
    ensures t.Insert(parentIno, path, node).ParentsRight()
  {
    var u := t.Insert(parentIno, path, node);
    forall d: nat, n {:trigger u.Lookup(d, n)} | u.Lookup(d, n).Some? && u.Lookup(d, n).value in u.nodes
      ensures u.nodes[u.Lookup(d, n).value].parent == Some(d)
    {
      FreshLookup(t, parentIno, path, node, d, n);
      assert t.Lookup(d, n).Some? ==> t.Lookup(d, n).value in t.nodes;
    }
  }

  lemma InsertLinked(t: Tree, parentIno: nat, path: Path, node: Node)
    requires Fresh(t, parentIno, path, node)
    ensures var u := t.Insert(parentIno, path, node);
      && NodesKept(t, u) && u.Linked() && KeysGrow(t, u, path)
      && u.nextInode > t.nextInode && u.GetInode(path) == Some(t.nextInode)
      && t.nextInode in u.nodes && u.nodes[t.nextInode] == node
  {
    var u := t.Insert(parentIno, path, node);
    assert path[..|path|] == path;
    FreshLookup(t, parentIno, path, node, parentIno, path[|path| - 1]);
    FreshParents(t, parentIno, path, node);
    hide Tree.ParentsRight;
    forall d, n {:trigger u.Lookup(d, n)} | u.Lookup(d, n).Some? ensures u.Lookup(d, n).value in u.nodes {
      FreshLookup(t, parentIno, path, node, d, n);
    }
  }

  /** A file under any name, or a directory under a new one. */
  lemma InsertReplaces(t: Tree, parentIno: nat, path: Path, node: Node)
    requires Fresh(t, parentIno, path, node)
    requires node.File? || t.Lookup(parentIno, path[|path| - 1]) == None
    ensures Replaces(t, t.Insert(parentIno, path, node))
  {
    hide Tree.Insert, KeysGrow;
    InsertLinked(t, parentIno, path, node);
    var u := t.Insert(parentIno, path, node);
    forall d, n {:trigger t.Lookup(d, n)} | t.Lookup(d, n).Some?
      ensures u.Lookup(d, n).Some?
      ensures u.Lookup(d, n) == t.Lookup(d, n) ||
        (u.Lookup(d, n).value in u.nodes && u.nodes[u.Lookup(d, n).value].File?)
    {
      FreshLookup(t, parentIno, path, node, d, n);
    }
  }

  /** One step of a walk that has come as far as it is clear of files. */
  lemma WalkStep(t: Tree, path: Path, k: nat, d: nat)
    requires k < |path| && t.Walk(path[..k]) == Some(d)
    ensures t.Walk(path[..k + 1]) == t.Lookup(d, path[k])
  {
    assert path[..k + 1][..k] == path[..k];
  }

  /** The walk to a directory that gets a new child leads to it still, and on to the child. */
  lemma WalkToNew(t: Tree, path: Path, k: nat, d: nat, node: Node)
    requires k < |path| && t.Walk(path[..k]) == Some(d) && t.IsDir(d)
    requires Fresh(t, d, path[..k + 1], node) && t.Lookup(d, path[k]) == None
    ensures t.Insert(d, path[..k + 1], node).Walk(path[..k + 1]) == Some(t.nextInode)
  {
    hide Tree.Walk, Tree.Insert;
    var u := t.Insert(d, path[..k + 1], node);
    InsertKeepsWalks(t, d, path[..k + 1], node, path[..k]);
    WalkStep(u, path, k, d);
    FreshLookup(t, d, path[..k + 1], node, d, path[k]);
  }

  lemma {:induction false} InsertKeepsWalks(t: Tree, d: nat, path: Path, node: Node, p: Path)
    requires Fresh(t, d, path, node) && t.Lookup(d, path[|path| - 1]) == None && t.Walk(p).Some?
    ensures t.Insert(d, path, node).Walk(p) == t.Walk(p)
    decreases |p|
  {
    hide Tree.Insert, Tree.Lookup, Fresh;
    if p != [] {
      var n := |p| - 1;
      InsertKeepsWalks(t, d, path, node, p[..n]);
      FreshLookup(t, d, path, node, t.Walk(p[..n]).value, p[n]);
    }
  }

  /** After a file is added, walking to its path meets a file: the new one, or one that was in the way. */
  lemma AddedIsWalled(t: Tree, path: Path, parentIno: nat, node: Node)
    requires Fresh(t, parentIno, path, node) && node.File?
    requires var dir := path[..|path| - 1];
      if t.IsDir(parentIno) then t.Walk(dir) == Some(parentIno) else Walled(t, dir)
    ensures Walled(t.Insert(parentIno, path, node), path)
  {
    hide Tree.Insert, Tree.Walk, Tree.Lookup;
    var u, n := t.Insert(parentIno, path, node), |path| - 1;
    InsertLinked(t, parentIno, path, node);
    InsertReplaces(t, parentIno, path, node);
    if t.IsDir(parentIno) {
      WalkAfter(t, u, path[..n]);
      FreshLookup(t, parentIno, path, node, parentIno, path[n]);
      if !Walled(u, path[..n]) {
        WalkStep(u, path, n, parentIno);
        assert path[..|path|] == path && WalksToFile(u, path);
      }
    } else {
      WalledStays(t, u, path[..n]);
    }
    if Walled(u, path[..n]) { WalledOn(u, path, n); }
  }

  // ---------------------------------------------------------------------------------------------
  // A whole manifest

  datatype Entry = Entry(path: Path, offset: nat, size: nat, mode: nat, mtime: nat)

  /** The path has an inode, and that is a file with these contents. */
  predicate Holds(t: Tree, e: Entry) {
    && e.path in t.pathToIno && t.pathToIno[e.path] in t.nodes && t.nodes[t.pathToIno[e.path]].File?
    && var node := t.nodes[t.pathToIno[e.path]];
       node.offset == e.offset && node.size == e.size && node.mode == e.mode && node.mtime == e.mtime
  }

  /** A directory without children, or a file without contents that its owner may write and all may read. */
  predicate IsEmpty(node: Node, isDir: bool) {
    if isDir then node.Directory? && node.children == map[]
    else node.File? && node.offset == 0 && node.size == 0 && node.mtime == 0 && node.mode == 6 * 64 + 4 * 8 + 4
  }

  predicate DistinctPaths(es: seq<Entry>) {
    forall i, j :: 0 <= i < j < |es| && es[i].path != [] ==> es[i].path != es[j].path
  }

  /** No listed path is a proper prefix of another. */
  predicate PrefixFree(es: seq<Entry>) {
    forall i, j {:trigger es[i], es[j]} :: 0 <= i < |es| && 0 <= j < |es| && es[i].path != [] ==>
      StartsWith(es[j].path, es[i].path) ==> es[j].path == es[i].path
  }

  /** Walking and asking agree on every path. */
  ghost predicate Agree(t: Tree) { forall p: Path {:trigger t.Walk(p)} :: p != [] ==> t.Walk(p) == t.GetInode(p) }

  ghost predicate Above(es: seq<Entry>, n: nat, p: Path)
    requires n <= |es|
  {
    exists i :: 0 <= i < n && StartsWith(es[i].path, p)
  }

  /** The first `n` entries are there, with the directories above them and nothing else; only they are files. */
  ghost predicate Entered(t: Tree, es: seq<Entry>, n: nat)
    requires n <= |es|
  {
    && t.Valid()
    && (forall p {:trigger p in t.pathToIno} :: p in t.pathToIno <==> p != [] && Above(es, n, p))
    && (forall i {:trigger es[i]} :: 0 <= i < n && es[i].path != [] ==> Holds(t, es[i]))
    && (forall p {:trigger FileAt(t, p)} :: FileAt(t, p) ==> exists i :: 0 <= i < n && es[i].path == p)
  }

  lemma PrefixIsDir(t: Tree, q: Path, k: nat)
    requires t.Valid() && q in t.pathToIno && 0 < k < |q|
    ensures q[..k] in t.pathToIno && !FileAt(t, q[..k])
    decreases |q| - k
  {
    if k + 1 < |q| { PrefixIsDir(t, q, k + 1); } else { assert q[..k + 1] == q; }
    var p := q[..k + 1];
    assert p in t.pathToIno && p[..k] == q[..k];
    assert t.Lookup(t.GetInode(p[..k]).value, p[k]) == Some(t.pathToIno[p]);
  }

  /** Where no listed path lies above another, each entry finds its path unused and no file above it. */
  lemma NothingInTheWay(t: Tree, es: seq<Entry>, n: nat)
    requires n < |es| && Entered(t, es, n) && DistinctPaths(es) && PrefixFree(es) && es[n].path != []
    ensures es[n].path !in t.pathToIno && !FileAbove(t, es[n].path)
  {
    hide Tree.Valid, Holds;
    var path := es[n].path;
    assert forall i {:trigger es[i]} :: 0 <= i < n && es[i].path != [] ==>
      !StartsWith(es[i].path, path) && !StartsWith(path, es[i].path);
    forall k | 0 < k < |path| ensures !FileAt(t, path[..k]) {
      assert StartsWith(path, path[..k]) && path[..k] != [];
    }
  }

  lemma AboveMore(es: seq<Entry>, n: nat, p: Path)
    requires n < |es|
    ensures Above(es, n + 1, p) <==> Above(es, n, p) || StartsWith(es[n].path, p)
  {
    hide StartsWith;
  }

  lemma EnterNothing(t: Tree, es: seq<Entry>, n: nat)
    requires n < |es| && Entered(t, es, n) && es[n].path == []
    ensures Entered(t, es, n + 1)
  {
    hide Tree.Valid, Holds, Above;
    forall p {:trigger p in t.pathToIno} ensures p in t.pathToIno <==> p != [] && Above(es, n + 1, p) {
      AboveMore(es, n, p);
    }
    forall p {:trigger FileAt(t, p)} | FileAt(t, p) ensures exists i :: 0 <= i < n + 1 && es[i].path == p {
      var i :| 0 <= i < n && es[i].path == p;
    }
  }

  /** Entering one more file. */
  lemma EnterOne(t: Tree, u: Tree, es: seq<Entry>, n: nat)
    requires n < |es| && Entered(t, es, n) && DistinctPaths(es) && es[n].path != []
    requires u.Valid() && NodesKept(t, u) && KeysGrow(t, u, es[n].path) && Holds(u, es[n])
    requires forall p {:trigger p in t.pathToIno} :: p in t.pathToIno && p != es[n].path ==>
      p in u.pathToIno && u.pathToIno[p] == t.pathToIno[p]
    ensures Entered(u, es, n + 1)
  {
    hide *;
    HeldIsKeyed(u, es[n]);
    EnterKeys(t, u, es, n);
    EnterHolds(t, u, es, n);
    EnterFiles(t, u, es, n);
    EnteredMeans(u, es, n + 1);
  }

  lemma HeldIsKeyed(t: Tree, e: Entry)
    requires Holds(t, e)
    ensures e.path in t.pathToIno
  {
  }

  lemma EnteredMeans(t: Tree, es: seq<Entry>, n: nat)
    requires n <= |es| && t.Valid()
    requires forall p {:trigger p in t.pathToIno} :: p in t.pathToIno <==> p != [] && Above(es, n, p)
    requires forall i {:trigger es[i]} :: 0 <= i < n && es[i].path != [] ==> Holds(t, es[i])
    requires forall p {:trigger FileAt(t, p)} :: FileAt(t, p) ==> exists i :: 0 <= i < n && es[i].path == p
    ensures Entered(t, es, n)
  {
    hide Tree.Valid, Holds, Above, FileAt;
  }

  lemma EnterKeys(t: Tree, u: Tree, es: seq<Entry>, n: nat)
    requires n < |es| && Entered(t, es, n) && es[n].path != []
    requires u.Valid() && KeysGrow(t, u, es[n].path) && es[n].path in u.pathToIno
    ensures forall p {:trigger p in u.pathToIno} :: p in u.pathToIno <==> p != [] && Above(es, n + 1, p)
  {
    hide Tree.Valid, Holds, Above, FileAt;
    forall p {:trigger p in u.pathToIno} ensures p in u.pathToIno <==> p != [] && Above(es, n + 1, p) {
      AboveMore(es, n, p);
      var q := es[n].path;
      if p != [] && StartsWith(q, p) {
        if |p| < |q| { PrefixIsDir(u, q, |p|); } else { assert p == q; }
      }
      assert p in t.pathToIno ==> p != [];
    }
  }

  lemma EnterHolds(t: Tree, u: Tree, es: seq<Entry>, n: nat)
    requires n < |es| && Entered(t, es, n) && DistinctPaths(es) && NodesKept(t, u) && Holds(u, es[n])
    requires forall p {:trigger p in t.pathToIno} :: p in t.pathToIno && p != es[n].path ==>
      p in u.pathToIno && u.pathToIno[p] == t.pathToIno[p]
    ensures forall i {:trigger es[i]} :: 0 <= i < n + 1 && es[i].path != [] ==> Holds(u, es[i])
  {
    hide Tree.Valid, Above, FileAt;
    forall i {:trigger es[i]} | 0 <= i < n + 1 && es[i].path != [] ensures Holds(u, es[i]) {
      if i < n { assert Holds(t, es[i]); }
    }
  }

  lemma EnterFiles(t: Tree, u: Tree, es: seq<Entry>, n: nat)
    requires n < |es| && Entered(t, es, n) && NodesKept(t, u) && u.Valid()
    requires KeysGrow(t, u, es[n].path) && es[n].path in u.pathToIno
    requires forall p {:trigger p in t.pathToIno} :: p in t.pathToIno && p != es[n].path ==>
      p in u.pathToIno && u.pathToIno[p] == t.pathToIno[p]
    ensures forall p {:trigger FileAt(u, p)} :: FileAt(u, p) ==> exists i :: 0 <= i < n + 1 && es[i].path == p
  {
    KeysHaveNodes(t);
    hide Tree.Valid, Above, Holds;
    var q := es[n].path;
    forall p {:trigger FileAt(u, p)} | FileAt(u, p) ensures exists i :: 0 <= i < n + 1 && es[i].path == p {
      if p != q {
        if p in t.pathToIno {
          assert FileAt(t, p);
          var i :| 0 <= i < n && es[i].path == p;
        } else {
          assert StartsWith(q, p) && p == q[..|p|];
          PrefixIsDir(u, q, |p|);
        }
      }
    }
  }

  lemma KeysHaveNodes(t: Tree)
    requires t.Valid()
    ensures forall p {:trigger p in t.pathToIno} :: p in t.pathToIno ==> t.pathToIno[p] in t.nodes
  {
  }

  /** A listed path below another is lost: it has an inode, and walking to it finds nothing. */
  lemma ShadowedIsLost(t: Tree, es: seq<Entry>)
    requires !PrefixFree(es)
    requires forall i {:trigger es[i]} :: 0 <= i < |es| && es[i].path != [] ==>
      es[i].path in t.pathToIno && Walled(t, es[i].path)
    ensures !Agree(t) && !t.Valid()
  {
    var i, j :| 0 <= i < |es| && 0 <= j < |es| && es[i].path != [] && StartsWith(es[j].path, es[i].path)
      && es[j].path != es[i].path;
    var q := es[j].path;
    BeyondWall(t, es[i].path, q);
    assert q != [] && t.Walk(q) == None && t.GetInode(q).Some?;
    hide Tree.Walk, Tree.Valid, Walled;
    if t.Valid() { t.WalkIsGetInode(q); }
  }

  lemma ValidAgrees(t: Tree)
    requires t.Valid()
    ensures Agree(t)
  {
    forall p: Path {:trigger t.Walk(p)} | p != [] ensures t.Walk(p) == t.GetInode(p) { t.WalkIsGetInode(p); }
  }

  /** Where a path of the old subtree moves to; other paths stay. */
  function Moved(p: Path, src: Path, to: Path): Path {
    if StartsWith(p, src) then to + p[|src|..] else p
  }

  /** `to` is unused and unrelated: nothing is there or below, and neither path contains the other. */
  ghost predicate Free(t: Tree, src: Path, to: Path) {
    && to != [] && src != [] && !StartsWith(to, src) && !StartsWith(src, to)
    && forall p {:trigger p in t.pathToIno} :: p in t.pathToIno ==> !StartsWith(p, to)
  }

  function Key(p: Path, src: Path, to: Path, todo: set<Path>): Path {
    if p in todo then p else Moved(p, src, to)
  }

  /** A rename under way: all paths have moved except those in `todo`. */
  ghost predicate Moving(before: Tree, now: Tree, src: Path, to: Path, todo: set<Path>) {
    && now.nodes == before.nodes && now.nextInode == before.nextInode
    && (forall p {:trigger p in before.pathToIno} :: p in before.pathToIno ==>
      Key(p, src, to, todo) in now.pathToIno && now.pathToIno[Key(p, src, to, todo)] == before.pathToIno[p])
    && (forall q {:trigger q in now.pathToIno} :: q in now.pathToIno ==>
      exists p {:trigger p in before.pathToIno} :: p in before.pathToIno && q == Key(p, src, to, todo))
    && now.inoToPath.Keys == before.inoToPath.Keys
    && (forall i {:trigger now.inoToPath[i]} :: i in before.inoToPath ==>
      now.inoToPath[i] == Key(before.inoToPath[i], src, to, todo))
  }

  class InodeMap {
    var nodes: map<nat, Node>
    var pathToIno: map<Path, nat>
    var inoToPath: map<nat, Path>
    var nextInode: nat

    ghost function State(): Tree
      reads this
    {
      Tree(nodes, pathToIno, inoToPath, nextInode)
    }

    ghost predicate Valid()
      reads this
    {
      State().Valid()
    }

    constructor ()
      ensures Valid() && pathToIno == map[]
    {
      nodes := map[ROOT_INODE := Directory(map[], None)];
      pathToIno := map[];
      inoToPath := map[ROOT_INODE := []];
      nextInode := 2;
    }

    /**
     The map of an archive with a manifest. Whatever distinct paths it lists, the maps agree, and so do walking and
     asking on every path, if and only if no listed path is a proper prefix of another; then each entry is there with
     its contents, below directories, and nothing else is.
     */
    constructor FromManifest(files: seq<Entry>)
      requires DistinctPaths(files)
      ensures State().Linked()
      ensures forall i {:trigger files[i]} :: 0 <= i < |files| && files[i].path != [] ==> files[i].path in pathToIno
      ensures Valid() <==> PrefixFree(files)
      ensures Agree(State()) <==> PrefixFree(files)
      ensures PrefixFree(files) ==> Entered(State(), files, |files|)
    {
      hide Tree.Valid, Tree.Linked, Tree.Walk, Tree.Lookup, Tree.GetInode, Agree, PrefixFree, Entered, KeysGrow,
        Replaces, NodesKept, Walled, Holds, FileAbove, Above, StartsWith, DistinctPaths, AllWalled;
      nodes := map[ROOT_INODE := Directory(map[], None)];
      pathToIno := map[];
      inoToPath := map[ROOT_INODE := []];
      nextInode := 2;
      new;
      NothingEntered(State(), files);
      var n := 0;
      while n < |files|
        invariant n <= |files| && State().Linked() && AllWalled(State(), files, n)
        invariant PrefixFree(files) ==> Entered(State(), files, n)
      {
        ghost var t := State();
        if PrefixFree(files) {
          EnteredIsValid(t, files, n);
          if files[n].path == [] { EnterNothing(t, files, n); } else { NothingInTheWay(t, files, n); }
        }
        AddFile(files[n]);
        WalledMore(t, State(), files, n);
        if PrefixFree(files) && files[n].path != [] { Enters(t, State(), files, n); }
        n := n + 1;
      }
      WalledMeans(State(), files);
      if PrefixFree(files) {
        EnteredIsValid(State(), files, n);
        ValidAgrees(State());
      } else {
        ShadowedIsLost(State(), files);
      }
    }

    static lemma NothingEntered(t: Tree, es: seq<Entry>)
      requires t == Tree(map[ROOT_INODE := Directory(map[], None)], map[], map[ROOT_INODE := []], 2)
      ensures t.Linked() && Entered(t, es, 0) && AllWalled(t, es, 0)
    {
    }

    /** The first `n` entries have inodes, and walking to each meets a file. */
    static ghost predicate AllWalled(t: Tree, es: seq<Entry>, n: nat)
      requires n <= |es|
    {
      forall i {:trigger es[i]} :: 0 <= i < n && es[i].path != [] ==>
        es[i].path in t.pathToIno && Walled(t, es[i].path)
    }

    static lemma WalledMeans(t: Tree, es: seq<Entry>)
      requires AllWalled(t, es, |es|)
      ensures forall i {:trigger es[i]} :: 0 <= i < |es| && es[i].path != [] ==>
        es[i].path in t.pathToIno && Walled(t, es[i].path)
    {
    }

    static lemma WalledMore(t: Tree, u: Tree, es: seq<Entry>, n: nat)
      requires n < |es| && AllWalled(t, es, n) && Replaces(t, u) && KeysGrow(t, u, es[n].path)
      requires es[n].path != [] ==> Walled(u, es[n].path) && Holds(u, es[n])
      ensures AllWalled(u, es, n + 1)
    {
      hide Replaces, Walled, KeysGrow, Holds;
      forall i {:trigger es[i]} | 0 <= i < n + 1 && es[i].path != []
        ensures es[i].path in u.pathToIno && Walled(u, es[i].path)
      {
        if i < n { StaysEntered(t, u, es[i].path, es[n].path); } else { HeldIsKeyed(u, es[n]); }
      }
    }

    static lemma EnteredIsValid(t: Tree, es: seq<Entry>, n: nat)
      requires n <= |es| && Entered(t, es, n)
      ensures t.Valid()
    {
    }

    static lemma StaysEntered(t: Tree, u: Tree, p: Path, path: Path)
      requires p in t.pathToIno && Walled(t, p) && Replaces(t, u) && KeysGrow(t, u, path)
      ensures p in u.pathToIno && Walled(u, p)
    {
      hide Replaces, Walled;
      WalledStays(t, u, p);
    }

    static lemma Enters(t: Tree, u: Tree, es: seq<Entry>, n: nat)
      requires n < |es| && Entered(t, es, n) && DistinctPaths(es) && es[n].path != []
      requires u.Valid() && Replaces(t, u) && KeysGrow(t, u, es[n].path) && Holds(u, es[n])
      requires forall p {:trigger p in t.pathToIno} :: p in t.pathToIno && p != es[n].path ==>
        p in u.pathToIno && u.pathToIno[p] == t.pathToIno[p]
      ensures Entered(u, es, n + 1)
    {
      hide Entered, Tree.Lookup, NodesKept, KeysGrow, Holds, Tree.Valid;
      EnterOne(t, u, es, n);
    }

    /** The child's inode: that of the parent's path with the name added, if there is such a path. */
    method Lookup(parent: nat, name: string) returns (ino: Option<nat>)
      ensures ino == State().Lookup(parent, name)
      ensures Valid() ==>
        ino == if parent in inoToPath then State().GetInode(inoToPath[parent] + [name]) else None
    {
      if Valid() { LookupIsPath(State(), parent, name); }
      if parent in nodes && nodes[parent].Directory? && name in nodes[parent].children {
        return Some(nodes[parent].children[name]);
      }
      return None;
    }

    static lemma LookupIsPath(t: Tree, parent: nat, name: string)
      requires t.Valid()
      ensures t.Lookup(parent, name) == if parent in t.inoToPath then t.GetInode(t.inoToPath[parent] + [name]) else None
    {
      if parent in t.inoToPath {
        var p := t.inoToPath[parent] + [name];
        assert p[..|p| - 1] == t.inoToPath[parent] && p != [];
        if t.inoToPath[parent] == [] { RootOnly(t, parent); }
        assert p in t.pathToIno ==> t.Lookup(parent, name) == Some(t.pathToIno[p]);
        var c := t.Lookup(parent, name);
        assert c.Some? ==> c.value in t.inoToPath && t.inoToPath[c.value] == p;
      }
    }

    /** The path's inode: the one that walking down from the root ends at. */
    method GetInode(path: Path) returns (ino: Option<nat>)
      ensures ino == State().GetInode(path)
      ensures Valid() && path != [] ==> ino == State().Walk(path)
    {
      if Valid() { State().WalkIsGetInode(path); }
      ino := if path in pathToIno then Some(pathToIno[path]) else None;
    }

    /** Gives `node` the next free inode and the path `path`, and links it into its parent, if that is a directory. */
    method InsertNode(parentIno: nat, path: Path, node: Node) returns (ino: nat)
      requires path != []
      modifies this
      ensures ino == old(nextInode) && State() == old(State()).Insert(parentIno, path, node)
    {
      ino := nextInode;
      nextInode := nextInode + 1;
      nodes := nodes[ino := node];
      pathToIno := pathToIno[path := ino];
      inoToPath := inoToPath[ino := path];
      if parentIno in nodes && nodes[parentIno].Directory? {
        nodes := nodes[parentIno := nodes[parentIno].(children := nodes[parentIno].children[path[|path| - 1] := ino])];
      }
    }

    /**
     The directory at `path`, created with its ancestors where missing. A file on the way stops the descent, and its
     own inode is the answer. While the maps agree, nothing is created in that case.
     */
    method GetOrCreateDir(path: Path) returns (ino: nat)
      requires State().Linked()
      modifies this
      ensures State().Linked() && Replaces(old(State()), State()) && KeysGrow(old(State()), State(), path)
      ensures ino in nodes &&
        if nodes[ino].File? then Walled(State(), path) else State().Walk(path) == Some(ino)
      ensures old(Valid()) ==>
        var onFile := exists k {:trigger path[..k]} :: 0 < k <= |path| && FileAt(old(State()), path[..k]);
        && Valid()
        && if onFile then State() == old(State()) && nodes[ino].File?
           else
             && State().IsDir(ino) && ino in inoToPath && inoToPath[ino] == path
             && Grown(old(State()), State(), path, |path|)
    {
      hide Tree.Valid, Tree.Insert, Tree.Linked, Tree.Walk, Tree.Lookup, Replaces, KeysGrow, Walled, StoppedAt,
        Descended;
      ghost var before := State();
      ghost var valid := before.Valid();
      assert path[..0] == [];
      ino := ROOT_INODE;
      var k := 0;
      RootLinked(before, path);
      if valid { RootFacts(before, path); }
      ghost var created := false;
      ghost var stopped := false;
      while k < |path|
        invariant k <= |path| && State().Linked()
        invariant Replaces(before, State()) && KeysGrow(before, State(), path)
        invariant ino in nodes && nodes[ino].File? == stopped
        invariant if stopped then Walled(State(), path[..k]) else State().Walk(path[..k]) == Some(ino)
        invariant valid ==> Valid()
        invariant valid && stopped ==> StoppedAt(before, State(), path, k, ino)
        invariant valid && !stopped ==> Descended(before, State(), path, k, ino, created)
      {
        var name := path[k];
        k := k + 1;
        var createNew := false;
        if ino in nodes && nodes[ino].Directory? {
          if name in nodes[ino].children {
            ghost var here := ino;
            ino := nodes[ino].children[name];
            FollowLink(State(), path, k - 1, here);
            if valid { DescendExisting(before, State(), path, k - 1, here, created); }
            stopped := nodes[ino].File?;
            continue;
          }
          createNew := true;
        } else {
          StaysWalled(State(), path, k - 1);
          if valid { StaysStopped(before, State(), path, k - 1, ino); }
        }
        if createNew {
          ghost var now, here := State(), ino;
          MakeLink(before, now, path, k - 1, here);
          if valid { DescendNew(before, now, path, k - 1, here, created); }
          ino := InsertNode(ino, path[..k], Directory(map[], Some(ino)));
          created := true;
        }
      }
      assert path[..|path|] == path;
      if valid { Arrived(before, State(), path, ino, stopped, created); }
    }

    static lemma RootLinked(t: Tree, path: Path)
      requires t.Linked()
      ensures t.IsDir(ROOT_INODE) && t.Walk([]) == Some(ROOT_INODE) && Replaces(t, t) && KeysGrow(t, t, path)
    {
    }

    /** The next component is there. */
    static lemma FollowLink(t: Tree, path: Path, k: nat, here: nat)
      requires t.Linked() && k < |path| && t.Walk(path[..k]) == Some(here) && t.IsDir(here)
      requires path[k] in t.nodes[here].children
      ensures var ino := t.nodes[here].children[path[k]];
        && ino in t.nodes && t.Walk(path[..k + 1]) == Some(ino)
        && (t.nodes[ino].File? ==> Walled(t, path[..k + 1]))
    {
      WalkStep(t, path, k, here);
      hide Tree.Walk;
      assert t.Lookup(here, path[k]).Some?;
      assert path[..k + 1][..k + 1] == path[..k + 1];
    }

    static lemma StaysWalled(t: Tree, path: Path, k: nat)
      requires k < |path|
      ensures Walled(t, path[..k]) ==> Walled(t, path[..k + 1])
    {
      assert path[..k + 1][..k] == path[..k];
      if Walled(t, path[..k]) { WalledOn(t, path[..k + 1], k); }
    }

    static lemma StaysStopped(before: Tree, now: Tree, path: Path, k: nat, ino: nat)
      requires k < |path|
      ensures StoppedAt(before, now, path, k, ino) ==> StoppedAt(before, now, path, k + 1, ino)
    {
    }

    /** The next component is made. */
    static lemma MakeLink(before: Tree, t: Tree, path: Path, k: nat, here: nat)
      requires t.Linked() && k < |path| && t.Walk(path[..k]) == Some(here) && t.IsDir(here)
      requires path[k] !in t.nodes[here].children && Replaces(before, t) && KeysGrow(before, t, path)
      ensures var u := t.Insert(here, path[..k + 1], Directory(map[], Some(here)));
        && u.Linked() && Replaces(before, u) && KeysGrow(before, u, path)
        && u.IsDir(t.nextInode) && u.Walk(path[..k + 1]) == Some(t.nextInode)
    {
      var p, node := path[..k + 1], Directory(map[], Some(here));
      assert p[|p| - 1] == path[k] && t.Lookup(here, path[k]) == None;
      assert Fresh(t, here, p, node);
      hide Tree.Insert, Tree.Walk, Tree.Lookup, Tree.Linked, Replaces, Fresh;
      InsertLinked(t, here, p, node);
      InsertReplaces(t, here, p, node);
      ReplacesAll(before, t, t.Insert(here, p, node));
      PrefixKeys(t, t.Insert(here, p, node), path, k + 1);
      hide KeysGrow;
      KeysGrowOn(before, t, t.Insert(here, p, node), path);
      WalkToNew(t, path, k, here, node);
    }

    static lemma PrefixKeys(t: Tree, u: Tree, path: Path, k: nat)
      requires k <= |path| && KeysGrow(t, u, path[..k])
      ensures KeysGrow(t, u, path)
    {
      forall p | p != [] && StartsWith(path[..k], p) ensures StartsWith(path, p) {
        assert path[..k][..|p|] == path[..|p|];
      }
    }

    static lemma RootFacts(t: Tree, path: Path)
      requires t.Valid()
      ensures Descended(t, t, path, 0, ROOT_INODE, false)
    {
      assert path[..0] == [];
    }

    /** The descent has reached the directory at the first `k` components. */
    static ghost predicate Descended(before: Tree, now: Tree, path: Path, k: nat, ino: nat, created: bool) {
      && k <= |path|
      && now.IsDir(ino) && ino in now.inoToPath && now.inoToPath[ino] == path[..k]
      && Grown(before, now, path, k)
      && (if created then now.nodes[ino].children == map[] else now == before)
      && (forall j {:trigger path[..j]} :: 0 < j <= k ==> !FileAt(before, path[..j]))
    }

    /** The descent has met a file. */
    static ghost predicate StoppedAt(before: Tree, now: Tree, path: Path, k: nat, ino: nat) {
      && k <= |path| && now == before
      && ino in now.nodes && now.nodes[ino].File?
      && exists j {:trigger path[..j]} :: 0 < j <= k && FileAt(before, path[..j])
    }

    static lemma DescendExisting(before: Tree, now: Tree, path: Path, k: nat, here: nat, created: bool)
      requires now.Valid() && k < |path| && Descended(before, now, path, k, here, created)
      requires path[k] in now.nodes[here].children
      ensures var ino := now.nodes[here].children[path[k]];
        ino in now.nodes &&
        if now.nodes[ino].File? then StoppedAt(before, now, path, k + 1, ino)
        else Descended(before, now, path, k + 1, ino, created)
    {
      hide *;
      NothingMade(before, now, path, k, here, created);
      var ino := now.nodes[here].children[path[k]];
      ChildIsKeyed(now, here, path[k], ino);
      assert path[..k + 1] == path[..k] + [path[k]];
      if now.nodes[ino].File? { StopHere(now, path, k, ino); } else { GoOn(now, path, k, ino); }
    }

    /** The directories down to the first `k` components are none of them files. */
    static ghost predicate ClearTo(t: Tree, path: Path, k: nat)
      requires k <= |path|
    {
      forall j {:trigger path[..j]} :: 0 < j <= k ==> !FileAt(t, path[..j])
    }

    static lemma NothingMade(before: Tree, now: Tree, path: Path, k: nat, here: nat, created: bool)
      requires k < |path| && Descended(before, now, path, k, here, created) && path[k] in now.nodes[here].children
      ensures now == before && !created && ClearTo(now, path, k)
      ensures here in now.nodes && now.nodes[here].Directory? && here in now.inoToPath &&
        now.inoToPath[here] == path[..k]
      ensures now.Lookup(here, path[k]) == Some(now.nodes[here].children[path[k]])
    {
      hide Grown, FileAt;
    }

    static lemma StopHere(t: Tree, path: Path, k: nat, ino: nat)
      requires k < |path| && path[..k + 1] in t.pathToIno && t.pathToIno[path[..k + 1]] == ino
      requires ino in t.nodes && t.nodes[ino].File?
      ensures StoppedAt(t, t, path, k + 1, ino)
    {
      assert FileAt(t, path[..k + 1]);
      hide FileAt;
    }

    static lemma GoOn(t: Tree, path: Path, k: nat, ino: nat)
      requires k < |path| && path[..k + 1] in t.pathToIno && t.pathToIno[path[..k + 1]] == ino
      requires ino in t.nodes && t.nodes[ino].Directory? && ino in t.inoToPath && t.inoToPath[ino] == path[..k + 1]
      requires ClearTo(t, path, k)
      ensures Descended(t, t, path, k + 1, ino, false)
    {
      assert !FileAt(t, path[..k + 1]);
      SameGrows(t, path, k + 1);
      hide FileAt, Grown;
    }

    static lemma SameGrows(t: Tree, path: Path, k: nat)
      requires k <= |path|
      ensures Grown(t, t, path, k)
    {
    }

    /** A linked child has the longer path. */
    static lemma ChildIsKeyed(t: Tree, d: nat, name: string, ino: nat)
      requires t.Valid() && t.Lookup(d, name) == Some(ino)
      ensures ino in t.nodes && d in t.inoToPath && ino in t.inoToPath && t.inoToPath[ino] == t.inoToPath[d] + [name]
      ensures t.inoToPath[ino] in t.pathToIno && t.pathToIno[t.inoToPath[ino]] == ino
    {
    }

    static lemma DescendNew(before: Tree, now: Tree, path: Path, k: nat, here: nat, created: bool)
      requires now.Valid() && k < |path| && Descended(before, now, path, k, here, created)
      requires path[k] !in now.nodes[here].children
      ensures var t := now.Insert(here, path[..k + 1], Directory(map[], Some(here)));
        t.Valid() && Descended(before, t, path, k + 1, now.nextInode, true)
    {
      hide Tree.Valid;
      var node := Directory(map[], Some(here));
      var p := path[..k + 1];
      assert p[..k] == path[..k] && p[k] == path[k];
      CanInsert(now, p, here, node);
      now.InsertValid(here, p, node);
      InsertGrows(before, now, path, k, here);
    }

    /** What is not linked from its parent has no inode yet. */
    static lemma CanInsert(t: Tree, p: Path, parent: nat, node: Node)
      requires t.Valid() && p != [] && t.IsDir(parent) && parent in t.inoToPath && t.inoToPath[parent] == p[..|p| - 1]
      requires t.Lookup(parent, p[|p| - 1]) == None
      requires (node.Directory? ==> node.children == map[]) && node.parent == Some(parent)
      ensures t.Insertable(parent, p, node) && p !in t.pathToIno
      ensures t.nextInode !in t.nodes
    {
      if |p| == 1 { RootOnly(t, parent); }
    }

    static lemma RootOnly(t: Tree, i: nat)
      requires t.Valid() && i in t.inoToPath && t.inoToPath[i] == []
      ensures i == ROOT_INODE
    {
    }

    static lemma InsertGrows(before: Tree, now: Tree, path: Path, k: nat, here: nat)
      requires k < |path| && Grown(before, now, path, k) && path[..k + 1] !in now.pathToIno
      requires now.nextInode !in now.nodes && now.IsDir(here)
      ensures Grown(before, now.Insert(here, path[..k + 1], Directory(map[], Some(here))), path, k + 1)
    {
      forall p {:trigger path[..|p|]} | 0 < |p| <= k && p == path[..|p|] ensures p == path[..|p|] {}
    }

    static lemma Arrived(before: Tree, now: Tree, path: Path, ino: nat, stopped: bool, created: bool)
      requires if stopped then StoppedAt(before, now, path, |path|, ino)
        else Descended(before, now, path, |path|, ino, created)
      ensures var onFile := exists k {:trigger path[..k]} :: 0 < k <= |path| && FileAt(before, path[..k]);
        if onFile then now == before && ino in now.nodes && now.nodes[ino].File?
        else now.IsDir(ino) && ino in now.inoToPath && now.inoToPath[ino] == path && Grown(before, now, path, |path|)
    {
      assert path[..|path|] == path;
    }

    /**
     A file of the manifest. It is entered whatever is there already; afterwards the maps agree if and only if they did
     with the path unused and no file above it, and if a file is above it no walk reaches the new inode.
     */
    method AddFile(entry: Entry)
      requires State().Linked()
      modifies this
      ensures State().Linked() && Replaces(old(State()), State()) && KeysGrow(old(State()), State(), entry.path)
      ensures entry.path == [] ==> State() == old(State())
      ensures entry.path != [] ==> Walled(State(), entry.path) && Holds(State(), entry)
      ensures old(Valid()) && entry.path != [] ==>
        && (Valid() <==> entry.path !in old(pathToIno) && !FileAbove(old(State()), entry.path))
        && (entry.path !in old(pathToIno) ==>
          (State().Walk(entry.path) == State().GetInode(entry.path) <==> !FileAbove(old(State()), entry.path)))
      ensures old(Valid()) ==> forall p {:trigger p in old(pathToIno)} :: p in old(pathToIno) && p != entry.path ==>
        p in pathToIno && pathToIno[p] == old(pathToIno[p])
    {
      hide Tree.Valid, Tree.Insert, Tree.Linked, Tree.Walk, Tree.Lookup, Replaces, KeysGrow, Walled, Grown;
      ghost var before := State();
      var path := entry.path;
      if path == [] {
        ReplacesItself(before, path);
        return;
      }
      var parentIno := GetOrCreateDir(path[..|path| - 1]);
      ghost var mid := State();
      var node := File(entry.offset, entry.size, entry.mode, entry.mtime, Some(parentIno));
      AddAnyway(before, mid, path, parentIno, node);
      if before.Valid() {
        if path in before.pathToIno {
          AddOver(before, mid, path, parentIno, node);
        } else {
          AddBelow(before, mid, path, parentIno, node);
        }
      }
      var _ := InsertNode(parentIno, path, node);
    }

    /** As `AddFile`, for a file or directory without contents; a path that is there already is left alone. */
    method AddFileAtPath(path: Path, isDir: bool) returns (ino: nat)
      requires State().Linked()
      modifies this
      ensures State().Linked() && NodesKept(old(State()), State()) && KeysGrow(old(State()), State(), path)
      ensures !isDir ==> Replaces(old(State()), State())
      ensures path in old(pathToIno) ==> State() == old(State()) && ino == pathToIno[path]
      ensures path == [] && path !in old(pathToIno) ==> State() == old(State()) && ino == ROOT_INODE
      ensures path != [] && path !in old(pathToIno) ==>
        State().GetInode(path) == Some(ino) && ino in nodes && nodes[ino].parent.Some? && IsEmpty(nodes[ino], isDir)
      ensures old(Valid()) && path != [] && path !in old(pathToIno) ==>
        && (Valid() <==> !FileAbove(old(State()), path))
        && (State().Walk(path) == Some(ino) <==> !FileAbove(old(State()), path))
      ensures old(Valid()) ==> forall p {:trigger p in old(pathToIno)} :: p in old(pathToIno) ==>
        p in pathToIno && pathToIno[p] == old(pathToIno[p])
    {
      hide Tree.Valid, Tree.Insert, Tree.Linked, Tree.Walk, Tree.Lookup, Replaces, KeysGrow, Walled, Grown;
      ghost var before := State();
      ReplacesItself(before, path);
      if path in pathToIno {
        return pathToIno[path];
      }
      if path == [] {
        return ROOT_INODE;
      }
      var parentIno := GetOrCreateDir(path[..|path| - 1]);
      ghost var mid := State();
      var node := if isDir then Directory(map[], Some(parentIno)) else File(0, 0, 420, 0, Some(parentIno));
      AddNew(before, mid, path, parentIno, node);
      if before.Valid() { AddBelow(before, mid, path, parentIno, node); }
      ino := InsertNode(parentIno, path, node);
    }

    /** Entering a file, whatever the state of the maps. */
    static lemma AddAnyway(before: Tree, mid: Tree, path: Path, parentIno: nat, node: Node)
      requires path != [] && mid.Linked() && Replaces(before, mid) && KeysGrow(before, mid, path[..|path| - 1])
      requires parentIno in mid.nodes && node.File? && node.parent == Some(parentIno)
      requires var dir := path[..|path| - 1];
        if mid.nodes[parentIno].File? then Walled(mid, dir) else mid.Walk(dir) == Some(parentIno)
      ensures var t := mid.Insert(parentIno, path, node);
        && t.Linked() && Replaces(before, t) && KeysGrow(before, t, path)
        && Walled(t, path) && Holds(t, Entry(path, node.offset, node.size, node.mode, node.mtime))
    {
      assert Fresh(mid, parentIno, path, node);
      hide Tree.Insert, Tree.Walk, Tree.Lookup, Tree.Linked, Replaces, Fresh, Walled;
      PrefixKeys(before, mid, path, |path| - 1);
      hide KeysGrow;
      InsertLinked(mid, parentIno, path, node);
      InsertReplaces(mid, parentIno, path, node);
      ReplacesAll(before, mid, mid.Insert(parentIno, path, node));
      KeysGrowOn(before, mid, mid.Insert(parentIno, path, node), path);
      AddedIsWalled(mid, path, parentIno, node);
    }

    /** Entering a new path, whatever the state of the maps. */
    static lemma AddNew(before: Tree, mid: Tree, path: Path, parentIno: nat, node: Node)
      requires path != [] && mid.Linked() && Replaces(before, mid) && KeysGrow(before, mid, path[..|path| - 1])
      requires parentIno in mid.nodes && (node.Directory? ==> node.children == map[]) && node.parent == Some(parentIno)
      ensures var t := mid.Insert(parentIno, path, node);
        && t.Linked() && NodesKept(before, t) && KeysGrow(before, t, path) && (node.File? ==> Replaces(before, t))
        && t.GetInode(path) == Some(mid.nextInode) && mid.nextInode in t.nodes && t.nodes[mid.nextInode] == node
    {
      assert Fresh(mid, parentIno, path, node);
      hide Tree.Insert, Tree.Walk, Tree.Lookup, Tree.Linked, Fresh;
      PrefixKeys(before, mid, path, |path| - 1);
      InsertLinked(mid, parentIno, path, node);
      KeysGrowOn(before, mid, mid.Insert(parentIno, path, node), path);
      if node.File? {
        InsertReplaces(mid, parentIno, path, node);
        ReplacesAll(before, mid, mid.Insert(parentIno, path, node));
      }
    }

    /** A path that had an inode leaves it behind: two inodes claim the path now. */
    static lemma AddOver(before: Tree, mid: Tree, path: Path, parentIno: nat, node: Node)
      requires before.Valid() && mid.Valid() && path != [] && path in before.pathToIno
      requires var dir := path[..|path| - 1]; mid == before || Grown(before, mid, dir, |dir|)
      ensures var t := mid.Insert(parentIno, path, node);
        && !t.Valid()
        && forall p {:trigger p in before.pathToIno} :: p in before.pathToIno && p != path ==>
          p in t.pathToIno && t.pathToIno[p] == before.pathToIno[p]
    {
      var stale := mid.pathToIno[path];
      Claimed(mid, path);
      hide Tree.Valid;
      var t := mid.Insert(parentIno, path, node);
      assert t.inoToPath[stale] == path && t.pathToIno[path] == mid.nextInode;
      if t.Valid() { Claimed(t, path); OnePath(t, stale); }
    }

    static lemma Claimed(t: Tree, path: Path)
      requires t.Valid() && path in t.pathToIno
      ensures var i := t.pathToIno[path];
        i in t.inoToPath && t.inoToPath[i] == path && i != ROOT_INODE && i < t.nextInode && path != []
    {
    }

    static lemma OnePath(t: Tree, i: nat)
      requires t.Valid() && i in t.inoToPath && i != ROOT_INODE
      ensures t.inoToPath[i] in t.pathToIno && t.pathToIno[t.inoToPath[i]] == i
    {
    }

    /** What inserting a node does, after the descent for its parent. */
    static lemma AddBelow(before: Tree, mid: Tree, path: Path, parentIno: nat, node: Node)
      requires before.Valid() && mid.Valid() && path != [] && path !in before.pathToIno
      requires (node.Directory? ==> node.children == map[]) && node.parent == Some(parentIno)
      requires var dir := path[..|path| - 1];
        if exists k {:trigger dir[..k]} :: 0 < k <= |dir| && FileAt(before, dir[..k])
        then mid == before && parentIno in mid.nodes && mid.nodes[parentIno].File?
        else
          && mid.IsDir(parentIno) && parentIno in mid.inoToPath && mid.inoToPath[parentIno] == dir
          && Grown(before, mid, dir, |dir|)
      ensures var t := mid.Insert(parentIno, path, node);
        && t.GetInode(path) == Some(mid.nextInode) && mid.nextInode in t.nodes
        && t.nodes[mid.nextInode].Directory? == node.Directory?
        && (t.Walk(path) == t.GetInode(path) <==> !FileAbove(before, path))
        && (t.Valid() <==> !FileAbove(before, path))
        && (forall p {:trigger p in before.pathToIno} :: p in before.pathToIno ==>
            p in t.pathToIno && t.pathToIno[p] == before.pathToIno[p])
    {
      hide Tree.Valid, Tree.Insert, Grown;
      SameAbove(before, path);
      if FileAbove(before, path) {
        AddUnderFile(mid, path, parentIno, node);
      } else {
        NewUnder(before, mid, path);
        AddUnderDir(mid, path, parentIno, node);
      }
      InsertKeepsPaths(mid, path, parentIno, node);
      if mid.Insert(parentIno, path, node).Valid() { mid.Insert(parentIno, path, node).WalkIsGetInode(path); }
    }

    static lemma InsertKeepsPaths(t: Tree, path: Path, parentIno: nat, node: Node)
      requires path != [] && path !in t.pathToIno
      ensures var u := t.Insert(parentIno, path, node);
        && u.GetInode(path) == Some(t.nextInode)
        && (forall p {:trigger p in t.pathToIno} :: p in t.pathToIno ==>
          p in u.pathToIno && u.pathToIno[p] == t.pathToIno[p])
        && t.nextInode in u.nodes && (parentIno != t.nextInode ==> u.nodes[t.nextInode] == node)
        && u.nodes[t.nextInode].Directory? == node.Directory?
    {
    }

    static lemma AddUnderFile(t: Tree, path: Path, parentIno: nat, node: Node)
      requires t.Valid() && path != [] && path !in t.pathToIno && parentIno in t.nodes && t.nodes[parentIno].File?
      requires (node.Directory? ==> node.children == map[]) && node.parent == Some(parentIno)
      ensures t.Insert(parentIno, path, node).Walk(path) == None
    {
      hide Tree.Insert;
      t.WalkIsGetInode(path);
      InsertUnderFile(t, parentIno, path, node, path);
    }

    static lemma AddUnderDir(t: Tree, path: Path, parentIno: nat, node: Node)
      requires t.Valid() && path != [] && path !in t.pathToIno
      requires t.IsDir(parentIno) && parentIno in t.inoToPath && t.inoToPath[parentIno] == path[..|path| - 1]
      requires (node.Directory? ==> node.children == map[]) && node.parent == Some(parentIno)
      ensures var u := t.Insert(parentIno, path, node);
        u.Valid() && u.Walk(path) == u.GetInode(path)
    {
      hide Tree.Insert, Tree.Valid;
      t.InsertValid(parentIno, path, node);
      t.Insert(parentIno, path, node).WalkIsGetInode(path);
    }

    static lemma SameAbove(t: Tree, path: Path)
      requires path != []
      ensures var dir := path[..|path| - 1];
        FileAbove(t, path) <==> exists k {:trigger dir[..k]} :: 0 < k <= |dir| && FileAt(t, dir[..k])
    {
      var dir := path[..|path| - 1];
      assert forall k :: 0 <= k <= |dir| ==> dir[..k] == path[..k];
      if k :| 0 < k < |path| && FileAt(t, path[..k]) { assert FileAt(t, dir[..k]); }
      if k :| 0 < k <= |dir| && FileAt(t, dir[..k]) { assert FileAt(t, path[..k]); }
    }

    static lemma NewUnder(before: Tree, mid: Tree, path: Path)
      requires path != [] && path !in before.pathToIno && Grown(before, mid, path[..|path| - 1], |path| - 1)
      ensures path !in mid.pathToIno
      ensures forall p {:trigger p in before.pathToIno} :: p in before.pathToIno ==>
        p in mid.pathToIno && mid.pathToIno[p] == before.pathToIno[p]
    {
    }

    /** A node put under a file is linked from nowhere: every walk ends where it ended before. */
    static lemma {:induction false} InsertUnderFile(t: Tree, parentIno: nat, path: Path, node: Node, p: Path)
      requires t.Valid() && path != [] && parentIno in t.nodes && t.nodes[parentIno].File?
      requires (node.Directory? ==> node.children == map[]) && node.parent == Some(parentIno)
      ensures t.Insert(parentIno, path, node).Walk(p) == t.Walk(p)
      decreases |p|
    {
      hide Tree.Insert, Tree.Lookup, Tree.Valid;
      if p != [] {
        var n := |p| - 1;
        InsertUnderFile(t, parentIno, path, node, p[..n]);
        var d := t.Walk(p[..n]);
        if d.Some? { UnderFileLookup(t, parentIno, path, node, d.value, p[n]); }
      }
    }

    static lemma UnderFileLookup(t: Tree, parentIno: nat, path: Path, node: Node, d: nat, n: string)
      requires t.Valid() && path != [] && parentIno in t.nodes && t.nodes[parentIno].File?
      requires (node.Directory? ==> node.children == map[]) && node.parent == Some(parentIno)
      ensures t.Insert(parentIno, path, node).Lookup(d, n) == t.Lookup(d, n)
    {
      hide Tree.Valid;
      FreeInode(t);
      var u := t.Insert(parentIno, path, node);
      assert u.nodes == t.nodes[t.nextInode := node];
    }

    static lemma FreeInode(t: Tree)
      requires t.Valid()
      ensures t.nextInode !in t.nodes
    {
    }

    // -------------------------------------------------------------------------------------------
    // Renaming and removing

    /**
     Moves a path and everything below it. To an unused and unrelated path, exactly the old subtree is re-keyed
     and the two path maps stay inverse; but the links are not touched, so every lookup goes on answering as before.
     */
    method RenamePath(src: Path, to: Path) returns (ok: bool)
      modifies this
      ensures ok == (src in old(pathToIno))
      ensures !ok ==> State() == old(State())
      ensures nodes == old(nodes) && nextInode == old(nextInode)
      ensures ok && old(State()).MapsInverse() && Free(old(State()), src, to) ==>
        Moving(old(State()), State(), src, to, {}) && State().MapsInverse()
    {
      if src !in pathToIno {
        return false;
      }
      ghost var before := State();
      ghost var tidy := before.MapsInverse() && Free(before, src, to);
      hide Moving, Free, Tree.MapsInverse, Key, Moved;
      Rekey(src, to, pathToIno[src]);
      var toUpdate := map p | p in pathToIno && StartsWith(p, src) :: pathToIno[p];
      if tidy { StartMoving(before, State(), src, to, toUpdate.Keys); }
      MoveRest(src, to, toUpdate, before, tidy);
      if tidy { MovedInverse(before, State(), src, to); }
      return true;
    }

    /** One path gives way to another for the same inode. */
    method Rekey(from: Path, to: Path, ino: nat)
      modifies this`pathToIno, this`inoToPath
      ensures State() ==
        old(State()).(pathToIno := (old(pathToIno) - {from})[to := ino], inoToPath := old(inoToPath)[ino := to])
    {
      pathToIno := (pathToIno - {from})[to := ino];
      inoToPath := inoToPath[ino := to];
    }

    /** Re-keys the paths below `src` that were found, in any order. */
    method MoveRest(src: Path, to: Path, found: map<Path, nat>, ghost before: Tree, ghost tidy: bool)
      requires forall p :: p in found ==> StartsWith(p, src)
      requires tidy ==> before.MapsInverse() && Free(before, src, to) && Moving(before, State(), src, to, found.Keys)
      requires tidy ==> forall p {:trigger found[p]} :: p in found ==>
        p in before.pathToIno && found[p] == before.pathToIno[p]
      modifies this`pathToIno, this`inoToPath
      ensures tidy ==> Moving(before, State(), src, to, {})
    {
      hide Moving, Free, Tree.MapsInverse, Key, Moved;
      var toUpdate := found;
      while toUpdate != map[]
        invariant forall p :: p in toUpdate ==> p in found && toUpdate[p] == found[p]
        invariant tidy ==> Moving(before, State(), src, to, toUpdate.Keys)
        decreases |toUpdate|
      {
        var p :| p in toUpdate;
        ghost var now, todo := State(), toUpdate.Keys;
        assert found[p] == toUpdate[p];
        Rekey(p, to + p[|src|..], toUpdate[p]);
        if tidy { MoveOne(before, now, src, to, todo, p, State()); }
        toUpdate := toUpdate - {p};
        assert toUpdate.Keys == todo - {p};
      }
    }

    static lemma KeyInjective(t: Tree, src: Path, to: Path, todo: set<Path>, p: Path, q: Path)
      requires Free(t, src, to) && p in t.pathToIno && q in t.pathToIno
      requires Key(p, src, to, todo) == Key(q, src, to, todo)
      ensures p == q
    {
      var k := Key(p, src, to, todo);
      MovedStarts(p, src, to);
      MovedStarts(q, src, to);
      if StartsWith(p, src) && StartsWith(q, src) && p !in todo && q !in todo {
        assert p == src + k[|to|..] && q == src + k[|to|..];
      }
    }

    static lemma MovedStarts(p: Path, src: Path, to: Path)
      ensures StartsWith(p, src) ==>
        StartsWith(Moved(p, src, to), to) && Moved(p, src, to)[|to|..] == p[|src|..] && p == src + p[|src|..]
    {
    }

    static lemma StartMoving(before: Tree, now: Tree, src: Path, to: Path, todo: set<Path>)
      requires before.MapsInverse() && Free(before, src, to) && src in before.pathToIno
      requires now == before.(pathToIno := (before.pathToIno - {src})[to := before.pathToIno[src]],
                              inoToPath := before.inoToPath[before.pathToIno[src] := to])
      requires forall p :: p in todo <==> p in now.pathToIno && StartsWith(p, src)
      ensures Moving(before, now, src, to, todo) && src !in todo
      ensures forall p :: p in todo ==> p in before.pathToIno && now.pathToIno[p] == before.pathToIno[p]
    {
      assert src[|src|..] == [] && Moved(src, src, to) == to;
      assert forall p :: p in before.pathToIno && p != src ==> Key(p, src, to, todo) == p;
    }

    static lemma MoveOne(before: Tree, now: Tree, src: Path, to: Path, todo: set<Path>, p: Path, after: Tree)
      requires before.MapsInverse() && Free(before, src, to) && Moving(before, now, src, to, todo)
      requires p in todo && p in before.pathToIno && StartsWith(p, src)
      requires var moved := to + p[|src|..];
        after == now.(pathToIno := (now.pathToIno - {p})[moved := before.pathToIno[p]],
                      inoToPath := now.inoToPath[before.pathToIno[p] := moved])
      ensures Moving(before, after, src, to, todo - {p})
    {
      var moved := Moved(p, src, to);
      var next := todo - {p};
      forall x | x != p ensures Key(x, src, to, next) == Key(x, src, to, todo) {}
      assert Key(p, src, to, todo) == p && Key(p, src, to, next) == moved;
      forall x {:trigger Key(x, src, to, todo)} | x in before.pathToIno && x != p
        ensures Key(x, src, to, todo) != p && Key(x, src, to, todo) != moved
      {
        if Key(x, src, to, todo) == p { KeyInjective(before, src, to, todo, x, p); }
        if Key(x, src, to, next) == moved { KeyInjective(before, src, to, next, x, p); }
      }
      assert before.inoToPath[before.pathToIno[p]] == p;
      hide Key, Moved, StartsWith, Free;
      forall q {:trigger q in after.pathToIno} | q in after.pathToIno
        ensures exists x {:trigger x in before.pathToIno} :: x in before.pathToIno && q == Key(x, src, to, next)
      {
        if q == moved {
          assert p in before.pathToIno && q == Key(p, src, to, next);
        } else {
          var x :| x in before.pathToIno && q == Key(x, src, to, todo);
          assert x != p;
          assert q == Key(x, src, to, next);
        }
      }
    }

    /** After a complete move the maps are inverse again. */
    static lemma MovedInverse(before: Tree, now: Tree, src: Path, to: Path)
      requires before.MapsInverse() && Free(before, src, to) && Moving(before, now, src, to, {})
      ensures now.MapsInverse()
    {
      forall q {:trigger now.pathToIno[q]} | q in now.pathToIno
        ensures now.pathToIno[q] in now.inoToPath && now.inoToPath[now.pathToIno[q]] == q && q != []
      {
        var p :| p in before.pathToIno && q == Key(p, src, to, {});
        assert before.inoToPath[before.pathToIno[p]] == p;
      }
      forall i {:trigger now.inoToPath[i]} | i in now.inoToPath && i != ROOT_INODE
        ensures now.inoToPath[i] in now.pathToIno && now.pathToIno[now.inoToPath[i]] == i
      {
        assert before.inoToPath[i] in before.pathToIno;
      }
    }

    /** Forgets a path and its inode's path; nodes and links stay. */
    method RemovePath(path: Path)
      modifies this
      ensures nodes == old(nodes) && nextInode == old(nextInode)
      ensures pathToIno == old(pathToIno) - {path}
      ensures inoToPath == if path in old(pathToIno) then old(inoToPath) - {old(pathToIno)[path]} else old(inoToPath)
      ensures old(State()).MapsInverse() ==> State().MapsInverse()
    {
      if path in pathToIno {
        var ino := pathToIno[path];
        pathToIno := pathToIno - {path};
        inoToPath := inoToPath - {ino};
      }
    }

    /** Walks depend on the links alone. */
    static lemma {:induction false} WalkByLinks(t: Tree, u: Tree, p: Path)
      requires t.nodes == u.nodes
      ensures t.Walk(p) == u.Walk(p)
      decreases |p|
    {
      if p != [] { WalkByLinks(t, u, p[..|p| - 1]); }
    }

    /** So a renamed path is still found by walking to its old name, and never by walking to its new one. */
    static lemma RenameIsNotSeen(before: Tree, now: Tree, src: Path, to: Path)
      requires before.Valid() && Free(before, src, to) && src in before.pathToIno && Moving(before, now, src, to, {})
      ensures now.GetInode(to) == before.GetInode(src) && now.GetInode(src) == None
      ensures now.Walk(src) == before.GetInode(src) && now.Walk(to) == None
    {
      before.WalkIsGetInode(src);
      before.WalkIsGetInode(to);
      WalkByLinks(before, now, src);
      WalkByLinks(before, now, to);
      hide Tree.Walk;
      assert Moved(src, src, to) == to;
      assert StartsWith(to, to);
      if src in now.pathToIno {
        var p :| p in before.pathToIno && src == Key(p, src, to, {});
        MovedStarts(p, src, to);
      }
    }
  }
}
