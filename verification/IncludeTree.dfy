/** The collector of ODL files: the table of files, the list of files to parse, and the tree of
    includes with its moving cursor. */
module IncludeTree {
  import opened Wrappers
  import opened IncludeEvents

  datatype FileType = Added | Scanned | Included

  /** `odl_file_t`, without its name and its links. */
  datatype OdlFile = OdlFile(useCount: nat, errors: nat, kind: FileType)

  type NodeId = nat

  /** `odl_tree_item_t`: the file, the item in whose table it is linked, and its own table. */
  datatype Item = Item(file: string, parent: Option<NodeId>, children: map<string, NodeId>)

  // ----- the list of files to parse -----

  ghost predicate NoDuplicates(l: seq<string>) {
    forall i, j :: 0 <= i < j < |l| ==> l[i] != l[j]
  }

  function Unlisted(l: seq<string>, file: string): (r: seq<string>)
    ensures forall f :: f in r <==> f in l && f != file
    ensures NoDuplicates(l) ==> NoDuplicates(r)
    ensures file !in l ==> r == l
  {
    if l == [] then [] else
    var rest := Unlisted(l[1..], file);
    assert forall f :: f in l <==> f == l[0] || f in l[1..];
    assert NoDuplicates(l) ==> NoDuplicates(l[1..]) && l[0] !in l[1..];
    if l[0] == file then rest else [l[0]] + rest
  }

  /** A file is to be parsed on its own exactly as long as no other file includes it. */
  ghost predicate ListOk(files: map<string, OdlFile>, list: seq<string>) {
    NoDuplicates(list) && forall f :: f in list <==> f in files && files[f].useCount == 0
  }

  // ----- the tree -----

  /** An item is linked where its path says. */
  ghost predicate PlaceOk(nodes: map<NodeId, Item>, path: map<NodeId, Stack>, root: map<string, NodeId>, n: NodeId)
    requires n in nodes && path.Keys == nodes.Keys
  {
    match nodes[n].parent
    case None => nodes[n].file in root && root[nodes[n].file] == n && path[n] == [nodes[n].file]
    case Some(p) =>
      p in nodes && nodes[n].file in nodes[p].children && nodes[p].children[nodes[n].file] == n &&
      path[n] == path[p] + [nodes[n].file]
  }

  ghost predicate PlacesOk(nodes: map<NodeId, Item>, path: map<NodeId, Stack>, root: map<string, NodeId>,
          next: NodeId)
  {
    path.Keys == nodes.Keys &&
    forall n :: n in nodes ==> n < next && path[n] != [] && path[n][0] in root && PlaceOk(nodes, path, root, n)
  }

  ghost predicate RootsOk(nodes: map<NodeId, Item>, root: map<string, NodeId>) {
    forall f :: f in root ==> root[f] in nodes && nodes[root[f]].file == f && nodes[root[f]].parent == None
  }

  ghost predicate ChildOk(nodes: map<NodeId, Item>, n: NodeId, f: string, c: NodeId) {
    c in nodes && nodes[c].file == f && nodes[c].parent == Some(n)
  }

  ghost predicate ChildrenOk(nodes: map<NodeId, Item>) {
    forall n, f :: n in nodes && f in nodes[n].children ==> ChildOk(nodes, n, f, nodes[n].children[f])
  }

  /** Different items have different paths. */
  ghost predicate Injective(path: map<NodeId, Stack>) {
    forall n, m :: n in path && m in path && path[n] == path[m] ==> n == m
  }

  /** `path` gives each item the stack of files that leads to it; items and stacks correspond. */
  ghost predicate TreeOk(nodes: map<NodeId, Item>, path: map<NodeId, Stack>, root: map<string, NodeId>, next: NodeId) {
    PlacesOk(nodes, path, root, next) && RootsOk(nodes, root) && ChildrenOk(nodes) && Injective(path)
  }

  ghost function Paths(path: map<NodeId, Stack>): set<Stack> { path.Values }

  lemma PathsGrow(path: map<NodeId, Stack>, n: NodeId, p: Stack)
    requires n !in path
    ensures Paths(path[n := p]) == Paths(path) + {p}
  {
    var grown := path[n := p];
    forall q ensures q in grown.Values <==> q in path.Values || q == p {
      if q in path.Values {
        var m :| m in path && path[m] == q;
        assert grown[m] == q;
      }
      if q == p {
        assert grown[n] == p;
      }
    }
  }

  lemma NextIsNew(nodes: map<NodeId, Item>, path: map<NodeId, Stack>, root: map<string, NodeId>, next: NodeId)
    requires PlacesOk(nodes, path, root, next)
    ensures next !in nodes && next !in path
  {
  }

  lemma RootAdded(nodes: map<NodeId, Item>, path: map<NodeId, Stack>, root: map<string, NodeId>, next: NodeId,
          file: string)
    requires TreeOk(nodes, path, root, next) && file !in root
    ensures TreeOk(nodes[next := Item(file, None, map[])], path[next := [file]], root[file := next], next + 1)
    ensures Paths(path[next := [file]]) == Paths(path) + {[file]}
  {
    hide PlacesOk, ChildrenOk, Injective, Paths;
    NextIsNew(nodes, path, root, next);
    PathsGrow(path, next, [file]);
    RootPlaces(nodes, path, root, next, file);
    ItemChildren(nodes, next, Item(file, None, map[]));
    RootIsNew(nodes, path, root, next, file);
    InjectiveGrows(path, next, [file]);
  }

  lemma RootPlaces(nodes: map<NodeId, Item>, path: map<NodeId, Stack>, root: map<string, NodeId>, next: NodeId,
          file: string)
    requires PlacesOk(nodes, path, root, next) && file !in root && next !in nodes
    ensures PlacesOk(nodes[next := Item(file, None, map[])], path[next := [file]], root[file := next], next + 1)
  {
    var nodes', path', root' := nodes[next := Item(file, None, map[])], path[next := [file]], root[file := next];
    forall n | n in nodes'
      ensures n < next + 1 && path'[n] != [] && path'[n][0] in root' && PlaceOk(nodes', path', root', n)
    {
      if n != next {
        assert PlaceOk(nodes, path, root, n);
      }
    }
  }

  lemma RootIsNew(nodes: map<NodeId, Item>, path: map<NodeId, Stack>, root: map<string, NodeId>, next: NodeId,
          file: string)
    requires PlacesOk(nodes, path, root, next) && file !in root
    ensures forall n :: n in path ==> path[n] != [file]
  {
  }

  lemma ItemChildren(nodes: map<NodeId, Item>, n: NodeId, item: Item)
    requires ChildrenOk(nodes) && n !in nodes && item.children == map[]
    ensures ChildrenOk(nodes[n := item])
  {
    var nodes' := nodes[n := item];
    forall m, f | m in nodes' && f in nodes'[m].children ensures ChildOk(nodes', m, f, nodes'[m].children[f]) {
      assert ChildOk(nodes, m, f, nodes[m].children[f]);
    }
  }

  lemma InjectiveGrows(path: map<NodeId, Stack>, n: NodeId, p: Stack)
    requires Injective(path) && n !in path && forall m :: m in path ==> path[m] != p
    ensures Injective(path[n := p])
  {
  }

  /** The tree with a new item for `file` below item `at`. */
  function Linked(nodes: map<NodeId, Item>, at: NodeId, n: NodeId, file: string): map<NodeId, Item>
    requires at in nodes
  {
    nodes[at := nodes[at].(children := nodes[at].children[file := n])][n := Item(file, Some(at), map[])]
  }

  lemma ChildAdded(nodes: map<NodeId, Item>, path: map<NodeId, Stack>, root: map<string, NodeId>, next: NodeId,
                   at: NodeId, file: string)
    requires TreeOk(nodes, path, root, next) && at in nodes && file !in nodes[at].children
    ensures at in path && TreeOk(Linked(nodes, at, next, file), path[next := path[at] + [file]], root, next + 1)
    ensures Paths(path[next := path[at] + [file]]) == Paths(path) + {path[at] + [file]}
  {
    hide PlacesOk, ChildrenOk, Injective, Paths;
    NextIsNew(nodes, path, root, next);
    SameKeys(nodes, path, root, next);
    PathsGrow(path, next, path[at] + [file]);
    ChildPlaces(nodes, path, root, next, at, file);
    ChildChildren(nodes, next, at, file);
    ChildIsNew(nodes, path, root, next, at, file);
    InjectiveGrows(path, next, path[at] + [file]);
  }

  lemma SameKeys(nodes: map<NodeId, Item>, path: map<NodeId, Stack>, root: map<string, NodeId>, next: NodeId)
    requires PlacesOk(nodes, path, root, next)
    ensures path.Keys == nodes.Keys
  {
  }

  lemma ChildPlaces(nodes: map<NodeId, Item>, path: map<NodeId, Stack>, root: map<string, NodeId>, next: NodeId,
                    at: NodeId, file: string)
    requires PlacesOk(nodes, path, root, next) && at in nodes && next !in nodes && file !in nodes[at].children
    ensures PlacesOk(Linked(nodes, at, next, file), path[next := path[at] + [file]], root, next + 1)
  {
    var nodes', path' := Linked(nodes, at, next, file), path[next := path[at] + [file]];
    assert nodes'.Keys == nodes.Keys + {next};
    forall n | n in nodes'
      ensures n < next + 1 && path'[n] != [] && path'[n][0] in root && PlaceOk(nodes', path', root, n)
    {
      if n != next {
        assert PlaceOk(nodes, path, root, n);
      }
    }
  }

  lemma ChildChildren(nodes: map<NodeId, Item>, n: NodeId, at: NodeId, file: string)
    requires ChildrenOk(nodes) && n !in nodes && at in nodes && file !in nodes[at].children
    ensures ChildrenOk(Linked(nodes, at, n, file))
  {
    var nodes' := Linked(nodes, at, n, file);
    forall m, f | m in nodes' && f in nodes'[m].children ensures ChildOk(nodes', m, f, nodes'[m].children[f]) {
      if m != n && !(m == at && f == file) {
        assert ChildOk(nodes, m, f, nodes[m].children[f]);
      }
    }
  }

  lemma ChildIsNew(nodes: map<NodeId, Item>, path: map<NodeId, Stack>, root: map<string, NodeId>, next: NodeId,
                   at: NodeId, file: string)
    requires TreeOk(nodes, path, root, next) && at in nodes && file !in nodes[at].children
    ensures at in path && forall n :: n in path ==> path[n] != path[at] + [file]
  {
    var p := path[at] + [file];
    assert p[..|p| - 1] == path[at] && p[|p| - 1] == file && |path[at]| > 0;
    forall n | n in path ensures path[n] != p {
      ParentPath(nodes, path, root, next, n);
    }
  }

  /** The table entry of an item is the item that the path leads to. */
  lemma ChildPath(nodes: map<NodeId, Item>, path: map<NodeId, Stack>, root: map<string, NodeId>, next: NodeId,
                  at: NodeId, file: string)
    requires TreeOk(nodes, path, root, next) && at in nodes && file in nodes[at].children
    ensures var c := nodes[at].children[file];
            c in nodes && at in path && c in path && path[c] == path[at] + [file] && path[c] in Paths(path)
  {
    assert ChildOk(nodes, at, file, nodes[at].children[file]);
    assert PlaceOk(nodes, path, root, nodes[at].children[file]);
  }

  /** An item's parent is one step up its path; only items with a path of one file have none. */
  lemma ParentPath(nodes: map<NodeId, Item>, path: map<NodeId, Stack>, root: map<string, NodeId>, next: NodeId,
          n: NodeId)
    requires TreeOk(nodes, path, root, next) && n in nodes
    ensures n in path && |path[n]| > 0 && (nodes[n].parent == None <==> |path[n]| == 1)
    ensures path[n][|path[n]| - 1] == nodes[n].file
    ensures nodes[n].parent.Some? ==>
              var p := nodes[n].parent.value;
              p in nodes && p in path && path[p] == path[n][..|path[n]| - 1] && nodes[n].file in nodes[p].children
  {
    assert PlaceOk(nodes, path, root, n);
    if nodes[n].parent.Some? {
      var p := nodes[n].parent.value;
      assert path[p] != [] && path[n][..|path[n]| - 1] == path[p];
    }
  }
}
