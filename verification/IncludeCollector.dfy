/** Building the include tree: every file that nobody includes so far is parsed, and the parser's
    include events grow the tree at the cursor. */
module IncludeCollector {
  import opened Wrappers
  import opened IncludeEvents
  import opened IncludeTree

  /** What parsing a file yields: its include events, a code (0: no error), and the files that are to
      be included after it. */
  datatype Source = Source(main: string -> seq<Event>, code: string -> int, post: string -> seq<string>)

  ghost predicate SourceOk(src: Source) { forall f :: Balanced(src.main(f)) }

  function PostEvents(src: Source, fs: seq<string>): seq<Event> {
    if fs == [] then [] else ([Open(fs[0])] + src.main(fs[0]) + [Close]) + PostEvents(src, fs[1..])
  }

  /** All include events of a file that is parsed on its own. */
  function FileEvents(src: Source, f: string): seq<Event> {
    src.main(f) + (if src.code(f) == 0 then PostEvents(src, src.post(f)) else [])
  }

  function AllEvents(src: Source, fs: seq<string>): seq<Event> {
    if fs == [] then [] else AllEvents(src, fs[..|fs| - 1]) + FileEvents(src, fs[|fs| - 1])
  }

  function PostErrors(src: Source, fs: seq<string>): nat {
    if fs == [] then 0 else PostErrors(src, fs[..|fs| - 1]) + if src.code(fs[|fs| - 1]) != 0 then 1 else 0
  }

  /** The errors that are counted for a file that is parsed on its own. */
  function FileErrors(src: Source, f: string): nat {
    if src.code(f) != 0 then 1 else PostErrors(src, src.post(f))
  }

  /** Which of the first `i` names get parsed on their own: those that no file parsed before includes. */
  function ParsedOf(src: Source, names: seq<string>, i: nat): seq<string>
    requires i <= |names|
  {
    if i == 0 then []
    else
      var before := ParsedOf(src, names, i - 1);
      if Opens(AllEvents(src, before), names[i - 1]) == 0 then before + [names[i - 1]] else before
  }

  lemma {:induction false} PostEventsBalanced(src: Source, fs: seq<string>)
    requires SourceOk(src)
    ensures Balanced(PostEvents(src, fs))
  {
    if fs != [] {
      PostEventsBalanced(src, fs[1..]);
      BalancedInclude(fs[0], src.main(fs[0]));
      BalancedConcat([Open(fs[0])] + src.main(fs[0]) + [Close], PostEvents(src, fs[1..]));
    }
  }

  lemma FileEventsBalanced(src: Source, f: string)
    requires SourceOk(src)
    ensures Balanced(FileEvents(src, f))
  {
    PostEventsBalanced(src, src.post(f));
    BalancedConcat(src.main(f), PostEvents(src, src.post(f)));
    assert src.main(f) + [] == src.main(f);
  }

  /** Each use count is the number of opens so far. */
  ghost predicate CountsOk(files: map<string, OdlFile>, log: seq<Event>) {
    forall f :: Opens(log, f) == if f in files then files[f].useCount else 0
  }

  lemma SameCounts(files: map<string, OdlFile>, file: string, kind: FileType, log: seq<Event>)
    requires CountsOk(files, log)
    ensures CountsOk(files[file := if file in files then files[file].(kind := kind) else OdlFile(0, 0, kind)], log)
  {
  }

  /** A file that was only ever included has been included. */
  ghost predicate GivenOk(files: map<string, OdlFile>, given: set<string>) {
    given <= files.Keys && forall f :: f in files ==> f in given || files[f].useCount > 0
  }

  ghost predicate RootOk(root: map<string, NodeId>, entered: map<string, NodeId>) {
    forall f :: f in root ==> f in entered && root[f] == entered[f]
  }

  lemma OneMoreOpen(files: map<string, OdlFile>, list: seq<string>, log: seq<Event>, f: string, entry: OdlFile)
    requires CountsOk(files, log) && ListOk(files, list)
    requires entry.useCount == (if f in files then files[f].useCount else 0) + 1
    ensures CountsOk(files[f := entry], log + [Open(f)]) && ListOk(files[f := entry], Unlisted(list, f))
  {
    forall g ensures Opens(log + [Open(f)], g) == Opens(log, g) + (if g == f then 1 else 0) {
      OpensConcat(log, [Open(f)], g);
    }
  }

  lemma CloseCounts(files: map<string, OdlFile>, log: seq<Event>)
    requires CountsOk(files, log)
    ensures CountsOk(files, log + [Close])
  {
    forall g ensures Opens(log + [Close], g) == Opens(log, g) {
      OpensConcat(log, [Close], g);
    }
  }

  /** What events do to the table of files, apart from use counts: what is opened becomes an included file,
      nothing else changes its type, and `n` errors are counted for the file `who`. */
  ghost predicate FilesFollow(before: map<string, OdlFile>, after: map<string, OdlFile>, evs: seq<Event>,
          who: string, n: nat)
  {
    before.Keys <= after.Keys &&
    forall f :: f in after ==>
      (if Opens(evs, f) > 0 then after[f].kind == Included else f in before && after[f].kind == before[f].kind) &&
      after[f].errors == (if f in before then before[f].errors else 0) + if f == who then n else 0
  }

  lemma FollowOn(a: map<string, OdlFile>, b: map<string, OdlFile>, c: map<string, OdlFile>, e: seq<Event>,
          e': seq<Event>, who: string, n: nat, n': nat)
    requires FilesFollow(a, b, e, who, n) && FilesFollow(b, c, e', who, n') && who in a
    ensures FilesFollow(a, c, e + e', who, n + n')
  {
    forall f | f in c ensures Opens(e + e', f) == Opens(e, f) + Opens(e', f) {
      OpensConcat(e, e', f);
    }
  }

  lemma NothingFollows(a: map<string, OdlFile>, who: string)
    ensures FilesFollow(a, a, [], who, 0)
  {
  }

  class Collector {
    var files: map<string, OdlFile>
    var list: seq<string>
    var nodes: map<NodeId, Item>
    var root: map<string, NodeId>
    var current: NodeId
    var next: NodeId
    const src: Source
    ghost var path: map<NodeId, Stack>
    ghost var log: seq<Event>             // all include events so far
    ghost var given: set<string>          // files that were added, not just included
    ghost var entered: map<string, NodeId> // the root table before its cleaning

    ghost predicate Valid()
      reads this
    {
      TreeOk(nodes, path, entered, next) && ListOk(files, list) && CountsOk(files, log) && GivenOk(files, given) &&
      RootOk(root, entered)
    }

    /** The stack of files that leads to the cursor. */
    ghost function Cursor(): Stack
      requires current in path
      reads this
    {
      path[current]
    }

    constructor (src: Source)
      ensures Valid() && files == map[] && list == [] && nodes == map[] && root == map[] && log == []
      ensures this.src == src && given == {} && entered == map[]
    {
      files, list, nodes, root, current, next := map[], [], map[], map[], 0, 0;
      path, log, given, entered := map[], [], {}, map[];
      this.src := src;
    }

    /** `ocg_add_file`: a file that is there already only changes its type. */
    method AddFile(file: string, kind: FileType)
      requires Valid()
      modifies `files, `list, `given
      ensures Valid() && file in files && files[file].kind == kind && given == old(given) + {file}
      ensures file in old(files) ==>
                list == old(list) && files == old(files)[file := old(files)[file].(kind := kind)]
      ensures file !in old(files) ==>
                list == old(list) + [file] && files == old(files)[file := OdlFile(0, 0, kind)]
    {
      hide TreeOk, CountsOk;
      SameCounts(files, file, kind, log);
      if file !in files {
        files := files[file := OdlFile(0, 0, kind)];
        list := list + [file];
      } else {
        files := files[file := files[file].(kind := kind)];
      }
      given := given + {file};
    }

    /** The file's half of `ocg_open_include`: the use is counted, and the file leaves the list. */
    method CountUse(file: string)
      requires Valid()
      modifies `files, `list, `log
      ensures Valid() && log == old(log) + [Open(file)]
      ensures files.Keys == old(files.Keys) + {file} && files[file].kind == Included
      ensures forall who :: FilesFollow(old(files), files, [Open(file)], who, 0)
    {
      hide TreeOk, ListOk, CountsOk, Unlisted;
      OneOpens(file);
      var errors, count := 0, 0;
      if file in files {
        errors, count := files[file].errors, files[file].useCount;
      } else {
        list := list + [file];
      }
      StillListed(old(files), old(list), list, file);
      OneMoreOpen(old(files), old(list), log, file, OdlFile(count + 1, errors, Included));
      files := files[file := OdlFile(count + 1, errors, Included)];
      list := Unlisted(list, file);
      log := log + [Open(file)];
    }

    /** The tree's half: the cursor moves to the item of the file, which is made when there is none. */
    method MoveDown(file: string)
      requires Valid() && current in nodes
      modifies `nodes, `current, `next, `path
      ensures Valid() && current in nodes && old(current) in old(path)
      ensures current in path && Cursor() == old(Cursor()) + [file]
      ensures Paths(path) == old(Paths(path)) + {Cursor()}
    {
      hide TreeOk, ListOk, CountsOk, Paths;
      assert path.Keys == nodes.Keys by {
        TreeKeys(nodes, path, entered, next);
      }
      if file in nodes[current].children {
        ChildPath(nodes, path, entered, next, current, file);
        current := nodes[current].children[file];
      } else {
        ChildAdded(nodes, path, entered, next, current, file);
        path := path[next := path[current] + [file]];
        nodes := Linked(nodes, current, next, file);
        current, next := next, next + 1;
      }
    }

    /** `ocg_open_include`: counts the use, takes the file off the list and moves the cursor down. */
    method OpenInclude(file: string)
      requires Valid() && current in nodes
      modifies `files, `list, `nodes, `current, `next, `path, `log
      ensures Valid() && current in nodes && old(current) in old(path)
      ensures current in path && Cursor() == old(Cursor()) + [file]
      ensures Paths(path) == old(Paths(path)) + {Cursor()}
      ensures log == old(log) + [Open(file)]
      ensures files.Keys == old(files.Keys) + {file} && files[file].kind == Included
      ensures forall who :: FilesFollow(old(files), files, [Open(file)], who, 0)
    {
      hide TreeOk, ListOk, CountsOk, Paths, FilesFollow;
      CountUse(file);
      MoveDown(file);
    }

    /** `ocg_end_include`: back to the item in whose table the current one is linked. */
    method EndInclude()
      requires Valid() && current in nodes && current in path && |Cursor()| > 1
      modifies `current, `log
      ensures Valid() && current in nodes && current in path
      ensures Cursor() == old(Cursor())[..|old(Cursor())| - 1] && log == old(log) + [Close]
    {
      hide TreeOk, ListOk, CountsOk;
      ParentPath(nodes, path, entered, next, current);
      CloseCounts(files, log);
      current := nodes[current].parent.value;
      log := log + [Close];
    }

    /** The hooks, called for each event while a file is being parsed. */
    method ProcessEvents(evs: seq<Event>, ghost who: string)
      requires Valid() && current in nodes && current in path && NeverBelow(|Cursor()| - 1, evs) && who in files
      modifies `files, `list, `nodes, `current, `next, `path, `log
      ensures Valid() && current in nodes && current in path && old(current) in old(path)
      ensures Cursor() == StackAfter(old(Cursor()), evs)
      ensures Paths(path) == old(Paths(path)) + StacksSeen(old(Cursor()), evs)
      ensures log == old(log) + evs && old(files.Keys) <= files.Keys
      ensures FilesFollow(old(files), files, evs, who, 0)
    {
      hide Valid, Paths, NeverBelow, FilesFollow;
      NothingFollows(files, who);
      ghost var start, paths := Cursor(), Paths(path);
      var i := 0;
      while i < |evs|
        invariant 0 <= i <= |evs| && Valid() && current in nodes && current in path
        invariant Cursor() == StackAfter(start, evs[..i]) && NeverBelow(|Cursor()| - 1, evs[i..])
        invariant Paths(path) == paths + StacksSeen(start, evs[..i])
        invariant log == old(log) + evs[..i] && old(files.Keys) <= files.Keys
        invariant FilesFollow(old(files), files, evs[..i], who, 0)
      {
        OneMoreEvent(start, evs, i);
        ghost var before, table := Cursor(), files;
        if evs[i].Open? {
          OpenInclude(evs[i].file);
        } else {
          EndInclude();
          CloseFollows(files, who);
        }
        FollowOn(old(files), table, files, evs[..i], [evs[i]], who, 0, 0);
        assert Cursor() == Moved(before, evs[i]);
        assert log == old(log) + evs[..i + 1];
        i := i + 1;
      }
      assert evs[..i] == evs;
    }

    method CountError(file: string)
      requires Valid() && file in files
      modifies `files
      ensures Valid() && files.Keys == old(files.Keys) && FilesFollow(old(files), files, [], file, 1)
      ensures files == old(files)[file := old(files)[file].(errors := old(files)[file].errors + 1)]
    {
      files := files[file := files[file].(errors := files[file].errors + 1)];
    }

    /** A file that is included after the one being checked. */
    method PostInclude(file: string, g: string)
      requires Valid() && SourceOk(src) && current in nodes && current in path && file in files && Cursor() == [file]
      modifies `files, `list, `nodes, `current, `next, `path, `log
      ensures Valid() && current in nodes && current in path && Cursor() == [file] && file in files
      ensures Paths(path) == old(Paths(path)) + StacksSeen([file], [Open(g)] + src.main(g) + [Close])
      ensures log == old(log) + ([Open(g)] + src.main(g) + [Close]) && old(files.Keys) <= files.Keys
      ensures FilesFollow(old(files), files, [Open(g)] + src.main(g) + [Close], file, if src.code(g) != 0 then 1 else 0)
    {
      hide Valid, Paths, FileEvents, PostEvents, StacksSeen, StackAfter, NeverBelow, Balanced, SourceOk,
          FilesFollow, Opens;
      IncludeSeen(src, [file], g);
      OpenInclude(g);
      ghost var below := files;
      ProcessEvents(src.main(g), file);
      ghost var parsed := files;
      if src.code(g) != 0 {
        CountError(file);
      } else {
        NothingFollows(files, file);
      }
      IncludeFollows(src, old(files), below, parsed, files, g, file, if src.code(g) != 0 then 1 else 0);
      EndInclude();
    }

    /** A new item at the root of the tree, with the cursor on it. */
    method AddRoot(file: string)
      requires Valid() && file !in entered
      modifies `nodes, `root, `current, `next, `path, `entered
      ensures Valid() && current in nodes && current in path && Cursor() == [file]
      ensures root == old(root)[file := current] && entered == old(entered)[file := current]
      ensures Paths(path) == old(Paths(path)) + {[file]}
    {
      hide TreeOk, ListOk, CountsOk, Paths;
      RootAdded(nodes, path, entered, next, file);
      nodes, path := nodes[next := Item(file, None, map[])], path[next := [file]];
      root, entered := root[file := next], entered[file := next];
      current, next := next, next + 1;
    }

    method PostIncludes(file: string)
      requires Valid() && SourceOk(src) && current in nodes && current in path && file in files && Cursor() == [file]
      modifies `files, `list, `nodes, `current, `next, `path, `log
      ensures Valid() && current in nodes && current in path && Cursor() == [file]
      ensures Paths(path) == old(Paths(path)) + StacksSeen([file], PostEvents(src, src.post(file)))
      ensures log == old(log) + PostEvents(src, src.post(file)) && old(files.Keys) <= files.Keys
      ensures FilesFollow(old(files), files, PostEvents(src, src.post(file)), file, PostErrors(src, src.post(file)))
    {
      hide Valid, Paths, SourceOk, StacksSeen, FilesFollow, Opens;
      NothingFollows(files, file);
      var posts := src.post(file);
      ghost var paths := Paths(path);
      NoEvents(src, [file]);
      var i := 0;
      while i < |posts|
        invariant 0 <= i <= |posts| && Valid() && current in nodes && current in path && Cursor() == [file]
        invariant file in files && old(files.Keys) <= files.Keys && log == old(log) + PostEvents(src, posts[..i])
        invariant Paths(path) == paths + StacksSeen([file], PostEvents(src, posts[..i]))
        invariant FilesFollow(old(files), files, PostEvents(src, posts[..i]), file, PostErrors(src, posts[..i]))
      {
        OneMorePost(src, file, posts, i);
        OneMoreError(src, posts, i);
        ghost var before := files;
        PostInclude(file, posts[i]);
        FollowOn(old(files), before, files, PostEvents(src, posts[..i]),
                 [Open(posts[i])] + src.main(posts[i]) + [Close],
                 file, PostErrors(src, posts[..i]), if src.code(posts[i]) != 0 then 1 else 0);
        assert log == old(log) + PostEvents(src, posts[..i + 1]);
        i := i + 1;
      }
      assert posts[..i] == posts;
    }

    /** `ocg_check_odl_file`: parses a file on its own, then what is to be included after it. */
    method CheckOdlFile(file: string)
      requires Valid() && SourceOk(src) && file in files && file !in entered
      modifies `files, `list, `nodes, `root, `current, `next, `path, `log, `entered
      ensures Valid() && current in nodes && current in path && Cursor() == [file]
      ensures root.Keys == old(root.Keys) + {file} && entered.Keys == old(entered.Keys) + {file}
      ensures Paths(path) == old(Paths(path)) + {[file]} + StacksSeen([file], FileEvents(src, file))
      ensures log == old(log) + FileEvents(src, file) && old(files.Keys) <= files.Keys
      ensures FilesFollow(old(files), files, FileEvents(src, file), file, FileErrors(src, file))
    {
      hide Valid, Paths, FileEvents, PostEvents, StacksSeen, StackAfter, NeverBelow, Balanced, SourceOk,
          FilesFollow, Opens;
      AddRoot(file);
      FileSeen(src, file);
      ProcessEvents(src.main(file), file);
      ghost var parsed := files;
      if src.code(file) != 0 {
        CountError(file);
        FollowOn(old(files), parsed, files, src.main(file), [], file, 0, 1);
        assert src.main(file) + [] == src.main(file);
      } else {
        PostIncludes(file);
        FollowOn(old(files), parsed, files, src.main(file), PostEvents(src, src.post(file)), file, 0,
                 PostErrors(src, src.post(file)));
      }
    }

    /** One entry of the root table; an included file loses its error count and its entry. */
    method CleanRoot(f: string)
      requires Valid() && f in files && f in root
      modifies `root, `files
      ensures Valid() && files.Keys == old(files.Keys)
      ensures forall g :: g in files ==> files[g].useCount == old(files)[g].useCount
      ensures files == if files[f].useCount > 0 then old(files)[f := old(files)[f].(errors := 0)] else old(files)
      ensures root == if files[f].useCount > 0 then old(root) - {f} else old(root)
    {
      hide TreeOk, ListOk, CountsOk, GivenOk;
      SameUse(files, list, log, given, f);
      if files[f].useCount > 0 {
        files := files[f := files[f].(errors := 0)];
        root := root - {f};
      }
    }

    /** `ocg_clean_tree_root`: files that turned out to be included leave the root of the tree. */
    method CleanTreeRoot()
      requires Valid() && root.Keys <= files.Keys
      modifies `root, `files
      ensures Valid() && files.Keys == old(files.Keys)
      ensures forall f :: f in files ==> files[f].useCount == old(files)[f].useCount
      ensures forall f :: f in root <==> f in old(root) && files[f].useCount == 0
      ensures forall f :: f in files ==>
                files[f].kind == old(files)[f].kind &&
                files[f].errors == if f in old(root) && files[f].useCount > 0 then 0 else old(files)[f].errors
    {
      hide Valid;
      ghost var roots, before := root, files;
      var todo := root.Keys;
      while todo != {}
        invariant Valid() && files.Keys == before.Keys && todo <= roots.Keys <= files.Keys
        invariant forall f :: f in files ==> files[f].useCount == before[f].useCount
        invariant forall f :: f in root <==> f in roots && (f in todo || files[f].useCount == 0)
        invariant forall f :: f in files ==>
                    files[f].kind == before[f].kind &&
                    files[f].errors == if f in roots - todo && files[f].useCount > 0 then 0 else before[f].errors
        decreases todo
      {
        var f :| f in todo;
        CleanRoot(f);
        todo := todo - {f};
      }
    }

    /** The pass over the added files: each one that nobody includes so far is parsed on its own. */
    method ParseUnused(names: seq<string>)
      requires Valid() && SourceOk(src) && root == entered == map[] && nodes == map[] && log == []
      requires NoDuplicates(names) && given == files.Keys && forall f :: f in names <==> f in given
      modifies `files, `list, `nodes, `root, `current, `next, `path, `log, `entered
      ensures Valid() && root.Keys == entered.Keys
      ensures forall f :: f in root <==> f in ParsedOf(src, names, |names|)
      ensures log == AllEvents(src, ParsedOf(src, names, |names|))
      ensures Paths(path) == AllPaths(src, ParsedOf(src, names, |names|))
      ensures FilesAfter(src, old(files), files, log, ParsedOf(src, names, |names|))
    {
      NothingAfter(src, files);
      NoPathsYet(nodes, path, entered, next);
      NothingParsed(src, names);
      hide Valid, NoDuplicates, Paths, FilePaths, FileEvents, SourceOk, StacksSeen, ParsedOf, AllEvents, AllPaths,
          Opens, FilesFollow, FilesAfter;
      var i := 0;
      while i < |names|
        invariant 0 <= i <= |names| && Valid() && given <= files.Keys
        invariant root.Keys == entered.Keys && forall f :: f in entered <==> f in ParsedOf(src, names, i)
        invariant log == AllEvents(src, ParsedOf(src, names, i))
        invariant Paths(path) == AllPaths(src, ParsedOf(src, names, i))
        invariant FilesAfter(src, old(files), files, log, ParsedOf(src, names, i))
      {
        var file := names[i];
        NotParsedYet(src, names, i);
        UseIsOpens(file);
        if files[file].useCount == 0 {
          ParseOneMore(src, names, i);
          ghost var before, seen := files, log;
          NotYet(src, names, i);
          CheckOdlFile(file);
          OneMoreAfter(src, old(files), before, files, seen, ParsedOf(src, names, i), file);
        }
        i := i + 1;
      }
    }

    lemma UseIsOpens(f: string)
      requires Valid() && f in files
      ensures files[f].useCount == Opens(log, f)
    {
    }

    /** `ocg_build_include_tree`: `names` are the files that were added, in the order of their names. */
    method BuildIncludeTree(names: seq<string>)
      requires Valid() && SourceOk(src) && root == entered == map[] && nodes == map[] && log == []
      requires NoDuplicates(names) && given == files.Keys && forall f :: f in names <==> f in given
      modifies `files, `list, `nodes, `root, `current, `next, `path, `log, `entered
      ensures Valid()
      ensures forall f :: f in root <==> f in files && files[f].useCount == 0
      ensures forall f :: f in root <==> f in list
      ensures log == AllEvents(src, ParsedOf(src, names, |names|))
      ensures forall f :: f in files ==> files[f].useCount == Opens(log, f)
      ensures forall f :: f in root ==> Trie(path, f) == FilePaths(src, f)
      ensures forall f :: f in root ==>
                f in old(files) && files[f].kind == old(files)[f].kind &&
                files[f].errors == old(files)[f].errors + FileErrors(src, f)
      ensures forall f :: f in files && f !in root ==> files[f].kind == Included
    {
      hide *;
      ParseUnused(names);
      AfterIs(src, old(files), files, log, ParsedOf(src, names, |names|));
      UnusedAreParsed(names);
      TriesOfParsed(src, ParsedOf(src, names, |names|), path);
      CleanTreeRoot();
      UseAndList();
    }

    lemma UnusedAreParsed(names: seq<string>)
      requires Valid() && log == AllEvents(src, ParsedOf(src, names, |names|)) && forall f :: f in names <==> f in given
      ensures forall f :: f in files && files[f].useCount == 0 ==> f in ParsedOf(src, names, |names|)
      ensures forall f :: f in ParsedOf(src, names, |names|) ==> f in files
    {
      RootsAreUnused(src, names, files, given, log);
    }

    lemma UseAndList()
      requires Valid()
      ensures forall f :: f in files ==> files[f].useCount == Opens(log, f)
      ensures forall f :: f in list <==> f in files && files[f].useCount == 0
    {
      hide TreeOk, ListOk;
      ListedAreUnused(files, list);
    }
  }

  lemma CloseFollows(a: map<string, OdlFile>, who: string)
    ensures FilesFollow(a, a, [Close], who, 0)
  {
  }

  /** A file that is included after another one, step by step. */
  lemma IncludeFollows(src: Source, a: map<string, OdlFile>, b: map<string, OdlFile>, c: map<string, OdlFile>,
          d: map<string, OdlFile>, g: string, who: string, n: nat)
    requires FilesFollow(a, b, [Open(g)], who, 0) && FilesFollow(b, c, src.main(g), who, 0)
    requires FilesFollow(c, d, [], who, n) && who in a
    ensures FilesFollow(a, d, [Open(g)] + src.main(g) + [Close], who, n)
  {
    hide FilesFollow;
    var opening := [Open(g)] + src.main(g);
    FollowOn(a, b, c, [Open(g)], src.main(g), who, 0, 0);
    FollowOn(a, c, d, opening, [], who, 0, n);
    assert opening + [] == opening;
    CloseFollows(d, who);
    FollowOn(a, d, d, opening, [Close], who, n, 0);
  }

  lemma OneMoreError(src: Source, posts: seq<string>, i: nat)
    requires i < |posts|
    ensures PostErrors(src, posts[..i + 1]) == PostErrors(src, posts[..i]) + if src.code(posts[i]) != 0 then 1 else 0
  {
    assert posts[..i + 1][..i] == posts[..i];
  }

  lemma OneOpens(file: string)
    ensures forall f :: Opens([Open(file)], f) == if f == file then 1 else 0
    ensures forall f :: Opens([Close], f) == 0
  {
  }

  lemma NotYet(src: Source, names: seq<string>, i: nat)
    requires i < |names| && NoDuplicates(names)
    ensures names[i] !in ParsedOf(src, names, i)
  {
    ParsedAreNames(src, names, i);
  }

  /** The table of files when some files have been parsed on their own. */
  ghost predicate FilesAfter(src: Source, before: map<string, OdlFile>, after: map<string, OdlFile>, log: seq<Event>,
          parsed: seq<string>)
  {
    before.Keys <= after.Keys && (forall f :: f in parsed ==> f in after) &&
    forall f :: f in after ==>
      (if Opens(log, f) > 0 then after[f].kind == Included else f in before && after[f].kind == before[f].kind) &&
      after[f].errors ==
      (if f in before then before[f].errors else 0) + if f in parsed then FileErrors(src, f) else 0
  }

  lemma AfterIs(src: Source, before: map<string, OdlFile>, after: map<string, OdlFile>, log: seq<Event>,
          parsed: seq<string>)
    requires FilesAfter(src, before, after, log, parsed)
    ensures forall f :: f in after && Opens(log, f) > 0 ==> after[f].kind == Included
    ensures forall f :: f in after && Opens(log, f) == 0 ==> f in before && after[f].kind == before[f].kind
    ensures forall f :: f in after && f in before && f in parsed ==>
                          after[f].errors == before[f].errors + FileErrors(src, f)
  {
  }

  lemma NothingAfter(src: Source, files: map<string, OdlFile>)
    ensures FilesAfter(src, files, files, [], [])
  {
  }

  lemma OneMoreAfter(src: Source, a: map<string, OdlFile>, b: map<string, OdlFile>, c: map<string, OdlFile>,
          log: seq<Event>, parsed: seq<string>, file: string)
    requires FilesAfter(src, a, b, log, parsed) && FilesFollow(b, c, FileEvents(src, file), file, FileErrors(src, file))
    requires file !in parsed && file in b
    ensures FilesAfter(src, a, c, log + FileEvents(src, file), parsed + [file])
  {
    hide FileEvents, FileErrors;
    assert forall f :: f in parsed + [file] <==> f in parsed || f == file;
    forall f | f in c ensures Opens(log + FileEvents(src, file), f) == Opens(log, f) + Opens(FileEvents(src, file), f) {
      OpensConcat(log, FileEvents(src, file), f);
    }
  }

  lemma NoEvents(src: Source, stack: Stack)
    ensures PostEvents(src, []) == [] && StacksSeen(stack, []) == {}
  {
  }

  lemma SameUse(files: map<string, OdlFile>, list: seq<string>, log: seq<Event>, given: set<string>, f: string)
    requires ListOk(files, list) && CountsOk(files, log) && GivenOk(files, given) && f in files
    ensures var after := files[f := files[f].(errors := 0)];
            ListOk(after, list) && CountsOk(after, log) && GivenOk(after, given)
  {
  }

  // ----- what the tree holds after the build -----

  /** The stacks that belong to a file parsed on its own: itself, and everything it includes. */
  function FilePaths(src: Source, f: string): set<Stack> { {[f]} + StacksSeen([f], FileEvents(src, f)) }

  function AllPaths(src: Source, fs: seq<string>): set<Stack> {
    if fs == [] then {} else AllPaths(src, fs[..|fs| - 1]) + FilePaths(src, fs[|fs| - 1])
  }

  /** A file that is included after `f` contributes itself and everything it includes. */
  ghost predicate ComesAfter(src: Source, f: string, g: string, p: Stack) {
    p == [f, g] || p in StacksSeen([f, g], src.main(g))
  }

  lemma OnePostPath(src: Source, f: string, g: string, p: Stack)
    requires SourceOk(src)
    ensures var evs := [Open(g)] + src.main(g) + [Close];
            StackAfter([f], evs) == [f] && (p in StacksSeen([f], evs) <==> ComesAfter(src, f, g, p))
  {
    hide Balanced;
    var evs := [Open(g)] + src.main(g) + [Close];
    BalancedInclude(g, src.main(g));
    BalancedReturns([f], evs);
    StacksSeenConcat([f], [Open(g)] + src.main(g), [Close]);
    StacksSeenConcat([f], [Open(g)], src.main(g));
    assert [Open(g)][1..] == [] && [Close][1..] == [] && [f] + [g] == [f, g];
  }

  lemma {:induction false} PostPaths(src: Source, f: string, fs: seq<string>, p: Stack)
    requires SourceOk(src)
    ensures p in StacksSeen([f], PostEvents(src, fs)) <==> exists g :: g in fs && ComesAfter(src, f, g, p)
  {
    hide SourceOk, StacksSeen, ComesAfter, StackAfter;
    if fs != [] {
      var evs := [Open(fs[0])] + src.main(fs[0]) + [Close];
      OnePostPath(src, f, fs[0], p);
      PostPaths(src, f, fs[1..], p);
      StacksSeenConcat([f], evs, PostEvents(src, fs[1..]));
      assert fs == [fs[0]] + fs[1..];
    } else {
      NoEvents(src, [f]);
    }
  }

  /** What stands in the tree under a file that was parsed on its own: the file, what it includes, and,
      when it has no error, each file to be included after it with what that one includes. */
  lemma TreeInWords(src: Source, f: string, p: Stack)
    requires SourceOk(src)
    ensures p in FilePaths(src, f) <==>
            p == [f] || p in StacksSeen([f], src.main(f)) ||
            (src.code(f) == 0 && exists g :: g in src.post(f) && (p == [f, g] || p in StacksSeen([f, g], src.main(g))))
  {
    PostPaths(src, f, src.post(f), p);
    StacksSeenConcat([f], src.main(f), FileEvents(src, f)[|src.main(f)|..]);
    BalancedReturns([f], src.main(f));
    NoEvents(src, [f]);
    hide SourceOk, StacksSeen, StackAfter, PostEvents;
    assert src.main(f) + [] == src.main(f);
    assert forall g :: ComesAfter(src, f, g, p) <==> p == [f, g] || p in StacksSeen([f, g], src.main(g));
  }

  /** The part of the tree under a root file, as the set of its paths. */
  ghost function Trie(path: map<NodeId, Stack>, f: string): set<Stack> {
    set p | p in Paths(path) && p != [] && p[0] == f
  }

  lemma NoPathsYet(nodes: map<NodeId, Item>, path: map<NodeId, Stack>, root: map<string, NodeId>, next: NodeId)
    requires TreeOk(nodes, path, root, next) && nodes == map[]
    ensures Paths(path) == {}
  {
    TreeKeys(nodes, path, root, next);
    assert path == map[];
  }

  lemma {:induction false} ParsedAreNames(src: Source, names: seq<string>, i: nat)
    requires i <= |names|
    ensures forall f :: f in ParsedOf(src, names, i) ==> f in names[..i]
  {
    if i > 0 {
      ParsedAreNames(src, names, i - 1);
      assert names[..i] == names[..i - 1] + [names[i - 1]];
    }
  }

  lemma NothingParsed(src: Source, names: seq<string>)
    ensures ParsedOf(src, names, 0) == [] && AllEvents(src, []) == [] && AllPaths(src, []) == {}
  {
  }

  lemma NotParsedYet(src: Source, names: seq<string>, i: nat)
    requires i < |names| && NoDuplicates(names)
    ensures names[i] !in ParsedOf(src, names, i) && names[i] in names
    ensures Opens(AllEvents(src, ParsedOf(src, names, i)), names[i]) != 0 ==>
              ParsedOf(src, names, i + 1) == ParsedOf(src, names, i)
  {
    ParsedAreNames(src, names, i);
  }

  lemma ParseOneMore(src: Source, names: seq<string>, i: nat)
    requires i < |names| && Opens(AllEvents(src, ParsedOf(src, names, i)), names[i]) == 0
    ensures var before, after := ParsedOf(src, names, i), ParsedOf(src, names, i + 1);
            after == before + [names[i]] &&
            AllEvents(src, after) == AllEvents(src, before) + FileEvents(src, names[i]) &&
            AllPaths(src, after) == AllPaths(src, before) + {[names[i]]} +
            StacksSeen([names[i]], FileEvents(src, names[i])) &&
            forall f :: f in after <==> f in before || f == names[i]
  {
    var before, after := ParsedOf(src, names, i), ParsedOf(src, names, i + 1);
    assert after == before + [names[i]];
    assert after[..|after| - 1] == before && after[|after| - 1] == names[i];
  }

  lemma ParsedStep(src: Source, names: seq<string>, i: nat, f: string)
    requires i < |names|
    ensures f in ParsedOf(src, names, i) ==> f in ParsedOf(src, names, i + 1)
    ensures Opens(AllEvents(src, ParsedOf(src, names, i)), f) <= Opens(AllEvents(src, ParsedOf(src, names, i + 1)), f)
    ensures Opens(AllEvents(src, ParsedOf(src, names, i)), names[i]) == 0 ==> names[i] in ParsedOf(src, names, i + 1)
  {
    hide FileEvents, AllPaths, Opens, AllEvents;
    if Opens(AllEvents(src, ParsedOf(src, names, i)), names[i]) == 0 {
      ParseOneMore(src, names, i);
      OpensConcat(AllEvents(src, ParsedOf(src, names, i)), FileEvents(src, names[i]), f);
    }
  }

  /** A file that is never opened is parsed. */
  lemma {:induction false} NeverOpenedIsParsed(src: Source, names: seq<string>, i: nat, j: nat)
    requires j < i <= |names|
    ensures Opens(AllEvents(src, ParsedOf(src, names, i)), names[j]) == 0 ==> names[j] in ParsedOf(src, names, i)
  {
    hide ParsedOf, AllEvents, Opens;
    ParsedStep(src, names, i - 1, names[j]);
    if j < i - 1 {
      NeverOpenedIsParsed(src, names, i - 1, j);
    }
  }

  lemma RootsAreUnused(src: Source, names: seq<string>, files: map<string, OdlFile>, given: set<string>,
          log: seq<Event>)
    requires CountsOk(files, log) && GivenOk(files, given) && log == AllEvents(src, ParsedOf(src, names, |names|))
    requires forall f :: f in names <==> f in given
    ensures forall f :: f in files && files[f].useCount == 0 ==> f in ParsedOf(src, names, |names|)
    ensures forall f :: f in ParsedOf(src, names, |names|) ==> f in files
  {
    forall f | f in files && files[f].useCount == 0 ensures f in ParsedOf(src, names, |names|) {
      assert f in names;
      var j :| 0 <= j < |names| && names[j] == f;
      NeverOpenedIsParsed(src, names, |names|, j);
    }
    ParsedAreNames(src, names, |names|);
    assert names[..|names|] == names;
  }

  lemma ListedAreUnused(files: map<string, OdlFile>, list: seq<string>)
    requires ListOk(files, list)
    ensures forall f :: f in list <==> f in files && files[f].useCount == 0
  {
  }

  /** Stacks seen above a bottom keep the bottom. */
  lemma {:induction false} SeenAbove(bottom: Stack, above: Stack, evs: seq<Event>)
    requires NeverBelow(|above|, evs)
    ensures forall p :: p in StacksSeen(bottom + above, evs) ==> bottom <= p
    decreases |evs|
  {
    if evs != [] {
      var next := Moved(above, evs[0]);
      if evs[0].Open? {
        assert (bottom + above) + [evs[0].file] == bottom + next;
      } else {
        DepthIsNatural(|above| - 1, evs[1..]);
        assert (bottom + above)[..|bottom + above| - 1] == bottom + next;
      }
      SeenAbove(bottom, next, evs[1..]);
    }
  }

  lemma FilePathsStart(src: Source, f: string)
    requires SourceOk(src)
    ensures forall p :: p in FilePaths(src, f) ==> p != [] && p[0] == f
  {
    FileEventsBalanced(src, f);
    SeenAbove([f], [], FileEvents(src, f));
    assert [f] + [] == [f];
  }

  lemma {:induction false} PathsOfFile(src: Source, fs: seq<string>, f: string)
    requires SourceOk(src)
    ensures forall p :: p in AllPaths(src, fs) ==> p != []
    ensures (set p | p in AllPaths(src, fs) && p != [] && p[0] == f) == if f in fs then FilePaths(src, f) else {}
  {
    if fs != [] {
      var g := fs[|fs| - 1];
      PathsOfFile(src, fs[..|fs| - 1], f);
      FilePathsStart(src, g);
      assert fs == fs[..|fs| - 1] + [g];
    }
  }

  lemma TrieOfParsed(src: Source, fs: seq<string>, f: string, path: map<NodeId, Stack>)
    requires SourceOk(src) && f in fs && Paths(path) == AllPaths(src, fs)
    ensures Trie(path, f) == FilePaths(src, f)
  {
    hide FilePaths, Paths, AllPaths, SourceOk;
    PathsOfFile(src, fs, f);
  }

  lemma TriesOfParsed(src: Source, fs: seq<string>, path: map<NodeId, Stack>)
    requires SourceOk(src) && Paths(path) == AllPaths(src, fs)
    ensures forall f :: f in fs ==> Trie(path, f) == FilePaths(src, f)
  {
    forall f | f in fs ensures Trie(path, f) == FilePaths(src, f) {
      TrieOfParsed(src, fs, f, path);
    }
  }

  lemma OneMoreEvent(start: Stack, evs: seq<Event>, i: nat)
    requires i < |evs|
    ensures evs[..i + 1] == evs[..i] + [evs[i]] && evs[i..] == [evs[i]] + evs[i + 1..]
    ensures StackAfter(start, evs[..i + 1]) == Moved(StackAfter(start, evs[..i]), evs[i])
    ensures StacksSeen(start, evs[..i + 1]) ==
            StacksSeen(start, evs[..i]) +
            (if evs[i].Open? then {Moved(StackAfter(start, evs[..i]), evs[i])} else {})
    ensures NeverBelow(|StackAfter(start, evs[..i])| - 1, evs[i..]) ==>
              NeverBelow(|Moved(StackAfter(start, evs[..i]), evs[i])| - 1, evs[i + 1..]) &&
              (evs[i] == Close ==> |StackAfter(start, evs[..i])| > 1)
  {
    assert evs[..i + 1] == evs[..i] + [evs[i]];
    assert evs[i..] == [evs[i]] + evs[i + 1..];
    StackAfterConcat(start, evs[..i], [evs[i]]);
    StacksSeenConcat(start, evs[..i], [evs[i]]);
    DepthIsNatural(|StackAfter(start, evs[..i])| - 2, evs[i + 1..]);
  }

  lemma DepthIsNatural(depth: int, evs: seq<Event>)
    ensures NeverBelow(depth, evs) ==> depth >= 0
  {
  }

  /** What one include shows below a stack. */
  lemma IncludeSeen(src: Source, stack: Stack, g: string)
    requires SourceOk(src)
    ensures var evs := [Open(g)] + src.main(g) + [Close];
            StacksSeen(stack, evs) == {stack + [g]} + StacksSeen(stack + [g], src.main(g)) &&
            StackAfter(stack + [g], src.main(g)) == stack + [g] && NeverBelow(|stack|, src.main(g))
  {
    hide StacksSeen, StackAfter, SourceOk;
    var a := src.main(g);
    var evs := [Open(g)] + a + [Close];
    assert Balanced(a) by {
      MainBalanced(src, g);
    }
    assert evs == [Open(g)] + (a + [Close]);
    FirstOpen(stack, g, a + [Close]);
    StacksSeenConcat(stack + [g], a, [Close]);
    CloseSeen(StackAfter(stack + [g], a));
    BalancedReturns(stack + [g], a);
    DeeperIsFine(0, |stack|, a);
  }

  lemma MainBalanced(src: Source, g: string)
    requires SourceOk(src)
    ensures Balanced(src.main(g))
  {
  }

  lemma FirstOpen(stack: Stack, g: string, evs: seq<Event>)
    ensures StacksSeen(stack, [Open(g)] + evs) == {stack + [g]} + StacksSeen(stack + [g], evs)
  {
    assert ([Open(g)] + evs)[1..] == evs;
  }

  lemma CloseSeen(stack: Stack)
    ensures StacksSeen(stack, [Close]) == {}
  {
  }

  lemma FileSeen(src: Source, file: string)
    requires SourceOk(src)
    ensures StackAfter([file], src.main(file)) == [file] && NeverBelow(0, src.main(file))
    ensures src.code(file) == 0 ==>
              StacksSeen([file], FileEvents(src, file)) ==
              StacksSeen([file], src.main(file)) + StacksSeen([file], PostEvents(src, src.post(file))) &&
              FileEvents(src, file) == src.main(file) + PostEvents(src, src.post(file))
    ensures src.code(file) != 0 ==> FileEvents(src, file) == src.main(file)
  {
    BalancedReturns([file], src.main(file));
    StacksSeenConcat([file], src.main(file), PostEvents(src, src.post(file)));
    assert src.main(file) + [] == src.main(file);
  }

  lemma {:induction false} PostEventsLast(src: Source, fs: seq<string>, g: string)
    ensures PostEvents(src, fs + [g]) == PostEvents(src, fs) + ([Open(g)] + src.main(g) + [Close])
  {
    if fs == [] {
      assert [g][1..] == [];
    } else {
      assert (fs + [g])[1..] == fs[1..] + [g];
      PostEventsLast(src, fs[1..], g);
    }
  }

  lemma OneMorePost(src: Source, file: string, posts: seq<string>, i: nat)
    requires SourceOk(src) && i < |posts|
    ensures var evs := [Open(posts[i])] + src.main(posts[i]) + [Close];
            PostEvents(src, posts[..i + 1]) == PostEvents(src, posts[..i]) + evs &&
            StacksSeen([file], PostEvents(src, posts[..i + 1])) ==
            StacksSeen([file], PostEvents(src, posts[..i])) + StacksSeen([file], evs)
  {
    assert posts[..i + 1] == posts[..i] + [posts[i]];
    PostEventsLast(src, posts[..i], posts[i]);
    PostEventsBalanced(src, posts[..i]);
    BalancedReturns([file], PostEvents(src, posts[..i]));
    StacksSeenConcat([file], PostEvents(src, posts[..i]), [Open(posts[i])] + src.main(posts[i]) + [Close]);
  }

  lemma TreeKeys(nodes: map<NodeId, Item>, path: map<NodeId, Stack>, root: map<string, NodeId>, next: NodeId)
    requires TreeOk(nodes, path, root, next)
    ensures path.Keys == nodes.Keys
  {
    SameKeys(nodes, path, root, next);
  }

  lemma StillListed(files: map<string, OdlFile>, before: seq<string>, after: seq<string>, f: string)
    requires ListOk(files, before) && after == if f in files then before else before + [f]
    ensures Unlisted(after, f) == Unlisted(before, f)
  {
    if f !in files {
      UnlistedLast(before, f);
    }
  }

  lemma {:induction false} UnlistedLast(l: seq<string>, f: string)
    ensures Unlisted(l + [f], f) == Unlisted(l, f)
  {
    if l != [] {
      UnlistedLast(l[1..], f);
      assert (l + [f])[1..] == l[1..] + [f];
    }
  }
}
