/** The three parsing passes over the list of files: the files given explicitly, then those found by
    scanning, then those given as includes. */
module ParseRun {
  import opened IncludeTree
  import IncludeCollector

  /** Files of the list that have an item at the root of the tree and the type of the pass, in list order. */
  function Selected(list: seq<string>, root: set<string>, files: map<string, OdlFile>, kind: FileType): seq<string> {
    if list == [] then []
    else
      var rest := Selected(list[1..], root, files, kind);
      if list[0] in root && list[0] in files && files[list[0]].kind == kind then [list[0]] + rest else rest
  }

  function Order(list: seq<string>, root: set<string>, files: map<string, OdlFile>): seq<string> {
    Selected(list, root, files, Added) + Selected(list, root, files, Scanned) + Selected(list, root, files, Included)
  }

  /** The beginning of a list of files up to and including the first that fails. */
  function UpToFailure(fs: seq<string>, code: string -> int): (r: seq<string>)
    ensures r <= fs
  {
    if fs == [] then [] else if code(fs[0]) != 0 then [fs[0]] else [fs[0]] + UpToFailure(fs[1..], code)
  }

  function Failures(fs: seq<string>, code: string -> int): seq<string> {
    if fs == [] then []
    else (if code(fs[0]) != 0 then [fs[0]] else []) + Failures(fs[1..], code)
  }

  function Codes(fs: seq<string>, code: string -> int): int {
    if fs == [] then 0 else code(fs[0]) + Codes(fs[1..], code)
  }

  /** What a run parses. */
  function Parsed(fs: seq<string>, code: string -> int, cont: bool): seq<string> {
    if cont then fs else UpToFailure(fs, code)
  }

  // ----- lists one after the other -----

  lemma {:induction false} FailuresConcat(a: seq<string>, b: seq<string>, code: string -> int)
    ensures Failures(a + b, code) == Failures(a, code) + Failures(b, code)
    ensures Codes(a + b, code) == Codes(a, code) + Codes(b, code)
  {
    if a == [] {
      assert a + b == b;
    } else {
      assert (a + b)[1..] == a[1..] + b;
      FailuresConcat(a[1..], b, code);
    }
  }

  lemma {:induction false} UpToFailureConcat(a: seq<string>, b: seq<string>, code: string -> int)
    ensures UpToFailure(a + b, code) ==
            if Failures(a, code) == [] then a + UpToFailure(b, code) else UpToFailure(a, code)
    ensures Failures(a, code) == [] <==> forall f :: f in a ==> code(f) == 0
  {
    if a == [] {
      assert a + b == b;
    } else {
      assert (a + b)[1..] == a[1..] + b;
      UpToFailureConcat(a[1..], b, code);
      assert a == [a[0]] + a[1..];
    }
  }

  /** Without "continue" the parsed files are the beginning of the order that ends with the first
      failure: all before it succeed, and nothing is parsed after it. */
  lemma {:induction false} UpToFailureIsExact(fs: seq<string>, code: string -> int)
    ensures var r := UpToFailure(fs, code);
            r <= fs && (forall i :: 0 <= i < |r| - 1 ==> code(r[i]) == 0) &&
            (r == fs || (r != [] && code(r[|r| - 1]) != 0))
    ensures Codes(UpToFailure(fs, code), code) != 0 <==> Failures(fs, code) != []
  {
    if fs != [] && code(fs[0]) == 0 {
      UpToFailureIsExact(fs[1..], code);
    }
  }

  // ----- each listed file exactly once -----

  lemma {:induction false} SelectedCounts(list: seq<string>, root: set<string>, files: map<string, OdlFile>)
    requires forall f :: f in list ==> f in root && f in files
    ensures multiset(Order(list, root, files)) == multiset(list)
  {
    if list != [] {
      SelectedCounts(list[1..], root, files);
      assert list == [list[0]] + list[1..];
    }
  }

  /** When every listed file has its item at the root, which is so after the tree has been built, the
      three passes together take each listed file exactly once. */
  lemma EachListedOnce(list: seq<string>, root: set<string>, files: map<string, OdlFile>)
    requires ListOk(files, list) && forall f :: f in list ==> f in root
    ensures multiset(Order(list, root, files)) == multiset(list)
    ensures forall f :: f in list ==> multiset(Order(list, root, files))[f] == 1
  {
    SelectedCounts(list, root, files);
    OnceInList(list);
  }

  // ----- the order -----

  function Rank(kind: FileType): nat {
    match kind
    case Added => 0
    case Scanned => 1
    case Included => 2
  }

  /** The first name stands somewhere ahead of the second. */
  ghost predicate Ahead(list: seq<string>, f: string, g: string) {
    exists a, b :: 0 <= a < b < |list| && list[a] == f && list[b] == g
  }

  lemma {:induction false} SelectedInOrder(list: seq<string>, root: set<string>, files: map<string, OdlFile>,
          kind: FileType)
    ensures var s := Selected(list, root, files, kind);
            (forall f :: f in s ==> f in list && f in files && files[f].kind == kind) &&
            forall i, j :: 0 <= i < j < |s| ==> Ahead(list, s[i], s[j])
  {
    if list != [] {
      var rest := list[1..];
      var s, later := Selected(list, root, files, kind), Selected(rest, root, files, kind);
      SelectedInOrder(rest, root, files, kind);
      assert list == [list[0]] + rest;
      forall i, j | 0 <= i < j < |s| ensures Ahead(list, s[i], s[j]) {
        if s == later {
          AheadOfRest(list, s[i], s[j]);
        } else if i > 0 {
          assert s[i] == later[i - 1] && s[j] == later[j - 1];
          AheadOfRest(list, s[i], s[j]);
        } else {
          assert s[j] == later[j - 1] && s[j] in later;
          var b :| 0 <= b < |rest| && rest[b] == s[j];
          assert list[0] == s[i] && list[b + 1] == s[j];
        }
      }
    }
  }

  lemma AheadOfRest(list: seq<string>, f: string, g: string)
    requires list != [] && Ahead(list[1..], f, g)
    ensures Ahead(list, f, g)
  {
    var a, b :| 0 <= a < b < |list[1..]| && list[1..][a] == f && list[1..][b] == g;
    assert list[a + 1] == f && list[b + 1] == g;
  }

  /** Files that were named come before those that a scan found, and these before includes; files of the
      same type come as they are listed. */
  lemma OrderIsSorted(list: seq<string>, root: set<string>, files: map<string, OdlFile>, i: nat, j: nat)
    requires i < j < |Order(list, root, files)|
    ensures var f, g := Order(list, root, files)[i], Order(list, root, files)[j];
            f in files && g in files && Rank(files[f].kind) <= Rank(files[g].kind) &&
            (files[f].kind == files[g].kind ==> Ahead(list, f, g))
  {
    hide Selected, Ahead;
    SelectedInOrder(list, root, files, Added);
    SelectedInOrder(list, root, files, Scanned);
    SelectedInOrder(list, root, files, Included);
    var a, b := |Selected(list, root, files, Added)|, |Selected(list, root, files, Scanned)|;
    var order := Order(list, root, files);
    assert order[i] == if i < a then Selected(list, root, files, Added)[i]
                       else if i < a + b then Selected(list, root, files, Scanned)[i - a]
                       else Selected(list, root, files, Included)[i - a - b];
    assert order[j] == if j < a then Selected(list, root, files, Added)[j]
                       else if j < a + b then Selected(list, root, files, Scanned)[j - a]
                       else Selected(list, root, files, Included)[j - a - b];
  }

  lemma {:induction false} OnceInList(list: seq<string>)
    requires NoDuplicates(list)
    ensures forall f :: f in list ==> multiset(list)[f] == 1
  {
    if list != [] {
      OnceInList(list[1..]);
      assert list == [list[0]] + list[1..];
      assert list[0] !in list[1..];
    }
  }

  class Runner {
    const list: seq<string>
    const root: set<string>
    const files: map<string, OdlFile>
    const code: string -> int
    const cont: bool
    var parsed: seq<string>
    var errorFiles: seq<string>

    constructor (list: seq<string>, root: set<string>, files: map<string, OdlFile>, code: string -> int, cont: bool)
      ensures this.list == list && this.root == root && this.files == files && this.code == code && this.cont == cont
      ensures parsed == [] && errorFiles == []
    {
      this.list, this.root, this.files, this.code, this.cont := list, root, files, code, cont;
      parsed, errorFiles := [], [];
    }

    /** One pass; yields the sum of the codes.  A failure ends it unless the run is to continue. */
    method ParseFiles(kind: FileType) returns (rv: int)
      modifies this
      ensures var fs := Selected(list, root, files, kind);
              parsed == old(parsed) + Parsed(fs, code, cont) && rv == Codes(Parsed(fs, code, cont), code) &&
              errorFiles == old(errorFiles) + if cont then Failures(fs, code) else []
    {
      hide *;
      rv := 0;
      ghost var fs := Selected(list, root, files, kind);
      ghost var done: seq<string> := [];
      NothingParsed(list, root, files, kind, code);
      var i := 0;
      while i < |list|
        invariant 0 <= i <= |list|
        invariant done + Selected(list[i..], root, files, kind) == fs
        invariant parsed == old(parsed) + done && rv == Codes(done, code)
        invariant cont || Failures(done, code) == []
        invariant errorFiles == old(errorFiles) + Failures(done, code)
      {
        var file := list[i];
        SelectedStep(list, i, root, files, kind);
        if file in root && file in files && files[file].kind == kind {
          ghost var rest := Selected(list[i + 1..], root, files, kind);
          assert done + ([file] + rest) == (done + [file]) + rest;
          assert parsed + [file] == old(parsed) + (done + [file]);
          OneMoreParsed(done, file, rest, code, cont);
          parsed := parsed + [file];
          var current := code(file);
          rv := rv + current;
          if current != 0 {
            if !cont {
              return;
            }
            errorFiles := errorFiles + [file];
          }
          done := done + [file];
        }
        i := i + 1;
      }
      assert list[i..] == [];
      NothingParsed(list[i..], root, files, kind, code);
      assert done == done + [] == fs;
      AllParsed(done, code, cont);
    }

    /** The whole run: the three passes parse the files of Order, all of them or up to the first that
        fails, and the result is the sum of their codes. */
    method Run() returns (rv: int)
      requires parsed == [] && errorFiles == []
      modifies this
      ensures var order := Order(list, root, files);
              parsed == Parsed(order, code, cont) && rv == Codes(parsed, code) &&
              errorFiles == if cont then Failures(order, code) else []
    {
      hide *;
      ghost var a, b := Selected(list, root, files, Added), Selected(list, root, files, Scanned);
      ghost var c := Selected(list, root, files, Included);
      OrderIs(list, root, files);
      ThreePasses(a, b, c, code, cont);
      NoneBefore(Parsed(a, code, cont));
      NoneBefore(Failures(a, code));
      rv := ParseFiles(Added);
      if rv != 0 && !cont {
        return;
      }
      var scanned := ParseFiles(Scanned);
      rv := rv + scanned;
      if rv != 0 && !cont {
        return;
      }
      var included := ParseFiles(Included);
      rv := rv + included;
    }
  }

  lemma NoneBefore(s: seq<string>)
    ensures [] + s == s
  {
  }

  /** What stands after one, two or three passes, and when a pass is the last. */
  lemma ThreePasses(a: seq<string>, b: seq<string>, c: seq<string>, code: string -> int, cont: bool)
    ensures var pa, pb, pc := Parsed(a, code, cont), Parsed(b, code, cont), Parsed(c, code, cont);
            var first, both := Codes(pa, code), Codes(pa, code) + Codes(pb, code);
            var all := if !cont && first != 0 then pa else if !cont && both != 0 then pa + pb else pa + pb + pc;
            Parsed(a + b + c, code, cont) == all &&
            Codes(pa + pb, code) == both && Codes(pa + pb + pc, code) == both + Codes(pc, code)
    ensures Failures(a + b + c, code) == Failures(a, code) + Failures(b, code) + Failures(c, code)
  {
    hide *;
    var pa, pb, pc := Parsed(a, code, cont), Parsed(b, code, cont), Parsed(c, code, cont);
    ParsedConcat(a, b, code, cont);
    ParsedConcat(a + b, c, code, cont);
    FailuresConcat(pa + pb, pc, code);
  }

  lemma OrderIs(list: seq<string>, root: set<string>, files: map<string, OdlFile>)
    ensures Order(list, root, files) ==
            Selected(list, root, files, Added) + Selected(list, root, files, Scanned) +
            Selected(list, root, files, Included)
  {
  }

  // ----- one file after the other -----

  lemma NothingParsed(list: seq<string>, root: set<string>, files: map<string, OdlFile>, kind: FileType,
          code: string -> int)
    ensures list == [] ==> Selected(list, root, files, kind) == []
    ensures list[0..] == list
    ensures Codes([], code) == 0 && Failures([], code) == []
  {
  }

  lemma SelectedStep(list: seq<string>, i: nat, root: set<string>, files: map<string, OdlFile>, kind: FileType)
    requires i < |list|
    ensures var rest := Selected(list[i + 1..], root, files, kind);
            Selected(list[i..], root, files, kind) ==
            if list[i] in root && list[i] in files && files[list[i]].kind == kind then [list[i]] + rest else rest
  {
    assert list[i..][1..] == list[i + 1..];
  }

  lemma OneMoreParsed(done: seq<string>, file: string, rest: seq<string>, code: string -> int, cont: bool)
    requires cont || Failures(done, code) == []
    ensures Codes(done + [file], code) == Codes(done, code) + code(file)
    ensures Failures(done + [file], code) == Failures(done, code) + if code(file) != 0 then [file] else []
    ensures !cont && code(file) != 0 ==> Parsed(done + [file] + rest, code, cont) == done + [file]
  {
    FailuresConcat(done, [file], code);
    UpToFailureConcat(done, [file] + rest, code);
    assert done + [file] + rest == done + ([file] + rest);
  }

  lemma AllParsed(fs: seq<string>, code: string -> int, cont: bool)
    requires cont || Failures(fs, code) == []
    ensures Parsed(fs, code, cont) == fs
  {
    UpToFailureConcat(fs, [], code);
    assert fs + [] == fs;
  }

  /** Parsing one list and then, unless it failed, the other parses the two lists as one. */
  lemma ParsedConcat(a: seq<string>, b: seq<string>, code: string -> int, cont: bool)
    ensures var first, second := Parsed(a, code, cont), Parsed(b, code, cont);
            var all := if cont || Codes(first, code) == 0 then first + second else first;
            Parsed(a + b, code, cont) == all &&
            Codes(first + second, code) == Codes(first, code) + Codes(second, code)
    ensures Failures(a + b, code) == Failures(a, code) + Failures(b, code)
  {
    hide Failures, UpToFailure, Codes;
    FailuresConcat(a, b, code);
    FailuresConcat(Parsed(a, code, cont), Parsed(b, code, cont), code);
    UpToFailureConcat(a, b, code);
    UpToFailureIsExact(a, code);
    if Failures(a, code) == [] {
      AllParsed(a, code, cont);
    }
  }

  lemma OnceEach(list: seq<string>, root: set<string>, files: map<string, OdlFile>, f: string)
    requires ListOk(files, list) && forall g :: g in list ==> g in root
    ensures multiset(Order(list, root, files))[f] == if f in files && files[f].useCount == 0 then 1 else 0
  {
    hide Order, NoDuplicates;
    EachListedOnce(list, root, files);
    assert f in list <==> multiset(list)[f] > 0;
  }

  /** Building the include tree and then running: the files that no other file includes are parsed once
      each, and no others; without "continue" it may stop early in that order. */
  method BuildAndRun(c: IncludeCollector.Collector, names: seq<string>, code: string -> int, cont: bool)
    returns (runner: Runner, rv: int)
    requires c.Valid() && IncludeCollector.SourceOk(c.src) && c.root == c.entered == map[] && c.nodes == map[] &&
            c.log == []
    requires NoDuplicates(names) && c.given == c.files.Keys && forall f :: f in names <==> f in c.given
    modifies c
    ensures var order := Order(c.list, c.root.Keys, c.files);
            runner.parsed == Parsed(order, code, cont) && rv == Codes(runner.parsed, code) &&
            forall f :: multiset(order)[f] == if f in c.files && c.files[f].useCount == 0 then 1 else 0
  {
    c.BuildIncludeTree(names);
    ListStands(c);
    runner := new Runner(c.list, c.root.Keys, c.files, code, cont);
    rv := runner.Run();
    hide *;
    forall f
      ensures multiset(Order(c.list, c.root.Keys, c.files))[f] ==
              if f in c.files && c.files[f].useCount == 0 then 1 else 0
    {
      OnceEach(c.list, c.root.Keys, c.files, f);
    }
  }

  lemma ListStands(c: IncludeCollector.Collector)
    requires c.Valid()
    ensures ListOk(c.files, c.list)
  {
  }
}
