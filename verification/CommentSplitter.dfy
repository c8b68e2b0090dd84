/** How a documentation comment is divided: the text before the first tag line, and one record for
    every tag line with the lines that continue it. */
module CommentSplitter {
  import opened Wrappers

  // ----- characters and trimming -----

  predicate IsBlank(c: char) { c == ' ' || c == '\t' }

  predicate IsWord(c: char) { !IsBlank(c) }

  predicate IsSpace(c: char) { c in {' ', '\t', '\n', '\r', '\U{000b}', '\U{000c}'} }

  predicate IsSpaceOrAsterisk(c: char) { c == '*' || IsSpace(c) }

  predicate IsAlnum(c: char) { 'a' <= c <= 'z' || 'A' <= c <= 'Z' || '0' <= c <= '9' }

  function TrimRight(s: string, drop: char -> bool): (r: string)
    ensures r <= s
  {
    if s != "" && drop(s[|s| - 1]) then TrimRight(s[..|s| - 1], drop) else s
  }

  function TrimLeft(s: string, drop: char -> bool): string {
    if s != "" && drop(s[0]) then TrimLeft(s[1..], drop) else s
  }

  function Trim(s: string, drop: char -> bool): string { TrimLeft(TrimRight(s, drop), drop) }

  /** The text has nothing at its ends that trimming would take. */
  predicate Trimmed(s: string, drop: char -> bool) { s == "" || (!drop(s[0]) && !drop(s[|s| - 1])) }

  // ----- the regular expression of a tag -----

  /** How many characters at the beginning satisfy p. */
  function Run(s: string, p: char -> bool): (n: nat)
    ensures n <= |s| && (forall i :: 0 <= i < n ==> p(s[i])) && (n < |s| ==> !p(s[n]))
  {
    if s != "" && p(s[0]) then 1 + Run(s[1..], p) else 0
  }

  /** What follows the first @ that has a letter or digit behind it. */
  function AfterAt(line: string): Option<string> {
    if |line| < 2 then None
    else if line[0] == '@' && IsAlnum(line[1]) then Some(line[1..])
    else AfterAt(line[1..])
  }

  /** The expression is not anchored, so the tag may stand anywhere in the line. */
  predicate IsTagLine(line: string) { AfterAt(line).Some? }

  /** An @ in the line, with a letter or a digit behind it. */
  predicate TagAt(line: string, i: int) {
    0 <= i < |line| - 1 && line[i] == '@' &&
    ('a' <= line[i + 1] <= 'z' || 'A' <= line[i + 1] <= 'Z' || '0' <= line[i + 1] <= '9')
  }

  /** A line is a tag line when such an @ stands anywhere in it, and its tag begins behind the first. */
  lemma {:induction false} TagLineIs(line: string)
    ensures IsTagLine(line) <==> exists i :: TagAt(line, i)
    ensures IsTagLine(line) ==>
              exists i :: TagAt(line, i) && (forall j :: j < i ==> !TagAt(line, j)) &&
                          AfterAt(line) == Some(line[i + 1..])
  {
    if |line| >= 2 {
      if TagAt(line, 0) {
        assert AfterAt(line) == Some(line[0 + 1..]);
      } else {
        var rest := line[1..];
        TagLineIs(rest);
        assert forall i :: TagAt(line, i) <==> TagAt(rest, i - 1);
        if IsTagLine(rest) {
          var i :| TagAt(rest, i) && (forall j :: j < i ==> !TagAt(rest, j)) && AfterAt(rest) == Some(rest[i + 1..]);
          assert rest[i + 1..] == line[i + 1 + 1..] && TagAt(line, i + 1);
          assert forall j :: j < i + 1 ==> !TagAt(line, j);
        }
        assert forall i :: TagAt(rest, i) ==> TagAt(line, i + 1);
      }
    }
  }

  datatype Tag = Tag(line: string, name: string, arg1: string, rest: string)

  function Name(line: string): string
    requires IsTagLine(line)
  {
    var s := AfterAt(line).value;
    s[..Run(s, IsAlnum)]
  }

  predicate All(s: string, p: char -> bool) { forall i :: 0 <= i < |s| ==> p(s[i]) }

  datatype Groups = Groups(gap1: string, arg1: string, gap2: string, rest: string)

  /** One word, and what follows it behind blanks. */
  function OneWord(s: string): (g: Groups)
    requires s != "" && IsWord(s[0])
    ensures g.gap1 == "" && s == g.arg1 + (g.gap2 + g.rest)
    ensures g.arg1 != "" && All(g.arg1, IsWord) && All(g.gap2, IsBlank)
    ensures g.rest != "" ==> g.gap2 != "" && IsWord(g.rest[0])
  {
    var k := Run(s, IsWord);
    var more := s[k..];
    var m := Run(more, IsBlank);
    assert s == s[..k] + more && more == more[..m] + more[m..];
    Groups("", s[..k], more[..m], more[m..])
  }

  lemma NothingBehind(s: string)
    ensures s + ("" + ("" + "")) == s && All("", IsWord) && All("", IsBlank)
  {
  }

  lemma CutInTwo(s: string, n: nat)
    requires n <= |s|
    ensures s == s[..n] + s[n..] && (n == |s| ==> s[..n] == s)
  {
  }

  lemma RunTakes(s: string, p: char -> bool)
    ensures var n := Run(s, p);
            All(s[..n], p) && s == s[..n] + s[n..] && (n == |s| ==> s[..n] == s)
  {
    hide Run;
    CutInTwo(s, Run(s, p));
  }

  /** What stands behind a tag's name: blanks, one word, blanks, and the rest of the line; everything is
      in one place, and no argument means no rest. */
  function Behind(s: string): (g: Groups)
    ensures s == g.gap1 + (g.arg1 + (g.gap2 + g.rest))
    ensures All(g.arg1, IsWord) && All(g.gap2, IsBlank)
    ensures g.arg1 != "" ==>
              g.gap1 != "" && All(g.gap1, IsBlank) && (g.rest != "" ==> g.gap2 != "" && IsWord(g.rest[0]))
    ensures g.arg1 == "" ==> g.gap1 == s && g.rest == "" && (s == "" || IsWord(s[0]) || All(s, IsBlank))
  {
    hide OneWord, All, Run;
    var n := Run(s, IsBlank);
    RunTakes(s, IsBlank);
    if n == 0 || n == |s| then
      NothingBehind(s);
      Groups(s, "", "", "")
    else
      var g := OneWord(s[n..]);
      Groups(s[..n], g.arg1, g.gap2, g.rest)
  }

  /** The groups of the match; a group that takes no part is the empty string. */
  function Matched(line: string): Tag
    requires IsTagLine(line)
  {
    var g := Behind(AfterAt(line).value[|Name(line)|..]);
    Tag(line, Name(line), g.arg1, g.rest)
  }

  /** The name is as long as it can be, and with what stands behind it covers all that follows the @. */
  lemma MatchedGroups(line: string)
    requires IsTagLine(line)
    ensures var t := Matched(line);
            t.name != "" && All(t.name, IsAlnum) && t.name <= AfterAt(line).value &&
            var behind := AfterAt(line).value[|t.name|..];
            (behind == "" || !IsAlnum(behind[0])) &&
            Behind(behind).arg1 == t.arg1 && Behind(behind).rest == t.rest
  {
    hide AfterAt, Behind;
    AfterAtStarts(line);
  }

  lemma {:induction false} AfterAtStarts(line: string)
    requires IsTagLine(line)
    ensures AfterAt(line).value != "" && IsAlnum(AfterAt(line).value[0])
  {
    if !(line[0] == '@' && IsAlnum(line[1])) {
      AfterAtStarts(line[1..]);
    }
  }

  // ----- the division -----

  datatype Division = Division(doc: seq<string>, blocks: seq<seq<string>>)

  /** Splitting at the tag lines. */
  function Divide(lines: seq<string>): Division {
    if lines == [] then Division([], []) else Started(lines[0], Divide(lines[1..]))
  }

  /** A first line put before a division. */
  function Started(first: string, d: Division): Division {
    if IsTagLine(first) then Division([], [[first] + d.doc] + d.blocks) else Division([first] + d.doc, d.blocks)
  }

  function Flat(blocks: seq<seq<string>>): seq<string> {
    if blocks == [] then [] else blocks[0] + Flat(blocks[1..])
  }

  predicate NoTagLine(lines: seq<string>) { forall l :: l in lines ==> !IsTagLine(l) }

  predicate IsBlock(b: seq<string>) { b != [] && IsTagLine(b[0]) && NoTagLine(b[1..]) }

  /** Every line in one place, in order, with the tag lines exactly at the beginnings of the blocks. */
  predicate IsDivision(d: Division, lines: seq<string>) {
    d.doc + Flat(d.blocks) == lines && NoTagLine(d.doc) && forall b :: b in d.blocks ==> IsBlock(b)
  }

  lemma {:induction false} DivideDivides(lines: seq<string>)
    ensures IsDivision(Divide(lines), lines)
  {
    hide IsTagLine;
    if lines != [] {
      DivideDivides(lines[1..]);
      StartedDivides(lines[0], Divide(lines[1..]), lines[1..]);
      assert lines == [lines[0]] + lines[1..];
    }
  }

  lemma StartedDivides(first: string, d: Division, rest: seq<string>)
    requires IsDivision(d, rest)
    ensures IsDivision(Started(first, d), [first] + rest)
  {
    hide IsTagLine;
    var s := Started(first, d);
    assert [first] + rest == ([first] + d.doc) + Flat(d.blocks);
    if IsTagLine(first) {
      assert s.blocks[1..] == d.blocks && ([first] + d.doc)[1..] == d.doc;
      assert s.doc + Flat(s.blocks) == ([first] + d.doc) + Flat(d.blocks);
    }
  }

  /** There is only one way to divide the lines. */
  lemma {:induction false} DivisionIsUnique(d: Division, lines: seq<string>)
    ensures IsDivision(d, lines) <==> d == Divide(lines)
    decreases |lines|
  {
    hide IsTagLine, Started;
    DivideDivides(lines);
    if IsDivision(d, lines) {
      NothingDivided(d, lines);
      if lines != [] {
        var rest := FirstTaken(d, lines);
        DivisionIsUnique(rest, lines[1..]);
      }
    }
  }

  lemma NothingDivided(d: Division, lines: seq<string>)
    requires IsDivision(d, lines)
    ensures lines == [] ==> d == Division([], [])
  {
    if d.blocks != [] {
      assert IsBlock(d.blocks[0]);
    }
  }

  lemma FirstTaken(d: Division, lines: seq<string>) returns (rest: Division)
    requires IsDivision(d, lines) && lines != []
    ensures IsDivision(rest, lines[1..]) && d == Started(lines[0], rest)
  {
    hide IsTagLine;
    if d.doc != [] {
      rest := Division(d.doc[1..], d.blocks);
      assert lines[0] == d.doc[0] && lines[1..] == rest.doc + Flat(rest.blocks);
      assert d.doc == [lines[0]] + rest.doc;
    } else {
      var b := d.blocks[0];
      assert IsBlock(b);
      rest := Division(b[1..], d.blocks[1..]);
      assert lines == b + Flat(rest.blocks);
      assert lines[0] == b[0] && lines[1..] == rest.doc + Flat(rest.blocks);
      assert b == [lines[0]] + rest.doc && d.blocks == [b] + rest.blocks;
    }
  }

  /** One more line goes to the end of what was begun last, or begins something. */
  function WithLine(d: Division, line: string): Division {
    var n := |d.blocks|;
    if IsTagLine(line) then d.(blocks := d.blocks + [[line]])
    else if n == 0 then d.(doc := d.doc + [line])
    else d.(blocks := d.blocks[..n - 1] + [d.blocks[n - 1] + [line]])
  }

  lemma {:induction false} DivideOneMore(lines: seq<string>, line: string)
    ensures Divide(lines + [line]) == WithLine(Divide(lines), line)
  {
    hide IsTagLine;
    if lines != [] {
      DivideOneMore(lines[1..], line);
      var all := lines + [line];
      assert all[0] == lines[0] && all[1..] == lines[1..] + [line];
      StartedMore(lines[0], Divide(lines[1..]), line);
      hide Started, WithLine;
      assert Divide(all) == Started(lines[0], Divide(all[1..]));
    } else {
      var all := lines + [line];
      assert all == [line] && all[1..] == [];
      assert [line] + [] == [] + [line] && [[line]] + [] == [] + [[line]];
    }
  }

  lemma StartedMore(first: string, d: Division, line: string)
    ensures Started(first, WithLine(d, line)) == WithLine(Started(first, d), line)
  {
    hide IsTagLine;
    var n := |d.blocks|;
    var blocks := Started(first, d).blocks;
    assert [first] + (d.doc + [line]) == ([first] + d.doc) + [line];
    if IsTagLine(first) && n > 0 {
      assert blocks[..n] == [blocks[0]] + d.blocks[..n - 1] && blocks[n] == d.blocks[n - 1];
    }
  }

  // ----- the records -----

  /** Lines as they are collected, each with its line break. */
  function Text(lines: seq<string>): string {
    if lines == [] then "" else Text(lines[..|lines| - 1]) + lines[|lines| - 1] + "\n"
  }

  function Spaced(s: string): (r: string)
    ensures |r| == |s| && forall i :: 0 <= i < |s| ==> r[i] == if s[i] == '\n' then ' ' else s[i]
  {
    if s == "" then "" else [if s[0] == '\n' then ' ' else s[0]] + Spaced(s[1..])
  }

  /** The lines of a block as one line. */
  function Joined(block: seq<string>): string { Trim(Spaced(Text(block)), IsSpace) }

  function Records(blocks: seq<seq<string>>): seq<Tag> {
    if blocks == [] then []
    else
      var joined := Joined(blocks[|blocks| - 1]);
      Records(blocks[..|blocks| - 1]) + if IsTagLine(joined) then [Matched(joined)] else []
  }

  predicate IsLine(line: string) { Trimmed(line, IsSpace) && '\n' !in line }

  lemma {:induction false} TrimRightConcat(a: string, b: string, drop: char -> bool)
    requires a != "" && !drop(a[|a| - 1])
    ensures TrimRight(a + b, drop) == a + TrimRight(b, drop)
  {
    if b == "" {
      assert a + b == a;
    } else if drop(b[|b| - 1]) {
      assert (a + b)[..|a + b| - 1] == a + b[..|b| - 1];
      TrimRightConcat(a, b[..|b| - 1], drop);
    }
  }

  lemma {:induction false} TextStart(block: seq<string>)
    requires block != []
    ensures block[0] + "\n" <= Text(block)
  {
    if |block| > 1 {
      TextStart(block[..|block| - 1]);
      assert block[..|block| - 1][0] == block[0];
    }
  }

  lemma {:induction false} AfterAtConcat(a: string, b: string)
    requires IsTagLine(a)
    ensures AfterAt(a + b) == Some(AfterAt(a).value + b)
    ensures AfterAt(a).value != "" && IsAlnum(AfterAt(a).value[0])
  {
    if a[0] == '@' && IsAlnum(a[1]) {
      assert (a + b)[1..] == a[1..] + b;
    } else {
      assert (a + b)[1..] == a[1..] + b;
      AfterAtConcat(a[1..], b);
    }
  }

  lemma {:induction false} RunConcat(a: string, b: string, p: char -> bool)
    requires b == "" || !p(b[0])
    ensures Run(a + b, p) == Run(a, p)
  {
    if a == "" {
      assert a + b == b;
    } else {
      assert (a + b)[1..] == a[1..] + b;
      RunConcat(a[1..], b, p);
    }
  }

  /** A tag line keeps its tag when the lines that follow are joined to it. */
  lemma JoinedKeepsTag(block: seq<string>)
    requires block != [] && IsTagLine(block[0]) && IsLine(block[0])
    ensures block[0] <= Joined(block)
    ensures IsTagLine(Joined(block)) && Name(Joined(block)) == Name(block[0])
  {
    hide *;
    var rest := JoinedIs(block);
    TagKept(block[0], rest);
  }

  lemma JoinedIs(block: seq<string>) returns (rest: string)
    requires block != [] && IsTagLine(block[0]) && IsLine(block[0])
    ensures Joined(block) == block[0] + rest && (rest == "" || rest[0] == ' ')
  {
    hide Text, IsTagLine, TrimRight;
    var line, text := block[0], Text(block);
    TextStart(block);
    assert text == line + text[|line|..];
    var spaced := Spaced(text);
    var tail := spaced[|line|..];
    assert spaced == line + tail by {
      assert forall i :: 0 <= i < |line| ==> text[i] == line[i] && line[i] in line;
    }
    assert tail[0] == ' ' by { assert text[|line|] == (line + "\n")[|line|]; }
    TagIsNotEmpty(line);
    TrimRightConcat(line, tail, IsSpace);
    rest := TrimRight(tail, IsSpace);
  }

  lemma TagIsNotEmpty(line: string)
    requires IsTagLine(line)
    ensures line != ""
  {
  }

  lemma TagKept(line: string, rest: string)
    requires IsTagLine(line) && (rest == "" || rest[0] == ' ')
    ensures IsTagLine(line + rest) && Name(line + rest) == Name(line)
  {
    AfterAtConcat(line, rest);
    RunConcat(AfterAt(line).value, rest, IsAlnum);
  }

  /** The lines one after the other, each with a space behind it. */
  function Spread(block: seq<string>): string { if block == [] then "" else block[0] + " " + Spread(block[1..]) }

  lemma {:induction false} SpreadMore(block: seq<string>, line: string)
    ensures Spread(block + [line]) == Spread(block) + line + " "
  {
    var all := block + [line];
    if block != [] {
      assert all[0] == block[0] && all[1..] == block[1..] + [line];
      SpreadMore(block[1..], line);
    }
  }

  lemma SpacedConcat(a: string, b: string)
    ensures Spaced(a + b) == Spaced(a) + Spaced(b)
    ensures '\n' !in b ==> Spaced(b) == b
    ensures Spaced("\n") == " "
  {
    hide Spaced;
  }

  lemma {:induction false} SpacedText(block: seq<string>)
    requires forall l :: l in block ==> '\n' !in l
    ensures Spaced(Text(block)) == Spread(block)
  {
    hide Spaced;
    if block != [] {
      var front, last := block[..|block| - 1], block[|block| - 1];
      SpacedText(front);
      assert block == front + [last];
      SpreadMore(front, last);
      SpacedConcat(Text(front), last);
      SpacedConcat(Text(front) + last, "\n");
    }
  }

  lemma {:induction false} TrimRightCovers(s: string, drop: char -> bool) returns (b: string)
    ensures s == TrimRight(s, drop) + b && All(b, drop)
  {
    b := "";
    if s != "" && drop(s[|s| - 1]) {
      b := TrimRightCovers(s[..|s| - 1], drop);
      b := b + [s[|s| - 1]];
    }
  }

  lemma SpreadStart(block: seq<string>)
    requires block != [] && block[0] != ""
    ensures Spread(block) != "" && Spread(block)[0] == block[0][0]
  {
  }

  /** The joined line is all lines of the block in order, with one space between each two, up to white
      space at the very end. */
  lemma JoinedCovers(block: seq<string>) returns (end: string)
    requires block != [] && block[0] != "" && forall l :: l in block ==> IsLine(l)
    ensures Spread(block) == Joined(block) + end && All(end, IsSpace)
  {
    hide Spread, Spaced, Text, TrimRight;
    SpacedText(block);
    SpreadStart(block);
    var s := Spread(block);
    end := TrimRightCovers(s, IsSpace);
    assert block[0] in block;
    var r := TrimRight(s, IsSpace);
    assert r == "" ==> s == end;
    assert r != "" ==> r[0] == s[0];
  }

  /** The tag lines, in order. */
  function TagLines(lines: seq<string>): seq<string> {
    if lines == [] then [] else (if IsTagLine(lines[0]) then [lines[0]] else []) + TagLines(lines[1..])
  }

  lemma {:induction false} TagLinesAreHeads(lines: seq<string>)
    ensures var blocks := Divide(lines).blocks;
            |TagLines(lines)| == |blocks| &&
            forall i :: 0 <= i < |blocks| ==> blocks[i] != [] && blocks[i][0] == TagLines(lines)[i]
  {
    if lines != [] {
      TagLinesAreHeads(lines[1..]);
    }
  }

  predicate HeadOk(block: seq<string>) { block != [] && IsTagLine(block[0]) && IsLine(block[0]) }

  /** The record of a block is named after its tag line, carries all its lines, and what stands behind the
      name is split into its argument and the rest. */
  predicate RecordOf(r: Tag, block: seq<string>)
    requires HeadOk(block)
  {
    r.line == Joined(block) && r.name == Name(block[0]) &&
    IsTagLine(r.line) && r.name <= AfterAt(r.line).value &&
    var behind := Behind(AfterAt(r.line).value[|r.name|..]);
    r.arg1 == behind.arg1 && r.rest == behind.rest
  }

  lemma {:induction false} OneRecordPerBlock(blocks: seq<seq<string>>)
    requires forall i :: 0 <= i < |blocks| ==> HeadOk(blocks[i])
    ensures |Records(blocks)| == |blocks|
    ensures forall i :: 0 <= i < |blocks| ==> RecordOf(Records(blocks)[i], blocks[i])
  {
    hide *;
    if blocks != [] {
      var front, last := blocks[..|blocks| - 1], blocks[|blocks| - 1];
      assert blocks == front + [last];
      OneRecordPerBlock(front);
      LastRecord(blocks);
    } else {
      NoRecords();
    }
  }

  lemma NoRecords() ensures Records([]) == [] {}

  lemma LastRecord(blocks: seq<seq<string>>)
    requires blocks != [] && HeadOk(blocks[|blocks| - 1])
    ensures exists r :: RecordOf(r, blocks[|blocks| - 1]) && Records(blocks) == Records(blocks[..|blocks| - 1]) + [r]
  {
    hide *;
    var block := blocks[|blocks| - 1];
    HeadIs(block);
    JoinedKeepsTag(block);
    MatchedHas(Joined(block));
    RecordsLast(blocks);
    RecordIs(block);
  }

  lemma HeadIs(block: seq<string>)
    requires HeadOk(block)
    ensures block != [] && IsTagLine(block[0]) && IsLine(block[0])
  {
  }

  lemma MatchedHas(line: string)
    requires IsTagLine(line)
    ensures Matched(line).line == line && Matched(line).name == Name(line)
  {
  }

  lemma RecordsLast(blocks: seq<seq<string>>)
    requires blocks != [] && IsTagLine(Joined(blocks[|blocks| - 1]))
    ensures Records(blocks) == Records(blocks[..|blocks| - 1]) + [Matched(Joined(blocks[|blocks| - 1]))]
  {
    hide IsTagLine, Joined, Matched;
  }

  lemma RecordIs(block: seq<string>)
    requires HeadOk(block) && IsTagLine(Joined(block)) && Name(Joined(block)) == Name(block[0])
    ensures RecordOf(Matched(Joined(block)), block)
  {
    hide AfterAt, Behind, Joined;
    MatchedGroups(Joined(block));
  }

  lemma {:induction false} TagLinesAreLines(lines: seq<string>)
    ensures forall i :: 0 <= i < |TagLines(lines)| ==> TagLines(lines)[i] in lines && IsTagLine(TagLines(lines)[i])
  {
    if lines != [] {
      TagLinesAreLines(lines[1..]);
      assert forall l :: l in lines[1..] ==> l in lines;
    }
  }

  /** There is exactly one record for every tag line, in order, named after it and carrying the lines
      of its block. */
  lemma OneRecordPerTagLine(lines: seq<string>)
    requires forall l :: l in lines ==> IsLine(l)
    ensures var blocks, heads := Divide(lines).blocks, TagLines(lines);
            |Records(blocks)| == |heads| == |blocks| &&
            forall i :: 0 <= i < |heads| ==>
              HeadOk(blocks[i]) && blocks[i][0] == heads[i] && RecordOf(Records(blocks)[i], blocks[i])
  {
    hide *;
    TagLinesAreHeads(lines);
    TagLinesAreLines(lines);
    var blocks := Divide(lines).blocks;
    forall i | 0 <= i < |blocks| ensures HeadOk(blocks[i]) {
      HeadIsOk(blocks[i]);
    }
    OneRecordPerBlock(blocks);
  }

  lemma HeadIsOk(block: seq<string>)
    requires block != [] && IsTagLine(block[0]) && IsLine(block[0])
    ensures HeadOk(block)
  {
  }
}
