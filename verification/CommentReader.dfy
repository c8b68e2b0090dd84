/** The reader of documentation comments: it keeps what the last comment said until it is replaced. */
module CommentReader {
  import opened Wrappers
  import opened CommentSplitter

  /** A comment with each backslash and n replaced by a line break. */
  function Unescaped(s: string): string {
    if |s| >= 2 && s[0] == '\\' && s[1] == 'n' then "\n" + Unescaped(s[2..])
    else if s == "" then ""
    else [s[0]] + Unescaped(s[1..])
  }

  predicate IsNoBreak(c: char) { c != '\n' }

  function FirstLine(text: string): (line: string)
    ensures |line| <= |text| && '\n' !in line
    ensures text == line || (|line| < |text| && text == line + "\n" + text[|line| + 1..])
  {
    var n := Run(text, IsNoBreak);
    CutAt(text, n);
    text[..n]
  }

  lemma CutAt(text: string, n: nat)
    ensures n < |text| ==> text == text[..n] + [text[n]] + text[n + 1..]
    ensures n == |text| ==> text == text[..n]
  {
  }

  function OtherLines(text: string): string {
    var n := |FirstLine(text)|;
    if n == |text| then "" else text[n + 1..]
  }

  /** The lines of a text, without their line breaks; nothing follows a break at the very end. */
  function Lines(text: string): seq<string>
    decreases |text|
  {
    if text == "" then [] else [FirstLine(text)] + Lines(OtherLines(text))
  }

  function TrimmedLines(lines: seq<string>): seq<string> {
    if lines == [] then [] else TrimmedLines(lines[..|lines| - 1]) + [Trim(lines[|lines| - 1], IsSpaceOrAsterisk)]
  }

  /** The lines of a comment as the reader sees them. */
  function CommentLines(comment: string): seq<string> { TrimmedLines(Lines(Unescaped(comment))) }

  predicate Escape(s: string, i: int) { 0 <= i < |s| - 1 && s[i] == '\\' && s[i + 1] == 'n' }

  lemma UnescapedStep(s: string)
    ensures s == "" ==> Unescaped(s) == ""
    ensures Escape(s, 0) ==> Unescaped(s) == "\n" + Unescaped(s[2..])
    ensures s != "" && !Escape(s, 0) ==> Unescaped(s) == [s[0]] + Unescaped(s[1..])
  {
  }

  lemma Drops(a: string, e: string, k: nat)
    requires k <= |a|
    ensures (a + e)[k..] == a[k..] + e
  {
  }

  lemma Assoc(x: string, y: string, z: string)
    ensures (x + y) + z == x + (y + z) && "" + y == y
  {
  }

  /** Every backslash with an n behind it becomes a line break, and nothing else changes. */
  lemma {:induction false} UnescapedAt(a: string, b: string)
    ensures Unescaped(a + ("\\n" + b)) == Unescaped(a) + ("\n" + Unescaped(b))
  {
    hide Unescaped;
    var e, u := "\\n" + b, "\n" + Unescaped(b);
    UnescapedStep(a);
    UnescapedStep(a + e);
    if a == "" {
      assert e[2..] == b;
      Assoc([], e, []);
      Assoc([], u, []);
    } else if Escape(a, 0) {
      Drops(a, e, 2);
      UnescapedAt(a[2..], b);
      Assoc("\n", Unescaped(a[2..]), u);
    } else {
      Drops(a, e, 1);
      UnescapedAt(a[1..], b);
      Assoc([a[0]], Unescaped(a[1..]), u);
      assert !Escape(a + e, 0);
    }
  }

  lemma {:induction false} UnescapedPlain(s: string)
    requires forall i :: !Escape(s, i)
    ensures Unescaped(s) == s
  {
    if s != "" {
      assert !Escape(s, 0);
      assert forall i :: Escape(s[1..], i) ==> Escape(s, i + 1);
      UnescapedPlain(s[1..]);
    }
  }

  /** The text with a break behind its last line. */
  function Ended(text: string): string { if text == "" || text[|text| - 1] == '\n' then text else text + "\n" }

  lemma EndedStep(first: string, rest: string)
    ensures Ended(first + "\n" + rest) == first + "\n" + Ended(rest)
  {
    var text := first + "\n" + rest;
    assert rest != "" ==> text[|text| - 1] == rest[|rest| - 1];
    assert rest == "" ==> text[|text| - 1] == '\n';
    assert first + "\n" + (rest + "\n") == text + "\n";
  }

  lemma OneLine(text: string)
    ensures text != "" && '\n' !in text ==> Ended(text) == text + "\n" + Text(Lines(""))
  {
    assert Lines("") == [] && Text([]) == "";
    assert text != "" ==> text[|text| - 1] in text;
  }

  /** The lines give the text back when each gets its break; only a last one without a break gains one. */
  lemma {:induction false} LinesGiveBack(text: string)
    ensures Text(Lines(text)) == Ended(text)
    decreases |text|
  {
    if text != "" {
      hide Text, FirstLine;
      var first, rest := FirstLine(text), OtherLines(text);
      TextFirst(first, Lines(rest));
      LinesGiveBack(rest);
      hide Lines;
      if text == first {
        OneLine(text);
      } else {
        EndedStep(first, rest);
      }
    }
  }

  lemma {:induction false} TextFirst(first: string, rest: seq<string>)
    ensures Text([first] + rest) == first + "\n" + Text(rest)
  {
    var all := [first] + rest;
    if rest != [] {
      assert all[..|all| - 1] == [first] + rest[..|rest| - 1];
      TextFirst(first, rest[..|rest| - 1]);
    }
  }

  /** Trimming takes characters of the kind from both ends, all of them, and nothing else. */
  lemma TrimIs(s: string, drop: char -> bool) returns (a: string, b: string)
    ensures s == a + Trim(s, drop) + b && All(a, drop) && All(b, drop) && Trimmed(Trim(s, drop), drop)
  {
    b := TrimRightCovers(s, drop);
    a := TrimLeftIs(TrimRight(s, drop), drop);
    TrimRightHas(s, drop);
    TrimLeftHas(TrimRight(s, drop), drop);
  }

  lemma {:induction false} TrimLeftIs(s: string, drop: char -> bool) returns (a: string)
    ensures s == a + TrimLeft(s, drop) && All(a, drop)
  {
    a := "";
    if s != "" && drop(s[0]) {
      a := TrimLeftIs(s[1..], drop);
      a := [s[0]] + a;
    }
  }

  // ----- lines are trimmed and hold no line break -----

  lemma {:induction false} TrimLeftHas(s: string, drop: char -> bool)
    ensures var t := TrimLeft(s, drop);
            (t == "" || !drop(t[0])) && (s != "" && !drop(s[|s| - 1]) ==> t != "" && t[|t| - 1] == s[|s| - 1]) &&
            forall c :: c in t ==> c in s
  {
    if s != "" && drop(s[0]) {
      TrimLeftHas(s[1..], drop);
    }
  }

  lemma {:induction false} TrimRightHas(s: string, drop: char -> bool)
    ensures var t := TrimRight(s, drop); t == "" || !drop(t[|t| - 1])
  {
    if s != "" && drop(s[|s| - 1]) {
      TrimRightHas(s[..|s| - 1], drop);
    }
  }

  lemma TrimIsLine(s: string)
    requires '\n' !in s
    ensures IsLine(Trim(s, IsSpaceOrAsterisk))
  {
    TrimRightHas(s, IsSpaceOrAsterisk);
    TrimLeftHas(TrimRight(s, IsSpaceOrAsterisk), IsSpaceOrAsterisk);
  }

  lemma {:induction false} LinesHaveNoBreak(text: string)
    ensures forall i :: 0 <= i < |Lines(text)| ==> '\n' !in Lines(text)[i]
    ensures text != "" ==> Lines(text) != []
    decreases |text|
  {
    hide FirstLine;
    if text != "" {
      LinesHaveNoBreak(OtherLines(text));
    }
  }

  lemma {:induction false} TrimmedAreLines(lines: seq<string>)
    requires forall i :: 0 <= i < |lines| ==> '\n' !in lines[i]
    ensures |TrimmedLines(lines)| == |lines| && forall l :: l in TrimmedLines(lines) ==> IsLine(l)
  {
    if lines != [] {
      TrimmedAreLines(lines[..|lines| - 1]);
      TrimIsLine(lines[|lines| - 1]);
    }
  }

  /** The lines of a comment are ready for the records of their tag lines. */
  lemma CommentLinesAreLines(comment: string)
    ensures forall l :: l in CommentLines(comment) ==> IsLine(l)
    ensures comment != "" ==> CommentLines(comment) != []
  {
    LinesHaveNoBreak(Unescaped(comment));
    TrimmedAreLines(Lines(Unescaped(comment)));
  }

  /** The line without the blanks and asterisks at its ends. */
  ghost predicate Stripped(raw: string, line: string) {
    Trimmed(line, IsSpaceOrAsterisk) &&
    exists a, b :: All(a, IsSpaceOrAsterisk) && All(b, IsSpaceOrAsterisk) && raw == a + line + b
  }

  lemma TrimStrips(s: string)
    ensures Stripped(s, Trim(s, IsSpaceOrAsterisk))
  {
    var a, b := TrimIs(s, IsSpaceOrAsterisk);
  }

  lemma {:induction false} TrimmedStrip(lines: seq<string>)
    ensures |TrimmedLines(lines)| == |lines|
    ensures forall i :: 0 <= i < |lines| ==> Stripped(lines[i], TrimmedLines(lines)[i])
  {
    hide Stripped, Trim;
    if lines != [] {
      TrimmedStrip(lines[..|lines| - 1]);
      TrimStrips(lines[|lines| - 1]);
    }
  }

  /** The comment's lines are those of its text, in order and stripped, and the text is lost nowhere else. */
  lemma CommentLinesCover(comment: string) returns (raw: seq<string>)
    ensures Text(raw) == Ended(Unescaped(comment)) && |raw| == |CommentLines(comment)|
    ensures forall i :: 0 <= i < |raw| ==> '\n' !in raw[i] && Stripped(raw[i], CommentLines(comment)[i])
  {
    hide Stripped, Unescaped;
    raw := Lines(Unescaped(comment));
    LinesGiveBack(Unescaped(comment));
    LinesHaveNoBreak(Unescaped(comment));
    TrimmedStrip(raw);
  }

  // ----- what the reader holds after some lines -----

  /** In the text before the first tag the buffer is that text; after it, the block begun last. */
  predicate Holds(d: Division, inTag: bool, doc: string, buffer: string, tags: seq<Tag>) {
    var n := |d.blocks|;
    inTag == (n > 0) &&
    if inTag then doc == Text(d.doc) && buffer == Text(d.blocks[n - 1]) && tags == Records(d.blocks[..n - 1])
    else doc == "" && buffer == Text(d.doc) && tags == []
  }

  function RecordIn(text: string): seq<Tag> {
    var joined := Trim(Spaced(text), IsSpace);
    if IsTagLine(joined) then [Matched(joined)] else []
  }

  lemma HoldsTag(d: Division, inTag: bool, doc: string, buffer: string, tags: seq<Tag>, line: string)
    requires Holds(d, inTag, doc, buffer, tags) && IsTagLine(line)
    ensures Holds(WithLine(d, line), true, if inTag then doc else buffer, line + "\n",
                  if inTag then tags + RecordIn(buffer) else tags)
  {
    var n, after := |d.blocks|, WithLine(d, line);
    assert after.blocks[..n] == d.blocks;
    TextMore([], line);
    assert [] + [line] == [line];
    hide Trim, Spaced, Text, IsTagLine;
    if inTag {
      assert Records(d.blocks) == tags + RecordIn(buffer);
    } else {
      assert d.blocks == [];
    }
  }

  lemma TextMore(lines: seq<string>, line: string)
    ensures Text(lines + [line]) == Text(lines) + line + "\n" && Text([]) == ""
  {
    assert (lines + [line])[..|lines|] == lines;
  }

  lemma HoldsOther(d: Division, inTag: bool, doc: string, buffer: string, tags: seq<Tag>, line: string)
    requires Holds(d, inTag, doc, buffer, tags) && !IsTagLine(line)
    ensures Holds(WithLine(d, line), inTag, doc, buffer + line + "\n", tags)
  {
    hide IsTagLine, Records;
    var n, after := |d.blocks|, WithLine(d, line);
    if inTag {
      TextMore(d.blocks[n - 1], line);
      assert after.blocks[..n - 1] == d.blocks[..n - 1];
    } else {
      TextMore(d.doc, line);
    }
  }

  lemma TrimmedMore(lines: seq<string>, i: nat)
    requires i < |lines|
    ensures TrimmedLines(lines[..i + 1]) == TrimmedLines(lines[..i]) + [Trim(lines[i], IsSpaceOrAsterisk)]
  {
    assert lines[..i + 1][..i] == lines[..i];
  }

  lemma HoldsNothing()
    ensures Holds(Divide([]), false, "", "", []) && TrimmedLines([]) == []
  {
  }

  lemma HoldsAtEnd(lines: seq<string>, inTag: bool, doc: string, buffer: string, tags: seq<Tag>)
    requires Holds(Divide(lines), inTag, doc, buffer, tags)
    ensures inTag ==>
              doc == Text(Divide(lines).doc) && tags + RecordIn(buffer) == Records(Divide(lines).blocks) && lines != []
    ensures !inTag ==> doc == "" && buffer == Text(Divide(lines).doc) && tags == [] == Records(Divide(lines).blocks)
    ensures !inTag ==> (buffer == "" <==> lines == [])
  {
    DivideDivides(lines);
    hide Trim, Spaced, IsTagLine;
  }

  class Reader {
    var available: bool
    var doc: string
    var tags: seq<Tag>

    constructor ()
      ensures !available && doc == "" && tags == []
    {
      available, doc, tags := false, "", [];
    }

    method Delete()
      modifies this
      ensures !available && doc == "" && tags == []
    {
      available, doc, tags := false, "", [];
    }

    method ParseTag(text: string)
      modifies `tags
      ensures tags == old(tags) + RecordIn(text)
    {
      var line := Trim(Spaced(text), IsSpace);
      if IsTagLine(line) {
        tags := tags + [Matched(line)];
      }
    }

    /** Reading the lines leaves the text and the records of the one division of the lines; it fails,
        leaving nothing, exactly when there are no lines. */
    method ReadComment(lines: seq<string>) returns (ok: bool)
      requires doc == "" && tags == []
      modifies `doc, `tags
      ensures ok <==> lines != []
      ensures doc == Text(Divide(TrimmedLines(lines)).doc) && tags == Records(Divide(TrimmedLines(lines)).blocks)
    {
      hide *;
      var inTag, buffer := false, "";
      HoldsNothing();
      var i := 0;
      assert lines[..0] == [];
      while i < |lines|
        invariant 0 <= i <= |lines|
        invariant Holds(Divide(TrimmedLines(lines[..i])), inTag, doc, buffer, tags)
      {
        var line := Trim(lines[i], IsSpaceOrAsterisk);
        ghost var done := TrimmedLines(lines[..i]);
        TrimmedMore(lines, i);
        DivideOneMore(done, line);
        if IsTagLine(line) {
          HoldsTag(Divide(done), inTag, doc, buffer, tags, line);
          if inTag {
            ParseTag(buffer);
          } else {
            inTag, doc := true, buffer;
          }
          buffer := line + "\n";
        } else {
          HoldsOther(Divide(done), inTag, doc, buffer, tags, line);
          buffer := buffer + line + "\n";
        }
        i := i + 1;
      }
      assert lines[..i] == lines;
      HoldsAtEnd(TrimmedLines(lines), inTag, doc, buffer, tags);
      SomeLines(lines);
      if inTag {
        ParseTag(buffer);
      } else {
        if buffer == "" {
          return false;
        }
        doc := buffer;
      }
      ok := true;
    }

    /** A comment replaces the one before; an empty one only removes it. */
    method Parse(comment: Option<string>)
      modifies this
      ensures available <==> comment.Some? && comment.value != ""
      ensures available ==>
                var d := Divide(CommentLines(comment.value));
                doc == Text(d.doc) && tags == Records(d.blocks) &&
                |tags| == |d.blocks| == |TagLines(CommentLines(comment.value))| &&
                forall i :: 0 <= i < |tags| ==> HeadOk(d.blocks[i]) && RecordOf(tags[i], d.blocks[i])
    {
      hide *;
      Delete();
      if comment == None || comment.value == "" {
        return;
      }
      CommentLinesAreLines(comment.value);
      CommentLinesIs(comment.value);
      OneRecordPerTagLine(CommentLines(comment.value));
      SomeLines(Lines(Unescaped(comment.value)));
      available := ReadComment(Lines(Unescaped(comment.value)));
    }

    /** The first record with the name and, when one is asked for, the argument. */
    method GetTag(name: string, arg1: Option<string>) returns (t: Option<Tag>)
      ensures t.Some? ==> available && IsFirst(tags, t.value, name, arg1)
      ensures t.None? ==> !available || forall j :: 0 <= j < |tags| ==> !Answers(tags[j], name, arg1)
    {
      if !available {
        return None;
      }
      var i := 0;
      while i < |tags|
        invariant 0 <= i <= |tags|
        invariant forall j :: 0 <= j < i ==> !Answers(tags[j], name, arg1)
      {
        if tags[i].name == name && (arg1 == None || tags[i].arg1 == arg1.value) {
          return Some(tags[i]);
        }
        i := i + 1;
      }
      t := None;
    }
  }

  /** The record is in the list, answers, and none ahead of it does. */
  ghost predicate IsFirst(tags: seq<Tag>, t: Tag, name: string, arg1: Option<string>) {
    exists i :: 0 <= i < |tags| && tags[i] == t && Answers(tags[i], name, arg1) &&
                forall j :: 0 <= j < i ==> !Answers(tags[j], name, arg1)
  }

  predicate Answers(t: Tag, name: string, arg1: Option<string>) {
    t.name == name && (arg1 == None || Some(t.arg1) == arg1)
  }

  lemma SomeLines(lines: seq<string>)
    ensures TrimmedLines(lines) == [] <==> lines == []
  {
  }

  lemma CommentLinesIs(comment: string)
    ensures CommentLines(comment) == TrimmedLines(Lines(Unescaped(comment)))
  {
  }
}
