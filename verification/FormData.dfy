/** Multipart bodies as section 5.1.1 of RFC 2046 writes them, and what the upload parser makes of
    every one of them. */
module FormData {
  import opened Bytes
  import opened Wrappers
  import opened Multipart

  const DASHES: Bytes := "--"

  /** The boundary of the content type and the line ending in use: CRLF, or LF alone. */
  datatype Syntax = Syntax(boundary: Bytes, eol: Bytes)

  /** One body part.  `padding` follows the boundary on the delimiter line, `disposition` and
      `contentType` are what follows the two header names, `extra` holds any further header lines. */
  datatype Part = Part(padding: Bytes, disposition: Bytes, contentType: Option<Bytes>, extra: Bytes,
          body: Option<Bytes>)

  /** Without an epilogue the close delimiter line has no line ending and is the end of the data. */
  datatype Form = Form(preamble: Bytes, parts: seq<Part>, closePadding: Bytes, epilogue: Option<Bytes>)

  // ----- writing a form -----

  function DelimiterLine(x: Syntax, p: Part): Bytes { DASHES + x.boundary + p.padding + x.eol }

  function DispositionLine(x: Syntax, p: Part): Bytes { DISPOSITION + p.disposition + x.eol }

  function TypeLine(x: Syntax, p: Part): Bytes {
    match p.contentType
    case None => []
    case Some(t) => TYPE + t + x.eol
  }

  /** The blank line and the body; the last line ending belongs to the delimiter that follows. */
  function BlankLineAndBody(x: Syntax, p: Part): Bytes {
    match p.body
    case None => x.eol
    case Some(t) => x.eol + (t + x.eol)
  }

  function AfterDisposition(x: Syntax, p: Part): Bytes { TypeLine(x, p) + (p.extra + BlankLineAndBody(x, p)) }

  function PartText(x: Syntax, p: Part): Bytes { DispositionLine(x, p) + AfterDisposition(x, p) }

  function CloseLine(x: Syntax, f: Form): Bytes {
    DASHES + x.boundary + DASHES + f.closePadding + (if f.epilogue.Some? then x.eol else [])
  }

  function Epilogue(f: Form): Bytes { if f.epilogue.Some? then f.epilogue.value else [] }

  function PartsText(x: Syntax, f: Form, i: nat): Bytes
    requires i <= |f.parts|
    decreases |f.parts| - i
  {
    if i == |f.parts| then CloseLine(x, f) + Epilogue(f)
    else DelimiterLine(x, f.parts[i]) + (PartText(x, f.parts[i]) + PartsText(x, f, i + 1))
  }

  function FormText(x: Syntax, f: Form): Bytes { f.preamble + PartsText(x, f, 0) }

  // ----- tokens only where the grammar puts them -----

  predicate SyntaxOk(x: Syntax) {
    x.boundary != [] && LF !in x.boundary && (x.eol == [LF] || x.eol == [CR, LF])
  }

  ghost predicate OnlyAt(s: Bytes, n: Bytes, k: int) {
    forall i :: OccursAt(s, n, i) ==> i == k
  }

  ghost predicate BoundaryLineOk(line: Bytes, x: Syntax) {
    OnlyAt(line, x.boundary, 2) && !Occurs(line, DISPOSITION)
  }

  ghost predicate PartOk(x: Syntax, p: Part) {
    LF !in p.padding && LF !in p.disposition && (p.contentType.Some? ==> LF !in p.contentType.value) &&
    (p.extra != [] ==> |p.extra| >= 3 && LF !in p.extra[..2] && Closed(p.extra)) &&
    BoundaryLineOk(DelimiterLine(x, p), x) &&
    !Occurs(PartText(x, p), x.boundary) &&
    OnlyAt(PartText(x, p), DISPOSITION, 0)
  }

  /** A part with both headers (and a body): what the upload is after. */
  predicate IsFile(p: Part) { p.contentType.Some? && p.body.Some? }

  /** A part ahead of the file: it has no Content-Type, and the text does not mention one. */
  ghost predicate IsField(x: Syntax, p: Part) { p.contentType == None && !Occurs(AfterDisposition(x, p), TYPE) }

  /** A part behind the file may have a Content-Type, only not inside its Content-Disposition line. */
  ghost predicate IsLater(x: Syntax, p: Part) { !Occurs(DispositionLine(x, p), TYPE) }

  ghost predicate FormOk(x: Syntax, f: Form) {
    SyntaxOk(x) &&
    Closed(f.preamble) && !Occurs(f.preamble, x.boundary) && !Occurs(f.preamble, DISPOSITION) &&
    (forall p :: p in f.parts ==> PartOk(x, p)) &&
    LF !in f.closePadding && BoundaryLineOk(CloseLine(x, f), x) &&
    !Occurs(Epilogue(f), x.boundary) && !Occurs(Epilogue(f), DISPOSITION) && !Occurs(Epilogue(f), TYPE)
  }

  /** `k` is the first part with both headers. */
  ghost predicate FirstFile(x: Syntax, f: Form, k: nat) {
    k < |f.parts| && IsFile(f.parts[k]) &&
    (forall i :: 0 <= i < k ==> IsField(x, f.parts[i])) &&
    (forall i :: k < i < |f.parts| ==> IsLater(x, f.parts[i]))
  }

  // ----- single steps on a buffer that is split at line breaks -----

  lemma LineStartAtSplit(x: Bytes, y: Bytes, d: nat)
    requires Closed(x) && d < |y|
    ensures LineStart(x + y, |x| + d) == |x| + LineStart(y, d)
  {
    if y[d] != LF {
      AfterBreakAtSplit(x, y, d);
    }
  }

  lemma {:induction false} AfterBreakAtSplit(x: Bytes, y: Bytes, k: nat)
    requires Closed(x) && k <= |y|
    ensures AfterBreak(x + y, |x| + k) == |x| + AfterBreak(y, k)
  {
    hide Find;
    if k > 0 {
      AfterBreakAtSplit(x, y, k - 1);
    }
  }

  lemma LineEndAtSplit(x: Bytes, y: Bytes, d: nat)
    requires d < |y|
    ensures LineEnd(x + y, |x| + d) == |x| + LineEnd(y, d)
  {
    FindBehind(x, y, [LF], d);
  }

  lemma LineEndOfLine(line: Bytes, rest: Bytes)
    requires line != [] && LF !in line[..|line| - 1] && (line[|line| - 1] == LF || rest == [])
    ensures LineEnd(line + rest, 0) == |line|
  {
    var y := line + rest;
    forall i | 0 <= i < |line| - 1 ensures y[i] != LF && !OccursAt(y, [LF], i) {
      assert y[i] == line[..|line| - 1][i];
    }
    if line[|line| - 1] == LF {
      FindIs(y, [LF], 0, |line| - 1);
    }
  }

  lemma CutBehind(x: Bytes, y: Bytes, pos: nat, len: nat)
    requires pos <= |y|
    ensures Cut(x + y, |x| + pos, len) == x + Cut(y, pos, len)
  {
    assert (x + y)[..|x| + pos] == x + y[..pos];
    if pos + len <= |y| {
      assert (x + y)[|x| + pos + len..] == y[pos + len..];
    }
  }

  /** Behind a closed prefix, the line removal does what it does on the rest alone. */
  lemma RemoveLineBehind(x: Bytes, y: Bytes, d: nat)
    requires Closed(x) && d < |y|
    ensures RemoveLine(x + y, |x| + d) == x + RemoveLine(y, d)
  {
    hide Find, AfterBreak, LineStart, LineEnd, Cut;
    LineStartAtSplit(x, y, d);
    var ls := LineStart(y, d);
    LineEndAtSplit(x, y, ls);
    CutBehind(x, y, ls, LineEnd(y, ls) - ls);
  }

  /** The first line of a buffer, found through any of its bytes but the break, disappears. */
  lemma RemoveFirstLine(line: Bytes, rest: Bytes, d: nat)
    requires d < |line| && LF !in line[..|line| - 1] && (line[|line| - 1] == LF || rest == [])
    requires d == 0 || line[d] != LF
    ensures RemoveLine(line + rest, d) == rest
  {
    LineStartOfLine(line, rest, d);
    LineEndOfLine(line, rest);
  }

  /** A line in the middle of a buffer, found through any of its bytes but the break, disappears. */
  lemma RemoveLineAtSplit(x: Bytes, line: Bytes, rest: Bytes, d: nat)
    requires Closed(x) && d < |line|
    requires LF !in line[..|line| - 1] && (line[|line| - 1] == LF || rest == [])
    requires d == 0 || line[d] != LF
    ensures RemoveLine(x + (line + rest), |x| + d) == x + rest
  {
    RemoveLineBehind(x, line + rest, d);
    RemoveFirstLine(line, rest, d);
  }

  lemma LineStartOfLine(line: Bytes, rest: Bytes, d: nat)
    requires d < |line| && LF !in line[..|line| - 1]
    requires d == 0 || line[d] != LF
    ensures LineStart(line + rest, d) == 0
  {
    hide AfterBreak;
    assert forall i :: 0 <= i < |line| - 1 ==> (line + rest)[i] == line[..|line| - 1][i];
  }

  /** In closed text the line removal does not look at what follows the text. */
  lemma RemoveLineBefore(m: Bytes, rest: Bytes, pos: nat)
    requires Closed(m) && pos < |m| && m[pos] != LF
    ensures RemoveLine(m + rest, pos) == RemoveLine(m, pos) + rest
  {
    hide Find, AfterBreak, RemoveLine;
    var head, line, tail := SplitAtLine(m, pos);
    assert m + rest == head + (line + (tail + rest));
    RemoveLineAtSplit(head, line, tail, pos - |head|);
    RemoveLineAtSplit(head, line, tail + rest, pos - |head|);
    assert head + tail + rest == head + (tail + rest);
  }

  lemma SplitAtLine(m: Bytes, pos: nat) returns (head: Bytes, line: Bytes, tail: Bytes)
    requires Closed(m) && pos < |m| && m[pos] != LF
    ensures m == head + (line + tail) && Closed(head) && Closed(tail)
    ensures |head| <= pos < |head| + |line| && line[pos - |head|] != LF
    ensures line[|line| - 1] == LF && LF !in line[..|line| - 1]
  {
    hide Find, AfterBreak;
    var ls := LineStart(m, pos);
    var le := LineEnd(m, pos);
    head, line, tail := m[..ls], m[ls..le], m[le..];
    assert line[..le - ls - 1] == m[ls..pos] + m[pos..le - 1];
  }

  /** Removing one whole line leaves a closed text closed and brings no new token about. */
  lemma RemoveLineKeeps(m: Bytes, pos: nat, n: Bytes)
    requires Closed(m) && pos < |m| && m[pos] != LF && n != [] && LF !in n && !Occurs(m, n)
    ensures Closed(RemoveLine(m, pos)) && !Occurs(RemoveLine(m, pos), n)
  {
    hide Find, AfterBreak, RemoveLine;
    var head, line, tail := SplitAtLine(m, pos);
    RemoveLineAtSplit(head, line, tail, pos - |head|);
    OccursInConcat(head, line + tail, n);
    OccursInConcat(line, tail, n);
    OccursInConcat(head, tail, n);
  }

  // ----- what follows a part: `rest` starts with "--boundary" -----

  /** The rest of a form: two dashes, the boundary, and nothing that could be a token before it. */
  ghost predicate StartsWithDelimiter(rest: Bytes, x: Syntax) {
    |rest| >= 2 && rest[..2] == DASHES && Find(rest, x.boundary, 0) == 2
  }

  lemma TokenNotAtDelimiter(rest: Bytes, x: Syntax, token: Bytes)
    requires StartsWithDelimiter(rest, x) && (token == DISPOSITION || token == TYPE)
    ensures Find(rest, token, 0) == -1 || Find(rest, token, 0) >= 2
  {
    var r := Find(rest, token, 0);
    if r != -1 {
      assert rest[r..r + |token|][0] == rest[r] == 'C';
      assert rest[0] == rest[..2][0] == '-' && rest[1] == rest[..2][1] == '-';
    }
  }

  /** A token search from inside closed text `m` that is followed by a delimiter: either it hits in
      `m`, or the line-removal sees nothing before the next boundary. */
  lemma RemoveLineWithAtSplit(x: Syntax, kept: Bytes, m: Bytes, rest: Bytes, d: nat, token: Bytes)
    requires SyntaxOk(x) && Closed(kept) && Closed(m) && d <= |m|
    requires !Occurs(m, x.boundary) && StartsWithDelimiter(rest, x)
    requires token == DISPOSITION || token == TYPE
    ensures RemoveLineWith(kept + (m + rest), |kept| + d, x.boundary, token) ==
            if Find(m, token, d) == -1 then Some((false, kept + (m + rest)))
            else Some((true, kept + (RemoveLine(m, Find(m, token, d)) + rest)))
  {
    hide Find, RemoveLine;
    var at := Find(m, token, d);
    FindsAtSplit(x, kept, m, rest, d, token);
    if at != -1 {
      assert m[at..at + |token|][0] == m[at] == 'C';
      RemoveLineBehind(kept, m + rest, at);
      RemoveLineBefore(m, rest, at);
    }
  }

  lemma FindsAtSplit(x: Syntax, kept: Bytes, m: Bytes, rest: Bytes, d: nat, token: Bytes)
    requires SyntaxOk(x) && Closed(kept) && Closed(m) && d <= |m|
    requires !Occurs(m, x.boundary) && StartsWithDelimiter(rest, x)
    requires token == DISPOSITION || token == TYPE
    ensures Find(kept + (m + rest), x.boundary, |kept| + d) == |kept| + |m| + 2
    ensures var at := Find(kept + (m + rest), token, |kept| + d);
            if Find(m, token, d) == -1 then at == -1 || at >= |kept| + |m| + 2 else at == |kept| + Find(m, token, d)
  {
    hide Find;
    FindBehind(kept, m + rest, x.boundary, d);
    FindInConcat(m, rest, x.boundary, d);
    FindBehind(kept, m + rest, token, d);
    FindInConcat(m, rest, token, d);
    TokenNotAtDelimiter(rest, x, token);
  }

  lemma CutHead(m: Bytes, rest: Bytes)
    requires |rest| >= 2
    ensures Cut(m + rest, 0, |m| + 2) == rest[2..]
  {
  }

  lemma RemovePartAtSplit(x: Syntax, kept: Bytes, m: Bytes, rest: Bytes, d: nat)
    requires SyntaxOk(x) && Closed(kept) && Closed(m) && d <= |m|
    requires !Occurs(m, x.boundary) && StartsWithDelimiter(rest, x)
    requires LineStart(m + rest, d) == 0
    ensures |rest| >= 2 && RemovePart(kept + (m + rest), |kept| + d, x.boundary) == kept + rest[2..]
  {
    hide Find;
    hide Find, Cut, AfterBreak, LineStart, StartsWithDelimiter;
    FindsAtSplit(x, kept, m, rest, d, TYPE);
    LineStartAtSplit(kept, m + rest, d);
    CutBehind(kept, m + rest, 0, |m| + 2);
    CutHead(m, rest);
  }

  // ----- the texts of one part -----

  /** A line: some text without a break, then the line ending. */
  lemma LineShape(text: Bytes, eol: Bytes)
    requires LF !in text && |text| > 2 && (eol == [LF] || eol == [CR, LF])
    ensures var l := text + eol;
            |l| > |text| && l[|l| - 1] == LF && LF !in l[..|l| - 1] && l[2] != LF && l[..2] == text[..2]
  {
    var l := text + eol;
    assert l[..|l| - 1] == text + eol[..|eol| - 1];
  }

  lemma TokenLineShape(token: Bytes, text: Bytes, eol: Bytes)
    requires LF !in token && LF !in text && |token| > 2 && (eol == [LF] || eol == [CR, LF])
    ensures var l := token + text + eol;
            |l| > |token| && l[|l| - 1] == LF && LF !in l[..|l| - 1] && l[2] != LF && OccursAt(l, token, 0)
  {
    LineShape(token + text, eol);
    var l := token + text + eol;
    assert l[0..0 + |token|] == token;
  }

  lemma LineShapes(x: Syntax, p: Part)
    requires SyntaxOk(x) && PartOk(x, p)
    ensures var l := DelimiterLine(x, p);
            |l| > 3 && l[|l| - 1] == LF && LF !in l[..|l| - 1] && l[2] != LF && l[..2] == DASHES
    ensures var l := DispositionLine(x, p);
            |l| > 19 && l[|l| - 1] == LF && LF !in l[..|l| - 1] && l[2] != LF && OccursAt(l, DISPOSITION, 0)
    ensures p.contentType.Some? ==> var l := TypeLine(x, p);
            |l| > 12 && l[|l| - 1] == LF && LF !in l[..|l| - 1] && OccursAt(l, TYPE, 0)
  {
    hide *;
    assert SyntaxOk(x);
    assert LF !in p.padding && LF !in p.disposition && (p.contentType.Some? ==> LF !in p.contentType.value) by {
      NoBreaks(x, p);
    }
    DelimiterShape(x, p);
    DispositionShape(x, p);
    if p.contentType.Some? {
      TypeShape(x, p);
    }
  }

  lemma NoBreaks(x: Syntax, p: Part)
    requires PartOk(x, p)
    ensures LF !in p.padding && LF !in p.disposition && (p.contentType.Some? ==> LF !in p.contentType.value)
  {
  }

  lemma DelimiterShape(x: Syntax, p: Part)
    requires SyntaxOk(x) && LF !in p.padding
    ensures var l := DelimiterLine(x, p);
            |l| > 3 && l[|l| - 1] == LF && LF !in l[..|l| - 1] && l[2] != LF && l[..2] == DASHES
  {
    LineShape(DASHES + x.boundary + p.padding, x.eol);
  }

  lemma DispositionShape(x: Syntax, p: Part)
    requires SyntaxOk(x) && LF !in p.disposition
    ensures var l := DispositionLine(x, p);
            |l| > 19 && l[|l| - 1] == LF && LF !in l[..|l| - 1] && l[2] != LF && OccursAt(l, DISPOSITION, 0)
  {
    TokenLineShape(DISPOSITION, p.disposition, x.eol);
  }

  lemma TypeShape(x: Syntax, p: Part)
    requires SyntaxOk(x) && p.contentType.Some? && LF !in p.contentType.value
    ensures var l := TypeLine(x, p);
            |l| > 12 && l[|l| - 1] == LF && LF !in l[..|l| - 1] && OccursAt(l, TYPE, 0)
  {
    TokenLineShape(TYPE, p.contentType.value, x.eol);
  }

  lemma ClosedConcat(a: Bytes, b: Bytes)
    requires Closed(a) && Closed(b)
    ensures Closed(a + b)
  {
    if b == [] {
      assert a + b == a;
    }
  }

  lemma PartIsClosed(x: Syntax, p: Part)
    requires SyntaxOk(x) && PartOk(x, p)
    ensures Closed(DelimiterLine(x, p)) && Closed(DispositionLine(x, p)) && Closed(TypeLine(x, p))
    ensures Closed(BlankLineAndBody(x, p)) && Closed(p.extra + BlankLineAndBody(x, p))
    ensures Closed(AfterDisposition(x, p)) && Closed(PartText(x, p))
  {
    LineShapes(x, p);
    ClosedConcat(p.extra, BlankLineAndBody(x, p));
    ClosedConcat(TypeLine(x, p), p.extra + BlankLineAndBody(x, p));
    ClosedConcat(DispositionLine(x, p), AfterDisposition(x, p));
  }

  lemma PartFacts(x: Syntax, p: Part)
    requires SyntaxOk(x) && PartOk(x, p)
    ensures Find(PartText(x, p), DISPOSITION, 0) == 0 && Find(PartText(x, p), DISPOSITION, 2) == -1
    ensures RemoveLine(PartText(x, p), 0) == AfterDisposition(x, p)
    ensures !Occurs(DispositionLine(x, p), x.boundary) && !Occurs(AfterDisposition(x, p), x.boundary)
    ensures !Occurs(PartText(x, p), x.boundary)
  {
    hide Find, RemoveLine, AfterDisposition;
    LineShapes(x, p);
    PartIsClosed(x, p);
    var c := DispositionLine(x, p);
    OccursInConcat(c, AfterDisposition(x, p), x.boundary);
    OccurrenceInConcat(c, AfterDisposition(x, p), DISPOSITION, 0);
    FindIs(PartText(x, p), DISPOSITION, 0, 0);
    FindNothing(PartText(x, p), DISPOSITION, 2);
    RemoveFirstLine(c, AfterDisposition(x, p), 0);
  }

  /** One turn, put together from its three removals. */
  lemma StepIs(s: Bytes, pos: nat, boundary: Bytes, found: bool, s1: Bytes, r2: (bool, Bytes), r3: (bool, Bytes))
    requires pos < |s| && RemoveLine(s, pos) == s1
    requires RemoveLineWith(s1, pos, boundary, DISPOSITION) == Some(r2)
    requires RemoveLineWith(r2.1, pos, boundary, TYPE) == Some(r3)
    ensures Step(s, pos, boundary, found) ==
            if r2.0 && r3.0 && !found then Some((RemoveBlankLine(r3.1, pos), true))
            else Some((RemovePart(r3.1, pos, boundary), found))
  {
    hide RemoveLine, RemoveLineWith, RemovePart, RemoveBlankLine;
  }

  lemma LoopTurn(s: Bytes, boundary: Bytes, found: bool, pos: nat, next: (Bytes, bool))
    requires pos < |s| && Find(s, boundary, 0) == pos && Step(s, pos, boundary, found) == Some(next)
    ensures Loop(s, boundary, found) == Loop(next.0, boundary, next.1)
  {
    hide Find, Step;
  }

  // ----- one turn of the driver loop, by the kind of part it meets -----

  lemma EmptyPrefix(s: Bytes)
    ensures [] + s == s && Closed([])
  {
  }

  lemma FieldHasNoType(x: Syntax, p: Part)
    requires IsField(x, p)
    ensures Find(AfterDisposition(x, p), TYPE, 0) == -1
  {
    hide Find, AfterDisposition;
  }

  /** A field ahead of the file disappears together with the dashes of the next delimiter. */
  lemma FieldStep(x: Syntax, p: Part, rest: Bytes)
    requires SyntaxOk(x) && PartOk(x, p) && IsField(x, p) && StartsWithDelimiter(rest, x)
    ensures Step(DelimiterLine(x, p)[2..] + (PartText(x, p) + rest), 0, x.boundary, false) == Some((rest[2..], false))
  {
    hide *;
    LineShapes(x, p);
    PartIsClosed(x, p);
    PartFacts(x, p);
    var d, e, m := DelimiterLine(x, p), PartText(x, p), AfterDisposition(x, p);
    assert d[2..][..|d| - 3] == d[..|d| - 1][2..];
    RemoveFirstLine(d[2..], e + rest, 0);
    EmptyPrefix(e + rest);
    EmptyPrefix(m + rest);
    RemoveLineWithAtSplit(x, [], e, rest, 0, DISPOSITION);
    FieldHasNoType(x, p);
    RemoveLineWithAtSplit(x, [], m, rest, 0, TYPE);
    StepIs(d[2..] + (e + rest), 0, x.boundary, false, e + rest, (true, m + rest), (false, m + rest));
    RemovePartAtSplit(x, [], m, rest, 0);
    EmptyPrefix(rest[2..]);
  }

  /** What the file part leaves in the buffer. */
  function FileText(x: Syntax, p: Part): Bytes
    requires IsFile(p)
  {
    if p.extra == [] then p.body.value + x.eol else p.extra + (x.eol + (p.body.value + x.eol))
  }

  lemma BlankLineStep(x: Syntax, p: Part, rest: Bytes)
    requires SyntaxOk(x) && PartOk(x, p) && IsFile(p)
    ensures RemoveBlankLine((p.extra + BlankLineAndBody(x, p)) + rest, 0) == FileText(x, p) + rest
  {
    hide RemoveLine, Find, PartOk;
    if p.extra == [] {
      var t := p.body.value + x.eol;
      assert (p.extra + BlankLineAndBody(x, p)) + rest == x.eol + (t + rest);
      BlankLineGoes(x, t + rest);
    } else {
      assert |p.extra| >= 3 && LF !in p.extra[..2] by {
        PartExtra(x, p);
      }
      var m := p.extra + BlankLineAndBody(x, p);
      HeaderStays(p.extra, BlankLineAndBody(x, p) + rest);
      assert m + rest == p.extra + (BlankLineAndBody(x, p) + rest);
    }
  }

  lemma PartExtra(x: Syntax, p: Part)
    requires PartOk(x, p) && p.extra != []
    ensures |p.extra| >= 3 && LF !in p.extra[..2]
  {
  }

  lemma BlankLineGoes(x: Syntax, rest: Bytes)
    requires SyntaxOk(x)
    ensures RemoveBlankLine(x.eol + rest, 0) == rest
  {
    hide RemoveLine, Find;
    var s := x.eol + rest;
    var k := |x.eol| - 1;
    assert s[k..k + 1] == [LF];
    forall i | 0 <= i < k ensures !OccursAt(s, [LF], i) {
      assert s[i..i + 1][0] == s[i] == CR;
    }
    FindIs(s, [LF], 0, k);
    RemoveFirstLine(x.eol, rest, 0);
  }

  lemma HeaderStays(header: Bytes, rest: Bytes)
    requires |header| >= 3 && LF !in header[..2]
    ensures RemoveBlankLine(header + rest, 0) == header + rest
  {
    hide RemoveLine, Find;
    var s := header + rest;
    assert forall i :: 0 <= i < 2 ==> s[i] == header[..2][i];
    assert forall i :: OccursAt(s, [LF], i) ==> s[i..i + |[LF]|][0] == s[i] == LF;
  }

  lemma TypeLineGoes(x: Syntax, p: Part)
    requires SyntaxOk(x) && PartOk(x, p) && IsFile(p)
    ensures Find(AfterDisposition(x, p), TYPE, 0) == 0
    ensures RemoveLine(AfterDisposition(x, p), 0) == p.extra + BlankLineAndBody(x, p)
  {
    hide Find, RemoveLine, TypeLine, BlankLineAndBody;
    var n := p.extra + BlankLineAndBody(x, p);
    LineShapes(x, p);
    OccurrenceInConcat(TypeLine(x, p), n, TYPE, 0);
    FindIs(AfterDisposition(x, p), TYPE, 0, 0);
    RemoveFirstLine(TypeLine(x, p), n, 0);
  }

  /** The file part loses its delimiter line, its two headers and the blank line. */
  lemma FileStep(x: Syntax, p: Part, rest: Bytes)
    requires SyntaxOk(x) && PartOk(x, p) && IsFile(p) && StartsWithDelimiter(rest, x)
    ensures Step(DelimiterLine(x, p)[2..] + (PartText(x, p) + rest), 0, x.boundary, false) ==
            Some((FileText(x, p) + rest, true))
  {
    hide *;
    LineShapes(x, p);
    PartIsClosed(x, p);
    PartFacts(x, p);
    var d, e, m := DelimiterLine(x, p), PartText(x, p), AfterDisposition(x, p);
    var n := p.extra + BlankLineAndBody(x, p);
    assert d[2..][..|d| - 3] == d[..|d| - 1][2..];
    RemoveFirstLine(d[2..], e + rest, 0);
    EmptyPrefix(e + rest);
    EmptyPrefix(m + rest);
    EmptyPrefix(n + rest);
    RemoveLineWithAtSplit(x, [], e, rest, 0, DISPOSITION);
    TypeLineGoes(x, p);
    RemoveLineWithAtSplit(x, [], m, rest, 0, TYPE);
    StepIs(d[2..] + (e + rest), 0, x.boundary, false, e + rest, (true, m + rest), (true, n + rest));
    BlankLineStep(x, p, rest);
  }

  /** Removing a stray Content-Type line behind the file neither opens the text nor adds a boundary. */
  lemma TypeRemoval(x: Syntax, m: Bytes, d: nat) returns (n: Bytes)
    requires SyntaxOk(x) && Closed(m) && !Occurs(m, x.boundary) && d <= |m|
    ensures n == if Find(m, TYPE, d) == -1 then m else RemoveLine(m, Find(m, TYPE, d))
    ensures Closed(n) && !Occurs(n, x.boundary)
  {
    hide Find, RemoveLine;
    n := m;
    var at := Find(m, TYPE, d);
    if at != -1 {
      assert m[at] == m[at..at + |TYPE|][0] == 'C';
      RemoveLineKeeps(m, at, x.boundary);
      n := RemoveLine(m, at);
    }
  }

  /** A part behind the file that was reached on its line start disappears. */
  lemma LaterStepAligned(x: Syntax, kept: Bytes, p: Part, rest: Bytes)
    requires SyntaxOk(x) && PartOk(x, p) && StartsWithDelimiter(rest, x) && Closed(kept)
    ensures Step(kept + (DelimiterLine(x, p)[2..] + (PartText(x, p) + rest)), |kept|, x.boundary, true) ==
            Some((kept + rest[2..], true))
  {
    hide *;
    LineShapes(x, p);
    PartIsClosed(x, p);
    PartFacts(x, p);
    var d, e, m := DelimiterLine(x, p), PartText(x, p), AfterDisposition(x, p);
    assert d[2..][..|d| - 3] == d[..|d| - 1][2..];
    RemoveLineAtSplit(kept, d[2..], e + rest, 0);
    RemoveLineWithAtSplit(x, kept, e, rest, 0, DISPOSITION);
    RemoveLineWithAtSplit(x, kept, m, rest, 0, TYPE);
    var n := TypeRemoval(x, m, 0);
    StepIs(kept + (d[2..] + (e + rest)), |kept|, x.boundary, true, kept + (e + rest),
           (true, kept + (m + rest)), (Find(m, TYPE, 0) != -1, kept + (n + rest)));
    RemovePartAtSplit(x, kept, n, rest, 0);
  }

  lemma NoLaterType(x: Syntax, p: Part)
    requires IsLater(x, p)
    ensures Find(DispositionLine(x, p), TYPE, 2) == -1
  {
    hide Find, DispositionLine;
  }

  /** A search that starts inside the Content-Disposition line leaves that line alone. */
  lemma StaleTypeRemoval(x: Syntax, p: Part, rest: Bytes) returns (n: Bytes)
    requires SyntaxOk(x) && PartOk(x, p) && IsLater(x, p)
    ensures var e := PartText(x, p);
            n == if Find(e, TYPE, 2) == -1 then e else RemoveLine(e, Find(e, TYPE, 2))
    ensures Closed(n) && |n| >= 2 && !Occurs(n, x.boundary) && LineStart(n + rest, 2) == 0
  {
    hide Find, RemoveLine, AfterDisposition, LineStart, DispositionLine, PartOk, Occurs;
    LineShapes(x, p);
    PartIsClosed(x, p);
    PartFacts(x, p);
    assert Find(DispositionLine(x, p), TYPE, 2) == -1 by {
      NoLaterType(x, p);
    }
    var m, c := AfterDisposition(x, p), DispositionLine(x, p);
    FindInConcat(c, m, TYPE, 2);
    var y := TypeRemoval(x, m, 0);
    var at := Find(m, TYPE, 0);
    if at != -1 {
      RemoveLineBehind(c, m, at);
    }
    n := c + y;
    ClosedConcat(c, y);
    OccursInConcat(c, y, x.boundary);
    LineStartOfLine(c, y + rest, 2);
    assert n + rest == c + (y + rest);
  }

  /** The part right behind the file is reached two bytes late; its Content-Disposition line is not
      seen as such, and the whole part disappears all the same. */
  lemma LaterStepStale(x: Syntax, kept: Bytes, p: Part, rest: Bytes)
    requires SyntaxOk(x) && PartOk(x, p) && IsLater(x, p) && StartsWithDelimiter(rest, x) && Closed(kept)
    ensures Step(kept + (DelimiterLine(x, p) + (PartText(x, p) + rest)), |kept| + 2, x.boundary, true) ==
            Some((kept + rest[2..], true))
  {
    hide *;
    LineShapes(x, p);
    PartIsClosed(x, p);
    PartFacts(x, p);
    var d, e := DelimiterLine(x, p), PartText(x, p);
    RemoveLineAtSplit(kept, d, e + rest, 2);
    var n := StaleTypeRemoval(x, p, rest);
    RemoveLineWithAtSplit(x, kept, e, rest, 2, DISPOSITION);
    RemoveLineWithAtSplit(x, kept, e, rest, 2, TYPE);
    StepIs(kept + (d + (e + rest)), |kept| + 2, x.boundary, true, kept + (e + rest),
           (false, kept + (e + rest)), (Find(e, TYPE, 2) != -1, kept + (n + rest)));
    RemovePartAtSplit(x, kept, n, rest, 2);
  }

  // ----- the close delimiter and the whole form -----

  /** The epilogue bytes that survive when the close delimiter directly follows the file: the search
      for the line start begins two bytes into the epilogue. */
  function KeptEpilogue(e: Bytes): (r: Bytes)
    ensures r <= e
  {
    if |e| <= 2 then e else e[..LineStart(e, 2)]
  }

  lemma KeptEpilogueIsEmpty(e: Bytes)
    ensures KeptEpilogue(e) == [] <==> e == [] || (|e| >= 3 && LF !in e[..3])
  {
    hide AfterBreak;
    if |e| >= 3 {
      var ls := LineStart(e, 2);
      var k := if ls == 0 || e[2] == LF then 2 else ls - 1;
      assert e[..3][k] == e[k];
      assert ls == 0 ==> forall i :: 0 <= i < 2 ==> e[0..2][i] == e[i] == e[..3][i];
    }
  }

  lemma CloseFacts(x: Syntax, f: Form)
    requires FormOk(x, f)
    ensures var l := CloseLine(x, f);
            |l| > 2 && l[..2] == DASHES && l[2] != LF && LF !in l[..|l| - 1] &&
            (if f.epilogue.Some? then l[|l| - 1] == LF else Epilogue(f) == [])
    ensures StartsWithDelimiter(CloseLine(x, f) + Epilogue(f), x)
  {
    hide Find, PartOk, IsLater;
    var text := DASHES + x.boundary + DASHES + f.closePadding;
    var l := CloseLine(x, f);
    assert text[0..2] == DASHES && text[2..2 + |x.boundary|] == x.boundary && LF !in text;
    if f.epilogue.Some? {
      LineShape(text, x.eol);
    } else {
      assert l == text;
    }
    assert l[2..2 + |x.boundary|] == x.boundary;
    DelimiterFirst(x, l, Epilogue(f));
  }

  lemma DelimiterFirst(x: Syntax, line: Bytes, rest: Bytes)
    requires SyntaxOk(x) && (Closed(line) || rest == []) && |line| >= 2 && line[..2] == DASHES
    requires OccursAt(line, x.boundary, 2) && OnlyAt(line, x.boundary, 2)
    ensures StartsWithDelimiter(line + rest, x)
  {
    hide Find;
    FindIs(line, x.boundary, 0, 2);
    if rest == [] {
      assert line + rest == line;
    } else {
      FindInConcat(line, rest, x.boundary, 0);
    }
  }

  lemma RestStartsWithDelimiter(x: Syntax, f: Form, i: nat)
    requires FormOk(x, f) && i <= |f.parts|
    ensures StartsWithDelimiter(PartsText(x, f, i), x)
  {
    hide Find;
    if i == |f.parts| {
      CloseFacts(x, f);
    } else {
      var p := f.parts[i];
      LineShapes(x, p);
      var l := DelimiterLine(x, p);
      assert l[2..2 + |x.boundary|] == x.boundary;
      DelimiterFirst(x, l, PartText(x, p) + PartsText(x, f, i + 1));
    }
  }

  /** No token at or behind `d` in the epilogue, hence none in a buffer that ends in it. */
  lemma NothingBehind(kept: Bytes, e: Bytes, n: Bytes, d: nat)
    requires n != [] && !Occurs(e, n)
    ensures Find(kept + e, n, |kept| + d) == -1
  {
    hide Find;
    FindBehind(kept, e, n, d);
  }

  /** The turn that meets the close delimiter after the file; `d` is how late the line is reached. */
  lemma CloseStep(x: Syntax, f: Form, kept: Bytes, d: nat)
    requires FormOk(x, f) && Closed(kept) && kept != [] && (d == 0 || d == 2)
    ensures var l := CloseLine(x, f);
            |l| > 2 &&
            Step(kept + ((if d == 0 then l[2..] else l) + Epilogue(f)), |kept| + d, x.boundary, true) ==
            Some((kept + (if d == 0 then [] else KeptEpilogue(Epilogue(f))), true))
  {
    hide Find, RemoveLine, LineStart, KeptEpilogue, CloseLine;
    CloseFacts(x, f);
    var l, e := CloseLine(x, f), Epilogue(f);
    assert l[2..][..|l| - 3] == l[..|l| - 1][2..];
    RemoveLineAtSplit(kept, if d == 0 then l[2..] else l, e, d);
    NothingBehind(kept, e, x.boundary, d);
    NothingBehind(kept, e, DISPOSITION, d);
    NothingBehind(kept, e, TYPE, d);
    CloseRemoval(x, kept, e, d);
  }

  lemma CloseRemoval(x: Syntax, kept: Bytes, e: Bytes, d: nat)
    requires Closed(kept) && (d == 0 || d == 2) && Find(kept + e, x.boundary, |kept| + d) == -1
    ensures RemovePart(kept + e, |kept| + d, x.boundary) == kept + (if d == 0 then [] else KeptEpilogue(e))
  {
    hide Find;
    var s := kept + e;
    if d < |e| {
      LineStartAtSplit(kept, e, d);
      var ls := LineStart(e, d);
      CutBehind(kept, e, ls, |e| - ls);
      assert Cut(e, ls, |e| - ls) == e[..ls];
    } else {
      assert e != [] || s == kept + [];
    }
  }

  /** All the fields ahead of the file disappear. */
  lemma {:induction false} LoopOverFields(x: Syntax, f: Form, i: nat, k: nat)
    requires FormOk(x, f) && i <= k <= |f.parts|
    requires forall j :: 0 <= j < k ==> IsField(x, f.parts[j])
    ensures |PartsText(x, f, i)| >= 2 && |PartsText(x, f, k)| >= 2
    ensures Loop(PartsText(x, f, i)[2..], x.boundary, false) == Loop(PartsText(x, f, k)[2..], x.boundary, false)
    decreases k - i
  {
    hide *;
    EmptyPrefix([]);
    NothingInNothing(x, f);
    AlignedFind(x, f, [], i);
    EmptyPrefix(PartsText(x, f, i)[2..]);
    if i < k {
      LoopOverFields(x, f, i + 1, k);
      FormFacts(x, f, i);
      FieldStep(x, f.parts[i], PartsText(x, f, i + 1));
      LoopTurn(PartsText(x, f, i)[2..], x.boundary, false, 0, (PartsText(x, f, i + 1)[2..], false));
    }
  }

  lemma NothingInNothing(x: Syntax, f: Form)
    requires FormOk(x, f)
    ensures !Occurs([], x.boundary)
  {
  }

  lemma FormFacts(x: Syntax, f: Form, i: nat)
    requires FormOk(x, f) && i < |f.parts|
    ensures SyntaxOk(x) && PartOk(x, f.parts[i]) && StartsWithDelimiter(PartsText(x, f, i + 1), x)
    ensures |PartsText(x, f, i)| >= 2 && |PartsText(x, f, i + 1)| >= 2 && |DelimiterLine(x, f.parts[i])| >= 2
    ensures PartsText(x, f, i) ==
            DelimiterLine(x, f.parts[i]) + (PartText(x, f.parts[i]) + PartsText(x, f, i + 1))
    ensures PartsText(x, f, i)[2..] ==
            DelimiterLine(x, f.parts[i])[2..] + (PartText(x, f.parts[i]) + PartsText(x, f, i + 1))
  {
    hide Find, PartOk, BoundaryLineOk, OnlyAt, Occurs;
    RestStartsWithDelimiter(x, f, i);
    RestStartsWithDelimiter(x, f, i + 1);
  }

  /** Where the driver finds the next boundary when the delimiter's dashes are there or gone. */
  lemma AlignedFind(x: Syntax, f: Form, kept: Bytes, i: nat)
    requires FormOk(x, f) && i <= |f.parts| && Closed(kept) && !Occurs(kept, x.boundary)
    ensures |PartsText(x, f, i)| >= 2
    ensures Find(kept + PartsText(x, f, i), x.boundary, 0) == |kept| + 2
    ensures Find(kept + PartsText(x, f, i)[2..], x.boundary, 0) == |kept|
    ensures |x.boundary| > 0
  {
    hide Find, PartsText, FormOk;
    assert SyntaxOk(x) by {
      FormSyntax(x, f);
    }
    RestStartsWithDelimiter(x, f, i);
    var r := PartsText(x, f, i);
    FindInConcat(kept, r, x.boundary, 0);
    FindInConcat(kept, r[2..], x.boundary, 0);
    assert r == r[..2] + r[2..];
    FindBehind(r[..2], r[2..], x.boundary, 0);
    assert OccursAt(r, x.boundary, 2) && r[2..2 + |x.boundary|] == r[2..][0..0 + |x.boundary|];
    FindIs(r[2..], x.boundary, 0, 0);
  }

  lemma FormSyntax(x: Syntax, f: Form)
    requires FormOk(x, f)
    ensures SyntaxOk(x)
  {
  }

  /** From an aligned delimiter behind the file on, only the file's text stays. */
  lemma {:induction false} LoopAligned(x: Syntax, f: Form, kept: Bytes, i: nat)
    requires FormOk(x, f) && i <= |f.parts| && Closed(kept) && kept != [] && !Occurs(kept, x.boundary)
    ensures |PartsText(x, f, i)| >= 2 && Loop(kept + PartsText(x, f, i)[2..], x.boundary, true) == Some(kept)
    decreases |f.parts| - i
  {
    hide *;
    AlignedFind(x, f, kept, i);
    var s := kept + PartsText(x, f, i)[2..];
    if i == |f.parts| {
      CloseStep(x, f, kept, 0);
      CloseText(x, f);
      LoopTurn(s, x.boundary, true, |kept|, (kept + [], true));
      LoopEnds(kept + [], x.boundary);
      assert kept + [] == kept;
    } else {
      FormFacts(x, f, i);
      LaterStepAligned(x, kept, f.parts[i], PartsText(x, f, i + 1));
      LoopTurn(s, x.boundary, true, |kept|, (kept + PartsText(x, f, i + 1)[2..], true));
      LoopAligned(x, f, kept, i + 1);
    }
  }

  lemma CloseText(x: Syntax, f: Form)
    requires FormOk(x, f)
    ensures var l := CloseLine(x, f);
            |l| >= 2 && PartsText(x, f, |f.parts|) == l + Epilogue(f) &&
            PartsText(x, f, |f.parts|)[2..] == l[2..] + Epilogue(f)
  {
  }

  lemma LoopEnds(s: Bytes, boundary: Bytes)
    ensures !Occurs(s, boundary) ==> Loop(s, boundary, true) == Some(s)
  {
    hide Find;
  }

  /** Directly behind the file the position is two bytes late. */
  lemma LoopBehindFile(x: Syntax, f: Form, kept: Bytes, i: nat)
    requires FormOk(x, f) && i <= |f.parts| && Closed(kept) && kept != [] && !Occurs(kept, x.boundary)
    requires i < |f.parts| ==> IsLater(x, f.parts[i])
    ensures Loop(kept + PartsText(x, f, i), x.boundary, true) ==
            Some(kept + (if i == |f.parts| then KeptEpilogue(Epilogue(f)) else []))
  {
    hide *;
    AlignedFind(x, f, kept, i);
    var s := kept + PartsText(x, f, i);
    if i == |f.parts| {
      CloseStep(x, f, kept, 2);
      CloseText(x, f);
      LoopTurn(s, x.boundary, true, |kept| + 2, (kept + KeptEpilogue(Epilogue(f)), true));
      NoBoundaryLeft(x, f, kept);
      LoopEnds(kept + KeptEpilogue(Epilogue(f)), x.boundary);
    } else {
      FormFacts(x, f, i);
      LaterStepStale(x, kept, f.parts[i], PartsText(x, f, i + 1));
      LoopTurn(s, x.boundary, true, |kept| + 2, (kept + PartsText(x, f, i + 1)[2..], true));
      LoopAligned(x, f, kept, i + 1);
      assert kept + [] == kept;
    }
  }

  lemma PrefixOccurrence(k: Bytes, e: Bytes, n: Bytes)
    requires k <= e
    ensures Occurs(k, n) ==> Occurs(e, n)
  {
    forall i | OccursAt(k, n, i) ensures OccursAt(e, n, i) {
      assert k[i..i + |n|] == e[i..i + |n|];
    }
  }

  lemma NoBoundaryLeft(x: Syntax, f: Form, kept: Bytes)
    requires FormOk(x, f) && Closed(kept) && !Occurs(kept, x.boundary)
    ensures !Occurs(kept + KeptEpilogue(Epilogue(f)), x.boundary)
  {
    hide Find, PartOk;
    var e, k := Epilogue(f), KeptEpilogue(Epilogue(f));
    PrefixOccurrence(k, e, x.boundary);
    OccursInConcat(kept, k, x.boundary);
  }

  lemma FileTextFacts(x: Syntax, p: Part)
    requires SyntaxOk(x) && PartOk(x, p) && IsFile(p)
    ensures Closed(FileText(x, p)) && FileText(x, p) != [] && !Occurs(FileText(x, p), x.boundary)
  {
    hide Find, Occurs, PartOk, DelimiterLine, DispositionLine, TypeLine;
    PartIsClosed(x, p);
    PartFacts(x, p);
    var m := p.extra + BlankLineAndBody(x, p);
    OccursInConcat(TypeLine(x, p), m, x.boundary);
    FileTextShape(x, p);
    OccursInConcat(x.eol, FileText(x, p), x.boundary);
  }

  lemma FileTextShape(x: Syntax, p: Part)
    requires SyntaxOk(x) && IsFile(p)
    ensures Closed(FileText(x, p)) && FileText(x, p) != [] && Closed(x.eol)
    ensures p.extra + BlankLineAndBody(x, p) == (if p.extra == [] then x.eol + FileText(x, p) else FileText(x, p))
  {
  }

  /** What is left of the form before the final trim. */
  function Left(x: Syntax, f: Form, k: nat): Bytes
    requires k < |f.parts| && IsFile(f.parts[k])
  {
    FileText(x, f.parts[k]) + (if k + 1 == |f.parts| then KeptEpilogue(Epilogue(f)) else [])
  }

  lemma LoopOnForm(x: Syntax, f: Form, k: nat)
    requires FormOk(x, f) && FirstFile(x, f, k)
    ensures |PartsText(x, f, 0)| >= 2
    ensures Loop(PartsText(x, f, 0)[2..], x.boundary, false) == Some(Left(x, f, k))
  {
    hide Find, Step, Loop, PartsText, FileText, Epilogue, IsField, IsFile, IsLater, DelimiterLine, FormOk,
        StartsWithDelimiter;
    var p, rest := f.parts[k], PartsText(x, f, k + 1);
    LoopOverFields(x, f, 0, k);
    FormFacts(x, f, k);
    FileStep(x, p, rest);
    FileTextFacts(x, p);
    EmptyPrefix(PartsText(x, f, k)[2..]);
    AlignedFind(x, f, [], k);
    LoopTurn(PartsText(x, f, k)[2..], x.boundary, false, 0, (FileText(x, p) + rest, true));
    LoopBehindFile(x, f, FileText(x, p), k + 1);
  }
}
