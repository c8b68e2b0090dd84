/** The main results about uploads: what the parser leaves of a form, and exactly when that is the
    uploaded file. */
module UploadTheorem {
  import opened Bytes
  import opened Wrappers
  import opened Multipart
  import opened FormData

  // ----- the counts that the parser checks first -----

  lemma TokensHaveNoBreak(x: Syntax)
    requires SyntaxOk(x)
    ensures x.boundary != [] && LF !in x.boundary && DISPOSITION != [] && LF !in DISPOSITION
  {
  }

  lemma CountInDelimiter(x: Syntax, line: Bytes, tail: Bytes)
    requires SyntaxOk(x) && BoundaryLineOk(line, x) && line == DASHES + x.boundary + tail
    ensures Count(line, x.boundary) == 1 && Count(line, DISPOSITION) == 0
  {
    hide Count;
    assert line[2..2 + |x.boundary|] == x.boundary;
    CountOne(line, x.boundary, 2);
    CountNone(line, DISPOSITION);
  }

  lemma CountInPart(x: Syntax, p: Part)
    requires SyntaxOk(x) && PartOk(x, p)
    ensures Count(DelimiterLine(x, p), x.boundary) == 1 && Count(DelimiterLine(x, p), DISPOSITION) == 0
    ensures Count(PartText(x, p), x.boundary) == 0 && Count(PartText(x, p), DISPOSITION) == 1
  {
    hide Count, Occurs, AfterDisposition, Find;
    assert DelimiterLine(x, p) == DASHES + x.boundary + (p.padding + x.eol);
    CountInDelimiter(x, DelimiterLine(x, p), p.padding + x.eol);
    CountNone(PartText(x, p), x.boundary);
    PartFacts(x, p);
    CountOne(PartText(x, p), DISPOSITION, 0);
  }

  lemma CountInClose(x: Syntax, f: Form)
    requires FormOk(x, f)
    ensures Count(PartsText(x, f, |f.parts|), x.boundary) == 1
    ensures Count(PartsText(x, f, |f.parts|), DISPOSITION) == 0
  {
    hide Count, Occurs, OnlyAt, PartOk, Find;
    var l, e := CloseLine(x, f), Epilogue(f);
    var tail := DASHES + f.closePadding + (if f.epilogue.Some? then x.eol else []);
    assert l == DASHES + x.boundary + tail;
    CountInDelimiter(x, l, tail);
    CountNone(e, x.boundary);
    CountNone(e, DISPOSITION);
    CloseFacts(x, f);
    if f.epilogue.Some? {
      CountInConcat(l, e, x.boundary);
      CountInConcat(l, e, DISPOSITION);
    } else {
      assert l + e == l;
    }
  }

  lemma {:induction false} CountInParts(x: Syntax, f: Form, i: nat)
    requires FormOk(x, f) && i <= |f.parts|
    ensures Count(PartsText(x, f, i), x.boundary) == |f.parts| - i + 1
    ensures Count(PartsText(x, f, i), DISPOSITION) == |f.parts| - i
    decreases |f.parts| - i
  {
    hide *;
    if i == |f.parts| {
      CountInClose(x, f);
    } else {
      FormFacts(x, f, i);
      var p, rest := f.parts[i], PartsText(x, f, i + 1);
      CountInParts(x, f, i + 1);
      CountInPart(x, p);
      PartIsClosed(x, p);
      TokensHaveNoBreak(x);
      CountInConcat(DelimiterLine(x, p), PartText(x, p) + rest, x.boundary);
      CountInConcat(DelimiterLine(x, p), PartText(x, p) + rest, DISPOSITION);
      CountInConcat(PartText(x, p), rest, x.boundary);
      CountInConcat(PartText(x, p), rest, DISPOSITION);
    }
  }

  /** Every form passes the count check as soon as it has a part, and loses its preamble. */
  lemma FormStart(x: Syntax, f: Form)
    requires FormOk(x, f) && f.parts != []
    ensures |PartsText(x, f, 0)| >= 2
    ensures Parse(FormText(x, f), x.boundary) ==
            var rest := Loop(PartsText(x, f, 0)[2..], x.boundary, false);
            if rest == None then None else Some(TrimLineEnd(rest.value))
  {
    hide Find, Loop, TrimLineEnd, PartsText, PartOk, BoundaryLineOk, Count, Epilogue, CloseLine, Occurs;
    var s, r := FormText(x, f), PartsText(x, f, 0);
    AlignedFind(x, f, f.preamble, 0);
    CountInParts(x, f, 0);
    CountInConcat(f.preamble, r, x.boundary);
    CountInConcat(f.preamble, r, DISPOSITION);
    CountNone(f.preamble, x.boundary);
    CountNone(f.preamble, DISPOSITION);
    assert Cut(s, 0, |f.preamble| + 2) == r[2..];
  }

  // ----- what the parser leaves, and when it is the file -----

  /** Parsing succeeds on every form with a file part.  Left over is the text of that part's body,
      with any further header lines before it and, when the file is the last part, possibly the
      first bytes of the epilogue behind it. */
  lemma ParsedForm(x: Syntax, f: Form, k: nat)
    ensures FormOk(x, f) && FirstFile(x, f, k) ==>
              Parse(FormText(x, f), x.boundary) == Some(TrimLineEnd(Left(x, f, k)))
  {
    hide FormOk, Parse, FormText, Left, Loop, TrimLineEnd, PartsText, IsFile, IsField, IsLater;
    if FormOk(x, f) && FirstFile(x, f, k) {
      FormStart(x, f);
      LoopOnForm(x, f, k);
    }
  }

  /** The file has no header lines beyond the two, does not end in CR when lines end in LF alone,
      and no short line opens an epilogue that follows it directly. */
  predicate Clean(x: Syntax, f: Form, k: nat)
    requires k < |f.parts| && IsFile(f.parts[k])
  {
    var payload, e := f.parts[k].body.value, Epilogue(f);
    f.parts[k].extra == [] &&
    (x.eol == [LF] ==> payload == [] || payload[|payload| - 1] != CR) &&
    (k + 1 < |f.parts| || e == [] || (|e| >= 3 && LF !in e[..3]))
  }

  lemma TrimmedLeft(x: Syntax, f: Form, k: nat)
    requires SyntaxOk(x) && k < |f.parts| && IsFile(f.parts[k])
    requires f.parts[k].extra != [] ==> |f.parts[k].extra| >= 3
    ensures TrimLineEnd(Left(x, f, k)) == f.parts[k].body.value <==> Clean(x, f, k)
  {
    hide LineStart, Find;
    var p := f.parts[k];
    var e := if k + 1 == |f.parts| then KeptEpilogue(Epilogue(f)) else [];
    KeptEpilogueIsEmpty(Epilogue(f));
    var s := FileText(x, p) + e;
    if p.extra != [] {
      assert |s| >= |p.body.value| + 3 + 2 * |x.eol|;
    } else if e == [] {
      assert s == p.body.value + x.eol;
      TrimmedBody(p.body.value, x.eol);
    } else {
      TrimmedTail(p.body.value, x.eol, e);
    }
  }

  lemma TrimmedBody(payload: Bytes, eol: Bytes)
    requires eol == [LF] || eol == [CR, LF]
    ensures TrimLineEnd(payload + eol) == payload <==>
            (eol == [LF] ==> payload == [] || payload[|payload| - 1] != CR)
  {
    var s := payload + eol;
    var t := s[..|s| - 1];
    if eol == [LF] {
      assert t == payload;
    } else {
      assert t == payload + [CR];
      assert t[..|t| - 1] == payload;
    }
  }

  lemma TrimmedTail(payload: Bytes, eol: Bytes, e: Bytes)
    requires (eol == [LF] || eol == [CR, LF]) && e != []
    ensures TrimLineEnd(payload + eol + e) != payload
  {
    var s := payload + eol + e;
    var t := s[..|s| - 1];
    if |e| == 1 {
      assert t[|t| - 1] == LF;
    }
  }

  /** A form yields its file exactly when it is clean. */
  lemma UploadIsPayload(x: Syntax, f: Form, k: nat)
    ensures FormOk(x, f) && FirstFile(x, f, k) ==>
              (Parse(FormText(x, f), x.boundary) == Some(f.parts[k].body.value) <==> Clean(x, f, k))
  {
    hide Parse, FormText, Left, TrimLineEnd, Clean, BoundaryLineOk, Occurs, OnlyAt, IsField, IsLater, PartText;
    if FormOk(x, f) && FirstFile(x, f, k) {
      assert f.parts[k] in f.parts;
      ParsedForm(x, f, k);
      TrimmedLeft(x, f, k);
    }
  }

  // ----- forms without a file -----

  lemma CloseWithoutFile(x: Syntax, f: Form)
    requires FormOk(x, f)
    ensures |PartsText(x, f, |f.parts|)| >= 2
    ensures Loop(PartsText(x, f, |f.parts|)[2..], x.boundary, false) ==
            if Epilogue(f) == [] then None else Some([])
  {
    hide Find, RemoveLine, LineStart, CloseLine, Epilogue, PartsText, Occurs;
    CloseFacts(x, f);
    CloseText(x, f);
    var l, e := CloseLine(x, f), Epilogue(f);
    var s := l[2..] + e;
    EmptyPrefix(s);
    EmptyPrefix(e);
    NothingInNothing(x, f);
    AlignedFind(x, f, [], |f.parts|);
    assert l[2..][..|l| - 3] == l[..|l| - 1][2..];
    RemoveFirstLine(l[2..], e, 0);
    NothingBehind([], e, x.boundary, 0);
    NothingBehind([], e, DISPOSITION, 0);
    NothingBehind([], e, TYPE, 0);
    if e != [] {
      assert RemovePart(e, 0, x.boundary) == [];
      LoopTurn(s, x.boundary, false, 0, ([], false));
    }
  }

  /** Without a part that has both headers nothing is ever taken for the file. */
  lemma NoFileNoUpload(x: Syntax, f: Form)
    ensures FormOk(x, f) && f.parts != [] && (forall i :: 0 <= i < |f.parts| ==> IsField(x, f.parts[i])) ==>
              Parse(FormText(x, f), x.boundary) == (if Epilogue(f) == [] then None else Some([]))
  {
    hide FormOk, Parse, FormText, Loop, PartsText, IsField, Epilogue;
    if FormOk(x, f) && f.parts != [] && (forall i :: 0 <= i < |f.parts| ==> IsField(x, f.parts[i])) {
      FormStart(x, f);
      LoopOverFields(x, f, 0, |f.parts|);
      CloseWithoutFile(x, f);
    }
  }
}
