/** The smallest forms, and for each way in which a form fails to come through one that does. */
module SmallForms {
  import opened Bytes
  import opened Wrappers
  import opened Multipart
  import opened FormData
  import opened UploadTheorem

  /** One file part with empty headers. */
  function SmallPart(extra: Bytes, body: Bytes): Part { Part([], [], Some([]), extra, Some(body)) }

  function SmallForm(extra: Bytes, body: Bytes, epilogue: Option<Bytes>): Form {
    Form([], [SmallPart(extra, body)], [], epilogue)
  }

  predicate IsSmall(x: Syntax) { x.boundary == "B" && (x.eol == [LF] || x.eol == [CR, LF]) }

  /** The boundary is "B", and each of the two header names holds one of the other letters. */
  predicate Harmless(s: Bytes) { 'B' !in s && 'D' !in s && 'T' !in s }

  predicate ExtraOk(extra: Bytes) {
    extra == [] || (|extra| >= 3 && LF !in extra[..2] && Closed(extra))
  }

  /** A byte of the needle that the text holds only once, or not at all, settles where it can occur. */
  lemma OneByteDecides(s: Bytes, n: Bytes, j: nat, k: int)
    requires j < |n| && forall i :: 0 <= i < |s| && s[i] == n[j] ==> i == k + j
    ensures OnlyAt(s, n, k) && (n[j] !in s ==> !Occurs(s, n))
  {
    forall i | OccursAt(s, n, i) ensures i == k && n[j] in s {
      assert s[i..i + |n|][j] == s[i + j];
    }
  }

  lemma SmallTexts(x: Syntax, extra: Bytes, body: Bytes, epilogue: Option<Bytes>)
    requires x.boundary == "B"
    ensures DelimiterLine(x, SmallPart(extra, body)) == "--B" + x.eol
    ensures PartText(x, SmallPart(extra, body)) ==
            DISPOSITION + (x.eol + (TYPE + (x.eol + (extra + (x.eol + (body + x.eol))))))
    ensures CloseLine(x, SmallForm(extra, body, epilogue)) == "--B--" + if epilogue.Some? then x.eol else []
  {
    var p := SmallPart(extra, body);
    assert DASHES + x.boundary + p.padding == "--B" && DASHES + x.boundary + DASHES == "--B--";
    assert DISPOSITION + p.disposition == DISPOSITION && TYPE + p.contentType.value == TYPE;
    assert (DISPOSITION + x.eol) + ((TYPE + x.eol) + (extra + (x.eol + (body + x.eol)))) ==
           DISPOSITION + (x.eol + (TYPE + (x.eol + (extra + (x.eol + (body + x.eol))))));
    assert "--B--" + [] == "--B--";
  }

  lemma SmallLineIsOk(x: Syntax, tail: Bytes)
    requires x.boundary == "B" && Harmless(tail)
    ensures BoundaryLineOk("--B" + tail, x)
  {
    hide Occurs;
    OneByteDecides("--B" + tail, "B", 0, 2);
    OneByteDecides("--B" + tail, DISPOSITION, 8, -1);
  }

  lemma SmallPartTextIsOk(rest: Bytes)
    requires 'B' !in rest && 'D' !in rest
    ensures !Occurs(DISPOSITION + rest, "B") && OnlyAt(DISPOSITION + rest, DISPOSITION, 0)
  {
    hide Occurs, OnlyAt;
    assert 'B' !in DISPOSITION;
    assert forall i :: 0 <= i < |DISPOSITION| && DISPOSITION[i] == 'D' ==> i == 8;
    OneByteDecides(DISPOSITION + rest, "B", 0, -1);
    OneByteDecides(DISPOSITION + rest, DISPOSITION, 8, 0);
  }

  lemma HarmlessHasNoToken(s: Bytes)
    requires Harmless(s)
    ensures !Occurs(s, "B") && !Occurs(s, DISPOSITION) && !Occurs(s, TYPE)
  {
    hide Occurs;
    OneByteDecides(s, "B", 0, -1);
    OneByteDecides(s, DISPOSITION, 8, -1);
    OneByteDecides(s, TYPE, 8, -1);
  }

  lemma SmallPartIsOk(x: Syntax, extra: Bytes, body: Bytes)
    requires IsSmall(x) && ExtraOk(extra) && Harmless(extra) && Harmless(body)
    ensures PartOk(x, SmallPart(extra, body))
  {
    hide Occurs, OnlyAt, BoundaryLineOk, DelimiterLine, PartText;
    SmallTexts(x, extra, body, None);
    SmallLineIsOk(x, x.eol);
    SmallPartTextIsOk(x.eol + (TYPE + (x.eol + (extra + (x.eol + (body + x.eol))))));
  }

  lemma SmallFormIsOk(x: Syntax, extra: Bytes, body: Bytes, epilogue: Option<Bytes>)
    requires IsSmall(x) && ExtraOk(extra) && Harmless(extra) && Harmless(body)
    requires epilogue.Some? ==> Harmless(epilogue.value)
    ensures FormOk(x, SmallForm(extra, body, epilogue)) && FirstFile(x, SmallForm(extra, body, epilogue), 0)
  {
    hide Occurs, BoundaryLineOk, CloseLine, PartOk;
    var f := SmallForm(extra, body, epilogue);
    SmallPartIsOk(x, extra, body);
    SmallTexts(x, extra, body, epilogue);
    var tail := "--" + if epilogue.Some? then x.eol else [];
    assert "--B" + tail == CloseLine(x, f);
    SmallLineIsOk(x, tail);
    HarmlessHasNoToken([]);
    HarmlessHasNoToken(Epilogue(f));
  }

  /** What comes out of a small form. */
  lemma SmallFormParses(x: Syntax, extra: Bytes, body: Bytes, epilogue: Option<Bytes>)
    requires IsSmall(x) && ExtraOk(extra) && Harmless(extra) && Harmless(body)
    requires epilogue.Some? ==> Harmless(epilogue.value)
    ensures var f := SmallForm(extra, body, epilogue);
            FormOk(x, f) && FirstFile(x, f, 0) && IsFile(f.parts[0]) &&
            Parse(FormText(x, f), "B") == Some(TrimLineEnd(Left(x, f, 0)))
  {
    hide FormOk, FirstFile, Parse, FormText, TrimLineEnd, Left;
    SmallFormIsOk(x, extra, body, epilogue);
    ParsedForm(x, SmallForm(extra, body, epilogue), 0);
  }

  const WITH_EPILOGUE := SmallForm([], "x", Some("ab"))
  const WITH_HEADER := SmallForm("X: y\r\n", "x", None)
  const WITH_RETURN := SmallForm([], "x\r", None)

  /** A short epilogue comes out behind the file. */
  lemma ShortEpilogueIsKept()
    ensures var x := Syntax("B", [CR, LF]);
            FormOk(x, WITH_EPILOGUE) && FirstFile(x, WITH_EPILOGUE, 0) && !Clean(x, WITH_EPILOGUE, 0) &&
            Parse(FormText(x, WITH_EPILOGUE), "B") == Some("x\r\nab")
  {
    hide FormOk, FirstFile, Parse, FormText;
    SmallFormParses(Syntax("B", [CR, LF]), [], "x", Some("ab"));
    assert Left(Syntax("B", [CR, LF]), WITH_EPILOGUE, 0) == "x\r\nab";
  }

  const WRITTEN: Bytes := "--B\r\n" + ("Content-Disposition\r\nContent-Type\r\n\r\nx\r\n" + "--B--\r\nab")

  lemma PiecesOfWritten()
    ensures "--B" + [CR, LF] == "--B\r\n" && ("--B--" + [CR, LF]) + "ab" == "--B--\r\nab"
    ensures DISPOSITION + ([CR, LF] + (TYPE + ([CR, LF] + ([] + ([CR, LF] + ("x" + [CR, LF])))))) ==
            "Content-Disposition\r\nContent-Type\r\n\r\nx\r\n"
    ensures [] + WRITTEN == WRITTEN
  {
  }

  /** The same form written out. */
  lemma WrittenOut()
    ensures FormText(Syntax("B", [CR, LF]), WITH_EPILOGUE) == WRITTEN && Parse(WRITTEN, "B") == Some("x\r\nab")
  {
    hide FormOk, FirstFile, Parse, PartText, DelimiterLine, CloseLine;
    var x := Syntax("B", [CR, LF]);
    ShortEpilogueIsKept();
    SmallTexts(x, [], "x", Some("ab"));
    PiecesOfWritten();
    assert PartsText(x, WITH_EPILOGUE, 1) == CloseLine(x, WITH_EPILOGUE) + "ab";
    assert PartsText(x, WITH_EPILOGUE, 0) ==
           DelimiterLine(x, SmallPart([], "x")) +
           (PartText(x, SmallPart([], "x")) + PartsText(x, WITH_EPILOGUE, 1));
  }

  /** A further header line comes out ahead of the file, with the blank line. */
  lemma FurtherHeaderIsKept()
    ensures var x := Syntax("B", [CR, LF]);
            FormOk(x, WITH_HEADER) && FirstFile(x, WITH_HEADER, 0) && !Clean(x, WITH_HEADER, 0) &&
            Parse(FormText(x, WITH_HEADER), "B") == Some("X: y\r\n\r\nx")
  {
    hide FormOk, FirstFile, Parse, FormText;
    var x := Syntax("B", [CR, LF]);
    assert ExtraOk("X: y\r\n");
    SmallFormParses(x, "X: y\r\n", "x", None);
    assert Left(x, WITH_HEADER, 0) == "X: y\r\n\r\nx\r\n" == "X: y\r\n\r\nx" + x.eol;
    TrimmedBody("X: y\r\n\r\nx", x.eol);
  }

  /** With lines that end in LF alone, a final CR of the file is taken for a part of the line ending. */
  lemma FinalReturnIsLost()
    ensures var x := Syntax("B", [LF]);
            FormOk(x, WITH_RETURN) && FirstFile(x, WITH_RETURN, 0) && !Clean(x, WITH_RETURN, 0) &&
            Parse(FormText(x, WITH_RETURN), "B") == Some("x")
  {
    hide FormOk, FirstFile, Parse, FormText;
    SmallFormParses(Syntax("B", [LF]), [], "x\r", None);
    assert Left(Syntax("B", [LF]), WITH_RETURN, 0) == "x\r\n";
    assert "x\r\n"[..2] == "x\r" && "x\r"[..1] == "x";
  }
}
