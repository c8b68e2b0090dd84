/** What `parse_multipart_form` computes, as functions on the buffer's bytes, and what holds of
    its result for arbitrary bytes. */
module Multipart {
  import opened Bytes
  import opened Wrappers

  const DISPOSITION: Bytes := "Content-Disposition"
  const TYPE: Bytes := "Content-Type"

  /** `s` without the line that holds `pos`, its break included.  When `pos` is itself a break,
      only that break goes. */
  function RemoveLine(s: Bytes, pos: nat): (r: Bytes)
    requires pos < |s|
    ensures |r| < |s|
  {
    var ls := LineStart(s, pos);
    Cut(s, ls, LineEnd(s, ls) - ls)
  }

  /** Removes the line that carries `token` when one starts before the next boundary (or before the
      last byte when no boundary follows).  None: the buffer or the boundary is empty. */
  function RemoveLineWith(s: Bytes, pos: nat, boundary: Bytes, token: Bytes): (r: Option<(bool, Bytes)>)
    ensures r.Some? ==> |r.value.1| <= |s| && (r.value.0 || r.value.1 == s)
    ensures r.Some? <==> s != [] && boundary != []
  {
    if s == [] || boundary == [] then None
    else
      var next := Find(s, boundary, pos);
      var endOfPart := if next >= 0 then next else |s| - 1;
      var at := Find(s, token, pos);
      if 0 <= at < endOfPart then Some((true, RemoveLine(s, at))) else Some((false, s))
  }

  /** The blank line that ends the header block, when it is next. */
  function RemoveBlankLine(s: Bytes, pos: nat): (r: Bytes)
    ensures |r| <= |s|
  {
    var lf := Find(s, [LF], pos);
    if lf == pos || lf == pos + 1 then RemoveLine(s, pos) else s
  }

  /** Drops the part that holds `pos`: from the start of its line up to the next boundary or the end. */
  function RemovePart(s: Bytes, pos: nat, boundary: Bytes): (r: Bytes)
    ensures |r| <= |s|
  {
    var ls := LineStart(s, pos);
    var next := Find(s, boundary, pos);
    var endOfPart := if next != -1 then next else |s|;
    if ls < endOfPart then Cut(s, ls, endOfPart - ls) else s
  }

  /** One turn of the driver loop at a boundary found at `pos`; `pos` is not moved while lines
      disappear.  Yields the new buffer and whether the file part has been met. */
  function Step(s: Bytes, pos: nat, boundary: Bytes, found: bool): (r: Option<(Bytes, bool)>)
    requires pos < |s|
    ensures r.Some? ==> |r.value.0| < |s|
  {
    var s1 := RemoveLine(s, pos);
    var disp := RemoveLineWith(s1, pos, boundary, DISPOSITION);
    if disp == None then None
    else
      var typ := RemoveLineWith(disp.value.1, pos, boundary, TYPE);
      if typ == None then None
      else if disp.value.0 && typ.value.0 && !found then Some((RemoveBlankLine(typ.value.1, pos), true))
      else Some((RemovePart(typ.value.1, pos, boundary), found))
  }

  function Loop(s: Bytes, boundary: Bytes, found: bool): (r: Option<Bytes>)
    decreases |s|
  {
    var pos := Find(s, boundary, 0);
    if pos == -1 then Some(s)
    else
      var next := Step(s, pos, boundary, found);
      if next == None then None else Loop(next.value.0, boundary, next.value.1)
  }

  /** Without one final LF, and then without one final CR. */
  function TrimLineEnd(s: Bytes): (r: Bytes)
    ensures r <= s && |s| <= |r| + 2
  {
    if s != [] && s[|s| - 1] == LF then
      var t := s[..|s| - 1];
      if t != [] && t[|t| - 1] == CR then t[..|t| - 1] else t
    else s
  }

  /** At least two boundaries, and one Content-Disposition for each boundary but the last. */
  predicate Plausible(s: Bytes, boundary: Bytes) {
    s != [] && boundary != [] &&
    Count(s, boundary) >= 2 && Count(s, DISPOSITION) == Count(s, boundary) - 1
  }

  function Parse(s: Bytes, boundary: Bytes): (r: Option<Bytes>) {
    if !Plausible(s, boundary) then None
    else
      var first := Find(s, boundary, 0);
      var start := if first > 0 then Cut(s, 0, first) else s;
      var rest := Loop(start, boundary, false);
      if rest == None then None else Some(TrimLineEnd(rest.value))
  }

  // ----- arbitrary bytes, arbitrary boundary -----

  lemma RemoveLineIsSubsequence(s: Bytes, pos: nat)
    requires pos < |s|
    ensures Subsequence(RemoveLine(s, pos), s)
  {
    var ls := LineStart(s, pos);
    CutIsSubsequence(s, ls, LineEnd(s, ls) - ls);
  }

  lemma RemoveLineWithIsSubsequence(s: Bytes, pos: nat, boundary: Bytes, token: Bytes)
    requires s != [] && boundary != []
    ensures Subsequence(RemoveLineWith(s, pos, boundary, token).value.1, s)
  {
    SubsequenceReflexive(s);
    var at := Find(s, token, pos);
    if at >= 0 {
      RemoveLineIsSubsequence(s, at);
    }
  }

  lemma RemoveBlankLineIsSubsequence(s: Bytes, pos: nat)
    ensures Subsequence(RemoveBlankLine(s, pos), s)
  {
    SubsequenceReflexive(s);
    if pos < |s| {
      RemoveLineIsSubsequence(s, pos);
    }
  }

  lemma RemovePartIsSubsequence(s: Bytes, pos: nat, boundary: Bytes)
    ensures Subsequence(RemovePart(s, pos, boundary), s)
  {
    SubsequenceReflexive(s);
    var ls := LineStart(s, pos);
    var next := Find(s, boundary, pos);
    var endOfPart := if next != -1 then next else |s|;
    if ls < endOfPart {
      CutIsSubsequence(s, ls, endOfPart - ls);
    }
  }

  lemma StepIsSubsequence(s: Bytes, pos: nat, boundary: Bytes, found: bool)
    requires pos < |s|
    ensures Step(s, pos, boundary, found).Some? ==> Subsequence(Step(s, pos, boundary, found).value.0, s)
  {
    if Step(s, pos, boundary, found) == None {
      return;
    }
    var s1 := RemoveLine(s, pos);
    var s2 := RemoveLineWith(s1, pos, boundary, DISPOSITION).value.1;
    var s3 := RemoveLineWith(s2, pos, boundary, TYPE).value.1;
    var s4 := Step(s, pos, boundary, found).value.0;
    RemoveLineIsSubsequence(s, pos);
    RemoveLineWithIsSubsequence(s1, pos, boundary, DISPOSITION);
    RemoveLineWithIsSubsequence(s2, pos, boundary, TYPE);
    RemoveBlankLineIsSubsequence(s3, pos);
    RemovePartIsSubsequence(s3, pos, boundary);
    SubsequenceTransitive(s4, s3, s2);
    SubsequenceTransitive(s4, s2, s1);
    SubsequenceTransitive(s4, s1, s);
  }

  lemma {:induction false} LoopResult(s: Bytes, boundary: Bytes, found: bool)
    ensures var r := Loop(s, boundary, found);
            r.Some? ==> Subsequence(r.value, s) && (boundary != [] ==> !Occurs(r.value, boundary))
    decreases |s|
  {
    var pos := Find(s, boundary, 0);
    if pos == -1 {
      SubsequenceReflexive(s);
    } else if Loop(s, boundary, found).Some? {
      var next := Step(s, pos, boundary, found).value;
      StepIsSubsequence(s, pos, boundary, found);
      LoopResult(next.0, boundary, next.1);
      SubsequenceTransitive(Loop(s, boundary, found).value, next.0, s);
    }
  }

  lemma TrimResult(s: Bytes, n: Bytes)
    ensures Subsequence(TrimLineEnd(s), s)
    ensures !Occurs(s, n) ==> !Occurs(TrimLineEnd(s), n)
  {
    var t := TrimLineEnd(s);
    CutIsSubsequence(s, |t|, |s|);
    assert Cut(s, |t|, |s|) == t;
    if Occurs(t, n) {
      var i :| OccursAt(t, n, i);
      assert t[i..i + |n|] == s[i..i + |n|];
      assert OccursAt(s, n, i);
    }
  }

  /** Whatever the bytes: a successful parse only removes bytes, and no boundary is left. */
  lemma ParseResult(s: Bytes, boundary: Bytes)
    ensures var r := Parse(s, boundary);
            r.Some? ==> Subsequence(r.value, s) && !Occurs(r.value, boundary)
  {
    if Parse(s, boundary) == None {
      return;
    }
    var first := Find(s, boundary, 0);
    var start := if first > 0 then Cut(s, 0, first) else s;
    SubsequenceReflexive(s);
    if first > 0 {
      CutIsSubsequence(s, 0, first);
    }
    var rest := Loop(start, boundary, false).value;
    LoopResult(start, boundary, false);
    TrimResult(rest, boundary);
    SubsequenceTransitive(rest, start, s);
    SubsequenceTransitive(TrimLineEnd(rest), rest, s);
  }
}
