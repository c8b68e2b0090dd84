/** Bodies that are refused: those whose boundaries and headers do not add up, among them every form that
    was cut off within a part. */
module UploadRefusals {
  import opened Bytes
  import opened Wrappers
  import opened Multipart
  import opened FormData
  import opened UploadTheorem
  import opened FileWriter

  /** A body is refused unless the boundary stands at two places at least, and the name of the header at
      one place less. */
  lemma WrongCountsAreRefused(s: Bytes, boundary: Bytes)
    ensures var bs, hs := Positions(s, boundary, 0), Positions(s, "Content-Disposition", 0);
            |bs| < 2 || |hs| != |bs| - 1 ==> Parse(s, boundary) == None
  {
    CountIsCardinality(s, boundary, 0);
    CountIsCardinality(s, DISPOSITION, 0);
  }

  // ----- a form that was cut off -----

  /** A form from its part `j` on, of whose part `i` behind the delimiter line only `t` arrived. */
  function CutParts(x: Syntax, f: Form, j: nat, i: nat, t: Bytes): Bytes
    requires j <= i < |f.parts|
    decreases i - j
  {
    DelimiterLine(x, f.parts[j]) + if j == i then t else PartText(x, f.parts[j]) + CutParts(x, f, j + 1, i, t)
  }

  function CutForm(x: Syntax, f: Form, i: nat, t: Bytes): Bytes
    requires i < |f.parts|
  {
    f.preamble + CutParts(x, f, 0, i, t)
  }

  /** The part's Content-Disposition has arrived, and its end may be missing. */
  predicate ArrivedPart(x: Syntax, p: Part, t: Bytes) { t <= PartText(x, p) && |t| >= |DISPOSITION| }

  lemma {:induction false} CutPartsBegin(x: Syntax, f: Form, j: nat, i: nat, t: Bytes)
    requires j <= i < |f.parts| && t <= PartText(x, f.parts[i])
    ensures CutParts(x, f, j, i, t) <= PartsText(x, f, j)
    decreases i - j
  {
    hide DelimiterLine, PartText, CloseLine, Epilogue;
    if j < i {
      CutPartsBegin(x, f, j + 1, i, t);
      PrefixBehind(PartText(x, f.parts[j]), CutParts(x, f, j + 1, i, t), PartsText(x, f, j + 1));
      PrefixBehind(DelimiterLine(x, f.parts[j]), PartText(x, f.parts[j]) + CutParts(x, f, j + 1, i, t),
                   PartText(x, f.parts[j]) + PartsText(x, f, j + 1));
    } else {
      var rest := PartsText(x, f, j + 1);
      assert t <= PartText(x, f.parts[j]) + rest;
      PrefixBehind(DelimiterLine(x, f.parts[j]), t, PartText(x, f.parts[j]) + rest);
    }
  }

  lemma PrefixBehind(a: Bytes, b: Bytes, c: Bytes)
    requires b <= c
    ensures a + b <= a + c
  {
    assert a + c == (a + b) + c[|b|..];
  }

  /** What arrived is the beginning of the form. */
  lemma CutFormBegins(x: Syntax, f: Form, i: nat, t: Bytes)
    requires i < |f.parts| && t <= PartText(x, f.parts[i])
    ensures CutForm(x, f, i, t) <= FormText(x, f)
  {
    hide PartsText, CutParts, PartText;
    CutPartsBegin(x, f, 0, i, t);
    PrefixBehind(f.preamble, CutParts(x, f, 0, i, t), PartsText(x, f, 0));
  }

  lemma CountInArrived(x: Syntax, p: Part, t: Bytes)
    requires SyntaxOk(x) && PartOk(x, p) && ArrivedPart(x, p, t)
    ensures Count(t, x.boundary) == 0 && Count(t, DISPOSITION) == 1
  {
    hide Count, PartText, BoundaryLineOk;
    var e := PartText(x, p);
    TokensHaveNoBreak(x);
    PrefixOccurrence(t, e, x.boundary);
    CountNone(t, x.boundary);
    PartFacts(x, p);
    assert OccursAt(e, DISPOSITION, 0) && e[0..|DISPOSITION|] == t[0..|DISPOSITION|];
    assert OccursAt(t, DISPOSITION, 0);
    forall k | OccursAt(t, DISPOSITION, k) ensures k == 0 {
      assert t[k..k + |DISPOSITION|] == e[k..k + |DISPOSITION|];
      assert OccursAt(e, DISPOSITION, k);
    }
    CountOne(t, DISPOSITION, 0);
  }

  lemma {:induction false} CountInCutParts(x: Syntax, f: Form, j: nat, i: nat, t: Bytes)
    requires FormOk(x, f) && j <= i < |f.parts| && ArrivedPart(x, f.parts[i], t)
    ensures Count(CutParts(x, f, j, i, t), x.boundary) == i - j + 1
    ensures Count(CutParts(x, f, j, i, t), DISPOSITION) == i - j + 1
    decreases i - j
  {
    hide *;
    var p := f.parts[j];
    FormFacts(x, f, j);
    CountInPart(x, p);
    PartIsClosed(x, p);
    TokensHaveNoBreak(x);
    CutPartsIs(x, f, j, i, t);
    if j == i {
      CountInArrived(x, p, t);
      CountInConcat(DelimiterLine(x, p), t, x.boundary);
      CountInConcat(DelimiterLine(x, p), t, DISPOSITION);
    } else {
      var rest := CutParts(x, f, j + 1, i, t);
      CountInCutParts(x, f, j + 1, i, t);
      CountInConcat(DelimiterLine(x, p), PartText(x, p) + rest, x.boundary);
      CountInConcat(DelimiterLine(x, p), PartText(x, p) + rest, DISPOSITION);
      CountInConcat(PartText(x, p), rest, x.boundary);
      CountInConcat(PartText(x, p), rest, DISPOSITION);
    }
  }

  lemma CutPartsIs(x: Syntax, f: Form, j: nat, i: nat, t: Bytes)
    requires j <= i < |f.parts|
    ensures CutParts(x, f, j, i, t) ==
            DelimiterLine(x, f.parts[j]) + if j == i then t else PartText(x, f.parts[j]) + CutParts(x, f, j + 1, i, t)
  {
  }

  /** A form that was cut off within one of its parts, behind the name of its Content-Disposition header
      and before the next delimiter, is refused, and nothing of it is stored. */
  lemma CutFormIsRefused(x: Syntax, f: Form, i: nat, t: Bytes, outcome: nat -> Outcome, call: nat)
    ensures FormOk(x, f) && i < |f.parts| && ArrivedPart(x, f.parts[i], t) ==>
              CutForm(x, f, i, t) <= FormText(x, f) &&
              Parse(CutForm(x, f, i, t), x.boundary) == None &&
              Uploaded(CutForm(x, f, i, t), x.boundary, outcome, call) == None
  {
    hide FormOk, FormText, Parse, CutForm, PartText;
    if FormOk(x, f) && i < |f.parts| && ArrivedPart(x, f.parts[i], t) {
      CutFormBegins(x, f, i, t);
      CutFormDoesNotAddUp(x, f, i, t);
    }
  }

  lemma CutFormDoesNotAddUp(x: Syntax, f: Form, i: nat, t: Bytes)
    requires FormOk(x, f) && i < |f.parts| && ArrivedPart(x, f.parts[i], t)
    ensures Parse(CutForm(x, f, i, t), x.boundary) == None
  {
    hide Count, CutParts, Loop, PartOk, ArrivedPart, BoundaryLineOk, CloseLine, Occurs, Find;
    var rest := CutParts(x, f, 0, i, t);
    CountInCutParts(x, f, 0, i, t);
    TokensHaveNoBreak(x);
    CountInConcat(f.preamble, rest, x.boundary);
    CountInConcat(f.preamble, rest, DISPOSITION);
    CountNone(f.preamble, x.boundary);
    CountNone(f.preamble, DISPOSITION);
  }
}
