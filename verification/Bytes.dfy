/** Byte strings, occurrences of a needle, and the lemmas that let a search be
    split at a line break.  A byte is modelled as a `char`. */
module Bytes {
  type Bytes = seq<char>

  const LF: char := '\n'
  const CR: char := '\r'

  predicate OccursAt(s: Bytes, n: Bytes, i: int) {
    0 <= i && i + |n| <= |s| && s[i..i + |n|] == n
  }

  ghost predicate Occurs(s: Bytes, n: Bytes) {
    exists i :: OccursAt(s, n, i)
  }

  /** The least occurrence of `n` in `s` at or after `start`, or -1.  An empty needle and a start
      outside the buffer find nothing. */
  function Find(s: Bytes, n: Bytes, start: int): (r: int)
    ensures r == -1 || (0 <= start <= r < |s| && n != [] && OccursAt(s, n, r))
    ensures n != [] && start >= 0 ==>
              forall i :: start <= i < (if r == -1 then |s| else r) ==> !OccursAt(s, n, i)
    decreases |s| - start
  {
    if n == [] || start < 0 || start >= |s| then -1
    else if OccursAt(s, n, start) then start
    else Find(s, n, start + 1)
  }

  /** Start of the line holding `pos`; a break belongs to the line it ends, yet `pos` is never passed. */
  function LineStart(s: Bytes, pos: int): (r: int)
    ensures r <= pos && (pos >= 0 ==> r >= 0)
    ensures !(0 <= pos < |s|) ==> r == pos
    ensures 0 <= pos < |s| && s[pos] == LF ==> r == pos
    ensures 0 <= pos < |s| && s[pos] != LF ==> r >= 0 && LF !in s[r..pos] && (r == 0 || s[r - 1] == LF)
  {
    if !(0 <= pos < |s|) || s[pos] == LF then pos else AfterBreak(s, pos)
  }

  function AfterBreak(s: Bytes, k: nat): (r: nat)
    requires k <= |s|
    ensures r <= k && LF !in s[r..k] && (r == 0 || s[r - 1] == LF)
  {
    if k == 0 || s[k - 1] == LF then k
    else
      var r := AfterBreak(s, k - 1);
      assert s[r..k] == s[r..k - 1] + [s[k - 1]];
      r
  }

  /** `s` without the `len` bytes at `pos` (or without all that follow, when fewer remain). */
  function Cut(s: Bytes, pos: nat, len: nat): (r: Bytes)
    requires pos <= |s|
    ensures |r| == |s| - (if pos + len > |s| then |s| - pos else len)
  {
    s[..pos] + (if pos + len > |s| then [] else s[pos + len..])
  }

  /** One past the line break that ends the line holding `pos`, or the end of the buffer. */
  function LineEnd(s: Bytes, pos: nat): (r: nat)
    requires pos < |s|
    ensures pos < r <= |s|
    ensures LF !in s[pos..r - 1]
    ensures s[r - 1] == LF || (r == |s| && LF !in s[pos..])
  {
    var e := Find(s, [LF], pos);
    assert forall i :: 0 <= i < |s| ==> (OccursAt(s, [LF], i) <==> s[i] == LF);
    if e == -1 then |s| else e + 1
  }

  /** How many positions at or after `from` carry the needle; overlapping ones all count. */
  function CountFrom(s: Bytes, n: Bytes, from: nat): nat
    decreases |s| - from
  {
    if from >= |s| then 0 else (if OccursAt(s, n, from) then 1 else 0) + CountFrom(s, n, from + 1)
  }

  function Count(s: Bytes, n: Bytes): nat {
    CountFrom(s, n, 0)
  }

  ghost function Positions(s: Bytes, n: Bytes, from: nat): set<int> {
    set i | from <= i < |s| && OccursAt(s, n, i)
  }

  lemma {:induction false} CountIsCardinality(s: Bytes, n: Bytes, from: nat)
    ensures CountFrom(s, n, from) == |Positions(s, n, from)|
    decreases |s| - from
  {
    if from < |s| {
      CountIsCardinality(s, n, from + 1);
      var here := if OccursAt(s, n, from) then {from} else {};
      assert Positions(s, n, from) == here + Positions(s, n, from + 1);
      assert here !! Positions(s, n, from + 1);
    } else {
      assert Positions(s, n, from) == {};
    }
  }

  // ----- relating a search to its result -----

  lemma FindIs(s: Bytes, n: Bytes, start: nat, k: nat)
    requires n != [] && start <= k && OccursAt(s, n, k)
    requires forall i :: start <= i < k ==> !OccursAt(s, n, i)
    ensures Find(s, n, start) == k
  {
    var r := Find(s, n, start);
    assert k < |s|;
  }

  lemma FindNothing(s: Bytes, n: Bytes, start: nat)
    requires forall i :: start <= i ==> !OccursAt(s, n, i)
    ensures Find(s, n, start) == -1
  {
  }

  /** Between two occurrences nothing is skipped: the count goes down by exactly one. */
  lemma {:induction false} CountStep(s: Bytes, n: Bytes, from: nat)
    requires n != []
    ensures Find(s, n, from) == -1 ==> CountFrom(s, n, from) == 0
    ensures Find(s, n, from) != -1 ==>
              CountFrom(s, n, from) == 1 + CountFrom(s, n, Find(s, n, from) + 1)
    decreases |s| - from
  {
    if from < |s| && !OccursAt(s, n, from) {
      CountStep(s, n, from + 1);
    }
  }

  // ----- a needle without a line break never crosses one -----

  /** True of a text that a line break (or nothing) closes on the right. */
  predicate Closed(s: Bytes) {
    s == [] || s[|s| - 1] == LF
  }

  lemma OccurrenceInConcat(x: Bytes, y: Bytes, n: Bytes, i: int)
    requires Closed(x) && n != [] && LF !in n
    ensures OccursAt(x + y, n, i) <==> OccursAt(x, n, i) || (i >= |x| && OccursAt(y, n, i - |x|))
  {
    if OccursAt(x + y, n, i) {
      var k := if 0 <= |x| - 1 - i < |n| then |x| - 1 - i else 0;
      assert n[k] in n && n[k] == (x + y)[i..i + |n|][k] == (x + y)[i + k];
      if i + |n| <= |x| {
        assert (x + y)[i..i + |n|] == x[i..i + |n|];
      } else {
        assert (x + y)[i..i + |n|] == y[i - |x|..i - |x| + |n|];
      }
    }
    if OccursAt(x, n, i) {
      assert (x + y)[i..i + |n|] == x[i..i + |n|];
    }
    if i >= |x| && OccursAt(y, n, i - |x|) {
      assert (x + y)[i..i + |n|] == y[i - |x|..i - |x| + |n|];
    }
  }

  lemma OccursInConcat(x: Bytes, y: Bytes, n: Bytes)
    requires Closed(x) && n != [] && LF !in n
    ensures Occurs(x + y, n) <==> Occurs(x, n) || Occurs(y, n)
  {
    forall i ensures OccursAt(x + y, n, i) <==> OccursAt(x, n, i) || (i >= |x| && OccursAt(y, n, i - |x|)) {
      OccurrenceInConcat(x, y, n, i);
    }
    if Occurs(y, n) {
      var j :| OccursAt(y, n, j);
      assert OccursAt(y, n, (j + |x|) - |x|);
      assert OccursAt(x + y, n, j + |x|);
    }
  }

  /** A search that starts in a closed prefix: the prefix is searched first, then the rest. */
  lemma FindInConcat(x: Bytes, y: Bytes, n: Bytes, start: nat)
    requires Closed(x) && n != [] && LF !in n && start <= |x|
    ensures Find(x, n, start) != -1 ==> Find(x + y, n, start) == Find(x, n, start)
    ensures Find(x, n, start) == -1 ==>
              Find(x + y, n, start) == (if Find(y, n, 0) == -1 then -1 else |x| + Find(y, n, 0))
  {
    forall i ensures OccursAt(x + y, n, i) <==> OccursAt(x, n, i) || (i >= |x| && OccursAt(y, n, i - |x|)) {
      OccurrenceInConcat(x, y, n, i);
    }
    var fx, fy := Find(x, n, start), Find(y, n, 0);
    if fx != -1 {
      FindIs(x + y, n, start, fx);
    } else if fy != -1 {
      assert OccursAt(y, n, (|x| + fy) - |x|);
      FindIs(x + y, n, start, |x| + fy);
    } else {
      FindNothing(x + y, n, start);
    }
  }

  /** A search that starts behind a prefix does not see the prefix, whatever it holds. */
  lemma FindBehind(x: Bytes, y: Bytes, n: Bytes, start: nat)
    requires n != []
    ensures Find(x + y, n, |x| + start) == (if Find(y, n, start) == -1 then -1 else |x| + Find(y, n, start))
  {
    forall i: int | i >= 0 ensures OccursAt(x + y, n, |x| + i) <==> OccursAt(y, n, i) {
      if |x| + i + |n| <= |x + y| {
        assert (x + y)[|x| + i..|x| + i + |n|] == y[i..i + |n|];
      }
    }
    var fy := Find(y, n, start);
    if fy == -1 {
      forall i | |x| + start <= i ensures !OccursAt(x + y, n, i) {
        assert OccursAt(x + y, n, |x| + (i - |x|)) <==> OccursAt(y, n, i - |x|);
      }
      FindNothing(x + y, n, |x| + start);
    } else {
      forall i | |x| + start <= i < |x| + fy ensures !OccursAt(x + y, n, i) {
        assert OccursAt(x + y, n, |x| + (i - |x|)) <==> OccursAt(y, n, i - |x|);
      }
      FindIs(x + y, n, |x| + start, |x| + fy);
    }
  }

  lemma CountInConcat(x: Bytes, y: Bytes, n: Bytes)
    requires Closed(x) && n != [] && LF !in n
    ensures Count(x + y, n) == Count(x, n) + Count(y, n)
  {
    CountFromInConcat(x, y, n, 0);
  }

  lemma {:induction false} CountFromInConcat(x: Bytes, y: Bytes, n: Bytes, from: nat)
    requires Closed(x) && n != [] && LF !in n && from <= |x|
    ensures CountFrom(x + y, n, from) == CountFrom(x, n, from) + CountFrom(y, n, 0)
    decreases |x| - from
  {
    if from < |x| {
      OccurrenceInConcat(x, y, n, from);
      CountFromInConcat(x, y, n, from + 1);
    } else {
      CountBehind(x, y, n, 0);
    }
  }

  lemma {:induction false} CountBehind(x: Bytes, y: Bytes, n: Bytes, from: nat)
    requires Closed(x) && n != [] && LF !in n && from <= |y|
    ensures CountFrom(x + y, n, |x| + from) == CountFrom(y, n, from)
    decreases |y| - from
  {
    if from < |y| {
      OccurrenceInConcat(x, y, n, |x| + from);
      CountBehind(x, y, n, from + 1);
    }
  }

  lemma CountNone(s: Bytes, n: Bytes)
    requires !Occurs(s, n)
    ensures Count(s, n) == 0
  {
    CountIsCardinality(s, n, 0);
    assert Positions(s, n, 0) == {};
  }

  lemma CountOne(s: Bytes, n: Bytes, k: nat)
    requires n != [] && OccursAt(s, n, k)
    requires forall i :: OccursAt(s, n, i) ==> i == k
    ensures Count(s, n) == 1
  {
    CountIsCardinality(s, n, 0);
    assert Positions(s, n, 0) == {k};
  }

  // ----- subsequences -----

  predicate Subsequence(a: Bytes, b: Bytes) {
    a == [] || (b != [] && ((a[0] == b[0] && Subsequence(a[1..], b[1..])) || Subsequence(a, b[1..])))
  }

  lemma {:induction false} SubsequenceReflexive(a: Bytes)
    ensures Subsequence(a, a)
  {
    if a != [] {
      SubsequenceReflexive(a[1..]);
    }
  }

  lemma {:induction false} SubsequenceTransitive(a: Bytes, b: Bytes, c: Bytes)
    requires Subsequence(a, b) && Subsequence(b, c)
    ensures Subsequence(a, c)
    decreases |b| + |c|
  {
    if a != [] {
      if b[0] == c[0] && Subsequence(b[1..], c[1..]) {
        if a[0] == b[0] && Subsequence(a[1..], b[1..]) {
          SubsequenceTransitive(a[1..], b[1..], c[1..]);
        } else {
          SubsequenceTransitive(a, b[1..], c[1..]);
        }
      } else {
        SubsequenceTransitive(a, b, c[1..]);
      }
    }
  }

  lemma {:induction false} SubsequenceOfSuffix(b: Bytes, k: nat)
    requires k <= |b|
    ensures Subsequence(b[k..], b)
  {
    if k == 0 {
      assert b[0..] == b;
      SubsequenceReflexive(b);
    } else {
      assert b[k..] == b[1..][k - 1..];
      SubsequenceOfSuffix(b[1..], k - 1);
    }
  }

  lemma {:induction false} CutIsSubsequence(s: Bytes, pos: nat, len: nat)
    requires pos <= |s|
    ensures Subsequence(Cut(s, pos, len), s)
    decreases pos
  {
    if pos == 0 {
      assert Cut(s, 0, len) == if len > |s| then [] else s[len..];
      if len <= |s| {
        SubsequenceOfSuffix(s, len);
      }
    } else {
      CutIsSubsequence(s[1..], pos - 1, len);
      assert Cut(s, pos, len) == [s[0]] + Cut(s[1..], pos - 1, len) by {
        assert s[..pos] == [s[0]] + s[1..][..pos - 1];
        if pos + len <= |s| {
          assert s[pos + len..] == s[1..][pos - 1 + len..];
        }
      }
      assert Cut(s, pos, len)[1..] == Cut(s[1..], pos - 1, len);
    }
  }
}
