/** Tab completion of the command line: the longest common prefix of the proposed words is merged with
    the text before the cursor. */
module TabCompletion {
  /** The longest common beginning of two strings. */
  function Meet(a: string, b: string): (r: string)
    ensures r <= a && r <= b
  {
    if a == "" || b == "" || a[0] != b[0] then "" else [a[0]] + Meet(a[1..], b[1..])
  }

  /** The longest common beginning of a list of words. */
  function CommonPrefix(words: seq<string>): string {
    if words == [] then ""
    else if |words| == 1 then words[0]
    else Meet(CommonPrefix(words[..|words| - 1]), words[|words| - 1])
  }

  ghost predicate EndsIn(text: string, s: string) { |s| <= |text| && text[|text| - |s|..] == s }

  /** Some end of the text is the beginning of the word, n characters long. */
  ghost predicate Overlaps(text: string, word: string, n: nat) {
    n <= |text| && n <= |word| && EndsIn(text, word[..n])
  }

  // ----- the common prefix -----

  lemma {:induction false} MeetIsGreatest(a: string, b: string, q: string)
    ensures q <= Meet(a, b) <==> q <= a && q <= b
  {
    var m := Meet(a, b);
    if q <= m {
      assert q == m[..|q|] == a[..|q|] == b[..|q|];
    }
    if q != "" && q <= a && q <= b {
      assert a[0] == q[0] == b[0];
      MeetIsGreatest(a[1..], b[1..], q[1..]);
      PrefixStep(q, a);
      PrefixStep(q, b);
      PrefixStep(q, m);
    }
  }

  lemma PrefixStep(q: string, a: string)
    requires q != "" && a != "" && q[0] == a[0]
    ensures q <= a <==> q[1..] <= a[1..]
  {
    assert q == [q[0]] + q[1..] && a == [a[0]] + a[1..];
    if q[1..] <= a[1..] {
      assert a == q + a[1..][|q| - 1..];
    }
    if q <= a {
      assert a[1..][..|q| - 1] == a[..|q|][1..] == q[1..];
    }
  }

  /** The common prefix is the greatest: the strings that begin every word are its beginnings. */
  lemma {:induction false} CommonPrefixIsGreatest(words: seq<string>, q: string)
    ensures words != [] ==> (q <= CommonPrefix(words) <==> forall w :: w in words ==> q <= w)
  {
    if |words| > 1 {
      var front, last := words[..|words| - 1], words[|words| - 1];
      CommonPrefixIsGreatest(front, q);
      MeetIsGreatest(CommonPrefix(front), last, q);
      assert words == front + [last];
      assert last in words && forall w :: w in front ==> w in words;
      if q <= CommonPrefix(front) && q <= last {
        forall w | w in words ensures q <= w {
          assert w in front || w == last;
        }
      }
    } else if words != [] {
      assert words[0] in words;
    }
  }

  lemma {:induction false} MeetFromPosition(a: string, b: string, n: nat)
    requires n <= |a| && n <= |b| && a[..n] == b[..n]
    requires n == |a| || n == |b| || a[n] != b[n]
    ensures Meet(a, b) == a[..n]
  {
    if n > 0 {
      assert a[0] == a[..n][0] == b[0];
      assert a[1..][..n - 1] == a[..n][1..] == b[..n][1..] == b[1..][..n - 1];
      MeetFromPosition(a[1..], b[1..], n - 1);
      assert a[..n] == [a[0]] + a[1..][..n - 1];
    }
  }

  /** The running loop: the length of the longest common prefix, and the place of a word that has it;
      no place when there is no common prefix. */
  method BiggestCommon(words: array<string>) returns (length: nat, index: int)
    ensures length == |CommonPrefix(words[..])|
    ensures length == 0 <==> index == -1
    ensures index != -1 ==> 0 <= index < words.Length && CommonPrefix(words[..]) <= words[index]
  {
    length, index := 0, -1;
    var k := 0;
    while k < words.Length
      invariant 0 <= k <= words.Length
      invariant if k == 0 then index == -1 && length == 0
                else 0 <= index < k && length <= |words[index]| && words[index][..length] == CommonPrefix(words[..k])
    {
      var current := words[k];
      var max := if length > |current| then |current| else length;
      assert words[..k + 1][..k] == words[..k];
      if index == -1 {
        index, length := k, |current|;
        assert words[index][..length] == words[..k + 1][0];
      } else {
        ghost var common := CommonPrefix(words[..k]);
        length := 0;
        while length < max && words[index][length] == current[length]
          invariant length <= max
          invariant common[..length] == current[..length]
        {
          assert common[length] == words[index][length];
          length := length + 1;
        }
        assert length < max ==> common[length] == words[index][length];
        MeetFromPosition(common, current, length);
        assert words[index][..length] == common[..length];
        if length < max {
          index := k;
        }
      }
      k := k + 1;
    }
    assert words[..k] == words[..];
    if length == 0 {
      index := -1;
    }
  }

  /** The largest overlap of the end of the text with the first characters of a word. */
  method MatchingSize(before: string, word: string, most: nat) returns (size: nat)
    requires most <= |before| && most <= |word|
    ensures size <= most && Overlaps(before, word, size)
    ensures forall n: nat :: size < n <= most ==> !Overlaps(before, word, n)
  {
    size := most;
    while size > 0 && before[|before| - size..] != word[..size]
      invariant size <= most
      invariant forall n: nat :: size < n <= most ==> !Overlaps(before, word, n)
    {
      size := size - 1;
    }
  }

  // ----- what is inserted -----

  /** What makes the text end in the prefix is at least as long as what the largest overlap leaves. */
  lemma OverlapIsShortest(before: string, prefix: string, size: nat, piece: string)
    requires Overlaps(before, prefix, size)
    requires forall n: nat | size < n <= |before| && n <= |prefix| :: !Overlaps(before, prefix, n)
    ensures EndsIn(before + prefix[size..], prefix)
    ensures EndsIn(before + piece, prefix) ==> |prefix| - size <= |piece|
  {
    var text := before + prefix[size..];
    assert text[|text| - |prefix|..] == before[|before| - size..] + prefix[size..];
    if EndsIn(before + piece, prefix) && |piece| <= |prefix| {
      EndLeavesOverlap(before, prefix, piece);
    }
  }

  lemma EndLeavesOverlap(before: string, prefix: string, piece: string)
    requires |piece| <= |prefix| && EndsIn(before + piece, prefix)
    ensures Overlaps(before, prefix, |prefix| - |piece|)
  {
    var n, whole := |prefix| - |piece|, before + piece;
    assert prefix[..n] == whole[|whole| - |prefix|..][..n] == before[|before| - n..];
  }

  lemma SameBeginning(before: string, word: string, prefix: string)
    requires prefix <= word
    ensures forall n: nat :: n <= |prefix| ==> (Overlaps(before, word, n) <==> Overlaps(before, prefix, n))
  {
    forall n: nat | n <= |prefix| ensures Overlaps(before, word, n) <==> Overlaps(before, prefix, n) {
      assert word[..n] == prefix[..n];
    }
  }

  /** One of the words became the prefix that it begins with. */
  ghost predicate OneCut(was: seq<string>, now: seq<string>, prefix: string) {
    |now| == |was| &&
    exists i :: 0 <= i < |now| && now[i] == prefix && prefix <= was[i] &&
                forall j :: 0 <= j < |now| && j != i ==> now[j] == was[j]
  }

  /** The common prefix, a word that has it, and how much of it is already there. */
  method Proposal(before: string, words: array<string>) returns (length: nat, size: nat, index: int)
    ensures var prefix := CommonPrefix(words[..]);
            length == |prefix| && Overlaps(before, prefix, size) &&
            (forall n: nat | size < n <= |before| && n <= length :: !Overlaps(before, prefix, n)) &&
            (length == 0 || (0 <= index < words.Length && prefix <= words[index]))
  {
    hide CommonPrefix;
    length, index := BiggestCommon(words);
    size := 0;
    if length > 0 {
      SameBeginning(before, words[index], CommonPrefix(words[..]));
      var most := if length > |before| then |before| else length;
      size := MatchingSize(before, words[index], most);
    }
  }

  /** The line being typed. */
  class InputLine {
    var text: string
    var cursor: nat

    ghost predicate Valid() reads this { cursor <= |text| }

    constructor (text: string, cursor: nat)
      requires cursor <= |text|
      ensures Valid() && this.text == text && this.cursor == cursor
    {
      this.text, this.cursor := text, cursor;
    }

    /** Inserting a block at the cursor, which ends up behind it. */
    method InsertBlock(block: string)
      requires Valid()
      modifies this
      ensures Valid()
      ensures text[..cursor] == old(text[..cursor]) + block
      ensures text[cursor..] == old(text[cursor..])
    {
      text := text[..cursor] + block + text[cursor..];
      cursor := cursor + |block|;
    }

    /** Completing: afterwards the text before the cursor ends in the common prefix of the words, what
        was inserted is the shortest that achieves it, and nothing else in the line changed.  The word
        that was used is cut to the prefix.  Yields whether the words are listed instead. */
    method CompleteOrDump(words: array<string>) returns (listed: bool)
      requires Valid()
      modifies this, words
      ensures Valid() && old(text[..cursor]) <= text[..cursor] && text[cursor..] == old(text[cursor..])
      ensures var prefix := CommonPrefix(old(words[..]));
              EndsIn(text[..cursor], prefix) &&
              forall piece :: EndsIn(old(text[..cursor]) + piece, prefix) ==> cursor - old(cursor) <= |piece|
      ensures listed <==> cursor == old(cursor) && words.Length > 1
      ensures cursor == old(cursor) ==> words[..] == old(words[..])
      ensures cursor != old(cursor) ==> OneCut(old(words[..]), words[..], CommonPrefix(old(words[..])))
    {
      hide CommonPrefix, Overlaps;
      ghost var all, before := words[..], text[..cursor];
      ghost var prefix := CommonPrefix(all);
      var bcs, ms, index := Proposal(text[..cursor], words);
      Shortest(before, prefix, ms);
      listed := false;
      if bcs - ms > 0 {
        words[index] := words[index][..bcs];
        CutIsOne(all, words[..], index, prefix);
        InsertBlock(words[index][ms..]);
      } else {
        listed := words.Length > 1;
      }
    }
  }

  lemma CutIsOne(was: seq<string>, now: seq<string>, i: nat, prefix: string)
    requires i < |was| && prefix <= was[i] && now == was[i := was[i][..|prefix|]]
    ensures now[i] == prefix && OneCut(was, now, prefix)
  {
  }

  lemma Shortest(before: string, prefix: string, size: nat)
    requires Overlaps(before, prefix, size)
    requires forall n: nat | size < n <= |before| && n <= |prefix| :: !Overlaps(before, prefix, n)
    ensures size <= |prefix| && EndsIn(before + prefix[size..], prefix)
    ensures size == |prefix| ==> EndsIn(before, prefix)
    ensures forall piece :: EndsIn(before + piece, prefix) ==> |prefix| - size <= |piece|
  {
    forall piece ensures EndsIn(before + piece, prefix) ==> |prefix| - size <= |piece| {
      OverlapIsShortest(before, prefix, size, piece);
    }
    OverlapIsShortest(before, prefix, size, "");
    assert before + [] == before;
  }

  /** Completing a second time with the same words inserts nothing. */
  method CompleteTwice(line: InputLine, words: array<string>, again: array<string>) returns (listed: bool)
    requires line.Valid() && words != again && words[..] == again[..]
    modifies line, words, again
    ensures line.Valid() && EndsIn(line.text[..line.cursor], CommonPrefix(old(words[..])))
    ensures again[..] == old(again[..])
    ensures listed <==> again.Length > 1
  {
    var first := line.CompleteOrDump(words);
    ghost var before := line.text[..line.cursor];
    ghost var prefix := CommonPrefix(again[..]);
    assert before + [] == before;
    assert EndsIn(before + [], prefix);
    listed := line.CompleteOrDump(again);
  }
}
