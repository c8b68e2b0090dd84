/** The upload buffer (`stream_data_t`) and the functions that edit it in place. */
module StreamBuffer {
  import opened Bytes
  import opened Wrappers
  import opened Multipart

  const CHUNK_SIZE: nat := 524288

  class StreamData {
    var data: array?<char>
    var length: int

    /** A non-empty buffer owns its bytes and one terminating zero byte; an empty one owns nothing. */
    ghost predicate Valid()
      reads this, data
    {
      length >= 0 && (data == null <==> length == 0) &&
      (data != null ==> data.Length == length + 1 && data[length] == '\0')
    }

    ghost function Contents(): (s: Bytes)
      requires Valid()
      reads this, data
      ensures |s| == length
    {
      if data == null then [] else data[..length]
    }

    /** The buffer takes over `content` bytes that were read together with their terminating zero. */
    constructor (content: array<char>)
      requires content.Length > 1 && content[content.Length - 1] == '\0'
      ensures Valid() && data == content && Contents() == content[..content.Length - 1]
    {
      data := content;
      length := content.Length - 1;
    }

    method Search(needle: Bytes, startPos: int) returns (pos: int)
      requires Valid()
      ensures pos == Find(Contents(), needle, startPos)
    {
      pos := -1;
      if data == null || length <= 0 || needle == [] || startPos < 0 || startPos >= length {
        return;
      }
      var i := startPos;
      while i < length
        invariant startPos <= i <= length && pos == -1
        invariant Find(Contents(), needle, startPos) == Find(Contents(), needle, i)
      {
        var found := MatchAt(needle, i);
        if found {
          pos := i;
          return;
        }
        i := i + 1;
      }
    }

    /** The inner loop of the search: compares byte by byte and gives up at the end of the buffer. */
    method MatchAt(needle: Bytes, i: int) returns (found: bool)
      requires Valid() && 0 <= i < length && needle != []
      ensures found == OccursAt(Contents(), needle, i)
    {
      found := false;
      var needleIndex := 0;
      var j := i;
      while j < i + |needle|
        invariant i <= j <= i + |needle| && needleIndex == j - i && j <= length
        invariant needleIndex < |needle|
        invariant data[i..j] == needle[..needleIndex]
      {
        if j >= length {
          break;
        }
        if data[j] != needle[needleIndex] {
          assert i + |needle| <= length ==> Contents()[i..i + |needle|][needleIndex] == data[j];
          break;
        }
        assert data[i..j + 1] == data[i..j] + [data[j]];
        assert needle[..needleIndex + 1] == needle[..needleIndex] + [needle[needleIndex]];
        if needleIndex >= |needle| - 1 {
          found := true;
          assert Contents()[i..i + |needle|] == data[i..j + 1];
          break;
        }
        needleIndex := needleIndex + 1;
        j := j + 1;
      }
    }

    method GetLineStart(startPos: int) returns (posStartLine: int)
      requires Valid()
      ensures posStartLine == LineStart(Contents(), startPos)
    {
      posStartLine := startPos;
      if data == null || length <= 0 || startPos < 0 || startPos >= length {
        return;
      }
      while posStartLine >= 0
        invariant -1 <= posStartLine <= startPos
        invariant posStartLine < startPos ==>
                    data[startPos] != LF &&
                    AfterBreak(Contents(), startPos) == AfterBreak(Contents(), posStartLine + 1)
        decreases posStartLine
      {
        if data[posStartLine] == LF {
          posStartLine := posStartLine + 1;
          break;
        }
        posStartLine := posStartLine - 1;
      }
      if posStartLine < 0 {
        posStartLine := 0;
      }
      if posStartLine > startPos {
        posStartLine := startPos;
      }
    }

    /** The `memmove`: `count` bytes at `from` go to the lower position `to`, first byte first. */
    method MoveDown(to: nat, from: nat, count: nat)
      requires data != null && to <= from && from + count <= data.Length
      modifies data
      ensures forall i :: 0 <= i < data.Length ==>
                data[i] == if to <= i < to + count then old(data[i + (from - to)]) else old(data[i])
    {
      var gap := from - to;
      var k := 0;
      while k < count
        invariant 0 <= k <= count
        invariant forall i :: to <= i < to + k ==> data[i] == old(data[i + gap])
        invariant forall i :: 0 <= i < data.Length && !(to <= i < to + k) ==> data[i] == old(data[i])
      {
        data[to + k] := data[to + k + gap];
        k := k + 1;
      }
    }

    /** The `realloc`: a new block with the first `length` bytes and the terminating zero. */
    method Shrink()
      requires data != null && 0 < length < data.Length
      modifies `data
      ensures Valid() && fresh(data) && Contents() == old(data[..length])
    {
      var shrunk := new char[length + 1];
      var i := 0;
      while i < length
        invariant 0 <= i <= length && data == old(data)
        invariant shrunk[..i] == data[..i]
      {
        shrunk[i] := data[i];
        i := i + 1;
      }
      shrunk[length] := '\0';
      data := shrunk;
    }

    /** Moves the bytes behind the removed range down, then shrinks the allocation. */
    method RemoveAt(pos: int, count: int) returns (rv: int)
      requires Valid()
      modifies this, data
      ensures Valid() && (data == null || data == old(data) || fresh(data))
      ensures rv == (if 0 <= pos < old(length) && count > 0 then 0 else -1)
      ensures Contents() == if rv == 0 then Cut(old(Contents()), pos, count) else old(Contents())
    {
      rv := -1;
      if data == null || length <= 0 || pos < 0 || count <= 0 || pos >= length {
        return;
      }
      ghost var was := Contents();
      var realLength := if pos + count > length then length - pos else count;
      var remaining := length - pos - realLength;
      if remaining != 0 {
        MoveDown(pos, pos + realLength, remaining);
      }
      assert data[..pos + remaining] == Cut(was, pos, count);
      length := length - realLength;
      if length <= 0 {
        data := null;
        length := 0;
      } else {
        Shrink();
      }
      rv := 0;
    }

    method RemoveLineFromStream(startPos: int) returns (rv: int)
      requires Valid()
      modifies this, data
      ensures Valid() && (data == null || data == old(data) || fresh(data))
      ensures rv == (if 0 <= startPos < old(length) then 0 else -1)
      ensures Contents() == if rv == 0 then RemoveLine(old(Contents()), startPos) else old(Contents())
    {
      rv := -1;
      if data == null || length <= 0 || startPos < 0 || startPos >= length {
        return;
      }
      var posStartLine := GetLineStart(startPos);
      if posStartLine < 0 || posStartLine >= length {
        return;
      }
      var posEndLine := Search([LF], posStartLine);
      var size := posEndLine - posStartLine + 1;
      if posEndLine == -1 {
        size := length - posStartLine;
      }
      rv := RemoveAt(posStartLine, size);
    }

    /** 1: the line was removed, 0: no such line in this part, -1: failure. */
    method RemoveLineWithString(boundaryPos: int, boundary: Bytes, filter: Bytes) returns (rv: int)
      requires Valid()
      modifies this, data
      ensures Valid() && (data == null || data == old(data) || fresh(data))
      ensures -1 <= rv <= 1
      ensures boundaryPos < 0 ==> rv == -1 && Contents() == old(Contents())
      ensures boundaryPos >= 0 ==>
              var r := RemoveLineWith(old(Contents()), boundaryPos, boundary, filter);
              if r == None then rv == -1 && Contents() == old(Contents())
              else rv == (if r.value.0 then 1 else 0) && Contents() == r.value.1
    {
      rv := -1;
      if !(length > 0) || !(boundaryPos >= 0) || boundary == [] {
        return;
      }
      var next := Search(boundary, boundaryPos);
      var endOfPart := if next >= 0 then next else length - 1;
      var at := Search(filter, boundaryPos);
      if at >= 0 && at < endOfPart {
        rv := RemoveLineFromStream(at);
        if rv != 0 {
          return;
        }
        rv := 1;
      } else {
        rv := 0;
      }
    }

    method GetStringCount(text: Bytes) returns (count: int)
      requires Valid()
      ensures count == if text == [] then 0 else Count(Contents(), text)
    {
      count := 0;
      if data == null || !(length > 0) || text == [] {
        return;
      }
      ghost var total := Count(Contents(), text);
      ghost var uncounted := total;
      var pos := SearchUncounted(text, 0, uncounted);
      while pos >= 0
        invariant pos < length && count + uncounted == total
        invariant if pos < 0 then uncounted == 0 else uncounted == 1 + CountFrom(Contents(), text, pos + 1)
        decreases uncounted
      {
        count := count + 1;
        uncounted := uncounted - 1;
        pos := SearchUncounted(text, pos + 1, uncounted);
      }
    }

    /** A search seen by the counting loop: it stops where the next of the `uncounted` matches is. */
    method SearchUncounted(text: Bytes, startPos: nat, ghost uncounted: nat) returns (pos: int)
      requires Valid() && text != [] && uncounted == CountFrom(Contents(), text, startPos)
      ensures pos == Find(Contents(), text, startPos) && pos < length
      ensures if pos < 0 then uncounted == 0 else uncounted == 1 + CountFrom(Contents(), text, pos + 1)
    {
      pos := Search(text, startPos);
      CountStep(Contents(), text, startPos);
    }

    /** The file part has just lost its two header lines: the blank line goes as well. */
    method RemoveBlankLineAt(pos: int)
      requires Valid() && pos >= 0
      modifies this, data
      ensures Valid() && (data == null || data == old(data) || fresh(data))
      ensures Contents() == RemoveBlankLine(old(Contents()), pos)
    {
      var filterPos := Search([LF], pos);
      if filterPos == pos || filterPos == pos + 1 {
        var rv := RemoveLineFromStream(pos);
      }
    }

    /** Any other part goes completely, up to the next boundary. */
    method RemovePartAt(pos: int, boundary: Bytes)
      requires Valid() && pos >= 0
      modifies this, data
      ensures Valid() && (data == null || data == old(data) || fresh(data))
      ensures Contents() == RemovePart(old(Contents()), pos, boundary)
    {
      var posStartLine := GetLineStart(pos);
      var next := Search(boundary, pos);
      var endOfPart := if next != -1 then next else length;
      if posStartLine < endOfPart {
        var rv := RemoveAt(posStartLine, endOfPart - posStartLine);
      }
    }

    /** One turn of the driver loop, at a boundary found at `pos`. */
    method ParseStep(pos: int, boundary: Bytes, foundContent: bool) returns (rv: int, found: bool)
      requires Valid() && 0 <= pos < length
      modifies this, data
      ensures Valid() && (data == null || data == old(data) || fresh(data))
      ensures var next := Step(old(Contents()), pos, boundary, foundContent);
              (rv >= 0 <==> next.Some?) && (next.Some? ==> Contents() == next.value.0 && found == next.value.1)
    {
      ghost var s := Contents();
      found := foundContent;
      rv := RemoveLineFromStream(pos);
      ghost var s1 := Contents();
      assert s1 == RemoveLine(s, pos);
      rv := RemoveLineWithString(pos, boundary, DISPOSITION);
      if rv < 0 {
        return;
      }
      ghost var s2 := Contents();
      assert RemoveLineWith(s1, pos, boundary, DISPOSITION) == Some((rv == 1, s2));
      var hasContentDisp := rv == 1;
      rv := RemoveLineWithString(pos, boundary, TYPE);
      if rv < 0 {
        return;
      }
      ghost var s3 := Contents();
      assert RemoveLineWith(s2, pos, boundary, TYPE) == Some((rv == 1, s3));
      var hasContentType := rv == 1;
      if hasContentDisp && hasContentType && !foundContent {
        found := true;
        RemoveBlankLineAt(pos);
      } else {
        RemovePartAt(pos, boundary);
      }
    }

    method TrimLastLineEnd()
      requires Valid()
      modifies this, data
      ensures Valid() && (data == null || data == old(data) || fresh(data))
      ensures Contents() == TrimLineEnd(old(Contents()))
    {
      var last := length - 1;
      if last >= 0 {
        if data[last] == LF {
          var rv := RemoveAt(last, 1);
          last := last - 1;
          if last >= 0 {
            if data[last] == CR {
              rv := RemoveAt(last, 1);
            }
          }
        }
      }
    }

    method CountsAgree(boundary: Bytes) returns (plausible: bool)
      requires Valid() && length > 0 && boundary != []
      ensures plausible == Plausible(Contents(), boundary)
    {
      var boundaryCount := GetStringCount(boundary);
      if !(boundaryCount >= 2) {
        return false;
      }
      var dispositionCount := GetStringCount(DISPOSITION);
      return dispositionCount == boundaryCount - 1;
    }

    /** Shrinks the buffer to the uploaded file.  0: done, -1: not a usable form. */
    method ParseMultipartForm(boundary: Bytes) returns (rv: int)
      requires Valid()
      modifies this, data
      ensures Valid() && (data == null || data == old(data) || fresh(data))
      ensures rv == if Parse(old(Contents()), boundary).Some? then 0 else -1
      ensures rv == 0 ==> Contents() == Parse(old(Contents()), boundary).value
    {
      rv := -1;
      if data == null || !(length > 0) || boundary == [] {
        return;
      }
      var plausible := CountsAgree(boundary);
      if !plausible {
        return;
      }
      var pos := Search(boundary, 0);
      ghost var s := Contents();
      if pos > 0 {
        rv := RemoveAt(0, pos);
      }
      assert Contents() == if pos > 0 then Cut(s, 0, pos) else s;
      rv := RunDriverLoop(boundary);
      if rv != 0 {
        return;
      }
      TrimLastLineEnd();
    }

    /** The driver loop; every turn removes at least the boundary's line. */
    method RunDriverLoop(boundary: Bytes) returns (rv: int)
      requires Valid()
      modifies this, data
      ensures Valid() && (data == null || data == old(data) || fresh(data))
      ensures rv == if Loop(old(Contents()), boundary, false).Some? then 0 else -1
      ensures rv == 0 ==> Contents() == Loop(old(Contents()), boundary, false).value
    {
      rv := -1;
      ghost var outcome := Loop(Contents(), boundary, false);
      var foundContent := false;
      var pos := Search(boundary, 0);
      while pos >= 0
        invariant Valid() && (data == null || data == old(data) || fresh(data))
        invariant pos == Find(Contents(), boundary, 0)
        invariant outcome == Loop(Contents(), boundary, foundContent)
        decreases length
      {
        var status;
        status, foundContent := ParseStep(pos, boundary, foundContent);
        if status < 0 {
          return;
        }
        pos := Search(boundary, 0);
      }
      rv := 0;
    }
  }
}
