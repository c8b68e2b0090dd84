/** The reading of an event stream by the rules of section 9.2.6 of the HTML Living Standard, and what
    it makes of the bytes that the event writer puts on a connection. */
module EventText {
  import opened Wrappers
  import opened EventWriter

  // ----- reading -----

  /** What the reader hands to the page, and the buffers it keeps between lines. */
  datatype Message = Message(kind: string, data: string, lastId: string)
  datatype Reader = Reader(data: string, kind: string, lastId: string)

  predicate IsBreak(c: char) { c == '\r' || c == '\n' }

  function BreakAt(text: string, k: nat): (r: nat)
    requires k <= |text|
    ensures k <= r <= |text| && (r < |text| ==> IsBreak(text[r]))
    ensures forall i :: k <= i < r ==> !IsBreak(text[i])
    decreases |text| - k
  {
    if k == |text| || IsBreak(text[k]) then k else BreakAt(text, k + 1)
  }

  /** One past the line ending at `k`: CRLF, LF or CR. */
  function AfterLine(text: string, k: nat): (r: nat)
    requires k < |text|
    ensures k < r <= |text|
  {
    if text[k] == '\r' && k + 1 < |text| && text[k + 1] == '\n' then k + 2 else k + 1
  }

  function ColonAt(line: string, k: nat): (r: nat)
    requires k <= |line|
    ensures k <= r <= |line| && (r < |line| ==> line[r] == ':')
    ensures forall i :: k <= i < r ==> line[i] != ':'
    decreases |line| - k
  {
    if k == |line| || line[k] == ':' then k else ColonAt(line, k + 1)
  }

  function FieldName(line: string): string { line[..ColonAt(line, 0)] }

  /** What follows the colon, without one leading space. */
  function FieldValue(line: string): string {
    var c := ColonAt(line, 0);
    if c == |line| then ""
    else if c + 1 < |line| && line[c + 1] == ' ' then line[c + 2..]
    else line[c + 1..]
  }

  function ReadField(r: Reader, name: string, value: string): Reader {
    if name == "event" then r.(kind := value)
    else if name == "data" then r.(data := r.data + value + "\n")
    else if name == "id" && '\0' !in value then r.(lastId := value)
    else r
  }

  function Dispatch(r: Reader): seq<Message> {
    if r.data == "" then []
    else [Message(if r.kind == "" then "message" else r.kind, r.data[..|r.data| - 1], r.lastId)]
  }

  /** Reads complete lines; what follows the last line ending is an unfinished event and is dropped. */
  function Read(text: string, r: Reader): seq<Message>
    decreases |text|
  {
    var k := BreakAt(text, 0);
    if k == |text| then []
    else
      var line, rest := text[..k], text[AfterLine(text, k)..];
      if line == "" then Dispatch(r) + Read(rest, Reader("", "", r.lastId))
      else if line[0] == ':' then Read(rest, r)
      else Read(rest, ReadField(r, FieldName(line), FieldValue(line)))
  }

  // ----- line by line -----

  predicate NoBreaks(s: string) { forall i :: 0 <= i < |s| ==> !IsBreak(s[i]) }

  lemma LineIs(line: string, rest: string)
    requires NoBreaks(line)
    ensures var text := line + CRLF + rest;
            BreakAt(text, 0) == |line| && |line| < |text| && text[..|line|] == line &&
            text[AfterLine(text, |line|)..] == rest
  {
    var text := line + CRLF + rest;
    var k := BreakAt(text, 0);
    assert forall i :: 0 <= i < |line| ==> text[i] == line[i];
    assert text[|line|] == '\r' && text[|line| + 1] == '\n';
    assert k == |line|;
  }

  lemma ReadBlank(rest: string, r: Reader)
    ensures Read(CRLF + rest, r) == Dispatch(r) + Read(rest, Reader("", "", r.lastId))
  {
    LineIs("", rest);
    assert "" + CRLF + rest == CRLF + rest;
  }

  /** A field that is written as name, colon, space, value is read back as that. */
  lemma ReadLine(name: string, value: string, rest: string, r: Reader)
    requires name != "" && ':' !in name && NoBreaks(name) && NoBreaks(value)
    ensures Read(Line(name, value) + rest, r) == Read(rest, ReadField(r, name, value))
  {
    hide ReadField;
    var line := name + ": " + value;
    assert NoBreaks(line);
    LineIs(line, rest);
    assert line[..|name|] == name && line[|name|] == ':' && line[|name| + 1] == ' ' && line[|name| + 2..] == value;
    assert forall i :: 0 <= i < |name| ==> line[i] == name[i];
    assert ColonAt(line, 0) == |name|;
    assert FieldName(line) == name && FieldValue(line) == value;
    assert line[0] != ':';
  }

  lemma {:induction false} DecimalIsPlain(n: nat)
    ensures forall i :: 0 <= i < |Decimal(n)| ==> '0' <= Decimal(n)[i] <= '9'
    decreases n
  {
    if n >= 10 {
      DecimalIsPlain(n / 10);
    }
  }

  lemma PrintedIsPlain(id: nat)
    ensures NoBreaks(Printed(id)) && '\0' !in Printed(id)
  {
    DecimalIsPlain(id);
    DecimalIsPlain(if id < COUNTER_RANGE then COUNTER_RANGE - id else 0);
  }

  // ----- reading back what was written -----

  /** The message a reader should get for an event. */
  function Expected(id: nat, e: Event): Message {
    Message(if NameText(e) == "" then "message" else NameText(e), DataText(e), Printed(id))
  }

  predicate Plain(e: Event) { NoBreaks(NameText(e)) && NoBreaks(DataText(e)) }

  /** The header lines that open every block mean nothing to the reader. */
  lemma ReadHead(id: nat, rest: string, lastId: string)
    ensures Read(Line("Content-type", "text/event-stream") +
                 (Line("Cache-Control", "no-cache") + (Line("id", Printed(id)) + rest)), Reader("", "", lastId)) ==
            Read(rest, Reader("", "", Printed(id)))
  {
    hide Read, Printed, Line;
    PrintedIsPlain(id);
    var r := Reader("", "", lastId);
    ReadLine("Content-type", "text/event-stream",
             Line("Cache-Control", "no-cache") + (Line("id", Printed(id)) + rest), r);
    ReadLine("Cache-Control", "no-cache", Line("id", Printed(id)) + rest, r);
    ReadLine("id", Printed(id), rest, r);
  }

  lemma Rejoin(a: string, b: string, c: string, d: string, rest: string)
    ensures (a + (b + (c + d))) + rest == a + (b + (c + (d + rest)))
  {
  }

  /** After the event line has been read. */
  lemma ReadEventLine(e: Event, rest: string, lastId: string)
    requires Plain(e)
    ensures Read(EventLine(e) + rest, Reader("", "", lastId)) == Read(rest, Reader("", NameText(e), lastId))
  {
    hide Read, Line;
    if EventLine(e) == "" {
      assert EventLine(e) + rest == rest;
      EventLineIsEmpty(e);
    } else {
      ReadLine("event", NameText(e), rest, Reader("", "", lastId));
    }
  }

  lemma EventLineIsEmpty(e: Event)
    ensures EventLine(e) == "" <==> e.data == None && NameText(e) == ""
  {
  }

  lemma ReadBlock(id: nat, e: Event, rest: string, lastId: string)
    requires Plain(e)
    ensures Read(Block(id, e) + rest, Reader("", "", lastId)) ==
            [Expected(id, e)] + Read(rest, Reader("", "", Printed(id)))
  {
    hide Read, Printed, Line, EventLine;
    var data := Line("data", DataText(e));
    var tail := EventLine(e) + (data + CRLF);
    Rejoin(Line("Content-type", "text/event-stream"), Line("Cache-Control", "no-cache"), Line("id", Printed(id)),
        tail, rest);
    ReadHead(id, tail + rest, lastId);
    assert tail + rest == EventLine(e) + (data + (CRLF + rest));
    ReadEventLine(e, data + (CRLF + rest), Printed(id));
    ReadLine("data", DataText(e), CRLF + rest, Reader("", NameText(e), Printed(id)));
    ReadBlank(rest, Reader(DataText(e) + "\n", NameText(e), Printed(id)));
    assert "" + DataText(e) + "\n" == DataText(e) + "\n";
    assert (DataText(e) + "\n")[..|DataText(e)|] == DataText(e);
  }

  /** The message says what the event says, and its id is the counter modulo 2^32; the number that is
      read is the counter itself exactly below 2^31. */
  predicate Carries(m: Message, e: Event, count: nat) {
    m.kind == (if NameText(e) == "" then "message" else NameText(e)) && m.data == DataText(e) &&
    Signed(m.lastId) % COUNTER_RANGE == count % COUNTER_RANGE && (Signed(m.lastId) == count <==> count < 0x8000_0000)
  }

  lemma ExpectedCarries(count: nat, e: Event)
    ensures Carries(Expected(count % COUNTER_RANGE, e), e, count)
  {
    PrintedReads(count % COUNTER_RANGE);
  }

  /** From any event on, a connection reads back as exactly the events written to it, with ids that
      count up one by one. */
  lemma {:induction false} WireReadsBack(sent: seq<Event>, first: nat, lastId: string)
    requires first <= |sent|
    requires forall i :: first <= i < |sent| ==> Plain(sent[i])
    ensures var ms := Read(Wire(sent, first), Reader("", "", lastId));
            |ms| == |sent| - first && forall i :: 0 <= i < |ms| ==> Carries(ms[i], sent[first + i], first + i)
    decreases |sent| - first
  {
    hide Read, Block, Plain, Carries, Expected;
    if first == |sent| {
      ReadNothing(Reader("", "", lastId));
    } else {
      var id := first % COUNTER_RANGE;
      ReadBlock(id, sent[first], Wire(sent, first + 1), lastId);
      WireReadsBack(sent, first + 1, Printed(id));
      ExpectedCarries(first, sent[first]);
      var ms := Read(Wire(sent, first), Reader("", "", lastId));
      var rest := Read(Wire(sent, first + 1), Reader("", "", Printed(id)));
      assert ms == [Expected(id, sent[first])] + rest;
      forall i | 0 <= i < |ms| ensures Carries(ms[i], sent[first + i], first + i) {
        if i > 0 {
          assert ms[i] == rest[i - 1] && Carries(rest[i - 1], sent[first + 1 + (i - 1)], first + 1 + (i - 1));
        }
      }
    }
  }

  lemma ReadNothing(r: Reader)
    ensures Read("", r) == []
  {
  }

  // ----- names and data with line breaks do not come through -----

  /** No message has a line break in its name. */
  lemma {:induction false} NamesHaveNoBreak(text: string, r: Reader)
    requires NoBreaks(r.kind)
    ensures forall m :: m in Read(text, r) ==> NoBreaks(m.kind)
    decreases |text|
  {
    var k := BreakAt(text, 0);
    if k < |text| {
      var line, rest := text[..k], text[AfterLine(text, k)..];
      if line == "" {
        NamesHaveNoBreak(rest, Reader("", "", r.lastId));
      } else if line[0] == ':' {
        NamesHaveNoBreak(rest, r);
      } else {
        NamesHaveNoBreak(rest, ReadField(r, FieldName(line), FieldValue(line)));
      }
    }
  }

  /** Data only grows by what a data line holds, which is less than the line itself. */
  lemma {:induction false} DataIsBounded(text: string, r: Reader)
    ensures forall m :: m in Read(text, r) ==> |m.data| + 1 <= |r.data| || |m.data| + 6 <= |r.data| + |text|
    decreases |text|
  {
    var k := BreakAt(text, 0);
    if k < |text| {
      var line, rest := text[..k], text[AfterLine(text, k)..];
      if line == "" {
        DataIsBounded(rest, Reader("", "", r.lastId));
      } else if line[0] == ':' {
        DataIsBounded(rest, r);
      } else {
        FieldIsShort(line);
        var next := ReadField(r, FieldName(line), FieldValue(line));
        DataIsBounded(rest, next);
        MessagesNeedText(rest, next);
      }
    }
  }

  lemma MessagesNeedText(text: string, r: Reader)
    ensures Read(text, r) != [] ==> text != ""
  {
  }

  lemma FieldIsShort(line: string)
    ensures |FieldName(line)| + |FieldValue(line)| + (if FieldValue(line) == "" then 0 else 1) <= |line|
  {
  }

  lemma BrokenNameIsLost(id: nat, e: Event)
    requires !NoBreaks(NameText(e))
    ensures Expected(id, e) !in Read(Block(id, e), Reader("", "", ""))
  {
    hide Read, Block;
    NamesHaveNoBreak(Block(id, e), Reader("", "", ""));
  }

  /** The first line of broken data is read as a data line; all the rest is too short to make up for it. */
  lemma BrokenDataIsLost(d: string, r: Reader)
    requires !NoBreaks(d) && r.data == ""
    ensures forall m :: m in Read(Line("data", d) + CRLF, r) ==> |m.data| < |d|
  {
    hide ReadField;
    var text := Line("data", d) + CRLF;
    var k := BreakAt(d, 0);
    var line := "data: " + d[..k];
    assert forall i :: 0 <= i < |line| ==> text[i] == line[i] && !IsBreak(text[i]);
    assert text[|line|] == d[k];
    assert BreakAt(text, 0) == |line| && text[..|line|] == line;
    var rest := text[AfterLine(text, |line|)..];
    DataLine(d[..k]);
    var next := ReadField(r, FieldName(line), FieldValue(line));
    assert |next.data| == k + 1 by {
      DataField(r, d[..k]);
    }
    DataIsBounded(rest, next);
    assert |text| == |d| + 10;
  }

  lemma DataLine(v: string)
    ensures FieldName("data: " + v) == "data" && FieldValue("data: " + v) == v
  {
    var line := "data: " + v;
    assert line[..4] == "data" && line[4] == ':' && line[5] == ' ' && line[6..] == v;
    assert forall i :: 0 <= i < 4 ==> line[i] == "data"[i];
    assert ColonAt(line, 0) == 4;
  }

  lemma DataField(r: Reader, v: string)
    requires r.data == ""
    ensures |ReadField(r, "data", v).data| == |v| + 1
  {
  }

  /** An event comes back as it was written exactly when neither its name nor its data has a line break. */
  lemma EventComesBack(id: nat, e: Event)
    ensures Read(Block(id, e), Reader("", "", "")) == [Expected(id, e)] <==> Plain(e)
  {
    hide Read, Block, Printed, Line, EventLine;
    if Plain(e) {
      ReadBlock(id, e, "", "");
      ReadNothing(Reader("", "", Printed(id)));
      assert Block(id, e) + "" == Block(id, e);
      assert [Expected(id, e)] + [] == [Expected(id, e)];
    } else if !NoBreaks(NameText(e)) {
      BrokenNameIsLost(id, e);
    } else {
      BrokenBlockIsLost(id, e);
    }
  }

  lemma BrokenBlockIsLost(id: nat, e: Event)
    requires NoBreaks(NameText(e)) && !NoBreaks(DataText(e))
    ensures Expected(id, e) !in Read(Block(id, e), Reader("", "", ""))
  {
    hide Read, Printed, Line, EventLine;
    var tail := Line("data", DataText(e)) + CRLF;
    ReadHead(id, EventLine(e) + tail, "");
    var named := Event(e.name, Some(""));
    assert EventLine(e) == EventLine(named) && NameText(named) == NameText(e) by {
      BrokenDataIsThere(e);
    }
    ReadEventLine(named, tail, Printed(id));
    BrokenDataIsLost(DataText(e), Reader("", NameText(e), Printed(id)));
  }

  lemma BrokenDataIsThere(e: Event)
    requires !NoBreaks(DataText(e))
    ensures EventLine(e) == EventLine(Event(e.name, Some(""))) && NameText(e) == NameText(Event(e.name, Some("")))
  {
  }

  /** Data with a line break: what stands behind the break is read as another field, and is gone. */
  lemma LineBreakIsLost()
    ensures Read(Block(0, Event(Some("n"), Some("a\nb"))), Reader("", "", "")) == [Message("n", "a", "0")]
  {
    hide Read, Printed, Line, EventLine;
    var e, tail := Event(Some("n"), Some("a\nb")), Line("data", "a\nb") + CRLF;
    assert Printed(0) == "0" by {
      ZeroIsPrinted();
    }
    ReadHead(0, EventLine(e) + tail, "");
    ReadEventLine(Event(Some("n"), Some("")), tail, "0");
    assert EventLine(e) == EventLine(Event(Some("n"), Some(""))) by {
      assert IsBreak(DataText(e)[1]);
      BrokenDataIsThere(e);
    }
    BrokenTail();
  }

  lemma ZeroIsPrinted()
    ensures Printed(0) == "0"
  {
  }

  lemma BrokenTail()
    ensures Read(Line("data", "a\nb") + CRLF, Reader("", "n", "0")) == [Message("n", "a", "0")]
  {
    hide Read, Dispatch, ReadField, FieldName, FieldValue;
    var r, read := Reader("", "n", "0"), Reader("a\n", "n", "0");
    var text, rest := Line("data", "a\nb") + CRLF, "b" + CRLF + CRLF;
    assert text == "data: a" + "\n" + rest;
    BrokenFields();
    ReadsLine(text, "data: a", rest, r);
    ReadsLine(rest, "b", CRLF, read);
    ReadBlank("", read);
    ReadNothing(Reader("", "", "0"));
    assert CRLF + "" == CRLF;
    DispatchesOne(read);
  }

  lemma BrokenFields()
    ensures ReadField(Reader("", "n", "0"), FieldName("data: a"), FieldValue("data: a")) == Reader("a\n", "n", "0")
    ensures ReadField(Reader("a\n", "n", "0"), FieldName("b"), FieldValue("b")) == Reader("a\n", "n", "0")
  {
    DataLine("a");
    assert "data: " + "a" == "data: a" && "" + "a" + "\n" == "a\n";
    assert FieldName("b") == "b" && |"b"| == 1 && |"event"| == 5 && |"data"| == 4 && |"id"| == 2;
  }

  lemma DispatchesOne(r: Reader)
    requires r == Reader("a\n", "n", "0")
    ensures Dispatch(r) == [Message("n", "a", "0")]
  {
    assert r.data != "" && r.kind != "" by {
      assert |r.data| == 2 && |r.kind| == 1;
    }
    assert r.data[..|r.data| - 1] == "a";
  }

  lemma ReadsLine(text: string, line: string, rest: string, r: Reader)
    requires NoBreaks(line) && line != "" && line[0] != ':'
    requires text == line + "\n" + rest || text == line + CRLF + rest
    ensures Read(text, r) == Read(rest, ReadField(r, FieldName(line), FieldValue(line)))
  {
    hide ReadField, FieldName, FieldValue;
    assert forall i :: 0 <= i < |line| ==> text[i] == line[i];
    assert text[..|line|] == line && text[AfterLine(text, |line|)..] == rest;
    assert BreakAt(text, 0) == |line|;
  }
}
