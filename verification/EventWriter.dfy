/** The bytes that the event writer puts on a connection, block by block. */
module EventWriter {
  import opened Wrappers

  const COUNTER_RANGE: nat := 0x1_0000_0000
  const CRLF := "\r\n"

  /** What one call of the event writer puts on the wire, besides the running id. */
  datatype Event = Event(name: Option<string>, data: Option<string>)

  const PROBE := Event(None, None)
  const HEART_BEAT := Event(Some("heart-beat"), None)

  function Decimal(n: nat): string {
    if n < 10 then ["0123456789"[n]] else Decimal(n / 10) + ["0123456789"[n % 10]]
  }

  /** The counter is an unsigned 32-bit number that is printed as a signed one. */
  function Printed(id: nat): string {
    if id < 0x8000_0000 then Decimal(id) else "-" + Decimal(if id < COUNTER_RANGE then COUNTER_RANGE - id else 0)
  }

  /** A field of a block. */
  function Line(name: string, value: string): string { name + ": " + value + CRLF }

  function EventLine(e: Event): string {
    if e.data == None && NameText(e) == "" then "" else Line("event", NameText(e))
  }

  function DataText(e: Event): string { if e.data.Some? then e.data.value else "" }

  function NameText(e: Event): string { if e.name.Some? then e.name.value else "" }

  /** One call of the event writer. */
  function Block(id: nat, e: Event): string {
    Line("Content-type", "text/event-stream") +
    (Line("Cache-Control", "no-cache") +
     (Line("id", Printed(id)) + (EventLine(e) + (Line("data", DataText(e)) + CRLF))))
  }

  /** Everything written to one connection from event number `first` on. */
  function Wire(sent: seq<Event>, first: nat): string
    requires first <= |sent|
    decreases |sent| - first
  {
    if first == |sent| then "" else Block(first % COUNTER_RANGE, sent[first]) + Wire(sent, first + 1)
  }

  /** Writing one more event appends one more block, which carries the number of events before it. */
  lemma {:induction false} WireGrows(sent: seq<Event>, e: Event, first: nat)
    requires first <= |sent|
    ensures Wire(sent + [e], first) == Wire(sent, first) + Block(|sent| % COUNTER_RANGE, e)
    decreases |sent| - first
  {
    hide Block;
    var more := sent + [e];
    if first == |sent| {
      assert Wire(more, first + 1) == "";
      assert Block(first % COUNTER_RANGE, e) + "" == "" + Block(first % COUNTER_RANGE, e);
    } else {
      WireGrows(sent, e, first + 1);
      assert more[first] == sent[first];
    }
  }

  /** The block as it stands on the wire. */
  lemma BlockText(id: nat, e: Event)
    ensures var head := "Content-type: text/event-stream\r\n" + "Cache-Control: no-cache\r\n" +
                        ("id: " + Printed(id) + "\r\n");
            (e.data.Some? && e.name.Some? ==>
               Block(id, e) == head + "event: " + e.name.value + "\r\ndata: " + e.data.value + "\r\n\r\n") &&
            (e.data == None && e.name.Some? && e.name.value != "" ==>
               Block(id, e) == head + "event: " + e.name.value + "\r\ndata: \r\n\r\n") &&
            (e.data == None && (e.name == None || e.name.value == "") ==> Block(id, e) == head + "data: \r\n\r\n")
  {
    hide Printed, Line;
    var a, b := Line("Content-type", "text/event-stream"), Line("Cache-Control", "no-cache");
    var c := Line("id", Printed(id));
    HeadText(Printed(id));
    var d := Line("data", DataText(e)) + CRLF;
    PutTogether(a, b, c, EventLine(e), d);
    DataLineText(DataText(e));
    EventAndData(a + b + c, NameText(e), DataText(e));
    assert a + b + c + "" + d == a + b + c + d;
  }

  lemma HeadText(id: string)
    ensures Line("Content-type", "text/event-stream") == "Content-type: text/event-stream\r\n"
    ensures Line("Cache-Control", "no-cache") == "Cache-Control: no-cache\r\n"
    ensures Line("id", id) == "id: " + id + "\r\n"
  {
    assert "id" + ": " == "id: ";
  }

  lemma DataLineText(v: string)
    ensures Line("data", v) + CRLF == "data: " + v + "\r\n\r\n"
    ensures Line("data", "") + CRLF == "data: \r\n\r\n"
  {
    assert "data" + ": " == "data: " && CRLF + CRLF == "\r\n\r\n";
  }

  lemma PutTogether(a: string, b: string, c: string, d: string, e: string)
    ensures a + (b + (c + (d + e))) == a + b + c + d + e
  {
  }

  lemma EventAndData(head: string, n: string, d: string)
    ensures head + Line("event", n) + ("data: " + d + "\r\n\r\n") ==
            head + "event: " + n + "\r\ndata: " + d + "\r\n\r\n"
    ensures head + Line("event", n) + "data: \r\n\r\n" == head + "event: " + n + "\r\ndata: \r\n\r\n"
  {
    assert "event" + ": " == "event: ";
    assert Line("event", n) == "event: " + n + "\r\n";
    assert "\r\n" + "data: " == "\r\ndata: ";
    assert "\r\n" + "data: \r\n\r\n" == "\r\ndata: \r\n\r\n";
  }

  // ----- the printed ids -----

  /** Reads decimal digits. */
  function Digits(text: string): int {
    if text == "" then 0
    else 10 * Digits(text[..|text| - 1]) + (text[|text| - 1] as int - '0' as int)
  }

  /** Reads a number with an optional sign. */
  function Signed(text: string): int {
    if text != "" && text[0] == '-' then -Digits(text[1..]) else Digits(text)
  }

  lemma {:induction false} DecimalReads(n: nat)
    ensures Digits(Decimal(n)) == n && Decimal(n) != "" && Decimal(n)[0] != '-'
    decreases n
  {
    if n < 10 {
      DigitReads(n);
      assert Decimal(n)[..0] == "";
    } else {
      DecimalReads(n / 10);
      DigitReads(n % 10);
      var text := Decimal(n);
      assert text[..|text| - 1] == Decimal(n / 10);
    }
  }

  lemma DigitReads(d: nat)
    requires d < 10
    ensures "0123456789"[d] as int == '0' as int + d && "0123456789"[d] != '-'
  {
  }

  /** A printed id always tells the counter modulo 2^32; it is the counter itself exactly below 2^31. */
  lemma PrintedReads(id: nat)
    requires id < COUNTER_RANGE
    ensures Signed(Printed(id)) % COUNTER_RANGE == id
    ensures -0x8000_0000 <= Signed(Printed(id)) < 0x8000_0000
    ensures Signed(Printed(id)) == id <==> id < 0x8000_0000
  {
    hide Decimal, Digits;
    DecimalReads(id);
    DecimalReads(COUNTER_RANGE - id);
    assert ("-" + Decimal(COUNTER_RANGE - id))[1..] == Decimal(COUNTER_RANGE - id);
  }

  /** The id that follows 2147483647 on the wire. */
  lemma NegativeId()
    ensures Signed(Printed(0x7FFF_FFFF)) == 2147483647 && Signed(Printed(0x8000_0000)) == -2147483648
  {
    hide Printed, Signed;
    PrintedReads(0x7FFF_FFFF);
    PrintedReads(0x8000_0000);
  }
}
