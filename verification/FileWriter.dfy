/** Draining the upload buffer to a file in chunks, and the whole way from a request body to a file. */
module FileWriter {
  import opened Bytes
  import opened Wrappers
  import opened Multipart
  import opened FormData
  import opened StreamBuffer
  import opened UploadTheorem

  /** What the file system does with one append: the file cannot be opened, or up to `n` bytes are taken. */
  datatype Outcome = OpenFails | Accepts(n: nat)

  /** Result of a drain: whether it went through, what it wrote, and what is still in the buffer. */
  datatype Drain = Drain(ok: bool, written: Bytes, rest: Bytes)

  function Min(a: int, b: int): int { if a < b then a else b }

  /** Appends chunk after chunk; `call` numbers the appends. A short write still drops its whole chunk. */
  function Drained(buf: Bytes, chunk: nat, outcome: nat -> Outcome, call: nat): Drain
    requires chunk > 0
    decreases |buf|
  {
    if buf == [] then Drain(true, [], [])
    else
      var size := Min(chunk, |buf|);
      match outcome(call)
      case OpenFails => Drain(false, [], buf)
      case Accepts(n) =>
        if n == 0 then Drain(false, [], buf)
        else
          var later := Drained(buf[size..], chunk, outcome, call + 1);
          Drain(later.ok, buf[..Min(n, size)] + later.written, later.rest)
  }

  lemma DrainOfNothing(chunk: nat, outcome: nat -> Outcome, call: nat)
    requires chunk > 0
    ensures Drained([], chunk, outcome, call) == Drain(true, [], [])
  {
  }

  /** One append of a drain that has already written `written`. */
  lemma DrainTurn(written: Bytes, buf: Bytes, chunk: nat, outcome: nat -> Outcome, call: nat)
    requires chunk > 0 && buf != []
    ensures var d, size := Drained(buf, chunk, outcome, call), Min(chunk, |buf|);
            if outcome(call) == OpenFails || outcome(call).n == 0 then d == Drain(false, [], buf)
            else
              var later := Drained(buf[size..], chunk, outcome, call + 1);
              d.ok == later.ok && d.rest == later.rest &&
              written + d.written == (written + buf[..Min(outcome(call).n, size)]) + later.written
  {
  }

  /** Every append takes its chunk completely. */
  predicate AllComplete(buf: Bytes, chunk: nat, outcome: nat -> Outcome, call: nat)
    requires chunk > 0
    decreases |buf|
  {
    buf == [] ||
    (outcome(call).Accepts? && outcome(call).n >= Min(chunk, |buf|) &&
     AllComplete(buf[Min(chunk, |buf|)..], chunk, outcome, call + 1))
  }

  /** Every append takes its chunk completely or takes nothing. */
  ghost predicate CompleteOrFail(chunk: nat, outcome: nat -> Outcome) {
    forall k: nat :: outcome(k).Accepts? ==> outcome(k).n == 0 || outcome(k).n >= chunk
  }

  /** With appends that are complete or fail, no byte is lost, moved or written twice. */
  lemma {:induction false} DrainConserves(buf: Bytes, chunk: nat, outcome: nat -> Outcome, call: nat)
    requires chunk > 0 && CompleteOrFail(chunk, outcome)
    ensures var d := Drained(buf, chunk, outcome, call);
            d.written + d.rest == buf && (d.ok <==> d.rest == [])
    decreases |buf|
  {
    if buf != [] && outcome(call).Accepts? && outcome(call).n > 0 {
      var size := Min(chunk, |buf|);
      DrainConserves(buf[size..], chunk, outcome, call + 1);
      assert buf == buf[..size] + buf[size..];
    }
  }

  /** A drain that reports success wrote the buffer exactly when no append was short; the code does
      not see a short one. */
  lemma {:induction false} DrainIsExact(buf: Bytes, chunk: nat, outcome: nat -> Outcome, call: nat)
    requires chunk > 0
    ensures var d := Drained(buf, chunk, outcome, call);
            |d.written| <= |buf| && (d.ok && d.written == buf <==> AllComplete(buf, chunk, outcome, call))
    decreases |buf|
  {
    if buf != [] {
      var size := Min(chunk, |buf|);
      DrainIsExact(buf[size..], chunk, outcome, call + 1);
      assert buf == buf[..size] + buf[size..];
      if outcome(call).Accepts? && outcome(call).n > 0 {
        var later := Drained(buf[size..], chunk, outcome, call + 1);
        var head := buf[..Min(outcome(call).n, size)];
        if head + later.written == buf {
          assert |head| == size;
          assert later.written == (head + later.written)[size..] == buf[size..];
        }
      }
    }
  }

  /** Two bytes, and a file system that takes one at a time: the drain reports success, and the second
      byte is nowhere. */
  lemma ShortWriteLosesBytes()
    ensures Drained("ab", 2, k => Accepts(1), 0) == Drain(true, "a", [])
  {
    var outcome: nat -> Outcome := k => Accepts(1);
    assert "ab"[2..] == [] && "ab"[..1] == "a";
    DrainOfNothing(2, outcome, 1);
  }

  /** The target file, and how it will behave. */
  class Disk {
    var present: bool
    var content: Bytes
    var calls: nat
    const outcome: nat -> Outcome
    const removable: bool

    constructor (present: bool, content: Bytes, outcome: nat -> Outcome, removable: bool)
      ensures this.present == present && this.content == content && calls == 0
      ensures this.outcome == outcome && this.removable == removable
    {
      this.present, this.content, calls := present, content, 0;
      this.outcome, this.removable := outcome, removable;
    }

    /** `remove`: an existing file goes, unless the file system refuses. */
    method Remove()
      modifies this
      ensures calls == old(calls)
      ensures present == (old(present) && !removable)
      ensures content == if removable then [] else old(content)
    {
      if removable {
        present, content := false, [];
      }
    }

    /** `fopen` in append mode, one `fwrite`, `fclose`: yields the number of bytes taken, or -1. */
    method Append(bytes: Bytes) returns (rv: int)
      modifies this
      ensures calls == old(calls) + 1
      ensures outcome(old(calls)) == OpenFails ==> rv == -1 && content == old(content) && present == old(present)
      ensures outcome(old(calls)).Accepts? ==>
                rv == Min(outcome(old(calls)).n, |bytes|) && content == old(content) + bytes[..rv] && present
    {
      match outcome(calls)
      case OpenFails =>
        rv := -1;
        calls := calls + 1;
      case Accepts(n) =>
        rv := Min(n, |bytes|);
        present, content := true, content + bytes[..rv];
        calls := calls + 1;
    }
  }

  /** Writes the first chunk of the buffer and drops it from the buffer. */
  method AppendBytesToFile(stream: StreamData, disk: Disk, sizeOfChunk: int) returns (rv: int)
    requires stream.Valid()
    modifies stream, stream.data, disk
    ensures stream.Valid() && (stream.data == null || stream.data == old(stream.data) || fresh(stream.data))
    ensures sizeOfChunk <= 0 || old(stream.length) == 0 ==>
              rv == -1 && stream.Contents() == old(stream.Contents()) && disk.content == old(disk.content) &&
              disk.calls == old(disk.calls)
    ensures sizeOfChunk > 0 && old(stream.length) > 0 ==>
              var buf, size := old(stream.Contents()), Min(sizeOfChunk, old(stream.length));
              var o := disk.outcome(old(disk.calls));
              disk.calls == old(disk.calls) + 1 &&
              (if o == OpenFails || o.n == 0
               then rv == -1 && stream.Contents() == buf && disk.content == old(disk.content)
               else rv == size && stream.Contents() == buf[size..] &&
                    disk.content == old(disk.content) + buf[..Min(o.n, size)])
  {
    rv := -1;
    if !(sizeOfChunk > 0) || !(stream.length > 0) {
      return;
    }
    var size := if sizeOfChunk > stream.length then stream.length else sizeOfChunk;
    ghost var buf := stream.Contents();
    var taken := disk.Append(stream.data[..size]);
    assert stream.Contents() == buf && stream.data[..size] == buf[..size];
    if !(taken > 0) {
      assert disk.content == old(disk.content) + [] == old(disk.content);
      return;
    }
    var status := stream.RemoveAt(0, size);
    assert Cut(buf, 0, size) == buf[size..];
    assert buf[..size][..taken] == buf[..taken];
    rv := size;
  }

  /** Replaces the file by the buffer, chunk by chunk.  0: everything was handed over, -1: failure. */
  method StreamDataToFile(stream: StreamData, disk: Disk) returns (rv: int)
    requires stream.Valid()
    modifies stream, stream.data, disk
    ensures stream.Valid() && (stream.data == null || stream.data == old(stream.data) || fresh(stream.data))
    ensures old(stream.length) == 0 ==> rv == -1 && unchanged(disk)
    ensures old(stream.length) > 0 ==>
              var d := Drained(old(stream.Contents()), CHUNK_SIZE, disk.outcome, old(disk.calls));
              rv == (if d.ok then 0 else -1) && stream.Contents() == d.rest &&
              disk.content == (if old(disk.present) && disk.removable then [] else old(disk.content)) + d.written
  {
    hide Drained;
    rv := -1;
    if stream.length <= 0 || stream.data == null {
      return;
    }
    var size := stream.length;
    if disk.present {
      disk.Remove();
    }
    ghost var before := disk.content;
    ghost var written: Bytes := [];
    ghost var d := Drained(stream.Contents(), CHUNK_SIZE, disk.outcome, disk.calls);
    ghost var later := d;
    while size > 0
      invariant stream.Valid() && (stream.data == null || stream.data == old(stream.data) || fresh(stream.data))
      invariant size == stream.length && disk.content == before + written
      invariant later == Drained(stream.Contents(), CHUNK_SIZE, disk.outcome, disk.calls)
      invariant later.ok == d.ok && later.rest == d.rest && written + later.written == d.written
    {
      ghost var rest, call := stream.Contents(), disk.calls;
      DrainTurn(written, rest, CHUNK_SIZE, disk.outcome, call);
      var status := AppendBytesToFile(stream, disk, CHUNK_SIZE);
      if !(status > 0) {
        assert written + [] == written;
        return;
      }
      ghost var piece := rest[..Min(disk.outcome(call).n, status)];
      assert before + (written + piece) == before + written + piece;
      written := written + piece;
      later := Drained(stream.Contents(), CHUNK_SIZE, disk.outcome, disk.calls);
      size := size - status;
    }
    assert written + [] == written && later == Drain(true, [], []) by {
      DrainOfNothing(CHUNK_SIZE, disk.outcome, disk.calls);
    }
    rv := 0;
  }

  /** What a multipart request leaves in a fresh file; None when the upload is refused.  `call` numbers
      the first append. */
  function Uploaded(s: Bytes, boundary: Bytes, outcome: nat -> Outcome, call: nat): Option<Bytes> {
    var file := Parse(s, boundary);
    if file == None || file.value == [] then None
    else
      var d := Drained(file.value, CHUNK_SIZE, outcome, call);
      if d.ok then Some(d.written) else None
  }

  /** The way of a multipart request body into the target file.  The body is null when nothing was
      read, and ends in its terminating zero otherwise. */
  method GetFileFromMultipartForm(body: array?<char>, boundary: Bytes, disk: Disk) returns (rv: int)
    requires body != null ==> body.Length > 0 && body[body.Length - 1] == '\0'
    modifies body, disk
    ensures var s := if body == null then [] else old(body[..body.Length - 1]);
            var up := Uploaded(s, boundary, disk.outcome, old(disk.calls));
            rv == (if up.Some? then 0 else -1) &&
            (up.Some? ==> disk.content ==
                          (if old(disk.present) && disk.removable then [] else old(disk.content)) + up.value) &&
            (Parse(s, boundary) == None || Parse(s, boundary) == Some([]) ==> unchanged(disk))
  {
    rv := -1;
    if body == null || body.Length == 1 {
      return;
    }
    var stream := new StreamData(body);
    rv := stream.ParseMultipartForm(boundary);
    if rv != 0 {
      return;
    }
    rv := StreamDataToFile(stream, disk);
  }

  /** End to end: a clean form with a non-empty file and complete appends put exactly that file on disk. */
  lemma UploadStoresFile(x: Syntax, f: Form, k: nat, outcome: nat -> Outcome,
        call: nat)
    ensures FormOk(x, f) && FirstFile(x, f, k) && Clean(x, f, k) && f.parts[k].body.value != [] &&
            AllComplete(f.parts[k].body.value, CHUNK_SIZE, outcome, call) ==>
              Uploaded(FormText(x, f), x.boundary, outcome, call) == Some(f.parts[k].body.value)
  {
    hide FormOk, FormText, Parse, Clean, Drained, AllComplete;
    if FormOk(x, f) && FirstFile(x, f, k) {
      UploadIsPayload(x, f, k);
      DrainIsExact(f.parts[k].body.value, CHUNK_SIZE, outcome, call);
    }
  }
}
