/** Publishing a backup: cutting the archive into chunks sent as webhook
    attachments, and the chain of download scripts that lists them. */
module Upload {
  import opened Text
  import opened Hook

  /** The largest attachment `upload_chunked` sends, in bytes. */
  const CHUNK_SIZE: nat := 25_000_000

  function Min(a: int, b: int): int {
    if a <= b then a else b
  }

  // ---------------------------------------------------------------------------
  // Chunks

  /** How a stream is cut: full chunks of CHUNK_SIZE bytes, then one shorter
      last chunk, which is empty when the length is a multiple of CHUNK_SIZE. */
  function Chunks(data: seq<byte>): seq<seq<byte>> {
    seq(|data| / CHUNK_SIZE + 1,
        i requires 0 <= i <= |data| / CHUNK_SIZE => data[i * CHUNK_SIZE .. Min((i + 1) * CHUNK_SIZE, |data|)])
  }

  /** All chunks but the last are full, the last is shorter than a full one,
      and a stream is a single chunk exactly when it is shorter than CHUNK_SIZE. */
  lemma ChunkSizes(data: seq<byte>)
    ensures |Chunks(data)| == |data| / CHUNK_SIZE + 1
    ensures forall i :: 0 <= i < |Chunks(data)| - 1 ==> |Chunks(data)[i]| == CHUNK_SIZE
    ensures |Chunks(data)[|Chunks(data)| - 1]| < CHUNK_SIZE
    ensures |Chunks(data)| == 1 <==> |data| < CHUNK_SIZE
  {
  }

  lemma ChunksCons(data: seq<byte>)
    requires |data| >= CHUNK_SIZE
    ensures Chunks(data) == [data[..CHUNK_SIZE]] + Chunks(data[CHUNK_SIZE..])
  {
    var rest := data[CHUNK_SIZE..];
    assert |data| / CHUNK_SIZE == |rest| / CHUNK_SIZE + 1;
    forall i | 1 <= i < |Chunks(data)|
      ensures Chunks(data)[i] == Chunks(rest)[i - 1]
    {
      var lo, hi := (i - 1) * CHUNK_SIZE, Min(i * CHUNK_SIZE, |rest|);
      assert Chunks(rest)[i - 1] == rest[lo..hi];
      assert lo + CHUNK_SIZE == i * CHUNK_SIZE;
      assert hi + CHUNK_SIZE == Min((i + 1) * CHUNK_SIZE, |data|);
      assert Chunks(data)[i] == data[lo + CHUNK_SIZE..hi + CHUNK_SIZE];
      forall k | 0 <= k < hi - lo
        ensures rest[lo..hi][k] == data[lo + CHUNK_SIZE..hi + CHUNK_SIZE][k]
      {
        assert rest[lo + k] == data[CHUNK_SIZE + lo + k];
      }
      assert rest[lo..hi] == data[lo + CHUNK_SIZE..hi + CHUNK_SIZE];
    }
  }

  /** Joining the chunks gives back the stream. */
  lemma {:induction false} ChunksConcat(data: seq<byte>)
    ensures Concat(Chunks(data)) == data
    decreases |data|
  {
    if |data| < CHUNK_SIZE {
      assert |data| / CHUNK_SIZE == 0;
      assert Chunks(data)[0] == data[0..|data|] == data;
      assert Chunks(data) == [data];
      assert Concat([data]) == data + Concat([]);
    } else {
      ChunksCons(data);
      ChunksConcat(data[CHUNK_SIZE..]);
      var cs := Chunks(data);
      assert cs[1..] == Chunks(data[CHUNK_SIZE..]);
      assert data == data[..CHUNK_SIZE] + data[CHUNK_SIZE..];
    }
  }

  /** What a chunk is called: `chunk_<i>.zip` for the archive, and
      `script_<level>_<i>.zip` for the download script of a level. */
  datatype Naming = Archive | ScriptLevel(level: nat)

  function ChunkName(naming: Naming, i: nat): string {
    match naming
    case Archive => "chunk_" + Decimal(i) + ".zip"
    case ScriptLevel(level) => "script_" + Decimal(level) + "_" + Decimal(i) + ".zip"
  }

  /** The message acknowledged for chunk `i` of a stream: the chunk as its only
      file, under its name, and no text. */
  function ChunkMessage(naming: Naming, data: seq<byte>, i: nat, id: nat): Message
    requires i < |Chunks(data)|
  {
    Message(Some(id), None, [(ChunkName(naming, i), Chunks(data)[i])])
  }

  /** The messages acknowledged for the first |ids| chunks of a stream. */
  function ChunkMessages(naming: Naming, data: seq<byte>, ids: seq<nat>): (ms: seq<Message>)
    requires |ids| <= |Chunks(data)|
    ensures |ms| == |ids|
    decreases |ids|
  {
    if ids == [] then []
    else ChunkMessages(naming, data, ids[..|ids| - 1]) + [ChunkMessage(naming, data, |ids| - 1, ids[|ids| - 1])]
  }

  // ---------------------------------------------------------------------------
  // Script entries

  /** `;dl <id>` for each id, in order: the calls a download script makes. */
  function DlText(ids: seq<nat>): (s: string)
    ensures IsAscii(s)
    ensures s == [] || s[0] == ';'
    decreases |ids|
  {
    if ids == [] then [] else ";dl " + Decimal(ids[0]) + DlText(ids[1..])
  }

  lemma {:induction false} DlTextSnoc(ids: seq<nat>, id: nat)
    ensures DlText(ids + [id]) == DlText(ids) + ";dl " + Decimal(id)
    decreases |ids|
  {
    if ids == [] {
      assert ids + [id] == [id];
    } else {
      assert (ids + [id])[1..] == ids[1..] + [id];
      DlTextSnoc(ids[1..], id);
    }
  }

  /** Each entry takes at most 24 characters: `;dl ` and at most 20 digits. */
  lemma {:induction false} DlTextLength(ids: seq<nat>)
    requires forall i :: 0 <= i < |ids| ==> ids[i] < U64_LIMIT
    ensures |DlText(ids)| <= 24 * |ids|
    decreases |ids|
  {
    if ids != [] {
      U64DecimalLength(ids[0]);
      DlTextLength(ids[1..]);
    }
  }

  /** The number of decimal digits at the start of `s`. */
  function DigitRun(s: string): (n: nat)
    ensures n <= |s| && AllDigits(s[..n])
    ensures n < |s| ==> !IsDigit(s[n])
    decreases |s|
  {
    if s == [] || !IsDigit(s[0]) then 0
    else
      var n := 1 + DigitRun(s[1..]);
      assert s[..n] == [s[0]] + s[1..][..n - 1];
      n
  }

  /** Reads the ids back out of a run of `;dl <id>` entries. */
  function ParseEntries(s: string): Option<seq<nat>>
    decreases |s|
  {
    if s == [] then Some([])
    else if |s| >= 4 && s[..4] == ";dl " then
      var n := DigitRun(s[4..]);
      if n == 0 then None
      else
        match ParseEntries(s[4..][n..])
        case Some(rest) => Some([DigitsValue(s[4..][..n])] + rest)
        case None => None
    else None
  }

  lemma {:induction false} DigitRunOf(d: string, t: string)
    requires AllDigits(d) && (t == [] || !IsDigit(t[0]))
    ensures DigitRun(d + t) == |d|
    decreases |d|
  {
    if d == [] {
      assert d + t == t;
    } else {
      assert (d + t)[1..] == d[1..] + t;
      DigitRunOf(d[1..], t);
    }
  }

  lemma ParseEntriesStep(s: string, t: string, d: string, rest: string)
    requires |s| >= 4 && s[..4] == ";dl " && s[4..] == t
    requires |d| >= 1 && DigitRun(t) == |d| && t[..|d|] == d && t[|d|..] == rest
    requires ParseEntries(rest).Some?
    ensures ParseEntries(s) == Some([DigitsValue(d)] + ParseEntries(rest).value)
  {
  }

  /** One entry `;dl <digits>` followed by more entries reads as its value
      followed by theirs. */
  lemma ParseEntriesCons(d: string, rest: string)
    requires |d| >= 1 && AllDigits(d) && (rest == [] || rest[0] == ';')
    requires ParseEntries(rest).Some?
    ensures ParseEntries(";dl " + d + rest) == Some([DigitsValue(d)] + ParseEntries(rest).value)
  {
    var s := ";dl " + d + rest;
    var t := d + rest;
    assert s[..4] == ";dl " && s[4..] == t by {
      AppendAssoc(";dl ", d, rest);
    }
    assert DigitRun(t) == |d| by {
      DigitRunOf(d, rest);
    }
    assert t[..|d|] == d && t[|d|..] == rest;
    ParseEntriesStep(s, t, d, rest);
  }

  /** The entries written for a list of ids read back as that list. */
  lemma {:induction false} ParseDlText(ids: seq<nat>)
    ensures ParseEntries(DlText(ids)) == Some(ids)
    decreases |ids|
  {
    if ids != [] {
      ParseDlText(ids[1..]);
      ParseDlTextStep(ids);
    }
  }

  lemma ParseDlTextStep(ids: seq<nat>)
    requires ids != [] && ParseEntries(DlText(ids[1..])) == Some(ids[1..])
    ensures ParseEntries(DlText(ids)) == Some(ids)
  {
    var d := Decimal(ids[0]);
    var rest := DlText(ids[1..]);
    assert DigitsValue(d) == ids[0] by {
      DecimalRoundTrip(ids[0]);
    }
    assert ParseEntries(DlText(ids)) == Some([DigitsValue(d)] + ids[1..]) by {
      assert DlText(ids) == ";dl " + d + rest;
      ParseEntriesCons(d, rest);
    }
    assert [ids[0]] + ids[1..] == ids;
  }

  // ---------------------------------------------------------------------------
  // The disk

  /** What one read call does: deliver at most `limit` bytes (at least one
      unless the file is exhausted), or fail. */
  datatype ReadStep = Give(limit: nat) | Fail

  /** The local file system's behaviour: whether each coming fallible file
      operation (create, open, write, flush) fails, and how each coming read
      behaves. Once a list runs out, operations succeed and reads fill what
      they can. */
  class Disk {
    var faults: seq<bool>
    var readSteps: seq<ReadStep>

    constructor (faults: seq<bool>, readSteps: seq<ReadStep>)
      ensures this.faults == faults && this.readSteps == readSteps
    {
      this.faults := faults;
      this.readSteps := readSteps;
    }

    /** Whether the next fallible file operation fails. */
    method Fault() returns (failed: bool)
      modifies this
      ensures failed == (old(faults) != [] && old(faults)[0])
      ensures faults == if old(faults) == [] then [] else old(faults)[1..]
      ensures readSteps == old(readSteps)
    {
      if faults == [] {
        failed := false;
      } else {
        failed := faults[0];
        faults := faults[1..];
      }
    }
  }

  /** How many bytes a read delivers into `space` free bytes of buffer with
      `remaining` bytes left in the file. */
  function ReadSize(readSteps: seq<ReadStep>, space: nat, remaining: nat): (n: nat)
    ensures n <= space && n <= remaining
    ensures space >= 1 ==> (n == 0 <==> remaining == 0)
  {
    var limit := if readSteps != [] && readSteps[0].Give? && readSteps[0].limit >= 1 then readSteps[0].limit else space + 1;
    Min(Min(limit, space), remaining)
  }

  /** A file written from the start, such as the download script. */
  class TempFile {
    var text: seq<byte>

    constructor ()
      ensures text == []
    {
      text := [];
    }

    /** `write_all`; a failed write is taken to append nothing. */
    method Write(disk: Disk, bytes: seq<byte>) returns (ok: bool)
      modifies this, disk
      ensures ok == !(old(disk.faults) != [] && old(disk.faults)[0])
      ensures disk.faults == (if old(disk.faults) == [] then [] else old(disk.faults)[1..]) && disk.readSteps == old(disk.readSteps)
      ensures text == if ok then old(text) + bytes else old(text)
    {
      var failed := disk.Fault();
      ok := !failed;
      if ok {
        text := text + bytes;
      }
    }
  }

  /** A file opened for reading: its contents and the read position. */
  class Reader {
    const data: seq<byte>
    var pos: nat

    constructor (data: seq<byte>)
      ensures this.data == data && pos == 0
    {
      this.data := data;
      pos := 0;
    }

    /** `read` into `buf[at..]`: None on an I/O error, otherwise how many
        bytes were copied from the read position on. */
    method Read(disk: Disk, buf: array<byte>, at: nat) returns (got: Option<nat>)
      requires pos <= |data| && at < buf.Length
      modifies this, buf, disk
      ensures disk.faults == old(disk.faults) && disk.readSteps == if old(disk.readSteps) == [] then [] else old(disk.readSteps)[1..]
      ensures old(disk.readSteps) != [] && old(disk.readSteps)[0].Fail? ==>
                got == None && pos == old(pos) && buf[..] == old(buf[..])
      ensures !(old(disk.readSteps) != [] && old(disk.readSteps)[0].Fail?) ==>
                var n := ReadSize(old(disk.readSteps), buf.Length - at, |data| - old(pos));
                got == Some(n) && pos == old(pos) + n
                && buf[..] == old(buf[..at]) + data[old(pos)..pos] + old(buf[at + n..])
    {
      if disk.readSteps != [] && disk.readSteps[0].Fail? {
        disk.readSteps := disk.readSteps[1..];
        return None;
      }
      var n := ReadSize(disk.readSteps, buf.Length - at, |data| - pos);
      if disk.readSteps != [] {
        disk.readSteps := disk.readSteps[1..];
      }
      forall k | 0 <= k < n {
        buf[at + k] := data[pos + k];
      }
      assert buf[..] == old(buf[..at]) + data[pos..pos + n] + old(buf[at + n..]);
      pos := pos + n;
      got := Some(n);
    }
  }

  // ---------------------------------------------------------------------------
  // upload_chunked

  /** Passes on an outcome that carries no value. */
  function Relay<T, U>(o: Outcome<T>): Outcome<U>
    requires !o.Done?
  {
    match o
    case IoFailed => IoFailed
    case Panicked => Panicked
    case Stalled => Stalled
  }

  /** Sends a message whose only content is one file; Done carries the id. */
  method SendFile(hook: Webhook, net: Network, name: string, bytes: seq<byte>) returns (r: Outcome<nat>)
    requires net.Valid()
    modifies net
    ensures net.Valid()
    ensures r.Done? ==> 0 < r.value < U64_LIMIT && |net.replies| < |old(net.replies)|
                        && net.acked == old(net.acked) + [Message(Some(r.value), None, [(name, bytes)])]
    ensures !r.Done? ==> !r.IoFailed? && net.acked == old(net.acked) && |net.replies| <= |old(net.replies)|
  {
    var m := File(NewMessage, name, bytes);
    ghost var candidates, replies := net.candidates, net.replies;
    var sent := Send(hook, net, m);
    SendDoneKeepsMessage(hook, m, candidates, replies);
    if !sent.Done? {
      return Relay(sent);
    }
    var v := sent.value.id.value;
    assert sent.value == Message(Some(v), None, [(name, bytes)]) by {
      assert sent.value.content == None && sent.value.files == [(name, bytes)];
    }
    r := Done(v);
  }

  lemma ChunkMessagesSnoc(naming: Naming, data: seq<byte>, ids: seq<nat>, id: nat)
    requires |ids| < |Chunks(data)|
    ensures ChunkMessages(naming, data, ids + [id]) == ChunkMessages(naming, data, ids) + [ChunkMessage(naming, data, |ids|, id)]
  {
    assert (ids + [id])[..|ids|] == ids;
  }

  /** What one more acknowledged chunk adds to the log of sent messages and to
      the download script, starting from `acked` and `text`. */
  lemma Recorded(naming: Naming, data: seq<byte>, ids: seq<nat>, id: nat, acked: seq<Message>, text: seq<byte>)
    requires |ids| < |Chunks(data)| && 0 < id < U64_LIMIT
    requires forall j :: 0 <= j < |ids| ==> 0 < ids[j] < U64_LIMIT
    ensures acked + ChunkMessages(naming, data, ids + [id])
            == (acked + ChunkMessages(naming, data, ids)) + [ChunkMessage(naming, data, |ids|, id)]
    ensures text + Utf8(DlText(ids + [id])) == (text + Utf8(DlText(ids))) + Utf8(";dl " + Decimal(id))
    ensures forall j :: 0 <= j < |ids + [id]| ==> 0 < (ids + [id])[j] < U64_LIMIT
  {
    ChunkMessagesSnoc(naming, data, ids, id);
    AppendAssoc(acked, ChunkMessages(naming, data, ids), [ChunkMessage(naming, data, |ids|, id)]);
    DlBytesSnoc(ids, id);
    AppendAssoc(text, Utf8(DlText(ids)), Utf8(";dl " + Decimal(id)));
  }

  lemma DlBytesSnoc(ids: seq<nat>, id: nat)
    ensures Utf8(DlText(ids + [id])) == Utf8(DlText(ids)) + Utf8(";dl " + Decimal(id))
  {
    DlTextSnoc(ids, id);
    assert DlText(ids) + ";dl " + Decimal(id) == DlText(ids) + (";dl " + Decimal(id));
    Utf8Append(DlText(ids), ";dl " + Decimal(id));
  }

  lemma ChunkIsSlice(data: seq<byte>, i: nat, n: nat)
    requires i * CHUNK_SIZE + n <= |data| && n <= CHUNK_SIZE
    requires n == CHUNK_SIZE || i * CHUNK_SIZE + n == |data|
    ensures i < |Chunks(data)| && Chunks(data)[i] == data[i * CHUNK_SIZE .. i * CHUNK_SIZE + n]
    ensures n < CHUNK_SIZE ==> i == |Chunks(data)| - 1
    ensures n == CHUNK_SIZE ==> i < |Chunks(data)| - 1
  {
  }

  /** A read position on a chunk boundary inside the data is the start of a chunk. */
  lemma ChunkIndex(data: seq<byte>, i: nat)
    requires i * CHUNK_SIZE <= |data|
    ensures i < |Chunks(data)|
  {
  }

  /** The inner loop of `upload_chunked`: read into the buffer until it is
      full or a read returns nothing (`end`); false on an I/O error. */
  method FillBuffer(disk: Disk, file: Reader, buffer: array<byte>) returns (ok: bool, ptr: nat, end: bool)
    requires file.pos <= |file.data| && buffer.Length == CHUNK_SIZE
    modifies disk, file, buffer
    ensures ptr <= CHUNK_SIZE && file.pos == old(file.pos) + ptr <= |file.data|
    ensures ok ==> buffer[..ptr] == file.data[old(file.pos)..file.pos]
    ensures ok ==> (if end then ptr < CHUNK_SIZE && file.pos == |file.data| else ptr == CHUNK_SIZE)
  {
    ptr, end := 0, false;
    while ptr < CHUNK_SIZE
      invariant ptr <= CHUNK_SIZE && file.pos == old(file.pos) + ptr <= |file.data|
      invariant buffer[..ptr] == file.data[old(file.pos)..file.pos]
      invariant !end
      decreases CHUNK_SIZE - ptr
    {
      ghost var before := buffer[..];
      var got := file.Read(disk, buffer, ptr);
      if got.None? {
        return false, ptr, end;
      }
      assert buffer[..ptr] == before[..ptr];
      assert buffer[ptr..ptr + got.value] == file.data[file.pos - got.value..file.pos];
      ptr := ptr + got.value;
      if got.value == 0 {
        end := true;
        break;
      }
    }
    ok := true;
  }

  /** How one round of `upload_chunked` ends: go on with the next chunk, stop
      after the last one, or stop early with an outcome that carries no value. */
  datatype Step = Next | Last | Halt(outcome: Outcome<nat>)

  /** One round of `upload_chunked`: fill the buffer with chunk `i`, send it,
      and write its entry to `sink`. `sent` is the id of the message the
      service acknowledged for the chunk, if any. */
  method UploadStep(hook: Webhook, net: Network, disk: Disk, file: Reader, naming: Naming, sink: TempFile,
                    buffer: array<byte>, i: nat, ghost start: nat)
    returns (sent: Option<nat>, step: Step)
    requires net.Valid() && buffer.Length == CHUNK_SIZE
    requires start + i * CHUNK_SIZE == file.pos <= |file.data|
    modifies net, disk, file, sink, buffer
    ensures net.Valid()
    ensures i < |Chunks(file.data[start..])|
    ensures sent.Some? ==> 0 < sent.value < U64_LIMIT && |net.replies| < |old(net.replies)|
                           && net.acked == old(net.acked) + [ChunkMessage(naming, file.data[start..], i, sent.value)]
    ensures sent.None? ==> net.acked == old(net.acked) && |net.replies| <= |old(net.replies)|
    ensures !step.Halt? ==> sent.Some? && sink.text == old(sink.text) + Utf8(";dl " + Decimal(sent.value))
    ensures step.Halt? ==> !step.outcome.Done? && sink.text == old(sink.text) && (sent.Some? ==> step.outcome.IoFailed?)
    ensures step.Next? ==> file.pos == start + (i + 1) * CHUNK_SIZE <= |file.data| && i + 1 < |Chunks(file.data[start..])|
    ensures step.Last? ==> i == |Chunks(file.data[start..])| - 1
  {
    ghost var data := file.data[start..];
    ChunkIndex(data, i);
    sent := None;
    var ok, ptr, end := FillBuffer(disk, file, buffer);
    if !ok {
      return None, Halt(IoFailed);
    }
    assert buffer[..ptr] == data[i * CHUNK_SIZE .. i * CHUNK_SIZE + ptr];
    if ptr == CHUNK_SIZE || end {
      ChunkIsSlice(data, i, ptr);
      var r := SendFile(hook, net, ChunkName(naming, i), buffer[..ptr]);
      if !r.Done? {
        return None, Halt(Relay(r));
      }
      sent := Some(r.value);
      var written := sink.Write(disk, Utf8(";dl " + Decimal(r.value)));
      if !written {
        return sent, Halt(IoFailed);
      }
      if end {
        return sent, Last;
      }
    }
    step := Next;
  }

  /** `upload_chunked`: read the file chunk by chunk into one buffer, send
      each chunk as the only file of a message, and write `;dl <id>` for it to
      `sink`; stop after the first chunk that is shorter than CHUNK_SIZE.
      Done carries the index of the last chunk. */
  method UploadChunked(hook: Webhook, net: Network, disk: Disk, file: Reader, naming: Naming, sink: TempFile)
    returns (r: Outcome<nat>, ids: seq<nat>)
    requires net.Valid() && file.pos <= |file.data|
    modifies net, disk, file, sink
    ensures net.Valid()
    ensures var data := file.data[old(file.pos)..];
            |ids| <= |Chunks(data)| && net.acked == old(net.acked) + ChunkMessages(naming, data, ids)
            && (r.Done? ==> |ids| == |Chunks(data)| && r.value == |ids| - 1)
    ensures r.Done? ==> sink.text == old(sink.text) + Utf8(DlText(ids))
    ensures !r.Done? ==> sink.text == old(sink.text) + Utf8(DlText(ids))
                         || (r.IoFailed? && |ids| >= 1 && sink.text == old(sink.text) + Utf8(DlText(ids[..|ids| - 1])))
    ensures forall i :: 0 <= i < |ids| ==> 0 < ids[i] < U64_LIMIT
    ensures |net.replies| + |ids| <= |old(net.replies)|
  {
    ghost var start := file.pos;
    ghost var data := file.data[start..];
    var buffer := new byte[CHUNK_SIZE](_ => 0);
    var i: nat := 0;
    ids := [];
    while true
      invariant net.Valid()
      invariant i == |ids| && start + i * CHUNK_SIZE == file.pos <= |file.data|
      invariant i < |Chunks(data)|
      invariant net.acked == old(net.acked) + ChunkMessages(naming, data, ids)
      invariant sink.text == old(sink.text) + Utf8(DlText(ids))
      invariant forall j :: 0 <= j < |ids| ==> 0 < ids[j] < U64_LIMIT
      invariant |net.replies| + |ids| <= |old(net.replies)|
      decreases |file.data| - file.pos
    {
      var sent, step := UploadStep(hook, net, disk, file, naming, sink, buffer, i, start);
      if sent.Some? {
        Recorded(naming, data, ids, sent.value, old(net.acked), old(sink.text));
        ids := ids + [sent.value];
      }
      if step.Halt? {
        r := step.outcome;
        break;
      }
      if step.Last? {
        r := Done(i);
        break;
      }
      i := i + 1;
    }
  }
}
