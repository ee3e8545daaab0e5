/** The multiline aggregator: each operation as a function on the tail state of one file,
    and the tiling invariant every operation keeps. */
module Multiline {
  import opened Options
  import opened Utf8
  import opened Lines
  import opened Assembly

  /** `MultilineOpts`; the compiled start pattern is a predicate on normalized lines. */
  datatype Opts = Opts(isStart: string -> bool, timeout: nat, maxBytes: nat)

  /** Settings under which no line starts a record. */
  const NO_STARTS := Opts((text: string) => false, 0, 100)

  /** A record that left the aggregator: the bytes it stands for, the lines they were read
      as, and its text. A blank record is skipped instead of offered. */
  datatype Shipped = Shipped(from: nat, to: nat, lines: seq<Chunks>, text: string)

  /** The offsets and buffers of `TailedFile` and its `Aggregator`. The last three fields are
      history: the chunks behind `partial`, the lines behind `record`, what was shipped. */
  datatype Tail = Tail(
    pos: nat,
    record: string,
    recordBytes: nat,
    readAhead: nat,
    partial: string,
    partialBytes: nat,
    lastAppend: Option<nat>,
    chunks: Chunks,
    lines: seq<Chunks>,
    log: seq<Shipped>)

  /** A file just registered at `pos`. */
  function Fresh(pos: nat): Tail { Tail(pos, "", 0, pos, "", 0, None, [], [], []) }

  // ---------------------------------------------------------------- operations

  /** `ship`: the new state and whether the caller may go on. */
  function Ship(t: Tail, accept: bool): (Tail, bool) {
    if t.recordBytes == 0 then (t, true)
    else if Blank(t.record) || accept then
      (t.(pos := t.pos + t.recordBytes, record := "", recordBytes := 0, lastAppend := None, lines := [],
          log := t.log + [Shipped(t.pos, t.pos + t.recordBytes, t.lines, t.record)]), true)
    else (t, false)
  }

  /** The normalized text of the line that `chunk` completes. */
  function Completed(t: Tail, chunk: seq<Byte>): string
    requires chunk != []
  {
    Normalize(t.partial + Lossy(Init(chunk)))
  }

  predicate IsStart(text: string, ml: Opts) { text != "" && ml.isStart(text) }

  /** The second half of `commit_line`: the line joins the record. */
  function AddLine(t: Tail, chunk: seq<Byte>, ml: Opts, now: nat): Tail
    requires chunk != []
  {
    t.(record := AppendText(t.record, Completed(t, chunk), ml.maxBytes),
       recordBytes := t.recordBytes + t.partialBytes + |chunk|,
       readAhead := t.readAhead + |chunk|,
       partial := "", partialBytes := 0, lastAppend := Some(now),
       chunks := [], lines := t.lines + [t.chunks + [chunk]])
  }

  /** `commit_line` on a chunk that ends in a newline: a start line first ships the record
      in flight, and when that is refused nothing is consumed. */
  function CommitLine(t: Tail, chunk: seq<Byte>, accept: bool, ml: Opts, now: nat): (Tail, bool)
    requires chunk != []
  {
    var (s, ok) := if IsStart(Completed(t, chunk), ml) && t.recordBytes > 0 then Ship(t, accept) else (t, true);
    if !ok then (s, false) else (AddLine(s, chunk, ml, now), true)
  }

  /** A chunk without a newline: buffer it and move the read cursor only. */
  function BufferPartial(t: Tail, chunk: seq<Byte>): Tail {
    t.(readAhead := t.readAhead + |chunk|, partialBytes := t.partialBytes + |chunk|,
       partial := PushPartial(t.partial, chunk), chunks := t.chunks + [chunk])
  }

  /** One turn of `read_loop` on the bytes now in the file; `accept` is what the sink
      answers if a record is offered. A refusal leaves the state as it was. */
  function Step(t: Tail, file: seq<Byte>, accept: bool, ml: Opts, now: nat): Tail
    requires t.readAhead <= |file|
  {
    var chunk := NextChunk(file[t.readAhead..]);
    if chunk == [] then t
    else if Terminated(chunk) then CommitLine(t, chunk, accept, ml, now).0
    else BufferPartial(t, chunk)
  }

  /** `fold_partial`: the trailing sub-line becomes the last line of the record. It is not
      tested against the start pattern. */
  function FoldPartial(t: Tail, ml: Opts): Tail {
    if t.partial == "" then t
    else
      t.(record := AppendText(t.record, Normalize(t.partial), ml.maxBytes),
         recordBytes := t.recordBytes + t.partialBytes,
         partial := "", partialBytes := 0, chunks := [], lines := t.lines + [t.chunks])
  }

  /** `flush_final`, and the last step of `drain`. */
  function Flush(t: Tail, accept: bool, ml: Opts): (Tail, bool) { Ship(FoldPartial(t, ml), accept) }

  /** Whether the in-flight record has been idle for the timeout. */
  predicate Expired(t: Tail, ml: Opts, now: nat) {
    var idle := if t.lastAppend.Some? && t.lastAppend.value <= now then now - t.lastAppend.value else 0;
    t.recordBytes > 0 && idle >= ml.timeout
  }

  /** `flush_if_expired`, the state half. */
  function FlushIfExpired(t: Tail, accept: bool, ml: Opts, now: nat): Tail {
    if Expired(t, ml, now) then Ship(t, accept).0 else t
  }

  // ---------------------------------------------------------------- the tiling invariant

  predicate LinesOk(lines: seq<Chunks>) { forall i :: 0 <= i < |lines| ==> LineOk(lines[i]) }

  /** The counters tile the file: `[pos, pos + recordBytes)` is the in-flight record and
      `[pos + recordBytes, readAhead)` is the sub-line partial, byte for byte; both texts
      are what those bytes decode to. */
  predicate Tiled(t: Tail, file: seq<Byte>, ml: Opts) {
    && t.readAhead == t.pos + t.recordBytes + t.partialBytes <= |file|
    && file[t.pos..t.readAhead] == LinesBytes(t.lines) + Flat(t.chunks)
    && t.recordBytes == |LinesBytes(t.lines)|
    && t.partialBytes == |Flat(t.chunks)|
    && LinesOk(t.lines) && Pending(t.chunks)
    && t.record == RecordText(t.lines, ml.maxBytes)
    && t.partial == PartialText(t.chunks)
  }

  lemma FreshTiled(pos: nat, file: seq<Byte>, ml: Opts)
    requires pos <= |file|
    ensures Tiled(Fresh(pos), file, ml)
  {
  }

  /** What a reader of the invariant gets: the two spans, and that an empty partial text
      means no pending byte. */
  lemma TiledSpans(t: Tail, file: seq<Byte>, ml: Opts)
    requires Tiled(t, file, ml)
    ensures file[t.pos..t.pos + t.recordBytes] == LinesBytes(t.lines)
    ensures file[t.pos + t.recordBytes..t.readAhead] == Flat(t.chunks)
    ensures NEWLINE !in Flat(t.chunks)
    ensures t.partial == "" <==> t.partialBytes == 0
    ensures t.partialBytes == 0 <==> t.chunks == []
    ensures Len(t.record) <= ml.maxBytes && Len(t.partial) <= MAX_PARTIAL_BYTES
  {
    hide RecordText, PartialText, LineOk, LinesBytes, Flat, Len;
    PendingFlat(t.chunks);
    PartialCapped(t.chunks);
    PendingBytes(t.chunks);
    RecordCapped(t.lines, ml.maxBytes);
    var mid := file[t.pos..t.readAhead];
    assert mid[..t.recordBytes] == file[t.pos..t.pos + t.recordBytes];
    assert mid[t.recordBytes..] == file[t.pos + t.recordBytes..t.readAhead];
  }

  /** A record is in flight exactly when a line has been committed to it. */
  lemma RecordIffLines(lines: seq<Chunks>)
    requires LinesOk(lines)
    ensures |LinesBytes(lines)| == 0 <==> lines == []
  {
    if lines != [] {
      var l := Last(lines);
      assert LineOk(l);
      assert l == Init(l) + [Last(l)];
      FlatSnoc(Init(l), Last(l));
    }
  }

  /** Growth of the file keeps the invariant. */
  lemma GrowTiled(t: Tail, file: seq<Byte>, more: seq<Byte>, ml: Opts)
    requires Tiled(t, file, ml)
    ensures Tiled(t, file + more, ml)
  {
    hide RecordText, PartialText, LinesOk, Pending, LinesBytes, Flat;
    assert (file + more)[t.pos..t.readAhead] == file[t.pos..t.readAhead];
  }

  lemma ShipTiled(t: Tail, file: seq<Byte>, accept: bool, ml: Opts)
    requires Tiled(t, file, ml)
    ensures Tiled(Ship(t, accept).0, file, ml)
  {
    hide LinesOk, Flat, PartialText, Blank, LinesBytes, RecordText, Pending;
    var s := Ship(t, accept).0;
    if s != t {
      TiledSpans(t, file, ml);
      NoLines(ml.maxBytes);
      assert LinesBytes([]) + Flat(t.chunks) == Flat(t.chunks);
    }
  }

  lemma NoLines(max: nat)
    ensures LinesOk([]) && LinesBytes([]) == [] && RecordText([], max) == ""
  {
  }

  lemma AddLineTiled(t: Tail, file: seq<Byte>, chunk: seq<Byte>, ml: Opts, now: nat)
    requires Tiled(t, file, ml)
    requires t.readAhead + |chunk| <= |file| && file[t.readAhead..t.readAhead + |chunk|] == chunk
    requires Terminated(chunk) && NEWLINE !in Init(chunk)
    ensures Tiled(AddLine(t, chunk, ml, now), file, ml)
  {
    hide AppendText, Normalize, RecordText, PartialText, LinesBytes, Flat;
    var line := t.chunks + [chunk];
    assert Init(line) == t.chunks && Last(line) == chunk;
    RecordTextSnoc(t.lines, line, ml.maxBytes);
    FlatSnoc(t.chunks, chunk);
    var s := AddLine(t, chunk, ml, now);
    assert file[s.pos..s.readAhead] == file[t.pos..t.readAhead] + chunk;
    NoChunks();
    assert LinesBytes(s.lines) == LinesBytes(t.lines) + (Flat(t.chunks) + chunk);
    assert LineOk(line);
  }

  lemma NoChunks()
    ensures Flat<Byte>([]) == [] && PartialText([]) == "" && Pending([])
  {
  }

  lemma BufferPartialTiled(t: Tail, file: seq<Byte>, chunk: seq<Byte>, ml: Opts)
    requires Tiled(t, file, ml)
    requires t.readAhead + |chunk| <= |file| && file[t.readAhead..t.readAhead + |chunk|] == chunk
    requires chunk != [] && NEWLINE !in chunk
    ensures Tiled(BufferPartial(t, chunk), file, ml)
  {
    hide PushPartial, RecordText, PartialText, LinesBytes, Flat, LinesOk;
    PartialTextSnoc(t.chunks, chunk);
    FlatSnoc(t.chunks, chunk);
    var s := BufferPartial(t, chunk);
    assert file[s.pos..s.readAhead] == file[t.pos..t.readAhead] + chunk;
  }

  lemma StepTiled(t: Tail, file: seq<Byte>, accept: bool, ml: Opts, now: nat)
    requires Tiled(t, file, ml)
    ensures Tiled(Step(t, file, accept, ml, now), file, ml)
  {
    hide NextChunk, Tiled, AddLine, BufferPartial, IsStart, Completed;
    var ahead := t.readAhead;
    var chunk := NextAt(t, file, ml);
    if chunk == [] {
    } else if Terminated(chunk) {
      ShipTiled(t, file, accept, ml);
      var s := Ship(t, accept).0;
      if CommitLine(t, chunk, accept, ml, now).1 {
        if IsStart(Completed(t, chunk), ml) && t.recordBytes > 0 {
          AddLineTiled(s, file, chunk, ml, now);
        } else {
          AddLineTiled(t, file, chunk, ml, now);
        }
      }
    } else {
      BufferPartialTiled(t, file, chunk, ml);
    }
  }

  /** The chunk the next turn reads, and its shape. */
  lemma NextAt(t: Tail, file: seq<Byte>, ml: Opts) returns (chunk: seq<Byte>)
    requires Tiled(t, file, ml)
    ensures t.readAhead <= |file| && chunk == NextChunk(file[t.readAhead..])
    ensures t.readAhead + |chunk| <= |file| && file[t.readAhead..t.readAhead + |chunk|] == chunk
    ensures chunk == [] <==> t.readAhead == |file|
    ensures chunk != [] ==> NEWLINE !in Init(chunk)
    ensures chunk != [] && !Terminated(chunk) ==> NEWLINE !in chunk && t.readAhead + |chunk| == |file|
  {
    hide NextChunk;
    chunk := NextChunk(file[t.readAhead..]);
    ChunkShape(file[t.readAhead..]);
  }

  lemma FoldTiled(t: Tail, file: seq<Byte>, ml: Opts)
    requires Tiled(t, file, ml)
    ensures Tiled(FoldPartial(t, ml), file, ml)
    ensures FoldPartial(t, ml).partialBytes == 0
  {
    hide AppendText, Normalize, RecordText, LinesBytes, Flat, PartialText;
    TiledSpans(t, file, ml);
    if t.partial != "" {
      var l := Last(t.chunks);
      assert l in t.chunks && l != [] && NEWLINE !in l;
      assert !Terminated(l) && LineText(t.chunks) == t.partial;
      assert NEWLINE !in Init(l);
      RecordTextSnoc(t.lines, t.chunks, ml.maxBytes);
      NoChunks();
      assert LinesBytes(t.lines + [t.chunks]) + [] == LinesBytes(t.lines + [t.chunks]);
    }
  }

  /** A refused flush is repeated without reading again: whenever it is finally answered, the
      result is that of a single flush. */
  lemma FlushRetry(t: Tail, accept: bool, ml: Opts)
    ensures Flush(Flush(t, false, ml).0, accept, ml) == Flush(t, accept, ml)
  {
    hide AppendText, Normalize, Blank;
  }
}
