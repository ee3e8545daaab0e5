/** The default path: one entry per line. The operations on the state of one file, and the
    proof that incremental reading emits exactly the lines of one-shot splitting. */
module SingleLine {
  import opened Utf8
  import opened Lines
  import opened Assembly
  import opened Segments
  import C = MultilineConfluence

  /** An entry handed to the sink: its text, and the bytes it was read from. */
  datatype Entry = Entry(from: nat, to: nat, text: string)

  /** `pos` and `partial` of a `TailedFile`; `chunks` and `lines` are the bytes behind the
      partial and behind the lines handled so far, `emitted` the accepted entries. */
  datatype Tail = Tail(pos: nat, partial: string, chunks: Chunks, lines: seq<Chunks>, emitted: seq<Entry>)

  function Fresh(pos: nat): Tail { Tail(pos, "", [], [], []) }

  /** Where the pending bytes begin. */
  function LineStart(t: Tail): nat { if |Flat(t.chunks)| <= t.pos then t.pos - |Flat(t.chunks)| else 0 }

  /** `try_emit_line` and the offset update: a refusal changes nothing. */
  function EmitLine(t: Tail, chunk: seq<Byte>, accept: bool): (Tail, bool)
    requires chunk != []
  {
    var text := Normalize(t.partial + Lossy(Init(chunk)));
    var done := Tail(t.pos + |chunk|, "", [], t.lines + [t.chunks + [chunk]], t.emitted);
    if text == "" then (done, true)
    else if accept then (done.(emitted := t.emitted + [Entry(LineStart(t), t.pos + |chunk|, text)]), true)
    else (t, false)
  }

  /** A chunk without a newline: buffered, and the offset moves over it. */
  function BufferPartial(t: Tail, chunk: seq<Byte>): Tail {
    t.(pos := t.pos + |chunk|, partial := PushPartial(t.partial, chunk), chunks := t.chunks + [chunk])
  }

  /** One turn of `read_lines`. */
  function Step(t: Tail, file: seq<Byte>, accept: bool): Tail
    requires t.pos <= |file|
  {
    var chunk := NextChunk(file[t.pos..]);
    if chunk == [] then t
    else if Terminated(chunk) then EmitLine(t, chunk, accept).0
    else BufferPartial(t, chunk)
  }

  /** What `flush_partial` hands over of the pending text. */
  function Handed(partial: string): seq<string> { if Blank(partial) then [] else [Trim(partial)] }

  /** `flush_partial`: the pending text is gone, the offset stays. */
  function FlushPartial(t: Tail): Tail { if t.partial == "" then t else t.(partial := "", chunks := []) }

  // ---------------------------------------------------------------- what is emitted

  function NonEmpty(texts: seq<string>): seq<string> {
    if texts == [] then [] else NonEmpty(Init(texts)) + (if Last(texts) == "" then [] else [Last(texts)])
  }

  lemma NonEmptySnoc(texts: seq<string>, t: string)
    ensures NonEmpty(texts + [t]) == NonEmpty(texts) + if t == "" then [] else [t]
  {
    assert Init(texts + [t]) == texts;
  }

  /** The texts of the entries of a list of physical lines. */
  function Entries(lines: Group): seq<string> { NonEmpty(C.GroupTexts(lines)) }

  function TextsOf(es: seq<Entry>): seq<string> { seq(|es|, i requires 0 <= i < |es| => es[i].text) }

  lemma TextsOfAppend(a: seq<Entry>, b: seq<Entry>)
    ensures TextsOf(a + b) == TextsOf(a) + TextsOf(b)
  {
  }

  /** The entry of a line at `at`, if it is not blank. */
  function Item(at: nat, line: seq<Byte>): seq<Entry> {
    if NormalLine(line) == "" then [] else [Entry(at, at + |line|, NormalLine(line))]
  }

  /** The entries of a list of physical lines that begin at `at`, with their places. */
  function Items(at: nat, lines: Group): seq<Entry> {
    if lines == [] then [] else Items(at, Init(lines)) + Item(at + |Flat(Init(lines))|, Last(lines))
  }

  lemma ItemsSnoc(at: nat, lines: Group, l: seq<Byte>)
    ensures Items(at, lines + [l]) == Items(at, lines) + Item(at + |Flat(lines)|, l)
  {
    hide Item, Flat;
    assert Init(lines + [l]) == lines;
  }

  lemma {:induction false} ItemTexts(at: nat, lines: Group)
    ensures TextsOf(Items(at, lines)) == Entries(lines)
  {
    hide NormalLine, Flat;
    if lines != [] {
      ItemTexts(at, Init(lines));
      var l := Last(lines);
      TextsOfAppend(Items(at, Init(lines)), Item(at + |Flat(Init(lines))|, l));
      assert Init(C.GroupTexts(lines)) == C.GroupTexts(Init(lines));
    }
  }

  /** The invariant: the lines handled and the pending chunks are the file from `start` to
      `pos`, cut at its newlines, and the emitted texts are those of the non-blank lines. */
  predicate Faithful(t: Tail, start: nat, file: seq<Byte>) {
    && start <= t.pos <= |file|
    && Pending(t.chunks) && WholeChunks(t.chunks) && |Flat(t.chunks)| <= t.pos - start
    && t.partial == PartialText(t.chunks)
    && C.GoodLines(t.lines)
    && t.emitted == Items(start, C.FlatLines(t.lines))
    && C.Splits(file[start..t.pos - |Flat(t.chunks)|], C.FlatLines(t.lines))
    && file[t.pos - |Flat(t.chunks)|..t.pos] == Flat(t.chunks)
  }

  lemma FreshFaithful(pos: nat, file: seq<Byte>)
    requires pos <= |file|
    ensures Faithful(Fresh(pos), pos, file)
  {
    C.SplitsNothing();
    assert file[pos..pos] == [];
  }

  lemma GrowFaithful(t: Tail, start: nat, file: seq<Byte>, more: seq<Byte>)
    requires Faithful(t, start, file)
    ensures Faithful(t, start, file + more)
  {
    hide C.Splits, C.GoodLines, C.FlatLines, Items, PartialText, Flat, WholeChunks, Pending;
    var q := t.pos - |Flat(t.chunks)|;
    assert (file + more)[start..q] == file[start..q] && (file + more)[q..t.pos] == file[q..t.pos];
  }

  lemma PendingFits(t: Tail, start: nat, file: seq<Byte>)
    requires Faithful(t, start, file) && C.LinesFit(file[start..])
    ensures |Flat(t.chunks)| <= MAX_PARTIAL_BYTES && NEWLINE !in Flat(t.chunks)
  {
    hide C.Splits, C.GoodLines, C.FlatLines, Items, PartialText, Flat, WholeChunks;
    var q := t.pos - |Flat(t.chunks)|;
    PendingFlat(t.chunks);
    assert file[start..][q - start..t.pos - start] == file[q..t.pos];
  }

  /** Reading stops between whole characters. */
  lemma TailWhole(t: Tail, start: nat, file: seq<Byte>)
    requires Faithful(t, start, file) && Whole(file[start..]) && C.LinesFit(file[start..])
    ensures Whole(file[t.pos..]) && Whole(file[start..t.pos])
  {
    hide C.GoodLines, C.FlatLines, Items, PartialText, Flat, Whole, Lossy, C.LinesFit, Rest, CompleteLines, Items;
    var q := t.pos - |Flat(t.chunks)|;
    PendingFits(t, start, file);
    PartialOfWhole(t.chunks);
    WholeAppend(file[start..q], Flat(t.chunks));
    assert file[start..t.pos] == file[start..q] + file[q..t.pos];
    assert file[start..] == file[start..t.pos] + file[t.pos..];
    WholeSuffix(file[start..t.pos], file[t.pos..]);
  }

  /** A chunk without a newline reaches the end of the file and stays pending. */
  lemma BufferFaithful(t: Tail, start: nat, file: seq<Byte>, chunk: seq<Byte>)
    requires Faithful(t, start, file) && Whole(file[start..]) && C.LinesFit(file[start..])
    requires chunk != [] && NEWLINE !in chunk && chunk == file[t.pos..]
    ensures Faithful(BufferPartial(t, chunk), start, file)
  {
    hide C.GoodLines, C.FlatLines, C.Splits, PartialText, Flat, Whole, PushPartial, C.LinesFit, Items;
    var q := t.pos - |Flat(t.chunks)|;
    TailWhole(t, start, file);
    FlatSnoc(t.chunks, chunk);
    PartialTextSnoc(t.chunks, chunk);
    assert file[q..t.pos + |chunk|] == file[q..t.pos] + chunk;
  }

  /** The line completed by a chunk: its bytes and its text. */
  lemma CompletedLine(t: Tail, start: nat, file: seq<Byte>, chunk: seq<Byte>)
    requires Faithful(t, start, file) && Whole(file[start..]) && C.LinesFit(file[start..])
    requires Terminated(chunk) && NEWLINE !in Init(chunk)
    requires t.pos + |chunk| <= |file| && chunk == file[t.pos..t.pos + |chunk|]
    ensures var l := t.chunks + [chunk];
            && C.GoodLine(l) && C.Splits(Flat(l), [Flat(l)])
            && NormalLine(Flat(l)) == Normalize(t.partial + Lossy(Init(chunk)))
            && Flat(l) == file[t.pos - |Flat(t.chunks)|..t.pos + |chunk|]
  {
    hide C.GoodLines, C.FlatLines, Items, PartialText, Flat, Whole, Lossy, C.LinesFit, Rest, CompleteLines, Normalize;
    var l := t.chunks + [chunk];
    var q := t.pos - |Flat(t.chunks)|;
    PendingFits(t, start, file);
    FlatSnoc(t.chunks, chunk);
    assert Init(l) == t.chunks && Last(l) == chunk;
    LineTextOfWhole(l);
    assert file[q..t.pos + |chunk|] == file[q..t.pos] + chunk;
    var line, rest := Flat(l), file[t.pos + |chunk|..];
    assert file[start..] == file[start..q] + file[q..];
    WholeSuffix(file[start..q], file[q..]);
    assert file[q..] == line + rest && line == Init(line) + [NEWLINE];
    assert line + rest == Init(line) + [NEWLINE] + rest;
    WholeBeforeNewline(Init(line), rest);
    C.WholeNewline();
    WholeAppend(Init(line), [NEWLINE]);
    LineOfChunk(line);
  }

  lemma EmitFaithful(t: Tail, start: nat, file: seq<Byte>, chunk: seq<Byte>, accept: bool)
    requires Faithful(t, start, file) && Whole(file[start..]) && C.LinesFit(file[start..])
    requires Terminated(chunk) && NEWLINE !in Init(chunk)
    requires t.pos + |chunk| <= |file| && chunk == file[t.pos..t.pos + |chunk|]
    ensures Faithful(EmitLine(t, chunk, accept).0, start, file)
  {
    hide C.Splits, C.GoodLine, PartialText, Flat, Whole, Lossy, C.LinesFit, Normalize, NormalLine, C.FlatLines, Items;
    CompletedLine(t, start, file, chunk);
    var (s, ok) := EmitLine(t, chunk, accept);
    if ok {
      var l := t.chunks + [chunk];
      var q := t.pos - |Flat(t.chunks)|;
      C.FlatLinesSnoc(t.lines, l);
      C.SplitsAppend(file[start..q], C.FlatLines(t.lines), Flat(l), [Flat(l)]);
      assert file[start..s.pos] == file[start..q] + file[q..s.pos];
      NoChunksPending();
      SplitLength(file[start..q], C.FlatLines(t.lines));
      ItemsSnoc(start, C.FlatLines(t.lines), Flat(l));
      assert file[s.pos..s.pos] == [];
      assert t.emitted + [] == t.emitted;
    }
  }

  lemma SplitLength(b: seq<Byte>, lines: Group)
    requires C.Splits(b, lines)
    ensures |Flat(lines)| == |b|
  {
    hide CompleteLines, Rest, Flat, Whole;
    LinesTile(b);
  }

  lemma NoChunksPending()
    ensures Pending([]) && WholeChunks([]) && Flat<Byte>([]) == [] && PartialText([]) == ""
  {
  }

  lemma StepFaithful(t: Tail, start: nat, file: seq<Byte>, accept: bool)
    requires Faithful(t, start, file) && Whole(file[start..]) && C.LinesFit(file[start..])
    ensures Faithful(Step(t, file, accept), start, file)
  {
    hide Faithful, Whole, C.LinesFit, NextChunk, EmitLine, PushPartial;
    FaithfulPos(t, start, file);
    var rest := file[t.pos..];
    var chunk := NextChunk(rest);
    ChunkShape(rest);
    assert chunk == file[t.pos..t.pos + |chunk|];
    if chunk == [] {
    } else if Terminated(chunk) {
      EmitFaithful(t, start, file, chunk, accept);
    } else {
      BufferFaithful(t, start, file, chunk);
    }
  }

  lemma FaithfulPos(t: Tail, start: nat, file: seq<Byte>)
    requires Faithful(t, start, file)
    ensures t.pos <= |file|
  {
  }

  lemma FaithfulMeans(t: Tail, start: nat, file: seq<Byte>)
    requires Faithful(t, start, file) && start <= |file| && C.LinesFit(file[start..])
    ensures start <= t.pos <= |file|
    ensures t.emitted == Items(start, CompleteLines(file[start..t.pos]))
    ensures t.partial == Lossy(Rest(file[start..t.pos]))
  {
    hide Whole, C.LinesFit, CompleteLines, Rest, Items, PartialText, Lossy, Flat, C.FlatLines,
         C.GoodLine;
    var q := t.pos - |Flat(t.chunks)|;
    PendingFits(t, start, file);
    PartialOfWhole(t.chunks);
    assert file[start..t.pos] == file[start..q] + file[q..t.pos];
    LinesAppend(file[start..q], Flat(t.chunks));
    NoNewlineChunk(Flat(t.chunks));
    assert CompleteLines(file[start..q]) + [] == CompleteLines(file[start..q]);
  }
}
