/** The shipped records do not depend on how the file was read: however it grows between
    reads, wherever polls end, whatever the sink refuses and whenever the agent restarts
    from a saved offset, they are the records of the one-shot segmentation. */
module MultilineConfluence {
  import opened Options
  import opened Utf8
  import opened Lines
  import opened Assembly
  import opened Multiline
  import opened Segments
  import opened MultilineRuns

  // ---------------------------------------------------------------- vocabulary

  /** The physical lines behind a list of chunked lines. */
  function FlatLines(lines: seq<Chunks>): Group {
    if lines == [] then [] else FlatLines(Init(lines)) + [Flat(Last(lines))]
  }

  function Groups(log: seq<Shipped>): seq<Group> {
    if log == [] then [] else Groups(Init(log)) + [FlatLines(Last(log).lines)]
  }

  /** The text of a record when its lines are read in one piece. */
  function GroupTexts(g: Group): seq<string> {
    if g == [] then [] else GroupTexts(Init(g)) + [NormalLine(Last(g))]
  }

  function GroupText(g: Group, ml: Opts): string { CappedJoin(GroupTexts(g), ml.maxBytes) }

  /** No stretch between newlines exceeds the partial-line buffer. */
  predicate LinesFit(b: seq<Byte>) {
    forall i, j :: 0 <= i <= j <= |b| && NEWLINE !in b[i..j] ==> j - i <= MAX_PARTIAL_BYTES
  }

  /** The line reads the same however it was cut into chunks. */
  predicate GoodLine(l: Chunks) {
    l != [] && LineText(l) == Lossy(Body(Flat(l)))
  }

  predicate GoodLines(lines: seq<Chunks>) { forall i :: 0 <= i < |lines| ==> GoodLine(lines[i]) }

  predicate GoodLog(log: seq<Shipped>) { forall i :: 0 <= i < |log| ==> GoodLines(log[i].lines) }

  /** A stretch of whole lines and whole characters that splits into `lines`. */
  predicate Splits(b: seq<Byte>, lines: seq<seq<Byte>>) {
    Rest(b) == [] && CompleteLines(b) == lines && Whole(b)
  }

  /** The records shipped so far, with the record in flight, are the segmentation of the
      whole lines consumed since `born`. */
  predicate Confluent(t: Tail, born: nat, file: seq<Byte>, ml: Opts) {
    && born <= t.pos <= t.pos + t.recordBytes <= t.readAhead <= |file|
    && GoodLines(t.lines) && GoodLog(t.log) && WholeChunks(t.chunks)
    && Splits(file[born..t.pos], Flat(Groups(t.log)))
    && Splits(file[t.pos..t.pos + t.recordBytes], FlatLines(t.lines))
    && (t.lines == [] ==> t.log == [] && t.pos == born)
    && (t.lines != [] ==> Groups(t.log) + [FlatLines(t.lines)]
                          == Segment(Flat(Groups(t.log)) + FlatLines(t.lines), ml))
  }

  // ---------------------------------------------------------------- small facts

  lemma FlatLinesSnoc(lines: seq<Chunks>, l: Chunks)
    ensures FlatLines(lines + [l]) == FlatLines(lines) + [Flat(l)]
  {
    assert Init(lines + [l]) == lines;
  }

  lemma GroupsSnoc(log: seq<Shipped>, e: Shipped)
    ensures Groups(log + [e]) == Groups(log) + [FlatLines(e.lines)]
    ensures Flat(Groups(log + [e])) == Flat(Groups(log)) + FlatLines(e.lines)
  {
    assert Init(log + [e]) == log;
    FlatSnoc(Groups(log), FlatLines(e.lines));
  }

  /** A record of good lines has the text of its group. */
  lemma {:induction false} GoodTexts(lines: seq<Chunks>)
    requires GoodLines(lines)
    ensures Texts(lines) == GroupTexts(FlatLines(lines))
  {
    hide LineText, Normalize, Lossy, Flat;
    if lines != [] {
      GoodTexts(Init(lines));
      assert GoodLine(Last(lines));
      assert Init(FlatLines(lines)) == FlatLines(Init(lines));
    }
  }

  lemma SplitsAppend(a: seq<Byte>, la: seq<seq<Byte>>, b: seq<Byte>, lb: seq<seq<Byte>>)
    requires Splits(a, la) && Splits(b, lb)
    ensures Splits(a + b, la + lb)
  {
    hide Rest, CompleteLines, Whole;
    LinesAppend(a, b);
    WholeAppend(a, b);
  }

  lemma SplitsNothing()
    ensures Splits([], [])
  {
  }

  /** The line a commit consumes: its bytes, its text, and that it is a line of the file. */
  lemma CommittedLine(t: Tail, born: nat, file: seq<Byte>, chunk: seq<Byte>, ml: Opts)
    requires Tiled(t, file, ml) && Confluent(t, born, file, ml)
    requires Whole(file[born..]) && LinesFit(file[born..])
    requires chunk == NextChunk(file[t.readAhead..]) && Terminated(chunk)
    ensures var l := t.chunks + [chunk];
            && GoodLine(l) && Splits(Flat(l), [Flat(l)])
            && Completed(t, chunk) == NormalLine(Flat(l))
            && t.readAhead + |chunk| <= |file|
            && Flat(l) == file[t.pos + t.recordBytes..t.readAhead + |chunk|]
  {
    hide NextChunk, RecordText, LinesBytes, Flat, PartialText, Lossy, Encode, Normalize, Rest, CompleteLines,
         GoodLines, GoodLog, Segment, FlatLines, Groups, LinesOk, Whole, LinesFit;
    var l := t.chunks + [chunk];
    var q := t.pos + t.recordBytes;
    TiledSpans(t, file, ml);
    ChunkShape(file[t.readAhead..]);
    FlatSnoc(t.chunks, chunk);
    assert file[q..t.readAhead + |chunk|] == file[q..t.readAhead] + chunk;
    PendingFits(t, born, file, ml);
    assert Init(l) == t.chunks && Last(l) == chunk;
    assert NEWLINE !in Init(chunk);
    LineTextOfWhole(l);
    LineWhole(t, born, file, Flat(l), ml);
    LineOfChunk(Flat(l));
  }

  lemma PendingFits(t: Tail, born: nat, file: seq<Byte>, ml: Opts)
    requires Tiled(t, file, ml) && born <= t.pos <= |file| && LinesFit(file[born..])
    ensures t.partialBytes <= MAX_PARTIAL_BYTES && t.partialBytes == |Flat(t.chunks)|
  {
    hide RecordText, LinesBytes, Flat, PartialText, LinesOk;
    TiledSpans(t, file, ml);
    var q := t.pos + t.recordBytes;
    assert file[born..][q - born..t.readAhead - born] == file[q..t.readAhead];
  }

  /** A whole line after whole lines of a file of whole characters has whole characters. */
  lemma LineWhole(t: Tail, born: nat, file: seq<Byte>, line: seq<Byte>, ml: Opts)
    requires Confluent(t, born, file, ml) && Whole(file[born..])
    requires t.pos + t.recordBytes + |line| <= |file|
    requires line == file[t.pos + t.recordBytes..t.pos + t.recordBytes + |line|]
    requires Terminated(line) && NEWLINE !in Init(line)
    ensures Whole(line)
  {
    hide RecordText, LinesBytes, Flat, PartialText, Lossy, Encode, Rest, CompleteLines,
         GoodLines, GoodLog, Segment, FlatLines, Groups, WholeChunks;
    var q := t.pos + t.recordBytes;
    ConsumedWhole(t, born, file, ml);
    assert file[born..] == file[born..q] + file[q..];
    WholeSuffix(file[born..q], file[q..]);
    var rest := file[q + |line|..];
    assert file[q..] == line + rest;
    assert line == Init(line) + [NEWLINE] && line + rest == Init(line) + [NEWLINE] + rest;
    WholeBeforeNewline(Init(line), rest);
    WholeNewline();
    WholeAppend(Init(line), [NEWLINE]);
  }

  lemma WholeNewline()
    ensures Whole([NEWLINE])
  {
    AsciiWhole([NEWLINE]);
  }

  /** Everything consumed into whole lines is whole characters. */
  lemma ConsumedWhole(t: Tail, born: nat, file: seq<Byte>, ml: Opts)
    requires Confluent(t, born, file, ml)
    ensures Whole(file[born..t.pos + t.recordBytes])
    ensures Splits(file[born..t.pos + t.recordBytes], Flat(Groups(t.log)) + FlatLines(t.lines))
  {
    hide RecordText, LinesBytes, Flat, PartialText, Lossy, Encode, Rest, CompleteLines,
         GoodLines, GoodLog, Segment, FlatLines, Groups, WholeChunks, Whole;
    var q := t.pos + t.recordBytes;
    assert file[born..q] == file[born..t.pos] + file[t.pos..q];
    SplitsAppend(file[born..t.pos], Flat(Groups(t.log)), file[t.pos..q], FlatLines(t.lines));
  }

  // ---------------------------------------------------------------- every step keeps it

  lemma BufferConfluent(t: Tail, born: nat, file: seq<Byte>, chunk: seq<Byte>, ml: Opts)
    requires Tiled(t, file, ml) && Confluent(t, born, file, ml)
    requires Whole(file[born..]) && LinesFit(file[born..])
    requires chunk != [] && t.readAhead + |chunk| == |file| && chunk == file[t.readAhead..]
    ensures Confluent(BufferPartial(t, chunk), born, file, ml)
  {
    hide RecordText, LinesBytes, PartialText, Lossy, Encode, Rest, CompleteLines, Whole,
         GoodLines, GoodLog, Segment, FlatLines, Groups, LinesOk, PushPartial;
    assert Whole(chunk) by {
      hide Splits, Flat;
      var q := t.pos + t.recordBytes;
      ConsumedWhole(t, born, file, ml);
      PendingFits(t, born, file, ml);
      PartialOfWhole(t.chunks);
      TiledSpans(t, file, ml);
      WholeAppend(file[born..q], Flat(t.chunks));
      assert file[born..t.readAhead] == file[born..q] + file[q..t.readAhead];
      assert file[born..] == file[born..t.readAhead] + chunk;
      WholeSuffix(file[born..t.readAhead], chunk);
    }
  }

  /** Shipping on a start line: the record in flight becomes a finished group, and the start
      line a new one. */
  lemma ShipOnStart(t: Tail, born: nat, file: seq<Byte>, line: seq<Byte>, ml: Opts)
    requires Confluent(t, born, file, ml) && t.lines != [] && t.recordBytes > 0 && StartLine(line, ml)
    ensures var s := Ship(t, true).0;
            && Splits(file[born..s.pos], Flat(Groups(s.log)))
            && GoodLog(s.log)
            && Groups(s.log) + [[line]] == Segment(Flat(Groups(s.log)) + [line], ml)
  {
    hide RecordText, LinesBytes, PartialText, Lossy, Encode, Rest, CompleteLines,
         GoodLines, Segment, FlatLines, Groups, StartLine, WholeChunks, Splits, Flat;
    var s := Ship(t, true).0;
    var e := Last(s.log);
    assert s.log == t.log + [e];
    GroupsSnoc(t.log, e);
    ConsumedWhole(t, born, file, ml);
    SegmentSplit(Flat(Groups(t.log)) + FlatLines(t.lines), [line], ml);
    SegmentOne(line, ml);
  }

  lemma SegmentOne(line: seq<Byte>, ml: Opts)
    ensures Segment([line], ml) == [[line]]
  {
    hide StartLine;
    assert [line][1..] == [];
  }

  /** A line that does not ship anything joins the record in flight. */
  lemma AddConfluent(t: Tail, born: nat, file: seq<Byte>, chunk: seq<Byte>, ml: Opts, now: nat)
    requires chunk != [] && Confluent(t, born, file, ml)
    requires t.readAhead == t.pos + t.recordBytes + t.partialBytes
    requires var l := t.chunks + [chunk];
             && GoodLine(l) && Splits(Flat(l), [Flat(l)])
             && t.readAhead + |chunk| <= |file| && Flat(l) == file[t.pos + t.recordBytes..t.readAhead + |chunk|]
             && (t.lines != [] ==> !StartLine(Flat(l), ml))
    ensures Confluent(AddLine(t, chunk, ml, now), born, file, ml)
  {
    hide RecordText, LinesBytes, PartialText, Lossy, Encode, Rest, CompleteLines, Groups, Flat,
         GoodLog, Segment, StartLine, Splits, AppendText, Completed, GoodLine;
    var s := AddLine(t, chunk, ml, now);
    var l := t.chunks + [chunk];
    var q := t.pos + t.recordBytes;
    FlatLinesSnoc(t.lines, l);
    assert file[s.pos..s.pos + s.recordBytes] == file[t.pos..q] + file[q..t.readAhead + |chunk|];
    SplitsAppend(file[t.pos..q], FlatLines(t.lines), Flat(l), [Flat(l)]);
    var before := Flat(Groups(t.log)) + FlatLines(t.lines);
    assert Flat(Groups(t.log)) + (FlatLines(t.lines) + [Flat(l)]) == before + [Flat(l)];
    if t.lines == [] {
      NoGroups();
      assert before + [Flat(l)] == [Flat(l)];
      SegmentOne(Flat(l), ml);
    } else {
      SomeLines(t.lines);
      SegmentExtend(before, Flat(l), ml);
      var g := Groups(t.log) + [FlatLines(t.lines)];
      assert Init(g) == Groups(t.log) && Last(g) == FlatLines(t.lines);
    }
  }

  lemma NoGroups()
    ensures Groups([]) == [] && FlatLines([]) == [] && Flat(Groups([])) == []
  {
  }

  lemma SomeLines(lines: seq<Chunks>)
    requires lines != []
    ensures FlatLines(lines) != []
  {
  }

  lemma CommitConfluent(t: Tail, born: nat, file: seq<Byte>, accept: bool, chunk: seq<Byte>, ml: Opts, now: nat)
    requires Tiled(t, file, ml) && Confluent(t, born, file, ml)
    requires Whole(file[born..]) && LinesFit(file[born..])
    requires chunk == NextChunk(file[t.readAhead..]) && Terminated(chunk)
    ensures Confluent(CommitLine(t, chunk, accept, ml, now).0, born, file, ml)
  {
    hide Splits, GoodLine, GoodLines, GoodLog, Segment, NextChunk, Flat, LinesFit, Whole, Groups, FlatLines,
         AppendText, RecordText, PartialText, Normalize, LinesOk, LinesBytes, Lossy, WholeChunks, Pending,
         NormalLine, Completed, AddLine, Blank;
    CommittedLine(t, born, file, chunk, ml);
    RecordIffLines(t.lines);
    var line := Flat(t.chunks + [chunk]);
    var start := StartLine(line, ml);
    assert IsStart(Completed(t, chunk), ml) == start;
    if start && t.recordBytes > 0 {
      if CommitLine(t, chunk, accept, ml, now).1 {
        ShipOnStart(t, born, file, line, ml);
        var s := Ship(t, true).0;
        assert Ship(t, accept).0 == s;
        ShippedConfluent(s, born, file, chunk, ml, now);
      }
    } else {
      AddConfluent(t, born, file, chunk, ml, now);
    }
  }

  /** The first line of a fresh record. */
  lemma ShippedConfluent(s: Tail, born: nat, file: seq<Byte>, chunk: seq<Byte>, ml: Opts, now: nat)
    requires chunk != [] && s.lines == [] && s.recordBytes == 0 && GoodLog(s.log)
    requires born <= s.pos && s.readAhead == s.pos + s.partialBytes && s.readAhead + |chunk| <= |file|
    requires Splits(file[born..s.pos], Flat(Groups(s.log)))
    requires var l := s.chunks + [chunk];
             && GoodLine(l) && Splits(Flat(l), [Flat(l)]) && Flat(l) == file[s.pos..s.readAhead + |chunk|]
             && Groups(s.log) + [[Flat(l)]] == Segment(Flat(Groups(s.log)) + [Flat(l)], ml)
    ensures Confluent(AddLine(s, chunk, ml, now), born, file, ml)
  {
    hide Splits, GoodLine, GoodLog, Segment, Flat, Groups, AppendText, Completed;
    var l := s.chunks + [chunk];
    FlatLinesSnoc([], l);
    NoGroups();
    assert s.lines + [l] == [l] && [] + [l] == [l];
    assert FlatLines([l]) == [Flat(l)];
  }

  lemma StepConfluent(t: Tail, born: nat, file: seq<Byte>, accept: bool, ml: Opts, now: nat)
    requires Tiled(t, file, ml) && Confluent(t, born, file, ml)
    requires Whole(file[born..]) && LinesFit(file[born..])
    ensures Confluent(Step(t, file, accept, ml, now), born, file, ml)
  {
    var chunk := NextAt(t, file, ml);
    hide NextChunk, Tiled, Confluent, Whole, LinesFit, BufferPartial, CommitLine;
    if chunk == [] {
    } else if Terminated(chunk) {
      CommitConfluent(t, born, file, accept, chunk, ml, now);
    } else {
      assert chunk == file[t.readAhead..];
      BufferConfluent(t, born, file, chunk, ml);
    }
  }

  lemma GrowConfluent(t: Tail, born: nat, file: seq<Byte>, more: seq<Byte>, ml: Opts)
    requires Confluent(t, born, file, ml)
    ensures Confluent(t, born, file + more, ml)
  {
    hide Splits, GoodLines, GoodLog, Segment, Flat, Groups, WholeChunks, FlatLines;
    assert (file + more)[born..t.pos] == file[born..t.pos];
    assert (file + more)[t.pos..t.pos + t.recordBytes] == file[t.pos..t.pos + t.recordBytes];
  }

  lemma FreshConfluent(pos: nat, file: seq<Byte>, ml: Opts)
    requires pos <= |file|
    ensures Confluent(Fresh(pos), pos, file, ml)
  {
    hide Splits;
    SplitsNothing();
    NoGroups();
    assert file[pos..pos] == [];
  }

  // ---------------------------------------------------------------- restarts

  /** An offset where a restart finds the next record: `base` itself, or a complete line of
      the file that starts a record. */
  predicate Aligned(file: seq<Byte>, base: nat, p: nat, ml: Opts) {
    && base <= p <= |file| && Rest(file[base..p]) == [] && Whole(file[base..p])
    && (p == base || (Terminated(NextChunk(file[p..])) && StartLine(NextChunk(file[p..]), ml)))
  }

  lemma GrowAligned(file: seq<Byte>, more: seq<Byte>, base: nat, p: nat, ml: Opts)
    requires Aligned(file, base, p, ml)
    ensures Aligned(file + more, base, p, ml)
  {
    hide Rest, Whole, NextChunk, StartLine;
    assert (file + more)[base..p] == file[base..p];
    assert (file + more)[p..] == file[p..] + more;
    NextChunkExtends(file[p..], more);
  }

  lemma BaseAligned(file: seq<Byte>, base: nat, ml: Opts)
    requires base <= |file|
    ensures Aligned(file, base, base, ml)
  {
    hide NextChunk, StartLine;
    assert file[base..base] == [];
    SplitsNothing();
  }

  /** The segmentation from `base` is cut by an aligned offset. */
  lemma AlignedCut(file: seq<Byte>, base: nat, p: nat, ml: Opts)
    requires Aligned(file, base, p, ml)
    ensures Segment(CompleteLines(file[base..]), ml)
            == Segment(CompleteLines(file[base..p]), ml) + Segment(CompleteLines(file[p..]), ml)
  {
    hide Rest, Whole, NextChunk, StartLine, Segment;
    assert file[base..] == file[base..p] + file[p..];
    LinesAppend(file[base..p], file[p..]);
    if p == base {
      assert file[base..p] == [];
      SplitsNothing();
      NoSegments(ml);
      assert CompleteLines(file[base..p]) == [];
    } else {
      SegmentSplit(CompleteLines(file[base..p]), CompleteLines(file[p..]), ml);
    }
  }

  lemma NoSegments(ml: Opts)
    ensures Segment([], ml) == []
  {
  }

  /** The first line of a list of complete lines is the next chunk. */
  lemma FirstLine(b: seq<Byte>, rest: seq<Byte>)
    requires CompleteLines(b) != []
    ensures Terminated(NextChunk(b + rest)) && NextChunk(b + rest) == CompleteLines(b)[0]
  {
    hide NextChunk;
    NextChunkExtends(b, rest);
  }

  /** `pos` is always aligned: a record ships only when the next start line is seen. */
  lemma PosAligned(t: Tail, base: nat, born: nat, file: seq<Byte>, ml: Opts)
    requires Confluent(t, born, file, ml) && Aligned(file, base, born, ml)
    requires Chain(t.log, born, t.pos)
    ensures Aligned(file, base, t.pos, ml)
  {
    hide Rest, CompleteLines, Whole, NextChunk, StartLine, Segment, GoodLines, GoodLog, WholeChunks, Flat, Groups,
         FlatLines, Lossy;
    assert file[base..t.pos] == file[base..born] + file[born..t.pos];
    LinesAppend(file[base..born], file[born..t.pos]);
    WholeAppend(file[base..born], file[born..t.pos]);
    if t.pos != born {
      assert t.log != [];
      InFlightStarts(t, born, file, ml);
      SomeLines(t.lines);
      var q := t.pos + t.recordBytes;
      FirstLine(file[t.pos..q], file[q..]);
      assert file[t.pos..] == file[t.pos..q] + file[q..];
    }
  }

  lemma InFlightStarts(t: Tail, born: nat, file: seq<Byte>, ml: Opts)
    requires Confluent(t, born, file, ml) && t.log != []
    ensures FlatLines(t.lines) != [] && StartLine(FlatLines(t.lines)[0], ml)
  {
    hide Splits, GoodLines, GoodLog, WholeChunks, StartLine, Segment;
    SomeLines(t.lines);
    var g := Groups(t.log) + [FlatLines(t.lines)];
    SegmentCuts(Flat(Groups(t.log)) + FlatLines(t.lines), ml);
    assert Groups(t.log) != [];
    assert g[|g| - 1] == FlatLines(t.lines);
  }

  // ---------------------------------------------------------------- the run theorem

  predicate CalmEvent(e: Event) {
    match e
    case Grow(more) => Whole(more)
    case Read(_, _) => true
    case Save => true
    case Restart => true
    case _ => false
  }

  /** Only growth by whole characters, reads, saves, and restarts after a save. */
  predicate Calm(events: seq<Event>) {
    Guarded(events) && forall i :: 0 <= i < |events| ==> CalmEvent(events[i])
  }

  predicate CInv(w: World, ml: Opts) {
    && Inv(w, ml) && !w.stale
    && Confluent(w.tail, w.born, w.file, ml)
    && w.base <= |w.file| && Whole(w.file[w.base..])
    && Aligned(w.file, w.base, w.born, ml)
    && (w.saved.Some? ==> Aligned(w.file, w.base, w.saved.value, ml))
  }

  lemma CalmPrefix(events: seq<Event>)
    requires Calm(events) && events != []
    ensures Calm(Init(events)) && CalmEvent(Last(events))
    ensures Last(events).Restart? ==> Save in Init(events)
  {
    hide CalmEvent, Guarded;
    GuardedPrefix(events);
  }

  lemma FitPart(b: seq<Byte>, i: nat, j: nat)
    requires LinesFit(b) && i <= j <= |b|
    ensures LinesFit(b[i..j])
  {
    var c := b[i..j];
    forall x, y | 0 <= x <= y <= |c| && NEWLINE !in c[x..y] ensures y - x <= MAX_PARTIAL_BYTES {
      var u, v := c[x..y], b[i + x..i + y];
      assert forall k :: 0 <= k < |u| ==> u[k] == v[k];
      assert u == v;
    }
  }

  lemma NextCalm(w: World, e: Event, ml: Opts)
    requires CInv(w, ml) && CalmEvent(e) && LinesFit(w.file[w.base..])
    requires e.Restart? ==> w.saved.Some?
    ensures CInv(Next(w, e, ml), ml) && Next(w, e, ml).base == w.base
  {
    hide Inv, Confluent, Aligned, Whole, LinesFit, Step, Fresh, Lossy;
    NextKeeps(w, e, ml);
    match e {
      case Grow(more) =>
        GrowConfluent(w.tail, w.born, w.file, more, ml);
        GrowAligned(w.file, more, w.base, w.born, ml);
        if w.saved.Some? { GrowAligned(w.file, more, w.base, w.saved.value, ml); }
        WholeAppend(w.file[w.base..], more);
        assert (w.file + more)[w.base..] == w.file[w.base..] + more;
      case Read(accept, now) =>
        LifeGood(w, ml);
        StepConfluent(w.tail, w.born, w.file, accept, ml, now);
      case Save =>
        CInvParts(w, ml);
        PosAligned(w.tail, w.base, w.born, w.file, ml);
      case Restart =>
        CInvParts(w, ml);
        FreshConfluent(w.saved.value, w.file, ml);
    }
  }

  lemma CInvParts(w: World, ml: Opts)
    requires CInv(w, ml)
    ensures Tiled(w.tail, w.file, ml) && Chain(w.tail.log, w.born, w.tail.pos)
    ensures w.saved.Some? ==> w.saved.value <= |w.file|
  {
    hide Confluent, Whole, Rest, NextChunk, StartLine, Tiled, Chain, LogOk, PastOk;
  }

  lemma LifeGood(w: World, ml: Opts)
    requires CInv(w, ml) && LinesFit(w.file[w.base..])
    ensures Tiled(w.tail, w.file, ml) && w.born <= |w.file|
    ensures Whole(w.file[w.born..]) && LinesFit(w.file[w.born..])
  {
    hide Confluent, Whole, Rest, NextChunk, StartLine, Tiled, Chain, LogOk, PastOk, LinesFit;
    var f := w.file;
    assert f[w.base..] == f[w.base..w.born] + f[w.born..];
    WholeSuffix(f[w.base..w.born], f[w.born..]);
    FitPart(f[w.base..], w.born - w.base, |f| - w.base);
    assert f[w.base..][w.born - w.base..|f| - w.base] == f[w.born..];
  }

  lemma {:induction false} RunCalm(w: World, events: seq<Event>, ml: Opts)
    requires CInv(w, ml) && Calm(events) && w.saved == None && w.base <= |w.file|
    requires w.base <= |Run(w, events, ml).file| && LinesFit(Run(w, events, ml).file[w.base..])
    ensures CInv(Run(w, events, ml), ml) && Run(w, events, ml).base == w.base
    ensures Save in events ==> Run(w, events, ml).saved.Some?
  {
    hide CInv, CalmEvent, LinesFit, Guarded, Calm, Next;
    if events != [] {
      var p := Init(events);
      CalmPrefix(events);
      var v := Run(w, p, ml);
      GuardedFile(v, Last(events), ml);
      BaseInFile(w, p, ml);
      FitPrefix(v.file, Next(v, Last(events), ml).file, w.base);
      RunCalm(w, p, ml);
      hide Run;
      NextCalm(v, Last(events), ml);
      SavedAfter(v, Last(events), ml);
      assert events == p + [Last(events)];
    }
  }

  lemma FitPrefix(a: seq<Byte>, b: seq<Byte>, base: nat)
    requires a <= b && base <= |a| && LinesFit(b[base..])
    ensures LinesFit(a[base..])
  {
    hide LinesFit;
    FitPart(b[base..], 0, |a| - base);
    assert b[base..][0..|a| - base] == a[base..];
  }

  lemma SavedAfter(w: World, e: Event, ml: Opts)
    requires CalmEvent(e)
    ensures w.saved.Some? || e == Save ==> Next(w, e, ml).saved.Some?
  {
    hide Step, Whole, Fresh;
  }

  /** Without truncation the file only grows. */
  lemma GuardedFile(w: World, e: Event, ml: Opts)
    requires CalmEvent(e)
    ensures w.file <= Next(w, e, ml).file
  {
    hide Step, Whole;
  }

  lemma {:induction false} BaseInFile(w: World, events: seq<Event>, ml: Opts)
    requires Calm(events) && w.base <= |w.file|
    ensures w.base <= |Run(w, events, ml).file|
  {
    hide CalmEvent, Guarded, Next;
    if events != [] {
      CalmPrefix(events);
      BaseInFile(w, Init(events), ml);
      GuardedFile(Run(w, Init(events), ml), Last(events), ml);
    }
  }

  lemma StartCalm(file: seq<Byte>, pos: nat, ml: Opts)
    requires pos <= |file| && Whole(file[pos..])
    ensures CInv(Start(file, pos), ml)
  {
    hide Confluent, Aligned, Whole, Inv, Fresh;
    StartInv(file, pos, ml);
    FreshConfluent(pos, file, ml);
    BaseAligned(file, pos, ml);
  }

  lemma {:induction false} GroupsAt(log: seq<Shipped>, i: nat)
    requires i < |log|
    ensures |Groups(log)| == |log| && Groups(log)[i] == FlatLines(log[i].lines)
  {
    if i < |log| - 1 {
      GroupsAt(Init(log), i);
    } else if |log| > 1 {
      GroupsAt(Init(log), 0);
    }
  }

  /** What one life has shipped is a prefix of the segmentation of the file from its start. */
  lemma LogIsPrefix(t: Tail, born: nat, file: seq<Byte>, ml: Opts)
    requires Confluent(t, born, file, ml)
    ensures Groups(t.log) <= Segment(CompleteLines(file[born..]), ml)
    ensures t.lines != [] ==> |Groups(t.log)| < |Segment(CompleteLines(file[born..]), ml)|
  {
    hide GoodLines, GoodLog, WholeChunks, Segment, Rest, CompleteLines, Whole, Flat;
    NoGroups();
    if t.lines != [] {
      var q := t.pos + t.recordBytes;
      ConsumedWhole(t, born, file, ml);
      assert file[born..] == file[born..q] + file[q..];
      LinesAppend(file[born..q], file[q..]);
      var l := Flat(Groups(t.log)) + FlatLines(t.lines);
      SomeLines(t.lines);
      SegmentStable(l, CompleteLines(file[q..]), ml);
      var g := Groups(t.log) + [FlatLines(t.lines)];
      assert Init(g) == Groups(t.log);
    }
  }

  /** Record number `i` of the current life is record number `k + i` of the segmentation of
      everything since `base`, in lines and in text. */
  predicate MatchesFrom(log: seq<Shipped>, s: seq<Group>, k: nat, ml: Opts) {
    && k + |log| <= |s|
    && forall i :: 0 <= i < |log| ==> FlatLines(log[i].lines) == s[k + i] && log[i].text == GroupText(s[k + i], ml)
  }

  lemma ShippedMatches(w: World, ml: Opts)
    requires CInv(w, ml)
    ensures MatchesFrom(w.tail.log, Segment(CompleteLines(w.file[w.base..]), ml),
                        |Segment(CompleteLines(w.file[w.base..w.born]), ml)|, ml)
  {
    hide Whole, Segment, CompleteLines, Rest, NextChunk, StartLine, Flat, PastOk, Chain, Tiled, Splits, Groups, FlatLines,
         CappedJoin, GroupTexts, LinesOk, LinesBytes;
    var log := w.tail.log;
    AlignedCut(w.file, w.base, w.born, ml);
    LogIsPrefix(w.tail, w.born, w.file, ml);
    var own := Segment(CompleteLines(w.file[w.born..]), ml);
    var k := |Segment(CompleteLines(w.file[w.base..w.born]), ml)|;
    if log != [] { GroupsAt(log, 0); }
    forall i | 0 <= i < |log|
      ensures FlatLines(log[i].lines) == own[i] && log[i].text == GroupText(own[i], ml)
    {
      GroupsAt(log, i);
      assert EntryOk(log[i], w.file, ml);
      GoodTexts(log[i].lines);
    }
  }

  /** Confluence: in every calm run the shipped records are, in order, records of the
      one-shot segmentation of the file; after a restart they continue at the group that
      begins at the saved offset, so an unshipped record is derived again identically. */
  lemma Confluence(file: seq<Byte>, pos: nat, events: seq<Event>, ml: Opts)
    requires pos <= |file| && Whole(file[pos..]) && Calm(events)
    requires pos <= |Run(Start(file, pos), events, ml).file|
             && LinesFit(Run(Start(file, pos), events, ml).file[pos..])
    ensures var w := Run(Start(file, pos), events, ml);
            && pos <= w.born <= |w.file|
            && MatchesFrom(w.tail.log, Segment(CompleteLines(w.file[pos..]), ml),
                           |Segment(CompleteLines(w.file[pos..w.born]), ml)|, ml)
  {
    hide Whole, Segment, CompleteLines, MatchesFrom, Inv, Confluent, Calm, LinesFit, Run, NextChunk, StartLine, Rest;
    StartCalm(file, pos, ml);
    RunCalm(Start(file, pos), events, ml);
    ShippedMatches(Run(Start(file, pos), events, ml), ml);
  }

  // ---------------------------------------------------------------- completion

  /** The segmentation of a finished file: a trailing line without a newline joins the last
      group, whatever its text. */
  function FoldRest(s: seq<Group>, rest: seq<Byte>): seq<Group> {
    if rest == [] then s
    else if s == [] then [[rest]]
    else Init(s) + [Last(s) + [rest]]
  }

  /** When the whole file has been read, the lines in flight end the segmentation. */
  lemma AllRead(t: Tail, born: nat, file: seq<Byte>, ml: Opts)
    requires Tiled(t, file, ml) && Confluent(t, born, file, ml) && t.readAhead == |file|
    ensures Rest(file[born..]) == Flat(t.chunks)
    ensures Segment(CompleteLines(file[born..]), ml)
            == if t.lines == [] then [] else Groups(t.log) + [FlatLines(t.lines)]
  {
    hide GoodLines, GoodLog, WholeChunks, Segment, Rest, CompleteLines, Whole, Flat, Groups, FlatLines,
         RecordText, PartialText, LinesOk, LinesBytes;
    var q := t.pos + t.recordBytes;
    ConsumedWhole(t, born, file, ml);
    TiledSpans(t, file, ml);
    assert file[born..] == file[born..q] + file[q..t.readAhead];
    LinesAppend(file[born..q], Flat(t.chunks));
    NoNewlineChunk(Flat(t.chunks));
    NoSegments(ml);
    NoGroups();
    assert CompleteLines(file[born..]) == Flat(Groups(t.log)) + FlatLines(t.lines);
  }

  /** An accepted flush after the last byte ships exactly the rest of the segmentation. */
  lemma FlushCompletes(t: Tail, born: nat, file: seq<Byte>, ml: Opts)
    requires Tiled(t, file, ml) && Confluent(t, born, file, ml) && t.readAhead == |file| && born <= |file|
    requires LinesFit(file[born..])
    ensures var u := Flush(t, true, ml).0;
            && u.pos == u.readAhead == |file| && u.recordBytes == 0 && u.partialBytes == 0
            && GoodLog(u.log)
            && Groups(u.log) == FoldRest(Segment(CompleteLines(file[born..]), ml), Rest(file[born..]))
  {
    hide GoodLine, WholeChunks, Segment, Rest, CompleteLines, Whole, Flat, Groups, FlatLines, LinesFit, Splits,
         RecordText, PartialText, LinesOk, LinesBytes, AppendText, Normalize, Blank, LogOk;
    TiledSpans(t, file, ml);
    RecordIffLines(t.lines);
    AllRead(t, born, file, ml);
    FoldTiled(t, file, ml);
    NoGroups();
    var f := FoldPartial(t, ml);
    var u := Flush(t, true, ml).0;
    if t.partial != "" {
      assert GoodLine(t.chunks) by { FoldedGood(t, born, file, ml); }
      FlatLinesSnoc(t.lines, t.chunks);
      FlatSomething(t.chunks);
    }
    NoChunks();
    if f.recordBytes > 0 {
      assert u.log == t.log + [Last(u.log)];
      GroupsSnoc(t.log, Last(u.log));
      var g := Groups(t.log) + [FlatLines(t.lines)];
      assert Init(g) == Groups(t.log) && Last(g) == FlatLines(t.lines);
      if t.lines == [] {
        assert FlatLines(t.lines) + [Flat(t.chunks)] == [Flat(t.chunks)];
        assert Groups(u.log) == [[Flat(t.chunks)]];
      } else {
        assert Groups(u.log) == FoldRest(g, Flat(t.chunks));
      }
    } else {
      assert t.chunks == [];
    }
  }

  lemma FlatSomething(chunks: Chunks)
    requires Pending(chunks) && chunks != []
    ensures Flat(chunks) != []
  {
    PendingBytes(chunks);
  }

  lemma FoldedGood(t: Tail, born: nat, file: seq<Byte>, ml: Opts)
    requires Tiled(t, file, ml) && Confluent(t, born, file, ml) && LinesFit(file[born..]) && t.partial != ""
    ensures GoodLine(t.chunks)
  {
    hide Segment, Rest, CompleteLines, Whole, Flat, Groups, FlatLines, LinesFit, Splits,
         RecordText, PartialText, LinesOk, LinesBytes, GoodLines, GoodLog;
    TiledSpans(t, file, ml);
    PendingFits(t, born, file, ml);
    PartialOfWhole(t.chunks);
    var l, b := Last(t.chunks), Flat(t.chunks);
    assert l in t.chunks && !Terminated(l);
    assert b != [] ==> b[|b| - 1] in b;
  }

  /** Completion: when a calm run has read the whole file, one accepted flush leaves exactly
      the one-shot segmentation shipped, trailing line included, and nothing in flight. */
  lemma Completion(file: seq<Byte>, pos: nat, events: seq<Event>, ml: Opts)
    requires pos <= |file| && Whole(file[pos..]) && Calm(events)
    requires pos <= |Run(Start(file, pos), events, ml).file|
             && LinesFit(Run(Start(file, pos), events, ml).file[pos..])
    requires var w := Run(Start(file, pos), events, ml); w.tail.readAhead == |w.file|
    ensures var w := Run(Start(file, pos), events, ml);
            var u := Next(w, FinalFlush(true), ml).tail;
            && pos <= w.born <= |w.file|
            && u.pos == |w.file| && u.recordBytes == 0 && u.partialBytes == 0
            && Segment(CompleteLines(w.file[pos..w.born]), ml) + Groups(u.log)
               == FoldRest(Segment(CompleteLines(w.file[pos..]), ml), Rest(w.file[pos..]))
            && (forall i :: 0 <= i < |u.log| ==> u.log[i].text == GroupText(FlatLines(u.log[i].lines), ml))
  {
    hide Whole, Segment, CompleteLines, Confluent, Calm, LinesFit, Run, NextChunk, StartLine, Rest, Groups,
         Flush, FlatLines, FoldRest, Tiled, PastOk, Chain, LinesOk, LinesBytes, CappedJoin, GroupTexts;
    StartCalm(file, pos, ml);
    RunCalm(Start(file, pos), events, ml);
    var w := Run(Start(file, pos), events, ml);
    LifeGood(w, ml);
    FlushCompletes(w.tail, w.born, w.file, ml);
    var u := Next(w, FinalFlush(true), ml).tail;
    WholeIffOwn(w.file, pos, w.born, Groups(u.log), ml);
    FlushKeeps(w.tail, w.born, w.file, true, ml);
    forall i | 0 <= i < |u.log| ensures u.log[i].text == GroupText(FlatLines(u.log[i].lines), ml) {
      assert EntryOk(u.log[i], w.file, ml);
      GoodTexts(u.log[i].lines);
    }
  }

  lemma FoldRestAfter(before: seq<Group>, s: seq<Group>, rest: seq<Byte>)
    requires s != [] || before == []
    ensures before + FoldRest(s, rest) == FoldRest(before + s, rest)
  {
    if s != [] {
      assert Init(before + s) == before + Init(s) && Last(before + s) == Last(s);
    } else {
      assert before + s == s;
    }
  }

  /** A life that began after `base` has at least one complete line ahead of it. */
  lemma NothingFolded(file: seq<Byte>, base: nat, born: nat, ml: Opts)
    requires Aligned(file, base, born, ml)
    ensures Segment(CompleteLines(file[born..]), ml) != [] || Segment(CompleteLines(file[base..born]), ml) == []
  {
    hide Whole, NextChunk, StartLine, Rest;
    if born != base {
      SegmentFirst(CompleteLines(file[born..]), ml);
    } else {
      assert file[base..born] == [];
      SplitsNothing();
    }
  }

  /** What a life ships completes the segmentation of the whole file exactly when it is the
      segmentation of its own part. */
  lemma WholeIffOwn(file: seq<Byte>, base: nat, born: nat, groups: seq<Group>, ml: Opts)
    requires Aligned(file, base, born, ml)
    ensures Segment(CompleteLines(file[base..born]), ml) + groups
            == FoldRest(Segment(CompleteLines(file[base..]), ml), Rest(file[base..]))
            <==> groups == FoldRest(Segment(CompleteLines(file[born..]), ml), Rest(file[born..]))
  {
    hide Whole, NextChunk, StartLine, Rest, Segment, CompleteLines, FoldRest;
    AlignedCut(file, base, born, ml);
    assert file[base..] == file[base..born] + file[born..];
    LinesAppend(file[base..born], file[born..]);
    NothingFolded(file, base, born, ml);
    var before, own := Segment(CompleteLines(file[base..born]), ml), Segment(CompleteLines(file[born..]), ml);
    FoldRestAfter(before, own, Rest(file[born..]));
    SameAfter(before, groups, FoldRest(own, Rest(file[born..])));
  }

  lemma SameAfter(before: seq<Group>, a: seq<Group>, b: seq<Group>)
    ensures before + a == before + b <==> a == b
  {
    assert a == (before + a)[|before|..] && b == (before + b)[|before|..];
  }

  lemma {:induction false} AllTerminated(b: seq<Byte>, i: nat)
    requires i < |CompleteLines(b)|
    ensures Terminated(CompleteLines(b)[i])
    decreases |b|
  {
    hide NextChunk;
    var c := NextChunk(b);
    if i > 0 { AllTerminated(b[|c|..], i - 1); }
  }

  /** In the segmentation of a finished file only the very last line can lack its newline. */
  lemma FoldedLines(b: seq<Byte>, i: nat, ml: Opts)
    requires var l := Flat(FoldRest(Segment(CompleteLines(b), ml), Rest(b))); i < |l| - 1
    ensures Terminated(Flat(FoldRest(Segment(CompleteLines(b), ml), Rest(b)))[i])
  {
    hide Segment, CompleteLines, Rest, StartLine, Flat;
    var lines, s := CompleteLines(b), Segment(CompleteLines(b), ml);
    SegmentCuts(lines, ml);
    FlatFold(s, Rest(b));
    AllTerminated(b, i);
  }

  lemma FlatFold(s: seq<Group>, rest: seq<Byte>)
    ensures Flat(FoldRest(s, rest)) == Flat(s) + if rest == [] then [] else [rest]
  {
    hide Flat;
    if rest == [] {
      assert Flat(s) + [] == Flat(s);
    } else if s == [] {
      FlatSnoc([], [rest]);
      NoGroups();
      assert [] + [[rest]] == [[rest]];
    } else {
      assert s == Init(s) + [Last(s)];
      FlatSnoc(Init(s), Last(s));
      FlatSnoc(Init(s), Last(s) + [rest]);
    }
  }
}
