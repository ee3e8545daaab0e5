/** Shutdown in multiline mode: the record in flight is flushed, the offset saved, and the next
    life reads on from there. When the flush is refused the record is derived again; when it
    is taken, exactly when a record is split. */
module MultilineShutdown {
  import opened Options
  import opened Utf8
  import opened Lines
  import opened Assembly
  import opened Segments
  import opened Multiline
  import opened MultilineRuns
  import opened MultilineConfluence

  function Shutdown(w: World, accept: bool, ml: Opts): World {
    Next(Next(Next(w, FinalFlush(accept), ml), Save, ml), Restart, ml)
  }

  // ---------------------------------------------------------------- refused

  /** A refused flush leaves no trace behind the restart. */
  lemma RefusedIsCrash(w: World, accept: bool, ml: Opts)
    requires !Flush(w.tail, accept, ml).1
    ensures Shutdown(w, accept, ml) == Next(Next(w, Save, ml), Restart, ml)
  {
    hide AppendText, Normalize, Blank;
  }

  lemma {:induction false} RunAppend(w: World, a: seq<Event>, b: seq<Event>, ml: Opts)
    ensures Run(w, a + b, ml) == Run(Run(w, a, ml), b, ml)
    decreases |b|
  {
    hide Next;
    if b == [] {
      assert a + b == a;
    } else {
      RunAppend(w, a, Init(b), ml);
      assert Init(a + b) == a + Init(b) && Last(a + b) == Last(b);
    }
  }

  lemma RunTwo(w: World, a: Event, b: Event, ml: Opts)
    ensures Run(w, [a, b], ml) == Next(Next(w, a, ml), b, ml)
  {
    hide Next;
    assert Init([a, b]) == [a] && Init([a]) == [];
    assert Run(w, [a], ml) == Next(w, a, ml);
  }

  /** A shutdown whose flush is refused re-derives the record: whatever follows, the run is the
      calm one with a save and a restart in its place, so the shipped records are still, in
      order, groups of the one-shot segmentation. */
  lemma RefusedShutdown(
    file: seq<Byte>, pos: nat, events: seq<Event>, accept: bool, more: seq<Event>, ml: Opts)
    requires pos <= |file| && Whole(file[pos..]) && Calm(events + [Save, Restart] + more)
    requires var w := Run(Start(file, pos), events, ml);
             && !Flush(w.tail, accept, ml).1
             && var f := Run(Shutdown(w, accept, ml), more, ml).file; pos <= |f| && LinesFit(f[pos..])
    ensures var w := Run(Start(file, pos), events, ml);
            var v := Run(Shutdown(w, accept, ml), more, ml);
            && v == Run(Start(file, pos), events + [Save, Restart] + more, ml)
            && pos <= v.born <= |v.file|
            && MatchesFrom(v.tail.log, Segment(CompleteLines(v.file[pos..]), ml),
                           |Segment(CompleteLines(v.file[pos..v.born]), ml)|, ml)
  {
    hide Run, Next, Flush, Whole, Calm, LinesFit, MatchesFrom, Segment, CompleteLines, Shutdown;
    var s := Start(file, pos);
    var w := Run(s, events, ml);
    RefusedIsCrash(w, accept, ml);
    RunTwo(w, Save, Restart, ml);
    RunAppend(s, events, [Save, Restart], ml);
    RunAppend(s, events + [Save, Restart], more, ml);
    Confluence(file, pos, events + [Save, Restart] + more, ml);
  }

  // ---------------------------------------------------------------- cutting a file in two

  /** The records of a finished file. */
  function OneShot(b: seq<Byte>, ml: Opts): seq<Group> { FoldRest(Segment(CompleteLines(b), ml), Rest(b)) }

  /** The second part begins a record of its own. */
  predicate CutsClean(a: seq<Byte>, b: seq<Byte>, ml: Opts) {
    a == [] || b == [] || (Rest(a) == [] && CompleteLines(b) != [] && StartLine(CompleteLines(b)[0], ml))
  }

  lemma OneShotNothing(ml: Opts)
    ensures OneShot([], ml) == []
  {
    SplitsNothing();
  }

  lemma OneShotLines(b: seq<Byte>, ml: Opts)
    ensures Flat(OneShot(b, ml)) == CompleteLines(b) + if Rest(b) == [] then [] else [Rest(b)]
    ensures b != [] ==> Flat(OneShot(b, ml)) != [] && OneShot(b, ml) != []
  {
    hide Segment, CompleteLines, Rest, StartLine, Flat, FoldRest;
    SegmentCuts(CompleteLines(b), ml);
    FlatFold(Segment(CompleteLines(b), ml), Rest(b));
    LinesTile(b);
    NoGroups();
    NoBytes();
  }

  lemma NoBytes()
    ensures Flat<Byte>([]) == []
  {
  }

  /** A line cut in two is a line without its newline in the middle. */
  lemma CutInLine(a: seq<Byte>, b: seq<Byte>, ml: Opts)
    requires Rest(a) != [] && b != []
    ensures OneShot(a, ml) + OneShot(b, ml) != OneShot(a + b, ml)
  {
    hide CompleteLines, Rest, Flat, OneShot;
    OneShotLines(a, ml);
    OneShotLines(b, ml);
    FlatAppend(OneShot(a, ml), OneShot(b, ml));
    LinesAppendRest(a, []);
    var i := |CompleteLines(a)|;
    assert Rest(a)[|Rest(a)| - 1] in Rest(a);
    assert Flat(OneShot(a, ml) + OneShot(b, ml))[i] == Rest(a);
    if OneShot(a, ml) + OneShot(b, ml) == OneShot(a + b, ml) {
      OneShotTerminated(a + b, i, ml);
    }
  }

  lemma OneShotTerminated(b: seq<Byte>, i: nat, ml: Opts)
    requires i < |Flat(OneShot(b, ml))| - 1
    ensures Terminated(Flat(OneShot(b, ml))[i])
  {
    hide Segment, CompleteLines, Rest, FoldRest, Flat;
    FoldedLines(b, i, ml);
  }

  /** Every group after the first begins with a start line. */
  lemma LaterStarts(b: seq<Byte>, i: nat, ml: Opts)
    requires 1 <= i < |OneShot(b, ml)|
    ensures OneShot(b, ml)[i] != [] && StartLine(OneShot(b, ml)[i][0], ml)
  {
    hide Segment, CompleteLines, Rest, StartLine;
    var s := Segment(CompleteLines(b), ml);
    SegmentCuts(CompleteLines(b), ml);
    assert s[i] != [];
  }

  lemma FirstOf(b: seq<Byte>, ml: Opts)
    requires CompleteLines(b) != []
    ensures var s := OneShot(b, ml); s != [] && s[0] != [] && s[0][0] == CompleteLines(b)[0]
  {
    hide CompleteLines, Rest, StartLine;
    SegmentCuts(CompleteLines(b), ml);
    var s := Segment(CompleteLines(b), ml);
    assert s != [] && s[0] != [];
    assert Flat(s)[0] == s[0][0];
  }

  lemma CutBetweenLines(a: seq<Byte>, b: seq<Byte>, ml: Opts)
    requires Rest(a) == [] && a != [] && b != []
    ensures OneShot(a, ml) + OneShot(b, ml) == OneShot(a + b, ml)
            <==> CompleteLines(b) != [] && StartLine(CompleteLines(b)[0], ml)
  {
    hide CompleteLines, Rest, Segment, StartLine, FoldRest, Flat;
    LinesAppend(a, b);
    LinesTile(a);
    LinesTile(b);
    NoBytes();
    var la, lb := CompleteLines(a), CompleteLines(b);
    assert la != [];
    OneShotLines(a, ml);
    NothingToFold(Segment(la, ml));
    if lb == [] {
      NoSegments(ml);
      assert la + lb == la;
      FoldLengths(Segment(la, ml), Rest(b));
    } else if StartLine(lb[0], ml) {
      SegmentSplit(la, lb, ml);
      SegmentFirst(lb, ml);
      FoldRestAfter(Segment(la, ml), Segment(lb, ml), Rest(b));
    } else {
      FirstOf(b, ml);
      var s := OneShot(a, ml) + OneShot(b, ml);
      var n := |OneShot(a, ml)|;
      assert s[n] == OneShot(b, ml)[0];
      if s == OneShot(a + b, ml) {
        LaterStarts(a + b, n, ml);
      }
    }
  }

  lemma NothingToFold(s: seq<Group>)
    ensures FoldRest(s, []) == s
  {
  }

  lemma FoldLengths(s: seq<Group>, rest: seq<Byte>)
    requires s != [] && rest != []
    ensures |FoldRest(s, rest)| == |s| && FoldRest([], rest) == [[rest]]
  {
  }

  /** The records of two parts are those of the whole exactly when the cut is clean. */
  lemma CutExactly(a: seq<Byte>, b: seq<Byte>, ml: Opts)
    ensures OneShot(a, ml) + OneShot(b, ml) == OneShot(a + b, ml) <==> CutsClean(a, b, ml)
  {
    hide CompleteLines, Rest, OneShot, StartLine;
    OneShotNothing(ml);
    if a == [] {
      assert a + b == b;
    } else if b == [] {
      assert a + b == a;
    } else if Rest(a) != [] {
      CutInLine(a, b, ml);
    } else {
      CutBetweenLines(a, b, ml);
    }
  }

  // ---------------------------------------------------------------- accepted

  /** A life that began at a start line has read it whole, or nothing yet. */
  predicate Opened(w: World) { w.born != w.base ==> w.tail.lines != [] || w.tail.readAhead == w.born }

  lemma NextOpened(w: World, e: Event, ml: Opts)
    requires CInv(w, ml) && Opened(w) && CalmEvent(e) && (e.Restart? ==> w.saved.Some?)
    ensures Opened(Next(w, e, ml))
  {
    hide Inv, Confluent, Whole, NextChunk, StartLine, Rest, AppendText, Completed, IsStart, PushPartial, Blank;
    if e.Read? && w.tail.readAhead <= |w.file| {
      var chunk := NextChunk(w.file[w.tail.readAhead..]);
    }
  }

  lemma {:induction false} RunOpened(w: World, events: seq<Event>, ml: Opts)
    requires CInv(w, ml) && Opened(w) && Calm(events) && w.saved == None && w.base <= |w.file|
    requires w.base <= |Run(w, events, ml).file| && LinesFit(Run(w, events, ml).file[w.base..])
    ensures Opened(Run(w, events, ml))
  {
    hide CInv, CalmEvent, LinesFit, Guarded, Calm, Next, Opened;
    if events != [] {
      var p := Init(events);
      CalmPrefix(events);
      var v := Run(w, p, ml);
      GuardedFile(v, Last(events), ml);
      BaseInFile(w, p, ml);
      FitPrefix(v.file, Next(v, Last(events), ml).file, w.base);
      RunOpened(w, p, ml);
      RunCalm(w, p, ml);
      NextOpened(v, Last(events), ml);
    }
  }

  /** What has been read is whole characters. */
  lemma ReadWhole(t: Tail, born: nat, file: seq<Byte>, ml: Opts)
    requires Tiled(t, file, ml) && Confluent(t, born, file, ml) && Whole(file[born..]) && LinesFit(file[born..])
    ensures born <= t.readAhead <= |file| && Whole(file[t.readAhead..])
  {
    hide RecordText, LinesBytes, PartialText, Lossy, Rest, CompleteLines, Whole, GoodLines, GoodLog, Segment, FlatLines,
         Groups, LinesOk, LinesFit, Flat, Splits;
    var q := t.pos + t.recordBytes;
    ConsumedWhole(t, born, file, ml);
    PendingFits(t, born, file, ml);
    PartialOfWhole(t.chunks);
    TiledSpans(t, file, ml);
    WholeAppend(file[born..q], Flat(t.chunks));
    assert file[born..t.readAhead] == file[born..q] + file[q..t.readAhead];
    assert file[born..] == file[born..t.readAhead] + file[t.readAhead..];
    WholeSuffix(file[born..t.readAhead], file[t.readAhead..]);
  }

  /** The state does not depend on what has not been read. */
  lemma CutTail(t: Tail, born: nat, file: seq<Byte>, ml: Opts)
    requires Tiled(t, file, ml) && Confluent(t, born, file, ml)
    ensures t.readAhead <= |file| && Tiled(t, file[..t.readAhead], ml) && Confluent(t, born, file[..t.readAhead], ml)
  {
    hide RecordText, LinesBytes, PartialText, GoodLines, GoodLog, Segment, FlatLines, Groups, LinesOk, Flat, Splits,
         WholeChunks, Pending;
    var g := file[..t.readAhead];
    assert g[t.pos..t.readAhead] == file[t.pos..t.readAhead];
    assert g[born..t.pos] == file[born..t.pos] && g[t.pos..t.pos + t.recordBytes] == file[t.pos..t.pos + t.recordBytes];
  }

  /** A life with lines in flight began at a line it has read to the end. */
  lemma CutAligned(t: Tail, base: nat, born: nat, file: seq<Byte>, ml: Opts)
    requires Aligned(file, base, born, ml) && Confluent(t, born, file, ml) && (born == base || t.lines != [])
    ensures t.readAhead <= |file| && born <= t.readAhead && Aligned(file[..t.readAhead], base, born, ml)
  {
    hide Rest, CompleteLines, Whole, NextChunk, StartLine, Segment, GoodLines, GoodLog, WholeChunks, Flat, Groups, FlatLines;
    var g, q := file[..t.readAhead], t.pos + t.recordBytes;
    assert g[base..born] == file[base..born];
    if born != base {
      ConsumedWhole(t, born, file, ml);
      SomeLines(t.lines);
      FirstLine(file[born..q], file[q..]);
      FirstLine(file[born..q], g[q..]);
      assert file[born..] == file[born..q] + file[q..] && g[born..] == file[born..q] + g[q..];
    }
  }

  lemma NothingRead(t: Tail, born: nat, file: seq<Byte>, ml: Opts)
    requires Tiled(t, file, ml) && Confluent(t, born, file, ml) && t.lines == [] && t.readAhead == born
    ensures Groups(Flush(t, true, ml).0.log) == [] && Flush(t, true, ml).0.pos == born
  {
    hide RecordText, LinesBytes, PartialText, Segment, Rest, CompleteLines, Whole, Flat, FlatLines;
    TiledSpans(t, file, ml);
    RecordIffLines(t.lines);
    NoGroups();
  }

  /** What one life and its accepted flush have shipped: the records of what was read, as of a
      finished file. */
  lemma FlushedShips(w: World, ml: Opts)
    requires CInv(w, ml) && Opened(w) && w.base <= |w.file| && LinesFit(w.file[w.base..])
    ensures w.base <= w.born <= w.tail.readAhead <= |w.file|
    ensures var u := Flush(w.tail, true, ml).0;
            && u.pos == w.tail.readAhead
            && Segment(CompleteLines(w.file[w.base..w.born]), ml) + Groups(u.log)
               == OneShot(w.file[w.base..w.tail.readAhead], ml)
  {
    hide Inv, Confluent, Aligned, Whole, LinesFit, Segment, CompleteLines, Rest, Groups, FoldRest, Flush, Tiled;
    LifeGood(w, ml);
    var t, f := w.tail, w.file;
    CutTail(t, w.born, f, ml);
    BornBefore(t, w.base, w.born, f, ml);
    var g := f[..t.readAhead];
    if w.born == w.base || t.lines != [] {
      CutAligned(t, w.base, w.born, f, ml);
      FitPart(f[w.born..], 0, t.readAhead - w.born);
      assert f[w.born..][0..t.readAhead - w.born] == g[w.born..];
      FlushCompletes(t, w.born, g, ml);
      WholeIffOwn(g, w.base, w.born, Groups(Flush(t, true, ml).0.log), ml);
      assert g[w.base..w.born] == f[w.base..w.born] && g[w.base..] == f[w.base..t.readAhead];
    } else {
      NothingRead(t, w.born, f, ml);
      AlignedRest(f, w.base, w.born, ml);
      NothingToFold(Segment(CompleteLines(f[w.base..w.born]), ml));
      assert Segment(CompleteLines(f[w.base..w.born]), ml) + [] == Segment(CompleteLines(f[w.base..w.born]), ml);
    }
  }

  lemma BornBefore(t: Tail, base: nat, born: nat, file: seq<Byte>, ml: Opts)
    requires Confluent(t, born, file, ml) && Aligned(file, base, born, ml)
    ensures base <= born <= t.readAhead <= |file|
  {
    hide Splits, GoodLines, GoodLog, WholeChunks, Segment, Groups, FlatLines, Flat, Rest, Whole, NextChunk, StartLine;
  }

  lemma AlignedRest(file: seq<Byte>, base: nat, p: nat, ml: Opts)
    requires Aligned(file, base, p, ml)
    ensures base <= p <= |file| && Rest(file[base..p]) == []
  {
    hide Rest, Whole, NextChunk, StartLine;
  }

  /** Where the next life begins. */
  lemma ShutdownAt(w: World, accept: bool, ml: Opts)
    requires Flush(w.tail, accept, ml).1 && Flush(w.tail, true, ml).0.pos <= |w.file|
    ensures var v, p := Shutdown(w, accept, ml), Flush(w.tail, true, ml).0.pos;
            v.tail == Fresh(p) && v.born == p && v.file == w.file && v.saved == Some(p)
    ensures Flush(w.tail, accept, ml) == Flush(w.tail, true, ml)
  {
    hide AppendText, Normalize, Blank, FoldPartial;
  }

  /** An accepted shutdown, exactly: a calm run, a shutdown whose flush is taken, and a second
      calm run that reads on from the saved offset and ends with an accepted flush. The records
      of the two are those of the whole file if and only if the place of the shutdown is a
      clean cut: nothing was read before it, nothing follows it, or it lies at the end of a
      line and the next line starts a record. */
  lemma AcceptedShutdown(
    file: seq<Byte>, pos: nat, events: seq<Event>, accept: bool, more: seq<Event>, ml: Opts)
    requires pos <= |file| && Whole(file[pos..]) && Calm(events) && Calm(more)
    requires var w := Run(Start(file, pos), events, ml);
             var p := w.tail.readAhead;
             && Flush(w.tail, accept, ml).1
             && var u := Run(Start(w.file, p), more, ml);
                pos <= |u.file| && LinesFit(u.file[pos..]) && u.tail.readAhead == |u.file|
    ensures var w := Run(Start(file, pos), events, ml);
            var p := w.tail.readAhead;
            var u := Run(Start(w.file, p), more, ml);
            var v := Shutdown(w, accept, ml);
            && v.tail == Start(w.file, p).tail && v.born == p && v.file == w.file && v.saved == Some(p)
            && pos <= w.born <= p <= u.born <= |u.file|
            && (Segment(CompleteLines(w.file[pos..w.born]), ml) + Groups(Flush(w.tail, accept, ml).0.log)
                + (Segment(CompleteLines(u.file[p..u.born]), ml) + Groups(Flush(u.tail, true, ml).0.log))
                == OneShot(u.file[pos..], ml)
                <==> CutsClean(u.file[pos..p], u.file[p..], ml))
  {
    hide Run, Whole, Calm, LinesFit, CInv, Segment, CompleteLines, Rest, Groups, OneShot, CutsClean, Flush, Shutdown, FoldRest;
    var w := Run(Start(file, pos), events, ml);
    var p := w.tail.readAhead;
    var u := Run(Start(w.file, p), more, ml);
    FirstLife(file, pos, events, p, more, ml);
    FlushedShips(w, ml);
    ShutdownAt(w, accept, ml);
    SecondLife(w.file, p, more, ml);
    assert u.file[pos..] == u.file[pos..p] + u.file[p..];
    assert u.file[pos..p] == w.file[pos..p];
    CutExactly(u.file[pos..p], u.file[p..], ml);
  }

  lemma FirstLife(file: seq<Byte>, pos: nat, events: seq<Event>, p: nat, more: seq<Event>, ml: Opts)
    requires pos <= |file| && Whole(file[pos..]) && Calm(events) && Calm(more)
    requires var w := Run(Start(file, pos), events, ml);
             && p == w.tail.readAhead
             && var f := Run(Start(w.file, p), more, ml).file; pos <= |f| && LinesFit(f[pos..])
    ensures var w := Run(Start(file, pos), events, ml);
            && CInv(w, ml) && Opened(w) && w.base == pos <= |w.file| && LinesFit(w.file[pos..]) && !w.stale
            && pos <= w.born <= p <= |w.file| && Whole(w.file[p..])
            && w.file <= Run(Start(w.file, p), more, ml).file
            && LinesFit(Run(Start(w.file, p), more, ml).file[p..])
  {
    hide Run, Whole, Calm, LinesFit, CInv, Opened, Start;
    var w := Run(Start(file, pos), events, ml);
    var v := Start(w.file, p);
    GrowsOn(v, more, ml);
    StartIs(w.file, p);
    var f := Run(v, more, ml).file;
    CalmLife(file, pos, events, f, ml);
    ReadTo(w, ml);
    FitPart(f[pos..], p - pos, |f| - pos);
    assert f[pos..][p - pos..|f| - pos] == f[p..];
  }

  lemma StartIs(file: seq<Byte>, pos: nat)
    ensures var w := Start(file, pos); w.file == file && w.base == pos && w.saved == None && !w.stale
  {
  }

  lemma CalmLife(file: seq<Byte>, pos: nat, events: seq<Event>, longer: seq<Byte>, ml: Opts)
    requires pos <= |file| && Whole(file[pos..]) && Calm(events)
    requires Run(Start(file, pos), events, ml).file <= longer && pos <= |longer| && LinesFit(longer[pos..])
    ensures var w := Run(Start(file, pos), events, ml);
            CInv(w, ml) && Opened(w) && w.base == pos <= |w.file| && LinesFit(w.file[pos..])
  {
    hide Run, Whole, Calm, LinesFit, CInv, Opened, Start;
    var s := Start(file, pos);
    StartIs(file, pos);
    StartCalm(file, pos, ml);
    StartOpened(file, pos);
    BaseInFile(s, events, ml);
    FitPrefix(Run(s, events, ml).file, longer, pos);
    RunCalm(s, events, ml);
    RunOpened(s, events, ml);
  }

  lemma ReadTo(w: World, ml: Opts)
    requires CInv(w, ml) && w.base <= |w.file| && LinesFit(w.file[w.base..])
    ensures w.base <= w.born <= w.tail.readAhead <= |w.file| && Whole(w.file[w.tail.readAhead..]) && !w.stale
  {
    hide Whole, LinesFit, CInv, Confluent, Tiled;
    LifeGood(w, ml);
    CInvMeans(w, ml);
    ReadWhole(w.tail, w.born, w.file, ml);
  }

  lemma StartOpened(file: seq<Byte>, pos: nat)
    ensures Opened(Start(file, pos))
  {
  }

  lemma CInvMeans(w: World, ml: Opts)
    requires CInv(w, ml)
    ensures Confluent(w.tail, w.born, w.file, ml) && w.base <= w.born <= |w.file| && !w.stale
  {
    hide Inv, Confluent, Whole, Rest, NextChunk, StartLine;
  }

  lemma {:induction false} GrowsOn(w: World, events: seq<Event>, ml: Opts)
    requires Calm(events)
    ensures w.file <= Run(w, events, ml).file
  {
    hide Calm, CalmEvent, Next;
    if events != [] {
      CalmPrefix(events);
      GrowsOn(w, Init(events), ml);
      GuardedFile(Run(w, Init(events), ml), Last(events), ml);
    }
  }

  lemma SecondLife(file: seq<Byte>, p: nat, more: seq<Event>, ml: Opts)
    requires p <= |file| && Whole(file[p..]) && Calm(more)
    requires var u := Run(Start(file, p), more, ml);
             p <= |u.file| && LinesFit(u.file[p..]) && u.tail.readAhead == |u.file|
    ensures var u := Run(Start(file, p), more, ml);
            && p <= u.born <= |u.file|
            && Segment(CompleteLines(u.file[p..u.born]), ml) + Groups(Flush(u.tail, true, ml).0.log)
               == OneShot(u.file[p..], ml)
  {
    hide Run, Whole, Calm, LinesFit, Segment, CompleteLines, Rest, Groups, Flush, FoldRest;
    Completion(file, p, more, ml);
  }

  // ---------------------------------------------------------------- a split record

  /** An instance: the agent is shut down after "a\n" and started again before "b\n" arrives;
      what would have been one record is shipped as two. */
  lemma RecordSplitByShutdown()
    ensures var a: seq<Byte>, b: seq<Byte> := [0x61, NEWLINE], [0x62, NEWLINE];
            var w := Run(Start(a, 0), [Read(true, 0)], NO_STARTS);
            var u := Run(Start(a, 2), [Grow(b), Read(true, 0)], NO_STARTS);
            && w.file == a && w.tail.readAhead == 2 && Flush(w.tail, true, NO_STARTS).1
            && u.file == a + b && u.tail.readAhead == 4
            && Groups(Flush(w.tail, true, NO_STARTS).0.log) + Groups(Flush(u.tail, true, NO_STARTS).0.log)
               != OneShot(u.file, NO_STARTS)
  {
    hide Segment, CompleteLines, Groups, Flush, Run, OneShot, LinesFit, Whole, Rest, CutsClean, Shutdown, Calm;
    var a: seq<Byte>, b: seq<Byte> := [0x61, NEWLINE], [0x62, NEWLINE];
    var e1: seq<Event>, e2: seq<Event> := [Read(true, 0)], [Grow(b), Read(true, 0)];
    TheTwoLives(a, b);
    var w, u := Run(Start(a, 0), e1, NO_STARTS), Run(Start(a, 2), e2, NO_STARTS);
    AlwaysTaken(w.tail);
    AsciiWhole(a);
    AsciiWhole(b);
    assert a[0..] == a && u.file[0..] == a + b && u.file[0..2] == a && u.file[2..] == b;
    Short(a + b);
    CalmEvents(b);
    AcceptedShutdown(a, 0, e1, true, e2, NO_STARTS);
    NotClean(a, b);
    assert w.file[0..0] == [] && u.file[2..2] == [];
    SplitsNothing();
    NoSegments(NO_STARTS);
    var g, h := Groups(Flush(w.tail, true, NO_STARTS).0.log), Groups(Flush(u.tail, true, NO_STARTS).0.log);
    assert [] + g + ([] + h) == g + h;
  }

  lemma TheTwoLives(a: seq<Byte>, b: seq<Byte>)
    requires a == [0x61, NEWLINE] && b == [0x62, NEWLINE]
    ensures var w := Run(Start(a, 0), [Read(true, 0)], NO_STARTS); w.file == a && w.tail.readAhead == 2 && w.born == 0
    ensures var u := Run(Start(a, 2), [Grow(b), Read(true, 0)], NO_STARTS);
            u.file == a + b && u.tail.readAhead == 4 && u.born == 2
  {
    hide Step;
    assert Init<Event>([Read(true, 0)]) == [];
    assert a[0..] == a && (a + b)[2..] == b;
    OneLineRead(a, 0, a);
    OneLineRead(a + b, 2, b);
    RunTwo(Start(a, 2), Grow(b), Read(true, 0), NO_STARTS);
  }

  lemma NotClean(a: seq<Byte>, b: seq<Byte>)
    requires a == [0x61, NEWLINE] && b == [0x62, NEWLINE]
    ensures !CutsClean(a, b, NO_STARTS)
  {
    hide CompleteLines, StartLine, Rest;
    assert b[..1] == [0x62];
    LineOfChunk(b);
    NoStart(b);
  }

  lemma OneLineRead(file: seq<Byte>, at: nat, line: seq<Byte>)
    requires at <= |file| && file[at..] == line && |line| == 2 && line[1] == NEWLINE && line[0] != NEWLINE
    ensures Step(Fresh(at), file, true, NO_STARTS, 0).readAhead == at + 2
  {
    hide NextChunk, AppendText, Completed, IsStart;
    assert line[..1] == [line[0]];
    ChunkIsLine(line);
  }

  lemma AlwaysTaken(t: Tail)
    ensures Flush(t, true, NO_STARTS).1
  {
    hide FoldPartial, Blank;
  }

  lemma Short(b: seq<Byte>)
    requires |b| <= 4
    ensures LinesFit(b)
  {
  }

  lemma NoStart(line: seq<Byte>)
    ensures !StartLine(line, NO_STARTS)
  {
    hide NormalLine;
  }

  lemma CalmEvents(b: seq<Byte>)
    requires Whole(b)
    ensures Calm([Read(true, 0)]) && Calm([Grow(b), Read(true, 0)])
  {
    hide Whole;
  }
}
