/** A rotated-out file in multiline mode, drained by later polls while its writer may still
    append to it: every byte is shipped before the descriptor goes, and when the records are
    those of the one-shot segmentation. */
module Rotations {
  import opened Options
  import opened Utf8
  import opened Lines
  import opened Assembly
  import opened Segments
  import opened Multiline
  import opened Polls
  import R = MultilineRuns
  import C = MultilineConfluence
  import S = SingleLineRuns

  /** One poll: what was written since the last one, and the time. */
  datatype Visit = Visit(more: seq<Byte>, now: nat)

  /** The file as it was last polled. */
  datatype Rotated = Rotated(d: Draining, file: seq<Byte>)

  /** A file whose descriptor is gone is not looked at any more. */
  function Poll(r: Rotated, v: Visit, ml: Opts): Rotated {
    if r.d.retained then Rotated(DrainPoll(r.d, r.file + v.more, ml, v.now), r.file + v.more) else r
  }

  function Visits(r: Rotated, vs: seq<Visit>, ml: Opts): Rotated {
    if vs == [] then r else Poll(Visits(r, Init(vs), ml), Last(vs), ml)
  }

  function Rotate(w: R.World, answers: seq<bool>): Rotated { Rotated(Draining(w.tail, answers, true), w.file) }

  lemma {:induction false} VisitsGrow(r: Rotated, vs: seq<Visit>, ml: Opts)
    ensures r.file <= Visits(r, vs, ml).file
  {
    hide DrainPoll;
    if vs != [] {
      VisitsGrow(r, Init(vs), ml);
    }
  }

  // ---------------------------------------------------------------- progress

  /** The bytes written during the drain. */
  function Growth(vs: seq<Visit>): nat { if vs == [] then 0 else Growth(Init(vs)) + |Last(vs).more| }

  lemma UnreadGrows(t: Tail, file: seq<Byte>, more: seq<Byte>)
    ensures Unread(t, file) <= Unread(t, file + more) <= Unread(t, file) + |more|
  {
  }

  lemma WillingLess(answers: seq<bool>, n: nat, m: nat)
    requires Willing(answers, n) && m <= n
    ensures Willing(answers, m)
  {
  }

  /** With a sink that takes what it is offered the descriptor is gone after at most one poll
      more than there are bytes unread or still to come. */
  lemma {:induction false} DrainTerminates(r: Rotated, vs: seq<Visit>, spare: nat, ml: Opts)
    requires r.d.retained && Willing(r.d.answers, Unread(r.d.tail, r.file) + Growth(vs) + 1 + spare)
    ensures var e := Visits(r, vs, ml);
            e.d.retained ==> Unread(e.d.tail, e.file) + |vs| <= Unread(r.d.tail, r.file) + Growth(vs)
                             && Willing(e.d.answers, Unread(e.d.tail, e.file) + 1 + spare)
  {
    hide DrainPoll, Willing, Unread;
    if vs != [] {
      var v := Last(vs);
      DrainTerminates(r, Init(vs), spare + |v.more|, ml);
      var e := Visits(r, Init(vs), ml);
      if e.d.retained {
        UnreadGrows(e.d.tail, e.file, v.more);
        WillingLess(e.d.answers, Unread(e.d.tail, e.file) + 1 + spare + |v.more|,
                    Unread(e.d.tail, e.file + v.more) + 1 + spare);
        DrainAdvances(e.d, e.file + v.more, spare, ml, v.now);
      }
    }
  }

  // ---------------------------------------------------------------- every byte

  /** Nothing is left of the file. */
  predicate Emptied(t: Tail, file: seq<Byte>) {
    t.pos == t.readAhead == |file| && t.recordBytes == 0 && t.partialBytes == 0
  }

  /** What every poll keeps, whatever is written and whatever the sink answers. */
  predicate ByteInv(r: Rotated, born: nat, ml: Opts) {
    R.LifeInv(r.d.tail, born, r.file, ml) && (!r.d.retained ==> Emptied(r.d.tail, r.file))
  }

  lemma GoneMeans(p: Polls.Poll, file: seq<Byte>, ml: Opts)
    requires Tiled(p.tail, file, ml) && !EndPoll(p, ml).retained && p.tail.readAhead == |file|
    ensures Emptied(EndPoll(p, ml).tail, file)
  {
    hide AppendText, Normalize, Blank, LinesOk, Pending, RecordText, PartialText, LinesBytes, Flat;
    FoldTiled(p.tail, file, ml);
    ShipTiled(FoldPartial(p.tail, ml), file, NextAnswer(p.answers), ml);
  }

  lemma PollBytes(r: Rotated, born: nat, v: Visit, ml: Opts)
    requires ByteInv(r, born, ml)
    ensures ByteInv(Poll(r, v, ml), born, ml)
  {
    hide Tiled, R.Chain, R.LogOk, Turns, EndPoll, Offers, Emptied;
    if r.d.retained {
      var f := r.file + v.more;
      R.GrowLife(r.d.tail, born, r.file, v.more, ml);
      TiledCursor(r.d.tail, f, ml);
      var b, n := Begin(r.d.tail, r.d.answers), Unread(r.d.tail, f) + 1;
      TurnsLife(b, born, f, n, ml, v.now);
      var p := Turns(b, f, n, ml, v.now);
      EndLife(p, born, f, ml);
      TurnsRead(b, f, n, ml, v.now);
      PollIs(r.d.tail, r.d.answers, f, n, ml, v.now);
      if !EndPoll(p, ml).retained {
        DroppedAtEnd(p, ml);
        GoneMeans(p, f, ml);
      }
    }
  }

  lemma DroppedAtEnd(p: Polls.Poll, ml: Opts)
    requires p.stop.Some? && !EndPoll(p, ml).retained
    ensures p.stop == Some(Eof)
  {
    hide FoldPartial, Ship, Offers;
    match p.stop.value {
      case Eof =>
      case Cap =>
      case Backpressure =>
    }
  }

  lemma {:induction false} VisitsBytes(r: Rotated, born: nat, vs: seq<Visit>, ml: Opts)
    requires ByteInv(r, born, ml)
    ensures ByteInv(Visits(r, vs, ml), born, ml)
  {
    hide ByteInv, Poll;
    if vs != [] {
      VisitsBytes(r, born, Init(vs), ml);
      PollBytes(Visits(r, Init(vs), ml), born, Last(vs), ml);
    }
  }

  /** Rotation loses nothing: after any run at all, whatever is written to the old file while it
      is drained, whatever the sink answers and however often, once the descriptor is gone
      every byte then in the file from the base on was shipped in a record that carries
      exactly its bytes, and nothing is in flight. */
  lemma NoByteLost(
    file: seq<Byte>, pos: nat, events: seq<R.Event>, answers: seq<bool>, vs: seq<Visit>, ml: Opts)
    requires pos <= |file|
    requires !Visits(Rotate(R.Run(R.Start(file, pos), events, ml), answers), vs, ml).d.retained
    ensures var w := R.Run(R.Start(file, pos), events, ml);
            var e := Visits(Rotate(w, answers), vs, ml);
            && Emptied(e.d.tail, e.file) && R.LogOk(e.d.tail.log, e.file, ml)
            && forall b :: w.base <= b < |e.file| ==> R.Covered(w.(file := e.file, tail := e.d.tail), b)
  {
    hide R.Run, Visits, Tiled, R.LogOk, R.Chain, R.PastOk, R.Carries;
    R.StartInv(file, pos, ml);
    R.RunKeeps(R.Start(file, pos), events, ml);
    var w := R.Run(R.Start(file, pos), events, ml);
    var r := Rotate(w, answers);
    VisitsBytes(r, w.born, vs, ml);
    VisitsGrow(r, vs, ml);
    var e := Visits(r, vs, ml);
    var more := e.file[|w.file|..];
    assert e.file == w.file + more;
    R.GrowPast(w.past, w.base, w.born, w.file, more, ml);
    forall b | w.base <= b < |e.file| ensures R.Covered(w.(file := e.file, tail := e.d.tail), b) {
      if w.born <= b {
        R.ChainCarries(e.d.tail.log, w.born, e.d.tail.pos, b);
      } else {
        R.PastCarries(w.past, w.base, w.born, e.file, ml, b);
      }
    }
  }

  // ---------------------------------------------------------------- the segmentation

  /** The last line of the record in flight was folded without its newline. */
  predicate Torn(t: Tail) { t.lines != [] && Ragged(Last(t.lines)) }

  predicate Ragged(l: Chunks) { l != [] && !Terminated(Last(l)) }

  /** Nothing was written after a final offer that was refused with a line folded into it. */
  predicate Smooth(r: Rotated, vs: seq<Visit>, ml: Opts) {
    vs != [] ==>
      var e := Visits(r, Init(vs), ml);
      Smooth(r, Init(vs), ml) && !(e.d.retained && Torn(e.d.tail) && Last(vs).more != [])
  }

  lemma FoldedTorn(t: Tail, born: nat, file: seq<Byte>, ml: Opts)
    requires Folded(t, born, file, ml) && !Torn(t)
    ensures C.Confluent(t, born, file, ml)
  {
    hide C.Confluent, FoldPartial, Tiled, Torn;
    var s := Unfolded(t, born, file, ml);
    FoldTears(s, file, ml);
  }

  lemma FoldTears(s: Tail, file: seq<Byte>, ml: Opts)
    requires Tiled(s, file, ml)
    ensures if s.partial == "" then FoldPartial(s, ml) == s else Torn(FoldPartial(s, ml))
  {
    hide AppendText, Normalize, PartialText, RecordText, LinesBytes, Flat, LinesOk;
    TiledSpans(s, file, ml);
    if s.partial != "" {
      assert Last(s.chunks) in s.chunks;
    }
  }

  lemma PollSmooth(r: Rotated, born: nat, v: Visit, ml: Opts)
    requires born <= |r.file| && Whole(r.file[born..]) && Whole(v.more) && DrainInv(r.d, born, r.file, ml)
    requires C.LinesFit(Poll(r, v, ml).file[born..]) && !(r.d.retained && Torn(r.d.tail) && v.more != [])
    ensures var e := Poll(r, v, ml);
            r.file <= e.file && Whole(e.file[born..]) && DrainInv(e.d, born, e.file, ml)
  {
    hide Whole, C.LinesFit, DrainPoll, C.Confluent, Folded, Finished, R.LifeInv, Torn, Lossy;
    if r.d.retained {
      var f := r.file + v.more;
      WholeAppend(r.file[born..], v.more);
      assert f[born..] == r.file[born..] + v.more;
      if v.more == [] {
        assert f == r.file;
      } else {
        if !C.Confluent(r.d.tail, born, r.file, ml) { FoldedTorn(r.d.tail, born, r.file, ml); }
        C.GrowConfluent(r.d.tail, born, r.file, v.more, ml);
        R.GrowLife(r.d.tail, born, r.file, v.more, ml);
      }
      DrainKeeps(r.d, born, f, ml, v.now);
    }
  }

  predicate WholeVisits(vs: seq<Visit>) { forall i :: 0 <= i < |vs| ==> Whole(vs[i].more) }

  lemma {:induction false} VisitsSmooth(r: Rotated, born: nat, vs: seq<Visit>, ml: Opts)
    requires born <= |r.file| && Whole(r.file[born..]) && WholeVisits(vs) && DrainInv(r.d, born, r.file, ml)
    requires born <= |Visits(r, vs, ml).file| && C.LinesFit(Visits(r, vs, ml).file[born..]) && Smooth(r, vs, ml)
    ensures var e := Visits(r, vs, ml); Whole(e.file[born..]) && DrainInv(e.d, born, e.file, ml)
  {
    hide DrainInv, Whole, C.LinesFit, DrainPoll, Torn;
    if vs != [] {
      var e := Visits(r, Init(vs), ml);
      VisitsGrow(r, Init(vs), ml);
      assert Whole(vs[|vs| - 1].more);
      assert e.file <= Poll(e, Last(vs), ml).file;
      C.FitPrefix(e.file, Poll(e, Last(vs), ml).file, born);
      VisitsSmooth(r, born, Init(vs), ml);
      PollSmooth(e, born, Last(vs), ml);
    }
  }

  // ---------------------------------------------------------------- what a torn line leaves

  function LogLines(log: seq<Shipped>): seq<Chunks> {
    if log == [] then [] else LogLines(Init(log)) + Last(log).lines
  }

  /** All lines committed so far, shipped or in flight. */
  function AllLines(t: Tail): seq<Chunks> { LogLines(t.log) + t.lines }

  /** More will follow the lines committed so far. */
  predicate GoesOn(t: Tail, file: seq<Byte>) { t.readAhead < |file| || t.partialBytes > 0 }

  /** A line without its newline that is not, or will not stay, the last. */
  predicate ScarAt(t: Tail, file: seq<Byte>, i: nat) {
    var l := AllLines(t);
    i < |l| && Ragged(l[i]) && (i < |l| - 1 || GoesOn(t, file))
  }

  /** Committed lines stay, and if none is added what was to follow still is. */
  predicate Extends(t: Tail, s: Tail, file: seq<Byte>) {
    && AllLines(t) <= AllLines(s)
    && (|AllLines(s)| == |AllLines(t)| && GoesOn(t, file) ==> GoesOn(s, file))
  }

  lemma ScarStays(t: Tail, s: Tail, file: seq<Byte>, i: nat)
    requires ScarAt(t, file, i) && Extends(t, s, file)
    ensures ScarAt(s, file, i)
  {
    hide AllLines, Ragged;
    assert AllLines(s)[i] == AllLines(t)[i];
  }

  lemma ShipExtends(t: Tail, accept: bool, file: seq<Byte>)
    ensures Extends(t, Ship(t, accept).0, file) && AllLines(Ship(t, accept).0) == AllLines(t)
  {
    hide Blank;
    var s := Ship(t, accept).0;
    if s != t {
      assert Init(s.log) == t.log;
    }
  }

  lemma CommitExtends(t: Tail, chunk: seq<Byte>, accept: bool, ml: Opts, now: nat, file: seq<Byte>)
    requires chunk != []
    ensures Extends(t, CommitLine(t, chunk, accept, ml, now).0, file)
  {
    hide Completed, IsStart, AppendText, Ship, LogLines;
    ShipExtends(t, accept, file);
    var s := Ship(t, accept).0;
    RefusedSame(t, accept);
    AddExtends(s, chunk, ml, now);
    AddExtends(t, chunk, ml, now);
  }

  lemma RefusedSame(t: Tail, accept: bool)
    ensures !Ship(t, accept).1 ==> Ship(t, accept).0 == t
  {
  }

  lemma AddExtends(t: Tail, chunk: seq<Byte>, ml: Opts, now: nat)
    requires chunk != []
    ensures AllLines(AddLine(t, chunk, ml, now)) == AllLines(t) + [t.chunks + [chunk]]
  {
    hide Completed, AppendText, LogLines;
  }

  lemma TurnExtends(p: Polls.Poll, file: seq<Byte>, ml: Opts, now: nat)
    ensures Extends(p.tail, Turn(p, file, ml, now).tail, file)
  {
    hide NextChunk, CommitLine, PushPartial, LogLines, Asks;
    var chunk := NextChunk(From(file, p.tail.readAhead));
    if chunk != [] { CommitExtends(p.tail, chunk, NextAnswer(p.answers), ml, now, file); }
  }

  lemma {:induction false} TurnsScar(p: Polls.Poll, file: seq<Byte>, n: nat, i: nat, ml: Opts, now: nat)
    requires ScarAt(p.tail, file, i)
    ensures ScarAt(Turns(p, file, n, ml, now).tail, file, i)
  {
    hide ScarAt, Turn, Extends;
    if n > 0 {
      TurnsScar(p, file, n - 1, i, ml, now);
      var q := Turns(p, file, n - 1, ml, now);
      TurnExtends(q, file, ml, now);
      ScarStays(q.tail, Turn(q, file, ml, now).tail, file, i);
    }
  }

  lemma EndScar(p: Polls.Poll, file: seq<Byte>, i: nat, ml: Opts)
    requires ScarAt(p.tail, file, i)
    ensures ScarAt(EndPoll(p, ml).tail, file, i)
  {
    hide ScarAt, Extends, FoldPartial, Ship, Offers;
    var f := FoldPartial(p.tail, ml);
    FoldExtends(p.tail, file, ml);
    ScarStays(p.tail, f, file, i);
    ShipExtends(f, NextAnswer(p.answers), file);
    ScarStays(f, Ship(f, NextAnswer(p.answers)).0, file, i);
  }

  lemma FoldExtends(t: Tail, file: seq<Byte>, ml: Opts)
    ensures Extends(t, FoldPartial(t, ml), file)
  {
    hide AppendText, Normalize, LogLines;
  }

  lemma PollScar(r: Rotated, v: Visit, i: nat, ml: Opts)
    requires ScarAt(r.d.tail, r.file, i)
    ensures ScarAt(Poll(r, v, ml).d.tail, Poll(r, v, ml).file, i)
  {
    hide AllLines, Ragged, Turns, EndPoll;
    if r.d.retained {
      var f := r.file + v.more;
      assert ScarAt(r.d.tail, f, i);
      var b, n := Begin(r.d.tail, r.d.answers), Unread(r.d.tail, f) + 1;
      hide ScarAt, Unread;
      TurnsScar(b, f, n, i, ml, v.now);
      EndScar(Turns(b, f, n, ml, v.now), f, i, ml);
    }
  }

  /** Writing after a refused final offer with a folded line leaves a scar. */
  lemma TearScars(r: Rotated, v: Visit, ml: Opts)
    requires r.d.retained && Torn(r.d.tail) && v.more != [] && r.d.tail.readAhead <= |r.file|
    ensures var i := |AllLines(r.d.tail)| - 1; i >= 0 && ScarAt(Poll(r, v, ml).d.tail, Poll(r, v, ml).file, i)
  {
    hide LogLines, DrainPoll;
    var i := |AllLines(r.d.tail)| - 1;
    var f := r.file + v.more;
    assert AllLines(r.d.tail)[i] == Last(r.d.tail.lines);
    assert ScarAt(r.d.tail, f, i);
    PollScar(Rotated(r.d, f), Visit([], v.now), i, ml);
    assert f + [] == f;
  }

  lemma {:induction false} Scarred(r: Rotated, born: nat, vs: seq<Visit>, ml: Opts) returns (i: nat)
    requires ByteInv(r, born, ml) && !Smooth(r, vs, ml)
    ensures var e := Visits(r, vs, ml); ScarAt(e.d.tail, e.file, i)
  {
    hide ByteInv, ScarAt, Poll, Torn, AllLines;
    var e := Visits(r, Init(vs), ml);
    if !Smooth(r, Init(vs), ml) {
      i := Scarred(r, born, Init(vs), ml);
      PollScar(e, Last(vs), i, ml);
    } else {
      VisitsBytes(r, born, Init(vs), ml);
      CursorIn(e, born, ml);
      TearScars(e, Last(vs), ml);
      i := |AllLines(e.d.tail)| - 1;
    }
  }

  lemma CursorIn(r: Rotated, born: nat, ml: Opts)
    requires ByteInv(r, born, ml)
    ensures r.d.tail.readAhead <= |r.file|
  {
    hide Tiled, R.Chain, R.LogOk;
    TiledCursor(r.d.tail, r.file, ml);
  }

  /** The lines behind the shipped groups. */
  lemma {:induction false} GroupLines(log: seq<Shipped>)
    ensures Flat(C.Groups(log)) == C.FlatLines(LogLines(log))
  {
    hide Flat;
    if log == [] {
      C.NoGroups();
    } else {
      GroupLines(Init(log));
      assert log == Init(log) + [Last(log)];
      C.GroupsSnoc(Init(log), Last(log));
      FlatLinesAppend(LogLines(Init(log)), Last(log).lines);
    }
  }

  lemma {:induction false} FlatLinesAppend(a: seq<Chunks>, b: seq<Chunks>)
    ensures C.FlatLines(a + b) == C.FlatLines(a) + C.FlatLines(b)
    decreases |b|
  {
    hide Flat;
    if b == [] {
      assert a + b == a;
    } else {
      FlatLinesAppend(a, Init(b));
      assert Init(a + b) == a + Init(b);
    }
  }

  lemma {:induction false} FlatLineAt(lines: seq<Chunks>, i: nat)
    requires i < |lines|
    ensures |C.FlatLines(lines)| == |lines| && C.FlatLines(lines)[i] == Flat(lines[i])
  {
    hide Flat;
    if i < |lines| - 1 {
      FlatLineAt(Init(lines), i);
    } else if |lines| > 1 {
      FlatLineAt(Init(lines), 0);
    }
  }

  lemma RaggedFlat(l: Chunks)
    requires Ragged(l) && LineOk(l)
    ensures !Terminated(Flat(l))
  {
    hide Flat;
    assert l == Init(l) + [Last(l)];
    FlatSnoc(Init(l), Last(l));
    var f := Flat(l);
    assert f[|f| - 1] == Last(l)[|Last(l)| - 1];
  }

  lemma {:induction false} LogLineOk(log: seq<Shipped>, file: seq<Byte>, ml: Opts, i: nat)
    requires R.LogOk(log, file, ml) && i < |LogLines(log)|
    ensures LineOk(LogLines(log)[i])
  {
    hide LineOk, RecordText, LinesBytes;
    var p := Init(log);
    assert R.EntryOk(Last(log), file, ml);
    if i < |LogLines(p)| {
      assert forall k :: 0 <= k < |p| ==> p[k] == log[k];
      LogLineOk(p, file, ml, i);
    }
  }

  /** A scar that is still there when nothing is left of the file is a line the one-shot
      segmentation does not have. */
  lemma ScarShows(t: Tail, born: nat, file: seq<Byte>, i: nat, ml: Opts)
    requires born <= |file| && ScarAt(t, file, i) && Emptied(t, file) && R.LifeInv(t, born, file, ml)
    ensures C.Groups(t.log) != C.FoldRest(Segment(CompleteLines(file[born..]), ml), Rest(file[born..]))
  {
    hide LogLines, C.Groups, C.FlatLines, Segment, CompleteLines, Rest, C.FoldRest, R.LogOk, R.Chain, RecordText, PartialText,
         LinesBytes, Flat, LineOk, Ragged;
    RecordIffLines(t.lines);
    var l := LogLines(t.log);
    assert AllLines(t) == l;
    GroupLines(t.log);
    FlatLineAt(l, i);
    LogLineOk(t.log, file, ml, i);
    RaggedFlat(l[i]);
    if C.Groups(t.log) == C.FoldRest(Segment(CompleteLines(file[born..]), ml), Rest(file[born..])) {
      C.FoldedLines(file[born..], i, ml);
    }
  }

  // ---------------------------------------------------------------- the rotation theorem

  /** What the drain of a calm run starts from, and what it looks like in a longer file. */
  lemma RotationStart(file: seq<Byte>, pos: nat, events: seq<R.Event>, answers: seq<bool>, longer: seq<Byte>, ml: Opts)
    requires pos <= |file| && Whole(file[pos..]) && C.Calm(events)
    requires R.Run(R.Start(file, pos), events, ml).file <= longer && pos <= |longer| && C.LinesFit(longer[pos..])
    ensures var w := R.Run(R.Start(file, pos), events, ml);
            && pos <= w.born <= |w.file| && Whole(w.file[w.born..])
            && DrainInv(Draining(w.tail, answers, true), w.born, w.file, ml)
            && C.Aligned(longer, pos, w.born, ml) && C.LinesFit(longer[w.born..])
  {
    hide Whole, C.Calm, C.LinesFit, R.Run, C.CInv, DrainInv, C.Aligned;
    C.StartCalm(file, pos, ml);
    var w := R.Run(R.Start(file, pos), events, ml);
    SameBase(file, pos, events, ml);
    C.FitPrefix(w.file, longer, pos);
    C.RunCalm(R.Start(file, pos), events, ml);
    CalmStart(w, answers, ml);
    var more := longer[|w.file|..];
    assert longer == w.file + more;
    C.GrowAligned(w.file, more, pos, w.born, ml);
    C.FitPart(longer[pos..], w.born - pos, |longer| - pos);
    assert longer[pos..][w.born - pos..|longer| - pos] == longer[w.born..];
  }

  lemma CalmStart(w: R.World, answers: seq<bool>, ml: Opts)
    requires C.CInv(w, ml) && w.base <= |w.file| && C.LinesFit(w.file[w.base..])
    ensures C.Aligned(w.file, w.base, w.born, ml) && w.base <= w.born <= |w.file| && Whole(w.file[w.born..])
    ensures DrainInv(Draining(w.tail, answers, true), w.born, w.file, ml)
  {
    hide Whole, C.LinesFit, C.Confluent, C.Aligned, R.LifeInv, R.PastOk, Folded;
    C.LifeGood(w, ml);
    AlignedBounds(w.file, w.base, w.born, ml);
  }

  lemma SameBase(file: seq<Byte>, pos: nat, events: seq<R.Event>, ml: Opts)
    requires pos <= |file| && C.Calm(events)
    ensures pos <= |R.Run(R.Start(file, pos), events, ml).file|
  {
    hide C.Calm, R.Run;
    R.GuardedBase(R.Start(file, pos), events, ml) by { CalmGuarded(events); }
    C.BaseInFile(R.Start(file, pos), events, ml);
  }

  lemma CalmGuarded(events: seq<R.Event>)
    requires C.Calm(events)
    ensures R.Guarded(events)
  {
  }

  lemma AlignedBounds(file: seq<Byte>, base: nat, p: nat, ml: Opts)
    requires C.Aligned(file, base, p, ml)
    ensures base <= p <= |file|
  {
  }

  /** Rotation, exactly: a calm run read the file up to anywhere, then it was rotated out with
      its record in flight and drained by later polls while its writer went on. When the
      descriptor is gone, the records shipped are the one-shot segmentation of the file as it
      then was, its trailing line folded into the last, if and only if nothing was written
      after a final offer that was refused with a line folded into it; and then their texts
      are those of the segmentation too. */
  lemma RotationExactly(
    file: seq<Byte>, pos: nat, events: seq<R.Event>, answers: seq<bool>, vs: seq<Visit>, ml: Opts)
    requires pos <= |file| && Whole(file[pos..]) && C.Calm(events) && WholeVisits(vs)
    requires var e := Visits(Rotate(R.Run(R.Start(file, pos), events, ml), answers), vs, ml);
             pos <= |e.file| && C.LinesFit(e.file[pos..]) && !e.d.retained
    ensures var w := R.Run(R.Start(file, pos), events, ml);
            var r := Rotate(w, answers);
            var e := Visits(r, vs, ml);
            && pos <= w.born <= |e.file| && Emptied(e.d.tail, e.file)
            && (Segment(CompleteLines(e.file[pos..w.born]), ml) + C.Groups(e.d.tail.log)
                == C.FoldRest(Segment(CompleteLines(e.file[pos..]), ml), Rest(e.file[pos..]))
                <==> Smooth(r, vs, ml))
            && (Smooth(r, vs, ml) ==> TextsMatch(e.d.tail.log, ml))
  {
    hide Whole, C.Calm, C.LinesFit, R.Run, Visits, Smooth, WholeVisits, DrainInv, C.Aligned, Segment, CompleteLines, Rest,
         C.Groups, C.FoldRest, TextsMatch, Emptied;
    var w := R.Run(R.Start(file, pos), events, ml);
    var r := Rotate(w, answers);
    var e := Visits(r, vs, ml);
    VisitsGrow(r, vs, ml);
    RotationStart(file, pos, events, answers, e.file, ml);
    C.WholeIffOwn(e.file, pos, w.born, C.Groups(e.d.tail.log), ml);
    InvBytes(r, w.born, ml);
    VisitsBytes(r, w.born, vs, ml);
    BytesMean(e, w.born, ml);
    if Smooth(r, vs, ml) {
      VisitsSmooth(r, w.born, vs, ml);
      FinishedMeans(e, w.born, ml);
    } else {
      var i := Scarred(r, w.born, vs, ml);
      ScarShows(e.d.tail, w.born, e.file, i, ml);
    }
  }

  predicate TextsMatch(log: seq<Shipped>, ml: Opts) {
    forall i :: 0 <= i < |log| ==> log[i].text == C.GroupText(C.FlatLines(log[i].lines), ml)
  }

  lemma InvBytes(r: Rotated, born: nat, ml: Opts)
    requires born <= |r.file| && DrainInv(r.d, born, r.file, ml) && r.d.retained
    ensures ByteInv(r, born, ml)
  {
    hide R.LifeInv, C.Confluent, Folded;
  }

  lemma BytesMean(r: Rotated, born: nat, ml: Opts)
    requires ByteInv(r, born, ml) && !r.d.retained
    ensures Emptied(r.d.tail, r.file) && R.LifeInv(r.d.tail, born, r.file, ml)
  {
    hide R.LifeInv, Emptied;
  }

  lemma FinishedMeans(r: Rotated, born: nat, ml: Opts)
    requires born <= |r.file| && DrainInv(r.d, born, r.file, ml) && !r.d.retained
    ensures C.Groups(r.d.tail.log) == C.FoldRest(Segment(CompleteLines(r.file[born..]), ml), Rest(r.file[born..]))
    ensures TextsMatch(r.d.tail.log, ml)
  {
    hide C.Groups, C.FoldRest, Segment, CompleteLines, Rest, R.Chain, Tiled, LinesOk, LinesBytes, CappedJoin, C.GroupTexts,
         C.FlatLines, C.GoodLines;
    var log := r.d.tail.log;
    forall i | 0 <= i < |log| ensures log[i].text == C.GroupText(C.FlatLines(log[i].lines), ml) {
      assert R.EntryOk(log[i], r.file, ml) && C.GoodLines(log[i].lines);
      C.GoodTexts(log[i].lines);
    }
  }

  /** Progress from the rotation on, whatever came before it. */
  lemma RotationEnds(w: R.World, answers: seq<bool>, vs: seq<Visit>, ml: Opts)
    requires Willing(answers, Unread(w.tail, w.file) + Growth(vs) + 1)
    requires |vs| > Unread(w.tail, w.file) + Growth(vs)
    ensures !Visits(Rotate(w, answers), vs, ml).d.retained
  {
    hide Visits, Willing;
    DrainTerminates(Rotate(w, answers), vs, 0, ml);
  }

  // ---------------------------------------------------------------- the line cap

  lemma TurnCounts(p: Polls.Poll, file: seq<Byte>, ml: Opts, now: nat)
    requires p.stop.None? && p.count < 32000
    ensures var q := Turn(p, file, ml, now);
            && q.count == p.count + |AllLines(q.tail)| - |AllLines(p.tail)| <= 32000
            && (q.stop == Some(Cap) <==> q.count == 32000)
  {
    hide NextChunk, Completed, IsStart, AppendText, PushPartial, LogLines, Blank, AddLine;
    var chunk := NextChunk(From(file, p.tail.readAhead));
    if chunk != [] {
      var accept := NextAnswer(p.answers);
      ShipExtends(p.tail, accept, file);
      AddExtends(p.tail, chunk, ml, now);
      AddExtends(Ship(p.tail, accept).0, chunk, ml, now);
    }
  }

  /** A poll commits at most 32000 lines, counted by what it added to the log and to the record
      in flight, and stops at the cap exactly when it has committed as many. */
  lemma {:induction false} CapExactly(t: Tail, answers: seq<bool>, file: seq<Byte>, n: nat, ml: Opts, now: nat)
    ensures var q := Turns(Begin(t, answers), file, n, ml, now);
            && q.count == |AllLines(q.tail)| - |AllLines(t)| <= 32000
            && (q.stop == Some(Cap) <==> q.count == 32000)
  {
    hide Turn, AllLines;
    if n > 0 {
      CapExactly(t, answers, file, n - 1, ml, now);
      var q := Turns(Begin(t, answers), file, n - 1, ml, now);
      if q.stop.None? {
        TurnCounts(q, file, ml, now);
      } else {
        Stopped(q, file, ml, now);
      }
    }
  }

  // ---------------------------------------------------------------- a torn line

  /** "ab" read at the end of the file, folded, and refused. */
  function Refused(): Tail {
    Fresh(0).(record := "ab", recordBytes := 2, readAhead := 2, lines := [[[0x61, 0x62]]])
  }

  /** An instance: the final offer of "ab" is refused, then "c\n" is written; the record that is
      taken in the end holds two lines, and the file one. */
  lemma TornByGrowth()
    ensures var r := Rotate(R.Start([0x61, 0x62], 0), [false, true]);
            var vs := [Visit([], 0), Visit([0x63, NEWLINE], 0)];
            var e := Visits(r, vs, NO_STARTS);
            && !e.d.retained && !Smooth(r, vs, NO_STARTS)
            && |e.d.tail.log| == 1 && e.d.tail.log[0].text == "ab\nc"
            && C.GroupText(CompleteLines(e.file), NO_STARTS) == "abc"
  {
    hide DrainPoll, C.GroupText, CompleteLines;
    var ab: seq<Byte>, c: seq<Byte> := [0x61, 0x62], [0x63, NEWLINE];
    var r := Rotate(R.Start(ab, 0), [false, true]);
    var v1, v2 := Visit([], 0), Visit(c, 0);
    var vs := [v1, v2];
    assert Init(vs) == [v1] && Init([v1]) == [] && Visits(r, [v1], NO_STARTS) == Poll(r, v1, NO_STARTS);
    assert ab + [] == ab;
    FirstOffer();
    var s := Visits(r, [v1], NO_STARTS);
    assert s == Rotated(Draining(Refused(), [true], true), ab);
    SecondOffer();
    assert Torn(Refused());
    assert !Smooth(r, vs, NO_STARTS);
    OneShot();
  }

  lemma EofTurn(p: Polls.Poll, file: seq<Byte>, ml: Opts, now: nat)
    requires p.stop.None? && p.tail.readAhead == |file|
    ensures Turn(p, file, ml, now) == p.(stop := Some(Eof))
  {
    hide CommitLine, BufferPartial;
    NoChunk();
  }

  lemma TwoTurns(t: Tail, answers: seq<bool>, file: seq<Byte>, ml: Opts)
    requires var q := Turn(Begin(t, answers), file, ml, 0); q.stop.None? && q.tail.readAhead == |file|
    ensures ReadPoll(t, answers, file, ml, 0) == Turn(Begin(t, answers), file, ml, 0).(stop := Some(Eof))
  {
    hide Turn;
    var b := Begin(t, answers);
    assert Turns(b, file, 0, ml, 0) == b;
    assert Turns(b, file, 1, ml, 0) == Turn(b, file, ml, 0);
    EofTurn(Turn(b, file, ml, 0), file, ml, 0);
    assert Turns(b, file, 2, ml, 0).stop.Some?;
    PollIs(t, answers, file, 2, ml, 0);
  }

  lemma ShortText(a: string, b: string)
    requires |a| + 1 + |b| <= 100 && Ascii(a) && Ascii(b) && a != ""
    ensures AppendText("", a, 100) == a && AppendText(a, b, 100) == a + "\n" + b
  {
    hide Floor;
    AsciiFloor(a, 100);
    AsciiFloor(a + "\n" + b, 100);
  }

  lemma Texts3()
    ensures Normalize("ab") == "ab" && !Blank("ab") && !Blank("ab\nc")
  {
    assert !IsWhitespace("ab"[0]) && !IsWhitespace("ab"[1]) && !IsWhitespace("ab\nc"[0]);
  }

  lemma FirstOffer()
    ensures var ab: seq<Byte> := [0x61, 0x62];
            DrainPoll(Draining(Fresh(0), [false, true], true), ab, NO_STARTS, 0) == Draining(Refused(), [true], true)
  {
    hide NextChunk, CommitLine, PushPartial, Normalize, AppendText, Blank, ReadPoll;
    var ab: seq<Byte>, a := [0x61, 0x62], [false, true];
    assert ab[0..] == ab && a[1..] == [true];
    NoNewlineChunk(ab);
    S.PendingText();
    var t := Fresh(0).(readAhead := 2, partialBytes := 2, partial := "ab", chunks := [ab]);
    assert Fresh(0).chunks + [ab] == [ab];
    assert Turn(Begin(Fresh(0), a), ab, NO_STARTS, 0) == Begin(t, a);
    TwoTurns(Fresh(0), a, ab, NO_STARTS);
    ShortText("ab", "c");
    Texts3();
    assert [] + [[ab]] == [[ab]];
    assert FoldPartial(t, NO_STARTS) == Refused();
  }

  /** "c" becomes a line of its own. */
  function Joined(): Tail { AddLine(Refused(), [0x63, NEWLINE], NO_STARTS, 0) }

  lemma JoinedIs()
    ensures Completed(Refused(), [0x63, NEWLINE]) == "c"
    ensures var t := Joined();
            t.record == "ab\nc" && t.recordBytes == 4 && t.readAhead == 4 && t.partial == "" && t.log == []
  {
    hide Normalize, AppendText, Lossy;
    var c: seq<Byte> := [0x63, NEWLINE];
    assert Init(c) == [0x63] && "" + Lossy([0x63]) == Lossy([0x63]);
    S.TextOf();
    ShortText("ab", "c");
    assert "ab" + "\n" + "c" == "ab\nc";
  }

  lemma SecondTurn()
    ensures Turn(Begin(Refused(), [true]), [0x61, 0x62] + [0x63, NEWLINE], NO_STARTS, 0)
            == Begin(Joined(), [true]).(count := 1)
  {
    hide NextChunk, Completed, AddLine, Ship, Blank;
    var ab: seq<Byte>, c: seq<Byte> := [0x61, 0x62], [0x63, NEWLINE];
    assert (ab + c)[2..] == c;
    ChunkIsLine(c);
  }

  lemma SecondOffer()
    ensures var e := DrainPoll(Draining(Refused(), [true], true), [0x61, 0x62] + [0x63, NEWLINE], NO_STARTS, 0);
            !e.retained && |e.tail.log| == 1 && e.tail.log[0].text == "ab\nc"
  {
    hide Turn, ReadPoll, Joined, Refused, Normalize, AppendText, Blank;
    JoinedIs();
    SecondTurn();
    TwoTurns(Refused(), [true], [0x61, 0x62] + [0x63, NEWLINE], NO_STARTS);
    Texts3();
  }

  lemma OneShot()
    ensures C.GroupText(CompleteLines([0x61, 0x62] + [0x63, NEWLINE]), NO_STARTS) == "abc"
  {
    hide Floor, NormalLine;
    var f: seq<Byte> := [0x61, 0x62, 0x63, NEWLINE];
    assert [0x61, 0x62] + [0x63, NEWLINE] == f;
    LineOfChunk(f);
    S.TextOf();
    assert Init([f]) == [] && Init(["abc"]) == [];
    assert C.GroupTexts([f]) == [] + ["abc"] == ["abc"];
    AsciiFloor("abc", 100);
  }
}
