/** One poll of the single-line path as a function of the file and of the answers the sink
    will give, and the polls that drain a rotated-out file. */
module SinglePolls {
  import opened Options
  import opened Utf8
  import opened Lines
  import opened Assembly
  import opened SingleLine
  import opened SingleLineCuts
  import P = Polls
  import R = SingleLineRuns
  import C = MultilineConfluence

  datatype Poll = Poll(tail: Tail, answers: seq<bool>, count: nat, stop: Option<P.StopReason>)

  function Begin(t: Tail, answers: seq<bool>): Poll { Poll(t, answers, 0, None) }

  function Unread(t: Tail, file: seq<Byte>): nat { |P.From(file, t.pos)| }

  /** Whether the line that `chunk` completes is offered to the sink. */
  predicate Asks(t: Tail, chunk: seq<Byte>)
    requires chunk != []
  {
    Normalize(t.partial + Lossy(Init(chunk))) != ""
  }

  /** One turn of `read_lines` and `drain_retained`. */
  function Turn(p: Poll, file: seq<Byte>): Poll {
    var t := p.tail;
    var chunk := NextChunk(P.From(file, t.pos));
    if p.stop.Some? then p
    else if chunk == [] then p.(stop := Some(P.Eof))
    else if Terminated(chunk) then Emit(p, chunk)
    else p.(tail := BufferPartial(t, chunk))
  }

  /** The turn that completes a line. */
  function Emit(p: Poll, chunk: seq<Byte>): Poll
    requires chunk != []
  {
    var (s, ok) := EmitLine(p.tail, chunk, P.NextAnswer(p.answers));
    var rest := P.After(p.answers, Asks(p.tail, chunk));
    if !ok then Poll(s, rest, p.count, Some(P.Backpressure))
    else Poll(s, rest, p.count + 1, if p.count + 1 >= P.MAX_LINES_PER_POLL then Some(P.Cap) else None)
  }

  function Turns(p: Poll, file: seq<Byte>, n: nat): Poll {
    if n == 0 then p else Turn(Turns(p, file, n - 1), file)
  }

  /** A whole poll without read errors. */
  function ReadPoll(t: Tail, answers: seq<bool>, file: seq<Byte>): Poll {
    Turns(Begin(t, answers), file, Unread(t, file) + 1)
  }

  // ---------------------------------------------------------------- where a poll stops

  lemma TurnReads(p: Poll, file: seq<Byte>)
    requires p.stop.None?
    ensures var q := Turn(p, file);
            match q.stop
            case None => Unread(q.tail, file) < Unread(p.tail, file) && p.tail.pos < q.tail.pos
            case Some(Cap) => Unread(q.tail, file) < Unread(p.tail, file) && p.tail.pos < q.tail.pos
            case Some(Eof) => q == p.(stop := Some(P.Eof)) && Unread(p.tail, file) == 0
            case Some(Backpressure) =>
              q.tail == p.tail && !P.NextAnswer(p.answers) && q.answers == P.Later(p.answers)
              && Unread(p.tail, file) > 0
    ensures p.tail.pos <= |file| ==> Turn(p, file).tail.pos <= |file|
  {
    hide NextChunk, Normalize, Lossy, PushPartial;
    var chunk := NextChunk(P.From(file, p.tail.pos));
    ChunkShape(P.From(file, p.tail.pos));
  }

  lemma TurnIsStep(p: Poll, file: seq<Byte>)
    ensures var q := Turn(p, file);
            q.tail == if p.stop.Some? || p.tail.pos > |file| then p.tail
                      else Step(p.tail, file, P.NextAnswer(p.answers))
  {
    hide NextChunk, EmitLine, PushPartial;
    if p.tail.pos > |file| {
      P.NoChunk();
    }
  }

  lemma Stopped(p: Poll, file: seq<Byte>)
    requires p.stop.Some?
    ensures Turn(p, file) == p
  {
  }

  lemma {:induction false} TurnsRead(p: Poll, file: seq<Byte>, n: nat)
    requires p.stop.None?
    ensures var q := Turns(p, file, n);
            && Unread(q.tail, file) <= Unread(p.tail, file)
            && p.tail.pos <= q.tail.pos
            && (p.tail.pos <= |file| ==> q.tail.pos <= |file|)
            && (q.stop.None? ==> Unread(q.tail, file) + n <= Unread(p.tail, file))
            && (q.stop == Some(P.Eof) ==> Unread(q.tail, file) == 0)
            && (q.stop == Some(P.Cap) ==> Unread(q.tail, file) < Unread(p.tail, file))
            && (q.stop == Some(P.Cap) ==> p.tail.pos < q.tail.pos)
            && (q.stop == Some(P.Backpressure) ==> Unread(q.tail, file) > 0)
  {
    hide Turn;
    if n > 0 {
      TurnsRead(p, file, n - 1);
      var q := Turns(p, file, n - 1);
      if q.stop.None? {
        TurnReads(q, file);
      } else {
        Stopped(q, file);
      }
    }
  }

  lemma {:induction false} Settled(p: Poll, file: seq<Byte>, n: nat, m: nat)
    requires n <= m && Turns(p, file, n).stop.Some?
    ensures Turns(p, file, m) == Turns(p, file, n)
  {
    hide Turn;
    if n < m {
      Settled(p, file, n, m - 1);
      Stopped(Turns(p, file, n), file);
    }
  }

  /** However a loop counts its turns, when it stops the poll is `ReadPoll`. */
  lemma PollIs(t: Tail, answers: seq<bool>, file: seq<Byte>, n: nat)
    ensures ReadPoll(t, answers, file).stop.Some?
    ensures Turns(Begin(t, answers), file, n).stop.Some? ==>
              Turns(Begin(t, answers), file, n) == ReadPoll(t, answers, file)
  {
    hide Turns;
    var p, m := Begin(t, answers), Unread(t, file) + 1;
    TurnsRead(p, file, m);
    if Turns(p, file, n).stop.Some? {
      if n <= m {
        Settled(p, file, n, m);
      } else {
        Settled(p, file, m, n);
      }
    }
  }

  // ---------------------------------------------------------------- a willing sink

  lemma TurnWilling(p: Poll, file: seq<Byte>, spare: nat)
    requires P.Willing(p.answers, Unread(p.tail, file) + spare) && p.stop != Some(P.Backpressure)
    ensures var q := Turn(p, file); P.Willing(q.answers, Unread(q.tail, file) + spare) && q.stop != Some(P.Backpressure)
  {
    if p.stop.None? {
      TurnReads(p, file);
      hide NextChunk, EmitLine, PushPartial, Normalize, Lossy, P.From;
    }
  }

  lemma {:induction false} TurnsWilling(p: Poll, file: seq<Byte>, spare: nat, n: nat)
    requires P.Willing(p.answers, Unread(p.tail, file) + spare) && p.stop.None?
    ensures var q := Turns(p, file, n); P.Willing(q.answers, Unread(q.tail, file) + spare) && q.stop != Some(P.Backpressure)
  {
    hide Turn, P.Willing;
    if n > 0 {
      TurnsWilling(p, file, spare, n - 1);
      TurnWilling(Turns(p, file, n - 1), file, spare);
    }
  }

  // ---------------------------------------------------------------- draining

  /** A rotated-out file: its tail, what was handed over without looking at the answer, and
      whether its descriptor is still held. */
  datatype Draining = Draining(tail: Tail, answers: seq<bool>, fired: seq<string>, retained: bool)

  /** The second half of `drain_retained`: at the end of the file, or at a read error, the
      pending text is handed over and the descriptor goes. */
  function EndPoll(p: Poll, fired: seq<string>): Draining {
    if p.stop == Some(P.Backpressure) || p.stop == Some(P.Cap) then Draining(p.tail, p.answers, fired, true)
    else Draining(FlushPartial(p.tail), p.answers, fired + Handed(p.tail.partial), false)
  }

  /** `drain_retained`, when seeking and reading work. */
  function DrainPoll(d: Draining, file: seq<Byte>): Draining {
    if d.retained then EndPoll(ReadPoll(d.tail, d.answers, file), d.fired) else d
  }

  /** A rotated-out file, which its writer may still hold open, as it was last polled. */
  datatype Rotated = Rotated(d: Draining, file: seq<Byte>)

  /** The next poll finds `more` written since; a file that is given up is not looked at. */
  function Visit(r: Rotated, more: seq<Byte>): Rotated {
    if r.d.retained then Rotated(DrainPoll(r.d, r.file + more), r.file + more) else r
  }

  function Visits(r: Rotated, mores: seq<seq<Byte>>): Rotated {
    if mores == [] then r else Visit(Visits(r, Init(mores)), Last(mores))
  }

  lemma DrainAdvances(d: Draining, file: seq<Byte>, spare: nat)
    requires d.retained && P.Willing(d.answers, Unread(d.tail, file) + spare)
    ensures var e := DrainPoll(d, file);
            e.retained ==> Unread(e.tail, file) < Unread(d.tail, file) && d.tail.pos < e.tail.pos
                           && P.Willing(e.answers, Unread(e.tail, file) + spare)
  {
    hide Turns, P.Willing;
    var n := Unread(d.tail, file) + 1;
    var b := Begin(d.tail, d.answers);
    TurnsWilling(b, file, spare, n);
    TurnsRead(b, file, n);
  }

  lemma UnreadGrows(t: Tail, file: seq<Byte>, more: seq<Byte>)
    ensures Unread(t, file) <= Unread(t, file + more) <= Unread(t, file) + |more|
  {
  }

  lemma WillingLess(answers: seq<bool>, n: nat, m: nat)
    requires P.Willing(answers, n) && m <= n
    ensures P.Willing(answers, m)
  {
  }

  /** With a willing sink the descriptor is gone after at most one poll more than there are
      bytes unread or still to come. */
  lemma {:induction false} DrainTerminates(r: Rotated, mores: seq<seq<Byte>>, spare: nat)
    requires r.d.retained && P.Willing(r.d.answers, Unread(r.d.tail, r.file) + |Flat(mores)| + spare)
    ensures var e := Visits(r, mores);
            e.d.retained ==> Unread(e.d.tail, e.file) + |mores| <= Unread(r.d.tail, r.file) + |Flat(mores)|
                             && P.Willing(e.d.answers, Unread(e.d.tail, e.file) + spare)
  {
    hide DrainPoll, P.Willing, Unread, Flat;
    if mores == [] {
      NoParts();
    } else {
      var p, more := Init(mores), Last(mores);
      assert mores == p + [more];
      FlatSnoc(p, more);
      DrainTerminates(r, p, spare + |more|);
      var e := Visits(r, p);
      if e.d.retained {
        UnreadGrows(e.d.tail, e.file, more);
        WillingLess(e.d.answers, Unread(e.d.tail, e.file) + spare + |more|, Unread(e.d.tail, e.file + more) + spare);
        DrainAdvances(e.d, e.file + more, spare);
      }
    }
  }

  // ---------------------------------------------------------------- what draining emits

  lemma {:induction false} TurnsFaithful(p: Poll, born: nat, file: seq<Byte>, n: nat)
    requires Faithful(p.tail, born, file) && born <= |file| && Whole(file[born..]) && C.LinesFit(file[born..])
    ensures Faithful(Turns(p, file, n).tail, born, file)
  {
    hide Turn, Faithful, Whole, C.LinesFit, Step;
    if n > 0 {
      TurnsFaithful(p, born, file, n - 1);
      var q := Turns(p, file, n - 1);
      TurnIsStep(q, file);
      if q.stop.None? && q.tail.pos <= |file| {
        StepFaithful(q.tail, born, file, P.NextAnswer(q.answers));
      }
    }
  }

  /** Everything from `born` was emitted line by line, and what follows the last newline was
      handed over. */
  predicate Finished(d: Draining, born: nat, file: seq<Byte>, fired: seq<string>)
    requires born <= |file|
  {
    && d.tail.pos == |file| && d.tail.partial == ""
    && d.tail.emitted == Items(born, CompleteLines(file[born..]))
    && d.fired == fired + Handed(Lossy(Rest(file[born..])))
  }

  predicate DrainInv(d: Draining, born: nat, file: seq<Byte>, fired: seq<string>)
    requires born <= |file|
  {
    if d.retained then Faithful(d.tail, born, file) && d.fired == fired else Finished(d, born, file, fired)
  }

  lemma DrainKeeps(d: Draining, born: nat, file: seq<Byte>, fired: seq<string>)
    requires born <= |file| && Whole(file[born..]) && C.LinesFit(file[born..])
    requires DrainInv(d, born, file, fired)
    ensures DrainInv(DrainPoll(d, file), born, file, fired)
  {
    hide Faithful, Whole, C.LinesFit, Turns, Items, CompleteLines, Lossy, Rest, Handed;
    if d.retained {
      var n := Unread(d.tail, file) + 1;
      var b := Begin(d.tail, d.answers);
      TurnsFaithful(b, born, file, n);
      TurnsRead(b, file, n);
      PollIs(d.tail, d.answers, file, n);
      FaithfulPos(d.tail, born, file);
      var p := Turns(b, file, n);
      if p.stop.value.Eof? {
        assert p.tail.pos == |file|;
        FaithfulMeans(p.tail, born, file);
        assert file[born..|file|] == file[born..];
      } else {
        assert p.stop.value.Backpressure? || p.stop.value.Cap?;
      }
    }
  }

  predicate WholeVisits(mores: seq<seq<Byte>>) { forall i :: 0 <= i < |mores| ==> Whole(mores[i]) }

  lemma {:induction false} VisitsGrow(r: Rotated, mores: seq<seq<Byte>>)
    ensures r.file <= Visits(r, mores).file
  {
    hide DrainPoll;
    if mores != [] {
      VisitsGrow(r, Init(mores));
    }
  }

  lemma VisitKeeps(r: Rotated, born: nat, fired: seq<string>, more: seq<Byte>)
    requires born <= |r.file| && Whole(r.file[born..]) && Whole(more)
    requires C.LinesFit(Visit(r, more).file[born..]) && DrainInv(r.d, born, r.file, fired)
    ensures var e := Visit(r, more);
            r.file <= e.file && Whole(e.file[born..]) && DrainInv(e.d, born, e.file, fired)
  {
    hide Whole, C.LinesFit, DrainPoll, Faithful, Finished, Lossy;
    if r.d.retained {
      GrowFaithful(r.d.tail, born, r.file, more);
      WholeAppend(r.file[born..], more);
      assert (r.file + more)[born..] == r.file[born..] + more;
      DrainKeeps(r.d, born, r.file + more, fired);
    }
  }

  lemma {:induction false} VisitsKeep(r: Rotated, born: nat, fired: seq<string>, mores: seq<seq<Byte>>)
    requires born <= |r.file| && Whole(r.file[born..]) && WholeVisits(mores) && DrainInv(r.d, born, r.file, fired)
    requires born <= |Visits(r, mores).file| && C.LinesFit(Visits(r, mores).file[born..])
    ensures var e := Visits(r, mores); Whole(e.file[born..]) && DrainInv(e.d, born, e.file, fired)
  {
    hide DrainInv, Visit, Whole, C.LinesFit;
    if mores != [] {
      var e := Visits(r, Init(mores));
      VisitsGrow(r, Init(mores));
      assert Whole(mores[|mores| - 1]);
      VisitGrows(e, Last(mores));
      C.FitPrefix(e.file, Visit(e, Last(mores)).file, born);
      VisitsKeep(r, born, fired, Init(mores));
      VisitKeeps(e, born, fired, Last(mores));
    }
  }

  lemma VisitGrows(r: Rotated, more: seq<Byte>)
    ensures r.file <= Visit(r, more).file
  {
    hide DrainPoll;
  }

  /** What the drain of a file that was flushed at `p` starts from. */
  lemma RotationStart(file: seq<Byte>, start: nat, events: seq<R.Event>)
    requires R.Readable(file, start, events)
    ensures var w := R.Next(R.Run(R.Start(file, start), events), R.FlushPartial);
            var p := w.tail.pos;
            start <= p <= |w.file| && Whole(w.file[p..]) && w.tail == Fresh(p) && Whole(w.file[start..p])
  {
    hide Whole, C.LinesFit, R.Run, Lossy, Faithful, R.HandedAt, R.PendingEntry, R.WholeGrowth;
    R.StartInv(file, start);
    R.RunInv(R.Start(file, start), start, events);
    var v := R.Run(R.Start(file, start), events);
    R.CurrentOk(v, start);
    var p := v.tail.pos;
    assert v.file[start..] == v.file[start..p] + v.file[p..];
    WholeSuffix(v.file[start..p], v.file[p..]);
  }

  /** Rotation: the pending text is flushed when the new inode is seen, and later polls read
      the old file on from there, whatever its writer still appends. Whatever the sink
      answers, once the descriptor is gone everything then in the file was emitted line by
      line and its trailing text handed over; a sink that takes what it is offered sees the
      descriptor gone after at most one poll more than there are bytes unread or to come. */
  lemma RotationCompletes(
    file: seq<Byte>, start: nat, events: seq<R.Event>, answers: seq<bool>, mores: seq<seq<Byte>>)
    requires R.Readable(file, start, events) && WholeVisits(mores)
    requires var w := R.Next(R.Run(R.Start(file, start), events), R.FlushPartial);
             var f := Visits(Rotated(Draining(w.tail, answers, [], true), w.file), mores).file;
             start <= |f| && C.LinesFit(f[start..])
    ensures var w := R.Next(R.Run(R.Start(file, start), events), R.FlushPartial);
            var p := w.tail.pos;
            var e := Visits(Rotated(Draining(w.tail, answers, [], true), w.file), mores);
            && p <= |w.file| && w.file <= e.file
            && (P.Willing(answers, |w.file| - p + |Flat(mores)|) && |mores| > |w.file| - p + |Flat(mores)| ==> !e.d.retained)
            && (!e.d.retained ==>
                  && e.d.tail.pos == |e.file| && e.d.tail.partial == ""
                  && e.d.tail.emitted == Items(p, CompleteLines(e.file[p..]))
                  && e.d.fired == Handed(Lossy(Rest(e.file[p..]))))
  {
    hide Whole, C.LinesFit, R.Run, CompleteLines, Rest, Lossy, Items, Visits, P.Willing, Handed, Faithful, R.Next,
         R.Readable, WholeVisits, Flat;
    RotationStart(file, start, events);
    var w := R.Next(R.Run(R.Start(file, start), events), R.FlushPartial);
    var p := w.tail.pos;
    FreshFaithful(p, w.file);
    var r := Rotated(Draining(w.tail, answers, [], true), w.file);
    var e := Visits(r, mores);
    VisitsGrow(r, mores);
    C.FitPart(e.file[start..], p - start, |e.file| - start);
    assert e.file[start..][p - start..|e.file| - start] == e.file[p..];
    VisitsKeep(r, p, [], mores);
    if P.Willing(answers, |w.file| - p + |Flat(mores)|) {
      DrainTerminates(r, mores, 0);
    }
  }

  /** What a rotation costs: after a live run the entries of the old file, those from before the
      rotation, the text flushed at it and those of the drain, are the file's if and only if
      the place of the flush is harmless; otherwise one line is handed over in two pieces. */
  lemma RotationExactly(
    file: seq<Byte>, start: nat, events: seq<R.Event>, answers: seq<bool>, mores: seq<seq<Byte>>)
    requires R.Readable(file, start, events) && R.Live(events) && WholeVisits(mores)
    requires var w := R.Next(R.Run(R.Start(file, start), events), R.FlushPartial);
             var e := Visits(Rotated(Draining(w.tail, answers, [], true), w.file), mores);
             start <= |e.file| && C.LinesFit(e.file[start..]) && !e.d.retained
    ensures var w := R.Next(R.Run(R.Start(file, start), events), R.FlushPartial);
            var p := w.tail.pos;
            var e := Visits(Rotated(Draining(w.tail, answers, [], true), w.file), mores);
            && start <= p <= |e.file|
            && (R.Received(w.past) + TextsOf(e.d.tail.emitted) == Entries(CompleteLines(e.file[start..]))
                <==> FlushHarmless(e.file, start, p, |e.file|))
  {
    hide Whole, C.LinesFit, R.Run, CompleteLines, Rest, Lossy, Items, Visits, Handed, R.Readable, WholeVisits, R.Live,
         Entries, FlushHarmless, TextsOf, R.HandedAt, R.Received, Fresh;
    RotationStart(file, start, events);
    RotationCompletes(file, start, events, answers, mores);
    R.SplitRefinement(file, start, events);
    var v := R.Run(R.Start(file, start), events);
    var w := R.Next(v, R.FlushPartial);
    var p := w.tail.pos;
    var e := Visits(Rotated(Draining(w.tail, answers, [], true), w.file), mores);
    R.FreshIs(v.tail.pos);
    R.LiveSame(R.Start(file, start), events);
    assert e.file[start..p] == w.file[start..p] && e.file[p..|e.file|] == e.file[p..] && e.file[start..|e.file|] == e.file[start..];
    ItemTexts(p, CompleteLines(e.file[p..]));
    R.HandedTexts(v.tail);
    var l := R.Current(v).(handed := R.HandedAt(v.tail), flushed := true);
    OneReceived(l);
    assert w.past == [] + [l];
    HandedExactly(e.file, start, p, |e.file|);
  }

  lemma OneReceived(l: R.Life)
    ensures R.Received([] + [l]) == TextsOf(l.emitted) + TextsOf(l.handed)
  {
    hide TextsOf;
    assert Init([] + [l]) == [] && R.Received([]) == [];
    assert [] + TextsOf(l.emitted) == TextsOf(l.emitted);
  }

  // ---------------------------------------------------------------- polls are runs

  /** The events of the first `n` turns of a poll. */
  function Events(p: Poll, file: seq<Byte>, n: nat): seq<R.Event> {
    if n == 0 then []
    else
      var q := Turns(p, file, n - 1);
      Events(p, file, n - 1) + if q.stop.Some? then [] else [R.Read(P.NextAnswer(q.answers))]
  }

  /** A poll is a run of read events, so the run theorems speak about it. */
  lemma {:induction false} PollIsRun(w: R.World, answers: seq<bool>, n: nat)
    ensures R.Run(w, Events(Begin(w.tail, answers), w.file, n))
            == w.(tail := Turns(Begin(w.tail, answers), w.file, n).tail)
  {
    hide Step, Turn;
    if n > 0 {
      PollIsRun(w, answers, n - 1);
      var b := Begin(w.tail, answers);
      var events, q := Events(b, w.file, n - 1), Turns(b, w.file, n - 1);
      TurnIsStep(q, w.file);
      if q.stop.Some? {
        Stopped(q, w.file);
        assert events + [] == events;
      } else {
        assert Init(Events(b, w.file, n)) == events;
      }
    }
  }
}
