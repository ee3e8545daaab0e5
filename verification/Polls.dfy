/** One poll as a function of the file and of the answers the sink will give: the turns of
    the reading loops, where they stop and why, and the poll that drains a rotated-out file. */
module Polls {
  import opened Options
  import opened Utf8
  import opened Lines
  import opened Assembly
  import opened Segments
  import opened Multiline
  import R = MultilineRuns
  import C = MultilineConfluence

  const MAX_LINES_PER_POLL: nat := 32000

  predicate NextAnswer(answers: seq<bool>) { answers != [] && answers[0] }
  function Later(answers: seq<bool>): seq<bool> { if answers == [] then [] else answers[1..] }

  datatype StopReason = Eof | Backpressure | Cap

  /** A poll under way: the answers to come, the lines committed, and why it stopped. */
  datatype Poll = Poll(tail: Tail, answers: seq<bool>, count: nat, stop: Option<StopReason>)

  function Begin(t: Tail, answers: seq<bool>): Poll { Poll(t, answers, 0, None) }

  /** What a reader positioned at `at` finds; past the end it finds nothing. */
  function From(file: seq<Byte>, at: nat): seq<Byte> { if at <= |file| then file[at..] else [] }

  function Unread(t: Tail, file: seq<Byte>): nat { |From(file, t.readAhead)| }

  /** Whether shipping now would ask the sink. */
  predicate Offers(t: Tail) { t.recordBytes > 0 && !Blank(t.record) }

  /** Whether committing the line that `chunk` completes asks the sink. */
  predicate Asks(t: Tail, chunk: seq<Byte>, ml: Opts)
    requires chunk != []
  {
    IsStart(Completed(t, chunk), ml) && Offers(t)
  }

  /** The answers left after an offer, if there was one. */
  function After(answers: seq<bool>, asked: bool): seq<bool> { if asked then Later(answers) else answers }

  /** One turn of `read_loop`. */
  function Turn(p: Poll, file: seq<Byte>, ml: Opts, now: nat): Poll {
    var t := p.tail;
    var chunk := NextChunk(From(file, t.readAhead));
    if p.stop.Some? then p
    else if chunk == [] then p.(stop := Some(Eof))
    else if Terminated(chunk) then Commit(p, chunk, ml, now)
    else p.(tail := BufferPartial(t, chunk))
  }

  /** The turn that commits a line. */
  function Commit(p: Poll, chunk: seq<Byte>, ml: Opts, now: nat): Poll
    requires chunk != []
  {
    var (s, ok) := CommitLine(p.tail, chunk, NextAnswer(p.answers), ml, now);
    var rest := After(p.answers, Asks(p.tail, chunk, ml));
    if !ok then Poll(s, rest, p.count, Some(Backpressure))
    else Poll(s, rest, p.count + 1, if p.count + 1 >= MAX_LINES_PER_POLL then Some(Cap) else None)
  }

  function Turns(p: Poll, file: seq<Byte>, n: nat, ml: Opts, now: nat): Poll {
    if n == 0 then p else Turn(Turns(p, file, n - 1, ml, now), file, ml, now)
  }

  /** A whole poll without read errors: every turn but the last reads a byte, so one more
      turn than there are unread bytes is enough. */
  function ReadPoll(t: Tail, answers: seq<bool>, file: seq<Byte>, ml: Opts, now: nat): Poll {
    Turns(Begin(t, answers), file, Unread(t, file) + 1, ml, now)
  }

  // ---------------------------------------------------------------- where a poll stops

  /** What a turn does to the unread bytes, and what each reason to stop means. */
  lemma TurnReads(p: Poll, file: seq<Byte>, ml: Opts, now: nat)
    requires p.stop.None?
    ensures var q := Turn(p, file, ml, now);
            match q.stop
            case None => Unread(q.tail, file) < Unread(p.tail, file) && p.tail.readAhead < q.tail.readAhead
            case Some(Cap) => Unread(q.tail, file) < Unread(p.tail, file) && p.tail.readAhead < q.tail.readAhead
            case Some(Eof) => q == p.(stop := Some(Eof)) && Unread(p.tail, file) == 0
            case Some(Backpressure) =>
              q.tail == p.tail && Offers(p.tail) && !NextAnswer(p.answers) && q.answers == Later(p.answers)
              && Unread(p.tail, file) > 0
    ensures p.tail.readAhead <= |file| ==> Turn(p, file, ml, now).tail.readAhead <= |file|
  {
    hide NextChunk, AppendText, Completed, IsStart, Blank, PushPartial;
    var t := p.tail;
    var chunk := NextChunk(From(file, t.readAhead));
    ChunkShape(From(file, t.readAhead));
  }

  /** A turn is one `Step` of the run model, with the answer the sink gives. */
  lemma TurnIsStep(p: Poll, file: seq<Byte>, ml: Opts, now: nat)
    ensures var q := Turn(p, file, ml, now);
            q.tail == if p.stop.Some? || p.tail.readAhead > |file| then p.tail
                      else Step(p.tail, file, NextAnswer(p.answers), ml, now)
  {
    hide NextChunk, CommitLine, BufferPartial;
    if p.tail.readAhead > |file| {
      NoChunk();
    }
  }

  lemma NoChunk()
    ensures NextChunk([]) == []
  {
  }

  lemma {:induction false} TurnsRead(p: Poll, file: seq<Byte>, n: nat, ml: Opts, now: nat)
    requires p.stop.None?
    ensures var q := Turns(p, file, n, ml, now);
            && Unread(q.tail, file) <= Unread(p.tail, file)
            && p.tail.readAhead <= q.tail.readAhead
            && (p.tail.readAhead <= |file| ==> q.tail.readAhead <= |file|)
            && (q.stop.None? ==> Unread(q.tail, file) + n <= Unread(p.tail, file))
            && (q.stop == Some(Eof) ==> Unread(q.tail, file) == 0)
            && (q.stop == Some(Cap) ==> Unread(q.tail, file) < Unread(p.tail, file))
            && (q.stop == Some(Cap) ==> p.tail.readAhead < q.tail.readAhead)
            && (q.stop == Some(Backpressure) ==> Offers(q.tail) && Unread(q.tail, file) > 0)
  {
    hide Turn, Offers;
    if n > 0 {
      TurnsRead(p, file, n - 1, ml, now);
      var q := Turns(p, file, n - 1, ml, now);
      if q.stop.None? {
        TurnReads(q, file, ml, now);
      } else {
        Stopped(q, file, ml, now);
      }
    }
  }

  lemma Stopped(p: Poll, file: seq<Byte>, ml: Opts, now: nat)
    requires p.stop.Some?
    ensures Turn(p, file, ml, now) == p
  {
  }

  lemma {:induction false} Settled(p: Poll, file: seq<Byte>, n: nat, m: nat, ml: Opts, now: nat)
    requires n <= m && Turns(p, file, n, ml, now).stop.Some?
    ensures Turns(p, file, m, ml, now) == Turns(p, file, n, ml, now)
  {
    hide Turn;
    if n < m {
      Settled(p, file, n, m - 1, ml, now);
      Stopped(Turns(p, file, n, ml, now), file, ml, now);
    }
  }

  /** However a loop counts its turns, when it stops the poll is `ReadPoll`. */
  lemma PollIs(t: Tail, answers: seq<bool>, file: seq<Byte>, n: nat, ml: Opts, now: nat)
    ensures ReadPoll(t, answers, file, ml, now).stop.Some?
    ensures Turns(Begin(t, answers), file, n, ml, now).stop.Some? ==>
              Turns(Begin(t, answers), file, n, ml, now) == ReadPoll(t, answers, file, ml, now)
  {
    hide Turns;
    var p, m := Begin(t, answers), Unread(t, file) + 1;
    TurnsRead(p, file, m, ml, now);
    if Turns(p, file, n, ml, now).stop.Some? {
      if n <= m {
        Settled(p, file, n, m, ml, now);
      } else {
        Settled(p, file, m, n, ml, now);
      }
    }
  }

  // ---------------------------------------------------------------- a willing sink

  /** A sink that takes at least the next `n` offers and refuses none it is known to answer. */
  predicate Willing(answers: seq<bool>, n: nat) {
    |answers| >= n && forall i :: 0 <= i < |answers| ==> answers[i]
  }

  lemma TurnWilling(p: Poll, file: seq<Byte>, spare: nat, ml: Opts, now: nat)
    requires Willing(p.answers, Unread(p.tail, file) + spare) && p.stop != Some(Backpressure)
    ensures var q := Turn(p, file, ml, now);
            Willing(q.answers, Unread(q.tail, file) + spare) && q.stop != Some(Backpressure)
  {
    if p.stop.None? {
      TurnReads(p, file, ml, now);
      hide NextChunk, CommitLine, BufferPartial, Blank, From, Offers;
    }
  }

  lemma {:induction false} TurnsWilling(p: Poll, file: seq<Byte>, spare: nat, n: nat, ml: Opts, now: nat)
    requires Willing(p.answers, Unread(p.tail, file) + spare) && p.stop.None?
    ensures var q := Turns(p, file, n, ml, now);
            Willing(q.answers, Unread(q.tail, file) + spare) && q.stop != Some(Backpressure)
  {
    hide Turn, Willing;
    if n > 0 {
      TurnsWilling(p, file, spare, n - 1, ml, now);
      TurnWilling(Turns(p, file, n - 1, ml, now), file, spare, ml, now);
    }
  }

  // ---------------------------------------------------------------- draining

  /** A rotated-out file: its tail and whether its descriptor is still held. */
  datatype Draining = Draining(tail: Tail, answers: seq<bool>, retained: bool)

  /** The second half of `drain`: at the end of the file, or at a read error, what is left is
      folded and offered, and the descriptor goes when it is taken. */
  function EndPoll(p: Poll, ml: Opts): Draining {
    if p.stop == Some(Backpressure) || p.stop == Some(Cap) then Draining(p.tail, p.answers, true)
    else
      var f := FoldPartial(p.tail, ml);
      var (u, ok) := Ship(f, NextAnswer(p.answers));
      Draining(u, After(p.answers, Offers(f)), !ok)
  }

  /** `drain`, when seeking and reading work. */
  function DrainPoll(d: Draining, file: seq<Byte>, ml: Opts, now: nat): Draining {
    if d.retained then EndPoll(ReadPoll(d.tail, d.answers, file, ml, now), ml) else d
  }

  lemma EndKeepsCursor(p: Poll, ml: Opts)
    ensures EndPoll(p, ml).tail.readAhead == p.tail.readAhead
  {
    hide AppendText, Normalize, Blank;
  }

  lemma EndWilling(p: Poll, file: seq<Byte>, spare: nat, ml: Opts)
    requires Willing(p.answers, Unread(p.tail, file) + 1 + spare) && p.stop != Some(Backpressure)
    ensures var d := EndPoll(p, ml);
            (d.retained <==> p.stop == Some(Cap)) && (d.retained ==> Willing(d.answers, Unread(d.tail, file) + 1 + spare))
  {
    hide FoldPartial, Blank, From;
  }

  /** Progress of one poll: a sink that takes what it is offered either lets the descriptor
      go or sees the file read further, and is left able to take the rest. */
  lemma DrainAdvances(d: Draining, file: seq<Byte>, spare: nat, ml: Opts, now: nat)
    requires d.retained && Willing(d.answers, Unread(d.tail, file) + 1 + spare)
    ensures var e := DrainPoll(d, file, ml, now);
            e.retained ==> Unread(e.tail, file) < Unread(d.tail, file) && d.tail.readAhead < e.tail.readAhead
                           && Willing(e.answers, Unread(e.tail, file) + 1 + spare)
  {
    hide Turns, Willing, EndPoll, Offers;
    var n := Unread(d.tail, file) + 1;
    var b := Begin(d.tail, d.answers);
    var p := Turns(b, file, n, ml, now);
    TurnsWilling(b, file, 1 + spare, n, ml, now);
    TurnsRead(b, file, n, ml, now);
    EndWilling(p, file, spare, ml);
    EndKeepsCursor(p, ml);
  }

  lemma Gone(d: Draining, file: seq<Byte>, ml: Opts, now: nat)
    requires !d.retained
    ensures DrainPoll(d, file, ml, now) == d
  {
  }

  // ---------------------------------------------------------------- what draining ships

  lemma {:induction false} TurnsTiled(p: Poll, file: seq<Byte>, n: nat, ml: Opts, now: nat)
    requires Tiled(p.tail, file, ml)
    ensures Tiled(Turns(p, file, n, ml, now).tail, file, ml)
  {
    hide Turn, Tiled, Step;
    if n > 0 {
      TurnsTiled(p, file, n - 1, ml, now);
      var q := Turns(p, file, n - 1, ml, now);
      TurnIsStep(q, file, ml, now);
      if q.stop.None? && q.tail.readAhead <= |file| {
        StepTiled(q.tail, file, NextAnswer(q.answers), ml, now);
      }
    }
  }

  lemma {:induction false} TurnsLife(p: Poll, born: nat, file: seq<Byte>, n: nat, ml: Opts, now: nat)
    requires R.LifeInv(p.tail, born, file, ml)
    ensures R.LifeInv(Turns(p, file, n, ml, now).tail, born, file, ml)
  {
    hide Turn, R.LifeInv, Step;
    if n > 0 {
      TurnsLife(p, born, file, n - 1, ml, now);
      var q := Turns(p, file, n - 1, ml, now);
      TurnIsStep(q, file, ml, now);
      if q.stop.None? && q.tail.readAhead <= |file| {
        R.StepKeeps(q.tail, born, file, NextAnswer(q.answers), ml, now);
      }
    }
  }

  lemma EndLife(p: Poll, born: nat, file: seq<Byte>, ml: Opts)
    requires R.LifeInv(p.tail, born, file, ml)
    ensures R.LifeInv(EndPoll(p, ml).tail, born, file, ml)
  {
    hide R.LifeInv, FoldPartial, Ship, Offers;
    R.FlushKeeps(p.tail, born, file, NextAnswer(p.answers), ml);
  }

  lemma EndTiled(p: Poll, file: seq<Byte>, ml: Opts)
    requires Tiled(p.tail, file, ml)
    ensures Tiled(EndPoll(p, ml).tail, file, ml)
  {
    hide Tiled, FoldPartial, Ship, Offers;
    FoldTiled(p.tail, file, ml);
    ShipTiled(FoldPartial(p.tail, ml), file, NextAnswer(p.answers), ml);
  }

  lemma {:induction false} TurnsConfluent(p: Poll, born: nat, file: seq<Byte>, n: nat, ml: Opts, now: nat)
    requires Tiled(p.tail, file, ml) && C.Confluent(p.tail, born, file, ml)
    requires born <= |file| && Whole(file[born..]) && C.LinesFit(file[born..])
    ensures C.Confluent(Turns(p, file, n, ml, now).tail, born, file, ml)
  {
    hide Turn, Tiled, Step, C.Confluent, Whole, C.LinesFit;
    if n > 0 {
      TurnsConfluent(p, born, file, n - 1, ml, now);
      TurnsTiled(p, file, n - 1, ml, now);
      var q := Turns(p, file, n - 1, ml, now);
      TurnIsStep(q, file, ml, now);
      if q.stop.None? && q.tail.readAhead <= |file| {
        C.StepConfluent(q.tail, born, file, NextAnswer(q.answers), ml, now);
      }
    }
  }

  /** All read and folded, with the final offer still to be taken. */
  ghost predicate Folded(t: Tail, born: nat, file: seq<Byte>, ml: Opts) {
    exists s: Tail ::
      C.Confluent(s, born, file, ml) && Tiled(s, file, ml) && s.readAhead == |file| && t == FoldPartial(s, ml)
  }

  /** The records of the finished file have been shipped, in lines and in text, and nothing
      is left of it. */
  predicate Finished(t: Tail, born: nat, file: seq<Byte>, ml: Opts)
    requires born <= |file|
  {
    && t.pos == t.readAhead == |file| && t.recordBytes == 0 && t.partialBytes == 0
    && C.Groups(t.log) == C.FoldRest(Segment(CompleteLines(file[born..]), ml), Rest(file[born..]))
    && C.GoodLog(t.log)
  }

  /** What every poll of a drain keeps, whatever the sink answers. */
  ghost predicate DrainInv(d: Draining, born: nat, file: seq<Byte>, ml: Opts)
    requires born <= |file|
  {
    && R.LifeInv(d.tail, born, file, ml)
    && (if !d.retained then Finished(d.tail, born, file, ml)
        else C.Confluent(d.tail, born, file, ml) || Folded(d.tail, born, file, ml))
  }

  /** Reading on after the fold finds nothing, and folding again changes nothing. */
  lemma FoldedPoll(t: Tail, answers: seq<bool>, born: nat, file: seq<Byte>, ml: Opts, now: nat)
    requires Folded(t, born, file, ml)
    ensures ReadPoll(t, answers, file, ml, now) == Begin(t, answers).(stop := Some(Eof))
    ensures FoldPartial(t, ml) == t
  {
    hide NextChunk, AppendText, Normalize, Tiled, C.Confluent;
    var b := Begin(t, answers);
    NoChunk();
    assert Turns(b, file, 0, ml, now) == b;
  }

  /** The final offer: taken, the file is finished; refused, it is made again. */
  lemma FlushStep(s: Tail, answers: seq<bool>, born: nat, file: seq<Byte>, ml: Opts)
    requires C.Confluent(s, born, file, ml) && Tiled(s, file, ml) && s.readAhead == |file|
    requires born <= |file| && C.LinesFit(file[born..])
    ensures var (u, ok) := Ship(FoldPartial(s, ml), NextAnswer(answers));
            if ok then Finished(u, born, file, ml)
            else u == FoldPartial(s, ml) && Folded(u, born, file, ml)
  {
    hide C.Confluent, Tiled, FoldPartial, C.LinesFit, C.GoodLog, C.Groups, Segment, CompleteLines, Rest, C.FoldRest;
    var f := FoldPartial(s, ml);
    FoldTiled(s, file, ml);
    if Ship(f, NextAnswer(answers)).1 {
      C.FlushCompletes(s, born, file, ml);
      assert Ship(f, NextAnswer(answers)) == Ship(f, true);
    }
  }

  lemma DrainKeeps(d: Draining, born: nat, file: seq<Byte>, ml: Opts, now: nat)
    requires born <= |file| && Whole(file[born..]) && C.LinesFit(file[born..])
    requires DrainInv(d, born, file, ml)
    ensures DrainInv(DrainPoll(d, file, ml, now), born, file, ml)
  {
    hide C.Confluent, Tiled, Whole, C.LinesFit, Folded, Finished, Ship, FoldPartial, Turns, Offers, R.Chain, R.LogOk;
    if d.retained {
      var n := Unread(d.tail, file) + 1;
      var b := Begin(d.tail, d.answers);
      TurnsLife(b, born, file, n, ml, now);
      EndLife(Turns(b, file, n, ml, now), born, file, ml);
      if C.Confluent(d.tail, born, file, ml) {
        TurnsConfluent(b, born, file, n, ml, now);
        TurnsRead(b, file, n, ml, now);
        PollIs(d.tail, d.answers, file, n, ml, now);
        TiledCursor(d.tail, file, ml);
        var p := Turns(b, file, n, ml, now);
        assert DrainPoll(d, file, ml, now) == EndPoll(p, ml);
        if p.stop.value.Eof? {
          assert p.tail.readAhead == |file|;
          FlushStep(p.tail, p.answers, born, file, ml);
        } else {
          assert p.stop.value.Backpressure? || p.stop.value.Cap?;
        }
      } else {
        FoldedPoll(d.tail, d.answers, born, file, ml, now);
        var s := Unfolded(d.tail, born, file, ml);
        FlushStep(s, d.answers, born, file, ml);
      }
    }
  }

  lemma Unfolded(t: Tail, born: nat, file: seq<Byte>, ml: Opts) returns (s: Tail)
    requires Folded(t, born, file, ml)
    ensures C.Confluent(s, born, file, ml) && Tiled(s, file, ml) && s.readAhead == |file| && t == FoldPartial(s, ml)
  {
    hide C.Confluent, Tiled, FoldPartial;
    s :| C.Confluent(s, born, file, ml) && Tiled(s, file, ml) && s.readAhead == |file| && t == FoldPartial(s, ml);
  }

  lemma TiledCursor(t: Tail, file: seq<Byte>, ml: Opts)
    requires Tiled(t, file, ml)
    ensures t.readAhead <= |file|
  {
  }

  // ---------------------------------------------------------------- polls are runs

  /** The events of the first `n` turns of a poll. */
  function Events(p: Poll, file: seq<Byte>, n: nat, ml: Opts, now: nat): seq<R.Event> {
    if n == 0 then []
    else
      var q := Turns(p, file, n - 1, ml, now);
      Events(p, file, n - 1, ml, now) + if q.stop.Some? then [] else [R.Read(NextAnswer(q.answers), now)]
  }

  /** A poll is a run of read events, so the run theorems speak about it. */
  lemma {:induction false} PollIsRun(w: R.World, answers: seq<bool>, n: nat, ml: Opts, now: nat)
    ensures R.Run(w, Events(Begin(w.tail, answers), w.file, n, ml, now), ml)
            == w.(tail := Turns(Begin(w.tail, answers), w.file, n, ml, now).tail)
  {
    hide Step, Turn;
    if n > 0 {
      PollIsRun(w, answers, n - 1, ml, now);
      var b := Begin(w.tail, answers);
      var events, q := Events(b, w.file, n - 1, ml, now), Turns(b, w.file, n - 1, ml, now);
      TurnIsStep(q, w.file, ml, now);
      if q.stop.Some? {
        Stopped(q, w.file, ml, now);
        assert events + [] == events;
      } else {
        assert Init(Events(b, w.file, n, ml, now)) == events;
      }
    }
  }
}
