/** `TailedFile` and its methods, as the agent runs them: fields updated in place, one loop
    per poll. Every method is tied to the operations of `Multiline` and `SingleLine`, and
    every loop to a poll of `Polls` and `SinglePolls` on the answers the sink gives. */
module Tailer {
  import opened Options
  import opened Utf8
  import opened Lines
  import opened LineReaders
  import opened Assembly
  import opened Multiline
  import opened Polls
  import S = SingleLine
  import SP = SinglePolls

  /** The channel to the SDK: it takes an entry or refuses it. Whether it does is the
      environment's choice, here a list of answers to come. */
  class Sink {
    var accepted: seq<string>
    var answers: seq<bool>
    /** Entries handed over without looking at the answer. */
    var fired: seq<string>

    constructor (script: seq<bool>)
      ensures accepted == [] && answers == script && fired == []
    {
      accepted, answers, fired := [], script, [];
    }

    method TryLog(text: string) returns (ok: bool)
      modifies this
      ensures ok == NextAnswer(old(answers)) && answers == Later(old(answers))
      ensures accepted == if ok then old(accepted) + [text] else old(accepted)
      ensures fired == old(fired)
    {
      ok := answers != [] && answers[0];
      if answers != [] { answers := answers[1..]; }
      if ok { accepted := accepted + [text]; }
    }

    method Log(text: string)
      modifies this
      ensures fired == old(fired) + [text] && accepted == old(accepted) && answers == old(answers)
    {
      fired := fired + [text];
    }
  }

  /** The texts of the shipped records the sink was asked to take. */
  function Accepted(log: seq<Shipped>): seq<string> {
    if log == [] then []
    else Accepted(Init(log)) + if Blank(Last(log).text) then [] else [Last(log).text]
  }

  lemma AcceptedSnoc(log: seq<Shipped>, e: Shipped)
    ensures Accepted(log + [e]) == Accepted(log) + if Blank(e.text) then [] else [e.text]
  {
    assert Init(log + [e]) == log;
  }

  /** The sink took exactly the non-blank records that were added to the log. */
  predicate Sent(before: seq<string>, after: seq<string>, log0: seq<Shipped>, log1: seq<Shipped>) {
    log0 <= log1 && after == before + Accepted(log1[|log0|..])
  }

  lemma SentNothing(a: seq<string>, log: seq<Shipped>)
    ensures Sent(a, a, log, log)
  {
    assert log[|log|..] == [];
  }

  lemma SentTwice(a: seq<string>, b: seq<string>, c: seq<string>, l: seq<Shipped>, m: seq<Shipped>, n: seq<Shipped>)
    requires Sent(a, b, l, m) && Sent(b, c, m, n)
    ensures Sent(a, c, l, n)
  {
    hide Accepted;
    JoinAccepted(l, m, n);
  }

  /** What one turn of a loop did. */
  datatype TurnResult = End | Refused | Line(n: nat) | Sub(n: nat)

  datatype Aggregator = Aggregator(
    record: string, recordBytes: nat, readAhead: nat, partialBytes: nat, lastAppend: Option<nat>)
  {
    predicate HasRecord() { recordBytes > 0 }
  }

  function NewAggregator(pos: nat): Aggregator { Aggregator("", 0, pos, 0, None) }

  class TailedFile {
    var pos: nat
    var partial: string
    var agg: Option<Aggregator>
    /** Whether the entry holds a retained file descriptor, to be drained after rotation. */
    var retained: bool

    // History: the bytes behind the buffers, and what has been shipped or emitted.
    ghost var chunks: Chunks
    ghost var lines: seq<Chunks>
    ghost var log: seq<Shipped>
    ghost var emitted: seq<S.Entry>

    constructor (start: nat)
      ensures View() == Fresh(start) && SingleView() == S.Fresh(start) && !retained
    {
      pos, partial, agg, retained := start, "", None, false;
      chunks, lines, log, emitted := [], [], [], [];
    }

    /** The state the multiline operations work on; a file without an aggregator behaves as
        one with a fresh aggregator at `pos`. */
    ghost function View(): Multiline.Tail
      reads this
    {
      var a := if agg.Some? then agg.value else NewAggregator(pos);
      Multiline.Tail(pos, a.record, a.recordBytes, a.readAhead, partial, a.partialBytes, a.lastAppend, chunks, lines, log)
    }

    ghost function SingleView(): S.Tail
      reads this
    {
      S.Tail(pos, partial, chunks, lines, emitted)
    }

    // -------------------------------------------------------------- multiline

    method EnsureAgg() returns (a: Aggregator)
      modifies this`agg
      ensures agg == Some(a) && View() == old(View())
    {
      if agg.None? { agg := Some(NewAggregator(pos)); }
      a := agg.value;
    }

    /** `ship`: offers the record unless it is blank, and moves `pos` over its full span only
        when it is gone. */
    method Ship(sink: Sink) returns (ok: bool)
      modifies this, sink
      ensures (View(), ok) == Multiline.Ship(old(View()), NextAnswer(old(sink.answers)))
      ensures sink.answers == After(old(sink.answers), Offers(old(View()))) && sink.fired == old(sink.fired)
      ensures Sent(old(sink.accepted), sink.accepted, old(log), log)
      ensures agg.Some? == old(agg.Some?) && retained == old(retained)
    {
      SentNothing(sink.accepted, log);
      if agg.None? {
        return true;
      }
      var a := agg.value;
      if !a.HasRecord() {
        return true;
      }
      var blank := AllWhitespace(a.record);
      ok := true;
      if !blank {
        ok := sink.TryLog(a.record);
      }
      if ok {
        ghost var e := Shipped(pos, pos + a.recordBytes, lines, a.record);
        AcceptedSnoc([], e);
        log, lines := log + [e], [];
        assert log[|old(log)|..] == [] + [e];
        pos := pos + a.recordBytes;
        agg := Some(a.(record := "", recordBytes := 0, lastAppend := None));
      }
    }

    /** `commit_line`: nothing is consumed when the record in flight is refused. */
    method CommitLine(chunk: seq<Byte>, sink: Sink, ml: Opts, now: nat) returns (ok: bool)
      requires chunk != []
      modifies this, sink
      ensures (View(), ok) == Multiline.CommitLine(old(View()), chunk, NextAnswer(old(sink.answers)), ml, now)
      ensures sink.answers == After(old(sink.answers), Asks(old(View()), chunk, ml)) && sink.fired == old(sink.fired)
      ensures var text := Normalize(old(partial) + Lossy(Init(chunk)));
              var cuts := text != "" && ml.isStart(text) && old(View()).recordBytes > 0;
              var taken := Blank(old(View()).record) || NextAnswer(old(sink.answers));
              && ok == (cuts ==> taken)
              && log == old(log) + if cuts && taken
                                   then [Shipped(old(pos), old(pos) + old(View()).recordBytes, old(lines), old(View()).record)]
                                   else []
      ensures Sent(old(sink.accepted), sink.accepted, old(log), log)
      ensures retained == old(retained) && agg.Some?
    {
      hide Multiline.AddLine, Normalize, Lossy, Blank, Sent;
      SentNothing(sink.accepted, log);
      var complete := Lossy(chunk[..|chunk| - 1]);
      if partial != "" { complete := partial + complete; }
      assert complete == partial + Lossy(Init(chunk));
      var normalized := Normalize(complete);
      var isStart := normalized != "" && ml.isStart(normalized);
      var a := EnsureAgg();
      ok := true;
      if isStart && a.HasRecord() {
        ok := Ship(sink);
      }
      if ok {
        AddLine(chunk, normalized, ml, now);
      }
    }

    /** The second half of `commit_line`. */
    method AddLine(chunk: seq<Byte>, normalized: string, ml: Opts, now: nat)
      requires chunk != [] && agg.Some? && normalized == Completed(View(), chunk)
      modifies this
      ensures View() == Multiline.AddLine(old(View()), chunk, ml, now)
      ensures retained == old(retained) && agg.Some? && log == old(log)
    {
      hide AppendText, Normalize, Lossy;
      var a := agg.value;
      agg := Some(Aggregator(
        AppendText(a.record, normalized, ml.maxBytes), a.recordBytes + a.partialBytes + |chunk|,
        a.readAhead + |chunk|, 0, Some(now)));
      partial := "";
      lines, chunks := lines + [chunks + [chunk]], [];
    }

    /** One turn of `read_loop`: read a chunk, then commit it as a line or buffer it. It is
        the next turn of the poll `p`, unless the read fails. */
    method Turn(reader: LineReader, file: seq<Byte>, sink: Sink, ml: Opts, now: nat, ghost p: Poll)
      returns (turn: TurnResult)
      requires agg.Some? && reader.Contents() == From(file, View().readAhead)
      requires p.tail == View() && p.answers == sink.answers && p.stop.None?
      modifies this, reader, sink
      ensures Sent(old(sink.accepted), sink.accepted, old(log), log) && sink.fired == old(sink.fired)
      ensures agg.Some? && retained == old(retained)
      ensures Failed in reader.fills ==> Failed in old(reader.fills)
      ensures turn.End? ==> View() == p.tail && sink.answers == p.answers
      ensures turn.End? && Failed !in old(reader.fills) ==> Polls.Turn(p, file, ml, now) == p.(stop := Some(Eof))
      ensures !turn.End? ==>
                var q := Polls.Turn(p, file, ml, now);
                && View() == q.tail && sink.answers == q.answers
                && (turn.Refused? <==> q.stop == Some(Backpressure)) && q.stop != Some(Eof)
                && q.count == p.count + (if turn.Line? then 1 else 0)
                && (q.stop == Some(Cap) <==> turn.Line? && q.count >= MAX_LINES_PER_POLL)
                && (!turn.Refused? ==> reader.Contents() == From(file, View().readAhead)
                                       && View().readAhead == p.tail.readAhead + turn.n && turn.n >= 1)
    {
      hide Multiline.CommitLine, BufferPartial, NextChunk, Sent, From, Asks, Normalize, Lossy, Blank;
      SentNothing(sink.accepted, log);
      var ok, buf := reader.ReadChunk();
      if !ok || buf == [] {
        return End;
      }
      var n := |buf|;
      ReadFacts(file, p.tail.readAhead, buf, reader.Contents());
      if buf[n - 1] == NEWLINE {
        CommitFacts(p.tail, buf, NextAnswer(p.answers), ml, now);
        ok := CommitLine(buf, sink, ml, now);
        turn := if ok then Line(n) else Refused;
      } else {
        BufferFacts(p.tail, buf);
        Buffer(buf);
        turn := Sub(n);
      }
    }

    /** A sub-line: buffered, and only the read cursor moves. */
    method Buffer(buf: seq<Byte>)
      requires agg.Some?
      modifies this
      ensures View() == BufferPartial(old(View()), buf)
      ensures agg.Some? && retained == old(retained) && log == old(log)
    {
      hide PushPartial;
      var g := agg.value;
      agg := Some(g.(readAhead := g.readAhead + |buf|, partialBytes := g.partialBytes + |buf|));
      partial := PushPartial(partial, buf);
      chunks := chunks + [buf];
    }

    /** `read_loop`: commit complete lines, buffer the last sub-line, stop at the end of the
        file, at a refusal or at the line cap. State, answers and reason are those of a poll
        of `n` turns; one that has not stopped was ended by a read error. */
    method ReadLoop(reader: LineReader, file: seq<Byte>, sink: Sink, ml: Opts, now: nat)
      returns (consumed: nat, reason: StopReason, ghost n: nat)
      requires agg.Some? && reader.Contents() == From(file, View().readAhead)
      modifies this, reader, sink
      ensures var p := Turns(Begin(old(View()), old(sink.answers)), file, n, ml, now);
              && View() == p.tail && sink.answers == p.answers
              && (p.stop == Some(reason) || (p.stop.None? && reason.Eof? && Failed in old(reader.fills)))
      ensures View().readAhead == old(View().readAhead) + consumed
      ensures Sent(old(sink.accepted), sink.accepted, old(log), log) && sink.fired == old(sink.fired)
      ensures agg.Some? && retained == old(retained)
    {
      hide Polls.Turn, Sent, From;
      consumed, n, reason := 0, 0, Eof;
      var count := 0;
      ghost var p0 := Begin(View(), sink.answers);
      ghost var p := p0;
      SentNothing(sink.accepted, log);
      while true
        invariant agg.Some? && p == Turns(p0, file, n, ml, now) && p.stop.None?
        invariant View() == p.tail && sink.answers == p.answers && count == p.count < MAX_LINES_PER_POLL
        invariant reader.Contents() == From(file, View().readAhead)
        invariant View().readAhead == p0.tail.readAhead + consumed
        invariant Sent(old(sink.accepted), sink.accepted, old(log), log) && sink.fired == old(sink.fired)
        invariant retained == old(retained)
        invariant Failed in reader.fills ==> Failed in old(reader.fills)
        decreases Unread(p.tail, file)
      {
        ghost var log1, accepted1 := log, sink.accepted;
        var turn := Turn(reader, file, sink, ml, now, p);
        SentTwice(old(sink.accepted), accepted1, sink.accepted, old(log), log1, log);
        if turn.End? {
          if Failed !in old(reader.fills) { n := n + 1; }
          return;
        }
        TurnReads(p, file, ml, now);
        n := n + 1;
        p := Polls.Turn(p, file, ml, now);
        match turn {
          case Refused =>
            reason := Backpressure;
            return;
          case Line(k) =>
            consumed, count := consumed + k, count + 1;
            if count >= MAX_LINES_PER_POLL {
              reason := Cap;
              return;
            }
          case Sub(k) =>
            consumed := consumed + k;
        }
      }
    }

    /** `read_live`. */
    method ReadLive(file: seq<Byte>, fills: seq<Fill>, sink: Sink, ml: Opts, now: nat)
      returns (consumed: nat, ghost n: nat)
      modifies this, sink
      ensures var p := Turns(Begin(old(View()), old(sink.answers)), file, n, ml, now);
              && View() == p.tail && sink.answers == p.answers
              && (Failed !in fills ==> p == ReadPoll(old(View()), old(sink.answers), file, ml, now))
      ensures View().readAhead == old(View().readAhead) + consumed
      ensures Sent(old(sink.accepted), sink.accepted, old(log), log) && sink.fired == old(sink.fired)
      ensures retained == old(retained)
    {
      hide Sent, Turns, Unread;
      var a := EnsureAgg();
      ghost var t := View();
      // A seek past the end succeeds, and the first read finds nothing.
      var unread := if a.readAhead <= |file| then file[a.readAhead..] else [];
      var reader := new LineReader(unread, fills);
      var reason;
      consumed, reason, n := ReadLoop(reader, file, sink, ml, now);
      PollIs(t, old(sink.answers), file, n, ml, now);
    }

    /** `fold_partial`. */
    method FoldPartial(ml: Opts)
      requires agg.None? ==> partial == ""
      modifies this
      ensures View() == Multiline.FoldPartial(old(View()), ml)
      ensures log == old(log) && retained == old(retained) && agg.Some? == old(agg.Some?)
    {
      hide AppendText, Normalize;
      if partial == "" {
        return;
      }
      var normalized := Normalize(partial);
      partial := "";
      if agg.Some? {
        var a := agg.value;
        agg := Some(a.(record := AppendText(a.record, normalized, ml.maxBytes),
                       recordBytes := a.recordBytes + a.partialBytes, partialBytes := 0));
        lines, chunks := lines + [chunks], [];
      }
    }

    /** Fold and ship: `flush_final`, and the end of `drain`. */
    method Flush(sink: Sink, ml: Opts) returns (ok: bool)
      requires agg.None? ==> partial == ""
      modifies this, sink
      ensures (View(), ok) == Multiline.Flush(old(View()), NextAnswer(old(sink.answers)), ml)
      ensures sink.answers == After(old(sink.answers), Offers(Multiline.FoldPartial(old(View()), ml)))
      ensures Sent(old(sink.accepted), sink.accepted, old(log), log) && sink.fired == old(sink.fired)
      ensures retained == old(retained)
    {
      hide Multiline.FoldPartial, Multiline.Ship, Sent, Offers, After;
      FoldPartial(ml);
      ok := Ship(sink);
    }

    /** `flush_final`. */
    method FlushFinal(sink: Sink, ml: Opts)
      requires agg.None? ==> partial == ""
      modifies this, sink
      ensures View() == Multiline.Flush(old(View()), NextAnswer(old(sink.answers)), ml).0
      ensures sink.answers == After(old(sink.answers), Offers(Multiline.FoldPartial(old(View()), ml)))
      ensures Sent(old(sink.accepted), sink.accepted, old(log), log)
    {
      hide Multiline.Flush, Multiline.FoldPartial, Sent;
      var _ := Flush(sink, ml);
    }

    /** `flush_if_expired`: the time left to a record still pending, none once it expired. */
    method FlushIfExpired(sink: Sink, ml: Opts, now: nat) returns (remaining: Option<nat>)
      modifies this, sink
      ensures View() == Multiline.FlushIfExpired(old(View()), NextAnswer(old(sink.answers)), ml, now)
      ensures Sent(old(sink.accepted), sink.accepted, old(log), log)
      ensures sink.answers == After(old(sink.answers), Expired(old(View()), ml, now) && Offers(old(View())))
      ensures remaining.None? <==> View().recordBytes == 0
      ensures remaining.Some? ==>
                View() == old(View()) && remaining.value + Elapsed(View().lastAppend, now) >= ml.timeout
                && (remaining.value > 0 ==> remaining.value + Elapsed(View().lastAppend, now) == ml.timeout)
                && (remaining.value > 0 <==> !Expired(View(), ml, now))
    {
      hide Sent, Blank;
      SentNothing(sink.accepted, log);
      if agg.None? || !agg.value.HasRecord() {
        return None;
      }
      var elapsed := Elapsed(agg.value.lastAppend, now);
      if elapsed >= ml.timeout {
        var _ := Ship(sink);
      }
      if agg.Some? && agg.value.HasRecord() {
        var e := Elapsed(agg.value.lastAppend, now);
        return Some(if e <= ml.timeout then ml.timeout - e else 0);
      }
      return None;
    }

    /** `reset`: the in-flight record is discarded and reading restarts at `pos`. */
    method Reset()
      modifies this
      ensures View() == Fresh(pos).(log := old(log)) && pos == old(pos) && retained == old(retained)
    {
      partial := "";
      if agg.Some? { agg := Some(NewAggregator(pos)); }
      chunks, lines := [], [];
    }

    /** `check_and_read` on the file the path names, once it is known to be the same inode:
        a length below `pos` is a truncation, and an unread tail is read. */
    method CheckAndRead(file: seq<Byte>, fills: seq<Fill>, sink: Sink, ml: Opts, now: nat)
      returns (consumed: nat, ghost n: nat)
      modifies this, sink
      ensures var t := if |file| < old(pos) then Fresh(0).(log := old(log)) else old(View());
              if |file| <= t.pos then View() == t && sink.answers == old(sink.answers) && consumed == 0
              else
                var p := Turns(Begin(t, old(sink.answers)), file, n, ml, now);
                && View() == p.tail && sink.answers == p.answers
                && (Failed !in fills ==> p == ReadPoll(t, old(sink.answers), file, ml, now))
                && View().readAhead == t.readAhead + consumed
      ensures Sent(old(sink.accepted), sink.accepted, old(log), log) && sink.fired == old(sink.fired)
      ensures retained == old(retained)
    {
      hide Sent, Turns, Unread;
      if |file| < pos {
        pos := 0;
        Reset();
      }
      if |file| <= pos {
        SentNothing(sink.accepted, log);
        return 0, 0;
      }
      consumed, n := ReadLive(file, fills, sink, ml, now);
    }

    /** `drain`: read the rotated-out file on, and at its end fold and ship what is left. It
        is one `DrainPoll`; with a sink that takes what it is offered it gives the
        descriptor up or has read further. */
    method Drain(file: seq<Byte>, seekOk: bool, fills: seq<Fill>, sink: Sink, ml: Opts, now: nat)
      returns (consumed: nat, ghost n: nat)
      modifies this, sink
      ensures old(retained) && seekOk ==>
                var p := Turns(Begin(old(View()), old(sink.answers)), file, n, ml, now);
                && Draining(View(), sink.answers, retained) == EndPoll(p, ml)
                && (Failed !in fills ==> p == ReadPoll(old(View()), old(sink.answers), file, ml, now))
      ensures seekOk && Failed !in fills ==>
                Draining(View(), sink.answers, retained)
                == DrainPoll(Draining(old(View()), old(sink.answers), old(retained)), file, ml, now)
      ensures !old(retained) || !seekOk ==>
                View() == old(View()) && sink.answers == old(sink.answers) && !retained && consumed == 0
      ensures View().readAhead == old(View().readAhead) + consumed
      ensures Sent(old(sink.accepted), sink.accepted, old(log), log) && sink.fired == old(sink.fired)
      ensures Tiled(old(View()), file, ml) ==> Tiled(View(), file, ml)
      ensures seekOk && Failed !in fills && old(retained) ==>
                Willing(old(sink.answers), Unread(old(View()), file) + 1) ==> !retained || consumed > 0
    {
      hide Sent, Tiled, Multiline.FoldPartial, Multiline.Ship, Turns, Unread, Willing, DrainPoll, Offers, After;
      SentNothing(sink.accepted, log);
      n, consumed := 0, 0;
      ghost var d := Draining(View(), sink.answers, retained);
      if !retained {
        Gone(d, file, ml, now);
        return;
      }
      retained := false;
      var a := EnsureAgg();
      if !seekOk {
        return;
      }
      var unread := if a.readAhead <= |file| then file[a.readAhead..] else [];
      var reader := new LineReader(unread, fills);
      var reason;
      consumed, reason, n := ReadLoop(reader, file, sink, ml, now);
      ghost var p := Turns(Begin(d.tail, d.answers), file, n, ml, now);
      PollIs(d.tail, d.answers, file, n, ml, now);
      if reason != Eof {
        retained := true;
      } else {
        ghost var log1, accepted1 := log, sink.accepted;
        var ok := Flush(sink, ml);
        SentTwice(old(sink.accepted), accepted1, sink.accepted, old(log), log1, log);
        if !ok {
          retained := true;
        }
      }
      assert Draining(View(), sink.answers, retained) == EndPoll(p, ml);
      DrainFacts(d, p, file, n, ml, now);
    }

    // -------------------------------------------------------------- single line

    /** `try_emit_line`, with the offset update of its callers: a refusal changes nothing. */
    method TryEmitLine(chunk: seq<Byte>, sink: Sink) returns (ok: bool)
      requires chunk != []
      modifies this, sink
      ensures (SingleView(), ok) == S.EmitLine(old(SingleView()), chunk, NextAnswer(old(sink.answers)))
      ensures sink.answers == After(old(sink.answers), SP.Asks(old(SingleView()), chunk)) && sink.fired == old(sink.fired)
      ensures var line := old(partial) + Lossy(Init(chunk));
              && (Blank(line) ==> ok && emitted == old(emitted))
              && (emitted != old(emitted) ==>
                    && |emitted| == |old(emitted)| + 1 && emitted[..|old(emitted)|] == old(emitted)
                    && var text := Last(emitted).text; text != "" && Trimmed(text) && Padded(line, text))
      ensures Took(old(sink.accepted), sink.accepted, old(emitted), emitted)
      ensures retained == old(retained)
    {
      hide Normalize, Lossy, Flat, Blank, Trimmed, Padded;
      TookNothing(sink.accepted, emitted);
      var complete := Lossy(chunk[..|chunk| - 1]);
      if partial != "" { complete := partial + complete; }
      assert complete == partial + Lossy(Init(chunk));
      var trimmed := Normalize(complete);
      NormalizeShape(complete);
      ok := true;
      if trimmed != "" {
        ok := sink.TryLog(trimmed);
        if ok {
          emitted := emitted + [S.Entry(S.LineStart(SingleView()), pos + |chunk|, trimmed)];
          assert S.TextsOf(emitted[|old(emitted)|..]) == [trimmed];
        }
      }
      if ok {
        partial := "";
        pos := pos + |chunk|;
        lines, chunks := lines + [chunks + [chunk]], [];
      }
    }

    /** One turn of `read_lines` and `drain_retained`. */
    method SingleTurn(reader: LineReader, file: seq<Byte>, sink: Sink, ghost p: SP.Poll) returns (turn: TurnResult)
      requires reader.Contents() == From(file, pos)
      requires p.tail == SingleView() && p.answers == sink.answers && p.stop.None?
      modifies this, reader, sink
      ensures Took(old(sink.accepted), sink.accepted, old(emitted), emitted) && sink.fired == old(sink.fired)
      ensures retained == old(retained)
      ensures Failed in reader.fills ==> Failed in old(reader.fills)
      ensures turn.End? ==> SingleView() == p.tail && sink.answers == p.answers
      ensures turn.End? && Failed !in old(reader.fills) ==> SP.Turn(p, file) == p.(stop := Some(Eof))
      ensures !turn.End? ==>
                var q := SP.Turn(p, file);
                && SingleView() == q.tail && sink.answers == q.answers
                && (turn.Refused? <==> q.stop == Some(Backpressure)) && q.stop != Some(Eof)
                && q.count == p.count + (if turn.Line? then 1 else 0)
                && (q.stop == Some(Cap) <==> turn.Line? && q.count >= MAX_LINES_PER_POLL)
                && (!turn.Refused? ==> reader.Contents() == From(file, pos) && pos == p.tail.pos + turn.n && turn.n >= 1)
    {
      hide S.EmitLine, NextChunk, Took, PushPartial, From, SP.Asks, Lossy, Blank, Trimmed, Padded;
      TookNothing(sink.accepted, emitted);
      var ok, buf := reader.ReadChunk();
      if !ok || buf == [] {
        return End;
      }
      var n := |buf|;
      ReadFacts(file, p.tail.pos, buf, reader.Contents());
      if buf[n - 1] == NEWLINE {
        EmitFacts(p.tail, buf, NextAnswer(p.answers));
        ok := TryEmitLine(buf, sink);
        turn := if ok then Line(n) else Refused;
      } else {
        pos, partial := pos + n, PushPartial(partial, buf);
        chunks := chunks + [buf];
        turn := Sub(n);
      }
    }

    /** The loop shared by `read_lines` and `drain_retained`. */
    method SingleLoop(reader: LineReader, file: seq<Byte>, sink: Sink)
      returns (bytes: nat, reason: StopReason, ghost n: nat)
      requires reader.Contents() == From(file, pos)
      modifies this, reader, sink
      ensures var p := SP.Turns(SP.Begin(old(SingleView()), old(sink.answers)), file, n);
              && SingleView() == p.tail && sink.answers == p.answers
              && (p.stop == Some(reason) || (p.stop.None? && reason.Eof? && Failed in old(reader.fills)))
      ensures pos == old(pos) + bytes
      ensures Took(old(sink.accepted), sink.accepted, old(emitted), emitted) && sink.fired == old(sink.fired)
      ensures retained == old(retained)
    {
      hide SP.Turn, Took, From;
      bytes, n, reason := 0, 0, Eof;
      var count := 0;
      ghost var p0 := SP.Begin(SingleView(), sink.answers);
      ghost var p := p0;
      TookNothing(sink.accepted, emitted);
      while true
        invariant p == SP.Turns(p0, file, n) && p.stop.None?
        invariant SingleView() == p.tail && sink.answers == p.answers && count == p.count < MAX_LINES_PER_POLL
        invariant reader.Contents() == From(file, pos)
        invariant pos == p0.tail.pos + bytes
        invariant Took(old(sink.accepted), sink.accepted, old(emitted), emitted) && sink.fired == old(sink.fired)
        invariant retained == old(retained)
        invariant Failed in reader.fills ==> Failed in old(reader.fills)
        decreases SP.Unread(p.tail, file)
      {
        ghost var emitted1, accepted1 := emitted, sink.accepted;
        var turn := SingleTurn(reader, file, sink, p);
        TookTwice(old(sink.accepted), accepted1, sink.accepted, old(emitted), emitted1, emitted);
        if turn.End? {
          if Failed !in old(reader.fills) { n := n + 1; }
          return;
        }
        SP.TurnReads(p, file);
        n := n + 1;
        p := SP.Turn(p, file);
        match turn {
          case Refused =>
            reason := Backpressure;
            return;
          case Line(k) =>
            bytes, count := bytes + k, count + 1;
            if count >= MAX_LINES_PER_POLL {
              reason := Cap;
              return;
            }
          case Sub(k) =>
            bytes := bytes + k;
        }
      }
    }

    /** `read_lines`. */
    method ReadLines(file: seq<Byte>, fills: seq<Fill>, sink: Sink) returns (bytes: nat, ghost n: nat)
      modifies this, sink
      ensures var p := SP.Turns(SP.Begin(old(SingleView()), old(sink.answers)), file, n);
              && SingleView() == p.tail && sink.answers == p.answers
              && (Failed !in fills ==> p == SP.ReadPoll(old(SingleView()), old(sink.answers), file))
      ensures pos == old(pos) + bytes
      ensures Took(old(sink.accepted), sink.accepted, old(emitted), emitted) && sink.fired == old(sink.fired)
      ensures retained == old(retained)
    {
      hide Took, SP.Turns, SP.Unread;
      ghost var t := SingleView();
      var unread := if pos <= |file| then file[pos..] else [];
      var reader := new LineReader(unread, fills);
      var reason;
      bytes, reason, n := SingleLoop(reader, file, sink);
      SP.PollIs(t, old(sink.answers), file, n);
    }

    /** `flush_partial`: the pending text is handed over whatever the sink answers. */
    method FlushPartial(sink: Sink)
      modifies this, sink
      ensures SingleView() == S.FlushPartial(old(SingleView())) && partial == "" && retained == old(retained)
      ensures sink.accepted == old(sink.accepted) && sink.answers == old(sink.answers)
      ensures sink.fired == old(sink.fired) + S.Handed(old(partial))
    {
      hide Trim;
      TrimEmpty(partial);
      if partial == "" {
        return;
      }
      var trimmed := Trim(partial);
      partial, chunks := "", [];
      if trimmed != "" {
        sink.Log(trimmed);
      }
    }

    /** `check_and_read` without multiline: a truncation hands the pending text over and
        restarts at 0, and an unread tail is read. */
    method CheckAndReadLines(file: seq<Byte>, fills: seq<Fill>, sink: Sink) returns (bytes: nat, ghost n: nat)
      modifies this, sink
      ensures var t := if |file| < old(pos) then S.FlushPartial(old(SingleView())).(pos := 0) else old(SingleView());
              if |file| <= t.pos then SingleView() == t && sink.answers == old(sink.answers) && bytes == 0
              else
                var p := SP.Turns(SP.Begin(t, old(sink.answers)), file, n);
                && SingleView() == p.tail && sink.answers == p.answers
                && (Failed !in fills ==> p == SP.ReadPoll(t, old(sink.answers), file))
                && pos == t.pos + bytes
      ensures sink.fired == old(sink.fired) + if |file| < old(pos) then S.Handed(old(partial)) else []
      ensures Took(old(sink.accepted), sink.accepted, old(emitted), emitted)
      ensures retained == old(retained)
    {
      hide Took, SP.Turns, SP.Unread, S.Handed;
      TookNothing(sink.accepted, emitted);
      if |file| < pos {
        pos := 0;
        FlushPartial(sink);
      }
      if |file| <= pos {
        return 0, 0;
      }
      bytes, n := ReadLines(file, fills, sink);
    }

    /** `drain_retained`: it is one `DrainPoll` of the single-line path. The descriptor is
        given up at the end of the old file, with the pending text handed over; with a sink
        that takes what it is offered a poll that keeps it has read further. */
    method DrainRetained(file: seq<Byte>, seekOk: bool, fills: seq<Fill>, sink: Sink)
      returns (bytes: nat, ghost n: nat)
      modifies this, sink
      ensures old(retained) && seekOk ==>
                var p := SP.Turns(SP.Begin(old(SingleView()), old(sink.answers)), file, n);
                && SP.Draining(SingleView(), sink.answers, sink.fired, retained) == SP.EndPoll(p, old(sink.fired))
                && (Failed !in fills ==> p == SP.ReadPoll(old(SingleView()), old(sink.answers), file))
      ensures seekOk && Failed !in fills ==>
                SP.Draining(SingleView(), sink.answers, sink.fired, retained)
                == SP.DrainPoll(SP.Draining(old(SingleView()), old(sink.answers), old(sink.fired), old(retained)), file)
      ensures !old(retained) || !seekOk ==>
                SingleView() == old(SingleView()) && sink.answers == old(sink.answers) && sink.fired == old(sink.fired)
                && !retained && bytes == 0
      ensures pos == old(pos) + bytes
      ensures Took(old(sink.accepted), sink.accepted, old(emitted), emitted)
      ensures seekOk && Failed !in fills && old(retained) ==>
                Willing(old(sink.answers), SP.Unread(old(SingleView()), file)) ==> !retained || bytes > 0
    {
      hide Took, SP.Turns, SP.Unread, Willing, S.Handed;
      TookNothing(sink.accepted, emitted);
      bytes, n := 0, 0;
      ghost var d := SP.Draining(SingleView(), sink.answers, sink.fired, retained);
      if !retained {
        return;
      }
      retained := false;
      if !seekOk {
        return;
      }
      var unread := if pos <= |file| then file[pos..] else [];
      var reader := new LineReader(unread, fills);
      var reason;
      bytes, reason, n := SingleLoop(reader, file, sink);
      SP.PollIs(d.tail, d.answers, file, n);
      if reason != Eof {
        retained := true;
      } else {
        FlushPartial(sink);
      }
      if Willing(d.answers, SP.Unread(d.tail, file)) {
        SP.DrainAdvances(d, file, 0);
      }
    }
  }

  // ---------------------------------------------------------------- facts the methods use

  function Elapsed(since: Option<nat>, now: nat): nat {
    if since.Some? && since.value <= now then now - since.value else 0
  }

  /** The sink took exactly the entries added to `emitted`. */
  predicate Took(before: seq<string>, after: seq<string>, e0: seq<S.Entry>, e1: seq<S.Entry>) {
    e0 <= e1 && after == before + S.TextsOf(e1[|e0|..])
  }

  lemma TookNothing(a: seq<string>, e: seq<S.Entry>)
    ensures Took(a, a, e, e)
  {
    assert e[|e|..] == [];
  }

  lemma TookTwice(
    a: seq<string>, b: seq<string>, c: seq<string>, l: seq<S.Entry>, m: seq<S.Entry>, n: seq<S.Entry>)
    requires Took(a, b, l, m) && Took(b, c, m, n)
    ensures Took(a, c, l, n)
  {
    assert n[|l|..] == m[|l|..] + n[|m|..];
    S.TextsOfAppend(m[|l|..], n[|m|..]);
  }

  lemma EmitFacts(t: S.Tail, chunk: seq<Byte>, accept: bool)
    requires chunk != []
    ensures var (s, ok) := S.EmitLine(t, chunk, accept); ok ==> s.pos == t.pos + |chunk|
  {
    hide Normalize, Lossy;
  }

  /** `trim().is_empty()`. */
  method AllWhitespace(s: string) returns (b: bool)
    ensures b == Blank(s)
  {
    for i := 0 to |s|
      invariant forall k :: 0 <= k < i ==> IsWhitespace(s[k])
    {
      if !IsWhitespace(s[i]) { return false; }
    }
    return true;
  }

  lemma NothingAccepted()
    ensures Accepted([]) == []
  {
  }

  lemma {:induction false} AcceptedAppend(a: seq<Shipped>, b: seq<Shipped>)
    ensures Accepted(a + b) == Accepted(a) + Accepted(b)
    decreases |b|
  {
    hide Blank, Accepted;
    if b == [] {
      assert a + b == a;
      NothingAccepted();
    } else {
      AcceptedAppend(a, Init(b));
      assert a + b == (a + Init(b)) + [Last(b)] && b == Init(b) + [Last(b)];
      AcceptedSnoc(a + Init(b), Last(b));
      AcceptedSnoc(Init(b), Last(b));
    }
  }

  lemma JoinAccepted(a: seq<Shipped>, b: seq<Shipped>, c: seq<Shipped>)
    requires a <= b <= c
    ensures Accepted(c[|a|..]) == Accepted(b[|a|..]) + Accepted(c[|b|..])
  {
    hide Accepted;
    assert c[|a|..] == b[|a|..] + c[|b|..];
    AcceptedAppend(b[|a|..], c[|b|..]);
  }

  lemma CommitFacts(t: Multiline.Tail, chunk: seq<Byte>, accept: bool, ml: Opts, now: nat)
    requires chunk != []
    ensures var (s, ok) := Multiline.CommitLine(t, chunk, accept, ml, now);
            (ok ==> s.readAhead == t.readAhead + |chunk|) && (!ok ==> s == t && !accept && t.recordBytes > 0)
  {
    hide AppendText, Completed, IsStart, Blank;
  }

  lemma BufferFacts(t: Multiline.Tail, chunk: seq<Byte>)
    ensures BufferPartial(t, chunk).readAhead == t.readAhead + |chunk|
  {
    hide PushPartial;
  }

  lemma ReadFacts(file: seq<Byte>, at: nat, chunk: seq<Byte>, rest: seq<Byte>)
    requires From(file, at) == chunk + rest && chunk != []
    ensures rest == From(file, at + |chunk|)
  {
    assert |file[at..]| == |chunk| + |rest|;
    assert file[at + |chunk|..] == file[at..][|chunk|..];
  }

  /** What a drain leaves: still tiled, and progress when the sink is willing. */
  lemma DrainFacts(d: Draining, p: Poll, file: seq<Byte>, n: nat, ml: Opts, now: nat)
    requires d.retained && p == Turns(Begin(d.tail, d.answers), file, n, ml, now)
    ensures EndPoll(p, ml).tail.readAhead == p.tail.readAhead
    ensures Tiled(d.tail, file, ml) ==> Tiled(EndPoll(p, ml).tail, file, ml)
    ensures p == ReadPoll(d.tail, d.answers, file, ml, now) ==> EndPoll(p, ml) == DrainPoll(d, file, ml, now)
    ensures p == ReadPoll(d.tail, d.answers, file, ml, now) && EndPoll(p, ml).retained ==>
              Willing(d.answers, Unread(d.tail, file) + 1) ==> EndPoll(p, ml).tail.readAhead > d.tail.readAhead
  {
    hide Tiled, Turns, EndPoll, Willing, Unread;
    EndKeepsCursor(p, ml);
    if Tiled(d.tail, file, ml) {
      TurnsTiled(Begin(d.tail, d.answers), file, n, ml, now);
      EndTiled(p, file, ml);
    }
    if p == ReadPoll(d.tail, d.answers, file, ml, now) && Willing(d.answers, Unread(d.tail, file) + 1) {
      DrainAdvances(d, file, 0, ml, now);
    }
  }
}
