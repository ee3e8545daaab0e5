/** Whole runs of the single-line path on one inode: growth, reads cut anywhere, refusals,
    flushes, offset saves and restarts, and what crashes cost. */
module SingleLineRuns {
  import opened Options
  import opened Utf8
  import opened Lines
  import opened Assembly
  import opened Segments
  import opened SingleLine
  import opened SingleLineCuts
  import C = MultilineConfluence
  import M = MultilineRuns

  datatype Event = Grow(more: seq<Byte>) | Read(accept: bool) | FlushPartial | Save | Restart

  /** One stretch of reading that began with an empty partial: where it began and ended, the
      entries it emitted for lines, and what `flush_partial` handed over at its end. */
  datatype Life = Life(born: nat, end: nat, emitted: seq<Entry>, handed: seq<Entry>, flushed: bool)

  /** `past` are the earlier lives; nothing the sink received is ever taken back. */
  datatype World = World(file: seq<Byte>, tail: Tail, born: nat, past: seq<Life>, saved: Option<nat>)

  function Start(file: seq<Byte>, pos: nat): World { World(file, Fresh(pos), pos, [], None) }

  /** The life under way, as it would end now. */
  function Current(w: World): Life { Life(w.born, w.tail.pos, w.tail.emitted, [], false) }

  function Lives(w: World): seq<Life> { w.past + [Current(w)] }

  function Received(lives: seq<Life>): seq<string> {
    if lives == [] then []
    else Received(Init(lives)) + TextsOf(Last(lives).emitted) + TextsOf(Last(lives).handed)
  }

  /** Everything the sink was handed in this run, in order. */
  function Out(w: World): seq<string> { Received(Lives(w)) }

  /** What `flush_partial` hands over, with its place. */
  function HandedAt(t: Tail): seq<Entry> {
    if Blank(t.partial) then [] else [Entry(LineStart(t), t.pos, Trim(t.partial))]
  }

  function Next(w: World, e: Event): World {
    match e
    case Grow(more) => w.(file := w.file + more)
    case Read(accept) => if w.tail.pos <= |w.file| then w.(tail := Step(w.tail, w.file, accept)) else w
    case FlushPartial =>
      var l := Current(w).(handed := HandedAt(w.tail), flushed := true);
      w.(tail := Fresh(w.tail.pos), born := w.tail.pos, past := w.past + [l])
    case Save => w.(saved := Some(w.tail.pos))
    case Restart =>
      var p := M.ResumeAt(w.saved, |w.file|);
      w.(tail := Fresh(p), born := p, past := w.past + [Current(w)])
  }

  function Run(w: World, events: seq<Event>): World {
    if events == [] then w else Next(Run(w, Init(events)), Last(events))
  }

  // ---------------------------------------------------------------- what the lives emit

  /** An offset between whole characters. */
  predicate At(file: seq<Byte>, start: nat, p: nat) { start <= p <= |file| && Whole(file[start..p]) }

  /** The pending text of a stretch, as an entry. */
  function PendingEntry(file: seq<Byte>, begin: nat, end: nat): seq<Entry>
    requires begin <= end <= |file|
  {
    var r := Rest(file[begin..end]);
    if Blank(Lossy(r)) then [] else [Entry(if |r| <= end then end - |r| else 0, end, Trim(Lossy(r)))]
  }

  /** A life emits the lines of one-shot splitting between its two ends, in order, once each
      and at their places, and a flush hands over what follows the last of them. */
  predicate LifeOk(l: Life, start: nat, file: seq<Byte>) {
    && At(file, start, l.born) && At(file, start, l.end) && l.born <= l.end
    && l.emitted == Items(l.born, CompleteLines(file[l.born..l.end]))
    && l.handed == if l.flushed then PendingEntry(file, l.born, l.end) else []
  }

  predicate Inv(w: World, start: nat) {
    && start <= |w.file| && Whole(w.file[start..])
    && At(w.file, start, w.born) && Faithful(w.tail, w.born, w.file)
    && (forall k :: 0 <= k < |w.past| ==> LifeOk(w.past[k], start, w.file))
    && (w.saved.Some? ==> At(w.file, start, w.saved.value))
  }

  predicate WholeEvent(e: Event) { e.Grow? ==> Whole(e.more) }

  predicate WholeGrowth(events: seq<Event>) { forall i :: 0 <= i < |events| ==> WholeEvent(events[i]) }

  lemma StartInv(file: seq<Byte>, pos: nat)
    requires pos <= |file| && Whole(file[pos..])
    ensures Inv(Start(file, pos), pos)
  {
    hide Whole, Faithful;
    FreshFaithful(pos, file);
    assert file[pos..pos] == [];
    NothingWhole();
  }

  lemma NothingWhole()
    ensures Whole([])
  {
  }

  lemma GrowAt(file: seq<Byte>, more: seq<Byte>, start: nat, p: nat)
    requires At(file, start, p)
    ensures At(file + more, start, p)
  {
    hide Whole;
    assert (file + more)[start..p] == file[start..p];
  }

  lemma GrowLife(l: Life, start: nat, file: seq<Byte>, more: seq<Byte>)
    requires LifeOk(l, start, file)
    ensures LifeOk(l, start, file + more)
  {
    hide At, Items, CompleteLines, Lossy, Rest, Blank, Trim;
    AtBounds(file, start, l.end);
    GrowAt(file, more, start, l.born);
    GrowAt(file, more, start, l.end);
    AtBounds(file + more, start, l.end);
    assert (file + more)[l.born..l.end] == file[l.born..l.end];
  }

  lemma AtBounds(file: seq<Byte>, start: nat, p: nat)
    requires At(file, start, p)
    ensures start <= p <= |file|
  {
  }

  /** The life under way is one, and its partial is what follows its last line. */
  lemma CurrentOk(w: World, start: nat)
    requires Inv(w, start) && C.LinesFit(w.file[start..])
    ensures LifeOk(Current(w), start, w.file)
    ensures w.born <= w.tail.pos <= |w.file| && w.tail.partial == Lossy(Rest(w.file[w.born..w.tail.pos]))
    ensures HandedAt(w.tail) == PendingEntry(w.file, w.born, w.tail.pos)
    ensures Whole(w.file[w.born..]) && C.LinesFit(w.file[w.born..])
  {
    hide Whole, C.LinesFit, Faithful, Items, CompleteLines, Rest, Lossy, LifeOk, Blank, Trim;
    var f, b, p := w.file, w.born, w.tail.pos;
    C.FitPart(f[start..], b - start, |f| - start);
    assert f[start..][b - start..|f| - start] == f[b..];
    assert f[start..] == f[start..b] + f[b..];
    WholeSuffix(f[start..b], f[b..]);
    TailWhole(w.tail, b, f);
    FaithfulMeans(w.tail, b, f);
    WholeAppend(f[start..b], f[b..p]);
    assert f[start..p] == f[start..b] + f[b..p];
    PendingPlace(w.tail, b, f);
    assert LifeOk(Current(w), start, f) by { CurrentIs(w, start); }
  }

  lemma CurrentIs(w: World, start: nat)
    requires At(w.file, start, w.born) && At(w.file, start, w.tail.pos) && w.born <= w.tail.pos
    requires w.tail.emitted == Items(w.born, CompleteLines(w.file[w.born..w.tail.pos]))
    ensures LifeOk(Current(w), start, w.file)
  {
    hide Whole, Items, CompleteLines, Rest;
  }

  lemma PendingPlace(t: Tail, start: nat, file: seq<Byte>)
    requires Faithful(t, start, file) && start <= |file| && C.LinesFit(file[start..])
    ensures start <= t.pos <= |file| && Flat(t.chunks) == Rest(file[start..t.pos])
  {
    hide C.LinesFit, C.GoodLines, C.FlatLines, Items, PartialText, WholeChunks, CompleteLines, Rest, Whole, Flat;
    PendingFits(t, start, file);
    var q := t.pos - |Flat(t.chunks)|;
    assert file[start..t.pos] == file[start..q] + file[q..t.pos];
    LinesAppend(file[start..q], Flat(t.chunks));
    NoNewlineChunk(Flat(t.chunks));
  }

  lemma NextInv(w: World, start: nat, e: Event)
    requires Inv(w, start) && C.LinesFit(w.file[start..]) && WholeEvent(e)
    ensures Inv(Next(w, e), start)
  {
    hide Whole, C.LinesFit, Faithful, Step, LifeOk, CompleteLines, Rest, Lossy, HandedAt, PendingEntry, Fresh, At;
    AtBounds(w.file, start, w.born);
    CurrentOk(w, start);
    LifeAt(Current(w), start, w.file);
    match e {
      case Grow(more) => GrowInv(w, start, more);
      case Read(accept) => StepFaithful(w.tail, w.born, w.file, accept);
      case FlushPartial =>
        FreshFaithful(w.tail.pos, w.file);
        FlushedOk(Current(w), start, w.file);
      case Save =>
      case Restart =>
        var p := M.ResumeAt(w.saved, |w.file|);
        EndAt(w, start);
        if w.saved.Some? { AtBounds(w.file, start, w.saved.value); }
        FreshFaithful(p, w.file);
    }
  }

  lemma LifeAt(l: Life, start: nat, file: seq<Byte>)
    requires LifeOk(l, start, file)
    ensures At(file, start, l.born) && At(file, start, l.end) && l.born <= l.end <= |file|
  {
  }

  lemma EndAt(w: World, start: nat)
    requires start <= |w.file| && Whole(w.file[start..])
    ensures At(w.file, start, |w.file|)
  {
    hide Whole;
    assert w.file[start..|w.file|] == w.file[start..];
  }

  lemma FlushedOk(l: Life, start: nat, file: seq<Byte>)
    requires LifeOk(l, start, file) && !l.flushed
    ensures LifeOk(l.(handed := PendingEntry(file, l.born, l.end), flushed := true), start, file)
  {
    hide At, Items, CompleteLines, PendingEntry;
  }

  lemma GrowInv(w: World, start: nat, more: seq<Byte>)
    requires Inv(w, start) && Whole(more)
    ensures Inv(Next(w, Grow(more)), start)
  {
    hide Whole, Faithful, LifeOk, At, Lossy;
    var f := w.file + more;
    GrowAt(w.file, more, start, w.born);
    GrowFaithful(w.tail, w.born, w.file, more);
    forall k | 0 <= k < |w.past| ensures LifeOk(w.past[k], start, f) { GrowLife(w.past[k], start, w.file, more); }
    if w.saved.Some? { GrowAt(w.file, more, start, w.saved.value); }
    WholeAppend(w.file[start..], more);
    assert f[start..] == w.file[start..] + more;
  }

  lemma GrowthPrefix(events: seq<Event>)
    requires events != [] && WholeGrowth(events)
    ensures WholeGrowth(Init(events)) && WholeEvent(Last(events))
  {
    hide WholeEvent;
    assert Last(events) == events[|events| - 1];
  }

  lemma {:induction false} FileGrows(w: World, events: seq<Event>)
    ensures w.file <= Run(w, events).file
  {
    hide Step, HandedAt;
    if events != [] {
      FileGrows(w, Init(events));
    }
  }

  lemma FitEarlier(v: World, e: Event, start: nat)
    requires start <= |v.file| && start <= |Next(v, e).file| && C.LinesFit(Next(v, e).file[start..])
    ensures C.LinesFit(v.file[start..])
  {
    hide C.LinesFit, Step, HandedAt;
    C.FitPrefix(v.file, Next(v, e).file, start);
  }

  lemma {:induction false} RunInv(w: World, start: nat, events: seq<Event>)
    requires Inv(w, start) && start <= |w.file| && WholeGrowth(events)
    requires start <= |Run(w, events).file| && C.LinesFit(Run(w, events).file[start..])
    ensures Inv(Run(w, events), start)
  {
    hide Inv, C.LinesFit, Next, WholeGrowth, WholeEvent;
    if events != [] {
      var v := Run(w, Init(events));
      FileGrows(w, Init(events));
      GrowthPrefix(events);
      FitEarlier(v, Last(events), start);
      RunInv(w, start, Init(events));
      NextInv(v, start, Last(events));
    }
  }

  /** The runs the theorems are about: growth by whole characters, lines that fit the partial
      buffer. */
  predicate Readable(file: seq<Byte>, start: nat, events: seq<Event>) {
    && start <= |file| && Whole(file[start..]) && WholeGrowth(events)
    && var f := Run(Start(file, start), events).file; start <= |f| && C.LinesFit(f[start..])
  }

  /** In every run each life, past or under way, emitted the non-blank normalized lines between
      its two ends, in order, once each and at their places, and handed over what a flush at
      its end found pending. */
  lemma LivesEmit(file: seq<Byte>, start: nat, events: seq<Event>, k: nat)
    requires Readable(file, start, events) && k < |Lives(Run(Start(file, start), events))|
    ensures var w := Run(Start(file, start), events); LifeOk(Lives(w)[k], start, w.file)
  {
    hide Whole, C.LinesFit, Run, WholeGrowth, LifeOk, Faithful, At, Current;
    StartInv(file, start);
    assert Start(file, start).file == file;
    RunInv(Start(file, start), start, events);
    CurrentOk(Run(Start(file, start), events), start);
  }

  /** In every run each emitted text is the decoded line it was read from without trailing
      whitespace and without a leading mark; it never ends in whitespace, and a line of
      whitespace only is never emitted. */
  lemma EntriesTrimmed(file: seq<Byte>, start: nat, events: seq<Event>, k: nat, e: Entry)
    requires Readable(file, start, events) && k < |Lives(Run(Start(file, start), events))|
    requires e in Lives(Run(Start(file, start), events))[k].emitted
    ensures var f := Run(Start(file, start), events).file;
            && e.from < e.to <= |f| && f[e.to - 1] == NEWLINE
            && var line := Lossy(f[e.from..e.to - 1]);
               e.text != "" && Trimmed(e.text) && Padded(line, e.text) && !Blank(line)
  {
    hide Run, Readable, Lives, Lossy, Blank, Trimmed, Padded, LifeOk;
    LivesEmit(file, start, events, k);
    var w := Run(Start(file, start), events);
    EntryTrimmed(Lives(w)[k], start, w.file, e);
  }

  lemma EntryTrimmed(l: Life, start: nat, file: seq<Byte>, e: Entry)
    requires LifeOk(l, start, file) && e in l.emitted
    ensures e.from < e.to <= |file| && file[e.to - 1] == NEWLINE
    ensures var line := Lossy(file[e.from..e.to - 1]);
            e.text != "" && Trimmed(e.text) && Padded(line, e.text) && !Blank(line)
  {
    hide Lossy, Normalize, NormalLine, Blank, Trimmed, Padded, CompleteLines, Items, At, PendingEntry, Rest;
    AtBounds(file, start, l.born);
    AtBounds(file, start, l.end);
    ItemIff(file, l.born, l.end, e);
    LineTrimmed(file, e.from, e.to);
  }

  lemma LineTrimmed(file: seq<Byte>, a: nat, b: nat)
    requires a < b <= |file| && file[b - 1] == NEWLINE
    ensures var line, text := Lossy(file[a..b - 1]), NormalLine(file[a..b]);
            Trimmed(text) && Padded(line, text) && (Blank(line) ==> text == "")
  {
    hide Lossy, Normalize, NormalLine, Blank, Trimmed, Padded;
    var line := file[a..b];
    NormalLineMeans(line);
    assert Init(line) == file[a..b - 1] && line[|line| - 1] == file[b - 1];
  }

  predicate Live(events: seq<Event>) { forall i :: 0 <= i < |events| ==> events[i].Grow? || events[i].Read? }

  lemma {:induction false} LiveSame(w: World, events: seq<Event>)
    requires Live(events)
    ensures Run(w, events).born == w.born && Run(w, events).past == w.past
  {
    hide Step;
    if events != [] {
      LiveSame(w, Init(events));
    }
  }

  /** Single-line tailing refines one-shot splitting: after any growth, any poll boundaries
      and any refusals, the emitted list is exactly the non-blank normalized lines that end
      before `pos`, in order and once each, and the partial is the text of what follows the
      last of them. */
  lemma SplitRefinement(file: seq<Byte>, start: nat, events: seq<Event>)
    requires Readable(file, start, events) && Live(events)
    ensures var w := Run(Start(file, start), events);
            && start <= w.tail.pos <= |w.file|
            && w.tail.emitted == Items(start, CompleteLines(w.file[start..w.tail.pos]))
            && TextsOf(w.tail.emitted) == Entries(CompleteLines(w.file[start..w.tail.pos]))
            && w.tail.partial == Lossy(Rest(w.file[start..w.tail.pos]))
  {
    hide Whole, C.LinesFit, Run, CompleteLines, Rest, Lossy, Faithful, WholeGrowth, Items, Entries;
    LiveSame(Start(file, start), events);
    StartInv(file, start);
    RunInv(Start(file, start), start, events);
    var w := Run(Start(file, start), events);
    CurrentOk(w, start);
    ItemTexts(start, CompleteLines(w.file[start..w.tail.pos]));
  }

  // ---------------------------------------------------------------- lines handed over whole

  function Max(a: nat, b: nat): nat { if a < b then b else a }

  /** An entry read from the line `[a, b)` that is the whole line. */
  predicate WholeEntry(file: seq<Byte>, e: Entry, a: nat, b: nat)
    requires a <= b <= |file|
  {
    a <= e.from && e.to <= b && e.text == NormalLine(file[a..b])
  }

  ghost predicate GivesWhole(file: seq<Byte>, l: Life, a: nat, b: nat)
    requires a <= b <= |file|
  {
    exists e :: (e in l.emitted || e in l.handed) && WholeEntry(file, e, a, b)
  }

  /** What it takes, told from where the life began and ended: it read the line to its end,
      from its beginning or from where the rest normalizes the same; or it was flushed inside
      the line and the text handed over is the whole entry. */
  predicate CarriesWhole(file: seq<Byte>, l: Life, a: nat, b: nat)
    requires a <= b <= |file|
  {
    var m := Max(a, l.born);
    || (m < b <= l.end && NormalLine(file[m..b]) == NormalLine(file[a..b]))
    || (l.flushed && m < l.end < b && !Blank(Lossy(file[m..l.end])) && Trim(Lossy(file[m..l.end])) == NormalLine(file[a..b]))
  }

  /** The line of a life that ends where a line of the file does. */
  lemma LineOfLife(file: seq<Byte>, start: nat, born: nat, a: nat, b: nat)
    requires IsLine(file, start, a, b) && start <= born < b
    ensures var m := Max(a, born); a <= m < b && IsLine(file, born, m, b)
  {
    var m := Max(a, born);
    forall i | m <= i < b - 1 ensures file[i] != NEWLINE { NoNewlineAt(file, a, b - 1, i); }
  }

  /** An entry of a life that lies in a line of the file runs to the end of that line. */
  lemma EntryOfLine(file: seq<Byte>, start: nat, born: nat, a: nat, b: nat, e: Entry)
    requires IsLine(file, start, a, b) && IsLine(file, born, e.from, e.to) && a <= e.from && e.to <= b
    ensures born < b && e.to == b && e.from == Max(a, born)
  {
    FirstNewline(file, a, b, e.to - 1);
    if a < e.from { LineBegins(file, start, a, b, e.from); }
  }

  lemma EmittedWhole(file: seq<Byte>, start: nat, l: Life, a: nat, b: nat)
    requires LifeOk(l, start, file) && IsLine(file, start, a, b) && NormalLine(file[a..b]) != ""
    ensures (exists e :: e in l.emitted && WholeEntry(file, e, a, b)) <==>
              (Max(a, l.born) < b <= l.end && NormalLine(file[Max(a, l.born)..b]) == NormalLine(file[a..b]))
  {
    hide At, CompleteLines, Items, NormalLine, PendingEntry, IsLine;
    LifeAt(l, start, file);
    AtBounds(file, start, l.born);
    LineForward(file, start, a, b);
    var m := Max(a, l.born);
    if m < b <= l.end && NormalLine(file[m..b]) == NormalLine(file[a..b]) {
      LineOfLife(file, start, l.born, a, b);
      var e := Entry(m, b, NormalLine(file[m..b]));
      ItemIff(file, l.born, l.end, e);
      assert e in l.emitted && WholeEntry(file, e, a, b);
    }
    if exists e :: e in l.emitted && WholeEntry(file, e, a, b) {
      var e :| e in l.emitted && WholeEntry(file, e, a, b);
      ItemIff(file, l.born, l.end, e);
      LineForward(file, l.born, e.from, e.to);
      EntryOfLine(file, start, l.born, a, b, e);
    }
  }

  lemma HandedWhole(file: seq<Byte>, start: nat, l: Life, a: nat, b: nat)
    requires LifeOk(l, start, file) && IsLine(file, start, a, b) && NormalLine(file[a..b]) != ""
    ensures var m := Max(a, l.born);
            (exists e :: e in l.handed && WholeEntry(file, e, a, b)) <==>
              (l.flushed && m < l.end < b && !Blank(Lossy(file[m..l.end])) && Trim(Lossy(file[m..l.end])) == NormalLine(file[a..b]))
  {
    hide At, CompleteLines, Items, NormalLine, Lossy, Blank, Trim, Rest;
    LifeAt(l, start, file);
    AtBounds(file, start, l.born);
    var m := Max(a, l.born);
    PendingIs(file, l.born, l.end);
    var r := Rest(file[l.born..l.end]);
    NothingBlank();
    if l.flushed && m < l.end < b {
      forall i | m <= i < l.end ensures file[i] != NEWLINE { NoNewlineAt(file, a, b - 1, i); }
      PendingFrom(file, l.born, m, l.end);
      assert r == file[m..l.end];
      if !Blank(Lossy(r)) {
        assert Entry(m, l.end, Trim(Lossy(r))) in l.handed;
      }
    }
    if exists e :: e in l.handed && WholeEntry(file, e, a, b) {
      var e :| e in l.handed && WholeEntry(file, e, a, b);
      assert l.end - |r| < l.end;
      PendingInside(file, start, l.born, l.end, a, b, r);
    }
  }

  lemma NothingBlank()
    ensures Blank(Lossy([]))
  {
  }

  lemma PendingInside(file: seq<Byte>, start: nat, born: nat, end: nat, a: nat, b: nat, r: seq<Byte>)
    requires IsLine(file, start, a, b) && start <= born <= end <= b && r != [] && |r| <= end - born
    requires r == file[end - |r|..end] && NEWLINE !in r && a <= end - |r|
    requires end - |r| == born || file[end - |r| - 1] == NEWLINE
    ensures Max(a, born) < end < b && end - |r| == Max(a, born)
  {
    var q := end - |r|;
    NoNewlineAt(file, q, end, end - 1);
    if a < q { LineBegins(file, start, a, b, q); }
  }

  lemma LifeWhole(file: seq<Byte>, start: nat, l: Life, a: nat, b: nat)
    requires LifeOk(l, start, file) && IsLine(file, start, a, b) && NormalLine(file[a..b]) != ""
    ensures GivesWhole(file, l, a, b) <==> CarriesWhole(file, l, a, b)
  {
    hide LifeOk, NormalLine, Lossy, Blank, Trim, WholeEntry;
    EmittedWhole(file, start, l, a, b);
    HandedWhole(file, start, l, a, b);
  }

  /** Some life handed the line over whole. */
  ghost predicate HandedOver(w: World, a: nat, b: nat)
    requires a <= b <= |w.file|
  {
    exists l :: l in Lives(w) && GivesWhole(w.file, l, a, b)
  }

  /** Crashes and lines: in every run a non-blank line of the file was handed over whole if and
      only if some life carries it: one that read it to its end from its beginning, or from a
      place where the rest normalizes the same, or was flushed where only blanks follow. */
  lemma WholeExactly(file: seq<Byte>, start: nat, events: seq<Event>, a: nat, b: nat)
    requires Readable(file, start, events)
    requires var f := Run(Start(file, start), events).file; IsLine(f, start, a, b) && NormalLine(f[a..b]) != ""
    ensures var w := Run(Start(file, start), events);
            HandedOver(w, a, b) <==> exists l :: l in Lives(w) && CarriesWhole(w.file, l, a, b)
  {
    hide Run, Readable, NormalLine, LifeOk, GivesWhole, CarriesWhole, Lives;
    var w := Run(Start(file, start), events);
    forall l | l in Lives(w) ensures GivesWhole(w.file, l, a, b) <==> CarriesWhole(w.file, l, a, b) {
      var k :| 0 <= k < |Lives(w)| && Lives(w)[k] == l;
      LivesEmit(file, start, events, k);
      LifeWhole(w.file, start, l, a, b);
    }
  }

  // ---------------------------------------------------------------- fragments

  /** The entry is a whole line of the file. */
  ghost predicate OfLine(file: seq<Byte>, start: nat, e: Entry) {
    exists a: nat :: IsLine(file, start, a, e.to) && a <= e.from && e.text == NormalLine(file[a..e.to])
  }

  /** An entry that begins after its life did is a line of the file. */
  lemma LaterIsLine(file: seq<Byte>, start: nat, born: nat, e: Entry)
    requires start <= born < e.from && IsLine(file, born, e.from, e.to) && e.text == NormalLine(file[e.from..e.to])
    ensures OfLine(file, start, e)
  {
    hide NormalLine;
    assert IsLine(file, start, e.from, e.to);
  }

  /** The first entry of a life is one exactly when the line reads the same from its beginning. */
  lemma FirstIsLine(file: seq<Byte>, start: nat, e: Entry)
    requires start <= e.from && IsLine(file, e.from, e.from, e.to) && e.text == NormalLine(file[e.from..e.to])
    ensures e.from < e.to <= |file|
    ensures OfLine(file, start, e) <==>
              NormalLine(Rest(file[start..e.from]) + file[e.from..e.to]) == NormalLine(file[e.from..e.to])
  {
    hide NormalLine, Rest;
    JoinedLine(file, start, e.from, e.to);
    var a := e.from - |Rest(file[start..e.from])|;
    if OfLine(file, start, e) {
      var c: nat :| IsLine(file, start, c, e.to) && c <= e.from && e.text == NormalLine(file[c..e.to]);
      SameEnd(file, start, a, c, e.to);
    }
  }

  /** The life began inside a line and its first entry is not that line. */
  predicate Tears(file: seq<Byte>, start: nat, l: Life)
    requires start <= l.born <= l.end <= |file|
  {
    !Harmless(file, start, l.born, l.end) && NormalLine(CompleteLines(file[l.born..l.end])[0]) != ""
  }

  lemma LifeTears(file: seq<Byte>, start: nat, l: Life)
    requires LifeOk(l, start, file)
    ensures start <= l.born <= l.end <= |file|
    ensures (exists e :: e in l.emitted && !OfLine(file, start, e)) <==> Tears(file, start, l)
  {
    hide At, CompleteLines, Items, NormalLine, PendingEntry, IsLine, Rest, OfLine;
    LifeAt(l, start, file);
    AtBounds(file, start, l.born);
    FirstLineIs(file, l.born, l.end);
    var lines := CompleteLines(file[l.born..l.end]);
    if Tears(file, start, l) {
      var e := Entry(l.born, l.born + |lines[0]|, NormalLine(lines[0]));
      ItemIff(file, l.born, l.end, e);
      FirstIsLine(file, start, e);
      assert e in l.emitted && !OfLine(file, start, e);
    }
    if exists e :: e in l.emitted && !OfLine(file, start, e) {
      var e :| e in l.emitted && !OfLine(file, start, e);
      ItemIff(file, l.born, l.end, e);
      LineForward(file, l.born, e.from, e.to);
      if e.from > l.born {
        LaterIsLine(file, start, l.born, e);
      } else {
        FirstIsLine(file, start, e);
        SoleFirst(file, l.born, l.end, e.to);
        NothingBefore(Rest(file[start..l.born]), lines[0]);
      }
    }
  }

  lemma NothingBefore(x: seq<Byte>, y: seq<Byte>)
    ensures x == [] ==> x + y == y
  {
  }

  lemma SoleFirst(file: seq<Byte>, born: nat, end: nat, y: nat)
    requires IsLine(file, born, born, y) && y <= end <= |file|
    ensures CompleteLines(file[born..end]) != [] && CompleteLines(file[born..end])[0] == file[born..y]
  {
    hide CompleteLines;
    FirstLineIs(file, born, end);
    var l := CompleteLines(file[born..end]);
    if l == [] {
      NoLineHere(file, born, end, born, y);
    } else {
      LineOrLater(file, born, born + |l[0]|, born, y);
    }
  }

  /** Crashes and fragments: in every run a life emitted an entry that is no line of the file
      if and only if it began inside a line that reads differently from there and is not
      blank from there. */
  lemma FragmentExactly(file: seq<Byte>, start: nat, events: seq<Event>, k: nat)
    requires Readable(file, start, events) && k < |Lives(Run(Start(file, start), events))|
    ensures var w := Run(Start(file, start), events);
            var l := Lives(w)[k];
            && start <= l.born <= l.end <= |w.file|
            && ((exists e :: e in l.emitted && !OfLine(w.file, start, e)) <==> Tears(w.file, start, l))
  {
    hide Run, Readable, LifeOk, OfLine, Tears, Lives;
    LivesEmit(file, start, events, k);
    var w := Run(Start(file, start), events);
    LifeTears(w.file, start, Lives(w)[k]);
  }

  // ---------------------------------------------------------------- when crashes cost nothing

  /** Some life read the line that ends at `b` to its end. */
  predicate ReadToEnd(w: World, b: nat) { exists l :: l in Lives(w) && l.born < b <= l.end }

  /** Every non-blank line read to its end was handed over whole, and no entry emitted for a
      line is anything else. */
  ghost predicate Clean(w: World, start: nat) {
    && (forall a: nat, b: nat :: IsLine(w.file, start, a, b) && NormalLine(w.file[a..b]) != "" && ReadToEnd(w, b) ==>
          HandedOver(w, a, b))
    && (forall l, e :: l in Lives(w) && e in l.emitted ==> OfLine(w.file, start, e))
  }

  /** The life began where nothing is lost, or what it cut short is blank from there on and
      another life carries it whole. */
  ghost predicate Mended(w: World, start: nat, l: Life)
    requires start <= l.born <= l.end <= |w.file|
  {
    || Harmless(w.file, start, l.born, l.end)
    || (var x, first := Rest(w.file[start..l.born]), CompleteLines(w.file[l.born..l.end])[0];
        NormalLine(first) == "" && CarriedWhole(w, l.born - |x|, l.born + |first|))
  }

  ghost predicate CarriedWhole(w: World, a: int, b: int) {
    0 <= a <= b <= |w.file| && exists l :: l in Lives(w) && CarriesWhole(w.file, l, a, b)
  }

  ghost predicate AllOk(w: World, start: nat) { forall l :: l in Lives(w) ==> LifeOk(l, start, w.file) }

  lemma OkBounds(w: World, start: nat, l: Life)
    requires AllOk(w, start) && l in Lives(w)
    ensures LifeOk(l, start, w.file) && start <= l.born <= l.end <= |w.file|
  {
    hide At, Items, CompleteLines, PendingEntry;
    AtBounds(w.file, start, l.born);
    AtBounds(w.file, start, l.end);
  }

  lemma CarriedIff(w: World, start: nat, a: nat, b: nat)
    requires AllOk(w, start) && IsLine(w.file, start, a, b) && NormalLine(w.file[a..b]) != ""
    ensures HandedOver(w, a, b) <==> CarriedWhole(w, a, b)
  {
    hide LifeOk, NormalLine, GivesWhole, CarriesWhole, Lives;
    forall l | l in Lives(w) ensures GivesWhole(w.file, l, a, b) <==> CarriesWhole(w.file, l, a, b) {
      LifeWhole(w.file, start, l, a, b);
    }
  }

  /** A line cut by a life that is not harmless is the one that life began in. */
  lemma CutLine(file: seq<Byte>, start: nat, l: Life, a: nat, b: nat)
    requires IsLine(file, start, a, b) && start <= l.born < b <= l.end <= |file|
    requires NormalLine(file[Max(a, l.born)..b]) != NormalLine(file[a..b])
    ensures var x, lines := Rest(file[start..l.born]), CompleteLines(file[l.born..l.end]);
            !Harmless(file, start, l.born, l.end) && l.born - |x| == a && l.born + |lines[0]| == b
  {
    hide NormalLine, Rest, CompleteLines;
    LineOfLife(file, start, l.born, a, b);
    forall i | a <= i < l.born ensures file[i] != NEWLINE { NoNewlineAt(file, a, b - 1, i); }
    PendingFrom(file, start, a, l.born);
    SoleFirst(file, l.born, l.end, b);
    assert file[a..l.born] + file[l.born..b] == file[a..b];
  }

  lemma CarriesFrom(file: seq<Byte>, l: Life, a: nat, b: nat)
    requires a < b <= |file| && l.born < b <= l.end && NormalLine(file[Max(a, l.born)..b]) == NormalLine(file[a..b])
    ensures CarriesWhole(file, l, a, b)
  {
    hide NormalLine;
  }

  lemma LineCarried(w: World, start: nat, a: nat, b: nat)
    requires AllOk(w, start) && IsLine(w.file, start, a, b) && NormalLine(w.file[a..b]) != "" && ReadToEnd(w, b)
    requires forall l :: l in Lives(w) && start <= l.born <= l.end <= |w.file| ==> Mended(w, start, l)
    ensures HandedOver(w, a, b)
  {
    hide LifeOk, NormalLine, Lives, AllOk, IsLine, Rest, CompleteLines, Harmless, CarriesWhole, HandedOver;
    LineForward(w.file, start, a, b);
    var l :| l in Lives(w) && l.born < b <= l.end;
    OkBounds(w, start, l);
    var m := Max(a, l.born);
    if NormalLine(w.file[m..b]) == NormalLine(w.file[a..b]) {
      CarriesFrom(w.file, l, a, b);
    } else {
      CutLine(w.file, start, l, a, b);
      assert Mended(w, start, l);
    }
    CarriedIff(w, start, a, b);
  }

  lemma CleanNoTear(w: World, start: nat, l: Life)
    requires AllOk(w, start) && Clean(w, start) && l in Lives(w) && start <= l.born <= l.end <= |w.file|
    ensures !Tears(w.file, start, l)
  {
    hide LifeOk, Lives, AllOk, OfLine, HandedOver, ReadToEnd, NormalLine, Tears, IsLine;
    OkBounds(w, start, l);
    LifeTears(w.file, start, l);
  }

  lemma CleanGives(w: World, start: nat, l: Life, a: nat, b: nat)
    requires AllOk(w, start) && Clean(w, start) && l in Lives(w) && l.born < b <= l.end
    requires IsLine(w.file, start, a, b) && NormalLine(w.file[a..b]) != ""
    ensures CarriedWhole(w, a, b)
  {
    hide LifeOk, Lives, AllOk, OfLine, HandedOver, NormalLine, CarriedWhole;
    assert ReadToEnd(w, b);
    CarriedIff(w, start, a, b);
  }

  lemma CleanMended(w: World, start: nat, l: Life)
    requires AllOk(w, start) && Clean(w, start) && l in Lives(w) && start <= l.born <= l.end <= |w.file|
    ensures Mended(w, start, l)
  {
    hide LifeOk, NormalLine, Lives, AllOk, Rest, CompleteLines, Clean, CarriedWhole;
    CleanNoTear(w, start, l);
    FirstLineIs(w.file, l.born, l.end);
    if !Harmless(w.file, start, l.born, l.end) {
      var x, first := Rest(w.file[start..l.born]), CompleteLines(w.file[l.born..l.end])[0];
      var b := l.born + |first|;
      JoinedLine(w.file, start, l.born, b);
      CleanGives(w, start, l, l.born - |x|, b);
    }
  }

  lemma NoFragments(w: World, start: nat, l: Life, e: Entry)
    requires AllOk(w, start) && l in Lives(w) && e in l.emitted && start <= l.born <= l.end <= |w.file|
    requires Mended(w, start, l)
    ensures OfLine(w.file, start, e)
  {
    hide LifeOk, NormalLine, Lives, Rest, CompleteLines, OfLine, CarriedWhole;
    OkBounds(w, start, l);
    LifeTears(w.file, start, l);
  }

  /** Crashes, exactly: in every run with any saves and restarts, every non-blank line that was
      read to its end was handed over whole and nothing but whole lines was emitted, if and
      only if every life began where nothing is lost: at the end of a line, or with no line
      ending before the life did, or inside a line that reads the same from there, or inside
      one that is blank from there and that another life carries. */
  lemma CrashExactly(file: seq<Byte>, start: nat, events: seq<Event>)
    requires Readable(file, start, events)
    ensures var w := Run(Start(file, start), events);
            && (forall l :: l in Lives(w) ==> start <= l.born <= l.end <= |w.file|)
            && (Clean(w, start) <==> forall l :: l in Lives(w) ==> Mended(w, start, l))
  {
    hide Run, Readable, LifeOk, Lives, Mended, OfLine, HandedOver, NormalLine, IsLine, ReadToEnd;
    var w := Run(Start(file, start), events);
    forall l | l in Lives(w) ensures LifeOk(l, start, w.file) {
      var k :| 0 <= k < |Lives(w)| && Lives(w)[k] == l;
      LivesEmit(file, start, events, k);
    }
    forall l | l in Lives(w) ensures start <= l.born <= l.end <= |w.file| { OkBounds(w, start, l); }
    if Clean(w, start) {
      forall l | l in Lives(w) ensures Mended(w, start, l) { CleanMended(w, start, l); }
    } else if forall l :: l in Lives(w) ==> Mended(w, start, l) {
      forall a: nat, b: nat | IsLine(w.file, start, a, b) ensures b <= |w.file| { LineForward(w.file, start, a, b); }
      MendedClean(w, start);
    }
  }

  lemma MendedClean(w: World, start: nat)
    requires AllOk(w, start) && forall l :: l in Lives(w) ==> start <= l.born <= l.end <= |w.file| && Mended(w, start, l)
    ensures Clean(w, start)
  {
    hide LifeOk, Lives, Mended, OfLine, HandedOver, NormalLine, ReadToEnd, AllOk;
    forall a: nat, b: nat | IsLine(w.file, start, a, b) && NormalLine(w.file[a..b]) != "" && ReadToEnd(w, b)
      ensures HandedOver(w, a, b)
    {
      LineCarried(w, start, a, b);
    }
    forall l, e | l in Lives(w) && e in l.emitted ensures OfLine(w.file, start, e) {
      NoFragments(w, start, l, e);
    }
  }

  // ---------------------------------------------------------------- no gaps

  /** No restart before the first save. */
  predicate Guarded(events: seq<Event>) { forall i :: 0 <= i < |events| && events[i].Restart? ==> Save in events[..i] }

  /** Some life read the byte at `x`. */
  predicate Reads(lives: seq<Life>, x: nat) { exists l :: l in lives && l.born <= x < l.end }

  ghost predicate Covers(lives: seq<Life>, start: nat, p: nat) { forall x :: start <= x < p ==> Reads(lives, x) }

  ghost predicate NoGap(w: World, start: nat) {
    && Covers(w.past, start, w.born) && w.born <= w.tail.pos
    && (w.saved.Some? ==> Covers(Lives(w), start, w.saved.value))
  }

  lemma StepForward(t: Tail, file: seq<Byte>, accept: bool)
    requires t.pos <= |file|
    ensures t.pos <= Step(t, file, accept).pos
  {
    hide NextChunk, Normalize, Lossy, PushPartial;
  }

  lemma CoversMore(a: seq<Life>, b: seq<Life>, start: nat, p: nat)
    requires Covers(a, start, p)
    requires forall l :: l in a ==> exists m :: m in b && m.born <= l.born && l.end <= m.end
    ensures Covers(b, start, p)
  {
    forall x | start <= x < p ensures Reads(b, x) {
      assert Reads(a, x);
      var l :| l in a && l.born <= x < l.end;
      var m :| m in b && m.born <= l.born && l.end <= m.end;
    }
  }

  lemma CoversOn(past: seq<Life>, l: Life, start: nat)
    requires Covers(past, start, l.born)
    ensures Covers(past + [l], start, l.end)
  {
    var b := past + [l];
    forall x | start <= x < l.end ensures Reads(b, x) {
      if x < l.born {
        assert Reads(past, x);
        var m :| m in past && m.born <= x < m.end;
        assert m in b;
      } else {
        assert l in b;
      }
    }
  }

  lemma NextNoGap(w: World, start: nat, e: Event)
    requires NoGap(w, start) && (e.Restart? ==> w.saved.Some?)
    ensures NoGap(Next(w, e), start)
  {
    hide Covers, Step, HandedAt;
    var v := Next(w, e);
    CoversOn(w.past, Current(w), start);
    match e {
      case Grow(more) =>
      case Read(accept) =>
        if w.tail.pos <= |w.file| {
          StepForward(w.tail, w.file, accept);
          if w.saved.Some? { SameOrLonger(w, v, start); }
        }
      case FlushPartial =>
        CoversOn(w.past, Last(v.past), start);
        if w.saved.Some? { SameOrLonger(w, v, start); }
      case Save =>
      case Restart =>
        if w.saved.Some? { SameOrLonger(w, v, start); CoversLess(v.past, start, w.saved.value, v.born); }
    }
  }

  lemma CoversLess(lives: seq<Life>, start: nat, p: nat, q: nat)
    requires Covers(lives, start, p) && q <= p
    ensures Covers(lives, start, q)
  {
  }

  lemma SameOrLonger(w: World, v: World, start: nat)
    requires w.saved.Some? && Covers(Lives(w), start, w.saved.value)
    requires (v.past == w.past && v.born == w.born && w.tail.pos <= v.tail.pos)
             || (exists l: Life :: v.past == w.past + [l] && l.born == w.born && l.end == w.tail.pos)
    ensures Covers(Lives(v), start, w.saved.value)
    ensures v.past == Lives(w) ==> Covers(v.past, start, w.saved.value)
  {
    hide Covers;
    forall l | l in Lives(w) ensures exists m :: m in Lives(v) && m.born <= l.born && l.end <= m.end {
      if l in w.past {
        assert l in v.past && l in Lives(v);
      } else if v.past == w.past {
        assert Current(v) in Lives(v);
      } else {
        var k :| v.past == w.past + [k] && k.born == w.born && k.end == w.tail.pos;
        assert k in v.past && k in Lives(v);
      }
    }
    CoversMore(Lives(w), Lives(v), start, w.saved.value);
  }

  lemma {:induction false} RunNoGap(file: seq<Byte>, start: nat, events: seq<Event>)
    requires Guarded(events)
    ensures var w := Run(Start(file, start), events); NoGap(w, start) && (Save in events ==> w.saved.Some?)
  {
    hide NoGap, Next;
    if events == [] {
      StartNoGap(file, start);
    } else {
      var p, e := Init(events), Last(events);
      assert forall i :: 0 <= i < |p| ==> p[i] == events[i] && p[..i] == events[..i];
      RunNoGap(file, start, p);
      assert events[..|events| - 1] == p && events == p + [e];
      NextNoGap(Run(Start(file, start), p), start, e);
      SavedStays(Run(Start(file, start), p), e);
    }
  }

  lemma StartNoGap(file: seq<Byte>, start: nat)
    ensures NoGap(Start(file, start), start)
  {
  }

  lemma SavedStays(w: World, e: Event)
    ensures w.saved.Some? || e == Save ==> Next(w, e).saved.Some?
  {
    hide Step, HandedAt;
  }

  /** With restarts only after a save no byte up to `pos` was skipped: every line that ends
      there was read to its end by some life. */
  lemma EveryLineRead(file: seq<Byte>, start: nat, events: seq<Event>, a: nat, b: nat)
    requires Guarded(events)
    requires var w := Run(Start(file, start), events); IsLine(w.file, start, a, b) && b <= w.tail.pos
    ensures ReadToEnd(Run(Start(file, start), events), b)
  {
    hide Run, Guarded;
    RunNoGap(file, start, events);
    var w := Run(Start(file, start), events);
    CoversOn(w.past, Current(w), start);
    assert Reads(Lives(w), b - 1);
    var l :| l in Lives(w) && l.born <= b - 1 < l.end;
  }

  // ---------------------------------------------------------------- instances

  /** A first life that has read "ab". */
  function AbRead(): World { Run(Start([], 0), [Grow([0x61, 0x62]), Read(true)]) }

  /** "c\n" arrives and is read. */
  function ThenC(v: World): World { Run(v, [Grow([0x63, NEWLINE]), Read(true)]) }

  /** A crash that loses text: "ab" is read and the offset saved before "c\n" arrives. */
  lemma PartialLostByCrash()
    ensures var u := ThenC(Next(Next(AbRead(), Save), Restart));
            u.tail.pos == |u.file| && Out(u) == ["c"] && Entries(CompleteLines(u.file)) == ["abc"]
  {
    hide AbRead, ThenC, Entries, CompleteLines, Received;
    FirstLife();
    var w := AbRead();
    var v := Next(Next(w, Save), Restart);
    SecondLife(v);
    var u := ThenC(v);
    assert Lives(u) == [Current(w)] + [Current(u)];
    TwoReceived(Current(w), Current(u));
    assert [] + [] + ["c"] + [] == ["c"];
  }

  /** A crash that adds text: the life that saved inside the line goes on to hand it over whole
      before it crashes, and the next one hands the rest over again. */
  lemma FragmentAddedByCrash()
    ensures var u := Next(Next(ThenC(Next(AbRead(), Save)), Restart), Read(true));
            u.tail.pos == |u.file| && Out(u) == ["abc", "c"] && Entries(CompleteLines(u.file)) == ["abc"]
  {
    hide AbRead, ThenC, Entries, CompleteLines, Received, Step;
    FirstLife();
    var s := Next(AbRead(), Save);
    FirstLifeEnds(s);
    var w := ThenC(s);
    var u := Next(Next(w, Restart), Read(true));
    var ab: seq<Byte>, c: seq<Byte> := [0x61, 0x62], [0x63, NEWLINE];
    assert w.file == ab + c;
    StepLine(ab, c);
    FileEntries();
    assert Lives(u) == [Current(w)] + [Current(u)];
    TwoReceived(Current(w), Current(u));
    assert ["abc"] + [] + ["c"] + [] == ["abc", "c"];
  }

  lemma TwoReceived(a: Life, b: Life)
    ensures Received([a] + [b]) == TextsOf(a.emitted) + TextsOf(a.handed) + TextsOf(b.emitted) + TextsOf(b.handed)
  {
    hide TextsOf;
    assert Init([a] + [b]) == [a] && Init([a]) == [];
    assert Received([]) == [] && Received([a]) == [] + TextsOf(a.emitted) + TextsOf(a.handed);
  }

  lemma FirstLife()
    ensures var w := AbRead();
            && w.tail == Tail(2, "ab", [[0x61, 0x62]], [], []) && w.file == [0x61, 0x62]
            && w.past == [] && w.born == 0 && TextsOf(w.tail.emitted) == []
  {
    hide Run, Step, PushPartial;
    var ab: seq<Byte> := [0x61, 0x62];
    RunTwo(Start([], 0), Grow(ab), Read(true));
    assert [] + ab == ab;
    StepPending(Fresh(0), ab);
    PendingText();
  }

  lemma FileEntries()
    ensures var f: seq<Byte> := [0x61, 0x62] + [0x63, NEWLINE]; Entries(CompleteLines(f)) == ["abc"]
  {
    hide Entries, CompleteLines, NormalLine;
    var f: seq<Byte> := [0x61, 0x62, 0x63, NEWLINE];
    assert [0x61, 0x62] + [0x63, NEWLINE] == f;
    LineOfChunk(f);
    EntriesOne(f);
    TextOf();
  }

  lemma SecondLife(v: World)
    requires v.file == [0x61, 0x62] && v.tail == Fresh(2)
    ensures var u := ThenC(v);
            && u.tail.pos == |u.file| && TextsOf(u.tail.emitted) == ["c"] && u.past == v.past
            && Entries(CompleteLines(u.file)) == ["abc"]
  {
    hide Run, Step, Entries, CompleteLines, TextsOf;
    var ab: seq<Byte>, c: seq<Byte> := [0x61, 0x62], [0x63, NEWLINE];
    RunTwo(v, Grow(c), Read(true));
    StepLine(ab, c);
    FileEntries();
  }

  /** The same life reads the rest of its line. */
  lemma FirstLifeEnds(v: World)
    requires v.file == [0x61, 0x62] && v.tail == Tail(2, "ab", [[0x61, 0x62]], [], [])
    ensures var u := ThenC(v);
            && u.tail.pos == 4 && TextsOf(u.tail.emitted) == ["abc"] && u.past == v.past && u.born == v.born
            && u.saved == v.saved && u.file == [0x61, 0x62] + [0x63, NEWLINE]
  {
    hide Run, NextChunk, Lossy, Normalize, Flat;
    var ab: seq<Byte>, c: seq<Byte> := [0x61, 0x62], [0x63, NEWLINE];
    RunTwo(v, Grow(c), Read(true));
    assert (ab + c)[2..] == c;
    ChunkIsLine(c);
    assert Init(c) == [0x63];
    TextOf();
    assert "ab" + "c" == "abc";
  }

  lemma RunTwo(w: World, a: Event, b: Event)
    ensures Run(w, [a, b]) == Next(Next(w, a), b)
  {
    hide Next;
    assert Init([a, b]) == [a] && Init([a]) == [];
    assert Run(w, [a]) == Next(w, a);
  }

  lemma PendingText()
    ensures PushPartial("", [0x61, 0x62]) == "ab" && Handed("ab") == ["ab"]
  {
    hide Encode, Lossy, Floor, Trim, Blank;
    var b: seq<Byte> := [0x61, 0x62];
    AsciiWhole(b);
    AbText();
    NothingFits(0);
    assert "" + "ab" == "ab" && Floor("ab", MAX_PARTIAL_BYTES) == "ab";
  }

  lemma AbText()
    ensures Lossy([0x61, 0x62]) == "ab" && !Blank("ab") && Trim("ab") == "ab"
  {
    hide Encode, EncodeChar;
    var b: seq<Byte> := [0x61, 0x62];
    assert b[1..] == [0x62] && [0x62 as Byte][1..] == [];
    assert Lossy(b[1..]) == "b";
    assert !IsWhitespace("ab"[0]) && !IsWhitespace("ab"[1]);
  }

  lemma StepPending(t: Tail, b: seq<Byte>)
    requires t.pos == 0 && NEWLINE !in b && b != []
    ensures var s := Step(t, b, true);
            s.pos == |b| && s.emitted == t.emitted && s.partial == PushPartial(t.partial, b) && s.chunks == t.chunks + [b]
            && s.lines == t.lines
  {
    hide PushPartial, NextChunk;
    assert b[0..] == b;
    NoNewlineChunk(b);
    assert b[|b| - 1] in b;
  }

  lemma StepLine(a: seq<Byte>, c: seq<Byte>)
    requires c == [0x63, NEWLINE]
    ensures var s := Step(Fresh(|a|), a + c, true); s.pos == |a| + 2 && TextsOf(s.emitted) == ["c"]
  {
    hide NextChunk, Lossy, Normalize;
    assert (a + c)[|a|..] == c;
    ChunkIsLine(c);
    assert Init(c) == [0x63];
    TextOf();
    assert "" + Lossy([0x63]) == Lossy([0x63]);
  }

  lemma TextOf()
    ensures Lossy([0x63]) == "c" && Normalize("c") == "c" && Normalize("abc") == "abc"
    ensures NormalLine([0x61, 0x62, 0x63, NEWLINE]) == "abc"
  {
    hide Encode, EncodeChar;
    var b: seq<Byte> := [0x61, 0x62, 0x63];
    assert b[1..] == [0x62, 0x63] && b[1..][1..] == [0x63] && [0x63 as Byte][1..] == [];
    assert Lossy([0x63]) == "c";
    assert Lossy(b[1..]) == "bc";
    assert Lossy(b) == "abc";
    assert Body([0x61, 0x62, 0x63, NEWLINE]) == b;
  }

  // ---------------------------------------------------------------- clean shutdown

  lemma ThreeReceived(a: Life, b: Life, c: Life)
    requires b.emitted == [] && b.handed == []
    ensures Received([a] + [b] + [c]) == TextsOf(a.emitted) + TextsOf(a.handed) + TextsOf(c.emitted) + TextsOf(c.handed)
  {
    hide TextsOf;
    var l := [a] + [b] + [c];
    assert Init(l) == [a] + [b] && Last(l) == c;
    TwoReceived(a, b);
    NoTexts();
    var r := TextsOf(a.emitted) + TextsOf(a.handed);
    assert r + [] + [] == r;
  }

  lemma HandedTexts(t: Tail)
    ensures TextsOf(HandedAt(t)) == Handed(t.partial)
  {
    hide Trim, Blank, Flat;
  }

  /** A clean shutdown: the pending text is handed over, the offset saved, and the next life
      reads on. The entries of the two lives are those of the file if and only if the cut is
      harmless in the sense of `FlushHarmless`; otherwise one line is handed over in two
      pieces. */
  lemma ShutdownExactly(file: seq<Byte>, start: nat, before: seq<Event>, after: seq<Event>)
    requires start <= |file| && Whole(file[start..]) && Live(before) && Live(after)
    requires WholeGrowth(before) && WholeGrowth(after)
    requires var w := Run(Start(file, start), before);
             var f := Run(Next(Next(Next(w, FlushPartial), Save), Restart), after).file;
             start <= |f| && C.LinesFit(f[start..])
    ensures var w := Run(Start(file, start), before);
            var u := Run(Next(Next(Next(w, FlushPartial), Save), Restart), after);
            var p := w.tail.pos;
            && start <= p <= u.tail.pos <= |u.file|
            && (Out(u) == Entries(CompleteLines(u.file[start..u.tail.pos]))
                <==> FlushHarmless(u.file, start, p, u.tail.pos))
  {
    hide Whole, C.LinesFit, Run, CompleteLines, Rest, Lossy, WholeGrowth, Items, Entries, Live, Inv, FlushHarmless,
         HandedAt, Handed, Received, TextsOf, PendingEntry, Fresh;
    var w := Run(Start(file, start), before);
    var v := Next(Next(Next(w, FlushPartial), Save), Restart);
    var u := Run(v, after);
    var p := w.tail.pos;
    FileGrows(Start(file, start), before);
    FileGrows(v, after);
    FreshIs(p);
    assert v.file == w.file && Start(file, start).past == [];
    C.FitPrefix(w.file, u.file, start);
    StartInv(file, start);
    RunInv(Start(file, start), start, before);
    LiveSame(Start(file, start), before);
    CurrentOk(w, start);
    NextInv(w, start, FlushPartial);
    NextInv(Next(w, FlushPartial), start, Save);
    NextInv(Next(Next(w, FlushPartial), Save), start, Restart);
    RunInv(v, start, after);
    LiveSame(v, after);
    CurrentOk(u, start);
    assert v.born == p;
    assert u.file[start..p] == w.file[start..p];
    ShutdownLists(w, u, start);
    HandedExactly(u.file, start, p, u.tail.pos);
  }

  lemma FreshIs(p: nat)
    ensures Fresh(p).pos == p && Fresh(p).emitted == []
  {
  }

  lemma ShutdownLists(w: World, u: World, start: nat)
    requires w.born == start <= w.tail.pos == u.born <= u.tail.pos <= |u.file| && w.file <= u.file && w.past == []
    requires w.tail.pos <= |w.file|
    requires u.past == [Current(w).(handed := HandedAt(w.tail), flushed := true)] + [Life(u.born, u.born, [], [], false)]
    requires w.tail.emitted == Items(start, CompleteLines(w.file[start..w.tail.pos]))
    requires w.tail.partial == Lossy(Rest(w.file[start..w.tail.pos]))
    requires u.tail.emitted == Items(u.born, CompleteLines(u.file[u.born..u.tail.pos]))
    ensures Out(u) == Entries(CompleteLines(u.file[start..u.born])) + Handed(Lossy(Rest(u.file[start..u.born])))
                      + Entries(CompleteLines(u.file[u.born..u.tail.pos]))
  {
    hide CompleteLines, Rest, Lossy, Items, Entries, HandedAt, Handed, Received, TextsOf;
    var p := u.born;
    assert u.file[start..p] == w.file[start..p];
    ItemTexts(start, CompleteLines(u.file[start..p]));
    ItemTexts(p, CompleteLines(u.file[p..u.tail.pos]));
    HandedTexts(w.tail);
    var a := Current(w).(handed := HandedAt(w.tail), flushed := true);
    ThreeReceived(a, Life(p, p, [], [], false), Current(u));
    NoTexts();
    assert Out(u) == TextsOf(a.emitted) + TextsOf(a.handed) + TextsOf(u.tail.emitted) + [];
  }

  lemma NoTexts()
    ensures TextsOf([]) == []
  {
  }

  /** An instance: "ab" is pending at the shutdown, and "c\n" arrives after it. */
  lemma LineSplitByShutdown()
    ensures var u := ThenC(Next(Next(Next(AbRead(), FlushPartial), Save), Restart));
            u.tail.pos == |u.file| && Out(u) == ["ab", "c"] && Entries(CompleteLines(u.file)) == ["abc"]
  {
    hide AbRead, ThenC, Handed, HandedAt, Entries, CompleteLines, Received, TextsOf;
    FirstLife();
    PendingText();
    var w := AbRead();
    var v := Next(Next(Next(w, FlushPartial), Save), Restart);
    SecondLife(v);
    var u := ThenC(v);
    var a := Current(w).(handed := HandedAt(w.tail), flushed := true);
    HandedTexts(w.tail);
    assert Lives(u) == [a] + [Life(2, 2, [], [], false)] + [Current(u)];
    ThreeReceived(a, Life(2, 2, [], [], false), Current(u));
    NoTexts();
    assert [] + ["ab"] + ["c"] + [] == ["ab", "c"];
  }
}
