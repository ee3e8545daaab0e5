/** Whole runs of the multiline tailer on one inode: growth, polls cut anywhere, refusals,
    timeouts, flushes, truncation, offset saves and restarts. */
module MultilineRuns {
  import opened Options
  import opened Utf8
  import opened Lines
  import opened Assembly
  import opened Multiline

  /** What can happen to one file. `Read` is a single turn of `read_loop`, so a run may grow
      the file, end a poll or be refused between any two lines. */
  datatype Event =
    | Grow(more: seq<Byte>)
    | Read(accept: bool, now: nat)
    | Expire(accept: bool, now: nat)
    | FinalFlush(accept: bool)
    | Truncate(contents: seq<Byte>)
    | Save
    | Restart

  /** One uninterrupted stretch of tailing, from where it began to where it stopped. */
  datatype Life = Life(born: nat, end: nat, log: seq<Shipped>)

  /** `base` is the offset from which coverage is owed; it moves only when a restart finds no
      usable offset, or the file is truncated. `stale` says the saved offset was written
      before a truncation. */
  datatype World = World(
    file: seq<Byte>, tail: Tail, saved: Option<nat>, stale: bool, born: nat, base: nat, past: seq<Life>)

  function Start(file: seq<Byte>, pos: nat): World { World(file, Fresh(pos), None, false, pos, pos, []) }

  /** The offset a discovered file is read from: the saved one capped by the length, or the
      end of the file. */
  function ResumeAt(saved: Option<nat>, length: nat): nat {
    match saved
    case Some(p) => if p <= length then p else length
    case None => length
  }

  function Next(w: World, e: Event, ml: Opts): World {
    match e
    case Grow(more) => w.(file := w.file + more)
    case Read(accept, now) =>
      if w.tail.readAhead <= |w.file| then w.(tail := Step(w.tail, w.file, accept, ml, now)) else w
    case Expire(accept, now) => w.(tail := FlushIfExpired(w.tail, accept, ml, now))
    case FinalFlush(accept) => w.(tail := Flush(w.tail, accept, ml).0)
    case Truncate(contents) =>
      // Noticed because the length fell below `pos`: the in-flight record is discarded.
      if |contents| < w.tail.pos
      then World(contents, Fresh(0), w.saved, w.saved.Some?, 0, 0, [])
      else w
    case Save => w.(saved := Some(w.tail.pos), stale := false)
    case Restart =>
      var p := ResumeAt(w.saved, |w.file|);
      if w.saved.Some? && !w.stale
      then w.(tail := Fresh(p), born := p, past := w.past + [Life(w.born, w.tail.pos, w.tail.log)])
      else w.(tail := Fresh(p), born := p, base := p, past := [])
  }

  function Run(w: World, events: seq<Event>, ml: Opts): World {
    if events == [] then w else Next(Run(w, Init(events), ml), Last(events), ml)
  }

  // ---------------------------------------------------------------- the invariant

  /** A shipped record carries exactly its bytes of the file. */
  predicate EntryOk(e: Shipped, file: seq<Byte>, ml: Opts) {
    && e.from < e.to <= |file|
    && LinesBytes(e.lines) == file[e.from..e.to] && LinesOk(e.lines)
    && e.text == RecordText(e.lines, ml.maxBytes)
  }

  predicate LogOk(log: seq<Shipped>, file: seq<Byte>, ml: Opts) {
    forall i :: 0 <= i < |log| ==> EntryOk(log[i], file, ml)
  }

  /** The records follow each other without gap or overlap from `from` to `to`. */
  predicate Chain(log: seq<Shipped>, from: nat, to: nat) {
    if log == [] then from == to
    else Last(log).to == to && Last(log).from < to && Chain(Init(log), from, Last(log).from)
  }

  predicate LifeInv(t: Tail, born: nat, file: seq<Byte>, ml: Opts) {
    Tiled(t, file, ml) && Chain(t.log, born, t.pos) && LogOk(t.log, file, ml)
  }

  /** Earlier lives reach back to `base`, each resumed within the one before. */
  predicate PastOk(past: seq<Life>, base: nat, born: nat, file: seq<Byte>, ml: Opts) {
    if past == [] then base == born
    else
      var l := Last(past);
      && Chain(l.log, l.born, l.end) && LogOk(l.log, file, ml)
      && l.born <= born <= l.end
      && PastOk(Init(past), base, l.born, file, ml)
  }

  predicate Inv(w: World, ml: Opts) {
    && LifeInv(w.tail, w.born, w.file, ml)
    && PastOk(w.past, w.base, w.born, w.file, ml)
    && (w.saved.Some? && !w.stale ==> w.born <= w.saved.value <= w.tail.pos)
  }

  // ---------------------------------------------------------------- every event keeps it

  lemma {:induction false} ChainForward(log: seq<Shipped>, from: nat, to: nat)
    requires Chain(log, from, to)
    ensures from <= to
  {
    if log != [] {
      ChainForward(Init(log), from, Last(log).from);
    }
  }

  lemma ShipKeeps(t: Tail, born: nat, file: seq<Byte>, accept: bool, ml: Opts)
    requires LifeInv(t, born, file, ml)
    ensures LifeInv(Ship(t, accept).0, born, file, ml)
    ensures t.pos <= Ship(t, accept).0.pos
  {
    hide Tiled, RecordText, LinesOk, LinesBytes, Blank;
    ShipTiled(t, file, accept, ml);
    var s := Ship(t, accept).0;
    if s != t {
      var e := Last(s.log);
      assert Init(s.log) == t.log;
      assert EntryOk(e, file, ml) by { TiledEntry(t, file, ml); }
    }
  }

  lemma TiledEntry(t: Tail, file: seq<Byte>, ml: Opts)
    requires Tiled(t, file, ml) && t.recordBytes > 0
    ensures EntryOk(Shipped(t.pos, t.pos + t.recordBytes, t.lines, t.record), file, ml)
  {
    hide RecordText, LinesOk, LinesBytes;
    TiledSpans(t, file, ml);
  }

  lemma StepKeeps(t: Tail, born: nat, file: seq<Byte>, accept: bool, ml: Opts, now: nat)
    requires LifeInv(t, born, file, ml)
    ensures LifeInv(Step(t, file, accept, ml, now), born, file, ml)
    ensures t.pos <= Step(t, file, accept, ml, now).pos
  {
    hide Tiled, LogOk, Chain, NextChunk, Completed, IsStart, AppendText;
    StepTiled(t, file, accept, ml, now);
    ShipKeeps(t, born, file, accept, ml);
  }

  lemma FlushKeeps(t: Tail, born: nat, file: seq<Byte>, accept: bool, ml: Opts)
    requires LifeInv(t, born, file, ml)
    ensures LifeInv(Flush(t, accept, ml).0, born, file, ml)
    ensures t.pos <= Flush(t, accept, ml).0.pos
  {
    hide Tiled, LogOk, Chain, AppendText, Normalize, Ship;
    FoldTiled(t, file, ml);
    ShipKeeps(FoldPartial(t, ml), born, file, accept, ml);
  }

  lemma GrowLog(log: seq<Shipped>, file: seq<Byte>, more: seq<Byte>, ml: Opts)
    requires LogOk(log, file, ml)
    ensures LogOk(log, file + more, ml)
  {
    hide RecordText, LinesOk, LinesBytes;
    forall i | 0 <= i < |log| ensures EntryOk(log[i], file + more, ml) {
      var e := log[i];
      assert EntryOk(e, file, ml);
      assert (file + more)[e.from..e.to] == file[e.from..e.to];
    }
  }

  lemma {:induction false} GrowPast(past: seq<Life>, base: nat, born: nat, file: seq<Byte>, more: seq<Byte>, ml: Opts)
    requires PastOk(past, base, born, file, ml)
    ensures PastOk(past, base, born, file + more, ml)
  {
    hide LogOk, Chain;
    if past != [] {
      GrowLog(Last(past).log, file, more, ml);
      GrowPast(Init(past), base, Last(past).born, file, more, ml);
    }
  }

  lemma FreshLife(pos: nat, file: seq<Byte>, ml: Opts)
    requires pos <= |file|
    ensures LifeInv(Fresh(pos), pos, file, ml)
  {
    FreshTiled(pos, file, ml);
  }

  lemma NextKeeps(w: World, e: Event, ml: Opts)
    requires Inv(w, ml)
    ensures Inv(Next(w, e, ml), ml)
  {
    hide LifeInv, PastOk, Step, Flush, Expired, Ship, Fresh;
    var t := w.tail;
    LifeBounds(t, w.born, w.file, ml);
    match e {
      case Grow(more) =>
        GrowLife(t, w.born, w.file, more, ml);
        GrowPast(w.past, w.base, w.born, w.file, more, ml);
      case Read(accept, now) =>
        StepKeeps(t, w.born, w.file, accept, ml, now);
      case Expire(accept, now) =>
        ShipKeeps(t, w.born, w.file, accept, ml);
      case FinalFlush(accept) =>
        FlushKeeps(t, w.born, w.file, accept, ml);
      case Truncate(contents) =>
        FreshLife(0, contents, ml);
        NoPast(0, contents, ml);
      case Save =>
      case Restart =>
        var p := ResumeAt(w.saved, |w.file|);
        FreshLife(p, w.file, ml);
        NoPast(p, w.file, ml);
        FreshPos(p);
        if w.saved.Some? && !w.stale {
          RestartPast(w, p, ml);
        }
    }
  }

  lemma FreshPos(p: nat)
    ensures Fresh(p).pos == p
  {
  }

  lemma LifeBounds(t: Tail, born: nat, file: seq<Byte>, ml: Opts)
    requires LifeInv(t, born, file, ml)
    ensures born <= t.pos <= t.readAhead <= |file|
  {
    ChainForward(t.log, born, t.pos);
  }

  lemma GrowLife(t: Tail, born: nat, file: seq<Byte>, more: seq<Byte>, ml: Opts)
    requires LifeInv(t, born, file, ml)
    ensures LifeInv(t, born, file + more, ml)
  {
    hide Tiled, LogOk, Chain;
    GrowTiled(t, file, more, ml);
    GrowLog(t.log, file, more, ml);
  }

  lemma NoPast(p: nat, file: seq<Byte>, ml: Opts)
    ensures PastOk([], p, p, file, ml)
  {
  }

  lemma RestartPast(w: World, p: nat, ml: Opts)
    requires Inv(w, ml) && w.born <= p <= w.tail.pos
    ensures PastOk(w.past + [Life(w.born, w.tail.pos, w.tail.log)], w.base, p, w.file, ml)
  {
    hide Tiled, LogOk, Chain;
    var l := Life(w.born, w.tail.pos, w.tail.log);
    assert Init(w.past + [l]) == w.past && Last(w.past + [l]) == l;
  }

  lemma {:induction false} RunKeeps(w: World, events: seq<Event>, ml: Opts)
    requires Inv(w, ml)
    ensures Inv(Run(w, events, ml), ml)
  {
    hide Inv, Next;
    if events != [] {
      RunKeeps(w, Init(events), ml);
      NextKeeps(Run(w, Init(events), ml), Last(events), ml);
    }
  }

  lemma StartInv(file: seq<Byte>, pos: nat, ml: Opts)
    requires pos <= |file|
    ensures Inv(Start(file, pos), ml)
  {
    hide LifeInv;
    FreshLife(pos, file, ml);
  }

  /** The tiling, over every run: `readAhead` is `pos` plus the two pending spans, the record
      in flight is `file[pos..pos + recordBytes]`, the partial is the newline-free
      `file[pos + recordBytes..readAhead]`, its text is empty exactly when it is, and both
      texts stay within their caps however much of the file they stand for. */
  lemma TilingOverRuns(file: seq<Byte>, pos: nat, events: seq<Event>, ml: Opts)
    requires pos <= |file|
    ensures var w := Run(Start(file, pos), events, ml);
            var t := w.tail;
            && t.readAhead == t.pos + t.recordBytes + t.partialBytes <= |w.file|
            && w.file[t.pos..t.pos + t.recordBytes] == LinesBytes(t.lines)
            && w.file[t.pos + t.recordBytes..t.readAhead] == Flat(t.chunks) && NEWLINE !in Flat(t.chunks)
            && t.record == RecordText(t.lines, ml.maxBytes) && t.partial == PartialText(t.chunks)
            && (t.partial == "" <==> t.partialBytes == 0)
            && Len(t.record) <= ml.maxBytes && Len(t.partial) <= MAX_PARTIAL_BYTES
  {
    hide RecordText, PartialText, LinesBytes, Flat, Run, Start, LogOk, Chain, PastOk, Len;
    StartInv(file, pos, ml);
    RunKeeps(Start(file, pos), events, ml);
    var w := Run(Start(file, pos), events, ml);
    TiledSpans(w.tail, w.file, ml);
  }

  // ---------------------------------------------------------------- crash safety

  predicate Carries(log: seq<Shipped>, b: nat) {
    exists i :: 0 <= i < |log| && log[i].from <= b < log[i].to
  }

  lemma {:induction false} ChainCarries(log: seq<Shipped>, from: nat, to: nat, b: nat)
    requires Chain(log, from, to) && from <= b < to
    ensures Carries(log, b)
  {
    var l := Last(log);
    if l.from <= b {
      assert log[|log| - 1].from <= b < log[|log| - 1].to;
    } else {
      ChainCarries(Init(log), from, l.from, b);
      var i :| 0 <= i < |Init(log)| && Init(log)[i].from <= b < Init(log)[i].to;
      assert log[i] == Init(log)[i];
    }
  }

  /** Within one life no byte is shipped twice. */
  lemma {:induction false} ChainOnce(log: seq<Shipped>, from: nat, to: nat, i: nat, j: nat, b: nat)
    requires Chain(log, from, to) && i < |log| && j < |log|
    requires log[i].from <= b < log[i].to && log[j].from <= b < log[j].to
    ensures i == j
  {
    ChainWithin(log, from, to, i);
    ChainWithin(log, from, to, j);
    if i < |log| - 1 && j < |log| - 1 {
      ChainOnce(Init(log), from, Last(log).from, i, j, b);
    } else if i < |log| - 1 {
      ChainWithin(Init(log), from, Last(log).from, i);
    } else if j < |log| - 1 {
      ChainWithin(Init(log), from, Last(log).from, j);
    }
  }

  lemma {:induction false} ChainWithin(log: seq<Shipped>, from: nat, to: nat, i: nat)
    requires Chain(log, from, to) && i < |log|
    ensures from <= log[i].from < log[i].to <= to
  {
    if i < |log| - 1 {
      ChainWithin(Init(log), from, Last(log).from, i);
    } else {
      ChainForward(Init(log), from, Last(log).from);
    }
  }

  lemma {:induction false} PastCarries(past: seq<Life>, base: nat, born: nat, file: seq<Byte>, ml: Opts, b: nat)
    requires PastOk(past, base, born, file, ml) && base <= b < born
    ensures exists k :: 0 <= k < |past| && Carries(past[k].log, b)
  {
    var l := Last(past);
    if l.born <= b {
      ChainCarries(l.log, l.born, l.end, b);
      assert Carries(past[|past| - 1].log, b);
    } else {
      PastCarries(Init(past), base, l.born, file, ml, b);
      var k :| 0 <= k < |Init(past)| && Carries(Init(past)[k].log, b);
      assert past[k] == Init(past)[k];
    }
  }

  /** Some record shipped in this or an earlier life carries byte `b`. */
  predicate Covered(w: World, b: nat) {
    Carries(w.tail.log, b) || exists k :: 0 <= k < |w.past| && Carries(w.past[k].log, b)
  }

  /** Crash safety: in every run, every byte from `base` up to the offset that would be
      persisted has been shipped (or skipped as blank) in a record that carries exactly its
      bytes of the file, and what one life ships tiles the file from where it began. */
  lemma CrashSafety(file: seq<Byte>, pos: nat, events: seq<Event>, ml: Opts)
    requires pos <= |file|
    ensures var w := Run(Start(file, pos), events, ml);
            && w.tail.pos <= |w.file|
            && (forall b :: w.base <= b < w.tail.pos ==> Covered(w, b))
            && LogOk(w.tail.log, w.file, ml) && Chain(w.tail.log, w.born, w.tail.pos)
            && PastOk(w.past, w.base, w.born, w.file, ml)
  {
    StartInv(file, pos, ml);
    RunKeeps(Start(file, pos), events, ml);
    var w := Run(Start(file, pos), events, ml);
    LifeBounds(w.tail, w.born, w.file, ml);
    forall b | w.base <= b < w.tail.pos ensures Covered(w, b) {
      if w.born <= b {
        ChainCarries(w.tail.log, w.born, w.tail.pos, b);
      } else {
        PastCarries(w.past, w.base, w.born, w.file, ml, b);
      }
    }
  }

  /** No truncation, and no restart before the first save. */
  predicate Guarded(events: seq<Event>) {
    forall i :: 0 <= i < |events| ==>
      !events[i].Truncate? && (events[i].Restart? ==> Save in events[..i])
  }

  lemma GuardedPrefix(events: seq<Event>)
    requires Guarded(events) && events != []
    ensures Guarded(Init(events)) && !Last(events).Truncate?
    ensures Last(events).Restart? ==> Save in Init(events)
  {
    var p := Init(events);
    forall i | 0 <= i < |p| ensures !p[i].Truncate? && (p[i].Restart? ==> Save in p[..i]) {
      assert p[i] == events[i] && p[..i] == events[..i];
    }
    assert events[|events| - 1] == Last(events) && events[..|events| - 1] == p;
  }

  /** Only a truncation, or a restart with no offset saved, moves the base. */
  lemma BaseStays(w: World, e: Event, ml: Opts)
    requires !w.stale && !e.Truncate? && (e.Restart? ==> w.saved.Some?)
    ensures var v := Next(w, e, ml);
            v.base == w.base && !v.stale && (e == Save || w.saved.Some? ==> v.saved.Some?)
  {
    hide Step, Multiline.FlushIfExpired, Flush, Fresh;
  }

  lemma {:induction false} GuardedBase(w: World, events: seq<Event>, ml: Opts)
    requires Guarded(events) && !w.stale
    ensures var v := Run(w, events, ml);
            v.base == w.base && !v.stale && (Save in events || w.saved.Some? ==> v.saved.Some?)
  {
    hide Guarded, Next;
    if events != [] {
      var p := Init(events);
      GuardedPrefix(events);
      GuardedBase(w, p, ml);
      BaseStays(Run(w, p, ml), Last(events), ml);
      assert events == p + [Last(events)];
    }
  }

  /** In a guarded run nothing is skipped, from the very first byte on. */
  lemma NoByteSkipped(file: seq<Byte>, pos: nat, events: seq<Event>, ml: Opts)
    requires pos <= |file| && Guarded(events)
    ensures var w := Run(Start(file, pos), events, ml);
            forall b :: pos <= b < w.tail.pos ==> Covered(w, b)
  {
    hide Covered, LogOk, Chain, PastOk, Guarded;
    CrashSafety(file, pos, events, ml);
    GuardedBase(Start(file, pos), events, ml);
  }

  /** A restart resumes at the saved offset: the new life and the crashed one have in common
      only bytes from there to the crashed offset. */
  lemma RestartAtSave(file: seq<Byte>, pos: nat, events: seq<Event>, ml: Opts)
    requires pos <= |file| && Guarded(events) && Save in events
    ensures var w := Run(Start(file, pos), events, ml);
            var v := Next(w, Restart, ml);
            && w.saved == Some(v.born) && v.tail == Fresh(v.born) && w.born <= v.born <= w.tail.pos
            && v.past == w.past + [Life(w.born, w.tail.pos, w.tail.log)]
  {
    hide LogOk, Chain, PastOk, Guarded, Run, Fresh, Tiled;
    GuardedBase(Start(file, pos), events, ml);
    StartInv(file, pos, ml);
    RunKeeps(Start(file, pos), events, ml);
    var w := Run(Start(file, pos), events, ml);
    LifeBounds(w.tail, w.born, w.file, ml);
  }

  predicate SameLife(events: seq<Event>) {
    forall i :: 0 <= i < |events| ==> !events[i].Restart? && !events[i].Truncate?
  }

  /** No byte before the saved offset is ever shipped again by the new life. */
  lemma OnlyUnsavedRepeat(file: seq<Byte>, pos: nat, events: seq<Event>, more: seq<Event>, ml: Opts, b: nat)
    requires pos <= |file| && Guarded(events) && Save in events && SameLife(more)
    ensures var w := Run(Start(file, pos), events, ml);
            w.saved.Some? && (b < w.saved.value ==> !Carries(Run(Next(w, Restart, ml), more, ml).tail.log, b))
  {
    hide LogOk, Chain, PastOk, Guarded, Run, Carries, Fresh, Tiled, Start, Next;
    RestartAtSave(file, pos, events, ml);
    StartInv(file, pos, ml);
    RunKeeps(Start(file, pos), events, ml);
    var w := Run(Start(file, pos), events, ml);
    NextKeeps(w, Restart, ml);
    var v := Next(w, Restart, ml);
    SameLifeBorn(v, more, ml);
    RunKeeps(v, more, ml);
    var u := Run(v, more, ml);
    if b < v.born {
      NotCarriedBefore(u.tail.log, v.born, u.tail.pos, b);
    }
  }

  lemma {:induction false} SameLifeBorn(w: World, events: seq<Event>, ml: Opts)
    requires SameLife(events)
    ensures Run(w, events, ml).born == w.born
  {
    if events != [] {
      SameLifeBorn(w, Init(events), ml);
    }
  }

  lemma NotCarriedBefore(log: seq<Shipped>, from: nat, to: nat, b: nat)
    requires Chain(log, from, to) && b < from
    ensures !Carries(log, b)
  {
    forall i | 0 <= i < |log| ensures !(log[i].from <= b < log[i].to) {
      ChainWithin(log, from, to, i);
    }
  }

  /** Lives are only chained by a usable saved offset. */
  predicate PastSaved(w: World) { w.saved.None? || w.stale ==> w.past == [] }

  lemma {:induction false} RunPastSaved(file: seq<Byte>, pos: nat, events: seq<Event>, ml: Opts)
    ensures PastSaved(Run(Start(file, pos), events, ml))
  {
    hide Step, Multiline.FlushIfExpired, Flush, Fresh;
    if events != [] {
      RunPastSaved(file, pos, Init(events), ml);
    }
  }

  lemma NotCarriedAfter(log: seq<Shipped>, from: nat, to: nat, b: nat)
    requires Chain(log, from, to) && to <= b
    ensures !Carries(log, b)
  {
    forall i | 0 <= i < |log| ensures !(log[i].from <= b < log[i].to) {
      ChainWithin(log, from, to, i);
    }
  }

  /** When a restart skips: over every run, all bytes from the base up to the offset a restart
      would resume at have been shipped if and only if that offset is not after `pos`. A
      usable saved offset never is; a missing one is as soon as the file has unshipped bytes,
      and one saved before a truncation may be. */
  lemma RestartCoversExactly(file: seq<Byte>, pos: nat, events: seq<Event>, ml: Opts)
    requires pos <= |file|
    ensures var w := Run(Start(file, pos), events, ml);
            var p := ResumeAt(w.saved, |w.file|);
            && ((forall b :: w.base <= b < p ==> Covered(w, b)) <==> p <= w.tail.pos)
            && (w.saved.Some? && !w.stale ==> p <= w.tail.pos)
            && (w.saved.None? ==> (p <= w.tail.pos <==> w.tail.pos == |w.file|))
  {
    hide LogOk, Chain, PastOk, Run, Tiled, Carries;
    CrashSafety(file, pos, events, ml);
    RunPastSaved(file, pos, events, ml);
    StartInv(file, pos, ml);
    RunKeeps(Start(file, pos), events, ml);
    var w := Run(Start(file, pos), events, ml);
    var p := ResumeAt(w.saved, |w.file|);
    LifeBounds(w.tail, w.born, w.file, ml);
    BaseBefore(w.past, w.base, w.born, w.file, ml);
    if w.tail.pos < p {
      NotCarriedAfter(w.tail.log, w.born, w.tail.pos, w.tail.pos);
      assert !Covered(w, w.tail.pos);
    }
  }

  lemma {:induction false} BaseBefore(past: seq<Life>, base: nat, born: nat, file: seq<Byte>, ml: Opts)
    requires PastOk(past, base, born, file, ml)
    ensures base <= born
  {
    if past != [] {
      BaseBefore(Init(past), base, Last(past).born, file, ml);
    }
  }

  /** An instance: without a saved offset a restart begins at the end of the file, and what
      was not shipped is lost. */
  lemma RestartWithoutSaveSkips(ml: Opts)
    ensures var w := Next(Start([0x61, NEWLINE], 0), Restart, ml);
            w.tail.pos == 2 && !Covered(w, 0) && !Covered(w, 1)
  {
  }

  // ---------------------------------------------------------------- idle time

  /** A read that commits a line: the next chunk is a line, and it is consumed. */
  predicate Commits(w: World, e: Event, ml: Opts) {
    && e.Read? && w.tail.readAhead <= |w.file| && Terminated(NextChunk(w.file[w.tail.readAhead..]))
    && w.tail.readAhead < Next(w, e, ml).tail.readAhead
  }

  /** When the last line was appended to the record in flight. */
  function Appended(w: World, events: seq<Event>, ml: Opts): Option<nat> {
    if events == [] then None
    else
      var before, e := Run(w, Init(events), ml), Last(events);
      if Commits(before, e, ml) then Some(e.now)
      else if Next(before, e, ml).tail.recordBytes == 0 then None
      else Appended(w, Init(events), ml)
  }

  lemma NextStamp(w: World, e: Event, ml: Opts)
    requires w.tail.recordBytes == 0 ==> w.tail.lastAppend == None
    ensures var v := Next(w, e, ml);
            v.tail.lastAppend == if Commits(w, e, ml) then Some(e.now)
                                 else if v.tail.recordBytes == 0 then None
                                 else w.tail.lastAppend
    ensures Commits(w, e, ml) ==> Next(w, e, ml).tail.recordBytes > 0
  {
    hide NextChunk, AppendText, Normalize, Completed, IsStart, PushPartial, Blank, Expired;
    if e.Read? && w.tail.readAhead <= |w.file| {
      ChunkShape(w.file[w.tail.readAhead..]);
    }
  }

  lemma {:induction false} IdleSince(file: seq<Byte>, pos: nat, events: seq<Event>, ml: Opts)
    ensures var t := Run(Start(file, pos), events, ml).tail;
            t.lastAppend == Appended(Start(file, pos), events, ml) && (t.recordBytes == 0 ==> t.lastAppend == None)
  {
    if events != [] {
      hide Next, Commits;
      IdleSince(file, pos, Init(events), ml);
      NextStamp(Run(Start(file, pos), Init(events), ml), Last(events), ml);
    }
  }

  /** The inactivity timeout, over every run: with a sink that takes it, the record in flight is
      shipped if and only if there is one and the last line was appended to it at least the
      timeout ago; otherwise nothing changes. */
  lemma ExpiresExactly(file: seq<Byte>, pos: nat, events: seq<Event>, now: nat, ml: Opts)
    ensures var w := Run(Start(file, pos), events, ml);
            var since := Appended(Start(file, pos), events, ml);
            var idle := if since.Some? && since.value <= now then now - since.value else 0;
            var v := Next(w, Expire(true, now), ml);
            if w.tail.recordBytes > 0 && idle >= ml.timeout then
              |v.tail.log| == |w.tail.log| + 1 && v.tail.recordBytes == 0
              && v.tail.pos == w.tail.pos + w.tail.recordBytes
            else v == w
  {
    hide Run, Appended, Blank;
    IdleSince(file, pos, events, ml);
  }
}
