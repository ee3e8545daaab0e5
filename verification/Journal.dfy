/** The journald source: entries handled in order with backpressure, a cursor saved every
    hundred handled entries, and restarts that resume after the saved cursor. */
module Journal {
  import opened Options

  const MAX_LINE_LEN: nat := 262144
  const CURSOR_SAVE_INTERVAL: nat := 100

  /** One journal line: its length, whether it is valid JSON, and the fields acted on. The
      cursor is opaque to the agent; journald resolves it to the entry it belongs to, so it
      is modelled as that entry's position. */
  datatype Entry = Entry(
    length: nat, parses: bool, message: Option<string>, identifier: Option<string>, comm: Option<string>, hasCursor: bool)

  datatype Filter = Filter(allow: seq<string>, deny: seq<string>)

  predicate Excludes(f: Filter, program: string) {
    program in f.deny || (f.allow != [] && program !in f.allow)
  }

  function Program(e: Entry): string {
    if e.identifier.Some? then e.identifier.value
    else if e.comm.Some? then e.comm.value
    else "unknown"
  }

  datatype Outcome = Handled | ChannelFull | ParseFailed

  /** `process_entry`, with the sink's answer. */
  function Process(e: Entry, f: Filter, accept: bool): Outcome {
    if !e.parses then ParseFailed
    else if e.message.None? || e.message.value == "" then Handled
    else if Program(e) == "witness" then Handled
    else if Excludes(f, Program(e)) then Handled
    else if accept then Handled
    else ChannelFull
  }

  /** An entry with something to ship: it has a message, and its program is let through. */
  predicate Wanted(e: Entry, f: Filter) {
    e.parses && e.message.Some? && e.message.value != "" && Program(e) != "witness" && !Excludes(f, Program(e))
  }

  /** An entry the source owes to the sink. A line over the length limit is passed over
      before it is parsed. */
  predicate Shippable(e: Entry, f: Filter) { e.length <= MAX_LINE_LEN && Wanted(e, f) }

  /** `ReaderState`. */
  datatype Reader = Reader(lastCursor: Option<nat>, sinceSave: nat, dropped: nat)

  /** The bookkeeping after an entry was handled: the new state and whether the cursor is
      saved now. */
  function Record(r: Reader, index: nat, e: Entry): (Reader, bool) {
    var c := if e.hasCursor then Some(index) else r.lastCursor;
    if r.sinceSave + 1 >= CURSOR_SAVE_INTERVAL then (r.(lastCursor := c, sinceSave := 0), true)
    else (r.(lastCursor := c, sinceSave := r.sinceSave + 1), false)
  }

  class JournalReader {
    var lastCursor: Option<nat>
    var sinceSave: nat
    var dropped: nat
    /** The durable cursor file. */
    var saved: Option<nat>
    /** Positions of the entries the sink took. */
    var shipped: seq<nat>

    constructor (cursor: Option<nat>)
      ensures State() == Reader(cursor, 0, 0) && saved == cursor && shipped == []
    {
      lastCursor, sinceSave, dropped, saved, shipped := cursor, 0, 0, cursor, [];
    }

    function State(): Reader
      reads this
    {
      Reader(lastCursor, sinceSave, dropped)
    }

    /** `save_cursor`; a failed write leaves the previous cursor in place. */
    method SaveCursor(ok: bool)
      modifies this`saved
      ensures saved == if lastCursor.Some? && ok then lastCursor else old(saved)
    {
      if lastCursor.Some? && ok { saved := lastCursor; }
    }

    /** `handle_entry`: retry while the channel is full. The answers are the sink's, one per
        attempt; when they run out, cancellation arrives during the wait. */
    method HandleEntry(index: nat, e: Entry, f: Filter, answers: seq<bool>, saveOk: bool) returns (done: bool)
      requires e.length <= MAX_LINE_LEN
      modifies this
      ensures !done ==> State() == old(State()) && saved == old(saved) && shipped == old(shipped)
                        && Shippable(e, f) && true !in answers
      ensures done && !e.parses ==> State() == old(State()).(dropped := old(dropped) + 1)
                                    && saved == old(saved) && shipped == old(shipped)
      ensures done && e.parses ==>
                var (r, save) := Record(old(State()), index, e);
                && State() == r
                && saved == (if save && saveOk && r.lastCursor.Some? then r.lastCursor else old(saved))
                && shipped == old(shipped) + if Shippable(e, f) then [index] else []
      ensures done && e.parses ==>
                && lastCursor == (if e.hasCursor then Some(index) else old(lastCursor))
                && (old(sinceSave) < 99 ==> sinceSave == old(sinceSave) + 1 && saved == old(saved))
                && (old(sinceSave) >= 99 ==> sinceSave == 0 && (saveOk && lastCursor.Some? ==> saved == lastCursor))
      ensures done && Shippable(e, f) ==> true in answers
    {
      var tries := 0;
      while tries <= |answers|
        invariant tries <= |answers| && (Shippable(e, f) ==> true !in answers[..tries])
        invariant tries > 0 ==> Shippable(e, f)
        invariant State() == old(State()) && saved == old(saved) && shipped == old(shipped)
      {
        var accept := tries < |answers| && answers[tries];
        match Process(e, f, accept) {
          case Handled =>
            if Shippable(e, f) { shipped := shipped + [index]; }
            if e.hasCursor { lastCursor := Some(index); }
            sinceSave := sinceSave + 1;
            if sinceSave >= CURSOR_SAVE_INTERVAL {
              SaveCursor(saveOk);
              sinceSave := 0;
            }
            return true;
          case ParseFailed =>
            dropped := dropped + 1;
            return true;
          case ChannelFull =>
            if tries == |answers| {
              assert answers[..tries] == answers;
              return false;
            }
            assert answers[..tries + 1] == answers[..tries] + [answers[tries]];
            tries := tries + 1;
        }
      }
      return false;
    }
  }

  // ---------------------------------------------------------------- whole runs

  /** The journal, the durable cursor, the running reader, the next entry to read, where this
      subprocess started, what it shipped, and everything ever shipped. `base` is where the
      first subprocess with nothing durable began. */
  datatype World = World(
    store: seq<Entry>, durable: Option<nat>, reader: Reader, next: nat, born: nat,
    shipped: seq<nat>, ever: set<nat>, base: nat)

  datatype Event =
    | Append(e: Entry)
    | Attempt(accept: bool, saveOk: bool)
    | Stop(saveOk: bool)   // cancelled, or the stream ended: save, then start again
    | Crash                // start again from what is durable

  function Begin(store: seq<Entry>): World {
    World(store, None, Reader(None, 0, 0), |store|, |store|, [], {}, |store|)
  }

  /** Where `journalctl` starts: after the cursor, or at the end of the journal. */
  function Respawn(w: World): World {
    match w.durable
    case Some(c) => w.(reader := Reader(Some(c), 0, 0), next := c + 1, born := c + 1, shipped := [])
    case None => w.(reader := Reader(None, 0, 0), next := |w.store|, born := |w.store|, shipped := [], base := |w.store|)
  }

  function Save(w: World, ok: bool): World {
    if ok && w.reader.lastCursor.Some? then w.(durable := w.reader.lastCursor) else w
  }

  function Next(w: World, ev: Event, f: Filter): World {
    match ev
    case Append(e) => w.(store := w.store + [e])
    case Stop(saveOk) => Respawn(Save(w, saveOk))
    case Crash => Respawn(w)
    case Attempt(accept, saveOk) =>
      if w.next >= |w.store| then w
      else
        var e := w.store[w.next];
        if e.length > MAX_LINE_LEN then w.(next := w.next + 1)
        else
          match Process(e, f, accept)
          case ChannelFull => w
          case ParseFailed => w.(next := w.next + 1, reader := w.reader.(dropped := w.reader.dropped + 1))
          case Handled =>
            var (r, save) := Record(w.reader, w.next, e);
            var v := w.(next := w.next + 1, reader := r,
                        shipped := w.shipped + (if Shippable(e, f) then [w.next] else []),
                        ever := w.ever + (if Shippable(e, f) then {w.next} else {}));
            if save then Save(v, saveOk) else v
  }

  function Run(store: seq<Entry>, events: seq<Event>, f: Filter): World {
    if events == [] then Begin(store)
    else Next(Run(store, events[..|events| - 1], f), events[|events| - 1], f)
  }

  /** The positions in `[from, end)` of the entries owed to the sink, in order. */
  function Owed(store: seq<Entry>, f: Filter, from: nat, end: nat): seq<nat>
    requires from <= end <= |store|
  {
    if from == end then []
    else Owed(store, f, from, end - 1) + if Shippable(store[end - 1], f) then [end - 1] else []
  }

  predicate Bounds(w: World) {
    && w.base <= w.born <= w.next <= |w.store|
    && (w.durable.Some? ==> w.durable.value < w.next && w.base <= w.durable.value + 1)
    && (w.reader.lastCursor.Some? ==> w.reader.lastCursor.value < w.next && w.base <= w.reader.lastCursor.value + 1)
    && (w.durable.Some? ==> w.reader.lastCursor.Some?)
    && w.reader.sinceSave < CURSOR_SAVE_INTERVAL
  }

  predicate Inv(w: World, f: Filter) {
    && Bounds(w)
    && w.shipped == Owed(w.store, f, w.born, w.next)
    && (forall k :: w.base <= k < w.next && Shippable(w.store[k], f) ==> k in w.ever)
  }

  lemma {:induction false} OwedGrow(store: seq<Entry>, e: Entry, f: Filter, from: nat, end: nat)
    requires from <= end <= |store|
    ensures Owed(store + [e], f, from, end) == Owed(store, f, from, end)
    decreases end
  {
    if end > from {
      OwedGrow(store, e, f, from, end - 1);
    }
  }

  lemma NextKeeps(w: World, ev: Event, f: Filter)
    requires Inv(w, f)
    ensures Inv(Next(w, ev, f), f)
  {
    hide Shippable;
    match ev {
      case Append(e) => OwedGrow(w.store, e, f, w.born, w.next);
      case Attempt(accept, saveOk) =>
        if w.next < |w.store| { ProcessShips(w.store[w.next], f, accept); }
      case Stop(saveOk) =>
      case Crash =>
    }
  }

  /** An entry that is passed was not owed, or the sink took it. */
  lemma ProcessShips(e: Entry, f: Filter, accept: bool)
    ensures e.length > MAX_LINE_LEN || Process(e, f, accept).ParseFailed? ==> !Shippable(e, f)
    ensures e.length <= MAX_LINE_LEN && Shippable(e, f) ==> (Process(e, f, accept).Handled? <==> accept)
  {
  }

  lemma {:induction false} RunKeeps(store: seq<Entry>, events: seq<Event>, f: Filter)
    ensures Inv(Run(store, events, f), f)
  {
    if events != [] {
      hide Inv, Next;
      RunKeeps(store, events[..|events| - 1], f);
      NextKeeps(Run(store, events[..|events| - 1], f), events[|events| - 1], f);
    }
  }

  /** Journald resume, over every run with refusals, cancellation, failed saves and crashes:
      what one subprocess shipped is the filter of what it has passed, in order and once each,
      and no cursor, in memory or durable, is ever past an owed entry that was not shipped. */
  lemma ResumeSafety(store: seq<Entry>, events: seq<Event>, f: Filter)
    ensures var w := Run(store, events, f);
            && w.base <= w.born <= w.next <= |w.store|
            && w.shipped == Owed(w.store, f, w.born, w.next)
            && (forall k :: w.base <= k < w.next && Shippable(w.store[k], f) ==> k in w.ever)
            && (w.durable.Some? ==> w.durable.value < w.next && w.reader.lastCursor.Some?)
            && (w.reader.lastCursor.Some? ==> w.reader.lastCursor.value < w.next)
  {
    hide Run, Shippable, Owed;
    RunKeeps(store, events, f);
  }

  /** After the first save the starting point never moves again: from then on nothing owed is
      skipped by any restart. */
  lemma {:induction false} BaseFixed(store: seq<Entry>, events: seq<Event>, more: seq<Event>, f: Filter)
    requires Run(store, events, f).durable.Some?
    ensures Run(store, events + more, f).durable.Some? && Run(store, events + more, f).base == Run(store, events, f).base
    decreases |more|
  {
    hide Shippable, Process;
    if more == [] {
      assert events + more == events;
    } else {
      var n := |more| - 1;
      BaseFixed(store, events, more[..n], f);
      var all := events + more;
      assert all[..|all| - 1] == events + more[..n] && all[|all| - 1] == more[n];
    }
  }

  // ---------------------------------------------------------------- the replay bound

  /** Entries that count towards the save interval. */
  function HandledIn(store: seq<Entry>, from: nat, end: nat): nat
    requires end <= |store|
    decreases end
  {
    if from >= end then 0
    else HandledIn(store, from, end - 1) + if store[end - 1].length <= MAX_LINE_LEN && store[end - 1].parses then 1 else 0
  }

  /** journald gives every entry a cursor. */
  predicate HasCursors(store: seq<Entry>) { forall i :: 0 <= i < |store| ==> store[i].parses ==> store[i].hasCursor }

  predicate SavesSucceed(events: seq<Event>) {
    forall i :: 0 <= i < |events| ==>
      (events[i].Attempt? ==> events[i].saveOk) && (events[i].Stop? ==> events[i].saveOk)
  }

  /** What a crash now would replay. */
  predicate ReplayInv(w: World) {
    && Bounds(w)
    && (w.durable.Some? ==> HandledIn(w.store, w.durable.value + 1, w.next) == w.reader.sinceSave)
  }

  lemma {:induction false} HandledGrow(store: seq<Entry>, e: Entry, from: nat, end: nat)
    requires end <= |store|
    ensures HandledIn(store + [e], from, end) == HandledIn(store, from, end)
    decreases end
  {
    if end > from {
      HandledGrow(store, e, from, end - 1);
    }
  }

  lemma NextReplay(w: World, ev: Event, f: Filter)
    requires ReplayInv(w) && HasCursors(w.store)
    requires (ev.Attempt? ==> ev.saveOk) && (ev.Stop? ==> ev.saveOk)
    ensures ReplayInv(Next(w, ev, f))
  {
    hide Shippable;
    match ev {
      case Append(e) =>
        if w.durable.Some? { HandledGrow(w.store, e, w.durable.value + 1, w.next); }
      case Attempt(accept, saveOk) =>
        if w.next < |w.store| { ProcessParses(w.store[w.next], f, accept); }
      case Stop(saveOk) =>
      case Crash =>
    }
  }

  lemma ProcessParses(e: Entry, f: Filter, accept: bool)
    ensures Process(e, f, accept).ParseFailed? <==> !e.parses
  {
  }

  lemma {:induction false} RunReplay(store: seq<Entry>, events: seq<Event>, f: Filter)
    requires HasCursors(Run(store, events, f).store) && SavesSucceed(events)
    ensures ReplayInv(Run(store, events, f))
  {
    if events != [] {
      hide ReplayInv;
      var p, ev := events[..|events| - 1], events[|events| - 1];
      var w := Run(store, p, f);
      StoreGrows(w, ev, f);
      forall i | 0 <= i < |w.store| ensures w.store[i].parses ==> w.store[i].hasCursor {
        assert Next(w, ev, f).store[i] == w.store[i];
      }
      RunReplay(store, p, f);
      hide Next;
      NextReplay(w, ev, f);
    }
  }

  lemma StoreGrows(w: World, ev: Event, f: Filter)
    ensures w.store <= Next(w, ev, f).store
  {
    hide Process, Shippable;
  }

  /** With working saves a crash replays at most 99 handled entries, once a cursor is saved. */
  lemma CrashReplays(store: seq<Entry>, events: seq<Event>, f: Filter)
    requires HasCursors(Run(store, events, f).store) && SavesSucceed(events)
    requires Run(store, events, f).durable.Some?
    ensures var w := Run(store, events, f);
            && w.durable.value < w.next <= |w.store|
            && Respawn(w).next == w.durable.value + 1
            && HandledIn(w.store, w.durable.value + 1, w.next) <= 99
  {
    hide Run, HandledIn;
    RunReplay(store, events, f);
  }

  /** A subprocess that ends is followed by one that starts right after the last cursor, if the
      save succeeds, and otherwise after the one on disk, as after a crash; with neither it
      starts at the end of the journal. */
  lemma StopResumes(w: World, saveOk: bool, f: Filter)
    ensures var v := Next(w, Stop(saveOk), f);
            var c := if saveOk && w.reader.lastCursor.Some? then w.reader.lastCursor else w.durable;
            && v.durable == c && v.shipped == [] && v.born == v.next
            && v.next == (if c.Some? then c.value + 1 else |w.store|)
            && (!saveOk ==> v == Next(w, Crash, f))
  {
    hide Process;
  }

  /** Nothing is ever shipped that is not owed. */
  predicate EverOwed(w: World, f: Filter) { forall k :: k in w.ever ==> k < |w.store| && Shippable(w.store[k], f) }

  lemma {:induction false} RunEverOwed(store: seq<Entry>, events: seq<Event>, f: Filter)
    ensures EverOwed(Run(store, events, f), f)
  {
    if events != [] {
      hide Shippable, Process, Run;
      RunEverOwed(store, events[..|events| - 1], f);
      RunLast(store, events, f);
    }
  }

  lemma RunLast(store: seq<Entry>, events: seq<Event>, f: Filter)
    requires events != []
    ensures Run(store, events, f) == Next(Run(store, events[..|events| - 1], f), events[|events| - 1], f)
  {
    hide Next;
  }

  /** What is lost: over every run, of the entries with something to ship that the reader has
      passed since the base, exactly those over the length limit were never shipped. */
  lemma LostExactly(store: seq<Entry>, events: seq<Event>, f: Filter, k: nat)
    requires var w := Run(store, events, f); w.base <= k < w.next && k < |w.store| && Wanted(w.store[k], f)
    ensures var w := Run(store, events, f); k in w.ever <==> w.store[k].length <= MAX_LINE_LEN
  {
    hide Run, Wanted, Owed;
    RunKeeps(store, events, f);
    RunEverOwed(store, events, f);
  }

  /** What reaches the sink, told from the fields of the entry and the two lists: over every run
      an entry passed since the base was shipped if and only if it is within the limit and
      parses, has a message that is not empty, and its program (the identifier, else the
      command, else "unknown") is not the agent itself, not denied, and allowed if anything
      is. */
  lemma ShippedExactly(store: seq<Entry>, events: seq<Event>, f: Filter, k: nat)
    requires var w := Run(store, events, f); w.base <= k < w.next && k < |w.store|
    ensures var w := Run(store, events, f);
            var e := w.store[k];
            k in w.ever <==>
              && e.length <= 262144 && e.parses && e.message.Some? && |e.message.value| > 0
              && exists p :: (e.identifier == Some(p) || (e.identifier.None? && e.comm == Some(p))
                              || (e.identifier.None? && e.comm.None? && p == "unknown"))
                             && p != "witness" && p !in f.deny && (|f.allow| == 0 || p in f.allow)
  {
    hide Run, Owed;
    RunKeeps(store, events, f);
    RunEverOwed(store, events, f);
    var e := Run(store, events, f).store[k];
    assert e.identifier == Some(Program(e)) || (e.identifier.None? && e.comm == Some(Program(e)))
           || (e.identifier.None? && e.comm.None? && Program(e) == "unknown");
  }

  /** An instance: the cursor passes an entry over the length limit. */
  lemma OversizedPassed()
    ensures var f := Filter([], []);
            var big := Entry(MAX_LINE_LEN + 1, true, Some("x"), Some("app"), None, true);
            var small := Entry(10, true, None, None, None, true);
            var w := Run([], [Append(big), Append(small), Attempt(true, true), Attempt(true, true)], f);
            Wanted(big, f) && w.next == 2 && w.reader.lastCursor == Some(1) && w.ever == {}
  {
    var f := Filter([], []);
    var big := Entry(MAX_LINE_LEN + 1, true, Some("x"), Some("app"), None, true);
    var small := Entry(10, true, None, None, None, true);
    var e1: seq<Event> := [Append(big)];
    var e2, e3 := e1 + [Append(small)], e1 + [Append(small)] + [Attempt(true, true)];
    RunSnoc([], [], Append(big), f);
    assert [] + e1 == e1;
    RunSnoc([], e1, Append(small), f);
    RunSnoc([], e2, Attempt(true, true), f);
    RunSnoc([], e3, Attempt(true, true), f);
    assert e3 + [Attempt(true, true)] == [Append(big), Append(small), Attempt(true, true), Attempt(true, true)];
    hide Run;
    var w2 := Run([], e2, f);
    assert w2.store == [big, small] && w2.next == 0;
    var w3 := Run([], e3, f);
    assert w3 == w2.(next := 1);
  }

  lemma RunSnoc(store: seq<Entry>, events: seq<Event>, ev: Event, f: Filter)
    ensures Run(store, events + [ev], f) == Next(Run(store, events, f), ev, f)
  {
    hide Next;
    assert (events + [ev])[..|events|] == events;
  }
}
