/** The macOS unified log source: Backfill replays the store from a checkpoint and drops what
    was shipped before by mach timestamp; Live follows the stream; a stall returns to
    Backfill at the last recorded entry. */
module Unified {
  import opened Options

  const CURSOR_SAVE_INTERVAL: nat := 100
  const MAX_LINE_LEN: nat := 262144

  /** `Checkpoint`; wall timestamps are compared as times. */
  datatype Checkpoint = Checkpoint(boot: string, mach: nat, wall: nat)

  /** One NDJSON line, as far as the source acts on it. */
  datatype Entry = Entry(
    length: nat, parses: bool, isLog: bool, boot: Option<string>, mach: Option<nat>, wall: Option<nat>,
    isSelf: bool, message: Option<string>)

  /** `LogEntry::checkpoint`. */
  function Position(e: Entry): Option<Checkpoint> {
    if e.boot.Some? && e.mach.Some? && e.wall.Some?
    then Some(Checkpoint(e.boot.value, e.mach.value, e.wall.value))
    else None
  }

  datatype Outcome = Handled(at: Option<Checkpoint>, shipped: bool) | ChannelFull | ParseFailed

  /** The inclusive boundary of `log show --start`: at or before the checkpoint, same boot. */
  predicate Deduped(e: Entry, dedupe: Option<Checkpoint>) {
    && dedupe.Some? && e.mach.Some? && e.boot.Some?
    && e.boot.value == dedupe.value.boot && e.mach.value <= dedupe.value.mach
  }

  /** `process_entry`, its checks in order. Structural entries are recorded before the
      dedupe test; a deduped entry records nothing. */
  function Process(e: Entry, dedupe: Option<Checkpoint>, accept: bool): Outcome {
    if !e.parses then ParseFailed
    else if !e.isLog then Handled(Position(e), false)
    else if Deduped(e, dedupe) then Handled(None, false)
    else if e.isSelf then Handled(Position(e), false)
    else if e.message.None? || e.message.value == "" then Handled(Position(e), false)
    else if accept then Handled(Position(e), true)
    else ChannelFull
  }

  /** An entry owed to the sink. A line over the length limit is passed over unparsed. */
  predicate Shippable(e: Entry) {
    e.length <= MAX_LINE_LEN && e.parses && e.isLog && !e.isSelf && e.message.Some? && e.message.value != ""
  }

  /** A line that is read and parsed but carries no message of its own. */
  predicate Structural(e: Entry) { e.length <= MAX_LINE_LEN && e.parses && !e.isLog }

  datatype Phase = Backfill | Live

  /** `next` is the next line to read, `last` and `sinceSave` the reader's bookkeeping,
      `stalled` the entry a full channel is holding up in Live, `shipped` what this phase
      shipped and `ever` what any phase did. `from`, `at` and `saved` are history: the store
      positions behind `dedupe`, `last` and `durable`; `unsaved` lists those recorded since
      the checkpoint on disk was written or read. */
  datatype World = World(
    store: seq<Entry>, phase: Phase, dedupe: Checkpoint, durable: Checkpoint, last: Checkpoint, sinceSave: nat,
    next: nat, stalled: Option<nat>, shipped: seq<nat>, ever: set<nat>, from: nat, at: nat, saved: nat,
    unsaved: seq<nat>)

  /** `saveOk` says whether a checkpoint written during the event reaches the disk. */
  datatype Event =
    | Append(e: Entry)
    | Attempt(accept: bool, saveOk: bool)              // one try at the next backfill line
    | GoLive(saveOk: bool)                             // the store is drained: save, follow the stream
    | Deliver(index: nat, accept: bool, saveOk: bool)  // one try at a streamed entry; the stream may skip some
    | Reconcile(saveOk: bool)                          // a stall passed the threshold: save, back to Backfill
    | Interrupt(saveOk: bool)                          // cancelled or the stream ended: save, start again
    | Crash                                            // start again from the durable checkpoint

  /** The first line `log show --start` prints: the first not before the wall time. */
  function WindowStart(store: seq<Entry>, wall: nat): (n: nat)
    ensures n <= |store|
  {
    if store == [] then 0
    else if store[0].wall.Some? && store[0].wall.value < wall then 1 + WindowStart(store[1..], wall)
    else 0
  }

  /** A backfill from the checkpoint on disk. */
  function StartBackfill(w: World): World {
    var cp := w.durable;
    w.(phase := Backfill, dedupe := cp, last := cp, sinceSave := 0,
       next := WindowStart(w.store, cp.wall), stalled := None, shipped := [], from := w.saved, at := w.saved,
       unsaved := [])
  }

  /** `save_final`; a failed write leaves the previous checkpoint in place. */
  function SaveFinal(w: World, ok: bool): World {
    if ok then w.(durable := w.last, saved := w.at, unsaved := []) else w
  }

  /** `ReaderState::record` and the move past the line. */
  function RecordEntry(w: World, o: Outcome, index: nat, saveOk: bool): World
    requires o.Handled?
  {
    var v := w.(next := index + 1, stalled := None,
                shipped := if o.shipped then w.shipped + [index] else w.shipped,
                ever := if o.shipped then w.ever + {index} else w.ever);
    match o.at
    case None => v
    case Some(cp) =>
      var u := v.(last := cp, at := index, sinceSave := w.sinceSave + 1, unsaved := w.unsaved + [index]);
      if u.sinceSave >= CURSOR_SAVE_INTERVAL then SaveFinal(u, saveOk).(sinceSave := 0) else u
  }

  function Next(w: World, e: Event): World {
    match e
    case Append(x) => w.(store := w.store + [x])
    case Attempt(accept, saveOk) =>
      if w.phase != Backfill || w.next >= |w.store| then w
      else if w.store[w.next].length > MAX_LINE_LEN then w.(next := w.next + 1)
      else
        (match Process(w.store[w.next], Some(w.dedupe), accept)
         case ChannelFull => w
         case ParseFailed => w.(next := w.next + 1)
         case Handled(cp, shipped) => RecordEntry(w, Handled(cp, shipped), w.next, saveOk))
    case GoLive(saveOk) =>
      if w.phase == Backfill && w.next == |w.store| then SaveFinal(w, saveOk).(phase := Live, shipped := []) else w
    case Deliver(i, accept, saveOk) =>
      if w.phase != Live || i < w.next || i >= |w.store| || (w.stalled.Some? && w.stalled.value != i) then w
      else if w.store[i].length > MAX_LINE_LEN then w.(next := i + 1)
      else
        (match Process(w.store[i], None, accept)
         case ChannelFull => w.(stalled := Some(i))
         case ParseFailed => w.(next := i + 1, stalled := None)
         case Handled(cp, shipped) => RecordEntry(w, Handled(cp, shipped), i, saveOk))
    case Reconcile(saveOk) => if w.phase == Live && w.stalled.Some? then StartBackfill(SaveFinal(w, saveOk)) else w
    case Interrupt(saveOk) => StartBackfill(SaveFinal(w, saveOk))
    case Crash => StartBackfill(w)
  }

  /** The agent starts with a durable checkpoint taken from store entry `k`. */
  function Begin(store: seq<Entry>, k: nat): World
    requires k < |store| && Position(store[k]).Some?
  {
    var cp := Position(store[k]).value;
    StartBackfill(World(store, Backfill, cp, cp, cp, 0, 0, None, [], {}, k, k, k, []))
  }

  function Run(w: World, events: seq<Event>): World {
    if events == [] then w else Next(Run(w, events[..|events| - 1]), events[|events| - 1])
  }

  // ---------------------------------------------------------------- the store

  /** A store in order: every entry has a position, wall times do not go back and rise at a
      reboot, mach timestamps strictly increase within a boot. Entries may be structural,
      malformed or over the line limit. */
  predicate Regular(store: seq<Entry>) {
    && (forall i :: 0 <= i < |store| ==> Position(store[i]).Some?)
    && (forall i, j :: 0 <= i < j < |store| ==> Ordered(store[i], store[j]))
  }

  predicate Ordered(a: Entry, b: Entry) {
    Position(a).Some? && Position(b).Some? ==>
      var p, q := Position(a).value, Position(b).value;
      if p.boot == q.boot then p.mach < q.mach && p.wall <= q.wall else p.wall < q.wall
  }

  /** Positions in `[start, end)` of the entries owed to the sink. */
  function Owed(store: seq<Entry>, start: nat, end: nat): seq<nat>
    requires end <= |store|
  {
    if start >= end then []
    else Owed(store, start, end - 1) + if Shippable(store[end - 1]) then [end - 1] else []
  }

  lemma {:induction false} OwedGrow(store: seq<Entry>, e: Entry, start: nat, end: nat)
    requires end <= |store|
    ensures Owed(store + [e], start, end) == Owed(store, start, end)
    decreases end
  {
    if start < end {
      OwedGrow(store, e, start, end - 1);
    }
  }

  /** The window of a checkpoint begins at or before its entry, and holds nothing older of
      another boot. */
  lemma {:induction false} WindowOf(store: seq<Entry>, k: nat)
    requires Regular(store) && k < |store|
    ensures var cp := Position(store[k]).value;
            var n := WindowStart(store, cp.wall);
            n <= k && forall i :: n <= i <= k ==> Position(store[i]).value.boot == cp.boot
    decreases |store|
  {
    var cp := Position(store[k]).value;
    if store[0].wall.value < cp.wall {
      assert k > 0;
      var tail := store[1..];
      assert forall i :: 0 <= i < |tail| ==> tail[i] == store[i + 1];
      WindowOf(tail, k - 1);
      var n := WindowStart(tail, cp.wall);
      assert WindowStart(store, cp.wall) == n + 1;
      forall i | n + 1 <= i <= k ensures Position(store[i]).value.boot == cp.boot {
        assert tail[i - 1] == store[i];
      }
    } else {
      forall i | 0 <= i <= k ensures Position(store[i]).value.boot == cp.boot {
        if 0 < i { assert Ordered(store[0], store[i]); }
        if i < k { assert Ordered(store[i], store[k]); }
      }
    }
  }

  /** Dedupe drops exactly the entries up to the checkpoint. */
  lemma DedupeExact(store: seq<Entry>, k: nat, i: nat)
    requires Regular(store) && k < |store| && i < |store|
    requires WindowStart(store, Position(store[k]).value.wall) <= i
    ensures Deduped(store[i], Position(store[k])) <==> i <= k
  {
    WindowOf(store, k);
    if i < k { assert Ordered(store[i], store[k]); }
    if i > k { assert Ordered(store[k], store[i]); }
  }

  // ---------------------------------------------------------------- the invariant

  /** The first line not yet settled: in Backfill everything up to the checkpoint is. */
  function Reached(w: World): nat { if w.phase == Backfill && w.next <= w.from then w.from + 1 else w.next }

  /** Checkpoints are positions of settled store entries; and in Backfill exactly the owed
      entries between the checkpoint and the reader are shipped. */
  predicate Inv(w: World) {
    && w.saved < Reached(w) && w.at < Reached(w) <= |w.store| && w.from < |w.store|
    && Position(w.store[w.from]) == Some(w.dedupe)
    && Position(w.store[w.at]) == Some(w.last)
    && Position(w.store[w.saved]) == Some(w.durable)
    && w.sinceSave < CURSOR_SAVE_INTERVAL
    && (w.stalled.Some? ==> w.phase == Live && w.next <= w.stalled.value < |w.store| && Shippable(w.store[w.stalled.value]))
    && (w.phase == Backfill ==>
          WindowStart(w.store, w.dedupe.wall) <= w.next && w.shipped == Owed(w.store, w.from + 1, Reached(w)))
  }

  lemma StartKeeps(w: World)
    requires Regular(w.store) && w.saved < |w.store| && Position(w.store[w.saved]) == Some(w.durable)
    ensures Inv(StartBackfill(w))
  {
    WindowOf(w.store, w.saved);
  }

  lemma SaveKeeps(w: World, ok: bool)
    requires Inv(w)
    ensures Inv(SaveFinal(w, ok))
  {
    hide Owed, WindowStart, Shippable, Position;
  }

  lemma {:induction false} WindowGrow(store: seq<Entry>, e: Entry, wall: nat)
    ensures WindowStart(store, wall) <= WindowStart(store + [e], wall)
    ensures WindowStart(store, wall) < |store| ==> WindowStart(store + [e], wall) == WindowStart(store, wall)
  {
    if store != [] {
      assert (store + [e])[1..] == store[1..] + [e];
      WindowGrow(store[1..], e, wall);
    }
  }

  lemma AppendKeeps(w: World, x: Entry)
    requires Inv(w) && Regular(w.store)
    ensures Inv(Next(w, Append(x)))
  {
    hide Shippable, Position, Owed, WindowStart, Regular;
    WindowGrow(w.store, x, w.dedupe.wall);
    WindowOf(w.store, w.from);
    if w.phase == Backfill {
      OwedGrow(w.store, x, w.from + 1, Reached(w));
    }
  }

  /** A backfill attempt on a regular store: pass over what cannot be read and what the
      checkpoint covers, hold a refused line, record the rest. */
  lemma AttemptIs(w: World, accept: bool, saveOk: bool)
    requires Inv(w) && Regular(w.store) && w.phase == Backfill && w.next < |w.store|
    ensures var i, e := w.next, w.store[w.next];
            Next(w, Attempt(accept, saveOk))
            == if e.length > MAX_LINE_LEN || !e.parses || (e.isLog && i <= w.from) then w.(next := i + 1)
               else if Shippable(e) && !accept then w
               else RecordEntry(w, Handled(Position(e), Shippable(e)), i, saveOk)
  {
    hide WindowStart, Regular, Deduped, Owed, RecordEntry, Position;
    DedupeExact(w.store, w.from, w.next);
    RecordNothing(w, saveOk);
  }

  lemma RecordNothing(w: World, saveOk: bool)
    ensures RecordEntry(w, Handled(None, false), w.next, saveOk) == w.(next := w.next + 1, stalled := None)
  {
  }

  lemma RecordFrame(w: World, o: Outcome, i: nat, saveOk: bool)
    requires o.Handled?
    ensures var v := RecordEntry(w, o, i, saveOk);
            && v.phase == w.phase && v.from == w.from && v.store == w.store && v.dedupe == w.dedupe
            && v.next == i + 1 && v.stalled == None
            && v.shipped == (if o.shipped then w.shipped + [i] else w.shipped)
            && v.ever == (if o.shipped then w.ever + {i} else w.ever)
            && (o.at.Some? ==> v.at == i && v.last == o.at.value)
            && ((v.saved == w.saved && v.durable == w.durable) || (o.at.Some? && v.saved == i && v.durable == o.at.value))
            && (w.sinceSave < CURSOR_SAVE_INTERVAL ==> v.sinceSave < CURSOR_SAVE_INTERVAL)
            && (o.at.None? ==> v.at == w.at && v.last == w.last && v.saved == w.saved && v.durable == w.durable)
  {
  }

  /** Passing over a line that is not owed, or that the checkpoint covers. */
  lemma PassKeeps(w: World)
    requires Inv(w) && w.phase == Backfill && w.next < |w.store|
    requires w.next <= w.from || !Shippable(w.store[w.next])
    ensures Inv(w.(next := w.next + 1))
  {
    hide WindowStart, Position, Shippable, Owed;
    OwedStep(w.store, w.from + 1, w.next);
  }

  lemma RecordKeeps(w: World, saveOk: bool)
    requires Inv(w) && w.phase == Backfill && w.next < |w.store| && Position(w.store[w.next]).Some?
    requires w.next > w.from || !Shippable(w.store[w.next])
    ensures Inv(RecordEntry(w, Handled(Position(w.store[w.next]), Shippable(w.store[w.next])), w.next, saveOk))
  {
    hide WindowStart, RecordEntry, Position, Shippable, Owed;
    RecordFrame(w, Handled(Position(w.store[w.next]), Shippable(w.store[w.next])), w.next, saveOk);
    OwedStep(w.store, w.from + 1, w.next);
  }

  lemma AttemptKeeps(w: World, accept: bool, saveOk: bool)
    requires Inv(w) && Regular(w.store)
    ensures Inv(Next(w, Attempt(accept, saveOk)))
  {
    hide WindowStart, Regular, Process, RecordEntry, Position, Shippable, Owed;
    if w.phase == Backfill && w.next < |w.store| {
      hide Next, Inv;
      var i, e := w.next, w.store[w.next];
      AttemptIs(w, accept, saveOk);
      RegularAt(w.store, i);
      NotOwed(e);
      if i <= w.from || !Shippable(e) { PassKeeps(w); }
      if i > w.from || !Shippable(e) { RecordKeeps(w, saveOk); }
    }
  }

  lemma NotOwed(e: Entry)
    ensures e.length > MAX_LINE_LEN || !e.parses || !e.isLog ==> !Shippable(e)
  {
  }

  lemma OwedStep(store: seq<Entry>, start: nat, i: nat)
    requires i < |store| && start <= |store|
    ensures Owed(store, start, start) == []
    ensures start <= i ==> Owed(store, start, i + 1) == Owed(store, start, i) + if Shippable(store[i]) then [i] else []
  {
    hide Shippable;
  }

  lemma RegularAt(store: seq<Entry>, i: nat)
    requires Regular(store) && i < |store|
    ensures Position(store[i]).Some?
  {
  }

  lemma DeliverKeeps(w: World, i: nat, accept: bool, saveOk: bool)
    requires Inv(w) && Regular(w.store)
    ensures Inv(Next(w, Deliver(i, accept, saveOk)))
  {
    hide WindowStart, Regular, Owed, RecordEntry, Position;
    if i < |w.store| {
      RegularAt(w.store, i);
      var o := Process(w.store[i], None, accept);
      if o.Handled? { RecordFrame(w, o, i, saveOk); }
    }
  }

  lemma NextKeeps(w: World, e: Event)
    requires Inv(w) && Regular(w.store)
    ensures Inv(Next(w, e))
  {
    hide Regular, Owed, WindowStart, StartBackfill, Process, Position, Shippable;
    match e {
      case Append(x) => AppendKeeps(w, x);
      case Attempt(accept, saveOk) => AttemptKeeps(w, accept, saveOk);
      case GoLive(saveOk) => SaveKeeps(w, saveOk);
      case Deliver(i, accept, saveOk) => DeliverKeeps(w, i, accept, saveOk);
      case Reconcile(saveOk) => StartKeeps(SaveFinal(w, saveOk));
      case Interrupt(saveOk) => StartKeeps(SaveFinal(w, saveOk));
      case Crash => StartKeeps(w);
    }
  }

  lemma {:induction false} RunKeeps(store: seq<Entry>, k: nat, events: seq<Event>)
    requires k < |store| && Position(store[k]).Some? && Regular(Run(Begin(store, k), events).store)
    ensures Inv(Run(Begin(store, k), events))
  {
    hide Inv, Process;
    if events == [] {
      StartKeeps(Begin(store, k));
    } else {
      var p, e := events[..|events| - 1], events[|events| - 1];
      var w := Run(Begin(store, k), p);
      StoreGrows(w, e);
      RegularPrefix(w.store, Next(w, e).store);
      RunKeeps(store, k, p);
      hide Next;
      NextKeeps(w, e);
    }
  }

  lemma StoreGrows(w: World, e: Event)
    ensures w.store <= Next(w, e).store
  {
    hide Process;
  }

  lemma RegularPrefix(a: seq<Entry>, b: seq<Entry>)
    requires a <= b && Regular(b)
    ensures Regular(a)
  {
    assert forall i :: 0 <= i < |a| ==> a[i] == b[i];
  }

  // ---------------------------------------------------------------- results

  /** Replay: in every run, a backfill ships exactly the owed entries after its checkpoint, in
      order and once each, up to the line it has reached, whatever the sink refuses and
      whichever checkpoint writes fail; and when the store is drained, all of them. */
  lemma BackfillExact(store: seq<Entry>, k: nat, events: seq<Event>)
    requires k < |store| && Position(store[k]).Some? && Regular(Run(Begin(store, k), events).store)
    ensures var w := Run(Begin(store, k), events);
            w.phase == Backfill ==>
              && w.from < Reached(w) <= |w.store| && Position(w.store[w.from]) == Some(w.dedupe)
              && w.shipped == Owed(w.store, w.from + 1, Reached(w))
              && (w.next == |w.store| ==> w.shipped == Owed(w.store, w.from + 1, |w.store|))
  {
    hide Run, Regular, Owed;
    RunKeeps(store, k, events);
  }

  // ---------------------------------------------------------------- nothing is lost

  /** Every owed entry between the first checkpoint and the settled lines has been shipped. */
  predicate NoLoss(w: World, k: nat) {
    Reached(w) <= |w.store| && forall i :: k < i < Reached(w) && Shippable(w.store[i]) ==> i in w.ever
  }

  /** The stream skips nothing: every delivered entry is the next one. */
  predicate Gapless(w: World, events: seq<Event>) {
    events != [] ==>
      var p, e := events[..|events| - 1], events[|events| - 1];
      Gapless(w, p) && (e.Deliver? ==> e.index == Run(w, p).next)
  }

  lemma AttemptNoLoss(w: World, k: nat, accept: bool, saveOk: bool)
    requires Inv(w) && Regular(w.store) && NoLoss(w, k)
    ensures NoLoss(Next(w, Attempt(accept, saveOk)), k)
  {
    hide WindowStart, Regular, Process, RecordEntry, Position, Shippable, Owed;
    if w.phase == Backfill && w.next < |w.store| {
      hide Next;
      var e := w.store[w.next];
      AttemptIs(w, accept, saveOk);
      NotOwed(e);
      RecordFrame(w, Handled(Position(e), Shippable(e)), w.next, saveOk);
    }
  }

  lemma DeliverNoLoss(w: World, k: nat, accept: bool, saveOk: bool)
    requires Inv(w) && NoLoss(w, k)
    ensures NoLoss(Next(w, Deliver(w.next, accept, saveOk)), k)
  {
    hide WindowStart, RecordEntry, Position, Owed;
    if w.next < |w.store| {
      var o := Process(w.store[w.next], None, accept);
      if o.Handled? { RecordFrame(w, o, w.next, saveOk); }
    }
  }

  lemma RestartNoLoss(w: World, k: nat, saveOk: bool)
    requires Inv(w) && Regular(w.store) && NoLoss(w, k)
    ensures NoLoss(StartBackfill(SaveFinal(w, saveOk)), k) && NoLoss(SaveFinal(w, saveOk), k)
  {
    hide WindowStart, Regular, Position, Owed, Shippable;
    WindowOf(w.store, w.saved);
    WindowOf(w.store, w.at);
  }

  lemma NextNoLoss(w: World, k: nat, e: Event)
    requires Inv(w) && Regular(w.store) && NoLoss(w, k) && (e.Deliver? ==> e.index == w.next)
    ensures NoLoss(Next(w, e), k)
  {
    hide Regular, Owed, WindowStart, StartBackfill, Process, Position, Shippable;
    match e {
      case Append(x) =>
      case Attempt(accept, saveOk) => AttemptNoLoss(w, k, accept, saveOk);
      case GoLive(saveOk) =>
      case Deliver(i, accept, saveOk) => DeliverNoLoss(w, k, accept, saveOk);
      case Reconcile(saveOk) => RestartNoLoss(w, k, saveOk);
      case Interrupt(saveOk) => RestartNoLoss(w, k, saveOk);
      case Crash => RestartNoLoss(w, k, false);
    }
  }

  lemma {:induction false} RunNoLoss(store: seq<Entry>, k: nat, events: seq<Event>)
    requires k < |store| && Position(store[k]).Some? && Regular(Run(Begin(store, k), events).store)
    requires Gapless(Begin(store, k), events)
    ensures NoLoss(Run(Begin(store, k), events), k)
  {
    hide Inv, Process, Regular, NoLoss;
    if events == [] {
      BeginNoLoss(store, k);
    } else {
      var p, e := events[..|events| - 1], events[|events| - 1];
      var w := Run(Begin(store, k), p);
      StoreGrows(w, e);
      RegularPrefix(w.store, Next(w, e).store);
      RunNoLoss(store, k, p);
      RunKeeps(store, k, p);
      hide Next;
      NextNoLoss(w, k, e);
    }
  }

  lemma BeginNoLoss(store: seq<Entry>, k: nat)
    requires Regular(store) && k < |store|
    ensures NoLoss(Begin(store, k), k)
  {
    hide Shippable;
    WindowOf(store, k);
  }

  /** No loss, over every run of phases, stalls, interruptions, failed checkpoint writes and
      crashes in which the stream skips nothing: every owed entry from the first checkpoint
      up to the recorded one, and up to the durable one a crash resumes from, was shipped. */
  lemma NothingLost(store: seq<Entry>, k: nat, events: seq<Event>, i: nat)
    requires k < |store| && Position(store[k]).Some? && Regular(Run(Begin(store, k), events).store)
    requires Gapless(Begin(store, k), events)
    requires var w := Run(Begin(store, k), events); k < i < |w.store| && Shippable(w.store[i])
    ensures var w := Run(Begin(store, k), events);
            (i <= w.at || i <= w.saved || i < Reached(w)) ==> i in w.ever
  {
    hide Run, Regular, Owed, Shippable, Gapless, WindowStart;
    RunKeeps(store, k, events);
    RunNoLoss(store, k, events);
  }

  // ---------------------------------------------------------------- checkpoints

  /** Stores whose every line is read and is a log or trace event. */
  predicate Plain(store: seq<Entry>) {
    forall i :: 0 <= i < |store| ==> store[i].length <= MAX_LINE_LEN && store[i].parses && store[i].isLog
  }

  predicate Trail(w: World) {
    w.saved <= w.at && (w.phase == Backfill ==> w.at == Reached(w) - 1)
  }

  lemma NextTrail(w: World, e: Event)
    requires Inv(w) && Regular(w.store) && Plain(w.store) && Trail(w)
    ensures Trail(Next(w, e))
  {
    hide WindowStart, Regular, Owed, Position, Deduped, RecordEntry;
    match e {
      case Append(x) =>
      case Attempt(accept, saveOk) =>
        if w.phase == Backfill && w.next < |w.store| {
          AttemptIs(w, accept, saveOk);
          RegularAt(w.store, w.next);
          RecordFrame(w, Handled(Position(w.store[w.next]), Shippable(w.store[w.next])), w.next, saveOk);
        }
      case GoLive(saveOk) =>
      case Deliver(i, accept, saveOk) => DeliverTrail(w, i, accept, saveOk);
      case Reconcile(saveOk) => StartTrail(SaveFinal(w, saveOk));
      case Interrupt(saveOk) => StartTrail(SaveFinal(w, saveOk));
      case Crash => StartTrail(w);
    }
  }

  lemma DeliverTrail(w: World, i: nat, accept: bool, saveOk: bool)
    requires Inv(w) && Trail(w)
    ensures Trail(Next(w, Deliver(i, accept, saveOk)))
  {
    hide WindowStart, Owed, Position, RecordEntry, Shippable;
    if i < |w.store| {
      var o := Process(w.store[i], None, accept);
      if o.Handled? { RecordFrame(w, o, i, saveOk); }
    }
  }

  lemma StartTrail(w: World)
    requires Regular(w.store) && w.saved < |w.store| && Position(w.store[w.saved]) == Some(w.durable)
    ensures Trail(StartBackfill(w))
  {
    WindowOf(w.store, w.saved);
  }

  lemma {:induction false} RunTrail(store: seq<Entry>, k: nat, events: seq<Event>)
    requires k < |store| && Position(store[k]).Some?
    requires var s := Run(Begin(store, k), events).store; Regular(s) && Plain(s)
    ensures Trail(Run(Begin(store, k), events))
  {
    hide Inv, Process, Regular, Plain, Trail;
    if events == [] {
      StartTrail(Begin(store, k));
    } else {
      var p, e := events[..|events| - 1], events[|events| - 1];
      var w := Run(Begin(store, k), p);
      StoreGrows(w, e);
      RegularPrefix(w.store, Next(w, e).store);
      PlainPrefix(w.store, Next(w, e).store);
      RunTrail(store, k, p);
      RunKeeps(store, k, p);
      hide Next;
      NextTrail(w, e);
    }
  }

  lemma PlainPrefix(a: seq<Entry>, b: seq<Entry>)
    requires a <= b && Plain(b)
    ensures Plain(a)
  {
    assert forall i :: 0 <= i < |a| ==> a[i] == b[i];
  }

  /** Checkpoints never run ahead: on log and trace entries the durable one is a store entry
      at or before the last recorded one, which is the last settled line of a backfill. */
  lemma CheckpointsTrail(store: seq<Entry>, k: nat, events: seq<Event>)
    requires k < |store| && Position(store[k]).Some?
    requires var s := Run(Begin(store, k), events).store; Regular(s) && Plain(s)
    ensures var w := Run(Begin(store, k), events);
            && w.saved <= w.at < Reached(w) <= |w.store|
            && Position(w.store[w.at]) == Some(w.last) && Position(w.store[w.saved]) == Some(w.durable)
            && (w.phase == Backfill ==> w.at == Reached(w) - 1)
  {
    hide Run, Regular, Owed, Plain;
    RunKeeps(store, k, events);
    RunTrail(store, k, events);
  }

  /** When a backfill line moves the recorded position back: exactly when it is a structural
      entry before it, because those are recorded ahead of the dedupe test. */
  lemma MovesBackExactly(store: seq<Entry>, k: nat, events: seq<Event>, accept: bool, saveOk: bool)
    requires k < |store| && Position(store[k]).Some? && Regular(Run(Begin(store, k), events).store)
    requires var w := Run(Begin(store, k), events); w.phase == Backfill && w.next < |w.store|
    ensures var w := Run(Begin(store, k), events);
            Next(w, Attempt(accept, saveOk)).at < w.at <==> Structural(w.store[w.next]) && w.next < w.at
  {
    hide Run, Regular, Owed, Position, WindowStart, RecordEntry, Next;
    RunKeeps(store, k, events);
    var w := Run(Begin(store, k), events);
    AttemptIs(w, accept, saveOk);
    RegularAt(w.store, w.next);
    RecordFrame(w, Handled(Position(w.store[w.next]), Shippable(w.store[w.next])), w.next, saveOk);
  }

  // ---------------------------------------------------------------- what a crash replays

  predicate SaveWorks(e: Event) {
    match e
    case Attempt(_, ok) => ok
    case GoLive(ok) => ok
    case Deliver(_, _, ok) => ok
    case Reconcile(ok) => ok
    case Interrupt(ok) => ok
    case _ => true
  }

  predicate SavesSucceed(events: seq<Event>) { forall i :: 0 <= i < |events| ==> SaveWorks(events[i]) }

  /** The checkpoint on disk is the last one recorded but for what was recorded since. */
  predicate Lag(w: World) {
    && |w.unsaved| <= w.sinceSave < CURSOR_SAVE_INTERVAL
    && (w.unsaved == [] ==> w.durable == w.last && w.saved == w.at)
    && (w.unsaved != [] ==> w.unsaved[|w.unsaved| - 1] == w.at)
  }

  lemma RecordLag(w: World, o: Outcome, i: nat)
    requires Lag(w) && o.Handled?
    ensures Lag(RecordEntry(w, o, i, true))
  {
  }

  lemma NextLag(w: World, e: Event)
    requires Lag(w) && SaveWorks(e)
    ensures Lag(Next(w, e))
  {
    hide WindowStart, RecordEntry, Process;
    match e {
      case Attempt(accept, ok) =>
        if w.phase == Backfill && w.next < |w.store| {
          var o := Process(w.store[w.next], Some(w.dedupe), accept);
          if o.Handled? { RecordLag(w, o, w.next); }
        }
      case Deliver(i, accept, ok) =>
        if i < |w.store| {
          var o := Process(w.store[i], None, accept);
          if o.Handled? { RecordLag(w, o, i); }
        }
      case _ =>
    }
  }

  lemma {:induction false} RunLag(w: World, events: seq<Event>)
    requires Lag(w) && SavesSucceed(events)
    ensures Lag(Run(w, events))
  {
    hide Lag, Next, SaveWorks;
    if events != [] {
      RunLag(w, events[..|events| - 1]);
      NextLag(Run(w, events[..|events| - 1]), events[|events| - 1]);
    }
  }

  /** With working saves at most 99 positions have been recorded since the checkpoint on disk:
      when there are none it is the last one recorded, and a crash starts again from it. */
  lemma CrashReplays(store: seq<Entry>, k: nat, events: seq<Event>)
    requires k < |store| && Position(store[k]).Some? && SavesSucceed(events)
    ensures var w := Run(Begin(store, k), events);
            && |w.unsaved| <= 99
            && (w.unsaved == [] ==> w.durable == w.last && w.saved == w.at)
            && (w.unsaved != [] ==> w.unsaved[|w.unsaved| - 1] == w.at)
            && Next(w, Crash).from == w.saved && Next(w, Crash).dedupe == w.durable
  {
    hide Run, WindowStart;
    RunLag(Begin(store, k), events);
  }

  /** Every end of a phase saves: with a working write nothing recorded is left unsaved when the
      stream is followed, and a stall, an interruption or a cancellation starts again exactly
      where the last position was recorded. */
  lemma PhaseEndsSave(w: World)
    ensures var v := Next(w, GoLive(true));
            w.phase == Backfill && w.next == |w.store| ==>
              v.phase == Live && v.durable == v.last == w.last && v.saved == w.at && v.unsaved == []
    ensures var v := Next(w, Interrupt(true));
            v.phase == Backfill && v.dedupe == v.durable == v.last == w.last && v.from == v.saved == w.at
    ensures w.phase == Live && w.stalled.Some? ==> Next(w, Reconcile(true)) == Next(w, Interrupt(true))
    ensures Next(w, Interrupt(false)) == Next(w, Crash)
  {
    hide WindowStart;
  }

  /** Every position recorded is on the list until a save takes it off: an outcome with a
      position adds exactly it, and only a save that succeeds empties the list. */
  lemma UnsavedGrows(w: World, o: Outcome, i: nat, saveOk: bool)
    requires o.Handled?
    ensures var v := RecordEntry(w, o, i, saveOk);
            if o.at.None? then v.unsaved == w.unsaved
            else v.at == i && v.last == o.at.value
                 && (v.unsaved == w.unsaved + [i] || (v.unsaved == [] && v.durable == v.last && v.saved == i))
  {
  }

  // ---------------------------------------------------------------- what a move back costs

  /** A backfill from `from` records the position of this line when it passes it. */
  predicate Records(store: seq<Entry>, from: nat, i: nat)
    requires i < |store|
  {
    Structural(store[i]) || (i > from && store[i].length <= MAX_LINE_LEN && store[i].parses)
  }

  /** The recorded position is that of the last line of the window that records one, or the
      checkpoint if none does. */
  predicate LastRecorded(w: World) {
    w.phase == Backfill && w.next <= |w.store| ==>
      var n := WindowStart(w.store, w.dedupe.wall);
      || (w.at == w.from && forall i :: n <= i < w.next ==> !Records(w.store, w.from, i))
      || (n <= w.at < w.next && Records(w.store, w.from, w.at)
          && forall i :: w.at < i < w.next ==> !Records(w.store, w.from, i))
  }

  lemma AttemptLast(w: World, accept: bool, saveOk: bool)
    requires Inv(w) && Regular(w.store) && LastRecorded(w)
    ensures LastRecorded(Next(w, Attempt(accept, saveOk)))
  {
    hide WindowStart, Regular, Owed, Position, RecordEntry, Process, Next;
    if w.phase == Backfill && w.next < |w.store| {
      AttemptIs(w, accept, saveOk);
      RegularAt(w.store, w.next);
      RecordFrame(w, Handled(Position(w.store[w.next]), Shippable(w.store[w.next])), w.next, saveOk);
    } else {
      NoAttempt(w, accept, saveOk);
    }
  }

  lemma NoAttempt(w: World, accept: bool, saveOk: bool)
    requires w.phase != Backfill || w.next >= |w.store|
    ensures Next(w, Attempt(accept, saveOk)) == w
  {
    hide Process;
  }

  lemma AppendLast(w: World, x: Entry)
    requires Inv(w) && Regular(w.store) && LastRecorded(w)
    ensures LastRecorded(Next(w, Append(x)))
  {
    hide WindowStart, Regular, Owed, Position, Structural;
    WindowGrow(w.store, x, w.dedupe.wall);
    WindowOf(w.store, w.from);
    var s := w.store + [x];
    assert forall i :: 0 <= i < |w.store| ==> s[i] == w.store[i];
    assert forall i :: 0 <= i < |w.store| ==> Records(s, w.from, i) == Records(w.store, w.from, i);
  }

  lemma StartLast(w: World)
    ensures LastRecorded(StartBackfill(w))
  {
    hide WindowStart;
  }

  lemma NextLast(w: World, e: Event)
    requires Inv(w) && Regular(w.store) && LastRecorded(w)
    ensures LastRecorded(Next(w, e))
  {
    hide Regular, Owed, WindowStart, StartBackfill, Process, Position, Shippable, Inv, LastRecorded, RecordEntry;
    match e {
      case Append(x) => AppendLast(w, x);
      case Attempt(accept, saveOk) => AttemptLast(w, accept, saveOk);
      case GoLive(saveOk) => LiveLast(Next(w, e));
      case Deliver(i, accept, saveOk) => DeliverLast(w, i, accept, saveOk);
      case Reconcile(saveOk) => StartLast(SaveFinal(w, saveOk));
      case Interrupt(saveOk) => StartLast(SaveFinal(w, saveOk));
      case Crash => StartLast(w);
    }
  }

  lemma LiveLast(w: World)
    ensures w.phase == Live ==> LastRecorded(w)
  {
  }

  lemma DeliverLast(w: World, i: nat, accept: bool, saveOk: bool)
    requires LastRecorded(w)
    ensures LastRecorded(Next(w, Deliver(i, accept, saveOk)))
  {
    hide LastRecorded, Process, RecordEntry;
    var v := Next(w, Deliver(i, accept, saveOk));
    if v != w {
      var o := Process(w.store[i], None, accept);
      if o.Handled? { RecordFrame(w, o, i, saveOk); }
      LiveLast(v);
    }
  }

  lemma {:induction false} RunLast(store: seq<Entry>, k: nat, events: seq<Event>)
    requires k < |store| && Position(store[k]).Some? && Regular(Run(Begin(store, k), events).store)
    ensures LastRecorded(Run(Begin(store, k), events))
  {
    hide Inv, Process, Regular, LastRecorded;
    if events == [] {
      StartLast(Begin(store, k));
    } else {
      var p, e := events[..|events| - 1], events[|events| - 1];
      var w := Run(Begin(store, k), p);
      StoreGrows(w, e);
      RegularPrefix(w.store, Next(w, e).store);
      RunLast(store, k, p);
      RunKeeps(store, k, p);
      hide Next;
      NextLast(w, e);
    }
  }

  /** An entry at or before the checkpoint of a drained backfill will be shipped again after a
      clean restart: a structural line of the window lies before it, none from it to the
      checkpoint, and no line after the checkpoint can be read. */
  predicate Repeats(store: seq<Entry>, from: nat, wall: nat, j: nat)
    requires j <= from < |store|
  {
    && (exists i :: WindowStart(store, wall) <= i < j && Structural(store[i]))
    && (forall i :: j <= i <= from ==> !Structural(store[i]))
    && (forall i :: from < i < |store| ==> store[i].length > MAX_LINE_LEN || !store[i].parses)
  }

  lemma RepeatsBack(w: World, j: nat)
    requires w.from < |w.store| && w.at < |w.store|
    requires LastRecorded(w) && w.phase == Backfill && w.next == |w.store| && j <= w.from
    requires Repeats(w.store, w.from, w.dedupe.wall, j)
    ensures w.at < j
  {
    hide WindowStart;
    var i :| WindowStart(w.store, w.dedupe.wall) <= i < j && Structural(w.store[i]);
    assert Records(w.store, w.from, i);
    assert Records(w.store, w.from, w.at);
  }

  lemma BackRepeats(w: World, j: nat)
    requires w.from < |w.store| && w.at < |w.store|
    requires LastRecorded(w) && w.phase == Backfill && w.next == |w.store| && w.at < j <= w.from
    ensures Repeats(w.store, w.from, w.dedupe.wall, j)
  {
    hide Structural, WindowStart;
    assert Records(w.store, w.from, w.at);
    assert Structural(w.store[w.at]);
    forall i | j <= i <= w.from ensures !Structural(w.store[i]) {
      assert !Records(w.store, w.from, i);
    }
    forall i | w.from < i < |w.store| ensures w.store[i].length > MAX_LINE_LEN || !w.store[i].parses {
      assert !Records(w.store, w.from, i);
    }
  }

  /** What the move back costs, exactly: after any run, a drained backfill and a clean restart
      with a working save, the next backfill that drains the store ships an owed entry at or
      before the old checkpoint if and only if `Repeats` holds of it; no crash and no refusal
      is needed. */
  lemma ShippedAgainExactly(store: seq<Entry>, k: nat, events: seq<Event>, more: seq<Event>, j: nat)
    requires k < |store| && Position(store[k]).Some?
    requires forall i :: 0 <= i < |more| ==> more[i].Attempt? || more[i].Append?
    requires Regular(Run(Begin(store, k), events + [Interrupt(true)] + more).store)
    requires var w := Run(Begin(store, k), events); w.phase == Backfill && w.next == |w.store| && j <= w.from
    requires var v := Run(Begin(store, k), events + [Interrupt(true)] + more); v.next == |v.store|
    ensures var w := Run(Begin(store, k), events);
            var v := Run(Begin(store, k), events + [Interrupt(true)] + more);
            && j <= w.from < |w.store| && w.store <= v.store
            && (j in v.shipped <==> Shippable(w.store[j]) && Repeats(w.store, w.from, w.dedupe.wall, j))
  {
    hide Run, Regular, Inv, Next, Begin, Shippable, Owed, LastRecorded, Repeats;
    var w := Run(Begin(store, k), events);
    var e := Interrupt(true);
    PrefixRegular(Begin(store, k), events + [e], more);
    PrefixRegular(Begin(store, k), events, [e]);
    RunKeeps(store, k, events);
    RunLast(store, k, events);
    InvFrom(w);
    RunSnoc(Begin(store, k), events, e);
    InterruptFrom(w);
    BackfillStays(Begin(store, k), events + [e], more);
    BackfillExact(store, k, events + [e] + more);
    var v := Run(Begin(store, k), events + [e] + more);
    OwedIff(v.store, w.at + 1, |v.store|, j);
    if w.at < j { BackRepeats(w, j); } else if Repeats(w.store, w.from, w.dedupe.wall, j) { RepeatsBack(w, j); }
    assert v.store[j] == w.store[j];
  }

  lemma InvFrom(w: World)
    requires Inv(w)
    ensures w.from < |w.store| && w.at < |w.store|
  {
  }

  lemma InterruptFrom(w: World)
    ensures var r := Next(w, Interrupt(true)); r.phase == Backfill && r.from == w.at && r.store == w.store
  {
    hide WindowStart;
  }

  lemma {:induction false} OwedIff(store: seq<Entry>, start: nat, end: nat, i: nat)
    requires end <= |store| && i < |store|
    ensures i in Owed(store, start, end) <==> start <= i < end && Shippable(store[i])
    decreases end
  {
    hide Shippable;
    if start < end {
      OwedIff(store, start, end - 1, i);
    }
  }

  // ---------------------------------------------------------------- reconcile

  lemma {:induction false} OwedHas(store: seq<Entry>, start: nat, end: nat, i: nat)
    requires end <= |store| && start <= i < end && Shippable(store[i])
    ensures i in Owed(store, start, end)
    decreases end
  {
    if i < end - 1 {
      OwedHas(store, start, end - 1, i);
    }
  }

  /** Reconcile: a stalled Live phase goes back to Backfill at the last recorded entry, or at
      the durable one if the write fails; if that backfill drains the store, the refused
      entry is among what it ships. */
  lemma RefusedReplayed(store: seq<Entry>, k: nat, events: seq<Event>, saveOk: bool, more: seq<Event>)
    requires k < |store| && Position(store[k]).Some?
    requires Run(Begin(store, k), events).stalled.Some?
    requires forall i :: 0 <= i < |more| ==> more[i].Attempt? || more[i].Append?
    requires Regular(Run(Begin(store, k), events + [Reconcile(saveOk)] + more).store)
    ensures var j := Run(Begin(store, k), events).stalled.value;
            var v := Run(Begin(store, k), events + [Reconcile(saveOk)] + more);
            v.phase == Backfill && v.from < j && (v.next == |v.store| ==> j in v.shipped)
  {
    hide Run, Regular, Inv, Next, Begin, Shippable, Owed;
    var w := Run(Begin(store, k), events);
    var j, r := w.stalled.value, Reconcile(saveOk);
    PrefixRegular(Begin(store, k), events + [r], more);
    PrefixRegular(Begin(store, k), events, [r]);
    RunKeeps(store, k, events);
    InvStall(w);
    RunSnoc(Begin(store, k), events, r);
    ReconcileFrom(w, saveOk);
    BackfillStays(Begin(store, k), events + [r], more);
    BackfillExact(store, k, events + [r] + more);
    var v := Run(Begin(store, k), events + [r] + more);
    if v.next == |v.store| {
      OwedHas(v.store, v.from + 1, |v.store|, j);
    }
  }

  lemma ReconcileFrom(w: World, saveOk: bool)
    requires w.stalled.Some? && w.phase == Live
    ensures var r := Next(w, Reconcile(saveOk));
            r.phase == Backfill && r.from == (if saveOk then w.at else w.saved) && r.store == w.store
  {
    hide WindowStart;
  }

  lemma InvStall(w: World)
    requires Inv(w) && w.stalled.Some?
    ensures w.phase == Live && w.at < w.stalled.value < |w.store| && w.saved < w.stalled.value
    ensures Shippable(w.store[w.stalled.value])
  {
    hide Owed, WindowStart, Shippable;
  }

  lemma RunSnoc(w: World, events: seq<Event>, e: Event)
    ensures Run(w, events + [e]) == Next(Run(w, events), e)
  {
    hide Next;
    assert (events + [e])[..|events|] == events;
  }

  lemma {:induction false} PrefixRegular(w: World, events: seq<Event>, more: seq<Event>)
    requires Regular(Run(w, events + more).store)
    ensures Regular(Run(w, events).store)
    decreases |more|
  {
    hide Regular, Next;
    if more == [] {
      assert events + more == events;
    } else {
      var n := |more| - 1;
      assert events + more == (events + more[..n]) + [more[n]];
      RunSnoc(w, events + more[..n], more[n]);
      StoreGrows(Run(w, events + more[..n]), more[n]);
      RegularPrefix(Run(w, events + more[..n]).store, Run(w, events + more).store);
      PrefixRegular(w, events, more[..n]);
    }
  }

  /** Attempts and growth stay in the same backfill. */
  lemma {:induction false} BackfillStays(w: World, events: seq<Event>, more: seq<Event>)
    requires Run(w, events).phase == Backfill
    requires forall i :: 0 <= i < |more| ==> more[i].Attempt? || more[i].Append?
    ensures var u, v := Run(w, events), Run(w, events + more);
            v.phase == Backfill && v.from == u.from && u.store <= v.store
    decreases |more|
  {
    hide Process, RecordEntry;
    if more == [] {
      assert events + more == events;
    } else {
      var n := |more| - 1;
      assert events + more == (events + more[..n]) + [more[n]];
      RunSnoc(w, events + more[..n], more[n]);
      BackfillStays(w, events, more[..n]);
      hide Run;
      var u := Run(w, events + more[..n]);
      if u.next < |u.store| && more[n].Attempt? {
        var o := Process(u.store[u.next], Some(u.dedupe), more[n].accept);
        if o.Handled? { RecordFrame(u, o, u.next, more[n].saveOk); }
      }
    }
  }

  /** An instance: a structural entry inside the window moves the recorded position back
      before the checkpoint. */
  lemma StructuralMovesBack()
    ensures var marker := Entry(80, true, false, Some("b"), Some(1), Some(5), false, None);
            var shipped := Entry(80, true, true, Some("b"), Some(2), Some(5), false, Some("x"));
            var w := Next(Begin([marker, shipped], 1), Attempt(true, true));
            w.dedupe.mach == 2 && w.last.mach == 1
  {
    var marker := Entry(80, true, false, Some("b"), Some(1), Some(5), false, None);
    var shipped := Entry(80, true, true, Some("b"), Some(2), Some(5), false, Some("x"));
    assert WindowStart([marker, shipped], 5) == 0;
  }

  /** An instance of what it costs: with that store a drained backfill saves the marker's
      position, and after a clean restart the checkpointed entry is shipped again. */
  lemma ShippedAgain()
    ensures var marker := Entry(80, true, false, Some("b"), Some(1), Some(5), false, None);
            var shipped := Entry(80, true, true, Some("b"), Some(2), Some(5), false, Some("x"));
            var w := Next(Next(Begin([marker, shipped], 1), Attempt(true, true)), Attempt(true, true));
            var v := Next(Next(Next(w, Interrupt(true)), Attempt(true, true)), Attempt(true, true));
            w.next == 2 && w.shipped == [] && v.next == 2 && v.shipped == [1]
  {
    hide WindowStart;
    var marker := Entry(80, true, false, Some("b"), Some(1), Some(5), false, None);
    var shipped := Entry(80, true, true, Some("b"), Some(2), Some(5), false, Some("x"));
    var s := [marker, shipped];
    WindowAll(s, 5);
    var b := Begin(s, 1);
    var w1 := Next(b, Attempt(true, true));
    assert w1.next == 1 && w1.at == 0 && w1.shipped == [];
    var w := Next(w1, Attempt(true, true));
    assert w.next == 2 && w.at == 0 && w.shipped == [];
    var r := Next(w, Interrupt(true));
    assert r.next == 0 && r.from == 0 && r.dedupe.mach == 1;
    var v1 := Next(r, Attempt(true, true));
    assert v1.next == 1 && v1.shipped == [];
  }

  lemma WindowAll(store: seq<Entry>, wall: nat)
    requires store != [] && store[0].wall == Some(wall)
    ensures WindowStart(store, wall) == 0
  {
  }

  // ---------------------------------------------------------------- the reader

  const BACKPRESSURE_RECONCILE: nat := 5000

  /** `ReaderState` with the checkpoint file. */
  datatype Reader = Reader(last: Option<Checkpoint>, sinceSave: nat, dropped: nat, durable: Option<Checkpoint>)

  /** The bookkeeping after an outcome: a position is recorded, and saved every hundred. */
  function Recorded(r: Reader, o: Outcome, saveOk: bool): Reader {
    match o
    case ChannelFull => r
    case ParseFailed => r.(dropped := r.dropped + 1)
    case Handled(None, _) => r
    case Handled(Some(cp), _) =>
      if r.sinceSave + 1 >= CURSOR_SAVE_INTERVAL
      then r.(last := Some(cp), sinceSave := 0, durable := if saveOk then Some(cp) else r.durable)
      else r.(last := Some(cp), sinceSave := r.sinceSave + 1)
  }

  /** One attempt at a line: the sink's answer if asked, and the time. */
  datatype Try = Try(accept: bool, now: nat)

  datatype LineOutcome = Done | Cancelled | Stalled

  class UnifiedReader {
    var last: Option<Checkpoint>
    var sinceSave: nat
    var dropped: nat
    /** Since when the channel has been full without a break. */
    var fullSince: Option<nat>
    /** The checkpoint file. */
    var durable: Option<Checkpoint>
    /** Positions of the lines the sink took. */
    var shipped: seq<nat>

    constructor (initial: Option<Checkpoint>)
      ensures last == durable == initial && sinceSave == 0 && dropped == 0 && fullSince == None && shipped == []
    {
      last, durable, sinceSave, dropped, fullSince, shipped := initial, initial, 0, 0, None, [];
    }

    function State(): Reader
      reads this
    {
      Reader(last, sinceSave, dropped, durable)
    }

    /** `ReaderState::record`: whether the line is finished with. */
    method Record(o: Outcome, saveOk: bool) returns (advanced: bool)
      modifies this`last, this`sinceSave, this`durable, this`dropped
      ensures advanced == !o.ChannelFull? && State() == Recorded(old(State()), o, saveOk)
      ensures o.Handled? && o.at.Some? ==>
                && last == o.at
                && (old(sinceSave) < 99 ==> sinceSave == old(sinceSave) + 1 && durable == old(durable))
                && (old(sinceSave) >= 99 ==> sinceSave == 0 && durable == if saveOk then last else old(durable))
      ensures !o.Handled? || o.at.None? ==> last == old(last) && sinceSave == old(sinceSave) && durable == old(durable)
      ensures dropped == old(dropped) + if o.ParseFailed? then 1 else 0
    {
      match o {
        case Handled(cp, _) =>
          if cp.Some? {
            last := cp;
            sinceSave := sinceSave + 1;
            if sinceSave >= CURSOR_SAVE_INTERVAL {
              if saveOk { durable := last; }
              sinceSave := 0;
            }
          }
          return true;
        case ParseFailed =>
          dropped := dropped + 1;
          return true;
        case ChannelFull =>
          return false;
      }
    }

    /** `ship_line`: retry while the channel is full; in Live, a stall as long as the threshold
        gives up the stream. When the tries run out, cancellation arrives during a wait.
        `refused` counts the tries the sink refused: a line is given up only after all of
        them, or in Live at the first that comes five seconds into an unbroken stall. */
    method ShipLine(index: nat, e: Entry, dedupe: Option<Checkpoint>, live: bool, tries: seq<Try>, saveOk: bool)
      returns (out: LineOutcome, ghost refused: nat)
      modifies this
      ensures out.Done? ==>
                var o := Process(e, dedupe, true);
                && fullSince == None && State() == Recorded(old(State()), o, saveOk)
                && shipped == old(shipped) + if o.Handled? && o.shipped then [index] else []
      ensures !out.Done? ==> State() == old(State()) && shipped == old(shipped) && Process(e, dedupe, false).ChannelFull?
      ensures refused <= |tries| && forall i :: 0 <= i < refused ==> !tries[i].accept
      ensures out.Done? && Process(e, dedupe, false).ChannelFull? ==> refused < |tries| && tries[refused].accept
      ensures out.Done? && !Process(e, dedupe, false).ChannelFull? ==> refused == 0
      ensures out.Cancelled? ==> refused == |tries|
      ensures out.Stalled? ==> live && refused > 0 && Due(Since(old(fullSince), tries), tries[refused - 1].now)
      ensures live ==> forall i :: 0 <= i < refused - (if out.Stalled? then 1 else 0) ==>
                         !Due(Since(old(fullSince), tries), tries[i].now)
      ensures !out.Done? ==> fullSince == if live && refused > 0 then Since(old(fullSince), tries) else old(fullSince)
    {
      var n := 0;
      refused := 0;
      while n <= |tries|
        invariant n <= |tries| && refused == n && forall i :: 0 <= i < n ==> !tries[i].accept
        invariant State() == old(State()) && shipped == old(shipped)
        invariant n > 0 ==> Process(e, dedupe, false).ChannelFull?
        invariant fullSince == if live && n > 0 then Since(old(fullSince), tries) else old(fullSince)
        invariant live ==> forall i :: 0 <= i < n ==> !Due(Since(old(fullSince), tries), tries[i].now)
        decreases |tries| + 1 - n
      {
        var accept := n < |tries| && tries[n].accept;
        var o := Process(e, dedupe, accept);
        var advanced := Record(o, saveOk);
        if advanced {
          if o.Handled? && o.shipped { shipped := shipped + [index]; }
          fullSince := None;
          return Done, refused;
        }
        if n == |tries| {
          return Cancelled, refused;
        }
        refused := refused + 1;
        if live {
          var now := tries[n].now;
          if fullSince.None? { fullSince := Some(now); }
          if now >= fullSince.value + BACKPRESSURE_RECONCILE {
            return Stalled, refused;
          }
        }
        n := n + 1;
      }
    }

    /** The backfill loop of `read_stream`: every line of the window in turn. Exactly the owed
        entries after the checkpoint are shipped, in order and once. The loop ends early only
        at an owed entry that the sink refused every time. */
    method RunBackfill(store: seq<Entry>, k: nat, tries: nat -> seq<Try>, saves: nat -> bool)
      returns (done: bool, reached: nat)
      requires Regular(store) && k < |store|
      modifies this
      ensures k < reached <= |store| && shipped == old(shipped) + Owed(store, k + 1, reached)
      ensures done ==> reached == |store|
      ensures !done ==> reached < |store| && Shippable(store[reached])
                        && forall i :: 0 <= i < |tries(reached)| ==> !tries(reached)[i].accept
      ensures forall i :: k < i < reached && Shippable(store[i]) ==> Taken(tries(i))
      ensures Plain(store) ==> last == if reached > k + 1 then Position(store[reached - 1]) else old(last)
    {
      hide Regular, WindowStart, Process, Deduped, Shippable, Plain, Position, Owed, Recorded;
      var dedupe := PositionOf(store, k);
      WindowOf(store, k);
      var i := WindowStart(store, dedupe.value.wall);
      reached := k + 1;
      OwedStep(store, k + 1, k);
      assert shipped + [] == shipped;
      while i < |store|
        invariant WindowStart(store, dedupe.value.wall) <= i <= |store|
        invariant reached == if i <= k then k + 1 else i
        invariant shipped == old(shipped) + Owed(store, k + 1, reached)
        invariant forall n :: k < n < i && Shippable(store[n]) ==> Taken(tries(n))
        invariant Plain(store) ==> last == if reached > k + 1 then Position(store[reached - 1]) else old(last)
      {
        BackfillLine(store, k, i);
        OwedStep(store, k + 1, i);
        RecordedLast(State(), Process(store[i], dedupe, true), saves(i));
        if store[i].length <= MAX_LINE_LEN {
          var out, refused := ShipLine(i, store[i], dedupe, false, tries(i), saves(i));
          if !out.Done? {
            return false, reached;
          }
        }
        i := i + 1;
        if i > k + 1 {
          reached := i;
          assert shipped == old(shipped) + (Owed(store, k + 1, i - 1) + if Shippable(store[i - 1]) then [i - 1] else []);
        }
      }
      return true, reached;
    }
  }

  /** The sink took one of the tries. */
  predicate Taken(tries: seq<Try>) { exists i :: 0 <= i < |tries| && tries[i].accept }

  /** Since when the channel has been full: as before, or since the first refusal. */
  function Since(before: Option<nat>, tries: seq<Try>): Option<nat> {
    if before.Some? then before else if tries == [] then None else Some(tries[0].now)
  }

  /** `reconcile_due`. */
  predicate Due(since: Option<nat>, now: nat) { since.Some? && now >= since.value + BACKPRESSURE_RECONCILE }

  /** `LogEntry::checkpoint` of a stored entry. */
  function PositionOf(store: seq<Entry>, k: nat): (p: Option<Checkpoint>)
    requires Regular(store) && k < |store|
    ensures p.Some? && p == Position(store[k])
  {
    Position(store[k])
  }

  lemma RecordedLast(r: Reader, o: Outcome, saveOk: bool)
    ensures Recorded(r, o, saveOk).last == if o.Handled? && o.at.Some? then o.at else r.last
  {
  }

  /** What a backfill does with one line of the window. */
  lemma BackfillLine(store: seq<Entry>, k: nat, i: nat)
    requires Regular(store) && k < |store| && i < |store|
    requires WindowStart(store, Position(store[k]).value.wall) <= i
    ensures var o := Process(store[i], Position(store[k]), true);
            && (store[i].length <= MAX_LINE_LEN ==> (o.Handled? && o.shipped <==> i > k && Shippable(store[i])))
            && (store[i].length > MAX_LINE_LEN ==> !Shippable(store[i]))
            && (Process(store[i], Position(store[k]), false).ChannelFull? && store[i].length <= MAX_LINE_LEN
                <==> i > k && Shippable(store[i]))
            && (Plain(store) ==> o.Handled? && store[i].length <= MAX_LINE_LEN
                                 && o.at == if i <= k then None else Position(store[i]))
            && Position(store[i]).Some?
  {
    DedupeExact(store, k, i);
    RegularAt(store, i);
  }
}
