/** The bounded `statvfs` reader: one caller, abandoned read threads that may answer late,
    panic or never come back, and a per-mount in-flight flag shared with the threads. Every
    interleaving is a sequence of the atomic steps below. */
module SpaceReader {
  import opened Options

  /** `MountState`: the shared flag (by identity) and whether a timeout was logged. */
  datatype MountState = MountState(flag: nat, warned: bool)

  /** A read thread that still holds its in-flight guard. */
  datatype Thread = Thread(mount: string, flag: nat)

  /** The caller blocked in `recv_timeout`. */
  datatype Wait = Wait(mount: string, thread: nat)

  /** What an observer of the agent sees. */
  datatype Obs =
    | Spawned(m: string)
    | Exited(m: string)
    | Skipped(m: string)
    | Answered(m: string)
    | TimedOut(m: string)
    | Warned(m: string)
    | Dropped(ms: set<string>)

  datatype State = State(
    mounts: map<string, MountState>,
    flags: map<nat, bool>,
    threads: map<nat, Thread>,
    sent: set<nat>,
    waiting: Option<Wait>,
    nextId: nat,
    trace: seq<Obs>)

  const START := State(map[], map[], map[], {}, None, 0, [])

  datatype Event =
    | BeginRead(mount: string)       // `read` up to the spawn, or its early return
    | SpawnFails(mount: string)      // the closure and its guard are dropped at once
    | Send(thread: nat)              // the thread delivers its answer
    | Exit(thread: nat)              // the guard is dropped: after sending, or on a panic
    | Receive                        // the caller gets the answer
    | Disconnect                     // the thread went away without one
    | Timeout
    | Retain(current: set<string>)

  function See(s: State, o: Obs): State { s.(trace := s.trace + [o]) }

  /** The mount's state, created on first use with a flag of its own. */
  function Track(s: State, m: string): State {
    if m in s.mounts then s
    else
      s.(mounts := s.mounts[m := MountState(s.nextId, false)], flags := s.flags[s.nextId := false],
         nextId := s.nextId + 1)
  }

  predicate InFlight(s: State, m: string) {
    m in s.mounts && s.mounts[m].flag in s.flags && s.flags[s.mounts[m].flag]
  }

  function Spawn(s: State, m: string): State
    requires m in s.mounts
  {
    var f := s.mounts[m].flag;
    See(s.(flags := s.flags[f := true], threads := s.threads[s.nextId := Thread(m, f)],
           waiting := Some(Wait(m, s.nextId)), nextId := s.nextId + 1), Spawned(m))
  }

  /** The step an event takes; an event that is not possible now changes nothing. */
  function Next(s: State, e: Event): State {
    match e
    case BeginRead(m) =>
      if s.waiting.Some? then s
      else
        var t := Track(s, m);
        if InFlight(t, m) then See(t, Skipped(m)) else Spawn(t, m)
    case SpawnFails(m) => if s.waiting.Some? || InFlight(s, m) then s else Track(s, m)
    case Send(t) => if t in s.threads then s.(sent := s.sent + {t}) else s
    case Exit(t) =>
      if t in s.threads then
        See(s.(threads := s.threads - {t}, flags := s.flags[s.threads[t].flag := false]), Exited(s.threads[t].mount))
      else s
    case Receive =>
      if s.waiting.Some? && s.waiting.value.thread in s.sent && s.waiting.value.mount in s.mounts then
        var m := s.waiting.value.mount;
        See(s.(waiting := None, mounts := s.mounts[m := s.mounts[m].(warned := false)]), Answered(m))
      else s
    case Disconnect =>
      if s.waiting.Some? && s.waiting.value.thread !in s.sent && s.waiting.value.thread !in s.threads
      then s.(waiting := None)
      else s
    case Timeout =>
      if s.waiting.Some? && s.waiting.value.thread !in s.sent && s.waiting.value.mount in s.mounts then
        var m := s.waiting.value.mount;
        var t := See(s.(waiting := None), TimedOut(m));
        if s.mounts[m].warned then t
        else See(t.(mounts := t.mounts[m := t.mounts[m].(warned := true)]), Warned(m))
      else s
    case Retain(current) =>
      if s.waiting.Some? then s
      else
        var gone := set m | m in s.mounts && m !in current && !InFlight(s, m);
        See(s.(mounts := s.mounts - gone), Dropped(gone))
  }

  function Run(events: seq<Event>): State {
    if events == [] then START else Next(Run(events[..|events| - 1]), events[|events| - 1])
  }

  // ---------------------------------------------------------------- the invariant

  predicate Fresh(s: State) {
    && (forall f :: f in s.flags ==> f < s.nextId)
    && (forall t :: t in s.threads ==> t < s.nextId)
    && (forall m :: m in s.mounts ==> s.mounts[m].flag in s.flags)
    && (forall m, n :: m in s.mounts && n in s.mounts && m != n ==> s.mounts[m].flag != s.mounts[n].flag)
  }

  /** A live thread keeps its mount's state alive and its flag up, and no other thread reads
      the same mount; a raised flag of a tracked mount always has a live thread behind it. */
  predicate Guarded(s: State) {
    && (forall t :: t in s.threads ==>
          s.threads[t].mount in s.mounts && s.mounts[s.threads[t].mount].flag == s.threads[t].flag
          && InFlight(s, s.threads[t].mount))
    && (forall t, u :: t in s.threads && u in s.threads && s.threads[t].mount == s.threads[u].mount ==> t == u)
    && (forall m :: m in s.mounts && InFlight(s, m) ==> Reading(s, m))
  }

  predicate Reading(s: State, m: string) { exists t :: t in s.threads && s.threads[t].mount == m }

  function Count(trace: seq<Obs>, o: Obs): nat {
    if trace == [] then 0
    else Count(trace[..|trace| - 1], o) + if trace[|trace| - 1] == o then 1 else 0
  }

  /** Whether the last warning about `m` is still unanswered. */
  predicate Pending(trace: seq<Obs>, m: string) {
    if trace == [] then false
    else
      var o := trace[|trace| - 1];
      if o == Warned(m) then true
      else if o == Answered(m) || (o.Dropped? && m in o.ms) then false
      else Pending(trace[..|trace| - 1], m)
  }

  predicate WaitsOn(s: State, m: string) { s.waiting.Some? && s.waiting.value.mount == m }

  predicate Accounted(s: State, m: string) {
    && Count(s.trace, Spawned(m)) == Count(s.trace, Exited(m)) + (if Reading(s, m) then 1 else 0)
    && Count(s.trace, TimedOut(m)) + (if WaitsOn(s, m) then 1 else 0) <= Count(s.trace, Spawned(m))
    && (Pending(s.trace, m) <==> m in s.mounts && s.mounts[m].warned)
  }

  lemma CountSnoc(trace: seq<Obs>, o: Obs, x: Obs)
    ensures Count(trace + [x], o) == Count(trace, o) + if x == o then 1 else 0
  {
    assert (trace + [x])[..|trace|] == trace;
  }

  lemma PendingSnoc(trace: seq<Obs>, x: Obs, m: string)
    ensures Pending(trace + [x], m)
            == if x == Warned(m) then true
               else if x == Answered(m) || (x.Dropped? && m in x.ms) then false
               else Pending(trace, m)
  {
    assert (trace + [x])[..|trace|] == trace;
  }

  lemma Snoc(trace: seq<Obs>, x: Obs, m: string)
    ensures Count(trace + [x], Spawned(m)) == Count(trace, Spawned(m)) + if x == Spawned(m) then 1 else 0
    ensures Count(trace + [x], Exited(m)) == Count(trace, Exited(m)) + if x == Exited(m) then 1 else 0
    ensures Count(trace + [x], TimedOut(m)) == Count(trace, TimedOut(m)) + if x == TimedOut(m) then 1 else 0
    ensures Pending(trace + [x], m)
            == if x == Warned(m) then true
               else if x == Answered(m) || (x.Dropped? && m in x.ms) then false
               else Pending(trace, m)
  {
    CountSnoc(trace, Spawned(m), x);
    CountSnoc(trace, Exited(m), x);
    CountSnoc(trace, TimedOut(m), x);
    PendingSnoc(trace, x, m);
  }

  // ---------------------------------------------------------------- safety

  lemma TrackKeeps(s: State, m: string)
    requires Fresh(s) && Guarded(s)
    ensures Fresh(Track(s, m)) && Guarded(Track(s, m))
  {
    var t := Track(s, m);
    forall n | InFlight(t, n) ensures Reading(t, n) {
      assert InFlight(s, n) && Reading(s, n);
    }
  }

  lemma SpawnKeeps(s: State, m: string)
    requires Fresh(s) && Guarded(s) && m in s.mounts && !InFlight(s, m)
    ensures Fresh(Spawn(s, m)) && Guarded(Spawn(s, m))
  {
    var t := Spawn(s, m);
    assert forall u :: u in s.threads ==> s.threads[u].mount != m;
    SpawnFlags(s, m);
    hide InFlight;
    forall n | InFlight(t, n) ensures Reading(t, n) {
      if n == m {
        assert t.threads[s.nextId].mount == m;
      } else {
        var u :| u in s.threads && s.threads[u].mount == n;
        assert t.threads[u].mount == n;
      }
    }
  }

  lemma SpawnFlags(s: State, m: string)
    requires Fresh(s) && m in s.mounts
    ensures forall n :: InFlight(Spawn(s, m), n) <==> n == m || InFlight(s, n)
  {
  }

  lemma ExitKeeps(s: State, x: nat)
    requires Fresh(s) && Guarded(s) && x in s.threads
    ensures Fresh(Next(s, Exit(x))) && Guarded(Next(s, Exit(x)))
  {
    var t := Next(s, Exit(x));
    var m := s.threads[x].mount;
    forall n | InFlight(t, n) ensures Reading(t, n) {
      assert n != m && InFlight(s, n);
      var u :| u in s.threads && s.threads[u].mount == n;
      assert u != x && t.threads[u].mount == n;
    }
  }

  lemma RetainKeeps(s: State, current: set<string>)
    requires Fresh(s) && Guarded(s)
    ensures Fresh(Next(s, Retain(current))) && Guarded(Next(s, Retain(current)))
  {
    var t := Next(s, Retain(current));
    forall n | InFlight(t, n) ensures Reading(t, n) {
      assert InFlight(s, n) && Reading(s, n);
    }
  }

  /** The other steps leave threads and flags alone. */
  lemma QuietKeeps(s: State, t: State)
    requires Fresh(s) && Guarded(s)
    requires t.flags == s.flags && t.threads == s.threads && t.nextId == s.nextId && t.mounts.Keys == s.mounts.Keys
    requires forall m :: m in s.mounts ==> t.mounts[m].flag == s.mounts[m].flag
    ensures Fresh(t) && Guarded(t)
  {
    forall m ensures InFlight(t, m) == InFlight(s, m) && Reading(t, m) == Reading(s, m) {
    }
  }

  lemma NextKeeps(s: State, e: Event)
    requires Fresh(s) && Guarded(s)
    ensures Fresh(Next(s, e)) && Guarded(Next(s, e))
  {
    hide Fresh, Guarded;
    match e {
      case BeginRead(m) =>
        TrackKeeps(s, m);
        var t := Track(s, m);
        if !InFlight(t, m) { SpawnKeeps(t, m); }
        QuietKeeps(t, See(t, Skipped(m)));
      case SpawnFails(m) => TrackKeeps(s, m);
      case Exit(x) => if x in s.threads { ExitKeeps(s, x); }
      case Retain(current) => RetainKeeps(s, current);
      case Send(x) => QuietKeeps(s, Next(s, e));
      case Receive => QuietKeeps(s, Next(s, e));
      case Disconnect => QuietKeeps(s, Next(s, e));
      case Timeout => QuietKeeps(s, Next(s, e));
    }
  }

  lemma {:induction false} RunKeeps(events: seq<Event>)
    ensures Fresh(Run(events)) && Guarded(Run(events))
  {
    if events != [] {
      hide Fresh, Guarded, Next;
      RunKeeps(events[..|events| - 1]);
      NextKeeps(Run(events[..|events| - 1]), events[|events| - 1]);
    }
  }

  /** At most one read per mount is ever outstanding, in every interleaving. */
  lemma AtMostOneRead(events: seq<Event>, t: nat, u: nat)
    requires var s := Run(events); t in s.threads && u in s.threads && s.threads[t].mount == s.threads[u].mount
    ensures t == u
  {
    hide Fresh, Run;
    RunKeeps(events);
  }

  /** A mount is skipped exactly while a read of it is outstanding. */
  lemma SkippedWhileReading(events: seq<Event>, m: string)
    ensures InFlight(Run(events), m) <==> Reading(Run(events), m)
  {
    hide Fresh, Run;
    RunKeeps(events);
  }

  /** When a read is skipped, over every run in which the caller is free: a read of `m` is
      skipped if and only if a thread of `m` is alive; otherwise a new thread of `m` is
      started, no other is touched, and the caller waits on it. */
  lemma ReadUnlessReading(events: seq<Event>, m: string)
    requires Run(events).waiting.None?
    ensures var s := Run(events);
            var t := Next(s, BeginRead(m));
            && (t.trace == s.trace + [Skipped(m)] <==> Reading(s, m))
            && (t.trace == s.trace + [Spawned(m)] <==> !Reading(s, m))
            && (Reading(s, m) ==> t.threads == s.threads && t.waiting.None?)
            && (!Reading(s, m) ==>
                  && t.waiting.Some? && t.waiting.value.mount == m
                  && t.waiting.value.thread !in s.threads && t.waiting.value.thread in t.threads
                  && t.threads[t.waiting.value.thread].mount == m
                  && t.threads.Keys == s.threads.Keys + {t.waiting.value.thread}
                  && forall x :: x in s.threads ==> t.threads[x] == s.threads[x])
  {
    hide Run, Reading;
    RunKeeps(events);
    SkippedWhileReading(events, m);
    var s := Run(events);
    TrackFlag(s, m);
    assert s.trace + [Skipped(m)] != s.trace + [Spawned(m)] by {
      assert (s.trace + [Skipped(m)])[|s.trace|] != (s.trace + [Spawned(m)])[|s.trace|];
    }
  }

  lemma TrackFlag(s: State, m: string)
    requires Fresh(s)
    ensures InFlight(Track(s, m), m) == InFlight(s, m) && Track(s, m).trace == s.trace && m in Track(s, m).mounts
    ensures Track(s, m).threads == s.threads && Track(s, m).waiting == s.waiting && Track(s, m).nextId !in s.threads
  {
  }

  /** A mount's state is dropped exactly when the mount is gone and no read of it is out. */
  lemma DroppedExactly(events: seq<Event>, current: set<string>, m: string)
    requires Run(events).waiting.None? && m in Run(events).mounts
    ensures var s := Run(events);
            m !in Next(s, Retain(current)).mounts <==> m !in current && !Reading(s, m)
  {
    hide Run, Reading, InFlight;
    SkippedWhileReading(events, m);
  }

  // ---------------------------------------------------------------- timeouts and warnings

  lemma AccountTrack(s: State, n: string, m: string)
    requires Accounted(s, m)
    ensures Accounted(Track(s, n), m)
  {
    hide Count, Pending;
    assert Reading(Track(s, n), m) == Reading(s, m);
  }

  lemma AccountSpawn(s: State, n: string, m: string)
    requires Fresh(s) && Guarded(s) && Accounted(s, m) && n in s.mounts && !InFlight(s, n) && s.waiting.None?
    ensures Accounted(Spawn(s, n), m)
  {
    hide Count, Pending;
    Snoc(s.trace, Spawned(n), m);
    ReadingAfterSpawn(s, n, m);
  }

  lemma ReadingAfterSpawn(s: State, n: string, m: string)
    requires Fresh(s) && Guarded(s) && n in s.mounts && !InFlight(s, n)
    ensures Reading(Spawn(s, n), m) == (m == n || Reading(s, m)) && !Reading(s, n)
  {
    var t := Spawn(s, n);
    assert t.threads[s.nextId].mount == n;
    if Reading(s, m) {
      var u :| u in s.threads && s.threads[u].mount == m;
      assert t.threads[u].mount == m;
    }
  }

  /** Steps that leave the threads alone and see one thing, or nothing. */
  lemma AccountQuiet(s: State, t: State, m: string)
    requires Accounted(s, m) && t.threads == s.threads
    requires t.trace == s.trace || (|t.trace| == |s.trace| + 1 && t.trace == s.trace + [t.trace[|s.trace|]]
                                    && (t.trace[|s.trace|].Skipped? || t.trace[|s.trace|].Answered?
                                        || t.trace[|s.trace|].Dropped? || t.trace[|s.trace|].TimedOut?))
    requires t.trace != s.trace && t.trace[|s.trace|] == TimedOut(m) ==> WaitsOn(s, m) && !WaitsOn(t, m)
    requires WaitsOn(t, m) ==> WaitsOn(s, m)
    requires var x := if t.trace == s.trace then Skipped(m) else t.trace[|s.trace|];
             if x == Answered(m) || (x.Dropped? && m in x.ms) then m !in t.mounts || !t.mounts[m].warned
             else (m in t.mounts && t.mounts[m].warned) == (m in s.mounts && s.mounts[m].warned)
    ensures Accounted(t, m)
  {
    hide Count, Pending;
    assert Reading(t, m) == Reading(s, m);
    if t.trace != s.trace { Snoc(s.trace, t.trace[|s.trace|], m); }
  }

  lemma AccountTimeout(s: State, m: string)
    requires Accounted(s, m)
    ensures Accounted(Next(s, Timeout), m)
  {
    hide Count, Pending;
    var u := Next(s, Timeout);
    if u != s {
      var n := s.waiting.value.mount;
      var t := See(s.(waiting := None), TimedOut(n));
      AccountQuiet(s, t, m);
      if !s.mounts[n].warned {
        Snoc(t.trace, Warned(n), m);
        assert Reading(u, m) == Reading(t, m);
      }
    }
  }

  lemma AccountNext(s: State, e: Event, m: string)
    requires Fresh(s) && Guarded(s) && Accounted(s, m)
    ensures Accounted(Next(s, e), m)
  {
    hide Accounted, Fresh, Guarded, Count, Pending, Reading;
    var t := Next(s, e);
    match e {
      case BeginRead(n) =>
        if s.waiting.None? {
          TrackKeeps(s, n);
          AccountTrack(s, n, m);
          var k := Track(s, n);
          if InFlight(k, n) { AccountQuiet(k, t, m); } else { AccountSpawn(k, n, m); }
        }
      case SpawnFails(n) => AccountTrack(s, n, m);
      case Exit(x) => AccountExit(s, x, m);
      case Timeout => AccountTimeout(s, m);
      case Retain(current) => AccountQuiet(s, t, m);
      case Send(x) => AccountQuiet(s, t, m);
      case Receive => AccountQuiet(s, t, m);
      case Disconnect => AccountQuiet(s, t, m);
    }
  }

  lemma AccountExit(s: State, x: nat, m: string)
    requires Fresh(s) && Guarded(s) && Accounted(s, m)
    ensures Accounted(Next(s, Exit(x)), m)
  {
    hide Count, Pending, Fresh, Guarded, Reading;
    ReadingAfterExit(s, x, m);
    if x in s.threads { Snoc(s.trace, Exited(s.threads[x].mount), m); }
  }

  lemma ReadingAfterExit(s: State, x: nat, m: string)
    requires Fresh(s) && Guarded(s)
    ensures var t := Next(s, Exit(x));
            if x !in s.threads then t == s
            else if s.threads[x].mount == m then Reading(s, m) && !Reading(t, m)
            else Reading(t, m) == Reading(s, m)
  {
    var t := Next(s, Exit(x));
    if x in s.threads && s.threads[x].mount != m && Reading(s, m) {
      var u :| u in s.threads && s.threads[u].mount == m;
      assert t.threads[u].mount == m;
    }
  }

  lemma {:induction false} RunAccounted(events: seq<Event>, m: string)
    ensures Accounted(Run(events), m)
  {
    if events != [] {
      hide Fresh, Guarded, Next, Accounted;
      var p := events[..|events| - 1];
      RunAccounted(p, m);
      RunKeeps(p);
      AccountNext(Run(p), events[|events| - 1], m);
    }
  }

  /** Timeouts of a mount, with the one the caller may be heading for, beyond its spawns. */
  function Slack(s: State, m: string): int {
    Count(s.trace, TimedOut(m)) + (if WaitsOn(s, m) then 1 else 0) - Count(s.trace, Spawned(m))
  }

  /** A timeout needs a wait, and a wait needs a spawn. */
  lemma NextSlack(s: State, e: Event, m: string)
    ensures Slack(Next(s, e), m) <= Slack(s, m)
  {
    hide Count, InFlight, Track;
    match e {
      case BeginRead(n) =>
        if s.waiting.None? {
          TrackSame(s, n);
          var k := Track(s, n);
          Snoc(k.trace, if InFlight(k, n) then Skipped(n) else Spawned(n), m);
        }
      case SpawnFails(n) => TrackSame(s, n);
      case Exit(x) => if x in s.threads { Snoc(s.trace, Exited(s.threads[x].mount), m); }
      case Receive => if s.waiting.Some? { Snoc(s.trace, Answered(s.waiting.value.mount), m); }
      case Timeout =>
        if s.waiting.Some? {
          var n := s.waiting.value.mount;
          Snoc(s.trace, TimedOut(n), m);
          Snoc(s.trace + [TimedOut(n)], Warned(n), m);
        }
      case Retain(current) =>
        var t := Next(s, e);
        if s.waiting.None? { Snoc(s.trace, t.trace[|s.trace|], m); }
      case Send(x) =>
      case Disconnect =>
    }
  }

  lemma TrackSame(s: State, n: string)
    ensures Track(s, n).trace == s.trace && Track(s, n).waiting == s.waiting && n in Track(s, n).mounts
  {
  }

  lemma {:induction false} RunSlack(before: seq<Event>, after: seq<Event>, m: string)
    ensures Slack(Run(before + after), m) <= Slack(Run(before), m)
    decreases |after|
  {
    hide Next, Slack;
    if after == [] {
      assert before + after == before;
    } else {
      var n := |after| - 1;
      RunSlack(before, after[..n], m);
      var all := before + after;
      assert all[..|all| - 1] == before + after[..n] && all[|all| - 1] == after[n];
      NextSlack(Run(before + after[..n]), after[n], m);
    }
  }

  /** Over any stretch of any run, every timeout of a mount is paid for by a thread that came
      back in it, but for one read begun in the stretch and one the caller was already
      waiting for: once a mount stops answering it costs at most that. */
  lemma TimeoutsBounded(before: seq<Event>, after: seq<Event>, m: string)
    ensures var s, t := Run(before), Run(before + after);
            Count(t.trace, TimedOut(m)) - Count(s.trace, TimedOut(m))
            <= Count(t.trace, Exited(m)) - Count(s.trace, Exited(m))
               + (if Reading(s, m) then 0 else 1) + (if WaitsOn(s, m) then 1 else 0)
  {
    hide Count, Run, Pending, Reading, WaitsOn;
    RunAccounted(before, m);
    RunAccounted(before + after, m);
    RunSlack(before, after, m);
  }

  /** The state of the mount the caller waits on is kept. */
  lemma {:induction false} WaitingTracked(events: seq<Event>)
    ensures var s := Run(events); s.waiting.Some? ==> s.waiting.value.mount in s.mounts
  {
    hide InFlight;
    if events != [] {
      WaitingTracked(events[..|events| - 1]);
    }
  }

  /** What a timeout is seen as, over every run: it is reported whenever the caller waits on a
      read that has not answered, and warned about exactly when no warning of the mount is
      pending; the read stays out and the caller is free. */
  lemma TimeoutSeen(events: seq<Event>, m: string)
    requires var s := Run(events);
             WaitsOn(s, m) && s.waiting.value.thread !in s.sent
    ensures var s := Run(events);
            var t := Next(s, Timeout);
            && t.trace == s.trace + [TimedOut(m)] + (if Pending(s.trace, m) then [] else [Warned(m)])
            && t.waiting.None? && t.threads == s.threads && t.flags == s.flags
  {
    hide Run, Pending, Count, Reading;
    RunAccounted(events, m);
    WaitingTracked(events);
  }

  /** An answer that arrives in time is reported, and ends a pending warning. */
  lemma AnswerSeen(events: seq<Event>, m: string)
    requires var s := Run(events);
             WaitsOn(s, m) && s.waiting.value.thread in s.sent
    ensures var s := Run(events);
            var t := Next(s, Receive);
            t.trace == s.trace + [Answered(m)] && t.waiting.None? && !Pending(t.trace, m)
  {
    hide Run, Pending;
    WaitingTracked(events);
    var s := Run(events);
    PendingSnoc(s.trace, Answered(m), m);
  }

  lemma {:induction false} PendingSince(trace: seq<Obs>, i: nat, m: string)
    requires i < |trace| && trace[i] == Warned(m)
    requires forall k :: i < k < |trace| ==> trace[k] != Answered(m) && !(trace[k].Dropped? && m in trace[k].ms)
    ensures Pending(trace, m)
  {
    var n := |trace| - 1;
    if i < n {
      PendingSince(trace[..n], i, m);
    }
  }

  /** A warning is only logged when none is pending. */
  lemma {:induction false} WarnedFresh(events: seq<Event>, m: string, j: nat)
    requires j < |Run(events).trace| && Run(events).trace[j] == Warned(m)
    ensures !Pending(Run(events).trace[..j], m)
  {
    if events != [] {
      hide Pending, Count, Fresh, Guarded;
      var p, e := events[..|events| - 1], events[|events| - 1];
      var s := Run(p);
      var t := Next(s, e);
      TraceGrows(s, e);
      if j < |s.trace| {
        assert s.trace[j] == t.trace[j] && s.trace[..j] == t.trace[..j];
        WarnedFresh(p, m, j);
      } else {
        RunAccounted(p, m);
        hide Run;
        WarnedNow(s, e, m, j);
      }
    }
  }

  lemma WarnedNow(s: State, e: Event, m: string, j: nat)
    requires Accounted(s, m) && |s.trace| <= j < |Next(s, e).trace| && Next(s, e).trace[j] == Warned(m)
    ensures !Pending(Next(s, e).trace[..j], m)
  {
    hide Count, Pending;
    var t := Next(s, e);
    assert e == Timeout && j == |s.trace| + 1;
    assert t.trace[..j] == s.trace + [TimedOut(m)];
    PendingSnoc(s.trace, TimedOut(m), m);
  }

  lemma TraceGrows(s: State, e: Event)
    ensures s.trace <= Next(s, e).trace
  {
  }

  /** Two timeout warnings about one mount have an answer from it, or the loss of its state,
      between them. */
  lemma WarningsSeparated(events: seq<Event>, m: string, i: nat, j: nat)
    requires i < j < |Run(events).trace| && Run(events).trace[i] == Warned(m) == Run(events).trace[j]
    ensures exists k :: i < k < j && (Run(events).trace[k] == Answered(m)
                                      || (Run(events).trace[k].Dropped? && m in Run(events).trace[k].ms))
  {
    hide Run, Pending;
    var trace := Run(events).trace;
    WarnedFresh(events, m, j);
    var p := trace[..j];
    if forall k :: i < k < j ==> trace[k] != Answered(m) && !(trace[k].Dropped? && m in trace[k].ms) {
      PendingSince(p, i, m);
    }
  }
}
