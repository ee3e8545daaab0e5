/** The table of tailed files: entries by identity, and the index from path to identity,
    through discovery, rescans, polls, rotation, drains and eviction. */
module FileTable {
  import opened Options

  const STALE_THRESHOLD: nat := 30

  datatype FileId = FileId(dev: nat, ino: nat)

  /** The fields of a `TailedFile` the table depends on. */
  datatype Entry = Entry(path: string, id: FileId, pos: nat, draining: bool, failures: nat, skipped: bool)

  /** What the filesystem says about a path: identity, length, whether it was last modified
      more than a day ago, whether it begins with a UTF-16 mark. */
  datatype Stat = Stat(id: FileId, length: nat, stale: bool, utf16: bool)

  datatype SavedOffset = SavedOffset(pos: nat, id: FileId)

  datatype Table = Table(files: map<FileId, Entry>, index: map<string, FileId>)

  const EMPTY := Table(map[], map[])

  // ---------------------------------------------------------------- operations

  predicate HasCheckpoint(saved: map<string, SavedOffset>, path: string, id: FileId) {
    path in saved && saved[path].id == id
  }

  /** Where a registered file is read from. */
  function StartPos(path: string, st: Stat, saved: map<string, SavedOffset>, initial: Option<nat>): nat {
    match initial
    case Some(p) => p
    case None =>
      if HasCheckpoint(saved, path, st.id) && saved[path].pos <= st.length then saved[path].pos else st.length
  }

  /** Old files are skipped unless a checkpoint or a rotation asks for them. */
  predicate Wanted(path: string, st: Stat, saved: map<string, SavedOffset>, initial: Option<nat>) {
    initial.Some? || HasCheckpoint(saved, path, st.id) || !st.stale
  }

  /** `register_file`. */
  function Register(t: Table, path: string, st: Option<Stat>, saved: map<string, SavedOffset>, initial: Option<nat>): Table {
    if st.None? || st.value.id in t.files || !Wanted(path, st.value, saved, initial) then t
    else
      var s := st.value;
      Table(t.files[s.id := Entry(path, s.id, StartPos(path, s, saved, initial), false, 0, s.utf16)], t.index[path := s.id])
  }

  /** What polling one file found: `Drained`/`Draining` for an entry with a retained
      descriptor, the rest for a live one. */
  datatype Outcome =
    | Drained
    | Draining(pos: nat)
    | Bytes(pos: nat)
    | Rotated
    | RotatedLost
    | OpenFailed
    | Idle

  function Unindex(index: map<string, FileId>, path: string, id: FileId): map<string, FileId> {
    if path in index && index[path] == id then index - {path} else index
  }

  /** One turn of `poll_all`; `st` is what the path names when a replacement is registered. */
  function Poll(t: Table, id: FileId, o: Outcome, st: Option<Stat>): Table {
    if id !in t.files || t.files[id].skipped then t
    else
      var e := t.files[id];
      if e.draining then
        match o
        case Drained => Table(t.files - {id}, Unindex(t.index, e.path, e.id))
        case Draining(p) => t.(files := t.files[id := e.(pos := p)])
        case _ => t
      else
        match o
        case Bytes(p) => t.(files := t.files[id := e.(pos := p, failures := 0)])
        case Rotated =>
          Register(Table(t.files[id := e.(draining := true, failures := 0)], Unindex(t.index, e.path, id)),
                   e.path, st, map[], Some(0))
        case RotatedLost => Register(Table(t.files - {id}, t.index - {e.path}), e.path, st, map[], Some(0))
        case OpenFailed => t.(files := t.files[id := e.(failures := e.failures + 1)])
        case _ => t
  }

  /** Eviction of one entry whose file has disappeared. */
  function Evict(t: Table, id: FileId): Table {
    if id in t.files && t.files[id].failures >= STALE_THRESHOLD && !t.files[id].draining
    then Table(t.files - {id}, Unindex(t.index, t.files[id].path, t.files[id].id))
    else t
  }

  /** One path of a rescan. */
  function Rescan(t: Table, path: string, st: Option<Stat>): Table {
    if path in t.index then t else Register(t, path, st, map[], None)
  }

  // ---------------------------------------------------------------- consistency

  /** The index is exactly the inverse of the live entries: each key is its entry's identity,
      every indexed path names a live entry of that path, every live entry is indexed. */
  predicate Consistent(t: Table) {
    && (forall id :: id in t.files ==> t.files[id].id == id)
    && (forall p :: p in t.index ==>
          t.index[p] in t.files && t.files[t.index[p]].path == p && !t.files[t.index[p]].draining)
    && (forall id :: id in t.files && !t.files[id].draining ==>
          t.files[id].path in t.index && t.index[t.files[id].path] == id)
  }

  lemma RegisterKeeps(t: Table, path: string, st: Option<Stat>, saved: map<string, SavedOffset>, initial: Option<nat>)
    requires Consistent(t) && path !in t.index
    ensures Consistent(Register(t, path, st, saved, initial))
  {
    hide StartPos, Wanted;
  }

  lemma RemoveKeeps(t: Table, id: FileId)
    requires Consistent(t) && id in t.files
    ensures Consistent(Table(t.files - {id}, Unindex(t.index, t.files[id].path, id)))
  {
    var e := t.files[id];
    var u := Table(t.files - {id}, Unindex(t.index, e.path, id));
    forall p | p in u.index ensures u.index[p] in u.files && u.files[u.index[p]].path == p && !u.files[u.index[p]].draining {
      assert p in t.index && t.index[p] == u.index[p];
    }
    forall i | i in u.files && !u.files[i].draining ensures u.files[i].path in u.index && u.index[u.files[i].path] == i {
      assert u.files[i] == t.files[i];
    }
  }

  lemma RotateKeeps(t: Table, id: FileId)
    requires Consistent(t) && id in t.files && !t.files[id].draining
    ensures var e := t.files[id];
            var u := Table(t.files[id := e.(draining := true, failures := 0)], Unindex(t.index, e.path, id));
            Consistent(u) && e.path !in u.index
  {
    var e := t.files[id];
    var u := Table(t.files[id := e.(draining := true, failures := 0)], Unindex(t.index, e.path, id));
    forall p | p in u.index ensures u.index[p] in u.files && u.files[u.index[p]].path == p && !u.files[u.index[p]].draining {
      assert p in t.index && p != e.path;
    }
    forall i | i in u.files && !u.files[i].draining ensures u.files[i].path in u.index && u.index[u.files[i].path] == i {
      assert i != id;
    }
  }

  lemma PollKeeps(t: Table, id: FileId, o: Outcome, st: Option<Stat>)
    requires Consistent(t)
    ensures Consistent(Poll(t, id, o, st))
  {
    hide Register;
    if id in t.files && !t.files[id].skipped {
      var e := t.files[id];
      if e.draining {
        RemoveKeeps(t, id);
      } else {
        match o {
          case Rotated =>
            RotateKeeps(t, id);
            RegisterKeeps(Table(t.files[id := e.(draining := true, failures := 0)], Unindex(t.index, e.path, id)),
                          e.path, st, map[], Some(0));
          case RotatedLost =>
            RemoveKeeps(t, id);
            assert Unindex(t.index, e.path, id) == t.index - {e.path};
            RegisterKeeps(Table(t.files - {id}, t.index - {e.path}), e.path, st, map[], Some(0));
          case _ =>
        }
      }
    }
  }

  lemma EvictKeeps(t: Table, id: FileId)
    requires Consistent(t)
    ensures Consistent(Evict(t, id))
  {
    if id in t.files { RemoveKeeps(t, id); }
  }

  lemma RescanKeeps(t: Table, path: string, st: Option<Stat>)
    requires Consistent(t)
    ensures Consistent(Rescan(t, path, st))
  {
    hide Register;
    if path !in t.index { RegisterKeeps(t, path, st, map[], None); }
  }

  // ---------------------------------------------------------------- initial discovery

  datatype Sight = Sight(path: string, stat: Stat)

  /** Initial discovery registers every match without looking at the index. */
  function Discover(sights: seq<Sight>, saved: map<string, SavedOffset>): Table {
    if sights == [] then EMPTY
    else
      var s := sights[|sights| - 1];
      Register(Discover(sights[..|sights| - 1], saved), s.path, Some(s.stat), saved, None)
  }

  /** Whether discovery would track what it saw. */
  predicate Tracks(s: Sight, saved: map<string, SavedOffset>) { Wanted(s.path, s.stat, saved, None) }

  /** The sights that add an entry: the first of their identity among the tracked ones. */
  predicate Adds(sights: seq<Sight>, saved: map<string, SavedOffset>, i: nat) {
    i < |sights| && Tracks(sights[i], saved)
    && forall j :: 0 <= j < i && Tracks(sights[j], saved) ==> sights[j].stat.id != sights[i].stat.id
  }

  /** No path is seen with two identities that are both new to the table. */
  predicate OneIdentityPerPath(sights: seq<Sight>, saved: map<string, SavedOffset>) {
    forall i, j :: 0 <= i < j < |sights| && Adds(sights, saved, i) && Adds(sights, saved, j) ==>
      sights[i].path != sights[j].path
  }

  lemma PrefixAdds(sights: seq<Sight>, saved: map<string, SavedOffset>, n: nat, i: nat)
    requires i < n <= |sights|
    ensures Adds(sights[..n], saved, i) == Adds(sights, saved, i)
  {
    hide Tracks;
    var p := sights[..n];
    assert forall j :: 0 <= j < n ==> p[j] == sights[j];
  }

  lemma {:induction false} TrackedIsHeld(sights: seq<Sight>, saved: map<string, SavedOffset>, i: nat)
    requires i < |sights| && Tracks(sights[i], saved)
    ensures sights[i].stat.id in Discover(sights, saved).files
  {
    hide StartPos;
    var n := |sights| - 1;
    if i < n { TrackedIsHeld(sights[..n], saved, i); }
  }

  lemma {:induction false} HeldIsTracked(sights: seq<Sight>, saved: map<string, SavedOffset>, id: FileId) returns (i: nat)
    requires id in Discover(sights, saved).files
    ensures i < |sights| && Tracks(sights[i], saved) && sights[i].stat.id == id
  {
    hide StartPos;
    var n := |sights| - 1;
    if id in Discover(sights[..n], saved).files {
      i := HeldIsTracked(sights[..n], saved, id);
    } else {
      i := n;
    }
  }

  /** The last sight changes the table exactly when it adds an entry. */
  lemma LastAdds(sights: seq<Sight>, saved: map<string, SavedOffset>)
    requires sights != []
    ensures var n := |sights| - 1;
            var t := Discover(sights[..n], saved);
            Adds(sights, saved, n) <==> Tracks(sights[n], saved) && sights[n].stat.id !in t.files
  {
    hide Tracks, Discover;
    var n := |sights| - 1;
    var p := sights[..n];
    assert forall j :: 0 <= j < n ==> p[j] == sights[j];
    if sights[n].stat.id in Discover(p, saved).files {
      var i := HeldIsTracked(p, saved, sights[n].stat.id);
    } else {
      forall j | 0 <= j < n && Tracks(sights[j], saved) ensures sights[j].stat.id != sights[n].stat.id {
        TrackedIsHeld(p, saved, j);
      }
    }
  }

  lemma {:induction false} AddedIsLive(sights: seq<Sight>, saved: map<string, SavedOffset>, i: nat)
    requires Adds(sights, saved, i)
    ensures var t := Discover(sights, saved);
            var id := sights[i].stat.id;
            id in t.files && t.files[id].path == sights[i].path && !t.files[id].draining
  {
    hide StartPos, Adds;
    AddsBound(sights, saved, i);
    var n := |sights| - 1;
    LastAdds(sights, saved);
    if i < n {
      PrefixAdds(sights, saved, n, i);
      AddedIsLive(sights[..n], saved, i);
    }
  }

  lemma {:induction false} IndexedWasAdded(sights: seq<Sight>, saved: map<string, SavedOffset>, p: string) returns (i: nat)
    requires p in Discover(sights, saved).index
    ensures Adds(sights, saved, i) && sights[i].path == p
  {
    hide StartPos, Adds;
    var n := |sights| - 1;
    LastAdds(sights, saved);
    if p in Discover(sights[..n], saved).index {
      i := IndexedWasAdded(sights[..n], saved, p);
      AddsBound(sights[..n], saved, i);
      PrefixAdds(sights, saved, n, i);
    } else {
      i := n;
    }
  }

  lemma AddsBound(sights: seq<Sight>, saved: map<string, SavedOffset>, i: nat)
    requires Adds(sights, saved, i)
    ensures i < |sights|
  {
  }

  lemma {:induction false} DiscoverKeeps(sights: seq<Sight>, saved: map<string, SavedOffset>)
    requires OneIdentityPerPath(sights, saved)
    ensures Consistent(Discover(sights, saved))
  {
    if sights != [] {
      hide StartPos, Adds, Wanted, Consistent;
      var n := |sights| - 1;
      var p := sights[..n];
      forall i, j | 0 <= i < j < |p| && Adds(p, saved, i) && Adds(p, saved, j) ensures p[i].path != p[j].path {
        PrefixAdds(sights, saved, n, i);
        PrefixAdds(sights, saved, n, j);
      }
      DiscoverKeeps(p, saved);
      LastAdds(sights, saved);
      var t := Discover(p, saved);
      if Adds(sights, saved, n) {
        if sights[n].path in t.index {
          var i := IndexedWasAdded(p, saved, sights[n].path);
          AddsBound(p, saved, i);
          PrefixAdds(sights, saved, n, i);
          assert false;
        }
        RegisterKeeps(t, sights[n].path, Some(sights[n].stat), saved, None);
      }
    }
  }

  /** Discovery leaves a consistent table exactly when it sees one new identity per path. */
  lemma DiscoverConsistentExactly(sights: seq<Sight>, saved: map<string, SavedOffset>)
    ensures Consistent(Discover(sights, saved)) <==> OneIdentityPerPath(sights, saved)
  {
    if OneIdentityPerPath(sights, saved) {
      hide Consistent, Adds, Discover;
      DiscoverKeeps(sights, saved);
    } else {
      hide Adds, Discover;
      var i, j :| 0 <= i < j < |sights| && Adds(sights, saved, i) && Adds(sights, saved, j)
                  && sights[i].path == sights[j].path;
      AddedIsLive(sights, saved, i);
      AddedIsLive(sights, saved, j);
      AddsDiffer(sights, saved, i, j);
    }
  }

  /** An instance: a path replaced while it is being discovered is seen with two identities,
      and the first is left live but not indexed. */
  lemma TwoIdentitiesInconsistent()
    ensures var first, second := Sight("/a", Stat(FileId(1, 7), 0, false, false)), Sight("/a", Stat(FileId(1, 8), 0, false, false));
            var t := Discover([first, second], map[]);
            !Consistent(t) && FileId(1, 7) in t.files && !t.files[FileId(1, 7)].draining
            && "/a" in t.index && t.index["/a"] == FileId(1, 8)
  {
    var s7, s8 := Sight("/a", Stat(FileId(1, 7), 0, false, false)), Sight("/a", Stat(FileId(1, 8), 0, false, false));
    var both := [s7, s8];
    assert both[..1] == [s7] && [s7][..0] == [];
    assert Discover([s7], map[]).files.Keys == {FileId(1, 7)};
    var t := Discover(both, map[]);
    assert t.files[FileId(1, 7)].path == "/a";
  }

  lemma AddsDiffer(sights: seq<Sight>, saved: map<string, SavedOffset>, i: nat, j: nat)
    requires i < j && Adds(sights, saved, i) && Adds(sights, saved, j)
    ensures sights[i].stat.id != sights[j].stat.id
  {
    hide Tracks;
  }

  // ---------------------------------------------------------------- whole runs

  datatype Event =
    | RescanPath(path: string, st: Option<Stat>)
    | PollFile(id: FileId, o: Outcome, st: Option<Stat>)
    | EvictFile(id: FileId)

  function Next(t: Table, e: Event): Table {
    match e
    case RescanPath(path, st) => Rescan(t, path, st)
    case PollFile(id, o, st) => Poll(t, id, o, st)
    case EvictFile(id) => Evict(t, id)
  }

  function Run(t: Table, events: seq<Event>): Table {
    if events == [] then t else Next(Run(t, events[..|events| - 1]), events[|events| - 1])
  }

  /** File table consistency: after discovery and any sequence of rescans, polls, rotations,
      lost rotations, drains and evictions, the index is the inverse of the live entries. */
  lemma {:induction false} AlwaysConsistent(sights: seq<Sight>, saved: map<string, SavedOffset>, events: seq<Event>)
    requires OneIdentityPerPath(sights, saved)
    ensures Consistent(Run(Discover(sights, saved), events))
  {
    hide Consistent, Rescan, Poll, Evict, Discover, OneIdentityPerPath;
    if events == [] {
      DiscoverConsistentExactly(sights, saved);
    } else {
      var p, e := events[..|events| - 1], events[|events| - 1];
      AlwaysConsistent(sights, saved, p);
      var t := Run(Discover(sights, saved), p);
      match e {
        case RescanPath(path, st) => RescanKeeps(t, path, st);
        case PollFile(id, o, st) => PollKeeps(t, id, o, st);
        case EvictFile(id) => EvictKeeps(t, id);
      }
    }
  }

  /** Rotation: the old entry drains from where it was, and an inode new to the table takes
      over the path from its first byte. */
  lemma RotationHandsOver(t: Table, id: FileId, st: Stat)
    requires Consistent(t) && id in t.files && !t.files[id].draining && !t.files[id].skipped && st.id !in t.files
    ensures var e := t.files[id];
            var u := Poll(t, id, Rotated, Some(st));
            && id in u.files && u.files[id] == e.(draining := true, failures := 0)
            && st.id in u.files && u.files[st.id].pos == 0 && !u.files[st.id].draining && u.files[st.id].path == e.path
            && e.path in u.index && u.index[e.path] == st.id
            && (forall i :: i in t.files && i != id ==> i in u.files && u.files[i] == t.files[i])
            && (forall p :: p in t.index && p != e.path ==> p in u.index && u.index[p] == t.index[p])
  {
  }

  /** A lost rotation: the old identity is gone; an identity that is not otherwise tracked owns
      the path, live, from its first byte, even if the file is old, and without one the path
      is free; every other entry and path is untouched. */
  lemma LostRotationHandsOver(t: Table, id: FileId, st: Option<Stat>)
    requires Consistent(t) && id in t.files && !t.files[id].draining && !t.files[id].skipped
    ensures var path := t.files[id].path;
            var u := Poll(t, id, RotatedLost, st);
            && (forall i :: i in t.files && i != id ==> i in u.files && u.files[i] == t.files[i])
            && (forall p :: p != path ==> (p in u.index <==> p in t.index) && (p in t.index ==> u.index[p] == t.index[p]))
            && if st.Some? && (st.value.id == id || st.value.id !in t.files) then
                 && u.files.Keys == t.files.Keys - {id} + {st.value.id}
                 && u.files[st.value.id] == Entry(path, st.value.id, 0, false, 0, st.value.utf16)
                 && path in u.index && u.index[path] == st.value.id
               else u.files.Keys == t.files.Keys - {id} && path !in u.index
  {
    var u := Poll(t, id, RotatedLost, st);
    assert t.index[t.files[id].path] == id;
  }

  /** Every kind of rotation reads the replacement from its first byte. */
  lemma FreshAtZero(t: Table, id: FileId, o: Outcome, st: Option<Stat>)
    ensures id in t.files && !t.files[id].skipped && !t.files[id].draining ==>
              var e, u := t.files[id], Poll(t, id, o, st);
              && (o.Bytes? ==> id in u.files && u.files[id].pos == o.pos && u.files[id].failures == 0)
              && (o.OpenFailed? ==> id in u.files && u.files[id].pos == e.pos && u.files[id].failures == e.failures + 1)
              && (o.Rotated? ==> id in u.files && u.files[id].pos == e.pos && u.files[id].draining)
              && (o.RotatedLost? && !(st.Some? && st.value.id == id) ==> id !in u.files)
              && ((o.Rotated? || o.RotatedLost?) && st.Some? && st.value.id !in t.files ==>
                    && st.value.id in u.files && u.files[st.value.id].pos == 0 && !u.files[st.value.id].draining
                    && u.files[st.value.id].path == e.path && e.path in u.index && u.index[e.path] == st.value.id)
  {
    hide Unindex;
  }

  /** A file found by a rescan is followed from its end, unless it is old, its path is taken or
      its identity is tracked already; nothing else changes. */
  lemma RescanAtEnd(t: Table, path: string, st: Option<Stat>)
    ensures var u := Rescan(t, path, st);
            if path !in t.index && st.Some? && st.value.id !in t.files && !st.value.stale then
              u == Table(t.files[st.value.id := Entry(path, st.value.id, st.value.length, false, 0, st.value.utf16)],
                         t.index[path := st.value.id])
            else u == t
  {
  }

  /** Polling one file leaves every other entry as it was. */
  lemma PollOthers(t: Table, id: FileId, o: Outcome, st: Option<Stat>, i: FileId)
    requires i in t.files && i != id
    ensures var u := Poll(t, id, o, st); i in u.files && u.files[i] == t.files[i]
  {
    hide StartPos, Wanted, Unindex;
  }

  // ---------------------------------------------------------------- staleness

  /** How often in a row `id` could not be opened: polls that read bytes, or that found it
      rotated, start the count again, and so does registration. */
  function Streak(t: Table, events: seq<Event>, id: FileId): nat {
    if events == [] then if id in t.files then t.files[id].failures else 0
    else
      var p, e := events[..|events| - 1], events[|events| - 1];
      var before := Run(t, p);
      if id !in before.files then 0
      else if e.PollFile? && e.id == id && !before.files[id].skipped && !before.files[id].draining then
        match e.o
        case OpenFailed => Streak(t, p, id) + 1
        case Bytes(_) => 0
        case Rotated => 0
        case RotatedLost => 0
        case _ => Streak(t, p, id)
      else Streak(t, p, id)
  }

  lemma RegisterFailures(t: Table, path: string, st: Option<Stat>, saved: map<string, SavedOffset>, initial: Option<nat>, id: FileId)
    ensures var u := Register(t, path, st, saved, initial);
            (id in t.files ==> id in u.files && u.files[id] == t.files[id])
            && (id !in t.files && id in u.files ==> u.files[id].failures == 0 && u.files[id].skipped == st.value.utf16)
  {
    hide StartPos, Wanted;
  }

  lemma NextFailures(t: Table, e: Event, id: FileId, streak: nat)
    requires id in t.files ==> t.files[id].failures == streak
    requires id in Next(t, e).files
    ensures Next(t, e).files[id].failures
            == if id !in t.files then 0
               else if e.PollFile? && e.id == id && !t.files[id].skipped && !t.files[id].draining then
                 match e.o
                 case OpenFailed => streak + 1
                 case Bytes(_) => 0
                 case Rotated => 0
                 case RotatedLost => 0
                 case _ => streak
               else streak
  {
    hide Register, Unindex;
    match e {
      case RescanPath(path, st) => RegisterFailures(t, path, st, map[], None, id);
      case EvictFile(i) =>
      case PollFile(i, o, st) =>
        if i in t.files && !t.files[i].skipped {
          var f := t.files[i];
          RegisterFailures(Table(t.files[i := f.(draining := true, failures := 0)], Unindex(t.index, f.path, i)),
                           f.path, st, map[], Some(0), id);
          RegisterFailures(Table(t.files - {i}, t.index - {f.path}), f.path, st, map[], Some(0), id);
        }
    }
  }

  lemma {:induction false} StreakIs(t: Table, events: seq<Event>, id: FileId)
    requires id in Run(t, events).files
    ensures Run(t, events).files[id].failures == Streak(t, events, id)
  {
    hide Next;
    if events != [] {
      var p, e := events[..|events| - 1], events[|events| - 1];
      var before := Run(t, p);
      if id in before.files { StreakIs(t, p, id); }
      NextFailures(before, e, id, Streak(t, p, id));
    }
  }

  /** Over every run an eviction removes an entry if and only if it is live and its file could
      not be opened thirty times in a row; a file that is read in between stays. */
  lemma EvictedExactly(t: Table, events: seq<Event>, id: FileId)
    requires id in Run(t, events).files
    ensures var u := Run(t, events);
            id !in Evict(u, id).files <==> !u.files[id].draining && Streak(t, events, id) >= 30
  {
    hide Run, Streak;
    StreakIs(t, events, id);
  }

  /** A file that begins with a UTF-16 mark is tracked but never touched: over every run its
      entry stays exactly as it was registered. */
  lemma {:induction false} SkippedStays(t: Table, events: seq<Event>, id: FileId)
    requires id in t.files && t.files[id].skipped && t.files[id].failures < STALE_THRESHOLD
    ensures var u := Run(t, events); id in u.files && u.files[id] == t.files[id]
  {
    hide Next;
    if events != [] {
      SkippedStays(t, events[..|events| - 1], id);
      SkippedNext(Run(t, events[..|events| - 1]), events[|events| - 1], id);
    }
  }

  lemma SkippedNext(t: Table, e: Event, id: FileId)
    requires id in t.files && t.files[id].skipped && t.files[id].failures < STALE_THRESHOLD
    ensures var u := Next(t, e); id in u.files && u.files[id] == t.files[id]
  {
    hide Register, Poll;
    match e {
      case RescanPath(path, st) => RegisterFailures(t, path, st, map[], None, id);
      case EvictFile(i) =>
      case PollFile(i, o, st) => if i == id { SkippedPoll(t, id, o, st); } else { PollOthers(t, i, o, st, id); }
    }
  }

  lemma SkippedPoll(t: Table, id: FileId, o: Outcome, st: Option<Stat>)
    requires id in t.files && t.files[id].skipped
    ensures Poll(t, id, o, st) == t
  {
    hide Register;
  }

  // ---------------------------------------------------------------- the loops

  class Tracker {
    var files: map<FileId, Entry>
    var index: map<string, FileId>

    constructor ()
      ensures View() == EMPTY
    {
      files, index := map[], map[];
    }

    function View(): Table
      reads this
    {
      Table(files, index)
    }

    /** `register_file`. */
    method RegisterFile(path: string, st: Option<Stat>, saved: map<string, SavedOffset>, initial: Option<nat>)
      modifies this
      ensures View() == Register(old(View()), path, st, saved, initial)
    {
      if st.None? { return; }
      var s := st.value;
      if s.id in files { return; }
      var hasCheckpoint := path in saved && saved[path].id == s.id;
      if initial.None? && !hasCheckpoint && s.stale { return; }
      var pos := s.length;
      if initial.Some? {
        pos := initial.value;
      } else if hasCheckpoint && saved[path].pos <= s.length {
        pos := saved[path].pos;
      }
      index := index[path := s.id];
      files := files[s.id := Entry(path, s.id, pos, false, 0, s.utf16)];
    }

    /** The body of the `poll_all` loop for one identity. */
    method PollOne(id: FileId, o: Outcome, st: Option<Stat>)
      modifies this
      ensures View() == Poll(old(View()), id, o, st)
      ensures id in old(files) && !old(files)[id].skipped && old(files)[id].draining ==>
                && (o.Drained? ==> files == old(files) - {id})
                && (o.Draining? ==> files == old(files)[id := old(files)[id].(pos := o.pos)])
                && (!o.Drained? && !o.Draining? ==> files == old(files))
      ensures id in old(files) && !old(files)[id].skipped && !old(files)[id].draining ==>
                var e := old(files)[id];
                && (o.Bytes? ==> id in files && files[id].pos == o.pos && files[id].failures == 0)
                && (o.OpenFailed? ==> id in files && files[id].pos == e.pos && files[id].failures == e.failures + 1)
                && (o.Rotated? ==> id in files && files[id].pos == e.pos && files[id].draining)
                && (o.RotatedLost? && !(st.Some? && st.value.id == id) ==> id !in files)
                && ((o.Rotated? || o.RotatedLost?) && st.Some? && st.value.id !in old(files) ==>
                      && st.value.id in files && files[st.value.id].pos == 0 && !files[st.value.id].draining
                      && files[st.value.id].path == e.path && e.path in index && index[e.path] == st.value.id)
    {
      hide Register;
      FreshAtZero(View(), id, o, st);
      if id !in files { return; }
      var e := files[id];
      if e.skipped { return; }
      if e.draining {
        match o {
          case Drained =>
            files := files - {id};
            if e.path in index && index[e.path] == e.id { index := index - {e.path}; }
          case Draining(p) => files := files[id := e.(pos := p)];
          case _ =>
        }
        return;
      }
      match o {
        case Bytes(p) => files := files[id := e.(pos := p, failures := 0)];
        case Rotated =>
          files := files[id := e.(draining := true, failures := 0)];
          if e.path in index && index[e.path] == id { index := index - {e.path}; }
          RegisterFile(e.path, st, map[], Some(0));
        case RotatedLost =>
          files := files - {id};
          index := index - {e.path};
          RegisterFile(e.path, st, map[], Some(0));
        case OpenFailed => files := files[id := e.(failures := e.failures + 1)];
        case _ =>
      }
    }

    /** `poll_all`: every identity tracked at the start, in some order, with what each file
        turns out to be. Entries removed meanwhile are passed over. */
    method PollAll(ids: seq<FileId>, outcome: FileId -> Outcome, stat: FileId -> Option<Stat>)
      requires Consistent(View())
      modifies this
      ensures View() == Run(old(View()), PollEvents(ids, outcome, stat))
      ensures Consistent(View())
    {
      hide Poll, Consistent;
      for i := 0 to |ids|
        invariant View() == Run(old(View()), PollEvents(ids[..i], outcome, stat))
        invariant Consistent(View())
      {
        ghost var t := View();
        PollKeeps(t, ids[i], outcome(ids[i]), stat(ids[i]));
        PollOne(ids[i], outcome(ids[i]), stat(ids[i]));
        PollEventsSnoc(ids, i, outcome, stat);
      }
      assert ids[..|ids|] == ids;
    }

    /** The eviction loop of `tail_files`. */
    method EvictStale(ids: seq<FileId>)
      requires Consistent(View())
      modifies this
      ensures Consistent(View())
      ensures forall id :: id in ids && id in files ==> files[id].failures < STALE_THRESHOLD || files[id].draining
      ensures forall id :: id in files ==> id in old(files) && files[id] == old(files)[id]
      ensures forall id :: id in old(files) && id !in files ==>
                old(files)[id].failures >= STALE_THRESHOLD && !old(files)[id].draining
    {
      hide Consistent;
      for i := 0 to |ids|
        invariant Consistent(View())
        invariant forall id :: id in ids[..i] && id in files ==> files[id].failures < STALE_THRESHOLD || files[id].draining
        invariant forall id :: id in files ==> id in old(files) && files[id] == old(files)[id]
        invariant forall id :: id in old(files) && id !in files ==>
                    old(files)[id].failures >= STALE_THRESHOLD && !old(files)[id].draining
      {
        EvictKeeps(View(), ids[i]);
        var id := ids[i];
        if id in files && files[id].failures >= STALE_THRESHOLD && !files[id].draining {
          var f := files[id];
          files := files - {id};
          if f.path in index && index[f.path] == f.id { index := index - {f.path}; }
        }
        assert ids[..i + 1] == ids[..i] + [id];
      }
      assert ids[..|ids|] == ids;
    }
  }

  function PollEvents(ids: seq<FileId>, outcome: FileId -> Outcome, stat: FileId -> Option<Stat>): seq<Event> {
    seq(|ids|, i requires 0 <= i < |ids| => PollFile(ids[i], outcome(ids[i]), stat(ids[i])))
  }

  lemma PollEventsSnoc(ids: seq<FileId>, i: nat, outcome: FileId -> Outcome, stat: FileId -> Option<Stat>)
    requires i < |ids|
    ensures forall t :: Run(t, PollEvents(ids[..i + 1], outcome, stat))
                        == Poll(Run(t, PollEvents(ids[..i], outcome, stat)), ids[i], outcome(ids[i]), stat(ids[i]))
  {
    hide Poll;
    var a, b := PollEvents(ids[..i + 1], outcome, stat), PollEvents(ids[..i], outcome, stat);
    assert a[..i] == b && |a| == i + 1 && a[i] == PollFile(ids[i], outcome(ids[i]), stat(ids[i]));
  }
}
