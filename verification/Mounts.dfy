/** Mount table parsing: octal unescaping of `/proc/mounts` fields, and the choice of one
    mount point per device. */
module Mounts {
  import opened Utf8

  const BACKSLASH: Byte := 0x5C

  // ---------------------------------------------------------------- octal escapes

  predicate OctalDigit(b: Byte) { 0x30 <= b <= 0x37 }

  /** Whether an escape `\abc` with `a` in 0..3 stands at the front. */
  predicate EscapeAt(b: seq<Byte>) {
    |b| >= 4 && b[0] == BACKSLASH && 0x30 <= b[1] <= 0x33 && OctalDigit(b[2]) && OctalDigit(b[3])
  }

  /** The value of an escape always fits in a byte. */
  function Octal(b: seq<Byte>): Byte
    requires EscapeAt(b)
  {
    (b[1] - 0x30) * 64 + (b[2] - 0x30) * 8 + (b[3] - 0x30)
  }

  function Unescape(b: seq<Byte>): seq<Byte> {
    if b == [] then []
    else if EscapeAt(b) then [Octal(b)] + Unescape(b[4..])
    else [b[0]] + Unescape(b[1..])
  }

  /** `unescape_mount_field`, the byte loop and the decoding of its result. */
  method UnescapeMountField(field: string) returns (out: string)
    ensures out == Lossy(Unescape(Encode(field)))
  {
    hide Lossy, Encode, EscapeAt, Octal, Unescape;
    var bytes := Encode(field);
    if forall i :: 0 <= i < |bytes| ==> bytes[i] != BACKSLASH {
      NoEscapes(bytes);
      LossyEncode(field);
      return field;
    }
    var result: seq<Byte> := [];
    var i := 0;
    assert bytes[0..] == bytes && [] + Unescape(bytes) == Unescape(bytes);
    while i < |bytes|
      invariant i <= |bytes| && result + Unescape(bytes[i..]) == Unescape(bytes)
    {
      UnescapeStep(bytes, i, result);
      var rest := bytes[i..];
      if EscapeAt(rest) {
        result := result + [Octal(rest)];
        i := i + 4;
      } else {
        result := result + [bytes[i]];
        i := i + 1;
      }
    }
    NothingToUnescape(result);
    assert bytes[|bytes|..] == [];
    out := Lossy(result);
  }

  lemma NothingToUnescape(r: seq<Byte>)
    ensures r + Unescape([]) == r
  {
  }

  /** One turn of the loop, with `r` already decoded. */
  lemma UnescapeStep(b: seq<Byte>, i: nat, r: seq<Byte>)
    requires i < |b|
    ensures if EscapeAt(b[i..])
            then i + 4 <= |b| && r + Unescape(b[i..]) == (r + [Octal(b[i..])]) + Unescape(b[i + 4..])
            else r + Unescape(b[i..]) == (r + [b[i]]) + Unescape(b[i + 1..])
  {
    var rest := b[i..];
    if EscapeAt(rest) {
      assert rest[4..] == b[i + 4..];
      assert r + ([Octal(rest)] + Unescape(rest[4..])) == (r + [Octal(rest)]) + Unescape(rest[4..]);
    } else {
      assert rest[1..] == b[i + 1..];
      assert r + ([b[i]] + Unescape(rest[1..])) == (r + [b[i]]) + Unescape(rest[1..]);
    }
  }

  lemma {:induction false} NoEscapes(b: seq<Byte>)
    requires forall i :: 0 <= i < |b| ==> b[i] != BACKSLASH
    ensures Unescape(b) == b
  {
    if b != [] {
      NoEscapes(b[1..]);
    }
  }

  /** Bytes in which no escape begins, backslashes included, are copied as they are. */
  lemma {:induction false} NoEscapeCopied(b: seq<Byte>)
    requires forall i :: 0 <= i < |b| ==> !EscapeAt(b[i..])
    ensures Unescape(b) == b
  {
    hide EscapeAt;
    if b != [] {
      assert b[0..] == b;
      forall i | 0 <= i < |b[1..]| ensures !EscapeAt(b[1..][i..]) {
        assert b[1..][i..] == b[i + 1..];
      }
      NoEscapeCopied(b[1..]);
      assert b == [b[0]] + b[1..];
    }
  }

  /** What the kernel writes: every byte of an escape set, which holds the backslash, as a
      backslash and three octal digits. */
  function EscapeByte(x: Byte): seq<Byte> {
    [BACKSLASH, 0x30 + x / 64, 0x30 + x / 8 % 8, 0x30 + x % 8]
  }

  function Escape(b: seq<Byte>, special: set<Byte>): seq<Byte> {
    if b == [] then []
    else (if b[0] in special then EscapeByte(b[0]) else [b[0]]) + Escape(b[1..], special)
  }

  lemma EscapeByteValue(x: Byte, rest: seq<Byte>)
    ensures EscapeAt(EscapeByte(x) + rest) && Octal(EscapeByte(x) + rest) == x
  {
    var b := EscapeByte(x) + rest;
    assert b[0] == BACKSLASH && b[1] == 0x30 + x / 64 && b[2] == 0x30 + x / 8 % 8 && b[3] == 0x30 + x % 8;
    assert x == x / 64 * 64 + x / 8 % 8 * 8 + x % 8;
  }

  /** Unescaping undoes the kernel's escaping of every byte string, whatever else the kernel
      chooses to escape. */
  lemma {:induction false} UnescapeEscape(b: seq<Byte>, special: set<Byte>)
    requires BACKSLASH in special
    ensures Unescape(Escape(b, special)) == b
  {
    if b != [] {
      UnescapeEscape(b[1..], special);
      var tail := Escape(b[1..], special);
      if b[0] in special {
        EscapeByteValue(b[0], tail);
        assert (EscapeByte(b[0]) + tail)[4..] == tail;
      } else {
        assert ([b[0]] + tail)[1..] == tail;
      }
      assert b == [b[0]] + b[1..];
    }
  }

  /** A field whose escaped form is the text `field` comes back as the text it was. */
  lemma FieldRoundTrip(text: string, field: string, special: set<Byte>)
    requires BACKSLASH in special && Encode(field) == Escape(Encode(text), special)
    ensures Lossy(Unescape(Encode(field))) == text
  {
    UnescapeEscape(Encode(text), special);
    LossyEncode(text);
  }

  // ---------------------------------------------------------------- one mount per device

  datatype Mount = Mount(device: string, mountPoint: string)

  /** A row of the mount table with its filesystem type; rows with fewer fields are dropped
      before. */
  datatype Row = Row(mount: Mount, fsType: string)

  /** `fs_type_allowed`. */
  predicate Allowed(fs: string, configured: seq<string>, defaults: seq<string>) {
    if configured == [] then fs in defaults else fs in configured
  }

  function Candidates(rows: seq<Row>, configured: seq<string>, defaults: seq<string>): seq<Mount> {
    if rows == [] then []
    else (if Allowed(rows[0].fsType, configured, defaults) then [rows[0].mount] else [])
         + Candidates(rows[1..], configured, defaults)
  }

  function Size(m: Mount): nat { Len(m.mountPoint) }

  /** An element with its place in the input, which a stable sort keeps as tie-breaker. */
  type Placed = (Mount, nat)

  predicate Before(a: Placed, b: Placed) { Size(a.0) < Size(b.0) || (Size(a.0) == Size(b.0) && a.1 < b.1) }

  predicate Sorted(s: seq<Placed>) { forall i, j :: 0 <= i < j < |s| ==> Before(s[i], s[j]) }

  function Place(ms: seq<Mount>): seq<Placed> { seq(|ms|, i requires 0 <= i < |ms| => (ms[i], i)) }

  /** Where a new element goes: after every element that is not larger. */
  method Insert(s: seq<Placed>, x: Placed) returns (r: seq<Placed>)
    requires Sorted(s) && forall i :: 0 <= i < |s| ==> s[i].1 < x.1
    ensures Sorted(r) && forall y :: y in r <==> y in s || y == x
  {
    hide Size;
    var k := |s|;
    while k > 0 && Size(x.0) < Size(s[k - 1].0)
      invariant 0 <= k <= |s|
      invariant forall i :: k <= i < |s| ==> Before(x, s[i])
    {
      k := k - 1;
    }
    forall i | 0 <= i < k ensures Before(s[i], x) {
      if i < k - 1 { assert Before(s[i], s[k - 1]); }
    }
    hide Before;
    InsertSorted(s, k, x);
    r := s[..k] + [x] + s[k..];
  }

  lemma InsertSorted(s: seq<Placed>, k: nat, x: Placed)
    requires k <= |s| && Sorted(s)
    requires (forall i :: 0 <= i < k ==> Before(s[i], x)) && (forall i :: k <= i < |s| ==> Before(x, s[i]))
    ensures var r := s[..k] + [x] + s[k..]; Sorted(r) && forall y :: y in r <==> y in s || y == x
  {
    hide Before;
    var r := s[..k] + [x] + s[k..];
    forall i, j | 0 <= i < j < |r| ensures Before(r[i], r[j]) {
      if i == k {
        assert r[j] == s[j - 1];
      } else if j == k {
        assert r[i] == s[i];
      } else {
        assert Before(s[if i < k then i else i - 1], s[if j < k then j else j - 1]);
      }
    }
    assert s == s[..k] + s[k..];
  }

  /** `sort_by_key` on the length of the mount point: sorted, and rows of equal length keep
      their order. */
  method StableSort(ms: seq<Mount>) returns (r: seq<Placed>)
    ensures Sorted(r) && forall y :: y in r <==> y in Place(ms)
  {
    r := [];
    for i := 0 to |ms|
      invariant Sorted(r)
      invariant forall y :: y in r <==> y in Place(ms)[..i]
    {
      forall k | 0 <= k < |r| ensures r[k].1 < i {
        assert r[k] in Place(ms)[..i];
      }
      assert Place(ms)[..i + 1] == Place(ms)[..i] + [(ms[i], i)];
      r := Insert(r, (ms[i], i));
    }
    assert Place(ms)[..|ms|] == Place(ms);
  }

  /** The first row, in table order, among the device's shortest mount points. */
  predicate Best(ms: seq<Mount>, i: nat) {
    && i < |ms|
    && forall j :: 0 <= j < |ms| && ms[j].device == ms[i].device ==>
         Size(ms[i]) < Size(ms[j]) || (Size(ms[i]) == Size(ms[j]) && i <= j)
  }

  ghost predicate BestRow(ms: seq<Mount>, m: Mount) { exists i: nat :: Best(ms, i) && ms[i] == m }

  lemma BestPlace(ms: seq<Mount>, p: Placed)
    requires Best(ms, p.1) && ms[p.1] == p.0
    ensures BestRow(ms, p.0)
  {
  }

  function Devices(s: seq<Placed>): set<string> { set k | 0 <= k < |s| :: s[k].0.device }

  /** The elements whose device does not occur before. */
  function Firsts(s: seq<Placed>): seq<Placed> {
    if s == [] then []
    else
      var p, x := s[..|s| - 1], s[|s| - 1];
      Firsts(p) + if x.0.device in Devices(p) then [] else [x]
  }

  /** `retain` with a set of seen devices. */
  method Dedup(s: seq<Placed>) returns (out: seq<Placed>)
    ensures out == Firsts(s)
  {
    out := [];
    var seen: set<string> := {};
    for i := 0 to |s|
      invariant seen == Devices(s[..i]) && out == Firsts(s[..i])
    {
      var x := s[i];
      assert s[..i + 1][..i] == s[..i] && s[..i + 1][i] == x;
      if x.0.device !in seen {
        out := out + [x];
      }
      DevicesSnoc(s, i);
      seen := seen + {x.0.device};
    }
    assert s[..|s|] == s;
  }

  lemma DevicesSnoc(s: seq<Placed>, i: nat)
    requires i < |s|
    ensures Devices(s[..i + 1]) == Devices(s[..i]) + {s[i].0.device}
  {
    var a, b := s[..i + 1], s[..i];
    forall d ensures d in Devices(a) <==> d in Devices(b) + {s[i].0.device} {
      if d in Devices(a) {
        var k :| 0 <= k < |a| && a[k].0.device == d;
        if k < i { assert b[k].0.device == d; }
      }
      if d in Devices(b) {
        var k :| 0 <= k < |b| && b[k].0.device == d;
        assert a[k].0.device == d;
      }
      assert a[i].0.device == s[i].0.device;
    }
  }

  /** `x` is in the list and no earlier element has its device. */
  predicate FirstIn(s: seq<Placed>, x: Placed) {
    exists k :: 0 <= k < |s| && s[k] == x && x.0.device !in Devices(s[..k])
  }

  /** One element per device: none twice, none missing, each the first of its device. */
  lemma {:induction false} FirstsOf(s: seq<Placed>)
    requires Sorted(s)
    ensures var f := Firsts(s);
            && Devices(f) == Devices(s)
            && (forall i, j :: 0 <= i < j < |f| ==> f[i].0.device != f[j].0.device && Before(f[i], f[j]))
            && (forall i :: 0 <= i < |f| ==> FirstIn(s, f[i]))
  {
    hide Before, Devices;
    if s == [] {
      NoDevices();
    } else {
      var n := |s| - 1;
      var p, x := s[..n], s[n];
      assert Sorted(p);
      FirstsOf(p);
      DevicesSnoc(s, n);
      assert s[..n + 1] == s;
      var f, g := Firsts(s), Firsts(p);
      assert f == g + (if x.0.device in Devices(p) then [] else [x]);
      hide Firsts;
      forall i | 0 <= i < |g|
        ensures FirstIn(s, g[i])
        ensures Before(g[i], x) && g[i].0.device in Devices(g)
      {
        var k :| 0 <= k < |p| && p[k] == g[i] && g[i].0.device !in Devices(p[..k]);
        assert s[k] == g[i] && s[..k] == p[..k];
        assert Before(s[k], s[n]);
        DeviceIn(g, i);
      }
      if x.0.device !in Devices(p) {
        assert f == g + [x];
        assert f[..|g| + 1] == f && f[..|g|] == g;
        DevicesSnoc(f, |g|);
        assert FirstIn(s, x) by { assert s[n] == x && s[..n] == p; }
      } else {
        assert f == g;
        assert Devices(s) == Devices(p);
      }
    }
  }

  lemma NoDevices()
    ensures Devices([]) == {}
  {
  }

  lemma DeviceIn(s: seq<Placed>, i: nat)
    requires i < |s|
    ensures s[i].0.device in Devices(s)
  {
  }

  /** The first element of a device in sorted order is its best row. */
  lemma FirstIsBest(s: seq<Placed>, ms: seq<Mount>, i: nat)
    requires i < |s| && Sorted(s) && forall y :: y in s <==> y in Place(ms)
    requires s[i].0.device !in Devices(s[..i])
    ensures s[i].1 < |ms| && s[i].0 == ms[s[i].1] && Best(ms, s[i].1)
  {
    hide Size;
    var x := s[i];
    assert x in Place(ms);
    forall j | 0 <= j < |ms| && ms[j].device == x.0.device
      ensures Size(x.0) < Size(ms[j]) || (Size(x.0) == Size(ms[j]) && x.1 <= j)
    {
      var y := Place(ms)[j];
      assert y in Place(ms);
      var k :| 0 <= k < |s| && s[k] == y;
      if k > i {
        assert Before(s[i], s[k]);
      }
    }
  }

  /** `parse_mounts` after the table is split into rows: one entry per allowed device, its
      first row in table order among the shortest mount points, ordered by length. */
  method ParseMounts(rows: seq<Row>, configured: seq<string>, defaults: seq<string>) returns (out: seq<Mount>)
    ensures var ms := Candidates(rows, configured, defaults);
            && (forall i, j :: 0 <= i < j < |out| ==> out[i].device != out[j].device && Size(out[i]) <= Size(out[j]))
            && (forall m :: m in ms ==> exists k :: 0 <= k < |out| && out[k].device == m.device)
            && (forall k :: 0 <= k < |out| ==> BestRow(ms, out[k]))
    ensures forall k :: 0 <= k < |out| ==> ReportedRow(rows, configured, defaults, out[k])
    ensures forall r :: 0 <= r < |rows| && Counts(rows[r], configured, defaults) ==>
              exists k :: 0 <= k < |out| && out[k].device == rows[r].mount.device
  {
    hide Size, Candidates, Best, BestRow, ReportedRow, Firsts, Devices;
    var ms := Candidates(rows, configured, defaults);
    var sorted := StableSort(ms);
    var kept := Dedup(sorted);
    FirstsOf(sorted);
    out := seq(|kept|, i requires 0 <= i < |kept| => kept[i].0);
    forall i, j | 0 <= i < j < |out| ensures out[i].device != out[j].device && Size(out[i]) <= Size(out[j]) {
      assert Before(kept[i], kept[j]);
    }
    hide Before;
    forall m | m in ms ensures exists k :: 0 <= k < |out| && out[k].device == m.device {
      var k := DeviceKept(ms, sorted, kept, m);
      assert out[k].device == m.device;
    }
    forall k | 0 <= k < |out| ensures BestRow(ms, out[k]) && ReportedRow(rows, configured, defaults, out[k]) {
      var j :| 0 <= j < |sorted| && sorted[j] == kept[k] && kept[k].0.device !in Devices(sorted[..j]);
      FirstIsBest(sorted, ms, j);
      BestPlace(ms, kept[k]);
      ReportedOf(rows, configured, defaults, out[k]);
    }
    forall r | 0 <= r < |rows| && Counts(rows[r], configured, defaults)
      ensures exists k :: 0 <= k < |out| && out[k].device == rows[r].mount.device
    {
      CountsIsCandidate(rows, configured, defaults, r);
    }
  }

  ghost predicate ReportedRow(rows: seq<Row>, configured: seq<string>, defaults: seq<string>, m: Mount) {
    exists r: nat :: Reported(rows, configured, defaults, r) && rows[r].mount == m
  }

  lemma ReportedOf(rows: seq<Row>, configured: seq<string>, defaults: seq<string>, m: Mount)
    requires BestRow(Candidates(rows, configured, defaults), m)
    ensures ReportedRow(rows, configured, defaults, m)
  {
    hide Candidates, Size, Reported;
    var i: nat :| Best(Candidates(rows, configured, defaults), i) && Candidates(rows, configured, defaults)[i] == m;
    var r := BestIsReported(rows, configured, defaults, i);
  }

  lemma CountsIsCandidate(rows: seq<Row>, configured: seq<string>, defaults: seq<string>, r: nat)
    requires r < |rows| && Counts(rows[r], configured, defaults)
    ensures rows[r].mount in Candidates(rows, configured, defaults)
  {
    hide Candidates, Rows;
    RowsAre(rows, configured, defaults);
    var ps := Rows(rows, configured, defaults);
    assert r in ps;
    var i :| 0 <= i < |ps| && ps[i] == r;
    assert Candidates(rows, configured, defaults)[i] == rows[r].mount;
  }

  lemma DeviceKept(ms: seq<Mount>, sorted: seq<Placed>, kept: seq<Placed>, m: Mount) returns (k: nat)
    requires m in ms && Devices(kept) == Devices(sorted) && forall y :: y in sorted <==> y in Place(ms)
    ensures k < |kept| && kept[k].0.device == m.device
  {
    var i :| 0 <= i < |ms| && ms[i] == m;
    assert Place(ms)[i] in Place(ms);
    var j :| 0 <= j < |sorted| && sorted[j] == Place(ms)[i];
    assert sorted[j].0.device in Devices(sorted);
    k :| 0 <= k < |kept| && kept[k].0.device == m.device;
  }

  // ---------------------------------------------------------------- in terms of the table

  /** The row counts: its type is configured or, with nothing configured, a default. */
  predicate Counts(r: Row, configured: seq<string>, defaults: seq<string>) {
    r.fsType in configured || (|configured| == 0 && r.fsType in defaults)
  }

  /** Row `i` is the one to report for its device: it counts, and every other row of the device
      that counts has a longer mount point, or one as long further down. */
  predicate Reported(rows: seq<Row>, configured: seq<string>, defaults: seq<string>, i: nat) {
    && i < |rows| && Counts(rows[i], configured, defaults)
    && forall j :: 0 <= j < |rows| && j != i && Counts(rows[j], configured, defaults)
                   && rows[j].mount.device == rows[i].mount.device ==>
         Len(rows[i].mount.mountPoint) < Len(rows[j].mount.mountPoint)
         || (Len(rows[i].mount.mountPoint) == Len(rows[j].mount.mountPoint) && i < j)
  }

  /** The places in the table of the rows that count. */
  function Rows(rows: seq<Row>, configured: seq<string>, defaults: seq<string>): seq<nat> {
    if rows == [] then []
    else
      var n := |rows| - 1;
      Rows(rows[..n], configured, defaults) + if Counts(rows[n], configured, defaults) then [n] else []
  }

  lemma AllowedCounts(x: Row, configured: seq<string>, defaults: seq<string>)
    ensures Allowed(x.fsType, configured, defaults) == Counts(x, configured, defaults)
  {
  }

  lemma {:induction false} CandidatesSnoc(rows: seq<Row>, x: Row, configured: seq<string>, defaults: seq<string>)
    ensures Candidates(rows + [x], configured, defaults)
            == Candidates(rows, configured, defaults) + if Counts(x, configured, defaults) then [x.mount] else []
  {
    hide Allowed, Counts;
    AllowedCounts(x, configured, defaults);
    if rows == [] {
      assert rows + [x] == [x] && [x][1..] == [];
    } else {
      CandidatesSnoc(rows[1..], x, configured, defaults);
      assert (rows + [x])[1..] == rows[1..] + [x] && (rows + [x])[0] == rows[0];
    }
  }

  predicate RowsOk(rows: seq<Row>, ps: seq<nat>, ms: seq<Mount>, configured: seq<string>, defaults: seq<string>) {
    && |ps| == |ms|
    && (forall i :: 0 <= i < |ps| ==> ps[i] < |rows| && ms[i] == rows[ps[i]].mount && Counts(rows[ps[i]], configured, defaults))
    && (forall i, j :: 0 <= i < j < |ps| ==> ps[i] < ps[j])
    && (forall r :: 0 <= r < |rows| && Counts(rows[r], configured, defaults) ==> r in ps)
  }

  lemma RowAfter(rows: seq<Row>, x: Row, ps: seq<nat>, ms: seq<Mount>, configured: seq<string>, defaults: seq<string>)
    requires RowsOk(rows, ps, ms, configured, defaults)
    ensures if Counts(x, configured, defaults)
            then RowsOk(rows + [x], ps + [|rows|], ms + [x.mount], configured, defaults)
            else RowsOk(rows + [x], ps, ms, configured, defaults)
  {
    hide Counts;
    var all := rows + [x];
    assert forall i :: 0 <= i < |rows| ==> all[i] == rows[i];
  }

  lemma {:induction false} RowsAre(rows: seq<Row>, configured: seq<string>, defaults: seq<string>)
    ensures RowsOk(rows, Rows(rows, configured, defaults), Candidates(rows, configured, defaults), configured, defaults)
  {
    if rows != [] {
      hide RowsOk, Candidates, Counts;
      var n := |rows| - 1;
      var p := rows[..n];
      RowsAre(p, configured, defaults);
      RowAfter(p, rows[n], Rows(p, configured, defaults), Candidates(p, configured, defaults), configured, defaults);
      CandidatesSnoc(p, rows[n], configured, defaults);
      assert rows == p + [rows[n]];
      assert Rows(p, configured, defaults) + [] == Rows(p, configured, defaults);
      assert Candidates(p, configured, defaults) + [] == Candidates(p, configured, defaults);
    }
  }

  /** The best candidate of a device is the row to report for it. */
  lemma BestIsReported(rows: seq<Row>, configured: seq<string>, defaults: seq<string>, i: nat) returns (r: nat)
    requires Best(Candidates(rows, configured, defaults), i)
    ensures Reported(rows, configured, defaults, r) && rows[r].mount == Candidates(rows, configured, defaults)[i]
  {
    hide Candidates, Rows, Len, Counts;
    var ms, ps := Candidates(rows, configured, defaults), Rows(rows, configured, defaults);
    RowsAre(rows, configured, defaults);
    r := ps[i];
    forall j | 0 <= j < |rows| && j != r && Counts(rows[j], configured, defaults)
               && rows[j].mount.device == rows[r].mount.device
      ensures Len(rows[r].mount.mountPoint) < Len(rows[j].mount.mountPoint)
              || (Len(rows[r].mount.mountPoint) == Len(rows[j].mount.mountPoint) && r < j)
    {
      var k := PlaceOf(rows, ps, ms, configured, defaults, j);
      assert Size(ms[i]) < Size(ms[k]) || (Size(ms[i]) == Size(ms[k]) && i <= k);
    }
  }

  lemma PlaceOf(
    rows: seq<Row>, ps: seq<nat>, ms: seq<Mount>, configured: seq<string>, defaults: seq<string>, j: nat)
    returns (k: nat)
    requires RowsOk(rows, ps, ms, configured, defaults) && j < |rows| && Counts(rows[j], configured, defaults)
    ensures k < |ps| && ps[k] == j && ms[k] == rows[j].mount
  {
    hide Counts;
    assert j in ps;
    k :| 0 <= k < |ps| && ps[k] == j;
  }

  /** There is exactly one best row per device, so the contract of `ParseMounts` leaves no
      choice. */
  lemma BestUnique(ms: seq<Mount>, i: nat, j: nat)
    requires Best(ms, i) && Best(ms, j) && ms[i].device == ms[j].device
    ensures i == j
  {
  }
}
