/** The offset file: one `PATH\tPOS\tDEV\tINO` line per entry, read back into a map by path. */
module Offsets {
  import opened Options
  import opened FileTable
  import M = MultilineRuns

  const U64_MAX: nat := 0xFFFF_FFFF_FFFF_FFFF

  // ---------------------------------------------------------------- numbers

  function Digit(d: nat): char
    requires d < 10
  {
    (0x30 + d) as char
  }

  predicate IsDigit(c: char) { 0x30 <= c as int <= 0x39 }

  /** `Display` for an unsigned integer. */
  function Decimal(n: nat): (s: string)
    ensures s != "" && forall i :: 0 <= i < |s| ==> IsDigit(s[i])
  {
    if n < 10 then [Digit(n)] else Decimal(n / 10) + [Digit(n % 10)]
  }

  function DigitsValue(s: string): nat
    requires forall i :: 0 <= i < |s| ==> IsDigit(s[i])
  {
    if s == "" then 0
    else
      assert IsDigit(s[|s| - 1]);
      10 * DigitsValue(s[..|s| - 1]) + (s[|s| - 1] as int - 0x30)
  }

  /** `str::parse::<u64>`: an optional plus sign, at least one digit, no overflow. */
  function ParseU64(s: string): Option<nat> {
    var d := if s != "" && s[0] == '+' then s[1..] else s;
    if d == "" then None
    else if forall i :: 0 <= i < |d| ==> IsDigit(d[i]) then
      if DigitsValue(d) <= U64_MAX then Some(DigitsValue(d)) else None
    else None
  }

  lemma {:induction false} DecimalValue(n: nat)
    ensures DigitsValue(Decimal(n)) == n
  {
    var s := Decimal(n);
    if n >= 10 {
      DecimalValue(n / 10);
      assert s[..|s| - 1] == Decimal(n / 10);
    } else {
      assert s[..0] == "";
    }
  }

  lemma ParseDecimal(n: nat)
    requires n <= U64_MAX
    ensures ParseU64(Decimal(n)) == Some(n)
  {
    DecimalValue(n);
    assert IsDigit(Decimal(n)[0]);
  }

  /** A number that does not fit 64 bits is refused. */
  lemma ParseOverflow(n: nat)
    requires n > U64_MAX
    ensures ParseU64(Decimal(n)) == None
  {
    DecimalValue(n);
    assert IsDigit(Decimal(n)[0]);
  }

  // ---------------------------------------------------------------- splitting

  function Find(s: string, c: char): (n: nat)
    ensures n <= |s| && (n < |s| ==> s[n] == c) && c !in s[..n]
  {
    if s == "" || s[0] == c then 0 else 1 + Find(s[1..], c)
  }

  function StripCr(s: string): string { if s != "" && s[|s| - 1] == '\r' then s[..|s| - 1] else s }

  /** `str::lines`. */
  function TextLines(s: string): seq<string> {
    if s == "" then []
    else
      var n := Find(s, '\n');
      if n == |s| then [s] else [StripCr(s[..n])] + TextLines(s[n + 1..])
  }

  /** `splitn(k, '\t')`. */
  function SplitTabs(s: string, k: nat): seq<string>
    requires k >= 1
  {
    var n := Find(s, '\t');
    if k == 1 || n == |s| then [s] else [s[..n]] + SplitTabs(s[n + 1..], k - 1)
  }

  lemma {:induction false} FindIs(a: string, c: char, rest: string)
    requires c !in a
    ensures Find(a + [c] + rest, c) == |a|
  {
    var s := a + [c] + rest;
    if a != "" {
      assert s[0] == a[0] && s[1..] == a[1..] + [c] + rest;
      FindIs(a[1..], c, rest);
    }
  }

  lemma {:induction false} FindNone(a: string, c: char)
    requires c !in a
    ensures Find(a, c) == |a|
  {
    if a != "" {
      FindNone(a[1..], c);
    }
  }

  // ---------------------------------------------------------------- the file

  function Line(e: Entry): string {
    e.path + "\t" + Decimal(e.pos) + "\t" + Decimal(e.id.dev) + "\t" + Decimal(e.id.ino)
  }

  function SaveText(es: seq<Entry>): string {
    if es == [] then "" else Line(es[0]) + "\n" + SaveText(es[1..])
  }

  /** `save_offsets`, the text it writes. */
  method SaveOffsets(es: seq<Entry>) returns (text: string)
    ensures text == SaveText(es)
  {
    hide Line;
    text := "";
    assert es[0..] == es && "" + SaveText(es) == SaveText(es);
    for i := 0 to |es|
      invariant text + SaveText(es[i..]) == SaveText(es)
    {
      assert es[i..][0] == es[i] && es[i..][1..] == es[i + 1..];
      var line := Line(es[i]) + "\n";
      assert text + (line + SaveText(es[i + 1..])) == (text + line) + SaveText(es[i + 1..]);
      text := text + line;
    }
    assert es[|es|..] == [] && text + "" == text;
  }

  /** The offset of one line, if it is well formed. */
  function ParseLine(line: string): Option<(string, SavedOffset)> {
    var parts := SplitTabs(line, 4);
    if |parts| != 4 then None
    else
      var pos, dev, ino := ParseU64(parts[1]), ParseU64(parts[2]), ParseU64(parts[3]);
      if pos.Some? && dev.Some? && ino.Some?
      then Some((parts[0], SavedOffset(pos.value, FileId(dev.value, ino.value))))
      else None
  }

  /** The map built line by line; a later line of the same path replaces an earlier one. */
  function LoadLines(lines: seq<string>): map<string, SavedOffset> {
    if lines == [] then map[]
    else
      var m := LoadLines(lines[..|lines| - 1]);
      match ParseLine(lines[|lines| - 1])
      case Some(p) => m[p.0 := p.1]
      case None => m
  }

  /** `load_offsets`. */
  method LoadOffsets(contents: string) returns (m: map<string, SavedOffset>)
    ensures m == LoadLines(TextLines(contents))
  {
    hide ParseLine;
    m := map[];
    var lines := TextLines(contents);
    for i := 0 to |lines|
      invariant m == LoadLines(lines[..i])
    {
      assert lines[..i + 1][..i] == lines[..i] && lines[..i + 1][i] == lines[i];
      var p := ParseLine(lines[i]);
      if p.Some? { m := m[p.value.0 := p.value.1]; }
    }
    assert lines[..|lines|] == lines;
  }

  // ---------------------------------------------------------------- round trip

  /** A path the format can carry, and offsets that are 64-bit numbers. */
  predicate Storable(e: Entry) {
    '\t' !in e.path && '\n' !in e.path && e.pos <= U64_MAX && e.id.dev <= U64_MAX && e.id.ino <= U64_MAX
  }

  function Saved(e: Entry): SavedOffset { SavedOffset(e.pos, e.id) }

  lemma DecimalClean(n: nat)
    ensures '\t' !in Decimal(n) && '\n' !in Decimal(n) && Decimal(n)[|Decimal(n)| - 1] != '\r'
  {
    assert IsDigit(Decimal(n)[|Decimal(n)| - 1]);
    forall c | c in Decimal(n) ensures c != '\t' && c != '\n' {
      var i :| 0 <= i < |Decimal(n)| && Decimal(n)[i] == c;
      assert IsDigit(Decimal(n)[i]);
    }
  }

  lemma SplitOne(a: string, rest: string, k: nat)
    requires '\t' !in a && k >= 2
    ensures SplitTabs(a + "\t" + rest, k) == [a] + SplitTabs(rest, k - 1)
  {
    var s := a + "\t" + rest;
    FindIs(a, '\t', rest);
    assert s == a + ['\t'] + rest;
    assert s[..|a|] == a && s[|a| + 1..] == rest;
  }

  /** A printed line parses back to its entry. */
  lemma LineRoundTrip(e: Entry)
    requires Storable(e)
    ensures ParseLine(Line(e)) == Some((e.path, Saved(e)))
  {
    hide ParseU64, Decimal, SplitTabs;
    var a, b, c := Decimal(e.pos), Decimal(e.id.dev), Decimal(e.id.ino);
    DecimalClean(e.pos);
    DecimalClean(e.id.dev);
    ParseDecimal(e.pos);
    ParseDecimal(e.id.dev);
    ParseDecimal(e.id.ino);
    assert Line(e) == e.path + "\t" + (a + "\t" + (b + "\t" + c));
    SplitOne(e.path, a + "\t" + (b + "\t" + c), 4);
    SplitOne(a, b + "\t" + c, 3);
    SplitOne(b, c, 2);
    SplitLast(c);
    assert SplitTabs(Line(e), 4) == [e.path, a, b, c];
  }

  lemma SplitLast(c: string)
    ensures SplitTabs(c, 1) == [c]
  {
  }

  lemma LineClean(e: Entry)
    requires Storable(e)
    ensures '\n' !in Line(e) && Line(e) != "" && StripCr(Line(e)) == Line(e)
  {
    hide Decimal;
    DecimalClean(e.pos);
    DecimalClean(e.id.dev);
    DecimalClean(e.id.ino);
    var c := Decimal(e.id.ino);
    var l := Line(e);
    assert l[|l| - 1] == c[|c| - 1];
  }

  /** The saved text splits into the printed lines. */
  lemma {:induction false} TextRoundTrip(es: seq<Entry>)
    requires forall i :: 0 <= i < |es| ==> Storable(es[i])
    ensures TextLines(SaveText(es)) == LinesOf(es)
  {
    hide Line, Storable, StripCr;
    if es != [] {
      TextRoundTrip(es[1..]);
      var l, rest := Line(es[0]), SaveText(es[1..]);
      LineClean(es[0]);
      FindIs(l, '\n', rest);
      var s := l + ['\n'] + rest;
      assert SaveText(es) == s;
      assert s[..|l|] == l && s[|l| + 1..] == rest;
    }
  }

  function LinesOf(es: seq<Entry>): seq<string> {
    if es == [] then [] else [Line(es[0])] + LinesOf(es[1..])
  }

  lemma {:induction false} LinesOfSnoc(es: seq<Entry>)
    requires es != []
    ensures |LinesOf(es)| == |es|
    ensures LinesOf(es) == LinesOf(es[..|es| - 1]) + [Line(es[|es| - 1])]
  {
    hide Line;
    if |es| > 1 {
      LinesOfSnoc(es[1..]);
      assert es[1..][..|es| - 2] == es[..|es| - 1][1..];
      assert es[..|es| - 1][0] == es[0];
    } else {
      assert es[1..] == [] && es[..0] == [];
    }
  }

  function Load(text: string): map<string, SavedOffset> { LoadLines(TextLines(text)) }

  /** What the file gives back for a path is the last entry saved under it. */
  predicate IsLast(es: seq<Entry>, i: nat) {
    i < |es| && forall j :: i < j < |es| ==> es[j].path != es[i].path
  }

  lemma {:induction false} LastWins(es: seq<Entry>, i: nat)
    requires forall i :: 0 <= i < |es| ==> Storable(es[i])
    requires IsLast(es, i)
    ensures var m := LoadLines(LinesOf(es)); es[i].path in m && m[es[i].path] == Saved(es[i])
  {
    hide Line, Storable, ParseLine;
    var n := |es| - 1;
    LinesOfSnoc(es);
    var lines := LinesOf(es);
    assert lines[..|lines| - 1] == LinesOf(es[..n]);
    assert Storable(es[n]);
    LineRoundTrip(es[n]);
    if i < n {
      LastWins(es[..n], i);
    }
  }

  lemma {:induction false} OnlySaved(es: seq<Entry>, p: string)
    requires forall i :: 0 <= i < |es| ==> Storable(es[i])
    requires p in LoadLines(LinesOf(es))
    ensures exists i :: 0 <= i < |es| && es[i].path == p
  {
    hide Line, Storable, ParseLine;
    if es != [] {
      var n := |es| - 1;
      LinesOfSnoc(es);
      var lines := LinesOf(es);
      assert lines[..|lines| - 1] == LinesOf(es[..n]);
      assert Storable(es[n]);
      LineRoundTrip(es[n]);
      if es[n].path != p {
        OnlySaved(es[..n], p);
        var i :| 0 <= i < |es[..n]| && es[..n][i].path == p;
        assert es[i].path == p;
      }
    }
  }

  /** Offset file round trip: with distinct storable paths, in whatever order the table is
      written, loading gives back every entry and nothing else. */
  lemma SaveLoad(es: seq<Entry>)
    requires forall i :: 0 <= i < |es| ==> Storable(es[i])
    requires forall i, j :: 0 <= i < j < |es| ==> es[i].path != es[j].path
    ensures var m := Load(SaveText(es));
            && (forall i :: 0 <= i < |es| ==> es[i].path in m && m[es[i].path] == Saved(es[i]))
            && (forall p :: p in m ==> exists i :: 0 <= i < |es| && es[i].path == p)
  {
    hide Line, Storable, LinesOf, LoadLines, TextLines, SaveText;
    TextRoundTrip(es);
    var m := Load(SaveText(es));
    forall i | 0 <= i < |es| ensures es[i].path in m && m[es[i].path] == Saved(es[i]) {
      LastWins(es, i);
    }
    forall p | p in m ensures exists i :: 0 <= i < |es| && es[i].path == p {
      OnlySaved(es, p);
    }
  }

  /** The last entry saved under the path of entry `i`. */
  function LastOf(es: seq<Entry>, i: nat): (j: nat)
    requires i < |es|
    ensures IsLast(es, j) && i <= j && es[j].path == es[i].path
    ensures IsLast(es, i) ==> j == i
    decreases |es| - i
  {
    LastOfFrom(es, i, |es| - 1)
  }

  function LastOfFrom(es: seq<Entry>, i: nat, n: nat): (j: nat)
    requires i <= n < |es|
    requires forall k :: n < k < |es| ==> es[k].path != es[i].path
    ensures IsLast(es, j) && i <= j && es[j].path == es[i].path
  {
    if es[n].path == es[i].path then n else LastOfFrom(es, i, n - 1)
  }

  /** Paths shared between identities, as a draining file shares its path with its
      replacement: an entry comes back if and only if no later one was saved under its path. */
  lemma RestoredExactly(es: seq<Entry>, i: nat)
    requires forall k :: 0 <= k < |es| ==> Storable(es[k])
    requires forall j, k :: 0 <= j < k < |es| ==> es[j].id != es[k].id
    requires i < |es|
    ensures var m := Load(SaveText(es));
            es[i].path in m && (m[es[i].path] == Saved(es[i]) <==> IsLast(es, i))
            && (m[es[i].path].id == es[i].id <==> IsLast(es, i))
  {
    hide Line, Storable, LinesOf, LoadLines, TextLines, SaveText;
    TextRoundTrip(es);
    var j := LastOf(es, i);
    LastWins(es, j);
  }

  /** A table in a given order. */
  function Listed(t: Table, ids: seq<FileId>): seq<Entry>
    requires forall i :: 0 <= i < |ids| ==> ids[i] in t.files
  {
    seq(|ids|, i requires 0 <= i < |ids| => t.files[ids[i]])
  }

  /** Every tracked file, once each, in some order. */
  ghost predicate Order(t: Table, ids: seq<FileId>) {
    && (forall k :: 0 <= k < |ids| ==> ids[k] in t.files)
    && (forall j, k :: 0 <= j < k < |ids| ==> ids[j] != ids[k])
    && (forall id :: id in t.files ==> id in ids)
  }

  lemma ListedEntries(t: Table, ids: seq<FileId>)
    requires Consistent(t) && Order(t, ids)
    requires forall id :: id in t.files ==> Storable(t.files[id])
    ensures var es := Listed(t, ids);
            && (forall k :: 0 <= k < |es| ==> Storable(es[k]))
            && (forall j, k :: 0 <= j < k < |es| ==> es[j].id != es[k].id)
  {
    hide Storable;
  }

  /** Save, restart, resume: registering a file that is still the same inode continues at its
      saved offset, or at the end of the file if that is shorter, when its entry was the last
      written under its path; otherwise its offset is gone, and it is read from its end, or
      not at all if it is old. */
  lemma ResumeAfterSave(t: Table, ids: seq<FileId>, i: nat, length: nat, stale: bool)
    requires Consistent(t) && Order(t, ids) && i < |ids|
    requires forall id :: id in t.files ==> Storable(t.files[id])
    ensures var e := t.files[ids[i]];
            var es := Listed(t, ids);
            var u := Register(EMPTY, e.path, Some(Stat(e.id, length, stale, false)), Load(SaveText(es)), None);
            if IsLast(es, i) then
              e.id in u.files && u.files[e.id].path == e.path
              && u.files[e.id].pos == if e.pos <= length then e.pos else length
            else if stale then u == EMPTY
            else e.id in u.files && u.files[e.id].path == e.path && u.files[e.id].pos == length
  {
    hide Load, SaveText, Storable;
    var es := Listed(t, ids);
    ListedEntries(t, ids);
    RestoredExactly(es, i);
    assert es[i] == t.files[ids[i]];
  }

  predicate Alone(t: Table, id: FileId)
    requires id in t.files
  {
    forall o :: o in t.files && o != id ==> t.files[o].path != t.files[id].path
  }

  /** The offset of `id` comes back when the table is written in this order. */
  predicate Restores(t: Table, ids: seq<FileId>, id: FileId)
    requires forall k :: 0 <= k < |ids| ==> ids[k] in t.files
    requires id in t.files
  {
    var e, m := t.files[id], Load(SaveText(Listed(t, ids)));
    e.path in m && m[e.path] == Saved(e)
  }

  /** A listing of a finite set. */
  lemma {:induction false} ListOf(ids: set<FileId>) returns (l: seq<FileId>)
    ensures forall x :: x in l <==> x in ids
    ensures forall j, k :: 0 <= j < k < |l| ==> l[j] != l[k]
    decreases |ids|
  {
    if ids == {} {
      l := [];
    } else {
      var x :| x in ids;
      var r := ListOf(ids - {x});
      l := r + [x];
    }
  }

  lemma OrderEnding(t: Table, o: FileId) returns (ids: seq<FileId>)
    requires o in t.files
    ensures Order(t, ids) && ids != [] && ids[|ids| - 1] == o
  {
    var r := ListOf(t.files.Keys - {o});
    ids := r + [o];
    forall k | 0 <= k < |ids| ensures ids[k] in t.files {
      if k < |r| { assert r[k] in r; }
    }
    forall j, k | 0 <= j < k < |ids| ensures ids[j] != ids[k] {
      assert r[j] in r;
    }
    forall id | id in t.files ensures id in ids {
      assert id != o ==> id in r;
    }
  }

  lemma AloneRestored(t: Table, ids: seq<FileId>, id: FileId)
    requires Consistent(t) && Order(t, ids) && id in t.files
    requires forall o :: o in t.files ==> Storable(t.files[o])
    requires Alone(t, id)
    ensures Restores(t, ids, id)
  {
    hide Load, SaveText, Storable;
    var i :| 0 <= i < |ids| && ids[i] == id;
    ListedEntries(t, ids);
    RestoredExactly(Listed(t, ids), i);
  }

  /** The order of the table is the hash map's: an entry survives every write order if and
      only if no other tracked entry has its path. */
  lemma SurvivesEveryOrder(t: Table, id: FileId)
    requires Consistent(t) && id in t.files
    requires forall o :: o in t.files ==> Storable(t.files[o])
    ensures (forall ids :: Order(t, ids) ==> Restores(t, ids, id)) <==> Alone(t, id)
  {
    hide Load, SaveText, Storable, Restores;
    if Alone(t, id) {
      forall ids | Order(t, ids) ensures Restores(t, ids, id) { AloneRestored(t, ids, id); }
    } else {
      var o :| o in t.files && o != id && t.files[o].path == t.files[id].path;
      var ids := OrderEnding(t, o);
      NotRestored(t, ids, id);
    }
  }

  lemma NotRestored(t: Table, ids: seq<FileId>, id: FileId)
    requires Consistent(t) && Order(t, ids) && id in t.files && ids != []
    requires forall o :: o in t.files ==> Storable(t.files[o])
    requires var o := ids[|ids| - 1]; o != id && t.files[o].path == t.files[id].path
    ensures !Restores(t, ids, id)
  {
    hide Load, SaveText, Storable;
    var i :| 0 <= i < |ids| && ids[i] == id;
    ListedEntries(t, ids);
    var es := Listed(t, ids);
    RestoredExactly(es, i);
    assert es[|es| - 1].path == es[i].path;
  }

  /** An instance: a rotation leaves the old file draining beside its replacement, and when
      the replacement is written last the old file's offset is lost. */
  lemma DrainingOffsetLost()
    ensures var d, r := FileId(1, 7), FileId(1, 8);
            var t := Table(map[d := Entry("/a", d, 50, true, 0, false), r := Entry("/a", r, 0, false, 0, false)], map["/a" := r]);
            Consistent(t) && Order(t, [d, r]) && !Restores(t, [d, r], d) && Restores(t, [d, r], r)
  {
    hide Load, SaveText;
    var d, r := FileId(1, 7), FileId(1, 8);
    var t := Table(map[d := Entry("/a", d, 50, true, 0, false), r := Entry("/a", r, 0, false, 0, false)], map["/a" := r]);
    var ids := [d, r];
    assert ids[0] == d && ids[1] == r;
    assert Order(t, ids);
    NotRestored(t, ids, d);
    ListedEntries(t, ids);
    RestoredExactly(Listed(t, ids), 1);
  }

  /** The line of an entry, spelled out. */
  lemma LineFormat()
    ensures Line(Entry("/a", FileId(2, 37), 105, false, 0, false)) == "/a\t105\t2\t37"
  {
    assert Decimal(105) == Decimal(10) + "5" && Decimal(10) == "1" + "0";
    assert Decimal(37) == "3" + "7" && Decimal(2) == "2";
  }

  /** Where a file is registered is where the run models resume: at its checkpoint, capped by
      the length, or at the end. */
  lemma ResumesAsModelled(path: string, st: Stat, saved: map<string, SavedOffset>)
    ensures StartPos(path, st, saved, None)
            == M.ResumeAt(if path in saved && saved[path].id == st.id then Some(saved[path].pos) else None, st.length)
  {
  }
}
