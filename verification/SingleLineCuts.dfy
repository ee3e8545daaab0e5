/** What a place where reading began anew does to the lines around it: the entries before and
    after it against those across it, line by line and as lists. */
module SingleLineCuts {
  import opened Utf8
  import opened Lines
  import opened Assembly
  import opened Segments
  import opened SingleLine
  import C = MultilineConfluence

  // ---------------------------------------------------------------- lines by their place

  /** `[a, b)` is a complete line of the file read from `base`. */
  predicate IsLine(file: seq<Byte>, base: nat, a: nat, b: nat) {
    && base <= a < b <= |file|
    && file[b - 1] == NEWLINE && NEWLINE !in file[a..b - 1]
    && (a == base || file[a - 1] == NEWLINE)
  }

  lemma NoNewlineAt(file: seq<Byte>, a: nat, b: nat, i: nat)
    requires a <= i < b <= |file| && NEWLINE !in file[a..b]
    ensures file[i] != NEWLINE
  {
    assert file[a..b][i - a] == file[i];
  }

  lemma FirstNewline(file: seq<Byte>, a: nat, b: nat, i: nat)
    requires a < b <= |file| && NEWLINE !in file[a..b - 1] && a <= i < |file| && file[i] == NEWLINE
    ensures b - 1 <= i
  {
    var l := file[a..b - 1];
    assert forall k :: 0 <= k < |l| ==> l[k] == file[a + k];
  }

  lemma LineBegins(file: seq<Byte>, base: nat, a: nat, b: nat, x: nat)
    requires IsLine(file, base, a, b) && a < x < b
    ensures file[x - 1] != NEWLINE
  {
    NoNewlineAt(file, a, b - 1, x - 1);
  }

  lemma SameEnd(file: seq<Byte>, base: nat, a: nat, c: nat, b: nat)
    requires IsLine(file, base, a, b) && IsLine(file, base, c, b)
    ensures a == c
  {
    if a < c { LineBegins(file, base, a, b, c); }
    if c < a { LineBegins(file, base, c, b, a); }
  }

  /** The lines from `base` are the first one and the lines from its end. */
  lemma LineOrLater(file: seq<Byte>, base: nat, m: nat, x: nat, y: nat)
    requires IsLine(file, base, base, m)
    ensures IsLine(file, base, x, y) <==> (x == base && y == m) || IsLine(file, m, x, y)
  {
    if IsLine(file, base, x, y) {
      if x == base {
        FirstNewline(file, base, m, y - 1);
        FirstNewline(file, base, y, m - 1);
      } else {
        FirstNewline(file, base, m, x - 1);
      }
    }
  }

  lemma {:induction false} ItemsCons(at: nat, c: seq<Byte>, lines: Group)
    ensures Items(at, [c] + lines) == Item(at, c) + Items(at + |c|, lines)
    decreases |lines|
  {
    hide Item, Flat;
    if lines == [] {
      assert [c] + lines == [] + [c];
      ItemsSnoc(at, [], c);
      NoParts();
    } else {
      var p, l := Init(lines), Last(lines);
      ItemsCons(at, c, p);
      assert lines == p + [l] && [c] + lines == ([c] + p) + [l];
      ItemsSnoc(at, [c] + p, l);
      ItemsSnoc(at + |c|, p, l);
      FlatAppend([c], p);
      FlatSnoc([], c);
      NoParts();
      assert [] + [c] == [c] && [] + c == c;
    }
  }

  lemma NoParts()
    ensures Flat<Byte>([]) == []
  {
  }

  /** The first line of a stretch, by its place. */
  lemma FirstLineIs(file: seq<Byte>, base: nat, end: nat)
    requires base <= end <= |file|
    ensures var l := CompleteLines(file[base..end]);
            if l == [] then NEWLINE !in file[base..end]
            else var m := base + |l[0]|;
                 m <= end && l[0] == file[base..m] && Terminated(l[0]) && IsLine(file, base, base, m)
                 && l == [l[0]] + CompleteLines(file[m..end])
  {
    hide NextChunk;
    var b := file[base..end];
    var c := NextChunk(b);
    ChunkShape(b);
    if Terminated(c) {
      var m := base + |c|;
      assert c == file[base..m] && b[|c|..] == file[m..end] && file[m - 1] == c[|c| - 1];
      assert c[..|c| - 1] == file[base..m - 1];
    }
  }

  /** The entries of a stretch are exactly its non-blank lines, each at its place. */
  lemma {:induction false} ItemIff(file: seq<Byte>, base: nat, end: nat, e: Entry)
    requires base <= end <= |file|
    ensures e in Items(base, CompleteLines(file[base..end])) <==>
              IsLine(file, base, e.from, e.to) && e.to <= end && e.text == NormalLine(file[e.from..e.to]) && e.text != ""
    decreases end - base
  {
    hide CompleteLines, NormalLine, Items, IsLine;
    FirstLineIs(file, base, end);
    var l := CompleteLines(file[base..end]);
    if l == [] {
      NoItems(base);
      NoLineHere(file, base, end, e.from, e.to);
    } else {
      var m := base + |l[0]|;
      ItemsCons(base, l[0], CompleteLines(file[m..end]));
      LineForward(file, base, base, m);
      ItemIff(file, m, end, e);
      LineOrLater(file, base, m, e.from, e.to);
      LaterLine(file, m, e.from, e.to, base);
    }
  }

  lemma NoItems(at: nat)
    ensures Items(at, []) == []
  {
  }

  lemma LineForward(file: seq<Byte>, base: nat, a: nat, b: nat)
    requires IsLine(file, base, a, b)
    ensures base <= a < b <= |file|
  {
  }

  lemma LaterLine(file: seq<Byte>, m: nat, x: nat, y: nat, base: nat)
    requires base < m
    ensures IsLine(file, m, x, y) ==> x != base
  {
  }

  lemma NoLineHere(file: seq<Byte>, base: nat, end: nat, x: nat, y: nat)
    requires base <= end <= |file| && NEWLINE !in file[base..end]
    ensures !(IsLine(file, base, x, y) && y <= end)
  {
    if IsLine(file, base, x, y) && y <= end { NoNewlineAt(file, base, end, y - 1); }
  }

  /** What is pending at `c` reaches back to the beginning of its line. */
  lemma {:induction false} PendingIs(file: seq<Byte>, base: nat, c: nat)
    requires base <= c <= |file|
    ensures var r := Rest(file[base..c]);
            |r| <= c - base && r == file[c - |r|..c] && NEWLINE !in r
            && (c - |r| == base || file[c - |r| - 1] == NEWLINE)
    decreases c - base
  {
    hide NextChunk;
    var b := file[base..c];
    var d := NextChunk(b);
    ChunkShape(b);
    if Terminated(d) {
      var m := base + |d|;
      assert b[|d|..] == file[m..c] && file[m - 1] == d[|d| - 1];
      PendingIs(file, m, c);
    }
  }

  /** Conversely, bytes without a newline from the beginning of a line are what is pending. */
  lemma PendingFrom(file: seq<Byte>, base: nat, m: nat, c: nat)
    requires base <= m <= c <= |file| && NEWLINE !in file[m..c] && (m == base || file[m - 1] == NEWLINE)
    ensures Rest(file[base..c]) == file[m..c]
  {
    hide Rest;
    PendingIs(file, base, c);
    var a := c - |Rest(file[base..c])|;
    if a < m { NoNewlineAt(file, a, c, m - 1); }
    if m < a { NoNewlineAt(file, m, c, a - 1); }
  }

  /** A line that begins at a cut is the end of the line pending there. */
  lemma JoinedLine(file: seq<Byte>, base: nat, c: nat, y: nat)
    requires base <= c && IsLine(file, c, c, y)
    ensures c <= |file|
    ensures var r := Rest(file[base..c]);
            |r| <= c && IsLine(file, base, c - |r|, y) && file[c - |r|..y] == r + file[c..y]
  {
    hide Rest;
    PendingIs(file, base, c);
    var r := Rest(file[base..c]);
    var a := c - |r|;
    SliceJoin(file, a, c, y - 1);
    SliceJoin(file, a, c, y);
  }

  lemma SliceJoin(file: seq<Byte>, a: nat, c: nat, y: nat)
    requires a <= c <= y <= |file|
    ensures file[a..y] == file[a..c] + file[c..y]
  {
  }

  // ---------------------------------------------------------------- lists of entries

  /** A cut at `c` changes no entry up to `end`: nothing was pending there, or no line ends
      in between, or the first line that does reads the same without its pending beginning. */
  predicate Harmless(file: seq<Byte>, base: nat, c: nat, end: nat)
    requires base <= c <= end <= |file|
  {
    var pending, later := Rest(file[base..c]), CompleteLines(file[c..end]);
    pending == [] || later == [] || NormalLine(pending + later[0]) == NormalLine(later[0])
  }

  function Kept(text: string): seq<string> { if text == "" then [] else [text] }

  lemma {:induction false} GroupTextsAppend(a: Group, b: Group)
    ensures C.GroupTexts(a + b) == C.GroupTexts(a) + C.GroupTexts(b)
    decreases |b|
  {
    hide NormalLine;
    if b == [] {
      assert a + b == a;
    } else {
      GroupTextsAppend(a, Init(b));
      assert Init(a + b) == a + Init(b);
    }
  }

  lemma {:induction false} NonEmptyAppend(a: seq<string>, b: seq<string>)
    ensures NonEmpty(a + b) == NonEmpty(a) + NonEmpty(b)
    decreases |b|
  {
    if b == [] {
      assert a + b == a;
    } else {
      NonEmptyAppend(a, Init(b));
      assert Init(a + b) == a + Init(b);
    }
  }

  lemma EntriesAppend(a: Group, b: Group)
    ensures Entries(a + b) == Entries(a) + Entries(b)
  {
    hide C.GroupTexts, NonEmpty;
    GroupTextsAppend(a, b);
    NonEmptyAppend(C.GroupTexts(a), C.GroupTexts(b));
  }

  lemma EntriesOne(l: seq<Byte>)
    ensures Entries([l]) == Kept(NormalLine(l))
  {
    hide NormalLine;
    var t := NormalLine(l);
    assert C.GroupTexts([] + [l]) == C.GroupTexts([]) + [t];
    NonEmptySnoc([], t);
    assert [] + [t] == [t] && [] + [l] == [l] && Init([l]) == [];
  }

  /** Text before a line can only keep it from being blank. */
  lemma {:induction false} TrimEndBefore(p: string, s: string)
    ensures TrimEnd(s) != "" ==> TrimEnd(p + s) == p + TrimEnd(s)
  {
    if s != [] && IsWhitespace(s[|s| - 1]) {
      var i := s[..|s| - 1];
      TrimEndBefore(p, i);
      assert (p + s)[..|p + s| - 1] == p + i;
    }
  }

  lemma NotBlankBefore(p: string, s: string)
    requires p != "" && Normalize(p + s) == ""
    ensures Normalize(s) == ""
  {
    TrimEndBefore(p, s);
  }

  lemma NormalBefore(x: seq<Byte>, l: seq<Byte>)
    requires Whole(x) && x != [] && Terminated(l)
    ensures NormalLine(x + l) == "" ==> NormalLine(l) == ""
  {
    hide Normalize;
    assert Terminated(x + l) && Init(x + l) == x + Init(l);
    LossyAfterWhole(Lossy(x), Init(l));
    if NormalLine(x + l) == "" {
      NotBlankBefore(Lossy(x), Lossy(Init(l)));
    }
  }

  lemma {:induction false} RestWhole(b: seq<Byte>)
    requires Whole(b)
    ensures Whole(Rest(b))
    decreases |b|
  {
    hide Whole, NextChunk;
    var c := NextChunk(b);
    ChunkShape(b);
    if Terminated(c) {
      var r := b[|c|..];
      assert b == c + r && c == Init(c) + [NEWLINE] && c + r == Init(c) + [NEWLINE] + r;
      WholeBeforeNewline(Init(c), r);
      C.WholeNewline();
      WholeAppend(Init(c), [NEWLINE]);
      WholeSuffix(c, r);
      RestWhole(r);
    }
  }

  /** Entries before and after a cut, against the entries across it. */
  lemma CutEntries(file: seq<Byte>, base: nat, c: nat, end: nat)
    requires base <= c <= end <= |file| && Whole(file[base..c])
    ensures var x, b := Rest(file[base..c]), file[c..end];
            && NEWLINE !in x && Whole(x)
            && Entries(CompleteLines(file[base..end])) == Entries(CompleteLines(file[base..c])) + Entries(CompleteLines(x + b))
  {
    hide Whole, Rest, CompleteLines, Entries;
    assert file[base..end] == file[base..c] + file[c..end];
    LinesAppendRest(file[base..c], file[c..end]);
    RestWhole(file[base..c]);
    EntriesAppend(CompleteLines(file[base..c]), CompleteLines(Rest(file[base..c]) + file[c..end]));
  }

  /** The first line after a cut with and without what was pending; the rest is the same. */
  lemma FirstEntry(x: seq<Byte>, b: seq<Byte>)
    requires NEWLINE !in x && CompleteLines(b) != []
    ensures var f, more := CompleteLines(b)[0], CompleteLines(b)[1..];
            && Terminated(f)
            && Entries(CompleteLines(x + b)) == Kept(NormalLine(x + f)) + Entries(more)
            && Entries(CompleteLines(b)) == Kept(NormalLine(f)) + Entries(more)
  {
    hide NormalLine, CompleteLines, Entries, Kept;
    LineJoined(x, b);
    var f, more := CompleteLines(b)[0], CompleteLines(b)[1..];
    EntriesAppend([x + f], more);
    EntriesAppend([f], more);
    EntriesOne(x + f);
    EntriesOne(f);
    assert CompleteLines(b) == [f] + more;
  }

  lemma SamePrefix(a: seq<string>, b: seq<string>, c: seq<string>)
    ensures a + c == b + c <==> a == b
  {
    if a + c == b + c {
      assert |a| == |b|;
      assert a == (a + c)[..|a|] && b == (b + c)[..|b|];
    }
  }

  /** One cut: it never adds an entry, and it changes none exactly when it is harmless. */
  lemma CutExactly(file: seq<Byte>, base: nat, c: nat, end: nat)
    requires base <= c <= end <= |file| && Whole(file[base..c])
    ensures var x, b := Rest(file[base..c]), file[c..end];
            && |Entries(CompleteLines(b))| <= |Entries(CompleteLines(x + b))|
            && (Entries(CompleteLines(b)) == Entries(CompleteLines(x + b)) <==> Harmless(file, base, c, end))
  {
    hide Whole, NormalLine, Rest, CompleteLines, Entries;
    CutEntries(file, base, c, end);
    var x, b := Rest(file[base..c]), file[c..end];
    if x == [] {
      assert x + b == b;
    } else if CompleteLines(b) == [] {
      LineJoined(x, b);
    } else {
      FirstEntry(x, b);
      var f, more := CompleteLines(b)[0], CompleteLines(b)[1..];
      NormalBefore(x, f);
      SamePrefix(Kept(NormalLine(f)), Kept(NormalLine(x + f)), Entries(more));
    }
  }

  /** A cut whose pending text was handed over as an entry of its own changes no entry up to
      `end`: that text was blank and the cut harmless, or all that follows of its line is
      blank and the text is the whole entry. */
  predicate FlushHarmless(file: seq<Byte>, base: nat, c: nat, end: nat)
    requires base <= c <= end <= |file|
  {
    var pending, later := Rest(file[base..c]), CompleteLines(file[c..end]);
    if Blank(Lossy(pending)) then Harmless(file, base, c, end)
    else later != [] && NormalLine(later[0]) == "" && NormalLine(pending + later[0]) == Trim(Lossy(pending))
  }

  lemma HandedExactly(file: seq<Byte>, base: nat, c: nat, end: nat)
    requires base <= c <= end <= |file| && Whole(file[base..c])
    ensures Entries(CompleteLines(file[base..c])) + Handed(Lossy(Rest(file[base..c]))) + Entries(CompleteLines(file[c..end]))
            == Entries(CompleteLines(file[base..end]))
            <==> FlushHarmless(file, base, c, end)
  {
    hide Whole, NormalLine, Rest, CompleteLines, Entries, Lossy, Trim, Blank, Harmless;
    CutEntries(file, base, c, end);
    var x, b := Rest(file[base..c]), file[c..end];
    var e, h := Entries(CompleteLines(file[base..c])), Handed(Lossy(x));
    var y, z := Entries(CompleteLines(b)), Entries(CompleteLines(x + b));
    SameSuffix(e, h + y, z);
    assert e + h + y == e + (h + y);
    if Blank(Lossy(x)) {
      CutExactly(file, base, c, end);
      assert h + y == y;
    } else if CompleteLines(b) == [] {
      LineJoined(x, b);
      NoEntries();
    } else {
      FirstEntry(x, b);
      var f, more := CompleteLines(b)[0], CompleteLines(b)[1..];
      SamePrefix(h + Kept(NormalLine(f)), Kept(NormalLine(x + f)), Entries(more));
      assert h + y == h + Kept(NormalLine(f)) + Entries(more);
      TrimEmpty(Lossy(x));
      OneEntry(Trim(Lossy(x)), NormalLine(f), NormalLine(x + f));
    }
  }

  lemma OneEntry(t: string, a: string, b: string)
    requires t != ""
    ensures [t] + Kept(a) == Kept(b) <==> a == "" && b == t
  {
    if [t] + Kept(a) == Kept(b) {
      assert |[t] + Kept(a)| == 1 + |Kept(a)|;
      assert ([t] + Kept(a))[0] == t;
    } else if a == "" {
      assert [t] + Kept(a) == [t];
    }
  }

  lemma NoEntries()
    ensures Entries([]) == []
  {
  }

  lemma SameSuffix(a: seq<string>, b: seq<string>, c: seq<string>)
    ensures a + b == a + c <==> b == c
  {
    if a + b == a + c {
      assert b == (a + b)[|a|..] && c == (a + c)[|a|..];
    }
  }
}
