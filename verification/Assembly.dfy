/** How bytes read in pieces become the text of a line and of a record: `push_partial`,
    the assembly in `try_emit_line`/`commit_line`, and `append_to_record`. */
module Assembly {
  import opened Utf8
  import opened Lines

  /** Size limit of the partial-line buffer. */
  const MAX_PARTIAL_BYTES: nat := 1048576

  /** One physical line, as the list of chunks it was read in. */
  type Chunks = seq<seq<Byte>>

  function Last<T>(s: seq<T>): T requires s != [] { s[|s| - 1] }
  function Init<T>(s: seq<T>): seq<T> requires s != [] { s[..|s| - 1] }

  /** `push_partial`. */
  function PushPartial(partial: string, bytes: seq<Byte>): string {
    if Len(partial) >= MAX_PARTIAL_BYTES then partial
    else Floor(partial + Lossy(bytes), MAX_PARTIAL_BYTES)
  }

  /** The partial buffer after a list of chunks without a newline. */
  function PartialText(chunks: Chunks): string {
    if chunks == [] then "" else PushPartial(PartialText(Init(chunks)), Last(chunks))
  }

  /** The text of a line: the buffered partial followed by the last chunk without its
      newline; a folded trailing line has no newline and is the partial alone. */
  function LineText(chunks: Chunks): string
    requires chunks != []
  {
    var c := Last(chunks);
    if Terminated(c) then PartialText(Init(chunks)) + Lossy(Init(c)) else PartialText(chunks)
  }

  /** `append_to_record`, the text half. */
  function AppendText(record: string, line: string, max: nat): (r: string)
    ensures Len(r) <= max
  {
    Floor(if record == "" then line else record + "\n" + line, max)
  }

  /** The record text built one normalized line at a time. */
  function CappedJoin(texts: seq<string>, max: nat): string {
    if texts == [] then "" else AppendText(CappedJoin(Init(texts), max), Last(texts), max)
  }

  /** The normalized texts of a list of lines. */
  function Texts(lines: seq<Chunks>): seq<string> {
    if lines == [] then []
    else
      var l := Last(lines);
      Texts(Init(lines)) + [if l == [] then "" else Normalize(LineText(l))]
  }

  /** The text of a record made of these lines. */
  function RecordText(lines: seq<Chunks>, max: nat): string { CappedJoin(Texts(lines), max) }

  /** The bytes on disk of a list of lines. */
  function LinesBytes(lines: seq<Chunks>): seq<Byte> {
    if lines == [] then [] else LinesBytes(Init(lines)) + Flat(Last(lines))
  }

  /** Chunks waiting for a newline. */
  predicate Pending(chunks: Chunks) {
    forall i :: 0 <= i < |chunks| ==> chunks[i] != [] && NEWLINE !in chunks[i]
  }

  /** A physical line that has been read to its newline, or was folded without one. */
  predicate LineOk(chunks: Chunks) {
    chunks != [] && Pending(Init(chunks)) && Last(chunks) != [] && NEWLINE !in Init(Last(chunks))
  }

  lemma RecordTextSnoc(lines: seq<Chunks>, line: Chunks, max: nat)
    requires line != []
    ensures RecordText(lines + [line], max) == AppendText(RecordText(lines, max), Normalize(LineText(line)), max)
    ensures LinesBytes(lines + [line]) == LinesBytes(lines) + Flat(line)
  {
    hide AppendText, Normalize, LineText;
    assert Init(lines + [line]) == lines && Last(lines + [line]) == line;
    var t := Texts(lines + [line]);
    assert Init(t) == Texts(lines) && Last(t) == Normalize(LineText(line));
  }

  lemma PartialTextSnoc(chunks: Chunks, c: seq<Byte>)
    ensures PartialText(chunks + [c]) == PushPartial(PartialText(chunks), c)
  {
    assert Init(chunks + [c]) == chunks && Last(chunks + [c]) == c;
  }

  // ---------------------------------------------------------------- caps

  lemma FloorNonEmpty(s: string, max: nat)
    requires s != [] && max >= 4
    ensures Floor(s, max) != []
  {
  }

  /** The partial buffer never exceeds its limit, and it is empty exactly when no byte is
      pending, although its text may be shorter than the bytes it stands for. */
  lemma {:induction false} PartialCapped(chunks: Chunks)
    requires Pending(chunks)
    ensures Len(PartialText(chunks)) <= MAX_PARTIAL_BYTES
    ensures PartialText(chunks) == "" <==> chunks == []
  {
    if chunks != [] {
      hide PushPartial, Len;
      var p, c := Init(chunks), Last(chunks);
      assert Pending(p) && c != [];
      PartialCapped(p);
      PushCapped(PartialText(p), c);
    }
  }

  lemma PendingBytes(chunks: Chunks)
    requires Pending(chunks)
    ensures |Flat(chunks)| == 0 <==> chunks == []
  {
    if chunks != [] {
      assert chunks[0] != [];
    }
  }

  lemma PushCapped(partial: string, c: seq<Byte>)
    requires Len(partial) <= MAX_PARTIAL_BYTES && c != []
    ensures Len(PushPartial(partial, c)) <= MAX_PARTIAL_BYTES && PushPartial(partial, c) != ""
  {
    if Len(partial) < MAX_PARTIAL_BYTES {
      hide Lossy;
      FloorNonEmpty(partial + Lossy(c), MAX_PARTIAL_BYTES);
    }
  }

  /** However the lines were read, a record's text stays within the cap. */
  lemma RecordCapped(lines: seq<Chunks>, max: nat)
    ensures Len(RecordText(lines, max)) <= max
  {
  }

  /** Text with one byte per character. */
  predicate Ascii(s: string) { forall i :: 0 <= i < |s| ==> s[i] as int < 0x80 }

  /** The lines of a record joined by newlines, with leading empty lines dropped and no cap:
      what the capped record is compared with. */
  function Join(lines: seq<string>): string {
    if lines == [] then ""
    else
      var j := Join(Init(lines));
      if j == "" then Last(lines) else j + "\n" + Last(lines)
  }

  function Take(s: string, max: nat): string { if |s| <= max then s else s[..max] }

  lemma {:induction false} AsciiFloor(s: string, max: nat)
    requires Ascii(s)
    ensures Floor(s, max) == Take(s, max)
  {
    if s != [] && max > 0 {
      assert |EncodeChar(s[0])| == 1;
      AsciiFloor(s[1..], max - 1);
    }
  }

  lemma {:induction false} JoinAscii(lines: seq<string>)
    requires forall i :: 0 <= i < |lines| ==> Ascii(lines[i])
    ensures Ascii(Join(lines))
  {
    if lines != [] {
      JoinAscii(Init(lines));
    }
  }

  lemma TakeJoin(j: string, l: string, max: nat)
    ensures var k := Take(j, max);
            Take(if k == "" then l else k + "\n" + l, max) == Take(if j == "" then l else j + "\n" + l, max)
  {
    var k := Take(j, max);
    if |j| > max {
      assert (j + "\n" + l)[..max] == j[..max];
      if max > 0 {
        assert (k + "\n" + l)[..max] == k;
      }
    }
  }

  /** For ASCII, capping after every line gives the first `max` bytes of the full join. */
  lemma {:induction false} CappedJoinIsPrefix(texts: seq<string>, max: nat)
    requires forall i :: 0 <= i < |texts| ==> Ascii(texts[i])
    ensures CappedJoin(texts, max) == Take(Join(texts), max)
  {
    if texts != [] {
      var p, l := Init(texts), Last(texts);
      CappedJoinIsPrefix(p, max);
      JoinAscii(p);
      var k := Take(Join(p), max);
      hide Floor, Join, CappedJoin;
      AsciiFloor(if k == "" then l else k + "\n" + l, max);
      TakeJoin(Join(p), l, max);
      JoinSnoc(texts, max);
    }
  }

  lemma JoinSnoc(texts: seq<string>, max: nat)
    requires texts != []
    ensures CappedJoin(texts, max) == AppendText(CappedJoin(Init(texts), max), Last(texts), max)
    ensures Join(texts) == var j := Join(Init(texts)); if j == "" then Last(texts) else j + "\n" + Last(texts)
  {
  }

  lemma FloorCons(c: char, t: string, max: nat)
    ensures Floor([c] + t, max) == if |EncodeChar(c)| > max then "" else [c] + Floor(t, max - |EncodeChar(c)|)
    ensures Len([c] + t) == |EncodeChar(c)| + Len(t)
  {
    hide EncodeChar;
    assert ([c] + t)[1..] == t;
  }

  lemma {:induction false} FloorAppend(s: string, t: string, max: nat)
    ensures Len(s) <= max ==> Floor(s + t, max) == s + Floor(t, max - Len(s))
    ensures Len(s) > max ==> Floor(s + t, max) == Floor(s, max)
  {
    hide EncodeChar, Encode, Floor;
    if s == [] {
      NothingFits(max);
      assert s + t == t;
    } else {
      var c, r := s[0], s[1..];
      assert s == [c] + r && s + t == [c] + (r + t);
      FloorCons(c, r, max);
      FloorCons(c, r + t, max);
      if |EncodeChar(c)| <= max {
        FloorAppend(r, t, max - |EncodeChar(c)|);
      }
    }
  }

  lemma FloorNewline(l: string, max: nat)
    ensures Floor("\n" + l, max) == "" <==> max == 0
  {
    assert |EncodeChar('\n')| == 1;
    assert ("\n" + l)[0] == '\n';
  }

  /** The floor is the longest prefix that fits. */
  lemma {:induction false} FloorLongest(s: string, p: string, max: nat)
    requires p <= s && Len(p) <= max
    ensures p <= Floor(s, max)
  {
    hide EncodeChar, Encode, Floor;
    if p != [] {
      var c, r, q := s[0], s[1..], p[1..];
      assert s == [c] + r && p == [c] + q;
      FloorCons(c, r, max);
      FloorCons(c, q, max);
      FloorLongest(r, q, max - |EncodeChar(c)|);
    }
  }

  /** What does not fit leaves room for less than a character. */
  lemma {:induction false} FloorFills(s: string, max: nat)
    requires Len(s) > max
    ensures Len(Floor(s, max)) + 3 >= max
  {
    hide EncodeChar, Encode, Floor;
    NothingFits(max);
    if s != [] {
      var c, r := s[0], s[1..];
      assert s == [c] + r;
      FloorCons(c, r, max);
      if |EncodeChar(c)| <= max {
        FloorFills(r, max - |EncodeChar(c)|);
        FloorCons(c, Floor(r, max - |EncodeChar(c)|), max);
      }
    }
  }

  /** No room is left where the cap cut the join of the first `k` lines: it is full, or
      nothing fitted at all and nothing of the next line does. */
  predicate Tight(texts: seq<string>, k: nat, max: nat)
    requires k < |texts|
  {
    var j := Join(texts[..k]);
    Len(j) > max ==> Len(Floor(j, max)) == max || (Floor(j, max) == "" && Floor(texts[k], max) == "")
  }

  /** One more line, when the join so far fits. */
  lemma FittingStep(texts: seq<string>, max: nat)
    requires texts != [] && CappedJoin(Init(texts), max) == Join(Init(texts))
    ensures CappedJoin(texts, max) == Floor(Join(texts), max)
  {
    hide Floor, Join, CappedJoin;
    JoinSnoc(texts, max);
  }

  /** One more line, when the join so far is over the cap: nothing of it belongs to the
      prefix, and it adds nothing exactly when no room was left. */
  lemma CuttingStep(texts: seq<string>, max: nat)
    requires texts != [] && Len(Join(Init(texts))) > max
    requires Floor(Join(Init(texts)), max) <= CappedJoin(Init(texts), max)
    requires Len(CappedJoin(Init(texts), max)) <= max
    ensures Floor(Join(texts), max) == Floor(Join(Init(texts)), max)
    ensures CappedJoin(Init(texts), max) <= CappedJoin(texts, max)
    ensures CappedJoin(texts, max) == Floor(Join(texts), max)
            <==> CappedJoin(Init(texts), max) == Floor(Join(Init(texts)), max) && Tight(texts, |texts| - 1, max)
  {
    hide Floor, Join, CappedJoin, AppendText, Encode;
    JoinSnoc(texts, max);
    var c, j, l := CappedJoin(Init(texts), max), Join(Init(texts)), Last(texts);
    assert texts[..|texts| - 1] == Init(texts);
    NothingFits(max);
    FloorAppend(j, "\n" + l, max);
    assert j + "\n" + l == j + ("\n" + l);
    if c != "" {
      AppendMore(c, l, max);
    } else {
      AppendFirst(l, max);
    }
  }

  /** Appending to a record adds something exactly when there is room for the newline. */
  lemma AppendMore(c: string, l: string, max: nat)
    requires c != "" && Len(c) <= max
    ensures c <= AppendText(c, l, max) && (AppendText(c, l, max) == c <==> Len(c) == max)
  {
    hide Floor, Encode;
    FloorAppend(c, "\n" + l, max);
    assert c + "\n" + l == c + ("\n" + l);
    FloorNewline(l, max - Len(c));
  }

  lemma AppendFirst(l: string, max: nat)
    ensures AppendText("", l, max) == Floor(l, max)
    ensures max == 0 ==> Floor(l, max) == ""
  {
  }

  lemma NothingFits(max: nat)
    ensures Len("") == 0 && Floor("", max) == ""
  {
  }

  lemma CappedLen(texts: seq<string>, max: nat)
    ensures Len(CappedJoin(texts, max)) <= max
  {
  }

  predicate AllTight(texts: seq<string>, max: nat) { forall k :: 0 < k < |texts| ==> Tight(texts, k, max) }

  lemma TightSnoc(texts: seq<string>, max: nat)
    requires texts != []
    ensures AllTight(texts, max) <==>
              AllTight(Init(texts), max) && (|texts| > 1 ==> Tight(texts, |texts| - 1, max))
  {
    hide Tight;
    forall k | 0 < k < |texts| - 1 ensures Tight(Init(texts), k, max) == Tight(texts, k, max) {
      TightPrefix(texts, k, max);
    }
  }

  /** Capping after every line always keeps at least the prefix of the full join that fits,
      and gives exactly that prefix if and only if no cut left room for a later line. */
  lemma {:induction false} CappedJoinExactly(texts: seq<string>, max: nat)
    ensures Floor(Join(texts), max) <= CappedJoin(texts, max)
    ensures Len(Join(texts)) <= max ==> CappedJoin(texts, max) == Join(texts)
    ensures CappedJoin(texts, max) == Floor(Join(texts), max) <==> AllTight(texts, max)
  {
    if texts == [] {
      NothingFits(max);
    } else {
      hide Floor, Join, CappedJoin, Tight, AllTight, Encode;
      var p := Init(texts);
      CappedJoinExactly(p, max);
      TightSnoc(texts, max);
      CappedLen(p, max);
      if Len(Join(p)) <= max {
        FittingStep(texts, max);
        FitsTight(texts, max);
      } else {
        NothingFits(max);
        JoinNothing();
        CuttingStep(texts, max);
        JoinGrows(texts, max);
      }
    }
  }

  lemma JoinNothing()
    ensures Join([]) == ""
  {
  }

  lemma TightPrefix(texts: seq<string>, k: nat, max: nat)
    requires 0 < k < |texts| - 1
    ensures Tight(Init(texts), k, max) == Tight(texts, k, max)
  {
    hide Floor, Join;
    assert Init(texts)[..k] == texts[..k];
  }

  lemma FitsTight(texts: seq<string>, max: nat)
    requires texts != [] && Len(Join(Init(texts))) <= max
    ensures Tight(texts, |texts| - 1, max)
  {
    hide Floor, Join;
    assert texts[..|texts| - 1] == Init(texts);
  }

  lemma JoinGrows(texts: seq<string>, max: nat)
    requires texts != [] && Len(Join(Init(texts))) > max
    ensures Len(Join(texts)) > max
  {
    hide Join, CappedJoin, EncodeChar, Encode;
    JoinSnoc(texts, max);
    NothingFits(max);
    var j := Join(Init(texts));
    assert j + "\n" + Last(texts) == j + ("\n" + Last(texts));
    EncodeAppend(j, "\n" + Last(texts));
  }

  /** An instance where it is not: a character that did not fit leaves room that the next
      line fills. */
  lemma CappedJoinNotPrefix()
    ensures var lines := [['a', 0xE9 as char], ['b']];
            CappedJoin(lines, 2) == "a\n" && Floor(Join(lines), 2) == "a"
  {
    var e: string := ['a', 0xE9 as char];
    var lines := [e, ['b']];
    assert Init(lines) == [e] && Init([e]) == [];
    assert |EncodeChar('a')| == 1 && |EncodeChar(0xE9 as char)| == 2 && |EncodeChar('\n')| == 1 && |EncodeChar('b')| == 1;
    assert e[1..] == [0xE9 as char];
    FloorTwo('a', 0xE9 as char, []);
    assert e == ['a', 0xE9 as char] + [];
    assert CappedJoin([e], 2) == Floor(e, 2) == "a";
    FloorTwo('a', '\n', "b");
    assert "a" + "\n" + "b" == ['a', '\n'] + "b";
    FloorTwo('a', 0xE9 as char, "\nb");
    assert Join([e]) == e && Join(lines) == e + "\n" + ['b'];
    assert e + "\n" + ['b'] == ['a', 0xE9 as char] + "\nb";
  }

  lemma FloorTwo(c: char, d: char, rest: string)
    requires |EncodeChar(c)| == 1
    ensures Floor([c, d] + rest, 2) == if |EncodeChar(d)| == 1 then [c, d] else [c]
  {
    var s := [c, d] + rest;
    assert s[1..] == [d] + rest && s[1..][1..] == rest;
    assert rest != [] ==> Floor(rest, 0) == [];
  }

  // ---------------------------------------------------------------- independence of chunking

  /** Every chunk holds whole characters. */
  predicate WholeChunks(chunks: Chunks) { forall i :: 0 <= i < |chunks| ==> Whole(chunks[i]) }

  /** Whole chunks within the buffer limit are decoded as if read in one piece. */
  lemma {:induction false} PartialOfWhole(chunks: Chunks)
    requires WholeChunks(chunks) && |Flat(chunks)| <= MAX_PARTIAL_BYTES
    ensures Whole(Flat(chunks)) && PartialText(chunks) == Lossy(Flat(chunks))
  {
    if chunks != [] {
      hide EncodeChar, DecodeOne;
      var p, c := Init(chunks), Last(chunks);
      assert chunks == p + [c];
      FlatSnoc(p, c);
      PartialOfWhole(p);
      WholeAppend(Flat(p), c);
      assert Whole(c);
      if Len(PartialText(p)) >= MAX_PARTIAL_BYTES {
        assert c == [];
        assert Flat(p) + c == Flat(p);
      }
    }
  }

  lemma PushFills(partial: string, c: seq<Byte>)
    requires Whole(c)
    ensures var r, n := Len(PushPartial(partial, c)), Len(partial) + |c|;
            if Len(partial) >= MAX_PARTIAL_BYTES then r == Len(partial)
            else if n <= MAX_PARTIAL_BYTES then r == n
            else r + 3 >= MAX_PARTIAL_BYTES
  {
    hide EncodeChar, Encode, Floor, Lossy;
    EncodeAppend(partial, Lossy(c));
    if Len(partial) < MAX_PARTIAL_BYTES < Len(partial) + |c| {
      FloorFills(partial + Lossy(c), MAX_PARTIAL_BYTES);
    }
  }

  /** The buffer holds everything pending while it fits, and is full to within a character once
      it does not. */
  lemma {:induction false} PartialFills(chunks: Chunks)
    requires WholeChunks(chunks)
    ensures var n := Len(PartialText(chunks));
            if |Flat(chunks)| <= MAX_PARTIAL_BYTES then n == |Flat(chunks)| else n + 3 >= MAX_PARTIAL_BYTES
  {
    hide EncodeChar, Encode, Lossy, PushPartial, Whole;
    if chunks == [] {
      NothingFits(0);
    } else {
      var p, c := Init(chunks), Last(chunks);
      assert chunks == p + [c] && Whole(chunks[|chunks| - 1]);
      FlatSnoc(p, c);
      PartialFills(p);
      PushFills(PartialText(p), c);
    }
  }

  /** The text of a line does not depend on how it was cut into chunks. */
  lemma LineTextOfWhole(chunks: Chunks)
    requires LineOk(chunks) && WholeChunks(Init(chunks)) && |Flat(Init(chunks))| <= MAX_PARTIAL_BYTES
    requires Terminated(Last(chunks))
    ensures var b := Flat(chunks);
            Terminated(b) && LineText(chunks) == Lossy(Init(b)) && NEWLINE !in Init(b)
  {
    hide EncodeChar, DecodeOne;
    var p, c := Init(chunks), Last(chunks);
    assert chunks == p + [c];
    FlatSnoc(p, c);
    PartialOfWhole(p);
    LossyAfterWhole(Lossy(Flat(p)), Init(c));
    assert Init(Flat(p) + c) == Flat(p) + Init(c);
    PendingFlat(p);
  }

  lemma {:induction false} PendingFlat(chunks: Chunks)
    requires Pending(chunks)
    ensures NEWLINE !in Flat(chunks)
  {
    if chunks != [] {
      PendingFlat(chunks[1..]);
    }
  }
}
