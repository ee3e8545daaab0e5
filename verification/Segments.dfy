/** The one-shot segmentation of a list of lines into records: the reference the
    incremental aggregator is compared with. */
module Segments {
  import opened Utf8
  import opened Lines
  import opened Assembly
  import opened Multiline

  /** A physical line without its newline, if it has one. */
  function Body(line: seq<Byte>): seq<Byte> { if Terminated(line) then Init(line) else line }

  /** The normalized text of a physical line read in one piece. */
  function NormalLine(line: seq<Byte>): string { Normalize(Lossy(Body(line))) }

  /** What a line's text is: its decoded bytes without the newline, without trailing whitespace
      and without a leading mark; empty when there is nothing but whitespace. */
  lemma NormalLineMeans(line: seq<Byte>)
    ensures Trimmed(NormalLine(line)) && Padded(Lossy(Body(line)), NormalLine(line))
    ensures Blank(Lossy(Body(line))) ==> NormalLine(line) == ""
  {
    hide Lossy, Normalize, Blank, Trimmed, Padded;
    NormalizeShape(Lossy(Body(line)));
  }

  predicate StartLine(line: seq<Byte>, ml: Opts) { IsStart(NormalLine(line), ml) }

  type Group = seq<seq<Byte>>

  /** A line before a segmented list: it opens a group of its own when the next line starts
      a record, and otherwise joins the group of the next line. */
  function Cons(line: seq<Byte>, s: seq<Group>, ml: Opts): seq<Group> {
    if s != [] && s[0] != [] && !StartLine(s[0][0], ml)
    then [[line] + s[0]] + s[1..]
    else [[line]] + s
  }

  /** Groups from the right. */
  function Segment(lines: seq<seq<Byte>>, ml: Opts): seq<Group> {
    if lines == [] then [] else Cons(lines[0], Segment(lines[1..], ml), ml)
  }

  /** What a segmentation is, without saying how to compute one: the groups hold all lines
      in order, none is empty, every group but the first begins with a line whose normalized
      text is not empty and matches the pattern, and no other line after the first of a group
      is such a line. */
  predicate IsSegmentation(groups: seq<Group>, lines: seq<seq<Byte>>, ml: Opts) {
    && Flat(groups) == lines
    && (forall i :: 0 <= i < |groups| ==> groups[i] != [])
    && (forall i :: 1 <= i < |groups| && groups[i] != [] ==>
          var t := NormalLine(groups[i][0]); t != "" && ml.isStart(t))
    && (forall i, k :: 0 <= i < |groups| && 1 <= k < |groups[i]| ==>
          var t := NormalLine(groups[i][k]); t == "" || !ml.isStart(t))
  }

  /** The same in terms of start lines. */
  predicate CutAtStarts(groups: seq<Group>, ml: Opts) {
    && (forall i :: 0 <= i < |groups| ==> groups[i] != [])
    && (forall i :: 1 <= i < |groups| && groups[i] != [] ==> StartLine(groups[i][0], ml))
    && (forall i, k :: 0 <= i < |groups| && 1 <= k < |groups[i]| ==> !StartLine(groups[i][k], ml))
  }

  lemma StartMeans(line: seq<Byte>, ml: Opts)
    ensures StartLine(line, ml) <==> NormalLine(line) != "" && ml.isStart(NormalLine(line))
  {
    hide NormalLine;
  }

  /** The two readings of a segmentation agree: what the code tests is the pattern on the
      normalized text of the line. */
  lemma SegmentationMeans(groups: seq<Group>, lines: seq<seq<Byte>>, ml: Opts)
    ensures IsSegmentation(groups, lines, ml) <==> Flat(groups) == lines && CutAtStarts(groups, ml)
  {
    hide NormalLine, StartLine, Flat;
    forall line ensures StartLine(line, ml) <==> NormalLine(line) != "" && ml.isStart(NormalLine(line)) {
      StartMeans(line, ml);
    }
  }

  lemma SegmentFirst(lines: seq<seq<Byte>>, ml: Opts)
    requires lines != []
    ensures var s := Segment(lines, ml); s != [] && s[0] != [] && s[0][0] == lines[0]
  {
  }

  lemma ConsAppend(x: seq<Byte>, s: seq<Group>, r: seq<Group>, ml: Opts)
    requires s != [] && s[0] != []
    ensures Cons(x, s + r, ml) == Cons(x, s, ml) + r
  {
    hide StartLine;
    assert (s + r)[0] == s[0] && (s + r)[1..] == s[1..] + r;
    if StartLine(s[0][0], ml) {
      assert [[x]] + (s + r) == [[x]] + s + r;
    } else {
      assert [[x] + s[0]] + (s[1..] + r) == [[x] + s[0]] + s[1..] + r;
    }
  }

  /** A start line cuts the segmentation in two. */
  lemma {:induction false} SegmentSplit(a: seq<seq<Byte>>, b: seq<seq<Byte>>, ml: Opts)
    requires b == [] || StartLine(b[0], ml)
    ensures Segment(a + b, ml) == Segment(a, ml) + Segment(b, ml)
  {
    hide StartLine;
    if a == [] {
      assert a + b == b;
    } else {
      assert (a + b)[1..] == a[1..] + b && (a + b)[0] == a[0];
      SegmentSplit(a[1..], b, ml);
      var s, r := Segment(a[1..], ml), Segment(b, ml);
      if a[1..] != [] {
        SegmentFirst(a[1..], ml);
        hide Cons, Segment;
        ConsAppend(a[0], s, r, ml);
      } else if b != [] {
        SegmentFirst(b, ml);
        assert s + r == r;
        assert Cons(a[0], s, ml) == [[a[0]]];
      }
    }
  }

  /** Any other line extends the last group. */
  lemma {:induction false} SegmentExtend(a: seq<seq<Byte>>, x: seq<Byte>, ml: Opts)
    requires a != [] && !StartLine(x, ml)
    ensures Segment(a, ml) != []
    ensures Segment(a + [x], ml) == Init(Segment(a, ml)) + [Last(Segment(a, ml)) + [x]]
  {
    hide StartLine;
    SegmentFirst(a, ml);
    assert (a + [x])[1..] == a[1..] + [x];
    if |a| == 1 {
      assert a[1..] + [x] == [x] && [x][1..] == [];
      assert Segment([x], ml) == [[x]];
      assert Segment(a + [x], ml) == [[a[0]] + [x]];
      assert Segment(a, ml) == [[a[0]]];
    } else {
      SegmentExtend(a[1..], x, ml);
      SegmentFirst(a[1..], ml);
      SegmentFirst(a[1..] + [x], ml);
      ExtendCons(Segment(a[1..], ml), x, a[0], StartLine(a[1], ml));
    }
  }

  /** A line before a non-empty list of groups: a group of its own, or in the first one. */
  function PutFirst(first: seq<Byte>, g: seq<Group>, cut: bool): (r: seq<Group>)
    requires g != []
    ensures r != []
  {
    if cut then [[first]] + g else [[first] + g[0]] + g[1..]
  }

  /** Adding a line at the front commutes with extending the last group. */
  lemma ExtendCons(s: seq<Group>, x: seq<Byte>, first: seq<Byte>, cut: bool)
    requires s != []
    ensures var e := Init(s) + [Last(s) + [x]];
            var c := PutFirst(first, s, cut);
            PutFirst(first, e, cut) == Init(c) + [Last(c) + [x]]
  {
    var e := Init(s) + [Last(s) + [x]];
    if cut {
      assert Last([[first]] + s) == Last(s) && Init([[first]] + s) == [[first]] + Init(s);
    } else if |s| == 1 {
      assert s == [s[0]] && e == [s[0] + [x]];
      assert [first] + (s[0] + [x]) == ([first] + s[0]) + [x];
    } else {
      var c := [[first] + s[0]] + s[1..];
      assert Last(c) == Last(s) && Init(c) == [[first] + s[0]] + Init(s)[1..];
      assert e[1..] == Init(s)[1..] + [Last(s) + [x]];
    }
  }

  /** Lines that arrive later never change a group before the last. */
  lemma {:induction false} SegmentStable(a: seq<seq<Byte>>, more: seq<seq<Byte>>, ml: Opts)
    requires a != []
    ensures Segment(a, ml) != []
    ensures Init(Segment(a, ml)) <= Segment(a + more, ml)
    ensures |Segment(a, ml)| <= |Segment(a + more, ml)|
    decreases |more|
  {
    hide StartLine;
    SegmentFirst(a, ml);
    if more == [] {
      assert a + more == a;
    } else {
      var b, x := a + Init(more), Last(more);
      assert a + more == b + [x];
      SegmentStable(a, Init(more), ml);
      if StartLine(x, ml) {
        SegmentSplit(b, [x], ml);
      } else {
        SegmentExtend(b, x, ml);
      }
    }
  }

  lemma {:induction false} SegmentIs(lines: seq<seq<Byte>>, ml: Opts)
    ensures IsSegmentation(Segment(lines, ml), lines, ml)
  {
    if lines != [] {
      SegmentIs(lines[1..], ml);
      hide Cons, IsSegmentation;
      var s := Segment(lines[1..], ml);
      SegmentationMeans(s, lines[1..], ml);
      ConsIs(lines[0], s, lines[1..], ml);
      assert lines == [lines[0]] + lines[1..];
      SegmentationMeans(Segment(lines, ml), lines, ml);
    }
  }

  lemma ConsIs(x: seq<Byte>, s: seq<Group>, tail: seq<seq<Byte>>, ml: Opts)
    requires Flat(s) == tail && CutAtStarts(s, ml)
    ensures Flat(Cons(x, s, ml)) == [x] + tail && CutAtStarts(Cons(x, s, ml), ml)
  {
    hide StartLine;
    var g := Cons(x, s, ml);
    if s != [] && !StartLine(s[0][0], ml) {
      assert g[1..] == s[1..] && g[0] == [x] + s[0];
      assert Flat(g) == ([x] + s[0]) + Flat(s[1..]) == [x] + (s[0] + Flat(s[1..]));
      forall i, k | 0 <= i < |g| && 1 <= k < |g[i]| ensures !StartLine(g[i][k], ml) {
        if i == 0 { assert g[i][k] == s[0][k - 1]; } else { assert g[i] == s[i]; }
      }
    } else {
      assert g[1..] == s && g[0] == [x];
      assert Flat(g) == [x] + Flat(s);
      forall i, k | 0 <= i < |g| && 1 <= k < |g[i]| ensures !StartLine(g[i][k], ml) {
        assert g[i] == s[i - 1];
      }
    }
  }

  /** The reference is the only segmentation. */
  lemma SegmentUnique(groups: seq<Group>, lines: seq<seq<Byte>>, ml: Opts)
    requires IsSegmentation(groups, lines, ml)
    ensures groups == Segment(lines, ml)
  {
    hide IsSegmentation, Flat, CutAtStarts, Segment;
    SegmentationMeans(groups, lines, ml);
    CutUnique(groups, lines, ml);
  }

  lemma {:induction false} CutUnique(groups: seq<Group>, lines: seq<seq<Byte>>, ml: Opts)
    requires Flat(groups) == lines && CutAtStarts(groups, ml)
    ensures groups == Segment(lines, ml)
    decreases |lines|
  {
    hide StartLine;
    if groups == [] {
    } else {
      var g := groups[0];
      assert lines == g + Flat(groups[1..]);
      assert lines[0] == g[0];
      var tail := lines[1..];
      if |g| == 1 {
        assert g == [lines[0]] && tail == Flat(groups[1..]);
        assert CutAtStarts(groups[1..], ml);
        CutUnique(groups[1..], tail, ml);
        assert groups == [[lines[0]]] + groups[1..];
      } else {
        var rest := [g[1..]] + groups[1..];
        assert rest[1..] == groups[1..] && Flat(rest) == g[1..] + Flat(groups[1..]) == tail;
        assert CutAtStarts(rest, ml) by {
          assert forall i :: 1 <= i < |rest| ==> rest[i] == groups[i];
          assert forall k :: 1 <= k < |rest[0]| ==> rest[0][k] == g[k + 1];
        }
        CutUnique(rest, tail, ml);
        assert !StartLine(rest[0][0], ml) by { assert rest[0][0] == g[1] == groups[0][1]; }
        assert [lines[0]] + rest[0] == g;
        assert groups == [g] + groups[1..];
      }
    }
  }

  /** What callers need of it, in terms of start lines. */
  lemma SegmentCuts(lines: seq<seq<Byte>>, ml: Opts)
    ensures Flat(Segment(lines, ml)) == lines && CutAtStarts(Segment(lines, ml), ml)
  {
    hide IsSegmentation, Flat, CutAtStarts, Segment;
    SegmentIs(lines, ml);
    SegmentationMeans(Segment(lines, ml), lines, ml);
  }
}
