/** UTF-8 text as the agent handles it: `String::from_utf8_lossy`, the byte length of a
    Rust `String`, `floor_char_boundary`, and the trimming rules applied to a line.

    A Rust `String` is modelled as a Dafny `string` (a sequence of Unicode scalar values);
    its `len()` is the number of bytes of its UTF-8 encoding (section 3 of RFC 3629). */
module Utf8 {

  type Byte = b: int | 0 <= b < 256

  const NEWLINE: Byte := 0x0A

  /** U+FFFD, what lossy decoding writes for a byte run that is not UTF-8. */
  const REPLACEMENT: char := 0xFFFD as char

  /** U+FEFF, the byte-order mark. */
  const BOM: char := 0xFEFF as char

  // ---------------------------------------------------------------- encoding

  function EncodeChar(c: char): (b: seq<Byte>)
    ensures 1 <= |b| <= 4
  {
    var n := c as int;
    if n < 0x80 then [n]
    else if n < 0x800 then [0xC0 + n / 64, 0x80 + n % 64]
    else if n < 0x10000 then [0xE0 + n / 4096, 0x80 + n / 64 % 64, 0x80 + n % 64]
    else [0xF0 + n / 262144, 0x80 + n / 4096 % 64, 0x80 + n / 64 % 64, 0x80 + n % 64]
  }

  function Encode(s: string): seq<Byte> {
    if s == [] then [] else EncodeChar(s[0]) + Encode(s[1..])
  }

  /** `str::len`. */
  function Len(s: string): nat { |Encode(s)| }

  // ---------------------------------------------------------------- decoding

  predicate IsContinuation(b: Byte) { 0x80 <= b <= 0xBF }

  /** Which second bytes may follow a three- or four-byte lead: excludes overlong forms,
      surrogates and values above U+10FFFF. */
  predicate SecondOk(lead: Byte, b: Byte) {
    if lead == 0xE0 then 0xA0 <= b <= 0xBF
    else if lead == 0xED then 0x80 <= b <= 0x9F
    else if lead == 0xF0 then 0x90 <= b <= 0xBF
    else if lead == 0xF4 then 0x80 <= b <= 0x8F
    else IsContinuation(b)
  }

  /** The code points of two-, three- and four-byte sequences. */
  function Two(b0: int, b1: int): int { (b0 - 0xC0) * 64 + (b1 - 0x80) }
  function Three(b0: int, b1: int, b2: int): int { (b0 - 0xE0) * 4096 + (b1 - 0x80) * 64 + (b2 - 0x80) }
  function Four(b0: int, b1: int, b2: int, b3: int): int {
    (b0 - 0xF0) * 262144 + (b1 - 0x80) * 4096 + (b2 - 0x80) * 64 + (b3 - 0x80)
  }

  /** The first character of a lossy decoding and how many bytes it takes. A malformed
      sequence becomes one U+FFFD for its longest valid prefix. */
  function DecodeOne(b: seq<Byte>): (r: (char, nat))
    requires b != []
    ensures 1 <= r.1 <= |b|
  {
    var b0 := b[0];
    if b0 < 0x80 then (b0 as char, 1)
    else if 0xC2 <= b0 <= 0xDF then
      if |b| >= 2 && IsContinuation(b[1]) then (Two(b0, b[1]) as char, 2)
      else (REPLACEMENT, 1)
    else if 0xE0 <= b0 <= 0xEF then
      if |b| >= 2 && SecondOk(b0, b[1]) then
        if |b| >= 3 && IsContinuation(b[2]) then (Three(b0, b[1], b[2]) as char, 3)
        else (REPLACEMENT, 2)
      else (REPLACEMENT, 1)
    else if 0xF0 <= b0 <= 0xF4 then
      if |b| >= 2 && SecondOk(b0, b[1]) then
        if |b| >= 3 && IsContinuation(b[2]) then
          if |b| >= 4 && IsContinuation(b[3]) then (Four(b0, b[1], b[2], b[3]) as char, 4)
          else (REPLACEMENT, 3)
        else (REPLACEMENT, 2)
      else (REPLACEMENT, 1)
    else (REPLACEMENT, 1)
  }

  /** `text::lossy`. */
  function Lossy(b: seq<Byte>): (s: string)
    ensures s == [] <==> b == []
  {
    if b == [] then []
    else
      var (c, n) := DecodeOne(b);
      [c] + Lossy(b[n..])
  }

  /** Base-64 digits of a code point. */
  lemma Digits(n: nat)
    ensures n == n / 64 * 64 + n % 64
    ensures n / 64 == n / 4096 * 64 + n / 64 % 64
    ensures n / 4096 == n / 262144 * 64 + n / 4096 % 64
  {
  }

  lemma DecodeFour(n: int, b: seq<Byte>)
    requires 0x10000 <= n <= 0x10FFFF && |b| >= 4
    requires b[0] == 0xF0 + n / 262144 && b[1] == 0x80 + n / 4096 % 64
    requires b[2] == 0x80 + n / 64 % 64 && b[3] == 0x80 + n % 64
    ensures DecodeOne(b) == (n as char, 4)
  {
    Digits(n);
  }

  lemma DecodeThree(n: int, b: seq<Byte>)
    requires 0x800 <= n < 0xD800 || 0xE000 <= n < 0x10000
    requires |b| >= 3
    requires b[0] == 0xE0 + n / 4096 && b[1] == 0x80 + n / 64 % 64 && b[2] == 0x80 + n % 64
    ensures DecodeOne(b) == (n as char, 3)
  {
    Digits(n);
  }

  /** Decoding inverts the encoding of one character, whatever follows it. */
  lemma DecodeOneEncoded(c: char, rest: seq<Byte>)
    ensures DecodeOne(EncodeChar(c) + rest) == (c, |EncodeChar(c)|)
  {
    var n := c as int;
    var b := EncodeChar(c) + rest;
    if n < 0x80 {
      assert b[0] == n;
    } else if n < 0x800 {
      Digits(n);
      assert b[0] == 0xC0 + n / 64 && b[1] == 0x80 + n % 64;
    } else if n < 0x10000 {
      hide DecodeOne;
      DecodeThree(n, b);
    } else {
      hide DecodeOne;
      DecodeFour(n, b);
    }
  }

  /** Lossy decoding commutes with a split at a character boundary. (It does not commute
      with a split inside a character, see SplitInsideCharacter.) */
  lemma {:induction false} LossyAfterWhole(s: string, rest: seq<Byte>)
    ensures Lossy(Encode(s) + rest) == s + Lossy(rest)
  {
    hide EncodeChar, DecodeOne;
    if s == [] {
      assert Encode(s) + rest == rest;
    } else {
      var e := EncodeChar(s[0]);
      var tail := Encode(s[1..]) + rest;
      assert Encode(s) + rest == e + tail;
      DecodeOneEncoded(s[0], tail);
      assert (e + tail)[|e|..] == tail;
      LossyAfterWhole(s[1..], rest);
    }
  }

  lemma DivMod(q: nat, r: nat)
    requires r < 64
    ensures (q * 64 + r) / 64 == q && (q * 64 + r) % 64 == r
  {
  }

  lemma EncodeTwo(b0: Byte, b1: Byte)
    requires 0xC2 <= b0 <= 0xDF && IsContinuation(b1)
    ensures 0x80 <= Two(b0, b1) < 0x800 && EncodeChar(Two(b0, b1) as char) == [b0, b1]
  {
    DivMod(b0 - 0xC0, b1 - 0x80);
  }

  lemma EncodeThree(b0: Byte, b1: Byte, b2: Byte)
    requires 0xE0 <= b0 <= 0xEF && SecondOk(b0, b1) && IsContinuation(b2)
    ensures var n := Three(b0, b1, b2);
            (0x800 <= n < 0xD800 || 0xE000 <= n < 0x10000) && EncodeChar(n as char) == [b0, b1, b2]
  {
    var q := (b0 - 0xE0) * 64 + (b1 - 0x80);
    var n := Three(b0, b1, b2);
    assert n == q * 64 + (b2 - 0x80);
    DivMod(q, b2 - 0x80);
    DivMod(b0 - 0xE0, b1 - 0x80);
    Digits(n);
  }

  lemma EncodeFour(b0: Byte, b1: Byte, b2: Byte, b3: Byte)
    requires 0xF0 <= b0 <= 0xF4 && SecondOk(b0, b1) && IsContinuation(b2) && IsContinuation(b3)
    ensures var n := Four(b0, b1, b2, b3); 0x10000 <= n <= 0x10FFFF && EncodeChar(n as char) == [b0, b1, b2, b3]
  {
    var p := (b0 - 0xF0) * 64 + (b1 - 0x80);
    var q := p * 64 + (b2 - 0x80);
    var n := Four(b0, b1, b2, b3);
    assert n == q * 64 + (b3 - 0x80);
    DivMod(q, b3 - 0x80);
    DivMod(p, b2 - 0x80);
    DivMod(b0 - 0xF0, b1 - 0x80);
    Digits(n);
  }

  /** What is decoded and not replaced is the encoding of the character. */
  lemma DecodedIsEncoded(b: seq<Byte>)
    requires b != [] && DecodeOne(b).0 != REPLACEMENT
    ensures EncodeChar(DecodeOne(b).0) == b[..DecodeOne(b).1]
  {
    hide Two, Three, Four, EncodeChar;
    var b0 := b[0];
    if b0 < 0x80 {
      EncodeOne(b0);
      assert b[..1] == [b0];
    } else if 0xC2 <= b0 <= 0xDF {
      EncodeTwo(b0, b[1]);
      assert b[..2] == [b0, b[1]];
    } else if 0xE0 <= b0 <= 0xEF {
      EncodeThree(b0, b[1], b[2]);
      assert b[..3] == [b0, b[1], b[2]];
    } else {
      EncodeFour(b0, b[1], b[2], b[3]);
      assert b[..4] == [b0, b[1], b[2], b[3]];
    }
  }

  lemma EncodeOne(b: Byte)
    requires b < 0x80
    ensures EncodeChar(b as char) == [b]
  {
  }

  /** Lossy decoding, character by character: a character is read exactly where its encoding
      stands, and anything else becomes U+FFFD. */
  lemma DecodeExactly(b: seq<Byte>, c: char)
    requires b != [] && c != REPLACEMENT
    ensures DecodeOne(b).0 == c <==> EncodeChar(c) <= b
    ensures EncodeChar(c) <= b ==> DecodeOne(b).1 == |EncodeChar(c)|
  {
    hide EncodeChar, DecodeOne;
    if EncodeChar(c) <= b {
      var e := EncodeChar(c);
      DecodeOneEncoded(c, b[|e|..]);
      assert e + b[|e|..] == b;
    }
    if DecodeOne(b).0 == c {
      DecodedIsEncoded(b);
    }
  }

  /** Bytes that could be the beginning of a character. */
  ghost predicate Begins(b: seq<Byte>) { exists c: char :: b <= EncodeChar(c) }

  /** The leading bytes of an encoding obey the decoder's tests. */
  lemma EncodedTests(c: char)
    ensures var e := EncodeChar(c);
            && (|e| >= 2 ==> 0xC2 <= e[0] <= 0xF4)
            && (e[0] >= 0xE0 ==> |e| >= 3 && SecondOk(e[0], e[1]))
            && (e[0] >= 0xF0 ==> |e| == 4)
            && (forall i :: 1 <= i < |e| ==> IsContinuation(e[i]))
            && (0xC2 <= e[0] <= 0xDF ==> |e| == 2) && (0xE0 <= e[0] <= 0xEF ==> |e| == 3) && (e[0] < 0x80 ==> |e| == 1)
  {
    Digits(c as int);
  }

  /** The decoder takes at least as many bytes as agree with an encoding. */
  lemma Consumes(b: seq<Byte>, c: char, k: nat)
    requires 1 <= k <= |b| && b[..k] <= EncodeChar(c)
    ensures DecodeOne(b).1 >= k
  {
    hide Two, Three, Four, EncodeChar;
    EncodedTests(c);
    var e := EncodeChar(c);
    assert e[0] == b[0];
    assert k >= 2 ==> e[1] == b[..k][1] == b[1];
    assert k >= 3 ==> e[2] == b[..k][2] == b[2];
    assert k >= 4 ==> e[3] == b[..k][3] == b[3];
  }

  lemma NothingBegins(b: seq<Byte>, n: nat)
    requires b != [] && n == DecodeOne(b).1 < |b|
    ensures !Begins(b[..n + 1])
  {
    hide DecodeOne, EncodeChar;
    forall c: char ensures !(b[..n + 1] <= EncodeChar(c)) {
      if b[..n + 1] <= EncodeChar(c) { Consumes(b, c, n + 1); }
    }
  }

  lemma ReplacedBegins(b: seq<Byte>)
    requires b != [] && DecodeOne(b).0 == REPLACEMENT && DecodeOne(b).1 > 1
    ensures Begins(b[..DecodeOne(b).1])
  {
    hide Two, Three, Four, EncodeChar;
    var n, b0, b1 := DecodeOne(b).1, b[0], b[1];
    var p := b[..n];
    if 0xC2 <= b0 <= 0xDF && IsContinuation(b1) { EncodeTwo(b0, b1); }
    if b0 <= 0xEF {
      var third := if n == 3 then b[2] else 0x80;
      EncodeThree(b0, b1, third);
      assert p <= [b0, b1, third];
    } else {
      var third, fourth := if n >= 3 then b[2] else 0x80, if n == 4 then b[3] else 0x80;
      EncodeFour(b0, b1, third, fourth);
      assert p <= [b0, b1, third, fourth];
    }
  }

  /** How much one U+FFFD stands for: a single byte, or as many bytes as could begin a
      character; one more could not. */
  lemma ReplacedLongest(b: seq<Byte>)
    requires b != [] && DecodeOne(b).0 == REPLACEMENT
    ensures var n := DecodeOne(b).1;
            (n == 1 || Begins(b[..n])) && (n < |b| ==> !Begins(b[..n + 1]))
  {
    hide DecodeOne, EncodeChar, Begins;
    var n := DecodeOne(b).1;
    if n > 1 { ReplacedBegins(b); }
    if n < |b| { NothingBegins(b, n); }
  }

  lemma DecodeBeforeAscii(a: seq<Byte>, c: Byte, b: seq<Byte>)
    requires a != [] && c < 0x80
    ensures DecodeOne(a + [c] + b) == DecodeOne(a)
  {
    hide Two, Three, Four;
    var x := a + [c] + b;
    assert x[0] == a[0];
    assert |a| >= 2 ==> x[1] == a[1];
    assert |a| == 1 ==> x[1] == c;
    assert |a| >= 3 ==> x[2] == a[2];
    assert |a| == 2 ==> x[2] == c;
    assert |a| >= 4 ==> x[3] == a[3];
    assert |a| == 3 ==> x[3] == c;
  }

  /** Whatever stands before it, an ASCII byte comes through: a malformed sequence never takes
      a byte of the text after it with it. */
  lemma {:induction false} LossyAscii(a: seq<Byte>, c: Byte, b: seq<Byte>)
    requires c < 0x80
    ensures Lossy(a + [c] + b) == Lossy(a) + [c as char] + Lossy(b)
    decreases |a|
  {
    hide Two, Three, Four;
    if a == [] {
      assert a + [c] + b == [c] + b && ([c] + b)[1..] == b;
      assert DecodeOne([c] + b) == (c as char, 1);
    } else {
      DecodeBeforeAscii(a, c, b);
      hide DecodeOne;
      var n := DecodeOne(a).1;
      assert (a + [c] + b)[n..] == a[n..] + [c] + b;
      LossyAscii(a[n..], c, b);
    }
  }

  lemma LossyEncode(s: string)
    ensures Lossy(Encode(s)) == s
  {
    LossyAfterWhole(s, []);
    assert Encode(s) + [] == Encode(s);
  }

  lemma {:induction false} EncodeAppend(s: string, t: string)
    ensures Encode(s + t) == Encode(s) + Encode(t)
  {
    if s == [] {
      assert s + t == t;
    } else {
      assert (s + t)[1..] == s[1..] + t;
      EncodeAppend(s[1..], t);
    }
  }

  /** Bytes made of whole characters. */
  predicate Whole(b: seq<Byte>) { Encode(Lossy(b)) == b }

  lemma WholeEncode(s: string)
    ensures Whole(Encode(s))
  {
    LossyEncode(s);
  }

  lemma WholeAppend(a: seq<Byte>, b: seq<Byte>)
    requires Whole(a) && Whole(b)
    ensures Whole(a + b) && Lossy(a + b) == Lossy(a) + Lossy(b)
  {
    LossyAfterWhole(Lossy(a), b);
    EncodeAppend(Lossy(a), Lossy(b));
  }

  /** Removing a whole prefix from whole bytes leaves whole bytes. */
  lemma WholeSuffix(a: seq<Byte>, b: seq<Byte>)
    requires Whole(a) && Whole(a + b)
    ensures Whole(b)
  {
    LossyAfterWhole(Lossy(a), b);
    EncodeAppend(Lossy(a), Lossy(b));
    assert a + Encode(Lossy(b)) == a + b;
    assert (a + b)[|a|..] == b && (a + Encode(Lossy(b)))[|a|..] == Encode(Lossy(b));
  }

  lemma EncodeCharAscii(c: char)
    ensures NEWLINE in EncodeChar(c) <==> c == '\n'
    ensures c == '\n' ==> EncodeChar(c) == [NEWLINE]
  {
  }

  /** Cutting whole bytes just before a newline leaves whole bytes: a newline byte is never
      part of a longer character. */
  lemma {:induction false} WholeBeforeNewline(a: seq<Byte>, b: seq<Byte>)
    requires Whole(a + [NEWLINE] + b) && NEWLINE !in a
    ensures Whole(a)
    decreases |a|
  {
    hide EncodeChar, DecodeOne;
    var all := a + [NEWLINE] + b;
    if a != [] {
      var s := Lossy(all);
      var e := EncodeChar(s[0]);
      var rest := Encode(s[1..]);
      assert all == e + rest;
      EncodeCharAscii(s[0]);
      assert |e| <= |a| && e == a[..|e|] by {
        assert forall i :: 0 <= i < |e| ==> all[i] == e[i];
        assert a[0] == e[0] && a[0] in a;
        assert (a + [NEWLINE])[|a|] == all[|a|] == (e + rest)[|a|];
      }
      var a' := a[|e|..];
      assert a == e + a';
      assert a' + [NEWLINE] + b == all[|e|..] == rest;
      WholeEncode(s[1..]);
      WholeBeforeNewline(a', b);
      WholeChar(s[0]);
      WholeAppend(e, a');
    }
  }

  lemma WholeChar(c: char)
    ensures Whole(EncodeChar(c))
  {
    hide EncodeChar, DecodeOne;
    WholeEncode([c]);
    assert [c][1..] == [] && Encode([]) == [];
    assert Encode([c]) == EncodeChar([c][0]) + Encode([c][1..]) == EncodeChar(c);
  }

  /** ASCII bytes decode to themselves, one character each. */
  lemma {:induction false} AsciiWhole(b: seq<Byte>)
    requires forall i :: 0 <= i < |b| ==> b[i] < 0x80
    ensures Whole(b) && |Lossy(b)| == |b|
    ensures forall i :: 0 <= i < |b| ==> Lossy(b)[i] as int == b[i]
  {
    if b != [] {
      AsciiWhole(b[1..]);
    }
  }

  /** A split inside a character is visible: the two halves of a two-byte character decode
      to two replacement characters. */
  lemma SplitInsideCharacter()
    ensures var e := EncodeChar(0xE9 as char);
            |e| == 2 && Lossy(e) == [0xE9 as char]
            && Lossy(e[..1]) + Lossy(e[1..]) == [REPLACEMENT, REPLACEMENT]
  {
    var e := EncodeChar(0xE9 as char);
    assert e == [0xC3, 0xA9];
    assert e[..1] == [0xC3] && e[1..] == [0xA9];
    assert DecodeOne(e) == (0xE9 as char, 2);
    assert e[2..] == [];
  }

  // ---------------------------------------------------------------- truncation

  /** The longest prefix of whole characters within `max` bytes: what `truncate` at
      `floor_char_boundary(max)` leaves. */
  function Floor(s: string, max: nat): (r: string)
    ensures r <= s
    ensures Len(r) <= max
    ensures Len(s) <= max ==> r == s
  {
    if s == [] || |EncodeChar(s[0])| > max then []
    else
      var r := Floor(s[1..], max - |EncodeChar(s[0])|);
      assert ([s[0]] + r)[1..] == r;
      [s[0]] + r
  }

  /** `floor_char_boundary` on the bytes: step back over continuation bytes. */
  function FloorBoundary(b: seq<Byte>, max: nat): (i: nat)
    ensures i <= |b|
  {
    if max >= |b| then |b|
    else if max == 0 || !IsContinuation(b[max]) then max
    else FloorBoundary(b, max - 1)
  }

  lemma EncodeCharShape(c: char)
    ensures !IsContinuation(EncodeChar(c)[0])
    ensures forall i :: 1 <= i < |EncodeChar(c)| ==> IsContinuation(EncodeChar(c)[i])
  {
  }

  /** Byte-level truncation of UTF-8 text keeps exactly the longest prefix of whole
      characters that fits. */
  lemma {:induction false} FloorBoundaryIsFloor(s: string, max: nat)
    ensures Encode(s)[..FloorBoundary(Encode(s), max)] == Encode(Floor(s, max))
  {
    hide EncodeChar, IsContinuation;
    var b := Encode(s);
    if s == [] {
    } else {
      var e := EncodeChar(s[0]);
      var rest := Encode(s[1..]);
      assert b == e + rest;
      EncodeCharShape(s[0]);
      assert rest != [] ==> !IsContinuation(rest[0]) by { EncodedLead(s[1..]); }
      if |e| > max {
        FloorBoundaryInChar(e, rest, max);
      } else {
        FloorBoundaryShift(e, rest, max);
        FloorBoundaryIsFloor(s[1..], max - |e|);
        var i := FloorBoundary(rest, max - |e|);
        assert b[..|e| + i] == e + rest[..i];
        var r := Floor(s[1..], max - |e|);
        assert ([s[0]] + r)[1..] == r;
      }
    }
  }

  lemma EncodedLead(s: string)
    ensures Encode(s) != [] ==> !IsContinuation(Encode(s)[0])
  {
    hide EncodeChar, IsContinuation;
    if s != [] {
      EncodeCharShape(s[0]);
    }
  }

  lemma {:induction false} FloorBoundaryInChar(e: seq<Byte>, rest: seq<Byte>, max: nat)
    requires max < |e|
    requires forall i :: 1 <= i < |e| ==> IsContinuation(e[i])
    ensures FloorBoundary(e + rest, max) == 0
  {
    if max > 0 {
      FloorBoundaryInChar(e, rest, max - 1);
    }
  }

  lemma {:induction false} FloorBoundaryShift(e: seq<Byte>, rest: seq<Byte>, max: nat)
    requires |e| <= max
    requires rest != [] ==> !IsContinuation(rest[0])
    ensures FloorBoundary(e + rest, max) == |e| + FloorBoundary(rest, max - |e|)
    decreases max
  {
    var b := e + rest;
    if max < |b| {
      assert b[max] == rest[max - |e|];
      if max > |e| && IsContinuation(b[max]) {
        FloorBoundaryShift(e, rest, max - 1);
      }
    }
  }

  // ---------------------------------------------------------------- trimming

  /** `char::is_whitespace`, the Unicode White_Space property. */
  predicate IsWhitespace(c: char) {
    var n := c as int;
    0x09 <= n <= 0x0D || n == 0x20 || n == 0x85 || n == 0xA0 || n == 0x1680 || 0x2000 <= n <= 0x200A
    || n == 0x2028 || n == 0x2029 || n == 0x202F || n == 0x205F || n == 0x3000
  }

  /** `trim_end`. */
  function TrimEnd(s: string): (r: string)
    ensures r <= s
  {
    if s != [] && IsWhitespace(s[|s| - 1]) then TrimEnd(s[..|s| - 1]) else s
  }

  function TrimStart(s: string): string {
    if s != [] && IsWhitespace(s[0]) then TrimStart(s[1..]) else s
  }

  /** `trim`. */
  function Trim(s: string): string { TrimEnd(TrimStart(s)) }

  /** `trim().is_empty()`. */
  predicate Blank(s: string) { forall i :: 0 <= i < |s| ==> IsWhitespace(s[i]) }

  /** `normalize_line`: drop trailing whitespace (and so a CR), then a leading BOM. */
  function Normalize(s: string): string {
    var t := TrimEnd(s);
    if t != [] && t[0] == BOM then t[1..] else t
  }

  /** Trimming leaves nothing exactly when there is only whitespace. */
  lemma {:induction false} TrimEmpty(s: string)
    ensures Trim(s) == "" <==> Blank(s)
  {
    if s != [] && IsWhitespace(s[0]) {
      TrimEmpty(s[1..]);
      assert s == [s[0]] + s[1..];
    } else if s != [] {
      TrimEndKeeps(s);
    }
  }

  lemma {:induction false} TrimEndKeeps(s: string)
    requires s != [] && !IsWhitespace(s[0])
    ensures TrimEnd(s) != []
  {
    if IsWhitespace(s[|s| - 1]) {
      TrimEndKeeps(s[..|s| - 1]);
    }
  }

  /** Text that does not end in whitespace. */
  predicate Trimmed(s: string) { s == "" || !IsWhitespace(s[|s| - 1]) }

  /** `text` is what is left of `s` without trailing whitespace and without a leading mark. */
  ghost predicate Padded(s: string, text: string) {
    exists w: string :: Blank(w) && (s == text + w || s == [BOM] + text + w)
  }

  lemma {:induction false} TrimEndIs(t: string, w: string)
    requires Trimmed(t) && Blank(w)
    ensures TrimEnd(t + w) == t
    decreases |w|
  {
    if w == "" {
      assert t + w == t;
    } else {
      var v := w[..|w| - 1];
      assert (t + w)[..|t + w| - 1] == t + v && (t + w)[|t + w| - 1] == w[|w| - 1];
      TrimEndIs(t, v);
    }
  }

  /** Normalization takes trailing whitespace and one leading mark away, and nothing else. */
  lemma NormalizeIs(t: string, w: string)
    requires Trimmed(t) && Blank(w)
    ensures Normalize([BOM] + t + w) == t
    ensures t == "" || t[0] != BOM ==> Normalize(t + w) == t
  {
    TrimEndIs(t, w);
    var m := [BOM] + t;
    assert m[|m| - 1] == if t == "" then BOM else t[|t| - 1];
    TrimEndIs(m, w);
    assert m[1..] == t;
  }

  lemma {:induction false} TrimEndShape(s: string) returns (w: string)
    ensures Blank(w) && s == TrimEnd(s) + w && Trimmed(TrimEnd(s))
  {
    if s != [] && IsWhitespace(s[|s| - 1]) {
      var v := TrimEndShape(s[..|s| - 1]);
      w := v + [s[|s| - 1]];
    } else {
      w := "";
    }
  }

  /** Every text is its normalized form, perhaps after a mark, followed by whitespace. */
  lemma NormalizeShape(s: string)
    ensures Trimmed(Normalize(s)) && Padded(s, Normalize(s))
    ensures Blank(s) ==> Normalize(s) == ""
  {
    var w := TrimEndShape(s);
    var t := TrimEnd(s);
    if t != "" && t[0] == BOM {
      assert t == [BOM] + t[1..];
      assert s == [BOM] + Normalize(s) + w;
    } else {
      assert s == Normalize(s) + w;
    }
    if Blank(s) {
      TrimEndIs("", s);
      assert "" + s == s;
    }
  }

  /** A carriage return before the newline is dropped. */
  lemma NormalizeCrLf(t: string)
    requires Trimmed(t) && (t == "" || t[0] != BOM)
    ensures Normalize(t + "\r") == t
  {
    NormalizeIs(t, "\r");
  }

  lemma {:induction false} TrimStartIs(v: string, t: string)
    requires Blank(v) && (t == "" || !IsWhitespace(t[0]))
    ensures TrimStart(v + t) == t
  {
    if v == "" {
      assert v + t == t;
    } else {
      assert (v + t)[1..] == v[1..] + t && (v + t)[0] == v[0];
      TrimStartIs(v[1..], t);
    }
  }

  /** Trimming takes the whitespace at both ends away, and nothing else. */
  lemma TrimIs(v: string, t: string, w: string)
    requires Blank(v) && Blank(w) && (t == "" || (!IsWhitespace(t[0]) && Trimmed(t)))
    ensures Trim(v + t + w) == t
  {
    if t == "" {
      assert v + t + w == (v + w) + "";
      TrimStartIs(v + w, "");
    } else {
      assert v + t + w == v + (t + w) && (t + w)[0] == t[0];
      TrimStartIs(v, t + w);
    }
    TrimEndIs(t, w);
    TrimEndIs("", "");
  }
}
