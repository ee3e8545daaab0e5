/** Logfmt scanning: the `=`-anchored search for the first `key=value` token against the
    per-space reference, and the field parser against a printer it inverts. */
module Logfmt {
  import opened Options
  import opened Utf8
  import opened Lines

  const SPACE: Byte := 0x20
  const QUOTE: Byte := 0x22
  const EQUALS: Byte := 0x3D
  const BACKSLASH: Byte := 0x5C
  const LETTER_N: Byte := 0x6E

  /** `is_logfmt_key_byte`: ASCII letters, digits, `_`, `-`, `.`. */
  predicate IsKeyByte(b: Byte) {
    0x30 <= b <= 0x39 || 0x41 <= b <= 0x5A || 0x61 <= b <= 0x7A || b == 0x5F || b == 0x2D || b == 0x2E
  }

  // ---------------------------------------------------------------- field start

  /** Where the run of key bytes from `j` ends. */
  function KeyEnd(s: seq<Byte>, j: nat): (e: nat)
    requires j <= |s|
    ensures j <= e <= |s|
    decreases |s| - j
  {
    if j < |s| && IsKeyByte(s[j]) then KeyEnd(s, j + 1) else j
  }

  /** A space followed by a non-empty key and `=`. */
  predicate FieldAt(s: seq<Byte>, i: nat) {
    i < |s| && s[i] == SPACE
    && var j := KeyEnd(s, i + 1); j > i + 1 && j < |s| && s[j] == EQUALS
  }

  /** The reference: probe at every space, left to right. */
  function Reference(s: seq<Byte>, i: nat): Option<nat>
    requires i <= |s|
    decreases |s| - i
  {
    if i == |s| then None
    else if FieldAt(s, i) then Some(i)
    else Reference(s, i + 1)
  }

  /** The reference finds the first field. */
  lemma {:induction false} ReferenceFirst(s: seq<Byte>, i: nat, k: nat)
    requires i <= k && FieldAt(s, k)
    requires forall m :: i <= m < k ==> !FieldAt(s, m)
    ensures Reference(s, i) == Some(k)
    decreases k - i
  {
    if i < k {
      ReferenceFirst(s, i + 1, k);
    }
  }

  lemma {:induction false} ReferenceNone(s: seq<Byte>, i: nat)
    requires i <= |s| && forall m :: i <= m < |s| ==> !FieldAt(s, m)
    ensures Reference(s, i) == None
    decreases |s| - i
  {
    if i < |s| {
      ReferenceNone(s, i + 1);
    }
  }

  /** The bytes of a key run are key bytes, and the run is as long as possible. */
  lemma {:induction false} KeyRun(s: seq<Byte>, j: nat)
    requires j <= |s|
    ensures forall m :: j <= m < KeyEnd(s, j) ==> IsKeyByte(s[m])
    ensures KeyEnd(s, j) < |s| ==> !IsKeyByte(s[KeyEnd(s, j)])
    decreases |s| - j
  {
    if j < |s| && IsKeyByte(s[j]) {
      KeyRun(s, j + 1);
    }
  }

  lemma {:induction false} KeyEndIs(s: seq<Byte>, j: nat, e: nat)
    requires j <= e <= |s| && (forall m :: j <= m < e ==> IsKeyByte(s[m])) && (e < |s| ==> !IsKeyByte(s[e]))
    ensures KeyEnd(s, j) == e
    decreases e - j
  {
    if j < e {
      KeyEndIs(s, j + 1, e);
    }
  }

  /** Key runs of distinct fields are disjoint and in order: a field whose run reaches `eq`
      or beyond cannot begin before a field whose run ends at `eq`. */
  lemma RunsInOrder(s: seq<Byte>, i: nat, k: nat, eq: nat)
    requires FieldAt(s, i) && FieldAt(s, k) && i < k
    requires KeyEnd(s, k + 1) == eq
    ensures KeyEnd(s, i + 1) <= k < eq
  {
    KeyRun(s, i + 1);
    assert !IsKeyByte(s[k]);
  }

  /** `logfmt_field_start`: walks back over the key from every `=`; the result is the
      reference's on every input. */
  method FieldStart(s: seq<Byte>) returns (r: Option<nat>)
    ensures r == Reference(s, 0)
  {
    hide Reference, KeyEnd;
    for eq := 0 to |s|
      invariant forall i: nat :: FieldAt(s, i) ==> KeyEnd(s, i + 1) >= eq
    {
      if s[eq] == EQUALS {
        var k := eq;
        while k > 0 && IsKeyByte(s[k - 1])
          invariant k <= eq && forall m :: k <= m < eq ==> IsKeyByte(s[m])
        {
          k := k - 1;
        }
        if k < eq && k > 0 && s[k - 1] == SPACE {
          KeyEndIs(s, k, eq);
          assert FieldAt(s, k - 1);
          forall m | 0 <= m < k - 1 ensures !FieldAt(s, m) {
            if FieldAt(s, m) { RunsInOrder(s, m, k - 1, eq); }
          }
          ReferenceFirst(s, 0, k - 1);
          return Some(k - 1);
        }
        forall i: nat | FieldAt(s, i) ensures KeyEnd(s, i + 1) >= eq + 1 {
          FieldEndsHere(s, i, k, eq);
        }
      } else {
        forall i: nat | FieldAt(s, i) ensures KeyEnd(s, i + 1) >= eq + 1 {
          assert s[KeyEnd(s, i + 1)] == EQUALS;
        }
      }
    }
    forall m | 0 <= m < |s| ensures !FieldAt(s, m) {
    }
    ReferenceNone(s, 0);
    return None;
  }

  /** If the walk back from `eq` does not stop at a space, no field ends at `eq`. */
  lemma FieldEndsHere(s: seq<Byte>, i: nat, k: nat, eq: nat)
    requires FieldAt(s, i) && KeyEnd(s, i + 1) >= eq && eq < |s| && k <= eq
    requires forall m :: k <= m < eq ==> IsKeyByte(s[m])
    requires k == 0 || !IsKeyByte(s[k - 1])
    requires !(k < eq && k > 0 && s[k - 1] == SPACE)
    ensures KeyEnd(s, i + 1) > eq
  {
    KeyRun(s, i + 1);
    assert !IsKeyByte(s[i]);
  }

  // ---------------------------------------------------------------- field parser

  datatype Field = Field(key: seq<Byte>, value: seq<Byte>)

  function Spaces(b: seq<Byte>): (n: nat)
    ensures n <= |b| && (n < |b| ==> b[n] != SPACE)
  {
    if b != [] && b[0] == SPACE then 1 + Spaces(b[1..]) else 0
  }

  function KeyLen(b: seq<Byte>): (n: nat)
    ensures n <= |b| && (n < |b| ==> !IsKeyByte(b[n]))
  {
    if b != [] && IsKeyByte(b[0]) then 1 + KeyLen(b[1..]) else 0
  }

  function UntilSpace(b: seq<Byte>): (n: nat)
    ensures n <= |b| && (n < |b| ==> b[n] == SPACE)
    ensures b != [] && b[0] != SPACE ==> n > 0
  {
    if b != [] && b[0] != SPACE then 1 + UntilSpace(b[1..]) else 0
  }

  /** A quoted value from just after the opening quote: its text and where it ends, at the
      closing quote or at the end of the input. An unknown escape keeps its backslash. */
  function Unquote(b: seq<Byte>): (r: (seq<Byte>, nat))
    ensures r.1 <= |b| && (r.1 < |b| ==> b[r.1] == QUOTE)
  {
    if b == [] || b[0] == QUOTE then ([], 0)
    else if EscapeHere(b, 0) then
      var (v, n) := Unquote(b[2..]);
      ([Unescaped(b[1])] + v, n + 2)
    else
      var (v, n) := Unquote(b[1..]);
      ([b[0]] + v, n + 1)
  }

  function Drop(b: seq<Byte>, n: nat): seq<Byte> { if n <= |b| then b[n..] else [] }

  /** One turn of the parser: nothing left, a malformed word to skip, or a field; with the
      number of bytes used. */
  datatype Token = End | Skip(n: nat) | Got(field: Field, n: nat)

  /** A value, quoted or bare, and the bytes it takes. */
  function Value(d: seq<Byte>): (seq<Byte>, nat) {
    if d != [] && d[0] == QUOTE then
      var (v, n) := Unquote(d[1..]);
      (v, n + 2)
    else
      var n := UntilSpace(d);
      (d[..n], n)
  }

  /** A word that does not begin with a space. */
  function Word(c: seq<Byte>): (t: Token)
    requires c != [] && c[0] != SPACE
    ensures !t.End? && t.n >= 1
  {
    var k := KeyLen(c);
    if k == 0 || k == |c| || c[k] != EQUALS then Skip(k + UntilSpace(c[k..]))
    else
      var (v, n) := Value(c[k + 1..]);
      Got(Field(c[..k], v), k + 1 + n)
  }

  function NextToken(b: seq<Byte>): (t: Token)
    ensures t.Skip? || t.Got? ==> t.n >= 1 && b != []
  {
    var j := Spaces(b);
    if j == |b| then End
    else
      match Word(b[j..])
      case Skip(n) => Skip(j + n)
      case Got(f, n) => Got(f, j + n)
  }

  /** The fields of a logfmt tail. */
  function Parse(b: seq<Byte>): seq<Field>
    decreases |b|
  {
    match NextToken(b)
    case End => []
    case Skip(n) => Parse(Drop(b, n))
    case Got(f, n) => [f] + Parse(Drop(b, n))
  }

  predicate EscapeHere(s: seq<Byte>, i: nat) {
    i + 1 < |s| && s[i] == BACKSLASH && (s[i + 1] == QUOTE || s[i + 1] == BACKSLASH || s[i + 1] == LETTER_N)
  }

  /** The byte an escape stands for. */
  function Unescaped(b: Byte): Byte { if b == LETTER_N then NEWLINE else b }

  /** The quoted-value loop, which copies runs between escapes. */
  method ReadQuoted(s: seq<Byte>, start: nat) returns (v: seq<Byte>, i: nat)
    requires start <= |s|
    ensures start <= i <= |s| && (v, i - start) == Unquote(s[start..])
  {
    hide Unquote, EscapeHere;
    i, v := start, [];
    var runStart := start;
    ghost var acc: seq<Byte> := [];
    UnquoteNone(s[start..]);
    while i < |s| && s[i] != QUOTE
      invariant start <= runStart <= i <= |s|
      invariant acc == v + s[runStart..i]
      invariant Unquote(s[start..]) == (acc + Unquote(s[i..]).0, i - start + Unquote(s[i..]).1)
    {
      UnquoteStep(s, i, acc);
      if EscapeHere(s, i) {
        acc := acc + [Unescaped(s[i + 1])];
        v := v + s[runStart..i] + [Unescaped(s[i + 1])];
        i := i + 2;
        runStart := i;
      } else {
        RunGrows(v, s, runStart, i);
        acc := acc + [s[i]];
        i := i + 1;
      }
    }
    v := v + s[runStart..i];
    UnquoteEnd(s[i..], acc);
  }

  lemma RunGrows(v: seq<Byte>, s: seq<Byte>, from: nat, i: nat)
    requires from <= i < |s|
    ensures v + s[from..i + 1] == v + s[from..i] + [s[i]]
  {
  }

  lemma UnquoteNone(b: seq<Byte>)
    ensures Unquote(b) == ([] + Unquote(b).0, Unquote(b).1)
  {
    hide Unquote;
    assert [] + Unquote(b).0 == Unquote(b).0;
  }

  lemma UnquoteEnd(b: seq<Byte>, acc: seq<Byte>)
    requires b == [] || b[0] == QUOTE
    ensures Unquote(b).1 == 0 && acc + Unquote(b).0 == acc
  {
  }

  /** One turn of the loop, with `acc` already read. */
  lemma UnquoteStep(s: seq<Byte>, i: nat, acc: seq<Byte>)
    requires i < |s| && s[i] != QUOTE
    ensures EscapeHere(s, i) ==>
              i + 2 <= |s|
              && acc + Unquote(s[i..]).0 == (acc + [Unescaped(s[i + 1])]) + Unquote(s[i + 2..]).0
              && Unquote(s[i..]).1 == Unquote(s[i + 2..]).1 + 2
    ensures !EscapeHere(s, i) ==>
              acc + Unquote(s[i..]).0 == (acc + [s[i]]) + Unquote(s[i + 1..]).0
              && Unquote(s[i..]).1 == Unquote(s[i + 1..]).1 + 1
  {
    var b := s[i..];
    assert b[1..] == s[i + 1..];
    if EscapeHere(s, i) {
      assert b[2..] == s[i + 2..];
      var r := Unquote(b[2..]).0;
      assert Unquote(b).0 == [Unescaped(s[i + 1])] + r;
      hide Unquote;
      assert acc + ([Unescaped(s[i + 1])] + r) == (acc + [Unescaped(s[i + 1])]) + r;
    } else {
      var r := Unquote(b[1..]).0;
      assert Unquote(b).0 == [s[i]] + r;
      hide Unquote;
      assert acc + ([s[i]] + r) == (acc + [s[i]]) + r;
    }
  }

  method ScanSpaces(s: seq<Byte>, start: nat) returns (i: nat)
    requires start <= |s|
    ensures i == start + Spaces(s[start..])
  {
    i := start;
    while i < |s| && s[i] == SPACE
      invariant start <= i <= |s| && start + Spaces(s[start..]) == i + Spaces(s[i..])
    {
      assert s[i..][1..] == s[i + 1..];
      i := i + 1;
    }
  }

  method ScanKey(s: seq<Byte>, start: nat) returns (i: nat)
    requires start <= |s|
    ensures i == start + KeyLen(s[start..])
  {
    i := start;
    while i < |s| && IsKeyByte(s[i])
      invariant start <= i <= |s| && start + KeyLen(s[start..]) == i + KeyLen(s[i..])
    {
      assert s[i..][1..] == s[i + 1..];
      i := i + 1;
    }
  }

  method ScanToSpace(s: seq<Byte>, start: nat) returns (i: nat)
    requires start <= |s|
    ensures i == start + UntilSpace(s[start..])
  {
    i := start;
    while i < |s| && s[i] != SPACE
      invariant start <= i <= |s| && start + UntilSpace(s[start..]) == i + UntilSpace(s[i..])
    {
      assert s[i..][1..] == s[i + 1..];
      i := i + 1;
    }
  }

  method ReadValue(s: seq<Byte>, i: nat) returns (v: seq<Byte>, n: nat)
    requires i <= |s|
    ensures n >= i && (v, n - i) == Value(s[i..])
  {
    hide UntilSpace, Unquote;
    if i < |s| && s[i] == QUOTE {
      assert s[i..][1..] == s[i + 1..];
      v, n := ReadQuoted(s, i + 1);
      n := n + 1;
    } else {
      n := ScanToSpace(s, i);
      v := s[i..n];
      assert s[i..][..n - i] == v;
    }
  }

  /** A word at position `j`, in positions of the whole input. */
  method ReadWord(s: seq<Byte>, j: nat) returns (t: Token)
    requires j < |s| && s[j] != SPACE
    ensures t == Word(s[j..])
  {
    hide Spaces, KeyLen, UntilSpace, IsKeyByte, Value;
    ghost var c := s[j..];
    var e := ScanKey(s, j);
    SliceOf(s, j, e);
    if e == j || e >= |s| || s[e] != EQUALS {
      var n := ScanToSpace(s, e);
      return Skip(n - j);
    }
    SliceOf(s, j, e + 1);
    var v, n := ReadValue(s, e + 1);
    return Got(Field(s[j..e], v), n - j);
  }

  lemma SliceOf(s: seq<Byte>, j: nat, e: nat)
    requires j <= e <= |s|
    ensures s[j..][e - j..] == s[e..] && s[j..][..e - j] == s[j..e]
    ensures e < |s| ==> s[j..][e - j] == s[e]
  {
  }

  /** The body of the parsing loop, at position `i` of the input. */
  method ReadToken(s: seq<Byte>, i: nat) returns (t: Token)
    requires i < |s|
    ensures t == NextToken(s[i..])
  {
    hide Spaces, Word;
    var j := ScanSpaces(s, i);
    if j >= |s| {
      return End;
    }
    SliceOf(s, i, j);
    var w := ReadWord(s, j);
    match w {
      case Skip(n) => return Skip(j - i + n);
      case Got(f, n) => return Got(f, j - i + n);
    }
  }

  /** `parse_logfmt_fields`: in bounds and terminating on every input. */
  method ParseFields(s: seq<Byte>) returns (out: seq<Field>)
    ensures out == Parse(s)
  {
    hide NextToken, Drop;
    out := [];
    var i := 0;
    DropFacts(s, 0, 0);
    while i < |s|
      invariant out + Parse(Drop(s, i)) == Parse(s)
      decreases |s| - i
    {
      DropFacts(s, i, 0);
      var t := ReadToken(s, i);
      match t {
        case End =>
          assert out + [] == out;
          return;
        case Skip(n) =>
          DropFacts(s, i, n);
          i := i + n;
        case Got(f, n) =>
          DropFacts(s, i, n);
          assert out + ([f] + Parse(Drop(s, i + n))) == (out + [f]) + Parse(Drop(s, i + n));
          out := out + [f];
          i := i + n;
      }
    }
    DropFacts(s, i, 0);
    ParseNothing();
    assert out + [] == out;
  }

  lemma DropFacts(s: seq<Byte>, i: nat, n: nat)
    ensures Drop(Drop(s, i), n) == Drop(s, i + n)
    ensures i <= |s| ==> Drop(s, i) == s[i..]
    ensures i >= |s| ==> Drop(s, i) == []
    ensures Drop(s, 0) == s
  {
  }

  // ---------------------------------------------------------------- printing

  function EscapeByte(b: Byte): seq<Byte> {
    if b == QUOTE then [BACKSLASH, QUOTE]
    else if b == BACKSLASH then [BACKSLASH, BACKSLASH]
    else if b == NEWLINE then [BACKSLASH, LETTER_N]
    else [b]
  }

  function Escape(v: seq<Byte>): seq<Byte> {
    if v == [] then [] else EscapeByte(v[0]) + Escape(v[1..])
  }

  /** A value that may be written without quotes. */
  predicate Plain(v: seq<Byte>) { SPACE !in v && (v != [] ==> v[0] != QUOTE) }

  predicate ValidKey(k: seq<Byte>) { k != [] && forall i :: 0 <= i < |k| ==> IsKeyByte(k[i]) }

  /** `key=value`, quoted and escaped or, where the value allows, bare. */
  function PrintField(f: Field, bare: bool): seq<Byte> {
    f.key + [EQUALS] + if bare then f.value else [QUOTE] + Escape(f.value) + [QUOTE]
  }

  function Print(fs: seq<(Field, bool)>): seq<Byte> {
    if fs == [] then []
    else if |fs| == 1 then PrintField(fs[0].0, fs[0].1)
    else PrintField(fs[0].0, fs[0].1) + [SPACE] + Print(fs[1..])
  }

  predicate Printable(fs: seq<(Field, bool)>) {
    forall i :: 0 <= i < |fs| ==> ValidKey(fs[i].0.key) && (fs[i].1 ==> Plain(fs[i].0.value))
  }

  function Fields(fs: seq<(Field, bool)>): seq<Field> { seq(|fs|, i requires 0 <= i < |fs| => fs[i].0) }

  lemma UnquoteByte(x: Byte, tail: seq<Byte>)
    ensures Unquote(EscapeByte(x) + tail) == ([x] + Unquote(tail).0, |EscapeByte(x)| + Unquote(tail).1)
  {
    hide Unquote;
    var b := EscapeByte(x) + tail;
    if x == QUOTE || x == BACKSLASH || x == NEWLINE {
      assert b[0] == BACKSLASH && b[1] == (if x == NEWLINE then LETTER_N else x) && b[2..] == tail;
      UnquoteEscaped(b);
    } else {
      assert b[0] == x && b[1..] == tail;
      UnquotePlain(b);
    }
  }

  lemma UnquoteEscaped(b: seq<Byte>)
    requires EscapeHere(b, 0)
    ensures Unquote(b) == ([Unescaped(b[1])] + Unquote(b[2..]).0, Unquote(b[2..]).1 + 2)
  {
  }

  lemma UnquotePlain(b: seq<Byte>)
    requires b != [] && b[0] != QUOTE && b[0] != BACKSLASH
    ensures Unquote(b) == ([b[0]] + Unquote(b[1..]).0, Unquote(b[1..]).1 + 1)
  {
  }

  lemma {:induction false} UnquoteEscape(v: seq<Byte>, rest: seq<Byte>)
    ensures Unquote(Escape(v) + [QUOTE] + rest) == (v, |Escape(v)|)
  {
    var b := Escape(v) + [QUOTE] + rest;
    if v == [] {
      assert b == [QUOTE] + rest;
    } else {
      UnquoteEscape(v[1..], rest);
      var e := Escape(v[1..]);
      var tail := e + [QUOTE] + rest;
      assert Escape(v) == EscapeByte(v[0]) + e;
      hide Escape, Unquote;
      assert b == EscapeByte(v[0]) + tail;
      UnquoteByte(v[0], tail);
      assert v == [v[0]] + v[1..];
    }
  }

  lemma {:induction false} KeyLenIs(k: seq<Byte>, rest: seq<Byte>)
    requires forall i :: 0 <= i < |k| ==> IsKeyByte(k[i])
    requires rest != [] ==> !IsKeyByte(rest[0])
    ensures KeyLen(k + rest) == |k|
  {
    if k == [] {
      assert k + rest == rest;
    } else {
      assert (k + rest)[1..] == k[1..] + rest;
      KeyLenIs(k[1..], rest);
    }
  }

  lemma {:induction false} UntilSpaceIs(v: seq<Byte>, rest: seq<Byte>)
    requires SPACE !in v && (rest != [] ==> rest[0] == SPACE)
    ensures UntilSpace(v + rest) == |v|
  {
    if v == [] {
      assert v + rest == rest;
    } else {
      assert (v + rest)[1..] == v[1..] + rest;
      UntilSpaceIs(v[1..], rest);
    }
  }

  /** A leading space is skipped. */
  lemma ParseSpace(b: seq<Byte>)
    ensures Parse([SPACE] + b) == Parse(b)
  {
    var c := [SPACE] + b;
    TokenSpace(b);
    hide NextToken;
    match NextToken(b) {
      case End =>
      case Skip(n) => assert Drop(c, n + 1) == Drop(b, n);
      case Got(f, n) => assert Drop(c, n + 1) == Drop(b, n);
    }
  }

  lemma TokenSpace(b: seq<Byte>)
    ensures NextToken([SPACE] + b) == match NextToken(b)
                                      case End => End
                                      case Skip(n) => Skip(n + 1)
                                      case Got(f, n) => Got(f, n + 1)
  {
    hide Word;
    var c := [SPACE] + b;
    assert c[1..] == b;
    var j := Spaces(b);
    assert Spaces(c) == j + 1 && c[j + 1..] == b[j..];
  }

  /** A printed value, up to the space after it. */
  lemma ValuePrinted(v: seq<Byte>, bare: bool, rest: seq<Byte>)
    requires (bare ==> Plain(v)) && (rest != [] ==> rest[0] == SPACE)
    ensures var p := if bare then v else [QUOTE] + Escape(v) + [QUOTE];
            Value(p + rest) == (v, |p|)
  {
    hide UntilSpace, Unquote, Escape;
    if bare {
      UntilSpaceIs(v, rest);
      var d := v + rest;
      assert d[..|v|] == v && !(d != [] && d[0] == QUOTE);
    } else {
      UnquoteEscape(v, rest);
      var d := [QUOTE] + Escape(v) + [QUOTE] + rest;
      assert d[1..] == Escape(v) + [QUOTE] + rest;
    }
  }

  /** A printed field at the front is the next token. */
  lemma TokenPrinted(f: Field, bare: bool, rest: seq<Byte>)
    requires ValidKey(f.key) && (bare ==> Plain(f.value)) && (rest != [] ==> rest[0] == SPACE)
    ensures NextToken(PrintField(f, bare) + rest) == Got(f, |PrintField(f, bare)|)
  {
    hide Spaces, KeyLen, UntilSpace, Unquote, Escape, Value, Plain;
    var p := if bare then f.value else [QUOTE] + Escape(f.value) + [QUOTE];
    var c := PrintField(f, bare) + rest;
    var k := |f.key|;
    ValuePrinted(f.value, bare, rest);
    assert c == f.key + ([EQUALS] + (p + rest));
    assert PrintField(f, bare) == f.key + [EQUALS] + p;
    hide PrintField;
    KeyLenIs(f.key, [EQUALS] + (p + rest));
    assert c[0] == f.key[0] && IsKeyByte(f.key[0]);
    NoSpaces(c);
    assert c[0..] == c;
    assert c[k] == EQUALS && c[..k] == f.key && c[k + 1..] == p + rest;
  }

  lemma ParsePrinted(f: Field, bare: bool, rest: seq<Byte>)
    requires ValidKey(f.key) && (bare ==> Plain(f.value)) && (rest != [] ==> rest[0] == SPACE)
    ensures Parse(PrintField(f, bare) + rest) == [f] + Parse(rest)
  {
    hide NextToken, PrintField, ValidKey, Plain;
    TokenPrinted(f, bare, rest);
    var p := PrintField(f, bare);
    assert Drop(p + rest, |p|) == rest;
  }

  lemma NoSpaces(b: seq<Byte>)
    requires b != [] && b[0] != SPACE
    ensures Spaces(b) == 0
  {
  }

  /** The parser is a left inverse of the printer, for any valid keys and any values. */
  lemma {:induction false} PrintParse(fs: seq<(Field, bool)>)
    requires Printable(fs)
    ensures Parse(Print(fs)) == Fields(fs)
  {
    hide PrintField, ValidKey, Plain, Parse;
    if fs == [] {
      ParseNothing();
    } else {
      var (f, bare) := fs[0];
      assert ValidKey(fs[0].0.key) && (fs[0].1 ==> Plain(fs[0].0.value));
      if |fs| == 1 {
        ParsePrinted(f, bare, []);
        ParseNothing();
        assert PrintField(f, bare) + [] == PrintField(f, bare) && [f] + [] == [f];
        assert Fields(fs) == [f];
      } else {
        var tail := Print(fs[1..]);
        assert Print(fs) == PrintField(f, bare) + ([SPACE] + tail);
        ParsePrinted(f, bare, [SPACE] + tail);
        ParseSpace(tail);
        PrintParse(fs[1..]);
        assert Fields(fs) == [f] + Fields(fs[1..]);
      }
    }
  }

  lemma ParseNothing()
    ensures Parse([]) == []
  {
  }

  // ---------------------------------------------------------------- split_message

  /** The logfmt half of `split_message`: the phrase before the first field, and the fields. */
  function SplitMessage(m: seq<Byte>): (seq<Byte>, seq<Field>) {
    match Reference(m, 0)
    case Some(i) => if i < |m| then (m[..i], Parse(m[i + 1..])) else (m, [])
    case None => (m, [])
  }

  /** A phrase followed by printed fields splits back into the two exactly when the phrase
      holds no field of its own. */
  lemma SplitPrinted(body: seq<Byte>, fs: seq<(Field, bool)>)
    requires Printable(fs) && fs != []
    ensures SplitMessage(body + [SPACE] + Print(fs)) == (body, Fields(fs))
            <==> forall i :: 0 <= i < |body| ==> !FieldAt(body, i)
  {
    hide Parse, Print, Fields, KeyEnd, Reference, Printable;
    var m := body + [SPACE] + Print(fs);
    forall i | 0 <= i < |body| ensures FieldAt(m, i) <==> FieldAt(body, i) {
      FieldInBody(body, Print(fs), i);
    }
    PrintedField(body, fs);
    if exists i :: 0 <= i < |body| && FieldAt(body, i) {
      var i :| 0 <= i < |body| && FieldAt(body, i);
      var k := FirstField(m, i);
      ReferenceFirst(m, 0, k);
      assert |m[..k]| < |body|;
    } else {
      ReferenceFirst(m, 0, |body|);
      assert m[..|body|] == body && m[|body| + 1..] == Print(fs);
      PrintParse(fs);
    }
  }

  lemma FirstField(s: seq<Byte>, i: nat) returns (k: nat)
    requires FieldAt(s, i)
    ensures k <= i && FieldAt(s, k) && forall m :: 0 <= m < k ==> !FieldAt(s, m)
  {
    k := 0;
    while !FieldAt(s, k)
      invariant k <= i && forall m :: 0 <= m < k ==> !FieldAt(s, m)
      decreases i - k
    {
      k := k + 1;
    }
  }

  /** A key run inside the phrase does not cross the space after it. */
  lemma FieldInBody(body: seq<Byte>, tail: seq<Byte>, i: nat)
    requires i < |body|
    ensures FieldAt(body + [SPACE] + tail, i) <==> FieldAt(body, i)
  {
    hide KeyEnd;
    var m := body + [SPACE] + tail;
    KeyRun(m, i + 1);
    KeyRun(body, i + 1);
    var e := KeyEnd(m, i + 1);
    assert m[|body|] == SPACE;
    assert e <= |body|;
    assert forall x :: i + 1 <= x < e ==> body[x] == m[x];
    KeyEndIs(body, i + 1, e);
  }

  lemma PrintedField(body: seq<Byte>, fs: seq<(Field, bool)>)
    requires Printable(fs) && fs != []
    ensures FieldAt(body + [SPACE] + Print(fs), |body|)
  {
    hide KeyEnd, Escape;
    PrintedKey(fs);
    hide Print;
    var p := Print(fs);
    var key := fs[0].0.key;
    var m := body + [SPACE] + p;
    var at := |body| + 1;
    assert m[at..] == p;
    assert forall x :: at <= x < at + |key| ==> m[x] == p[x - at] == p[..|key|][x - at];
    assert m[at + |key|] == p[|key|];
    KeyEndIs(m, at, at + |key|);
  }

  lemma PrintedKey(fs: seq<(Field, bool)>)
    requires Printable(fs) && fs != []
    ensures var p, key := Print(fs), fs[0].0.key;
            ValidKey(key) && |p| > |key| && p[..|key|] == key && p[|key|] == EQUALS
  {
    hide Escape;
    var f := PrintField(fs[0].0, fs[0].1);
    var key := fs[0].0.key;
    assert f[..|key|] == key && f[|key|] == EQUALS;
    assert f <= Print(fs);
  }

  // ---------------------------------------------------------------- words that are no field

  /** A word that begins with a key and `=`. */
  predicate BeginsField(w: seq<Byte>) {
    exists k :: 0 < k < |w| && w[k] == EQUALS && forall i :: 0 <= i < k ==> IsKeyByte(w[i])
  }

  lemma {:induction false} KeyLenWithin(w: seq<Byte>, rest: seq<Byte>)
    requires rest == [] || rest[0] == SPACE
    ensures KeyLen(w + rest) <= |w| && forall i :: 0 <= i < KeyLen(w + rest) ==> IsKeyByte(w[i])
  {
    if w == [] {
      assert w + rest == rest;
    } else if IsKeyByte(w[0]) {
      assert (w + rest)[0] == w[0] && (w + rest)[1..] == w[1..] + rest;
      KeyLenWithin(w[1..], rest);
    }
  }

  /** A word that is no field is one token to skip. */
  lemma SkipsWord(w: seq<Byte>, rest: seq<Byte>)
    requires w != [] && SPACE !in w && !BeginsField(w) && (rest == [] || rest[0] == SPACE)
    ensures NextToken(w + rest) == Skip(|w|)
  {
    hide KeyLen, UntilSpace;
    var c := w + rest;
    assert c[0] == w[0] && c[0] != SPACE by { assert w[0] in w; }
    assert Spaces(c) == 0 && c[0..] == c;
    var k := KeyLen(c);
    KeyLenWithin(w, rest);
    assert c[k..] == w[k..] + rest;
    UntilSpaceIs(w[k..], rest);
  }

  /** Words that are no field, and spaces, contribute nothing and hide nothing: what follows
      them is parsed as if they were not there. */
  lemma WordsIgnored(w: seq<Byte>, rest: seq<Byte>)
    requires w != [] && SPACE !in w && !BeginsField(w) && (rest == [] || rest[0] == SPACE)
    ensures Parse(w + rest) == Parse(rest)
  {
    hide NextToken;
    SkipsWord(w, rest);
    assert Drop(w + rest, |w|) == rest;
  }

  lemma TokenAfterSpace(rest: seq<Byte>)
    ensures NextToken([SPACE] + rest)
            == match NextToken(rest)
               case End => End
               case Skip(n) => Skip(n + 1)
               case Got(f, n) => Got(f, n + 1)
  {
    hide Word;
    var b := [SPACE] + rest;
    assert b[1..] == rest;
    var j := Spaces(rest);
    assert Spaces(b) == j + 1 && b[j + 1..] == rest[j..];
  }

  lemma SpaceIgnored(rest: seq<Byte>)
    ensures Parse([SPACE] + rest) == Parse(rest)
  {
    hide NextToken;
    TokenAfterSpace(rest);
    var t := NextToken(rest);
    if !t.End? { assert Drop([SPACE] + rest, t.n + 1) == Drop(rest, t.n); }
  }

  /** A backslash before any other byte stands for itself. */
  lemma UnknownEscapeKept(x: Byte, rest: seq<Byte>)
    requires x != QUOTE && x != BACKSLASH && x != LETTER_N
    ensures var r := Unquote([BACKSLASH, x] + rest);
            r == ([BACKSLASH, x] + Unquote(rest).0, Unquote(rest).1 + 2)
  {
    hide Unquote;
    var b := [BACKSLASH, x] + rest;
    UnquoteStep(b, 0, []);
    UnquoteStep(b, 1, [BACKSLASH]);
    assert b[0..] == b && b[2..] == rest;
    var r := Unquote(b);
    assert r.0 == [] + r.0 == [BACKSLASH] + Unquote(b[1..]).0 == ([BACKSLASH] + [x]) + Unquote(rest).0;
    assert [BACKSLASH] + [x] == [BACKSLASH, x];
  }

  /** A quoted value without its closing quote runs to the end. */
  lemma {:induction false} UnterminatedRuns(v: seq<Byte>)
    requires QUOTE !in v && BACKSLASH !in v
    ensures Unquote(v) == (v, |v|)
  {
    if v != [] {
      assert v[0] in v;
      UnterminatedRuns(v[1..]);
      assert v == [v[0]] + v[1..];
    }
  }
}
