/** Physical lines of a byte stream: the one-shot splitting that incremental reading is
    compared with, and `text::read_line` over a buffered reader. */
module Lines {
  import opened Utf8

  predicate Terminated(c: seq<Byte>) { c != [] && c[|c| - 1] == NEWLINE }

  /** The shortest prefix ending in a newline, or everything when there is none. */
  function NextChunk(b: seq<Byte>): (c: seq<Byte>)
    ensures |c| <= |b| && c == b[..|c|]
    ensures b != [] ==> c != []
  {
    if b == [] then []
    else if b[0] == NEWLINE then [NEWLINE]
    else [b[0]] + NextChunk(b[1..])
  }

  /** A newline stands only at the end of a chunk, and a chunk without one is everything. */
  lemma {:induction false} ChunkShape(b: seq<Byte>)
    ensures var c := NextChunk(b);
            (c != [] ==> NEWLINE !in c[..|c| - 1]) && (!Terminated(c) ==> c == b && NEWLINE !in b)
  {
    if b != [] && b[0] != NEWLINE {
      ChunkShape(b[1..]);
      var c, c' := NextChunk(b), NextChunk(b[1..]);
      assert c == [b[0]] + c';
      if c' != [] {
        assert c[|c| - 1] == c'[|c'| - 1];
        assert c[..|c| - 1] == [b[0]] + c'[..|c'| - 1];
      }
      assert b == [b[0]] + b[1..];
    }
  }

  /** The newline-terminated lines, newline included. */
  function CompleteLines(b: seq<Byte>): seq<seq<Byte>> {
    var c := NextChunk(b);
    if Terminated(c) then [c] + CompleteLines(b[|c|..]) else []
  }

  /** What follows the last newline. */
  function Rest(b: seq<Byte>): seq<Byte> {
    var c := NextChunk(b);
    if Terminated(c) then Rest(b[|c|..]) else b
  }

  function Flat<T>(parts: seq<seq<T>>): seq<T> {
    if parts == [] then [] else parts[0] + Flat(parts[1..])
  }

  lemma {:induction false} FlatAppend<T>(a: seq<seq<T>>, b: seq<seq<T>>)
    ensures Flat(a + b) == Flat(a) + Flat(b)
  {
    if a == [] {
      assert a + b == b;
    } else {
      assert (a + b)[1..] == a[1..] + b;
      FlatAppend(a[1..], b);
    }
  }

  lemma FlatSnoc<T>(a: seq<seq<T>>, x: seq<T>)
    ensures Flat(a + [x]) == Flat(a) + x
  {
    FlatAppend(a, [x]);
    assert Flat([x]) == x + Flat([x][1..]) == x;
  }

  /** Splitting loses nothing. */
  lemma {:induction false} LinesTile(b: seq<Byte>)
    ensures Flat(CompleteLines(b)) + Rest(b) == b
    decreases |b|
  {
    var c := NextChunk(b);
    ChunkShape(b);
    if Terminated(c) {
      hide CompleteLines, Rest, NextChunk;
      var b' := b[|c|..];
      assert b == c + b';
      LinesTile(b');
      LinesUnfold(c, b');
      assert ([c] + CompleteLines(b'))[1..] == CompleteLines(b');
    }
  }

  /** The first chunk of a stream is decided by its first newline alone. */
  lemma {:induction false} NextChunkExtends(a: seq<Byte>, b: seq<Byte>)
    ensures Terminated(NextChunk(a)) ==> NextChunk(a + b) == NextChunk(a)
    ensures !Terminated(NextChunk(a)) ==> NextChunk(a + b) == a + NextChunk(b)
  {
    if a == [] {
      assert a + b == b;
    } else {
      assert (a + b)[1..] == a[1..] + b && (a + b)[0] == a[0];
      if a[0] != NEWLINE {
        NextChunkExtends(a[1..], b);
        var c, c' := NextChunk(a), NextChunk(a[1..]);
        assert c == [a[0]] + c' && (c' != [] ==> c[|c| - 1] == c'[|c'| - 1]);
      }
    }
  }

  /** Splitting off the first line. */
  lemma LinesUnfold(c: seq<Byte>, rest: seq<Byte>)
    requires Terminated(c) && NEWLINE !in c[..|c| - 1]
    ensures CompleteLines(c + rest) == [c] + CompleteLines(rest)
    ensures Rest(c + rest) == Rest(rest)
  {
    hide NextChunk;
    ChunkIsLine(c);
    NextChunkExtends(c, rest);
    assert (c + rest)[|c|..] == rest;
  }

  lemma ChunkIsLine(c: seq<Byte>)
    requires Terminated(c) && NEWLINE !in c[..|c| - 1]
    ensures NextChunk(c) == c
  {
    var p := c[..|c| - 1];
    NoNewlineChunk(p);
    NextChunkExtends(p, [NEWLINE]);
    assert c == p + [NEWLINE];
  }

  /** Splitting at the end of a line splits the list of lines. */
  lemma {:induction false} LinesAppend(a: seq<Byte>, b: seq<Byte>)
    requires Rest(a) == []
    ensures CompleteLines(a + b) == CompleteLines(a) + CompleteLines(b)
    ensures Rest(a + b) == Rest(b)
    decreases |a|
  {
    var c := NextChunk(a);
    ChunkShape(a);
    if Terminated(c) {
      hide *;
      var a' := a[|c|..];
      assert a == c + a' && a + b == c + (a' + b);
      LinesUnfold(c, a');
      LinesUnfold(c, a' + b);
      LinesAppend(a', b);
    } else {
      assert a + b == b;
    }
  }

  /** One terminated line is one line. */
  lemma LineOfChunk(c: seq<Byte>)
    requires Terminated(c) && NEWLINE !in c[..|c| - 1]
    ensures CompleteLines(c) == [c] && Rest(c) == []
  {
    hide NextChunk;
    ChunkIsLine(c);
    assert c[|c|..] == [];
  }

  lemma {:induction false} NoNewlineChunk(b: seq<Byte>)
    requires NEWLINE !in b
    ensures NextChunk(b) == b && CompleteLines(b) == [] && Rest(b) == b
  {
    if b != [] {
      assert b[|b| - 1] in b;
      NoNewlineChunk(b[1..]);
    }
  }

  /** Splitting anywhere: what follows the last newline before the cut joins what comes after. */
  lemma {:induction false} LinesAppendRest(a: seq<Byte>, b: seq<Byte>)
    ensures CompleteLines(a + b) == CompleteLines(a) + CompleteLines(Rest(a) + b)
    ensures Rest(a + b) == Rest(Rest(a) + b)
    ensures NEWLINE !in Rest(a)
    decreases |a|
  {
    var c := NextChunk(a);
    ChunkShape(a);
    if Terminated(c) {
      hide *;
      var a' := a[|c|..];
      assert a == c + a' && a + b == c + (a' + b);
      LinesUnfold(c, a');
      LinesUnfold(c, a' + b);
      LinesAppendRest(a', b);
    }
  }

  /** A newline-free prefix becomes part of the first line that follows. */
  lemma LineJoined(a: seq<Byte>, b: seq<Byte>)
    requires NEWLINE !in a
    ensures CompleteLines(b) == [] ==> CompleteLines(a + b) == []
    ensures CompleteLines(b) != [] ==> CompleteLines(a + b) == [a + CompleteLines(b)[0]] + CompleteLines(b)[1..]
    ensures CompleteLines(b) != [] ==> Terminated(CompleteLines(b)[0]) && CompleteLines(b)[0] == NextChunk(b)
  {
    hide NextChunk;
    NoNewlineChunk(a);
    NextChunkExtends(a, b);
    var c := NextChunk(b);
    assert (a + b)[|a + c|..] == b[|c|..];
    if a != [] {
      assert a[|a| - 1] in a;
    } else {
      assert a + c == c;
    }
    if c != [] {
      assert (a + c)[|a + c| - 1] == c[|c| - 1];
    }
  }
}

/** `text::read_line` over a `BufRead` whose fills may be short, interrupted or fail. */
module LineReaders {
  import opened Utf8
  import opened Lines

  /** One answer of the underlying `read` call. */
  datatype Fill = Interrupted | Failed | Data(size: nat)

  datatype FillResult = Available(bytes: seq<Byte>) | Retry | Error

  datatype ReadResult = Ok(count: nat) | Err

  class LineReader {
    var buffered: seq<Byte>
    var source: seq<Byte>
    /** The answers still to come; when none is left a fill returns all there is. */
    var fills: seq<Fill>

    constructor (contents: seq<Byte>, script: seq<Fill>)
      ensures Contents() == contents && fills == script
    {
      buffered, source, fills := [], contents, script;
    }

    /** What has not been consumed yet. */
    ghost function Contents(): seq<Byte>
      reads this
    {
      buffered + source
    }

    /** `BufRead::fill_buf`: the buffer if it holds anything, else one read, which returns
        no bytes only at the end of the source. */
    method FillBuf() returns (r: FillResult)
      modifies this
      ensures Contents() == old(Contents())
      ensures Failed in fills ==> Failed in old(fills)
      ensures |fills| <= |old(fills)|
      ensures r.Available? ==> r.bytes == buffered && (buffered == [] ==> Contents() == [])
      ensures r.Retry? || r.Error? ==> |fills| < |old(fills)|
      ensures r.Error? ==> Failed in old(fills)
    {
      if buffered != [] {
        return Available(buffered);
      }
      var size := |source|;
      if fills != [] {
        var f := fills[0];
        fills := fills[1..];
        match f {
          case Interrupted => return Retry;
          case Failed => return Error;
          case Data(n) => if 1 <= n < size { size := n; }
        }
      }
      buffered, source := source[..size], source[size..];
      assert buffered + source == old(source);
      return Available(buffered);
    }

    /** One turn of the loop: fill, search for a newline, consume through it. */
    method Pull() returns (f: FillResult, done: bool, used: seq<Byte>)
      modifies this
      ensures old(Contents()) == used + Contents()
      ensures Failed in fills ==> Failed in old(fills)
      ensures |fills| <= |old(fills)|
      ensures !f.Available? ==> !done && used == [] && |fills| < |old(fills)|
      ensures f.Error? ==> Failed in old(fills)
      ensures f.Available? && !done ==> used != [] && NEWLINE !in used
      ensures f.Available? && done ==>
                (used == [] && Contents() == []) || (Terminated(used) && NEWLINE !in used[..|used| - 1])
    {
      f := FillBuf();
      done, used := false, [];
      if f.Available? {
        var i := Find(f.bytes);
        if i < |f.bytes| {
          done, used := true, f.bytes[..i + 1];
          assert used[..|used| - 1] == f.bytes[..i];
        } else {
          done, used := f.bytes == [], f.bytes;
          assert f.bytes[..i] == f.bytes;
        }
        buffered := buffered[|used|..];
        assert f.bytes == used + buffered;
      }
    }

    /** Appends exactly the next chunk whatever the sizes of the fills; after an error the
        bytes already consumed stay appended, and they hold no newline. */
    method ReadLine(buf: seq<Byte>) returns (r: ReadResult, out: seq<Byte>, ghost taken: seq<Byte>)
      modifies this
      ensures out == buf + taken && old(Contents()) == taken + Contents()
      ensures r.Ok? ==> taken == NextChunk(old(Contents())) && r.count == |taken|
      ensures r.Err? ==> NEWLINE !in taken && Failed in old(fills)
      ensures Failed in fills ==> Failed in old(fills)
    {
      hide NextChunk;
      var read := 0;
      taken := [];
      out := buf;
      while true
        invariant old(Contents()) == taken + Contents()
        invariant NEWLINE !in taken && out == buf + taken && read == |taken|
        invariant Failed in fills ==> Failed in old(fills)
        decreases |fills| + |Contents()|
      {
        var f, done, used := Pull();
        if f.Error? {
          return Err, out, taken;
        }
        out, read := out + used, read + |used|;
        NextChunkOf(taken, used, Contents());
        taken := taken + used;
        if done {
          return Ok(read), out, taken;
        }
      }
    }

    /** `buf.clear()` and `read_line`, as the polling loops call them. */
    method ReadChunk() returns (ok: bool, buf: seq<Byte>)
      modifies this
      ensures ok ==> buf == NextChunk(old(Contents())) && old(Contents()) == buf + Contents()
      ensures !ok ==> Failed in old(fills)
      ensures Failed in fills ==> Failed in old(fills)
    {
      hide NextChunk;
      var r;
      ghost var taken;
      r, buf, taken := ReadLine([]);
      ok := r.Ok?;
      assert [] + taken == taken;
    }
  }

  /** The next chunk when its first newline comes after `taken`. */
  lemma ChunkAcross(taken: seq<Byte>, line: seq<Byte>, rest: seq<Byte>)
    requires NEWLINE !in taken && Terminated(line) && NEWLINE !in line[..|line| - 1]
    ensures NextChunk(taken + line + rest) == taken + line
  {
    hide NextChunk;
    var c := taken + line;
    assert c[..|c| - 1] == taken + line[..|line| - 1];
    ChunkIsLine(c);
    NextChunkExtends(c, rest);
  }

  lemma NextChunkOf(taken: seq<Byte>, used: seq<Byte>, rest: seq<Byte>)
    requires NEWLINE !in taken
    ensures taken + used + rest == taken + (used + rest)
    ensures (used == [] && rest == []) || (Terminated(used) && NEWLINE !in used[..|used| - 1])
            ==> NextChunk(taken + (used + rest)) == taken + used
  {
    hide NextChunk;
    assert taken + used + rest == taken + (used + rest);
    if used == [] && rest == [] {
      NoNewlineChunk(taken);
      assert taken + used + rest == taken;
    } else if Terminated(used) && NEWLINE !in used[..|used| - 1] {
      ChunkAcross(taken, used, rest);
    }
  }

  /** `memchr` for a newline: its first index, or the length. */
  method Find(b: seq<Byte>) returns (i: nat)
    ensures i <= |b| && NEWLINE !in b[..i] && (i < |b| ==> b[i] == NEWLINE)
  {
    i := 0;
    while i < |b| && b[i] != NEWLINE
      invariant i <= |b| && NEWLINE !in b[..i]
    {
      i := i + 1;
    }
  }
}
