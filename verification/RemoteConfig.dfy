/** The remote-config poller: conditional GETs, a content-hash guard, an atomic rewrite of the
    on-disk config, and the reload it triggers. */
module RemoteConfig {
  import opened Options
  import opened Utf8

  /** Seconds. */
  const BACKOFF_CAP: nat := 1800

  // ---------------------------------------------------------------- hash

  const FNV_OFFSET: bv64 := 0xcbf29ce484222325

  predicate Odd(n: nat) { n % 2 == 1 }

  function Pack(b7: bool, b6: bool, b5: bool, b4: bool, b3: bool, b2: bool, b1: bool, b0: bool): bv64 {
    (if b7 then 128 else 0) | (if b6 then 64 else 0) | (if b5 then 32 else 0) | (if b4 then 16 else 0)
    | (if b3 then 8 else 0) | (if b2 then 4 else 0) | (if b1 then 2 else 0) | (if b0 then 1 else 0)
  }

  /** A byte as a 64-bit word. */
  function Word(b: Byte): bv64 {
    var (h1, h2, h3, h4, h5, h6, h7) := Halves(b);
    Pack(Odd(h7), Odd(h6), Odd(h5), Odd(h4), Odd(h3), Odd(h2), Odd(h1), Odd(b))
  }

  /** The byte halved one to seven times. */
  function Halves(b: Byte): (nat, nat, nat, nat, nat, nat, nat) {
    var h1 := b / 2;
    var h2 := h1 / 2;
    var h3 := h2 / 2;
    var h4 := h3 / 2;
    var h5 := h4 / 2;
    var h6 := h5 / 2;
    (h1, h2, h3, h4, h5, h6, h6 / 2)
  }

  /** `wrapping_mul` by the 64-bit FNV prime. */
  function Times(x: bv64): bv64 { x * 0x100000001b3 }

  /** One round of 64-bit FNV-1a. */
  function Mix(hash: bv64, b: Byte): bv64 { Times(hash ^ Word(b)) }

  function Hash(bytes: seq<Byte>): bv64 {
    if bytes == [] then FNV_OFFSET else Mix(Hash(bytes[..|bytes| - 1]), bytes[|bytes| - 1])
  }

  /** `config_hash`, before it is printed in hexadecimal. */
  method ConfigHash(bytes: seq<Byte>) returns (hash: bv64)
    ensures hash == Hash(bytes)
  {
    hide Mix;
    hash := FNV_OFFSET;
    for i := 0 to |bytes|
      invariant hash == Hash(bytes[..i])
    {
      HashSnoc(bytes, i);
      hash := Mix(hash, bytes[i]);
    }
    assert bytes[..|bytes|] == bytes;
  }

  lemma HashSnoc(bytes: seq<Byte>, i: nat)
    requires i < |bytes|
    ensures Hash(bytes[..i + 1]) == Mix(Hash(bytes[..i]), bytes[i])
  {
    hide Mix;
    assert bytes[..i + 1][..i] == bytes[..i];
  }

  /** The prime is odd, so a round loses nothing: multiplying by its inverse modulo 2 to the 64
      undoes it. */
  function Undo(y: bv64): bv64 { y * 0xce965057aff6957b }

  lemma ProductUndone(x: bv64)
    ensures (x * 0x100000001b3) * 0xce965057aff6957b == x
  {
  }

  lemma TimesIs(x: bv64)
    ensures Times(x) == x * 0x100000001b3
  {
  }

  lemma UndoIs(x: bv64)
    ensures Undo(x * 0x100000001b3) == (x * 0x100000001b3) * 0xce965057aff6957b
  {
  }

  lemma TimesUndone(x: bv64)
    ensures Undo(Times(x)) == x
  {
    hide Times, Undo;
    TimesIs(x);
    UndoIs(x);
    ProductUndone(x);
  }

  lemma TimesInjective(x: bv64, y: bv64)
    requires Times(x) == Times(y)
    ensures x == y
  {
    hide Times, Undo;
    TimesUndone(x);
    TimesUndone(y);
  }

  lemma XorInjective(g: bv64, h: bv64, x: bv64)
    ensures g ^ x == h ^ x ==> g == h
    ensures x ^ g == x ^ h ==> g == h
  {
  }

  lemma PackInjective(
    a7: bool, a6: bool, a5: bool, a4: bool, a3: bool, a2: bool, a1: bool, a0: bool,
    b7: bool, b6: bool, b5: bool, b4: bool, b3: bool, b2: bool, b1: bool, b0: bool)
    requires Pack(a7, a6, a5, a4, a3, a2, a1, a0) == Pack(b7, b6, b5, b4, b3, b2, b1, b0)
    ensures a7 == b7 && a6 == b6 && a5 == b5 && a4 == b4 && a3 == b3 && a2 == b2 && a1 == b1 && a0 == b0
  {
  }

  lemma WordBits(b: Byte, c: Byte)
    requires Word(b) == Word(c)
    ensures var (g1, g2, g3, g4, g5, g6, g7) := Halves(b);
            var (h1, h2, h3, h4, h5, h6, h7) := Halves(c);
            && Odd(b) == Odd(c) && Odd(g1) == Odd(h1) && Odd(g2) == Odd(h2) && Odd(g3) == Odd(h3)
            && Odd(g4) == Odd(h4) && Odd(g5) == Odd(h5) && Odd(g6) == Odd(h6) && Odd(g7) == Odd(h7)
  {
    hide Pack, Odd, Halves;
    var (g1, g2, g3, g4, g5, g6, g7) := Halves(b);
    var (h1, h2, h3, h4, h5, h6, h7) := Halves(c);
    PackInjective(Odd(g7), Odd(g6), Odd(g5), Odd(g4), Odd(g3), Odd(g2), Odd(g1), Odd(b),
                  Odd(h7), Odd(h6), Odd(h5), Odd(h4), Odd(h3), Odd(h2), Odd(h1), Odd(c));
  }

  lemma Doubled(m: nat, n: nat)
    requires Odd(m) == Odd(n) && m / 2 == n / 2
    ensures m == n
  {
    assert m == m / 2 * 2 + m % 2 && n == n / 2 * 2 + n % 2;
  }

  lemma HalvesAre(b: Byte)
    ensures var (h1, h2, h3, h4, h5, h6, h7) := Halves(b);
            h1 == b / 2 && h2 == h1 / 2 && h3 == h2 / 2 && h4 == h3 / 2 && h5 == h4 / 2 && h6 == h5 / 2 && h7 == h6 / 2
            && h7 / 2 == 0
  {
  }

  lemma WordInjective(b: Byte, c: Byte)
    requires Word(b) == Word(c)
    ensures b == c
  {
    hide Word, Halves, Odd;
    WordBits(b, c);
    HalvesAre(b);
    HalvesAre(c);
    var (g1, g2, g3, g4, g5, g6, g7) := Halves(b);
    var (h1, h2, h3, h4, h5, h6, h7) := Halves(c);
    Doubled(g7, h7);
    Doubled(g6, h6);
    Doubled(g5, h5);
    Doubled(g4, h4);
    Doubled(g3, h3);
    Doubled(g2, h2);
    Doubled(g1, h1);
    Doubled(b, c);
  }

  /** A round tells two states apart, and two bytes. */
  lemma MixStates(g: bv64, h: bv64, b: Byte)
    requires Mix(g, b) == Mix(h, b)
    ensures g == h
  {
    hide Word, Times;
    TimesInjective(g ^ Word(b), h ^ Word(b));
    XorInjective(g, h, Word(b));
  }

  lemma MixBytes(g: bv64, b: Byte, c: Byte)
    requires Mix(g, b) == Mix(g, c)
    ensures b == c
  {
    hide Word, Times;
    TimesInjective(g ^ Word(b), g ^ Word(c));
    XorInjective(Word(b), Word(c), g);
    WordInjective(b, c);
  }

  lemma PackA()
    ensures Pack(false, true, true, false, false, false, false, true) == 0x61
  {
  }

  lemma LetterA()
    ensures Word(0x61) == 0x61
  {
    hide Pack;
    assert Halves(0x61) == (48, 24, 12, 6, 3, 1, 0);
    PackA();
  }

  lemma OneRound()
    ensures Times(0xcbf29ce484222325 ^ 0x61) == 0xaf63dc4c8601ec8c
  {
  }

  /** The published digests of the empty text and of "a". */
  lemma KnownDigest()
    ensures Hash([]) == 0xcbf29ce484222325 && Hash([0x61]) == 0xaf63dc4c8601ec8c
  {
    hide Word, Times;
    LetterA();
    OneRound();
    assert [0x61 as Byte][..0] == [];
  }

  /** Two texts that differ in one byte have different digests, so such a change is never taken
      for the applied config. */
  lemma {:induction false} OneByteSeen(before: seq<Byte>, b: Byte, c: Byte, after: seq<Byte>)
    requires b != c
    ensures Hash(before + [b] + after) != Hash(before + [c] + after)
    decreases |after|
  {
    hide Mix;
    var x, y := before + [b] + after, before + [c] + after;
    if after == [] {
      assert x[..|x| - 1] == before && y[..|y| - 1] == before;
      if Hash(x) == Hash(y) { MixBytes(Hash(before), b, c); }
    } else {
      var n := |after| - 1;
      OneByteSeen(before, b, c, after[..n]);
      assert x[..|x| - 1] == before + [b] + after[..n] && y[..|y| - 1] == before + [c] + after[..n];
      if Hash(x) == Hash(y) { MixStates(Hash(x[..|x| - 1]), Hash(y[..|y| - 1]), after[n]); }
    }
  }

  // ---------------------------------------------------------------- classification

  datatype Response = Response(status: nat, etag: Option<string>, body: seq<Byte>)

  datatype Outcome =
    | NotModified
    | Unchanged(etag: Option<string>)
    | Changed(body: string)
    | Invalid
    | FetchFailed

  predicate AsciiBlank(b: seq<Byte>) {
    forall i :: 0 <= i < |b| ==> b[i] == 0x20 || b[i] == 0x09 || b[i] == 0x0A || b[i] == 0x0C || b[i] == 0x0D
  }

  /** `classify_response`; `parses` is `parse_config`. */
  function Classify(resp: Response, applied: bv64, parses: string -> bool): Outcome {
    if resp.status == 304 then NotModified
    else if resp.status != 200 then FetchFailed
    else if AsciiBlank(resp.body) then FetchFailed
    else
      var body := Lossy(resp.body);
      if !parses(body) then Invalid
      else if Hash(Encode(body)) == applied then Unchanged(resp.etag)
      else Changed(body)
  }

  lemma ChangedMeans(resp: Response, applied: bv64, parses: string -> bool)
    ensures Classify(resp, applied, parses).Changed? <==>
              resp.status == 200 && !AsciiBlank(resp.body) && parses(Lossy(resp.body))
              && Hash(Encode(Lossy(resp.body))) != applied
    ensures Classify(resp, applied, parses).Changed? ==> Classify(resp, applied, parses).body == Lossy(resp.body)
  {
  }

  /** `classify_response`, with the digest computed by the loop above. */
  method ClassifyResponse(resp: Response, applied: bv64, parses: string -> bool) returns (o: Outcome)
    ensures o == Classify(resp, applied, parses)
  {
    hide Hash, Lossy, Encode;
    if resp.status == 304 {
      return NotModified;
    }
    if resp.status != 200 {
      return FetchFailed;
    }
    for i := 0 to |resp.body|
      invariant AsciiBlank(resp.body[..i])
    {
      assert resp.body[..i + 1] == resp.body[..i] + [resp.body[i]];
      if !AsciiBlank([resp.body[i]]) {
        assert [resp.body[i]][0] == resp.body[i];
        var body := Lossy(resp.body);
        if !parses(body) {
          return Invalid;
        }
        var hash := ConfigHash(Encode(body));
        return if hash == applied then Unchanged(resp.etag) else Changed(body);
      }
      assert AsciiBlank(resp.body[..i + 1]);
    }
    assert resp.body[..|resp.body|] == resp.body;
    return FetchFailed;
  }

  function NextBackoff(delay: nat): nat { if delay * 2 <= BACKOFF_CAP then delay * 2 else BACKOFF_CAP }

  // ---------------------------------------------------------------- the poller loop

  /** The config file, its temporary sibling, and the reload signals sent. */
  class Disk {
    var config: seq<Byte>
    var tmp: Option<seq<Byte>>
    var signals: nat

    constructor (initial: seq<Byte>)
      ensures config == initial && tmp == None && signals == 0
    {
      config, tmp, signals := initial, None, 0;
    }

    /** `write_config_atomic`: the steps before the rename may fail and leave the live file
        alone; `ok` says whether they all succeed. */
    method WriteAtomic(bytes: seq<Byte>, ok: bool) returns (done: bool)
      modifies this
      ensures done == ok && config == (if ok then bytes else old(config)) && signals == old(signals)
    {
      tmp := Some(bytes);
      if !ok { return false; }
      config, tmp := bytes, None;
      return true;
    }
  }

  /** What one turn of the loop meets: cancellation, a missing `curl`, a failed fetch, or a
      response, with the fate of a write. */
  datatype Input = Cancel | CurlMissing | Failed | Got(response: Response, writeOk: bool)

  /** A response that carries a config `parse_config` accepts. */
  predicate Valid(r: Response, parses: string -> bool) {
    r.status == 200 && !AsciiBlank(r.body) && parses(Lossy(r.body))
  }

  /** Whether this input makes the poller write a new config and signal. */
  predicate Applies(input: Input, applied: bv64, parses: string -> bool) {
    && input.Got? && input.writeOk && Valid(input.response, parses)
    && Hash(Encode(Lossy(input.response.body))) != applied
  }

  predicate Ends(input: Input, applied: bv64, parses: string -> bool) {
    input.Cancel? || input.CurlMissing? || Applies(input, applied, parses)
  }

  /** A fetch that failed: no response, another status than 200 or 304, or an empty body. */
  predicate Fails(input: Input) {
    || input.Failed?
    || (input.Got? && input.response.status != 304 && (input.response.status != 200 || AsciiBlank(input.response.body)))
  }

  /** The wait after these turns: doubled up to the cap by every failure in a row. */
  function Delay(interval: nat, inputs: seq<Input>): nat {
    if inputs == [] then interval
    else
      var n := |inputs| - 1;
      if Fails(inputs[n]) then NextBackoff(Delay(interval, inputs[..n])) else interval
  }

  /** The entity tag a conditional request carries: that of the last response that had one and
      whose body is the applied config. */
  function Etag(inputs: seq<Input>, applied: bv64, parses: string -> bool): Option<string> {
    if inputs == [] then None
    else
      var n := |inputs| - 1;
      if Confirms(inputs[n], applied, parses) && inputs[n].response.etag.Some? then inputs[n].response.etag
      else Etag(inputs[..n], applied, parses)
  }

  predicate Confirms(input: Input, applied: bv64, parses: string -> bool) {
    input.Got? && Valid(input.response, parses) && Hash(Encode(Lossy(input.response.body))) == applied
  }

  /** What each outcome of a response means. */
  lemma OutcomeMeans(r: Response, writeOk: bool, applied: bv64, parses: string -> bool)
    ensures var o, input := Classify(r, applied, parses), Got(r, writeOk);
            && (o.FetchFailed? <==> Fails(input))
            && (o.Unchanged? <==> Confirms(input, applied, parses)) && (o.Unchanged? ==> o.etag == r.etag)
            && (o.Changed? && writeOk <==> Applies(input, applied, parses))
            && (o.Changed? ==> o.body == Lossy(r.body) && parses(o.body) && Hash(Encode(o.body)) != applied)
  {
    hide Hash, Lossy, Encode, AsciiBlank;
  }

  function Pow2(n: nat): nat { if n == 0 then 1 else 2 * Pow2(n - 1) }

  /** The wait after `f` failures in a row: twice as long each time, up to the cap. */
  lemma {:induction false} DelayDoubles(interval: nat, inputs: seq<Input>, f: nat)
    requires f <= |inputs| && (forall i :: |inputs| - f <= i < |inputs| ==> Fails(inputs[i]))
    requires f == |inputs| || !Fails(inputs[|inputs| - f - 1])
    ensures Delay(interval, inputs)
            == if f == 0 || interval * Pow2(f) <= BACKOFF_CAP then interval * Pow2(f) else BACKOFF_CAP
    decreases f
  {
    hide Fails, Pow2;
    if f > 0 {
      var p := inputs[..|inputs| - 1];
      assert forall i :: 0 <= i < |p| ==> p[i] == inputs[i];
      DelayDoubles(interval, p, f - 1);
      Twice(interval, f);
    } else {
      Once(interval);
    }
  }

  lemma Twice(interval: nat, f: nat)
    requires f > 0
    ensures interval * Pow2(f) == 2 * (interval * Pow2(f - 1))
  {
  }

  lemma Once(interval: nat)
    ensures interval * Pow2(0) == interval
  {
  }

  /** Every wait lies between the interval and the cap. */
  lemma {:induction false} DelayBounded(interval: nat, inputs: seq<Input>)
    requires interval > 0
    ensures var d := Delay(interval, inputs);
            d > 0 && (interval <= d <= BACKOFF_CAP || BACKOFF_CAP <= d <= interval)
  {
    hide Fails;
    if inputs != [] {
      DelayBounded(interval, inputs[..|inputs| - 1]);
    }
  }

  lemma NoTurns(interval: nat, applied: bv64, parses: string -> bool)
    ensures Delay(interval, []) == interval && Etag([], applied, parses) == None
  {
  }

  /** What one turn does to the wait and to the entity tag. */
  lemma TurnIs(interval: nat, inputs: seq<Input>, i: nat, applied: bv64, parses: string -> bool)
    requires i < |inputs|
    ensures Delay(interval, inputs[..i + 1])
            == if Fails(inputs[i]) then NextBackoff(Delay(interval, inputs[..i])) else interval
    ensures Etag(inputs[..i + 1], applied, parses)
            == if Confirms(inputs[i], applied, parses) && inputs[i].response.etag.Some? then inputs[i].response.etag
               else Etag(inputs[..i], applied, parses)
  {
    hide Fails, NextBackoff, Confirms;
    assert inputs[..i + 1][..i] == inputs[..i];
    ConfirmsGot(inputs[i], applied, parses);
  }

  lemma ConfirmsGot(input: Input, applied: bv64, parses: string -> bool)
    ensures Confirms(input, applied, parses) ==> input.Got?
  {
  }

  /** `run_poller`: one turn per input until one ends it. It signals only after a new and
      valid config is in place, and until then the file is untouched. */
  method RunPoller(
    disk: Disk, interval: nat, https: bool, applied: bv64, parses: string -> bool, inputs: seq<Input>)
    returns (signalled: bool, delays: seq<nat>, asked: seq<Option<string>>)
    modifies disk
    ensures disk.signals == old(disk.signals) + if signalled then 1 else 0
    ensures !signalled ==> disk.config == old(disk.config)
    ensures signalled ==>
              && |delays| > 0 && |delays| <= |inputs| && inputs[|delays| - 1].Got?
              && disk.config == Encode(Lossy(inputs[|delays| - 1].response.body))
              && parses(Lossy(inputs[|delays| - 1].response.body)) && Hash(disk.config) != applied
    ensures !https || interval == 0 ==> !signalled && delays == [] && asked == []
    ensures https && interval > 0 ==>
              && |delays| <= |inputs| && |delays| - 1 <= |asked| <= |delays|
              && (forall i :: 0 <= i < |delays| - 1 ==> !Ends(inputs[i], applied, parses))
              && (|delays| < |inputs| ==> |delays| > 0 && Ends(inputs[|delays| - 1], applied, parses))
              && (signalled <==> |delays| > 0 && Applies(inputs[|delays| - 1], applied, parses))
              && (forall i :: 0 <= i < |delays| ==> delays[i] == Delay(interval, inputs[..i]))
              && (forall i :: 0 <= i < |asked| ==> asked[i] == Etag(inputs[..i], applied, parses))
  {
    hide Classify, Hash, Lossy, Encode, Delay, Etag, Valid, AsciiBlank;
    NoTurns(interval, applied, parses);
    signalled, delays, asked := false, [], [];
    if !https || interval == 0 {
      return;
    }
    var delay := interval;
    var etag: Option<string> := None;
    for i := 0 to |inputs|
      invariant !signalled && disk.config == old(disk.config) && disk.signals == old(disk.signals)
      invariant |delays| == |asked| == i
      invariant delay == Delay(interval, inputs[..i]) && etag == Etag(inputs[..i], applied, parses)
      invariant forall k :: 0 <= k < i ==> !Ends(inputs[k], applied, parses)
      invariant forall k :: 0 <= k < i ==> delays[k] == Delay(interval, inputs[..k])
      invariant forall k :: 0 <= k < i ==> asked[k] == Etag(inputs[..k], applied, parses)
    {
      TurnIs(interval, inputs, i, applied, parses);
      delays := delays + [delay];
      if inputs[i].Cancel? {
        return;
      }
      asked := asked + [etag];
      match inputs[i] {
        case CurlMissing => return;
        case Failed => delay := NextBackoff(delay);
        case Got(response, writeOk) =>
          OutcomeMeans(response, writeOk, applied, parses);
          var o := ClassifyResponse(response, applied, parses);
          match o {
            case NotModified => delay := interval;
            case Unchanged(tag) =>
              if tag.Some? { etag := tag; }
              delay := interval;
            case Invalid => delay := interval;
            case FetchFailed => delay := NextBackoff(delay);
            case Changed(body) =>
              var done := disk.WriteAtomic(Encode(body), writeOk);
              if done {
                disk.signals := disk.signals + 1;
                signalled := true;
                return;
              }
              delay := interval;
          }
      }
    }
  }

  // ---------------------------------------------------------------- whole runs

  /** The agent with its file. `writing` is a rewrite in progress; `pending` a reload signal
      not yet acted on; `started` counts the pollers, and `signals` lists which poller sent
      each reload signal. */
  datatype World = World(
    config: seq<Byte>, tmp: seq<Byte>, writing: Option<seq<Byte>>, running: bool, applied: bv64, pending: bool,
    started: nat, signals: seq<nat>)

  datatype Event =
    | Poll(response: Response)
    | WriteTo(n: nat)      // the temporary file holds the first `n` bytes
    | Rename               // the last step of the write; then the signal
    | WriteFails
    | Reload               // the outer loop re-reads the file and starts a new poller
    | Crash                // at any point; the agent starts again from the file

  function Begin(config: seq<Byte>): World { World(config, [], None, true, Hash(config), false, 1, []) }

  /** A poller for the config now on disk. */
  function Respawn(w: World): World {
    w.(writing := None, running := true, applied := Hash(w.config), pending := false, started := w.started + 1)
  }

  function Next(w: World, e: Event, parses: string -> bool): World {
    match e
    case Poll(response) =>
      if !w.running || w.writing.Some? then w
      else
        (match Classify(response, w.applied, parses)
         case Changed(body) => w.(writing := Some(Encode(body)), tmp := [])
         case _ => w)
    case WriteTo(n) =>
      if w.writing.Some? && n <= |w.writing.value| then w.(tmp := w.writing.value[..n]) else w
    case Rename =>
      if w.writing.Some? && w.tmp == w.writing.value
      then w.(config := w.tmp, tmp := [], writing := None, running := false, pending := true,
              signals := w.signals + [w.started])
      else w
    case WriteFails => w.(writing := None)
    case Reload => if w.pending then Respawn(w) else w
    case Crash => Respawn(w)
  }

  function Run(config: seq<Byte>, events: seq<Event>, parses: string -> bool): World {
    if events == [] then Begin(config)
    else Next(Run(config, events[..|events| - 1], parses), events[|events| - 1], parses)
  }

  /** Bytes that hold a config `parse_config` accepts. */
  ghost predicate Accepted(bytes: seq<Byte>, parses: string -> bool) {
    Whole(bytes) && parses(Lossy(bytes))
  }

  /** No poller signals twice, and a running one has not signalled. */
  predicate OncePerPoller(w: World) {
    && (forall i, j :: 0 <= i < j < |w.signals| ==> w.signals[i] < w.signals[j])
    && (forall i :: 0 <= i < |w.signals| ==> w.signals[i] < w.started + (if w.running then 0 else 1))
  }

  ghost predicate Inv(w: World, initial: seq<Byte>, parses: string -> bool) {
    && (w.config == initial || Accepted(w.config, parses))
    && (w.writing.Some? ==> Accepted(w.writing.value, parses) && w.running && Hash(w.writing.value) != w.applied)
    && (w.running ==> w.applied == Hash(w.config))
    && OncePerPoller(w)
  }

  lemma NextKeeps(w: World, e: Event, initial: seq<Byte>, parses: string -> bool)
    requires Inv(w, initial, parses)
    ensures Inv(Next(w, e, parses), initial, parses)
  {
    hide Classify, Hash, Whole;
    if e.Poll? {
      ChangedMeans(e.response, w.applied, parses);
      var body := Lossy(e.response.body);
      WholeEncode(body);
      LossyEncode(body);
    }
  }

  lemma {:induction false} RunKeeps(config: seq<Byte>, events: seq<Event>, parses: string -> bool)
    ensures Inv(Run(config, events, parses), config, parses)
  {
    if events != [] {
      hide Inv, Next;
      RunKeeps(config, events[..|events| - 1], parses);
      NextKeeps(Run(config, events[..|events| - 1], parses), events[|events| - 1], config, parses);
    }
  }

  /** At every step, also right after a crash inside the write, the file on disk is the initial
      one or a whole config that `parse_config` accepts; and no poller signals twice. */
  lemma AlwaysValid(config: seq<Byte>, events: seq<Event>, parses: string -> bool)
    ensures var w := Run(config, events, parses);
            && (w.config == config || (Whole(w.config) && parses(Lossy(w.config))))
            && (w.running ==> w.applied == Hash(w.config))
            && (forall i, j :: 0 <= i < j < |w.signals| ==> w.signals[i] != w.signals[j])
            && (w.running ==> w.started !in w.signals)
  {
    hide Run, Hash, Whole;
    RunKeeps(config, events, parses);
  }

  /** Every success of the server carries this body. */
  predicate OneBody(events: seq<Event>, body: seq<Byte>) {
    forall i :: 0 <= i < |events| && events[i].Poll? && events[i].response.status == 200 ==> events[i].response.body == body
  }

  ghost predicate OnceInv(w: World, initial: seq<Byte>, body: seq<Byte>, parses: string -> bool) {
    && Inv(w, initial, parses)
    && (w.writing.Some? ==> w.writing.value == Encode(Lossy(body)))
    && |w.signals| <= 1
    && (|w.signals| == 1 ==> w.config == Encode(Lossy(body)))
  }

  lemma NextOnce(w: World, e: Event, initial: seq<Byte>, body: seq<Byte>, parses: string -> bool)
    requires OnceInv(w, initial, body, parses)
    requires e.Poll? && e.response.status == 200 ==> e.response.body == body
    ensures OnceInv(Next(w, e, parses), initial, body, parses)
  {
    hide Classify, Hash, Whole, Lossy, Encode, Accepted;
    NextKeeps(w, e, initial, parses);
    if e.Poll? { ChangedMeans(e.response, w.applied, parses); }
  }

  /** Loop freedom: a server that keeps returning one body causes at most one reload ever, also
      across restarts and crashes, and whether or not it honours conditional requests. */
  lemma {:induction false} OneReload(config: seq<Byte>, events: seq<Event>, body: seq<Byte>, parses: string -> bool)
    requires OneBody(events, body)
    ensures OnceInv(Run(config, events, parses), config, body, parses)
    ensures |Run(config, events, parses).signals| <= 1
  {
    hide Next, Inv;
    if events == [] {
      RunKeeps(config, [], parses);
    } else {
      var p, e := events[..|events| - 1], events[|events| - 1];
      OneReload(config, p, body, parses);
      NextOnce(Run(config, p, parses), e, config, body, parses);
    }
  }
}
