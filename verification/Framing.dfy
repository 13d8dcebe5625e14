/** The wire framing of the hub socket: every message is a four-byte big-endian
    length followed by that many bytes. `HubConnection` holds the three pieces of
    code that touch it (the sender, the exact reader used during authentication,
    and the event loop's incremental decoder over an accumulating buffer).

    Validity of UTF-8 is a parameter: no proof here depends on what it is. */
module Framing {
  type byte = x: int | 0 <= x < 256
  type Payload = seq<byte>
  type Utf8 = Payload -> bool

  const MAX_MESSAGE: nat := 1_048_576
  const READ_BUFFER: nat := 65_536
  const TWO_32: nat := 0x1_0000_0000

  // ----- Frames -----

  function Pow256(k: nat): nat {
    if k == 0 then 1 else 256 * Pow256(k - 1)
  }

  /** The k low bytes of n, most significant first. */
  function ToBytes(n: nat, k: nat): (b: seq<byte>)
    ensures |b| == k
  {
    if k == 0 then [] else ToBytes(n / 256, k - 1) + [n % 256]
  }

  function FromBytes(b: seq<byte>): nat {
    if b == [] then 0 else FromBytes(b[..|b| - 1]) * 256 + b[|b| - 1] as int
  }

  lemma {:induction false} NumberRoundTrip(n: nat, k: nat)
    requires n < Pow256(k)
    ensures FromBytes(ToBytes(n, k)) == n
  {
    if k > 0 {
      NumberRoundTrip(n / 256, k - 1);
      assert ToBytes(n, k)[..k - 1] == ToBytes(n / 256, k - 1);
    }
  }

  lemma {:induction false} BytesRoundTrip(b: seq<byte>)
    ensures ToBytes(FromBytes(b), |b|) == b && FromBytes(b) < Pow256(|b|)
  {
    if b != [] {
      BytesRoundTrip(b[..|b| - 1]);
    }
  }

  lemma FourBytes()
    ensures Pow256(4) == TWO_32
  {
    assert Pow256(2) == 0x1_0000 && Pow256(3) == 256 * Pow256(2);
  }

  function Header(n: nat): (h: seq<byte>)
    ensures |h| == 4
  {
    ToBytes(n, 4)
  }

  /** The four bytes of a header, the most significant first. */
  lemma HeaderIsBigEndian(n: nat)
    requires n < 0x1_0000_0000
    ensures Header(n) == [n / 0x100_0000, n / 0x1_0000 % 256, n / 256 % 256, n % 256]
  {
    assert ToBytes(n / 0x100_0000, 1) == [n / 0x100_0000];
    assert ToBytes(n / 0x1_0000, 2) == [n / 0x100_0000, n / 0x1_0000 % 256];
    assert ToBytes(n / 256, 3) == [n / 0x100_0000, n / 0x1_0000 % 256, n / 256 % 256];
  }

  function Length(s: seq<byte>): nat
    requires |s| >= 4
  {
    FromBytes(s[..4])
  }

  /** What the sender writes: the length is cast to 32 bits. */
  function Encode(p: Payload): seq<byte> {
    Header(Cast32(|p|)) + p
  }

  function Cast32(n: nat): (r: nat)
    ensures r < TWO_32 && (n < TWO_32 ==> r == n)
  {
    n % TWO_32
  }

  function EncodeAll(ps: seq<Payload>): seq<byte> {
    if ps == [] then [] else Encode(ps[0]) + EncodeAll(ps[1..])
  }

  lemma FirstFrame(p: Payload, tail: seq<byte>)
    requires |p| < TWO_32
    ensures var s := Encode(p) + tail;
            |s| >= 4 + |p| && Length(s) == |p| && s[4..4 + |p|] == p && s[4 + |p|..] == tail
  {
    var h := Header(|p|);
    HeaderReadsBack(|p|);
    ThreeParts(h, p, tail);
  }

  lemma HeaderReadsBack(n: nat)
    requires n < TWO_32
    ensures FromBytes(Header(n)) == n
  {
    FourBytes();
    NumberRoundTrip(n, 4);
  }

  /** A length that does not fit 32 bits is announced modulo 2^32. */
  lemma LengthWraps(p: Payload, tail: seq<byte>)
    ensures Length(Encode(p) + tail) == |p| % 0x1_0000_0000
  {
    var n := |p| % 0x1_0000_0000;
    HeaderReadsBack(n);
    assert (Encode(p) + tail)[..4] == Header(n);
  }

  lemma ThreeParts(h: seq<byte>, p: Payload, tail: seq<byte>)
    ensures var s, n := h + p + tail, |h| + |p|;
            s[..|h|] == h && s[|h|..n] == p && s[n..] == tail
  {
  }

  lemma SplitFrame(s: seq<byte>)
    requires |s| >= 4 && |s| >= 4 + Length(s)
    ensures s == Encode(s[4..4 + Length(s)]) + s[4 + Length(s)..]
  {
    FourBytes();
    BytesRoundTrip(s[..4]);
    var n := 4 + Length(s);
    assert s == s[..4] + s[4..n] + s[n..];
  }

  // ----- One pass over a whole stream -----

  /** `messages` are handed on, `rest` is what no complete frame covers, and
      `failed` says that `rest` starts with a length over the limit. */
  datatype Parsed = Parsed(messages: seq<Payload>, rest: seq<byte>, failed: bool)

  predicate Oversize(s: seq<byte>) {
    |s| >= 4 && Length(s) > MAX_MESSAGE
  }

  /** No complete frame at the front: a strict prefix of one, or an oversize header. */
  predicate Stuck(s: seq<byte>) {
    |s| < 4 || Oversize(s) || |s| < 4 + Length(s)
  }

  function Valid(utf8: Utf8, p: Payload): seq<Payload> {
    if utf8(p) then [p] else []
  }

  function Parse(utf8: Utf8, s: seq<byte>): Parsed
    decreases |s|
  {
    if Stuck(s) then Parsed([], s, Oversize(s)) else
      var n := 4 + Length(s);
      var tail := Parse(utf8, s[n..]);
      Parsed(Valid(utf8, s[4..n]) + tail.messages, tail.rest, tail.failed)
  }

  function AllValid(utf8: Utf8, ps: seq<Payload>): seq<Payload> {
    if ps == [] then [] else Valid(utf8, ps[0]) + AllValid(utf8, ps[1..])
  }

  predicate Fit(ps: seq<Payload>) {
    forall p | p in ps :: |p| <= 1_048_576
  }

  lemma ParseFrame(utf8: Utf8, p: Payload, tail: seq<byte>)
    requires |p| <= MAX_MESSAGE
    ensures var t := Parse(utf8, tail);
            Parse(utf8, Encode(p) + tail) == Parsed(Valid(utf8, p) + t.messages, t.rest, t.failed)
  {
    FirstFrame(p, tail);
  }

  /** Whatever frames precede a stuck suffix are found, each once and in order; a
      frame that is not UTF-8 is dropped without losing the next one. */
  lemma {:induction false} ParseFindsFrames(utf8: Utf8, ps: seq<Payload>, rest: seq<byte>)
    requires Fit(ps) && Stuck(rest)
    ensures Parse(utf8, EncodeAll(ps) + rest) == Parsed(AllValid(utf8, ps), rest, Oversize(rest))
  {
    if ps == [] {
      assert EncodeAll(ps) + rest == rest;
    } else {
      var p, tail := ps[0], EncodeAll(ps[1..]) + rest;
      assert p in ps;
      assert EncodeAll(ps) + rest == Encode(p) + tail;
      FirstFrame(p, tail);
      ParseFrame(utf8, p, tail);
      ParseFindsFrames(utf8, ps[1..], rest);
    }
  }

  /** Every stream is such a sequence of frames and a stuck suffix, so the previous
      lemma says what any stream parses to. */
  lemma {:induction false} EveryStreamIsFrames(s: seq<byte>) returns (ps: seq<Payload>, rest: seq<byte>)
    ensures Fit(ps) && Stuck(rest) && s == EncodeAll(ps) + rest
    decreases |s|
  {
    if Stuck(s) {
      ps, rest := [], s;
    } else {
      var n := 4 + Length(s);
      var tail;
      tail, rest := EveryStreamIsFrames(s[n..]);
      ps := [s[4..n]] + tail;
      SplitFrame(s);
      assert ps[1..] == tail;
      assert EncodeAll(ps) + rest == Encode(s[4..n]) + (EncodeAll(tail) + rest);
    }
  }

  lemma MoreBytes(a: seq<byte>, b: seq<byte>)
    requires |a| >= 4
    ensures Length(a + b) == Length(a)
    ensures !Stuck(a) ==> !Stuck(a + b) && var n := 4 + Length(a);
                          (a + b)[4..n] == a[4..n] && (a + b)[n..] == a[n..] + b
    ensures Oversize(a) ==> Oversize(a + b)
  {
    assert (a + b)[..4] == a[..4];
  }

  lemma {:induction false} ParseStopsStuck(utf8: Utf8, s: seq<byte>)
    ensures var p := Parse(utf8, s);
            Stuck(p.rest) && p.failed == Oversize(p.rest) && |p.rest| <= |s|
    decreases |s|
  {
    if !Stuck(s) {
      ParseStopsStuck(utf8, s[4 + Length(s)..]);
    }
  }

  function Then(a: Parsed, b: Parsed): Parsed {
    Parsed(a.messages + b.messages, b.rest, b.failed)
  }

  lemma ThenAssociates(m: seq<Payload>, a: Parsed, b: Parsed)
    ensures m + Then(a, b).messages == (m + a.messages) + b.messages
  {
  }

  /** Bytes that arrive later never change what was already parsed. */
  lemma {:induction false} ParseAppend(utf8: Utf8, a: seq<byte>, b: seq<byte>)
    ensures Parse(utf8, a + b) == Then(Parse(utf8, a), Parse(utf8, Parse(utf8, a).rest + b))
    decreases |a|
  {
    if !Stuck(a) {
      var n := 4 + Length(a);
      MoreBytes(a, b);
      ParseAppend(utf8, a[n..], b);
      var ta := Parse(utf8, a[n..]);
      ThenAssociates(Valid(utf8, a[4..n]), ta, Parse(utf8, ta.rest + b));
    }
  }

  lemma OversizeStays(utf8: Utf8, a: seq<byte>, b: seq<byte>)
    requires Oversize(a)
    ensures Parse(utf8, a + b) == Parsed([], a + b, true)
  {
    MoreBytes(a, b);
  }

  lemma {:induction false} ParsedMessagesFit(utf8: Utf8, s: seq<byte>)
    ensures Fit(Parse(utf8, s).messages)
    decreases |s|
  {
    if !Stuck(s) {
      ParsedMessagesFit(utf8, s[4 + Length(s)..]);
    }
  }

  // ----- The decode loop over any chunking -----

  /** What the event loop has handed on, what it still buffers, how many bytes it
      has drained, and whether it has given up on an oversize header. */
  datatype Reader = Reader(delivered: seq<Payload>, partial: seq<byte>, drained: nat, failed: bool)

  const FRESH: Reader := Reader([], [], 0, false)

  /** Hand on every complete frame in the buffer. */
  function Settle(utf8: Utf8, r: Reader): Reader {
    var p := Parse(utf8, r.partial);
    ParseStopsStuck(utf8, r.partial);
    Reader(r.delivered + p.messages, p.rest, r.drained + |r.partial| - |p.rest|, p.failed)
  }

  /** One successful read; after a failure the loop has returned and reads no more. */
  function Feed(utf8: Utf8, r: Reader, chunk: seq<byte>): Reader {
    if r.failed then r else Settle(utf8, r.(partial := r.partial + chunk))
  }

  lemma StuckIsSettled(utf8: Utf8, r: Reader)
    requires Stuck(r.partial)
    ensures Settle(utf8, r) == r.(failed := Oversize(r.partial))
  {
  }

  /** Taking the first frame by hand does not change where the buffer settles. */
  lemma TakeFirstFrame(utf8: Utf8, r: Reader)
    requires !Stuck(r.partial)
    ensures var n := 4 + Length(r.partial);
            Settle(utf8, Reader(r.delivered + Valid(utf8, r.partial[4..n]), r.partial[n..], r.drained + n, r.failed))
            == Settle(utf8, r)
  {
    var n := 4 + Length(r.partial);
    ThenAssociates(r.delivered, Parsed(Valid(utf8, r.partial[4..n]), [], false), Parse(utf8, r.partial[n..]));
  }

  function FeedAll(utf8: Utf8, chunks: seq<seq<byte>>): Reader {
    if chunks == [] then FRESH else
      Feed(utf8, FeedAll(utf8, chunks[..|chunks| - 1]), chunks[|chunks| - 1])
  }

  function Concat(chunks: seq<seq<byte>>): seq<byte> {
    if chunks == [] then [] else Concat(chunks[..|chunks| - 1]) + chunks[|chunks| - 1]
  }

  /** However the stream is cut into reads, the loop hands on what one pass over the
      whole stream finds, gives up at the same position if at all, and otherwise
      buffers exactly the unfinished frame at the end, shorter than the largest one. */
  lemma {:induction false} ChunkingIndependence(utf8: Utf8, chunks: seq<seq<byte>>)
    ensures var r, whole := FeedAll(utf8, chunks), Parse(utf8, Concat(chunks));
            r.delivered == whole.messages && r.failed == whole.failed &&
            r.drained == |Concat(chunks)| - |whole.rest| &&
            (r.failed ==> r.partial <= whole.rest && Oversize(r.partial)) &&
            (!r.failed ==> r.partial == whole.rest && |r.partial| < 4 + 1_048_576)
  {
    if chunks != [] {
      var n := |chunks| - 1;
      var before, chunk := Concat(chunks[..n]), chunks[n];
      var r := FeedAll(utf8, chunks[..n]);
      ChunkingIndependence(utf8, chunks[..n]);
      ParseStopsStuck(utf8, before);
      ParseAppend(utf8, before, chunk);
      ParseStopsStuck(utf8, r.partial + chunk);
      if r.failed {
        OversizeStays(utf8, Parse(utf8, before).rest, chunk);
      }
    }
  }

  /** The round trip over any chunking, with the exact condition: messages arrive
      unchanged, in order and with nothing left over if and only if none is larger
      than the receiver's limit. */
  lemma RoundTrip(utf8: Utf8, ps: seq<Payload>, chunks: seq<seq<byte>>)
    requires forall p | p in ps :: utf8(p)
    requires Concat(chunks) == EncodeAll(ps)
    ensures FeedAll(utf8, chunks) == Reader(ps, [], |EncodeAll(ps)|, false) <==> Fit(ps)
  {
    ChunkingIndependence(utf8, chunks);
    ParsedMessagesFit(utf8, EncodeAll(ps));
    if Fit(ps) {
      ParseFindsFrames(utf8, ps, []);
      assert EncodeAll(ps) + [] == EncodeAll(ps);
      AllValidKeepsAll(utf8, ps);
    }
  }

  /** Beyond the condition: one message over the limit (its length still fits the
      header) ends the session, whatever follows it. The messages before it arrive and
      the loop gives up exactly at its header. */
  lemma OversizeEndsSession(utf8: Utf8, before: seq<Payload>, p: Payload, tail: seq<byte>, chunks: seq<seq<byte>>)
    requires Fit(before) && 1_048_576 < |p| < 0x1_0000_0000
    requires Concat(chunks) == EncodeAll(before) + (Encode(p) + tail)
    ensures var r := FeedAll(utf8, chunks);
            r.failed && r.delivered == AllValid(utf8, before) && r.drained == |EncodeAll(before)|
  {
    FirstFrame(p, tail);
    ParseFindsFrames(utf8, before, Encode(p) + tail);
    ChunkingIndependence(utf8, chunks);
  }

  lemma {:induction false} AllValidKeepsAll(utf8: Utf8, ps: seq<Payload>)
    requires forall p | p in ps :: utf8(p)
    ensures AllValid(utf8, ps) == ps
  {
    if ps != [] {
      AllValidKeepsAll(utf8, ps[1..]);
    }
  }

  // ----- Frames that are not text -----

  lemma {:induction false} ParsedIsText(utf8: Utf8, s: seq<byte>)
    ensures forall p | p in Parse(utf8, s).messages :: utf8(p)
    decreases |s|
  {
    if !Stuck(s) {
      ParsedIsText(utf8, s[4 + Length(s)..]);
    }
  }

  /** Nothing that is not UTF-8 is ever handed on. */
  lemma DeliveredIsText(utf8: Utf8, chunks: seq<seq<byte>>)
    ensures forall p | p in FeedAll(utf8, chunks).delivered :: utf8(p)
  {
    ChunkingIndependence(utf8, chunks);
    ParsedIsText(utf8, Concat(chunks));
  }

  lemma FirstOfAll(ps: seq<Payload>, tail: seq<byte>)
    requires ps != []
    ensures EncodeAll(ps) + tail == Encode(ps[0]) + (EncodeAll(ps[1..]) + tail)
  {
  }

  /** Streams that parse alike still do after the same complete frames. */
  lemma {:induction false} SameAfterFrames(utf8: Utf8, ps: seq<Payload>, a: seq<byte>, b: seq<byte>)
    requires Fit(ps) && Parse(utf8, a) == Parse(utf8, b)
    ensures Parse(utf8, EncodeAll(ps) + a) == Parse(utf8, EncodeAll(ps) + b)
  {
    if ps == [] {
      assert EncodeAll(ps) + a == a && EncodeAll(ps) + b == b;
    } else {
      assert ps[0] in ps;
      SameAfterFrames(utf8, ps[1..], a, b);
      FirstOfAll(ps, a);
      FirstOfAll(ps, b);
      ParseFrame(utf8, ps[0], EncodeAll(ps[1..]) + a);
      ParseFrame(utf8, ps[0], EncodeAll(ps[1..]) + b);
    }
  }

  /** A frame that is not UTF-8 makes no difference: whatever complete frames precede it
      and whatever bytes follow it, and however both streams are cut, the same messages
      are handed on as without it and the same bytes are left over. */
  lemma InvalidFrameIsInvisible(utf8: Utf8, before: seq<Payload>, bad: Payload, tail: seq<byte>,
                                chunks: seq<seq<byte>>, without: seq<seq<byte>>)
    requires Fit(before) && |bad| <= 1_048_576 && !utf8(bad)
    requires Concat(chunks) == EncodeAll(before) + (Encode(bad) + tail)
    requires Concat(without) == EncodeAll(before) + tail
    ensures var r, r' := FeedAll(utf8, chunks), FeedAll(utf8, without);
            r.delivered == r'.delivered && r.failed == r'.failed && r.drained == r'.drained + 4 + |bad| &&
            (!r.failed ==> r.partial == r'.partial)
  {
    ChunkingIndependence(utf8, chunks);
    ChunkingIndependence(utf8, without);
    ParseFrame(utf8, bad, tail);
    SameAfterFrames(utf8, before, Encode(bad) + tail, tail);
    assert |Encode(bad)| == 4 + |bad|;
  }

  // ----- The exact reader -----

  datatype ReadError = EndOfStream | TooLarge | NotUtf8
  datatype Result<+T> = Ok(value: T) | Err(error: ReadError)

  /** Read one frame off the front of all the bytes the hub will send. */
  function ReadFrame(utf8: Utf8, s: seq<byte>): (Result<Payload>, seq<byte>) {
    if |s| < 4 then (Err(EndOfStream), [])
    else if Oversize(s) then (Err(TooLarge), s[4..])
    else if Stuck(s) then (Err(EndOfStream), [])
    else
      var n := 4 + Length(s);
      (if utf8(s[4..n]) then Ok(s[4..n]) else Err(NotUtf8), s[n..])
  }

  lemma FrameLimit(utf8: Utf8, s: seq<byte>)
    ensures ReadFrame(utf8, s).0.Ok? ==> |ReadFrame(utf8, s).0.value| <= MAX_MESSAGE
  {
  }

  lemma ReadFrameInvertsEncode(utf8: Utf8, p: Payload, tail: seq<byte>)
    requires utf8(p)
    ensures ReadFrame(utf8, Encode(p) + tail) == (Ok(p), tail) <==> |p| <= 1_048_576
  {
    if |p| <= MAX_MESSAGE {
      FirstFrame(p, tail);
    } else {
      FrameLimit(utf8, Encode(p) + tail);
    }
  }

  /** And when it does not: a frame that is not UTF-8 is taken off and reported, an
      oversize one only loses its header, and a stream that ends within a frame, or
      before one, is used up. */
  lemma ReadFrameRejects(utf8: Utf8, p: Payload, tail: seq<byte>)
    requires |p| < 0x1_0000_0000
    ensures |p| <= 1_048_576 && !utf8(p) ==> ReadFrame(utf8, Encode(p) + tail) == (Err(NotUtf8), tail)
    ensures |p| > 1_048_576 ==> ReadFrame(utf8, Encode(p) + tail) == (Err(TooLarge), p + tail)
  {
    FirstFrame(p, tail);
    HeaderReadsBack(|p|);
    assert (Encode(p) + tail)[4..] == p + tail;
  }

  lemma ReadFrameAtEnd(utf8: Utf8, p: Payload, n: nat)
    requires |p| <= 1_048_576 && n < 4 + |p|
    ensures ReadFrame(utf8, Encode(p)[..n]) == (Err(EndOfStream), [])
  {
    HeaderReadsBack(|p|);
    if n >= 4 {
      assert Encode(p)[..n][..4] == Header(|p|);
    }
  }

  /** A whole session: the reply is read exactly and the events after it in any chunks;
      everything arrives as it was sent if and only if nothing is over the limit. */
  lemma SessionRoundTrip(utf8: Utf8, reply: Payload, ps: seq<Payload>, chunks: seq<seq<byte>>)
    requires utf8(reply) && forall p | p in ps :: utf8(p)
    requires Concat(chunks) == EncodeAll(ps)
    ensures ReadFrame(utf8, Encode(reply) + EncodeAll(ps)) == (Ok(reply), Concat(chunks)) &&
            FeedAll(utf8, chunks) == Reader(ps, [], |EncodeAll(ps)|, false)
            <==> |reply| <= 1_048_576 && Fit(ps)
  {
    ReadFrameInvertsEncode(utf8, reply, EncodeAll(ps));
    RoundTrip(utf8, ps, chunks);
  }

  // ----- The connection -----

  /** `incoming` and `outgoing` are the two directions of the socket; `reader` is
      the event loop's buffer and output. */
  class HubConnection {
    const utf8: Utf8
    var incoming: seq<byte>
    var outgoing: seq<byte>
    var partial: seq<byte>
    var delivered: seq<Payload>
    var drained: nat
    var failed: bool

    function State(): Reader
      reads this
    {
      Reader(delivered, partial, drained, failed)
    }

    constructor (utf8: Utf8, stream: seq<byte>)
      ensures this.utf8 == utf8 && incoming == stream && outgoing == [] && State() == FRESH
    {
      this.utf8 := utf8;
      incoming, outgoing := stream, [];
      partial, delivered, drained, failed := [], [], 0, false;
    }

    method SendJson(json: Payload)
      modifies `outgoing
      ensures outgoing == old(outgoing) + Encode(json)
    {
      var len := Cast32(|json|);
      outgoing := outgoing + Header(len);
      outgoing := outgoing + json;
      assert outgoing == old(outgoing) + (Header(len) + json);
    }

    method ReadJson() returns (r: Result<Payload>)
      modifies `incoming
      ensures (r, incoming) == ReadFrame(utf8, old(incoming))
    {
      if |incoming| < 4 {
        incoming := [];
        return Err(EndOfStream);
      }
      var len := Length(incoming);
      ghost var s := incoming;
      incoming := incoming[4..];
      if len > MAX_MESSAGE {
        return Err(TooLarge);
      }
      if |incoming| < len {
        incoming := [];
        return Err(EndOfStream);
      }
      var body := incoming[..len];
      incoming := incoming[len..];
      assert body == s[4..4 + len] && incoming == s[4 + len..];
      if !utf8(body) {
        return Err(NotUtf8);
      }
      return Ok(body);
    }

    /** One wake-up of the event loop on a read of n bytes. */
    method OnRead(n: nat) returns (ok: bool)
      requires !failed && 0 < n <= READ_BUFFER && n <= |incoming|
      modifies this
      ensures State() == Feed(utf8, old(State()), old(incoming)[..n])
      ensures incoming == old(incoming)[n..] && outgoing == old(outgoing)
      ensures ok == !failed
      ensures ok ==> |partial| < 4 + MAX_MESSAGE
    {
      partial := partial + incoming[..n];
      incoming := incoming[n..];
      ok := ProcessBuffer();
    }

    /** Hand on the first frame if it is text, and drain it either way. */
    method TakeFrame()
      requires !Stuck(partial)
      modifies `partial, `delivered, `drained
      ensures var r, n := old(State()), 4 + Length(old(partial));
              State() == Reader(r.delivered + Valid(utf8, r.partial[4..n]), r.partial[n..], r.drained + n, r.failed)
    {
      var n := 4 + Length(partial);
      var bytes := partial[4..n];
      if utf8(bytes) {
        delivered := delivered + [bytes];
      }
      partial := partial[n..];
      drained := drained + n;
    }

    method ProcessBuffer() returns (ok: bool)
      requires !failed
      modifies `partial, `delivered, `drained, `failed
      ensures State() == Settle(utf8, old(State()))
      ensures ok == !failed
      ensures ok ==> |partial| < 4 + MAX_MESSAGE
    {
      ghost var settled := Settle(utf8, State());
      while |partial| >= 4
        invariant !failed && Settle(utf8, State()) == settled
        decreases |partial|
      {
        var len := Length(partial);
        if len > MAX_MESSAGE {
          StuckIsSettled(utf8, State());
          failed := true;
          return false;
        }
        if |partial| < 4 + len {
          break;
        }
        TakeFirstFrame(utf8, State());
        TakeFrame();
      }
      StuckIsSettled(utf8, State());
      return true;
    }
  }
}
