/** The length-framed byte stream of `node/src/tcp_direct.rs`: each frame is a 4-byte big-endian length
    and that many bytes; a zero-length frame is a keepalive. */
module Frames {

  type Byte = x: int | 0 <= x < 256

  const MAX_FRAME: nat := 65535
  const IDLE_LIMIT: nat := 3

  // ---- The format --------------------------------------------------------------------------------

  /** The low w bytes of n, most significant first. */
  function BigEndian(n: nat, w: nat): (h: seq<Byte>)
    ensures |h| == w
  {
    if w == 0 then [] else BigEndian(n / 256, w - 1) + [n % 256]
  }

  function Number(h: seq<Byte>): nat {
    if h == [] then 0 else Number(h[..|h| - 1]) * 256 + h[|h| - 1] as int
  }

  function Pow256(w: nat): nat {
    if w == 0 then 1 else 256 * Pow256(w - 1)
  }

  /** The width of the length prefix. */
  const PREFIX: nat := 4

  function Header(n: nat): (h: seq<Byte>)
    ensures |h| == PREFIX
  {
    BigEndian(n, PREFIX)
  }

  function Length(b: seq<Byte>): nat
    requires |b| >= PREFIX
  {
    Number(b[..PREFIX])
  }

  function Encode(frame: seq<Byte>): seq<Byte> {
    Header(|frame|) + frame
  }

  function EncodeAll(frames: seq<seq<Byte>>): seq<Byte> {
    if frames == [] then [] else Encode(frames[0]) + EncodeAll(frames[1..])
  }

  datatype Decoded = Decoded(frames: seq<seq<Byte>>, rest: seq<Byte>, desync: bool)

  predicate Incomplete(b: seq<Byte>) {
    |b| < PREFIX || (Length(b) <= MAX_FRAME && |b| < PREFIX + Length(b))
  }

  predicate Oversized(b: seq<Byte>) {
    |b| >= PREFIX && Length(b) > MAX_FRAME
  }

  /** The complete frames at the front of a byte stream and what is left behind them. */
  function Decode(b: seq<Byte>): Decoded
    decreases |b|
  {
    if Incomplete(b) then Decoded([], b, false)
    else if Oversized(b) then Decoded([], b, true)
    else
      var n := Length(b);
      var d := Decode(b[PREFIX + n..]);
      d.(frames := [b[PREFIX..PREFIX + n]] + d.frames)
  }

  lemma {:induction false} NumberOfBigEndian(n: nat, w: nat)
    requires n < Pow256(w)
    ensures Number(BigEndian(n, w)) == n
  {
    if w > 0 {
      NumberOfBigEndian(n / 256, w - 1);
      var h := BigEndian(n, w);
      assert h[..|h| - 1] == BigEndian(n / 256, w - 1);
    }
  }

  lemma {:induction false} BigEndianOfNumber(h: seq<Byte>)
    ensures BigEndian(Number(h), |h|) == h
  {
    if h != [] {
      BigEndianOfNumber(h[..|h| - 1]);
    }
  }

  lemma HeaderLength(n: nat, tail: seq<Byte>)
    requires n < 0x1_0000_0000
    ensures Length(Header(n) + tail) == n
  {
    assert Pow256(4) == 256 * Pow256(3) && Pow256(3) == 256 * Pow256(2);
    NumberOfBigEndian(n, PREFIX);
    assert (Header(n) + tail)[..PREFIX] == Header(n);
  }

  lemma LengthHeader(b: seq<Byte>)
    requires |b| >= PREFIX
    ensures Header(Length(b)) == b[..PREFIX]
  {
    BigEndianOfNumber(b[..PREFIX]);
  }

  lemma LengthOfPrefix(a: seq<Byte>, b: seq<Byte>)
    requires |a| >= PREFIX
    ensures Length(a + b) == Length(a)
  {
    assert (a + b)[..PREFIX] == a[..PREFIX];
  }

  // ---- Decoding and encoding are inverse ------------------------------------------------------------

  lemma Assoc<T>(a: seq<T>, b: seq<T>, c: seq<T>)
    ensures (a + b) + c == a + (b + c)
  {
  }

  lemma DecodeFrame(b: seq<Byte>, frame: seq<Byte>, tail: seq<Byte>)
    requires |b| >= PREFIX && b[PREFIX..] == frame + tail && Length(b) == |frame| <= MAX_FRAME
    ensures
      var d := Decode(tail);
      Decode(b) == d.(frames := [frame] + d.frames)
  {
    assert b[PREFIX..PREFIX + |frame|] == b[PREFIX..][..|frame|] == frame;
    assert b[PREFIX + |frame|..] == b[PREFIX..][|frame|..] == tail;
  }

  lemma DecodeOne(frame: seq<Byte>, tail: seq<Byte>)
    requires |frame| <= MAX_FRAME
    ensures
      var d := Decode(tail);
      Decode(Encode(frame) + tail) == d.(frames := [frame] + d.frames)
  {
    var header := Header(|frame|);
    Assoc(header, frame, tail);
    HeaderLength(|frame|, frame + tail);
    DecodeFrame(header + (frame + tail), frame, tail);
  }

  lemma {:induction false} DecodeMany(frames: seq<seq<Byte>>, tail: seq<Byte>)
    requires forall f | f in frames :: |f| <= MAX_FRAME
    ensures
      var d := Decode(tail);
      Decode(EncodeAll(frames) + tail) == d.(frames := frames + d.frames)
  {
    var d := Decode(tail);
    if frames == [] {
      assert EncodeAll(frames) + tail == tail && frames + d.frames == d.frames;
    } else {
      var first, later := frames[0], frames[1..];
      DecodeMany(later, tail);
      DecodeOne(first, EncodeAll(later) + tail);
      Assoc(Encode(first), EncodeAll(later), tail);
      Assoc([first], later, d.frames);
      assert [first] + later == frames;
    }
  }

  lemma EncodeSlice(b: seq<Byte>)
    requires |b| >= PREFIX && |b| >= PREFIX + Length(b)
    ensures
      var k := PREFIX + Length(b);
      Encode(b[PREFIX..k]) + b[k..] == b
  {
    LengthHeader(b);
    var k := PREFIX + Length(b);
    assert b[..PREFIX] + b[PREFIX..k] == b[..k];
  }

  /** For every byte stream the decoded frames, encoded again and followed by the rest, are the stream;
      the rest holds no complete frame: it is short, or, exactly when decoding stopped for good, it
      starts with a length above the limit. */
  lemma {:induction false} DecodeExplains(b: seq<Byte>)
    ensures
      var d := Decode(b);
      && EncodeAll(d.frames) + d.rest == b
      && (forall f | f in d.frames :: |f| <= MAX_FRAME)
      && (if d.desync then Oversized(d.rest) else Incomplete(d.rest))
    decreases |b|
  {
    if !Incomplete(b) && !Oversized(b) {
      var k := PREFIX + Length(b);
      var frame, d := b[PREFIX..k], Decode(b[k..]);
      DecodeExplains(b[k..]);
      assert Decode(b).frames[1..] == d.frames;
      Assoc(Encode(frame), EncodeAll(d.frames), d.rest);
      EncodeSlice(b);
    } else {
      assert EncodeAll([]) + b == b;
    }
  }

  /** Nothing but the framing decides: any reading of a stream as frames within the limit followed by a
      short or oversized rest is the one the decoder finds. */
  lemma DecodeIsUnique(frames: seq<seq<Byte>>, rest: seq<Byte>)
    requires forall f | f in frames :: |f| <= MAX_FRAME
    requires Incomplete(rest) || Oversized(rest)
    ensures Decode(EncodeAll(frames) + rest) == Decoded(frames, rest, Oversized(rest))
  {
    DecodeMany(frames, rest);
    assert frames + [] == frames;
  }

  /** The decoder inverts the encoder on a list of frames exactly when none exceeds the limit;
      keepalives, of length zero, are among them. */
  lemma RoundTripIff(frames: seq<seq<Byte>>)
    ensures Decode(EncodeAll(frames)) == Decoded(frames, [], false) <==> forall f | f in frames :: |f| <= MAX_FRAME
  {
    DecodeExplains(EncodeAll(frames));
    if forall f | f in frames :: |f| <= MAX_FRAME {
      DecodeIsUnique(frames, []);
      assert EncodeAll(frames) + [] == EncodeAll(frames);
    }
  }

  /** A length above the limit stops the decoder there: every frame before it is delivered, and no
      byte from it on is read as a frame. */
  lemma StopsAtFirstOversized(frames: seq<seq<Byte>>, n: nat, tail: seq<Byte>)
    requires forall f | f in frames :: |f| <= MAX_FRAME
    requires MAX_FRAME < n < 0x1_0000_0000
    ensures Decode(EncodeAll(frames) + (Header(n) + tail)) == Decoded(frames, Header(n) + tail, true)
  {
    HeaderLength(n, tail);
    DecodeIsUnique(frames, Header(n) + tail);
  }

  /** Fewer than 65539 bytes wait for the next read. */
  lemma BufferBound(b: seq<Byte>)
    requires !Decode(b).desync
    ensures |Decode(b).rest| < PREFIX + MAX_FRAME
  {
  }

  // ---- Cutting the stream into reads ------------------------------------------------------------------

  /** Decoding more bytes behind a drained buffer. */
  function Resume(d: Decoded, more: seq<Byte>): Decoded {
    if d.desync then d.(rest := d.rest + more)
    else
      var e := Decode(d.rest + more);
      e.(frames := d.frames + e.frames)
  }

  lemma DecodeConcat(a: seq<Byte>, b: seq<Byte>)
    ensures Decode(a + b) == Resume(Decode(a), b)
  {
    var d := Decode(a);
    DecodeExplains(a);
    DecodeMany(d.frames, d.rest + b);
    Assoc(EncodeAll(d.frames), d.rest, b);
    if d.desync {
      LengthOfPrefix(d.rest, b);
      assert d.frames + [] == d.frames;
    }
  }

  function Concat(chunks: seq<seq<Byte>>): seq<Byte> {
    if chunks == [] then [] else Concat(chunks[..|chunks| - 1]) + chunks[|chunks| - 1]
  }

  function Feed(chunks: seq<seq<Byte>>): Decoded {
    if chunks == [] then Decoded([], [], false)
    else Resume(Feed(chunks[..|chunks| - 1]), chunks[|chunks| - 1])
  }

  /** However the stream is cut into reads, feeding them one by one gives what decoding the whole
      stream at once gives. */
  lemma {:induction false} ReadsDoNotMatter(chunks: seq<seq<Byte>>)
    ensures Feed(chunks) == Decode(Concat(chunks))
  {
    if chunks != [] {
      ReadsDoNotMatter(chunks[..|chunks| - 1]);
      DecodeConcat(Concat(chunks[..|chunks| - 1]), chunks[|chunks| - 1]);
    }
  }

  lemma {:induction false} EncodeAllAppend(frames: seq<seq<Byte>>, frame: seq<Byte>)
    ensures EncodeAll(frames + [frame]) == EncodeAll(frames) + Encode(frame)
  {
    if frames == [] {
      assert EncodeAll([frame]) == Encode(frame) + EncodeAll([]);
      assert frames + [frame] == [frame];
    } else {
      EncodeAllAppend(frames[1..], frame);
      assert (frames + [frame])[1..] == frames[1..] + [frame];
    }
  }

  /** The decoder's frames behind those already delivered. */
  function Behind(delivered: seq<seq<Byte>>, b: seq<Byte>): Decoded {
    var d := Decode(b);
    d.(frames := delivered + d.frames)
  }

  lemma TakeFrame(delivered: seq<seq<Byte>>, b: seq<Byte>)
    requires !Incomplete(b) && !Oversized(b)
    ensures
      var k := PREFIX + Length(b);
      Behind(delivered, b) == Behind(delivered + [b[PREFIX..k]], b[k..])
  {
  }

  /** The loop that takes every complete frame off the buffer. The consumer of a frame may be gone,
      which ends the loop with that frame taken but not delivered. */
  method Drain(buf: seq<Byte>, delivered: seq<seq<Byte>>)
    returns (rest: seq<Byte>, frames: seq<seq<Byte>>, desync: bool, refused: bool)
    ensures !refused ==> Decoded(frames, rest, desync) == Behind(delivered, buf)
    ensures !refused && !desync ==> |rest| < PREFIX + MAX_FRAME
    ensures refused ==> frames < Behind(delivered, buf).frames
  {
    rest, frames, desync, refused := buf, delivered, false, false;
    while !Incomplete(rest)
      invariant Behind(frames, rest) == Behind(delivered, buf)
      decreases |rest|
    {
      if Length(rest) > MAX_FRAME {
        assert frames + [] == frames;
        return rest, frames, true, false;
      }
      TakeFrame(frames, rest);
      var k := PREFIX + Length(rest);
      var frame := rest[PREFIX..k];
      rest := rest[k..];
      var accepted: bool := *;
      if !accepted {
        assert frames + [frame] <= Behind(delivered, buf).frames;
        return rest, frames, false, true;
      }
      frames := frames + [frame];
    }
    assert frames + [] == frames;
  }

  // ---- The pump -----------------------------------------------------------------------------------------

  /** One end of a connection. `received` is every byte read so far; `written` every byte sent,
      the encoding of `sent`. */
  class Pump {
    var buf: seq<Byte>
    var idleTicks: nat
    var open: bool
    var delivered: seq<seq<Byte>>
    var written: seq<Byte>
    ghost var received: seq<Byte>
    ghost var sent: seq<seq<Byte>>

    ghost predicate Valid()
      reads this
    {
      && written == EncodeAll(sent)
      && (open ==> Decode(received) == Decoded(delivered, buf, false) && idleTicks < IDLE_LIMIT)
    }

    constructor ()
      ensures Valid() && open && idleTicks == 0 && delivered == [] && sent == [] && received == []
    {
      buf, idleTicks, open, delivered := [], 0, true, [];
      written, received, sent := [], [], [];
    }

    /** Bytes arrive. `refused` says the consumer of inbound frames went away. */
    method Read(chunk: seq<Byte>) returns (refused: bool)
      requires Valid() && open && chunk != []
      modifies this
      ensures Valid() && sent == old(sent) && received == old(received) + chunk && idleTicks == 0
      ensures !refused ==> open == !Decode(received).desync && delivered == Decode(received).frames
      ensures open ==> |buf| < PREFIX + MAX_FRAME
      ensures refused ==> !open && delivered < Decode(received).frames
    {
      DecodeConcat(received, chunk);
      idleTicks := 0;
      received := received + chunk;
      buf := buf + chunk;
      var desync;
      buf, delivered, desync, refused := Drain(buf, delivered);
      if desync || refused { open := false; }
    }

    /** End of stream, a read error, or nobody left to send for. */
    method Eof()
      requires Valid()
      modifies this`open
      ensures Valid() && !open
    {
      open := false;
    }

    /** The 3-second timer. The third tick in a row with nothing read in between closes the
        connection; an earlier one writes a keepalive, unless the write fails. */
    method Tick() returns (failed: bool)
      requires Valid() && open
      modifies this`idleTicks, this`open, this`written, this`sent
      ensures Valid() && idleTicks == old(idleTicks) + 1
      ensures open <==> idleTicks < IDLE_LIMIT && !failed
      ensures sent == old(sent) + if open then [[]] else []
    {
      failed := false;
      idleTicks := idleTicks + 1;
      if idleTicks >= IDLE_LIMIT {
        open := false;
        return;
      }
      failed := *;
      if failed {
        open := false;
      } else {
        EncodeAllAppend(sent, []);
        written, sent := written + Header(0), sent + [[]];
      }
    }

    method Send(frame: seq<Byte>) returns (failed: bool)
      requires Valid() && open
      modifies this`open, this`written, this`sent
      ensures Valid() && open == !failed
      ensures sent == old(sent) + if open then [frame] else []
    {
      failed := *;
      if failed {
        open := false;
      } else {
        EncodeAllAppend(sent, frame);
        written, sent := written + (Header(|frame|) + frame), sent + [frame];
      }
    }

    /** One turn of the loop. */
    method Handle(e: Event) returns (failed: bool)
      requires Valid() && open && (e.Arrived? ==> e.chunk != [])
      modifies this
      ensures Valid() && received == old(received) + Chunk(e) && delivered <= Decode(received).frames
      ensures open ==> idleTicks == NextTicks(old(idleTicks), e)
      ensures NextTicks(old(idleTicks), e) >= IDLE_LIMIT ==> !open
    {
      failed := false;
      match e {
        case Ticked => failed := Tick();
        case Outgoing(frame) => failed := Send(frame);
        case Arrived(chunk) => failed := Read(chunk);
        case Ended => Eof();
      }
    }

    /** The loop over whatever happens to the connection, up to the event that closes it. The frames handed on
        are those of the bytes that arrived, and three ticks with nothing arriving in between close it. */
    method Serve(events: seq<Event>) returns (n: nat)
      requires Valid() && open && received == [] && idleTicks == 0
      requires forall e | e in events && e.Arrived? :: e.chunk != []
      modifies this
      ensures Valid() && n <= |events| && (n < |events| ==> !open)
      ensures received == Incoming(events, n) && delivered <= Decode(received).frames
      ensures open ==> delivered == Decode(received).frames
      ensures forall k: nat | k < n :: TicksSince(events, k) < IDLE_LIMIT
      ensures TicksSince(events, n) >= IDLE_LIMIT ==> !open
    {
      n := 0;
      while n < |events| && open
        invariant n <= |events| && Valid()
        invariant received == Incoming(events, n) && delivered <= Decode(received).frames
        invariant open ==> idleTicks == TicksSince(events, n)
        invariant forall k: nat | k < n :: TicksSince(events, k) < IDLE_LIMIT
        invariant TicksSince(events, n) >= IDLE_LIMIT ==> !open
      {
        assert events[n] in events;
        var failed := Handle(events[n]);
        n := n + 1;
      }
    }
  }

  /** What can happen to a connection: the timer ticks, a frame is to be sent, bytes arrive, or either the stream
      or the queue of frames to send ends. */
  datatype Event = Ticked | Outgoing(frame: seq<Byte>) | Arrived(chunk: seq<Byte>) | Ended

  function Chunk(e: Event): seq<Byte> {
    if e.Arrived? then e.chunk else []
  }

  function NextTicks(ticks: nat, e: Event): nat {
    if e.Arrived? then 0 else if e.Ticked? then ticks + 1 else ticks
  }

  /** The bytes that arrived in the first n events. */
  function Incoming(events: seq<Event>, n: nat): seq<Byte>
    requires n <= |events|
  {
    if n == 0 then [] else Incoming(events, n - 1) + Chunk(events[n - 1])
  }

  /** The ticks since bytes last arrived. */
  function TicksSince(events: seq<Event>, n: nat): nat
    requires n <= |events|
  {
    if n == 0 then 0 else NextTicks(TicksSince(events, n - 1), events[n - 1])
  }

  lemma {:induction false} DecodePrefix(frames: seq<seq<Byte>>, b: seq<Byte>)
    requires (forall f | f in frames :: |f| <= MAX_FRAME) && b <= EncodeAll(frames)
    ensures !Decode(b).desync && Decode(b).frames <= frames
  {
    DecodeConcat(b, EncodeAll(frames)[|b|..]);
    assert b + EncodeAll(frames)[|b|..] == EncodeAll(frames);
    RoundTripIff(frames);
  }

  /** Two ends of one connection: while any prefix of what one end wrote for a list of frames within
      the limit has been read at the other, however it was cut, the frames delivered there are a
      prefix of that list, in order, and the stream never goes out of step; once all of it has
      been read they are the whole list. */
  lemma EndToEnd(frames: seq<seq<Byte>>, chunks: seq<seq<Byte>>)
    requires (forall f | f in frames :: |f| <= MAX_FRAME) && Concat(chunks) <= EncodeAll(frames)
    ensures !Feed(chunks).desync && Feed(chunks).frames <= frames
    ensures Concat(chunks) == EncodeAll(frames) ==> Feed(chunks) == Decoded(frames, [], false)
  {
    ReadsDoNotMatter(chunks);
    DecodePrefix(frames, Concat(chunks));
    RoundTripIff(frames);
  }
}
