/** The packet format and what a receiver makes of a byte stream, independent of buffers and of how
the stream is cut into receives. A frame is a 16-bit total size, a 16-bit id (both little-endian) and
the payload. */
module Framing {

  type byte = x: int | 0 <= x < 0x100
  type uint16 = x: int | 0 <= x < 0x1_0000
  type Packet = seq<byte>

  const HEADER_SIZE := 4
  const MAX_PACKET_SIZE := 0x4000

  function Low(v: uint16): byte { v % 0x100 }

  function High(v: uint16): byte { v / 0x100 }

  function SizeField(s: seq<byte>): uint16
    requires |s| >= HEADER_SIZE
  {
    (s[0] as int) + 0x100 * (s[1] as int)
  }

  function IdField(s: seq<byte>): uint16
    requires |s| >= HEADER_SIZE
  {
    (s[2] as int) + 0x100 * (s[3] as int)
  }

  /** The printer. The size field is a 16-bit sum, so it holds the total size only of payloads that
  leave room for the header. */
  function Frame(id: uint16, payload: seq<byte>): Packet
    requires |payload| + HEADER_SIZE < 0x1_0000
  {
    var size := |payload| + HEADER_SIZE;
    [Low(size), High(size), Low(id), High(id)] + payload
  }

  function Payload(p: Packet): seq<byte>
    requires |p| >= HEADER_SIZE
  {
    p[HEADER_SIZE..]
  }

  lemma FrameFields(id: uint16, payload: seq<byte>)
    requires |payload| + HEADER_SIZE < 0x1_0000
    ensures var p := Frame(id, payload);
      |p| == |payload| + HEADER_SIZE && SizeField(p) == |p| && IdField(p) == id && Payload(p) == payload
  {
  }

  predicate BadSize(size: int) {
    size < HEADER_SIZE || size > MAX_PACKET_SIZE
  }

  ghost predicate WellFormed(p: Packet) {
    |p| >= HEADER_SIZE && SizeField(p) == |p| && !BadSize(|p|)
  }

  /** What the beginning of the unread bytes is: too little to tell, a header that ends the session, or
  a whole packet. */
  datatype Head = Short | Bad | Whole(packet: Packet)

  function HeadOf(s: seq<byte>): Head {
    if |s| < HEADER_SIZE then Short
    else if BadSize(SizeField(s)) then Bad
    else if |s| < SizeField(s) then Short
    else Whole(s[..SizeField(s)])
  }

  /** What a handler does with a packet: it returns, it throws, or it closes the session and returns. */
  datatype Outcome = Returns | Throws | Closes

  /** What the handler does with the last packet of the history `h`: it may depend on everything
  delivered so far, but not on how it was received. */
  type Handler = seq<Packet> -> Outcome

  function OutcomeOf(handler: Handler, h: seq<Packet>): Outcome {
    handler(h)
  }

  /** A receiver between two receives: the packets given to the handler, the bytes kept for later, and
  whether the session has been closed, by a bad header or by the handler. */
  datatype Receiver = Receiver(delivered: seq<Packet>, unread: seq<byte>, closed: bool)

  /** What becomes of a receiver that has delivered `past`, may have been closed already, and has the
  bytes `s`. A handler that closes and returns does not end the loop. */
  function Parse(handler: Handler, closed: bool, past: seq<Packet>, s: seq<byte>): Receiver
    decreases |s|
  {
    match HeadOf(s)
    case Short => Receiver(past, s, closed)
    case Bad => Receiver(past, [], true)
    case Whole(p) =>
      match OutcomeOf(handler, past + [p])
      case Throws => Receiver(past + [p], [], true)
      case Returns => Parse(handler, closed, past + [p], s[|p|..])
      case Closes => Parse(handler, true, past + [p], s[|p|..])
  }

  function Concat(ps: seq<seq<byte>>): seq<byte> {
    if ps == [] then [] else Concat(ps[..|ps| - 1]) + ps[|ps| - 1]
  }

  // ---------------------------------------------------------------- cutting the stream

  /** More bytes never change a decision already made. */
  lemma HeadExtends(a: seq<byte>, b: seq<byte>)
    requires HeadOf(a) != Short
    ensures HeadOf(a + b) == HeadOf(a)
    ensures HeadOf(a).Whole? ==> (
      var n := |HeadOf(a).packet|;
      0 < n <= |a| && (a + b)[n..] == a[n..] + b)
  {
    assert SizeField(a + b) == SizeField(a);
    if HeadOf(a).Whole? {
      assert (a + b)[..SizeField(a)] == a[..SizeField(a)];
    }
  }

  /** One receive. A closed session posts no more receives, so it ignores the rest. */
  function Feed(handler: Handler, r: Receiver, chunk: seq<byte>): Receiver {
    if r.closed then r else Parse(handler, false, r.delivered, r.unread + chunk)
  }

  function FeedAll(handler: Handler, chunks: seq<seq<byte>>): Receiver {
    if chunks == [] then Receiver([], [], false)
    else Feed(handler, FeedAll(handler, chunks[..|chunks| - 1]), chunks[|chunks| - 1])
  }

  function ParseAll(handler: Handler, stream: seq<byte>): Receiver {
    Parse(handler, false, [], stream)
  }

  lemma {:induction false} ParseExtends(handler: Handler, closed: bool, past: seq<Packet>, s: seq<byte>)
    ensures past <= Parse(handler, closed, past, s).delivered
    ensures closed ==> Parse(handler, closed, past, s).closed
    decreases |s|
  {
    if HeadOf(s).Whole? {
      var p := HeadOf(s).packet;
      ParseExtends(handler, closed, past + [p], s[|p|..]);
      ParseExtends(handler, true, past + [p], s[|p|..]);
    }
  }

  /** Parsing a stream in two parts, keeping the unread rest, is parsing it at once, unless the session
  is closed in the first part; then parsing at once delivers no less. */
  lemma {:induction false} ParseSplit(handler: Handler, closed: bool, past: seq<Packet>, a: seq<byte>, b: seq<byte>)
    ensures var ra, r := Parse(handler, closed, past, a), Parse(handler, closed, past, a + b);
      if ra.closed then r.closed && ra.delivered <= r.delivered
      else r == Parse(handler, false, ra.delivered, ra.unread + b)
    decreases |a|
  {
    match HeadOf(a)
    case Short =>
      ParseExtends(handler, closed, past, a + b);
    case Bad =>
      HeadExtends(a, b);
    case Whole(p) =>
      HeadExtends(a, b);
      match OutcomeOf(handler, past + [p])
      case Throws =>
      case Returns => ParseSplit(handler, closed, past + [p], a[|p|..], b);
      case Closes =>
        ParseSplit(handler, true, past + [p], a[|p|..], b);
        ParseExtends(handler, true, past + [p], a[|p|..]);
  }

  // ---------------------------------------------------------------- handlers that close and return

  /** The handler that throws where the given one closes and returns, so that nothing is delivered after
  a close. */
  function Strict(handler: Handler): Handler {
    (h: seq<Packet>) => if OutcomeOf(handler, h) == Closes then Throws else OutcomeOf(handler, h)
  }

  lemma StrictOutcome(handler: Handler, h: seq<Packet>)
    ensures OutcomeOf(Strict(handler), h) == if OutcomeOf(handler, h) == Closes then Throws else OutcomeOf(handler, h)
  {
  }

  /** No packet of `ps` but the last, and none of the first `n`, makes the handler close and return. */
  ghost predicate ClosesOnlyLast(handler: Handler, n: nat, ps: seq<Packet>) {
    forall k :: n < k < |ps| ==> OutcomeOf(handler, ps[..k]) != Closes
  }

  /** Up to the first close the two handlers get the same packets; they get the same altogether exactly
  if nothing follows the close. */
  lemma {:induction false} StrictIsBelow(handler: Handler, past: seq<Packet>, s: seq<byte>)
    ensures var t, r := Parse(Strict(handler), false, past, s), Parse(handler, false, past, s);
      && t.delivered <= r.delivered && t.closed == r.closed && (!r.closed ==> t == r)
      && (t.delivered == r.delivered <==> ClosesOnlyLast(handler, |past|, r.delivered))
    decreases |s|
  {
    match HeadOf(s)
    case Short =>
    case Bad =>
    case Whole(p) =>
      StrictOutcome(handler, past + [p]);
      match OutcomeOf(handler, past + [p])
      case Throws =>
      case Returns =>
        StrictIsBelow(handler, past + [p], s[|p|..]);
        ParseExtends(handler, false, past + [p], s[|p|..]);
        OnlyLastStep(handler, past, p, Parse(handler, false, past + [p], s[|p|..]).delivered);
      case Closes =>
        ParseExtends(handler, true, past + [p], s[|p|..]);
        OnlyLastEnds(handler, past, p, Parse(handler, true, past + [p], s[|p|..]).delivered);
  }

  lemma OnlyLastStep(handler: Handler, past: seq<Packet>, p: Packet, ps: seq<Packet>)
    requires past + [p] <= ps && OutcomeOf(handler, past + [p]) != Closes
    ensures ClosesOnlyLast(handler, |past|, ps) <==> ClosesOnlyLast(handler, |past + [p]|, ps)
  {
    assert ps[..|past| + 1] == past + [p];
  }

  lemma OnlyLastEnds(handler: Handler, past: seq<Packet>, p: Packet, ps: seq<Packet>)
    requires past + [p] <= ps && OutcomeOf(handler, past + [p]) == Closes
    ensures ClosesOnlyLast(handler, |past|, ps) <==> ps == past + [p]
  {
    assert ps[..|past| + 1] == past + [p];
  }

  /** However a stream is cut, the receiver is closed exactly if parsing at once closes it; open, it is
  where parsing at once gets; and what it has delivered lies between what precedes the first close and
  what parsing at once delivers. */
  ghost predicate Between(handler: Handler, r: Receiver, stream: seq<byte>) {
    var t, w := ParseAll(Strict(handler), stream), ParseAll(handler, stream);
    && r.closed == w.closed == t.closed && (!r.closed ==> r == w)
    && t.delivered <= r.delivered <= w.delivered
  }

  lemma FeedStaysBetween(handler: Handler, r: Receiver, stream: seq<byte>, chunk: seq<byte>)
    requires Between(handler, r, stream)
    ensures Between(handler, Feed(handler, r, chunk), stream + chunk)
  {
    ParseSplit(handler, false, [], stream, chunk);
    StrictIsBelow(handler, [], stream + chunk);
    if r.closed {
      StrictStops(handler, [], stream, chunk);
    }
  }

  /** A handler that never closes and returns gets nothing after the end of the session. */
  lemma {:induction false} StrictStops(handler: Handler, past: seq<Packet>, a: seq<byte>, b: seq<byte>)
    requires Parse(Strict(handler), false, past, a).closed
    ensures Parse(Strict(handler), false, past, a + b) == Parse(Strict(handler), false, past, a)
    decreases |a|
  {
    match HeadOf(a)
    case Short =>
    case Bad =>
      HeadExtends(a, b);
    case Whole(p) =>
      HeadExtends(a, b);
      StrictOutcome(handler, past + [p]);
      if OutcomeOf(handler, past + [p]) == Returns {
        StrictStops(handler, past + [p], a[|p|..], b);
      }
  }

  lemma StartsBetween(handler: Handler)
    ensures Between(handler, Receiver([], [], false), [])
  {
  }

  lemma BetweenAtEnd(handler: Handler, r: Receiver, stream: seq<byte>, i: nat)
    requires i <= |stream| && Between(handler, r, stream[..i])
    requires r.closed || i == |stream|
    ensures Between(handler, r, stream)
    ensures ClosesOnlyLast(handler, 0, ParseAll(handler, stream).delivered) ==>
      r.delivered == ParseAll(handler, stream).delivered
  {
    assert stream[..i] + stream[i..] == stream;
    assert i == |stream| ==> stream[..i] == stream;
    StrictIsBelow(handler, [], stream);
    if r.closed {
      ParseSplit(handler, false, [], stream[..i], stream[i..]);
      StrictStops(handler, [], stream[..i], stream[i..]);
    }
  }

  lemma {:induction false} ReceivedBetween(handler: Handler, chunks: seq<seq<byte>>)
    ensures Between(handler, FeedAll(handler, chunks), Concat(chunks))
  {
    if chunks != [] {
      ReceivedBetween(handler, chunks[..|chunks| - 1]);
      FeedStaysBetween(handler, FeedAll(handler, chunks[..|chunks| - 1]), Concat(chunks[..|chunks| - 1]), chunks[|chunks| - 1]);
    }
  }

  function Bytewise(s: seq<byte>): seq<seq<byte>> {
    seq(|s|, i requires 0 <= i < |s| => [s[i]])
  }

  lemma {:induction false} BytewiseJoins(s: seq<byte>)
    ensures Concat(Bytewise(s)) == s
  {
    if s != [] {
      BytewiseJoins(s[..|s| - 1]);
      assert Bytewise(s)[..|s| - 1] == Bytewise(s[..|s| - 1]);
      assert s == s[..|s| - 1] + [s[|s| - 1]];
    }
  }

  /** A receive of one byte completes at most one packet and leaves nothing after it. */
  lemma OneByteMore(u: seq<byte>, b: byte)
    requires HeadOf(u) == Short
    ensures HeadOf(u + [b]).Whole? ==> HeadOf(u + [b]).packet == u + [b] && HeadOf([]) == Short
  {
    if |u| >= HEADER_SIZE {
      assert SizeField(u + [b]) == SizeField(u);
    }
    if HeadOf(u + [b]).Whole? {
      assert (u + [b])[..|u| + 1] == u + [b];
    }
  }

  lemma ParseByte(handler: Handler, past: seq<Packet>, u: seq<byte>, b: byte)
    requires HeadOf(u) == Short
    ensures Parse(handler, false, past, u + [b]) == Parse(Strict(handler), false, past, u + [b])
    ensures var r := Parse(handler, false, past, u + [b]); r.closed || HeadOf(r.unread) == Short
  {
    OneByteMore(u, b);
    if HeadOf(u + [b]).Whole? {
      var p := HeadOf(u + [b]).packet;
      StrictOutcome(handler, past + [p]);
      assert (u + [b])[|p|..] == [];
    }
  }

  lemma {:induction false} BytewiseIsStrict(handler: Handler, s: seq<byte>)
    ensures var r := FeedAll(handler, Bytewise(s));
      r == FeedAll(Strict(handler), Bytewise(s)) && (r.closed || HeadOf(r.unread) == Short)
  {
    if s != [] {
      var n := |s| - 1;
      BytewiseIsStrict(handler, s[..n]);
      assert Bytewise(s)[..n] == Bytewise(s[..n]);
      var r := FeedAll(handler, Bytewise(s[..n]));
      if !r.closed { ParseByte(handler, r.delivered, r.unread, s[n]); }
    }
  }

  /** For a handler that never closes and returns, cutting does not matter at all. */
  lemma StrictIrrelevant(handler: Handler, chunks: seq<seq<byte>>)
    ensures FeedAll(Strict(handler), chunks) == ParseAll(Strict(handler), Concat(chunks))
    decreases |chunks|
  {
    if chunks != [] {
      StrictIrrelevant(handler, chunks[..|chunks| - 1]);
      var a, b := Concat(chunks[..|chunks| - 1]), chunks[|chunks| - 1];
      ParseSplit(Strict(handler), false, [], a, b);
      if ParseAll(Strict(handler), a).closed { StrictStops(handler, [], a, b); }
    }
  }

  /** Every way to cut the stream delivers the same packets. */
  ghost predicate ChunkingIrrelevant(handler: Handler, stream: seq<byte>) {
    forall chunks :: Concat(chunks) == stream ==>
      FeedAll(handler, chunks).delivered == ParseAll(handler, stream).delivered
  }

  /** What is delivered depends on the bytes only, and not on how they were cut into receives, exactly if
  parsing the stream at once delivers nothing after a packet on which the handler closes and returns. */
  lemma ChunkingIrrelevantIff(handler: Handler, stream: seq<byte>)
    ensures ChunkingIrrelevant(handler, stream) <==> ClosesOnlyLast(handler, 0, ParseAll(handler, stream).delivered)
  {
    StrictIsBelow(handler, [], stream);
    if ChunkingIrrelevant(handler, stream) {
      BytewiseJoins(stream);
      BytewiseIsStrict(handler, stream);
      StrictIrrelevant(handler, Bytewise(stream));
      assert FeedAll(handler, Bytewise(stream)).delivered == ParseAll(handler, stream).delivered;
    } else {
      var chunks :| Concat(chunks) == stream && FeedAll(handler, chunks).delivered != ParseAll(handler, stream).delivered;
      ReceivedBetween(handler, chunks);
    }
  }

  /** And then the rest of the receiver's state does not depend on it either while the session is open. */
  lemma OpenIsParsed(handler: Handler, chunks: seq<seq<byte>>)
    ensures var r, w := FeedAll(handler, chunks), ParseAll(handler, Concat(chunks));
      r.closed == w.closed && (!r.closed ==> r == w)
  {
    ReceivedBetween(handler, chunks);
  }

  /** Between receives, less than one packet is kept. */
  lemma ParseKeepsLittle(handler: Handler, closed: bool, past: seq<Packet>, s: seq<byte>)
    ensures |Parse(handler, closed, past, s).unread| < MAX_PACKET_SIZE
    decreases |s|
  {
  }

  // ---------------------------------------------------------------- what is delivered

  ghost predicate AllWellFormed(ps: seq<Packet>) {
    forall k :: 0 <= k < |ps| ==> WellFormed(ps[k])
  }

  /** No packet of `ps` but the last, and none of the first `n`, is one the handler throws on. */
  ghost predicate ThrowsOnlyLast(handler: Handler, n: nat, ps: seq<Packet>) {
    forall k :: n < k < |ps| ==> OutcomeOf(handler, ps[..k]) != Throws
  }

  /** One of the packets after the first `n` makes the handler close and return. */
  ghost predicate SomeCloses(handler: Handler, n: nat, ps: seq<Packet>) {
    exists k :: n < k <= |ps| && OutcomeOf(handler, ps[..k]) == Closes
  }

  /** Whether the session is closed behind a packet that did not throw. */
  function ClosedAfter(handler: Handler, closed: bool, h: seq<Packet>): bool {
    closed || OutcomeOf(handler, h) == Closes
  }

  lemma WholeIsWellFormed(s: seq<byte>)
    requires HeadOf(s).Whole?
    ensures WellFormed(HeadOf(s).packet)
    ensures s == HeadOf(s).packet + s[|HeadOf(s).packet|..]
  {
    assert SizeField(s[..SizeField(s)]) == SizeField(s);
  }

  lemma HeadOfPacket(p: Packet, s: seq<byte>)
    requires WellFormed(p) && p <= s
    ensures HeadOf(s) == Whole(p)
  {
    assert s[..|p|] == p;
  }

  lemma ConcatSnoc(ps: seq<seq<byte>>, p: seq<byte>)
    ensures Concat(ps + [p]) == Concat(ps) + p
  {
    assert (ps + [p])[..|ps|] == ps;
  }

  lemma {:induction false} ConcatPrefix(ps: seq<seq<byte>>, n: nat)
    requires n <= |ps|
    ensures Concat(ps[..n]) <= Concat(ps)
    decreases |ps|
  {
    if n == |ps| {
      assert ps[..n] == ps;
    } else {
      assert ps[..|ps| - 1][..n] == ps[..n];
      ConcatPrefix(ps[..|ps| - 1], n);
    }
  }

  lemma SamePrefix<T>(a: seq<T>, p: seq<T>, s: seq<T>, whole: seq<T>)
    requires a + p <= whole <= a + s
    ensures p <= s
  {
    assert (a + s)[|a|..] == s && (a + p)[|a|..] == p;
    assert (a + s)[..|a + p|] == a + p;
    forall k | 0 <= k < |p| ensures p[k] == s[k] {
      assert (a + p)[|a| + k] == (a + s)[|a| + k];
    }
  }

  lemma ParseNext(handler: Handler, closed: bool, past: seq<Packet>, s: seq<byte>, p: Packet)
    requires HeadOf(s) == Whole(p) && OutcomeOf(handler, past + [p]) != Throws
    ensures |p| <= |s|
    ensures Parse(handler, closed, past, s)
      == Parse(handler, ClosedAfter(handler, closed, past + [p]), past + [p], s[|p|..])
  {
  }

  /** The delivered packets are well-formed and are the beginning of the stream, only the last of them
  can have made the handler throw, and an open session has kept the rest of the stream. */
  lemma {:induction false} ParseSound(handler: Handler, closed: bool, past: seq<Packet>, s: seq<byte>, stream: seq<byte>)
    requires AllWellFormed(past) && stream == Concat(past) + s
    ensures var r := Parse(handler, closed, past, s);
      && past <= r.delivered && AllWellFormed(r.delivered) && ThrowsOnlyLast(handler, |past|, r.delivered)
      && Concat(r.delivered) <= stream
      && (!r.closed ==> r.unread == stream[|Concat(r.delivered)|..])
    decreases |s|
  {
    if HeadOf(s).Whole? {
      var p := HeadOf(s).packet;
      WholeIsWellFormed(s);
      ConcatSnoc(past, p);
      AppendAssociates(Concat(past), p, s[|p|..]);
      if OutcomeOf(handler, past + [p]) != Throws {
        var closed' := ClosedAfter(handler, closed, past + [p]);
        ParseNext(handler, closed, past, s, p);
        ParseSound(handler, closed', past + [p], s[|p|..], stream);
        SoundStep(handler, past, p, Parse(handler, closed', past + [p], s[|p|..]).delivered);
      }
    }
  }

  lemma SoundStep(handler: Handler, past: seq<Packet>, p: Packet, ps: seq<Packet>)
    requires past + [p] <= ps && OutcomeOf(handler, past + [p]) != Throws
    requires ThrowsOnlyLast(handler, |past + [p]|, ps)
    ensures past <= ps && ThrowsOnlyLast(handler, |past|, ps)
  {
    forall k | |past| < k < |ps| ensures OutcomeOf(handler, ps[..k]) != Throws {
      if k == |past| + 1 { assert ps[..k] == past + [p]; }
    }
  }

  lemma AppendAssociates<T>(a: seq<T>, b: seq<T>, c: seq<T>)
    ensures a + (b + c) == a + b + c
  {
  }

  /** Why parsing ends: an open session waits for more of a packet; a session is closed because it was,
  or by the handler, which threw on the last packet or closed on one, or by a bad header. */
  ghost predicate EndsWell(handler: Handler, closed: bool, past: seq<Packet>, stream: seq<byte>, r: Receiver) {
    var n := |Concat(r.delivered)|;
    && past <= r.delivered && n <= |stream|
    && (r.closed <==>
          || closed || SomeCloses(handler, |past|, r.delivered)
          || (|past| < |r.delivered| && OutcomeOf(handler, r.delivered) == Throws)
          || HeadOf(stream[n..]) == Bad)
    && (!r.closed ==> HeadOf(r.unread) == Short)
  }

  lemma {:induction false} ParseEnds(handler: Handler, closed: bool, past: seq<Packet>, s: seq<byte>, stream: seq<byte>)
    requires stream == Concat(past) + s
    ensures EndsWell(handler, closed, past, stream, Parse(handler, closed, past, s))
    decreases |s|
  {
    if HeadOf(s).Whole? {
      var p := HeadOf(s).packet;
      WholeIsWellFormed(s);
      ConcatSnoc(past, p);
      AppendAssociates(Concat(past), p, s[|p|..]);
      if OutcomeOf(handler, past + [p]) != Throws {
        var closed' := ClosedAfter(handler, closed, past + [p]);
        ParseNext(handler, closed, past, s, p);
        ParseEnds(handler, closed', past + [p], s[|p|..], stream);
        EndsStep(handler, closed, past, stream, p, Parse(handler, closed', past + [p], s[|p|..]));
      }
    } else {
      assert stream[|Concat(past)|..] == s;
    }
  }

  lemma SomeClosesStep(handler: Handler, past: seq<Packet>, p: Packet, ps: seq<Packet>)
    requires past + [p] <= ps
    ensures SomeCloses(handler, |past|, ps) <==>
      OutcomeOf(handler, past + [p]) == Closes || SomeCloses(handler, |past + [p]|, ps)
  {
    var n := |past| + 1;
    assert ps[..n] == past + [p];
    if k :| |past| < k <= |ps| && OutcomeOf(handler, ps[..k]) == Closes {
      assert k == n || n < k;
    }
    if OutcomeOf(handler, past + [p]) == Closes {
      assert OutcomeOf(handler, ps[..n]) == Closes;
    }
  }

  lemma EndsStep(handler: Handler, closed: bool, past: seq<Packet>, stream: seq<byte>, p: Packet, r: Receiver)
    requires OutcomeOf(handler, past + [p]) != Throws
    requires EndsWell(handler, ClosedAfter(handler, closed, past + [p]), past + [p], stream, r)
    ensures EndsWell(handler, closed, past, stream, r)
  {
    SomeClosesStep(handler, past, p, r.delivered);
    if |r.delivered| == |past + [p]| { assert r.delivered == past + [p]; }
  }

  /** What the parser does next, in bytes and numbers: the first two bytes are the size, low byte first. A
  size below 4 or above 16384 closes the session at once, however much has come, and consumes everything;
  a size that has not come yet changes nothing; a packet that has come is given to the handler, and if
  that throws, everything counts as consumed. */
  lemma ParseBytes(handler: Handler, closed: bool, past: seq<Packet>, s: seq<byte>)
    ensures var r := Parse(handler, closed, past, s);
      if |s| < 4 then r == Receiver(past, s, closed)
      else
        var n := (s[0] as int) + 256 * (s[1] as int);
        if n < 4 || n > 16384 then r == Receiver(past, [], true)
        else if |s| < n then r == Receiver(past, s, closed)
        else
          var now := past + [s[..n]];
          if handler(now) == Throws then r == Receiver(now, [], true)
          else now <= r.delivered && r == Parse(handler, closed || handler(now) == Closes, now, s[n..])
  {
    if HeadOf(s).Whole? {
      var p := HeadOf(s).packet;
      if OutcomeOf(handler, past + [p]) != Throws {
        ParseNext(handler, closed, past, s, p);
        ParseExtends(handler, ClosedAfter(handler, closed, past + [p]), past + [p], s[|p|..]);
      }
    }
  }

  /** The printed bytes: size and id, low byte first, and the payload. */
  lemma FrameBytes(id: uint16, payload: seq<byte>)
    requires |payload| <= 65531
    ensures var p := Frame(id, payload);
      && |p| == 4 + |payload| && p[4..] == payload
      && (p[0] as int) + 256 * (p[1] as int) == |p| && (p[2] as int) + 256 * (p[3] as int) == id as int
  {
  }

  /** Nothing well-formed is left out: any list of well-formed packets that begins the stream, up to
  the first that makes the handler throw, is delivered. */
  lemma {:induction false} ParseComplete(handler: Handler, closed: bool, past: seq<Packet>, s: seq<byte>, stream: seq<byte>, ps: seq<Packet>)
    requires past <= ps && AllWellFormed(ps) && ThrowsOnlyLast(handler, |past|, ps)
    requires stream == Concat(past) + s && Concat(ps) <= stream
    ensures ps <= Parse(handler, closed, past, s).delivered
    decreases |ps| - |past|
  {
    if past == ps {
      ParseExtends(handler, closed, past, s);
    } else {
      var p := ps[|past|];
      NextPacket(past, s, ps);
      assert ps[..|past| + 1] == past + [p];
      if OutcomeOf(handler, past + [p]) == Throws {
        assert ps == past + [p];
      } else {
        ParseNext(handler, closed, past, s, p);
        ParseComplete(handler, ClosedAfter(handler, closed, past + [p]), past + [p], s[|p|..], stream, ps);
      }
    }
  }

  lemma SplitAfter<T>(a: seq<T>, p: seq<T>, s: seq<T>)
    requires p <= s
    ensures a + s == (a + p) + s[|p|..]
  {
    assert s == p + s[|p|..];
    AppendAssociates(a, p, s[|p|..]);
  }

  lemma NextPacket(past: seq<Packet>, s: seq<byte>, ps: seq<Packet>)
    requires past < ps && WellFormed(ps[|past|])
    requires Concat(ps) <= Concat(past) + s
    ensures var p := ps[|past|];
      && HeadOf(s) == Whole(p) && past + [p] <= ps && |p| <= |s|
      && Concat(past) + s == Concat(past + [p]) + s[|p|..]
  {
    var p := ps[|past|];
    assert ps[..|past| + 1] == past + [p];
    ConcatPrefix(ps, |past| + 1);
    ConcatSnoc(past, p);
    SamePrefix(Concat(past), p, s, Concat(ps));
    HeadOfPacket(p, s);
    SplitAfter(Concat(past), p, s);
  }

  // ---------------------------------------------------------------- printing, then parsing

  datatype Message = Message(id: uint16, payload: seq<byte>)

  predicate Fits(m: Message) {
    |m.payload| + HEADER_SIZE <= MAX_PACKET_SIZE
  }

  predicate AllFit(ms: seq<Message>) {
    forall k :: 0 <= k < |ms| ==> Fits(ms[k])
  }

  function Print(ms: seq<Message>): (r: seq<Packet>)
    requires AllFit(ms)
    ensures |r| == |ms|
  {
    if ms == [] then [] else [Frame(ms[0].id, ms[0].payload)] + Print(ms[1..])
  }

  function Read(p: Packet): Message
    requires |p| >= HEADER_SIZE
  {
    Message(IdField(p), Payload(p))
  }

  lemma {:induction false} PrintedPackets(ms: seq<Message>)
    requires AllFit(ms)
    ensures forall k :: 0 <= k < |ms| ==> WellFormed(Print(ms)[k]) && Read(Print(ms)[k]) == ms[k]
  {
    if ms != [] {
      FrameFields(ms[0].id, ms[0].payload);
      PrintedPackets(ms[1..]);
    }
  }

  /** However the frames of a list of messages are cut into receives, if the handler returns on each of
  them then exactly these frames are delivered, in order, nothing is left unread, the session stays open,
  and ids and payloads can be read back. */
  lemma MessagesArrive(handler: Handler, ms: seq<Message>, chunks: seq<seq<byte>>)
    requires AllFit(ms)
    requires forall k :: 0 < k <= |ms| ==> OutcomeOf(handler, Print(ms)[..k]) == Returns
    requires Concat(chunks) == Concat(Print(ms))
    ensures FeedAll(handler, chunks) == Receiver(Print(ms), [], false)
    ensures forall k :: 0 <= k < |ms| ==> WellFormed(Print(ms)[k]) && Read(Print(ms)[k]) == ms[k]
  {
    PrintedPackets(ms);
    ParseExactly(handler, [], Concat(chunks), Print(ms));
    OpenIsParsed(handler, chunks);
  }

  lemma {:induction false} ParseExactly(handler: Handler, past: seq<Packet>, s: seq<byte>, ps: seq<Packet>)
    requires past <= ps && AllWellFormed(ps) && Concat(past) + s == Concat(ps)
    requires forall k :: |past| < k <= |ps| ==> OutcomeOf(handler, ps[..k]) == Returns
    ensures Parse(handler, false, past, s) == Receiver(ps, [], false)
    decreases |ps| - |past|
  {
    if past == ps {
      assert s == [];
    } else {
      var p := ps[|past|];
      NextPacket(past, s, ps);
      assert ps[..|past| + 1] == past + [p];
      ParseExactly(handler, past + [p], s[|p|..], ps);
    }
  }

  function AlwaysCloses(): Handler {
    (h: seq<Packet>) => Closes
  }

  lemma ClosesOnOne(f: Packet)
    requires WellFormed(f)
    ensures FeedAll(AlwaysCloses(), [f]) == Receiver([f], [], true)
  {
    var none: seq<Packet>, nothing: seq<byte> := [], [];
    HeadOfPacket(f, f);
    assert f[|f|..] == nothing && nothing + f == f && none + [f] == [f];
    ParseNext(AlwaysCloses(), false, none, f, f);
    assert [f][..0] == none;
  }

  lemma ClosesOnTwo(f: Packet)
    requires WellFormed(f)
    ensures ParseAll(AlwaysCloses(), f + f).delivered == [f, f]
  {
    var none: seq<Packet>, nothing: seq<byte> := [], [];
    HeadOfPacket(f, f);
    HeadOfPacket(f, f + f);
    assert f[|f|..] == nothing && (f + f)[|f|..] == f;
    assert none + [f] == [f] && [f] + [f] == [f, f];
    ParseNext(AlwaysCloses(), true, [f], f, f);
    ParseNext(AlwaysCloses(), false, none, f + f, f);
  }

  /** Where it does depend on the cut: two frames to a handler that closes and returns are delivered both
  when they come together, and only the first when they come one by one. */
  lemma CutMatters(id: uint16)
    ensures var f := Frame(id, []);
      && FeedAll(AlwaysCloses(), [f + f]).delivered == [f, f]
      && FeedAll(AlwaysCloses(), [f, f]).delivered == [f]
  {
    var f := Frame(id, []);
    FrameFields(id, []);
    ClosesOnOne(f);
    ClosesOnTwo(f);
    var none: seq<seq<byte>>, nothing: seq<byte> := [], [];
    assert [f + f][..0] == none && nothing + (f + f) == f + f && [f, f][..1] == [f];
  }

  // ---------------------------------------------------------------- sizes of 16 bits

  /** What the printer takes for the sizes of the payload and of the packet. */
  function DataSize(n: nat): uint16 {
    n % 0x1_0000
  }

  function PacketSize(n: nat): uint16 {
    (DataSize(n) + HEADER_SIZE) % 0x1_0000
  }

  /** The header and `DataSize` bytes lie inside a buffer of `PacketSize` bytes. */
  predicate InBuffer(n: nat) {
    HEADER_SIZE + DataSize(n) <= PacketSize(n)
  }

  lemma InBufferIff(n: nat)
    ensures InBuffer(n) <==> n % 0x1_0000 <= 0x1_0000 - 1 - HEADER_SIZE
    ensures InBuffer(n) ==> PacketSize(n) == HEADER_SIZE + DataSize(n)
  {
  }

  function Zeros(n: nat): seq<byte> {
    seq(n, i => 0)
  }

  /** The printed packet for a payload of any length: the serializer refuses to write a payload that is
  longer than the size it is given, and then the buffer keeps the zeros it was made with. */
  function Sent(id: uint16, payload: seq<byte>): Packet
    requires InBuffer(|payload|)
  {
    InBufferIff(|payload|);
    Frame(id, if DataSize(|payload|) == |payload| then payload else Zeros(DataSize(|payload|)))
  }

  /** The receiver accepts what was printed exactly if its 16-bit size is within the packet limit, and it
  gets the message exactly if the payload has at most MAX_PACKET_SIZE - 4 bytes; a packet over the limit
  closes the session before anything of it is delivered. */
  lemma AcceptedIff(handler: Handler, closed: bool, past: seq<Packet>, id: uint16, payload: seq<byte>, tail: seq<byte>)
    requires InBuffer(|payload|)
    ensures var p := Sent(id, payload);
      var r := Parse(handler, closed, past, p + tail);
      && (past + [p] <= r.delivered <==> PacketSize(|payload|) <= MAX_PACKET_SIZE)
      && (past + [p] <= r.delivered && Read(p) == Message(id, payload) <==> Fits(Message(id, payload)))
      && (PacketSize(|payload|) > MAX_PACKET_SIZE ==> r == Receiver(past, [], true))
  {
    var n, p := DataSize(|payload|), Sent(id, payload);
    InBufferIff(|payload|);
    FrameFields(id, if n == |payload| then payload else Zeros(n));
    FrameAccepted(handler, closed, past, p, tail);
  }

  lemma FrameAccepted(handler: Handler, closed: bool, past: seq<Packet>, p: Packet, tail: seq<byte>)
    requires |p| >= HEADER_SIZE && SizeField(p) == |p|
    ensures var r := Parse(handler, closed, past, p + tail);
      && (past + [p] <= r.delivered <==> |p| <= MAX_PACKET_SIZE)
      && (|p| > MAX_PACKET_SIZE ==> r == Receiver(past, [], true))
  {
    assert (p + tail)[..|p|] == p && SizeField(p + tail) == |p|;
    if |p| <= MAX_PACKET_SIZE && OutcomeOf(handler, past + [p]) != Throws {
      assert HeadOf(p + tail) == Whole(p);
      ParseNext(handler, closed, past, p + tail, p);
      ParseExtends(handler, ClosedAfter(handler, closed, past + [p]), past + [p], (p + tail)[|p|..]);
    }
  }
}
