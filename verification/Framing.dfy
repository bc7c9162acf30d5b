/**
 How read_from_client_connection cuts the stream of a peer into messages. How much it takes for a REQUEST or a
 PIECE depends on the state of the slot, and for a CANCEL it takes less than the message, so staying on message
 boundaries is a property of runs.
 */
module Framing {
  import opened Bytes
  import opened Swarm
  import Network
  import SwarmInvariants
  import SwarmResults

  const ID_CHOKE: byte := 0
  const ID_UNCHOKE: byte := 1
  const ID_INTERESTED: byte := 2
  const ID_NOT_INTERESTED: byte := 3
  const ID_HAVE: byte := 4
  const ID_BIT_FIELD: byte := 5
  const ID_REQUEST: byte := 6
  const ID_PIECE: byte := 7
  const ID_CANCEL: byte := 8

  // ---------- numbers and bit fields on the wire ----------

  /** A 32-bit number in network order; missing bytes read as 0. */
  function U32(s: seq<byte>): nat {
    (if |s| > 0 then s[0] as nat else 0) * 0x1000000 + (if |s| > 1 then s[1] as nat else 0) * 0x10000
      + (if |s| > 2 then s[2] as nat else 0) * 0x100 + if |s| > 3 then s[3] as nat else 0
  }

  function Net32(n: nat): (r: seq<byte>)
    requires n < 0x100000000
    ensures |r| == 4
  {
    [(n / 0x1000000) as byte, (n / 0x10000 % 256) as byte, (n / 0x100 % 256) as byte, (n % 256) as byte]
  }

  lemma U32OfNet32(n: nat)
    requires n < 0x100000000
    ensures U32(Net32(n)) == n
  {
    SplitByte(n, 1);
    SplitByte(n, 0x100);
    SplitByte(n, 0x10000);
    NetBytes(n);
  }

  lemma NetBytes(n: nat)
    requires n < 0x100000000
    ensures U32(Net32(n)) == n / 0x1000000 * 0x1000000 + n / 0x10000 % 256 * 0x10000 + n / 0x100 % 256 * 0x100 + n % 256
  {
  }

  function ToBits(s: seq<byte>, size: nat): seq<bv8> {
    seq(size, k requires 0 <= k < size => if k < |s| then s[k] as bv8 else 0)
  }

  function FromBits(bits: seq<bv8>): seq<byte> {
    seq(|bits|, k requires 0 <= k < |bits| => (bits[k] as int) as byte)
  }

  lemma BitsThere(bits: seq<bv8>)
    ensures ToBits(FromBits(bits), |bits|) == bits
  {
    forall k | 0 <= k < |bits|
      ensures ToBits(FromBits(bits), |bits|)[k] == bits[k]
    {
    }
  }

  // ---------- the cut ----------

  function Min(a: nat, b: nat): nat {
    if a <= b then a else b
  }

  /** The message read from the start of the stream s of a slot, and how many bytes are taken for it. */
  function Frame(c: Slot, s: seq<byte>): (r: (Message, nat))
    ensures r.1 <= |s|
  {
    if s == [] then (Hangup, 0)
    else if |s| < 4 then (KeepAlive, |s|)
    else
      var length := U32(s[..4]);
      if length == 0 then (KeepAlive, 4)
      else if |s| == 4 then (Hangup, 4)
      else
        var (m, k) := Body(c, s[4], length, s[5..]);
        (m, 5 + k)
  }

  /** The rest of a message whose length and id have been read. */
  function Body(c: Slot, id: byte, length: nat, p: seq<byte>): (r: (Message, nat))
    requires length > 0
    ensures r.1 <= |p|
  {
    if id == ID_CHOKE then (Choke, 0)
    else if id == ID_UNCHOKE then (Unchoke, 0)
    else if id == ID_INTERESTED then (Interested, 0)
    else if id == ID_NOT_INTERESTED then (NotInterested, 0)
    else if id == ID_HAVE then (Have(U32(p)), Min(4, |p|))
    else if id == ID_BIT_FIELD then (BitFieldMsg(ToBits(p, length - 1)), Min(length - 1, |p|))
    else if id == ID_REQUEST then
      if c.peerInterested && !c.amChoking then
        (Request(U32(p), U32(p[Min(4, |p|)..]), U32(p[Min(8, |p|)..])), Min(12, |p|))
      else (Request(0, 0, 0), 0)
    else if id == ID_PIECE then
      if |p| < 8 then (CutPiece, |p|)
      else if U32(p[..4]) != c.interestedPiece || length < 9 then (Piece(U32(p[..4]), U32(p[4..8]), []), 8)
      else (Piece(U32(p[..4]), U32(p[4..8]), p[8..8 + Min(length - 9, |p| - 8)]), 8 + Min(length - 9, |p| - 8))
    else if id == ID_CANCEL then (Cancel(0, 0, 0), 0)
    else (Unknown, 0)
  }

  // ---------- messages as BEP 3 writes them ----------

  /** What fits on the wire, with a length that the reader holds in an int. */
  predicate Sendable(m: Message) {
    match m
    case Have(p) => p < 0x100000000
    case BitFieldMsg(bits) => |bits| < 0x7FFFFFFF
    case Request(p, b, l) => p < 0x100000000 && b < 0x100000000 && l < 0x100000000
    case Cancel(p, b, l) => p < 0x100000000 && b < 0x100000000 && l < 0x100000000
    case Piece(p, b, data) => p < 0x100000000 && b < 0x100000000 && |data| < 0x7FFFFFF7
    case Hangup => false
    case CutPiece => false
    case Unknown => false
    case _ => true
  }

  function Plain(id: byte): seq<byte> {
    Net32(1) + [id]
  }

  function Write(m: Message): seq<byte>
    requires Sendable(m)
  {
    match m
    case KeepAlive => Net32(0)
    case Choke => Plain(ID_CHOKE)
    case Unchoke => Plain(ID_UNCHOKE)
    case Interested => Plain(ID_INTERESTED)
    case NotInterested => Plain(ID_NOT_INTERESTED)
    case Have(p) => Net32(5) + [ID_HAVE] + Net32(p)
    case BitFieldMsg(bits) => Net32(1 + |bits|) + [ID_BIT_FIELD] + FromBits(bits)
    case Request(p, b, l) => Net32(13) + [ID_REQUEST] + (Net32(p) + Net32(b) + Net32(l))
    case Piece(p, b, data) => Net32(9 + |data|) + [ID_PIECE] + (Net32(p) + Net32(b) + data)
    case Cancel(p, b, l) => Net32(13) + [ID_CANCEL] + (Net32(p) + Net32(b) + Net32(l))
  }

  /** What the state of the slot must be for the reader to take a message whole. */
  predicate InStep(c: Slot, m: Message) {
    match m
    case Request(_, _, _) => c.peerInterested && !c.amChoking
    case Piece(p, _, data) => p == c.interestedPiece || data == []
    case Cancel(_, _, _) => false
    case _ => true
  }

  lemma FrameParts(c: Slot, length: nat, id: byte, p: seq<byte>)
    requires 0 < length < 0x100000000
    ensures Frame(c, Net32(length) + [id] + p) == (Body(c, id, length, p).0, 5 + Body(c, id, length, p).1)
  {
    hide U32, Net32, Body;
    var s := Net32(length) + [id] + p;
    assert s[..4] == Net32(length) && s[5..] == p && s[4] == id;
    U32OfNet32(length);
  }

  lemma Three(a: nat, b: nat, l: nat, rest: seq<byte>)
    requires a < 0x100000000 && b < 0x100000000 && l < 0x100000000
    ensures var p := Net32(a) + Net32(b) + Net32(l) + rest;
      U32(p) == a && U32(p[Min(4, |p|)..]) == b && U32(p[Min(8, |p|)..]) == l
  {
    hide Net32, U32;
    var p := Net32(a) + Net32(b) + Net32(l) + rest;
    assert p == Net32(a) + (Net32(b) + Net32(l) + rest);
    assert p[4..] == Net32(b) + (Net32(l) + rest);
    assert p[8..] == Net32(l) + rest;
    U32OfFront(a, Net32(b) + Net32(l) + rest);
    U32OfFront(b, Net32(l) + rest);
    U32OfFront(l, rest);
  }

  lemma U32OfFront(n: nat, rest: seq<byte>)
    requires n < 0x100000000
    ensures U32(Net32(n) + rest) == n
  {
    U32OfNet32(n);
  }

  lemma PieceParts(a: nat, b: nat, data: seq<byte>, rest: seq<byte>)
    requires a < 0x100000000 && b < 0x100000000
    ensures var p := Net32(a) + Net32(b) + data + rest;
      U32(p[..4]) == a && U32(p[4..8]) == b && p[8..8 + |data|] == data && |p| == 8 + |data| + |rest|
  {
    hide Net32, U32;
    var p := Net32(a) + Net32(b) + data + rest;
    assert p[..4] == Net32(a) && p[4..8] == Net32(b) && p[8..8 + |data|] == data;
    U32OfNet32(a);
    U32OfNet32(b);
  }

  /** Read in step, a message is taken whole and understood, whatever follows it. */
  lemma ReadInStep(c: Slot, m: Message, rest: seq<byte>)
    requires Sendable(m) && InStep(c, m)
    ensures Frame(c, Write(m) + rest) == (m, |Write(m)|)
  {
    hide Frame, Net32, U32, ToBits, FromBits;
    match m
    case KeepAlive =>
      U32OfNet32(0);
      ReadKeepAlive(c, rest);
    case Choke => ReadPlain(c, ID_CHOKE, rest);
    case Unchoke => ReadPlain(c, ID_UNCHOKE, rest);
    case Interested => ReadPlain(c, ID_INTERESTED, rest);
    case NotInterested => ReadPlain(c, ID_NOT_INTERESTED, rest);
    case Have(p) =>
      assert Write(m) + rest == Net32(5) + [ID_HAVE] + (Net32(p) + rest);
      FrameParts(c, 5, ID_HAVE, Net32(p) + rest);
      U32OfFront(p, rest);
    case BitFieldMsg(bits) => ReadBitField(c, bits, rest);
    case Request(p, b, l) =>
      var payload := Net32(p) + Net32(b) + Net32(l) + rest;
      assert Write(m) + rest == Net32(13) + [ID_REQUEST] + payload;
      FrameParts(c, 13, ID_REQUEST, payload);
      Three(p, b, l, rest);
    case Piece(p, b, data) => ReadPiece(c, p, b, data, rest);
  }

  lemma ReadKeepAlive(c: Slot, rest: seq<byte>)
    ensures Frame(c, Net32(0) + rest) == (KeepAlive, 4)
  {
    hide Body;
    assert (Net32(0) + rest)[..4] == Net32(0);
  }

  lemma ReadPlain(c: Slot, id: byte, rest: seq<byte>)
    requires id <= 3
    ensures Frame(c, Plain(id) + rest)
         == (if id == 0 then Choke else if id == 1 then Unchoke else if id == 2 then Interested else NotInterested, 5)
  {
    hide Frame, Net32;
    FrameParts(c, 1, id, rest);
  }

  lemma ReadBitField(c: Slot, bits: seq<bv8>, rest: seq<byte>)
    requires Sendable(BitFieldMsg(bits))
    ensures Frame(c, Write(BitFieldMsg(bits)) + rest) == (BitFieldMsg(bits), |Write(BitFieldMsg(bits))|)
  {
    hide Frame, Net32, ToBits;
    var sent := FromBits(bits);
    assert Write(BitFieldMsg(bits)) + rest == Net32(1 + |bits|) + [ID_BIT_FIELD] + (sent + rest);
    FrameParts(c, 1 + |bits|, ID_BIT_FIELD, sent + rest);
    BitsThere(bits);
    BitsOfFront(sent, rest);
  }

  lemma BitsOfFront(s: seq<byte>, rest: seq<byte>)
    ensures ToBits(s + rest, |s|) == ToBits(s, |s|)
  {
  }

  lemma ReadPiece(c: Slot, p: nat, b: nat, data: seq<byte>, rest: seq<byte>)
    requires Sendable(Piece(p, b, data)) && (p == c.interestedPiece || data == [])
    ensures Frame(c, Write(Piece(p, b, data)) + rest) == (Piece(p, b, data), |Write(Piece(p, b, data))|)
  {
    hide Frame, Net32, U32;
    var payload := Net32(p) + Net32(b) + data + rest;
    assert Write(Piece(p, b, data)) + rest == Net32(9 + |data|) + [ID_PIECE] + payload;
    FrameParts(c, 9 + |data|, ID_PIECE, payload);
    PieceParts(p, b, data, rest);
  }

  /** The reader ends on the boundary of a message, whatever follows, if and only if it reads it in step. */
  lemma OnBoundaryIff(c: Slot, m: Message, rest: seq<byte>)
    requires Sendable(m)
    ensures Frame(c, Write(m) + rest).1 == |Write(m)| <==> InStep(c, m)
  {
    hide Frame, Net32, U32, ToBits, FromBits;
    if InStep(c, m) {
      ReadInStep(c, m, rest);
    } else {
      match m
      case Request(p, b, l) =>
        var payload := Net32(p) + Net32(b) + Net32(l) + rest;
        assert Write(m) + rest == Net32(13) + [ID_REQUEST] + payload;
        FrameParts(c, 13, ID_REQUEST, payload);
      case Piece(p, b, data) =>
        var payload := Net32(p) + Net32(b) + data + rest;
        assert Write(m) + rest == Net32(9 + |data|) + [ID_PIECE] + payload;
        FrameParts(c, 9 + |data|, ID_PIECE, payload);
        PieceParts(p, b, data, rest);
      case Cancel(p, b, l) =>
        var payload := Net32(p) + Net32(b) + Net32(l) + rest;
        assert Write(m) + rest == Net32(13) + [ID_CANCEL] + payload;
        FrameParts(c, 13, ID_CANCEL, payload);
    }
  }

  // ---------- the bytes themselves ----------

  /** Four bytes as a number, the most significant one first. */
  predicate IsNumber(s: seq<byte>, n: nat) {
    |s| == 4 && n == s[0] as nat * 16777216 + s[1] as nat * 65536 + s[2] as nat * 256 + s[3] as nat
  }

  lemma NetOrder(n: nat)
    requires n < 0x100000000
    ensures IsNumber(Net32(n), n)
  {
    U32OfNet32(n);
  }

  /** The numbers that begin the messages of fixed length. */
  lemma SmallLengths()
    ensures Net32(0) == [0, 0, 0, 0] && Net32(1) == [0, 0, 0, 1] && Net32(5) == [0, 0, 0, 5]
      && Net32(13) == [0, 0, 0, 13]
  {
  }

  /** The messages on the wire, as BEP 3 lays them out. */
  lemma WireFormat(m: Message)
    requires Sendable(m)
    ensures match m
      case KeepAlive => Write(m) == [0, 0, 0, 0]
      case Choke => Write(m) == [0, 0, 0, 1, 0]
      case Unchoke => Write(m) == [0, 0, 0, 1, 1]
      case Interested => Write(m) == [0, 0, 0, 1, 2]
      case NotInterested => Write(m) == [0, 0, 0, 1, 3]
      case Have(p) => Write(m) == [0, 0, 0, 5, 4] + Net32(p)
      case BitFieldMsg(bits) =>
        && |Write(m)| == 5 + |bits| && Write(m)[..5] == Net32(1 + |bits|) + [5]
        && forall k | 0 <= k < |bits| :: Write(m)[5 + k] as int == bits[k] as int
      case Request(p, b, l) => Write(m) == [0, 0, 0, 13, 6] + (Net32(p) + Net32(b) + Net32(l))
      case Piece(p, b, data) => Write(m) == Net32(9 + |data|) + [7] + (Net32(p) + Net32(b) + data)
      case Cancel(p, b, l) => Write(m) == [0, 0, 0, 13, 8] + (Net32(p) + Net32(b) + Net32(l))
  {
    hide Net32;
    SmallLengths();
  }

  lemma ZeroFilled(p: seq<byte>)
    requires |p| < 4
    ensures IsNumber(p + seq(4 - |p|, _ => 0), U32(p))
  {
  }

  /** What a message is read as whose stream ends inside it, where the source fills up with zeros. */
  lemma CutMessages(c: Slot, length: nat, p: seq<byte>)
    requires 0 < length < 0x100000000
    ensures |p| < 4 ==>
      var (m, taken) := Body(c, 4, length, p);
      m.Have? && taken == |p| && IsNumber(p + seq(4 - |p|, _ => 0), m.piece)
    ensures |p| < length - 1 ==>
      var (m, taken) := Body(c, 5, length, p);
      && m.BitFieldMsg? && taken == |p| && |m.bits| == length - 1
      && forall k | 0 <= k < length - 1 :: m.bits[k] == if k < |p| then p[k] as bv8 else 0
  {
    hide U32;
    if |p| < 4 {
      ZeroFilled(p);
    }
  }

  // ---------- the streams of all connections, message by message ----------

  function WriteAll(ms: seq<Message>): seq<byte>
    requires forall k | 0 <= k < |ms| :: Sendable(ms[k])
  {
    if ms == [] then [] else Write(ms[0]) + WriteAll(ms[1..])
  }

  /** What the peer of a connection has yet to send: messages, and perhaps bytes after them. */
  datatype Source = Source(ms: seq<Message>, rest: seq<byte>) {
    predicate Valid() {
      forall k | 0 <= k < |ms| :: Sendable(ms[k])
    }

    function Stream(): seq<byte>
      requires Valid()
    {
      WriteAll(ms) + rest
    }
  }

  /**
   One turn of the event loop: the slot that is ready is served, or a connection is made or fails (an Accept or Connect
   event), with what the new peer is going to send.
   */
  datatype Turn = Served(slot: nat, rnd: nat) | Joined(e: Event, source: Source)

  /** One source for each slot. */
  ghost predicate Sources(sources: seq<Source>) {
    |sources| == MAX_CONN && forall i | 0 <= i < MAX_CONN :: sources[i].Valid()
  }

  function Streams(sources: seq<Source>): seq<seq<byte>>
    requires Sources(sources)
  {
    seq(MAX_CONN, i requires 0 <= i < MAX_CONN => sources[i].Stream())
  }

  /** The slot of a new connection takes its new source (or stream), the others keep theirs. */
  function Join<T>(s: State, e: Event, sources: seq<T>, source: T): (r: seq<T>)
    requires |sources| == |s.conn|
    ensures |r| == |sources|
  {
    match OpenedSlot(s, e)
    case Some(i) => sources[i := source]
    case None => sources
  }

  /** Running the turns, each slot that is served takes the next message of its source, in step; the run ends in s'. */
  ghost predicate MessageRun(t: Torrent, s: State, sources: seq<Source>, turns: seq<Turn>, s': State,
    sources': seq<Source>)
    requires Shape(t, s) && Sources(sources)
    decreases |turns|
  {
    if turns == [] then s' == s && sources' == sources
    else
      match turns[0]
      case Joined(e, source) =>
        && !e.Receive? && Permitted(t, s, e) && source.Valid()
        && MessageRun(t, Step(t, s, e), Join(s, e, sources, source), turns[1..], s', sources')
      case Served(i, rnd) =>
        && i < MAX_CONN && sources[i].ms != []
        && var m := sources[i].ms[0];
           && InStep(s.conn[i], m) && Permitted(t, s, Receive(i, m, rnd))
           && MessageRun(t, Step(t, s, Receive(i, m, rnd)), sources[i := Source(sources[i].ms[1..], sources[i].rest)],
              turns[1..], s', sources')
  }

  /** The same with bytes: a slot that is served reads a message off the front of its stream. */
  ghost predicate ByteRun(t: Torrent, s: State, streams: seq<seq<byte>>, turns: seq<Turn>, s': State,
    streams': seq<seq<byte>>)
    requires Shape(t, s) && |streams| == MAX_CONN
    decreases |turns|
  {
    if turns == [] then s' == s && streams' == streams
    else
      match turns[0]
      case Joined(e, source) =>
        && !e.Receive? && Permitted(t, s, e) && source.Valid()
        && ByteRun(t, Step(t, s, e), Join(s, e, streams, source.Stream()), turns[1..], s', streams')
      case Served(i, rnd) =>
        && i < MAX_CONN
        && var (m, k) := Frame(s.conn[i], streams[i]);
           && Permitted(t, s, Receive(i, m, rnd))
           && ByteRun(t, Step(t, s, Receive(i, m, rnd)), streams[i := streams[i][k..]], turns[1..], s', streams')
  }

  /** Taking the first message off a source takes exactly its bytes off the stream. */
  lemma FirstMessage(c: Slot, source: Source)
    requires source.Valid() && source.ms != [] && InStep(c, source.ms[0])
    ensures Source(source.ms[1..], source.rest).Valid()
    ensures Frame(c, source.Stream()).0 == source.ms[0]
    ensures source.Stream()[Frame(c, source.Stream()).1..] == Source(source.ms[1..], source.rest).Stream()
  {
    hide Frame, Write, InStep, Sendable;
    var m, tail := source.ms[0], WriteAll(source.ms[1..]) + source.rest;
    assert source.Stream() == Write(m) + tail;
    ReadInStep(c, m, tail);
    assert (Write(m) + tail)[|Write(m)|..] == tail;
  }

  /**
   If the messages that the peers send are each read in step, the program handles exactly those messages, in order
   on every connection, and all streams stay on message boundaries, however connections and messages are
   interleaved.
   */
  lemma {:induction false} StreamsAreMessages(t: Torrent, s: State, sources: seq<Source>, turns: seq<Turn>, s': State,
    sources': seq<Source>)
    requires Shape(t, s) && Sources(sources) && MessageRun(t, s, sources, turns, s', sources')
    ensures Sources(sources') && ByteRun(t, s, Streams(sources), turns, s', Streams(sources'))
    decreases |turns|
  {
    hide Frame, WriteAll, Step, Permitted, InStep, Sendable, OpenedSlot;
    if turns != [] {
      match turns[0]
      case Joined(e, source) =>
        var joined := Join(s, e, sources, source);
        assert Streams(joined) == Join(s, e, Streams(sources), source.Stream());
        StreamsAreMessages(t, Step(t, s, e), joined, turns[1..], s', sources');
      case Served(i, rnd) =>
        FirstMessage(s.conn[i], sources[i]);
        var e := Receive(i, sources[i].ms[0], rnd);
        var served := sources[i := Source(sources[i].ms[1..], sources[i].rest)];
        assert Streams(served) == Streams(sources)[i := served[i].Stream()];
        StreamsAreMessages(t, Step(t, s, e), served, turns[1..], s', sources');
    }
  }

  /** In every reachable state a REQUEST is read in step exactly from a peer that has said it is interested. */
  lemma RequestInStepIff(t: Torrent, es: seq<Event>, i: nat, p: nat, b: nat, l: nat)
    requires IsRun(t, es) && i < MAX_CONN
    ensures var c := After(t, es).conn[i]; InStep(c, Request(p, b, l)) <==> c.peerInterested
  {
    SwarmResults.InterestedIsUnchoked(t, es, i);
  }
}
