/** read_from_client_connection: one message read off a descriptor, and handled. */
module Dispatcher {
  import opened Bytes
  import opened Swarm
  import opened Framing
  import Network
  import Client
  import SwarmSteps

  /**
   What the reader relies on: a length that an int holds, and that is not too small for the PIECE it is waiting
   for.
   */
  predicate Fits(c: Slot, s: seq<byte>) {
    |s| >= 5 ==>
      && U32(s[..4]) < 0x80000000
      && (Matches(c, s[4], s[5..]) ==> U32(s[..4]) >= 9)
  }

  /** The body p is that of a PIECE with the index noted for the slot, so its data are read. */
  predicate Matches(c: Slot, id: byte, p: seq<byte>) {
    id == ID_PIECE && |p| >= 8 && U32(p[..4]) == c.interestedPiece
  }

  /**
   How many bytes are missing of the fields of a REQUEST or the data of a PIECE that is being read: there, nobody
   checks.
   */
  function MissingFrom(c: Slot, id: byte, length: nat, p: seq<byte>): nat {
    if id == ID_REQUEST && c.peerInterested && !c.amChoking then if |p| < 12 then 12 - |p| else 0
    else if Matches(c, id, p) then if |p| - 8 < length - 9 then length - 9 - (|p| - 8) else 0
    else 0
  }

  function Missing(c: Slot, s: seq<byte>): nat {
    if |s| < 5 || U32(s[..4]) == 0 then 0 else MissingFrom(c, s[4], U32(s[..4]), s[5..])
  }

  /** What may be read for the message at the start of s: the missing bytes are whatever is in memory. */
  ghost predicate MayRead(c: Slot, s: seq<byte>, m: Message) {
    exists filler: seq<byte> :: |filler| == Missing(c, s) && m == Frame(c, s + filler).0
  }

  /** What is left of the stream then. */
  function Left(c: Slot, s: seq<byte>): seq<byte> {
    if Missing(c, s) > 0 then [] else s[Frame(c, s).1..]
  }

  /** A message that is all there is read as it is. */
  lemma CompleteIsFrame(c: Slot, s: seq<byte>, m: Message)
    requires Missing(c, s) == 0
    ensures MayRead(c, s, m) <==> m == Frame(c, s).0
  {
    hide Frame;
    var none: seq<byte> := [];
    assert s + none == s;
    assert m == Frame(c, s).0 ==> |none| == Missing(c, s) && m == Frame(c, s + none).0;
  }

  /** Up to four bytes as a number, and how many there were. */
  method ReadWord(fd: Network.Descriptor) returns (v: nat, n: nat)
    requires fd.healthy
    modifies fd
    ensures n == Min(4, |old(fd.stream)|) && v == U32(old(fd.stream)[..n]) && fd.stream == old(fd.stream)[n..]
  {
    var word := new byte[4](_ => 0);
    n := Network.Readn(fd, word, 4);
    v := U32(word[..]);
    PaddedWord(old(fd.stream)[..n]);
  }

  lemma PaddedWord(s: seq<byte>)
    requires |s| <= 4
    ensures U32(s + seq(4 - |s|, _ => 0)) == U32(s)
    ensures forall b: seq<byte> | |b| == 4 && (forall k | 0 <= k < 4 :: b[k] == 0) ::
      Network.Overlay(b, 0, s) == s + seq(4 - |s|, _ => 0)
  {
    forall b: seq<byte> | |b| == 4 && (forall k | 0 <= k < 4 :: b[k] == 0)
      ensures Network.Overlay(b, 0, s) == s + seq(4 - |s|, _ => 0)
    {
    }
  }

  lemma WordAgain(s: seq<byte>)
    ensures U32(s[..Min(4, |s|)]) == U32(s)
  {
  }

  /** Up to size bytes, the missing ones 0. */
  method ReadPadded(fd: Network.Descriptor, size: nat) returns (bits: seq<bv8>)
    requires fd.healthy
    modifies fd
    ensures bits == ToBits(old(fd.stream), size) && fd.stream == old(fd.stream)[Min(size, |old(fd.stream)|)..]
  {
    var field := new byte[size](_ => 0);
    var n := Network.Readn(fd, field, size);
    bits := ToBits(field[..], size);
    forall k | 0 <= k < size
      ensures bits[k] == ToBits(old(fd.stream), size)[k]
    {
      if k < n {
        assert field[..][k] == old(fd.stream)[k];
      }
    }
  }

  /**
   The body of a message, once its length and id have been read, and the bytes from memory that stand in for
   missing ones.
   */
  method ReadBody(fd: Network.Descriptor, c: Slot, id: byte, length: nat) returns (m: Message, ghost filler: seq<byte>)
    requires fd.healthy && length > 0 && (Matches(c, id, fd.stream) ==> length >= 9)
    modifies fd
    ensures var p := old(fd.stream);
      && |filler| == MissingFrom(c, id, length, p)
      && m == Body(c, id, length, p + filler).0
      && fd.stream == if |filler| > 0 then [] else p[Body(c, id, length, p).1..]
  {
    hide U32, ToBits;
    ghost var p := fd.stream;
    filler := [];
    assert p + filler == p;
    if id == ID_CHOKE {
      return Choke, [];
    } else if id == ID_UNCHOKE {
      return Unchoke, [];
    } else if id == ID_INTERESTED {
      return Interested, [];
    } else if id == ID_NOT_INTERESTED {
      return NotInterested, [];
    } else if id == ID_HAVE {
      WordAgain(p);
      var piece, n := ReadWord(fd);
      return Have(piece), [];
    } else if id == ID_BIT_FIELD {
      var bits := ReadPadded(fd, length - 1);
      return BitFieldMsg(bits), [];
    } else if id == ID_REQUEST {
      if c.peerInterested && !c.amChoking {
        m, filler := ReadRequest(fd);
        return;
      }
      return Request(0, 0, 0), [];
    } else if id == ID_PIECE {
      m, filler := ReadPiece(fd, c, length);
      return;
    } else if id == ID_CANCEL {
      return Cancel(0, 0, 0), [];
    }
    return Unknown, [];
  }

  /** What a word read into a variable holds: the bytes there are, and below them what the variable held. */
  method ReadInto(fd: Network.Descriptor, word: array<byte>) returns (v: nat)
    requires fd.healthy && word.Length == 4
    modifies fd, word
    ensures v == U32(word[..])
    ensures var p, n := old(fd.stream), Min(4, |old(fd.stream)|); word[..n] == p[..n] && fd.stream == p[n..]
  {
    var n := Network.Readn(fd, word, 4);
    v := U32(word[..]);
  }

  /** The three fields of a REQUEST, read into the same variable without a check. */
  method ReadRequest(fd: Network.Descriptor) returns (m: Message, ghost filler: seq<byte>)
    requires fd.healthy
    modifies fd
    ensures var p := old(fd.stream);
      && |filler| == (if |p| < 12 then 12 - |p| else 0)
      && m == Request(U32(p + filler), U32((p + filler)[4..]), U32((p + filler)[8..]))
      && fd.stream == p[Min(12, |p|)..]
  {
    hide U32;
    ghost var p := fd.stream;
    var temp := new byte[4];
    var piece := ReadInto(fd, temp);
    ghost var a := temp[..];
    var begin := ReadInto(fd, temp);
    ghost var b := temp[..];
    var len := ReadInto(fd, temp);
    ghost var c := temp[..];
    filler := if |p| < 12 then (a + b + c)[|p|..] else [];
    FieldsRead(p, a, b, c, filler);
    return Request(piece, begin, len), filler;
  }

  /**
   Words that agree with a stream as far as it goes are the words of the stream, continued by what they hold
   beyond it.
   */
  lemma FieldsRead(p: seq<byte>, a: seq<byte>, b: seq<byte>, c: seq<byte>, filler: seq<byte>)
    requires |a| == |b| == |c| == 4
    requires var p1 := p[Min(4, |p|)..]; var p2 := p1[Min(4, |p1|)..];
      && a[..Min(4, |p|)] == p[..Min(4, |p|)]
      && b[..Min(4, |p1|)] == p1[..Min(4, |p1|)]
      && c[..Min(4, |p2|)] == p2[..Min(4, |p2|)]
    requires filler == if |p| < 12 then (a + b + c)[|p|..] else []
    ensures |p + filler| >= 12
    ensures U32(p + filler) == U32(a) && U32((p + filler)[4..]) == U32(b) && U32((p + filler)[8..]) == U32(c)
    ensures var p1 := p[Min(4, |p|)..]; var p2 := p1[Min(4, |p1|)..]; p2[Min(4, |p2|)..] == p[Min(12, |p|)..]
  {
    hide U32;
    var q, all := p + filler, a + b + c;
    var n := Min(12, |p|);
    forall k | 0 <= k < n
      ensures all[k] == p[k]
    {
      var p1 := p[Min(4, |p|)..];
      if k < 4 {
        assert all[k] == a[..Min(4, |p|)][k];
      } else if k < 8 {
        assert all[k] == b[..Min(4, |p1|)][k - 4] && p1[k - 4] == p[k];
      } else {
        var p2 := p1[Min(4, |p1|)..];
        assert all[k] == c[..Min(4, |p2|)][k - 8] && p2[k - 8] == p[k];
      }
    }
    assert q[..12] == all;
    WordAgain(q);
    WordAgain(q[4..]);
    WordAgain(q[8..]);
    assert q[..4] == a && q[4..][..4] == b && q[8..][..4] == c;
  }

  /** The data of a PIECE, read without a check: missing bytes are what the buffer held. */
  method ReadData(fd: Network.Descriptor, size: nat) returns (data: seq<byte>, ghost filler: seq<byte>)
    requires fd.healthy
    modifies fd
    ensures var p, got := old(fd.stream), Min(size, |old(fd.stream)|);
      |filler| == size - got && data == p[..got] + filler && fd.stream == p[got..]
  {
    var buffer := new byte[size];
    var got := Network.Readn(fd, buffer, size);
    filler := buffer[got..];
    return buffer[..], filler;
  }

  method ReadPiece(fd: Network.Descriptor, c: Slot, length: nat) returns (m: Message, ghost filler: seq<byte>)
    requires fd.healthy && length > 0 && (Matches(c, ID_PIECE, fd.stream) ==> length >= 9)
    modifies fd
    ensures var p := old(fd.stream);
      && |filler| == MissingFrom(c, ID_PIECE, length, p)
      && m == Body(c, ID_PIECE, length, p + filler).0
      && fd.stream == if |filler| > 0 then [] else p[Body(c, ID_PIECE, length, p).1..]
  {
    hide U32;
    ghost var p := fd.stream;
    filler := [];
    assert p + filler == p;
    var piece, n := ReadWord(fd);
    if n != 4 {
      return CutPiece, [];
    }
    var begin, n1 := ReadWord(fd);
    assert fd.stream == p[4 + n1..];
    if n1 != 4 {
      return CutPiece, [];
    }
    assert p[4..][..4] == p[4..8];
    if piece != c.interestedPiece {
      return Piece(piece, begin, []), [];
    }
    assert fd.stream == p[8..];
    var data;
    data, filler := ReadData(fd, length - 9);
    assert (p + filler)[..4] == p[..4] && (p + filler)[4..8] == p[4..8];
    assert (p + filler)[8..] == p[8..] + filler;
    assert (p + filler)[8..8 + (length - 9)] == data;
    return Piece(piece, begin, data), filler;
  }

  method ReadMessage(fd: Network.Descriptor, c: Slot) returns (m: Message)
    requires fd.healthy && Fits(c, fd.stream)
    modifies fd
    ensures MayRead(c, old(fd.stream), m) && fd.stream == Left(c, old(fd.stream))
  {
    hide U32, Body, MissingFrom;
    ghost var s := fd.stream;
    assert s + [] == s;
    var length, n := ReadWord(fd);
    if n != 4 {
      if n == 0 {
        CompleteIsFrame(c, s, Hangup);
        return Hangup;
      }
      CompleteIsFrame(c, s, KeepAlive);
      return KeepAlive;
    }
    if length == 0 {
      CompleteIsFrame(c, s, KeepAlive);
      return KeepAlive;
    }
    var id := new byte[1](_ => 0);
    var got := Network.Readn(fd, id, 1);
    assert fd.stream == s[4 + got..];
    if got != 1 {
      CompleteIsFrame(c, s, Hangup);
      return Hangup;
    }
    assert id[0] == s[4];
    ghost var filler;
    m, filler := ReadBody(fd, c, id[0], length);
    BodyRead(c, s, m, filler);
  }

  /** The body read off the rest of a stream is that of the message of the stream. */
  lemma BodyRead(c: Slot, s: seq<byte>, m: Message, filler: seq<byte>)
    requires |s| >= 5 && U32(s[..4]) > 0 && |filler| == MissingFrom(c, s[4], U32(s[..4]), s[5..])
    requires m == Body(c, s[4], U32(s[..4]), s[5..] + filler).0
    ensures MayRead(c, s, m)
  {
    hide U32, Body, MissingFrom;
    assert (s + filler)[..4] == s[..4] && (s + filler)[5..] == s[5..] + filler;
    assert |filler| == Missing(c, s) && m == Frame(c, s + filler).0;
  }

  /** From s to s', the connection of slot i is closed, and nothing else happens. */
  ghost predicate Closes(s: State, s': State, i: nat) {
    i < |s.conn| && s' == s.(conn := s.conn[i := s.conn[i].(inUse := false)], log := s.log + [Closed(i)])
  }

  /**
   What bytes do that are not a message of BEP 3, or not all of one, or that the program does not act upon; `rest`
   is what is left of the stream. At its end, at an unknown id, after a length without an id, and inside the
   header of a PIECE the connection is closed; one to three bytes, a CANCEL and a REQUEST from a peer that is
   choked or not interested change nothing.
   */
  ghost predicate OddBytes(s: State, s': State, i: nat, stream: seq<byte>, rest: seq<byte>)
    requires i < |s.conn|
  {
    && (stream == [] ==> Closes(s, s', i) && rest == [])
    && (0 < |stream| < 4 ==> s' == s && rest == [])
    && (|stream| >= 4 && stream[..4] == [0, 0, 0, 0] ==> s' == s && rest == stream[4..])
    && (|stream| == 4 && stream != [0, 0, 0, 0] ==> Closes(s, s', i) && rest == [])
    && (|stream| >= 5 && stream[..4] != [0, 0, 0, 0] ==>
          var id, p := stream[4], stream[5..];
          && (id > 8 ==> Closes(s, s', i) && rest == p)
          && (id == 8 ==> s' == s && rest == p)
          && (id == 6 && !(s.conn[i].peerInterested && !s.conn[i].amChoking) ==> s' == s && rest == p)
          && (id == 7 && |p| < 8 ==> Closes(s, s', i) && rest == []))
  }

  lemma ZeroLength(s: seq<byte>)
    requires |s| == 4
    ensures U32(s) == 0 <==> s == [0, 0, 0, 0]
  {
  }

  lemma OddBytesAre(t: Torrent, s: State, i: nat, stream: seq<byte>, m: Message, rnd: nat)
    requires Shape(t, s) && i < MAX_CONN && MayRead(s.conn[i], stream, m) && Permitted(t, s, Receive(i, m, rnd))
    ensures OddBytes(s, Step(t, s, Receive(i, m, rnd)), i, stream, Left(s.conn[i], stream))
  {
    hide U32, Step;
    if |stream| >= 4 {
      ZeroLength(stream[..4]);
    }
    if |stream| == 4 {
      assert stream[..4] == stream;
    }
    OddFrames(s.conn[i], stream, m);
    if IsPlain(m) {
      SwarmSteps.PlainMessage(t, s, i, m, rnd);
    } else if m.Request? {
      SwarmSteps.RequestStep(t, s, i, m.piece, m.begin, m.length, rnd);
    }
  }

  /** Those bytes as messages. */
  lemma OddFrames(c: Slot, stream: seq<byte>, m: Message)
    requires MayRead(c, stream, m)
    ensures stream == [] ==> m == Hangup && Left(c, stream) == []
    ensures 0 < |stream| < 4 ==> m == KeepAlive && Left(c, stream) == []
    ensures |stream| >= 4 && U32(stream[..4]) == 0 ==> m == KeepAlive && Left(c, stream) == stream[4..]
    ensures |stream| == 4 && U32(stream[..4]) != 0 ==> m == Hangup && Left(c, stream) == []
    ensures |stream| >= 5 && U32(stream[..4]) != 0 ==>
      var id, p := stream[4], stream[5..];
      && (id > 8 ==> m == Unknown && Left(c, stream) == p)
      && (id == 8 ==> m.Cancel? && Left(c, stream) == p)
      && (id == 6 && !(c.peerInterested && !c.amChoking) ==> m.Request? && Left(c, stream) == p)
      && (id == 7 && |p| < 8 ==> m == CutPiece && Left(c, stream) == [])
  {
    hide U32, ToBits;
    if Missing(c, stream) == 0 {
      CompleteIsFrame(c, stream, m);
    }
  }

  /** What the event loop does when slot i is ready: read one message, which is returned, and handle it. */
  method ReadFromClientConnection(client: Client.Leecher, i: nat, fd: Network.Descriptor, rnd: nat) returns (m: Message)
    requires client.Valid() && i < MAX_CONN && fd.healthy && Fits(client.conn[i], fd.stream)
    requires forall m: Message | MayRead(client.conn[i], fd.stream, m) ::
      Permitted(client.torrent, client.Model(), Receive(i, m, rnd))
    modifies client, client.conn, client.status, client.ranking, client.field, fd
    ensures client.Valid()
    ensures MayRead(old(client.conn[i]), old(fd.stream), m) && fd.stream == Left(old(client.conn[i]), old(fd.stream))
    ensures Permitted(client.torrent, old(client.Model()), Receive(i, m, rnd))
    ensures client.Model() == Step(client.torrent, old(client.Model()), Receive(i, m, rnd))
    ensures OddBytes(old(client.Model()), client.Model(), i, old(fd.stream), fd.stream)
  {
    hide Frame, OnMessage, Permitted, MayRead, Left, OddBytes;
    ghost var before, s := client.Model(), fd.stream;
    var c := client.conn[i];
    m := ReadMessage(fd, c);
    ReadFits(c, s, m);
    OddBytesAre(client.torrent, before, i, s, m, rnd);
    client.HandleMessage(i, m, rnd);
  }

  lemma ReadFits(c: Slot, s: seq<byte>, m: Message)
    requires Fits(c, s) && MayRead(c, s, m)
    ensures Client.Wire(m)
  {
    hide U32;
    var filler: seq<byte> :| |filler| == Missing(c, s) && m == Frame(c, s + filler).0;
    if |s| >= 5 {
      assert (s + filler)[..4] == s[..4];
    }
  }
}
