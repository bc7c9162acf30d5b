/** The leecher as an imperative program over arrays: each method is proved equal to its step in `Swarm`. */
module Client {
  import opened Bytes
  import opened BitField
  import opened Geometry
  import opened Swarm
  import InfoHash
  import Sha1Spec

  class Leecher {
    const torrent: Torrent
    const status: array<Status>
    const ranking: array<int>
    const field: array<bv8>
    const conn: array<Slot>
    var downloaded: int
    var left: int
    var file: seq<byte>
    var log: seq<Action>

    ghost function Model(): State
      reads this, status, ranking, field, conn
    {
      State(status[..], ranking[..], field[..], conn[..], downloaded, left, file, log)
    }

    ghost predicate Valid()
      reads this, status, ranking, field, conn
    {
      && Shape(torrent, Model())
      && status as object != ranking && status as object != field && status as object != conn
      && ranking as object != field && ranking as object != conn && field as object != conn
    }

    /** The tables of a client that finds no file to start from. */
    constructor (t: Torrent)
      requires t.Valid()
      ensures Valid() && torrent == t && Model() == Init(t)
      ensures fresh(status) && fresh(ranking) && fresh(field) && fresh(conn)
    {
      torrent := t;
      status := new Status[t.N()](_ => NotDownloaded);
      ranking := new int[t.N()](_ => 0);
      field := new bv8[FieldSize(t.N())](_ => 0);
      conn := new Slot[MAX_CONN](_ => BLANK);
      downloaded, left, file, log := 0, Int32(t.fileSize), [], [];
      new;
      InitShape(t);
      assert status[..] == Init(t).status && ranking[..] == Init(t).ranking;
      assert field[..] == Init(t).field && conn[..] == Init(t).conn;
    }

    // ---------- single assignments ----------

    method SetSlot(i: nat, c: Slot)
      requires Valid() && i < MAX_CONN && SlotShape(torrent, c)
      modifies conn
      ensures Valid() && Model() == Put(old(Model()), i, c)
    {
      conn[i] := c;
      assert conn[..] == old(conn[..])[i := c];
    }

    method Act(a: Action)
      requires Valid()
      modifies this`log
      ensures Valid() && Model() == Log(old(Model()), a)
    {
      log := log + [a];
    }

    method CloseSlot(i: nat)
      requires Valid() && i < MAX_CONN
      modifies this`log, conn
      ensures Valid() && Model() == Close(old(Model()), i)
    {
      SetSlot(i, conn[i].(inUse := false));
      Act(Closed(i));
    }

    method MarkPeerInteresting(i: nat)
      requires Valid() && i < MAX_CONN
      modifies this`log, conn
      ensures Valid() && Model() == MarkInterested(old(Model()), i)
    {
      if !conn[i].amInterested {
        SetSlot(i, conn[i].(amInterested := true));
        Act(SaidInterested(i, true));
      }
    }

    // ---------- the scheduler ----------

    method LeastRanking() returns (minimum: int)
      requires Valid()
      ensures minimum == MinOf(ranking[..])
    {
      minimum := ranking[0];
      for i := 0 to ranking.Length
        invariant i == 0 ==> minimum == ranking[0]
        invariant i > 0 ==> minimum == MinOf(ranking[..i])
      {
        assert ranking[..i + 1][..i] == ranking[..i];
        minimum := if minimum < ranking[i] then minimum else ranking[i];
      }
      assert ranking[..ranking.Length] == ranking[..];
    }

    method SameRanking(minimum: int) returns (same: array<nat>, j: nat)
      requires Valid()
      ensures fresh(same) && j <= same.Length && same[..j] == Ties(ranking[..], minimum)
    {
      same := new nat[ranking.Length](_ => 0);
      j := 0;
      for i := 0 to ranking.Length
        invariant j <= i
        invariant same[..j] == Ties(ranking[..i], minimum)
      {
        assert ranking[..i + 1][..i] == ranking[..i];
        if ranking[i] == minimum {
          same[j] := i;
          j := j + 1;
        }
      }
      assert ranking[..ranking.Length] == ranking[..];
    }

    method RequestPiece(r: nat, i: nat)
      requires Valid() && r < torrent.N() && i < MAX_CONN
      modifies this`log, conn, status, ranking
      ensures Valid() && Model() == SendRequest(torrent, old(Model()), r, i)
    {
      MarkPeerInteresting(i);
      SetSlot(i, conn[i].(interestedPiece := r, requestSent := true));
      label Before:
      status[r] := Downloading;
      ranking[r] := TAKEN;
      assert status[..] == old@Before(status[..])[r := Downloading]
        && ranking[..] == old@Before(ranking[..])[r := TAKEN];
      Act(Requested(i, r, torrent.Length(r)));
    }

    /** The scheduler; rnd is the value drawn by rand(). */
    method FindRarestPieceAndSendRequest(rnd: nat)
      requires Valid()
      modifies this`log, conn, status, ranking
      ensures Valid() && Model() == FindRarest(torrent, old(Model()), rnd)
    {
      hide Holds, Scan, MinOf, Ties;
      ghost var s := Model();
      var minimum := LeastRanking();
      if minimum == GIVE_UP {
        return;
      }
      var same, j := SameRanking(minimum);
      MinIsTied(ranking[..]);
      var rarest := same[rnd % j];
      assert rarest == Rarest(s, rnd);
      var i := 0;
      while i < MAX_CONN
        invariant i <= MAX_CONN && Valid()
        invariant Scan(torrent, Model(), rarest, i) == Scan(torrent, s, rarest, 0)
        decreases MAX_CONN - i
      {
        ScanUnfolds(torrent, Model(), rarest, i);
        var c := conn[i];
        if c.inUse && c.bitField.Some? {
          InBounds(torrent.N(), rarest);
          var bit := GetBitField(c.bitField.value, rarest);
          if bit != 0 && status[rarest] == NotDownloaded {
            if !c.peerChoking {
              if !c.requestSent {
                RequestPiece(rarest, i);
                return;
              }
            } else {
              MarkPeerInteresting(i);
            }
          }
        }
        i := i + 1;
      }
      ScanUnfolds(torrent, Model(), rarest, i);
    }

    /** The first piece wanted from the peer in slot i, or -1. */
    method CheckInterested(i: nat) returns (p: int)
      requires Valid() && i < MAX_CONN && conn[i].bitField.Some?
      ensures p == match FirstWanted(torrent, Model(), conn[i].bitField.value, 0) case Some(q) => q case None => -1
    {
      hide Holds;
      p := 0;
      while p < torrent.N()
        invariant 0 <= p <= torrent.N()
        invariant FirstWanted(torrent, Model(), conn[i].bitField.value, p)
          == FirstWanted(torrent, Model(), conn[i].bitField.value, 0)
      {
        InBounds(torrent.N(), p);
        var mine := GetBitField(field[..], p);
        if mine == 0 {
          var theirs := GetBitField(conn[i].bitField.value, p);
          if theirs != 0 && status[p] == NotDownloaded {
            return;
          }
        }
        p := p + 1;
      }
      return -1;
    }

    // ---------- messages ----------

    /** Checks a received bit field and counts its pieces; None if it is not acceptable. */
    method GetBitFieldMessage(bits: seq<bv8>) returns (r: Option<seq<bv8>>)
      requires Valid()
      modifies ranking
      ensures Valid()
      ensures |bits| == FieldSize(torrent.N()) && SpareClear(bits, torrent.N()) ==>
        r == Some(bits) && Model() == old(Model()).(ranking := Bump(torrent, old(ranking[..]), bits))
      ensures !(|bits| == FieldSize(torrent.N()) && SpareClear(bits, torrent.N())) ==>
        r == None && Model() == old(Model())
    {
      hide Holds;
      if |bits| != FieldSize(torrent.N()) {
        return None;
      }
      var clear := SpareBitsClear(bits, torrent.N());
      if !clear {
        return None;
      }
      ghost var bumped := Bump(torrent, ranking[..], bits);
      for i := 0 to torrent.N()
        invariant ranking[..i] == bumped[..i] && ranking[i..] == old(ranking[..])[i..]
        invariant status[..] == old(status[..]) && field[..] == old(field[..]) && conn[..] == old(conn[..])
      {
        InBounds(torrent.N(), i);
        assert ranking[i] == old(ranking[i]) && ranking[i + 1..] == ranking[i..][1..];
        var bit := GetBitField(bits, i);
        if bit != 0 {
          ranking[i] := ranking[i] + 1;
        }
        assert ranking[..i + 1] == ranking[..i] + [ranking[i]] && bumped[..i + 1] == bumped[..i] + [bumped[i]];
      }
      assert ranking[..] == ranking[..torrent.N()] == bumped[..torrent.N()] == bumped;
      return Some(bits);
    }

    method ReadBitField(i: nat, bits: seq<bv8>, rnd: nat)
      requires Valid() && i < MAX_CONN
      modifies this`log, conn, status, ranking
      ensures Valid() && Model() == OnBitField(torrent, old(Model()), i, bits, rnd)
    {
      hide FindRarest, FirstWanted, Bump, SpareClear, FieldSize, Holds;
      var r := GetBitFieldMessage(bits);
      if r.None? {
        CloseSlot(i);
        return;
      }
      assert SlotShape(torrent, conn[i].(bitField := Some(bits)));
      SetSlot(i, conn[i].(bitField := Some(bits)));
      var interested := CheckInterested(i);
      if interested >= 0 {
        SetSlot(i, conn[i].(amInterested := true, interestedPiece := interested));
        Act(SaidInterested(i, true));
        FindRarestPieceAndSendRequest(rnd);
      } else {
        SetSlot(i, conn[i].(amInterested := false));
        Act(SaidInterested(i, false));
      }
    }

    /** set_bit_field on the stored bit field of a peer. */
    method SetPeerBit(i: nat, p: nat)
      requires Valid() && i < MAX_CONN && ByteOf(p) < FieldSize(torrent.N()) && conn[i].bitField.Some?
      modifies conn
      ensures Valid()
      ensures Model() == Put(old(Model()), i, old(conn[i]).(bitField := Some(WithBit(old(conn[i]).bitField.value, p))))
    {
      hide ByteOf, MaskOf;
      var j, shift := Locate(p);
      var bits := conn[i].bitField.value;
      SetSlot(i, conn[i].(bitField := Some(bits[j := bits[j] | shift])));
    }

    method CountHolder(p: nat)
      requires Valid() && p < torrent.N()
      modifies ranking
      ensures Valid() && Model() == old(Model()).(ranking := old(ranking[..])[p := old(ranking[p]) + 1])
    {
      ranking[p] := ranking[p] + 1;
      assert ranking[..] == old(ranking[..])[p := old(ranking[p]) + 1];
    }

    method ReadHave(i: nat, p: nat, rnd: nat)
      requires Valid() && i < MAX_CONN && p < torrent.N() && conn[i].bitField.Some?
      modifies this`log, conn, status, ranking
      ensures Valid() && Model() == OnHave(torrent, old(Model()), i, p, rnd)
    {
      hide FindRarest, Holds, WithBit;
      InBounds(torrent.N(), p);
      SetPeerBit(i, p);
      CountHolder(p);
      var mine := GetBitField(field[..], p);
      if mine == 0 {
        if status[p] == NotDownloaded {
          Act(SaidInterested(i, true));
          FindRarestPieceAndSendRequest(rnd);
        }
      }
    }

    method ReadRequest(i: nat, p: nat, begin: nat, length: nat)
      requires Valid() && i < MAX_CONN
      modifies this`log
      ensures Valid() && Model() == OnRequest(torrent, old(Model()), i, p, begin, length)
    {
      hide Holds;
      if conn[i].peerInterested && !conn[i].amChoking {
        if p >= torrent.N() {
          return;
        }
        if (begin + length) % 0x100000000 > torrent.pieceSize {
          return;
        }
        InBounds(torrent.N(), p);
        var bit := GetBitField(field[..], p);
        if bit != 0 {
          var got := Fread(OUTPUT_MODE, file, torrent.Start(p) + begin, length);
          if |got| != length {
            return;
          }
          Act(SentPiece(i, p, begin, length));
        }
      }
    }

    /** The part of read_peice that records an accepted piece. */
    method StorePiece(i: nat, p: nat, data: seq<byte>) returns (all: bool)
      requires Valid() && i < MAX_CONN && p < torrent.N()
      modifies this, conn, status, field
      ensures Valid() && Model() == Store(torrent, old(Model()), i, p, data)
      ensures all <==> AllCompleted(Model().status)
    {
      hide ByteOf, MaskOf, Write, Int32, WithBit, PieceCount, FieldSize;
      InBounds(torrent.N(), p);
      SetSlot(i, conn[i].(requestSent := false));
      file := Write(file, torrent.Start(p), data);
      downloaded := Int32(downloaded + |data|);
      left := Int32(left - |data|);
      status[p] := Completed;
      assert status[..] == old(status[..])[p := Completed];
      var k := 0;
      while k < torrent.N() && status[k] == Completed
        invariant 0 <= k <= torrent.N()
        invariant forall q | 0 <= q < k :: status[q] == Completed
      {
        k := k + 1;
      }
      all := k == torrent.N();
      SetBitField(field, p);
      log := log + [Stored(i, p, |data|)];
      log := log + [SaidHave(p)];
    }

    method ReadPiece(i: nat, p: nat, data: seq<byte>, rnd: nat)
      requires Valid() && i < MAX_CONN && |data| < 0x100000000
      requires FieldThere(torrent, Model(), i, p, data)
      modifies this, conn, status, ranking, field
      ensures Valid() && Model() == OnPiece(torrent, old(Model()), i, p, data, rnd)
    {
      hide Store, AllCompleted, AfterStore, Sha1Spec.Digest;
      if conn[i].interestedPiece != p {
        CloseSlot(i);
        return;
      }
      var digest := InfoHash.HashBytes(data);
      if digest != torrent.hashes[p] {
        CloseSlot(i);
        return;
      }
      var all := StorePiece(i, p, data);
      GoOn(i, all, rnd);
    }

    /** The part of read_peice that follows the storing of a piece. */
    method GoOn(i: nat, all: bool, rnd: nat)
      requires Valid() && i < MAX_CONN && (all <==> AllCompleted(Model().status))
      requires !all ==> conn[i].bitField.Some?
      modifies this`log, conn, status, ranking
      ensures Valid() && Model() == AfterStore(torrent, old(Model()), i, rnd)
    {
      hide FindRarest, FirstWanted, AllCompleted;
      if all {
        Act(SaidInterested(i, false));
        Act(AnnouncedCompleted);
        return;
      }
      var interested := CheckInterested(i);
      if interested >= 0 {
        SetSlot(i, conn[i].(amInterested := true));
        FindRarestPieceAndSendRequest(rnd);
      } else {
        SetSlot(i, conn[i].(amInterested := false));
        Act(SaidInterested(i, false));
      }
    }

    /** What the event loop does with one message from slot i. */
    method HandleMessage(i: nat, m: Message, rnd: nat)
      requires Valid() && Permitted(torrent, Model(), Receive(i, m, rnd)) && Wire(m)
      modifies this, conn, status, ranking, field
      ensures Valid() && Model() == OnMessage(torrent, old(Model()), i, m, rnd)
    {
      hide FindRarest, OnBitField, OnHave, OnPiece, OnRequest, Store, AllCompleted;
      match m
      case KeepAlive =>
      case Hangup => CloseSlot(i);
      case Choke => SetSlot(i, conn[i].(peerChoking := true));
      case Unchoke =>
        SetSlot(i, conn[i].(peerChoking := false));
        if conn[i].amInterested {
          FindRarestPieceAndSendRequest(rnd);
        }
      case Interested =>
        SetSlot(i, conn[i].(peerInterested := true, amChoking := false));
        Act(SaidUnchoke(i));
      case NotInterested => SetSlot(i, conn[i].(peerInterested := false));
      case Have(p) => ReadHave(i, p, rnd);
      case BitFieldMsg(bits) => ReadBitField(i, bits, rnd);
      case Request(p, begin, length) => ReadRequest(i, p, begin, length);
      case Piece(p, _, data) => ReadPiece(i, p, data, rnd);
      case CutPiece => CloseSlot(i);
      case Cancel(_, _, _) =>
      case Unknown => CloseSlot(i);
    }

    // ---------- connections ----------

    method GetFreeSock() returns (i: int)
      requires Valid()
      ensures i == match FirstFree(conn[..], 0) case Some(k) => k case None => -1
    {
      i := 0;
      while i < MAX_CONN
        invariant 0 <= i <= MAX_CONN
        invariant FirstFree(conn[..], i) == FirstFree(conn[..], 0)
      {
        if !conn[i].inUse {
          return;
        }
        i := i + 1;
      }
      return -1;
    }

    method OpenSlot(i: nat)
      requires Valid() && i < MAX_CONN
      modifies this`log, conn
      ensures Valid() && Model() == Open(old(Model()), i)
    {
      SetSlot(i, conn[i].(inUse := true, amChoking := true, amInterested := false, peerChoking := true,
        peerInterested := false));
      Act(Opened(i));
    }

    method EstablishTcpConnection(outcome: AcceptOutcome)
      requires Valid()
      modifies this`log, conn
      ensures Valid() && Model() == OnAccept(torrent, old(Model()), outcome)
    {
      hide FirstFree, Open, Close;
      var i := GetFreeSock();
      if i < 0 {
        return;
      }
      OpenSlot(i);
      match outcome
      case HandshakeUnreadable =>
      case Rejected => CloseSlot(i);
      case FieldUnsent =>
      case Accepted => SetSlot(i, conn[i].(bitField := None));
    }

    method EstablishConnWithClient(outcome: ConnectOutcome)
      requires Valid() && FirstFree(conn[..], 0).Some?
      modifies this`log, conn
      ensures Valid() && Model() == OnConnect(torrent, old(Model()), outcome)
    {
      hide FirstFree, Open, Close;
      var i := GetFreeSock();
      match outcome
      case Unreachable =>
      case Mismatch =>
        OpenSlot(i);
        CloseSlot(i);
      case Connected => OpenSlot(i);
    }

    /** One step of the event loop. */
    method HandleEvent(e: Event)
      requires Valid() && Permitted(torrent, Model(), e) && (e.Receive? ==> Wire(e.msg))
      modifies this, conn, status, ranking, field
      ensures Valid() && Model() == Step(torrent, old(Model()), e)
    {
      hide OnMessage, OnAccept, OnConnect;
      match e
      case Accept(outcome) => EstablishTcpConnection(outcome);
      case Connect(outcome) => EstablishConnWithClient(outcome);
      case Receive(i, m, rnd) => HandleMessage(i, m, rnd);
    }
  }

  /** The length field of a message has 32 bits. */
  predicate Wire(m: Message) {
    m.Piece? ==> |m.data| < 0x100000000
  }

  lemma MinIsTied(r: seq<int>)
    requires |r| > 0
    ensures Ties(r, MinOf(r)) != []
  {
    MinIsAttained(r);
  }

  /** One unfolding of the pass over the connections. */
  lemma ScanUnfolds(t: Torrent, s: State, r: nat, i: nat)
    requires Shape(t, s) && r < t.N()
    ensures Scan(t, s, r, i)
         == if i >= MAX_CONN then s
            else if !Eligible(t, s, r, i) then Scan(t, s, r, i + 1)
            else if s.conn[i].peerChoking then Scan(t, MarkInterested(s, i), r, i + 1)
            else if s.conn[i].requestSent then Scan(t, s, r, i + 1)
            else SendRequest(t, s, r, i)
  {
  }
}
