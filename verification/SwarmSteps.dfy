/**
 What each event does, in full: the whole state after it, told without the functions that compute it. The
 scheduler's part in it is `SwarmResults.PassEffect`.
 */
module SwarmSteps {
  import opened Bytes
  import opened BitField
  import opened Geometry
  import opened Swarm
  import opened SwarmInvariants
  import opened SwarmResults
  import Sha1Spec

  // ---------- parts of a state ----------

  /** The state with another slot i and some more actions. */
  function With(s: State, i: nat, c: Slot, added: seq<Action>): State
    requires i < |s.conn|
  {
    s.(conn := s.conn[i := c], log := s.log + added)
  }

  /**
   s' is what a call of the scheduler makes of s: piece r has the least ranking, and the pass is for it unless
   that is 120.
   */
  ghost predicate Schedules(t: Torrent, s: State, s': State, r: nat, said: seq<Action>, asked: Option<nat>)
    requires Shape(t, s)
  {
    && r < t.N() && (forall p: nat | p < t.N() :: s.ranking[r] <= s.ranking[p])
    && if s.ranking[r] == 120 then s' == s else PassEffect(t, s, s', r, 0, said, asked)
  }

  ghost predicate Scheduled(t: Torrent, s: State, s': State)
    requires Shape(t, s)
  {
    exists r: nat, said: seq<Action>, asked: Option<nat> :: Schedules(t, s, s', r, said, asked)
  }

  lemma FindIsScheduled(t: Torrent, s: State, rnd: nat)
    requires Shape(t, s)
    ensures Scheduled(t, s, FindRarest(t, s, rnd))
  {
    hide FindRarest, PassEffect;
    var r, said, asked := SchedulerEffect(t, s, rnd);
    assert Schedules(t, s, FindRarest(t, s, rnd), r, said, asked);
  }

  /** Piece q is lacked, not asked for, and shown by a bit field. */
  predicate Wanted(t: Torrent, s: State, bits: seq<bv8>, q: nat)
    requires |s.status| == t.N() && |s.field| == |bits| == FieldSize(t.N())
  {
    q < t.N() && (InBounds(t.N(), q); !Holds(s.field, q) && Holds(bits, q) && s.status[q] == NotDownloaded)
  }

  /** The first such piece; None if there is none. */
  ghost predicate IsFirstWanted(t: Torrent, s: State, bits: seq<bv8>, wanted: Option<nat>)
    requires |s.status| == t.N() && |s.field| == |bits| == FieldSize(t.N())
  {
    match wanted
    case Some(q) => Wanted(t, s, bits, q) && forall p: nat | p < q :: !Wanted(t, s, bits, p)
    case None => forall p: nat :: !Wanted(t, s, bits, p)
  }

  lemma {:induction false} FirstWantedFrom(t: Torrent, s: State, bits: seq<bv8>, p: nat)
    requires |s.status| == t.N() && |s.field| == |bits| == FieldSize(t.N())
    requires forall q: nat | q < p :: !Wanted(t, s, bits, q)
    ensures IsFirstWanted(t, s, bits, FirstWanted(t, s, bits, p))
    decreases t.N() - p
  {
    hide Holds;
    if p < t.N() && !Wanted(t, s, bits, p) {
      FirstWantedFrom(t, s, bits, p + 1);
    }
  }

  lemma {:induction false} SameFirstWanted(t: Torrent, s: State, s': State, bits: seq<bv8>, wanted: Option<nat>)
    requires |s.status| == t.N() && |s.field| == |bits| == FieldSize(t.N())
    requires s'.status == s.status && s'.field == s.field
    requires IsFirstWanted(t, s', bits, wanted)
    ensures IsFirstWanted(t, s, bits, wanted)
  {
    hide Holds;
    forall p: nat
      ensures Wanted(t, s', bits, p) == Wanted(t, s, bits, p)
    {
    }
  }

  /** The first slot that is not in use; None if all are. */
  ghost predicate IsFirstFree(conn: seq<Slot>, free: Option<nat>) {
    match free
    case Some(i) => i < |conn| && !conn[i].inUse && forall k | 0 <= k < i :: conn[k].inUse
    case None => forall k | 0 <= k < |conn| :: conn[k].inUse
  }

  lemma {:induction false} FirstFreeFrom(conn: seq<Slot>, i: nat)
    requires i <= |conn| && forall k | 0 <= k < i :: conn[k].inUse
    ensures IsFirstFree(conn, FirstFree(conn, i))
    decreases |conn| - i
  {
    if i < |conn| && conn[i].inUse {
      FirstFreeFrom(conn, i + 1);
    }
  }

  // ---------- the start ----------

  /** A leecher starts with ten free slots, nothing downloaded, nothing ranked, and the whole file left. */
  lemma Start(t: Torrent)
    requires t.Valid()
    ensures var s := Init(t);
      && Shape(t, s) && |s.conn| == 10
      && (forall i | 0 <= i < 10 :: s.conn[i] == Slot(false, false, false, false, false, false, 0, None))
      && (forall p: nat | p < t.N() :: s.status[p] == NotDownloaded && s.ranking[p] == 0)
      && (forall p: nat | p < t.N() :: ByteOf(p) < |s.field| && !Holds(s.field, p))
      && s.downloaded == 0 && (t.fileSize - s.left) % 4294967296 == 0 && s.file == [] && s.log == []
  {
    InitInv(t);
    Int32Is(t.fileSize);
  }

  // ---------- connections ----------

  /** A slot as a new connection finds it: all flags fresh, what it remembers of requests and bit fields kept. */
  function NewlyOpened(c: Slot): Slot {
    Slot(true, true, false, true, false, c.requestSent, c.interestedPiece, c.bitField)
  }

  /**
   An incoming connection takes the first free slot, and is turned away if there is none. If the handshake goes
   wrong it is closed again at once; if it is accepted the old bit field is forgotten.
   */
  lemma AcceptStep(t: Torrent, s: State, outcome: AcceptOutcome) returns (free: Option<nat>)
    requires Shape(t, s)
    ensures IsFirstFree(s.conn, free)
    ensures Step(t, s, Accept(outcome)) ==
      match free
      case None => s
      case Some(i) =>
        var c := NewlyOpened(s.conn[i]);
        match outcome
        case HandshakeUnreadable => With(s, i, c, [Opened(i)])
        case Rejected => With(s, i, c.(inUse := false), [Opened(i), Closed(i)])
        case FieldUnsent => With(s, i, c, [Opened(i)])
        case Accepted => With(s, i, c.(bitField := None), [Opened(i)])
  {
    hide FirstFree, SlotShape;
    free := FirstFree(s.conn, 0);
    FirstFreeFrom(s.conn, 0);
    if free.Some? {
      var i := free.value;
      assert s.log + [Opened(i)] + [Closed(i)] == s.log + [Opened(i), Closed(i)];
      var c := NewlyOpened(s.conn[i]);
      Overwritten(s.conn, i, c, c.(inUse := false));
      Overwritten(s.conn, i, c, c.(bitField := None));
    }
  }

  lemma Overwritten(conn: seq<Slot>, i: nat, c: Slot, c': Slot)
    requires i < |conn|
    ensures conn[i := c][i := c'] == conn[i := c']
  {
  }

  /**
   An outgoing connection takes the first free slot, once it has been made, and closes it if the peer has another
   torrent.
   */
  lemma ConnectStep(t: Torrent, s: State, outcome: ConnectOutcome) returns (i: nat)
    requires Shape(t, s) && Permitted(t, s, Connect(outcome))
    ensures IsFirstFree(s.conn, Some(i))
    ensures Step(t, s, Connect(outcome)) ==
      match outcome
      case Unreachable => s
      case Mismatch => With(s, i, NewlyOpened(s.conn[i]).(inUse := false), [Opened(i), Closed(i)])
      case Connected => With(s, i, NewlyOpened(s.conn[i]), [Opened(i)])
  {
    hide FirstFree, SlotShape;
    FirstFreeFrom(s.conn, 0);
    i := FirstFree(s.conn, 0).value;
    assert s.log + [Opened(i)] + [Closed(i)] == s.log + [Opened(i), Closed(i)];
    var c := NewlyOpened(s.conn[i]);
    Overwritten(s.conn, i, c, c.(inUse := false));
  }

  // ---------- messages that only set a flag, or end the connection ----------

  lemma PlainMessage(t: Torrent, s: State, i: nat, m: Message, rnd: nat)
    requires Shape(t, s) && Permitted(t, s, Receive(i, m, rnd)) && IsPlain(m)
    ensures var c := s.conn[i];
      Step(t, s, Receive(i, m, rnd)) ==
        match m
        case Choke => With(s, i, c.(peerChoking := true), [])
        case Interested => With(s, i, c.(peerInterested := true, amChoking := false), [SaidUnchoke(i)])
        case NotInterested => With(s, i, c.(peerInterested := false), [])
        case KeepAlive => s
        case Cancel(_, _, _) => s
        case _ => With(s, i, c.(inUse := false), [Closed(i)])
  {
    hide OnMessage;
    PlainStep(t, s, i, m, rnd);
    assert s.log + [] == s.log;
  }

  // ---------- messages that the scheduler may follow ----------

  /** An UNCHOKE clears the flag; if the client is interested in the peer, the scheduler runs. */
  lemma UnchokeStep(t: Torrent, s: State, i: nat, rnd: nat)
    requires Shape(t, s) && Permitted(t, s, Receive(i, Unchoke, rnd))
    ensures var s1, s' := With(s, i, s.conn[i].(peerChoking := false), []), Step(t, s, Receive(i, Unchoke, rnd));
      && Shape(t, s1)
      && if s.conn[i].amInterested then Scheduled(t, s1, s') else s' == s1
  {
    hide FindRarest, Scheduled;
    assert s.log + [] == s.log;
    FindIsScheduled(t, Put(s, i, s.conn[i].(peerChoking := false)), rnd);
  }

  /**
   A HAVE adds the piece to the stored bit field (unless it is piece 8) and one to its ranking. If the client
   lacks the piece and has not asked for it, it tells the peer of its interest and the scheduler runs.
   */
  lemma HaveStep(t: Torrent, s: State, i: nat, p: nat, rnd: nat) returns (bits: seq<bv8>)
    requires Shape(t, s) && Permitted(t, s, Receive(i, Have(p), rnd))
    ensures |bits| == FieldSize(t.N())
    ensures forall q: nat | q < t.N() ::
      ByteOf(q) < |bits| && (Holds(bits, q) <==> Holds(s.conn[i].bitField.value, q) || (q == p && p != 8))
    ensures ByteOf(p) < |s.field|
    ensures var news := !Holds(s.field, p) && s.status[p] == NotDownloaded;
      var c := s.conn[i].(bitField := Some(bits));
      var s1 := With(s, i, c, if news then [SaidInterested(i, true)]
        else []).(ranking := s.ranking[p := s.ranking[p] + 1]);
      var s' := Step(t, s, Receive(i, Have(p), rnd));
      && Shape(t, s1)
      && if news then Scheduled(t, s1, s') else s' == s1
  {
    hide FindRarest, Scheduled, Holds, WithBit;
    InBounds(t.N(), p);
    bits := WithBit(s.conn[i].bitField.value, p);
    WithBitSize(s.conn[i].bitField.value, p);
    forall q: nat | q < t.N()
      ensures ByteOf(q) < |bits| && (Holds(bits, q) <==> Holds(s.conn[i].bitField.value, q) || (q == p && p != 8))
    {
      InBounds(t.N(), q);
      FieldAfterHave(s.conn[i].bitField.value, p, q);
    }
    assert s.log + [] == s.log;
    var s1 := Put(s, i, s.conn[i].(bitField := Some(bits))).(ranking := s.ranking[p := s.ranking[p] + 1]);
    FindIsScheduled(t, Log(s1, SaidInterested(i, true)), rnd);
  }

  /** The rankings after a bit field: one more for each piece it shows. */
  ghost predicate Counted(t: Torrent, ranking: seq<int>, bits: seq<bv8>, ranking': seq<int>)
    requires |ranking| == t.N() && |bits| == FieldSize(t.N())
  {
    && |ranking'| == t.N()
    && forall q: nat | q < t.N() :: ByteOf(q) < |bits| && ranking'[q] == ranking[q] + if Holds(bits, q) then 1 else 0
  }

  /**
   A bit field of the wrong size or with spare bits set ends the connection. Any other is stored and counted in
   the rankings; if it shows a piece that is wanted, the first such piece is noted, the peer told, and the
   scheduler runs.
   */
  lemma BitFieldStep(t: Torrent, s: State, i: nat, bits: seq<bv8>, rnd: nat)
    returns (ranking: seq<int>, wanted: Option<nat>)
    requires Shape(t, s) && Permitted(t, s, Receive(i, BitFieldMsg(bits), rnd))
    ensures var s', c := Step(t, s, Receive(i, BitFieldMsg(bits), rnd)), s.conn[i].(bitField := Some(bits));
      if |bits| != FieldSize(t.N()) || !SpareClear(bits, t.N())
      then s' == With(s, i, s.conn[i].(inUse := false), [Closed(i)])
      else
        && Counted(t, s.ranking, bits, ranking) && IsFirstWanted(t, s, bits, wanted)
        && match wanted
           case None => s' == With(s, i, c.(amInterested := false), [SaidInterested(i, false)]).(ranking := ranking)
           case Some(q) =>
             var s1 := With(s, i, c.(amInterested := true, interestedPiece := q),
               [SaidInterested(i, true)]).(ranking := ranking);
             Shape(t, s1) && Scheduled(t, s1, s')
  {
    hide FindRarest, Scheduled, Holds, Bump, FirstWanted, IsFirstWanted, SpareClear;
    ranking, wanted := s.ranking, None;
    if |bits| == FieldSize(t.N()) && SpareClear(bits, t.N()) {
      ranking := Bump(t, s.ranking, bits);
      BumpCounts(t, s.ranking, bits);
      var s1 := Put(s, i, s.conn[i].(bitField := Some(bits))).(ranking := ranking);
      wanted := FirstWanted(t, s1, bits, 0);
      FirstWantedFrom(t, s1, bits, 0);
      SameFirstWanted(t, s, s1, bits, wanted);
      if wanted.Some? {
        var c := s1.conn[i].(amInterested := true, interestedPiece := wanted.value);
        Overwritten(s.conn, i, s1.conn[i], c);
        FindIsScheduled(t, Log(Put(s1, i, c), SaidInterested(i, true)), rnd);
      }
    }
  }

  lemma BumpCounts(t: Torrent, ranking: seq<int>, bits: seq<bv8>)
    requires |ranking| == t.N() && |bits| == FieldSize(t.N())
    ensures Counted(t, ranking, bits, Bump(t, ranking, bits))
  {
    hide Holds;
    forall q: nat | q < t.N()
      ensures ByteOf(q) < |bits|
    {
      InBounds(t.N(), q);
    }
  }

  // ---------- requests ----------

  /** Whether a REQUEST is answered. */
  predicate Answers(t: Torrent, s: State, i: nat, p: nat, begin: nat, length: nat)
    requires Shape(t, s) && i < MAX_CONN
  {
    && s.conn[i].peerInterested && !s.conn[i].amChoking
    && p < t.N() && (begin + length) % 0x100000000 <= t.pieceSize
    && (InBounds(t.N(), p); Holds(s.field, p)) && length == 0
  }

  /**
   A REQUEST from an interested peer that is not choked, for no bytes at a place inside a piece that the client
   has, is answered; any other changes nothing.
   */
  lemma RequestStep(t: Torrent, s: State, i: nat, p: nat, begin: nat, length: nat, rnd: nat)
    requires Shape(t, s) && Permitted(t, s, Receive(i, Request(p, begin, length), rnd))
    ensures Step(t, s, Receive(i, Request(p, begin, length), rnd)) ==
      if Answers(t, s, i, p, begin, length) then s.(log := s.log + [SentPiece(i, p, begin, length)]) else s
  {
    hide Holds, Fread, FieldSize;
    NothingRead(s.file, t.Start(p) + begin, length);
  }

  // ---------- pieces ----------

  /** The file after a write: the data at its place, the old bytes elsewhere, zeros in a gap between. */
  ghost predicate Written(file: seq<byte>, offset: nat, data: seq<byte>, file': seq<byte>) {
    if data == [] then file' == file
    else
      && |file'| == (if |file| < offset + |data| then offset + |data| else |file|)
      && forall x | 0 <= x < |file'| ::
           file'[x] == if offset <= x < offset + |data| then data[x - offset] else if x < |file| then file[x] else 0
  }

  lemma WriteIsWritten(file: seq<byte>, offset: nat, data: seq<byte>)
    ensures Written(file, offset, data, Write(file, offset, data))
  {
  }

  /** The bit field after a position has been set. */
  ghost predicate BitSet(t: Torrent, bits: seq<bv8>, p: nat, bits': seq<bv8>)
    requires |bits| == FieldSize(t.N())
  {
    && |bits'| == |bits|
    && forall q: nat | q < t.N() :: ByteOf(q) < |bits| && (Holds(bits', q) <==> Holds(bits, q) || (q == p && p != 8))
  }

  /** The state in which a piece has just been stored. */
  ghost predicate StoredState(t: Torrent, s: State, i: nat, p: nat, data: seq<byte>, s1: State)
    requires Shape(t, s) && i < MAX_CONN && p < t.N()
  {
    && Written(s.file, p * t.pieceSize, data, s1.file) && BitSet(t, s.field, p, s1.field)
    && s1 == With(s, i, s.conn[i].(requestSent := false), [Stored(i, p, |data|), SaidHave(p)]).(
               file := s1.file, field := s1.field, status := s.status[p := Completed],
               downloaded := Int32(s.downloaded + |data|), left := Int32(s.left - |data|))
  }

  lemma StoreStores(t: Torrent, s: State, i: nat, p: nat, data: seq<byte>)
    requires Shape(t, s) && i < MAX_CONN && p < t.N()
    ensures StoredState(t, s, i, p, data, Store(t, s, i, p, data))
  {
    hide Holds, WithBit, Write, Int32, Written;
    WriteIsWritten(s.file, t.Start(p), data);
    InBounds(t.N(), p);
    WithBitSize(s.field, p);
    forall q: nat | q < t.N()
      ensures ByteOf(q) < |s.field| && (Holds(WithBit(s.field, p), q) <==> Holds(s.field, q) || (q == p && p != 8))
    {
      InBounds(t.N(), q);
      FieldAfterHave(s.field, p, q);
    }
    assert s.log + [Stored(i, p, |data|)] + [SaidHave(p)] == s.log + [Stored(i, p, |data|), SaidHave(p)];
  }

  /**
   A PIECE with another index than the one noted for the slot, or with the wrong hash, ends the connection. Any
   other is stored; then completion is announced if nothing is missing, the scheduler runs if the peer has a piece
   that is wanted, and else the peer is told that it is not interesting any more.
   */
  lemma PieceStep(t: Torrent, s: State, i: nat, p: nat, begin: nat, data: seq<byte>, rnd: nat)
    returns (s1: State, wanted: Option<nat>)
    requires Shape(t, s) && Permitted(t, s, Receive(i, Piece(p, begin, data), rnd))
    ensures var s' := Step(t, s, Receive(i, Piece(p, begin, data), rnd));
      if !(s.conn[i].interestedPiece == p < t.N() && Sha1Spec.Digest(data) == t.hashes[p])
      then s' == With(s, i, s.conn[i].(inUse := false), [Closed(i)])
      else
        && StoredState(t, s, i, p, data, s1) && Shape(t, s1)
        && if forall q | 0 <= q < t.N() :: s1.status[q] == Completed
           then s' == s1.(log := s1.log + [SaidInterested(i, false), AnnouncedCompleted])
           else
             && s1.conn[i].bitField.Some? && IsFirstWanted(t, s1, s1.conn[i].bitField.value, wanted)
             && if wanted.None? then s' == With(s1, i, s1.conn[i].(amInterested := false), [SaidInterested(i, false)])
                else
                  var s2 := With(s1, i, s1.conn[i].(amInterested := true), []);
                  Shape(t, s2) && Scheduled(t, s2, s')
  {
    hide Store, FindRarest, Scheduled, IsFirstWanted, FirstWanted, Sha1Spec.Digest, FieldThere, StoredState, Holds;
    s1, wanted := s, None;
    if Accepts(t, s, i, p, data) {
      StoreStores(t, s, i, p, data);
      FieldStillThere(t, s, i, p, data);
      s1 := Store(t, s, i, p, data);
      StoredPieces(t, s, i, p, data, s1);
      if AllCompleted(s1.status) {
        assert s1.log + [SaidInterested(i, false)] + [AnnouncedCompleted] == s1.log
          + [SaidInterested(i, false), AnnouncedCompleted];
      } else {
        wanted := FirstWanted(t, s1, s1.conn[i].bitField.value, 0);
        FirstWantedFrom(t, s1, s1.conn[i].bitField.value, 0);
        assert s1.log + [] == s1.log;
        FindIsScheduled(t, Put(s1, i, s1.conn[i].(amInterested := true)), rnd);
      }
    }
  }

  lemma StoredPieces(t: Torrent, s: State, i: nat, p: nat, data: seq<byte>, s1: State)
    requires Shape(t, s) && i < MAX_CONN && p < t.N() && StoredState(t, s, i, p, data, s1)
    ensures |s1.status| == t.N() && |s1.conn| == MAX_CONN
  {
  }

  // ---------- rankings over runs ----------

  /** By how much an event adds to the ranking of piece q, told from the event alone. */
  function Tells(t: Torrent, e: Event, q: nat): nat {
    if !e.Receive? || q >= t.N() then 0
    else
      match e.msg
      case Have(p) => if p == q then 1 else 0
      case BitFieldMsg(bits) =>
        if |bits| == FieldSize(t.N()) && SpareClear(bits, t.N()) && (InBounds(t.N(), q); Holds(bits, q)) then 1 else 0
      case _ => 0
  }

  /** How often a run has told of piece q: the acceptable bit fields that show it and the HAVE messages for it. */
  function Told(t: Torrent, es: seq<Event>, q: nat): nat
    decreases |es|
  {
    if es == [] then 0 else Tells(t, es[0], q) + Told(t, es[1..], q)
  }

  /** The ranking of q grows by n, unless the piece is requested: then it becomes 9999. */
  ghost predicate RankGrows(t: Torrent, s: State, s': State, q: nat, n: nat)
    requires Shape(t, s) && Shape(t, s') && q < t.N()
  {
    s'.ranking[q] == if s.status[q] == NotDownloaded && s'.status[q] == Downloading then 9999 else s.ranking[q] + n
  }

  lemma ScheduledRanks(t: Torrent, s: State, s': State, q: nat)
    requires Shape(t, s) && Shape(t, s') && Scheduled(t, s, s') && q < t.N()
    ensures RankGrows(t, s, s', q, 0)
    ensures s.status[q] != NotDownloaded ==> s'.status[q] == s.status[q]
  {
    hide FirstWilling, SwarmResults.Told, SlotAfterPass, SlotShape;
    var r: nat, said: seq<Action>, asked: Option<nat> :| Schedules(t, s, s', r, said, asked);
    if s.ranking[r] != 120 {
      AskedWasFree(t, s, r, asked);
    }
  }

  lemma AskedWasFree(t: Torrent, s: State, r: nat, asked: Option<nat>)
    requires Shape(t, s) && r < t.N() && FirstWilling(t, s, r, 0, asked)
    ensures asked.Some? ==> s.status[r] == NotDownloaded
  {
  }

  /** What an event does to the ranking of a piece: exactly what it tells of it, or the request for it. */
  lemma StepRanks(t: Torrent, s: State, e: Event, q: nat)
    requires Shape(t, s) && Permitted(t, s, e) && q < t.N()
    ensures RankGrows(t, s, Step(t, s, e), q, Tells(t, e, q))
  {
    hide Step, Scheduled, Counted, IsFirstWanted, SlotShape, SpareClear, Holds, StoredState, FieldThere,
         Sha1Spec.Digest, IsFirstFree;
    var s' := Step(t, s, e);
    match e
    case Accept(outcome) => var free := AcceptStep(t, s, outcome);
    case Connect(outcome) => var i := ConnectStep(t, s, outcome);
    case Receive(i, m, rnd) =>
      match m
      case Unchoke =>
        UnchokeStep(t, s, i, rnd);
        if s.conn[i].amInterested {
          ScheduledRanks(t, With(s, i, s.conn[i].(peerChoking := false), []), s', q);
        }
      case Have(p) => HaveRanks(t, s, i, p, rnd, q);
      case BitFieldMsg(bits) => BitFieldRanks(t, s, i, bits, rnd, q);
      case Request(p, begin, length) => RequestStep(t, s, i, p, begin, length, rnd);
      case Piece(p, begin, data) => PieceRanks(t, s, i, p, begin, data, rnd, q);
      case _ => PlainMessage(t, s, i, m, rnd);
  }

  lemma HaveRanks(t: Torrent, s: State, i: nat, p: nat, rnd: nat, q: nat)
    requires Shape(t, s) && Permitted(t, s, Receive(i, Have(p), rnd)) && q < t.N()
    ensures RankGrows(t, s, Step(t, s, Receive(i, Have(p), rnd)), q, if p == q then 1 else 0)
  {
    hide Step, Scheduled, SlotShape, Holds;
    var bits := HaveStep(t, s, i, p, rnd);
    var c := s.conn[i].(bitField := Some(bits));
    var s1 := With(s, i, c, [SaidInterested(i, true)]).(ranking := s.ranking[p := s.ranking[p] + 1]);
    if !Holds(s.field, p) && s.status[p] == NotDownloaded {
      ScheduledRanks(t, s1, Step(t, s, Receive(i, Have(p), rnd)), q);
    }
  }

  lemma BitFieldRanks(t: Torrent, s: State, i: nat, bits: seq<bv8>, rnd: nat, q: nat)
    requires Shape(t, s) && Permitted(t, s, Receive(i, BitFieldMsg(bits), rnd)) && q < t.N()
    ensures RankGrows(t, s, Step(t, s, Receive(i, BitFieldMsg(bits), rnd)), q,
      Tells(t, Receive(i, BitFieldMsg(bits), rnd), q))
  {
    hide Step, Scheduled, IsFirstWanted, SlotShape, SpareClear, Holds;
    var ranking, wanted := BitFieldStep(t, s, i, bits, rnd);
    if |bits| == FieldSize(t.N()) && SpareClear(bits, t.N()) && wanted.Some? {
      var c := s.conn[i].(bitField := Some(bits), amInterested := true, interestedPiece := wanted.value);
      ScheduledRanks(t, With(s, i, c, [SaidInterested(i, true)]).(ranking := ranking),
        Step(t, s, Receive(i, BitFieldMsg(bits), rnd)), q);
    }
  }

  lemma PieceRanks(t: Torrent, s: State, i: nat, p: nat, begin: nat, data: seq<byte>, rnd: nat, q: nat)
    requires Shape(t, s) && Permitted(t, s, Receive(i, Piece(p, begin, data), rnd)) && q < t.N()
    ensures RankGrows(t, s, Step(t, s, Receive(i, Piece(p, begin, data), rnd)), q, 0)
  {
    hide Step, Scheduled, IsFirstWanted, SlotShape, Holds, Written, BitSet, FieldThere, Sha1Spec.Digest, Int32;
    var s1, wanted := PieceStep(t, s, i, p, begin, data, rnd);
    var s' := Step(t, s, Receive(i, Piece(p, begin, data), rnd));
    if s.conn[i].interestedPiece == p < t.N() && Sha1Spec.Digest(data) == t.hashes[p]
       && !(forall q | 0 <= q < t.N() :: s1.status[q] == Completed) && wanted.Some? {
      ScheduledRanks(t, With(s1, i, s1.conn[i].(amInterested := true), []), s', q);
    }
  }

  lemma {:induction false} RunRanks(t: Torrent, s: State, es: seq<Event>, q: nat)
    requires Shape(t, s) && Allowed(t, s, es) && q < t.N()
    requires Run(t, s, es).status[q] == NotDownloaded
    ensures s.status[q] == NotDownloaded && Run(t, s, es).ranking[q] == s.ranking[q] + Told(t, es, q)
    decreases |es|
  {
    hide Step, Tells, Permitted, Shape;
    if es != [] {
      ShapeOf(t, s);
      var s1 := Step(t, s, es[0]);
      ShapeOf(t, s1);
      RunRanks(t, s1, es[1..], q);
      StepForward(t, s, es[0]);
      StepRanks(t, s, es[0], q);
    }
  }

  lemma ShapeOf(t: Torrent, s: State)
    requires Shape(t, s)
    ensures |s.status| == |s.ranking| == t.N()
  {
  }

  /**
   In every reachable state, the ranking of a piece not yet requested is exactly the number of acceptable bit
   fields received that show it plus the number of HAVE messages received for it.
   */
  lemma RankingCounts(t: Torrent, es: seq<Event>, q: nat)
    requires IsRun(t, es) && q < t.N() && After(t, es).status[q] == NotDownloaded
    ensures After(t, es).ranking[q] == Told(t, es, q)
  {
    InitShape(t);
    RunRanks(t, Init(t), es, q);
  }

  // ---------- the choice among pieces of least ranking ----------

  /** How many of the first k rankings are m. */
  function CountOf(r: seq<int>, m: int, k: nat): nat
    requires k <= |r|
  {
    if k == 0 then 0 else CountOf(r, m, k - 1) + if r[k - 1] == m then 1 else 0
  }

  lemma {:induction false} TiesCount(r: seq<int>, m: int)
    ensures |Ties(r, m)| == CountOf(r, m, |r|)
    ensures forall j | 0 <= j < |Ties(r, m)| :: CountOf(r, m, Ties(r, m)[j]) == j
  {
    if r != [] {
      var n := |r| - 1;
      TiesCount(r[..n], m);
      forall k: nat | k <= n
        ensures CountOf(r, m, k) == CountOf(r[..n], m, k)
      {
        CountOfFront(r, m, n, k);
      }
    }
  }

  lemma {:induction false} CountOfFront(r: seq<int>, m: int, n: nat, k: nat)
    requires k <= n <= |r|
    ensures CountOf(r, m, k) == CountOf(r[..n], m, k)
  {
    if k > 0 {
      CountOfFront(r, m, n, k - 1);
    }
  }

  /** Of the pieces of least ranking, in order, the one is picked whose number is rand() modulo their count. */
  lemma RarestIsNth(s: State, rnd: nat)
    requires |s.ranking| > 0
    ensures var r := Rarest(s, rnd);
      var m, total := s.ranking[r], CountOf(s.ranking, s.ranking[r], |s.ranking|);
      && (forall p | 0 <= p < |s.ranking| :: m <= s.ranking[p])
      && total > 0 && CountOf(s.ranking, m, r) == rnd % total
  {
    MinIsAttained(s.ranking);
    TiesCount(s.ranking, MinOf(s.ranking));
  }
}
