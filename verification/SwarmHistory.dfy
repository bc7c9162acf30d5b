/** What one step may change, told from the event alone, and two consequences for runs. */
module SwarmHistory {
  import opened Bytes
  import opened BitField
  import opened Geometry
  import opened Swarm
  import opened SwarmInvariants
  import opened SwarmResults
  import opened SwarmHonest
  import Sha1Spec

  // ---------- the flags of a slot ----------

  /** The event makes a new connection in slot i. */
  predicate Opens(s: State, e: Event, i: nat) {
    OpenedSlot(s, e) == Some(i)
  }

  /** The event is message m from slot i. */
  predicate Says(e: Event, i: nat, m: Message) {
    e.Receive? && e.slot == i && e.msg == m
  }

  /** The event ends the connection in slot i. */
  predicate Ends(t: Torrent, s: State, e: Event, i: nat)
    requires |s.conn| == MAX_CONN && Permitted(t, s, e)
  {
    if e.Receive? then
      e.slot == i &&
      match e.msg
      case Hangup => true
      case CutPiece => true
      case Unknown => true
      case BitFieldMsg(bits) => |bits| != FieldSize(t.N()) || !SpareClear(bits, t.N())
      case Piece(p, _, data) => !Accepts(t, s, i, p, data)
      case _ => false
    else
      Opens(s, e, i) && (e == Accept(Rejected) || e == Connect(Mismatch))
  }

  ghost predicate FlagsFollow(t: Torrent, s: State, e: Event, i: nat, s': State)
    requires Shape(t, s) && Shape(t, s') && Permitted(t, s, e) && i < MAX_CONN
  {
    var c, c' := s.conn[i], s'.conn[i];
    && c'.inUse == (!Ends(t, s, e, i) && (Opens(s, e, i) || c.inUse))
    && c'.peerChoking == (Opens(s, e, i) || Says(e, i, Choke) || (c.peerChoking && !Says(e, i, Unchoke)))
    && c'.amChoking == (Opens(s, e, i) || (c.amChoking && !Says(e, i, Interested)))
    && c'.peerInterested == (!Opens(s, e, i)
       && (Says(e, i, Interested) || (c.peerInterested && !Says(e, i, NotInterested))))
  }

  /** The scheduler leaves these alone. */
  predicate SameSide(c: Slot, c': Slot) {
    && c'.inUse == c.inUse && c'.peerChoking == c.peerChoking && c'.amChoking == c.amChoking
    && c'.peerInterested == c.peerInterested && c'.bitField == c.bitField
  }

  lemma FindSameSide(t: Torrent, s: State, rnd: nat, i: nat)
    requires Shape(t, s) && i < MAX_CONN
    ensures SameSide(s.conn[i], FindRarest(t, s, rnd).conn[i])
  {
    hide FindRarest, HasPiece;
    var r, said, asked := SchedulerEffect(t, s, rnd);
  }

  lemma GreetFlags(t: Torrent, s: State, i: nat, bits: seq<bv8>, rnd: nat, k: nat)
    requires Shape(t, s) && i < MAX_CONN && k < MAX_CONN && |bits| == FieldSize(t.N())
    ensures SameSide(s.conn[k], Greet(t, s, i, bits, rnd).conn[k])
  {
    hide FindRarest, FirstWanted;
    match FirstWanted(t, s, bits, 0)
    case Some(p) =>
      FindSameSide(t, Log(Put(s, i, s.conn[i].(amInterested := true, interestedPiece := p)), SaidInterested(i, true)),
        rnd, k);
    case None =>
  }

  lemma BitFieldFlags(t: Torrent, s: State, i: nat, bits: seq<bv8>, rnd: nat, k: nat)
    requires Shape(t, s) && i < MAX_CONN && k < MAX_CONN
    requires |bits| == FieldSize(t.N()) && SpareClear(bits, t.N())
    ensures SameSide(s.conn[k].(bitField := if k == i then Some(bits) else s.conn[k].bitField),
      OnBitField(t, s, i, bits, rnd).conn[k])
  {
    hide Greet, Bump, SpareClear;
    GreetFlags(t, Put(s, i, s.conn[i].(bitField := Some(bits))).(ranking := Bump(t, s.ranking, bits)), i, bits, rnd, k);
  }

  lemma HaveFlags(t: Torrent, s: State, i: nat, p: nat, rnd: nat, k: nat)
    requires Shape(t, s) && i < MAX_CONN && p < t.N() && s.conn[i].bitField.Some? && k < MAX_CONN
    requires ByteOf(p) < |s.conn[i].bitField.value|
    ensures SameSide(s.conn[k].(bitField :=
                       if k == i then Some(WithBit(s.conn[i].bitField.value, p)) else s.conn[k].bitField),
                     OnHave(t, s, i, p, rnd).conn[k])
  {
    hide FindRarest;
    InBounds(t.N(), p);
    var bits := WithBit(s.conn[i].bitField.value, p);
    var s1 := Put(s, i, s.conn[i].(bitField := Some(bits))).(ranking := s.ranking[p := s.ranking[p] + 1]);
    FindSameSide(t, Log(s1, SaidInterested(i, true)), rnd, k);
  }

  lemma AfterStoreFlags(t: Torrent, s: State, i: nat, rnd: nat, k: nat)
    requires Shape(t, s) && i < MAX_CONN && k < MAX_CONN
    requires !AllCompleted(s.status) ==> s.conn[i].bitField.Some?
    ensures SameSide(s.conn[k], AfterStore(t, s, i, rnd).conn[k])
  {
    hide FindRarest, FirstWanted, AllCompleted;
    FindSameSide(t, Put(s, i, s.conn[i].(amInterested := true)), rnd, k);
  }

  lemma PieceFlags(t: Torrent, s: State, i: nat, p: nat, data: seq<byte>, rnd: nat, k: nat)
    requires Shape(t, s) && Permitted(t, s, Receive(i, Piece(p, 0, data), rnd)) && k < MAX_CONN
    requires Accepts(t, s, i, p, data)
    ensures SameSide(s.conn[k], OnPiece(t, s, i, p, data, rnd).conn[k])
  {
    hide AfterStore, Store, AllCompleted, FieldThere, Sha1Spec.Digest;
    FieldStillThere(t, s, i, p, data);
    AfterStoreFlags(t, Store(t, s, i, p, data), i, rnd, k);
  }

  lemma PlainFlags(t: Torrent, s: State, j: nat, m: Message, rnd: nat, i: nat)
    requires Shape(t, s) && Permitted(t, s, Receive(j, m, rnd)) && i < MAX_CONN && IsPlain(m)
    ensures FlagsFollow(t, s, Receive(j, m, rnd), i, OnMessage(t, s, j, m, rnd))
  {
    hide FirstFree, SpareClear, Accepts, AllCompleted, FieldSize, PieceCount, SlotShape, OnBitField, OnHave, OnPiece,
         OnRequest;
  }

  lemma UnchokeFlags(t: Torrent, s: State, j: nat, rnd: nat, i: nat)
    requires Shape(t, s) && Permitted(t, s, Receive(j, Unchoke, rnd)) && i < MAX_CONN
    ensures FlagsFollow(t, s, Receive(j, Unchoke, rnd), i, OnMessage(t, s, j, Unchoke, rnd))
  {
    hide FindRarest, FirstFree, SpareClear, Accepts, AllCompleted, FieldSize, PieceCount;
    FindSameSide(t, Put(s, j, s.conn[j].(peerChoking := false)), rnd, i);
  }

  /** A message on slot j that leaves these flags of slot i alone, if it does not end the connection. */
  lemma SidesFollow(t: Torrent, s: State, j: nat, m: Message, rnd: nat, i: nat, s': State)
    requires Shape(t, s) && Shape(t, s') && Permitted(t, s, Receive(j, m, rnd)) && i < MAX_CONN
    requires m.Have? || m.BitFieldMsg? || m.Request? || m.Piece?
    requires !Ends(t, s, Receive(j, m, rnd), j)
    requires SameSide(s.conn[i].(bitField := s'.conn[i].bitField), s'.conn[i])
    ensures FlagsFollow(t, s, Receive(j, m, rnd), i, s')
  {
    hide FirstFree, SpareClear, Accepts, AllCompleted, FieldSize, PieceCount;
  }

  lemma ClosingFlags(t: Torrent, s: State, j: nat, m: Message, rnd: nat, i: nat)
    requires Shape(t, s) && Permitted(t, s, Receive(j, m, rnd)) && i < MAX_CONN
    requires m.BitFieldMsg? || m.Piece?
    requires Ends(t, s, Receive(j, m, rnd), j)
    ensures FlagsFollow(t, s, Receive(j, m, rnd), i, Close(s, j))
  {
    hide FirstFree, SpareClear, Accepts, AllCompleted, FieldSize, PieceCount;
  }

  lemma MessageFlags(t: Torrent, s: State, j: nat, m: Message, rnd: nat, i: nat)
    requires Shape(t, s) && Permitted(t, s, Receive(j, m, rnd)) && i < MAX_CONN
    ensures FlagsFollow(t, s, Receive(j, m, rnd), i, OnMessage(t, s, j, m, rnd))
  {
    hide OnBitField, OnHave, OnPiece, OnRequest, FindRarest, FirstFree, SpareClear, Accepts, AllCompleted, FieldSize,
         PieceCount, FlagsFollow;
    var s' := OnMessage(t, s, j, m, rnd);
    match m
    case Unchoke => UnchokeFlags(t, s, j, rnd, i);
    case Have(p) =>
      InBounds(t.N(), p);
      HaveFlags(t, s, j, p, rnd, i);
      SidesFollow(t, s, j, m, rnd, i, s');
    case BitFieldMsg(bits) =>
      if |bits| == FieldSize(t.N()) && SpareClear(bits, t.N()) {
        BitFieldFlags(t, s, j, bits, rnd, i);
        SidesFollow(t, s, j, m, rnd, i, s');
      } else {
        BadBitField(t, s, j, bits, rnd);
        ClosingFlags(t, s, j, m, rnd, i);
      }
    case Request(p, begin, length) =>
      RequestFlags(t, s, j, p, begin, length);
      SidesFollow(t, s, j, m, rnd, i, s');
    case Piece(p, _, data) =>
      if Accepts(t, s, j, p, data) {
        PieceFlags(t, s, j, p, data, rnd, i);
        SidesFollow(t, s, j, m, rnd, i, s');
      } else {
        BadPiece(t, s, j, p, data, rnd);
        ClosingFlags(t, s, j, m, rnd, i);
      }
    case _ => PlainFlags(t, s, j, m, rnd, i);
  }

  lemma RequestFlags(t: Torrent, s: State, i: nat, p: nat, begin: nat, length: nat)
    requires Shape(t, s) && i < MAX_CONN
    ensures OnRequest(t, s, i, p, begin, length).conn == s.conn
  {
  }

  /** Who is connected, who chokes whom and who is interested is just what the last connection and messages said. */
  lemma StepFlags(t: Torrent, s: State, e: Event, i: nat)
    requires Shape(t, s) && Permitted(t, s, e) && i < MAX_CONN
    ensures FlagsFollow(t, s, e, i, Step(t, s, e))
  {
    match e
    case Accept(outcome) => AcceptFlags(t, s, outcome, i);
    case Connect(outcome) => ConnectFlags(t, s, outcome, i);
    case Receive(j, m, rnd) => MessageFlags(t, s, j, m, rnd, i);
  }

  lemma AcceptFlags(t: Torrent, s: State, outcome: AcceptOutcome, i: nat)
    requires Shape(t, s) && i < MAX_CONN
    ensures FlagsFollow(t, s, Accept(outcome), i, OnAccept(t, s, outcome))
  {
    hide FirstFree;
  }

  lemma ConnectFlags(t: Torrent, s: State, outcome: ConnectOutcome, i: nat)
    requires Shape(t, s) && i < MAX_CONN && FirstFree(s.conn, 0).Some?
    ensures FlagsFollow(t, s, Connect(outcome), i, OnConnect(t, s, outcome))
  {
    hide FirstFree;
  }

  lemma BadBitField(t: Torrent, s: State, i: nat, bits: seq<bv8>, rnd: nat)
    requires Shape(t, s) && i < MAX_CONN && !(|bits| == FieldSize(t.N()) && SpareClear(bits, t.N()))
    ensures OnBitField(t, s, i, bits, rnd) == Close(s, i)
  {
  }

  lemma BadPiece(t: Torrent, s: State, i: nat, p: nat, data: seq<byte>, rnd: nat)
    requires Shape(t, s) && Permitted(t, s, Receive(i, Piece(p, 0, data), rnd)) && !Accepts(t, s, i, p, data)
    ensures OnPiece(t, s, i, p, data, rnd) == Close(s, i)
  {
  }

  /** What the stored bit field of slot i shows of piece q after an event. */
  predicate ShowsAfter(t: Torrent, s: State, e: Event, i: nat, q: nat)
    requires i < |s.conn|
  {
    match e
    case Accept(outcome) => HasPiece(t, s.conn[i], q) && !(outcome == Accepted && Opens(s, e, i))
    case Connect(_) => HasPiece(t, s.conn[i], q)
    case Receive(j, m, _) =>
      match m
      case Have(p) => HasPiece(t, s.conn[i], q) || (j == i && q == p && p != 8)
      case BitFieldMsg(bits) =>
        if j == i && |bits| == FieldSize(t.N()) && SpareClear(bits, t.N())
        then q < t.N() && (InBounds(t.N(), q); Holds(bits, q))
        else HasPiece(t, s.conn[i], q)
      case _ => HasPiece(t, s.conn[i], q)
  }

  /**
   A slot shows just the pieces of the last acceptable bit field and of the HAVE messages after it (all but
   piece 8); it forgets them only when an incoming connection is accepted.
   */
  lemma StepFields(t: Torrent, s: State, e: Event, i: nat, q: nat)
    requires Shape(t, s) && Permitted(t, s, e) && i < MAX_CONN && q < t.N()
    ensures HasPiece(t, Step(t, s, e).conn[i], q) <==> ShowsAfter(t, s, e, i, q)
  {
    hide OnMessage, FirstFree, HasPiece;
    match e
    case Accept(outcome) =>
      NoFieldNoPiece(t, s, q);
    case Connect(outcome) =>
      SameFieldSamePiece(t, s, q);
    case Receive(j, m, rnd) => MessageFields(t, s, j, m, rnd, i, q);
  }

  lemma SameFieldSamePiece(t: Torrent, s: State, q: nat)
    ensures forall c: Slot, c': Slot | c.bitField == c'.bitField :: HasPiece(t, c, q) == HasPiece(t, c', q)
  {
  }

  lemma NoFieldNoPiece(t: Torrent, s: State, q: nat)
    ensures forall c: Slot | c.bitField == None :: !HasPiece(t, c, q)
    ensures forall c: Slot, c': Slot | c.bitField == c'.bitField :: HasPiece(t, c, q) == HasPiece(t, c', q)
  {
  }

  lemma MessageFields(t: Torrent, s: State, j: nat, m: Message, rnd: nat, i: nat, q: nat)
    requires Shape(t, s) && Permitted(t, s, Receive(j, m, rnd)) && i < MAX_CONN && q < t.N()
    ensures HasPiece(t, OnMessage(t, s, j, m, rnd).conn[i], q) <==> ShowsAfter(t, s, Receive(j, m, rnd), i, q)
  {
    hide OnBitField, OnHave, OnPiece, OnRequest, FindRarest, SpareClear, Accepts, AllCompleted, HasPiece, Holds;
    SameFieldSamePiece(t, s, q);
    match m
    case Unchoke => FindSameSide(t, Put(s, j, s.conn[j].(peerChoking := false)), rnd, i);
    case Have(p) => HaveFields(t, s, j, p, rnd, i, q);
    case BitFieldMsg(bits) => BitFieldFields(t, s, j, bits, rnd, i, q);
    case Request(p, begin, length) => RequestFlags(t, s, j, p, begin, length);
    case Piece(p, _, data) =>
      if Accepts(t, s, j, p, data) {
        PieceFlags(t, s, j, p, data, rnd, i);
      } else {
        BadPiece(t, s, j, p, data, rnd);
      }
    case _ =>
  }

  lemma HaveFields(t: Torrent, s: State, j: nat, p: nat, rnd: nat, i: nat, q: nat)
    requires Shape(t, s) && j < MAX_CONN && p < t.N() && s.conn[j].bitField.Some? && i < MAX_CONN && q < t.N()
    ensures HasPiece(t, OnHave(t, s, j, p, rnd).conn[i], q)
       <==> HasPiece(t, s.conn[i], q) || (j == i && q == p && p != 8)
  {
    hide OnHave, Holds, WithBit;
    InBounds(t.N(), p);
    HaveFlags(t, s, j, p, rnd, i);
    InBounds(t.N(), q);
    FieldAfterHave(s.conn[j].bitField.value, p, q);
  }

  lemma BitFieldFields(t: Torrent, s: State, j: nat, bits: seq<bv8>, rnd: nat, i: nat, q: nat)
    requires Shape(t, s) && j < MAX_CONN && i < MAX_CONN && q < t.N()
    ensures HasPiece(t, OnBitField(t, s, j, bits, rnd).conn[i], q)
       <==> if j == i && |bits| == FieldSize(t.N()) && SpareClear(bits, t.N()) then InBounds(t.N(), q); Holds(bits, q)
            else HasPiece(t, s.conn[i], q)
  {
    hide OnBitField, Holds, SpareClear;
    InBounds(t.N(), q);
    if |bits| == FieldSize(t.N()) && SpareClear(bits, t.N()) {
      BitFieldFlags(t, s, j, bits, rnd, i);
    } else {
      BadBitField(t, s, j, bits, rnd);
    }
  }

  /**
   A seeder that lays out its bit field as BEP 3 asks is disconnected for it if and only if the torrent has more than
   8 pieces and their number is not a multiple of 8.
   */
  lemma SeederDisconnectedIff(t: Torrent, s: State, i: nat, bits: seq<bv8>, rnd: nat)
    requires Shape(t, s) && i < MAX_CONN && s.conn[i].inUse && |bits| == FieldSize(t.N())
    requires forall p: nat | p < 8 * FieldSize(t.N()) :: Bep3Holds(bits, p) <==> p < t.N()
    ensures !OnBitField(t, s, i, bits, rnd).conn[i].inUse <==> t.N() > 8 && t.N() % 8 != 0
  {
    hide OnBitField, SpareClear, Bep3Holds;
    ConformingFieldAcceptedIff(bits, t.N());
    if SpareClear(bits, t.N()) {
      BitFieldFlags(t, s, i, bits, rnd, i);
    } else {
      BadBitField(t, s, i, bits, rnd);
    }
  }

  // ---------- requests and statuses ----------

  /**
   A request that keeps to the protocol: to a connected peer that shows the piece and does not choke, for the
   right length.
   */
  ghost predicate Proper(t: Torrent, s: State, a: Action)
    requires Shape(t, s)
  {
    a.Requested? ==>
      && a.slot < MAX_CONN && s.conn[a.slot].inUse && !s.conn[a.slot].peerChoking
         && HasPiece(t, s.conn[a.slot], a.piece)
      && a.length == t.Length(a.piece) && s.conn[a.slot].interestedPiece == a.piece && s.conn[a.slot].requestSent
  }

  /** A piece that has come in: the slot it came on, and its index. */
  datatype Delivery = Delivery(slot: nat, piece: nat)

  /** New requests are for pieces marked as not downloaded, and proper in s'. */
  ghost predicate ProperRequests(t: Torrent, s: State, s': State, added: seq<Action>)
    requires Shape(t, s) && Shape(t, s')
  {
    forall k | 0 <= k < |added| && added[k].Requested? ::
      Proper(t, s', added[k]) && added[k].piece < t.N() && s.status[added[k].piece] == NotDownloaded
  }

  /** A slot with a request pending is not asked again and keeps its flag, unless a piece was stored from it. */
  ghost predicate BusyStay(s: State, s': State, added: seq<Action>, stored: Option<Delivery>)
    requires |s.conn| == |s'.conn| == MAX_CONN
  {
    forall j: nat | j < MAX_CONN && s.conn[j].requestSent && !(stored.Some? && stored.value.slot == j) ::
      s'.conn[j].requestSent && forall k | 0 <= k < |added| && added[k].Requested? :: added[k].slot != j
  }

  /** The piece noted for a slot changes only to one marked as not downloaded. */
  ghost predicate NotesMove(t: Torrent, s: State, s': State)
    requires Shape(t, s) && Shape(t, s')
  {
    forall j: nat | j < MAX_CONN ::
      var p := s'.conn[j].interestedPiece; p == s.conn[j].interestedPiece || s.status[p] == NotDownloaded
  }

  /** A ranking falls only to that of a piece taken, and a piece requested is ranked so. */
  ghost predicate RanksMove(t: Torrent, s: State, s': State)
    requires Shape(t, s) && Shape(t, s')
  {
    forall q: nat | q < t.N() ::
      && (s'.ranking[q] >= s.ranking[q] || s'.ranking[q] >= TAKEN)
      && (s.status[q] == NotDownloaded && s'.status[q] == Downloading ==> s'.ranking[q] >= TAKEN)
  }

  /** One of the actions is a request for piece q. */
  ghost predicate Asks(added: seq<Action>, q: nat) {
    exists k :: 0 <= k < |added| && added[k].Requested? && added[k].piece == q
  }

  /** A status changes only by a request, or because the piece was stored. */
  ghost predicate StatusesMove(t: Torrent, s: State, s': State, added: seq<Action>, stored: Option<Delivery>)
    requires Shape(t, s) && Shape(t, s')
  {
    && (forall q: nat | q < t.N() && !(stored.Some? && stored.value.piece == q) ::
          s'.status[q] == s.status[q]
            || (s.status[q] == NotDownloaded && s'.status[q] == Downloading && Asks(added, q)))
    && (stored.Some? ==> stored.value.piece < t.N() && s'.status[stored.value.piece] == Completed)
  }

  /** What may happen from s to s' when the actions `added` are taken and `stored` has come in. */
  ghost predicate Grown(t: Torrent, s: State, s': State, added: seq<Action>, stored: Option<Delivery>)
    requires Shape(t, s) && Shape(t, s')
  {
    && s'.log == s.log + added
    && ProperRequests(t, s, s', added)
    && BusyStay(s, s', added, stored)
    && NotesMove(t, s, s')
    && RanksMove(t, s, s')
    && StatusesMove(t, s, s', added, stored)
  }

  lemma FindGrown(t: Torrent, s: State, rnd: nat) returns (added: seq<Action>)
    requires Shape(t, s)
    ensures Grown(t, s, FindRarest(t, s, rnd), added, None)
  {
    hide FindRarest, Told, Courted, Choking, PieceCount, FieldSize;
    var r, said, asked := SchedulerEffect(t, s, rnd);
    var s' := FindRarest(t, s, rnd);
    if s.ranking[r] == GIVE_UP {
      added := [];
      assert s.log + added == s.log;
    } else if asked == None {
      added := said;
      NothingRequested(s, s', said);
    } else {
      var a := Requested(asked.value, r, t.Length(r));
      added := said + [a];
      assert s.log + said + [a] == s.log + added;
      assert HasPiece(t, s'.conn[a.slot], r);
      assert added[|said|] == a;
      assert Asks(added, r);
      NothingRequested(s, s', said);
    }
  }

  lemma NothingRequested(s: State, s': State, said: seq<Action>)
    requires |s.conn| == |s'.conn| == MAX_CONN && Told(s.conn, s'.conn, said)
    ensures forall k | 0 <= k < |said| :: !said[k].Requested?
  {
    forall k | 0 <= k < |said|
      ensures !said[k].Requested?
    {
      assert said[k] in said;
    }
  }

  lemma AsksLater(a: seq<Action>, b: seq<Action>)
    requires forall k | 0 <= k < |a| :: !a[k].Requested?
    ensures forall q: nat :: !Asks(a, q)
    ensures forall q: nat | Asks(b, q) :: Asks(a + b, q)
  {
    forall q: nat | Asks(b, q)
      ensures Asks(a + b, q)
    {
      var k :| 0 <= k < |b| && b[k].Requested? && b[k].piece == q;
      assert (a + b)[|a| + k] == b[k];
    }
  }

  lemma GrownThen(t: Torrent, s: State, s1: State, s2: State, a: seq<Action>, b: seq<Action>, stored: Option<Delivery>)
    requires Shape(t, s) && Shape(t, s1) && Shape(t, s2)
    requires Grown(t, s, s1, a, stored) && Grown(t, s1, s2, b, None) && forall k | 0 <= k < |a| :: !a[k].Requested?
    ensures Grown(t, s, s2, a + b, stored)
  {
    hide Proper, Asks;
    assert s.log + (a + b) == s.log + a + b;
    AsksLater(a, b);
  }

  /** A change without requests. */
  lemma QuietGrown(t: Torrent, s: State, s': State, added: seq<Action>, stored: Option<Delivery>)
    requires Shape(t, s) && Shape(t, s')
    requires s'.log == s.log + added && (forall k | 0 <= k < |added| :: !added[k].Requested?)
    requires stored.Some? ==> stored.value.slot < MAX_CONN && stored.value.piece < t.N()
    requires s'.status == if stored.Some? then s.status[stored.value.piece := Completed] else s.status
    requires BusyStay(s, s', [], stored) && NotesMove(t, s, s')
    requires forall q: nat | q < t.N() :: s'.ranking[q] >= s.ranking[q]
    ensures Grown(t, s, s', added, stored)
  {
  }

  /** A change of one slot, without requests. */
  lemma SlotGrown(t: Torrent, s: State, s': State, i: nat, added: seq<Action>)
    requires Shape(t, s) && Shape(t, s') && i < MAX_CONN
    requires s' == s.(conn := s.conn[i := s'.conn[i]], log := s.log + added, ranking := s'.ranking)
    requires forall k | 0 <= k < |added| :: !added[k].Requested?
    requires s'.conn[i].requestSent == s.conn[i].requestSent
    requires s'.conn[i].interestedPiece == s.conn[i].interestedPiece
      || s.status[s'.conn[i].interestedPiece] == NotDownloaded
    requires forall q: nat | q < t.N() :: s'.ranking[q] >= s.ranking[q]
    ensures Grown(t, s, s', added, None)
  {
    QuietGrown(t, s, s', added, None);
  }

  lemma BitFieldGrown(t: Torrent, s: State, i: nat, bits: seq<bv8>, rnd: nat) returns (added: seq<Action>)
    requires Shape(t, s) && i < MAX_CONN
    ensures Grown(t, s, OnBitField(t, s, i, bits, rnd), added, None)
  {
    hide FindRarest, Grown, Bump, FirstWanted, SpareClear, Holds;
    var s' := OnBitField(t, s, i, bits, rnd);
    if |bits| != FieldSize(t.N()) || !SpareClear(bits, t.N()) {
      added := [Closed(i)];
      SlotGrown(t, s, s', i, added);
    } else {
      var s1 := Put(s, i, s.conn[i].(bitField := Some(bits))).(ranking := Bump(t, s.ranking, bits));
      BumpGrows(t, s.ranking, bits);
      match FirstWanted(t, s1, bits, 0)
      case Some(p) =>
        var s2 := Log(Put(s1, i, s1.conn[i].(amInterested := true, interestedPiece := p)), SaidInterested(i, true));
        SlotGrown(t, s, s2, i, [SaidInterested(i, true)]);
        var more := FindGrown(t, s2, rnd);
        GrownThen(t, s, s2, s', [SaidInterested(i, true)], more, None);
        added := [SaidInterested(i, true)] + more;
      case None =>
        added := [SaidInterested(i, false)];
        SlotGrown(t, s, s', i, added);
    }
  }

  lemma BumpGrows(t: Torrent, ranking: seq<int>, bits: seq<bv8>)
    requires |ranking| == t.N() && |bits| == FieldSize(t.N())
    ensures forall q: nat | q < t.N() :: Bump(t, ranking, bits)[q] >= ranking[q]
  {
    hide Holds;
  }

  lemma HaveGrown(t: Torrent, s: State, i: nat, p: nat, rnd: nat) returns (added: seq<Action>)
    requires Shape(t, s) && i < MAX_CONN && p < t.N() && s.conn[i].bitField.Some?
    ensures Grown(t, s, OnHave(t, s, i, p, rnd), added, None)
  {
    hide FindRarest, Grown, Holds;
    InBounds(t.N(), p);
    var s' := OnHave(t, s, i, p, rnd);
    var bits := WithBit(s.conn[i].bitField.value, p);
    var s1 := Put(s, i, s.conn[i].(bitField := Some(bits))).(ranking := s.ranking[p := s.ranking[p] + 1]);
    if !Holds(s.field, p) && s.status[p] == NotDownloaded {
      var s2 := Log(s1, SaidInterested(i, true));
      SlotGrown(t, s, s2, i, [SaidInterested(i, true)]);
      var more := FindGrown(t, s2, rnd);
      GrownThen(t, s, s2, s', [SaidInterested(i, true)], more, None);
      added := [SaidInterested(i, true)] + more;
    } else {
      added := [];
      assert s.log + added == s.log;
      SlotGrown(t, s, s', i, added);
    }
  }

  lemma AfterStoreGrown(t: Torrent, s: State, i: nat, rnd: nat) returns (added: seq<Action>)
    requires Shape(t, s) && i < MAX_CONN
    requires !AllCompleted(s.status) ==> s.conn[i].bitField.Some?
    ensures Grown(t, s, AfterStore(t, s, i, rnd), added, None)
  {
    hide FindRarest, Grown, FirstWanted, AllCompleted;
    var s' := AfterStore(t, s, i, rnd);
    if AllCompleted(s.status) {
      added := [SaidInterested(i, false), AnnouncedCompleted];
      QuietGrown(t, s, s', added, None);
    } else {
      match FirstWanted(t, s, s.conn[i].bitField.value, 0)
      case Some(_) =>
        var s1 := Put(s, i, s.conn[i].(amInterested := true));
        assert s.log + [] == s.log;
        SlotGrown(t, s, s1, i, []);
        var more := FindGrown(t, s1, rnd);
        GrownThen(t, s, s1, s', [], more, None);
        added := [] + more;
      case None =>
        added := [SaidInterested(i, false)];
        SlotGrown(t, s, s', i, added);
    }
  }

  lemma PieceGrown(t: Torrent, s: State, i: nat, p: nat, data: seq<byte>, rnd: nat)
    returns (added: seq<Action>, stored: Option<Delivery>)
    requires Shape(t, s) && Permitted(t, s, Receive(i, Piece(p, 0, data), rnd))
    ensures Grown(t, s, OnPiece(t, s, i, p, data, rnd), added, stored)
    ensures stored == if Accepts(t, s, i, p, data) then Some(Delivery(i, p)) else None
  {
    hide AfterStore, Grown, Store, AllCompleted, FieldThere, Sha1Spec.Digest;
    var s' := OnPiece(t, s, i, p, data, rnd);
    if !Accepts(t, s, i, p, data) {
      added, stored := [Closed(i)], None;
      SlotGrown(t, s, s', i, added);
    } else {
      FieldStillThere(t, s, i, p, data);
      stored := Some(Delivery(i, p));
      var s1 := Store(t, s, i, p, data);
      var first := [Stored(i, p, |data|), SaidHave(p)];
      StoreGrown(t, s, i, p, data);
      var more := AfterStoreGrown(t, s1, i, rnd);
      GrownThen(t, s, s1, s', first, more, stored);
      added := first + more;
    }
  }

  lemma StoreGrown(t: Torrent, s: State, i: nat, p: nat, data: seq<byte>)
    requires Shape(t, s) && i < MAX_CONN && p < t.N()
    ensures Grown(t, s, Store(t, s, i, p, data), [Stored(i, p, |data|), SaidHave(p)], Some(Delivery(i, p)))
  {
    hide Grown, Write, WithBit, Int32;
    var s1 := Store(t, s, i, p, data);
    assert s1.log == s.log + [Stored(i, p, |data|), SaidHave(p)];
    QuietGrown(t, s, s1, [Stored(i, p, |data|), SaidHave(p)], Some(Delivery(i, p)));
  }

  lemma UnchokeGrown(t: Torrent, s: State, i: nat, rnd: nat) returns (added: seq<Action>)
    requires Shape(t, s) && i < MAX_CONN
    ensures Grown(t, s, OnUnchoke(t, s, i, rnd), added, None)
  {
    hide FindRarest, Grown;
    var s1 := Put(s, i, s.conn[i].(peerChoking := false));
    assert s.log + [] == s.log;
    SlotGrown(t, s, s1, i, []);
    added := [];
    if s.conn[i].amInterested {
      var more := FindGrown(t, s1, rnd);
      GrownThen(t, s, s1, OnUnchoke(t, s, i, rnd), [], more, None);
      added := [] + more;
    }
  }

  lemma PlainGrown(t: Torrent, s: State, i: nat, m: Message, rnd: nat) returns (added: seq<Action>)
    requires Shape(t, s) && Permitted(t, s, Receive(i, m, rnd)) && IsPlain(m)
    ensures Grown(t, s, OnMessage(t, s, i, m, rnd), added, None)
  {
    hide Grown, FieldSize, PieceCount, SpareClear, Accepts, AllCompleted;
    var s' := OnMessage(t, s, i, m, rnd);
    added := s'.log[|s.log|..];
    assert s.conn == s.conn[i := s.conn[i]];
    SlotGrown(t, s, s', i, added);
  }

  lemma AcceptGrown(t: Torrent, s: State, outcome: AcceptOutcome) returns (added: seq<Action>)
    requires Shape(t, s)
    ensures Grown(t, s, OnAccept(t, s, outcome), added, None)
  {
    hide Grown, FieldSize, PieceCount, FirstFree;
    var s' := OnAccept(t, s, outcome);
    added := s'.log[|s.log|..];
    assert s.conn == s.conn[0 := s.conn[0]];
    SlotGrown(t, s, s', if FirstFree(s.conn, 0).Some? then FirstFree(s.conn, 0).value else 0, added);
  }

  lemma ConnectGrown(t: Torrent, s: State, outcome: ConnectOutcome) returns (added: seq<Action>)
    requires Shape(t, s) && FirstFree(s.conn, 0).Some?
    ensures Grown(t, s, OnConnect(t, s, outcome), added, None)
  {
    hide Grown, FieldSize, PieceCount, FirstFree;
    var s' := OnConnect(t, s, outcome);
    var i := FirstFree(s.conn, 0).value;
    added := s'.log[|s.log|..];
    assert s.conn == s.conn[i := s.conn[i]];
    SlotGrown(t, s, s', i, added);
  }

  lemma AnswerGrown(t: Torrent, s: State, i: nat, p: nat, begin: nat, length: nat) returns (added: seq<Action>)
    requires Shape(t, s) && i < MAX_CONN
    ensures Grown(t, s, OnRequest(t, s, i, p, begin, length), added, None)
  {
    hide Grown, FieldSize, PieceCount, Holds, Fread;
    var s' := OnRequest(t, s, i, p, begin, length);
    added := s'.log[|s.log|..];
    QuietGrown(t, s, s', added, None);
  }

  /**
   What a step may do to requests and statuses. In particular every REQUEST it sends goes to a connected peer that does
   not choke and shows the piece, is for the right length, and is for a piece that was marked as not downloaded.
   */
  lemma StepGrown(t: Torrent, s: State, e: Event) returns (added: seq<Action>, stored: Option<Delivery>)
    requires Shape(t, s) && Permitted(t, s, e)
    ensures Grown(t, s, Step(t, s, e), added, stored)
    ensures stored.Some? ==>
      && e.Receive? && e.msg.Piece? && stored == Some(Delivery(e.slot, e.msg.piece))
      && Accepts(t, s, e.slot, e.msg.piece, e.msg.data)
  {
    hide OnBitField, OnHave, OnPiece, OnUnchoke, OnRequest, OnAccept, OnConnect, Grown, FirstFree, Accepts,
         AllCompleted, FieldSize, Holds;
    stored := None;
    match e
    case Accept(outcome) => added := AcceptGrown(t, s, outcome);
    case Connect(outcome) => added := ConnectGrown(t, s, outcome);
    case Receive(i, m, rnd) =>
      match m
      case Unchoke => added := UnchokeGrown(t, s, i, rnd);
      case Have(p) => added := HaveGrown(t, s, i, p, rnd);
      case BitFieldMsg(bits) => added := BitFieldGrown(t, s, i, bits, rnd);
      case Request(p, begin, length) => added := AnswerGrown(t, s, i, p, begin, length);
      case Piece(p, _, data) => added, stored := PieceGrown(t, s, i, p, data, rnd);
      case _ => added := PlainGrown(t, s, i, m, rnd);
  }
}
