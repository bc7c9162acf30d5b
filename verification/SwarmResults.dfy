/** What holds in every run of the leecher, whatever its peers send. */
module SwarmResults {
  import opened Bytes
  import opened BitField
  import opened Geometry
  import opened Swarm
  import opened SwarmInvariants
  import Sha1Spec

  // ---------- one pass of the scheduler ----------

  /** A connected peer that shows piece r, does not choke and has no request pending. */
  predicate Willing(t: Torrent, c: Slot, r: nat) {
    c.inUse && HasPiece(t, c, r) && !c.peerChoking && !c.requestSent
  }

  /** A connected peer that shows piece r but chokes. */
  predicate Choking(t: Torrent, c: Slot, r: nat) {
    c.inUse && HasPiece(t, c, r) && c.peerChoking
  }

  /** Slot j is the first willing one from slot i on; None if there is none, or the piece is taken. */
  ghost predicate FirstWilling(t: Torrent, s: State, r: nat, i: nat, asked: Option<nat>)
    requires Shape(t, s) && r < t.N()
  {
    match asked
    case None => s.status[r] == NotDownloaded ==> forall k: nat | i <= k < MAX_CONN :: !Willing(t, s.conn[k], r)
    case Some(j) =>
      && s.status[r] == NotDownloaded && i <= j < MAX_CONN && Willing(t, s.conn[j], r)
      && forall k: nat | i <= k < j :: !Willing(t, s.conn[k], r)
  }

  /** Whether a pass from slot i on that ends at `asked` says to the peer in slot k that it is interesting. */
  predicate Courted(t: Torrent, s: State, r: nat, i: nat, asked: Option<nat>, k: nat)
    requires Shape(t, s) && r < t.N() && k < MAX_CONN
  {
    && s.status[r] == NotDownloaded && i <= k
    && (asked == Some(k) || ((asked.None? || k < asked.value) && Choking(t, s.conn[k], r)))
  }

  /** How such a pass for piece r changes slot k. */
  predicate SlotAfterPass(t: Torrent, s: State, r: nat, i: nat, asked: Option<nat>, k: nat, after: Slot)
    requires Shape(t, s) && r < t.N() && k < MAX_CONN
  {
    var c := s.conn[k].(amInterested := s.conn[k].amInterested || Courted(t, s, r, i, asked, k));
    after == if asked == Some(k) then c.(interestedPiece := r, requestSent := true) else c
  }

  /** Just the peers whose flag of interest has changed have been told. */
  ghost predicate Told(conn: seq<Slot>, conn': seq<Slot>, said: seq<Action>)
    requires |conn| == |conn'| == MAX_CONN
  {
    && (forall a | a in said :: a.SaidInterested? && a.flag && a.slot < MAX_CONN)
    && (forall k: nat | k < MAX_CONN ::
          SaidInterested(k, true) in said <==> !conn[k].amInterested && conn'[k].amInterested)
  }

  /**
   The state after a pass from slot i on that said `said` to peers and, if `asked` is a slot, requested piece r
   from it.
   */
  ghost predicate PassEffect(t: Torrent, s: State, s': State, r: nat, i: nat, said: seq<Action>, asked: Option<nat>)
    requires Shape(t, s) && r < t.N()
  {
    && FirstWilling(t, s, r, i, asked)
    && |s'.conn| == MAX_CONN && Told(s.conn, s'.conn, said)
    && (forall k: nat | k < MAX_CONN :: SlotAfterPass(t, s, r, i, asked, k, s'.conn[k]))
    && match asked
       case None => s' == s.(conn := s'.conn, log := s.log + said)
       case Some(j) =>
         s' == s.(conn := s'.conn, status := s.status[r := Downloading], ranking := s.ranking[r := TAKEN],
                  log := s.log + said + [Requested(j, r, t.Length(r))])
  }

  /** A slot that is passed over without a word. */
  lemma SkipSlot(t: Torrent, s: State, s': State, r: nat, i: nat, said: seq<Action>, asked: Option<nat>)
    requires Shape(t, s) && r < t.N() && i < MAX_CONN && PassEffect(t, s, s', r, i + 1, said, asked)
    requires s.status[r] == NotDownloaded ==> !Willing(t, s.conn[i], r) && !Choking(t, s.conn[i], r)
    ensures PassEffect(t, s, s', r, i, said, asked)
  {
    hide HasPiece, Told, Willing, Choking;
  }

  /** Whom a pass has told, in two parts. */
  lemma ToldThen(conn: seq<Slot>, conn1: seq<Slot>, conn2: seq<Slot>, a: seq<Action>, b: seq<Action>)
    requires |conn| == |conn1| == |conn2| == MAX_CONN && Told(conn, conn1, a) && Told(conn1, conn2, b)
    requires forall k: nat | k < MAX_CONN && conn[k].amInterested :: conn1[k].amInterested
    requires forall k: nat | k < MAX_CONN && conn1[k].amInterested :: conn2[k].amInterested
    ensures Told(conn, conn2, a + b)
  {
    forall k: nat | k < MAX_CONN
      ensures SaidInterested(k, true) in a + b <==> !conn[k].amInterested && conn2[k].amInterested
    {
    }
  }

  lemma MarkTold(s: State, i: nat)
    requires |s.conn| == MAX_CONN && i < MAX_CONN
    ensures var s1 := MarkInterested(s, i);
      && s1 == s.(conn := s.conn[i := s.conn[i].(amInterested := true)], log := s1.log)
      && s.log <= s1.log && Told(s.conn, s1.conn, s1.log[|s.log|..])
  {
    if s.conn[i].amInterested {
      assert s.conn == s.conn[i := s.conn[i].(amInterested := true)];
    }
  }

  /** A choking peer on the way is told of the interest, unless it knows. */
  lemma CourtSlot(t: Torrent, s: State, s': State, r: nat, i: nat, rest: seq<Action>, asked: Option<nat>)
    returns (said: seq<Action>)
    requires Shape(t, s) && r < t.N() && i < MAX_CONN && s.status[r] == NotDownloaded && Choking(t, s.conn[i], r)
    requires PassEffect(t, MarkInterested(s, i), s', r, i + 1, rest, asked)
    ensures PassEffect(t, s, s', r, i, said, asked)
  {
    hide HasPiece, Told, MarkInterested, PieceCount, RequestLength, FieldSize;
    var s1 := MarkInterested(s, i);
    MarkTold(s, i);
    var first := s1.log[|s.log|..];
    said := first + rest;
    assert s.log + said == s1.log + rest;
    ToldThen(s.conn, s1.conn, s'.conn, first, rest);
  }

  /** The request that ends a pass. */
  lemma AskSlot(t: Torrent, s: State, r: nat, i: nat) returns (said: seq<Action>)
    requires Shape(t, s) && r < t.N() && i < MAX_CONN && s.status[r] == NotDownloaded && Willing(t, s.conn[i], r)
    ensures PassEffect(t, s, SendRequest(t, s, r, i), r, i, said, Some(i))
  {
    hide HasPiece, PieceCount, RequestLength, FieldSize;
    var s1 := MarkInterested(s, i);
    said := s1.log[|s.log|..];
    assert s.log + said == s1.log;
  }

  /** What a pass does from slot i on. */
  lemma {:induction false} ScanEffect(t: Torrent, s: State, r: nat, i: nat)
    returns (said: seq<Action>, asked: Option<nat>)
    requires Shape(t, s) && r < t.N()
    ensures PassEffect(t, s, Scan(t, s, r, i), r, i, said, asked)
    decreases |s.conn| - i
  {
    hide Holds, ByteOf, FieldSize, PassEffect, PieceCount, RequestLength, SendRequest;
    if i >= |s.conn| {
      said, asked := [], None;
      EndOfPass(t, s, r, i);
    } else if !Eligible(t, s, r, i) {
      said, asked := ScanEffect(t, s, r, i + 1);
      SkipSlot(t, s, Scan(t, s, r, i), r, i, said, asked);
    } else if s.conn[i].peerChoking {
      var rest;
      rest, asked := ScanEffect(t, MarkInterested(s, i), r, i + 1);
      said := CourtSlot(t, s, Scan(t, s, r, i), r, i, rest, asked);
    } else if s.conn[i].requestSent {
      said, asked := ScanEffect(t, s, r, i + 1);
      SkipSlot(t, s, Scan(t, s, r, i), r, i, said, asked);
    } else {
      said := AskSlot(t, s, r, i);
      asked := Some(i);
    }
  }

  lemma EndOfPass(t: Torrent, s: State, r: nat, i: nat)
    requires Shape(t, s) && r < t.N() && i >= MAX_CONN
    ensures PassEffect(t, s, s, r, i, [], None)
  {
    assert s.log + [] == s.log;
  }

  /**
   What one call of the scheduler does. The piece r has the least ranking of all. Unless that ranking is GIVE_UP,
   r is requested if and only if it is not downloaded yet and a peer in some slot is willing, and then from the
   first such slot and for the right length. The choking peers before that slot that show r are told of the
   interest. Nothing else changes.
   */
  lemma SchedulerEffect(t: Torrent, s: State, rnd: nat) returns (r: nat, said: seq<Action>, asked: Option<nat>)
    requires Shape(t, s)
    ensures r < t.N() && forall p: nat | p < t.N() :: s.ranking[r] <= s.ranking[p]
    ensures if s.ranking[r] == GIVE_UP then FindRarest(t, s, rnd) == s
      else PassEffect(t, s, FindRarest(t, s, rnd), r, 0, said, asked)
  {
    hide PassEffect;
    r := Rarest(s, rnd);
    MinIsAttained(s.ranking);
    if MinOf(s.ranking) == GIVE_UP {
      said, asked := [], None;
    } else {
      said, asked := ScanEffect(t, s, r, 0);
    }
  }

  // ---------- status only moves forward ----------

  function Order(x: Status): nat {
    match x case NotDownloaded => 0 case Downloading => 1 case Completed => 2
  }

  ghost predicate Forward(s: State, s': State) {
    |s.status| == |s'.status| && forall p | 0 <= p < |s.status| :: Order(s.status[p]) <= Order(s'.status[p])
  }

  lemma FindForward(t: Torrent, s: State, rnd: nat)
    requires Shape(t, s)
    ensures Forward(s, FindRarest(t, s, rnd))
  {
    var r, said, asked := SchedulerEffect(t, s, rnd);
  }

  lemma BitFieldForward(t: Torrent, s: State, i: nat, bits: seq<bv8>, rnd: nat)
    requires Shape(t, s) && i < MAX_CONN
    ensures Forward(s, OnBitField(t, s, i, bits, rnd))
  {
    if |bits| == FieldSize(t.N()) && SpareClear(bits, t.N()) {
      var s1 := Put(s, i, s.conn[i].(bitField := Some(bits))).(ranking := Bump(t, s.ranking, bits));
      match FirstWanted(t, s1, bits, 0)
      case Some(p) =>
        FindForward(t, Log(Put(s1, i, s1.conn[i].(amInterested := true, interestedPiece := p)),
          SaidInterested(i, true)), rnd);
      case None =>
    }
  }

  lemma HaveForward(t: Torrent, s: State, i: nat, p: nat, rnd: nat)
    requires Shape(t, s) && i < MAX_CONN && p < t.N() && s.conn[i].bitField.Some?
    ensures Forward(s, OnHave(t, s, i, p, rnd))
  {
    InBounds(t.N(), p);
    var bits := WithBit(s.conn[i].bitField.value, p);
    var s1 := Put(s, i, s.conn[i].(bitField := Some(bits))).(ranking := s.ranking[p := s.ranking[p] + 1]);
    FindForward(t, Log(s1, SaidInterested(i, true)), rnd);
  }

  lemma AfterStoreForward(t: Torrent, s: State, i: nat, rnd: nat)
    requires Shape(t, s) && i < MAX_CONN
    requires !AllCompleted(s.status) ==> s.conn[i].bitField.Some?
    ensures Forward(s, AfterStore(t, s, i, rnd))
  {
    hide FindRarest, Holds;
    FindForward(t, Put(s, i, s.conn[i].(amInterested := true)), rnd);
  }

  lemma PieceForward(t: Torrent, s: State, i: nat, p: nat, data: seq<byte>, rnd: nat)
    requires Shape(t, s) && Permitted(t, s, Receive(i, Piece(p, 0, data), rnd))
    ensures Forward(s, OnPiece(t, s, i, p, data, rnd))
  {
    hide AfterStore, Store, Holds;
    if Accepts(t, s, i, p, data) {
      AfterStoreForward(t, Store(t, s, i, p, data), i, rnd);
    }
  }

  lemma StepForward(t: Torrent, s: State, e: Event)
    requires Shape(t, s) && Permitted(t, s, e)
    ensures Forward(s, Step(t, s, e))
  {
    hide OnPiece, OnHave, OnBitField, FindRarest;
    if e.Receive? {
      var i, rnd := e.slot, e.rnd;
      match e.msg
      case Unchoke => FindForward(t, Put(s, i, s.conn[i].(peerChoking := false)), rnd);
      case Have(p) => HaveForward(t, s, i, p, rnd);
      case BitFieldMsg(bits) => BitFieldForward(t, s, i, bits, rnd);
      case Piece(p, _, data) => PieceForward(t, s, i, p, data, rnd);
      case _ =>
    }
  }

  /** Over any run, no piece ever goes back from requested or completed to an earlier status. */
  lemma {:induction false} RunForward(t: Torrent, s: State, es: seq<Event>)
    requires Shape(t, s) && Allowed(t, s, es)
    ensures Forward(s, Run(t, s, es))
    decreases |es|
  {
    if es != [] {
      StepForward(t, s, es[0]);
      RunForward(t, Step(t, s, es[0]), es[1..]);
    }
  }

  // ---------- every reachable state ----------

  lemma AfterInv(t: Torrent, es: seq<Event>)
    requires IsRun(t, es)
    ensures Inv(t, After(t, es))
  {
    InitInv(t);
    RunKeeps(t, Init(t), es);
  }

  /** The client's own bit field, read with its own accessor, shows exactly the completed pieces. */
  lemma OwnFieldShowsCompleted(t: Torrent, es: seq<Event>, p: nat)
    requires IsRun(t, es) && p < t.N()
    ensures var s := After(t, es); ByteOf(p) < |s.field| && (Holds(s.field, p) <==> s.status[p] == Completed)
  {
    AfterInv(t, es);
  }

  /** No piece is requested twice in a run, and none that is still marked as not downloaded has been requested. */
  lemma EachPieceRequestedOnce(t: Torrent, es: seq<Event>, p: nat)
    requires IsRun(t, es)
    ensures var s := After(t, es); Requests(s.log, p) <= if p < t.N() && s.status[p] != NotDownloaded then 1 else 0
  {
    AfterInv(t, es);
  }

  /** The two counters account for the file, as 32-bit numbers: together they are the file size. */
  lemma CountersAddUp(t: Torrent, es: seq<Event>)
    requires IsRun(t, es)
    ensures var s := After(t, es);
      && s.downloaded == Int32(StoredTotal(s.log))
      && Int32(s.downloaded + s.left) == Int32(t.fileSize)
  {
    hide Int32, FieldInv, EightInv, RankInv, RequestInv, ChokeInv, ServeInv, Run, Allowed;
    AfterInv(t, es);
    var total := StoredTotal(After(t, es).log);
    Wrapped(total, Int32(t.fileSize - total));
    Wrapped(t.fileSize - total, total);
  }

  /** The ranking of a piece never falls below the number of stored bit fields that show it. */
  lemma RankingBoundsHolders(t: Torrent, es: seq<Event>, p: nat)
    requires IsRun(t, es) && p < t.N()
    ensures var s := After(t, es); s.ranking[p] >= Holders(t, s.conn, p)
  {
    AfterInv(t, es);
  }

  /** A peer that has said it is interested is never choked. */
  lemma InterestedIsUnchoked(t: Torrent, es: seq<Event>, i: nat)
    requires IsRun(t, es) && i < MAX_CONN
    ensures var c := After(t, es).conn[i]; c.peerInterested ==> !c.amChoking
  {
    AfterInv(t, es);
  }

  /** A leecher answers requests only for pieces it has completed, and gives away no bytes of them. */
  lemma NothingUploaded(t: Torrent, es: seq<Event>, k: nat)
    requires IsRun(t, es) && k < |After(t, es).log| && After(t, es).log[k].SentPiece?
    ensures var s := After(t, es); var a := s.log[k]; a.piece < t.N() && s.status[a.piece] == Completed && a.length == 0
  {
    AfterInv(t, es);
  }

  /** A torrent of more than 8 pieces is never completed: piece 8 is neither requested nor stored. */
  lemma NeverCompleteBeyondEight(t: Torrent, es: seq<Event>)
    requires IsRun(t, es) && t.N() > 8
    ensures var s := After(t, es);
      s.status[8] == NotDownloaded && !AllCompleted(s.status) && AnnouncedCompleted !in s.log && Requests(s.log, 8) == 0
  {
    AfterInv(t, es);
  }

  // ---------- starvation ----------

  ghost predicate NoneRequested(log: seq<Action>) {
    forall k | 0 <= k < |log| :: !log[k].Requested?
  }

  lemma {:induction false} ScanWithoutHolders(t: Torrent, s: State, r: nat, i: nat)
    requires Shape(t, s) && r < t.N() && Holders(t, s.conn, r) == 0
    ensures Scan(t, s, r, i) == s
    decreases |s.conn| - i
  {
    if i < |s.conn| {
      if Eligible(t, s, r, i) {
        EligibleHas(t, s, r, i);
        HoldersPositive(t, s.conn, r, i);
        assert false;
      }
      ScanWithoutHolders(t, s, r, i + 1);
    }
  }

  /** As long as the ranking of some piece is 0, the scheduler does nothing at all. */
  lemma StarvedScheduler(t: Torrent, s: State, rnd: nat, p: nat)
    requires Inv(t, s) && p < t.N() && s.ranking[p] == 0
    ensures FindRarest(t, s, rnd) == s
  {
    var r := Rarest(s, rnd);
    assert s.ranking[r] <= s.ranking[p];
    ScanWithoutHolders(t, s, r, 0);
  }

  lemma StarvedStep(t: Torrent, s: State, e: Event)
    requires Inv(t, s) && Permitted(t, s, e) && t.N() > 8 && s.ranking[8] == 0 && NoneRequested(s.log)
    requires e.Receive? ==> e.msg != Have(8)
    ensures Step(t, s, e).ranking[8] == 0 && NoneRequested(Step(t, s, e).log)
  {
    hide FieldInv, RankInv, RequestInv, CounterInv, ServeInv, FieldThere;
    if e.Receive? {
      var i, rnd, c := e.slot, e.rnd, s.conn[e.slot];
      match e.msg
      case Unchoke =>
        PutKeeps(t, s, i, c.(peerChoking := false));
        StarvedScheduler(t, Put(s, i, c.(peerChoking := false)), rnd, 8);
      case Have(p) => StarvedHave(t, s, i, p, rnd);
      case BitFieldMsg(bits) => StarvedBitField(t, s, i, bits, rnd);
      case Piece(p, _, data) => StarvedPiece(t, s, i, p, data, rnd);
      case _ =>
    }
  }

  lemma StarvedHave(t: Torrent, s: State, i: nat, p: nat, rnd: nat)
    requires Inv(t, s) && i < MAX_CONN && p < t.N() && s.conn[i].bitField.Some?
    requires t.N() > 8 && s.ranking[8] == 0 && NoneRequested(s.log) && p != 8
    ensures OnHave(t, s, i, p, rnd).ranking[8] == 0 && NoneRequested(OnHave(t, s, i, p, rnd).log)
  {
    hide FieldInv, RankInv, RequestInv, CounterInv, ServeInv;
    InBounds(t.N(), p);
    var bits := WithBit(s.conn[i].bitField.value, p);
    HaveBumpKeeps(t, s, i, p, bits);
    var s1 := Put(s, i, s.conn[i].(bitField := Some(bits))).(ranking := s.ranking[p := s.ranking[p] + 1]);
    LogKeeps(t, s1, SaidInterested(i, true));
    StarvedScheduler(t, Log(s1, SaidInterested(i, true)), rnd, 8);
  }

  lemma StarvedBitField(t: Torrent, s: State, i: nat, bits: seq<bv8>, rnd: nat)
    requires Inv(t, s) && i < MAX_CONN && t.N() > 8 && s.ranking[8] == 0 && NoneRequested(s.log)
    ensures OnBitField(t, s, i, bits, rnd).ranking[8] == 0 && NoneRequested(OnBitField(t, s, i, bits, rnd).log)
  {
    hide FieldInv, RankInv, RequestInv, CounterInv, ServeInv;
    if |bits| == FieldSize(t.N()) && SpareClear(bits, t.N()) {
      BumpKeeps(t, s, i, bits);
      PositionEightIsInert(bits);
      var s1 := Put(s, i, s.conn[i].(bitField := Some(bits))).(ranking := Bump(t, s.ranking, bits));
      match FirstWanted(t, s1, bits, 0)
      case Some(p) =>
        WantedIsNotEight(t, s1, bits);
        var c := s1.conn[i].(amInterested := true, interestedPiece := p);
        PutKeeps(t, s1, i, c);
        LogKeeps(t, Put(s1, i, c), SaidInterested(i, true));
        StarvedScheduler(t, Log(Put(s1, i, c), SaidInterested(i, true)), rnd, 8);
      case None =>
    }
  }

  lemma StarvedAfterStore(t: Torrent, s: State, i: nat, rnd: nat)
    requires Inv(t, s) && i < MAX_CONN && t.N() > 8 && s.ranking[8] == 0 && NoneRequested(s.log)
    requires !AllCompleted(s.status) ==> s.conn[i].bitField.Some?
    ensures AfterStore(t, s, i, rnd).ranking[8] == 0 && NoneRequested(AfterStore(t, s, i, rnd).log)
  {
    hide FieldInv, RankInv, RequestInv, CounterInv, ServeInv, FindRarest, Holds;
    if !AllCompleted(s.status) {
      var c := s.conn[i].(amInterested := true);
      PutKeeps(t, s, i, c);
      StarvedScheduler(t, Put(s, i, c), rnd, 8);
    }
  }

  lemma StarvedStore(t: Torrent, s: State, i: nat, p: nat, data: seq<byte>)
    requires Shape(t, s) && i < MAX_CONN && p < t.N() && NoneRequested(s.log)
    ensures Store(t, s, i, p, data).ranking == s.ranking && NoneRequested(Store(t, s, i, p, data).log)
  {
    hide Holds, Int32, Write, WithBit;
  }

  lemma StarvedPiece(t: Torrent, s: State, i: nat, p: nat, data: seq<byte>, rnd: nat)
    requires Inv(t, s) && Permitted(t, s, Receive(i, Piece(p, 0, data), rnd))
    requires t.N() > 8 && s.ranking[8] == 0 && NoneRequested(s.log)
    ensures OnPiece(t, s, i, p, data, rnd).ranking[8] == 0 && NoneRequested(OnPiece(t, s, i, p, data, rnd).log)
  {
    hide FieldInv, RankInv, RequestInv, CounterInv, ServeInv, AfterStore, Store, FieldThere, AllCompleted,
         Sha1Spec.Digest;
    if Accepts(t, s, i, p, data) {
      FieldStillThere(t, s, i, p, data);
      StarvedStore(t, s, i, p, data);
      StoreKeeps(t, s, i, p, data);
      StarvedAfterStore(t, Store(t, s, i, p, data), i, rnd);
    }
  }

  lemma {:induction false} StarvedRun(t: Torrent, s: State, es: seq<Event>)
    requires Inv(t, s) && Allowed(t, s, es) && t.N() > 8 && s.ranking[8] == 0 && NoneRequested(s.log)
    requires forall e | e in es :: e.Receive? ==> e.msg != Have(8)
    ensures NoneRequested(Run(t, s, es).log)
    decreases |es|
  {
    if es != [] {
      StarvedStep(t, s, es[0]);
      StepKeeps(t, s, es[0]);
      StarvedRun(t, Step(t, s, es[0]), es[1..]);
    }
  }

  /** With more than 8 pieces, nothing is ever requested unless some peer announces piece 8 by a HAVE message. */
  lemma NothingRequestedWithoutHaveEight(t: Torrent, es: seq<Event>)
    requires IsRun(t, es) && t.N() > 8
    requires forall e | e in es :: e.Receive? ==> e.msg != Have(8)
    ensures NoneRequested(After(t, es).log)
  {
    InitInv(t);
    StarvedRun(t, Init(t), es);
  }
}
