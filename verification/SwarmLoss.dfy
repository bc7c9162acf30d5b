/** How a download stalls: pieces lost for good, slots out of service, and the scheduler giving up too soon. */
module SwarmLoss {
  import opened Bytes
  import opened BitField
  import opened Geometry
  import opened Swarm
  import opened SwarmInvariants
  import opened SwarmResults
  import opened SwarmHonest
  import opened SwarmHistory
  import opened SwarmCompletion
  import Sha1Spec

  // ---------- a lost piece ----------

  /** Piece p is requested on the connection of slot i, and noted as the one to take from it. */
  predicate Awaited(s: State, i: nat, p: nat)
    requires i < |s.conn|
  {
    Outstanding(s.log, i) == Some(p) && s.conn[i].interestedPiece == p
  }

  /** Piece p was requested, and is awaited from no connection. */
  ghost predicate Lost(t: Torrent, s: State, p: nat)
    requires Shape(t, s)
  {
    p < t.N() && s.status[p] == Downloading && forall i: nat | i < MAX_CONN :: !Awaited(s, i, p)
  }

  /** New actions put no request for p in flight, unless one of them is such a request. */
  lemma {:induction false} NotOutstanding(log: seq<Action>, added: seq<Action>, i: nat, p: nat)
    requires Outstanding(log, i) != Some(p)
    requires forall k | 0 <= k < |added| && added[k].Requested? :: added[k].slot != i || added[k].piece != p
    ensures Outstanding(log + added, i) != Some(p)
    decreases |added|
  {
    if added == [] {
      assert log + added == log;
    } else {
      var front := added[..|added| - 1];
      NotOutstanding(log, front, i, p);
      assert log + added == (log + front) + [added[|added| - 1]];
      LogStep(log + front, added[|added| - 1], i);
    }
  }

  lemma GrownLost(t: Torrent, s: State, s': State, added: seq<Action>, stored: Option<Delivery>, p: nat)
    requires Shape(t, s) && Shape(t, s') && Grown(t, s, s', added, stored) && Lost(t, s, p)
    requires stored.Some? ==> stored.value.piece != p
    ensures Lost(t, s', p)
  {
    hide Proper, SlotShape, RanksMove, BusyStay;
    forall i: nat | i < MAX_CONN
      ensures !Awaited(s', i, p)
    {
      assert !Awaited(s, i, p);
      if Outstanding(s.log, i) != Some(p) {
        NotOutstanding(s.log, added, i, p);
      }
    }
  }

  lemma StepLost(t: Torrent, s: State, e: Event, p: nat)
    requires Shape(t, s) && Permitted(t, s, e) && Honest(t, s, e) && Lost(t, s, p)
    ensures Lost(t, Step(t, s, e), p)
  {
    hide Step, Grown;
    var added, stored := StepGrown(t, s, e);
    if stored.Some? {
      assert !Awaited(s, e.slot, p);
    }
    GrownLost(t, s, Step(t, s, e), added, stored, p);
  }

  lemma {:induction false} RunLost(t: Torrent, s: State, es: seq<Event>, p: nat)
    requires Shape(t, s) && Allowed(t, s, es) && AllHonest(t, s, es) && Lost(t, s, p)
    ensures Lost(t, Run(t, s, es), p)
    decreases |es|
  {
    hide Step, Lost, Permitted, Honest;
    if es != [] {
      StepLost(t, s, es[0], p);
      RunLost(t, Step(t, s, es[0]), es[1..], p);
    }
  }

  /** The answer that an honest peer gives to a request that is awaited completes the piece. */
  lemma AnswerCompletes(t: Torrent, s: State, content: seq<byte>, i: nat, p: nat) returns (e: Event)
    requires HonestInv(t, s) && MadeFrom(t, content) && i < MAX_CONN && p < t.N() && Awaited(s, i, p)
    ensures Permitted(t, s, e) && Honest(t, s, e) && Step(t, s, e).status[p] == Completed
  {
    hide FileInv, FieldInv, EightInv, RankInv, RequestInv, CounterInv, ServeInv, ChokeInv, OnPiece, AllCompleted,
         Sha1Spec.Digest;
    var data := Slice(t, content, p);
    e := Receive(i, Piece(p, 0, data), 0);
    assert Accepts(t, s, i, p, data);
    var added, stored := PieceGrown(t, s, i, p, data, 0);
  }

  /**
   A piece that has been requested can still be completed, with honest peers, if and only if it is awaited from some
   connection: its request is unanswered there, and the piece noted for the slot is still this one.
   */
  lemma RecoverableIff(t: Torrent, s: State, content: seq<byte>, p: nat)
    requires HonestInv(t, s) && MadeFrom(t, content) && p < t.N() && s.status[p] == Downloading
    ensures (exists es :: Allowed(t, s, es) && AllHonest(t, s, es) && Run(t, s, es).status[p] == Completed)
       <==> exists i: nat :: i < MAX_CONN && Awaited(s, i, p)
  {
    hide FileInv, FieldInv, EightInv, RankInv, RequestInv, CounterInv, ServeInv, ChokeInv, AskInv, Awaited, Step,
         Permitted, Honest;
    if i: nat :| i < MAX_CONN && Awaited(s, i, p) {
      var e := AnswerCompletes(t, s, content, i, p);
      OneEvent(t, s, e);
    } else {
      assert Lost(t, s, p);
      forall es | Allowed(t, s, es) && AllHonest(t, s, es)
        ensures Run(t, s, es).status[p] != Completed
      {
        RunLost(t, s, es, p);
      }
    }
  }

  // ---------- how a piece is lost: the connection ends ----------

  lemma EndsByClosing(t: Torrent, s: State, e: Event, i: nat)
    requires Shape(t, s) && Permitted(t, s, e) && i < MAX_CONN && s.conn[i].inUse && Ends(t, s, e, i)
    ensures Step(t, s, e) == Close(s, i)
  {
    hide OnBitField, OnPiece, FirstFree, SpareClear, Accepts;
    match e
    case Accept(_) =>
    case Connect(_) =>
    case Receive(_, m, rnd) =>
      match m
      case BitFieldMsg(bits) => BadBitField(t, s, i, bits, rnd);
      case Piece(p, _, data) => BadPiece(t, s, i, p, data, rnd);
      case _ =>
  }

  lemma ClosingLoses(t: Torrent, s: State, i: nat, p: nat)
    requires HonestInv(t, s) && i < MAX_CONN && Outstanding(s.log, i) == Some(p)
    ensures Lost(t, Close(s, i), p) && Retired(Close(s, i), i)
  {
    hide FileInv, FieldInv, EightInv, RankInv, RequestInv, CounterInv, ServeInv, ChokeInv;
    forall j: nat | j < MAX_CONN
      ensures Outstanding(Close(s, i).log, j) != Some(p)
    {
      LogStep(s.log, Closed(i), j);
    }
    LogStep(s.log, Closed(i), i);
  }

  /**
   With honest peers, once a connection ends (however it ends) before the piece requested on it has arrived and
   been accepted, that piece is never downloaded and the download never completed, however the run goes on; and
   its slot is never asked again.
   */
  lemma DroppedRequestIsFatal(t: Torrent, s: State, e: Event, i: nat, p: nat, es: seq<Event>)
    requires HonestInv(t, s) && Permitted(t, s, e)
    requires i < MAX_CONN && Outstanding(s.log, i) == Some(p) && Ends(t, s, e, i)
    requires Allowed(t, Step(t, s, e), es) && AllHonest(t, Step(t, s, e), es)
    ensures p < t.N() && Run(t, Step(t, s, e), es).status[p] == Downloading
    ensures !AllCompleted(Run(t, Step(t, s, e), es).status)
    ensures Retired(Run(t, Step(t, s, e), es), i)
  {
    hide FileInv, FieldInv, EightInv, RankInv, RequestInv, CounterInv, ServeInv, ChokeInv, Step, Close, Ends, Run,
         Allowed, AllHonest, Retired;
    EndsByClosing(t, s, e, i);
    ClosingLoses(t, s, i, p);
    RunLost(t, Step(t, s, e), es, p);
    RunRetired(t, Step(t, s, e), es, i);
  }

  // ---------- how a piece is lost: a second bit field ----------

  lemma {:induction false} SameWanted(t: Torrent, s: State, s': State, bits: seq<bv8>, p: nat)
    requires |s.status| == t.N() && |s.field| == |bits| == FieldSize(t.N()) && s'.status == s.status
      && s'.field == s.field
    ensures FirstWanted(t, s', bits, p) == FirstWanted(t, s, bits, p)
    decreases t.N() - p
  {
    hide Holds;
    if p < t.N() {
      SameWanted(t, s, s', bits, p + 1);
    }
  }

  /** The state once an acceptable bit field that shows the wanted piece q has been noted, before the scheduler runs. */
  function Noted(t: Torrent, s: State, i: nat, bits: seq<bv8>, q: nat): State
    requires Shape(t, s) && i < MAX_CONN && |bits| == FieldSize(t.N())
  {
    var s1 := Put(s, i, s.conn[i].(bitField := Some(bits))).(ranking := Bump(t, s.ranking, bits));
    Log(Put(s1, i, s1.conn[i].(amInterested := true, interestedPiece := q)), SaidInterested(i, true))
  }

  lemma BitFieldCases(t: Torrent, s: State, i: nat, bits: seq<bv8>, rnd: nat)
    requires Shape(t, s) && i < MAX_CONN && |bits| == FieldSize(t.N()) && SpareClear(bits, t.N())
    ensures var wanted, s' := FirstWanted(t, s, bits, 0), OnBitField(t, s, i, bits, rnd);
      if wanted.Some?
      then Shape(t, Noted(t, s, i, bits, wanted.value)) && s' == FindRarest(t, Noted(t, s, i, bits, wanted.value), rnd)
      else s'.log == s.log + [SaidInterested(i, false)] && s'.conn[i].interestedPiece == s.conn[i].interestedPiece
  {
    hide FindRarest, FirstWanted, Bump, SpareClear;
    SameWanted(t, s, Put(s, i, s.conn[i].(bitField := Some(bits))).(ranking := Bump(t, s.ranking, bits)), bits, 0);
  }

  /** Noting another piece for the slot from which p is awaited loses p. */
  lemma NotingLoses(t: Torrent, s: State, i: nat, bits: seq<bv8>, p: nat, q: nat)
    requires HonestInv(t, s) && i < MAX_CONN && Outstanding(s.log, i) == Some(p) && p != q < t.N()
    requires |bits| == FieldSize(t.N())
    ensures Shape(t, Noted(t, s, i, bits, q)) && Lost(t, Noted(t, s, i, bits, q), p)
    ensures Outstanding(Noted(t, s, i, bits, q).log, i) == Some(p)
  {
    hide FileInv, FieldInv, EightInv, RankInv, RequestInv, CounterInv, ServeInv, ChokeInv, Bump;
    var s2 := Noted(t, s, i, bits, q);
    forall j: nat | j < MAX_CONN
      ensures Outstanding(s2.log, j) == Outstanding(s.log, j)
    {
      LogStep(s.log, SaidInterested(i, true), j);
    }
  }

  /**
   A bit field on the connection from which a piece is awaited loses that piece if and only if it is refused, which ends
   the connection, or shows a piece that is wanted, which is then noted in place of the one requested.
   */
  lemma SecondBitFieldIff(t: Torrent, s: State, i: nat, bits: seq<bv8>, rnd: nat, p: nat)
    requires HonestInv(t, s) && i < MAX_CONN && p < t.N() && Awaited(s, i, p)
    ensures Lost(t, OnBitField(t, s, i, bits, rnd), p)
       <==> !(|bits| == FieldSize(t.N()) && SpareClear(bits, t.N())) || FirstWanted(t, s, bits, 0).Some?
  {
    hide FileInv, FieldInv, EightInv, RankInv, RequestInv, CounterInv, ServeInv, ChokeInv, OnBitField, FirstWanted,
         SpareClear, Lost, FindRarest, Noted, Grown, Retired;
    var s' := OnBitField(t, s, i, bits, rnd);
    if !(|bits| == FieldSize(t.N()) && SpareClear(bits, t.N())) {
      BadBitField(t, s, i, bits, rnd);
      ClosingLoses(t, s, i, p);
    } else {
      BitFieldCases(t, s, i, bits, rnd);
      match FirstWanted(t, s, bits, 0)
      case Some(q) =>
        assert s.status[p] == Downloading && s.status[q] == NotDownloaded;
        NotingLoses(t, s, i, bits, p, q);
        var added := FindGrown(t, Noted(t, s, i, bits, q), rnd);
        GrownLost(t, Noted(t, s, i, bits, q), s', added, None, p);
      case None =>
        LogStep(s.log, SaidInterested(i, false), i);
        StillAwaited(t, s', i, p);
    }
  }

  lemma StillAwaited(t: Torrent, s: State, i: nat, p: nat)
    requires Shape(t, s) && i < MAX_CONN && Awaited(s, i, p)
    ensures !Lost(t, s, p)
  {
  }

  /**
   Such a run, for any torrent of two pieces or more: piece 0 is requested, a second bit field arrives, and the honest
   answer, whatever it holds, only makes the program close the connection.
   */
  lemma SecondBitFieldRun(t: Torrent) returns (es: seq<Event>)
    requires t.Valid() && t.N() >= 2
    ensures IsHonestRun(t, es)
    ensures var s := After(t, es);
      && s.conn[0].inUse && Outstanding(s.log, 0) == Some(0) && Lost(t, s, 0)
      && forall data, rnd ::
           Permitted(t, s, Receive(0, Piece(0, 0, data), rnd))
             && Step(t, s, Receive(0, Piece(0, 0, data), rnd)) == Close(s, 0)
  {
    hide FileInv, FieldInv, EightInv, RankInv, RequestInv, CounterInv, ServeInv, ChokeInv, AskInv, Core, OnBitField,
         FirstWanted, SpareClear, Run, Allowed, AllHonest, Ready, Ranked, WithBit, Lost, Close;
    es := RunToProgress(t);
    var s := After(t, es);
    AfterHonest(t, es);
    var bits := WithBit(BlankField(FieldSize(t.N())), 1);
    var e := Receive(0, BitFieldMsg(bits), 0);
    ShowsOne(t, s);
    AskedInUse(t, s, 0);
    SecondBitFieldIff(t, s, 0, bits, 0, 0);
    BitFieldCases(t, s, 0, bits, 0);
    NoteGone(t, s, bits);
    Extend(t, es, e);
    es := es + [e];
    forall data, rnd
      ensures Permitted(t, After(t, es), Receive(0, Piece(0, 0, data), rnd))
      ensures Step(t, After(t, es), Receive(0, Piece(0, 0, data), rnd)) == Close(After(t, es), 0)
    {
      OtherPieceRefused(t, After(t, es), 0, 0, data, rnd);
    }
  }

  lemma OtherPieceRefused(t: Torrent, s: State, i: nat, p: nat, data: seq<byte>, rnd: nat)
    requires Shape(t, s) && i < MAX_CONN && s.conn[i].inUse && s.conn[i].interestedPiece != p
    ensures var e := Receive(i, Piece(p, 0, data), rnd); Permitted(t, s, e) && Step(t, s, e) == Close(s, i)
  {
    hide AllCompleted, Sha1Spec.Digest;
    BadPiece(t, s, i, p, data, rnd);
  }

  lemma AskedInUse(t: Torrent, s: State, i: nat)
    requires HonestInv(t, s) && i < MAX_CONN && Outstanding(s.log, i).Some?
    ensures s.conn[i].inUse && s.conn[i].requestSent
  {
  }

  /** A bit field that shows just piece 1 is acceptable, and piece 1 is wanted while it is not downloaded. */
  lemma ShowsOne(t: Torrent, s: State)
    requires Inv(t, s) && t.N() >= 2 && s.status[1] == NotDownloaded
    ensures var bits := WithBit(BlankField(FieldSize(t.N())), 1);
      |bits| == FieldSize(t.N()) && SpareClear(bits, t.N()) && FirstWanted(t, s, bits, 0).Some?
  {
    hide EightInv, RankInv, RequestInv, CounterInv, ServeInv, ChokeInv, Holds, WithBit;
    var blank := BlankField(FieldSize(t.N()));
    InBounds(t.N(), 1);
    WithBitSize(blank, 1);
    forall q: nat | InRange(q, t.N())
      ensures !Holds(WithBit(blank, 1), q)
    {
      BlankHoldsNothing(FieldSize(t.N()), q);
      GetAfterSet(blank, 1, q);
    }
    GetAfterSet(blank, 1, 1);
    SomethingWanted(t, s, WithBit(blank, 1), 0, 1);
  }

  /** The request of slot 0 stays in flight, and the piece noted is another one. */
  lemma NoteGone(t: Torrent, s: State, bits: seq<bv8>)
    requires HonestInv(t, s) && t.N() >= 2 && Awaited(s, 0, 0) && s.conn[0].inUse && s.conn[0].requestSent
    requires |bits| == FieldSize(t.N()) && SpareClear(bits, t.N()) && FirstWanted(t, s, bits, 0).Some?
    ensures var s' := OnBitField(t, s, 0, bits, 0);
      s'.conn[0].inUse && Outstanding(s'.log, 0) == Some(0) && s'.conn[0].interestedPiece != 0
  {
    hide FileInv, FieldInv, EightInv, RankInv, RequestInv, CounterInv, ServeInv, ChokeInv, OnBitField, FirstWanted,
         SpareClear, FindRarest, Noted, Grown, AskInv, HasPiece;
    var q := FirstWanted(t, s, bits, 0).value;
    RequestedIsNotWanted(t, s, 0, 0, q);
    BitFieldCases(t, s, 0, bits, 0);
    var s2 := Noted(t, s, 0, bits, q);
    NotingLoses(t, s, 0, bits, 0, q);
    NotedSlot(t, s, 0, bits, q);
    var r, said, asked := SchedulerEffect(t, s2, 0);
    if s2.ranking[r] != GIVE_UP {
      SaidKeeps(t, s2, FindRarest(t, s2, 0), r, said, asked, 0);
    }
  }

  lemma RequestedIsNotWanted(t: Torrent, s: State, i: nat, p: nat, q: nat)
    requires HonestInv(t, s) && i < MAX_CONN && Outstanding(s.log, i) == Some(p) && q < t.N()
      && s.status[q] == NotDownloaded
    ensures p != q
  {
  }

  lemma NotedSlot(t: Torrent, s: State, i: nat, bits: seq<bv8>, q: nat)
    requires Shape(t, s) && i < MAX_CONN && |bits| == FieldSize(t.N())
    ensures Noted(t, s, i, bits, q).conn[i]
      == s.conn[i].(bitField := Some(bits), amInterested := true, interestedPiece := q)
  {
    hide Bump;
  }

  /** A pass leaves a busy slot, and the request in flight on it, alone. */
  lemma SaidKeeps(t: Torrent, s: State, s': State, r: nat, said: seq<Action>, asked: Option<nat>, i: nat)
    requires Shape(t, s) && r < t.N() && PassEffect(t, s, s', r, 0, said, asked) && i < MAX_CONN
      && s.conn[i].requestSent
    ensures s'.conn[i].(amInterested := false) == s.conn[i].(amInterested := false)
    ensures Outstanding(s'.log, i) == Outstanding(s.log, i)
  {
    hide HasPiece, Courted, Choking;
    NothingRequested(s, s', said);
    SaidOnly(s.log, said, i);
    if asked.Some? {
      LogStep(s.log + said, Requested(asked.value, r, t.Length(r)), i);
    }
  }

  lemma {:induction false} SaidOnly(log: seq<Action>, said: seq<Action>, i: nat)
    requires forall a | a in said :: a.SaidInterested?
    ensures Outstanding(log + said, i) == Outstanding(log, i)
    decreases |said|
  {
    if said == [] {
      assert log + said == log;
    } else {
      var front := said[..|said| - 1];
      SaidOnly(log, front, i);
      assert log + said == (log + front) + [said[|said| - 1]];
      LogStep(log + front, said[|said| - 1], i);
    }
  }

  // ---------- slots out of service ----------

  /** The slot is marked as busy, but no request is in flight on its connection. */
  predicate Retired(s: State, i: nat) {
    i < |s.conn| && s.conn[i].requestSent && Outstanding(s.log, i) == None
  }

  lemma {:induction false} NoneOutstanding(log: seq<Action>, added: seq<Action>, i: nat)
    requires Outstanding(log, i) == None
    requires forall k | 0 <= k < |added| && added[k].Requested? :: added[k].slot != i
    ensures Outstanding(log + added, i) == None
    decreases |added|
  {
    if added == [] {
      assert log + added == log;
    } else {
      var front := added[..|added| - 1];
      NoneOutstanding(log, front, i);
      assert log + added == (log + front) + [added[|added| - 1]];
      LogStep(log + front, added[|added| - 1], i);
    }
  }

  lemma StepRetired(t: Torrent, s: State, e: Event, i: nat)
    requires Shape(t, s) && Permitted(t, s, e) && Honest(t, s, e) && Retired(s, i)
    ensures Retired(Step(t, s, e), i)
  {
    hide Step, Proper, ProperRequests, NotesMove, RanksMove, StatusesMove, Accepts;
    var added, stored := StepGrown(t, s, e);
    NoneOutstanding(s.log, added, i);
  }

  /** With honest peers, such a slot is never asked again, whatever connections it takes part in. */
  lemma {:induction false} RunRetired(t: Torrent, s: State, es: seq<Event>, i: nat)
    requires Shape(t, s) && Allowed(t, s, es) && AllHonest(t, s, es) && Retired(s, i)
    ensures Retired(Run(t, s, es), i)
    decreases |es|
  {
    hide Step, Permitted, Honest, Retired;
    if es != [] {
      StepRetired(t, s, es[0], i);
      RunRetired(t, Step(t, s, es[0]), es[1..], i);
    }
  }

  lemma StepStopped(t: Torrent, s: State, e: Event)
    requires Shape(t, s) && Permitted(t, s, e) && Honest(t, s, e) && forall i: nat | i < MAX_CONN :: Retired(s, i)
    ensures Step(t, s, e).status == s.status
    ensures forall i: nat | i < MAX_CONN :: Retired(Step(t, s, e), i)
    ensures forall p: nat :: Requests(Step(t, s, e).log, p) == Requests(s.log, p)
  {
    hide Step, Proper, ProperRequests, StatusesMove, NotesMove, RanksMove, Accepts;
    var added, stored := StepGrown(t, s, e);
    assert stored.Some? ==> !Retired(s, e.slot);
    NoRequest(t, s, Step(t, s, e), added);
    forall i: nat | i < MAX_CONN
      ensures Retired(Step(t, s, e), i)
    {
      assert Retired(s, i);
      NoneOutstanding(s.log, added, i);
    }
    forall p: nat
      ensures Requests(Step(t, s, e).log, p) == Requests(s.log, p)
    {
      NoMoreRequests(s.log, added, p);
    }
    SameStatus(t, s, Step(t, s, e), added);
  }

  lemma AskedIsNotRetired(t: Torrent, s: State, s': State, added: seq<Action>, k: nat)
    requires Shape(t, s) && Shape(t, s') && ProperRequests(t, s, s', added) && BusyStay(s, s', added, None)
    requires k < |added| && added[k].Requested?
    ensures added[k].slot < MAX_CONN && !Retired(s, added[k].slot)
  {
    assert Proper(t, s', added[k]);
  }

  lemma NoRequest(t: Torrent, s: State, s': State, added: seq<Action>)
    requires Shape(t, s) && Shape(t, s') && ProperRequests(t, s, s', added) && BusyStay(s, s', added, None)
    requires forall i: nat | i < MAX_CONN :: Retired(s, i)
    ensures forall k | 0 <= k < |added| :: !added[k].Requested?
  {
    forall k | 0 <= k < |added|
      ensures !added[k].Requested?
    {
      if added[k].Requested? {
        AskedIsNotRetired(t, s, s', added, k);
        assert false;
      }
    }
  }

  lemma SameStatus(t: Torrent, s: State, s': State, added: seq<Action>)
    requires Shape(t, s) && Shape(t, s') && StatusesMove(t, s, s', added, None)
    requires forall k | 0 <= k < |added| :: !added[k].Requested?
    ensures s'.status == s.status
  {
  }

  lemma {:induction false} NoMoreRequests(log: seq<Action>, added: seq<Action>, p: nat)
    requires forall k | 0 <= k < |added| :: !added[k].Requested?
    ensures Requests(log + added, p) == Requests(log, p)
    decreases |added|
  {
    if added == [] {
      assert log + added == log;
    } else {
      var front := added[..|added| - 1];
      NoMoreRequests(log, front, p);
      assert log + added == (log + front) + [added[|added| - 1]];
      Appended(log + front, added[|added| - 1], p);
    }
  }

  /** Once every slot is out of service, nothing is requested or stored any more, whatever peers connect. */
  lemma {:induction false} TenLossesStopTheDownload(t: Torrent, s: State, es: seq<Event>)
    requires Shape(t, s) && Allowed(t, s, es) && AllHonest(t, s, es) && forall i: nat | i < MAX_CONN :: Retired(s, i)
    ensures Run(t, s, es).status == s.status
    ensures forall p: nat :: Requests(Run(t, s, es).log, p) == Requests(s.log, p)
    decreases |es|
  {
    hide Step, Permitted, Honest, Retired;
    if es != [] {
      StepStopped(t, s, es[0]);
      TenLossesStopTheDownload(t, Step(t, s, es[0]), es[1..]);
    }
  }

  // ---------- the scheduler gives up too soon ----------

  /** Every piece that has been requested is ranked as taken. */
  ghost predicate TakenInv(t: Torrent, s: State)
    requires Shape(t, s)
  {
    forall p: nat | p < t.N() && s.status[p] != NotDownloaded :: s.ranking[p] >= TAKEN
  }

  lemma StepTaken(t: Torrent, s: State, e: Event)
    requires HonestInv(t, s) && TakenInv(t, s) && Permitted(t, s, e) && Honest(t, s, e)
    ensures TakenInv(t, Step(t, s, e))
  {
    hide Step, Proper, ProperRequests, BusyStay, NotesMove, Asks, Accepts, FileInv, FieldInv, EightInv, RankInv,
         RequestInv, CounterInv, ServeInv, ChokeInv;
    var added, stored := StepGrown(t, s, e);
    if stored.Some? {
      assert s.status[stored.value.piece] == Downloading;
    }
  }

  lemma {:induction false} RunTaken(t: Torrent, s: State, es: seq<Event>)
    requires HonestInv(t, s) && TakenInv(t, s) && Allowed(t, s, es) && AllHonest(t, s, es)
    ensures TakenInv(t, Run(t, s, es))
    decreases |es|
  {
    hide AskInv, FileInv, FieldInv, EightInv, RankInv, RequestInv, CounterInv, ServeInv, ChokeInv, Step, Permitted,
         Honest, TakenInv;
    if es != [] {
      StepTaken(t, s, es[0]);
      StepHonest(t, s, es[0]);
      RunTaken(t, Step(t, s, es[0]), es[1..]);
    }
  }

  /**
   With honest peers, the test by which the scheduler means to see that all pieces have been downloaded is never true
   when they have; when it is true, a piece of that ranking is not downloaded and not even requested.
   */
  lemma GivesUpOnlyUnfinished(t: Torrent, es: seq<Event>)
    requires IsHonestRun(t, es)
    ensures var s := After(t, es);
      && (AllCompleted(s.status) ==> MinOf(s.ranking) >= TAKEN)
      && (MinOf(s.ranking) == GIVE_UP ==>
            exists p: nat :: p < t.N() && s.ranking[p] == GIVE_UP && s.status[p] == NotDownloaded)
  {
    hide Core, Run, Allowed, AllHonest, MinOf, Ties;
    InitHonest(t);
    RunTaken(t, Init(t), es);
    AfterHonest(t, es);
    var s := After(t, es);
    MinIsAttained(s.ranking);
    var p := Ties(s.ranking, MinOf(s.ranking))[0];
    assert s.ranking[p] == MinOf(s.ranking);
  }

  /** The only peer, in slot 0, chokes and has announced the only piece k times. */
  ghost predicate Repeated(t: Torrent, s: State, k: nat)
    requires Inv(t, s)
  {
    && t.N() == 1 && s.status[0] == NotDownloaded && s.ranking[0] == k
    && s.conn[0].inUse && s.conn[0].peerChoking && !s.conn[0].requestSent && s.conn[0].bitField.Some?
    && (k > 0 ==> HasPiece(t, s.conn[0], 0) && s.conn[0].amInterested)
    && forall j | 0 < j < MAX_CONN :: !s.conn[j].inUse
  }

  lemma RepeatedHave(t: Torrent, s: State, k: nat)
    requires Inv(t, s) && Repeated(t, s, k) && k < GIVE_UP
    ensures Permitted(t, s, Receive(0, Have(0), 0))
    ensures var s' := Step(t, s, Receive(0, Have(0), 0)); Inv(t, s') && Repeated(t, s', k + 1)
  {
    hide EightInv, RankInv, RequestInv, CounterInv, ServeInv, ChokeInv, Holds, WithBit, FindRarest, PassEffect, OnHave,
         HaveNoted;
    var e := Receive(0, Have(0), 0);
    StepKeeps(t, s, e);
    OnePieceNoted(t, s);
    var s1 := HaveNoted(t, s, 0);
    var r, said, asked := SchedulerEffect(t, s1, 0);
    if k + 1 != GIVE_UP {
      NobodyWilling(t, s1, FindRarest(t, s1, 0), said, asked);
    }
  }

  lemma OnePieceNoted(t: Torrent, s: State)
    requires Inv(t, s) && t.N() == 1 && s.conn[0].bitField.Some? && s.status[0] == NotDownloaded
    ensures var s1 := HaveNoted(t, s, 0);
      && Shape(t, s1) && HasPiece(t, s1.conn[0], 0) && s1.status == s.status && s1.ranking == [s.ranking[0] + 1]
      && s1.conn == s.conn[0 := s.conn[0].(bitField := s1.conn[0].bitField)]
    ensures forall rnd :: OnHave(t, s, 0, 0, rnd) == FindRarest(t, HaveNoted(t, s, 0), rnd)
  {
    hide EightInv, RankInv, RequestInv, CounterInv, ServeInv, ChokeInv, Holds, WithBit, FindRarest;
    InBounds(t.N(), 0);
    WithBitSize(s.conn[0].bitField.value, 0);
    FieldAfterHave(s.conn[0].bitField.value, 0, 0);
  }

  lemma NobodyWilling(t: Torrent, s: State, s': State, said: seq<Action>, asked: Option<nat>)
    requires Shape(t, s) && t.N() == 1 && PassEffect(t, s, s', 0, 0, said, asked)
    requires s.status[0] == NotDownloaded && s.conn[0].inUse && s.conn[0].peerChoking && HasPiece(t, s.conn[0], 0)
    requires forall j | 0 < j < MAX_CONN :: !s.conn[j].inUse
    ensures s'.status == s.status && s'.ranking == s.ranking && s'.conn == s.conn[0 := s.conn[0].(amInterested := true)]
  {
    hide HasPiece, Told;
    assert asked == None;
    forall k: nat | k < MAX_CONN
      ensures s'.conn[k] == s.conn[0 := s.conn[0].(amInterested := true)][k]
    {
      assert SlotAfterPass(t, s, 0, 0, asked, k, s'.conn[k]);
    }
  }

  lemma {:induction false} Repeats(t: Torrent, es: seq<Event>, k: nat) returns (es': seq<Event>)
    requires IsHonestRun(t, es) && Inv(t, After(t, es)) && Repeated(t, After(t, es), k) && k <= GIVE_UP
    ensures IsHonestRun(t, es') && Inv(t, After(t, es')) && Repeated(t, After(t, es'), GIVE_UP)
    decreases GIVE_UP - k
  {
    hide FieldInv, EightInv, RankInv, RequestInv, CounterInv, ServeInv, ChokeInv, Step, Repeated, Run, Allowed,
         AllHonest;
    if k == GIVE_UP {
      es' := es;
    } else {
      RepeatedHave(t, After(t, es), k);
      Extend(t, es, Receive(0, Have(0), 0));
      es' := Repeats(t, es + [Receive(0, Have(0), 0)], k + 1);
    }
  }

  /**
   A run with one honest peer in which the scheduler gives up: the peer announces the only piece 120 times, then
   unchokes. It is willing, the piece is not downloaded, and the scheduler does nothing.
   */
  lemma GiveUpRun(t: Torrent) returns (es: seq<Event>)
    requires t.Valid() && t.N() == 1
    ensures IsHonestRun(t, es)
    ensures var s := After(t, es);
      && s.status[0] == NotDownloaded && s.conn[0].amInterested && Willing(t, s.conn[0], 0)
      && forall rnd :: FindRarest(t, s, rnd) == s
  {
    hide FieldInv, EightInv, RankInv, RequestInv, CounterInv, ServeInv, ChokeInv, Run, Allowed, AllHonest, HasPiece,
         Scan;
    es := Meeting(t);
    es := Repeats(t, es, 0);
    var s := After(t, es);
    Extend(t, es, Receive(0, Unchoke, 0));
    SameFieldSamePieces(t, s.conn[0], s.conn[0].(peerChoking := false));
    es := es + [Receive(0, Unchoke, 0)];
  }
}
