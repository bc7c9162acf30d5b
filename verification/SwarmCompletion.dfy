/** What a download ends with, and exactly which pieces the leecher can download: all but piece 8. */
module SwarmCompletion {
  import opened Bytes
  import opened BitField
  import opened Geometry
  import opened Swarm
  import opened SwarmInvariants
  import opened SwarmHonest
  import SwarmResults
  import SwarmSteps
  import Sha1Spec

  // ---------- the bytes downloaded ----------

  /** The bytes of piece p of a file. */
  function Slice(t: Torrent, content: seq<byte>, p: nat): (r: seq<byte>)
    requires t.Valid() && |content| == t.fileSize && p < t.N()
    ensures |r| == t.Length(p)
  {
    PieceEnd(t.fileSize, t.pieceSize, p);
    content[t.Start(p)..t.Start(p) + t.Length(p)]
  }

  /** The torrent was made from this file. */
  ghost predicate MadeFrom(t: Torrent, content: seq<byte>) {
    && t.Valid() && |content| == t.fileSize
    && forall p: nat | p < t.N() :: Sha1Spec.Digest(Slice(t, content, p)) == t.hashes[p]
  }

  /** Two different byte strings of the same length with the same digest. */
  predicate Collision(x: seq<byte>, y: seq<byte>) {
    x != y && |x| == |y| && Sha1Spec.Digest(x) == Sha1Spec.Digest(y)
  }

  /** A completed piece holds the bytes of the file the torrent was made from, or bytes that collide with them. */
  lemma CompletedPieceIsThePiece(t: Torrent, content: seq<byte>, es: seq<Event>, p: nat)
    requires MadeFrom(t, content) && IsHonestRun(t, es) && p < t.N() && After(t, es).status[p] == Completed
    ensures var file := After(t, es).file;
      && t.Start(p) + t.Length(p) <= |file|
      && var stored := file[t.Start(p)..t.Start(p) + t.Length(p)];
         stored == Slice(t, content, p) || Collision(stored, Slice(t, content, p))
  {
    hide Sha1Spec.Digest, Slice;
    CompletedPiecesVerified(t, es, p);
  }

  /** A file is determined by its pieces. */
  lemma SamePieces(t: Torrent, file: seq<byte>, content: seq<byte>)
    requires t.Valid() && |file| == |content| == t.fileSize
    requires forall p: nat | p < t.N() :: Slice(t, file, p) == Slice(t, content, p)
    ensures file == content
  {
    hide Slice;
    forall x | 0 <= x < |content|
      ensures file[x] == content[x]
    {
      PieceOf(t, x);
      var p := x / t.pieceSize;
      InSlice(t, file, p, x);
      InSlice(t, content, p, x);
    }
  }

  lemma PieceOf(t: Torrent, x: nat)
    requires t.Valid() && x < t.fileSize
    ensures x / t.pieceSize < t.N()
      && t.Start(x / t.pieceSize) <= x < t.Start(x / t.pieceSize) + t.Length(x / t.pieceSize)
  {
    hide PieceCount, RequestLength;
    PiecesCover(t.fileSize, t.pieceSize, x);
  }

  lemma InSlice(t: Torrent, content: seq<byte>, p: nat, x: nat)
    requires t.Valid() && |content| == t.fileSize && p < t.N() && t.Start(p) <= x < t.Start(p) + t.Length(p)
    ensures x < |content| && Slice(t, content, p)[x - t.Start(p)] == content[x]
  {
    hide PieceCount, RequestLength;
    PieceEnd(t.fileSize, t.pieceSize, p);
  }

  /**
   A completed download is the file that the torrent was made from, or some piece of it and the same piece of
   that file are a collision of SHA-1.
   */
  lemma DownloadedFileIsTheFile(t: Torrent, content: seq<byte>, es: seq<Event>)
    requires MadeFrom(t, content) && IsHonestRun(t, es) && AllCompleted(After(t, es).status)
    ensures |After(t, es).file| == t.fileSize
    ensures var file := After(t, es).file;
      file == content || exists p: nat :: p < t.N() && Collision(Slice(t, file, p), Slice(t, content, p))
  {
    hide Sha1Spec.Digest, Run, Allowed, AllHonest;
    CompletedFile(t, es);
    var file := After(t, es).file;
    if forall p: nat | p < t.N() :: Slice(t, file, p) == Slice(t, content, p) {
      SamePieces(t, file, content);
    } else {
      var p: nat :| p < t.N() && Slice(t, file, p) != Slice(t, content, p);
      assert Verified(t, file, p);
      assert Collision(Slice(t, file, p), Slice(t, content, p));
    }
  }

  // ---------- the scheduler can pick any piece of least ranking ----------

  lemma {:induction false} TieAt(r: seq<int>, m: int, k: nat) returns (j: nat)
    requires k < |r| && r[k] == m
    ensures j < |Ties(r, m)| && Ties(r, m)[j] == k
  {
    var n := |r| - 1;
    if k == n {
      j := |Ties(r[..n], m)|;
    } else {
      j := TieAt(r[..n], m, k);
    }
  }

  /** Every piece of least ranking is picked for some value of rand(). */
  lemma Pickable(s: State, k: nat) returns (rnd: nat)
    requires k < |s.ranking| && forall p | 0 <= p < |s.ranking| :: s.ranking[k] <= s.ranking[p]
    ensures Rarest(s, rnd) == k
  {
    MinIsAttained(s.ranking);
    var m := MinOf(s.ranking);
    assert s.ranking[Ties(s.ranking, m)[0]] == m;
    rnd := TieAt(s.ranking, m, k);
    assert rnd % |Ties(s.ranking, m)| == rnd;
  }

  // ---------- downloading the pieces in order ----------

  /** Slot 0 is connected to a peer that does not choke and that shows every piece but 8. */
  predicate Ready(t: Torrent, s: State) {
    && |s.conn| > 0 && s.conn[0].inUse && !s.conn[0].peerChoking && s.conn[0].bitField.Some?
    && forall q: nat | q < t.N() :: HasPiece(t, s.conn[0], q) <==> q != 8
  }

  /** The pieces before k but 8 have been requested, from k on none has, and every other piece has been seen once. */
  predicate Ranked(t: Torrent, s: State, k: nat) {
    && |s.status| == |s.ranking| == t.N()
    && forall q: nat | q < t.N() :: s.ranking[q] == if q < k && q != 8 then TAKEN else 1
  }

  /** Before piece k is requested from slot 0: the earlier ones but 8 are completed. */
  ghost predicate Due(t: Torrent, s: State, k: nat)
    requires Inv(t, s)
  {
    && k < t.N() && k != 8 && Ready(t, s) && !s.conn[0].requestSent && Ranked(t, s, k)
    && forall q: nat | q < t.N() :: s.status[q] == if q < k && q != 8 then Completed else NotDownloaded
  }

  /** Piece k is requested from slot 0, the earlier ones but 8 are completed. */
  ghost predicate Progress(t: Torrent, s: State, k: nat)
    requires Inv(t, s)
  {
    && k < t.N() && k != 8 && Ready(t, s) && Ranked(t, s, k + 1)
    && s.conn[0].requestSent && s.conn[0].interestedPiece == k && Outstanding(s.log, 0) == Some(k)
    && (forall q: nat | q < t.N() ::
          s.status[q] == if q == k then Downloading else if q < k && q != 8 then Completed else NotDownloaded)
  }

  /** The scheduler requests any piece of least ranking from slot 0, if the peer there shows it and can be asked. */
  lemma NextRequest(t: Torrent, s: State, k: nat) returns (rnd: nat)
    requires Shape(t, s) && k < t.N() && s.status[k] == NotDownloaded
    requires s.conn[0].inUse && !s.conn[0].peerChoking && !s.conn[0].requestSent && HasPiece(t, s.conn[0], k)
    requires s.ranking[k] != GIVE_UP && forall p | 0 <= p < t.N() :: s.ranking[k] <= s.ranking[p]
    ensures FindRarest(t, s, rnd) == SendRequest(t, s, k, 0)
  {
    hide Holds, Rarest;
    rnd := Pickable(s, k);
    LeastRanking(s.ranking, k);
    assert Eligible(t, s, k, 0);
  }

  lemma LeastRanking(r: seq<int>, k: nat)
    requires k < |r| && forall p | 0 <= p < |r| :: r[k] <= r[p]
    ensures MinOf(r) == r[k]
  {
    MinIsAttained(r);
    assert r[Ties(r, MinOf(r))[0]] == MinOf(r);
  }

  lemma DueRequest(t: Torrent, s: State, k: nat) returns (rnd: nat)
    requires Inv(t, s) && Due(t, s, k)
    ensures Inv(t, FindRarest(t, s, rnd)) && Progress(t, FindRarest(t, s, rnd), k)
  {
    hide FieldInv, EightInv, RankInv, RequestInv, CounterInv, ServeInv, ChokeInv, FindRarest, HasPiece;
    rnd := NextRequest(t, s, k);
    FindKeeps(t, s, rnd);
    RequestProgress(t, s, k);
  }

  lemma RequestProgress(t: Torrent, s: State, k: nat)
    requires Inv(t, s) && Due(t, s, k) && Inv(t, SendRequest(t, s, k, 0))
    ensures Progress(t, SendRequest(t, s, k, 0), k)
  {
    hide FieldInv, EightInv, RankInv, RequestInv, CounterInv, ServeInv, ChokeInv, HasPiece, FieldSize, PieceCount,
         RequestLength;
    var s1 := MarkInterested(s, 0);
    SameFieldSamePieces(t, s.conn[0], SendRequest(t, s, k, 0).conn[0]);
    LogStep(s1.log, Requested(0, k, t.Length(k)), 0);
  }

  lemma {:induction false} SomethingWanted(t: Torrent, s: State, bits: seq<bv8>, p: nat, q: nat)
    requires |s.status| == t.N() && |s.field| == |bits| == FieldSize(t.N())
    requires p <= q < t.N() && ByteOf(q) < |bits|
    requires !Holds(s.field, q) && Holds(bits, q) && s.status[q] == NotDownloaded
    ensures FirstWanted(t, s, bits, p).Some?
    decreases q - p
  {
    hide Holds;
    if p < q {
      SomethingWanted(t, s, bits, p + 1, q);
    }
  }

  function Next(k: nat): nat {
    if k == 7 then 9 else k + 1
  }

  /** Every piece but 8 is completed. */
  predicate AllButEight(status: seq<Status>) {
    forall q: nat | q < |status| && q != 8 :: status[q] == Completed
  }

  /** When piece k has been stored, the next one is requested in the same step. */
  lemma AfterPiece(t: Torrent, s: State, k: nat) returns (rnd: nat)
    requires Inv(t, s) && k != 8 && Next(k) < t.N() && Due(t, s, Next(k))
    ensures Inv(t, AfterStore(t, s, 0, rnd)) && Progress(t, AfterStore(t, s, 0, rnd), Next(k))
  {
    hide EightInv, RankInv, RequestInv, CounterInv, ServeInv, ChokeInv, Holds, FindRarest;
    var p := Next(k);
    assert s.status[p] == NotDownloaded && HasPiece(t, s.conn[0], p);
    InBounds(t.N(), p);
    SomethingWanted(t, s, s.conn[0].bitField.value, 0, p);
    var c := s.conn[0].(amInterested := true);
    SlotFacts(t, s, 0);
    PutKeeps(t, s, 0, c);
    SameReady(t, s, Put(s, 0, c), p);
    rnd := DueRequest(t, Put(s, 0, c), p);
  }

  lemma SameReady(t: Torrent, s: State, s': State, k: nat)
    requires Inv(t, s) && Inv(t, s') && Due(t, s, k)
    requires s'.status == s.status && s'.ranking == s.ranking && s'.conn[0] == s.conn[0].(amInterested := true)
    ensures Due(t, s', k)
  {
    hide EightInv, RankInv, RequestInv, CounterInv, ServeInv, ChokeInv, FieldInv, HasPiece;
    SameFieldSamePieces(t, s.conn[0], s'.conn[0]);
  }

  /** Storing piece k makes the next one due. */
  lemma Stores(t: Torrent, s: State, k: nat, data: seq<byte>)
    requires Inv(t, s) && Progress(t, s, k)
    ensures Inv(t, Store(t, s, 0, k, data))
    ensures Next(k) < t.N() ==> Due(t, Store(t, s, 0, k, data), Next(k))
    ensures Next(k) >= t.N() ==> AllButEight(Store(t, s, 0, k, data).status)
  {
    hide FieldInv, EightInv, RankInv, RequestInv, CounterInv, ServeInv, ChokeInv, Write, Int32, HasPiece, WithBit;
    StoreKeeps(t, s, 0, k, data);
    SameFieldSamePieces(t, s.conn[0], Store(t, s, 0, k, data).conn[0]);
  }

  /** The answer to the request for piece k leads to the next request, or ends the download. */
  lemma PieceProgress(t: Torrent, s: State, content: seq<byte>, k: nat) returns (rnd: nat)
    requires Inv(t, s) && Progress(t, s, k) && MadeFrom(t, content)
    ensures var e := Receive(0, Piece(k, 0, Slice(t, content, k)), rnd);
      && Permitted(t, s, e) && Honest(t, s, e)
      && var s' := Step(t, s, e);
         if Next(k) < t.N() then Inv(t, s') && Progress(t, s', Next(k)) else AllButEight(s'.status)
  {
    hide FieldInv, EightInv, RankInv, RequestInv, CounterInv, ServeInv, ChokeInv, AfterStore, Store, Due, AllCompleted,
         Sha1Spec.Digest;
    var data := Slice(t, content, k);
    Stores(t, s, k, data);
    assert HasPiece(t, s.conn[0], k);
    rnd := 0;
    if Next(k) < t.N() {
      rnd := AfterPiece(t, Store(t, s, 0, k, data), k);
    } else {
      SwarmResults.AfterStoreForward(t, Store(t, s, 0, k, data), 0, rnd);
    }
  }

  /** From there, a peer that answers each request lets every piece but 8 be completed. */
  lemma {:induction false} Finish(t: Torrent, s: State, content: seq<byte>, k: nat) returns (es: seq<Event>)
    requires Inv(t, s) && Progress(t, s, k) && MadeFrom(t, content)
    ensures Allowed(t, s, es) && AllHonest(t, s, es) && AllButEight(Run(t, s, es).status)
    decreases t.N() - k
  {
    hide FieldInv, EightInv, RankInv, RequestInv, CounterInv, ServeInv, ChokeInv, Step, AllButEight;
    var rnd := PieceProgress(t, s, content, k);
    var e := Receive(0, Piece(k, 0, Slice(t, content, k)), rnd);
    var s' := Step(t, s, e);
    var rest: seq<Event> := [];
    if Next(k) < t.N() {
      rest := Finish(t, s', content, Next(k));
    }
    es := [e] + rest;
    assert es[1..] == rest;
  }

  // ---------- the opening of the run ----------

  /**
   Slot 0 is connected to a peer that does not choke and has announced the pieces below k by HAVE; nothing is
   requested.
   */
  ghost predicate Offered(t: Torrent, s: State, k: nat)
    requires Inv(t, s)
  {
    && s.conn[0].inUse && !s.conn[0].peerChoking && !s.conn[0].requestSent && s.conn[0].bitField.Some?
    && (forall q: nat | q < t.N() :: HasPiece(t, s.conn[0], q) <==> q < k && q != 8)
    && (forall q: nat | q < t.N() :: s.status[q] == NotDownloaded && s.ranking[q] == if q < k then 1 else 0)
  }

  /** The state on receiving a HAVE for piece k, before the scheduler runs. */
  function HaveNoted(t: Torrent, s: State, k: nat): State
    requires Shape(t, s) && k < t.N() && s.conn[0].bitField.Some?
  {
    InBounds(t.N(), k);
    var bits := WithBit(s.conn[0].bitField.value, k);
    var s1 := Put(s, 0, s.conn[0].(bitField := Some(bits))).(ranking := s.ranking[k := s.ranking[k] + 1]);
    Log(s1, SaidInterested(0, true))
  }

  lemma HaveArrives(t: Torrent, s: State, k: nat)
    requires Inv(t, s) && Offered(t, s, k) && k < t.N()
    ensures Inv(t, HaveNoted(t, s, k)) && Offered(t, HaveNoted(t, s, k), k + 1)
    ensures forall rnd :: OnHave(t, s, 0, k, rnd) == FindRarest(t, HaveNoted(t, s, k), rnd)
  {
    hide EightInv, RankInv, RequestInv, CounterInv, ServeInv, ChokeInv, Holds, WithBit, FindRarest;
    InBounds(t.N(), k);
    var bits := WithBit(s.conn[0].bitField.value, k);
    HaveBumpKeeps(t, s, 0, k, bits);
    var s1 := Put(s, 0, s.conn[0].(bitField := Some(bits))).(ranking := s.ranking[k := s.ranking[k] + 1]);
    LogKeeps(t, s1, SaidInterested(0, true));
    forall q: nat | q < t.N()
      ensures HasPiece(t, s1.conn[0], q) <==> q < k + 1 && q != 8
    {
      InBounds(t.N(), q);
      FieldAfterHave(s.conn[0].bitField.value, k, q);
      assert HasPiece(t, s.conn[0], q) <==> Holds(s.conn[0].bitField.value, q);
    }
  }

  /** The HAVE messages for the pieces from k on; the last makes the scheduler request piece 0. */
  lemma {:induction false} Offers(t: Torrent, s: State, k: nat) returns (es: seq<Event>)
    requires Inv(t, s) && k < t.N() && Offered(t, s, k)
    ensures Allowed(t, s, es) && AllHonest(t, s, es) && Inv(t, Run(t, s, es)) && Progress(t, Run(t, s, es), 0)
    decreases t.N() - k
  {
    hide FieldInv, EightInv, RankInv, RequestInv, CounterInv, ServeInv, ChokeInv, FindRarest, OnHave, HasPiece,
         HaveNoted;
    HaveArrives(t, s, k);
    var s1 := HaveNoted(t, s, k);
    if k == t.N() - 1 {
      var rnd := DueRequest(t, s1, 0);
      es := [Receive(0, Have(k), rnd)];
      assert es[1..] == [];
    } else {
      SwarmResults.StarvedScheduler(t, s1, 0, k + 1);
      var rest := Offers(t, s1, k + 1);
      es := [Receive(0, Have(k), 0)] + rest;
      assert es[1..] == rest;
    }
  }

  lemma {:induction false} NothingWanted(t: Torrent, s: State, p: nat)
    requires Shape(t, s)
    ensures FirstWanted(t, s, BlankField(FieldSize(t.N())), p) == None
    decreases t.N() - p
  {
    hide Holds;
    if p < t.N() {
      InBounds(t.N(), p);
      BlankHoldsNothing(FieldSize(t.N()), p);
      NothingWanted(t, s, p + 1);
    }
  }

  /** A bit field without pieces is acceptable, and changes the slot only. */
  lemma BlankArrives(t: Torrent, s: State)
    requires Shape(t, s)
    ensures var bits := BlankField(FieldSize(t.N())); var s' := OnBitField(t, s, 0, bits, 0);
      && s'.conn == s.conn[0 := s.conn[0].(bitField := Some(bits), amInterested := false)]
      && s'.status == s.status && s'.ranking == s.ranking
      && forall q: nat | q < t.N() :: !HasPiece(t, s'.conn[0], q)
  {
    hide Holds;
    var bits := BlankField(FieldSize(t.N()));
    forall q: nat | q < 8 * FieldSize(t.N()) && (q < t.N() || InRange(q, t.N()))
      ensures ByteOf(q) < |bits| && !Holds(bits, q)
    {
      InBounds(t.N(), q);
      BlankHoldsNothing(FieldSize(t.N()), q);
    }
    assert SpareClear(bits, t.N());
    assert Bump(t, s.ranking, bits) == s.ranking;
    NothingWanted(t, Put(s, 0, s.conn[0].(bitField := Some(bits))).(ranking := Bump(t, s.ranking, bits)), 0);
  }

  /** One run after another. */
  lemma {:induction false} RunOn(t: Torrent, s: State, a: seq<Event>, b: seq<Event>)
    requires Shape(t, s) && Allowed(t, s, a) && AllHonest(t, s, a)
    requires Allowed(t, Run(t, s, a), b) && AllHonest(t, Run(t, s, a), b)
    ensures Allowed(t, s, a + b) && AllHonest(t, s, a + b)
    ensures Run(t, s, a + b) == Run(t, Run(t, s, a), b)
    decreases |a|
  {
    hide Step, Permitted, Honest;
    if a == [] {
      assert a + b == b;
    } else {
      assert (a + b)[1..] == a[1..] + b;
      RunOn(t, Step(t, s, a[0]), a[1..], b);
    }
  }

  /** One more event. */
  lemma Extend(t: Torrent, es: seq<Event>, e: Event)
    requires IsHonestRun(t, es) && Permitted(t, After(t, es), e) && Honest(t, After(t, es), e)
    ensures IsHonestRun(t, es + [e]) && After(t, es + [e]) == Step(t, After(t, es), e)
  {
    hide Step, Permitted, Honest;
    InitShape(t);
    OneEvent(t, After(t, es), e);
    RunOn(t, Init(t), es, [e]);
  }

  lemma OneEvent(t: Torrent, s: State, e: Event)
    requires Shape(t, s) && Permitted(t, s, e) && Honest(t, s, e)
    ensures Allowed(t, s, [e]) && AllHonest(t, s, [e]) && Run(t, s, [e]) == Step(t, s, e)
  {
    hide Step, Permitted, Honest;
    assert [e][1..] == [];
  }

  lemma FirstAccepted(t: Torrent)
    requires t.Valid() && Shape(t, Init(t))
    ensures OnAccept(t, Init(t), Accepted) ==
      Log(Put(Init(t), 0, BLANK.(inUse := true, amChoking := true, peerChoking := true)), Opened(0))
  {
    hide PieceCount;
    assert FirstFree(Init(t).conn, 0) == Some(0);
  }

  /** A single peer, in slot 0, has connected and sent a bit field without pieces; it chokes. */
  ghost predicate Met(t: Torrent, s: State)
    requires Shape(t, s)
  {
    && (forall q: nat | q < t.N() :: s.status[q] == NotDownloaded && s.ranking[q] == 0 && !HasPiece(t, s.conn[0], q))
    && s.conn[0] == BLANK.(inUse := true, amChoking := true, peerChoking := true, bitField := s.conn[0].bitField)
    && s.conn[0].bitField.Some?
    && forall j | 0 < j < MAX_CONN :: s.conn[j] == BLANK
  }

  lemma Meeting(t: Torrent) returns (es: seq<Event>)
    requires t.Valid()
    ensures IsHonestRun(t, es) && Inv(t, After(t, es)) && Met(t, After(t, es))
  {
    hide EightInv, RankInv, RequestInv, CounterInv, ServeInv, ChokeInv, FieldInv, OnBitField, OnAccept, HasPiece, Run,
         Allowed, AllHonest;
    InitInv(t);
    var bits := BlankField(FieldSize(t.N()));
    var e0, e1 := Accept(Accepted), Receive(0, BitFieldMsg(bits), 0);
    es := [];
    NoEvents(t);
    FirstAccepted(t);
    Extend(t, es, e0);
    StepKeeps(t, Init(t), e0);
    es := es + [e0];
    var s1 := After(t, es);
    BlankArrives(t, s1);
    Extend(t, es, e1);
    StepKeeps(t, s1, e1);
    es := es + [e1];
  }

  /** Then it unchokes. */
  lemma Opening(t: Torrent) returns (es: seq<Event>)
    requires t.Valid()
    ensures IsHonestRun(t, es) && Inv(t, After(t, es)) && Offered(t, After(t, es), 0)
  {
    hide EightInv, RankInv, RequestInv, CounterInv, ServeInv, ChokeInv, FieldInv, FindRarest, HasPiece, Run, Allowed,
         AllHonest;
    es := Meeting(t);
    var s, e := After(t, es), Receive(0, Unchoke, 0);
    Extend(t, es, e);
    StepKeeps(t, s, e);
    SameFieldSamePieces(t, s.conn[0], s.conn[0].(peerChoking := false));
    es := es + [e];
  }

  lemma NoEvents(t: Torrent)
    requires t.Valid()
    ensures IsHonestRun(t, []) && After(t, []) == Init(t)
  {
    InitShape(t);
  }

  /** Some run with honest peers requests piece 0 from a peer that shows every piece but 8 and does not choke. */
  lemma RunToProgress(t: Torrent) returns (es: seq<Event>)
    requires t.Valid()
    ensures IsHonestRun(t, es) && Inv(t, After(t, es)) && Progress(t, After(t, es), 0)
  {
    hide FieldInv, EightInv, RankInv, RequestInv, CounterInv, ServeInv, ChokeInv, Offered, Progress, Run, Allowed,
         AllHonest;
    InitShape(t);
    var opening := Opening(t);
    var rest := Offers(t, After(t, opening), 0);
    RunOn(t, Init(t), opening, rest);
    es := opening + rest;
  }

  // ---------- the ordinary start ----------

  /**
   The scheduler finds nobody to ask while the only peer, in slot 0, chokes; if that peer is known as interesting,
   nothing changes.
   */
  lemma ScheduledChoked(t: Torrent, s: State, s': State)
    requires Shape(t, s) && SwarmSteps.Scheduled(t, s, s')
    requires s.conn[0].amInterested && s.conn[0].peerChoking && forall k | 0 < k < MAX_CONN :: !s.conn[k].inUse
    ensures s'.conn == s.conn && s'.status == s.status && s'.ranking == s.ranking
  {
    hide HasPiece, SwarmResults.Told, SlotShape;
    var r: nat, said: seq<Action>, asked: Option<nat> :| SwarmSteps.Schedules(t, s, s', r, said, asked);
    if s.ranking[r] != 120 {
      assert asked == None;
      forall k: nat | k < MAX_CONN
        ensures s'.conn[k] == s.conn[k]
      {
        assert SwarmResults.SlotAfterPass(t, s, r, 0, asked, k, s'.conn[k]);
      }
    }
  }

  /** Once it does not choke any more, and shows the pieces of least ranking, one of them is requested from it. */
  lemma ScheduledAsks(t: Torrent, s: State, s': State)
    requires Shape(t, s) && SwarmSteps.Scheduled(t, s, s')
    requires s.conn[0].inUse && !s.conn[0].peerChoking && !s.conn[0].requestSent
    requires forall q: nat | q < t.N() :: s.status[q] == NotDownloaded && s.ranking[q] == 1 && HasPiece(t, s.conn[0], q)
    ensures exists k :: 0 <= k < |s'.log| && s'.log[k].Requested?
  {
    hide HasPiece, SwarmResults.Told, SlotShape;
    var r: nat, said: seq<Action>, asked: Option<nat> :| SwarmSteps.Schedules(t, s, s', r, said, asked);
    assert s.ranking[r] == 1 && HasPiece(t, s.conn[0], r);
    assert SwarmResults.Willing(t, s.conn[0], r);
    assert asked.Some?;
    assert s'.log[|s'.log| - 1].Requested?;
  }

  /** A first peer connects, sends its bit field, and unchokes. */
  function OrdinaryStart(bits: seq<bv8>, rnd: nat, rnd': nat): seq<Event> {
    [] + [Accept(Accepted)] + [Receive(0, BitFieldMsg(bits), rnd)] + [Receive(0, Unchoke, rnd')]
  }

  /**
   If the first peer shows every piece that a bit field can show, connects, sends it and unchokes, a request is
   sent to it if and only if there are at most 8 pieces.
   */
  lemma OrdinaryStartIff(t: Torrent, bits: seq<bv8>, rnd: nat, rnd': nat)
    requires t.Valid() && |bits| == FieldSize(t.N()) && SpareClear(bits, t.N())
    requires forall q: nat | q < t.N() :: ByteOf(q) < |bits| && (Holds(bits, q) <==> q != 8)
    ensures IsHonestRun(t, OrdinaryStart(bits, rnd, rnd'))
    ensures (exists k :: 0 <= k < |After(t, OrdinaryStart(bits, rnd, rnd')).log|
                      && After(t, OrdinaryStart(bits, rnd, rnd')).log[k].Requested?) <==> t.N() <= 8
  {
    hide EightInv, RankInv, RequestInv, CounterInv, ServeInv, ChokeInv, FieldInv, OnBitField, OnAccept, OnUnchoke,
         HasPiece, Run, Allowed, AllHonest, Holds, SpareClear, SwarmSteps.Scheduled, SlotShape;
    var e0, e1, e2 := Accept(Accepted), Receive(0, BitFieldMsg(bits), rnd), Receive(0, Unchoke, rnd');
    NoEvents(t);
    InitShape(t);
    FirstAccepted(t);
    Extend(t, [], e0);
    var s1 := After(t, [] + [e0]);
    forall q: nat | q < t.N()
      ensures ByteOf(q) < |s1.field| && !Holds(s1.field, q)
    {
      InBounds(t.N(), q);
      BlankHoldsNothing(FieldSize(t.N()), q);
    }
    FieldArrives(t, s1, bits, rnd);
    Extend(t, [] + [e0], e1);
    var s2 := After(t, [] + [e0] + [e1]);
    Extend(t, [] + [e0] + [e1], e2);
    var es := [] + [e0] + [e1] + [e2];
    assert es == OrdinaryStart(bits, rnd, rnd');
    if t.N() <= 8 {
      SwarmSteps.UnchokeStep(t, s2, 0, rnd');
      var s3 := SwarmSteps.With(s2, 0, s2.conn[0].(peerChoking := false), []);
      SameFieldSamePieces(t, s2.conn[0], s3.conn[0]);
      ScheduledAsks(t, s3, After(t, es));
    } else {
      SwarmResults.NothingRequestedWithoutHaveEight(t, es);
    }
  }

  lemma FieldArrives(t: Torrent, s: State, bits: seq<bv8>, rnd: nat)
    requires Shape(t, s) && Permitted(t, s, Receive(0, BitFieldMsg(bits), rnd))
    requires |bits| == FieldSize(t.N()) && SpareClear(bits, t.N())
    requires forall q: nat | q < t.N() :: ByteOf(q) < |bits| && (Holds(bits, q) <==> q != 8)
    requires s.conn[0] == BLANK.(inUse := true, amChoking := true, peerChoking := true)
    requires forall k | 0 < k < MAX_CONN :: !s.conn[k].inUse
    requires forall q: nat | q < t.N() :: s.status[q] == NotDownloaded && s.ranking[q] == 0
    requires forall q: nat | q < t.N() :: ByteOf(q) < |s.field| && !Holds(s.field, q)
    ensures var s' := Step(t, s, Receive(0, BitFieldMsg(bits), rnd));
      && s'.conn[0] == s.conn[0].(bitField := Some(bits), amInterested := true, interestedPiece := 0)
      && s'.status == s.status && (forall q: nat | q < t.N() :: s'.ranking[q] == if q != 8 then 1 else 0)
      && forall q: nat | q < t.N() && q != 8 :: HasPiece(t, s'.conn[0], q)
  {
    hide Step, Holds, SpareClear, SwarmSteps.Scheduled, SlotShape;
    var ranking, wanted := SwarmSteps.BitFieldStep(t, s, 0, bits, rnd);
    assert SwarmSteps.Wanted(t, s, bits, 0);
    assert wanted == Some(0);
    var c := s.conn[0].(bitField := Some(bits), amInterested := true, interestedPiece := 0);
    var s1 := SwarmSteps.With(s, 0, c, [SaidInterested(0, true)]).(ranking := ranking);
    ScheduledChoked(t, s1, Step(t, s, Receive(0, BitFieldMsg(bits), rnd)));
  }

  // ---------- what can be completed ----------

  /**
   Some run with honest peers completes every piece but 8, for a torrent of any number of pieces made from some
   file.
   */
  lemma AllButEightAtOnce(t: Torrent, content: seq<byte>) returns (es: seq<Event>)
    requires MadeFrom(t, content)
    ensures IsHonestRun(t, es) && AllButEight(After(t, es).status)
  {
    hide FieldInv, EightInv, RankInv, RequestInv, CounterInv, ServeInv, ChokeInv, Progress, AllButEight, Run, Allowed,
         AllHonest;
    InitShape(t);
    var opening := RunToProgress(t);
    var rest := Finish(t, After(t, opening), content, 0);
    RunOn(t, Init(t), opening, rest);
    es := opening + rest;
  }

  /**
   A piece of a torrent made from some file is completed by some run with honest peers if and only if it is not
   piece 8.
   */
  lemma PieceCompletableIff(t: Torrent, content: seq<byte>, p: nat)
    requires MadeFrom(t, content) && p < t.N()
    ensures (exists es :: IsHonestRun(t, es) && After(t, es).status[p] == Completed) <==> p != 8
    ensures p == 8 ==> forall es | IsRun(t, es) :: After(t, es).status[p] == NotDownloaded
  {
    hide Run, Allowed, AllHonest;
    if p != 8 {
      var es := AllButEightAtOnce(t, content);
      assert After(t, es).status[p] == Completed;
    } else {
      forall es | IsRun(t, es)
        ensures After(t, es).status[p] == NotDownloaded
      {
        SwarmResults.NeverCompleteBeyondEight(t, es);
      }
    }
  }

  /**
   A torrent made from some file can be completed, with honest peers, if and only if it has at most 8
   pieces; with more, no run completes it, whatever the peers do.
   */
  lemma CompletableIff(t: Torrent, content: seq<byte>)
    requires MadeFrom(t, content)
    ensures (exists es :: IsHonestRun(t, es) && AllCompleted(After(t, es).status)) <==> t.N() <= 8
    ensures t.N() > 8 ==> forall es | IsRun(t, es) :: !AllCompleted(After(t, es).status)
  {
    hide Run, Allowed, AllHonest;
    if t.N() <= 8 {
      var es := AllButEightAtOnce(t, content);
      assert AllCompleted(After(t, es).status);
    } else {
      forall es | IsRun(t, es)
        ensures !AllCompleted(After(t, es).status)
      {
        SwarmResults.NeverCompleteBeyondEight(t, es);
      }
    }
  }
}
