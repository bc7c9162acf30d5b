/**
 What every step of the leecher keeps, whatever its peers send (short of what makes the program
 undefined, see `Swarm.Permitted`), and what follows for whole runs.
 */
module SwarmInvariants {
  import opened Bytes
  import opened BitField
  import opened Geometry
  import opened Swarm

  // ---------- counting ----------

  /** The stored bit field of a slot has piece p. */
  predicate HasPiece(t: Torrent, c: Slot, p: nat) {
    && c.bitField.Some? && |c.bitField.value| == FieldSize(t.N()) && p < t.N()
    && (InBounds(t.N(), p); Holds(c.bitField.value, p))
  }

  lemma SameFieldSamePieces(t: Torrent, c: Slot, c': Slot)
    requires c.bitField == c'.bitField
    ensures forall q: nat :: HasPiece(t, c, q) == HasPiece(t, c', q)
  {
  }

  /** How many slots, in use or not, have a stored bit field with piece p. */
  function Holders(t: Torrent, conn: seq<Slot>, p: nat): nat {
    if conn == [] then 0
    else Holders(t, conn[..|conn| - 1], p) + if HasPiece(t, conn[|conn| - 1], p) then 1 else 0
  }

  /** How many requests for piece p have been sent. */
  function Requests(log: seq<Action>, p: nat): nat {
    if log == [] then 0
    else Requests(log[..|log| - 1], p) + if log[|log| - 1].Requested? && log[|log| - 1].piece == p then 1 else 0
  }

  /** How many bytes have been stored. */
  function StoredTotal(log: seq<Action>): nat {
    if log == [] then 0
    else StoredTotal(log[..|log| - 1]) + if log[|log| - 1].Stored? then log[|log| - 1].length else 0
  }

  lemma {:induction false} HoldersUpdate(t: Torrent, conn: seq<Slot>, i: nat, c: Slot, p: nat)
    requires i < |conn|
    ensures Holders(t, conn[i := c], p)
         == Holders(t, conn, p) - (if HasPiece(t, conn[i], p) then 1 else 0) + if HasPiece(t, c, p) then 1 else 0
  {
    hide HasPiece;
    var k := |conn| - 1;
    if i == k {
      assert conn[i := c][..k] == conn[..k];
    } else {
      assert conn[i := c][..k] == conn[..k][i := c];
      HoldersUpdate(t, conn[..k], i, c, p);
    }
  }

  lemma {:induction false} HoldersAtMost(t: Torrent, conn: seq<Slot>, p: nat)
    ensures Holders(t, conn, p) <= |conn|
  {
    if conn != [] {
      HoldersAtMost(t, conn[..|conn| - 1], p);
    }
  }

  lemma {:induction false} HoldersPositive(t: Torrent, conn: seq<Slot>, p: nat, i: nat)
    requires i < |conn| && HasPiece(t, conn[i], p)
    ensures Holders(t, conn, p) > 0
  {
    if i < |conn| - 1 {
      HoldersPositive(t, conn[..|conn| - 1], p, i);
    }
  }

  lemma {:induction false} BlankHolders(t: Torrent, n: nat, p: nat)
    ensures Holders(t, seq(n, _ => BLANK), p) == 0
  {
    if n > 0 {
      assert seq(n, _ => BLANK)[..n - 1] == seq(n - 1, _ => BLANK);
      BlankHolders(t, n - 1, p);
    }
  }

  lemma Appended(log: seq<Action>, a: Action, p: nat)
    ensures Requests(log + [a], p) == Requests(log, p) + if a.Requested? && a.piece == p then 1 else 0
    ensures StoredTotal(log + [a]) == StoredTotal(log) + if a.Stored? then a.length else 0
  {
    assert (log + [a])[..|log|] == log;
  }

  lemma Wrapped(a: int, b: int)
    ensures Int32(Int32(a) + b) == Int32(a + b)
  {
  }

  // ---------- the invariant ----------

  /** The client's own bit field shows exactly the completed pieces. */
  ghost predicate FieldInv(t: Torrent, s: State)
    requires Shape(t, s)
  {
    forall p: nat | p < t.N() :: ByteOf(p) < |s.field| && (Holds(s.field, p) <==> s.status[p] == Completed)
  }

  /** Piece 8 is never noted for a slot, so it is never requested nor stored. */
  ghost predicate EightInv(t: Torrent, s: State)
    requires Shape(t, s)
  {
    && (forall i | 0 <= i < MAX_CONN :: s.conn[i].interestedPiece != 8)
    && (t.N() > 8 ==> s.status[8] == NotDownloaded && AnnouncedCompleted !in s.log)
  }

  ghost predicate RankInv(t: Torrent, s: State)
    requires Shape(t, s)
  {
    forall p: nat | p < t.N() :: s.ranking[p] >= Holders(t, s.conn, p)
  }

  /** A piece is requested at most once, and not at all while it is marked as not downloaded. */
  ghost predicate RequestInv(t: Torrent, s: State)
    requires Shape(t, s)
  {
    forall p: nat :: Requests(s.log, p) <= if p < t.N() && s.status[p] != NotDownloaded then 1 else 0
  }

  ghost predicate CounterInv(t: Torrent, s: State) {
    && s.downloaded == Int32(StoredTotal(s.log))
    && s.left == Int32(t.fileSize - StoredTotal(s.log))
  }

  /** A peer that is interested is not choked. */
  ghost predicate ChokeInv(s: State) {
    forall i | 0 <= i < |s.conn| :: s.conn[i].peerInterested ==> !s.conn[i].amChoking
  }

  /** Only completed pieces are ever sent, and nothing of them. */
  ghost predicate ServeInv(t: Torrent, s: State)
    requires Shape(t, s)
  {
    forall k | 0 <= k < |s.log| && s.log[k].SentPiece? ::
      s.log[k].piece < t.N() && s.status[s.log[k].piece] == Completed && s.log[k].length == 0
  }

  ghost predicate Inv(t: Torrent, s: State) {
    && Shape(t, s)
    && ServeInv(t, s)
    && FieldInv(t, s)
    && EightInv(t, s)
    && RankInv(t, s)
    && RequestInv(t, s)
    && CounterInv(t, s)
    && ChokeInv(s)
  }

  /** What the invariant says about one slot. */
  lemma SlotFacts(t: Torrent, s: State, i: nat)
    requires Inv(t, s) && i < MAX_CONN
    ensures s.conn[i].interestedPiece < t.N() && s.conn[i].interestedPiece != 8
    ensures s.conn[i].peerInterested ==> !s.conn[i].amChoking
  {
    hide FieldInv, RankInv, RequestInv, CounterInv, ServeInv;
  }

  lemma InitInv(t: Torrent)
    requires t.Valid()
    ensures Inv(t, Init(t))
  {
    InitShape(t);
    var s := Init(t);
    forall p: nat | p < t.N()
      ensures ByteOf(p) < |s.field| && !Holds(s.field, p) && Holders(t, s.conn, p) == 0
    {
      InBounds(t.N(), p);
      BlankHoldsNothing(FieldSize(t.N()), p);
      BlankHolders(t, MAX_CONN, p);
    }
  }

  // ---------- the kinds of change ----------

  predicate QuietAction(a: Action) {
    !a.Requested? && !a.Stored? && !a.AnnouncedCompleted? && !a.SentPiece?
  }

  /** At most slot i and the log change; no piece is requested, stored or newly seen. */
  ghost predicate Quiet(t: Torrent, s: State, s': State, i: nat) {
    && i < |s.conn| == |s'.conn|
    && s' == s.(conn := s'.conn, log := s'.log)
    && s'.conn == s.conn[i := s'.conn[i]]
    && SlotShape(t, s'.conn[i])
    && (s'.conn[i].bitField == s.conn[i].bitField || s'.conn[i].bitField == None)
    && s'.conn[i].interestedPiece != 8
    && (s'.conn[i].peerInterested ==> !s'.conn[i].amChoking)
    && (s'.log == s.log || exists a :: QuietAction(a) && s'.log == s.log + [a])
  }

  lemma QuietKeeps(t: Torrent, s: State, s': State, i: nat)
    requires Inv(t, s) && Quiet(t, s, s', i)
    ensures Inv(t, s')
  {
    forall p: nat
      ensures Requests(s'.log, p) == Requests(s.log, p) && StoredTotal(s'.log) == StoredTotal(s.log)
    {
      if s'.log != s.log {
        var a :| QuietAction(a) && s'.log == s.log + [a];
        Appended(s.log, a, p);
      }
    }
    forall p: nat
      ensures Holders(t, s'.conn, p) <= Holders(t, s.conn, p)
    {
      HoldersUpdate(t, s.conn, i, s'.conn[i], p);
    }
    assert Requests(s'.log, 0) == Requests(s.log, 0);
  }

  lemma LogKeeps(t: Torrent, s: State, a: Action)
    requires Inv(t, s) && QuietAction(a)
    ensures Inv(t, Log(s, a))
  {
    var s' := Log(s, a);
    assert s'.conn == s.conn[0 := s'.conn[0]];
    QuietKeeps(t, s, s', 0);
  }

  /** Replacing a slot by one with the same or no bit field. */
  lemma PutKeeps(t: Torrent, s: State, i: nat, c: Slot)
    requires Inv(t, s) && i < MAX_CONN
    requires c.bitField == s.conn[i].bitField || c.bitField == None
    requires c.interestedPiece < t.N() && c.interestedPiece != 8
    requires c.peerInterested ==> !c.amChoking
    ensures Inv(t, Put(s, i, c))
  {
    QuietKeeps(t, s, Put(s, i, c), i);
  }

  lemma CloseKeeps(t: Torrent, s: State, i: nat)
    requires Inv(t, s) && i < MAX_CONN
    ensures Inv(t, Close(s, i))
  {
    hide FieldInv, RankInv, RequestInv, CounterInv, ServeInv;
    PutKeeps(t, s, i, s.conn[i].(inUse := false));
    LogKeeps(t, Put(s, i, s.conn[i].(inUse := false)), Closed(i));
  }

  lemma OpenKeeps(t: Torrent, s: State, i: nat)
    requires Inv(t, s) && i < MAX_CONN
    ensures Inv(t, Open(s, i))
  {
    hide FieldInv, RankInv, RequestInv, CounterInv, ServeInv;
    var c := s.conn[i].(inUse := true, amChoking := true, amInterested := false, peerChoking := true,
      peerInterested := false);
    PutKeeps(t, s, i, c);
    LogKeeps(t, Put(s, i, c), Opened(i));
  }

  lemma MarkKeeps(t: Torrent, s: State, i: nat)
    requires Inv(t, s) && i < MAX_CONN
    ensures Inv(t, MarkInterested(s, i))
  {
    hide FieldInv, RankInv, RequestInv, CounterInv, ServeInv;
    if !s.conn[i].amInterested {
      var c := s.conn[i].(amInterested := true);
      PutKeeps(t, s, i, c);
      LogKeeps(t, Put(s, i, c), SaidInterested(i, true));
    }
  }

  lemma RequestKeeps(t: Torrent, s: State, r: nat, i: nat)
    requires Inv(t, s) && r < t.N() && i < MAX_CONN && r != 8 && s.status[r] == NotDownloaded
    ensures Inv(t, SendRequest(t, s, r, i))
  {
    hide FieldInv, RankInv, RequestInv, CounterInv, ServeInv;
    MarkKeeps(t, s, i);
    var s1 := MarkInterested(s, i);
    var c := s1.conn[i].(interestedPiece := r, requestSent := true);
    PutKeeps(t, s1, i, c);
    MarkPieceTaken(t, Put(s1, i, c), r, i);
  }

  lemma MarkPieceTaken(t: Torrent, s: State, r: nat, i: nat)
    requires Inv(t, s) && r < t.N() && r != 8 && s.status[r] == NotDownloaded
    ensures Inv(t, Log(s.(status := s.status[r := Downloading], ranking := s.ranking[r := TAKEN]),
      Requested(i, r, t.Length(r))))
  {
    var a := Requested(i, r, t.Length(r));
    var s' := Log(s.(status := s.status[r := Downloading], ranking := s.ranking[r := TAKEN]), a);
    forall p: nat
      ensures Requests(s'.log, p) == Requests(s.log, p) + (if p == r then 1 else 0)
        && StoredTotal(s'.log) == StoredTotal(s.log)
    {
      Appended(s.log, a, p);
    }
    HoldersAtMost(t, s.conn, r);
    Appended(s.log, a, r);
  }

  lemma EligibleHas(t: Torrent, s: State, r: nat, i: nat)
    requires Shape(t, s) && r < t.N() && i < MAX_CONN && Eligible(t, s, r, i)
    ensures HasPiece(t, s.conn[i], r) && r != 8 && s.status[r] == NotDownloaded
  {
    PositionEightIsInert(s.conn[i].bitField.value);
  }

  lemma {:induction false} ScanKeeps(t: Torrent, s: State, r: nat, i: nat)
    requires Inv(t, s) && r < t.N()
    ensures Inv(t, Scan(t, s, r, i))
    decreases |s.conn| - i
  {
    hide FieldInv, RankInv, RequestInv, CounterInv, ServeInv;
    if i >= |s.conn| {
    } else if !Eligible(t, s, r, i) {
      ScanKeeps(t, s, r, i + 1);
    } else if s.conn[i].peerChoking {
      MarkKeeps(t, s, i);
      ScanKeeps(t, MarkInterested(s, i), r, i + 1);
    } else if s.conn[i].requestSent {
      ScanKeeps(t, s, r, i + 1);
    } else {
      EligibleHas(t, s, r, i);
      RequestKeeps(t, s, r, i);
    }
  }

  lemma FindKeeps(t: Torrent, s: State, rnd: nat)
    requires Inv(t, s)
    ensures Inv(t, FindRarest(t, s, rnd))
  {
    hide FieldInv, RankInv, RequestInv, CounterInv, ServeInv;
    ScanKeeps(t, s, Rarest(s, rnd), 0);
  }

  lemma WantedIsNotEight(t: Torrent, s: State, bits: seq<bv8>)
    requires |s.status| == t.N() && |s.field| == |bits| == FieldSize(t.N())
    requires FirstWanted(t, s, bits, 0).Some?
    ensures FirstWanted(t, s, bits, 0).value != 8
  {
    if FirstWanted(t, s, bits, 0).value == 8 {
      PositionEightIsInert(bits);
    }
  }

  lemma BumpKeeps(t: Torrent, s: State, i: nat, bits: seq<bv8>)
    requires Inv(t, s) && i < MAX_CONN && |bits| == FieldSize(t.N())
    ensures Inv(t, Put(s, i, s.conn[i].(bitField := Some(bits))).(ranking := Bump(t, s.ranking, bits)))
  {
    var c := s.conn[i].(bitField := Some(bits));
    forall p: nat | p < t.N()
      ensures Bump(t, s.ranking, bits)[p] >= Holders(t, s.conn[i := c], p)
    {
      HoldersUpdate(t, s.conn, i, c, p);
    }
  }

  lemma BitFieldKeeps(t: Torrent, s: State, i: nat, bits: seq<bv8>, rnd: nat)
    requires Inv(t, s) && i < MAX_CONN
    ensures Inv(t, OnBitField(t, s, i, bits, rnd))
  {
    hide FieldInv, RankInv, RequestInv, CounterInv, ServeInv;
    if |bits| != FieldSize(t.N()) || !SpareClear(bits, t.N()) {
      CloseKeeps(t, s, i);
    } else {
      BumpKeeps(t, s, i, bits);
      var s1 := Put(s, i, s.conn[i].(bitField := Some(bits))).(ranking := Bump(t, s.ranking, bits));
      match FirstWanted(t, s1, bits, 0)
      case Some(p) =>
        WantedIsNotEight(t, s1, bits);
        var c := s1.conn[i].(amInterested := true, interestedPiece := p);
        PutKeeps(t, s1, i, c);
        LogKeeps(t, Put(s1, i, c), SaidInterested(i, true));
        FindKeeps(t, Log(Put(s1, i, c), SaidInterested(i, true)), rnd);
      case None =>
        var c := s1.conn[i].(amInterested := false);
        PutKeeps(t, s1, i, c);
        LogKeeps(t, Put(s1, i, c), SaidInterested(i, false));
    }
  }

  lemma HaveBumpKeeps(t: Torrent, s: State, i: nat, p: nat, bits: seq<bv8>)
    requires Inv(t, s) && i < MAX_CONN && p < t.N() && s.conn[i].bitField.Some?
    requires ByteOf(p) < FieldSize(t.N()) && bits == WithBit(s.conn[i].bitField.value, p)
    ensures Inv(t, Put(s, i, s.conn[i].(bitField := Some(bits))).(ranking := s.ranking[p := s.ranking[p] + 1]))
  {
    var c := s.conn[i].(bitField := Some(bits));
    var ranking, conn := s.ranking[p := s.ranking[p] + 1], s.conn[i := c];
    forall q: nat | q < t.N()
      ensures ranking[q] >= Holders(t, conn, q)
    {
      HoldersUpdate(t, s.conn, i, c, q);
      InBounds(t.N(), q);
      if p == 8 {
        PositionEightIsInert(s.conn[i].bitField.value);
      } else {
        GetAfterSet(s.conn[i].bitField.value, p, q);
      }
    }
  }

  lemma HaveKeeps(t: Torrent, s: State, i: nat, p: nat, rnd: nat)
    requires Inv(t, s) && i < MAX_CONN && p < t.N() && s.conn[i].bitField.Some?
    ensures Inv(t, OnHave(t, s, i, p, rnd))
  {
    hide FieldInv, RankInv, RequestInv, CounterInv, ServeInv;
    InBounds(t.N(), p);
    var bits := WithBit(s.conn[i].bitField.value, p);
    HaveBumpKeeps(t, s, i, p, bits);
    var s1 := Put(s, i, s.conn[i].(bitField := Some(bits))).(ranking := s.ranking[p := s.ranking[p] + 1]);
    LogKeeps(t, s1, SaidInterested(i, true));
    FindKeeps(t, Log(s1, SaidInterested(i, true)), rnd);
  }

  lemma FieldAfterStore(t: Torrent, s: State, p: nat)
    requires Shape(t, s) && FieldInv(t, s) && p < t.N() && p != 8 && ByteOf(p) < |s.field|
    ensures forall q: nat | q < t.N() ::
      ByteOf(q) < |WithBit(s.field, p)| && (Holds(WithBit(s.field, p), q) <==> s.status[p := Completed][q] == Completed)
  {
    forall q: nat | q < t.N()
      ensures ByteOf(q) < |WithBit(s.field, p)|
        && (Holds(WithBit(s.field, p), q) <==> s.status[p := Completed][q] == Completed)
    {
      InBounds(t.N(), q);
      GetAfterSet(s.field, p, q);
    }
  }

  lemma StoreCoreKeeps(t: Torrent, s: State, i: nat, p: nat, data: seq<byte>, file: seq<byte>)
    requires Inv(t, s) && p < t.N() && p != 8 && ByteOf(p) < |s.field|
    ensures Inv(t, Log(s.(file := file, downloaded := Int32(s.downloaded + |data|), left := Int32(s.left - |data|),
                          status := s.status[p := Completed], field := WithBit(s.field, p)), Stored(i, p, |data|)))
  {
    hide Holds, WithBit, Int32;
    var a := Stored(i, p, |data|);
    var s' := Log(s.(file := file, downloaded := Int32(s.downloaded + |data|), left := Int32(s.left - |data|),
                     status := s.status[p := Completed], field := WithBit(s.field, p)), a);
    forall q: nat
      ensures Requests(s'.log, q) == Requests(s.log, q)
    {
      Appended(s.log, a, q);
    }
    FieldAfterStore(t, s, p);
    WithBitSize(s.field, p);
    Appended(s.log, a, 0);
    Wrapped(StoredTotal(s.log), |data|);
    Wrapped(t.fileSize - StoredTotal(s.log), -|data|);
  }

  lemma WithBitSize(bits: seq<bv8>, p: nat)
    requires ByteOf(p) < |bits|
    ensures |WithBit(bits, p)| == |bits|
  {
  }

  lemma StoreKeeps(t: Torrent, s: State, i: nat, p: nat, data: seq<byte>)
    requires Inv(t, s) && i < MAX_CONN && p < t.N() && p != 8
    ensures Inv(t, Store(t, s, i, p, data))
  {
    hide FieldInv, RankInv, RequestInv, CounterInv, ServeInv;
    InBounds(t.N(), p);
    var c := s.conn[i].(requestSent := false);
    PutKeeps(t, s, i, c);
    var file := Write(s.file, t.Start(p), data);
    StoreCoreKeeps(t, Put(s, i, c), i, p, data, file);
    var s2 := Put(s, i, c).(file := file, downloaded := Int32(s.downloaded + |data|), left := Int32(s.left - |data|),
                            status := s.status[p := Completed], field := WithBit(s.field, p));
    LogKeeps(t, Log(s2, Stored(i, p, |data|)), SaidHave(p));
  }

  lemma AfterStoreKeeps(t: Torrent, s: State, i: nat, rnd: nat)
    requires Inv(t, s) && i < MAX_CONN
    requires !AllCompleted(s.status) ==> s.conn[i].bitField.Some?
    ensures Inv(t, AfterStore(t, s, i, rnd))
  {
    hide FieldInv, RankInv, RequestInv, CounterInv, ServeInv;
    if AllCompleted(s.status) {
      LogKeeps(t, s, SaidInterested(i, false));
      AnnounceKeeps(t, Log(s, SaidInterested(i, false)));
    } else {
      var c := s.conn[i].(amInterested := true);
      PutKeeps(t, s, i, c);
      FindKeeps(t, Put(s, i, c), rnd);
      var c' := s.conn[i].(amInterested := false);
      PutKeeps(t, s, i, c');
      LogKeeps(t, Put(s, i, c'), SaidInterested(i, false));
    }
  }

  lemma PieceKeeps(t: Torrent, s: State, i: nat, p: nat, data: seq<byte>, rnd: nat)
    requires Inv(t, s) && Permitted(t, s, Receive(i, Piece(p, 0, data), rnd))
    ensures Inv(t, OnPiece(t, s, i, p, data, rnd))
  {
    hide FieldInv, RankInv, RequestInv, CounterInv, Store, AfterStore;
    if !Accepts(t, s, i, p, data) {
      CloseKeeps(t, s, i);
    } else {
      StoreKeeps(t, s, i, p, data);
      AfterStoreKeeps(t, Store(t, s, i, p, data), i, rnd);
    }
  }

  lemma AnnounceKeeps(t: Torrent, s: State)
    requires Inv(t, s) && AllCompleted(s.status)
    ensures Inv(t, Log(s, AnnouncedCompleted))
  {
    forall p: nat
      ensures Requests(Log(s, AnnouncedCompleted).log, p) == Requests(s.log, p)
    {
      Appended(s.log, AnnouncedCompleted, p);
    }
    Appended(s.log, AnnouncedCompleted, 0);
  }

  /** Nothing can be read back from the output file. */
  lemma NothingRead(file: seq<byte>, offset: nat, count: nat)
    ensures Fread(OUTPUT_MODE, file, offset, count) == []
  {
  }

  lemma SentKeeps(t: Torrent, s: State, i: nat, p: nat, begin: nat)
    requires Inv(t, s) && p < t.N() && s.status[p] == Completed
    ensures Inv(t, Log(s, SentPiece(i, p, begin, 0)))
  {
    hide FieldInv, RankInv;
    var a := SentPiece(i, p, begin, 0);
    forall q: nat
      ensures Requests(Log(s, a).log, q) == Requests(s.log, q)
    {
      Appended(s.log, a, q);
    }
    Appended(s.log, a, 0);
    assert FieldInv(t, Log(s, a)) && RankInv(t, Log(s, a)) by {
      SameTables(t, s, Log(s, a));
    }
  }

  lemma SameTables(t: Torrent, s: State, s': State)
    requires Shape(t, s) && Shape(t, s') && FieldInv(t, s) && RankInv(t, s)
    requires s'.field == s.field && s'.status == s.status && s'.ranking == s.ranking && s'.conn == s.conn
    ensures FieldInv(t, s') && RankInv(t, s')
  {
  }

  lemma ServeKeeps(t: Torrent, s: State, i: nat, p: nat, begin: nat, length: nat)
    requires Inv(t, s) && i < MAX_CONN
    ensures Inv(t, OnRequest(t, s, i, p, begin, length))
  {
    if OnRequest(t, s, i, p, begin, length) != s {
      NothingRead(s.file, t.Start(p) + begin, length);
      assert p < t.N() && s.status[p] == Completed by {
        hide Fread;
      }
      hide *;
      SentKeeps(t, s, i, p, begin);
    }
  }

  lemma MessageKeeps(t: Torrent, s: State, i: nat, m: Message, rnd: nat)
    requires Inv(t, s) && Permitted(t, s, Receive(i, m, rnd))
    ensures Inv(t, OnMessage(t, s, i, m, rnd))
  {
    hide FieldInv, RankInv, RequestInv, CounterInv, ServeInv;
    var c := s.conn[i];
    match m
    case KeepAlive =>
    case Hangup => CloseKeeps(t, s, i);
    case Choke => PutKeeps(t, s, i, c.(peerChoking := true));
    case Unchoke =>
      PutKeeps(t, s, i, c.(peerChoking := false));
      FindKeeps(t, Put(s, i, c.(peerChoking := false)), rnd);
    case Interested =>
      PutKeeps(t, s, i, c.(peerInterested := true, amChoking := false));
      LogKeeps(t, Put(s, i, c.(peerInterested := true, amChoking := false)), SaidUnchoke(i));
    case NotInterested => PutKeeps(t, s, i, c.(peerInterested := false));
    case Have(p) => HaveKeeps(t, s, i, p, rnd);
    case BitFieldMsg(bits) => BitFieldKeeps(t, s, i, bits, rnd);
    case Request(p, begin, length) => ServeKeeps(t, s, i, p, begin, length);
    case Piece(p, _, data) => PieceKeeps(t, s, i, p, data, rnd);
    case CutPiece => CloseKeeps(t, s, i);
    case Cancel(_, _, _) =>
    case Unknown => CloseKeeps(t, s, i);
  }

  lemma StepKeeps(t: Torrent, s: State, e: Event)
    requires Inv(t, s) && Permitted(t, s, e)
    ensures Inv(t, Step(t, s, e))
  {
    hide FieldInv, RankInv, RequestInv, CounterInv, ServeInv;
    match e
    case Receive(i, m, rnd) => MessageKeeps(t, s, i, m, rnd);
    case Accept(outcome) =>
      var free := FirstFree(s.conn, 0);
      if free.Some? {
        var i := free.value;
        OpenKeeps(t, s, i);
        var s1 := Open(s, i);
        CloseKeeps(t, s1, i);
        PutKeeps(t, s1, i, s1.conn[i].(bitField := None));
      }
    case Connect(outcome) =>
      var i := FirstFree(s.conn, 0).value;
      OpenKeeps(t, s, i);
      CloseKeeps(t, Open(s, i), i);
  }

  lemma {:induction false} RunKeeps(t: Torrent, s: State, es: seq<Event>)
    requires Inv(t, s) && Allowed(t, s, es)
    ensures Inv(t, Run(t, s, es))
    decreases |es|
  {
    hide FieldInv, RankInv, RequestInv, CounterInv, ServeInv;
    if es != [] {
      StepKeeps(t, s, es[0]);
      RunKeeps(t, Step(t, s, es[0]), es[1..]);
    }
  }
}
