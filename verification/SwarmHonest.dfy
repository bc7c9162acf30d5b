/**
 What holds in every run in which peers send pieces only as asked: a PIECE for p arrives only on a
 connection with an unanswered REQUEST for p, and has the requested length. Its contents may be wrong.
 */
module SwarmHonest {
  import opened Bytes
  import opened BitField
  import opened Geometry
  import opened Swarm
  import opened SwarmInvariants
  import Sha1Spec

  // ---------- requests in flight, read off the actions of the program ----------

  /** The piece requested on the current connection of slot i and not yet answered. */
  function Outstanding(log: seq<Action>, i: nat): Option<nat> {
    if log == [] then None
    else
      match log[|log| - 1]
      case Requested(j, p, _) => if j == i then Some(p) else Outstanding(log[..|log| - 1], i)
      case Opened(j) => if j == i then None else Outstanding(log[..|log| - 1], i)
      case Closed(j) => if j == i then None else Outstanding(log[..|log| - 1], i)
      case Stored(j, _, _) => if j == i then None else Outstanding(log[..|log| - 1], i)
      case _ => Outstanding(log[..|log| - 1], i)
  }

  /** The piece last requested through slot i and not stored since, on this connection or an earlier one. */
  function Asked(log: seq<Action>, i: nat): Option<nat> {
    if log == [] then None
    else
      match log[|log| - 1]
      case Requested(j, p, _) => if j == i then Some(p) else Asked(log[..|log| - 1], i)
      case Stored(j, _, _) => if j == i then None else Asked(log[..|log| - 1], i)
      case _ => Asked(log[..|log| - 1], i)
  }

  function Announces(log: seq<Action>): nat {
    if log == [] then 0
    else Announces(log[..|log| - 1]) + if log[|log| - 1].AnnouncedCompleted? then 1 else 0
  }

  lemma LogStep(log: seq<Action>, a: Action, i: nat)
    ensures Outstanding(log + [a], i)
         == if a.Requested? && a.slot == i then Some(a.piece)
            else if (a.Opened? || a.Closed? || a.Stored?) && a.slot == i then None
            else Outstanding(log, i)
    ensures Asked(log + [a], i)
         == if a.Requested? && a.slot == i then Some(a.piece)
            else if a.Stored? && a.slot == i then None
            else Asked(log, i)
    ensures Announces(log + [a]) == Announces(log) + if a.AnnouncedCompleted? then 1 else 0
  {
    assert (log + [a])[..|log|] == log;
  }

  // ---------- honest peers ----------

  predicate Honest(t: Torrent, s: State, e: Event)
    requires t.pieceSize > 0
  {
    e.Receive? && e.msg.Piece? ==>
      Outstanding(s.log, e.slot) == Some(e.msg.piece) && |e.msg.data| == t.Length(e.msg.piece)
  }

  ghost predicate AllHonest(t: Torrent, s: State, es: seq<Event>)
    requires Shape(t, s) && Allowed(t, s, es)
    decreases |es|
  {
    es == [] || (Honest(t, s, es[0]) && AllHonest(t, Step(t, s, es[0]), es[1..]))
  }

  ghost predicate IsHonestRun(t: Torrent, es: seq<Event>) {
    IsRun(t, es) && (InitShape(t); AllHonest(t, Init(t), es))
  }

  // ---------- counting ----------

  function CountDownloading(status: seq<Status>): nat {
    if status == [] then 0
    else CountDownloading(status[..|status| - 1]) + if status[|status| - 1] == Downloading then 1 else 0
  }

  function CountBusy(conn: seq<Slot>): nat {
    if conn == [] then 0
    else CountBusy(conn[..|conn| - 1]) + if conn[|conn| - 1].requestSent then 1 else 0
  }

  /** Total length of the completed pieces. */
  function CompletedBytes(t: Torrent, status: seq<Status>): nat
    requires t.pieceSize > 0
  {
    if status == [] then 0
    else
      var k := |status| - 1;
      CompletedBytes(t, status[..k]) + if status[k] == Completed then t.Length(k) else 0
  }

  /** Total length of the pieces not completed. */
  function MissingBytes(t: Torrent, status: seq<Status>): nat
    requires t.pieceSize > 0
  {
    if status == [] then 0
    else
      var k := |status| - 1;
      MissingBytes(t, status[..k]) + if status[k] != Completed then t.Length(k) else 0
  }

  lemma {:induction false} StatusUpdate(t: Torrent, status: seq<Status>, p: nat, x: Status)
    requires p < |status| && t.pieceSize > 0
    ensures CountDownloading(status[p := x])
         == CountDownloading(status) - (if status[p] == Downloading then 1 else 0) + if x == Downloading then 1 else 0
    ensures CompletedBytes(t, status[p := x])
         == CompletedBytes(t, status) - (if status[p] == Completed then t.Length(p) else 0)
          + if x == Completed then t.Length(p) else 0
  {
    var k := |status| - 1;
    if p == k {
      assert status[p := x][..k] == status[..k];
    } else {
      assert status[p := x][..k] == status[..k][p := x];
      StatusUpdate(t, status[..k], p, x);
    }
  }

  lemma {:induction false} BusyUpdate(conn: seq<Slot>, i: nat, c: Slot)
    requires i < |conn|
    ensures CountBusy(conn[i := c])
         == CountBusy(conn) - (if conn[i].requestSent then 1 else 0) + if c.requestSent then 1 else 0
  {
    var k := |conn| - 1;
    if i == k {
      assert conn[i := c][..k] == conn[..k];
    } else {
      assert conn[i := c][..k] == conn[..k][i := c];
      BusyUpdate(conn[..k], i, c);
    }
  }

  lemma {:induction false} BusyAtMost(conn: seq<Slot>)
    ensures CountBusy(conn) <= |conn|
  {
    if conn != [] {
      BusyAtMost(conn[..|conn| - 1]);
    }
  }

  lemma {:induction false} BytesSplit(t: Torrent, status: seq<Status>)
    requires t.pieceSize > 0
    ensures CompletedBytes(t, status) + MissingBytes(t, status) == TotalLength(t.fileSize, t.pieceSize, |status|)
  {
    if status != [] {
      BytesSplit(t, status[..|status| - 1]);
    }
  }

  lemma {:induction false} NothingMissingIff(t: Torrent, status: seq<Status>)
    requires t.Valid() && |status| <= t.N()
    ensures MissingBytes(t, status) == 0 <==> AllCompleted(status)
  {
    if status != [] {
      var k := |status| - 1;
      NothingMissingIff(t, status[..k]);
      PieceEnd(t.fileSize, t.pieceSize, k);
      assert AllCompleted(status) <==> AllCompleted(status[..k]) && status[k] == Completed by {
        assert forall p | 0 <= p < k :: status[p] == status[..k][p];
      }
    }
  }

  lemma {:induction false} InitialCounts(t: Torrent, n: nat, m: nat)
    requires t.pieceSize > 0
    ensures CountDownloading(seq(n, _ => NotDownloaded)) == 0 && CompletedBytes(t, seq(n, _ => NotDownloaded)) == 0
    ensures CountBusy(seq(m, _ => BLANK)) == 0
    decreases n + m
  {
    if n > 0 {
      assert seq(n, _ => NotDownloaded)[..n - 1] == seq(n - 1, _ => NotDownloaded);
      InitialCounts(t, n - 1, m);
    } else if m > 0 {
      assert seq(m, _ => BLANK)[..m - 1] == seq(m - 1, _ => BLANK);
      InitialCounts(t, n, m - 1);
    }
  }

  // ---------- the invariant ----------

  /** The request flags, the status table and the requests sent agree, across disconnects and reuse of slots. */
  ghost predicate AskInv(t: Torrent, s: State)
    requires Shape(t, s)
  {
    && (forall i: nat | i < MAX_CONN :: s.conn[i].requestSent <==> Asked(s.log, i).Some?)
    && (forall i: nat | i < MAX_CONN && Asked(s.log, i).Some? ::
          Asked(s.log, i).value < t.N() && s.status[Asked(s.log, i).value] == Downloading)
    && (forall i: nat, j: nat | i < j < MAX_CONN && Asked(s.log, i).Some? :: Asked(s.log, i) != Asked(s.log, j))
    && (forall i: nat | i < MAX_CONN && Outstanding(s.log, i).Some? ::
          Asked(s.log, i) == Outstanding(s.log, i) && s.conn[i].inUse && s.conn[i].bitField.Some?)
    && CountDownloading(s.status) == CountBusy(s.conn)
  }

  /** The file holds, at the place of piece p, bytes with the hash that the torrent gives for p. */
  ghost predicate Verified(t: Torrent, file: seq<byte>, p: nat)
    requires t.Valid() && p < t.N()
  {
    var start := t.Start(p);
    && start + t.Length(p) <= |file|
    && Sha1Spec.Digest(file[start..start + t.Length(p)]) == t.hashes[p]
  }

  ghost predicate FileInv(t: Torrent, s: State)
    requires Shape(t, s)
  {
    && |s.file| <= t.fileSize
    && (forall p: nat | p < t.N() && s.status[p] == Completed :: Verified(t, s.file, p))
  }

  /** Everything but the announcement. */
  ghost predicate Core(t: Torrent, s: State) {
    && Inv(t, s)
    && AskInv(t, s)
    && FileInv(t, s)
    && StoredTotal(s.log) == CompletedBytes(t, s.status)
  }

  ghost predicate HonestInv(t: Torrent, s: State) {
    && Core(t, s)
    && Announces(s.log) == if AllCompleted(s.status) then 1 else 0
  }

  lemma InitHonest(t: Torrent)
    requires t.Valid()
    ensures HonestInv(t, Init(t))
  {
    InitInv(t);
    InitialCounts(t, t.N(), MAX_CONN);
    assert Init(t).status[0] == NotDownloaded;
  }

  // ---------- the kinds of change ----------

  /** Slot i and the log change; the request flag does not, and a connection with an unanswered request stays up. */
  ghost predicate Calm(t: Torrent, s: State, s': State, i: nat) {
    && i < |s.conn| == |s'.conn|
    && s'.status == s.status && s'.file == s.file
    && s'.conn == s.conn[i := s'.conn[i]]
    && s'.conn[i].requestSent == s.conn[i].requestSent
    && (s'.log == s.log || exists a :: QuietAction(a) && s'.log == s.log + [a])
    && (Outstanding(s'.log, i).None?
       || ((s.conn[i].inUse ==> s'.conn[i].inUse) && (s.conn[i].bitField.Some? ==> s'.conn[i].bitField.Some?)))
  }

  lemma CalmLog(log: seq<Action>, log': seq<Action>)
    requires log' == log || exists a :: QuietAction(a) && log' == log + [a]
    ensures forall j: nat :: Asked(log', j) == Asked(log, j)
    ensures forall j: nat :: Outstanding(log', j) == None || Outstanding(log', j) == Outstanding(log, j)
    ensures Announces(log') == Announces(log) && StoredTotal(log') == StoredTotal(log)
  {
    if log' != log {
      var a :| QuietAction(a) && log' == log + [a];
      forall j: nat
        ensures Asked(log', j) == Asked(log, j)
        ensures Outstanding(log', j) == None || Outstanding(log', j) == Outstanding(log, j)
      {
        LogStep(log, a, j);
      }
      LogStep(log, a, 0);
      Appended(log, a, 0);
    }
  }

  lemma CalmKeeps(t: Torrent, s: State, s': State, i: nat)
    requires Core(t, s) && Inv(t, s') && Calm(t, s, s', i)
    ensures Core(t, s') && Announces(s'.log) == Announces(s.log)
  {
    hide FieldInv, EightInv, RankInv, RequestInv, CounterInv, ServeInv, ChokeInv, Verified;
    CalmLog(s.log, s'.log);
    BusyUpdate(s.conn, i, s'.conn[i]);
  }

  lemma CalmPut(t: Torrent, s: State, i: nat, c: Slot)
    requires Core(t, s) && i < MAX_CONN
    requires c.bitField == s.conn[i].bitField && c.inUse == s.conn[i].inUse && c.requestSent == s.conn[i].requestSent
    requires c.interestedPiece < t.N() && c.interestedPiece != 8
    requires c.peerInterested ==> !c.amChoking
    ensures Core(t, Put(s, i, c)) && Announces(Put(s, i, c).log) == Announces(s.log)
  {
    hide AskInv, FileInv;
    PutKeeps(t, s, i, c);
    CalmKeeps(t, s, Put(s, i, c), i);
  }

  lemma CalmAction(t: Torrent, s: State, a: Action)
    requires Core(t, s) && QuietAction(a) && !a.Closed? && !a.Opened?
    ensures Core(t, Log(s, a)) && Announces(Log(s, a).log) == Announces(s.log)
  {
    hide AskInv, FileInv;
    LogKeeps(t, s, a);
    assert s.conn == s.conn[0 := s.conn[0]];
    CalmKeeps(t, s, Log(s, a), 0);
  }

  lemma CloseCalm(t: Torrent, s: State, i: nat)
    requires Core(t, s) && i < MAX_CONN
    ensures Core(t, Close(s, i)) && Announces(Close(s, i).log) == Announces(s.log)
  {
    hide AskInv, FileInv;
    CloseKeeps(t, s, i);
    LogStep(s.log, Closed(i), i);
    CalmKeeps(t, s, Close(s, i), i);
  }

  lemma OpenCalm(t: Torrent, s: State, i: nat)
    requires Core(t, s) && i < MAX_CONN
    ensures Core(t, Open(s, i)) && Announces(Open(s, i).log) == Announces(s.log)
      && Outstanding(Open(s, i).log, i) == None
  {
    hide AskInv, FileInv;
    OpenKeeps(t, s, i);
    LogStep(s.log, Opened(i), i);
    CalmKeeps(t, s, Open(s, i), i);
  }

  lemma MarkCalm(t: Torrent, s: State, i: nat)
    requires Core(t, s) && i < MAX_CONN
    ensures Core(t, MarkInterested(s, i)) && Announces(MarkInterested(s, i).log) == Announces(s.log)
  {
    hide AskInv, FileInv;
    if !s.conn[i].amInterested {
      var c := s.conn[i].(amInterested := true);
      CalmPut(t, s, i, c);
      CalmAction(t, Put(s, i, c), SaidInterested(i, true));
    }
  }

  lemma RequestLog(log: seq<Action>, i: nat, r: nat, length: nat)
    ensures var log' := log + [Requested(i, r, length)];
      && Announces(log') == Announces(log) && StoredTotal(log') == StoredTotal(log)
      && forall j: nat :: Asked(log', j) == (if j == i then Some(r) else Asked(log, j))
                       && Outstanding(log', j) == if j == i then Some(r) else Outstanding(log, j)
  {
    var a := Requested(i, r, length);
    forall j: nat
      ensures Asked(log + [a], j) == if j == i then Some(r) else Asked(log, j)
      ensures Outstanding(log + [a], j) == if j == i then Some(r) else Outstanding(log, j)
    {
      LogStep(log, a, j);
    }
    LogStep(log, a, 0);
    Appended(log, a, 0);
  }

  lemma RequestAsk(t: Torrent, s: State, s': State, r: nat, i: nat)
    requires Shape(t, s) && Shape(t, s') && AskInv(t, s) && FileInv(t, s) && r < t.N() && i < MAX_CONN
    requires s.status[r] == NotDownloaded && !s.conn[i].requestSent && s.conn[i].inUse && s.conn[i].bitField.Some?
    requires s'.status == s.status[r := Downloading] && s'.file == s.file
    requires s'.conn == s.conn[i := s.conn[i].(interestedPiece := r, requestSent := true)]
    requires s'.log == s.log + [Requested(i, r, t.Length(r))]
    ensures AskInv(t, s') && FileInv(t, s') && CompletedBytes(t, s'.status) == CompletedBytes(t, s.status)
    ensures Announces(s'.log) == Announces(s.log) && StoredTotal(s'.log) == StoredTotal(s.log)
  {
    hide Verified;
    RequestLog(s.log, i, r, t.Length(r));
    StatusUpdate(t, s.status, r, Downloading);
    BusyUpdate(s.conn, i, s'.conn[i]);
  }

  lemma RequestCore(t: Torrent, s: State, r: nat, i: nat)
    requires Core(t, s) && r < t.N() && i < MAX_CONN && Eligible(t, s, r, i) && !s.conn[i].requestSent
    ensures Core(t, SendRequest(t, s, r, i)) && Announces(SendRequest(t, s, r, i).log) == Announces(s.log)
  {
    hide FieldInv, EightInv, RankInv, RequestInv, CounterInv, ServeInv, ChokeInv, AskInv, FileInv;
    EligibleHas(t, s, r, i);
    RequestKeeps(t, s, r, i);
    MarkCalm(t, s, i);
    RequestAsk(t, MarkInterested(s, i), SendRequest(t, s, r, i), r, i);
  }

  lemma {:induction false} ScanHonest(t: Torrent, s: State, r: nat, i: nat)
    requires Core(t, s) && r < t.N()
    ensures Core(t, Scan(t, s, r, i)) && Announces(Scan(t, s, r, i).log) == Announces(s.log)
    ensures AllCompleted(Scan(t, s, r, i).status) <==> AllCompleted(s.status)
    decreases |s.conn| - i
  {
    hide AskInv, FileInv, FieldInv, EightInv, RankInv, RequestInv, CounterInv, ServeInv, ChokeInv;
    if i >= |s.conn| {
    } else if !Eligible(t, s, r, i) {
      ScanHonest(t, s, r, i + 1);
    } else if s.conn[i].peerChoking {
      MarkCalm(t, s, i);
      ScanHonest(t, MarkInterested(s, i), r, i + 1);
    } else if s.conn[i].requestSent {
      ScanHonest(t, s, r, i + 1);
    } else {
      RequestCore(t, s, r, i);
      assert SendRequest(t, s, r, i).status[r] == Downloading && s.status[r] == NotDownloaded;
    }
  }

  lemma FindHonest(t: Torrent, s: State, rnd: nat)
    requires HonestInv(t, s)
    ensures HonestInv(t, FindRarest(t, s, rnd))
  {
    hide AskInv, FileInv, FieldInv, EightInv, RankInv, RequestInv, CounterInv, ServeInv, ChokeInv;
    ScanHonest(t, s, Rarest(s, rnd), 0);
  }

  /** Storing a bit field, with any change of rankings that keeps the general invariant. */
  lemma FieldHonest(t: Torrent, s: State, i: nat, bits: seq<bv8>, ranking: seq<int>)
    requires HonestInv(t, s) && i < MAX_CONN
    requires Inv(t, Put(s, i, s.conn[i].(bitField := Some(bits))).(ranking := ranking))
    ensures HonestInv(t, Put(s, i, s.conn[i].(bitField := Some(bits))).(ranking := ranking))
  {
    hide AskInv, FileInv, FieldInv, EightInv, RankInv, RequestInv, CounterInv, ServeInv, ChokeInv;
    CalmKeeps(t, s, Put(s, i, s.conn[i].(bitField := Some(bits))).(ranking := ranking), i);
  }

  lemma BitFieldHonest(t: Torrent, s: State, i: nat, bits: seq<bv8>, rnd: nat)
    requires HonestInv(t, s) && i < MAX_CONN
    ensures HonestInv(t, OnBitField(t, s, i, bits, rnd))
  {
    hide AskInv, FileInv, FieldInv, RankInv, RequestInv, CounterInv, ServeInv, FindRarest, Holds, Bump;
    if |bits| != FieldSize(t.N()) || !SpareClear(bits, t.N()) {
      CloseCalm(t, s, i);
    } else {
      BumpKeeps(t, s, i, bits);
      FieldHonest(t, s, i, bits, Bump(t, s.ranking, bits));
      var s1 := Put(s, i, s.conn[i].(bitField := Some(bits))).(ranking := Bump(t, s.ranking, bits));
      match FirstWanted(t, s1, bits, 0)
      case Some(p) =>
        WantedIsNotEight(t, s1, bits);
        var c := s1.conn[i].(amInterested := true, interestedPiece := p);
        CalmPut(t, s1, i, c);
        CalmAction(t, Put(s1, i, c), SaidInterested(i, true));
        FindHonest(t, Log(Put(s1, i, c), SaidInterested(i, true)), rnd);
      case None =>
        var c := s1.conn[i].(amInterested := false);
        CalmPut(t, s1, i, c);
        CalmAction(t, Put(s1, i, c), SaidInterested(i, false));
    }
  }

  lemma HaveHonest(t: Torrent, s: State, i: nat, p: nat, rnd: nat)
    requires HonestInv(t, s) && i < MAX_CONN && p < t.N() && s.conn[i].bitField.Some?
    ensures HonestInv(t, OnHave(t, s, i, p, rnd))
  {
    hide AskInv, FileInv, FieldInv, RankInv, RequestInv, CounterInv, ServeInv, FindRarest, Holds, Eligible;
    InBounds(t.N(), p);
    var bits := WithBit(s.conn[i].bitField.value, p);
    var ranking := s.ranking[p := s.ranking[p] + 1];
    HaveBumpKeeps(t, s, i, p, bits);
    FieldHonest(t, s, i, bits, ranking);
    var s1 := Put(s, i, s.conn[i].(bitField := Some(bits))).(ranking := ranking);
    CalmAction(t, s1, SaidInterested(i, true));
    FindHonest(t, Log(s1, SaidInterested(i, true)), rnd);
  }

  // ---------- storing a piece ----------

  /** A write puts its bytes in place, and extends the file no further than they reach. */
  lemma WriteHere(file: seq<byte>, start: nat, data: seq<byte>, limit: nat)
    requires start + |data| <= limit && |file| <= limit && data != []
    ensures |Write(file, start, data)| <= limit && start + |data| <= |Write(file, start, data)|
    ensures Write(file, start, data)[start..start + |data|] == data
  {
  }

  /** A write of a whole piece leaves the places of the other pieces alone. */
  lemma WriteElsewhere(t: Torrent, file: seq<byte>, p: nat, data: seq<byte>, q: nat)
    requires t.Valid() && p < t.N() && |data| == t.Length(p)
    requires q < t.N() && q != p && Verified(t, file, q)
    ensures Verified(t, Write(file, t.Start(p), data), q)
  {
    hide PieceCount, RequestLength, Write, Sha1Spec.Digest;
    if q < p {
      PiecesDisjoint(t.fileSize, t.pieceSize, q, p);
      WriteAfter(file, t.Start(p), data, t.Start(q), t.Length(q));
    } else {
      PiecesDisjoint(t.fileSize, t.pieceSize, p, q);
      WriteBefore(file, t.Start(p), data, t.Start(q), t.Length(q));
    }
  }

  lemma WriteAfter(file: seq<byte>, start: nat, data: seq<byte>, from: nat, len: nat)
    requires from + len <= start && from + len <= |file|
    ensures from + len <= |Write(file, start, data)|
      && Write(file, start, data)[from..from + len] == file[from..from + len]
  {
  }

  lemma WriteBefore(file: seq<byte>, start: nat, data: seq<byte>, from: nat, len: nat)
    requires start + |data| <= from && from + len <= |file|
    ensures from + len <= |Write(file, start, data)|
      && Write(file, start, data)[from..from + len] == file[from..from + len]
  {
  }

  /** A piece that an honest peer sends and the client stores was in flight, and the table of requests follows. */
  lemma StoreLog(log: seq<Action>, i: nat, p: nat, length: nat)
    ensures var log' := log + [Stored(i, p, length)] + [SaidHave(p)];
      && Announces(log') == Announces(log)
      && StoredTotal(log') == StoredTotal(log) + length
      && forall j: nat :: Asked(log', j) == (if j == i then None else Asked(log, j))
                       && Outstanding(log', j) == if j == i then None else Outstanding(log, j)
  {
    var a := Stored(i, p, length);
    forall j: nat
      ensures Asked(log + [a] + [SaidHave(p)], j) == if j == i then None else Asked(log, j)
      ensures Outstanding(log + [a] + [SaidHave(p)], j) == if j == i then None else Outstanding(log, j)
    {
      LogStep(log, a, j);
      LogStep(log + [a], SaidHave(p), j);
    }
    LogStep(log, a, 0);
    LogStep(log + [a], SaidHave(p), 0);
    Appended(log, a, 0);
    Appended(log + [a], SaidHave(p), 0);
  }

  /** The parts of the state after Store that the table of requests depends on. */
  lemma StoreParts(t: Torrent, s: State, i: nat, p: nat, data: seq<byte>)
    requires Shape(t, s) && i < MAX_CONN && p < t.N()
    ensures var s' := Store(t, s, i, p, data);
      && s'.file == Write(s.file, t.Start(p), data)
      && s'.log == s.log + [Stored(i, p, |data|)] + [SaidHave(p)]
  {
  }

  /** A piece that an honest peer sends and the client stores was in flight, and the table of requests follows. */
  lemma StoreAsk(t: Torrent, s: State, i: nat, p: nat, data: seq<byte>)
    requires Shape(t, s) && AskInv(t, s) && i < MAX_CONN && p < t.N() && Outstanding(s.log, i) == Some(p)
    ensures s.status[p] == Downloading
    ensures AskInv(t, Store(t, s, i, p, data))
  {
    hide Store;
    var s' := Store(t, s, i, p, data);
    StoreParts(t, s, i, p, data);
    StoreLog(s.log, i, p, |data|);
    StatusUpdate(t, s.status, p, Completed);
    BusyUpdate(s.conn, i, s.conn[i].(requestSent := false));
    assert s.conn[i].requestSent;
  }

  lemma StoreFile(t: Torrent, s: State, i: nat, p: nat, data: seq<byte>)
    requires Shape(t, s) && FileInv(t, s) && i < MAX_CONN && Accepts(t, s, i, p, data) && |data| == t.Length(p)
    ensures FileInv(t, Store(t, s, i, p, data))
  {
    hide Write, Store, Sha1Spec.Digest, PieceCount, RequestLength;
    StoreParts(t, s, i, p, data);
    var s' := Store(t, s, i, p, data);
    PieceEnd(t.fileSize, t.pieceSize, p);
    WriteHere(s.file, t.Start(p), data, t.fileSize);
    forall q: nat | q < t.N() && s'.status[q] == Completed
      ensures Verified(t, s'.file, q)
    {
      if q != p {
        WriteElsewhere(t, s.file, p, data, q);
      }
    }
  }

  lemma StoreHonest(t: Torrent, s: State, i: nat, p: nat, data: seq<byte>)
    requires HonestInv(t, s) && i < MAX_CONN && Accepts(t, s, i, p, data)
    requires Outstanding(s.log, i) == Some(p) && |data| == t.Length(p)
    ensures Core(t, Store(t, s, i, p, data)) && Announces(Store(t, s, i, p, data).log) == 0
  {
    hide AskInv, FileInv, FieldInv, RankInv, RequestInv, CounterInv, ServeInv, Store, Sha1Spec.Digest, RequestLength,
         PieceCount;
    assert p != 8;
    StoreKeeps(t, s, i, p, data);
    StoreParts(t, s, i, p, data);
    StoreLog(s.log, i, p, |data|);
    StoreAsk(t, s, i, p, data);
    StoreFile(t, s, i, p, data);
    StatusUpdate(t, s.status, p, Completed);
  }

  lemma AnnounceHonest(t: Torrent, s: State)
    requires Core(t, s) && AllCompleted(s.status) && Announces(s.log) == 0
    ensures HonestInv(t, Log(s, AnnouncedCompleted))
  {
    hide FieldInv, EightInv, RankInv, RequestInv, CounterInv, ServeInv, ChokeInv, Verified;
    AnnounceKeeps(t, s);
    var s' := Log(s, AnnouncedCompleted);
    forall j: nat
      ensures Asked(s'.log, j) == Asked(s.log, j) && Outstanding(s'.log, j) == Outstanding(s.log, j)
    {
      LogStep(s.log, AnnouncedCompleted, j);
    }
    LogStep(s.log, AnnouncedCompleted, 0);
    Appended(s.log, AnnouncedCompleted, 0);
  }

  lemma AfterStoreHonest(t: Torrent, s: State, i: nat, rnd: nat)
    requires Core(t, s) && i < MAX_CONN && Announces(s.log) == 0
    requires !AllCompleted(s.status) ==> s.conn[i].bitField.Some?
    ensures HonestInv(t, AfterStore(t, s, i, rnd))
  {
    hide AskInv, FileInv, FieldInv, RankInv, RequestInv, CounterInv, ServeInv, FindRarest, Holds;
    if AllCompleted(s.status) {
      CalmAction(t, s, SaidInterested(i, false));
      AnnounceHonest(t, Log(s, SaidInterested(i, false)));
    } else {
      var c := s.conn[i].(amInterested := true);
      CalmPut(t, s, i, c);
      FindHonest(t, Put(s, i, c), rnd);
      var c' := s.conn[i].(amInterested := false);
      CalmPut(t, s, i, c');
      CalmAction(t, Put(s, i, c'), SaidInterested(i, false));
    }
  }

  lemma PieceHonest(t: Torrent, s: State, i: nat, p: nat, data: seq<byte>, rnd: nat)
    requires HonestInv(t, s) && Permitted(t, s, Receive(i, Piece(p, 0, data), rnd))
    requires Outstanding(s.log, i) == Some(p) && |data| == t.Length(p)
    ensures HonestInv(t, OnPiece(t, s, i, p, data, rnd))
  {
    hide AskInv, FileInv, FieldInv, EightInv, RankInv, RequestInv, CounterInv, ServeInv, ChokeInv, Store, AfterStore,
         FieldThere, AllCompleted, Sha1Spec.Digest, RequestLength;
    if !Accepts(t, s, i, p, data) {
      CloseCalm(t, s, i);
      CloseSameStatus(s, i);
    } else {
      FieldStillThere(t, s, i, p, data);
      StoreHonest(t, s, i, p, data);
      AfterStoreHonest(t, Store(t, s, i, p, data), i, rnd);
    }
  }

  /** A PIECE from an honest peer never finds the slot without a bit field. */
  lemma HonestPieceIsPermitted(t: Torrent, s: State, i: nat, p: nat, begin: nat, data: seq<byte>, rnd: nat)
    requires HonestInv(t, s) && i < MAX_CONN && Honest(t, s, Receive(i, Piece(p, begin, data), rnd))
    ensures Permitted(t, s, Receive(i, Piece(p, begin, data), rnd))
  {
  }

  // ---------- steps and runs ----------

  lemma ServeHonest(t: Torrent, s: State, i: nat, p: nat, begin: nat, length: nat)
    requires HonestInv(t, s) && i < MAX_CONN
    ensures HonestInv(t, OnRequest(t, s, i, p, begin, length))
  {
    hide FieldInv, EightInv, RankInv, RequestInv, CounterInv, ServeInv, ChokeInv, Verified, Holds;
    ServeKeeps(t, s, i, p, begin, length);
    var a := SentPiece(i, p, begin, length);
    forall j: nat
      ensures Asked(s.log + [a], j) == Asked(s.log, j) && Outstanding(s.log + [a], j) == Outstanding(s.log, j)
    {
      LogStep(s.log, a, j);
    }
    LogStep(s.log, a, 0);
    Appended(s.log, a, 0);
  }

  lemma PutHonest(t: Torrent, s: State, i: nat, c: Slot)
    requires HonestInv(t, s) && i < MAX_CONN
    requires c.bitField == s.conn[i].bitField && c.inUse == s.conn[i].inUse && c.requestSent == s.conn[i].requestSent
    requires c.interestedPiece == s.conn[i].interestedPiece && (c.peerInterested ==> !c.amChoking)
    ensures HonestInv(t, Put(s, i, c))
  {
    hide AskInv, FileInv, FieldInv, EightInv, RankInv, RequestInv, CounterInv, ServeInv, ChokeInv, AllCompleted;
    SlotFacts(t, s, i);
    CalmPut(t, s, i, c);
  }

  lemma CloseHonest(t: Torrent, s: State, i: nat)
    requires HonestInv(t, s) && i < MAX_CONN
    ensures HonestInv(t, Close(s, i))
  {
    hide AskInv, FileInv, FieldInv, EightInv, RankInv, RequestInv, CounterInv, ServeInv, ChokeInv, AllCompleted, Close;
    CloseCalm(t, s, i);
    CloseSameStatus(s, i);
  }

  lemma InterestedHonest(t: Torrent, s: State, i: nat)
    requires HonestInv(t, s) && i < MAX_CONN
    ensures HonestInv(t, Log(Put(s, i, s.conn[i].(peerInterested := true, amChoking := false)), SaidUnchoke(i)))
  {
    hide AskInv, FileInv, FieldInv, EightInv, RankInv, RequestInv, CounterInv, ServeInv, ChokeInv, AllCompleted;
    var c := s.conn[i].(peerInterested := true, amChoking := false);
    PutHonest(t, s, i, c);
    CalmAction(t, Put(s, i, c), SaidUnchoke(i));
  }

  lemma PlainHonest(t: Torrent, s: State, i: nat, m: Message, rnd: nat)
    requires HonestInv(t, s) && Permitted(t, s, Receive(i, m, rnd)) && IsPlain(m)
    ensures HonestInv(t, OnMessage(t, s, i, m, rnd))
  {
    hide AskInv, FileInv, FieldInv, EightInv, RankInv, RequestInv, CounterInv, ServeInv, ChokeInv, SlotShape,
         AllCompleted, OnMessage, FieldThere;
    PlainStep(t, s, i, m, rnd);
    SlotFacts(t, s, i);
    CloseHonest(t, s, i);
    InterestedHonest(t, s, i);
    PutHonest(t, s, i, s.conn[i].(peerChoking := true));
    PutHonest(t, s, i, s.conn[i].(peerInterested := false));
  }

  lemma UnchokeHonest(t: Torrent, s: State, i: nat, rnd: nat)
    requires HonestInv(t, s) && i < MAX_CONN
    ensures HonestInv(t, OnUnchoke(t, s, i, rnd))
  {
    hide AskInv, FileInv, FieldInv, EightInv, RankInv, RequestInv, CounterInv, ServeInv, ChokeInv, FindRarest;
    SlotFacts(t, s, i);
    var c := s.conn[i].(peerChoking := false);
    PutHonest(t, s, i, c);
    FindHonest(t, Put(s, i, c), rnd);
  }

  lemma MessageHonest(t: Torrent, s: State, i: nat, m: Message, rnd: nat)
    requires HonestInv(t, s) && Permitted(t, s, Receive(i, m, rnd)) && Honest(t, s, Receive(i, m, rnd))
    ensures HonestInv(t, OnMessage(t, s, i, m, rnd))
  {
    hide AskInv, FileInv, FieldInv, EightInv, RankInv, RequestInv, CounterInv, ServeInv, ChokeInv, OnUnchoke, OnPiece,
         OnHave, OnBitField, OnRequest, FieldThere, SlotShape;
    match m
    case Unchoke => UnchokeHonest(t, s, i, rnd);
    case Have(p) => HaveHonest(t, s, i, p, rnd);
    case BitFieldMsg(bits) => BitFieldHonest(t, s, i, bits, rnd);
    case Request(p, begin, length) => ServeHonest(t, s, i, p, begin, length);
    case Piece(p, _, data) => PieceHonest(t, s, i, p, data, rnd);
    case _ => PlainHonest(t, s, i, m, rnd);
  }

  lemma ForgetField(t: Torrent, s: State, i: nat)
    requires HonestInv(t, s) && i < MAX_CONN && Outstanding(s.log, i) == None
    ensures HonestInv(t, Put(s, i, s.conn[i].(bitField := None)))
  {
    hide AskInv, FileInv, FieldInv, RankInv, RequestInv, CounterInv, ServeInv;
    PutKeeps(t, s, i, s.conn[i].(bitField := None));
    CalmKeeps(t, s, Put(s, i, s.conn[i].(bitField := None)), i);
  }

  lemma AcceptHonest(t: Torrent, s: State, outcome: AcceptOutcome)
    requires HonestInv(t, s)
    ensures HonestInv(t, OnAccept(t, s, outcome))
  {
    hide AskInv, FileInv, FieldInv, EightInv, RankInv, RequestInv, CounterInv, ServeInv, ChokeInv, Open, Close;
    var free := FirstFree(s.conn, 0);
    if free.Some? {
      var i := free.value;
      OpenCalm(t, s, i);
      OpenSameStatus(s, i);
      match outcome
      case HandshakeUnreadable =>
      case Rejected => CloseCalm(t, Open(s, i), i); CloseSameStatus(Open(s, i), i);
      case FieldUnsent =>
      case Accepted => ForgetField(t, Open(s, i), i);
    }
  }

  lemma ConnectHonest(t: Torrent, s: State, outcome: ConnectOutcome)
    requires HonestInv(t, s) && FirstFree(s.conn, 0).Some?
    ensures HonestInv(t, OnConnect(t, s, outcome))
  {
    hide AskInv, FileInv, FieldInv, EightInv, RankInv, RequestInv, CounterInv, ServeInv, ChokeInv, Open, Close;
    var i := FirstFree(s.conn, 0).value;
    OpenCalm(t, s, i);
    OpenSameStatus(s, i);
    CloseCalm(t, Open(s, i), i);
    CloseSameStatus(Open(s, i), i);
  }

  lemma OpenSameStatus(s: State, i: nat)
    requires i < |s.conn|
    ensures Open(s, i).status == s.status
  {
  }

  lemma CloseSameStatus(s: State, i: nat)
    requires i < |s.conn|
    ensures Close(s, i).status == s.status
  {
  }

  lemma StepHonest(t: Torrent, s: State, e: Event)
    requires HonestInv(t, s) && Permitted(t, s, e) && Honest(t, s, e)
    ensures HonestInv(t, Step(t, s, e))
  {
    hide AskInv, FileInv, FieldInv, EightInv, RankInv, RequestInv, CounterInv, ServeInv, ChokeInv, OnMessage, OnAccept,
         OnConnect;
    match e
    case Receive(i, m, rnd) => MessageHonest(t, s, i, m, rnd);
    case Accept(outcome) => AcceptHonest(t, s, outcome);
    case Connect(outcome) => ConnectHonest(t, s, outcome);
  }

  lemma {:induction false} RunHonest(t: Torrent, s: State, es: seq<Event>)
    requires HonestInv(t, s) && Allowed(t, s, es) && AllHonest(t, s, es)
    ensures HonestInv(t, Run(t, s, es))
    decreases |es|
  {
    hide AskInv, FileInv, FieldInv, EightInv, RankInv, RequestInv, CounterInv, ServeInv, ChokeInv;
    if es != [] {
      StepHonest(t, s, es[0]);
      RunHonest(t, Step(t, s, es[0]), es[1..]);
    }
  }

  lemma AfterHonest(t: Torrent, es: seq<Event>)
    requires IsHonestRun(t, es)
    ensures HonestInv(t, After(t, es))
  {
    InitHonest(t);
    RunHonest(t, Init(t), es);
  }

  // ---------- every state reachable with honest peers ----------

  /** As many pieces are being downloaded as slots wait for an answer, hence at most ten. */
  lemma DownloadsMatchRequests(t: Torrent, es: seq<Event>)
    requires IsHonestRun(t, es)
    ensures var s := After(t, es); CountDownloading(s.status) == CountBusy(s.conn) <= MAX_CONN
  {
    AfterHonest(t, es);
    BusyAtMost(After(t, es).conn);
  }

  /** No two connections ever wait for the same piece, and a piece waited for is marked as downloading. */
  lemma OutstandingPiecesDiffer(t: Torrent, es: seq<Event>, i: nat, j: nat)
    requires IsHonestRun(t, es) && i < MAX_CONN && j < MAX_CONN && i != j
    requires Outstanding(After(t, es).log, i).Some?
    ensures var s := After(t, es); var p := Outstanding(s.log, i).value;
      p < t.N() && s.status[p] == Downloading && s.conn[i].requestSent && Outstanding(s.log, j) != Some(p)
  {
    AfterHonest(t, es);
  }

  /** A completed piece is in the file, with the right hash, from then on. */
  lemma CompletedPiecesVerified(t: Torrent, es: seq<Event>, p: nat)
    requires IsHonestRun(t, es) && p < t.N() && After(t, es).status[p] == Completed
    ensures Verified(t, After(t, es).file, p)
  {
    AfterHonest(t, es);
  }

  lemma FullLength(t: Torrent, file: seq<byte>)
    requires t.Valid() && t.N() > 0 && Verified(t, file, t.N() - 1) && |file| <= t.fileSize
    ensures |file| == t.fileSize
  {
    hide Sha1Spec.Digest;
    PieceEnd(t.fileSize, t.pieceSize, t.N() - 1);
  }

  /** When every piece is completed the file has its full length and every piece its hash. */
  lemma CompletedFile(t: Torrent, es: seq<Event>)
    requires IsHonestRun(t, es) && AllCompleted(After(t, es).status)
    ensures |After(t, es).file| == t.fileSize
    ensures forall p: nat | p < t.N() :: Verified(t, After(t, es).file, p)
  {
    hide FieldInv, EightInv, RankInv, RequestInv, CounterInv, ServeInv, ChokeInv, AskInv, Verified, Run, Allowed,
         AllHonest;
    AfterHonest(t, es);
    FullLength(t, After(t, es).file);
  }

  lemma SmallInt32(x: int)
    requires -0x80000000 <= x < 0x80000000
    ensures Int32(x) == x
  {
  }

  /** What is left of the file, when so many bytes of it are completed. */
  lemma Balance(t: Torrent, status: seq<Status>)
    requires t.Valid() && |status| == t.N()
    ensures CompletedBytes(t, status) + MissingBytes(t, status) == t.fileSize
  {
    BytesSplit(t, status);
    LengthsAddUp(t.fileSize, t.pieceSize);
  }

  /** The bytes left are those of the pieces not completed: never negative, and 0 exactly at completion. */
  lemma LeftIsMissing(t: Torrent, es: seq<Event>)
    requires IsHonestRun(t, es)
    ensures var s := After(t, es);
      && s.downloaded == Int32(CompletedBytes(t, s.status))
      && s.left == Int32(MissingBytes(t, s.status))
      && (t.fileSize < 0x80000000 ==>
            s.left == MissingBytes(t, s.status) && s.downloaded + s.left == t.fileSize
              && (s.left == 0 <==> AllCompleted(s.status)))
  {
    hide FieldInv, EightInv, RankInv, RequestInv, ChokeInv, ServeInv, AskInv, FileInv, Int32, PieceCount, Run, Allowed,
         AllHonest;
    AfterHonest(t, es);
    var s := After(t, es);
    Balance(t, s.status);
    NothingMissingIff(t, s.status);
    if t.fileSize < 0x80000000 {
      SmallInt32(MissingBytes(t, s.status));
      SmallInt32(CompletedBytes(t, s.status));
    }
  }

  /** The tracker hears of the completion once if every piece is completed, and never otherwise. */
  lemma AnnouncedOnce(t: Torrent, es: seq<Event>)
    requires IsHonestRun(t, es)
    ensures Announces(After(t, es).log) == if AllCompleted(After(t, es).status) then 1 else 0
  {
    AfterHonest(t, es);
  }
}
