/**
 The leecher of download.c as a state machine: ten connection slots that share the piece table, the
 rarest-first scheduler and one output file. Each message handled is one step.

 Everything here is a function on values; `Client` is the imperative program proved against it.
 */
module Swarm {
  import opened Bytes
  import opened BitField
  import opened Geometry
  import Sha1Spec

  const MAX_CONN: nat := 10

  /** The ranking given to a piece once it has been requested. */
  const TAKEN := 9999

  /** The minimum ranking at which the scheduler concludes that nothing is left to do. */
  const GIVE_UP := 120

  datatype Status = NotDownloaded | Downloading | Completed

  /** What the torrent file fixes. */
  datatype Torrent = Torrent(fileSize: nat, pieceSize: nat, hashes: seq<seq<byte>>) {
    ghost predicate Valid() {
      fileSize > 0 && pieceSize > 0 && |hashes| == PieceCount(fileSize, pieceSize)
    }

    function N(): nat {
      |hashes|
    }

    function Length(p: nat): nat
      requires pieceSize > 0
    {
      RequestLength(fileSize, pieceSize, p)
    }

    /** Where piece p starts in the file. */
    function Start(p: nat): nat {
      p * pieceSize
    }
  }

  /** One entry of the connection table. */
  datatype Slot = Slot(
    inUse: bool, amChoking: bool, amInterested: bool, peerChoking: bool, peerInterested: bool,
    requestSent: bool, interestedPiece: nat, bitField: Option<seq<bv8>>)

  /** What the program does to the outside world. */
  datatype Action =
    | Opened(slot: nat)
    | Closed(slot: nat)
    | SaidInterested(slot: nat, flag: bool)
    | SaidUnchoke(slot: nat)
    | Requested(slot: nat, piece: nat, length: nat)
    | Stored(slot: nat, piece: nat, length: nat)
    | SaidHave(piece: nat)
    | SentPiece(slot: nat, piece: nat, begin: nat, length: nat)
    | AnnouncedCompleted

  datatype State = State(
    status: seq<Status>, ranking: seq<int>, field: seq<bv8>, conn: seq<Slot>,
    downloaded: int, left: int, file: seq<byte>, log: seq<Action>)

  ghost predicate SlotShape(t: Torrent, c: Slot) {
    && c.interestedPiece < t.N()
    && (c.bitField.Some? ==> |c.bitField.value| == FieldSize(t.N()))
  }

  ghost predicate Shape(t: Torrent, s: State) {
    && t.Valid() && t.N() > 0
    && |s.status| == |s.ranking| == t.N()
    && |s.field| == FieldSize(t.N())
    && |s.conn| == MAX_CONN
    && forall i | 0 <= i < MAX_CONN :: SlotShape(t, s.conn[i])
  }

  const BLANK := Slot(false, false, false, false, false, false, 0, None)

  /** The state in which a leecher starts. */
  function Init(t: Torrent): State
    requires t.pieceSize > 0
  {
    State(seq(t.N(), _ => NotDownloaded), seq(t.N(), _ => 0), BlankField(FieldSize(t.N())),
          seq(MAX_CONN, _ => BLANK), 0, Int32(t.fileSize), [], [])
  }

  // ---------- slots ----------

  function Put(s: State, i: nat, c: Slot): (r: State)
    requires i < |s.conn|
  {
    s.(conn := s.conn[i := c])
  }

  function Log(s: State, a: Action): State {
    s.(log := s.log + [a])
  }

  function Close(s: State, i: nat): State
    requires i < |s.conn|
  {
    Log(Put(s, i, s.conn[i].(inUse := false)), Closed(i))
  }

  /** A new connection in slot i. What the slot remembers of requests and bit fields is left as it was. */
  function Open(s: State, i: nat): State
    requires i < |s.conn|
  {
    var c := s.conn[i].(inUse := true, amChoking := true, amInterested := false, peerChoking := true,
      peerInterested := false);
    Log(Put(s, i, c), Opened(i))
  }

  function FirstFree(conn: seq<Slot>, i: nat): (r: Option<nat>)
    ensures r.Some? ==> r.value < |conn| && !conn[r.value].inUse
    decreases |conn| - i
  {
    if i >= |conn| then None else if !conn[i].inUse then Some(i) else FirstFree(conn, i + 1)
  }

  // ---------- the scheduler ----------

  function MinOf(r: seq<int>): int
    requires |r| > 0
  {
    if |r| == 1 then r[0]
    else var m := MinOf(r[..|r| - 1]); if m < r[|r| - 1] then m else r[|r| - 1]
  }

  /** The positions of m in r, in order. */
  function Ties(r: seq<int>, m: int): (ties: seq<nat>)
    ensures forall k | 0 <= k < |ties| :: ties[k] < |r| && r[ties[k]] == m
  {
    if r == [] then []
    else Ties(r[..|r| - 1], m) + if r[|r| - 1] == m then [|r| - 1] else []
  }

  predicate Eligible(t: Torrent, s: State, r: nat, i: nat)
    requires |s.status| == t.N() && r < t.N() && i < |s.conn|
    requires s.conn[i].bitField.Some? ==> |s.conn[i].bitField.value| == FieldSize(t.N())
  {
    var c := s.conn[i];
    c.inUse && c.bitField.Some? && (InBounds(t.N(), r); Holds(c.bitField.value, r)) && s.status[r] == NotDownloaded
  }

  function MarkInterested(s: State, i: nat): State
    requires i < |s.conn|
  {
    if s.conn[i].amInterested then s
    else Log(Put(s, i, s.conn[i].(amInterested := true)), SaidInterested(i, true))
  }

  function SendRequest(t: Torrent, s: State, r: nat, i: nat): State
    requires Shape(t, s) && r < t.N() && i < MAX_CONN
  {
    var s1 := MarkInterested(s, i);
    var s2 := Put(s1, i, s1.conn[i].(interestedPiece := r, requestSent := true));
    Log(s2.(status := s2.status[r := Downloading], ranking := s2.ranking[r := TAKEN]), Requested(i, r, t.Length(r)))
  }

  /** The pass over the connections from slot i on, looking for one to request piece r from. */
  function Scan(t: Torrent, s: State, r: nat, i: nat): (s': State)
    requires Shape(t, s) && r < t.N()
    ensures Shape(t, s')
    decreases |s.conn| - i
  {
    if i >= |s.conn| then s
    else if !Eligible(t, s, r, i) then Scan(t, s, r, i + 1)
    else if s.conn[i].peerChoking then Scan(t, MarkInterested(s, i), r, i + 1)
    else if s.conn[i].requestSent then Scan(t, s, r, i + 1)
    else SendRequest(t, s, r, i)
  }

  lemma {:induction false} MinIsAttained(r: seq<int>)
    requires |r| > 0
    ensures Ties(r, MinOf(r)) != []
    ensures forall k | 0 <= k < |r| :: MinOf(r) <= r[k]
  {
    if |r| > 1 {
      MinIsAttained(r[..|r| - 1]);
      assert forall k | 0 <= k < |r| - 1 :: r[k] == r[..|r| - 1][k];
    }
  }

  /** The piece the scheduler picks among those of least ranking. */
  function Rarest(s: State, rnd: nat): (r: nat)
    requires |s.ranking| > 0
    ensures r < |s.ranking|
    ensures forall p | 0 <= p < |s.ranking| :: s.ranking[r] <= s.ranking[p]
  {
    MinIsAttained(s.ranking);
    var ties := Ties(s.ranking, MinOf(s.ranking));
    ties[rnd % |ties|]
  }

  function FindRarest(t: Torrent, s: State, rnd: nat): (s': State)
    requires Shape(t, s)
    ensures Shape(t, s')
  {
    if MinOf(s.ranking) == GIVE_UP then s else Scan(t, s, Rarest(s, rnd), 0)
  }

  /** The first piece from p on that this client lacks, has not asked for, and sees in the bit field of a peer. */
  function FirstWanted(t: Torrent, s: State, bits: seq<bv8>, p: nat): (r: Option<nat>)
    requires |s.status| == t.N() && |s.field| == |bits| == FieldSize(t.N())
    ensures r.Some? ==>
      r.value < t.N() && ByteOf(r.value) < |bits| && Holds(bits, r.value) && s.status[r.value] == NotDownloaded
    decreases t.N() - p
  {
    if p >= t.N() then None
    else
      InBounds(t.N(), p);
      if !Holds(s.field, p) && Holds(bits, p) && s.status[p] == NotDownloaded then Some(p)
      else FirstWanted(t, s, bits, p + 1)
  }

  // ---------- messages ----------

  datatype Message =
    | KeepAlive
    | Hangup                        // end of the stream at a message boundary
    | Choke
    | Unchoke
    | Interested
    | NotInterested
    | Have(piece: nat)
    | BitFieldMsg(bits: seq<bv8>)
    | Request(piece: nat, begin: nat, length: nat)
    | Piece(piece: nat, begin: nat, data: seq<byte>)
    | CutPiece                      // end of the stream inside the header of a PIECE
    | Cancel(piece: nat, begin: nat, length: nat)
    | Unknown

  /** The messages that only set a flag, or end the connection. */
  predicate IsPlain(m: Message) {
    !m.Unchoke? && !m.Have? && !m.BitFieldMsg? && !m.Request? && !m.Piece?
  }

  function OnUnchoke(t: Torrent, s: State, i: nat, rnd: nat): (s': State)
    requires Shape(t, s) && i < MAX_CONN
    ensures Shape(t, s')
  {
    var s1 := Put(s, i, s.conn[i].(peerChoking := false));
    if s.conn[i].amInterested then FindRarest(t, s1, rnd) else s1
  }

  /** The rankings after a bit field has come in. */
  function Bump(t: Torrent, ranking: seq<int>, bits: seq<bv8>): (r: seq<int>)
    requires |ranking| == t.N() && |bits| == FieldSize(t.N())
    ensures |r| == t.N()
  {
    seq(t.N(), p requires 0 <= p < t.N() => InBounds(t.N(), p); if Holds(bits, p) then ranking[p] + 1 else ranking[p])
  }

  /** What follows the acceptance of a bit field: interest in the peer, and a pass of the scheduler. */
  function Greet(t: Torrent, s: State, i: nat, bits: seq<bv8>, rnd: nat): (s': State)
    requires Shape(t, s) && i < MAX_CONN && |bits| == FieldSize(t.N())
    ensures Shape(t, s')
  {
    match FirstWanted(t, s, bits, 0)
    case Some(p) =>
      FindRarest(t, Log(Put(s, i, s.conn[i].(amInterested := true, interestedPiece := p)), SaidInterested(i, true)),
        rnd)
    case None =>
      Log(Put(s, i, s.conn[i].(amInterested := false)), SaidInterested(i, false))
  }

  function OnBitField(t: Torrent, s: State, i: nat, bits: seq<bv8>, rnd: nat): (s': State)
    requires Shape(t, s) && i < MAX_CONN
    ensures Shape(t, s')
  {
    if |bits| != FieldSize(t.N()) || !SpareClear(bits, t.N()) then Close(s, i)
    else Greet(t, Put(s, i, s.conn[i].(bitField := Some(bits))).(ranking := Bump(t, s.ranking, bits)), i, bits, rnd)
  }

  function OnHave(t: Torrent, s: State, i: nat, p: nat, rnd: nat): (s': State)
    requires Shape(t, s) && i < MAX_CONN && p < t.N() && s.conn[i].bitField.Some?
    ensures Shape(t, s')
  {
    InBounds(t.N(), p);
    var bits := WithBit(s.conn[i].bitField.value, p);
    var s1 := Put(s, i, s.conn[i].(bitField := Some(bits))).(ranking := s.ranking[p := s.ranking[p] + 1]);
    if !Holds(s.field, p) && s.status[p] == NotDownloaded then
      FindRarest(t, Log(s1, SaidInterested(i, true)), rnd)
    else s1
  }

  datatype OpenMode = ForReading | ForWriting

  /** How a leecher opens its output file. */
  const OUTPUT_MODE := ForWriting

  /** Reading up to count bytes at an offset: a stream opened for writing only delivers none. */
  function Fread(mode: OpenMode, file: seq<byte>, offset: nat, count: nat): seq<byte> {
    if mode == ForWriting || offset >= |file| then []
    else if offset + count <= |file| then file[offset..offset + count]
    else file[offset..]
  }

  /**
   A REQUEST is answered for a piece that the client has and a range inside it (the sum of offset and
   length wraps at 32 bits), if the range can be read back from the output file.
   */
  function OnRequest(t: Torrent, s: State, i: nat, p: nat, begin: nat, length: nat): (s': State)
    requires Shape(t, s) && i < MAX_CONN
    ensures Shape(t, s')
  {
    if !s.conn[i].peerInterested || s.conn[i].amChoking then s
    else if p >= t.N() || (begin + length) % 0x100000000 > t.pieceSize then s
    else
      InBounds(t.N(), p);
      if Holds(s.field, p) && |Fread(OUTPUT_MODE, s.file, t.Start(p) + begin, length)| == length
      then Log(s, SentPiece(i, p, begin, length)) else s
  }

  /** Whether read_peice stores the piece: the index is the one last noted for the slot, and the hash is right. */
  predicate Accepts(t: Torrent, s: State, i: nat, p: nat, data: seq<byte>)
    requires i < |s.conn|
  {
    s.conn[i].interestedPiece == p && p < t.N() && Sha1Spec.Digest(data) == t.hashes[p]
  }

  /** If the piece is accepted and is not the last one missing, the stored bit field of the slot is going to be read. */
  predicate FieldThere(t: Torrent, s: State, i: nat, p: nat, data: seq<byte>)
    requires i < |s.conn|
  {
    p < |s.status| && Accepts(t, s, i, p, data) && !AllCompleted(s.status[p := Completed]) ==> s.conn[i].bitField.Some?
  }

  predicate AllCompleted(status: seq<Status>) {
    forall p | 0 <= p < |status| :: status[p] == Completed
  }

  /** The file after a write at an offset; a gap reads as zeros. */
  function Write(file: seq<byte>, offset: nat, data: seq<byte>): seq<byte> {
    if data == [] then file
    else if |file| < offset then file + seq(offset - |file|, _ => 0) + data
    else file[..offset] + data + if |file| > offset + |data| then file[offset + |data|..] else []
  }

  function Store(t: Torrent, s: State, i: nat, p: nat, data: seq<byte>): (s': State)
    requires Shape(t, s) && i < MAX_CONN && p < t.N()
    ensures Shape(t, s')
    ensures s'.status == s.status[p := Completed] && s'.conn == s.conn[i := s.conn[i].(requestSent := false)]
  {
    InBounds(t.N(), p);
    var s1 := Put(s, i, s.conn[i].(requestSent := false));
    Log(Log(s1.(file := Write(s.file, t.Start(p), data),
                downloaded := Int32(s.downloaded + |data|), left := Int32(s.left - |data|),
                status := s.status[p := Completed], field := WithBit(s.field, p)),
            Stored(i, p, |data|)), SaidHave(p))
  }

  /** What follows the storing of a piece: the announcement, or the search for the next one. */
  function AfterStore(t: Torrent, s: State, i: nat, rnd: nat): (s': State)
    requires Shape(t, s) && i < MAX_CONN
    requires !AllCompleted(s.status) ==> s.conn[i].bitField.Some?
    ensures Shape(t, s')
  {
    if AllCompleted(s.status) then Log(Log(s, SaidInterested(i, false)), AnnouncedCompleted)
    else
      match FirstWanted(t, s, s.conn[i].bitField.value, 0)
      case Some(_) => FindRarest(t, Put(s, i, s.conn[i].(amInterested := true)), rnd)
      case None => Log(Put(s, i, s.conn[i].(amInterested := false)), SaidInterested(i, false))
  }

  lemma FieldStillThere(t: Torrent, s: State, i: nat, p: nat, data: seq<byte>)
    requires Shape(t, s) && i < MAX_CONN && FieldThere(t, s, i, p, data) && Accepts(t, s, i, p, data)
    ensures p < t.N()
    ensures !AllCompleted(Store(t, s, i, p, data).status) ==> Store(t, s, i, p, data).conn[i].bitField.Some?
  {
    hide AllCompleted, Write, Int32, Sha1Spec.Digest;
  }

  function OnPiece(t: Torrent, s: State, i: nat, p: nat, data: seq<byte>, rnd: nat): (s': State)
    requires Shape(t, s) && i < MAX_CONN && FieldThere(t, s, i, p, data)
    ensures Shape(t, s')
  {
    if !Accepts(t, s, i, p, data) then Close(s, i) else AfterStore(t, Store(t, s, i, p, data), i, rnd)
  }

  // ---------- steps and runs ----------

  datatype AcceptOutcome = HandshakeUnreadable | Rejected | FieldUnsent | Accepted
  datatype ConnectOutcome = Unreachable | Mismatch | Connected

  datatype Event =
    | Accept(accepted: AcceptOutcome)
    | Connect(connected: ConnectOutcome)
    | Receive(slot: nat, msg: Message, rnd: nat)

  /** The slot in which an event makes a new connection. */
  function OpenedSlot(s: State, e: Event): (r: Option<nat>)
    ensures r.Some? ==> r.value < |s.conn| && !s.conn[r.value].inUse
  {
    if e.Accept? || (e.Connect? && e.connected != Unreachable) then FirstFree(s.conn, 0) else None
  }

  /** What the source relies on: outside this, it reads through a null pointer or past an array. */
  predicate Permitted(t: Torrent, s: State, e: Event)
    requires |s.conn| == MAX_CONN
  {
    match e
    case Accept(_) => true
    case Connect(_) => FirstFree(s.conn, 0).Some?
    case Receive(i, m, _) =>
      i < MAX_CONN && s.conn[i].inUse &&
      match m
      case Have(p) => p < t.N() && s.conn[i].bitField.Some?
      case Piece(p, _, data) => FieldThere(t, s, i, p, data)
      case _ => true
  }

  function OnMessage(t: Torrent, s: State, i: nat, m: Message, rnd: nat): (s': State)
    requires Shape(t, s) && Permitted(t, s, Receive(i, m, rnd))
    ensures Shape(t, s')
  {
    var c := s.conn[i];
    match m
    case KeepAlive => s
    case Hangup => Close(s, i)
    case Choke => Put(s, i, c.(peerChoking := true))
    case Unchoke => OnUnchoke(t, s, i, rnd)
    case Interested => Log(Put(s, i, c.(peerInterested := true, amChoking := false)), SaidUnchoke(i))
    case NotInterested => Put(s, i, c.(peerInterested := false))
    case Have(p) => OnHave(t, s, i, p, rnd)
    case BitFieldMsg(bits) => OnBitField(t, s, i, bits, rnd)
    case Request(p, begin, length) => OnRequest(t, s, i, p, begin, length)
    case Piece(p, _, data) => OnPiece(t, s, i, p, data, rnd)
    case CutPiece => Close(s, i)
    case Cancel(_, _, _) => s
    case Unknown => Close(s, i)
  }

  /** What the plain messages do. */
  lemma PlainStep(t: Torrent, s: State, i: nat, m: Message, rnd: nat)
    requires Shape(t, s) && Permitted(t, s, Receive(i, m, rnd)) && IsPlain(m)
    ensures OnMessage(t, s, i, m, rnd) ==
      var c := s.conn[i];
      if m.KeepAlive? || m.Cancel? then s
      else if m.Choke? then Put(s, i, c.(peerChoking := true))
      else if m.Interested? then Log(Put(s, i, c.(peerInterested := true, amChoking := false)), SaidUnchoke(i))
      else if m.NotInterested? then Put(s, i, c.(peerInterested := false))
      else Close(s, i)
  {
  }

  function OnAccept(t: Torrent, s: State, outcome: AcceptOutcome): (s': State)
    requires Shape(t, s)
    ensures Shape(t, s')
  {
    match FirstFree(s.conn, 0)
    case None => s
    case Some(i) =>
      var s1 := Open(s, i);
      match outcome
      case HandshakeUnreadable => s1
      case Rejected => Close(s1, i)
      case FieldUnsent => s1
      case Accepted => Put(s1, i, s1.conn[i].(bitField := None))
  }

  function OnConnect(t: Torrent, s: State, outcome: ConnectOutcome): (s': State)
    requires Shape(t, s) && FirstFree(s.conn, 0).Some?
    ensures Shape(t, s')
  {
    var i := FirstFree(s.conn, 0).value;
    match outcome
    case Unreachable => s
    case Mismatch => Close(Open(s, i), i)
    case Connected => Open(s, i)
  }

  function Step(t: Torrent, s: State, e: Event): (s': State)
    requires Shape(t, s) && Permitted(t, s, e)
    ensures Shape(t, s')
  {
    match e
    case Accept(outcome) => OnAccept(t, s, outcome)
    case Connect(outcome) => OnConnect(t, s, outcome)
    case Receive(i, m, rnd) => OnMessage(t, s, i, m, rnd)
  }

  /** Every event of es is permitted when it happens. */
  ghost predicate Allowed(t: Torrent, s: State, es: seq<Event>)
    requires Shape(t, s)
    decreases |es|
  {
    es == [] || (Permitted(t, s, es[0]) && Allowed(t, Step(t, s, es[0]), es[1..]))
  }

  ghost function Run(t: Torrent, s: State, es: seq<Event>): (s': State)
    requires Shape(t, s) && Allowed(t, s, es)
    ensures Shape(t, s')
    decreases |es|
  {
    if es == [] then s else Run(t, Step(t, s, es[0]), es[1..])
  }

  lemma InitShape(t: Torrent)
    requires t.Valid()
    ensures Shape(t, Init(t))
  {
    assert t.N() > 0 by {
      PiecesCover(t.fileSize, t.pieceSize, 0);
    }
  }

  /** es is a sequence of events that can happen to a leecher started on t. */
  ghost predicate IsRun(t: Torrent, es: seq<Event>) {
    t.Valid() && (InitShape(t); Allowed(t, Init(t), es))
  }

  /** The state that run ends in. */
  ghost function After(t: Torrent, es: seq<Event>): (s: State)
    requires IsRun(t, es)
    ensures Shape(t, s)
  {
    InitShape(t);
    Run(t, Init(t), es)
  }
}
