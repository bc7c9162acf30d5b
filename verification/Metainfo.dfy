/**
 The walk over the decoded torrent file in metainfo.c, which fills the global node and prints the value of
 "info" back to bytes, and the pipeline that hashes those bytes.
 */
module Metainfo {
  import opened Bytes
  import opened Bencode
  import Geometry
  import InfoHash
  import Sha1
  import Sha1Spec

  /** The globals that the walk reads and writes. */
  datatype Meta = Meta(
    insideInfo: bool, buffer: seq<byte>, announce: Option<seq<byte>>, name: seq<byte>,
    fileSize: nat, pieceSize: nat, pieces: int, hashes: seq<seq<byte>>)

  /** How the walk ends: normally, by the program's own exit, or outside what C defines. */
  datatype Effect = Done(meta: Meta) | Exits | Undefined {
    predicate IsFailure() {
      !Done?
    }

    function PropagateFailure(): Effect
      requires !Done?
    {
      this
    }

    function Extract(): Meta
      requires Done?
    {
      meta
    }
  }

  const BLANK := Meta(false, [], None, [], 0, 0, 0, [])

  const ANNOUNCE: seq<byte> := [97, 110, 110, 111, 117, 110, 99, 101]
  const NAME: seq<byte> := [110, 97, 109, 101]
  const INFO: seq<byte> := [105, 110, 102, 111]
  const LENGTH: seq<byte> := [108, 101, 110, 103, 116, 104]
  const PIECE_LENGTH: seq<byte> := [112, 105, 101, 99, 101, 32, 108, 101, 110, 103, 116, 104]
  const PIECES: seq<byte> := [112, 105, 101, 99, 101, 115]

  /** A byte string as a C string: up to the first NUL. */
  function CString(s: seq<byte>): seq<byte> {
    if s == [] || s[0] == 0 then [] else [s[0]] + CString(s[1..])
  }

  lemma {:induction false} PlainString(s: seq<byte>)
    requires forall k | 0 <= k < |s| :: s[k] != 0
    ensures CString(s) == s
  {
    if s != [] {
      PlainString(s[1..]);
    }
  }

  /** A C string is what comes before the first NUL: all of it exactly if there is none. */
  lemma {:induction false} CStringIs(s: seq<byte>)
    ensures var c := CString(s); |c| <= |s| && c == s[..|c|] && 0 !in c && (|c| < |s| ==> s[|c|] == 0)
    ensures CString(s) == s <==> 0 !in s
  {
    if s != [] && s[0] != 0 {
      CStringIs(s[1..]);
      assert s == [s[0]] + s[1..];
    }
  }

  /** The keys, spelled out. */
  lemma KeysAre()
    ensures ANNOUNCE == Ascii("announce") && NAME == Ascii("name") && INFO == Ascii("info") && LENGTH == Ascii("length")
    ensures PIECE_LENGTH == Ascii("piece length") && PIECES == Ascii("pieces")
  {
  }

  function Emit(m: Meta, bytes: seq<byte>): Meta {
    if m.insideInfo then m.(buffer := m.buffer + bytes) else m
  }

  /** count consecutive 20-byte hashes from the start of s. */
  function Hashes(s: seq<byte>, count: nat): (r: seq<seq<byte>>)
    requires 20 * count <= |s|
    ensures |r| == count
  {
    seq(count, i requires 0 <= i < count => s[20 * i..20 * i + 20])
  }

  lemma HashAt(s: seq<byte>, count: nat, i: nat)
    requires 20 * count <= |s| && i < count
    ensures Hashes(s, count)[i] == s[20 * i..20 * i + 20]
  {
  }

  lemma HashesFirst(s: seq<byte>, count: nat)
    requires 0 < count && 20 * count <= |s|
    ensures Hashes(s, count) == [s[..20]] + Hashes(s[20..], count - 1)
  {
    hide Hashes;
    forall i | 0 <= i < count
      ensures Hashes(s, count)[i] == ([s[..20]] + Hashes(s[20..], count - 1))[i]
    {
      HashAt(s, count, i);
      if i > 0 {
        HashAt(s[20..], count - 1, i - 1);
        Sliced(s, 20, |s|, 20 * (i - 1), 20 * (i - 1) + 20);
      }
    }
  }

  /** The hashes are the start of the string, cut every 20 bytes. */
  lemma {:induction false} HashesAre(s: seq<byte>, count: nat)
    requires 20 * count <= |s|
    ensures Concat(Hashes(s, count)) == s[..20 * count]
    ensures forall h | h in Hashes(s, count) :: |h| == 20
    decreases count
  {
    hide Hashes, Concat;
    if count == 0 {
      NoHashes(s);
    } else {
      var first, rest := s[..20], Hashes(s[20..], count - 1);
      HashesFirst(s, count);
      HashesAre(s[20..], count - 1);
      ConcatFirst(first, rest);
      Sliced(s, 20, |s|, 0, 20 * (count - 1));
      assert s[..20 * count] == first + s[20..20 * count];
    }
  }

  lemma NoHashes(s: seq<byte>)
    ensures Hashes(s, 0) == [] && Concat<byte>([]) == []
  {
  }

  /** What one dictionary entry sets, before its value is walked; the key is compared as a C string. */
  function Note(key: seq<byte>, val: Node, m: Meta): Effect {
    if key == ANNOUNCE then
      if val.Str? then Done(m.(announce := Some(CString(val.s)))) else Undefined
    else if key == NAME then
      if !val.Str? then Undefined else if m.announce.None? then Exits else Done(m.(name := CString(val.s)))
    else if key == INFO then
      Done(m.(insideInfo := true))
    else if key == LENGTH then
      if val.Int? then Done(m.(fileSize := val.i % 0x10000000000000000)) else Undefined
    else if key == PIECE_LENGTH then
      if val.Int? then Done(m.(pieceSize := val.i % 0x10000000000000000)) else Undefined
    else if key == PIECES then
      if !val.Str? || m.pieceSize == 0 then Undefined
      else
        var count := Int32(Geometry.PieceCount(m.fileSize, m.pieceSize));
        if count < 0 || 20 * count > |val.s| then Undefined
        else Done(m.(pieces := count, hashes := Hashes(val.s, count)))
    else Done(m)
  }

  function Populate(n: Node, m: Meta): Effect
    decreases n
  {
    match n
    case Str(s) => Done(Emit(m, EncodeStr(s)))
    case Int(i) => Done(Emit(m, [LETTER_I] + Signed(i) + [LETTER_E]))
    case List(items) => PopulateItems(items, m)
    case Dict(entries) =>
      var m1 :- PopulateEntries(entries, Emit(m, [LETTER_D]));
      Done(Emit(m1, [LETTER_E]))
  }

  /** Each element of a list is framed on its own. */
  function PopulateItems(items: seq<Node>, m: Meta): Effect
    decreases items
  {
    if items == [] then Done(m)
    else
      var m1 :- Populate(items[0], Emit(m, [LETTER_L]));
      PopulateItems(items[1..], Emit(m1, [LETTER_E]))
  }

  function PopulateEntry(e: Entry, m: Meta): Effect
    decreases e, 1
  {
    var key := CString(e.key);
    var m1 :- Note(key, e.val, Emit(m, EncodeStr(key)));
    var m2 :- Populate(e.val, m1);
    Done(if key == INFO then m2.(insideInfo := false) else m2)
  }

  function PopulateEntries(entries: seq<Entry>, m: Meta): Effect
    decreases entries
  {
    if entries == [] then Done(m)
    else
      var m1 :- PopulateEntry(entries[0], m);
      PopulateEntries(entries[1..], m1)
  }

  // ---------- the program ----------

  class Reader {
    var insideInfo: bool
    var buffer: seq<byte>
    var announce: Option<seq<byte>>
    var name: seq<byte>
    var fileSize: nat
    var pieceSize: nat
    var pieces: int
    var hashes: seq<seq<byte>>

    ghost function Model(): Meta
      reads this
    {
      Meta(insideInfo, buffer, announce, name, fileSize, pieceSize, pieces, hashes)
    }

    constructor ()
      ensures Model() == BLANK
    {
      insideInfo, buffer, announce, name := false, [], None, [];
      fileSize, pieceSize, pieces, hashes := 0, 0, 0, [];
    }

    method Write(bytes: seq<byte>)
      modifies this`buffer
      ensures Model() == Emit(old(Model()), bytes)
    {
      if insideInfo {
        buffer := buffer + bytes;
      }
    }

    method PopulatePieces(s: seq<byte>, count: nat)
      requires 20 * count <= |s|
      modifies this`hashes
      ensures hashes == Hashes(s, count)
    {
      hashes := [];
      for i := 0 to count
        invariant hashes == Hashes(s, count)[..i]
      {
        hashes := hashes + [s[i * 20..i * 20 + 20]];
      }
    }

    /** The comparisons of the key that come before the value is walked. */
    method NoteEntry(key: seq<byte>, val: Node) returns (ok: bool)
      requires !Note(key, val, Model()).Undefined?
      modifies this
      ensures match Note(key, val, old(Model())) case Done(m) => ok && Model() == m case _ => !ok
    {
      if key == ANNOUNCE {
        announce := Some(CString(val.s));
      }
      if key == NAME {
        if announce == None {
          return false;
        }
        name := CString(val.s);
      }
      if key == INFO {
        insideInfo := true;
      }
      if key == LENGTH {
        fileSize := val.i % 0x10000000000000000;
      }
      if key == PIECE_LENGTH {
        pieceSize := val.i % 0x10000000000000000;
      }
      if key == PIECES {
        pieces := Int32(if fileSize % pieceSize != 0 then fileSize / pieceSize + 1 else fileSize / pieceSize);
        PopulatePieces(val.s, pieces);
      }
      return true;
    }

    method PopulateStruct(n: Node) returns (ok: bool)
      requires !Populate(n, Model()).Undefined?
      modifies this
      ensures match Populate(n, old(Model())) case Done(m) => ok && Model() == m case _ => !ok
      decreases n, 1
    {
      hide Note, EncodeStr, Signed;
      ok := true;
      match n
      case Str(s) => Write(EncodeStr(s));
      case Int(i) => Write([LETTER_I] + Signed(i) + [LETTER_E]);
      case List(items) => ok := WalkItems(items);
      case Dict(entries) =>
        Write([LETTER_D]);
        ok := WalkEntries(entries);
        if ok {
          Write([LETTER_E]);
        }
    }

    method WalkItems(items: seq<Node>) returns (ok: bool)
      requires !PopulateItems(items, Model()).Undefined?
      modifies this
      ensures match PopulateItems(items, old(Model())) case Done(m) => ok && Model() == m case _ => !ok
      decreases items, 0
    {
      hide Populate, Emit;
      var i := 0;
      while i < |items|
        invariant 0 <= i <= |items|
        invariant PopulateItems(items[i..], Model()) == PopulateItems(items, old(Model()))
      {
        assert items[i..][1..] == items[i + 1..] && items[i] in items;
        Write([LETTER_L]);
        ok := PopulateStruct(items[i]);
        if !ok {
          return;
        }
        Write([LETTER_E]);
        i := i + 1;
      }
      return true;
    }

    method WalkEntries(entries: seq<Entry>) returns (ok: bool)
      requires !PopulateEntries(entries, Model()).Undefined?
      modifies this
      ensures match PopulateEntries(entries, old(Model())) case Done(m) => ok && Model() == m case _ => !ok
      decreases entries, 0
    {
      hide Populate, Emit, PopulateEntry;
      var i := 0;
      while i < |entries|
        invariant 0 <= i <= |entries|
        invariant PopulateEntries(entries[i..], Model()) == PopulateEntries(entries, old(Model()))
      {
        assert entries[i..][1..] == entries[i + 1..] && entries[i] in entries;
        ok := WalkEntry(entries[i]);
        if !ok {
          return;
        }
        i := i + 1;
      }
      return true;
    }

    method WalkEntry(e: Entry) returns (ok: bool)
      requires !PopulateEntry(e, Model()).Undefined?
      modifies this
      ensures match PopulateEntry(e, old(Model())) case Done(m) => ok && Model() == m case _ => !ok
      decreases e, 2
    {
      hide Populate, Emit, Note, EncodeStr, CString;
      var key := CString(e.key);
      Write(EncodeStr(key));
      ok := NoteEntry(key, e.val);
      if !ok {
        return;
      }
      ok := PopulateStruct(e.val);
      if !ok {
        return;
      }
      if key == INFO {
        insideInfo := false;
      }
    }
  }
}
