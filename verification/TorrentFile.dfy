/** The pipeline of read_torrent_file: which bytes of a torrent file are hashed, and what a leecher starts from. */
module TorrentFile {
  import opened Bytes
  import opened Bencode
  import opened Metainfo
  import opened InfoPrint
  import opened WalkOutcome
  import Geometry
  import InfoHash
  import Sha1
  import Sha1Spec
  import Swarm

  // ---------- a canonical torrent file ----------

  /** Where the value of "info" starts in the encoding of the torrent. */
  function InfoStart(pre: seq<Entry>): nat {
    1 + |EncodeEntries(pre)| + |EncodeStr(INFO)|
  }

  lemma {:induction false} EncodeInTurn(a: seq<Entry>, b: seq<Entry>)
    ensures EncodeEntries(a + b) == EncodeEntries(a) + EncodeEntries(b)
    decreases a
  {
    hide EncodeStr, Encode;
    if a == [] {
      assert a + b == b;
    } else {
      assert (a + b)[1..] == a[1..] + b;
      EncodeInTurn(a[1..], b);
    }
  }

  /** The value of "info" stands in the file at its place. */
  lemma InfoStands(file: seq<byte>, pre: seq<Entry>, v: Node, post: seq<Entry>, rest: seq<byte>)
    requires file == Encode(Dict(pre + [Entry(INFO, v)] + post)) + rest
    ensures Here(file, InfoStart(pre), Encode(v)) && InfoStart(pre) + |Encode(v)| < |file|
  {
    hide EncodeStr, Encode, EncodeEntries;
    var entries := pre + [Entry(INFO, v)] + post;
    EncodeInTurn(pre + [Entry(INFO, v)], post);
    EncodeInTurn(pre, [Entry(INFO, v)]);
    OneEntry(INFO, v);
    EncodeDict(entries);
    var head := [LETTER_D] + EncodeEntries(pre) + EncodeStr(INFO);
    var tail := EncodeEntries(post) + [LETTER_E] + rest;
    Middle(head, Encode(v), tail);
    assert file == head + Encode(v) + tail;
  }

  lemma Middle(a: seq<byte>, b: seq<byte>, c: seq<byte>)
    ensures Here(a + b + c, |a|, b)
  {
  }

  lemma OneEntry(key: seq<byte>, v: Node)
    ensures EncodeEntries([Entry(key, v)]) == EncodeStr(key) + Encode(v)
  {
    assert [Entry(key, v)][1..] == [];
  }

  lemma EncodeDict(entries: seq<Entry>)
    ensures Encode(Dict(entries)) == [LETTER_D] + EncodeEntries(entries) + [LETTER_E]
  {
  }

  lemma ValueDecodable(pre: seq<Entry>, v: Node, post: seq<Entry>)
    requires Decodable(Dict(pre + [Entry(INFO, v)] + post))
    ensures Decodable(v)
  {
    assert (pre + [Entry(INFO, v)] + post)[|pre|] == Entry(INFO, v);
  }

  /**
   A canonical torrent file, perhaps followed by something: a tree with one "info" key, at the top, whose entries have
   values of the right types in an order that the walk can follow.
   */
  ghost predicate Canonical(file: seq<byte>, pre: seq<Entry>, v: Node, post: seq<Entry>, rest: seq<byte>) {
    var root := Dict(pre + [Entry(INFO, v)] + post);
    && file == Encode(root) + rest && Decodable(root) && |file| <= MAX_LONG
    && NoInfoEntries(pre) && NoInfo(v) && NoInfoEntries(post)
    && Fine([], Flat(root))
  }

  /** The bytes of the file that encode the value of "info". */
  function InfoBytes(file: seq<byte>, pre: seq<Entry>, v: Node): seq<byte>
    requires InfoStart(pre) + |Encode(v)| <= |file|
  {
    file[InfoStart(pre)..InfoStart(pre) + |Encode(v)|]
  }

  /**
   Decoding and walking a canonical torrent file succeeds, and leaves the print of the value of "info" in the
   buffer.
   */
  lemma CanonicalWalk(file: seq<byte>, pre: seq<Entry>, v: Node, post: seq<Entry>, rest: seq<byte>)
    requires Canonical(file, pre, v, post, rest)
    ensures Parse(file, 0).Some? && Parse(file, 0).value.0 == Dict(pre + [Entry(INFO, v)] + post)
    ensures var m := Populate(Parse(file, 0).value.0, BLANK); m.Done? && m.meta.buffer == Print(v)
    ensures InfoStart(pre) + |Encode(v)| < |file| && InfoBytes(file, pre, v) == Encode(v) && Decodable(v)
  {
    hide Populate, Encode, Print, Parse, NoInfo, Decodable, Flat, Fine;
    var root := Dict(pre + [Entry(INFO, v)] + post);
    assert Here(file, 0, Encode(root));
    DecodeEncode(file, 0, root);
    WalkSucceedsIff(root);
    PlainString(INFO);
    InfoValuePrinted(pre, INFO, v, post, BLANK);
    assert BLANK.buffer + Print(v) == Print(v);
    InfoStands(file, pre, v, post, rest);
    ValueDecodable(pre, v, post);
  }

  /**
   For a canonical torrent file, the bytes that read_torrent_file hashes are exactly the bytes of the file that
   encode the value of "info", if and only if every list in that value has one element and none of its keys holds
   a NUL.
   */
  lemma HashedBytesAreInfoValueIff(file: seq<byte>, pre: seq<Entry>, v: Node, post: seq<Entry>, rest: seq<byte>)
    requires Canonical(file, pre, v, post, rest)
    ensures Parse(file, 0).Some? && InfoStart(pre) + |Encode(v)| <= |file|
    ensures var m := Populate(Parse(file, 0).value.0, BLANK);
      && m.Done?
      && (m.meta.buffer == InfoBytes(file, pre, v) <==> Singletons(v) && PlainKeys(v))
      && (Singletons(v) && PlainKeys(v) ==> |m.meta.buffer| < |file|)
  {
    hide Populate, Encode, Print, Parse, Singletons, PlainKeys, Canonical;
    CanonicalWalk(file, pre, v, post, rest);
    PrintIsCanonicalIff(v);
  }

  // ---------- the program ----------

  const MAX_FILE: nat := 8 * 1024

  /** What read_torrent_file relies on: a file it can decode, a walk that C defines, and room for what is printed. */
  ghost predicate Readable(file: seq<byte>) {
    |file| <= MAX_FILE ==>
      && Parse(file, 0).Some?
      && var effect := Populate(Parse(file, 0).value.0, BLANK);
         !effect.Undefined? && (effect.Done? ==> |effect.meta.buffer| < MAX_FILE)
  }

  /** The info hash of a torrent file; None if the program exits (file too long, or a name before any announce). */
  ghost function InfoHashOf(file: seq<byte>): Option<seq<byte>>
    requires Readable(file)
  {
    if |file| <= MAX_FILE && Populate(Parse(file, 0).value.0, BLANK).Done?
    then Some(Sha1Spec.Digest(Populate(Parse(file, 0).value.0, BLANK).meta.buffer))
    else None
  }

  method ReadTorrentFile(file: seq<byte>) returns (infoHash: Option<seq<byte>>, meta: Reader)
    requires Readable(file)
    ensures infoHash == InfoHashOf(file)
    ensures infoHash.Some? ==> meta.Model() == Populate(Parse(file, 0).value.0, BLANK).meta
  {
    hide Populate, Parse, Sha1Spec.Digest;
    meta := new Reader();
    if |file| > MAX_FILE {
      return None, meta;
    }
    var n := BeDecoden(file, |file|);
    var ok := meta.PopulateStruct(n.value);
    if !ok {
      return None, meta;
    }
    var digest := InfoHash.HashBytes(meta.buffer);
    return Some(digest), meta;
  }

  /** A file of more than 8192 bytes is not read. */
  lemma TooLongForBuffer(file: seq<byte>)
    requires |file| > 8192
    ensures Readable(file) && InfoHashOf(file) == None
  {
  }

  /** Reading ends without an info hash just for a file that is too long, or that names itself before any announce. */
  lemma NoInfoHashIff(file: seq<byte>)
    requires Readable(file)
    ensures InfoHashOf(file) == None <==> |file| > 8192 || ExitsIn([], Flat(Parse(file, 0).value.0))
  {
    hide Populate, Parse, Flat, ExitsIn, Sha1Spec.Digest;
    if |file| <= 8192 {
      WalkSucceedsIff(Parse(file, 0).value.0);
    }
  }

  /**
   The info hash of a canonical torrent file of at most 8 KB is the digest of the bytes of the file that encode
   "info" if every list there has one element and no key a NUL. Otherwise it is the digest of other bytes, if the
   buffer can hold them.
   */
  lemma InfoHashIsOfInfoValue(file: seq<byte>, pre: seq<Entry>, v: Node, post: seq<Entry>, rest: seq<byte>)
    requires Canonical(file, pre, v, post, rest) && |file| <= 8192
    ensures InfoStart(pre) + |Encode(v)| <= |file|
    ensures Singletons(v) && PlainKeys(v) ==>
      Readable(file) && InfoHashOf(file) == Some(Sha1Spec.Digest(InfoBytes(file, pre, v)))
    ensures !(Singletons(v) && PlainKeys(v)) && Readable(file) ==>
      InfoHashOf(file) == Some(Sha1Spec.Digest(Print(v))) && Print(v) != InfoBytes(file, pre, v)
  {
    hide Populate, Encode, Print, Parse, Singletons, PlainKeys, Canonical, Sha1Spec.Digest;
    CanonicalWalk(file, pre, v, post, rest);
    HashedBytesAreInfoValueIff(file, pre, v, post, rest);
  }

  // ---------- a torrent of one file ----------

  /** The value of "info" for a single file, in the order BEP 3 asks for. */
  function SingleFile(size: nat, name: seq<byte>, pieceSize: nat, hashes: seq<byte>): Node {
    Dict([Entry(LENGTH, Int(size)), Entry(NAME, Str(name)), Entry(PIECE_LENGTH, Int(pieceSize)),
      Entry(PIECES, Str(hashes))])
  }

  /** A number or string under a plain key other than "info" only sets what its key names (and prints). */
  lemma LeafEntry(key: seq<byte>, val: Node, m: Meta)
    requires (val.Str? || val.Int?) && (forall k | 0 <= k < |key| :: key[k] != 0) && key != INFO
    requires Note(key, val, m).Done?
    ensures PopulateEntry(Entry(key, val), m).Done?
    ensures PopulateEntry(Entry(key, val), m).meta.(buffer := []) == Note(key, val, m).meta.(buffer := [])
  {
    hide EncodeStr, Signed, CString, Hashes;
    PlainString(key);
  }

  lemma NextEntry(e: Entry, rest: seq<Entry>, m: Meta)
    requires PopulateEntry(e, m).Done?
    ensures PopulateEntries([e] + rest, m) == PopulateEntries(rest, PopulateEntry(e, m).meta)
  {
    hide PopulateEntry;
    assert ([e] + rest)[1..] == rest;
  }

  lemma NoEntries(m: Meta)
    ensures PopulateEntries([], m) == Done(m)
  {
  }

  lemma NoteSizes(m: Meta, size: nat, pieceSize: nat)
    requires size <= MAX_LONG && pieceSize <= MAX_LONG
    ensures Note(LENGTH, Int(size), m) == Done(m.(fileSize := size))
    ensures Note(PIECE_LENGTH, Int(pieceSize), m) == Done(m.(pieceSize := pieceSize))
  {
  }

  lemma NoteName(m: Meta, name: seq<byte>)
    requires m.announce.Some?
    ensures Note(NAME, Str(name), m) == Done(m.(name := CString(name)))
  {
  }

  lemma NotePieces(m: Meta, s: seq<byte>)
    requires m.pieceSize > 0
    requires Geometry.PieceCount(m.fileSize, m.pieceSize) < 0x80000000
      && 20 * Geometry.PieceCount(m.fileSize, m.pieceSize) <= |s|
    ensures var count := Geometry.PieceCount(m.fileSize, m.pieceSize);
      Note(PIECES, Str(s), m) == Done(m.(pieces := count, hashes := Hashes(s, count)))
  {
    hide Geometry.PieceCount, Hashes;
  }

  /**
   From the info value of a single file, after the announce URL has been seen, the walk notes the file size, the
   piece size, the number of pieces rounded up, and the 20-byte hash of each: a torrent that a leecher can start
   from.
   */
  lemma SingleFileNoted(size: nat, name: seq<byte>, pieceSize: nat, s: seq<byte>, m: Meta)
    requires m.announce.Some?
    requires 0 < size <= MAX_LONG && 0 < pieceSize <= MAX_LONG
    requires Geometry.PieceCount(size, pieceSize) < 0x80000000 && 20 * Geometry.PieceCount(size, pieceSize) <= |s|
    ensures var count := Geometry.PieceCount(size, pieceSize);
      var effect := Populate(SingleFile(size, name, pieceSize, s), m);
      && effect.Done? && effect.meta.fileSize == size && effect.meta.pieceSize == pieceSize
         && effect.meta.name == CString(name)
      && effect.meta.pieces == count && effect.meta.hashes == Hashes(s, count) && effect.meta.announce == m.announce
      && Swarm.Torrent(size, pieceSize, effect.meta.hashes).Valid()
  {
    hide EncodeStr, Signed, CString, Hashes, PopulateEntry, PopulateEntries, Note, Geometry.PieceCount;
    var m0 := Emit(m, [LETTER_D]);
    NoEntries(m0);
    NoteSizes(m0, size, pieceSize);
    LeafEntry(LENGTH, Int(size), m0);
    var m1 := PopulateEntry(Entry(LENGTH, Int(size)), m0).meta;
    NoteName(m1, name);
    LeafEntry(NAME, Str(name), m1);
    var m2 := PopulateEntry(Entry(NAME, Str(name)), m1).meta;
    NoteSizes(m2, size, pieceSize);
    LeafEntry(PIECE_LENGTH, Int(pieceSize), m2);
    var m3 := PopulateEntry(Entry(PIECE_LENGTH, Int(pieceSize)), m2).meta;
    assert m3.fileSize == size && m3.pieceSize == pieceSize;
    NotePieces(m3, s);
    LeafEntry(PIECES, Str(s), m3);
    var e0, e1, e2, e3 := Entry(LENGTH, Int(size)), Entry(NAME, Str(name)), Entry(PIECE_LENGTH, Int(pieceSize)),
      Entry(PIECES, Str(s));
    assert [e0, e1, e2, e3] == [e0] + ([e1] + ([e2] + ([e3] + [])));
    NextEntry(e0, [e1] + ([e2] + ([e3] + [])), m0);
    NextEntry(e1, [e2] + ([e3] + []), m1);
    NextEntry(e2, [e3] + [], m2);
    NextEntry(e3, [], m3);
    NoEntries(PopulateEntry(e3, m3).meta);
  }

  /** A torrent file: the announce URL, then "info". */
  function TorrentTree(url: seq<byte>, info: Node): Node {
    Dict([Entry(ANNOUNCE, Str(url)), Entry(INFO, info)])
  }

  /** The keys that BEP 3 names hold no NUL. */
  lemma NamedKeys()
    ensures CString(ANNOUNCE) == ANNOUNCE && CString(NAME) == NAME && CString(INFO) == INFO && CString(LENGTH) == LENGTH
    ensures CString(PIECE_LENGTH) == PIECE_LENGTH && CString(PIECES) == PIECES && CString(FILES) == FILES
      && CString(PATH) == PATH
    ensures NAME != INFO && PATH != INFO && PATH != NAME
  {
    hide CString;
    assert NAME[0] != INFO[0] && PATH[0] != INFO[0] && PATH[0] != NAME[0];
    PlainString(ANNOUNCE);
    PlainString(NAME);
    PlainString(INFO);
    PlainString(LENGTH);
    PlainString(PIECE_LENGTH);
    PlainString(PIECES);
    PlainString(FILES);
    PlainString(PATH);
  }

  /** The walk over such a file is that over "info", with the flag set and the URL noted. */
  lemma TorrentWalk(url: seq<byte>, v: Node)
    ensures var m := BLANK.(announce := Some(CString(url)), insideInfo := true);
      Populate(TorrentTree(url, v), BLANK)
        == match Populate(v, m)
           case Done(m1) => Done(m1.(insideInfo := false))
           case Exits => Exits
           case Undefined => Undefined
  {
    hide CString, EncodeStr;
    NamedKeys();
    var e0, e1, m := Entry(ANNOUNCE, Str(url)), Entry(INFO, v), BLANK.(announce := Some(CString(url)));
    assert PopulateEntry(e0, BLANK) == Done(m);
    NextEntry(e0, [e1], BLANK);
    assert [e0] + [e1] == [e0, e1];
    assert [e1] + [] == [e1];
    assert PopulateEntries([e1], m) == PopulateEntry(e1, m) by {
      assert [e1][1..] == [];
    }
  }

  /** What the value of "info" must be like, apart from what is printed for it. */
  predicate Proper(n: Node) {
    NoInfo(n) && Decodable(n)
  }

  lemma LeafShape(n: Node)
    requires n.Str? || (n.Int? && 0 <= n.i <= MAX_LONG)
    ensures Proper(n) && Singletons(n) && PlainKeys(n)
  {
  }

  lemma ListShape(items: seq<Node>)
    requires items != [] && forall k | 0 <= k < |items| :: Proper(items[k])
    ensures Proper(List(items)) && (|items| > 1 ==> !Singletons(List(items)))
  {
  }

  lemma DictShape(entries: seq<Entry>)
    requires entries != []
    requires forall k | 0 <= k < |entries| ::
      CString(entries[k].key) == entries[k].key != INFO && Proper(entries[k].val)
    ensures Proper(Dict(entries))
    ensures Singletons(Dict(entries)) <==> forall k | 0 <= k < |entries| :: Singletons(entries[k].val)
    ensures PlainKeys(Dict(entries)) <==> forall k | 0 <= k < |entries| :: PlainKeys(entries[k].val)
  {
    hide CString;
    forall k | 0 <= k < |entries|
      ensures CString(entries[k].key) != INFO && NoInfo(entries[k].val) && Decodable(entries[k].val)
    {
    }
    assert NoInfoEntries(entries);
  }

  /** An entry under a plain key other than "info", with a value of that kind. */
  predicate ProperEntry(e: Entry) {
    CString(e.key) == e.key != INFO && Proper(e.val)
  }

  lemma FourEntries(e0: Entry, e1: Entry, e2: Entry, e3: Entry)
    requires ProperEntry(e0) && ProperEntry(e1) && ProperEntry(e2) && ProperEntry(e3)
    ensures var n := Dict([e0, e1, e2, e3]);
      && Proper(n)
      && (Singletons(n) <==> Singletons(e0.val) && Singletons(e1.val) && Singletons(e2.val) && Singletons(e3.val))
      && (PlainKeys(n) <==> PlainKeys(e0.val) && PlainKeys(e1.val) && PlainKeys(e2.val) && PlainKeys(e3.val))
  {
    hide CString, Proper, Singletons, PlainKeys;
    var entries := [e0, e1, e2, e3];
    assert entries[0] == e0 && entries[1] == e1 && entries[2] == e2 && entries[3] == e3;
    DictShape(entries);
  }

  lemma SingleFileShape(size: nat, name: seq<byte>, pieceSize: nat, s: seq<byte>)
    requires size <= MAX_LONG && pieceSize <= MAX_LONG
    ensures var v := SingleFile(size, name, pieceSize, s); Proper(v) && Singletons(v) && PlainKeys(v)
  {
    hide CString, Proper, Singletons, PlainKeys;
    NamedKeys();
    LeafShape(Int(size));
    LeafShape(Str(name));
    LeafShape(Int(pieceSize));
    LeafShape(Str(s));
    FourEntries(Entry(LENGTH, Int(size)), Entry(NAME, Str(name)), Entry(PIECE_LENGTH, Int(pieceSize)),
      Entry(PIECES, Str(s)));
  }

  lemma TorrentShape(url: seq<byte>, v: Node)
    requires Proper(v)
    ensures TorrentTree(url, v) == Dict([Entry(ANNOUNCE, Str(url))] + [Entry(INFO, v)] + [])
      && Decodable(TorrentTree(url, v))
    ensures NoInfoEntries([Entry(ANNOUNCE, Str(url))]) && NoInfoEntries([])
  {
    hide CString;
    NamedKeys();
  }

  /**
   Every single-file torrent laid out as BEP 3 asks is canonical: its info hash is taken over the bytes that
   encode "info", and the sizes and hashes noted make a valid torrent for a leecher to start from.
   */
  lemma SingleFileRead(url: seq<byte>, size: nat, name: seq<byte>, pieceSize: nat, s: seq<byte>, file: seq<byte>,
    rest: seq<byte>)
    requires 0 < size <= MAX_LONG && 0 < pieceSize <= MAX_LONG
    requires Geometry.PieceCount(size, pieceSize) < 0x80000000 && 20 * Geometry.PieceCount(size, pieceSize) <= |s|
    requires file == Encode(TorrentTree(url, SingleFile(size, name, pieceSize, s))) + rest && |file| <= MAX_LONG
    ensures var pre, v := [Entry(ANNOUNCE, Str(url))], SingleFile(size, name, pieceSize, s);
      && Canonical(file, pre, v, [], rest) && Parse(file, 0).Some? && InfoStart(pre) + |Encode(v)| <= |file|
      && var effect := Populate(Parse(file, 0).value.0, BLANK);
         && effect.Done? && effect.meta.buffer == InfoBytes(file, pre, v)
         && effect.meta.announce == Some(CString(url)) && effect.meta.name == CString(name)
         && effect.meta.fileSize == size && effect.meta.pieceSize == pieceSize
         && effect.meta.hashes == Hashes(s, Geometry.PieceCount(size, pieceSize))
         && Swarm.Torrent(size, pieceSize, effect.meta.hashes).Valid()
         && (|file| <= 8192 ==>
               Readable(file) && InfoHashOf(file) == Some(Sha1Spec.Digest(InfoBytes(file, pre, v))))
  {
    hide Populate, Parse, Encode, Flat, Fine, CString, Hashes, Geometry.PieceCount, SingleFile, NoInfo, Decodable,
         Singletons, PlainKeys, NoInfoEntries, Readable, InfoHashOf, Sha1Spec.Digest, Print;
    var pre, v := [Entry(ANNOUNCE, Str(url))], SingleFile(size, name, pieceSize, s);
    SingleFileShape(size, name, pieceSize, s);
    TorrentShape(url, v);
    TorrentWalk(url, v);
    SingleFileNoted(size, name, pieceSize, s, BLANK.(announce := Some(CString(url)), insideInfo := true));
    WalkSucceedsIff(TorrentTree(url, v));
    CanonicalWalk(file, pre, v, [], rest);
    HashedBytesAreInfoValueIff(file, pre, v, [], rest);
    if |file| <= MAX_FILE {
      InfoHashIsOfInfoValue(file, pre, v, [], rest);
    }
  }

  // ---------- a torrent of several files ----------

  const FILES: seq<byte> := [102, 105, 108, 101, 115]
  const PATH: seq<byte> := [112, 97, 116, 104]

  datatype FileItem = FileItem(length: nat, path: seq<seq<byte>>)

  function Strings(path: seq<seq<byte>>): seq<Node> {
    if path == [] then [] else [Str(path[0])] + Strings(path[1..])
  }

  function FileNodes(files: seq<FileItem>): seq<Node> {
    if files == [] then []
    else
      var f := files[0];
      [Dict([Entry(LENGTH, Int(f.length)), Entry(PATH, List(Strings(f.path)))])] + FileNodes(files[1..])
  }

  function TotalSize(files: seq<FileItem>): nat {
    if files == [] then 0 else files[0].length + TotalSize(files[1..])
  }

  /** The value of "info" for several files, in the order BEP 3 asks for. */
  function MultiFile(files: seq<FileItem>, name: seq<byte>, pieceSize: nat, hashes: seq<byte>): Node {
    Dict([Entry(FILES, List(FileNodes(files))), Entry(NAME, Str(name)), Entry(PIECE_LENGTH, Int(pieceSize)),
      Entry(PIECES, Str(hashes))])
  }

  lemma FileKeysAre()
    ensures FILES == Ascii("files") && PATH == Ascii("path")
  {
  }

  lemma {:induction false} StringsShape(path: seq<seq<byte>>)
    ensures |Strings(path)| == |path| && FlatItems(Strings(path)) == []
    ensures forall k | 0 <= k < |path| :: Strings(path)[k].Str?
  {
    if path != [] {
      StringsShape(path[1..]);
      assert Strings(path)[1..] == Strings(path[1..]);
    }
  }

  lemma {:induction false} FilesShape(files: seq<FileItem>)
    requires TotalSize(files) <= MAX_LONG && forall k | 0 <= k < |files| :: files[k].path != []
    ensures |FileNodes(files)| == |files| && forall k | 0 <= k < |files| :: Proper(FileNodes(files)[k])
  {
    hide Proper;
    if files != [] {
      FilesShape(files[1..]);
      FileShape(files[0]);
    }
  }

  lemma {:induction false} FileShape(f: FileItem)
    requires f.length <= MAX_LONG && f.path != []
    ensures Proper(Dict([Entry(LENGTH, Int(f.length)), Entry(PATH, List(Strings(f.path)))]))
    ensures Flat(Dict([Entry(LENGTH, Int(f.length)), Entry(PATH, List(Strings(f.path)))]))
         == [Entry(LENGTH, Int(f.length))] + ([Entry(PATH, List(Strings(f.path)))] + [])
  {
    hide CString, Proper, Strings, Singletons, PlainKeys, FlatEntries, FlatItems;
    var e0, e1 := Entry(LENGTH, Int(f.length)), Entry(PATH, List(Strings(f.path)));
    NamedKeys();
    StringsShape(f.path);
    forall k | 0 <= k < |f.path|
      ensures Proper(Strings(f.path)[k])
    {
      LeafShape(Strings(f.path)[k]);
    }
    ListShape(Strings(f.path));
    LeafShape(e0.val);
    DictShape([e0, e1]);
    FlatNone();
    FlatEntry(e1, []);
    FlatEntry(e0, [e1] + []);
    assert [e0, e1] == [e0] + ([e1] + []);
  }

  lemma FlatEntry(e: Entry, rest: seq<Entry>)
    ensures FlatEntries([e] + rest) == [e] + (Flat(e.val) + FlatEntries(rest))
  {
    assert ([e] + rest)[1..] == rest;
  }

  lemma OneFileFine(f: FileItem, before: seq<Entry>, rest: seq<Entry>)
    requires f.length <= MAX_LONG
    ensures var e0, e1 := Entry(LENGTH, Int(f.length)), Entry(PATH, List(Strings(f.path)));
      && (Fine(before + [e0] + [e1], rest) ==> Fine(before, [e0] + ([e1] + rest)))
      && (Announced(before) ==> Announced(before + [e0] + [e1]))
      && LastNumber(before + [e0] + [e1], LENGTH) == f.length
  {
    hide Fine, CString, LastNumber, Announced, Strings;
    NamedKeys();
    var e0, e1 := Entry(LENGTH, Int(f.length)), Entry(PATH, List(Strings(f.path)));
    FineFirst(before, e0, [e1] + rest);
    FineFirst(before + [e0], e1, rest);
    AnnouncedNext(before, e0);
    AnnouncedNext(before + [e0], e1);
    LastNumberNext(before, e0, LENGTH);
    LastNumberNext(before + [e0], e1, LENGTH);
  }

  /** The walk over the list of files fails nowhere, and leaves the length of the last file noted. */
  lemma {:induction false} FilesFine(files: seq<FileItem>, before: seq<Entry>)
    requires TotalSize(files) <= MAX_LONG && forall k | 0 <= k < |files| :: files[k].path != []
    ensures Fine(before, FlatItems(FileNodes(files)))
    ensures Announced(before) ==> Announced(before + FlatItems(FileNodes(files)))
    ensures LastNumber(before + FlatItems(FileNodes(files)), LENGTH)
         == if files == [] then LastNumber(before, LENGTH) else files[|files| - 1].length
    decreases files
  {
    hide Flat, Fine, CString, LastNumber, Announced, Strings, EntryFine;
    if files == [] {
      FineNone(before);
      assert before + [] == before;
    } else {
      var f, rest := files[0], FlatItems(FileNodes(files[1..]));
      var e0, e1 := Entry(LENGTH, Int(f.length)), Entry(PATH, List(Strings(f.path)));
      FileShape(f);
      assert FileNodes(files)[1..] == FileNodes(files[1..]);
      assert FlatItems(FileNodes(files)) == [e0] + ([e1] + rest);
      FilesFine(files[1..], before + [e0] + [e1]);
      OneFileFine(f, before, rest);
      assert before + [e0] + [e1] + rest == before + ([e0] + ([e1] + rest));
    }
  }

  /** The entries that end an "info" value are fine after the announce URL and the sizes. */
  lemma EndFine(before: seq<Entry>, name: seq<byte>, pieceSize: nat, s: seq<byte>)
    requires Announced(before) && pieceSize <= MAX_LONG && HashesSuffice(LastNumber(before, LENGTH), pieceSize, |s|)
    ensures Fine(before, [Entry(NAME, Str(name))]
      + ([Entry(PIECE_LENGTH, Int(pieceSize))] + ([Entry(PIECES, Str(s))] + [])))
  {
    hide CString, LastNumber, Announced, HashesSuffice, Fine;
    NamedKeys();
    var e0, e1, e2 := Entry(NAME, Str(name)), Entry(PIECE_LENGTH, Int(pieceSize)), Entry(PIECES, Str(s));
    var b1, b2 := before + [e0], before + [e0] + [e1];
    FineFirst(before, e0, [e1] + ([e2] + []));
    FineFirst(b1, e1, [e2] + []);
    FineFirst(b2, e2, []);
    FineNone(b2 + [e2]);
    LastNumberNext(before, e0, LENGTH);
    LastNumberNext(b1, e1, LENGTH);
    LastNumberNext(b1, e1, PIECE_LENGTH);
  }

  lemma {:induction false} LastOfTotal(files: seq<FileItem>)
    requires files != []
    ensures files[|files| - 1].length <= TotalSize(files)
  {
    if |files| > 1 {
      LastOfTotal(files[1..]);
    }
  }

  lemma EnoughHashes(size: nat, total: nat, pieceSize: nat, bytes: nat)
    requires size <= total && pieceSize > 0
    requires Geometry.PieceCount(total, pieceSize) < 0x80000000 && 20 * Geometry.PieceCount(total, pieceSize) <= bytes
    ensures HashesSuffice(size, pieceSize, bytes)
  {
    hide Geometry.PieceCount;
    Geometry.CountMonotone(size, total, pieceSize);
  }

  /** The entries of the list of files and those after it are fine. */
  lemma {:induction false} FilesThenEnd(files: seq<FileItem>, before: seq<Entry>, name: seq<byte>, pieceSize: nat,
    s: seq<byte>)
    requires files != [] && TotalSize(files) <= MAX_LONG && forall k | 0 <= k < |files| :: files[k].path != []
    requires 0 < pieceSize <= MAX_LONG && Announced(before)
    requires Geometry.PieceCount(TotalSize(files), pieceSize) < 0x80000000
    requires 20 * Geometry.PieceCount(TotalSize(files), pieceSize) <= |s|
    ensures Fine(before, FlatItems(FileNodes(files))
              + ([Entry(NAME, Str(name))] + ([Entry(PIECE_LENGTH, Int(pieceSize))] + ([Entry(PIECES, Str(s))] + []))))
  {
    hide Fine, LastNumber, Announced, HashesSuffice, Geometry.PieceCount, FileNodes, FlatItems;
    var inner := FlatItems(FileNodes(files));
    FineSplit(before, inner, [Entry(NAME, Str(name))]
      + ([Entry(PIECE_LENGTH, Int(pieceSize))] + ([Entry(PIECES, Str(s))] + [])));
    FilesFine(files, before);
    LastOfTotal(files);
    EnoughHashes(files[|files| - 1].length, TotalSize(files), pieceSize, |s|);
    EndFine(before + inner, name, pieceSize, s);
  }

  lemma {:induction false} MultiFileFine(url: seq<byte>, files: seq<FileItem>, name: seq<byte>, pieceSize: nat,
    s: seq<byte>)
    requires files != [] && TotalSize(files) <= MAX_LONG && forall k | 0 <= k < |files| :: files[k].path != []
    requires 0 < pieceSize <= MAX_LONG
    requires Geometry.PieceCount(TotalSize(files), pieceSize) < 0x80000000
    requires 20 * Geometry.PieceCount(TotalSize(files), pieceSize) <= |s|
    ensures Fine([], Flat(TorrentTree(url, MultiFile(files, name, pieceSize, s))))
  {
    hide Fine, Flat, LastNumber, Announced, EntryFine, HashesSuffice, Geometry.PieceCount, FileNodes, FlatItems,
         TotalSize, MultiFile;
    var v := MultiFile(files, name, pieceSize, s);
    FlatMulti(url, files, name, pieceSize, s);
    var e0, e1, e2 := Entry(ANNOUNCE, Str(url)), Entry(INFO, v), Entry(FILES, List(FileNodes(files)));
    var before := [] + [e0] + [e1] + [e2];
    FirstThree(e0, e1, e2);
    FilesThenEnd(files, before, name, pieceSize, s);
    ThreeThen(e0, e1, e2, FlatItems(FileNodes(files))
              + ([Entry(NAME, Str(name))] + ([Entry(PIECE_LENGTH, Int(pieceSize))] + ([Entry(PIECES, Str(s))] + []))));
  }

  lemma ThreeThen(e0: Entry, e1: Entry, e2: Entry, rest: seq<Entry>)
    requires EntryFine([], e0) && EntryFine([] + [e0], e1) && EntryFine([] + [e0] + [e1], e2)
    requires Fine([] + [e0] + [e1] + [e2], rest)
    ensures Fine([], [e0] + ([e1] + ([e2] + rest)))
  {
    hide Fine, EntryFine;
    FineFirst([], e0, [e1] + ([e2] + rest));
    FineFirst([] + [e0], e1, [e2] + rest);
    FineFirst([] + [e0] + [e1], e2, rest);
  }

  lemma FirstThree(e0: Entry, e1: Entry, e2: Entry)
    requires e0.key == ANNOUNCE && e0.val.Str? && e1.key == INFO && e2.key == FILES
    ensures EntryFine([], e0) && EntryFine([] + [e0], e1) && EntryFine([] + [e0] + [e1], e2)
    ensures Announced([] + [e0] + [e1] + [e2])
  {
    hide CString, LastNumber, Announced, HashesSuffice;
    NamedKeys();
    AnnouncedNext([], e0);
    AnnouncedNext([] + [e0], e1);
    AnnouncedNext([] + [e0] + [e1], e2);
  }

  lemma FlatMulti(url: seq<byte>, files: seq<FileItem>, name: seq<byte>, pieceSize: nat, s: seq<byte>)
    ensures var v := MultiFile(files, name, pieceSize, s);
      Flat(TorrentTree(url, v))
        == [Entry(ANNOUNCE, Str(url))]
           + ([Entry(INFO, v)] + ([Entry(FILES, List(FileNodes(files)))] + (FlatItems(FileNodes(files))
             + ([Entry(NAME, Str(name))] + ([Entry(PIECE_LENGTH, Int(pieceSize))] + ([Entry(PIECES, Str(s))] + []))))))
  {
    hide FileNodes, FlatItems, FlatEntries;
    var v := MultiFile(files, name, pieceSize, s);
    var e0, e1, e2 := Entry(ANNOUNCE, Str(url)), Entry(INFO, v), Entry(FILES, List(FileNodes(files)));
    var e3, e4, e5 := Entry(NAME, Str(name)), Entry(PIECE_LENGTH, Int(pieceSize)), Entry(PIECES, Str(s));
    FlatNone();
    FlatEntry(e5, []);
    FlatEntry(e4, [e5] + []);
    FlatEntry(e3, [e4] + ([e5] + []));
    FlatEntry(e2, [e3] + ([e4] + ([e5] + [])));
    FlatEntry(e1, []);
    FlatEntry(e0, [e1] + []);
    assert [e0, e1] == [e0] + ([e1] + []);
    assert [e2, e3, e4, e5] == [e2] + ([e3] + ([e4] + ([e5] + [])));
  }

  lemma FlatNone()
    ensures FlatEntries([]) == []
  {
  }

  lemma {:induction false} MultiFileShape(files: seq<FileItem>, name: seq<byte>, pieceSize: nat, s: seq<byte>)
    requires |files| >= 2 && TotalSize(files) <= MAX_LONG && forall k | 0 <= k < |files| :: files[k].path != []
    requires pieceSize <= MAX_LONG
    ensures var v := MultiFile(files, name, pieceSize, s); Proper(v) && !Singletons(v)
  {
    hide CString, Proper, Singletons, PlainKeys, FileNodes;
    NamedKeys();
    FilesShape(files);
    ListShape(FileNodes(files));
    LeafShape(Str(name));
    LeafShape(Int(pieceSize));
    LeafShape(Str(s));
    FourEntries(Entry(FILES, List(FileNodes(files))), Entry(NAME, Str(name)), Entry(PIECE_LENGTH, Int(pieceSize)),
      Entry(PIECES, Str(s)));
  }

  /**
   Every torrent of two or more files laid out as BEP 3 asks is read without an error, and the bytes hashed for it
   are not those that encode "info".
   */
  lemma {:induction false} MultiFileHashedWrong(url: seq<byte>, files: seq<FileItem>, name: seq<byte>, pieceSize: nat,
    s: seq<byte>, file: seq<byte>, rest: seq<byte>)
    requires |files| >= 2 && TotalSize(files) <= MAX_LONG && forall k | 0 <= k < |files| :: files[k].path != []
    requires 0 < pieceSize <= MAX_LONG
    requires Geometry.PieceCount(TotalSize(files), pieceSize) < 0x80000000
    requires 20 * Geometry.PieceCount(TotalSize(files), pieceSize) <= |s|
    requires file == Encode(TorrentTree(url, MultiFile(files, name, pieceSize, s))) + rest && |file| <= MAX_LONG
    ensures var pre, v := [Entry(ANNOUNCE, Str(url))], MultiFile(files, name, pieceSize, s);
      && Canonical(file, pre, v, [], rest) && Parse(file, 0).Some? && InfoStart(pre) + |Encode(v)| <= |file|
      && var effect := Populate(Parse(file, 0).value.0, BLANK);
         effect.Done? && effect.meta.buffer != InfoBytes(file, pre, v)
  {
    hide Populate, Parse, Encode, Flat, Fine, CString, Geometry.PieceCount, MultiFile, NoInfo, Decodable, Singletons,
         PlainKeys, NoInfoEntries;
    var pre, v := [Entry(ANNOUNCE, Str(url))], MultiFile(files, name, pieceSize, s);
    MultiFileShape(files, name, pieceSize, s);
    MultiFileFine(url, files, name, pieceSize, s);
    TorrentShape(url, v);
    HashedBytesAreInfoValueIff(file, pre, v, [], rest);
  }
}
