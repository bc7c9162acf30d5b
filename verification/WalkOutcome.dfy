/** On which torrent files the walk of populate_struct succeeds, told from their entries. */
module WalkOutcome {
  import opened Bytes
  import opened Bencode
  import opened Metainfo
  import Geometry

  // ---------- the entries of a tree, in the order in which the walk meets them ----------

  function Flat(n: Node): seq<Entry>
    decreases n
  {
    match n
    case Str(_) => []
    case Int(_) => []
    case List(items) => FlatItems(items)
    case Dict(entries) => FlatEntries(entries)
  }

  function FlatItems(items: seq<Node>): seq<Entry>
    decreases items
  {
    if items == [] then [] else Flat(items[0]) + FlatItems(items[1..])
  }

  function FlatEntries(entries: seq<Entry>): seq<Entry>
    decreases entries
  {
    if entries == [] then [] else [entries[0]] + (Flat(entries[0].val) + FlatEntries(entries[1..]))
  }

  // ---------- what an entry needs of those before it ----------

  /** Some entry is an announce URL. */
  predicate Announced(before: seq<Entry>) {
    exists k :: 0 <= k < |before| && CString(before[k].key) == ANNOUNCE
  }

  /** The last number under a key, as an unsigned 64-bit value; 0 if there is none. */
  function LastNumber(before: seq<Entry>, key: seq<byte>): nat {
    if before == [] then 0
    else
      var e := before[|before| - 1];
      if CString(e.key) == key && e.val.Int? then e.val.i % 0x10000000000000000
        else LastNumber(before[..|before| - 1], key)
  }

  /** The last string under a key, as a C string. */
  function LastText(before: seq<Entry>, key: seq<byte>): Option<seq<byte>> {
    if before == [] then None
    else
      var e := before[|before| - 1];
      if CString(e.key) == key && e.val.Str? then Some(CString(e.val.s)) else LastText(before[..|before| - 1], key)
  }

  /** A string of so many bytes has a hash for every piece, their number fitting an int. */
  predicate HashesSuffice(fileSize: nat, pieceSize: nat, bytes: nat) {
    && pieceSize > 0
    && 0 <= 20 * Int32(Geometry.PieceCount(fileSize, pieceSize)) <= bytes
  }

  /** The value is of the type that its key asks for; a name comes after an announce URL, the hashes after the sizes. */
  predicate EntryFine(before: seq<Entry>, e: Entry) {
    var key := CString(e.key);
    && (key == ANNOUNCE || key == NAME || key == PIECES ==> e.val.Str?)
    && (key == LENGTH || key == PIECE_LENGTH ==> e.val.Int?)
    && (key == NAME ==> Announced(before))
    && (key == PIECES ==> HashesSuffice(LastNumber(before, LENGTH), LastNumber(before, PIECE_LENGTH), |e.val.s|))
  }

  predicate Fine(before: seq<Entry>, entries: seq<Entry>) {
    forall i | 0 <= i < |entries| :: EntryFine(before + entries[..i], entries[i])
  }

  /** The entry is a name, and no announce URL came before. */
  predicate EntryExits(before: seq<Entry>, e: Entry) {
    CString(e.key) == NAME && e.val.Str? && !Announced(before)
  }

  /** The first entry that is not fine is a name without an announce URL before it. */
  ghost predicate ExitsIn(before: seq<Entry>, entries: seq<Entry>) {
    exists i :: 0 <= i < |entries| && ExitsAt(before, entries, i)
  }

  predicate ExitsAt(before: seq<Entry>, entries: seq<Entry>, i: nat)
    requires i < |entries|
  {
    Fine(before, entries[..i]) && EntryExits(before + entries[..i], entries[i])
  }

  lemma FineNone(before: seq<Entry>)
    ensures Fine(before, []) && !ExitsIn(before, [])
  {
  }

  lemma FineSplit(before: seq<Entry>, a: seq<Entry>, b: seq<Entry>)
    ensures Fine(before, a + b) <==> Fine(before, a) && Fine(before + a, b)
  {
    hide EntryFine;
    var ab := a + b;
    assert forall i | 0 <= i < |a| :: ab[..i] == a[..i] && ab[i] == a[i];
    assert forall i | 0 <= i < |b| :: before + ab[..|a| + i] == before + a + b[..i] && ab[|a| + i] == b[i];
    if Fine(before, ab) {
      forall i | 0 <= i < |b|
        ensures EntryFine(before + a + b[..i], b[i])
      {
        assert EntryFine(before + ab[..|a| + i], ab[|a| + i]);
      }
    }
    if Fine(before, a) && Fine(before + a, b) {
      forall i | 0 <= i < |ab|
        ensures EntryFine(before + ab[..i], ab[i])
      {
        if i >= |a| {
          assert EntryFine(before + a + b[..i - |a|], b[i - |a|]);
        }
      }
    }
  }

  lemma ExitsSplit(before: seq<Entry>, a: seq<Entry>, b: seq<Entry>)
    ensures ExitsIn(before, a + b) <==> ExitsIn(before, a) || (Fine(before, a) && ExitsIn(before + a, b))
  {
    hide EntryExits, Fine;
    var ab := a + b;
    forall i | 0 <= i < |a|
      ensures ExitsAt(before, ab, i) <==> ExitsAt(before, a, i)
    {
      assert ab[..i] == a[..i] && ab[i] == a[i];
    }
    forall i | 0 <= i < |b|
      ensures ExitsAt(before, ab, |a| + i) <==> Fine(before, a) && ExitsAt(before + a, b, i)
    {
      assert ab[..|a| + i] == a + b[..i] && ab[|a| + i] == b[i];
      assert before + (a + b[..i]) == before + a + b[..i];
      FineSplit(before, a, b[..i]);
    }
    if i :| 0 <= i < |ab| && ExitsAt(before, ab, i) {
      if i < |a| {
        assert ExitsAt(before, a, i);
      } else {
        assert ExitsAt(before, ab, |a| + (i - |a|));
        assert ExitsAt(before + a, b, i - |a|);
      }
    }
  }

  lemma FineFirst(before: seq<Entry>, e: Entry, rest: seq<Entry>)
    ensures Fine(before, [e] + rest) <==> EntryFine(before, e) && Fine(before + [e], rest)
  {
    hide EntryFine;
    FineSplit(before, [e], rest);
    assert before + [e][..0] == before;
    assert Fine(before, [e]) <==> EntryFine(before, e);
  }

  lemma ExitsFirst(before: seq<Entry>, e: Entry, rest: seq<Entry>)
    ensures ExitsIn(before, [e] + rest)
       <==> EntryExits(before, e) || (EntryFine(before, e) && ExitsIn(before + [e], rest))
  {
    hide EntryFine, EntryExits;
    ExitsSplit(before, [e], rest);
    assert before + [e][..0] == before;
    assert Fine(before, [e]) <==> EntryFine(before, e);
    assert ExitsAt(before, [e], 0) <==> EntryExits(before, e);
  }

  // ---------- the walk succeeds just where all entries are fine ----------

  /** The globals hold what the entries walked so far have set. */
  predicate Matches(m: Meta, before: seq<Entry>) {
    && (m.announce.Some? <==> Announced(before))
    && m.announce == LastText(before, ANNOUNCE)
    && m.name == (match LastText(before, NAME) case Some(name) => name case None => [])
    && m.fileSize == LastNumber(before, LENGTH)
    && m.pieceSize == LastNumber(before, PIECE_LENGTH)
  }

  lemma LastNumberNext(before: seq<Entry>, e: Entry, key: seq<byte>)
    ensures LastNumber(before + [e], key)
         == if CString(e.key) == key && e.val.Int? then e.val.i % 0x10000000000000000 else LastNumber(before, key)
  {
    assert (before + [e])[..|before|] == before;
  }

  lemma LastTextNext(before: seq<Entry>, e: Entry, key: seq<byte>)
    ensures LastText(before + [e], key)
         == if CString(e.key) == key && e.val.Str? then Some(CString(e.val.s)) else LastText(before, key)
  {
    assert (before + [e])[..|before|] == before;
  }

  lemma AnnouncedNext(before: seq<Entry>, e: Entry)
    ensures Announced(before + [e]) <==> CString(e.key) == ANNOUNCE || Announced(before)
  {
    hide CString;
    var all := before + [e];
    if CString(e.key) == ANNOUNCE {
      assert all[|before|] == e;
    }
    if k :| 0 <= k < |before| && CString(before[k].key) == ANNOUNCE {
      assert all[k] == before[k];
    }
  }

  lemma NoteIff(before: seq<Entry>, e: Entry, m: Meta)
    requires Matches(m, before)
    ensures var effect := Note(CString(e.key), e.val, m);
      && (effect.Done? <==> EntryFine(before, e)) && (effect.Exits? <==> EntryExits(before, e))
      && (effect.Done? ==> Matches(effect.meta, before + [e]))
  {
    hide CString, LastNumber, LastText, Announced, Geometry.PieceCount, Hashes, Int32;
    LastTextNext(before, e, ANNOUNCE);
    LastTextNext(before, e, NAME);
    LastNumberNext(before, e, LENGTH);
    LastNumberNext(before, e, PIECE_LENGTH);
    AnnouncedNext(before, e);
  }

  lemma EmitMatches(m: Meta, bytes: seq<byte>, before: seq<Entry>)
    ensures Matches(Emit(m, bytes), before) <==> Matches(m, before)
  {
  }

  lemma {:induction false} WalkIff(n: Node, m: Meta, before: seq<Entry>)
    requires Matches(m, before)
    ensures Populate(n, m).Done? <==> Fine(before, Flat(n))
    ensures Populate(n, m).Exits? <==> ExitsIn(before, Flat(n))
    ensures Populate(n, m).Done? ==> Matches(Populate(n, m).meta, before + Flat(n))
    decreases n
  {
    hide Matches, Emit, EncodeStr, Signed, Fine, ExitsIn;
    match n
    case Str(s) =>
      FineNone(before);
      EmitMatches(m, EncodeStr(s), before);
      assert before + [] == before;
    case Int(i) =>
      FineNone(before);
      EmitMatches(m, [LETTER_I] + Signed(i) + [LETTER_E], before);
      assert before + [] == before;
    case List(items) => WalkItemsIff(items, m, before);
    case Dict(entries) =>
      var m0 := Emit(m, [LETTER_D]);
      EmitMatches(m, [LETTER_D], before);
      WalkEntriesIff(entries, m0, before);
      if PopulateEntries(entries, m0).Done? {
        EmitMatches(PopulateEntries(entries, m0).meta, [LETTER_E], before + Flat(n));
      }
  }

  lemma {:induction false} WalkItemsIff(items: seq<Node>, m: Meta, before: seq<Entry>)
    requires Matches(m, before)
    ensures PopulateItems(items, m).Done? <==> Fine(before, FlatItems(items))
    ensures PopulateItems(items, m).Exits? <==> ExitsIn(before, FlatItems(items))
    ensures PopulateItems(items, m).Done? ==> Matches(PopulateItems(items, m).meta, before + FlatItems(items))
    decreases items
  {
    hide Matches, Emit, Populate, Flat, Fine, ExitsIn;
    if items == [] {
      FineNone(before);
      assert before + [] == before;
    } else {
      var m0, first := Emit(m, [LETTER_L]), Flat(items[0]);
      EmitMatches(m, [LETTER_L], before);
      WalkIff(items[0], m0, before);
      FineSplit(before, first, FlatItems(items[1..]));
      ExitsSplit(before, first, FlatItems(items[1..]));
      if Populate(items[0], m0).Done? {
        var m1 := Populate(items[0], m0).meta;
        EmitMatches(m1, [LETTER_E], before + first);
        WalkItemsIff(items[1..], Emit(m1, [LETTER_E]), before + first);
        assert before + first + FlatItems(items[1..]) == before + FlatItems(items);
      }
    }
  }

  lemma {:induction false} WalkEntryIff(e: Entry, m: Meta, before: seq<Entry>)
    requires Matches(m, before)
    ensures PopulateEntry(e, m).Done? <==> EntryFine(before, e) && Fine(before + [e], Flat(e.val))
    ensures PopulateEntry(e, m).Exits?
       <==> EntryExits(before, e) || (EntryFine(before, e) && ExitsIn(before + [e], Flat(e.val)))
    ensures PopulateEntry(e, m).Done? ==> Matches(PopulateEntry(e, m).meta, before + [e] + Flat(e.val))
    decreases e
  {
    hide Emit, Populate, Flat, Fine, EntryFine, ExitsIn, EntryExits, LastText, Note, CString, EncodeStr,
         LastNumber, Announced;
    var key := CString(e.key);
    var m0 := Emit(m, EncodeStr(key));
    EmitMatches(m, EncodeStr(key), before);
    NoteIff(before, e, m0);
    if Note(key, e.val, m0).Done? {
      WalkIff(e.val, Note(key, e.val, m0).meta, before + [e]);
    }
  }

  lemma {:induction false} WalkEntriesIff(entries: seq<Entry>, m: Meta, before: seq<Entry>)
    requires Matches(m, before)
    ensures PopulateEntries(entries, m).Done? <==> Fine(before, FlatEntries(entries))
    ensures PopulateEntries(entries, m).Exits? <==> ExitsIn(before, FlatEntries(entries))
    ensures PopulateEntries(entries, m).Done?
      ==> Matches(PopulateEntries(entries, m).meta, before + FlatEntries(entries))
    decreases entries
  {
    hide Matches, PopulateEntry, Flat, Fine, EntryFine, ExitsIn, EntryExits;
    if entries == [] {
      FineNone(before);
      assert before + [] == before;
    } else {
      var e, inner, rest := entries[0], Flat(entries[0].val), FlatEntries(entries[1..]);
      WalkEntryIff(e, m, before);
      FineFirst(before, e, inner + rest);
      FineSplit(before + [e], inner, rest);
      ExitsFirst(before, e, inner + rest);
      ExitsSplit(before + [e], inner, rest);
      if PopulateEntry(e, m).Done? {
        WalkEntriesIff(entries[1..], PopulateEntry(e, m).meta, before + [e] + inner);
        assert before + [e] + inner + rest == before + ([e] + (inner + rest));
      }
    }
  }

  /**
   From the blank globals, the walk over a tree succeeds if and only if each of its entries, in the order of the
   walk, is fine after those before it; it ends in the program's own exit if and only if the first one that is not
   is a name without an announce URL before it.
   */
  lemma WalkSucceedsIff(n: Node)
    ensures Populate(n, BLANK).Done? <==> Fine([], Flat(n))
    ensures Populate(n, BLANK).Exits? <==> ExitsIn([], Flat(n))
  {
    hide Populate, Flat, Fine, ExitsIn;
    assert Matches(BLANK, []);
    WalkIff(n, BLANK, []);
  }

  /** When it succeeds, the last value under each key counts. */
  lemma LastValueCounts(n: Node)
    requires Populate(n, BLANK).Done?
    ensures var m, entries := Populate(n, BLANK).meta, Flat(n);
      && m.announce == LastText(entries, ANNOUNCE)
      && (LastText(entries, NAME).Some? ==> m.name == LastText(entries, NAME).value)
      && m.fileSize == LastNumber(entries, LENGTH) && m.pieceSize == LastNumber(entries, PIECE_LENGTH)
  {
    hide Populate, Flat, Fine, LastText, LastNumber;
    NoneLast();
    WalkIff(n, BLANK, []);
    assert [] + Flat(n) == Flat(n);
  }

  lemma NoneLast()
    ensures Matches(BLANK, [])
  {
  }
}
