/**
 Which bytes are hashed for the info hash. The walk prints a tree almost as BEP 3 encodes it, but frames
 every element of a list on its own and cuts keys at a NUL; the hash is right exactly where this makes no difference.
 */
module InfoPrint {
  import opened Bytes
  import opened Bencode
  import opened Metainfo

  // ---------- what is printed inside "info" ----------

  function Print(n: Node): seq<byte>
    decreases n
  {
    match n
    case Str(s) => EncodeStr(s)
    case Int(i) => [LETTER_I] + Signed(i) + [LETTER_E]
    case List(items) => PrintItems(items)
    case Dict(entries) => [LETTER_D] + PrintEntries(entries) + [LETTER_E]
  }

  function PrintItems(items: seq<Node>): seq<byte>
    decreases items
  {
    if items == [] then [] else [LETTER_L] + Print(items[0]) + [LETTER_E] + PrintItems(items[1..])
  }

  function PrintEntries(entries: seq<Entry>): seq<byte>
    decreases entries
  {
    if entries == [] then []
    else EncodeStr(CString(entries[0].key)) + Print(entries[0].val) + PrintEntries(entries[1..])
  }

  /** No key in the tree reads as "info". */
  predicate NoInfo(n: Node)
    decreases n
  {
    match n
    case Str(_) => true
    case Int(_) => true
    case List(items) => forall k | 0 <= k < |items| :: NoInfo(items[k])
    case Dict(entries) => NoInfoEntries(entries)
  }

  predicate NoInfoEntries(entries: seq<Entry>)
    decreases entries
  {
    forall k | 0 <= k < |entries| :: CString(entries[k].key) != INFO && NoInfo(entries[k].val)
  }

  /** The flag stays, and the bytes are added to the buffer if the flag is set. */
  predicate Adds(m: Meta, m': Meta, bytes: seq<byte>) {
    m'.insideInfo == m.insideInfo && m'.buffer == Emit(m, bytes).buffer
  }

  lemma NoteAddsNothing(key: seq<byte>, val: Node, m: Meta)
    requires key != INFO && Note(key, val, m).Done?
    ensures Adds(m, Note(key, val, m).meta, [])
  {
  }

  lemma AddsThen(m: Meta, m1: Meta, m2: Meta, a: seq<byte>, b: seq<byte>)
    requires Adds(m, m1, a) && Adds(m1, m2, b)
    ensures Adds(m, m2, a + b)
  {
    assert m.buffer + (a + b) == m.buffer + a + b;
  }

  lemma AddsNothing(m: Meta)
    ensures Adds(m, m, [])
  {
    assert m.buffer + [] == m.buffer;
  }

  /** Away from "info" keys, the walk prints the tree if it is inside "info", and nothing otherwise. */
  lemma {:induction false} WalkPrints(n: Node, m: Meta)
    requires NoInfo(n) && Populate(n, m).Done?
    ensures Adds(m, Populate(n, m).meta, Print(n))
    decreases n
  {
    hide Adds, Signed, EncodeStr;
    match n
    case Str(s) => EmitAdds(m, Print(n));
    case Int(i) => EmitAdds(m, Print(n));
    case List(items) => WalkPrintsItems(items, m);
    case Dict(entries) =>
      var m0 := Emit(m, [LETTER_D]);
      EmitAdds(m, [LETTER_D]);
      WalkPrintsEntries(entries, m0);
      var m1 := PopulateEntries(entries, m0).meta;
      EmitAdds(m1, [LETTER_E]);
      AddsThen(m, m0, m1, [LETTER_D], PrintEntries(entries));
      AddsThen(m, m1, Emit(m1, [LETTER_E]), [LETTER_D] + PrintEntries(entries), [LETTER_E]);
  }

  lemma EmitAdds(m: Meta, bytes: seq<byte>)
    ensures Adds(m, Emit(m, bytes), bytes)
  {
  }

  lemma {:induction false} WalkPrintsItems(items: seq<Node>, m: Meta)
    requires (forall k | 0 <= k < |items| :: NoInfo(items[k])) && PopulateItems(items, m).Done?
    ensures Adds(m, PopulateItems(items, m).meta, PrintItems(items))
    decreases items
  {
    hide Adds, Emit, Populate, Print;
    if items == [] {
      AddsNothing(m);
    } else {
      var m0 := Emit(m, [LETTER_L]);
      EmitAdds(m, [LETTER_L]);
      WalkPrints(items[0], m0);
      var m1 := Populate(items[0], m0).meta;
      var m2 := Emit(m1, [LETTER_E]);
      EmitAdds(m1, [LETTER_E]);
      WalkPrintsItems(items[1..], m2);
      var first := [LETTER_L] + Print(items[0]);
      AddsThen(m, m0, m1, [LETTER_L], Print(items[0]));
      AddsThen(m, m1, m2, first, [LETTER_E]);
      AddsThen(m, m2, PopulateItems(items, m).meta, first + [LETTER_E], PrintItems(items[1..]));
    }
  }

  lemma {:induction false} WalkPrintsEntries(entries: seq<Entry>, m: Meta)
    requires NoInfoEntries(entries) && PopulateEntries(entries, m).Done?
    ensures Adds(m, PopulateEntries(entries, m).meta, PrintEntries(entries))
    decreases entries
  {
    hide Adds, Emit, Populate, Print, Note, EncodeStr, CString;
    if entries == [] {
      AddsNothing(m);
    } else {
      var e := entries[0];
      var key := CString(e.key);
      var m0 := Emit(m, EncodeStr(key));
      EmitAdds(m, EncodeStr(key));
      var m1 := Note(key, e.val, m0).meta;
      NoteAddsNothing(key, e.val, m0);
      AddsThen(m, m0, m1, EncodeStr(key), []);
      assert EncodeStr(key) + [] == EncodeStr(key);
      WalkPrints(e.val, m1);
      var m2 := Populate(e.val, m1).meta;
      AddsThen(m, m1, m2, EncodeStr(key), Print(e.val));
      assert PopulateEntry(e, m) == Done(m2);
      WalkPrintsEntries(entries[1..], m2);
      AddsThen(m, m2, PopulateEntries(entries, m).meta, EncodeStr(key) + Print(e.val), PrintEntries(entries[1..]));
    }
  }

  /** Walking a file with one "info" key, at the top, prints exactly its value. */
  lemma InfoValuePrinted(pre: seq<Entry>, key: seq<byte>, v: Node, post: seq<Entry>, m: Meta)
    requires CString(key) == INFO && NoInfoEntries(pre) && NoInfo(v) && NoInfoEntries(post)
    requires !m.insideInfo && Populate(Dict(pre + [Entry(key, v)] + post), m).Done?
    ensures Populate(Dict(pre + [Entry(key, v)] + post), m).meta.buffer == m.buffer + Print(v)
  {
    var entries := pre + [Entry(key, v)] + post;
    assert entries == pre + ([Entry(key, v)] + post);
    EntriesInTurn(pre, [Entry(key, v)] + post, m);
    var m1 := PopulateEntries(pre, m).meta;
    WalkPrintsEntries(pre, m);
    assert ([Entry(key, v)] + post)[1..] == post;
    var m2 := Note(INFO, v, m1).meta;
    assert m2 == m1.(insideInfo := true);
    WalkPrints(v, m2);
    var m3 := PopulateEntry(Entry(key, v), m1).meta;
    WalkPrintsEntries(post, m3);
  }

  lemma {:induction false} EntriesInTurn(a: seq<Entry>, b: seq<Entry>, m: Meta)
    requires PopulateEntries(a + b, m).Done?
    ensures PopulateEntries(a, m).Done? && PopulateEntries(a + b, m) == PopulateEntries(b, PopulateEntries(a, m).meta)
    decreases a
  {
    hide PopulateEntry;
    if a == [] {
      assert a + b == b;
    } else {
      assert (a + b)[1..] == a[1..] + b;
      EntriesInTurn(a[1..], b, PopulateEntry(a[0], m).meta);
    }
  }

  // ---------- where printing is canonical ----------

  /** Every list has exactly one element. */
  predicate Singletons(n: Node)
    decreases n
  {
    match n
    case Str(_) => true
    case Int(_) => true
    case List(items) => |items| == 1 && Singletons(items[0])
    case Dict(entries) => forall k | 0 <= k < |entries| :: Singletons(entries[k].val)
  }

  /** No key holds a NUL. */
  predicate PlainKeys(n: Node)
    decreases n
  {
    match n
    case Str(_) => true
    case Int(_) => true
    case List(items) => forall k | 0 <= k < |items| :: PlainKeys(items[k])
    case Dict(entries) =>
      forall k | 0 <= k < |entries| :: CString(entries[k].key) == entries[k].key && PlainKeys(entries[k].val)
  }

  lemma {:induction false} CanonicalWhenSingletons(n: Node)
    requires Singletons(n) && PlainKeys(n)
    ensures Print(n) == Encode(n)
    decreases n
  {
    match n
    case Str(_) =>
    case Int(_) =>
    case List(items) =>
      CanonicalWhenSingletons(items[0]);
      assert items[1..] == [];
      assert EncodeItems(items) == Encode(items[0]);
      assert PrintItems(items) == [LETTER_L] + Print(items[0]) + [LETTER_E];
    case Dict(entries) => CanonicalEntries(entries);
  }

  lemma {:induction false} CanonicalEntries(entries: seq<Entry>)
    requires forall k | 0 <= k < |entries| ::
      Singletons(entries[k].val) && PlainKeys(entries[k].val) && CString(entries[k].key) == entries[k].key
    ensures PrintEntries(entries) == EncodeEntries(entries)
    decreases entries
  {
    if entries != [] {
      CanonicalWhenSingletons(entries[0].val);
      CanonicalEntries(entries[1..]);
    }
  }

  lemma DropFirst(a: seq<byte>, x: seq<byte>, y: seq<byte>)
    requires a + x == a + y
    ensures x == y
  {
    assert x == (a + x)[|a|..] == (a + y)[|a|..] == y;
  }

  /** Two runs of digits that start a common text, each followed by a colon, are the same. */
  lemma SameDigits(d: seq<byte>, d': seq<byte>, t: seq<byte>, t': seq<byte>)
    requires (forall k | 0 <= k < |d| :: IsDigit(d[k])) && (forall k | 0 <= k < |d'| :: IsDigit(d'[k]))
    requires d + ([COLON] + t) == d' + ([COLON] + t')
    ensures d == d' && t == t'
  {
    var text := d + ([COLON] + t);
    assert text[|d|] == COLON && text[|d'|] == COLON;
    DigitsEnd(text, 0, |d|) by { assert forall i | 0 <= i < |d| :: text[i] == d[i]; }
    DigitsEnd(text, 0, |d'|) by { assert forall i | 0 <= i < |d'| :: text[i] == d'[i]; }
    assert d == text[..|d|] == d';
    DropFirst(d, [COLON] + t, [COLON] + t');
    DropFirst([COLON], t, t');
  }

  /** Two byte strings that start a common text, both encoded with their lengths, are the same. */
  lemma SameStr(s: seq<byte>, s': seq<byte>, r: seq<byte>, r': seq<byte>)
    requires EncodeStr(s) + r == EncodeStr(s') + r'
    ensures s == s' && r == r'
  {
    hide Decimal, Value;
    var d, d' := Decimal(|s|), Decimal(|s'|);
    assert EncodeStr(s) + r == d + ([COLON] + (s + r)) && EncodeStr(s') + r' == d' + ([COLON] + (s' + r'));
    SameDigits(d, d', s + r, s' + r');
    ValueOfDecimal(|s|);
    ValueOfDecimal(|s'|);
    assert s == (s + r)[..|s|] == s';
    DropFirst(s, r, r');
  }

  /** If what is printed for a tree could be mistaken for the start of its encoding, the tree prints canonically. */
  lemma {:induction false} PrintedAsEncoded(n: Node, r: seq<byte>, r': seq<byte>)
    requires Decodable(n) && Print(n) + r == Encode(n) + r'
    ensures Singletons(n) && PlainKeys(n) && r == r'
    decreases n
  {
    match n
    case Str(s) => DropFirst(Print(n), r, r');
    case Int(i) => DropFirst(Print(n), r, r');
    case List(items) => PrintedList(items, r, r');
    case Dict(entries) => PrintedDict(entries, r, r');
  }

  lemma {:induction false} PrintedDict(entries: seq<Entry>, r: seq<byte>, r': seq<byte>)
    requires Decodable(Dict(entries)) && Print(Dict(entries)) + r == Encode(Dict(entries)) + r'
    ensures Singletons(Dict(entries)) && PlainKeys(Dict(entries)) && r == r'
    decreases entries, 1
  {
    hide PrintEntries, EncodeEntries;
    var printed, encoded := PrintEntries(entries), EncodeEntries(entries);
    assert Print(Dict(entries)) + r == [LETTER_D] + (printed + ([LETTER_E] + r));
    assert Encode(Dict(entries)) + r' == [LETTER_D] + (encoded + ([LETTER_E] + r'));
    DropFirst([LETTER_D], printed + ([LETTER_E] + r), encoded + ([LETTER_E] + r'));
    PrintedEntries(entries, [LETTER_E] + r, [LETTER_E] + r');
    DropFirst([LETTER_E], r, r');
  }

  lemma {:induction false} PrintedList(items: seq<Node>, r: seq<byte>, r': seq<byte>)
    requires Decodable(List(items)) && Print(List(items)) + r == Encode(List(items)) + r'
    ensures Singletons(List(items)) && PlainKeys(List(items)) && r == r'
    decreases items, 0
  {
    hide Print, Encode, Decodable, Singletons, PlainKeys;
    ListParts(items);
    var x, printed, encoded := items[0], PrintItems(items[1..]), EncodeItems(items[1..]);
    assert Print(List(items)) + r == [LETTER_L] + (Print(x) + ([LETTER_E] + (printed + r)));
    assert Encode(List(items)) + r' == [LETTER_L] + (Encode(x) + (encoded + ([LETTER_E] + r')));
    DropFirst([LETTER_L], Print(x) + ([LETTER_E] + (printed + r)), Encode(x) + (encoded + ([LETTER_E] + r')));
    PrintedAsEncoded(x, [LETTER_E] + (printed + r), encoded + ([LETTER_E] + r'));
    if items[1..] != [] {
      FirstOfItems(items[1..], [LETTER_E] + r');
      assert false;
    }
    assert |items| == 1;
    OneItem(items);
    assert [LETTER_E] + (printed + r) == [LETTER_E] + r && encoded + ([LETTER_E] + r') == [LETTER_E] + r';
    DropFirst([LETTER_E], r, r');
  }

  lemma FirstOfItems(items: seq<Node>, tail: seq<byte>)
    requires items != []
    ensures |EncodeItems(items) + tail| > 0 && (EncodeItems(items) + tail)[0] != LETTER_E
  {
    FirstByte(items[0]);
  }

  lemma ListParts(items: seq<Node>)
    requires Decodable(List(items))
    ensures items != [] && Decodable(items[0])
    ensures Print(List(items)) == [LETTER_L] + Print(items[0]) + [LETTER_E] + PrintItems(items[1..])
    ensures Encode(List(items)) == [LETTER_L] + (Encode(items[0]) + EncodeItems(items[1..])) + [LETTER_E]
  {
  }

  lemma OneItem(items: seq<Node>)
    requires |items| == 1 && Singletons(items[0]) && PlainKeys(items[0])
    ensures Singletons(List(items)) && PlainKeys(List(items))
    ensures PrintItems(items[1..]) == [] && EncodeItems(items[1..]) == []
  {
  }

  lemma {:induction false} PrintedEntries(entries: seq<Entry>, r: seq<byte>, r': seq<byte>)
    requires forall k | 0 <= k < |entries| :: Decodable(entries[k].val)
    requires PrintEntries(entries) + r == EncodeEntries(entries) + r'
    ensures forall k | 0 <= k < |entries| ::
      Singletons(entries[k].val) && PlainKeys(entries[k].val) && CString(entries[k].key) == entries[k].key
    ensures r == r'
    decreases entries, 0
  {
    hide Print, Encode, Decodable, Singletons, PlainKeys, EncodeStr;
    if entries == [] {
      assert PrintEntries(entries) + r == r && EncodeEntries(entries) + r' == r';
    } else {
      var e, printed, encoded := entries[0], PrintEntries(entries[1..]), EncodeEntries(entries[1..]);
      var key := CString(e.key);
      assert PrintEntries(entries) + r == EncodeStr(key) + (Print(e.val) + (printed + r));
      assert EncodeEntries(entries) + r' == EncodeStr(e.key) + (Encode(e.val) + (encoded + r'));
      SameStr(key, e.key, Print(e.val) + (printed + r), Encode(e.val) + (encoded + r'));
      PrintedAsEncoded(e.val, printed + r, encoded + r');
      PrintedEntries(entries[1..], r, r');
    }
  }

  /** What is printed is the canonical encoding if and only if every list has one element and no key holds a NUL. */
  lemma PrintIsCanonicalIff(n: Node)
    requires Decodable(n)
    ensures Print(n) == Encode(n) <==> Singletons(n) && PlainKeys(n)
  {
    if Print(n) == Encode(n) {
      PrintedAsEncoded(n, [], []);
    }
    if Singletons(n) && PlainKeys(n) {
      CanonicalWhenSingletons(n);
    }
  }

  /** A list is printed as a row of lists: cut anywhere, its parts are printed one after the other. */
  lemma {:induction false} ListsFallApart(a: seq<Node>, b: seq<Node>)
    ensures Print(List(a + b)) == Print(List(a)) + Print(List(b))
    decreases a
  {
    if a == [] {
      assert a + b == b;
    } else {
      assert (a + b)[1..] == a[1..] + b;
      ListsFallApart(a[1..], b);
    }
  }

  // ---------- by how much the print is longer ----------

  /** Twice the number of elements beyond the first, over all lists of the tree. */
  function Excess(n: Node): int
    decreases n
  {
    match n
    case Str(_) => 0
    case Int(_) => 0
    case List(items) => 2 * (|items| - 1) + ExcessItems(items)
    case Dict(entries) => ExcessEntries(entries)
  }

  function ExcessItems(items: seq<Node>): int
    decreases items
  {
    if items == [] then 0 else Excess(items[0]) + ExcessItems(items[1..])
  }

  function ExcessEntries(entries: seq<Entry>): int
    decreases entries
  {
    if entries == [] then 0 else Excess(entries[0].val) + ExcessEntries(entries[1..])
  }

  /** The print is longer than the encoding by exactly that much (or shorter, if lists are empty). */
  lemma {:induction false} PrintLength(n: Node)
    requires PlainKeys(n)
    ensures |Print(n)| == |Encode(n)| + Excess(n)
    decreases n
  {
    match n
    case Str(_) =>
    case Int(_) =>
    case List(items) => PrintLengthItems(items);
    case Dict(entries) => PrintLengthEntries(entries);
  }

  lemma {:induction false} PrintLengthItems(items: seq<Node>)
    requires forall k | 0 <= k < |items| :: PlainKeys(items[k])
    ensures |PrintItems(items)| == |EncodeItems(items)| + 2 * |items| + ExcessItems(items)
    decreases items
  {
    if items != [] {
      PrintLength(items[0]);
      PrintLengthItems(items[1..]);
    }
  }

  lemma {:induction false} PrintLengthEntries(entries: seq<Entry>)
    requires forall k | 0 <= k < |entries| :: PlainKeys(entries[k].val) && CString(entries[k].key) == entries[k].key
    ensures |PrintEntries(entries)| == |EncodeEntries(entries)| + ExcessEntries(entries)
    decreases entries
  {
    if entries != [] {
      PrintLength(entries[0].val);
      PrintLengthEntries(entries[1..]);
    }
  }
}
