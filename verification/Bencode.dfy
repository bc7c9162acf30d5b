/** Bencoding as BEP 3 defines it, and the decoder of bencode.c. */
module Bencode {
  import opened Bytes

  // ---------- trees and their canonical encoding ----------

  datatype Node =
    | Str(s: seq<byte>)
    | Int(i: int)
    | List(items: seq<Node>)
    | Dict(entries: seq<Entry>)

  datatype Entry = Entry(key: seq<byte>, val: Node)

  const COLON: byte := 58
  const MINUS: byte := 45
  const PLUS: byte := 43
  const LETTER_D: byte := 100
  const LETTER_E: byte := 101
  const LETTER_I: byte := 105
  const LETTER_L: byte := 108

  predicate IsDigit(b: byte) {
    48 <= b <= 57
  }

  /** A number in decimal, without leading zeros. */
  function Decimal(n: nat): (r: seq<byte>)
    ensures |r| > 0 && forall k | 0 <= k < |r| :: IsDigit(r[k])
  {
    if n < 10 then [(48 + n) as byte] else Decimal(n / 10) + [(48 + n % 10) as byte]
  }

  function Signed(i: int): seq<byte> {
    if i < 0 then [MINUS] + Decimal(-i) else Decimal(i)
  }

  function EncodeStr(s: seq<byte>): seq<byte> {
    Decimal(|s|) + [COLON] + s
  }

  function Encode(n: Node): seq<byte>
    decreases n
  {
    match n
    case Str(s) => EncodeStr(s)
    case Int(i) => [LETTER_I] + Signed(i) + [LETTER_E]
    case List(items) => [LETTER_L] + EncodeItems(items) + [LETTER_E]
    case Dict(entries) => [LETTER_D] + EncodeEntries(entries) + [LETTER_E]
  }

  function EncodeItems(items: seq<Node>): seq<byte>
    decreases items
  {
    if items == [] then [] else Encode(items[0]) + EncodeItems(items[1..])
  }

  function EncodeEntries(entries: seq<Entry>): seq<byte>
    decreases entries
  {
    if entries == [] then []
    else EncodeStr(entries[0].key) + Encode(entries[0].val) + EncodeEntries(entries[1..])
  }

  // ---------- what the decoder reads ----------

  /** The byte at k; memory after the data reads as a terminator. */
  function At(data: seq<byte>, k: nat): byte {
    if k < |data| then data[k] else 0
  }

  predicate IsSpace(b: byte) {
    b == 32 || 9 <= b <= 13
  }

  function SkipSpace(data: seq<byte>, k: nat): (r: nat)
    ensures k <= r && (k <= |data| ==> r <= |data|)
    decreases |data| - k
  {
    if k < |data| && IsSpace(data[k]) then SkipSpace(data, k + 1) else k
  }

  function SkipDigits(data: seq<byte>, k: nat): (r: nat)
    ensures k <= r && (k <= |data| ==> r <= |data|)
    ensures forall i | k <= i < r :: i < |data| && IsDigit(data[i])
    ensures r < |data| ==> !IsDigit(data[r])
    decreases |data| - k
  {
    if k < |data| && IsDigit(data[k]) then SkipDigits(data, k + 1) else k
  }

  function Value(digits: seq<byte>): nat
    requires forall k | 0 <= k < |digits| :: IsDigit(digits[k])
  {
    if digits == [] then 0
    else
      var last := digits[|digits| - 1];
      assert IsDigit(last);
      Value(digits[..|digits| - 1]) * 10 + (last - 48) as nat
  }

  const MAX_LONG := 0x7FFF_FFFF_FFFF_FFFF

  function Clamp(v: int): int {
    if v > MAX_LONG then MAX_LONG else if v < -MAX_LONG - 1 then -MAX_LONG - 1 else v
  }

  /** strtoll, base 10: blanks, a sign, digits; saturating. Returns the value and where it stopped. */
  function Strtoll(data: seq<byte>, k: nat): (r: (int, nat))
    requires k <= |data|
    ensures k <= r.1 <= |data|
  {
    var a := SkipSpace(data, k);
    var b := if a < |data| && (data[a] == MINUS || data[a] == PLUS) then a + 1 else a;
    var c := SkipDigits(data, b);
    if b == c then (0, k)
    else
      var v: int := Value(data[b..c]);
      (Clamp(if a < b && data[a] == MINUS then -v else v), c)
  }

  // ---------- what the decoder makes of its input ----------

  function ParseStr(data: seq<byte>, k: nat): (r: Option<(seq<byte>, nat)>)
    requires k <= |data|
    ensures r.Some? ==> k < r.value.1 <= |data|
  {
    var (len, j) := Strtoll(data, k);
    if len < 0 || len > |data| - j - 1 || At(data, j) != COLON then None
    else Some((data[j + 1..j + 1 + len], j + 1 + len))
  }

  /**
   The tree at position k and the position after it; None where the input is ill-formed (the decoder then
   gives up, never ends, or leaves a hole) or holds an empty list or dictionary (it then writes through a null pointer).
   */
  function Parse(data: seq<byte>, k: nat): (r: Option<(Node, nat)>)
    requires k <= |data|
    ensures r.Some? ==> k < r.value.1 <= |data|
    decreases |data| - k, 0
  {
    if k == |data| then None
    else if data[k] == LETTER_L then
      var (items, j) :- ParseItems(data, k + 1);
      if items == [] then None else Some((List(items), j))
    else if data[k] == LETTER_D then
      var (entries, j) :- ParseEntries(data, k + 1);
      if entries == [] then None else Some((Dict(entries), j))
    else if data[k] == LETTER_I then
      var (v, j) := Strtoll(data, k + 1);
      if At(data, j) != LETTER_E then None else Some((Int(v), j + 1))
    else if IsDigit(data[k]) then
      var (s, j) :- ParseStr(data, k);
      Some((Str(s), j))
    else None
  }

  function ParseItems(data: seq<byte>, k: nat): (r: Option<(seq<Node>, nat)>)
    requires k <= |data|
    ensures r.Some? ==> k < r.value.1 <= |data|
    decreases |data| - k, 1
  {
    if At(data, k) == LETTER_E then Some(([], k + 1))
    else
      var (x, j) :- Parse(data, k);
      var (rest, e) :- ParseItems(data, j);
      Some(([x] + rest, e))
  }

  function ParseEntries(data: seq<byte>, k: nat): (r: Option<(seq<Entry>, nat)>)
    requires k <= |data|
    ensures r.Some? ==> k < r.value.1 <= |data|
    decreases |data| - k, 1
  {
    if At(data, k) == LETTER_E then Some(([], k + 1))
    else
      var (key, h) :- ParseStr(data, k);
      var (x, j) :- Parse(data, h);
      var (rest, e) :- ParseEntries(data, j);
      Some(([Entry(key, x)] + rest, e))
  }

  /**
   Where the decoder gives NULL at once: no data left, a byte that starts nothing, or a number without its end
   marker.
   */
  predicate GivesNull(data: seq<byte>, k: nat)
    requires k <= |data|
  {
    || k == |data|
    || (data[k] == LETTER_I && At(data, Strtoll(data, k + 1).1) != LETTER_E)
    || (data[k] != LETTER_L && data[k] != LETTER_D && data[k] != LETTER_I && !IsDigit(data[k]))
  }

  // ---------- the decoder ----------

  /** The cursor that the decoder moves: *data and *data_len. */
  class Cursor {
    const data: seq<byte>
    var pos: nat
    var left: int

    ghost predicate Valid()
      reads this
    {
      pos <= |data| && left == |data| - pos
    }

    constructor (data: seq<byte>, len: nat)
      requires len == |data|
      ensures this.data == data && pos == 0 && Valid()
    {
      this.data := data;
      pos, left := 0, len;
    }

    method DecodeInt() returns (v: int)
      requires Valid()
      modifies this
      ensures Valid() && (v, pos) == Strtoll(data, old(pos))
    {
      var (ret, endp) := Strtoll(data, pos);
      left := left - (endp - pos);
      pos := endp;
      return ret;
    }

    method DecodeStr() returns (s: Option<seq<byte>>)
      requires Valid()
      modifies this
      ensures Valid()
      ensures match ParseStr(data, old(pos))
              case Some((t, j)) => s == Some(t) && pos == j
              case None => s == None && pos == Strtoll(data, old(pos)).1
    {
      var len := DecodeInt();
      if len < 0 {
        return None;
      }
      if len > left - 1 {
        return None;
      }
      if At(data, pos) == COLON {
        s := Some(data[pos + 1..pos + 1 + len]);
        pos := pos + len + 1;
        left := left - (len + 1);
        return s;
      }
      return None;
    }

    /**
     The recursive decoder, on input for which it gives a tree or NULL; on NULL the cursor stands behind the
     number tried, if any.
     */
    method Decode() returns (n: Option<Node>)
      requires Valid() && (Parse(data, pos).Some? || GivesNull(data, pos))
      modifies this
      ensures Valid()
      ensures match Parse(data, old(pos))
              case Some((tree, j)) => n == Some(tree) && pos == j
              case None =>
                n == None && pos == if At(data, old(pos)) == LETTER_I then Strtoll(data, old(pos) + 1).1 else old(pos)
      decreases |data| - pos, 1
    {
      if left == 0 {
        return None;
      }
      var first := At(data, pos);
      if first == LETTER_L {
        pos, left := pos + 1, left - 1;
        var items := DecodeItems();
        return Some(List(items));
      } else if first == LETTER_D {
        pos, left := pos + 1, left - 1;
        var entries := DecodeEntries();
        return Some(Dict(entries));
      } else if first == LETTER_I {
        pos, left := pos + 1, left - 1;
        var v := DecodeInt();
        if At(data, pos) != LETTER_E {
          return None;
        }
        pos, left := pos + 1, left - 1;
        return Some(Int(v));
      } else if IsDigit(first) {
        var s := DecodeStr();
        return Some(Str(s.value));
      }
      return None;
    }

    /** The loop over the elements of a list, and its end marker. */
    method DecodeItems() returns (items: seq<Node>)
      requires Valid() && ParseItems(data, pos).Some?
      modifies this
      ensures Valid() && ParseItems(data, old(pos)) == Some((items, pos))
      decreases |data| - pos, 2
    {
      hide Parse, ParseStr;
      ghost var start := pos;
      items := [];
      assert items + ParseItems(data, pos).value.0 == ParseItems(data, pos).value.0;
      while At(data, pos) != LETTER_E
        invariant Valid() && start <= pos && ParseItems(data, pos).Some?
        invariant ParseItems(data, start)
          == Some((items + ParseItems(data, pos).value.0, ParseItems(data, pos).value.1))
        decreases |data| - pos
      {
        ghost var tail := ParseItems(data, pos).value.0;
        var x := Decode();
        assert items + tail == items + [x.value] + ParseItems(data, pos).value.0;
        items := items + [x.value];
      }
      assert items + [] == items;
      pos, left := pos + 1, left - 1;
    }

    /** The loop over the entries of a dictionary, and its end marker. */
    method DecodeEntries() returns (entries: seq<Entry>)
      requires Valid() && ParseEntries(data, pos).Some?
      modifies this
      ensures Valid() && ParseEntries(data, old(pos)) == Some((entries, pos))
      decreases |data| - pos, 2
    {
      hide Parse, ParseStr;
      ghost var start := pos;
      entries := [];
      assert entries + ParseEntries(data, pos).value.0 == ParseEntries(data, pos).value.0;
      while At(data, pos) != LETTER_E
        invariant Valid() && start <= pos && ParseEntries(data, pos).Some?
        invariant ParseEntries(data, start)
          == Some((entries + ParseEntries(data, pos).value.0, ParseEntries(data, pos).value.1))
        decreases |data| - pos
      {
        ghost var tail := ParseEntries(data, pos).value.0;
        var key := DecodeStr();
        var x := Decode();
        assert entries + tail == entries + [Entry(key.value, x.value)] + ParseEntries(data, pos).value.0;
        entries := entries + [Entry(key.value, x.value)];
      }
      assert entries + [] == entries;
      pos, left := pos + 1, left - 1;
    }
  }

  /** be_decoden. */
  method BeDecoden(data: seq<byte>, len: nat) returns (n: Option<Node>)
    requires len == |data| && (Parse(data, 0).Some? || GivesNull(data, 0))
    ensures n == match Parse(data, 0) case Some((tree, _)) => Some(tree) case None => None
  {
    var cursor := new Cursor(data, len);
    n := cursor.Decode();
  }

  // ---------- decoding undoes encoding ----------

  /** What the decoder can hold: nonempty containers and 64-bit integers. */
  predicate Decodable(n: Node)
    decreases n
  {
    match n
    case Str(_) => true
    case Int(i) => -MAX_LONG - 1 <= i <= MAX_LONG
    case List(items) => items != [] && forall k | 0 <= k < |items| :: Decodable(items[k])
    case Dict(entries) => entries != [] && forall k | 0 <= k < |entries| :: Decodable(entries[k].val)
  }

  /** The bytes s stand in data at position k. */
  predicate Here(data: seq<byte>, k: nat, s: seq<byte>) {
    k + |s| <= |data| && data[k..k + |s|] == s
  }

  lemma HereSplit(data: seq<byte>, k: nat, a: seq<byte>, b: seq<byte>)
    requires Here(data, k, a + b)
    ensures Here(data, k, a) && Here(data, k + |a|, b)
  {
    assert data[k..k + |a|] == (a + b)[..|a|];
    assert data[k + |a|..k + |a + b|] == (a + b)[|a|..];
  }

  lemma {:induction false} ValueOfDecimal(n: nat)
    ensures Value(Decimal(n)) == n
  {
    if n >= 10 {
      ValueOfDecimal(n / 10);
      var d := Decimal(n);
      assert d[..|d| - 1] == Decimal(n / 10);
    } else {
      assert Value([]) == 0;
      assert Decimal(n)[..0] == [];
    }
  }

  lemma {:induction false} DigitsEnd(data: seq<byte>, k: nat, e: nat)
    requires k <= e <= |data| && (forall i | k <= i < e :: IsDigit(data[i])) && (e < |data| ==> !IsDigit(data[e]))
    ensures SkipDigits(data, k) == e
    decreases e - k
  {
    if k < e {
      DigitsEnd(data, k + 1, e);
    }
  }

  /** strtoll reads back a decimal number that is followed by something else. */
  lemma ReadDecimal(data: seq<byte>, k: nat, n: nat)
    requires Here(data, k, Decimal(n)) && k + |Decimal(n)| < |data| && !IsDigit(data[k + |Decimal(n)|])
    ensures Strtoll(data, k) == (Clamp(n), k + |Decimal(n)|)
  {
    var d := Decimal(n);
    assert forall i | k <= i < k + |d| :: data[i] == d[i - k];
    assert data[k] == d[0];
    DigitsEnd(data, k, k + |d|);
    ValueOfDecimal(n);
  }

  lemma ReadSigned(data: seq<byte>, k: nat, i: int)
    requires Here(data, k, Signed(i)) && k + |Signed(i)| < |data| && !IsDigit(data[k + |Signed(i)|])
    ensures Strtoll(data, k) == (Clamp(i), k + |Signed(i)|)
  {
    if i >= 0 {
      ReadDecimal(data, k, i);
    } else {
      HereSplit(data, k, [MINUS], Decimal(-i));
      HereFirst(data, k, [MINUS]);
      ReadNegative(data, k, -i);
    }
  }

  lemma ReadNegative(data: seq<byte>, k: nat, n: nat)
    requires k < |data| && data[k] == MINUS && Here(data, k + 1, Decimal(n))
    requires k + 1 + |Decimal(n)| < |data| && !IsDigit(data[k + 1 + |Decimal(n)|])
    ensures Strtoll(data, k) == (Clamp(-(n as int)), k + 1 + |Decimal(n)|)
  {
    hide Decimal, Value;
    var d := Decimal(n);
    assert forall j | k + 1 <= j < k + 1 + |d| :: data[j] == d[j - (k + 1)];
    DigitsEnd(data, k + 1, k + 1 + |d|);
    ValueOfDecimal(n);
  }

  lemma ReadStr(data: seq<byte>, k: nat, s: seq<byte>)
    requires Here(data, k, EncodeStr(s)) && |data| <= MAX_LONG
    ensures k < |data| && IsDigit(data[k])
    ensures ParseStr(data, k) == Some((s, k + |EncodeStr(s)|))
  {
    hide Strtoll, Here;
    var d := Decimal(|s|);
    HereSplit(data, k, d + [COLON], s);
    HereSplit(data, k, d, [COLON]);
    HereFirst(data, k + |d|, [COLON]);
    HereFirst(data, k, d);
    HereBounds(data, k + |d + [COLON]|, s);
    ReadDecimal(data, k, |s|);
  }

  lemma HereFirst(data: seq<byte>, k: nat, s: seq<byte>)
    requires Here(data, k, s) && s != []
    ensures k < |data| && data[k] == s[0]
  {
    assert data[k..k + |s|][0] == data[k];
  }

  lemma HereBounds(data: seq<byte>, k: nat, s: seq<byte>)
    requires Here(data, k, s)
    ensures k + |s| <= |data| && data[k..k + |s|] == s
  {
  }

  lemma FirstByte(n: Node)
    ensures |Encode(n)| > 0 && Encode(n)[0] != LETTER_E
  {
    if n.Str? {
      assert Encode(n)[0] == Decimal(|n.s|)[0];
    }
  }

  lemma DecodeNumber(data: seq<byte>, k: nat, i: int)
    requires Here(data, k, Encode(Int(i))) && Decodable(Int(i))
    ensures k <= |data| && Parse(data, k) == Some((Int(i), k + |Encode(Int(i))|))
  {
    hide Strtoll, Here, Signed, SkipSpace;
    HereSplit(data, k, [LETTER_I] + Signed(i), [LETTER_E]);
    HereSplit(data, k, [LETTER_I], Signed(i));
    HereFirst(data, k, [LETTER_I]);
    HereFirst(data, k + |[LETTER_I] + Signed(i)|, [LETTER_E]);
    ReadSigned(data, k + 1, i);
  }

  /** What the first byte of a list, a dictionary or a string decides. */
  lemma ParseFirst(data: seq<byte>, k: nat)
    requires k < |data|
    ensures data[k] == LETTER_L && ParseItems(data, k + 1).Some? && ParseItems(data, k + 1).value.0 != [] ==>
      Parse(data, k) == Some((List(ParseItems(data, k + 1).value.0), ParseItems(data, k + 1).value.1))
    ensures data[k] == LETTER_D && ParseEntries(data, k + 1).Some? && ParseEntries(data, k + 1).value.0 != [] ==>
      Parse(data, k) == Some((Dict(ParseEntries(data, k + 1).value.0), ParseEntries(data, k + 1).value.1))
    ensures IsDigit(data[k]) && ParseStr(data, k).Some? ==>
      Parse(data, k) == Some((Str(ParseStr(data, k).value.0), ParseStr(data, k).value.1))
  {
    hide ParseStr, ParseItems, ParseEntries;
  }

  /**
   Decoding the canonical encoding of a tree, wherever it stands and whatever follows it, gives back the
   tree and stops exactly at its end.
   */
  lemma {:induction false} DecodeEncode(data: seq<byte>, k: nat, n: Node)
    requires Here(data, k, Encode(n)) && Decodable(n) && |data| <= MAX_LONG
    ensures k <= |data| && Parse(data, k) == Some((n, k + |Encode(n)|))
    decreases n
  {
    hide Here, Strtoll, ParseStr, EncodeStr, Parse, ParseItems, ParseEntries;
    match n
    case Str(s) =>
      ReadStr(data, k, s);
      ParseFirst(data, k);
    case Int(i) => DecodeNumber(data, k, i);
    case List(items) =>
      assert Encode(n) == [LETTER_L] + (EncodeItems(items) + [LETTER_E]);
      HereSplit(data, k, [LETTER_L], EncodeItems(items) + [LETTER_E]);
      HereFirst(data, k, [LETTER_L]);
      DecodeItems(data, k + 1, items);
      ParseFirst(data, k);
    case Dict(entries) =>
      assert Encode(n) == [LETTER_D] + (EncodeEntries(entries) + [LETTER_E]);
      HereSplit(data, k, [LETTER_D], EncodeEntries(entries) + [LETTER_E]);
      HereFirst(data, k, [LETTER_D]);
      DecodeEntries(data, k + 1, entries);
      ParseFirst(data, k);
  }

  lemma {:induction false} DecodeItems(data: seq<byte>, k: nat, items: seq<Node>)
    requires Here(data, k, EncodeItems(items) + [LETTER_E]) && |data| <= MAX_LONG
    requires forall j | 0 <= j < |items| :: Decodable(items[j])
    ensures k <= |data| && ParseItems(data, k) == Some((items, k + |EncodeItems(items)| + 1))
    decreases items
  {
    hide Here, Parse, Encode, Decodable;
    if items == [] {
      assert EncodeItems(items) + [LETTER_E] == [LETTER_E];
      HereFirst(data, k, [LETTER_E]);
    } else {
      var first, rest := Encode(items[0]), EncodeItems(items[1..]);
      assert EncodeItems(items) + [LETTER_E] == first + (rest + [LETTER_E]);
      HereSplit(data, k, first, rest + [LETTER_E]);
      FirstByte(items[0]);
      HereFirst(data, k, first);
      DecodeEncode(data, k, items[0]);
      DecodeItems(data, k + |first|, items[1..]);
      assert [items[0]] + items[1..] == items;
    }
  }

  lemma EntriesFirst(data: seq<byte>, k: nat, h: nat, j: nat)
    requires k <= |data| && h <= |data| && j <= |data| && At(data, k) != LETTER_E
    requires ParseStr(data, k).Some? && ParseStr(data, k).value.1 == h
    requires Parse(data, h).Some? && Parse(data, h).value.1 == j && ParseEntries(data, j).Some?
    ensures ParseEntries(data, k)
         == Some(([Entry(ParseStr(data, k).value.0, Parse(data, h).value.0)]
            + ParseEntries(data, j).value.0, ParseEntries(data, j).value.1))
  {
    hide Parse, ParseStr;
  }

  lemma EntriesEnd(data: seq<byte>, k: nat)
    requires k < |data| && data[k] == LETTER_E
    ensures ParseEntries(data, k) == Some(([], k + 1)) && ParseItems(data, k) == Some(([], k + 1))
  {
  }

  lemma {:induction false} DecodeEntries(data: seq<byte>, k: nat, entries: seq<Entry>)
    requires Here(data, k, EncodeEntries(entries) + [LETTER_E]) && |data| <= MAX_LONG
    requires forall j | 0 <= j < |entries| :: Decodable(entries[j].val)
    ensures k <= |data| && ParseEntries(data, k) == Some((entries, k + |EncodeEntries(entries)| + 1))
    decreases entries
  {
    hide Here, Parse, Encode, Decodable, ParseStr, ParseEntries, EncodeStr;
    if entries == [] {
      assert EncodeEntries(entries) + [LETTER_E] == [LETTER_E];
      HereFirst(data, k, [LETTER_E]);
      EntriesEnd(data, k);
    } else {
      var key, first, rest := EncodeStr(entries[0].key), Encode(entries[0].val), EncodeEntries(entries[1..]);
      assert EncodeEntries(entries) + [LETTER_E] == key + (first + (rest + [LETTER_E]));
      HereSplit(data, k, key, first + (rest + [LETTER_E]));
      HereSplit(data, k + |key|, first, rest + [LETTER_E]);
      ReadStr(data, k, entries[0].key);
      DecodeEncode(data, k + |key|, entries[0].val);
      DecodeEntries(data, k + |key| + |first|, entries[1..]);
      EntriesFirst(data, k, k + |key|, k + |key| + |first|);
      assert [Entry(entries[0].key, entries[0].val)] + entries[1..] == entries;
    }
  }

  // ---------- what strtoll reads ----------

  /** A byte as the character with that code. */
  function Char(b: byte): char {
    b as int as char
  }

  predicate Digit(b: byte) {
    '0' <= Char(b) <= '9'
  }

  predicate Blank(b: byte) {
    Char(b) == ' ' || '\t' <= Char(b) <= '\r'
  }

  predicate Sign(b: byte) {
    Char(b) == '-' || Char(b) == '+'
  }

  /** What is left of a number in 64 bits: it saturates. */
  function Saturated(v: int): int {
    if v > 9223372036854775807 then 9223372036854775807
    else if v < -9223372036854775808 then -9223372036854775808
    else v
  }

  /** At k there are blanks up to a, perhaps a sign up to b, and then digits up to e. */
  ghost predicate NumberAt(data: seq<byte>, k: nat, a: nat, b: nat, e: nat) {
    && k <= a <= b < e <= |data|
    && (forall i | k <= i < a :: Blank(data[i])) && (b == a || (b == a + 1 && Sign(data[a])))
    && (forall i | b <= i < e :: Digit(data[i])) && (e < |data| ==> !Digit(data[e]))
  }

  lemma {:induction false} BlanksEnd(data: seq<byte>, k: nat, a: nat)
    requires k <= a <= |data| && (forall i | k <= i < a :: Blank(data[i])) && (a < |data| ==> !Blank(data[a]))
    ensures SkipSpace(data, k) == a
    decreases a - k
  {
    if k < a {
      BlanksEnd(data, k + 1, a);
    }
  }

  /** strtoll reads the number there is, saturating, and stops after its last digit. */
  lemma StrtollReads(data: seq<byte>, k: nat, a: nat, b: nat, e: nat)
    requires NumberAt(data, k, a, b, e)
    ensures (forall i | b <= i < e :: IsDigit(data[i])) && k <= |data|
    ensures Strtoll(data, k)
         == (Saturated(if a < b && Char(data[a]) == '-' then -(Value(data[b..e]) as int) else Value(data[b..e])), e)
  {
    hide Value;
    BlanksEnd(data, k, a);
    DigitsEnd(data, b, e);
  }

  /** Where there is none, it yields 0 and does not move. */
  lemma StrtollFindsNothing(data: seq<byte>, k: nat, a: nat)
    requires k <= a <= |data| && (forall i | k <= i < a :: Blank(data[i])) && (a < |data| ==> !Blank(data[a]))
    requires a == |data| || !Digit(data[a])
    requires a < |data| && Sign(data[a]) ==> a + 1 == |data| || !Digit(data[a + 1])
    ensures Strtoll(data, k) == (0, k)
  {
    BlanksEnd(data, k, a);
  }

  /** One of the two is the case everywhere. */
  lemma {:induction false} NumberOrNot(data: seq<byte>, k: nat) returns (a: nat, b: nat, e: nat)
    requires k <= |data|
    ensures k <= a <= |data| && (forall i | k <= i < a :: Blank(data[i])) && (a < |data| ==> !Blank(data[a]))
    ensures NumberAt(data, k, a, b, e)
         || ((a == |data| || !Digit(data[a]))
            && (a < |data| && Sign(data[a]) ==> a + 1 == |data| || !Digit(data[a + 1])))
  {
    a := SkipSpace(data, k);
    SkippedBlanks(data, k);
    b := if a < |data| && Sign(data[a]) then a + 1 else a;
    e := SkipDigits(data, b);
  }

  lemma {:induction false} SkippedBlanks(data: seq<byte>, k: nat)
    requires k <= |data|
    ensures var a := SkipSpace(data, k);
      k <= a <= |data| && (forall i | k <= i < a :: Blank(data[i])) && (a < |data| ==> !Blank(data[a]))
    decreases |data| - k
  {
    if k < |data| && IsSpace(data[k]) {
      SkippedBlanks(data, k + 1);
    }
  }

  // ---------- what is decoded was written ----------

  /** The text is one that strtoll reads as v: a number, or nothing for 0. */
  ghost predicate NumberText(text: seq<byte>, v: int) {
    if text == [] then v == 0
    else exists a: nat, b: nat :: NumberText2(text, a, b, v)
  }

  ghost predicate NumberText2(text: seq<byte>, a: nat, b: nat, v: int) {
    && NumberAt(text, 0, a, b, |text|) && (forall i | b <= i < |text| :: IsDigit(text[i]))
    && v == Saturated(if a < b && Char(text[a]) == '-' then -(Value(text[b..]) as int) else Value(text[b..]))
  }

  lemma StrtollText(data: seq<byte>, k: nat)
    requires k <= |data|
    ensures var (v, j) := Strtoll(data, k); k <= j <= |data| && NumberText(data[k..j], v)
  {
    hide Value, Strtoll;
    var a, b, e := NumberOrNot(data, k);
    if NumberAt(data, k, a, b, e) {
      StrtollReads(data, k, a, b, e);
      var text := data[k..e];
      assert text[b - k..] == data[b..e];
      assert forall i | 0 <= i < |text| :: text[i] == data[k + i];
      assert NumberText2(text, a - k, b - k, Strtoll(data, k).0);
    } else {
      StrtollFindsNothing(data, k, a);
    }
  }

  /**
   The text spells the tree: BEP 3's grammar, except that numbers are whatever strtoll reads, and containers are
   not empty.
   */
  ghost predicate Spells(text: seq<byte>, n: Node)
    decreases n
  {
    match n
    case Str(s) => SpellsStr(text, s)
    case Int(i) => |text| >= 2 && Char(text[0]) == 'i' && Char(text[|text| - 1]) == 'e'
      && NumberText(text[1..|text| - 1], i)
    case List(items) =>
      && |text| > 2 && Char(text[0]) == 'l' && Char(text[|text| - 1]) == 'e'
      && items != [] && SpellsItems(text[1..|text| - 1], items)
    case Dict(entries) =>
      && |text| > 2 && Char(text[0]) == 'd' && Char(text[|text| - 1]) == 'e'
      && entries != [] && SpellsEntries(text[1..|text| - 1], entries)
  }

  ghost predicate SpellsStr(text: seq<byte>, s: seq<byte>) {
    var c := |text| - |s| - 1;
    c >= 0 && NumberText(text[..c], |s|) && Char(text[c]) == ':' && text[c + 1..] == s
  }

  ghost predicate SpellsItems(text: seq<byte>, items: seq<Node>)
    decreases items
  {
    if items == [] then text == []
    else exists x: nat :: x <= |text| && Spells(text[..x], items[0]) && SpellsItems(text[x..], items[1..])
  }

  ghost predicate SpellsEntries(text: seq<byte>, entries: seq<Entry>)
    decreases entries
  {
    if entries == [] then text == []
    else exists x: nat, y: nat ::
      && x <= y <= |text| && SpellsStr(text[..x], entries[0].key) && Spells(text[x..y], entries[0].val)
      && SpellsEntries(text[y..], entries[1..])
  }

  lemma StrSpelled(data: seq<byte>, k: nat)
    requires k <= |data| && ParseStr(data, k).Some?
    ensures var (s, j) := ParseStr(data, k).value; SpellsStr(data[k..j], s)
  {
    hide Strtoll, NumberText;
    StrtollText(data, k);
    var (len, c) := Strtoll(data, k);
    var (s, j) := ParseStr(data, k).value;
    var text := data[k..j];
    assert text[..c - k] == data[k..c] && text[c - k + 1..] == s;
  }

  /** Every tree that is decoded is spelled by the bytes read for it. */
  lemma {:induction false} DecodedIsSpelled(data: seq<byte>, k: nat)
    requires k <= |data| && Parse(data, k).Some?
    ensures var (n, j) := Parse(data, k).value; Spells(data[k..j], n)
    decreases |data| - k, 0
  {
    hide Strtoll, NumberText, ParseStr, SpellsStr, SpellsItems, SpellsEntries, ParseItems, ParseEntries;
    var (n, j) := Parse(data, k).value;
    var text := data[k..j];
    if data[k] == LETTER_L {
      ItemsSpelled(data, k + 1);
      Sliced(data, k, j, 1, |text| - 1);
    } else if data[k] == LETTER_D {
      EntriesSpelled(data, k + 1);
      Sliced(data, k, j, 1, |text| - 1);
    } else if data[k] == LETTER_I {
      StrtollText(data, k + 1);
      Sliced(data, k, j, 1, |text| - 1);
    } else {
      StrSpelled(data, k);
    }
  }

  lemma {:induction false} ItemsSpelled(data: seq<byte>, k: nat)
    requires k <= |data| && ParseItems(data, k).Some?
    ensures var (items, j) := ParseItems(data, k).value;
      && Char(data[j - 1]) == 'e' && SpellsItems(data[k..j - 1], items)
      && (items != [] ==> j > k + 1)
    decreases |data| - k, 1
  {
    hide Parse, Spells;
    if At(data, k) == LETTER_E {
      assert data[k..k] == [];
    } else {
      var (x, h) := Parse(data, k).value;
      DecodedIsSpelled(data, k);
      ItemsSpelled(data, h);
      var (items, j) := ParseItems(data, k).value;
      var text := data[k..j - 1];
      assert text[..h - k] == data[k..h] && text[h - k..] == data[h..j - 1];
      assert items[0] == x && items[1..] == ParseItems(data, h).value.0;
    }
  }

  lemma NoneSpelled()
    ensures SpellsEntries([], [])
  {
  }

  lemma FirstSpelled(text: seq<byte>, entries: seq<Entry>, x: nat, y: nat)
    requires entries != [] && x <= y <= |text| && SpellsStr(text[0..x], entries[0].key)
      && Spells(text[x..y], entries[0].val)
    requires SpellsEntries(text[y..|text|], entries[1..])
    ensures SpellsEntries(text, entries)
  {
    hide SpellsStr, Spells;
    assert text[0..x] == text[..x] && text[y..|text|] == text[y..];
  }

  lemma {:induction false} EntriesSpelled(data: seq<byte>, k: nat)
    requires k <= |data| && ParseEntries(data, k).Some?
    ensures var (entries, j) := ParseEntries(data, k).value;
      && Char(data[j - 1]) == 'e' && SpellsEntries(data[k..j - 1], entries)
      && (entries != [] ==> j > k + 1)
    decreases |data| - k, 1
  {
    hide Parse, Spells, ParseStr, SpellsStr, SpellsEntries;
    if At(data, k) == LETTER_E {
      NoneSpelled();
      assert data[k..k] == [];
    } else {
      var (key, g) := ParseStr(data, k).value;
      var (x, h) := Parse(data, g).value;
      StrSpelled(data, k);
      DecodedIsSpelled(data, g);
      EntriesSpelled(data, h);
      var (entries, j) := ParseEntries(data, k).value;
      var text := data[k..j - 1];
      Sliced(data, k, j - 1, 0, g - k);
      Sliced(data, k, j - 1, g - k, h - k);
      Sliced(data, k, j - 1, h - k, |text|);
      assert entries[0] == Entry(key, x) && entries[1..] == ParseEntries(data, h).value.0;
      FirstSpelled(text, entries, g - k, h - k);
    }
  }

  /** Decimal numbers are written to the base ten, the highest digit first. */
  lemma DecimalDigits()
    ensures Decimal(1234567890) == [49, 50, 51, 52, 53, 54, 55, 56, 57, 48]
  {
    assert Decimal(12345) == [49, 50, 51, 52, 53];
  }

  /** No encoding is a prefix of another, or of itself followed by something: trees and their ends are determined. */
  lemma UniquelyDecodable(n: Node, n': Node, rest: seq<byte>, rest': seq<byte>)
    requires Decodable(n) && Decodable(n') && Encode(n) + rest == Encode(n') + rest'
    requires |Encode(n) + rest| <= MAX_LONG
    ensures n == n' && rest == rest'
  {
    hide Encode, Parse, Decodable;
    var data := Encode(n) + rest;
    assert data[0..|Encode(n)|] == Encode(n);
    assert data[0..|Encode(n')|] == Encode(n');
    DecodeEncode(data, 0, n);
    DecodeEncode(data, 0, n');
    assert rest == data[|Encode(n)|..] == rest';
  }
}
