/** url_encode of ubtorrent.c, against percent-decoding (sections 2.1 and 2.3 of RFC 3986). */
module UrlEncode {
  import opened Bytes

  const PERCENT: byte := 37

  /** isalnum in the C locale, or one of '.', '-', '_', '~'. */
  predicate Unreserved(b: byte) {
    48 <= b <= 57 || 65 <= b <= 90 || 97 <= b <= 122 || b == 46 || b == 45 || b == 95 || b == 126
  }

  /** The hexadecimal digit of a value below 16, in lower case. */
  function HexDigit(v: nat): byte
    requires v < 16
  {
    if v < 10 then (48 + v) as byte else (87 + v) as byte
  }

  function Escape(b: byte): seq<byte> {
    if Unreserved(b) then [b] else [PERCENT, HexDigit(b as nat / 16), HexDigit(b as nat % 16)]
  }

  function Encode(s: seq<byte>): seq<byte> {
    if s == [] then [] else Encode(s[..|s| - 1]) + Escape(s[|s| - 1])
  }

  // ---------- decoding ----------

  function HexValue(b: byte): Option<nat> {
    if 48 <= b <= 57 then Some(b as nat - 48)
    else if 97 <= b <= 102 then Some(b as nat - 87)
    else if 65 <= b <= 70 then Some(b as nat - 55)
    else None
  }

  /** Percent-decoding: a triplet stands for its byte, any other byte for itself. */
  function Decode(s: seq<byte>): Option<seq<byte>>
    decreases |s|
  {
    if s == [] then Some([])
    else if s[0] != PERCENT then
      var rest :- Decode(s[1..]);
      Some([s[0]] + rest)
    else if |s| < 3 then None
    else
      var high :- HexValue(s[1]);
      var low :- HexValue(s[2]);
      var rest :- Decode(s[3..]);
      Some([(high * 16 + low) as byte] + rest)
  }

  // ---------- the loop ----------

  /** Writes the encoding of source at the start of dest, and a NUL after it; returns its length. */
  method UrlEncode(dest: array<byte>, source: array<byte>) returns (bytesWritten: nat)
    requires dest != source && dest.Length > 3 * source.Length
    modifies dest
    ensures bytesWritten == |Encode(source[..])| <= 3 * source.Length
    ensures dest[..bytesWritten] == Encode(source[..])
    ensures source.Length > 0 ==> dest[bytesWritten] == 0
    ensures forall k | bytesWritten < k < dest.Length :: dest[k] == old(dest[k])
  {
    hide Encode, Escape, Unreserved, HexDigit;
    var to := 0;
    bytesWritten := 0;
    EncodeNothing();
    for i := 0 to source.Length
      invariant bytesWritten == to <= 3 * i
      invariant dest[..to] == Encode(source[..i])
      invariant i > 0 ==> dest[to] == 0
      invariant forall k | to < k < dest.Length :: dest[k] == old(dest[k])
    {
      var b := source[i];
      EncodeNext(source[..], i);
      EscapeIs(b);
      ghost var done := dest[..to];
      if Unreserved(b) {
        Sprint(dest, to, [b]);
        bytesWritten := bytesWritten + 1;
        to := to + 1;
      } else {
        Sprint(dest, to, [PERCENT]);
        to := to + 1;
        Sprint(dest, to, [HexDigit(b as nat / 16), HexDigit(b as nat % 16)]);
        to := to + 2;
        bytesWritten := bytesWritten + 3;
        Joined(done, PERCENT, HexDigit(b as nat / 16), HexDigit(b as nat % 16));
      }
    }
    assert source[..source.Length] == source[..];
  }

  lemma Joined(s: seq<byte>, a: byte, b: byte, c: byte)
    ensures s + [a] + [b, c] == s + [a, b, c]
  {
  }

  /** sprintf: the text and a NUL. */
  method Sprint(dest: array<byte>, to: nat, text: seq<byte>)
    requires to + |text| < dest.Length
    modifies dest
    ensures dest[..to + |text|] == old(dest[..to]) + text
    ensures dest[to + |text|] == 0
    ensures forall k | to + |text| < k < dest.Length :: dest[k] == old(dest[k])
  {
    forall k | 0 <= k < |text| {
      dest[to + k] := text[k];
    }
    dest[to + |text|] := 0;
  }

  lemma EncodeNothing()
    ensures Encode([]) == []
  {
  }

  lemma EscapeIs(b: byte)
    ensures Escape(b) == if Unreserved(b) then [b] else [PERCENT, HexDigit(b as nat / 16), HexDigit(b as nat % 16)]
  {
  }

  lemma EncodeNext(s: seq<byte>, i: nat)
    requires i < |s|
    ensures Encode(s[..i + 1]) == Encode(s[..i]) + Escape(s[i])
  {
    assert s[..i + 1][..i] == s[..i];
  }

  // ---------- properties ----------

  lemma {:induction false} EncodeFirst(b: byte, s: seq<byte>)
    ensures Encode([b] + s) == Escape(b) + Encode(s)
  {
    hide Escape;
    if s == [] {
      assert [b] + s == [b] && [b][..0] == [];
    } else {
      var front := s[..|s| - 1];
      assert ([b] + s)[..|s|] == [b] + front;
      EncodeFirst(b, front);
    }
  }

  lemma HexReadsBack(v: nat)
    requires v < 16
    ensures HexValue(HexDigit(v)) == Some(v)
  {
  }

  lemma DecodeEscape(b: byte, t: seq<byte>)
    requires Decode(t).Some?
    ensures Decode(Escape(b) + t) == Some([b] + Decode(t).value)
  {
    if Unreserved(b) {
      assert ([b] + t)[1..] == t;
    } else {
      HexReadsBack(b as nat / 16);
      HexReadsBack(b as nat % 16);
      assert (Escape(b) + t)[3..] == t;
    }
  }

  /** Decoding gives back the bytes encoded. */
  lemma {:induction false} DecodeEncode(s: seq<byte>)
    ensures Decode(Encode(s)) == Some(s)
  {
    hide Escape, Decode;
    if s == [] {
      DecodeNothing();
    } else {
      assert s == [s[0]] + s[1..];
      EncodeFirst(s[0], s[1..]);
      DecodeEncode(s[1..]);
      DecodeEscape(s[0], Encode(s[1..]));
    }
  }

  lemma DecodeNothing()
    ensures Decode([]) == Some([])
  {
  }

  /** The unreserved characters of section 2.3 of RFC 3986. */
  predicate UnreservedChar(c: char) {
    'A' <= c <= 'Z' || 'a' <= c <= 'z' || '0' <= c <= '9' || c == '-' || c == '.' || c == '_' || c == '~'
  }

  /** A byte as the character with that code. */
  function Char(b: byte): char {
    b as int as char
  }

  lemma {:induction false} EncodedLength(s: seq<byte>)
    ensures |s| <= |Encode(s)| <= 3 * |s|
    ensures forall k | 0 <= k < |Encode(s)| :: UnreservedChar(Char(Encode(s)[k])) || Char(Encode(s)[k]) == '%'
  {
    hide UnreservedChar, Escape;
    if s != [] {
      EncodedLength(s[..|s| - 1]);
      EscapedChars(s[|s| - 1]);
    }
  }

  lemma EscapedChars(b: byte)
    ensures 1 <= |Escape(b)| <= 3
    ensures forall k | 0 <= k < |Escape(b)| :: UnreservedChar(Char(Escape(b)[k])) || Char(Escape(b)[k]) == '%'
  {
  }

  const HEX_DIGITS := "0123456789abcdef"

  /**
   Just the unreserved characters stand for themselves; any other byte is a percent sign and two hexadecimal
   digits.
   */
  lemma EncodedByte(b: byte)
    ensures Encode([b]) == [b] <==> UnreservedChar(Char(b))
    ensures !UnreservedChar(Char(b)) ==>
      var e := Encode([b]);
      |e| == 3 && Char(e[0]) == '%' && Char(e[1]) == HEX_DIGITS[b as int / 16]
        && Char(e[2]) == HEX_DIGITS[b as int % 16]
  {
    assert [b][..0] == [];
    assert Encode([b]) == Escape(b);
    HexIsDigit(b as nat / 16);
    HexIsDigit(b as nat % 16);
  }

  lemma HexIsDigit(v: nat)
    requires v < 16
    ensures Char(HexDigit(v)) == HEX_DIGITS[v]
  {
  }

  /** An encoding is that of the bytes one by one. */
  lemma {:induction false} EncodeAppend(s: seq<byte>, s': seq<byte>)
    ensures Encode(s + s') == Encode(s) + Encode(s')
    decreases |s'|
  {
    hide Escape;
    if s' == [] {
      assert s + s' == s;
    } else {
      var front := s'[..|s'| - 1];
      assert (s + s')[..|s + s'| - 1] == s + front;
      EncodeAppend(s, front);
    }
  }

  /** Different hashes have different encodings. */
  lemma EncodeInjective(s: seq<byte>, s': seq<byte>)
    requires Encode(s) == Encode(s')
    ensures s == s'
  {
    DecodeEncode(s);
    DecodeEncode(s');
  }
}
