/** Bytes, the optional value, and a little arithmetic. */
module Bytes {
  newtype byte = x: int | 0 <= x < 256

  datatype Option<+T> = None | Some(value: T) {
    predicate IsFailure() {
      None?
    }

    function PropagateFailure<U>(): Option<U>
      requires None?
    {
      None
    }

    function Extract(): T
      requires Some?
    {
      value
    }
  }

  function Concat<T>(parts: seq<seq<T>>): seq<T> {
    if parts == [] then [] else parts[0] + Concat(parts[1..])
  }

  lemma ConcatFirst<T>(first: seq<T>, rest: seq<seq<T>>)
    ensures Concat([first] + rest) == first + Concat(rest)
  {
    assert ([first] + rest)[1..] == rest;
  }

  lemma Sliced<T>(data: seq<T>, lo: nat, hi: nat, x: nat, y: nat)
    requires lo <= hi <= |data| && x <= y <= hi - lo
    ensures data[lo..hi][x..y] == data[lo + x..lo + y]
  {
    var a, b := data[lo..hi][x..y], data[lo + x..lo + y];
    assert |a| == |b| && forall i | 0 <= i < |a| :: a[i] == b[i];
  }

  lemma Regroup<T>(a: seq<T>, b: seq<T>, c: seq<T>)
    ensures (a + b) + c == a + (b + c)
  {
  }

  /** A signed 32-bit number, wrapping. */
  function Int32(x: int): int {
    (x + 0x80000000) % 0x100000000 - 0x80000000
  }

  /** It is the one 32-bit number congruent to x. */
  lemma Int32Is(x: int)
    ensures -2147483648 <= Int32(x) < 2147483648
    ensures (x - Int32(x)) % 4294967296 == 0
  {
  }

  /** The characters of a string as bytes. */
  function Ascii(s: string): seq<byte>
    requires forall k | 0 <= k < |s| :: s[k] < 128 as char
  {
    seq(|s|, k requires 0 <= k < |s| => s[k] as int as byte)
  }

  lemma MulLe(a: int, b: int, c: nat)
    requires a <= b
    ensures a * c <= b * c
  {
  }

  lemma DivIs(n: nat, d: nat, q: nat, r: nat)
    requires d > 0 && n == q * d + r && r < d
    ensures n / d == q
  {
    var q', r' := n / d, n % d;
    assert n == q' * d + r';
    if q' < q {
      MulLe(q' + 1, q, d);
    } else if q < q' {
      MulLe(q + 1, q', d);
    }
  }

  lemma Expand(q: nat, r: nat, unit: nat, rest: nat)
    ensures (q * 256 + r) * unit + rest == q * (unit * 256) + (r * unit + rest)
  {
  }

  /** One more byte of a number in base 256. */
  lemma SplitByte(n: nat, unit: nat)
    requires unit > 0
    ensures n / unit == n / (unit * 256) * 256 + n / unit % 256
  {
    var q, rest := n / unit, n % unit;
    var high, low := q / 256, q % 256;
    assert n == q * unit + rest && q == high * 256 + low;
    Expand(high, low, unit, rest);
    MulLe(low, 255, unit);
    DivIs(n, unit * 256, high, low * unit + rest);
  }
}
