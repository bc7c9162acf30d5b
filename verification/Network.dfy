/** The reading functions of network_util.c over a descriptor that may deliver less than asked, or be interrupted. */
module Network {
  import opened Bytes

  const NEWLINE: byte := 10

  /** b with d written over it from position at on. */
  function Overlay(b: seq<byte>, at: nat, d: seq<byte>): seq<byte>
    requires at + |d| <= |b|
  {
    b[..at] + d + b[at + |d|..]
  }

  lemma OverlayIs(b: seq<byte>, at: nat, d: seq<byte>)
    requires at + |d| <= |b|
    ensures |Overlay(b, at, d)| == |b|
    ensures forall k | 0 <= k < |b| :: Overlay(b, at, d)[k] == if at <= k < at + |d| then d[k - at] else b[k]
  {
  }

  /** A descriptor: the bytes it has yet to deliver, and how often a signal will still interrupt a read. */
  class Descriptor {
    var stream: seq<byte>
    var interrupts: nat
    const healthy: bool  // never fails for any reason but a signal

    constructor (stream: seq<byte>, interrupts: nat, healthy: bool)
      ensures this.stream == stream && this.interrupts == interrupts && this.healthy == healthy
    {
      this.stream, this.interrupts, this.healthy := stream, interrupts, healthy;
    }

    /** read(2): some bytes, none at the end of the stream, or -1. */
    method Read(buf: array<byte>, at: nat, count: nat) returns (n: int, interrupted: bool)
      requires at + count <= buf.Length
      modifies this, buf
      ensures -1 <= n <= count && n <= |old(stream)|
      ensures n == -1 ==> stream == old(stream) && buf[..] == old(buf[..]) && interrupts <= old(interrupts)
      ensures n == -1 ==> if interrupted then interrupts < old(interrupts) else !healthy
      ensures n >= 0 ==> interrupts == old(interrupts) && stream == old(stream)[n..]
      ensures n >= 0 ==> buf[..] == Overlay(old(buf[..]), at, old(stream)[..n])
      ensures n == 0 ==> count == 0 || old(stream) == []
    {
      interrupted := false;
      var signal, failure: bool := *, *;
      if interrupts > 0 && signal {
        interrupts := interrupts - 1;
        return -1, true;
      }
      if !healthy && failure {
        return -1, false;
      }
      var most := if count <= |stream| then count else |stream|;
      n := *;
      if n < 1 || n > most {
        n := most;
      }
      forall k | 0 <= k < n {
        buf[at + k] := stream[k];
      }
      stream := stream[n..];
    }
  }

  lemma OverlayNothing(b: seq<byte>, s: seq<byte>)
    ensures Overlay(b, 0, s[..0]) == b
  {
  }

  /** Writing the next bytes of s after the first ones. */
  lemma Advance(s: seq<byte>, b: seq<byte>, at: nat, k: nat)
    requires at + k <= |s| && at + k <= |b|
    ensures |Overlay(b, 0, s[..at])| == |b|
    ensures Overlay(Overlay(b, 0, s[..at]), at, s[at..][..k]) == Overlay(b, 0, s[..at + k])
    ensures s[at..][k..] == s[at + k..]
  {
  }

  lemma NothingMore(s: seq<byte>, b: seq<byte>, at: nat)
    requires at <= |s| && at <= |b|
    ensures s[..at + 0] == s[..at] && s[at + 0..] == s[at..]
  {
  }

  /** readn: the next n bytes, or all there are; -1 only on an error that is not a signal. */
  method Readn(fd: Descriptor, buf: array<byte>, n: nat) returns (r: int)
    requires n <= buf.Length
    modifies fd, buf
    ensures r == -1 ==> !fd.healthy
    ensures r != -1 ==> r == if n <= |old(fd.stream)| then n else |old(fd.stream)|
    ensures r != -1 ==> buf[..] == Overlay(old(buf[..]), 0, old(fd.stream)[..r]) && fd.stream == old(fd.stream)[r..]
  {
    hide Overlay;
    ghost var s, was := fd.stream, buf[..];
    var left, at := n, 0;
    OverlayNothing(was, s);
    while left > 0
      invariant 0 <= left && at + left == n && at <= |s|
      invariant buf[..] == Overlay(was, 0, s[..at])
      invariant fd.stream == s[at..]
      decreases left, fd.interrupts
    {
      var nread, interrupted := fd.Read(buf, at, left);
      if nread < 0 {
        if interrupted {
          nread := 0;
        } else {
          return -1;
        }
      } else if nread == 0 {
        Advance(s, was, at, 0);
        break;
      }
      Advance(s, was, at, nread);
      NothingMore(s, was, at);
      left := left - nread;
      at := at + nread;
    }
    return n - left;
  }

  // ---------- the line reader ----------

  const MAXLINE: nat := 2000

  /** How many bytes a call of readline stores: up to and with the first newline, at most limit, at most all. */
  function StoredLength(s: seq<byte>, limit: nat): (k: nat)
    ensures k <= limit && k <= |s|
    ensures forall i | 0 <= i < k - 1 :: s[i] != NEWLINE
    ensures k < limit && k < |s| ==> k > 0 && s[k - 1] == NEWLINE
  {
    if limit == 0 || s == [] then 0 else if s[0] == NEWLINE then 1 else 1 + StoredLength(s[1..], limit - 1)
  }

  /** What is stored from position at on. */
  lemma StoredNext(s: seq<byte>, at: nat, limit: nat)
    requires at < limit && at <= |s|
    ensures StoredLength(s[at..], limit - at)
         == if at == |s| then 0 else if s[at] == NEWLINE then 1 else 1 + StoredLength(s[at + 1..], limit - at - 1)
    ensures at < |s| ==> s[at..][0] == s[at] && s[at..][1..] == s[at + 1..]
  {
  }

  lemma LastByte(s: seq<byte>, at: nat)
    requires at <= |s|
    ensures EndsLine(s[..at]) <==> at > 0 && s[at - 1] == NEWLINE
  {
  }

  lemma StoredEnd(s: seq<byte>, at: nat, limit: nat)
    requires at <= |s| && at <= limit
    ensures at == |s| || at == limit ==> StoredLength(s[at..], limit - at) == 0
    ensures StoredLength(s[at..], limit - at) <= |s| - at
  {
  }

  predicate EndsLine(s: seq<byte>) {
    s != [] && s[|s| - 1] == NEWLINE
  }

  /**
   What a call of readline with limit maxlen does to the bytes s yet to come: `out` starts with the ones it stores
   and a NUL, `pending` are the rest, and n is its result.
   */
  ghost predicate LineRead(s: seq<byte>, maxlen: nat, n: int, out: seq<byte>, pending: seq<byte>) {
    var k := StoredLength(s, if maxlen > 0 then maxlen - 1 else 0);
    && k <= |out| && out[..k] == s[..k] && pending == s[k..]
    && n == (if s == [] && maxlen > 1 then 0 else if EndsLine(s[..k]) then k else k + 1)
    && (n != 0 ==> k < |out| && out[k] == 0)
  }

  lemma LineStored(s: seq<byte>, maxlen: nat, at: nat, n: int, out: seq<byte>, pending: seq<byte>)
    requires at == StoredLength(s, if maxlen > 0 then maxlen - 1 else 0)
    requires at < |out| && out[..at] == s[..at] && out[at] == 0 && pending == s[at..]
    requires n == if EndsLine(s[..at]) then at else at + 1
    requires s != [] || maxlen <= 1
    ensures LineRead(s, maxlen, n, out, pending)
  {
    hide StoredLength, EndsLine;
  }

  lemma NothingToRead(s: seq<byte>, maxlen: nat, out: seq<byte>, pending: seq<byte>)
    requires s == [] && maxlen > 1 && pending == []
    ensures LineRead(s, maxlen, 0, out, pending)
  {
  }

  /** my_read and readline, with the static buffer they share; for one descriptor. */
  class LineReader {
    const fd: Descriptor
    var readCount: int
    var readPtr: nat
    const readBuf: array<byte>

    ghost predicate Valid()
      reads this
    {
      && readBuf.Length == MAXLINE
      && (readCount > 0 ==> readPtr + readCount <= MAXLINE)
    }

    /** All the bytes still to be delivered: those in the buffer, then those of the descriptor. */
    ghost function Pending(): seq<byte>
      reads this, fd, readBuf
      requires Valid()
    {
      (if readCount > 0 then readBuf[readPtr..readPtr + readCount] else []) + fd.stream
    }

    constructor (fd: Descriptor)
      ensures Valid() && this.fd == fd && Pending() == fd.stream && fresh(readBuf)
    {
      this.fd := fd;
      readCount, readPtr := 0, 0;
      readBuf := new byte[MAXLINE](_ => 0);
    }

    method MyRead() returns (rc: int, c: byte)
      requires Valid()
      modifies this, fd, readBuf
      ensures Valid()
      ensures rc == 1 ==> old(Pending()) != [] && c == old(Pending())[0] && Pending() == old(Pending())[1..]
      ensures rc == 0 ==> old(Pending()) == [] == Pending()
      ensures rc == 1 || rc == 0 || (rc == -1 && !fd.healthy && Pending() == old(Pending()))
    {
      c := 0;
      if readCount <= 0 {
        var again := true;
        while again
          invariant Valid() && Pending() == old(Pending())
          invariant again ==> readCount <= 0
          invariant !again ==> readCount > 0 && readPtr == 0
          decreases again, fd.interrupts
        {
          var interrupted;
          ghost var waiting := fd.stream;
          readCount, interrupted := fd.Read(readBuf, 0, MAXLINE);
          if readCount < 0 {
            if !interrupted {
              return -1, c;
            }
          } else if readCount == 0 {
            return 0, c;
          } else {
            readPtr := 0;
            again := false;
            assert readBuf[0..readCount] == waiting[..readCount];
          }
        }
      }
      readCount := readCount - 1;
      c := readBuf[readPtr];
      readPtr := readPtr + 1;
      return 1, c;
    }

    /**
     Stores one line, or as much of it as fits, and a terminating NUL. The result is the number of bytes
     stored if they end in a newline, 0 if the stream was at its end, and one more than the number stored otherwise.
     */
    method Readline(vptr: array<byte>, maxlen: nat) returns (n: int)
      requires Valid()
      requires maxlen <= vptr.Length && vptr.Length > 0 && vptr != readBuf
      modifies this, fd, readBuf, vptr
      ensures Valid()
      ensures n == -1 ==> !fd.healthy
      ensures n != -1 ==> LineRead(old(Pending()), maxlen, n, vptr[..], Pending())
    {
      hide StoredLength, Pending, EndsLine, LineRead;
      ghost var s := Pending();
      ghost var limit := if maxlen > 0 then maxlen - 1 else 0;
      ghost var total := StoredLength(s, limit);
      var at := 0;
      n := 1;
      assert s[0..] == s;
      while n < maxlen
        invariant Valid() && at == n - 1 <= limit && at <= |s|
        invariant (forall i | 0 <= i < at :: vptr[i] == s[i]) && Pending() == s[at..]
        invariant at < limit || maxlen <= n
        invariant total == at + StoredLength(s[at..], limit - at)
        invariant at > 0 ==> s[at - 1] != NEWLINE
        decreases maxlen - n
      {
        StoredNext(s, at, limit);
        var rc, c := MyRead();
        if rc == 1 {
          vptr[at] := c;
          at := at + 1;
          if c == NEWLINE {
            assert total == at;
            break;
          }
        } else if rc == 0 {
          StoredEnd(s, at, limit);
          if n == 1 {
            NothingToRead(s, maxlen, vptr[..], Pending());
            return 0;
          } else {
            assert total == at;
            break;
          }
        } else {
          return -1;
        }
        n := n + 1;
      }
      if at == limit {
        StoredEnd(s, at, limit);
      }
      assert total == at;
      LastByte(s, at);
      vptr[at] := 0;
      assert vptr[..][..at] == s[..at];
      LineStored(s, maxlen, at, n, vptr[..], Pending());
    }
  }

  // ---------- a whole stream, line by line ----------

  function Lines(s: seq<byte>, limit: nat): seq<seq<byte>>
    requires limit > 0
    decreases |s|
  {
    if s == [] then [] else var k := StoredLength(s, limit); [s[..k]] + Lines(s[k..], limit)
  }

  lemma NextLine(s: seq<byte>, limit: nat)
    requires limit > 0
    ensures s == [] ==> StoredLength(s, limit) == 0
    ensures s != [] ==>
      var k := StoredLength(s, limit);
      0 < k <= |s| && Lines(s, limit) == [s[..k]] + Lines(s[k..], limit)
  {
  }

  lemma NoLines(limit: nat)
    requires limit > 0
    ensures Lines([], limit) == []
  {
  }

  /** The lines are the whole stream, in order. */
  lemma {:induction false} LinesJoin(s: seq<byte>, limit: nat)
    requires limit > 0
    ensures Concat(Lines(s, limit)) == s
    decreases |s|
  {
    hide StoredLength, Lines;
    NoLines(limit);
    if s != [] {
      var k := StoredLength(s, limit);
      NextLine(s, limit);
      LinesJoin(s[k..], limit);
      ConcatFirst(s[..k], Lines(s[k..], limit));
      assert s == s[..k] + s[k..];
    }
  }

  /** A line has no newline but at its end, and ends without one only if it is full or the stream is over. */
  lemma {:induction false} LinesShape(s: seq<byte>, limit: nat, j: nat)
    requires limit > 0 && j < |Lines(s, limit)|
    ensures var line := Lines(s, limit)[j];
      && 0 < |line| <= limit
      && (forall i | 0 <= i < |line| - 1 :: line[i] != 10)
      && (line[|line| - 1] == 10 || |line| == limit || j == |Lines(s, limit)| - 1)
    decreases |s|
  {
    hide StoredLength;
    StoredEnd(s, 0, limit);
    var k := StoredLength(s, limit);
    SomethingStored(s, limit);
    if j > 0 {
      LinesShape(s[k..], limit, j - 1);
    }
  }

  lemma SomethingStored(s: seq<byte>, limit: nat)
    requires limit > 0 && s != []
    ensures var k := StoredLength(s, limit);
      && 0 < k <= |s| && k <= limit
      && (forall i | 0 <= i < k - 1 :: s[i] != NEWLINE)
      && (EndsLine(s[..k]) || k == limit || s[k..] == [])
  {
  }

  /** The reading loop of read_from_tracker: line after line, until a call returns 0. */
  method ReadLines(reader: LineReader, message: array<byte>, maxlen: nat) returns (lines: seq<seq<byte>>)
    requires reader.Valid() && reader.fd.healthy
    requires 1 < maxlen <= message.Length && message != reader.readBuf
    modifies reader, reader.fd, reader.readBuf, message
    ensures reader.Valid() && reader.Pending() == []
    ensures lines == Lines(old(reader.Pending()), maxlen - 1)
  {
    hide StoredLength, Lines, EndsLine;
    ghost var s, limit := reader.Pending(), maxlen - 1;
    lines := [];
    var n := -1;
    while n != 0
      invariant reader.Valid()
      invariant lines + Lines(reader.Pending(), limit) == Lines(s, limit)
      invariant n == 0 ==> reader.Pending() == []
      decreases n != 0, |reader.Pending()|
    {
      ghost var pending := reader.Pending();
      NextLine(pending, limit);
      n := reader.Readline(message, maxlen);
      if n != 0 {
        LastByte(pending, StoredLength(pending, limit));
        var k := if message[n - 1] == NEWLINE then n else n - 1;
        Regroup(lines, [message[..k]], Lines(reader.Pending(), limit));
        lines := lines + [message[..k]];
      }
    }
    NoLines(limit);
    assert lines + [] == lines;
  }
}
