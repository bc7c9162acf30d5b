/** How a file is cut into pieces: the count computed on reading the torrent, and the length requested for each. */
module Geometry {
  import opened Bytes

  /** Number of pieces of a file, rounded up. */
  function PieceCount(fileSize: nat, pieceSize: nat): nat
    requires pieceSize > 0
  {
    if fileSize % pieceSize != 0 then fileSize / pieceSize + 1 else fileSize / pieceSize
  }

  /** The length that a request for piece p carries. */
  function RequestLength(fileSize: nat, pieceSize: nat, p: nat): nat
    requires pieceSize > 0
  {
    if p == PieceCount(fileSize, pieceSize) - 1 then
      var rest := fileSize % pieceSize;
      if rest != 0 then rest else pieceSize
    else
      pieceSize
  }

  lemma CountBounds(fileSize: nat, pieceSize: nat)
    requires pieceSize > 0
    ensures (PieceCount(fileSize, pieceSize) - 1) * pieceSize < fileSize
    ensures fileSize <= PieceCount(fileSize, pieceSize) * pieceSize
  {
    var q, r := fileSize / pieceSize, fileSize % pieceSize;
    assert fileSize == q * pieceSize + r;
  }

  /** A longer file has no fewer pieces. */
  lemma CountMonotone(m: nat, n: nat, pieceSize: nat)
    requires pieceSize > 0 && m <= n
    ensures PieceCount(m, pieceSize) <= PieceCount(n, pieceSize)
  {
    hide PieceCount;
    CountBounds(m, pieceSize);
    CountBounds(n, pieceSize);
    if PieceCount(m, pieceSize) > PieceCount(n, pieceSize) {
      MulLe(PieceCount(n, pieceSize), PieceCount(m, pieceSize) - 1, pieceSize);
    }
  }

  /**
   Every piece is nonempty, no longer than the piece size, and ends where the next one starts or at the end of the
   file.
   */
  lemma PieceEnd(fileSize: nat, pieceSize: nat, p: nat)
    requires pieceSize > 0 && p < PieceCount(fileSize, pieceSize)
    ensures 0 < RequestLength(fileSize, pieceSize, p) <= pieceSize
    ensures p * pieceSize + RequestLength(fileSize, pieceSize, p)
         == if p == PieceCount(fileSize, pieceSize) - 1 then fileSize else (p + 1) * pieceSize
    ensures p * pieceSize + RequestLength(fileSize, pieceSize, p) <= fileSize
  {
    var q, r := fileSize / pieceSize, fileSize % pieceSize;
    assert fileSize == q * pieceSize + r;
    if p < PieceCount(fileSize, pieceSize) - 1 {
      MulLe(p + 1, q, pieceSize);
    } else if r == 0 {
      assert (p + 1) * pieceSize == q * pieceSize;
    }
  }

  /** Different pieces occupy disjoint parts of the file. */
  lemma PiecesDisjoint(fileSize: nat, pieceSize: nat, p: nat, q: nat)
    requires pieceSize > 0 && p < q < PieceCount(fileSize, pieceSize)
    ensures p * pieceSize + RequestLength(fileSize, pieceSize, p) <= q * pieceSize
  {
    PieceEnd(fileSize, pieceSize, p);
    MulLe(p + 1, q, pieceSize);
  }

  /** Every byte of the file lies in exactly one piece. */
  lemma PiecesCover(fileSize: nat, pieceSize: nat, x: nat)
    requires pieceSize > 0 && x < fileSize
    ensures var p := x / pieceSize;
      && p < PieceCount(fileSize, pieceSize)
      && p * pieceSize <= x < p * pieceSize + RequestLength(fileSize, pieceSize, p)
      && forall q: nat | q < PieceCount(fileSize, pieceSize)
                         && q * pieceSize <= x < q * pieceSize + RequestLength(fileSize, pieceSize, q) :: q == p
  {
    var p, q := x / pieceSize, fileSize / pieceSize;
    assert x == p * pieceSize + x % pieceSize && fileSize == q * pieceSize + fileSize % pieceSize;
    if p > q {
      MulLe(q + 1, p, pieceSize);
      assert false;
    }
    if p == q && fileSize % pieceSize == 0 {
      assert false;
    }
    PieceEnd(fileSize, pieceSize, p);
    forall q: nat | q < PieceCount(fileSize, pieceSize)
      && q * pieceSize <= x < q * pieceSize + RequestLength(fileSize, pieceSize, q)
      ensures q == p
    {
      if q < p {
        PiecesDisjoint(fileSize, pieceSize, q, p);
      } else if p < q {
        PiecesDisjoint(fileSize, pieceSize, p, q);
      }
    }
  }

  /** Total length of the pieces below k. */
  function TotalLength(fileSize: nat, pieceSize: nat, k: nat): nat
    requires pieceSize > 0
  {
    if k == 0 then 0 else TotalLength(fileSize, pieceSize, k - 1) + RequestLength(fileSize, pieceSize, k - 1)
  }

  lemma {:induction false} TotalLengthBelow(fileSize: nat, pieceSize: nat, k: nat)
    requires pieceSize > 0 && k < PieceCount(fileSize, pieceSize)
    ensures TotalLength(fileSize, pieceSize, k) == k * pieceSize
  {
    if k > 0 {
      TotalLengthBelow(fileSize, pieceSize, k - 1);
      PieceEnd(fileSize, pieceSize, k - 1);
    }
  }

  /** The requested lengths add up to the file size. */
  lemma LengthsAddUp(fileSize: nat, pieceSize: nat)
    requires pieceSize > 0
    ensures TotalLength(fileSize, pieceSize, PieceCount(fileSize, pieceSize)) == fileSize
  {
    var n := PieceCount(fileSize, pieceSize);
    if n > 0 {
      TotalLengthBelow(fileSize, pieceSize, n - 1);
      PieceEnd(fileSize, pieceSize, n - 1);
    }
  }
}
