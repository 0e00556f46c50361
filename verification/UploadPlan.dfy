/** The arithmetic of a chunked upload: how many chunks, and how long each may be. */
module UploadPlan {
  import opened Utf8
  import opened Division

  const DEFAULT_CHUNK_SIZE := 32 * 1024 * 1024
  const MAX_CHUNK_SIZE := 128 * 1024 * 1024

  /** Go's integer division, which truncates toward zero. */
  function GoDiv(a: int, b: int): int
    requires b != 0
  {
    if (a >= 0) == (b > 0) then Abs(a) / Abs(b) else -(Abs(a) / Abs(b))
  }

  /** Go's remainder, which takes the sign of the dividend. */
  function GoMod(a: int, b: int): int
    requires b != 0
  {
    a - b * GoDiv(a, b)
  }

  function Abs(a: int): nat {
    if a < 0 then -a else a
  }

  /** The chunk size of a session: absent means the default, and the maximum caps it. A
      negative request passes through. */
  function ChunkSize(requested: int): (c: int)
    ensures c != 0 && c <= MAX_CHUNK_SIZE
  {
    var c := if requested == 0 then DEFAULT_CHUNK_SIZE else requested;
    if c > MAX_CHUNK_SIZE then MAX_CHUNK_SIZE else c
  }

  /** What a request gets: 32 MiB for none, itself up to 128 MiB, no more than that. */
  lemma ChunkSizeExact(requested: int)
    ensures requested == 0 ==> ChunkSize(requested) == 33_554_432
    ensures requested != 0 && requested <= 134_217_728 ==> ChunkSize(requested) == requested
    ensures requested > 134_217_728 ==> ChunkSize(requested) == 134_217_728
  {
  }

  function TotalChunks(total: int, c: int): int
    requires c != 0
  {
    GoDiv(total + c - 1, c)
  }

  /** The most bytes chunk `i` may carry. */
  function Limit(total: int, c: int, i: nat): int
    requires c != 0
  {
    if i == GoDiv(total, c) then (if GoMod(total, c) == 0 then c else GoMod(total, c)) else c
  }

  function SumLimits(total: int, c: int, n: nat): int
    requires c != 0
  {
    if n == 0 then 0 else SumLimits(total, c, n - 1) + Limit(total, c, n - 1)
  }

  /** For a positive chunk size: all chunks but the last are full, and the last holds the rest. */
  lemma ChunksOfPositive(total: int, c: int)
    requires total > 0 && c > 0
    ensures var n := TotalChunks(total, c);
            && n >= 1 && (n - 1) * c < total <= n * c
            && (forall i: nat :: i < n - 1 ==> Limit(total, c, i) == c)
            && Limit(total, c, n - 1) == total - (n - 1) * c
  {
    var q, r := total / c, total % c;
    assert total == q * c + r;
    var n := TotalChunks(total, c);
    assert n == (total + c - 1) / c;
    if r == 0 {
      QuotientIs(total + c - 1, c, q, c - 1);
      assert (q - 1) * c == total - c;
    } else {
      QuotientIs(total + c - 1, c, q + 1, r - 1);
    }
  }

  lemma {:induction false} SumOfFull(total: int, c: int, n: nat)
    requires c != 0 && forall i: nat :: i < n ==> Limit(total, c, i) == c
    ensures SumLimits(total, c, n) == n * c
  {
    if n > 0 {
      SumOfFull(total, c, n - 1);
    }
  }

  /** The number of chunks as an index bound; it is not positive for most negative sizes. */
  function ChunkCount(total: int, c: int): nat
    requires c != 0
  {
    if TotalChunks(total, c) < 0 then 0 else TotalChunks(total, c)
  }

  /** The limits of all chunks add up to the announced size: for every positive chunk size, and
      for no negative one except in the corner of a one-byte upload. */
  lemma LimitsSumToTotal(total: int, c: int)
    requires total > 0 && c != 0
    ensures SumLimits(total, c, ChunkCount(total, c)) == total <==> c > 0 || (total == 1 && c < -1)
  {
    var n := ChunkCount(total, c);
    if c > 0 {
      ChunksOfPositive(total, c);
      SumOfFull(total, c, n - 1);
    } else {
      NegativeChunks(total, c);
      if total == 1 {
        assert SumLimits(total, c, 1) == SumLimits(total, c, 0) + Limit(total, c, 0);
      }
    }
  }

  /** What a negative chunk size announces: one chunk for a one-byte upload; otherwise no chunk
      if the size is less than one more than twice its absolute value, and a negative number of
      them if it is not. */
  lemma NegativeChunks(total: int, c: int)
    requires total > 0 && c < 0
    ensures total == 1 ==> TotalChunks(total, c) == 1 && Limit(total, c, 0) == if c == -1 then -1 else 1
    ensures total > 1 ==> (TotalChunks(total, c) == 0 <==> total - 1 < -2 * c)
    ensures total > 1 ==> (TotalChunks(total, c) < 0 <==> total - 1 >= -2 * c)
  {
    var a := total + c - 1;
    if total == 1 {
      QuotientIs(-a, -c, 1, 0);
      if c != -1 {
        QuotientIs(1, -c, 0, 1);
      }
    } else if a < 0 {
      QuotientIs(-a, -c, 0, -a);
    } else if a < -c {
      QuotientIs(a, -c, 0, a);
    } else {
      AtLeastOnce(a, -c);
    }
  }

  /** A session announces no chunks exactly in this case. */
  lemma NoChunksIff(total: int, c: int)
    requires total > 0 && c != 0
    ensures TotalChunks(total, c) == 0 <==> c < 0 && total > 1 && total - 1 < -2 * c
  {
    if c > 0 {
      ChunksOfPositive(total, c);
    } else {
      NegativeChunks(total, c);
    }
  }

  // ---------- Pieces ----------

  function Flatten(parts: seq<Bytes>): Bytes {
    if parts == [] then [] else Flatten(parts[..|parts| - 1]) + parts[|parts| - 1]
  }

  lemma FlattenSnoc(parts: seq<Bytes>, part: Bytes)
    ensures Flatten(parts + [part]) == Flatten(parts) + part
  {
    assert (parts + [part])[..|parts|] == parts;
  }

  /** Bodies within their limits are, together, within the sum of the limits. */
  lemma {:induction false} FlattenWithinLimits(total: int, c: int, parts: seq<Bytes>)
    requires c != 0 && forall i: nat :: i < |parts| ==> |parts[i]| <= Limit(total, c, i)
    ensures |Flatten(parts)| <= SumLimits(total, c, |parts|)
  {
    if parts != [] {
      FlattenWithinLimits(total, c, parts[..|parts| - 1]);
    }
  }

  /** The piece of a payload that chunk `i` carries. */
  function Piece(payload: Bytes, c: int, i: nat): Bytes
    requires c > 0
  {
    if i * c >= |payload| then []
    else if (i + 1) * c <= |payload| then payload[i * c..(i + 1) * c]
    else payload[i * c..]
  }

  /** Each piece is accepted under the limit of its chunk, and fills it. */
  lemma PieceFillsLimit(payload: Bytes, c: int, i: nat)
    requires c > 0 && |payload| > 0 && i < TotalChunks(|payload|, c)
    ensures |Piece(payload, c, i)| == Limit(|payload|, c, i)
  {
    ChunksOfPositive(|payload|, c);
    PieceLength(payload, c, i, TotalChunks(|payload|, c));
  }

  lemma PieceLength(payload: Bytes, c: int, i: nat, n: int)
    requires c > 0 && i < n && (n - 1) * c < |payload| <= n * c
    ensures |Piece(payload, c, i)| == if i < n - 1 then c else |payload| - i * c
  {
    assert (i + 1) * c == i * c + c;
    if i < n - 1 {
      Scaled(i + 1, n - 1, c);
    }
  }

  /** The first n pieces, joined. */
  function Front(payload: Bytes, c: int, n: nat): Bytes
    requires c > 0
  {
    payload[..if n * c <= |payload| then n * c else |payload|]
  }

  lemma NextPieceJoins(payload: Bytes, c: int, n: nat)
    requires c > 0
    ensures Front(payload, c, n) + Piece(payload, c, n) == Front(payload, c, n + 1)
  {
    assert (n + 1) * c == n * c + c;
  }

  function Pieces(payload: Bytes, c: int, n: nat): seq<Bytes>
    requires c > 0
  {
    seq(n, i requires 0 <= i < n => Piece(payload, c, i))
  }

  /** Cutting a payload and joining the pieces gives the payload back. */
  lemma {:induction false} PiecesJoin(payload: Bytes, c: int, n: nat)
    requires c > 0
    ensures Flatten(Pieces(payload, c, n)) == Front(payload, c, n)
  {
    if n > 0 {
      PiecesJoin(payload, c, n - 1);
      assert Pieces(payload, c, n) == Pieces(payload, c, n - 1) + [Piece(payload, c, n - 1)];
      FlattenSnoc(Pieces(payload, c, n - 1), Piece(payload, c, n - 1));
      NextPieceJoins(payload, c, n - 1);
    }
  }

  lemma AllPiecesJoin(payload: Bytes, c: int)
    requires c > 0 && |payload| > 0
    ensures var n := TotalChunks(|payload|, c);
            n > 0 && Flatten(Pieces(payload, c, n)) == payload
  {
    ChunksOfPositive(|payload|, c);
    PiecesJoin(payload, c, TotalChunks(|payload|, c));
  }
}
