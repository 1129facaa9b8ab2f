/** Integer index layout of the derivative-augmented kernel
    (GaussianProcess::compute and GaussianProcess::update_k_star).

    With n samples the augmented vectors have 4n entries: entries [0, n)
    are the values at the samples, and entry n + 3i + d is the derivative
    along axis d at sample i. Only which cell receives which kernel term is
    modelled; the terms themselves are symbolic. */
module Layout {

  /** What one index of a 4n-vector stands for. */
  datatype Channel = Value(sample: nat) | Derivative(sample: nat, axis: nat)

  predicate ValidChannel(n: nat, ch: Channel)
  {
    match ch
    case Value(i) => i < n
    case Derivative(i, d) => i < n && d < 3
  }

  function DerivIndex(n: nat, i: nat, d: nat): (k: nat)
  {
    n + 3 * i + d
  }

  function IndexOf(n: nat, ch: Channel): (k: nat)
  {
    match ch
    case Value(i) => i
    case Derivative(i, d) => DerivIndex(n, i, d)
  }

  function ChannelOf(n: nat, k: nat): (ch: Channel)
  {
    if k < n then Value(k) else Derivative((k - n) / 3, (k - n) % 3)
  }

  /** Decoding an index of [0, 4n) gives a valid channel that encodes back
      to the same index. */
  lemma ChannelRoundTrip(n: nat, k: nat)
    requires k < 4 * n
    ensures ValidChannel(n, ChannelOf(n, k))
    ensures IndexOf(n, ChannelOf(n, k)) == k
  {
  }

  /** Encoding a valid channel lands in [0, 4n) and decodes back to it. */
  lemma IndexRoundTrip(n: nat, ch: Channel)
    requires ValidChannel(n, ch)
    ensures IndexOf(n, ch) < 4 * n
    ensures ChannelOf(n, IndexOf(n, ch)) == ch
  {
    if ch.Derivative? {
      DerivDecode(ch.sample, ch.axis);
    }
  }

  lemma DerivDecode(i: nat, d: nat)
    requires d < 3
    ensures (3 * i + d) / 3 == i && (3 * i + d) % 3 == d
  {
  }

  /** The derivative index n + 3i + d is a bijection from
      {i < n, d < 3} onto [n, 4n). */
  lemma DerivIndexBijection(n: nat)
    ensures forall i: nat, d: nat :: i < n && d < 3 ==> n <= DerivIndex(n, i, d) < 4 * n
    ensures forall i1: nat, d1: nat, i2: nat, d2: nat ::
              d1 < 3 && d2 < 3 && DerivIndex(n, i1, d1) == DerivIndex(n, i2, d2) ==> i1 == i2 && d1 == d2
    ensures forall k: nat :: n <= k < 4 * n ==>
              ChannelOf(n, k).Derivative? && ValidChannel(n, ChannelOf(n, k)) && IndexOf(n, ChannelOf(n, k)) == k
  {
    forall i1: nat, d1: nat, i2: nat, d2: nat |
      d1 < 3 && d2 < 3 && DerivIndex(n, i1, d1) == DerivIndex(n, i2, d2)
      ensures i1 == i2 && d1 == d2
    {
      DerivDecode(i1, d1);
      DerivDecode(i2, d2);
    }
  }

  // ---------------------------------------------------------------------
  // compute(): the lower triangle of the 4n x 4n kernel

  /** Symbolic kernel terms between two samples: k, its derivative along
      an axis of the first argument, and a second derivative. */
  datatype Entry =
    | K(a: nat, b: nat)
    | K1(a: nat, b: nat, axis: nat)
    | K2(a: nat, b: nat, axis1: nat, axis2: nat)

  datatype Write = Write(row: nat, col: nat, entry: Entry)

  function ValueBlock(n: nat): (ws: set<Write>)
  {
    set i: nat, j: nat | j <= i < n :: Write(i, j, K(i, j))
  }

  function FirstDerivBlock(n: nat): (ws: set<Write>)
  {
    set i: nat, d: nat, j: nat | i < n && d < 3 && j < n :: Write(n + 3 * i + d, j, K1(i, j, d))
  }

  /** Second-derivative cells as the code writes them: for column n + j the
      code passes sample j itself, which for j >= n lies past the end of
      the sample set. */
  function SecondDerivBlockAsWritten(n: nat): (ws: set<Write>)
  {
    set i: nat, d: nat, j: nat | i < n && d < 3 && j < 3 * i + d + 1 ::
      Write(n + 3 * i + d, n + j, K2(i, j, d, j % 3))
  }

  /** Second-derivative cells as the layout requires: column n + j is
      sample j / 3 along axis j % 3. */
  function SecondDerivBlock(n: nat): (ws: set<Write>)
  {
    set i: nat, d: nat, j: nat | i < n && d < 3 && j < 3 * i + d + 1 ::
      Write(n + 3 * i + d, n + j, K2(i, j / 3, d, j % 3))
  }

  function ComputeWritesAsWritten(n: nat): (ws: set<Write>)
  {
    ValueBlock(n) + FirstDerivBlock(n) + SecondDerivBlockAsWritten(n)
  }

  function ComputeWrites(n: nat): (ws: set<Write>)
  {
    ValueBlock(n) + FirstDerivBlock(n) + SecondDerivBlock(n)
  }

  /** The term that belongs in cell (r, c) of the lower triangle, read off
      the channels of the row and the column. */
  function Expected(n: nat, r: nat, c: nat): (e: Entry)
  {
    match (ChannelOf(n, r), ChannelOf(n, c))
    case (Value(a), Value(b)) => K(a, b)
    case (Derivative(a, d), Value(b)) => K1(a, b, d)
    case (Derivative(a, d1), Derivative(b, d2)) => K2(a, b, d1, d2)
    case (Value(a), Derivative(b, d)) => K1(b, a, d)
  }

  /** Every sample an entry reads exists. */
  predicate ReadsInRange(n: nat, e: Entry)
  {
    e.a < n && e.b < n
  }

  predicate InLowerTriangle(m: nat, r: nat, c: nat)
  {
    c <= r < m
  }

  /** Every cell compute writes is in the lower triangle of the 4n x 4n
      block, and every such cell is written. */
  lemma ComputeCoversLowerTriangle(n: nat)
    ensures forall w :: w in ComputeWrites(n) ==> InLowerTriangle(4 * n, w.row, w.col)
    ensures forall w :: w in ComputeWritesAsWritten(n) ==> InLowerTriangle(4 * n, w.row, w.col)
    ensures forall r: nat, c: nat :: InLowerTriangle(4 * n, r, c) ==>
              Write(r, c, Expected(n, r, c)) in ComputeWrites(n)
  {
    forall r: nat, c: nat | InLowerTriangle(4 * n, r, c)
      ensures Write(r, c, Expected(n, r, c)) in ComputeWrites(n)
    {
      CellWritten(n, r, c);
    }
  }

  lemma CellWritten(n: nat, r: nat, c: nat)
    requires InLowerTriangle(4 * n, r, c)
    ensures Write(r, c, Expected(n, r, c)) in ComputeWrites(n)
  {
    if r < n {
      assert Write(r, c, K(r, c)) in ValueBlock(n);
    } else {
      var i, d := (r - n) / 3, (r - n) % 3;
      assert r == n + 3 * i + d;
      if c < n {
        assert Write(n + 3 * i + d, c, K1(i, c, d)) in FirstDerivBlock(n);
      } else {
        var j := c - n;
        assert j < 3 * i + d + 1;
        assert Write(n + 3 * i + d, n + j, K2(i, j / 3, d, j % 3)) in SecondDerivBlock(n);
      }
    }
  }

  /** Each cell is written by exactly one (loop index, term) pair, and the
      term is the one its row and column channels call for, reading only
      existing samples. */
  lemma ComputeLayoutEntriesMatch(n: nat)
    ensures forall w :: w in ComputeWrites(n) ==>
              w.entry == Expected(n, w.row, w.col) && ReadsInRange(n, w.entry)
    ensures forall w1, w2 ::
              (w1 in ComputeWrites(n) && w2 in ComputeWrites(n) && w1.row == w2.row && w1.col == w2.col) ==> w1 == w2
  {
    forall w | w in ComputeWrites(n)
      ensures w.entry == Expected(n, w.row, w.col) && ReadsInRange(n, w.entry)
    {
      EntryMatches(n, w);
    }
  }

  lemma EntryMatches(n: nat, w: Write)
    requires w in ComputeWrites(n)
    ensures w.entry == Expected(n, w.row, w.col) && ReadsInRange(n, w.entry)
  {
    if w in ValueBlock(n) {
      ValueEntry(n, w);
    } else if w in FirstDerivBlock(n) {
      FirstDerivEntry(n, w);
    } else {
      SecondDerivEntry(n, w);
    }
  }

  lemma ValueEntry(n: nat, w: Write)
    requires w in ValueBlock(n)
    ensures w.entry == Expected(n, w.row, w.col) && ReadsInRange(n, w.entry)
  {
  }

  lemma FirstDerivEntry(n: nat, w: Write)
    requires w in FirstDerivBlock(n)
    ensures w.entry == Expected(n, w.row, w.col) && ReadsInRange(n, w.entry)
  {
    var i: nat, d: nat, j: nat :| i < n && d < 3 && j < n && w == Write(n + 3 * i + d, j, K1(i, j, d));
    DerivDecode(i, d);
  }

  lemma SecondDerivEntry(n: nat, w: Write)
    requires w in SecondDerivBlock(n)
    ensures w.entry == Expected(n, w.row, w.col) && ReadsInRange(n, w.entry)
  {
    var i: nat, d: nat, j: nat :| i < n && d < 3 && j < 3 * i + d + 1 &&
      w == Write(n + 3 * i + d, n + j, K2(i, j / 3, d, j % 3));
    DerivDecode(i, d);
    assert j / 3 <= i;
  }

  /** With one sample, the code writes cell (2, 2) from samples 0 and 1;
      sample 1 does not exist, and the cell should hold the second
      derivative of sample 0 along axes 1 and 1. */
  lemma ComputeAsWrittenReadsPastEnd()
    ensures Write(2, 2, K2(0, 1, 1, 1)) in ComputeWritesAsWritten(1)
    ensures !ReadsInRange(1, K2(0, 1, 1, 1))
    ensures Expected(1, 2, 2) == K2(0, 0, 1, 1)
  {
    assert Write(1 + 3 * 0 + 1, 1 + 1, K2(0, 1, 1, 1 % 3)) in SecondDerivBlockAsWritten(1);
  }

  /** For every sample count the code's last cell (4n - 1, 4n - 1), the
      second derivative of sample n - 1 along axis 2 twice, is filled from
      sample 3n - 1, which does not exist. */
  lemma ComputeAsWrittenAlwaysReadsPastEnd(n: nat)
    requires 1 <= n
    ensures Write(4 * n - 1, 4 * n - 1, K2(n - 1, 3 * n - 1, 2, 2)) in ComputeWritesAsWritten(n)
    ensures !ReadsInRange(n, K2(n - 1, 3 * n - 1, 2, 2))
    ensures Expected(n, 4 * n - 1, 4 * n - 1) == K2(n - 1, n - 1, 2, 2)
  {
    assert (3 * n - 1) % 3 == 2 by {
      assert 3 * n - 1 == 3 * (n - 1) + 2;
    }
    assert Write(n + 3 * (n - 1) + 2, n + (3 * n - 1), K2(n - 1, 3 * n - 1, 2, (3 * n - 1) % 3))
      in SecondDerivBlockAsWritten(n);
    DerivDecode(n - 1, 2);
  }

  // ---------------------------------------------------------------------
  // update_k_star(): the 4 x 4n cross-covariance block

  /** Terms between the query point and sample `sample`: k, a first
      derivative, a second derivative. KDiffArg is the call
      getDiff(x*, x(sample), axis, arg) with a fourth argument, exactly as
      written; what the covariance makes of that argument (compute passes a
      noise flag in that place) is not part of this model. */
  datatype KEntry =
    | KGet(sample: nat)
    | KDiff(sample: nat, axis: nat)
    | KDiff2(sample: nat, axis1: nat, axis2: nat)
    | KDiffArg(sample: nat, axis: nat, arg: nat)

  datatype KWrite = KWrite(row: nat, col: nat, entry: KEntry)

  /** Row 0 in loop order: values, then for each sample j and axis d the
      cell n + 3j + d (the loop pair (j, d) is step 3j + d). */
  function KStarRowZero(n: nat): (ws: seq<KWrite>)
  {
    seq(n, j requires 0 <= j => KWrite(0, j, KGet(j)))
    + seq(3 * n, k requires 0 <= k => KWrite(0, n + 3 * (k / 3) + k % 3, KDiff(k / 3, k % 3)))
  }

  /** Rows 1..3 in loop order as the code writes them: after the value
      columns, j runs over [n, 4n) and for each axis d the SAME cell (i, j)
      is written from sample j (step 3(j - n) + d). */
  function KStarDerivRowAsWritten(n: nat, i: nat): (ws: seq<KWrite>)
    requires 1 <= i < 4
  {
    seq(n, j requires 0 <= j => KWrite(i, j, KDiff(j, i - 1)))
    + seq(9 * n, k requires 0 <= k => KWrite(i, n + k / 3, KDiffArg(n + k / 3, i - 1, k % 3)))
  }

  /** Rows 1..3 as the layout requires: column n + 3j + d holds the second
      derivative at sample j along axes i - 1 and d. */
  function KStarDerivRow(n: nat, i: nat): (ws: seq<KWrite>)
    requires 1 <= i < 4
  {
    seq(n, j requires 0 <= j => KWrite(i, j, KDiff(j, i - 1)))
    + seq(3 * n, k requires 0 <= k => KWrite(i, n + 3 * (k / 3) + k % 3, KDiff2(k / 3, i - 1, k % 3)))
  }

  function KStarLayoutAsWritten(n: nat): (ws: seq<KWrite>)
  {
    KStarRowZero(n) + KStarDerivRowAsWritten(n, 1) + KStarDerivRowAsWritten(n, 2) + KStarDerivRowAsWritten(n, 3)
  }

  function KStarLayout(n: nat): (ws: seq<KWrite>)
  {
    KStarRowZero(n) + KStarDerivRow(n, 1) + KStarDerivRow(n, 2) + KStarDerivRow(n, 3)
  }

  function Columns(ws: seq<KWrite>): (cs: seq<nat>)
  {
    seq(|ws|, k requires 0 <= k < |ws| => ws[k].col)
  }

  function Range(m: nat): (rs: seq<nat>)
  {
    seq(m, k => k)
  }

  /** The term row r of k_star needs at a column of the given channel. */
  function KExpected(r: nat, ch: Channel): (e: KEntry)
  {
    match ch
    case Value(j) => if r == 0 then KGet(j) else KDiff(j, r - 1)
    case Derivative(j, d) => if r == 0 then KDiff(j, d) else KDiff2(j, r - 1, d)
  }

  predicate KWriteRight(n: nat, w: KWrite)
  {
    w.row < 4 && w.col < 4 * n && w.entry == KExpected(w.row, ChannelOf(n, w.col)) && w.entry.sample < n
  }

  lemma ColumnStep(n: nat, k: nat)
    ensures n + 3 * (k / 3) + k % 3 == n + k
    ensures (n + k - n) / 3 == k / 3 && (n + k - n) % 3 == k % 3
  {
  }

  /** Row 0 writes the columns 0, 1, ..., 4n - 1 once each, in order, each
      with the term its channel needs. */
  lemma KStarRowZeroExact(n: nat)
    ensures Columns(KStarRowZero(n)) == Range(4 * n)
    ensures forall k :: 0 <= k < |KStarRowZero(n)| ==> KWriteRight(n, KStarRowZero(n)[k])
  {
    var ws := KStarRowZero(n);
    forall k | 0 <= k < |ws|
      ensures ws[k].col == k && KWriteRight(n, ws[k])
    {
      if k >= n {
        ColumnStep(n, k - n);
      }
    }
  }

  /** The corrected rows 1..3 do the same. */
  lemma KStarDerivRowExact(n: nat, i: nat)
    requires 1 <= i < 4
    ensures Columns(KStarDerivRow(n, i)) == Range(4 * n)
    ensures forall k :: 0 <= k < |KStarDerivRow(n, i)| ==> KWriteRight(n, KStarDerivRow(n, i)[k])
  {
    var ws := KStarDerivRow(n, i);
    forall k | 0 <= k < |ws|
      ensures ws[k].col == k && KWriteRight(n, ws[k])
    {
      if k >= n {
        ColumnStep(n, k - n);
      }
    }
  }

  /** The corrected block: every write lies in the 4 x 4n block with the
      right term, and each of the four rows covers its 4n columns exactly
      once, in order. */
  lemma KStarLayoutExact(n: nat)
    ensures |KStarLayout(n)| == 16 * n
    ensures forall k :: 0 <= k < |KStarLayout(n)| ==> KWriteRight(n, KStarLayout(n)[k])
    ensures Columns(KStarLayout(n)[0 .. 4 * n]) == Range(4 * n)
    ensures Columns(KStarLayout(n)[4 * n .. 8 * n]) == Range(4 * n)
    ensures Columns(KStarLayout(n)[8 * n .. 12 * n]) == Range(4 * n)
    ensures Columns(KStarLayout(n)[12 * n .. 16 * n]) == Range(4 * n)
  {
    KStarRowZeroExact(n);
    KStarDerivRowExact(n, 1);
    KStarDerivRowExact(n, 2);
    KStarDerivRowExact(n, 3);
    FourRows(n, KStarRowZero(n), KStarDerivRow(n, 1), KStarDerivRow(n, 2), KStarDerivRow(n, 3));
  }

  /** Gluing four exact rows of 4n writes gives an exact 4 x 4n block. */
  lemma FourRows(n: nat, z: seq<KWrite>, a: seq<KWrite>, b: seq<KWrite>, c: seq<KWrite>)
    requires Columns(z) == Range(4 * n) && Columns(a) == Range(4 * n)
    requires Columns(b) == Range(4 * n) && Columns(c) == Range(4 * n)
    requires forall k :: 0 <= k < |z| ==> KWriteRight(n, z[k])
    requires forall k :: 0 <= k < |a| ==> KWriteRight(n, a[k])
    requires forall k :: 0 <= k < |b| ==> KWriteRight(n, b[k])
    requires forall k :: 0 <= k < |c| ==> KWriteRight(n, c[k])
    ensures var ws := z + a + b + c;
            && |ws| == 16 * n
            && (forall k :: 0 <= k < |ws| ==> KWriteRight(n, ws[k]))
            && Columns(ws[0 .. 4 * n]) == Range(4 * n)
            && Columns(ws[4 * n .. 8 * n]) == Range(4 * n)
            && Columns(ws[8 * n .. 12 * n]) == Range(4 * n)
            && Columns(ws[12 * n .. 16 * n]) == Range(4 * n)
  {
    var m := 4 * n;
    assert |Columns(z)| == |z| == m && |Columns(a)| == |a| == m;
    assert |Columns(b)| == |b| == m && |Columns(c)| == |c| == m;
    var ws := z + a + b + c;
    assert ws[0 .. m] == z;
    assert ws[m .. 2 * m] == a;
    assert ws[2 * m .. 3 * m] == b;
    assert ws[3 * m .. 4 * m] == c;
    forall k | 0 <= k < |ws|
      ensures KWriteRight(n, ws[k])
    {
      if k < m {
        assert ws[k] == z[k];
      } else if k < 2 * m {
        assert ws[k] == a[k - m];
      } else if k < 3 * m {
        assert ws[k] == b[k - 2 * m];
      } else {
        assert ws[k] == c[k - 3 * m];
      }
    }
  }

  /** The code's rows 1..3 write 10n cells for 4n columns: with one sample,
      row 1 writes column 1 three times, each time from sample 1, which
      does not exist; the term it should hold is the second derivative of
      sample 0, and none of the three writes is right. */
  lemma KStarAsWrittenOverwrites()
    ensures |KStarDerivRowAsWritten(1, 1)| == 10
    ensures KStarDerivRowAsWritten(1, 1)[1] == KWrite(1, 1, KDiffArg(1, 0, 0))
    ensures KStarDerivRowAsWritten(1, 1)[2] == KWrite(1, 1, KDiffArg(1, 0, 1))
    ensures KStarDerivRowAsWritten(1, 1)[3] == KWrite(1, 1, KDiffArg(1, 0, 2))
    ensures KExpected(1, ChannelOf(1, 1)) == KDiff2(0, 0, 0)
    ensures forall k :: 1 <= k <= 3 ==> !KWriteRight(1, KStarDerivRowAsWritten(1, 1)[k])
  {
    var ws := KStarDerivRowAsWritten(1, 1);
    assert ws[1] == seq(9, k requires 0 <= k => KWrite(1, 1 + k / 3, KDiffArg(1 + k / 3, 0, k % 3)))[0];
    assert ws[2] == seq(9, k requires 0 <= k => KWrite(1, 1 + k / 3, KDiffArg(1 + k / 3, 0, k % 3)))[1];
    assert ws[3] == seq(9, k requires 0 <= k => KWrite(1, 1 + k / 3, KDiffArg(1 + k / 3, 0, k % 3)))[2];
  }
}
