/** The split report (internal/intent/parent.go:332-343): for which clusters what it says is
    the truth. */
module Fragmentation {
  import opened Wrappers
  import Int64
  import opened Sorting
  import opened Notional
  import opened Clustering
  import opened Reconstruction

  /** Whether the pieces together exceed a per-order ceiling. */
  predicate Fragmented(p: Parent, limit: Amount) {
    limit > 0 && |p.children| >= 2 && p.gross > limit
  }

  /** The report says what the exact total says, whatever limit it is asked about. */
  ghost predicate ReportedRightly(cluster: seq<Envelope>)
    requires |cluster| >= 2
  {
    forall limit: Amount :: limit > 0 ==> (Fragmented(SummaryOf(cluster), limit) <==> GrossOf(cluster) > limit)
  }

  /** A cluster as reconstruction finds them: one key, in order, nothing repeated, no gap
      beyond the window. */
  ghost predicate OneIntent(cluster: seq<Envelope>, window: int) {
    && (forall i, j :: 0 <= i < j < |cluster| ==> cluster[i].envelopeID != cluster[j].envelopeID)
    && (forall i, j :: 0 <= i < j < |cluster| ==> KeyOf(cluster[i]) == KeyOf(cluster[j]))
    && Sorted(Before, cluster) && Tight(cluster, window)
  }

  /** Every order whose size is known is positive and at most the ceiling. */
  predicate EachWithin(cluster: seq<Envelope>, ceiling: int) {
    forall i :: 0 <= i < |cluster| && ClusterNotional(cluster[i].intent).Some? ==> 0 < ClusterNotional(cluster[i].intent).value <= ceiling
  }

  lemma {:induction false} GrossBound(cluster: seq<Envelope>, ceiling: int)
    requires ceiling >= 0 && EachWithin(cluster, ceiling)
    ensures 0 <= GrossOf(cluster) <= |cluster| * ceiling
    decreases |cluster|
  {
    if cluster != [] {
      GrossBound(cluster[..|cluster| - 1], ceiling);
      assert |cluster| * ceiling == (|cluster| - 1) * ceiling + ceiling;
    }
  }

  /** Under a ceiling that leaves room for every order, the total is the true one and the
      report is right. */
  lemma CeilingMakesReportsRight(cluster: seq<Envelope>, ceiling: int)
    requires |cluster| >= 2 && ceiling >= 0 && EachWithin(cluster, ceiling) && |cluster| * ceiling <= Int64.MAX
    ensures SummaryOf(cluster).gross == GrossOf(cluster) && ReportedRightly(cluster)
  {
    GrossBound(cluster, ceiling);
    EveryChildAccounted(cluster);
  }

  // ---------------------------------------------------------------------------
  // A cluster whose total just fails to fit
  // ---------------------------------------------------------------------------

  /** The least total that does not fit. */
  const GOAL := Int64.MAX + 1

  function Reached(k: nat, piece: nat): int {
    if k * piece < GOAL then k * piece else GOAL
  }

  /** The k-th order: a nanosecond after the one before, for the piece or what is still
      missing from the goal; of unknown size once nothing is. */
  function Piece(k: nat, piece: nat): Envelope
    requires piece <= Int64.AMOUNT_MAX
  {
    var missing := Reached(k + 1, piece) - Reached(k, piece);
    Envelope(seq(k, _ => 'x'), "t", "p", "a", "agent", "s", "g", "m", k,
      if 0 < missing <= piece then Intent("i", "EQUITY", BUY, MARKET, Some(missing), None, None, false)
      else Intent("i", "EQUITY", BUY, MARKET, None, Some(1), None, false))
  }

  lemma PieceIs(k: nat, piece: nat)
    requires 0 < piece <= Int64.AMOUNT_MAX
    ensures var n := ClusterNotional(Piece(k, piece).intent);
      && (n.Some? ==> 0 < n.value <= piece)
      && Reached(k + 1, piece) == Reached(k, piece) + if n.Some? then n.value else 0
  {
    assert (k + 1) * piece == k * piece + piece;
  }

  function Pieces(n: nat, piece: nat): (cluster: seq<Envelope>)
    requires piece <= Int64.AMOUNT_MAX
    ensures |cluster| == n && forall k :: 0 <= k < n ==> cluster[k] == Piece(k, piece)
  {
    seq(n, k requires 0 <= k => Piece(k, piece))
  }

  lemma {:induction false} PiecesReach(n: nat, piece: nat)
    requires 0 < piece <= Int64.AMOUNT_MAX
    ensures GrossOf(Pieces(n, piece)) == Reached(n, piece)
    decreases n
  {
    if n > 0 {
      PiecesReach(n - 1, piece);
      PieceIs(n - 1, piece);
      assert Pieces(n, piece)[..n - 1] == Pieces(n - 1, piece);
    }
  }

  lemma PiecesAreOne(n: nat, piece: nat, window: int)
    requires 0 < piece <= Int64.AMOUNT_MAX && window >= 1
    ensures OneIntent(Pieces(n, piece), window) && EachWithin(Pieces(n, piece), piece)
  {
    var cluster := Pieces(n, piece);
    forall k | 0 <= k < n ensures ClusterNotional(cluster[k].intent).Some? ==> 0 < ClusterNotional(cluster[k].intent).value <= piece {
      PieceIs(k, piece);
    }
    forall i, j | 0 <= i < j < n ensures cluster[i].envelopeID != cluster[j].envelopeID {
      assert |cluster[i].envelopeID| == i && |cluster[j].envelopeID| == j;
    }
  }

  /** A total one past the largest int64 is the least int64, and is reported as no split. */
  lemma JustPastIsUnreported(cluster: seq<Envelope>)
    requires |cluster| >= 2 && GrossOf(cluster) == GOAL
    ensures !ReportedRightly(cluster)
  {
    Int64.WrapShift(Int64.MIN);
    var limit: Amount := 1;
    assert GrossOf(cluster) > limit && !Fragmented(SummaryOf(cluster), limit);
  }

  // ---------------------------------------------------------------------------
  // When every report is right
  // ---------------------------------------------------------------------------

  ghost predicate AllReportedRightly(n: nat, ceiling: int, window: int)
    requires n >= 2
  {
    forall cluster :: |cluster| == n && OneIntent(cluster, window) && EachWithin(cluster, ceiling) ==> ReportedRightly(cluster)
  }

  /** Exactly when splitting is always reported rightly: for clusters of n orders, each at
      most the ceiling, exactly when n times the ceiling fits int64. */
  lemma ReportsRightExactly(n: nat, ceiling: Amount, window: int)
    requires n >= 2 && ceiling > 0 && window >= 1
    ensures AllReportedRightly(n, ceiling, window) <==> n * ceiling <= Int64.MAX
  {
    if n * ceiling <= Int64.MAX {
      forall cluster | |cluster| == n && OneIntent(cluster, window) && EachWithin(cluster, ceiling)
        ensures ReportedRightly(cluster)
      {
        CeilingMakesReportsRight(cluster, ceiling);
      }
    } else {
      // An order's written notional is at most AMOUNT_MAX, two of which already overflow.
      var piece: nat := if ceiling <= Int64.AMOUNT_MAX then ceiling else Int64.AMOUNT_MAX;
      AtLeastTwo(n);
      PiecesAreOne(n, piece, window);
      PiecesReach(n, piece);
      JustPastIsUnreported(Pieces(n, piece));
    }
  }

  lemma AtLeastTwo(n: nat)
    requires n >= 2
    ensures n * Int64.AMOUNT_MAX > Int64.MAX
  {
  }

  function Largest(id: string, at: int): Envelope {
    Envelope(id, "t", "p", "a", "agent", "s", "g", "m", at, Intent("i", "EQUITY", BUY, MARKET, Some(Int64.AMOUNT_MAX), None, None, false))
  }

  /** Two orders of the largest notional that can be read sum to less than nothing, and are
      not reported as one intention split in two. */
  lemma LargestPairUnreported()
    ensures var pair := [Largest("e1", 0), Largest("e2", 1)];
      && OneIntent(pair, 1) && EachWithin(pair, Int64.AMOUNT_MAX)
      && GrossOf(pair) == 2 * Int64.AMOUNT_MAX && SummaryOf(pair).gross < 0 && !ReportedRightly(pair)
  {
    var pair := [Largest("e1", 0), Largest("e2", 1)];
    assert pair[..1] == [Largest("e1", 0)] && pair[..1][..0] == [];
    assert GrossOf(pair[..1]) == Int64.AMOUNT_MAX;
    Int64.WrapShift(2 * Int64.AMOUNT_MAX - Int64.SPAN);
    var limit: Amount := 1;
    assert GrossOf(pair) > limit && !Fragmented(SummaryOf(pair), limit);
  }
}
