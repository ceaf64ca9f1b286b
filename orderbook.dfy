/** Order-book imbalance (utils.py): the normalised difference between the bid and ask
    volume resting on the top levels of each side of the book. */
module OrderBook {
  import opened Wrappers

  /** One price level `[price, volume]` of a side of the book. */
  datatype Level = Level(price: real, volume: real)

  /** An order book as the exchange returns it; a side is `None` when its key is missing. */
  datatype Book = Book(bids: Option<seq<Level>>, asks: Option<seq<Level>>)

  /** `book.get(side, [])` */
  function SideOrEmpty(side: Option<seq<Level>>): seq<Level>
  {
    if side.Some? then side.value else []
  }

  /** `levels[:depth]` for a non-negative depth. */
  function Top(levels: seq<Level>, depth: nat): (t: seq<Level>)
    ensures |t| == if depth < |levels| then depth else |levels|
    ensures forall i :: 0 <= i < |t| ==> t[i] == levels[i]
  {
    if depth < |levels| then levels[..depth] else levels
  }

  /** `sum(float(l[1]) for l in levels)` */
  function Volume(levels: seq<Level>): real
  {
    if |levels| == 0 then 0.0 else Volume(levels[..|levels| - 1]) + levels[|levels| - 1].volume
  }

  predicate NonNegativeVolumes(levels: seq<Level>)
  {
    forall i :: 0 <= i < |levels| ==> levels[i].volume >= 0.0
  }

  /** The volume of the top `depth` levels of one side. */
  function SideVolume(side: Option<seq<Level>>, depth: nat): real
  {
    Volume(Top(SideOrEmpty(side), depth))
  }

  /** `orderbook_imbalance(book, depth)`: 0.0 when the considered levels hold no volume. */
  function Imbalance(book: Book, depth: nat): (r: real)
    ensures SideVolume(book.bids, depth) + SideVolume(book.asks, depth) == 0.0 ==> r == 0.0
    ensures SideVolume(book.bids, depth) + SideVolume(book.asks, depth) != 0.0 ==>
              r * (SideVolume(book.bids, depth) + SideVolume(book.asks, depth))
                == SideVolume(book.bids, depth) - SideVolume(book.asks, depth)
  {
    var bidVol := SideVolume(book.bids, depth);
    var askVol := SideVolume(book.asks, depth);
    if bidVol + askVol == 0.0 then 0.0 else (bidVol - askVol) / (bidVol + askVol)
  }

  lemma {:induction false} VolumeNonNegative(levels: seq<Level>)
    requires NonNegativeVolumes(levels)
    ensures Volume(levels) >= 0.0
  {
    if |levels| > 0 {
      VolumeNonNegative(levels[..|levels| - 1]);
    }
  }

  /** Only the volume field of a level counts: prices are ignored. */
  lemma {:induction false} VolumeIgnoresPrices(a: seq<Level>, b: seq<Level>)
    requires |a| == |b|
    requires forall i :: 0 <= i < |a| ==> a[i].volume == b[i].volume
    ensures Volume(a) == Volume(b)
  {
    if |a| > 0 {
      VolumeIgnoresPrices(a[..|a| - 1], b[..|b| - 1]);
    }
  }

  /** Two books whose sides agree on the volumes of their top `depth` levels have the
      same imbalance, whatever their prices and whatever lies below `depth`. */
  lemma ImbalanceDependsOnTopVolumes(b1: Book, b2: Book, depth: nat)
    requires |Top(SideOrEmpty(b1.bids), depth)| == |Top(SideOrEmpty(b2.bids), depth)|
    requires |Top(SideOrEmpty(b1.asks), depth)| == |Top(SideOrEmpty(b2.asks), depth)|
    requires forall i :: 0 <= i < |Top(SideOrEmpty(b1.bids), depth)| ==>
               SideOrEmpty(b1.bids)[i].volume == SideOrEmpty(b2.bids)[i].volume
    requires forall i :: 0 <= i < |Top(SideOrEmpty(b1.asks), depth)| ==>
               SideOrEmpty(b1.asks)[i].volume == SideOrEmpty(b2.asks)[i].volume
    ensures Imbalance(b1, depth) == Imbalance(b2, depth)
  {
    VolumeIgnoresPrices(Top(SideOrEmpty(b1.bids), depth), Top(SideOrEmpty(b2.bids), depth));
    VolumeIgnoresPrices(Top(SideOrEmpty(b1.asks), depth), Top(SideOrEmpty(b2.asks), depth));
  }

  /** Levels below `depth` on either side never change the imbalance. */
  lemma ImbalanceIgnoresDeepLevels(bids: seq<Level>, asks: seq<Level>, deepBids: seq<Level>, deepAsks: seq<Level>, depth: nat)
    requires |bids| >= depth && |asks| >= depth
    ensures Imbalance(Book(Some(bids + deepBids), Some(asks + deepAsks)), depth)
         == Imbalance(Book(Some(bids), Some(asks)), depth)
  {
    assert Top(bids + deepBids, depth) == Top(bids, depth);
    assert Top(asks + deepAsks, depth) == Top(asks, depth);
  }

  /** A missing `bids` or `asks` key behaves as an empty side. */
  lemma MissingSideIsEmpty(book: Book, depth: nat)
    ensures Imbalance(Book(None, book.asks), depth) == Imbalance(Book(Some([]), book.asks), depth)
    ensures Imbalance(Book(book.bids, None), depth) == Imbalance(Book(book.bids, Some([])), depth)
  {
  }

  /** An empty book (both sides missing or empty) has imbalance 0. */
  lemma EmptyBookIsBalanced(depth: nat)
    ensures Imbalance(Book(None, None), depth) == 0.0
    ensures Imbalance(Book(Some([]), Some([])), depth) == 0.0
  {
  }

  lemma NonNegativeFactor(x: real, p: real)
    requires p > 0.0 && x * p >= 0.0
    ensures x >= 0.0
  {
    assert x == (x * p) / p;
  }

  /** The normalised difference of two non-negative volumes, not both zero, lies in [-1, 1]. */
  lemma NormalisedDifferenceBounded(bidVol: real, askVol: real)
    requires bidVol >= 0.0 && askVol >= 0.0 && bidVol + askVol != 0.0
    ensures -1.0 <= (bidVol - askVol) / (bidVol + askVol) <= 1.0
  {
    var r := (bidVol - askVol) / (bidVol + askVol);
    assert r * (bidVol + askVol) == bidVol - askVol;
    assert (r + 1.0) * (bidVol + askVol) == 2.0 * bidVol;
    assert (1.0 - r) * (bidVol + askVol) == 2.0 * askVol;
    NonNegativeFactor(r + 1.0, bidVol + askVol);
    NonNegativeFactor(1.0 - r, bidVol + askVol);
  }

  /** With non-negative volumes the imbalance lies in [-1, 1]. */
  lemma ImbalanceBounded(book: Book, depth: nat)
    requires NonNegativeVolumes(SideOrEmpty(book.bids)) && NonNegativeVolumes(SideOrEmpty(book.asks))
    ensures -1.0 <= Imbalance(book, depth) <= 1.0
  {
    VolumeNonNegative(Top(SideOrEmpty(book.bids), depth));
    VolumeNonNegative(Top(SideOrEmpty(book.asks), depth));
    var bidVol, askVol := SideVolume(book.bids, depth), SideVolume(book.asks, depth);
    if bidVol + askVol != 0.0 {
      NormalisedDifferenceBounded(bidVol, askVol);
    }
  }

  /** Multiplying by a positive factor keeps the sign. */
  lemma SignOfFactor(x: real, p: real)
    requires p > 0.0
    ensures x * p > 0.0 <==> x > 0.0
    ensures x * p < 0.0 <==> x < 0.0
  {
    if x > 0.0 {
      assert x * p > 0.0;
    } else if x < 0.0 {
      assert (-x) * p > 0.0;
    } else {
      assert x * p == 0.0;
    }
  }

  /** The normalised difference of two non-negative volumes, not both zero, has the sign
      of their difference. */
  lemma NormalisedDifferenceSign(bidVol: real, askVol: real)
    requires bidVol >= 0.0 && askVol >= 0.0 && bidVol + askVol != 0.0
    ensures var r := (bidVol - askVol) / (bidVol + askVol);
      (r > 0.0 <==> bidVol > askVol) && (r < 0.0 <==> bidVol < askVol) && (r == 0.0 <==> bidVol == askVol)
  {
    var r := (bidVol - askVol) / (bidVol + askVol);
    assert r * (bidVol + askVol) == bidVol - askVol;
    SignOfFactor(r, bidVol + askVol);
  }

  /** With non-negative volumes the imbalance is positive exactly when the bid volume
      exceeds the ask volume, negative exactly when it falls short, zero when they tie. */
  lemma ImbalanceSign(book: Book, depth: nat)
    requires NonNegativeVolumes(SideOrEmpty(book.bids)) && NonNegativeVolumes(SideOrEmpty(book.asks))
    ensures var bidVol, askVol := SideVolume(book.bids, depth), SideVolume(book.asks, depth);
      (Imbalance(book, depth) > 0.0 <==> bidVol > askVol) &&
      (Imbalance(book, depth) < 0.0 <==> bidVol < askVol) &&
      (Imbalance(book, depth) == 0.0 <==> bidVol == askVol)
  {
    VolumeNonNegative(Top(SideOrEmpty(book.bids), depth));
    VolumeNonNegative(Top(SideOrEmpty(book.asks), depth));
    var bidVol, askVol := SideVolume(book.bids, depth), SideVolume(book.asks, depth);
    if bidVol + askVol != 0.0 {
      NormalisedDifferenceSign(bidVol, askVol);
    }
  }

  /** Swapping the bid and ask sides negates the imbalance. */
  lemma ImbalanceSwap(book: Book, depth: nat)
    ensures Imbalance(Book(book.asks, book.bids), depth) == -Imbalance(book, depth)
  {
  }
}
