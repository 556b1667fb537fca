/**
 * What the duplex imposition promises, proved about `Section`, the
 * pages `add_deck_section` adds.
 */
module ImpositionFacts {
  import opened Wrappers
  import opened Paths
  import opened Imposition

  // ---------------------------------------------------------------------------
  // Arithmetic helpers.

  lemma MulMono(a: int, b: int, c: int)
    requires a <= b && c >= 0
    ensures a * c <= b * c
  {
    assert b * c - a * c == (b - a) * c;
  }

  /** Floor division: `q = u // w` is the largest q with q * w <= u. */
  lemma FloorDiv(u: nat, w: Mm)
    ensures Times(FitCount(u, w), w) <= u < Times(FitCount(u, w) + 1, w)
  {
    var q := u / w;
    assert u == q * w + u % w;
    assert (q + 1) * w == q * w + w;
  }

  // ---------------------------------------------------------------------------
  // The grid.

  function UsableW(s: Sheet): int { s.width - 2 * s.margin }
  function UsableH(s: Sheet): int { s.height - 2 * s.margin }

  /**
   * The grid holds as many whole cards as fit between the margins, in
   * each direction, and is centred: the space left of it equals the space
   * right of it (above and below alike), and both are at least the margin.
   */
  lemma GridCentred(s: Sheet, w: Mm, h: Mm)
    requires SheetOk(s)
    ensures var g := GridFor(s, w, h);
      Times(g.cols, w) <= UsableW(s) < Times(g.cols + 1, w) &&
      Times(g.rows, h) <= UsableH(s) < Times(g.rows + 1, h) &&
      s.margin as real <= g.startX &&
      g.startX - s.margin as real == (s.width - s.margin) as real - (g.startX + Times(g.cols, w) as real) &&
      s.margin as real <= g.startY &&
      g.startY - s.margin as real == (s.height - s.margin) as real - (g.startY + Times(g.rows, h) as real)
  {
    FloorDiv(UsableW(s), w);
    FloorDiv(UsableH(s), h);
  }

  /** A group gets a grid exactly when one card fits between the margins both ways. */
  lemma FitsIff(s: Sheet, w: Mm, h: Mm)
    requires SheetOk(s)
    ensures Fits(GridFor(s, w, h)) <==> w <= UsableW(s) && h <= UsableH(s)
  {
    FloorDiv(UsableW(s), w);
    FloorDiv(UsableH(s), h);
    var g := GridFor(s, w, h);
    if g.cols > 0 {
      MulMono(1, g.cols, w);
    }
    if g.rows > 0 {
      MulMono(1, g.rows, h);
    }
  }

  /** The entry cells of one page are in range and pairwise distinct. */
  lemma CellsDistinct(g: Grid, i: nat, j: nat)
    requires Fits(g) && i < PerPage(g) && j < PerPage(g)
    ensures 0 <= Column(g, i) < g.cols && 0 <= Row(g, i) < g.rows
    ensures i != j ==> (Column(g, i), Row(g, i)) != (Column(g, j), Row(g, j))
  {
    RowIsQuotient(g, i);
    RowIsQuotient(g, j);
    assert i == (i / g.cols) * g.cols + i % g.cols;
    assert j == (j / g.cols) * g.cols + j % g.cols;
  }

  /** Below `c * r`, the quotient by `c` is below `r`. */
  lemma QuotientBelow(i: nat, c: nat, r: nat)
    requires c > 0 && i < c * r
    ensures i / c < r
  {
    var q := i / c;
    assert q * c <= i;
    if q >= r {
      MulMono(r, q, c);
      assert false;
    }
  }

  lemma RowIsQuotient(g: Grid, i: nat)
    requires Fits(g) && i < PerPage(g)
    ensures Row(g, i) == i / g.cols
  {
    QuotientBelow(i, g.cols, g.rows);
    SmallMod(i / g.cols, g.rows);
  }

  lemma SmallMod(q: nat, r: nat)
    requires q < r
    ensures q % r == q
  {
  }

  /** Mirroring maps the columns onto themselves, one to one, and undoes itself. */
  lemma MirrorInvolution(g: Grid, c: int, d: int)
    requires 0 <= c < g.cols && 0 <= d < g.cols
    ensures 0 <= Mirror(g, c) < g.cols
    ensures Mirror(g, Mirror(g, c)) == c
    ensures Mirror(g, c) == Mirror(g, d) ==> c == d
  {
  }

  /**
   * Duplex alignment: the back cell of an entry is its front cell
   * reflected about the vertical centre line of the sheet, on the same
   * row, so it lands behind the front once the sheet is turned over
   * along its long edge.
   */
  lemma DuplexAligned(s: Sheet, w: Mm, h: Mm, idx: nat)
    requires SheetOk(s) && Fits(GridFor(s, w, h))
    ensures var g := GridFor(s, w, h);
      var c := Column(g, idx);
      CellX(g, Mirror(g, c)) == s.width as real - (CellX(g, c) + w as real)
  {
    var g := GridFor(s, w, h);
    var c := Column(g, idx);
    assert (g.cols - 1 - c) * w == Times(g.cols, w) - c * w - w;
  }

  // ---------------------------------------------------------------------------
  // Where marks go.

  /** The mark has the card's size and lies inside the margins. */
  predicate Placed(s: Sheet, m: Mark, w: int, h: int)
  {
    m.w == w && m.h == h &&
    s.margin as real <= m.x && m.x + m.w as real <= (s.width - s.margin) as real &&
    s.margin as real <= m.y && m.y + m.h as real <= (s.height - s.margin) as real
  }

  lemma CellPlaced(s: Sheet, g: Grid, c: int, r: int)
    requires SheetOk(s) && g == GridFor(s, g.cardW, g.cardH)
    requires 0 <= c < g.cols && 0 <= r < g.rows
    ensures s.margin as real <= CellX(g, c) && CellX(g, c) + g.cardW as real <= (s.width - s.margin) as real
    ensures s.margin as real <= CellY(g, r) && CellY(g, r) + g.cardH as real <= (s.height - s.margin) as real
  {
    GridCentred(s, g.cardW, g.cardH);
    MulMono(0, c, g.cardW);
    MulMono(c + 1, g.cols, g.cardW);
    assert (c + 1) * g.cardW == c * g.cardW + g.cardW;
    MulMono(0, r, g.cardH);
    MulMono(r + 1, g.rows, g.cardH);
    assert (r + 1) * g.cardH == r * g.cardH + g.cardH;
  }

  lemma CellMarksPlaced(s: Sheet, side: Side, e: CardEntry, idx: nat, g: Grid, present: FilePath -> bool, loads: FilePath -> bool)
    requires SheetOk(s) && g == GridFor(s, g.cardW, g.cardH) && Fits(g)
    ensures forall m :: m in Cell(side, e, idx, g, present, loads) ==> Placed(s, m, g.cardW, g.cardH)
  {
    var c, r := Column(g, idx), Row(g, idx);
    CellPlaced(s, g, c, r);
    CellPlaced(s, g, Mirror(g, c), r);
  }

  lemma {:induction false} MarksPlaced(s: Sheet, side: Side, b: seq<CardEntry>, g: Grid, present: FilePath -> bool, loads: FilePath -> bool)
    requires SheetOk(s) && g == GridFor(s, g.cardW, g.cardH) && Fits(g)
    ensures forall m :: m in Marks(side, b, g, present, loads) ==> Placed(s, m, g.cardW, g.cardH)
    decreases |b|
  {
    if b != [] {
      MarksPlaced(s, side, b[..|b| - 1], g, present, loads);
      CellMarksPlaced(s, side, b[|b| - 1], |b| - 1, g, present, loads);
    }
  }

  lemma {:induction false} PairsPlaced(s: Sheet, cards: seq<CardEntry>, g: Grid, i: nat, present: FilePath -> bool, loads: FilePath -> bool)
    requires SheetOk(s) && g == GridFor(s, g.cardW, g.cardH) && Fits(g)
    ensures forall p, m :: p in Pairs(cards, g, i, present, loads) && m in p.marks ==> Placed(s, m, g.cardW, g.cardH)
    decreases i
  {
    if i > 0 {
      PairsPlaced(s, cards, g, i - 1, present, loads);
      var b := Batch(cards, PerPage(g), i - 1);
      MarksPlaced(s, Front, b, g, present, loads);
      MarksPlaced(s, Back, b, g, present, loads);
    }
  }

  /**
   * Every image and every frame of a section has the size of the group's
   * first entry and lies inside the page margins.
   */
  lemma SectionPlaced(s: Sheet, cards: seq<CardEntry>, present: FilePath -> bool, loads: FilePath -> bool)
    requires SheetOk(s)
    ensures forall p, m :: p in Section(s, cards, present, loads) && m in p.marks ==>
      Placed(s, m, cards[0].width, cards[0].height)
  {
    if cards != [] {
      var g := GroupGrid(s, cards);
      if Fits(g) {
        PairsPlaced(s, cards, g, PairCount(|cards|, PerPage(g)), present, loads);
      }
    }
  }

  // ---------------------------------------------------------------------------
  // Pages and batches.

  /** One side of batch `j` of a group, as a page. */
  function SidePage(side: Side, cards: seq<CardEntry>, g: Grid, j: nat, present: FilePath -> bool, loads: FilePath -> bool): Page
    requires Fits(g)
  {
    Page(side, Marks(side, Batch(cards, PerPage(g), j), g, present, loads))
  }

  lemma SnocKeep<T>(xs: seq<T>, ys: seq<T>, a: T, b: T, p: nat)
    requires xs == ys + [a, b] && p < |ys|
    ensures xs[p] == ys[p]
  {
  }

  lemma SnocBoth<T>(xs: seq<T>, ys: seq<T>, a: T, b: T)
    requires xs == ys + [a, b]
    ensures |xs| == |ys| + 2 && xs[|ys|] == a && xs[|ys| + 1] == b
  {
  }

  lemma {:induction false} PairsLength(cards: seq<CardEntry>, g: Grid, i: nat, present: FilePath -> bool, loads: FilePath -> bool)
    requires Fits(g)
    ensures |Pairs(cards, g, i, present, loads)| == 2 * i
    decreases i
  {
    if i > 0 {
      PairsLength(cards, g, i - 1, present, loads);
    }
  }

  /** Pair `i` appends the front and the back of batch `i - 1`. */
  lemma PairsLast(cards: seq<CardEntry>, g: Grid, i: nat, present: FilePath -> bool, loads: FilePath -> bool)
    requires Fits(g) && i > 0
    ensures Pairs(cards, g, i, present, loads)
         == Pairs(cards, g, i - 1, present, loads) + [SidePage(Front, cards, g, i - 1, present, loads), SidePage(Back, cards, g, i - 1, present, loads)]
  {
  }

  /** The pages of the earlier pairs stay where they are. */
  lemma PairsKeep(cards: seq<CardEntry>, g: Grid, i: nat, p: nat, present: FilePath -> bool, loads: FilePath -> bool)
    requires Fits(g) && i > 0 && p < 2 * i - 2
    ensures |Pairs(cards, g, i - 1, present, loads)| == 2 * i - 2 && |Pairs(cards, g, i, present, loads)| == 2 * i
    ensures Pairs(cards, g, i, present, loads)[p] == Pairs(cards, g, i - 1, present, loads)[p]
  {
    PairsLength(cards, g, i, present, loads);
    PairsLength(cards, g, i - 1, present, loads);
    PairsLast(cards, g, i, present, loads);
    SnocKeep(Pairs(cards, g, i, present, loads), Pairs(cards, g, i - 1, present, loads),
             SidePage(Front, cards, g, i - 1, present, loads), SidePage(Back, cards, g, i - 1, present, loads), p);
  }

  /** Pages alternate front, back, front, back, ... */
  function SideOf(p: nat): Side
  {
    if p % 2 == 0 then Front else Back
  }

  /** Where a side of batch `j` sits: page `2j` for the front, `2j + 1` for the back. */
  function PageOf(side: Side, j: nat): nat
  {
    if side == Front then 2 * j else 2 * j + 1
  }

  /** The last pair's two pages are the front and the back of batch `i - 1`. */
  lemma PairsNewest(cards: seq<CardEntry>, g: Grid, i: nat, side: Side, present: FilePath -> bool, loads: FilePath -> bool)
    requires Fits(g) && i > 0
    ensures |Pairs(cards, g, i, present, loads)| == 2 * i
    ensures Pairs(cards, g, i, present, loads)[PageOf(side, i - 1)] == SidePage(side, cards, g, i - 1, present, loads)
  {
    PairsLength(cards, g, i - 1, present, loads);
    PairsLast(cards, g, i, present, loads);
    SnocBoth(Pairs(cards, g, i, present, loads), Pairs(cards, g, i - 1, present, loads),
             SidePage(Front, cards, g, i - 1, present, loads), SidePage(Back, cards, g, i - 1, present, loads));
  }

  lemma PairsEarlier(cards: seq<CardEntry>, g: Grid, i: nat, side: Side, j: nat, present: FilePath -> bool, loads: FilePath -> bool)
    requires Fits(g) && j < i - 1
    requires |Pairs(cards, g, i - 1, present, loads)| == 2 * i - 2
    requires Pairs(cards, g, i - 1, present, loads)[PageOf(side, j)] == SidePage(side, cards, g, j, present, loads)
    ensures |Pairs(cards, g, i, present, loads)| == 2 * i
    ensures Pairs(cards, g, i, present, loads)[PageOf(side, j)] == SidePage(side, cards, g, j, present, loads)
  {
    PairsKeep(cards, g, i, PageOf(side, j), present, loads);
  }

  /** Page `PageOf(side, j)` is that side of batch `j`. */
  lemma {:induction false} PairsAt(cards: seq<CardEntry>, g: Grid, i: nat, side: Side, j: nat, present: FilePath -> bool, loads: FilePath -> bool)
    requires Fits(g) && j < i
    ensures |Pairs(cards, g, i, present, loads)| == 2 * i
    ensures Pairs(cards, g, i, present, loads)[PageOf(side, j)] == SidePage(side, cards, g, j, present, loads)
    decreases i
  {
    if j < i - 1 {
      PairsAt(cards, g, i - 1, side, j, present, loads);
      PairsEarlier(cards, g, i, side, j, present, loads);
    } else {
      PairsNewest(cards, g, i, side, present, loads);
    }
  }

  lemma Halving(p: nat)
    ensures PageOf(SideOf(p), p / 2) == p
  {
  }

  lemma PairsShape(cards: seq<CardEntry>, g: Grid, i: nat, present: FilePath -> bool, loads: FilePath -> bool)
    requires Fits(g)
    ensures |Pairs(cards, g, i, present, loads)| == 2 * i
    ensures forall p :: 0 <= p < 2 * i ==> Pairs(cards, g, i, present, loads)[p] == SidePage(SideOf(p), cards, g, p / 2, present, loads)
  {
    PairsLength(cards, g, i, present, loads);
    forall p | 0 <= p < 2 * i
      ensures Pairs(cards, g, i, present, loads)[p] == SidePage(SideOf(p), cards, g, p / 2, present, loads)
    {
      Halving(p);
      PairsAt(cards, g, i, SideOf(p), p / 2, present, loads);
    }
  }

  /**
   * A group that fits gives `2 * ceil(n / (cols * rows))` pages
   * alternating front, back, front, back, ...; page `p` shows batch
   * `p // 2`, fronts on even pages and mirrored backs on odd ones.
   */
  lemma SectionPages(s: Sheet, cards: seq<CardEntry>, present: FilePath -> bool, loads: FilePath -> bool)
    requires SheetOk(s) && cards != [] && Fits(GroupGrid(s, cards))
    ensures var g := GroupGrid(s, cards);
      var ps := Section(s, cards, present, loads);
      |ps| == 2 * PairCount(|cards|, PerPage(g)) &&
      forall p :: 0 <= p < |ps| ==>
        ps[p].side == (if p % 2 == 0 then Front else Back) &&
        ps[p].marks == Marks(ps[p].side, Batch(cards, PerPage(g), p / 2), g, present, loads)
  {
    var g := GroupGrid(s, cards);
    PairsShape(cards, g, PairCount(|cards|, PerPage(g)), present, loads);
  }

  /** An empty group, or one whose first card does not fit between the margins, adds no page; any other adds some. */
  lemma SectionEmptyIff(s: Sheet, cards: seq<CardEntry>, present: FilePath -> bool, loads: FilePath -> bool)
    requires SheetOk(s)
    ensures Section(s, cards, present, loads) == [] <==>
      cards == [] || cards[0].width > UsableW(s) || cards[0].height > UsableH(s)
  {
    if cards != [] {
      FitsIff(s, cards[0].width, cards[0].height);
      var g := GroupGrid(s, cards);
      if Fits(g) {
        var k := PerPage(g);
        MulMono(1, g.cols, g.rows);
        assert PairCount(|cards|, k) >= 1;
        PairsShape(cards, g, PairCount(|cards|, k), present, loads);
      }
    }
  }

  /** The concatenation of the first `i` batches. */
  function Batches(cards: seq<CardEntry>, k: nat, i: nat): seq<CardEntry>
    decreases i
  {
    if i == 0 then [] else Batches(cards, k, i - 1) + Batch(cards, k, i - 1)
  }

  lemma {:induction false} BatchesPrefix(cards: seq<CardEntry>, k: nat, i: nat)
    ensures Batches(cards, k, i) == cards[..Clamp(i * k, |cards|)]
    decreases i
  {
    if i > 0 {
      BatchesPrefix(cards, k, i - 1);
      assert i * k == (i - 1) * k + k;
      MulMono(0, i - 1, k);
    }
  }

  lemma CeilBounds(n: nat, k: nat)
    requires k > 0
    ensures PairCount(n, k) * k >= n
    ensures n > 0 ==> (PairCount(n, k) - 1) * k < n
  {
    var q := PairCount(n, k);
    assert n + k - 1 == q * k + (n + k - 1) % k;
    assert (q - 1) * k == q * k - k;
  }

  /**
   * The batches of a group cover its entries exactly once and in order:
   * their concatenation is the group, each batch holds between one and
   * `cols * rows` entries.
   */
  lemma BatchesPartition(cards: seq<CardEntry>, k: nat)
    requires k > 0
    ensures Batches(cards, k, PairCount(|cards|, k)) == cards
    ensures forall i :: 0 <= i < PairCount(|cards|, k) ==> 0 < |Batch(cards, k, i)| <= k
  {
    var n := |cards|;
    BatchesPrefix(cards, k, PairCount(n, k));
    CeilBounds(n, k);
    forall i | 0 <= i < PairCount(n, k) ensures 0 < |Batch(cards, k, i)| <= k {
      MulMono(i, PairCount(n, k) - 1, k);
      assert (i + 1) * k == i * k + k;
    }
  }

  // ---------------------------------------------------------------------------
  // What is drawn for each entry.

  function CountFrames(ms: seq<Mark>): nat
    decreases |ms|
  {
    if ms == [] then 0 else CountFrames(ms[..|ms| - 1]) + (if ms[|ms| - 1].Frame? then 1 else 0)
  }

  function CountPictures(ms: seq<Mark>): nat
    decreases |ms|
  {
    if ms == [] then 0 else CountPictures(ms[..|ms| - 1]) + (if ms[|ms| - 1].Picture? then 1 else 0)
  }

  lemma {:induction false} CountsAppend(a: seq<Mark>, b: seq<Mark>)
    ensures CountFrames(a + b) == CountFrames(a) + CountFrames(b)
    ensures CountPictures(a + b) == CountPictures(a) + CountPictures(b)
    decreases |b|
  {
    if b == [] {
      assert a + b == a;
    } else {
      CountsAppend(a, b[..|b| - 1]);
      assert (a + b)[..|a + b| - 1] == a + b[..|b| - 1];
    }
  }

  lemma PieceCounts(pic: seq<Mark>, m: Mark)
    requires pic == [] || (|pic| == 1 && pic[0].Picture?)
    requires m.Frame?
    ensures CountFrames(pic + [m]) == 1
    ensures CountPictures(pic + [m]) == |pic|
  {
    CountsAppend(pic, [m]);
    assert [m][..0] == [];
    if pic != [] {
      assert pic[..0] == [];
    }
  }

  /** How many entries of `b` satisfy `f`. */
  function CountWhere(b: seq<CardEntry>, f: CardEntry -> bool): nat
    decreases |b|
  {
    if b == [] then 0 else CountWhere(b[..|b| - 1], f) + (if f(b[|b| - 1]) then 1 else 0)
  }

  /**
   * On a front page, an entry gets a frame when its front file exists
   * and an image when it also loads.
   */
  lemma {:induction false} FrontCounts(b: seq<CardEntry>, g: Grid, present: FilePath -> bool, loads: FilePath -> bool)
    requires Fits(g)
    ensures CountFrames(Marks(Front, b, g, present, loads)) == CountWhere(b, (e: CardEntry) => present(e.front))
    ensures CountPictures(Marks(Front, b, g, present, loads)) == CountWhere(b, (e: CardEntry) => present(e.front) && loads(e.front))
    decreases |b|
  {
    if b != [] {
      var pre, e := b[..|b| - 1], b[|b| - 1];
      FrontCounts(pre, g, present, loads);
      var cell := Cell(Front, e, |b| - 1, g, present, loads);
      CountsAppend(Marks(Front, pre, g, present, loads), cell);
      if present(e.front) {
        var x, y := CellX(g, Column(g, |b| - 1)), CellY(g, Row(g, |b| - 1));
        PieceCounts(if loads(e.front) then [Picture(e.front, x, y, g.cardW, g.cardH)] else [], Frame(x, y, g.cardW, g.cardH));
      }
    }
  }

  /**
   * On a back page, every entry gets a frame, and an image only when it
   * has a back file that exists and loads.
   */
  lemma {:induction false} BackCounts(b: seq<CardEntry>, g: Grid, present: FilePath -> bool, loads: FilePath -> bool)
    requires Fits(g)
    ensures CountFrames(Marks(Back, b, g, present, loads)) == |b|
    ensures CountPictures(Marks(Back, b, g, present, loads))
         == CountWhere(b, (e: CardEntry) => e.back.Some? && present(e.back.value) && loads(e.back.value))
    decreases |b|
  {
    if b != [] {
      var pre, e := b[..|b| - 1], b[|b| - 1];
      BackCounts(pre, g, present, loads);
      var cell := Cell(Back, e, |b| - 1, g, present, loads);
      CountsAppend(Marks(Back, pre, g, present, loads), cell);
      var x, y := CellX(g, Mirror(g, Column(g, |b| - 1))), CellY(g, Row(g, |b| - 1));
      PieceCounts(if e.back.Some? && present(e.back.value) && loads(e.back.value)
                  then [Picture(e.back.value, x, y, g.cardW, g.cardH)] else [], Frame(x, y, g.cardW, g.cardH));
    }
  }

  // ---------------------------------------------------------------------------
  // A worked case.

  const A4 := Sheet(210, 297, 10)

  /**
   * Ten 63 x 88 mm cards on A4 with a 10 mm margin: a 3 x 3 grid, two
   * batches, four pages; the second front page holds the tenth card
   * alone, in the top-left cell at (10.5, 16.5), and its back sits in the
   * top-right cell at (136.5, 16.5).
   */
  lemma TenCards(cards: seq<CardEntry>, present: FilePath -> bool, loads: FilePath -> bool)
    requires |cards| == 10 && cards[0].width == 63 && cards[0].height == 88
    ensures var g := GroupGrid(A4, cards);
      var ps := Section(A4, cards, present, loads);
      g.cols == 3 && g.rows == 3 && |ps| == 4 &&
      Batch(cards, PerPage(g), 1) == [cards[9]] &&
      ps[2].marks == FrontCell(cards[9], 0, g, present, loads) &&
      ps[3].marks == BackCell(cards[9], 0, g, present, loads) &&
      CellX(g, Column(g, 0)) == 10.5 && CellY(g, Row(g, 0)) == 16.5 &&
      CellX(g, Mirror(g, Column(g, 0))) == 136.5
  {
    var g := GroupGrid(A4, cards);
    assert g.cols == 3 && g.rows == 3;
    assert PairCount(10, 9) == 2;
    SectionPages(A4, cards, present, loads);
    var ps := Section(A4, cards, present, loads);
    assert Batch(cards, 9, 1) == cards[9..10] == [cards[9]];
    assert ps[2].marks == Marks(Front, [cards[9]], g, present, loads);
    assert ps[3].marks == Marks(Back, [cards[9]], g, present, loads);
    assert [cards[9]][..0] == [];
  }
}
