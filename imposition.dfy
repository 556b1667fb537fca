/**
 * The duplex imposition engine: `PDFGenerator.add_deck_section` lays a
 * group of same-size cards on A4 sheets, a page of fronts followed by a
 * page of backs whose columns are mirrored, so that after the sheet is
 * turned over each back lands behind its front.
 *
 * The document writer is a sink that only records what is asked of it:
 * a new page, an image at a position, or a cut frame. The side of each
 * page is a label the model adds to the record.
 */
module Imposition {
  import opened Wrappers
  import opened Paths

  /** One printed copy: `{'front': path, 'back': path or None, 'width': mm, 'height': mm}`. */
  datatype CardEntry = CardEntry(front: FilePath, back: Option<FilePath>, width: Mm, height: Mm)

  datatype Side = Front | Back

  /** What the writer is asked to draw, in millimetres from the top-left of the page. */
  datatype Mark =
    | Picture(file: FilePath, x: real, y: real, w: int, h: int)  // `image(file, x, y, w, h)`
    | Frame(x: real, y: real, w: int, h: int)                    // `rect(x, y, w, h)`, the cut frame

  datatype Page = Page(side: Side, marks: seq<Mark>)

  /** Page size and margin, in millimetres. */
  datatype Sheet = Sheet(width: int, height: int, margin: int)

  predicate SheetOk(s: Sheet)
  {
    0 <= s.margin && 2 * s.margin <= s.width && 2 * s.margin <= s.height
  }

  /** The grid computed once per group: its size, the cell size and the top-left of the grid. */
  datatype Grid = Grid(cols: int, rows: int, cardW: Mm, cardH: Mm, startX: real, startY: real)

  /** `usable // card` for the non-negative usable length, named so that the product stays opaque to arithmetic. */
  function FitCount(usable: nat, card: Mm): nat
  {
    usable / card
  }

  function Times(n: int, card: Mm): int
  {
    n * card
  }

  /**
   * As many whole columns and rows as fit inside the margins, the
   * leftover split evenly on both sides.
   */
  function GridFor(s: Sheet, w: Mm, h: Mm): Grid
    requires SheetOk(s)
  {
    var usableW, usableH := s.width - 2 * s.margin, s.height - 2 * s.margin;
    var cols, rows := FitCount(usableW, w), FitCount(usableH, h);
    Grid(cols, rows, w, h,
      s.margin as real + (usableW - Times(cols, w)) as real / 2.0,
      s.margin as real + (usableH - Times(rows, h)) as real / 2.0)
  }

  predicate Fits(g: Grid)
  {
    g.cols > 0 && g.rows > 0
  }

  function PerPage(g: Grid): nat
    requires Fits(g)
  {
    g.cols * g.rows
  }

  /** `math.ceil(n / k)`. */
  function PairCount(n: nat, k: nat): nat
    requires k > 0
  {
    (n + k - 1) / k
  }

  function Clamp(i: int, n: nat): nat
  {
    if i < 0 then 0 else if i > n then n else i
  }

  /** Python's `s[lo:hi]` for non-negative bounds. */
  function Slice<T>(s: seq<T>, lo: nat, hi: nat): seq<T>
  {
    if Clamp(lo, |s|) <= Clamp(hi, |s|) then s[Clamp(lo, |s|)..Clamp(hi, |s|)] else []
  }

  /** `cards_data[i*items_per_page : (i+1)*items_per_page]`. */
  function Batch(cards: seq<CardEntry>, k: nat, i: nat): seq<CardEntry>
  {
    Slice(cards, i * k, (i + 1) * k)
  }

  /** The cell of the `idx`-th entry of a batch: column `idx % cols`, row `(idx // cols) % rows`. */
  function Column(g: Grid, idx: nat): int
    requires Fits(g)
  {
    idx % g.cols
  }

  function Row(g: Grid, idx: nat): int
    requires Fits(g)
  {
    (idx / g.cols) % g.rows
  }

  /** The column on the back of the sheet behind column `c`. */
  function Mirror(g: Grid, c: int): int
  {
    g.cols - 1 - c
  }

  function CellX(g: Grid, c: int): real
  {
    g.startX + (c * g.cardW) as real
  }

  function CellY(g: Grid, r: int): real
  {
    g.startY + (r * g.cardH) as real
  }

  /** Front of entry `idx`: its image if the file exists and loads, and the frame if the file exists. */
  function FrontCell(e: CardEntry, idx: nat, g: Grid, present: FilePath -> bool, loads: FilePath -> bool): seq<Mark>
    requires Fits(g)
  {
    var x, y := CellX(g, Column(g, idx)), CellY(g, Row(g, idx));
    if present(e.front) then
      (if loads(e.front) then [Picture(e.front, x, y, g.cardW, g.cardH)] else []) + [Frame(x, y, g.cardW, g.cardH)]
    else []
  }

  /** Back of entry `idx`, in the mirrored column: its back image if there is one that exists and loads, then the frame always. */
  function BackCell(e: CardEntry, idx: nat, g: Grid, present: FilePath -> bool, loads: FilePath -> bool): seq<Mark>
    requires Fits(g)
  {
    var x, y := CellX(g, Mirror(g, Column(g, idx))), CellY(g, Row(g, idx));
    (if e.back.Some? && present(e.back.value) && loads(e.back.value)
     then [Picture(e.back.value, x, y, g.cardW, g.cardH)] else [])
    + [Frame(x, y, g.cardW, g.cardH)]
  }

  function Cell(side: Side, e: CardEntry, idx: nat, g: Grid, present: FilePath -> bool, loads: FilePath -> bool): seq<Mark>
    requires Fits(g)
  {
    match side
    case Front => FrontCell(e, idx, g, present, loads)
    case Back => BackCell(e, idx, g, present, loads)
  }

  /** The marks of one side of a batch, entry by entry. */
  function Marks(side: Side, b: seq<CardEntry>, g: Grid, present: FilePath -> bool, loads: FilePath -> bool): seq<Mark>
    requires Fits(g)
    decreases |b|
  {
    if b == [] then []
    else Marks(side, b[..|b| - 1], g, present, loads) + Cell(side, b[|b| - 1], |b| - 1, g, present, loads)
  }

  /** The first `i` front/back page pairs of a group. */
  function Pairs(cards: seq<CardEntry>, g: Grid, i: nat, present: FilePath -> bool, loads: FilePath -> bool): seq<Page>
    requires Fits(g)
    decreases i
  {
    if i == 0 then []
    else
      var b := Batch(cards, PerPage(g), i - 1);
      Pairs(cards, g, i - 1, present, loads)
      + [Page(Front, Marks(Front, b, g, present, loads)), Page(Back, Marks(Back, b, g, present, loads))]
  }

  /** The grid of a group, from its first entry's size. */
  function GroupGrid(s: Sheet, cards: seq<CardEntry>): Grid
    requires SheetOk(s) && cards != []
  {
    GridFor(s, cards[0].width, cards[0].height)
  }

  /** Every page `add_deck_section(cards)` adds, in order. */
  function Section(s: Sheet, cards: seq<CardEntry>, present: FilePath -> bool, loads: FilePath -> bool): seq<Page>
    requires SheetOk(s)
  {
    if cards == [] then []
    else
      var g := GroupGrid(s, cards);
      if !Fits(g) then []
      else Pairs(cards, g, PairCount(|cards|, PerPage(g)), present, loads)
  }

  /** The document after drawing `m` on its current (last) page. */
  function Draw(pages: seq<Page>, m: Mark): seq<Page>
    requires pages != []
  {
    var last := pages[|pages| - 1];
    pages[..|pages| - 1] + [Page(last.side, last.marks + [m])]
  }

  /** The document after drawing the marks `ms`, in order, on its last page. */
  function Extend(pages: seq<Page>, ms: seq<Mark>): seq<Page>
    requires pages != []
  {
    var last := pages[|pages| - 1];
    pages[..|pages| - 1] + [Page(last.side, last.marks + ms)]
  }

  lemma ExtendNothing(pages: seq<Page>)
    requires pages != []
    ensures Extend(pages, []) == pages
  {
    var last := pages[|pages| - 1];
    assert last.marks + [] == last.marks;
  }

  lemma DrawExtends(pages: seq<Page>, ms: seq<Mark>, m: Mark)
    requires pages != []
    ensures Draw(Extend(pages, ms), m) == Extend(pages, ms + [m])
  {
    var last := pages[|pages| - 1];
    var ext := Extend(pages, ms);
    assert ext[..|ext| - 1] == pages[..|pages| - 1];
    assert last.marks + ms + [m] == last.marks + (ms + [m]);
  }

  lemma ExtendOnLast(done: seq<Page>, p: Page, ms: seq<Mark>)
    ensures Extend(done + [p], ms) == done + [Page(p.side, p.marks + ms)]
  {
    assert (done + [p])[..|done|] == done;
  }

  lemma MarksStep(side: Side, b: seq<CardEntry>, idx: nat, g: Grid, present: FilePath -> bool, loads: FilePath -> bool)
    requires Fits(g) && idx < |b|
    ensures Marks(side, b[..idx + 1], g, present, loads)
         == Marks(side, b[..idx], g, present, loads) + Cell(side, b[idx], idx, g, present, loads)
  {
    assert b[..idx + 1][..idx] == b[..idx];
  }

  /** The document being built: the A4 generator. */
  class PdfGenerator {
    const margin: int
    const pageW: int
    const pageH: int
    var pages: seq<Page>

    /** `PDFGenerator()`: portrait A4 in millimetres, a 10 mm margin, no page yet. */
    constructor ()
      ensures margin == 10 && pageW == 210 && pageH == 297
      ensures pages == []
      ensures Valid()
    {
      margin, pageW, pageH := 10, 210, 297;
      pages := [];
    }

    function SheetOf(): Sheet
    {
      Sheet(pageW, pageH, margin)
    }

    predicate Valid()
    {
      SheetOk(SheetOf())
    }

    /** `add_page()`. */
    method AddPage(side: Side)
      modifies this
      ensures pages == old(pages) + [Page(side, [])]
    {
      pages := pages + [Page(side, [])];
    }

    /** `image(file, x=x, y=y, w=w, h=h)` on the current page. */
    method Image(file: FilePath, x: real, y: real, w: int, h: int)
      requires pages != []
      modifies this
      ensures pages == Draw(old(pages), Picture(file, x, y, w, h))
    {
      var last := pages[|pages| - 1];
      pages := pages[..|pages| - 1] + [Page(last.side, last.marks + [Picture(file, x, y, w, h)])];
    }

    /** `rect(x, y, w, h)` on the current page. */
    method Rect(x: real, y: real, w: int, h: int)
      requires pages != []
      modifies this
      ensures pages == Draw(old(pages), Frame(x, y, w, h))
    {
      var last := pages[|pages| - 1];
      pages := pages[..|pages| - 1] + [Page(last.side, last.marks + [Frame(x, y, w, h)])];
    }

    /**
     * `add_deck_section(cards_data)`: `present` stands for
     * `os.path.exists`, `loads` for whether `image()` accepts the file
     * instead of raising. The pages added are exactly `Section`.
     */
    method AddDeckSection(cards: seq<CardEntry>, present: FilePath -> bool, loads: FilePath -> bool)
      requires Valid()
      modifies this
      ensures pages == old(pages) + Section(SheetOf(), cards, present, loads)
    {
      if cards == [] {
        return;
      }
      var cardW, cardH := cards[0].width, cards[0].height;
      var usableW := pageW - 2 * margin;
      var usableH := pageH - 2 * margin;
      var cols := FitCount(usableW, cardW);
      var rows := FitCount(usableH, cardH);
      if cols == 0 || rows == 0 {
        return;
      }
      var itemsPerPage := cols * rows;
      var totalGridW, totalGridH := Times(cols, cardW), Times(rows, cardH);
      var startX := margin as real + (usableW - totalGridW) as real / 2.0;
      var startY := margin as real + (usableH - totalGridH) as real / 2.0;
      var g := Grid(cols, rows, cardW, cardH, startX, startY);
      assert g == GroupGrid(SheetOf(), cards);
      var numPagesPairs := PairCount(|cards|, itemsPerPage);
      var i := 0;
      while i < numPagesPairs
        invariant 0 <= i <= numPagesPairs
        invariant pages == old(pages) + Pairs(cards, g, i, present, loads)
      {
        var batch := Batch(cards, itemsPerPage, i);
        AddFronts(batch, g, present, loads);
        AddBacks(batch, g, present, loads);
        i := i + 1;
      }
    }

    /** The page of fronts of one batch (the first inner loop of `add_deck_section`). */
    method AddFronts(batch: seq<CardEntry>, g: Grid, present: FilePath -> bool, loads: FilePath -> bool)
      requires Fits(g)
      modifies this
      ensures pages == old(pages) + [Page(Front, Marks(Front, batch, g, present, loads))]
    {
      AddPage(Front);
      var idx := 0;
      while idx < |batch|
        invariant 0 <= idx <= |batch|
        invariant pages == old(pages) + [Page(Front, Marks(Front, batch[..idx], g, present, loads))]
      {
        ghost var before := Marks(Front, batch[..idx], g, present, loads);
        DrawFront(batch[idx], idx, g, present, loads);
        ExtendOnLast(old(pages), Page(Front, before), FrontCell(batch[idx], idx, g, present, loads));
        MarksStep(Front, batch, idx, g, present, loads);
        idx := idx + 1;
      }
      assert batch[..|batch|] == batch;
    }

    /** One pass of the fronts loop: the image if the file exists and loads, then the frame if it exists. */
    method DrawFront(card: CardEntry, idx: nat, g: Grid, present: FilePath -> bool, loads: FilePath -> bool)
      requires Fits(g) && pages != []
      modifies this
      ensures pages == Extend(old(pages), FrontCell(card, idx, g, present, loads))
    {
      var r := Row(g, idx);
      var c := Column(g, idx);
      var x := CellX(g, c);
      var y := CellY(g, r);
      ExtendNothing(pages);
      if present(card.front) {
        ghost var pic: seq<Mark> := [];
        if loads(card.front) {
          Image(card.front, x, y, g.cardW, g.cardH);
          DrawExtends(old(pages), [], Picture(card.front, x, y, g.cardW, g.cardH));
          pic := [Picture(card.front, x, y, g.cardW, g.cardH)];
        }
        Rect(x, y, g.cardW, g.cardH);
        DrawExtends(old(pages), pic, Frame(x, y, g.cardW, g.cardH));
      }
    }

    /** The page of backs of one batch, columns mirrored (the second inner loop). */
    method AddBacks(batch: seq<CardEntry>, g: Grid, present: FilePath -> bool, loads: FilePath -> bool)
      requires Fits(g)
      modifies this
      ensures pages == old(pages) + [Page(Back, Marks(Back, batch, g, present, loads))]
    {
      AddPage(Back);
      var idx := 0;
      while idx < |batch|
        invariant 0 <= idx <= |batch|
        invariant pages == old(pages) + [Page(Back, Marks(Back, batch[..idx], g, present, loads))]
      {
        ghost var before := Marks(Back, batch[..idx], g, present, loads);
        DrawBack(batch[idx], idx, g, present, loads);
        ExtendOnLast(old(pages), Page(Back, before), BackCell(batch[idx], idx, g, present, loads));
        MarksStep(Back, batch, idx, g, present, loads);
        idx := idx + 1;
      }
      assert batch[..|batch|] == batch;
    }

    /** One pass of the backs loop: the back image in the mirrored column if it exists and loads, then the frame. */
    method DrawBack(card: CardEntry, idx: nat, g: Grid, present: FilePath -> bool, loads: FilePath -> bool)
      requires Fits(g) && pages != []
      modifies this
      ensures pages == Extend(old(pages), BackCell(card, idx, g, present, loads))
    {
      var r := Row(g, idx);
      var c := Column(g, idx);
      var cBack := Mirror(g, c);
      var x := CellX(g, cBack);
      var y := CellY(g, r);
      ExtendNothing(pages);
      ghost var pic: seq<Mark> := [];
      var backPath := card.back;
      if backPath.Some? && present(backPath.value) && loads(backPath.value) {
        Image(backPath.value, x, y, g.cardW, g.cardH);
        DrawExtends(old(pages), [], Picture(backPath.value, x, y, g.cardW, g.cardH));
        pic := [Picture(backPath.value, x, y, g.cardW, g.cardH)];
      }
      Rect(x, y, g.cardW, g.cardH);
      DrawExtends(old(pages), pic, Frame(x, y, g.cardW, g.cardH));
    }
  }
}
