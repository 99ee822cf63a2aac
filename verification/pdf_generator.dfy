/** Model of `PDFGenerator` (pdf_generator.py): the card sheets of `create_pdf`.

    The items are split into pages of `rows * cols` cards. Each page becomes a
    front table of QR codes in row-major order, a page break, a back table of
    card details, and another page break. The back rows are mirrored when
    `mirror_metadata` is set, so that after duplex printing each back lies behind
    its own front. A QR image and a details paragraph are opaque here: a cell
    records only which item it shows. */
module PdfGenerator {
  import opened Wrappers

  /** A table cell: "" (blank), the QR code of an item's link, or the details
      paragraph of an item. */
  datatype Cell<T> = Blank | QrCode(item: T) | Details(item: T)

  /** The flowables appended to `elements`. */
  datatype Element<T> = Table(grid: seq<seq<Cell<T>>>) | PageBreak

  /** What `create_pdf` hands to the document builder, or the ZeroDivisionError
      it raises when `cols` or `rows` is 0 (the cell width and height). */
  datatype Outcome<T> = Document(elements: seq<Element<T>>) | ZeroDivision

  // ---------------------------------------------------------------------------
  // The layout, as functions
  // ---------------------------------------------------------------------------

  /** How many values `range(n)` yields. */
  function Count(n: int): nat {
    if n > 0 then n else 0
  }

  /** `items[i:i + size]` for `i` in `range(from, len(items), size)`. */
  function ChunksFrom<T>(items: seq<T>, from: nat, size: nat): seq<seq<T>>
    requires size > 0
    decreases |items| - from
  {
    if from >= |items| then []
    else [items[from..Min(from + size, |items|)]] + ChunksFrom(items, from + size, size)
  }

  /** Front cell for index `idx` of the chunk: its QR code, or "" past the end. */
  function QrCell<T>(chunk: seq<T>, idx: nat): Cell<T> {
    if idx < |chunk| then QrCode(chunk[idx]) else Blank
  }

  /** Back cell for index `idx` of the chunk: its details, or "" past the end. */
  function DetailsCell<T>(chunk: seq<T>, idx: nat): Cell<T> {
    if idx < |chunk| then Details(chunk[idx]) else Blank
  }

  /** Front row `r`: column `c` shows chunk index `r * cols + c`. */
  function FrontRow<T>(chunk: seq<T>, r: nat, cols: nat): seq<Cell<T>> {
    seq(cols, c requires 0 <= c < cols => QrCell(chunk, r * cols + c))
  }

  /** `front_data`: `range(rows)` by `range(cols)`. */
  function FrontGrid<T>(chunk: seq<T>, rows: int, cols: int): (grid: seq<seq<Cell<T>>>)
    ensures |grid| == Count(rows) && forall r :: 0 <= r < |grid| ==> |grid[r]| == Count(cols)
  {
    seq(Count(rows), r requires 0 <= r < Count(rows) => FrontRow(chunk, r, Count(cols)))
  }

  /** The back's column order: `range(cols - 1, -1, -1)` when mirroring, else `range(cols)`. */
  function ColRange(cols: nat, mirror: bool): (order: seq<nat>)
    ensures |order| == cols && forall j :: 0 <= j < cols ==> order[j] < cols
  {
    if mirror then seq(cols, j requires 0 <= j < cols => cols - 1 - j)
    else seq(cols, j requires 0 <= j < cols => j)
  }

  /** Back row `r`: position `j` shows chunk index `r * cols + ColRange(cols, mirror)[j]`. */
  function BackRow<T>(chunk: seq<T>, r: nat, cols: nat, mirror: bool): seq<Cell<T>> {
    var order := ColRange(cols, mirror);
    seq(cols, j requires 0 <= j < cols => DetailsCell(chunk, r * cols + order[j]))
  }

  /** `back_data`. */
  function BackGrid<T>(chunk: seq<T>, rows: int, cols: int, mirror: bool): (grid: seq<seq<Cell<T>>>)
    ensures |grid| == Count(rows) && forall r :: 0 <= r < |grid| ==> |grid[r]| == Count(cols)
  {
    seq(Count(rows), r requires 0 <= r < Count(rows) => BackRow(chunk, r, Count(cols), mirror))
  }

  /** The four elements one chunk adds. */
  function Sheet<T>(chunk: seq<T>, rows: int, cols: int, mirror: bool): seq<Element<T>> {
    [Table(FrontGrid(chunk, rows, cols)), PageBreak, Table(BackGrid(chunk, rows, cols, mirror)), PageBreak]
  }

  /** The elements of all chunks, in order. */
  function Sheets<T>(chunks: seq<seq<T>>, rows: int, cols: int, mirror: bool): seq<Element<T>>
    decreases |chunks|
  {
    if chunks == [] then [] else Sheet(chunks[0], rows, cols, mirror) + Sheets(chunks[1..], rows, cols, mirror)
  }

  /** `create_pdf` as a whole: a zero `cols` or `rows` divides by zero (lines 59-60);
      a negative page size makes `range` empty; otherwise one sheet per chunk. */
  function Layout<T>(list: seq<Option<T>>, rows: int, cols: int, mirror: bool): Outcome<T> {
    if cols == 0 || rows == 0 then ZeroDivision
    else if cols * rows < 0 then Document([])
    else Document(Sheets(ChunksFrom(Present(list), 0, cols * rows), rows, cols, mirror))
  }

  // ---------------------------------------------------------------------------
  // Properties: filtering and chunking
  // ---------------------------------------------------------------------------

  /** The concatenation of a list of lists. */
  function Flatten<T>(xss: seq<seq<T>>): seq<T>
    decreases |xss|
  {
    if xss == [] then [] else xss[0] + Flatten(xss[1..])
  }

  /** Concatenated, the chunks give back the items from `from` on, and each
      holds between 1 and `size` items. */
  lemma {:induction false} ChunksSpec<T>(items: seq<T>, from: nat, size: nat)
    requires size > 0 && from <= |items|
    ensures Flatten(ChunksFrom(items, from, size)) == items[from..]
    ensures forall c <- ChunksFrom(items, from, size) :: 0 < |c| <= size
    decreases |items| - from
  {
    if from < |items| {
      ChunksSpec(items, Min(from + size, |items|), size);
      if from + size < |items| {
        assert items[from..] == items[from..from + size] + items[from + size..];
      } else {
        assert ChunksFrom(items, from + size, size) == [];
        assert items[from..Min(from + size, |items|)] == items[from..];
      }
    }
  }

  /** The number of chunks is the ceiling of (|items| - from) / size: the least
      count whose chunks of `size` hold all the items. */
  lemma {:induction false} ChunksCount<T>(items: seq<T>, from: nat, size: nat)
    requires size > 0 && from < |items|
    ensures var n := |ChunksFrom(items, from, size)|;
      (n - 1) * size < |items| - from <= n * size
    decreases |items| - from
  {
    var m := |ChunksFrom(items, from + size, size)|;
    assert |ChunksFrom(items, from, size)| == m + 1;
    if from + size < |items| {
      ChunksCount(items, from + size, size);
      assert (m - 1) * size < |items| - from - size <= m * size;
      assert (m + 1) * size == m * size + size;
      assert m * size == (m - 1) * size + size;
    } else {
      assert m == 0;
    }
  }

  // ---------------------------------------------------------------------------
  // Properties: the front and back grids
  // ---------------------------------------------------------------------------

  /** `n` front cells from chunk index `start` on. */
  function QrRun<T>(chunk: seq<T>, start: nat, n: nat): seq<Cell<T>> {
    seq(n, i requires 0 <= i < n => QrCell(chunk, start + i))
  }

  lemma QrRunSplit<T>(chunk: seq<T>, start: nat, a: nat, b: nat)
    ensures QrRun(chunk, start, a) + QrRun(chunk, start + a, b) == QrRun(chunk, start, a + b)
  {
  }

  lemma MulNext(a: nat, b: nat)
    ensures (a + 1) * b == a * b + b
  {
  }

  /** The front rows from row `r` on, read row by row, are one run of cells. */
  lemma {:induction false} FrontFlattenFrom<T>(chunk: seq<T>, r: nat, rows: nat, cols: nat)
    requires r <= rows
    ensures Flatten(FrontGrid(chunk, rows, cols)[r..]) == QrRun(chunk, r * cols, (rows - r) * cols)
    decreases rows - r
  {
    if r < rows {
      FrontFlattenFrom(chunk, r + 1, rows, cols);
      var g := FrontGrid(chunk, rows, cols);
      assert g[r..][1..] == g[r + 1..];
      assert g[r] == QrRun(chunk, r * cols, cols);
      MulNext(r, cols);
      MulNext(rows - r - 1, cols);
      QrRunSplit(chunk, r * cols, cols, (rows - r - 1) * cols);
    } else {
      assert (rows - r) * cols == 0;
    }
  }

  /** The QR codes of the chunk's items, in order. */
  function QrCodes<T>(chunk: seq<T>): seq<Cell<T>> {
    seq(|chunk|, i requires 0 <= i < |chunk| => QrCode(chunk[i]))
  }

  /** The details of the chunk's items, in order. */
  function DetailsOf<T>(chunk: seq<T>): seq<Cell<T>> {
    seq(|chunk|, i requires 0 <= i < |chunk| => Details(chunk[i]))
  }

  function Blanks<T>(n: nat): seq<Cell<T>> {
    seq(n, i requires 0 <= i < n => Blank)
  }

  /** The front is `rows` rows of `cols` cells, and read row by row it shows the
      chunk's items once each, in order, followed by `rows * cols - |chunk|`
      blanks: cell (r, c) holds item r * cols + c. */
  lemma FrontGridRowMajor<T>(chunk: seq<T>, rows: nat, cols: nat)
    requires rows > 0 && cols > 0 && |chunk| <= rows * cols
    ensures |FrontGrid(chunk, rows, cols)| == rows
    ensures forall r :: 0 <= r < rows ==> |FrontGrid(chunk, rows, cols)[r]| == cols
    ensures Flatten(FrontGrid(chunk, rows, cols)) == QrCodes(chunk) + Blanks(rows * cols - |chunk|)
  {
    var g := FrontGrid(chunk, rows, cols);
    FrontFlattenFrom(chunk, 0, rows, cols);
    assert g[0..] == g;
    var run := QrRun(chunk, 0, rows * cols);
    var want := QrCodes(chunk) + Blanks(rows * cols - |chunk|);
    forall i | 0 <= i < |run| ensures run[i] == want[i] {
    }
    assert run == want;
  }

  /** The cell a back shows for a front cell. */
  function Relabel<T>(cell: Cell<T>): Cell<T> {
    match cell
    case QrCode(x) => Details(x)
    case _ => cell
  }

  /** Duplex alignment: the back has the front's shape, and back cell
      (r, cols - 1 - c) when mirroring, (r, c) otherwise, shows the details of the
      item whose QR code is in front cell (r, c). */
  lemma BackFacesFront<T>(chunk: seq<T>, rows: int, cols: int, mirror: bool)
    ensures |BackGrid(chunk, rows, cols, mirror)| == |FrontGrid(chunk, rows, cols)| == Count(rows)
    ensures forall r :: 0 <= r < Count(rows) ==> |BackGrid(chunk, rows, cols, mirror)[r]| == Count(cols)
    ensures forall r, c :: 0 <= r < Count(rows) && 0 <= c < Count(cols) ==>
      BackGrid(chunk, rows, cols, mirror)[r][if mirror then Count(cols) - 1 - c else c]
        == Relabel(FrontGrid(chunk, rows, cols)[r][c])
  {
    var n := Count(cols);
    forall r, c | 0 <= r < Count(rows) && 0 <= c < n
      ensures BackGrid(chunk, rows, cols, mirror)[r][if mirror then n - 1 - c else c]
           == Relabel(FrontGrid(chunk, rows, cols)[r][c])
    {
      var j := if mirror then n - 1 - c else c;
      assert ColRange(n, mirror)[j] == c;
      assert BackGrid(chunk, rows, cols, mirror)[r] == BackRow(chunk, r, n, mirror);
      assert FrontGrid(chunk, rows, cols)[r] == FrontRow(chunk, r, n);
      assert BackRow(chunk, r, n, mirror)[j] == DetailsCell(chunk, r * n + c);
      assert FrontRow(chunk, r, n)[c] == QrCell(chunk, r * n + c);
    }
  }

  /** Reversal. */
  function Reverse<T>(s: seq<T>): seq<T> {
    seq(|s|, i requires 0 <= i < |s| => s[|s| - 1 - i])
  }

  /** With mirroring each back row is the unmirrored one reversed. */
  lemma MirroredRow<T>(chunk: seq<T>, r: nat, cols: nat)
    ensures BackRow(chunk, r, cols, true) == Reverse(BackRow(chunk, r, cols, false))
  {
  }

  lemma {:induction false} ReverseMultiset<T>(s: seq<T>)
    ensures multiset(Reverse(s)) == multiset(s)
    decreases |s|
  {
    if s != [] {
      ReverseMultiset(s[1..]);
      assert Reverse(s) == Reverse(s[1..]) + [s[0]];
      assert s == [s[0]] + s[1..];
    }
  }

  /** Rows holding the same cells give a grid holding the same cells. */
  lemma {:induction false} FlattenMultiset<T>(xss: seq<seq<T>>, yss: seq<seq<T>>)
    requires |xss| == |yss|
    requires forall i :: 0 <= i < |xss| ==> multiset(xss[i]) == multiset(yss[i])
    ensures multiset(Flatten(xss)) == multiset(Flatten(yss))
    decreases |xss|
  {
    if xss != [] {
      FlattenMultiset(xss[1..], yss[1..]);
    }
  }

  /** The back read row by row: without mirroring, the front relabelled. */
  lemma UnmirroredBack<T>(chunk: seq<T>, rows: nat, cols: nat)
    requires rows > 0 && cols > 0 && |chunk| <= rows * cols
    ensures Flatten(BackGrid(chunk, rows, cols, false)) == DetailsOf(chunk) + Blanks(rows * cols - |chunk|)
  {
    FrontGridRowMajor(chunk, rows, cols);
    BackFacesFront(chunk, rows, cols, false);
    var front := FrontGrid(chunk, rows, cols);
    var back := BackGrid(chunk, rows, cols, false);
    RelabelFlatten(front, back);
    var flat := Flatten(front);
    var want := DetailsOf(chunk) + Blanks(rows * cols - |chunk|);
    forall i | 0 <= i < |want| ensures Flatten(back)[i] == want[i] {
      assert flat[i] == (QrCodes(chunk) + Blanks(rows * cols - |chunk|))[i];
    }
  }

  /** Relabelling every cell of every row relabels every cell of the flattening. */
  lemma {:induction false} RelabelFlatten<T>(front: seq<seq<Cell<T>>>, back: seq<seq<Cell<T>>>)
    requires |front| == |back|
    requires forall r :: 0 <= r < |front| ==>
      |back[r]| == |front[r]| && forall c :: 0 <= c < |front[r]| ==> back[r][c] == Relabel(front[r][c])
    ensures |Flatten(back)| == |Flatten(front)|
    ensures forall i :: 0 <= i < |Flatten(front)| ==> Flatten(back)[i] == Relabel(Flatten(front)[i])
    decreases |front|
  {
    if front != [] {
      RelabelFlatten(front[1..], back[1..]);
    }
  }

  /** Every item of the chunk is on the back exactly once, next to
      `rows * cols - |chunk|` blanks, mirrored or not. */
  lemma BackCoverage<T>(chunk: seq<T>, rows: nat, cols: nat, mirror: bool)
    requires rows > 0 && cols > 0 && |chunk| <= rows * cols
    ensures multiset(Flatten(BackGrid(chunk, rows, cols, mirror)))
         == multiset(DetailsOf(chunk) + Blanks(rows * cols - |chunk|))
  {
    UnmirroredBack(chunk, rows, cols);
    if mirror {
      var back := BackGrid(chunk, rows, cols, true);
      var plain := BackGrid(chunk, rows, cols, false);
      forall r | 0 <= r < rows ensures multiset(back[r]) == multiset(plain[r]) {
        MirroredRow(chunk, r, cols);
        ReverseMultiset(plain[r]);
      }
      FlattenMultiset(back, plain);
    }
  }

  // ---------------------------------------------------------------------------
  // Properties: the element list
  // ---------------------------------------------------------------------------

  /** The sheets from item `from` on: the sheet of the chunk starting there,
      then the sheets of the chunks after it. */
  lemma SheetsStep<T>(items: seq<T>, from: nat, size: nat, rows: int, cols: int, mirror: bool)
    requires size > 0 && from < |items|
    ensures Sheets(ChunksFrom(items, from, size), rows, cols, mirror)
         == Sheet(items[from..Min(from + size, |items|)], rows, cols, mirror)
          + Sheets(ChunksFrom(items, from + size, size), rows, cols, mirror)
  {
    var chunks := ChunksFrom(items, from, size);
    assert chunks[0] == items[from..Min(from + size, |items|)];
    assert chunks[1..] == ChunksFrom(items, from + size, size);
  }

  lemma AppendAssoc<E>(a: seq<E>, b: seq<E>, c: seq<E>)
    ensures a + b + c == a + (b + c)
  {
  }

  /** A slice lying past `a` in `a + b` is a slice of `b`. */
  lemma SliceOfSuffix<E>(a: seq<E>, b: seq<E>, lo: nat, hi: nat)
    requires |a| <= lo <= hi <= |a| + |b|
    ensures (a + b)[lo..hi] == b[lo - |a|..hi - |a|]
  {
  }

  /** The four elements of chunk `i` start at index 4 * i. */
  lemma {:induction false} SheetAt<T>(chunks: seq<seq<T>>, i: nat, rows: int, cols: int, mirror: bool)
    requires i < |chunks|
    ensures |Sheets(chunks, rows, cols, mirror)| == 4 * |chunks|
    ensures Sheets(chunks, rows, cols, mirror)[4 * i..4 * i + 4] == Sheet(chunks[i], rows, cols, mirror)
    decreases |chunks|
  {
    var all := Sheets(chunks, rows, cols, mirror);
    var rest := Sheets(chunks[1..], rows, cols, mirror);
    assert all == Sheet(chunks[0], rows, cols, mirror) + rest;
    if i == 0 {
      if |chunks| > 1 {
        SheetAt(chunks[1..], 0, rows, cols, mirror);
      } else {
        assert rest == [];
      }
    } else {
      SheetAt(chunks[1..], i - 1, rows, cols, mirror);
      SliceOfSuffix(Sheet(chunks[0], rows, cols, mirror), rest, 4 * i, 4 * i + 4);
    }
  }

  /** Four elements per chunk: front table, page break, back table, page break. */
  lemma SheetsSpec<T>(chunks: seq<seq<T>>, rows: int, cols: int, mirror: bool)
    ensures |Sheets(chunks, rows, cols, mirror)| == 4 * |chunks|
    ensures forall i :: 0 <= i < |chunks| ==>
      Sheets(chunks, rows, cols, mirror)[4 * i..4 * i + 4] ==
        [Table(FrontGrid(chunks[i], rows, cols)), PageBreak, Table(BackGrid(chunks[i], rows, cols, mirror)), PageBreak]
  {
    if chunks == [] {
      assert Sheets(chunks, rows, cols, mirror) == [];
    } else {
      SheetAt(chunks, 0, rows, cols, mirror);
    }
    forall i | 0 <= i < |chunks|
      ensures Sheets(chunks, rows, cols, mirror)[4 * i..4 * i + 4] ==
        [Table(FrontGrid(chunks[i], rows, cols)), PageBreak, Table(BackGrid(chunks[i], rows, cols, mirror)), PageBreak]
    {
      SheetAt(chunks, i, rows, cols, mirror);
    }
  }

  /** `create_pdf` as a whole: it divides by zero exactly when `rows` or `cols` is
      0; a negative page size lays out nothing; otherwise there are four elements
      per page, and as many pages as it takes to hold the items `rows * cols` at a
      time, none when there are no items. */
  lemma LayoutSpec<T>(list: seq<Option<T>>, rows: int, cols: int, mirror: bool)
    ensures Layout(list, rows, cols, mirror).ZeroDivision? <==> rows == 0 || cols == 0
    ensures rows != 0 && cols != 0 && cols * rows < 0 ==> Layout(list, rows, cols, mirror) == Document([])
    ensures rows > 0 && cols > 0 && Present(list) == [] ==> Layout(list, rows, cols, mirror) == Document([])
    ensures rows > 0 && cols > 0 && Present(list) != [] ==>
      var pages := |ChunksFrom(Present(list), 0, cols * rows)|;
      |Layout(list, rows, cols, mirror).elements| == 4 * pages &&
      (pages - 1) * (cols * rows) < |Present(list)| <= pages * (cols * rows)
  {
    if rows > 0 && cols > 0 {
      var k := cols * rows;
      SheetsSpec(ChunksFrom(Present(list), 0, k), rows, cols, mirror);
      if Present(list) != [] {
        ChunksCount(Present(list), 0, k);
      }
    }
  }

  // ---------------------------------------------------------------------------
  // The generator
  // ---------------------------------------------------------------------------

  class PdfGenerator {
    var filename: string
    var mirrorMetadata: bool
    var rows: int
    var cols: int

    /** `__init__` with its defaults: "music_cards.pdf", mirrored, 4 rows of 3. */
    constructor(filename: string := "music_cards.pdf", mirrorMetadata: bool := true,
                rows: int := 4, cols: int := 3)
      ensures this.filename == filename && this.mirrorMetadata == mirrorMetadata
      ensures this.rows == rows && this.cols == cols
    {
      this.filename := filename;
      this.mirrorMetadata := mirrorMetadata;
      this.rows := rows;
      this.cols := cols;
    }

    /** `create_pdf`: the elements appended chunk by chunk. */
    method CreatePdf<T>(musicDataList: seq<Option<T>>) returns (outcome: Outcome<T>)
      ensures outcome == Layout(musicDataList, rows, cols, mirrorMetadata)
    {
      var items := Present(musicDataList);
      var elements: seq<Element<T>> := [];
      var itemsPerPage := cols * rows;
      if cols == 0 || rows == 0 {
        return ZeroDivision;
      }
      if itemsPerPage > 0 {
        ghost var all := Sheets(ChunksFrom(items, 0, itemsPerPage), rows, cols, mirrorMetadata);
        var i: nat := 0;
        while i < |items|
          invariant elements + Sheets(ChunksFrom(items, i, itemsPerPage), rows, cols, mirrorMetadata) == all
          decreases |items| - i
        {
          var chunk := items[i..Min(i + itemsPerPage, |items|)];
          var sheet := ChunkSheet(chunk);
          SheetsStep(items, i, itemsPerPage, rows, cols, mirrorMetadata);
          AppendAssoc(elements, sheet, Sheets(ChunksFrom(items, i + itemsPerPage, itemsPerPage), rows, cols, mirrorMetadata));
          elements := elements + sheet;
          i := i + itemsPerPage;
        }
      }
      return Document(elements);
    }

    /** The four elements one chunk appends (lines 75-144): its front table, a
        page break, its back table and a page break. */
    method ChunkSheet<T>(chunk: seq<T>) returns (sheet: seq<Element<T>>)
      ensures sheet == Sheet(chunk, rows, cols, mirrorMetadata)
    {
      var frontData := FrontTable(chunk);
      sheet := [Table(frontData), PageBreak];
      var backData := BackTable(chunk);
      sheet := sheet + [Table(backData), PageBreak];
    }

    /** The front of one chunk (lines 76-90): row by row. */
    method FrontTable<T>(chunk: seq<T>) returns (frontData: seq<seq<Cell<T>>>)
      ensures frontData == FrontGrid(chunk, rows, cols)
    {
      frontData := [];
      var r: nat := 0;
      while r < rows
        invariant r <= Count(rows)
        invariant |frontData| == r
        invariant forall k :: 0 <= k < r ==> frontData[k] == FrontRow(chunk, k, Count(cols))
      {
        var rowData := FrontCells(chunk, r);
        frontData := frontData + [rowData];
        r := r + 1;
      }
    }

    /** One front row (lines 78-89): column `c` shows chunk index `r * cols + c`. */
    method FrontCells<T>(chunk: seq<T>, r: nat) returns (rowData: seq<Cell<T>>)
      ensures rowData == FrontRow(chunk, r, Count(cols))
    {
      rowData := [];
      var c: nat := 0;
      while c < cols
        invariant c <= Count(cols)
        invariant |rowData| == c
        invariant forall j :: 0 <= j < c ==> rowData[j] == QrCell(chunk, r * Count(cols) + j)
      {
        var idx := r * cols + c;
        if idx < |chunk| {
          rowData := rowData + [QrCode(chunk[idx])];
        } else {
          rowData := rowData + [Blank];
        }
        c := c + 1;
      }
    }

    /** The back of one chunk (lines 106-131): row by row. */
    method BackTable<T>(chunk: seq<T>) returns (backData: seq<seq<Cell<T>>>)
      ensures backData == BackGrid(chunk, rows, cols, mirrorMetadata)
    {
      backData := [];
      var r: nat := 0;
      while r < rows
        invariant r <= Count(rows)
        invariant |backData| == r
        invariant forall k :: 0 <= k < r ==> backData[k] == BackRow(chunk, k, Count(cols), mirrorMetadata)
      {
        var rowData := BackCells(chunk, r);
        backData := backData + [rowData];
        r := r + 1;
      }
    }

    /** One back row (lines 108-130): it walks the column order chosen by the
        mirroring setting. */
    method BackCells<T>(chunk: seq<T>, r: nat) returns (rowData: seq<Cell<T>>)
      ensures rowData == BackRow(chunk, r, Count(cols), mirrorMetadata)
    {
      rowData := [];
      var colRange := ColRange(Count(cols), mirrorMetadata);
      for j := 0 to |colRange|
        invariant |rowData| == j
        invariant forall k :: 0 <= k < j ==> rowData[k] == DetailsCell(chunk, r * Count(cols) + colRange[k])
      {
        var c := colRange[j];
        var idx := r * cols + c;
        if idx < |chunk| {
          rowData := rowData + [Details(chunk[idx])];
        } else {
          rowData := rowData + [Blank];
        }
      }
    }
  }
}
