/** The dashboard (src/terminal.rs): the layout arithmetic on the terminal
    size, the renderers that print the title, the bordered table and the
    "Fetching data..." screen, and the `Terminal` controller whose `quit` and
    `update` flags are driven by key presses and by the refresh pass of
    `run`.

    Printed output is the sequence of texts handed to `println!`, one entry
    per call, without the newline `println!` appends.  Key reads and fetch
    outcomes are inputs: `run` consumes them in order. */
module Terminal {
  import opened Base
  import Utils
  import opened Candlesticks

  datatype Size = Size(width: U16, height: U16)

  /** termion's key events, as far as the dashboard tells them apart. */
  datatype Key = Ctrl(c: char) | Alt(c: char) | Char(c: char) | Other

  /** What `await_keypress` hands back: a key, or a read error. */
  datatype KeyRead = Pressed(key: Key) | ReadError

  /** Rows of the screen the data rows leave for the title, the table
      borders and the command help. */
  const ReservedRows: nat := 8

  // ---------------------------------------------------------------------
  // Layout
  // ---------------------------------------------------------------------

  /** `(width - 3) / 5 - 1` computed in `u16`; `None` where a subtraction
      would underflow (a panic in a debug build).  Both subtractions are
      safe exactly from width 8 on. */
  function CheckedColumnWidth(width: U16): (r: Option<nat>)
    ensures r.Some? <==> width >= 8
    ensures r.Some? ==> r.value == ColumnWidth(width)
  {
    match CheckedSub(width, 3)
    case None => None
    case Some(inner) => CheckedSub(inner / 5, 1)
  }

  /** The width of one of the five table cells: the widest that leaves,
      after five cells and their five right borders, at least three
      columns for the leading space, the left border and one spare. */
  function ColumnWidth(width: U16): (space: nat)
    requires width >= 8
    ensures 5 * (space + 1) + 3 <= width < 5 * (space + 2) + 3
  {
    (width - 3) / 5 - 1
  }

  /** `height - 8` in `u16`: the number of data rows. */
  function CheckedRowCount(height: U16): (r: Option<nat>)
    ensures r.Some? <==> height >= ReservedRows
    ensures r.Some? ==> r.value + ReservedRows == height
  {
    CheckedSub(height, ReservedRows)
  }

  /** `(width - len) / 2` in `usize`: left padding that centres a text of
      `len` characters. */
  function CheckedCentring(width: U16, len: nat): (r: Option<nat>)
    ensures r.Some? <==> len <= width
    ensures r.Some? ==> r.value == Centring(width, len)
  {
    match CheckedSub(width, len)
    case None => None
    case Some(room) => Some(room / 2)
  }

  /** The padding splits the spare room in two halves, the right one at
      most one character wider. */
  function Centring(width: U16, len: nat): (pad: nat)
    requires len <= width
    ensures 2 * pad + len <= width <= 2 * pad + len + 1
  {
    (width - len) / 2
  }

  // ---------------------------------------------------------------------
  // Renderer
  // ---------------------------------------------------------------------

  const Vertical: char := '\U{2502}'     // │
  const Horizontal: string := "\U{2500}" // ─
  const TopLeft: char := '\U{250C}'      // ┌
  const TopTee: char := '\U{252C}'       // ┬
  const TopRight: char := '\U{2510}'     // ┐
  const BottomLeft: char := '\U{2514}'   // └
  const BottomTee: char := '\U{2534}'    // ┴
  const BottomRight: char := '\U{2518}'  // ┘

  /** `" ".repeat(n)`. */
  function Spaces(n: nat): (r: string)
    ensures |r| == n && forall i :: 0 <= i < n ==> r[i] == ' '
  {
    if n == 0 then "" else " " + Spaces(n - 1)
  }

  /** How cell texts are produced: `show` is `f64::to_string`, and `pad`
      is `utils::pad(text, width, fill)`, whose body is not part of this
      model; the layout lemmas assume only `PadsToWidth` of it. */
  datatype Format = Format(show: F64 -> string, pad: (string, nat, string) -> string)

  /** What the table layout needs of `pad`: with a one-character fill, a
      text no wider than the cell is brought to exactly the cell width. */
  ghost predicate PadsToWidth(fmt: Format)
  {
    forall text: string, width: nat, fill: string {:trigger fmt.pad(text, width, fill)} ::
      |fill| == 1 && |text| <= width ==> |fmt.pad(text, width, fill)| == width
  }

  /** The cells of a table line, each followed by its right border: `mid`
      between cells, `right` after the last one. */
  function Cells(cells: seq<string>, mid: char, right: char): (r: string)
    requires |cells| >= 1
    ensures |r| >= 1 && r[|r| - 1] == right
    decreases |cells|
  {
    if |cells| == 1 then cells[0] + [right]
    else cells[0] + [mid] + Cells(cells[1..], mid, right)
  }

  /** A table line: one space, the left border, then the cells. */
  function TableLine(left: char, cells: seq<string>, mid: char, right: char): string
    requires |cells| >= 1
  {
    " " + [left] + Cells(cells, mid, right)
  }

  /** Offset of cell `k` within `Cells` when every cell is `space` wide. */
  function CellStart(k: nat, space: nat): nat
  {
    if k == 0 then 0 else CellStart(k - 1, space) + space + 1
  }

  /** `candlestick_line`: the date, open, close, high and low cells, each
      padded with spaces to the column width.  Volume and amount are not
      shown. */
  function CandlestickLine(width: U16, fmt: Format, cs: CandleStick): (line: string)
    requires width >= 8
    ensures |line| >= 3 && line[..2] == " " + [Vertical] && line[|line| - 1] == Vertical
  {
    TableLine(Vertical, RowCells(width, fmt, cs), Vertical, Vertical)
  }

  /** The five padded cells of `candlestick_line`. */
  function RowCells(width: U16, fmt: Format, cs: CandleStick): (cells: seq<string>)
    requires width >= 8
    ensures |cells| == 5
  {
    var space := ColumnWidth(width);
    [fmt.pad(Utils.SecondsToDate(cs.timestamp), space, " "),
     fmt.pad(fmt.show(cs.open), space, " "), fmt.pad(fmt.show(cs.close), space, " "),
     fmt.pad(fmt.show(cs.high), space, " "), fmt.pad(fmt.show(cs.low), space, " ")]
  }

  /** The column header of `display_first_lines`. */
  function HeaderLine(width: U16, fmt: Format): (line: string)
    requires width >= 8
    ensures |line| >= 4 && line[..2] == " " + [TopLeft]
    ensures line[|line| - 2] == TopRight && line[|line| - 1] == '\r'
  {
    var space := ColumnWidth(width);
    TableLine(TopLeft,
              [fmt.pad(" Date ", space, Horizontal), fmt.pad(" Open ", space, Horizontal),
               fmt.pad(" Close ", space, Horizontal), fmt.pad(" High ", space, Horizontal),
               fmt.pad(" Low ", space, Horizontal)],
              TopTee, TopRight)
    + "\r"
  }

  /** `last_line`: the closing border. */
  function BottomLine(width: U16, fmt: Format): (line: string)
    requires width >= 8
    ensures |line| >= 4 && line[..2] == " " + [BottomLeft]
    ensures line[|line| - 2] == BottomRight && line[|line| - 1] == '\r'
  {
    var space := ColumnWidth(width);
    var rule := fmt.pad("", space, Horizontal);
    TableLine(BottomLeft, [rule, rule, rule, rule, rule], BottomTee, BottomRight) + "\r"
  }

  function Title(info: Api): string
  {
    info.symbol + " -- " + info.interval
  }

  /** The centred title of `display_first_lines`, followed by a blank line. */
  function TitleLine(info: Api, width: U16): (line: string)
    requires |Title(info)| <= width
    ensures |line| >= 3 && |line| - 3 <= width
    ensures line[|line| - 3..] == "\r\n\r"
  {
    Spaces(Centring(width, |Title(info)|)) + Title(info) + "\r\n\r"
  }

  const CommandsLine: string := "  Commands: \n\r  \tQuit: Ctr+Q \t Update data: Ctr+U \r"

  const FetchingMessage: string := "Fetching data..."

  /** `fetching_data_screen`: `height` lines, the centred message on line
      `height / 3` and the others blank.  The width is used only when there
      is a line to centre. */
  function FetchingScreen(size: Size): (lines: seq<string>)
    requires size.height == 0 || |FetchingMessage| <= size.width
    ensures |lines| == size.height
  {
    seq(size.height, i requires 0 <= i < size.height =>
      if i == size.height / 3
      then Spaces(Centring(size.width, |FetchingMessage|)) + FetchingMessage + "\r"
      else "\r")
  }

  /** Whether the data rows can be printed without underflow: `height - 8`
      is needed always, the column width only when a candle is shown. */
  predicate DataRowsPrintable(size: Size, count: nat)
  {
    size.height >= ReservedRows && (size.width >= 8 || size.height == ReservedRows || count == 0)
  }

  /** `display_api_data`: `height - 8` rows, row `i` showing candle `i` when
      there is one and blank otherwise. */
  function DataRows(size: Size, fmt: Format, data: seq<CandleStick>): (rows: seq<string>)
    requires DataRowsPrintable(size, |data|)
    ensures |rows| == size.height - ReservedRows
  {
    seq(size.height - ReservedRows, i requires 0 <= i < size.height - ReservedRows =>
      (if i < |data| then CandlestickLine(size.width, fmt, data[i]) else "") + "\r")
  }

  lemma DataRowAt(size: Size, fmt: Format, data: seq<CandleStick>, i: nat)
    requires DataRowsPrintable(size, |data|) && i < size.height - ReservedRows
    ensures |DataRows(size, fmt, data)| == size.height - ReservedRows
    ensures DataRows(size, fmt, data)[i]
            == (if i < |data| then CandlestickLine(size.width, fmt, data[i]) else "") + "\r"
  {
  }

  /** Printing line `i` of `lines` after the first `i` of them. */
  lemma PrintNext(before: seq<string>, lines: seq<string>, i: nat, out: seq<string>)
    requires i < |lines| && out == before + lines[..i]
    ensures out + [lines[i]] == before + lines[..i + 1]
  {
    assert lines[..i + 1] == lines[..i] + [lines[i]];
  }

  /** What the renderers need to be free of underflow on every input. */
  predicate Renderable(c: Config)
  {
    c.size.width >= |FetchingMessage| && c.size.height >= ReservedRows
    && |Title(c.info)| <= c.size.width
  }

  /** The dashboard's fixed parameters: the terminal size, the exchange and
      pair, and `f64::to_string`. */
  datatype Config = Config(size: Size, info: Api, fmt: Format)

  /** The dashboard printed for a fetched response. */
  function Dashboard(c: Config, req: Request): seq<string>
    requires Renderable(c)
  {
    [TitleLine(c.info, c.size.width), HeaderLine(c.size.width, c.fmt)]
    + DataRows(c.size, c.fmt, req.data)
    + [BottomLine(c.size.width, c.fmt), CommandsLine]
  }

  /** One refresh pass: the loading screen, then the dashboard only when
      the fetch produced a response; a failed fetch (`make_request` turns
      every error into `None`) leaves the loading screen up. */
  function RefreshOutput(c: Config, fetched: Result<Request, FetchError>): seq<string>
    requires Renderable(c)
  {
    FetchingScreen(c.size) + (match fetched case Ok(req) => Dashboard(c, req) case Err(_) => [])
  }

  /** The loading screen fills the terminal height: every line is blank
      but line `height / 3`, which holds the message centred. */
  lemma FetchingMessageCentred(size: Size)
    requires size.height > 0 && |FetchingMessage| <= size.width
    ensures |FetchingScreen(size)| == size.height
    ensures forall i :: 0 <= i < size.height && i != size.height / 3 ==> FetchingScreen(size)[i] == "\r"
    ensures exists pad: nat ::
              FetchingScreen(size)[size.height / 3] == Spaces(pad) + FetchingMessage + "\r"
              && 2 * pad + |FetchingMessage| <= size.width <= 2 * pad + |FetchingMessage| + 1
  {
    var pad := Centring(size.width, |FetchingMessage|);
    assert FetchingScreen(size)[size.height / 3] == Spaces(pad) + FetchingMessage + "\r";
  }

  /** The title line holds the title centred, then a blank line. */
  lemma TitleCentred(info: Api, width: U16)
    requires |Title(info)| <= width
    ensures exists pad: nat ::
              TitleLine(info, width) == Spaces(pad) + info.symbol + " -- " + info.interval + "\r\n\r"
              && 2 * pad + |Title(info)| <= width <= 2 * pad + |Title(info)| + 1
  {
    var pad := Centring(width, |Title(info)|);
    assert TitleLine(info, width) == Spaces(pad) + info.symbol + " -- " + info.interval + "\r\n\r";
  }

  /** The data rows are as many as the terminal leaves for them, whatever
      the number of candles: candles beyond that number are not shown, and
      rows without a candle are blank. */
  lemma DataRowsShowFirstCandles(size: Size, fmt: Format, data: seq<CandleStick>, n: nat)
    requires DataRowsPrintable(size, |data|)
    requires n == if |data| < size.height - ReservedRows then |data| else size.height - ReservedRows
    ensures |DataRows(size, fmt, data)| == size.height - ReservedRows
    ensures DataRows(size, fmt, data) == DataRows(size, fmt, data[..n])
    ensures forall i :: n <= i < size.height - ReservedRows ==> DataRows(size, fmt, data)[i] == "\r"
  {
    var rows, shown := DataRows(size, fmt, data), DataRows(size, fmt, data[..n]);
    forall i | 0 <= i < size.height - ReservedRows
      ensures rows[i] == shown[i]
    {
      if i < n {
        assert data[..n][i] == data[i];
      }
    }
  }

  /** The refresh pass of `run`, followed line by line: whether each `u16`
      or `usize` subtraction it performs stays non-negative.  The loading
      screen centres its message once the height is positive; a response
      then needs the title centred, the column width and the row count. */
  predicate RefreshDefined(c: Config, fetched: Result<Request, FetchError>)
  {
    (c.size.height == 0 || CheckedCentring(c.size.width, |FetchingMessage|).Some?)
    && (fetched.Ok? ==>
          CheckedCentring(c.size.width, |Title(c.info)|).Some?
          && CheckedColumnWidth(c.size.width).Some?
          && CheckedRowCount(c.size.height).Some?)
  }

  /** `Renderable` is exactly the condition under which a refresh that
      shows a response runs without underflow, and it also covers a refresh
      whose fetch failed. */
  lemma RenderableIffRefreshDefined(c: Config, req: Request, err: FetchError)
    ensures Renderable(c) <==> RefreshDefined(c, Ok(req))
    ensures Renderable(c) ==> RefreshDefined(c, Err(err))
  {
  }

  /** A failed fetch leaves the loading screen, one line per terminal row;
      a response adds the dashboard of `height - 4` lines. */
  lemma RefreshOutputLength(c: Config, fetched: Result<Request, FetchError>)
    requires Renderable(c)
    ensures |RefreshOutput(c, fetched)| == if fetched.Ok? then 2 * c.size.height - 4 else c.size.height
    ensures RefreshOutput(c, fetched)[..c.size.height] == FetchingScreen(c.size)
  {
  }

  /** The refresh pass's printing steps, one after the other, add up to
      the loading screen followed by the dashboard. */
  lemma DashboardPrinted(c: Config, req: Request, before: seq<string>, screen: seq<string>,
                         titled: seq<string>, tabled: seq<string>, closed: seq<string>, out: seq<string>)
    requires Renderable(c)
    requires screen == before + FetchingScreen(c.size)
    requires titled == screen + [TitleLine(c.info, c.size.width), HeaderLine(c.size.width, c.fmt)]
    requires tabled == titled + DataRows(c.size, c.fmt, req.data)
    requires closed == tabled + [BottomLine(c.size.width, c.fmt)]
    requires out == closed + [CommandsLine]
    ensures out == before + RefreshOutput(c, Ok(req))
  {
    var head := [TitleLine(c.info, c.size.width), HeaderLine(c.size.width, c.fmt)];
    var top := head + DataRows(c.size, c.fmt, req.data);
    var tail := [BottomLine(c.size.width, c.fmt), CommandsLine];
    Associative(screen, head, DataRows(c.size, c.fmt, req.data));
    Associative(screen + top, [BottomLine(c.size.width, c.fmt)], [CommandsLine]);
    assert [BottomLine(c.size.width, c.fmt)] + [CommandsLine] == tail;
    Associative(screen, top, tail);
    Associative(before, FetchingScreen(c.size), top + tail);
  }

  lemma Associative(a: seq<string>, b: seq<string>, c: seq<string>)
    ensures (a + b) + c == a + (b + c)
  {
  }

  /** The table's borders line up: when every cell text fits the column
      width, the header, a data row and the closing border have the same
      length, which fits in the terminal, and carry their vertical borders
      at the same offsets: border `k` (0 to 5) sits at the same column of
      all three lines.  The 29-character date fits its cell from a width of
      153 columns on. */
  lemma TableColumnsAlign(width: U16, fmt: Format, cs: CandleStick, k: nat)
    requires PadsToWidth(fmt) && CellsFit(width, fmt, cs) && k <= 5
    ensures var row, header, bottom := CandlestickLine(width, fmt, cs), HeaderLine(width, fmt), BottomLine(width, fmt);
            |row| == |header| - 1 == |bottom| - 1 == 2 + 5 * (ColumnWidth(width) + 1) < width
    ensures var row, header, bottom := CandlestickLine(width, fmt, cs), HeaderLine(width, fmt), BottomLine(width, fmt);
            var at := BorderAt(k, ColumnWidth(width));
            at < |row| && at < |header| && at < |bottom|
            && row[at] == Vertical
            && header[at] == (if k == 0 then TopLeft else if k == 5 then TopRight else TopTee)
            && bottom[at] == (if k == 0 then BottomLeft else if k == 5 then BottomRight else BottomTee)
  {
    RowLayout(width, fmt, cs, k);
    HeaderLayout(width, fmt, k);
    BottomLayout(width, fmt, k);
  }

  /** Border `k` of a table line: the left one for 0, the right one for 5. */
  function BorderAt(k: nat, space: nat): nat
  {
    if k == 0 then 1 else 1 + CellStart(k, space)
  }

  /** The five texts a candlestick's row shows, in order. */
  function RowTexts(fmt: Format, cs: CandleStick): (texts: seq<string>)
    ensures |texts| == 5
  {
    [Utils.SecondsToDate(cs.timestamp), fmt.show(cs.open), fmt.show(cs.close), fmt.show(cs.high), fmt.show(cs.low)]
  }

  /** Every text of the row fits the column width: the 29-character date
      fits from a terminal width of 153 columns on. */
  predicate CellsFit(width: U16, fmt: Format, cs: CandleStick)
  {
    width >= 153
    && |fmt.show(cs.open)| <= ColumnWidth(width) && |fmt.show(cs.close)| <= ColumnWidth(width)
    && |fmt.show(cs.high)| <= ColumnWidth(width) && |fmt.show(cs.low)| <= ColumnWidth(width)
  }

  /** A candlestick row opens with a space and a border, then shows cell
      `k` padded to the column width: the date, open, close, high and low,
      in this order. */
  lemma CandlestickRowCells(width: U16, fmt: Format, cs: CandleStick, k: nat)
    requires PadsToWidth(fmt) && CellsFit(width, fmt, cs) && k < 5
    ensures CandlestickLine(width, fmt, cs)[..2] == " " + [Vertical]
    ensures 2 + CellStart(k, ColumnWidth(width)) + ColumnWidth(width) < |CandlestickLine(width, fmt, cs)|
    ensures var at := 2 + CellStart(k, ColumnWidth(width));
            CandlestickLine(width, fmt, cs)[at..at + ColumnWidth(width)]
            == fmt.pad(RowTexts(fmt, cs)[k], ColumnWidth(width), " ")
  {
    var space, cells := ColumnWidth(width), RowCells(width, fmt, cs);
    RowCellsWidth(width, fmt, cs);
    CellsContent(cells, Vertical, Vertical, space, k);
    var at := 2 + CellStart(k, space);
    SliceOfRight(" " + [Vertical], Cells(cells, Vertical, Vertical), at, at + space);
    SliceOfLeft(" " + [Vertical], Cells(cells, Vertical, Vertical), 2);
    assert cells[k] == fmt.pad(RowTexts(fmt, cs)[k], space, " ");
  }

  lemma RowCellsWidth(width: U16, fmt: Format, cs: CandleStick)
    requires PadsToWidth(fmt) && CellsFit(width, fmt, cs)
    ensures forall j :: 0 <= j < 5 ==> |RowCells(width, fmt, cs)[j]| == ColumnWidth(width)
  {
    assert |Utils.SecondsToDate(cs.timestamp)| == 29 by { Utils.SecondsToDateFields(cs.timestamp); }
  }

  /** Volume and amount are decoded but never shown. */
  lemma VolumeAndAmountNotShown(width: U16, fmt: Format, cs: CandleStick, volume: F64, amount: F64)
    requires width >= 8
    ensures CandlestickLine(width, fmt, cs) == CandlestickLine(width, fmt, cs.(volume := volume, amount := amount))
  {
  }

  lemma RowLayout(width: U16, fmt: Format, cs: CandleStick, k: nat)
    requires PadsToWidth(fmt) && CellsFit(width, fmt, cs) && k <= 5
    ensures |CandlestickLine(width, fmt, cs)| == 2 + 5 * (ColumnWidth(width) + 1)
    ensures BorderAt(k, ColumnWidth(width)) < |CandlestickLine(width, fmt, cs)|
            && CandlestickLine(width, fmt, cs)[BorderAt(k, ColumnWidth(width))] == Vertical
  {
    RowCellsWidth(width, fmt, cs);
    TableLineLayout(Vertical, RowCells(width, fmt, cs), Vertical, Vertical, ColumnWidth(width), k);
  }

  lemma HeaderLayout(width: U16, fmt: Format, k: nat)
    requires PadsToWidth(fmt) && width >= 43 && k <= 5
    ensures |HeaderLine(width, fmt)| == 3 + 5 * (ColumnWidth(width) + 1)
    ensures BorderAt(k, ColumnWidth(width)) < |HeaderLine(width, fmt)|
            && HeaderLine(width, fmt)[BorderAt(k, ColumnWidth(width))]
               == (if k == 0 then TopLeft else if k == 5 then TopRight else TopTee)
  {
    var space := ColumnWidth(width);
    TableLineLayout(TopLeft,
                    [fmt.pad(" Date ", space, Horizontal), fmt.pad(" Open ", space, Horizontal),
                     fmt.pad(" Close ", space, Horizontal), fmt.pad(" High ", space, Horizontal),
                     fmt.pad(" Low ", space, Horizontal)],
                    TopTee, TopRight, space, k);
  }

  lemma BottomLayout(width: U16, fmt: Format, k: nat)
    requires PadsToWidth(fmt) && width >= 8 && k <= 5
    ensures |BottomLine(width, fmt)| == 3 + 5 * (ColumnWidth(width) + 1)
    ensures BorderAt(k, ColumnWidth(width)) < |BottomLine(width, fmt)|
            && BottomLine(width, fmt)[BorderAt(k, ColumnWidth(width))]
               == (if k == 0 then BottomLeft else if k == 5 then BottomRight else BottomTee)
  {
    var space := ColumnWidth(width);
    var rule := fmt.pad("", space, Horizontal);
    TableLineLayout(BottomLeft, [rule, rule, rule, rule, rule], BottomTee, BottomRight, space, k);
  }

  /** A five-cell table line with cells of equal width: its length, and its
      border `k` (the left border for 0, the right one for 5). */
  lemma TableLineLayout(left: char, cells: seq<string>, mid: char, right: char, space: nat, k: nat)
    requires |cells| == 5 && k <= 5
    requires forall j :: 0 <= j < |cells| ==> |cells[j]| == space
    ensures |TableLine(left, cells, mid, right)| == 2 + 5 * (space + 1)
    ensures BorderAt(k, space) < |TableLine(left, cells, mid, right)|
            && TableLine(left, cells, mid, right)[BorderAt(k, space)] == (if k == 0 then left else if k == 5 then right else mid)
  {
    CellsLength(cells, mid, right, space);
    CellStartIsProduct(5, space);
    if k > 0 {
      CellsBorder(cells, mid, right, space, k - 1);
      CellStartShift(k, space);
    }
  }

  lemma {:induction false} CellStartIsProduct(k: nat, space: nat)
    ensures CellStart(k, space) == k * (space + 1)
  {
    if k > 0 {
      CellStartIsProduct(k - 1, space);
    }
  }

  /** Cells of equal width: the line is as long as they are plus one border
      each. */
  lemma {:induction false} CellsLength(cells: seq<string>, mid: char, right: char, space: nat)
    requires |cells| >= 1
    requires forall j :: 0 <= j < |cells| ==> |cells[j]| == space
    ensures |Cells(cells, mid, right)| == CellStart(|cells|, space)
    decreases |cells|
  {
    if |cells| > 1 {
      CellsLength(cells[1..], mid, right, space);
      CellStartShift(|cells|, space);
    }
  }

  /** Cell `k` ends just before `CellStart(k + 1, space)`, where its border
      sits: `mid` after every cell but the last, `right` after the last. */
  lemma {:induction false} CellsBorder(cells: seq<string>, mid: char, right: char, space: nat, k: nat)
    requires k < |cells|
    requires forall j :: 0 <= j < |cells| ==> |cells[j]| == space
    ensures CellStart(k, space) + space < |Cells(cells, mid, right)|
    ensures Cells(cells, mid, right)[CellStart(k, space) + space] == (if k == |cells| - 1 then right else mid)
    decreases k
  {
    CellsLength(cells, mid, right, space);
    if k > 0 {
      CellsBorder(cells[1..], mid, right, space, k - 1);
      CellStartShift(k, space);
      assert Cells(cells, mid, right) == cells[0] + [mid] + Cells(cells[1..], mid, right);
    }
  }

  /** Cell `k` occupies `space` characters from `CellStart(k, space)` on. */
  lemma {:induction false} CellsContent(cells: seq<string>, mid: char, right: char, space: nat, k: nat)
    requires k < |cells|
    requires forall j :: 0 <= j < |cells| ==> |cells[j]| == space
    ensures CellStart(k, space) + space < |Cells(cells, mid, right)|
    ensures Cells(cells, mid, right)[CellStart(k, space)..CellStart(k, space) + space] == cells[k]
    decreases k
  {
    CellsLength(cells, mid, right, space);
    CellsBorder(cells, mid, right, space, k);
    var line := Cells(cells, mid, right);
    if k > 0 {
      var rest := Cells(cells[1..], mid, right);
      CellsContent(cells[1..], mid, right, space, k - 1);
      CellStartShift(k, space);
      SliceOfRight(cells[0] + [mid], rest, CellStart(k, space), CellStart(k, space) + space);
    } else if |cells| > 1 {
      SliceOfLeft(cells[0], [mid] + Cells(cells[1..], mid, right), space);
    } else {
      SliceOfLeft(cells[0], [right], space);
    }
  }

  lemma SliceOfRight(a: string, b: string, lo: nat, hi: nat)
    requires |a| <= lo <= hi <= |a| + |b|
    ensures (a + b)[lo..hi] == b[lo - |a|..hi - |a|]
  {
  }

  lemma SliceOfLeft(a: string, b: string, n: nat)
    requires n == |a|
    ensures (a + b)[0..n] == a
  {
  }

  lemma CellStartShift(k: nat, space: nat)
    requires k >= 1
    ensures CellStart(k, space) == space + 1 + CellStart(k - 1, space)
  {
  }

  // ---------------------------------------------------------------------
  // The controller's state machine
  // ---------------------------------------------------------------------

  /** The controller's state between steps: the two flags and what has
      been printed so far. */
  datatype Controller = Controller(quit: bool, update: bool, out: seq<string>)

  /** `handle_keypress`: Ctrl-q asks to quit, Ctrl-u asks for a refresh,
      every other key is ignored. */
  function KeyEffect(s: Controller, key: Key): (r: Controller)
    ensures r.out == s.out
    ensures s.quit ==> r.quit
    ensures s.update ==> r.update
  {
    match key
    case Ctrl(c) =>
      if c == 'q' then s.(quit := true)
      else if c == 'u' then s.(update := true)
      else s
    case _ => s
  }

  /** Each command key touches its own flag only, and printing is left
      alone. */
  lemma KeyEffectCases(s: Controller, key: Key)
    ensures KeyEffect(s, key).quit == (s.quit || key == Ctrl('q'))
    ensures KeyEffect(s, key).update == (s.update || key == Ctrl('u'))
    ensures KeyEffect(s, key).out == s.out
    ensures key == Ctrl('q') ==> KeyEffect(s, key).update == s.update
    ensures key == Ctrl('u') ==> KeyEffect(s, key).quit == s.quit
    ensures key != Ctrl('q') && key != Ctrl('u') ==> KeyEffect(s, key) == s
  {
  }

  /** A key read at the bottom of the loop: a read error is ignored. */
  function AfterRead(s: Controller, read: KeyRead): Controller
  {
    match read
    case Pressed(key) => KeyEffect(s, key)
    case ReadError => s
  }

  /** Whether a loop iteration can run: not quitting, and a fetch outcome
      at hand when a refresh is due. */
  predicate Proceeds(s: Controller, fetches: seq<Result<Request, FetchError>>)
  {
    !s.quit && (s.update ==> |fetches| > 0)
  }

  /** The state after the refresh part of an iteration: when `update` is
      set, the loading screen and the dashboard (for a response) are
      printed and `update` is cleared whatever the outcome. */
  function Refreshed(c: Config, s: Controller, fetches: seq<Result<Request, FetchError>>): Controller
    requires Renderable(c) && Proceeds(s, fetches)
  {
    if s.update then Controller(s.quit, false, s.out + RefreshOutput(c, fetches[0])) else s
  }

  /** Fetch outcomes one iteration consumes. */
  function FetchesUsed(s: Controller): nat
  {
    if s.update then 1 else 0
  }

  /** Where `run` stopped, with how many key reads and fetch outcomes it
      consumed. */
  datatype Outcome = Outcome(last: Controller, keysRead: nat, fetches: nat)

  /** `Loop`'s counters, continued from an earlier position. */
  function Resumed(r: Outcome, keysRead: nat, fetches: nat): Outcome
  {
    Outcome(r.last, r.keysRead + keysRead, r.fetches + fetches)
  }

  /** `run` from the top of a loop iteration.  An iteration stops at once
      when `quit` is set; otherwise it refreshes when `update` is set, then
      reads one key and applies it.  The model also stops where the input
      runs out: a fetch is due and no outcome is left, or a key is due and
      none is left. */
  function Loop(c: Config, s: Controller, keys: seq<KeyRead>, fetches: seq<Result<Request, FetchError>>): (r: Outcome)
    requires Renderable(c)
    ensures r.keysRead <= |keys| && r.fetches <= |fetches|
    ensures s.quit ==> r == Outcome(s, 0, 0)
    decreases |keys|
  {
    if !Proceeds(s, fetches) then Outcome(s, 0, 0)
    else if |keys| == 0 then Outcome(Refreshed(c, s, fetches), 0, FetchesUsed(s))
    else
      var r := Loop(c, AfterRead(Refreshed(c, s, fetches), keys[0]), keys[1..], fetches[FetchesUsed(s)..]);
      Resumed(r, 1, FetchesUsed(s))
  }

  predicate IsQuit(k: KeyRead)
  {
    k == Pressed(Ctrl('q'))
  }

  predicate IsRefresh(k: KeyRead)
  {
    k == Pressed(Ctrl('u'))
  }

  function CountRefresh(keys: seq<KeyRead>): nat
  {
    if keys == [] then 0 else CountRefresh(keys[..|keys| - 1]) + (if IsRefresh(keys[|keys| - 1]) then 1 else 0)
  }

  /** Printing only ever appends. */
  lemma {:induction false} LoopOnlyAppends(c: Config, s: Controller, keys: seq<KeyRead>, fetches: seq<Result<Request, FetchError>>)
    requires Renderable(c)
    ensures s.out <= Loop(c, s, keys, fetches).last.out
    decreases |keys|
  {
    if Proceeds(s, fetches) && |keys| > 0 {
      LoopOnlyAppends(c, AfterRead(Refreshed(c, s, fetches), keys[0]), keys[1..], fetches[FetchesUsed(s)..]);
    }
  }

  /** A fresh controller (`quit` false, `update` true) fetches on its first
      pass: the loading screen and, for a response, the dashboard are the
      first things printed. */
  lemma FirstPassFetches(c: Config, out: seq<string>, keys: seq<KeyRead>, fetches: seq<Result<Request, FetchError>>)
    requires Renderable(c) && |fetches| > 0
    ensures Loop(c, Controller(false, true, out), keys, fetches).fetches >= 1
    ensures out + RefreshOutput(c, fetches[0]) <= Loop(c, Controller(false, true, out), keys, fetches).last.out
  {
    var s := Controller(false, true, out);
    if |keys| > 0 {
      LoopOnlyAppends(c, AfterRead(Refreshed(c, s, fetches), keys[0]), keys[1..], fetches[1..]);
    }
  }

  /** The loop ends exactly after the first Ctrl-q: no key read before the
      last one asks to quit, and the loop has stopped on a quit exactly when
      the last key read is Ctrl-q. */
  lemma {:induction false} LoopStopsAtFirstQuit(c: Config, s: Controller, keys: seq<KeyRead>, fetches: seq<Result<Request, FetchError>>)
    requires Renderable(c) && !s.quit
    ensures var r := Loop(c, s, keys, fetches);
            r.last.quit <==> r.keysRead > 0 && IsQuit(keys[r.keysRead - 1])
    ensures var r := Loop(c, s, keys, fetches);
            forall i :: 0 <= i < r.keysRead - 1 ==> !IsQuit(keys[i])
    decreases |keys|
  {
    if Proceeds(s, fetches) && |keys| > 0 {
      var next := AfterRead(Refreshed(c, s, fetches), keys[0]);
      if !next.quit {
        LoopStopsAtFirstQuit(c, next, keys[1..], fetches[FetchesUsed(s)..]);
      }
    }
  }

  /** Every fetch is owed to the start-up request or to a Ctrl-u: fetches
      made plus a refresh still pending equal the refresh due at the start
      plus the Ctrl-u presses read, so a pass fetches at most once and only
      when `update` is set. */
  lemma {:induction false} LoopFetchCount(c: Config, s: Controller, keys: seq<KeyRead>, fetches: seq<Result<Request, FetchError>>)
    requires Renderable(c)
    ensures var r := Loop(c, s, keys, fetches);
            r.fetches + (if r.last.update then 1 else 0)
            == (if s.update then 1 else 0) + CountRefresh(keys[..r.keysRead])
    decreases |keys|
  {
    if Proceeds(s, fetches) && |keys| > 0 {
      var next := AfterRead(Refreshed(c, s, fetches), keys[0]);
      LoopFetchCount(c, next, keys[1..], fetches[FetchesUsed(s)..]);
      var r' := Loop(c, next, keys[1..], fetches[FetchesUsed(s)..]);
      CountRefreshPrefix(keys, r'.keysRead);
      assert keys[1..][..r'.keysRead] == keys[1..r'.keysRead + 1];
    }
  }

  /** Counting the Ctrl-u presses among the first `n + 1` keys. */
  lemma {:induction false} CountRefreshPrefix(keys: seq<KeyRead>, n: nat)
    requires n < |keys|
    ensures CountRefresh(keys[..n + 1]) == (if IsRefresh(keys[0]) then 1 else 0) + CountRefresh(keys[1..n + 1])
    decreases n
  {
    if n > 0 {
      CountRefreshPrefix(keys, n - 1);
      assert keys[..n + 1][..n] == keys[..n];
      assert keys[1..n + 1][..n - 1] == keys[1..n];
    }
  }

  /** The loop only stops on a quit or for want of input, and a refresh
      left pending means the fetch outcomes ran out, since every pass that
      fetches clears `update` whatever the outcome. */
  lemma {:induction false} LoopStopReason(c: Config, s: Controller, keys: seq<KeyRead>, fetches: seq<Result<Request, FetchError>>)
    requires Renderable(c) && !s.quit
    ensures var r := Loop(c, s, keys, fetches);
            r.last.quit || r.keysRead == |keys| || (r.last.update && r.fetches == |fetches|)
    ensures var r := Loop(c, s, keys, fetches);
            r.last.update && !r.last.quit ==> r.fetches == |fetches|
    decreases |keys|
  {
    if Proceeds(s, fetches) && |keys| > 0 {
      var next := AfterRead(Refreshed(c, s, fetches), keys[0]);
      if !next.quit {
        LoopStopReason(c, next, keys[1..], fetches[FetchesUsed(s)..]);
      }
    }
  }

  // ---------------------------------------------------------------------
  // The Terminal object
  // ---------------------------------------------------------------------

  class Terminal {
    const size: Size
    const info: Api
    const fmt: Format
    var quit: bool
    var update: bool
    var out: seq<string>

    function Cfg(): Config
    {
      Config(size, info, fmt)
    }

    function State(): Controller
      reads this
    {
      Controller(quit, update, out)
    }

    /** `Terminal::default`, for a terminal of the given size: nothing
        printed yet, not quitting, and a refresh due. */
    constructor (size: Size, info: Api, fmt: Format)
      ensures this.size == size && this.info == info && this.fmt == fmt
      ensures !quit && update && out == []
    {
      this.size := size;
      this.info := info;
      this.fmt := fmt;
      quit := false;
      update := true;
      out := [];
    }

    method HandleKeypress(key: Key)
      modifies this`quit, this`update
      ensures State() == KeyEffect(old(State()), key)
      ensures quit == (old(quit) || key == Ctrl('q'))
      ensures update == (old(update) || key == Ctrl('u'))
    {
      match key {
        case Ctrl(c) =>
          if c == 'q' {
            quit := true;
          } else if c == 'u' {
            update := true;
          }
        case _ =>
      }
    }

    method FetchingDataScreen()
      requires size.height == 0 || |FetchingMessage| <= size.width
      modifies this`out
      ensures out == old(out) + FetchingScreen(size)
    {
      ghost var lines := FetchingScreen(size);
      for i := 0 to size.height
        invariant out == old(out) + lines[..i]
      {
        PrintNext(old(out), lines, i, out);
        if i == size.height / 3 {
          out := out + [Spaces(Centring(size.width, |FetchingMessage|)) + FetchingMessage + "\r"];
        } else {
          out := out + ["\r"];
        }
      }
      assert lines[..size.height] == lines;
    }

    method DisplayFirstLines()
      requires size.width >= 8 && |Title(info)| <= size.width
      modifies this`out
      ensures out == old(out) + [TitleLine(info, size.width), HeaderLine(size.width, fmt)]
    {
      out := out + [TitleLine(info, size.width)];
      out := out + [HeaderLine(size.width, fmt)];
    }

    method DisplayApiData(req: Request)
      requires DataRowsPrintable(size, |req.data|)
      modifies this`out
      ensures out == old(out) + DataRows(size, fmt, req.data)
    {
      ghost var rows := DataRows(size, fmt, req.data);
      for i := 0 to size.height - ReservedRows
        invariant out == old(out) + rows[..i]
      {
        var line := if i < |req.data| then CandlestickLine(size.width, fmt, req.data[i]) else "";
        DataRowAt(size, fmt, req.data, i);
        PrintNext(old(out), rows, i, out);
        out := out + [line + "\r"];
      }
      assert rows[..size.height - ReservedRows] == rows;
    }

    method LastLine()
      requires size.width >= 8
      modifies this`out
      ensures out == old(out) + [BottomLine(size.width, fmt)]
    {
      out := out + [BottomLine(size.width, fmt)];
    }

    method DisplayCommands()
      modifies this`out
      ensures out == old(out) + [CommandsLine]
    {
      out := out + [CommandsLine];
    }

    /** The refresh part of `run`'s loop body. */
    method Refresh(fetched: Result<Request, FetchError>)
      requires Renderable(Cfg()) && !quit && update
      modifies this`update, this`out
      ensures out == old(out) + RefreshOutput(Cfg(), fetched)
      ensures !update
    {
      ghost var before := out;
      FetchingDataScreen();
      match fetched {
        case Err(_) =>
          assert RefreshOutput(Cfg(), fetched) == FetchingScreen(size) + [];
        case Ok(req) =>
          ghost var screen := out;
          DisplayFirstLines();
          ghost var titled := out;
          DisplayApiData(req);
          ghost var tabled := out;
          LastLine();
          ghost var closed := out;
          DisplayCommands();
          DashboardPrinted(Cfg(), req, before, screen, titled, tabled, closed, out);
      }
      update := false;
    }

    /** `run`, over the given key reads and fetch outcomes; it reports how
        many of each it consumed. */
    method Run(keys: seq<KeyRead>, fetches: seq<Result<Request, FetchError>>) returns (keysRead: nat, fetchesMade: nat)
      requires Renderable(Cfg())
      modifies this`quit, this`update, this`out
      ensures Loop(Cfg(), old(State()), keys, fetches) == Outcome(State(), keysRead, fetchesMade)
    {
      keysRead, fetchesMade := 0, 0;
      while true
        invariant keysRead <= |keys| && fetchesMade <= |fetches|
        invariant Resumed(Loop(Cfg(), State(), keys[keysRead..], fetches[fetchesMade..]), keysRead, fetchesMade)
                  == Loop(Cfg(), old(State()), keys, fetches)
        decreases |keys| - keysRead
      {
        ghost var before, restKeys, restFetches := State(), keys[keysRead..], fetches[fetchesMade..];
        if quit {
          break;
        }
        if update {
          if fetchesMade == |fetches| {
            break;
          }
          Refresh(fetches[fetchesMade]);
          fetchesMade := fetchesMade + 1;
        }
        assert State() == Refreshed(Cfg(), before, restFetches);
        assert fetches[fetchesMade..] == restFetches[FetchesUsed(before)..];
        if keysRead == |keys| {
          break;
        }
        var key := keys[keysRead];
        keysRead := keysRead + 1;
        match key {
          case Pressed(k) => HandleKeypress(k);
          case ReadError =>
        }
        assert keys[keysRead..] == restKeys[1..];
        assert State() == AfterRead(Refreshed(Cfg(), before, restFetches), restKeys[0]);
      }
    }
  }
}
