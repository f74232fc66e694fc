# crypto-prices-cli dashboard, modelled in Dafny

crypto-prices-cli is a terminal dashboard. It fetches candlestick (kline)
data for one trading pair from an exchange's REST API and draws it as a
bordered table. The model covers three pieces of it:

- **`base.dfy` (module `Base`):** Rust's `Option`/`Result` and the `u8`,
  `u16` and `u32` value ranges. It also has `CheckedSub`, the unsigned
  subtraction of a debug build, where `None` stands for the overflow panic.
- **`candlesticks.dfy` (module `Candlesticks`)** models `src/candlesticks.rs`:
  - the tolerant field decoder `str_or_f64`;
  - the all-or-nothing decoding of a `Request` and its `CandleStick`s, kept in
    wire order;
  - the kline URL;
  - `make_request` as a URL followed by decoding. The transport is a
    parameter.
- **`utils.dfy` (module `Utils`)** models `seconds_to_date` from
  `src/utils.rs`. It prints a `u32` count of seconds since the epoch as
  `%Y-%m-%d %H:%M:%S.%f`. The calendar work the original hands to chrono is
  written out on integers:
  - a proleptic-Gregorian day count with a year search from 1970;
  - a month table;
  - fixed-width decimal fields with their parsers.

  Results proved about it:
  - round trips through the printed text;
  - its meaning as POSIX "Seconds Since the Epoch" (section 4.16 of the
    POSIX.1-2017 Base Definitions);
  - the unit test's value.
- **`terminal.dfy` (module `Terminal`)** models `src/terminal.rs`:
  - the `u16` layout arithmetic (column width, data-row count, centring) and
    where it underflows;
  - the renderers, as pure functions giving the lines each one prints;
  - the `Terminal` class, whose `quit`, `update` and printed `out` fields are
    changed by `HandleKeypress`, by the printing methods (the `for` loops of
    `display_api_data` and `fetching_data_screen`) and by `Run`.

  `Run` is proved against `Loop`, a functional specification of the
  controller's loop. The lemmas about `Loop` state when the loop stops and
  how many fetches it makes.

Printed output is a `seq<string>`, one entry per `println!`, without the
newline `println!` adds.

Parameters stand in for the parts that are not modelled:
- key reads and fetch outcomes are input sequences;
- `f64` values are opaque bit patterns;
- `f64::to_string`, `str::parse::<f64>`, `Number::as_f64` and the `pad`
  helper are function-valued parameters (`Format`, `Conversions`).

The source as written does not compile. The model follows its evident
intent:
- `Api` carries `symbol` and `interval` as well as `base_url`. They are used
  at `src/terminal.rs:125` but not declared at `src/candlesticks.rs:4-6`.
- `make_request` builds its URL from those fields.
- A candle's `timestamp` is a `u32`, the type `seconds_to_date` takes, not
  the declared `f32`.
- `pad` is imported but not defined in `src/utils.rs`, so the model gives it
  no body.

## Model

| member | source | states |
|---|---|---|
| Base.CheckedSub | src/terminal.rs:100 | unsigned subtraction succeeds exactly when it does not underflow, and then gives the difference |
| Terminal.ColumnWidth | src/terminal.rs:113 | `(width-3)/5-1` is the widest cell that leaves, after five cells and their five right borders, at least three columns (the leading space, the left border and one spare) |
| Terminal.CheckedColumnWidth | src/terminal.rs:132 | the column width's two `u16` subtractions are free of underflow exactly when width >= 8, and then give `ColumnWidth` |
| Terminal.CheckedRowCount | src/terminal.rs:100 | `height - 8` is defined exactly when height >= 8, and then adds back to the height |
| Terminal.CheckedCentring | src/terminal.rs:126 | `(width - len)/2` is defined exactly when the text fits the width, and then it is the centring padding |
| Terminal.Centring | src/terminal.rs:168 | the padding splits the spare room so that the right side is at most one column wider than the left |
| Terminal.Spaces | src/terminal.rs:129 | `" ".repeat(n)` is exactly n spaces |
| Terminal.DataRows | src/terminal.rs:100-107 | `display_api_data` prints exactly `height-8` lines, whatever the number of candles |
| Terminal.DataRowAt | src/terminal.rs:99-108 | `display_api_data` prints `height-8` lines; line i shows candle i when there is one and is empty otherwise, each ending in `\r` |
| Terminal.DataRowsShowFirstCandles | src/terminal.rs:100-107 | the number of lines does not depend on the number of candles; candles beyond `height-8` are not shown, and rows without a candle are blank |
| Terminal.Terminal.DisplayApiData | src/terminal.rs:99-108 | the loop appends exactly `DataRows` to the output |
| Terminal.CandlestickLine | src/terminal.rs:110-122 | a row opens with `" │"` and closes with `│` |
| Terminal.Cells | src/terminal.rs:115 | the joined cells end with the closing border (helper of the line renderers) |
| Terminal.CandlestickRowCells | src/terminal.rs:115-121 | a row starts with `" │"` and then holds the date, open, close, high and low, in that order, each padded to the column width |
| Terminal.VolumeAndAmountNotShown | src/terminal.rs:115-121 | the row does not depend on the volume or the amount |
| Terminal.TableColumnsAlign | src/terminal.rs:110-154 | header, data row and closing border have matching lengths that fit in the terminal, and each of the six vertical borders sits at the same column in all three lines, with the corner and tee characters of each line |
| Terminal.RowLayout | src/terminal.rs:115 | a data row is `2 + 5*(space+1)` long and has `│` at each border column |
| Terminal.HeaderLine | src/terminal.rs:132-139 | the header opens with `" ┌"` and ends with `┐` and `\r` |
| Terminal.HeaderLayout | src/terminal.rs:133-139 | from width 43, where every header text fits its cell, the header is `3 + 5*(space+1)` long (one more than a row, for `\r`) and has `┌`, `┬` and `┐` at the border columns |
| Terminal.BottomLine | src/terminal.rs:142-154 | the closing border opens with `" └"` and ends with `┘` and `\r` |
| Terminal.BottomLayout | src/terminal.rs:147-153 | the closing border is as long as the header and has `└`, `┴` and `┘` at the border columns |
| Terminal.TableLineLayout | src/terminal.rs:115 | a line of five equal-width cells has length `2 + 5*(space+1)`, with the left border at column 1 and border k after cell k |
| Terminal.CellsLength | src/terminal.rs:115 | (helper of `TableLineLayout`) cells of equal width joined with one border each take `CellStart(n)` characters |
| Terminal.CellsBorder | src/terminal.rs:133 | (helper of `TableLineLayout`) the border after cell k is the middle separator, or the right corner after the last cell |
| Terminal.CellsContent | src/terminal.rs:116-120 | (helper of `CandlestickRowCells`) cell k occupies exactly its `space` characters from `CellStart(k)` on |
| Terminal.CellStartIsProduct | src/terminal.rs:113 | (helper of `TableLineLayout`) cell k starts at `k*(space+1)` |
| Terminal.RowCellsWidth | src/terminal.rs:116-120 | when every text fits, each of the five padded cells is exactly the column width |
| Terminal.TitleLine | src/terminal.rs:124-129 | the title, with its padding, fits in the terminal width and is followed by `\r\n\r` |
| Terminal.TitleCentred | src/terminal.rs:124-129 | the title line is `symbol -- interval` after a centring padding, followed by a blank line |
| Terminal.Terminal.DisplayFirstLines | src/terminal.rs:124-140 | prints the centred title line, then the column header |
| Terminal.Terminal.LastLine | src/terminal.rs:142-154 | prints the closing border |
| Terminal.Terminal.DisplayCommands | src/terminal.rs:156-158 | prints the command help line |
| Terminal.FetchingScreen | src/terminal.rs:166-172 | the loading screen has exactly `height` lines |
| Terminal.FetchingMessageCentred | src/terminal.rs:164-172 | the loading screen has exactly `height` lines: the message centred on line `height/3`, and `\r` on every other line |
| Terminal.Terminal.FetchingDataScreen | src/terminal.rs:160-173 | the loop appends exactly the loading screen to the output |
| Terminal.RenderableIffRefreshDefined | src/terminal.rs:57-73 | the run precondition `Renderable` holds exactly when a refresh that shows a response performs no underflowing subtraction; it also covers a refresh whose fetch failed |
| Terminal.RefreshOutputLength | src/terminal.rs:57-73 | a refresh prints the loading screen first; a failed fetch prints `height` lines and a response `2*height-4` |
| Terminal.DashboardPrinted | src/terminal.rs:64-69 | (helper of `Terminal.Terminal.Refresh`) the four printing calls on a response add up to the dashboard |
| Terminal.Terminal.Refresh | src/terminal.rs:57-73 | the refresh block prints the loading screen, then the dashboard only for a response, and clears `update` whatever the outcome |
| Terminal.KeyEffect | src/terminal.rs:83-89 | a key never clears a flag and never prints |
| Terminal.KeyEffectCases | src/terminal.rs:83-89 | Ctrl-q sets `quit` and leaves `update`; Ctrl-u sets `update` and leaves `quit`; every other key changes nothing |
| Terminal.Terminal.HandleKeypress | src/terminal.rs:83-89 | the new flags are `KeyEffect` of the old ones: `quit` becomes true exactly on Ctrl-q, `update` exactly on Ctrl-u |
| Terminal.Terminal.constructor | src/terminal.rs:35-45 | a new terminal keeps the given size, exchange settings and formatter, has `quit` false, `update` true and nothing printed |
| Terminal.Loop | src/terminal.rs:52-80 | the loop consumes no more input than it is given, and stops at once when `quit` is already set |
| Terminal.Terminal.Run | src/terminal.rs:47-81 | the final flags, output and consumed input are exactly those the `Loop` specification gives from the starting state |
| Terminal.FirstPassFetches | src/terminal.rs:42-43 | a fresh controller fetches on its first pass and prints the loading screen (and the dashboard) first |
| Terminal.LoopOnlyAppends | src/terminal.rs:52-80 | the loop only ever appends to the output |
| Terminal.LoopStopsAtFirstQuit | src/terminal.rs:52-55 | the loop stops on a quit exactly when the last key read is Ctrl-q, and no earlier key was Ctrl-q, so `quit` is never reset |
| Terminal.LoopFetchCount | src/terminal.rs:57-73 | fetches made plus a refresh still pending equal the initial refresh plus the Ctrl-u presses read: at most one fetch per pass, only when `update` holds |
| Terminal.CountRefreshPrefix | src/terminal.rs:86 | (helper of `LoopFetchCount`) counting Ctrl-u presses over a prefix splits off the first key |
| Terminal.LoopStopReason | src/terminal.rs:52-80 | the loop stops only on a quit or when input runs out; a refresh left pending means no fetch outcomes remain (failures are not retried) |
| Candlesticks.StrOrF64 | src/candlesticks.rs:35-41 | a string never fails; a failure is "Invalid number" for a number and "wrong type" for anything else |
| Candlesticks.StrOrF64Policy | src/candlesticks.rs:35-41 | a string decodes to its parsed value, or 0.0 if parsing fails; a number decodes to its `as_f64` value, or fails with "Invalid number"; any other kind fails with "wrong type" |
| Candlesticks.StrOrF64Fails | src/candlesticks.rs:36-39 | decoding fails exactly for non-string, non-number values and for numbers without an `f64` value, with the matching error |
| Candlesticks.StringAndNumberAgree | src/candlesticks.rs:37-38 | a value written as a string or as a number with the same float decodes identically |
| Candlesticks.UnparsableStringIsZero | src/candlesticks.rs:37 | an unparsable string decodes to 0.0, not to an error |
| Candlesticks.DecodeUnsigned | src/candlesticks.rs:14 | an unsigned field decodes exactly from an in-range non-negative integer number |
| Candlesticks.DecodeCandle | src/candlesticks.rs:18-33 | a decoded candle's timestamp is the wire's non-negative integer, and each of its six floats is what `str_or_f64` gives for that field |
| Candlesticks.DecodeCandleFields | src/candlesticks.rs:18-33 | a candle decodes exactly when its `u32` timestamp and all six tolerant fields decode, and then holds those values |
| Candlesticks.StringFieldsTolerated | src/candlesticks.rs:20-32 | only the six price/volume fields accept strings: with them as strings, the candle decodes exactly when the timestamp does; a string timestamp always fails |
| Candlesticks.DecodeCandles | src/candlesticks.rs:15 | the samples decode exactly when every one does, and keep their count and wire order |
| Candlesticks.DecodeRequest | src/candlesticks.rs:12-16 | a request decodes exactly when its `u8` code and every candle decode; the data keeps wire order, and there is no partial result |
| Candlesticks.EncodeRequest | src/candlesticks.rs:12 | encoding keeps the number of candles |
| Candlesticks.CandleRoundTrip | src/candlesticks.rs:18-33 | encoding a candle and decoding it gives it back exactly when its floats are finite; an infinity or NaN is written as `null` and comes back as "wrong type" |
| Candlesticks.RequestRoundTrip | src/candlesticks.rs:12-16 | encoding a response and decoding it gives it back, candles in order, exactly when every float is finite; otherwise decoding fails |
| Candlesticks.KlineUrl | src/candlesticks.rs:45 | the URL starts with the base URL, ends with the interval, and is exactly as long as its five parts |
| Candlesticks.FirstAmpersand | src/candlesticks.rs:45 | (helper of `KlineUrlInjective`) finds the first `&`, the separator before `interval=` |
| Candlesticks.FirstAmpersandOfJoin | src/candlesticks.rs:45 | (helper of `KlineUrlInjective`) after a symbol without `&`, the first `&` starts `&interval=` |
| Candlesticks.KlineUrlInjective | src/candlesticks.rs:45 | for symbols without `&`, the URL determines the symbol and the interval |
| Candlesticks.UnescapedSymbolsCollide | src/candlesticks.rs:45 | because nothing is escaped, a symbol containing `&interval=` gives two configurations the same URL |
| Candlesticks.DecodeBody | src/candlesticks.rs:49-50 | a body that is not a JSON object of the response's shape fails as malformed; any other body decodes as `DecodeRequest` does |
| Candlesticks.MakeRequest | src/candlesticks.rs:44-53 | succeeds exactly when the GET of the kline URL delivers a body that decodes, and returns that request; a transport or decode error is passed on |
| Utils.DaysInMonth | src/utils.rs:5-6 | every month has 28 to 31 days |
| Utils.MonthTablesAgree | src/utils.rs:5-6 | the days-before-month table accumulates the month lengths and ends at the year length |
| Utils.DaysBeforeMonthMonotone | src/utils.rs:5-6 | days before a month do not decrease with the month |
| Utils.DaysBeforeNextYear | src/utils.rs:5-6 | consecutive years are `DaysInYear` apart |
| Utils.DaysBeforeYearClosedForm | src/utils.rs:5-6 | days before year y match the Gregorian leap-day count from 1970 |
| Utils.LeapTermsStep | src/utils.rs:5-6 | the leap-day count grows by one exactly across a leap year |
| Utils.CenturyShifts | src/utils.rs:5-6 | (helper of `LeapTermsStep`) shifting by the 1968/1900/1600 epochs keeps the year's residues mod 4, 100 and 400 |
| Utils.DaysBeforeYearGrows | src/utils.rs:5-6 | every year has at least 365 days |
| Utils.YearOfDay | src/utils.rs:5-6 | the year search ends at the year containing the day, with the day of the year inside it |
| Utils.MonthOfDay | src/utils.rs:5-6 | the month search ends at the month containing the day of the year |
| Utils.CivilFromDays | src/utils.rs:5-6 | a day count becomes a valid date from 1970 on (month 1..12, day within its month) whose day number is that count |
| Utils.CivilUnique | src/utils.rs:5-6 | every valid date from 1970 on is the conversion of its own day number |
| Utils.SameYear | src/utils.rs:5-6 | valid dates with the same day number have the same year |
| Utils.SameMonth | src/utils.rs:5-6 | valid dates with the same day number and year have the same month |
| Utils.YearBounds | src/utils.rs:5-6 | a valid date's day number lies inside its year |
| Utils.MonthBounds | src/utils.rs:5-6 | a valid date's day of the year lies inside its month |
| Utils.NextDay | src/utils.rs:5-6 | the next calendar day of a valid date is valid |
| Utils.CivilNextDay | src/utils.rs:5-6 | converting the next day count gives the next calendar day |
| Utils.CivilYearBound | src/utils.rs:5-6 | the year is at most `1970 + days/365` |
| Utils.FromTimestampOpt | src/utils.rs:5 | chrono's `from_timestamp_opt`: a result is a valid date whose day number is `secs div 86400`, with hour, minute and second in range and recomposing `secs mod 86400` |
| Utils.FromTimestampTotal | src/utils.rs:5 | every `u32` timestamp is in chrono's range, so the `unwrap` never fails; the year is 1970 to 2106 |
| Utils.Digits | src/utils.rs:8 | a zero-padded field has exactly the given width |
| Utils.DigitsAreDigits | src/utils.rs:8 | a zero-padded field is all decimal digits |
| Utils.DigitsRoundTrip | src/utils.rs:8 | reading a zero-padded field back gives the number |
| Utils.DateTextRoundTrip | src/utils.rs:8 | `%Y-%m-%d` has the date shape and parses back to the date |
| Utils.TimeTextPieces | src/utils.rs:8 | `%H:%M:%S.%f` is 18 characters: three two-digit fields and a nine-digit fraction, with `:` and `.` separators |
| Utils.TimeTextRoundTrip | src/utils.rs:8 | `%H:%M:%S.%f` has the time shape and parses back to its fields |
| Utils.FormatDateTimeRoundTrip | src/utils.rs:8 | the full 29-character text parses back to the date and time |
| Utils.FormatDateTimeParts | src/utils.rs:8 | the text is the date part, a space, then the time part |
| Utils.SplitSecondsOfDay | src/utils.rs:5-8 | hours, minutes and seconds of the day recompose the seconds; minute and second can be taken mod 3600 and mod 60 |
| Utils.HourOfDayRemainder | src/utils.rs:5-8 | (helper of `SplitSecondsOfDay`) seconds past the hour are the same within the day as overall |
| Utils.SecondOfDay | src/utils.rs:5-8 | (helper of `SplitSecondsOfDay`) seconds past the minute are the same within the day as overall |
| Utils.MinuteOfHour | src/utils.rs:5-8 | (helper of `SplitSecondsOfDay` and `FromTimestampOpt`) hours, minutes and seconds recompose the seconds of the day |
| Utils.EpochDateTime | src/utils.rs:5-6 | the date is `e div 86400` days after 1970-01-01 and valid; the hour, minute and second are `(e mod 86400)/3600`, `(e mod 3600)/60` and `e mod 60`; nanoseconds are 0 |
| Utils.SecondsToDate | src/utils.rs:4-9 | the text is always 29 characters long |
| Utils.SecondsToDateFields | src/utils.rs:4-9 | the output always has the fixed shape `YYYY-MM-DD HH:MM:SS.fffffffff`, reads back as `EpochDateTime`, and ends in nine zeros |
| Utils.PosixSecondsOfDate | src/utils.rs:5-6 | the POSIX seconds formula equals day number times 86400 plus the time of day |
| Utils.SecondsToDateMeansEpoch | src/utils.rs:4-9 | the printed date and time is a valid date whose POSIX seconds since the epoch are the input |
| Utils.SecondsToDateNextDay | src/utils.rs:5-8 | adding 86400 seconds advances the date by one calendar day and leaves `HH:MM:SS.fffffffff` unchanged |
| Utils.SecondsToDateExample | src/utils.rs:17 | `seconds_to_date(1669899600)` is `"2022-12-01 13:00:00.000000000"` |
| Utils.ExampleDateTime | src/utils.rs:17 | 1669899600 seconds is 2022-12-01 13:00:00 |
| Utils.ExampleDate | src/utils.rs:17 | 1669899600 seconds falls on 2022-12-01 |
| Utils.ExampleTimeOfDay | src/utils.rs:17 | 1669899600 seconds is 13:00:00 in the day |
| Utils.ExampleText | src/utils.rs:17 | that date and time prints as `2022-12-01 13:00:00.000000000` |
| Utils.ExampleDateText | src/utils.rs:17 | 2022-12-01 prints as `2022-12-01` |
| Utils.ExampleTimeText | src/utils.rs:17 | 13:00:00 with no nanoseconds prints as `13:00:00.000000000` |

## Left out

- Terminal I/O through termion is left out. This covers raw mode, `terminal_size` and the cursor-hide and clear escape sequences (`src/terminal.rs:36, 41, 49-50, 161-162`). The size is a constructor argument, and the escape lines are not part of the printed output.
- The `Terminal::default` error path is left out, because it is an I/O failure. So is `Api::mexc()`, whose values are not in the source. The exchange settings are a constructor argument.
- The busy-wait in `await_keypress` is left out (`src/terminal.rs:91-97`). Key reads, including read errors, arrive as an input sequence.
- async/await scheduling and `src/main.rs` are left out. They are sequential glue.
- HTTP transport is a function parameter that returns a body or a failure. A delivered body is either a JSON object of the response's shape or `None`, which stands for every other body (not JSON, or an error envelope without `data`) and decodes as `Malformed`. The serde machinery is left out as well, including which error serde reports first when several fields are bad. A decode error is modelled as the first failing field in declaration order.
- Candlesticks.CandleRoundTrip: the encoding writes an infinity or a NaN as `null`, as serde_json does. The round trip therefore holds only for finite floats, and the lemma states both directions. `str::parse::<f64>` can produce such values from strings like `"inf"`.
- Floating point is not interpreted. `f64` values are opaque bit patterns, and `f64::to_string`, `str::parse::<f64>` and `Number::as_f64` are parameters.
- `pad` has no body in the source, so it is a parameter of `Format`. The table layout lemmas (`TableColumnsAlign`, `RowLayout`, `HeaderLayout`, `BottomLayout`, `CandlestickRowCells`, `RowCellsWidth`) assume `PadsToWidth` of it. That is, with a one-character fill, a text no wider than the cell is padded to exactly the cell width.
- The unused `line_length` locals are left out (`src/terminal.rs:112, 144`).
- Rust's `len()` counts UTF-8 bytes, but the model counts characters. The only centred texts with non-ASCII content would be a symbol or interval containing such characters.
- Terminal.Terminal.Run: requires `Renderable` (width at least 16 and at least the title's length, height at least 8) for the whole run. That is exact for every refresh that shows a response (`RenderableIffRefreshDefined`). It also excludes every run in which no fetch succeeds on a terminal too small for the dashboard: one narrower than the title, or shorter than 8 rows (`Size(100, 5)`, say). The source runs those safely, since it only prints loading screens and never reaches `height - 8`.
- Terminal.Loop: the model also stops when the key reads or fetch outcomes run out. The source instead blocks for the next key.
- Overflow of a `u16` subtraction is modelled as the debug-build panic (`None` in the `Checked*` functions). The preconditions exclude it. Release-mode wrap-around is not modelled.
- `Terminal.Terminal.Refresh` groups the refresh block of `run` (`src/terminal.rs:57-73`) as a method of its own. It does not exist in the source.
- The table only lines up once the 29-character date fits its cell, which is from a width of 153 columns on (`CellsFit`). Below that, the layout depends on what `pad` does with an over-long text, which the source does not show.
