# 3DIotMap core, modelled in Dafny

This project models the core logic of 3DIotMap. The programs drive an RGB LED
matrix and draw United States cities on it.

- **Cities database** (`CitiesDB`, module `CitiesDb`). The database is a CSV
  file read one line at a time.
  - The tokenizer splits a line at every comma, with no quote awareness, and
    deletes every `"`.
  - A single stream cursor is moved by `reset` (rewind, then skip the header),
    by `next_record` (read and tokenize one line) and by `get_field` (an
    exact-match search on the CITY and STATE_ID columns).
  - The file is modelled as the sequence of its lines, and the cursor as the
    index of the next line. `std::getline` over a string stream is modelled on
    a `Stream` value in module `Delimited`, together with the split, join and
    character-removal functions the proofs are stated with.
- **Map viewer** (`map-viewer.cc`, module `MapViewer`).
  - It parses a 12-token reference string into three (city, state, x, y)
    correspondences. A throwing `stoi` keeps the assignments already made.
  - It looks up each reference city's LNG and LAT. Then it lays out the 6×6
    system whose solution `trans` is the affine map
    `(t0·lng + t1·lat + t2, t3·lng + t4·lat + t5)`.
  - It draws one background pixel per data record, truncated toward zero, and
    then the three reference pixels in the foreground colour.
  - Arithmetic is exact over `real`. `stoi`, `atof` and the linear solver are
    parameters, and the display is a log of pixel writes.
- **Map plotter** (`map.cc`, module `MapPlot`). It covers the field extractor
  `substringAtIndex`, the quote trim `substr(1, size() - 2)` with `size_t`
  wrap-around, and the read loop that skips the header and handles every
  later line once, in file order.
- **Panel test** (`panel-test.cc`, module `PanelTest`). `CyclePanels` is
  modelled as a `Canvas` class whose methods append to a log of operations.
  - The rotation swap fires only when the mapper string *starts* with
    `Rotate:90` or `Rotate:270`.
  - The proofs cover the per-panel rectangles, their tiling, the col-outer,
    row-inner traversal, the red, green and blue fill order, and the
    `"(col,row)"` label written into a 24-byte buffer.

Module `Graphics` holds the `Color` value and the two palette colours the
viewer uses (include/graphics.h:29 and :34). Module `Wrappers` holds `Option`,
and module `Sequences` holds the associativity of concatenation.

Unchecked `operator[]` reads past the end of a token vector are undefined
behaviour in the source. They are modelled as explicit error results, at
exactly the reads the source makes:
- `Malformed` for a lookup: an empty record (CITY is read), a record whose CITY
  equals the key but that has no STATE_ID column (the `||` reads STATE_ID only
  then), or a matching record without the requested column;
- `OutOfRange` for the reference parse;
- `RecordTooShort` while drawing.

The run stops at the first one.

## Model

| member | source | states |
|---|---|---|
| Delimited.IndexOf | lib/cities-db.cc:23 | the position `getline` stops at is the first occurrence of the delimiter, or the end of the text when there is none |
| Delimited.IndexOfUnique | lib/cities-db.cc:23 | any position with no delimiter before it and a delimiter (or the end) at it is the one `getline` stops at |
| Delimited.Split | map.cc:16-22 | splitting at a delimiter always yields at least one piece, empty pieces included |
| Delimited.Fields | lib/cities-db.cc:23 | defines the strings a `getline` loop reads from a text at a delimiter: no final empty field after a trailing delimiter and nothing from an empty text; FieldsPiecesFree, FieldsOfUnterminated and FieldsOfTerminated state its properties |
| Delimited.Open | lib/cities-db.cc:21 | defines the freshly constructed `stringstream` over a line: at position 0 with neither end-of-file nor fail set; GetLineAhead states what reading it yields |
| Delimited.SplitPiecesFree | map.cc:20 | no piece of a split contains the delimiter |
| Delimited.SplitCount | map.cc:16-22 | a split has exactly one more piece than the text has delimiters |
| Delimited.JoinSplit | lib/cities-db.cc:23 | joining the pieces of a split with the delimiter gives back the text |
| Delimited.SplitJoin | lib/cities-db.cc:23 | splitting the join of delimiter-free pieces gives back the pieces |
| Delimited.FieldsPiecesFree | lib/cities-db.cc:23 | no field a `getline` loop reads contains the delimiter |
| Delimited.FieldsOfUnterminated | lib/cities-db.cc:23 | for a nonempty text not ending in the delimiter, the fields a `getline` loop reads are exactly the split |
| Delimited.FieldsOfTerminated | lib/cities-db.cc:23 | a trailing delimiter produces no final empty field: the fields of `s + [d]` are the split of `s` |
| Delimited.Remove | lib/cities-db.cc:26 | `remove`/`erase` keeps exactly the characters other than the removed one |
| Delimited.RemoveAppend | lib/cities-db.cc:26 | removal distributes over concatenation |
| Delimited.RemoveJoin | lib/cities-db.cc:26 | removing a character other than the delimiter from each piece and then joining equals removing it from the join |
| Delimited.RemoveEachAppend | lib/cities-db.cc:26 | removal from each token distributes over concatenation of token lists |
| Delimited.GetLine | lib/cities-db.cc:23 | `getline` keeps the text, never moves backwards, fails exactly on a stream that is not good or has nothing left, advances when it succeeds, and yields a delimiter-free string or leaves the output unchanged |
| Delimited.GetLineAhead | lib/cities-db.cc:23 | one `getline` on a good stream either fails with nothing ahead, or yields the first field ahead and leaves the rest ahead |
| Delimited.GetLineToDelimiter | lib/cities-db.cc:23 | when a delimiter lies ahead, `getline` yields the text up to it and moves just past it |
| Delimited.AheadToDelimiter | lib/cities-db.cc:23 | the fields ahead of a good stream are the text up to the next delimiter followed by the fields after it |
| Delimited.GetLineToEnd | lib/cities-db.cc:23 | with no delimiter ahead, `getline` yields the rest of the text and sets end-of-file without failing |
| Delimited.FieldsAfterDelimiter | lib/cities-db.cc:23 | the fields of a suffix are its text up to the first delimiter followed by the fields after that delimiter |
| Delimited.FieldsWithoutDelimiter | lib/cities-db.cc:23 | a suffix with no delimiter is a single field |
| Delimited.GetLineRemaining | map.cc:19-20 | on a good stream one `getline` yields the first of the pieces `substringAtIndex` can still read and leaves the others |
| Delimited.RemainingToDelimiter | map.cc:19-20 | the pieces still readable are the text up to the next delimiter followed by the pieces after it |
| Delimited.SplitAfterDelimiter | map.cc:19-20 | the split of a suffix is its text up to the first delimiter followed by the split after it |
| Delimited.SplitWithoutDelimiter | map.cc:19-20 | a suffix with no delimiter splits into itself alone |
| CitiesDb.Column | include/cities-db.h:19-23 | every column index is below the column count 19 |
| CitiesDb.ColumnsConsecutive | include/cities-db.h:19-23 | the enumerators are the 19 consecutive columns 0..18 ending at ID, with CITY = 0, STATE_ID = 2, LAT = 8 and LNG = 9 |
| CitiesDb.TokensFree | lib/cities-db.cc:23-28 | no token contains `,` or `"` |
| CitiesDb.Tokenize | lib/cities-db.cc:19-31 | defines the tokens as the `getline` fields at `,`, each with every `"` removed; TokenizeCsvLine, TokensFree and TokenizeJoin state its properties |
| CitiesDb.TokenizeCsvLine | lib/cities-db.cc:19-31 | the loop returns the `getline` fields of the line at commas, each with every `"` deleted |
| CitiesDb.TokenStep | lib/cities-db.cc:23-28 | one loop iteration pushes the quote-free token just read and leaves the right tokens still to come |
| CitiesDb.TokenizeJoin | lib/cities-db.cc:23-28 | for a nonempty line not ending in a comma, joining the tokens with commas gives the line with every `"` removed |
| CitiesDb.TokenizeTerminated | lib/cities-db.cc:23 | a trailing comma produces no final empty token: the tokens are the split of the rest, one more than its commas |
| CitiesDb.TokenizeEmpty | lib/cities-db.cc:23 | an empty line gives zero tokens |
| CitiesDb.Records | lib/cities-db.cc:59-60 | defines the records of a file: record `j` is the tokens of line `j` |
| CitiesDb.Search | lib/cities-db.cc:59-71 | defines the scan as the per-record verdicts in file order, from the cursor on; it ends at or after where it starts and never past the end of the file |
| CitiesDb.Comparable | lib/cities-db.cc:63 | defines when the key test can be evaluated: CITY exists, and STATE_ID too unless CITY already differs; SearchNotFound and SearchMalformed state its role |
| CitiesDb.Matches | lib/cities-db.cc:63 | defines a match: both CITY and STATE_ID exist and equal the key exactly; SearchFound and SearchFirstMatch state its role |
| CitiesDb.Verdict | lib/cities-db.cc:62-67 | a record is passed over exactly when the key test can be evaluated and does not match; a fault it reports names its own line |
| CitiesDb.SearchSkips | lib/cities-db.cc:62-64 | a record that can be compared with the key and does not match is skipped, whatever its length |
| CitiesDb.SearchPastShortRecord | lib/cities-db.cc:63 | a one-token record whose CITY differs does not stop the search: the next record's match is found |
| CitiesDb.SearchFound | lib/cities-db.cc:59-67 | a found value is the requested column of a line whose CITY and STATE_ID equal the arguments, with no earlier matching line, and the cursor sits just past that line |
| CitiesDb.SearchFirstMatch | lib/cities-db.cc:59-67 | the first matching line with the requested column is the one found, provided every earlier line can be compared with the key (non-empty, and with STATE_ID where CITY equals the key); the cursor ends just past it |
| CitiesDb.SearchNotFound | lib/cities-db.cc:59-71 | nothing is found if and only if every line can be compared with the key and none matches (short lines of another city included), and then the cursor is at the end of the data |
| CitiesDb.SearchMalformed | lib/cities-db.cc:63-66 | an out-of-range read is reported only at the first record the scan cannot read safely: an empty record, a record with the key's CITY but no STATE_ID column, or a match without the requested column; the cursor is just past it |
| CitiesDb.DataStart | lib/cities-db.cc:33-39 | the data starts at line 1, just after the header, and at 0 only for an empty file |
| CitiesDb.FieldText | lib/cities-db.cc:66-71 | defines the text a caller sees: a found field's value, or `""` when nothing matched |
| CitiesDb.CheckRecord | lib/cities-db.cc:60-67 | exists only as GetField's loop body, in the source's statement order; the body for one record is the record's verdict: `continue` on a mismatch, STATE_ID read only after CITY matched |
| CitiesDb.CitiesDB.constructor | lib/cities-db.cc:10-17 | the new database's cursor is at the first line, the header |
| CitiesDb.CitiesDB.ReadLine | lib/cities-db.cc:44 | reading succeeds exactly when a line remains, yields that line and advances one line; otherwise the cursor stays |
| CitiesDb.CitiesDB.Reset | lib/cities-db.cc:33-40 | after `reset` the cursor is just past the header, whatever it was before |
| CitiesDb.CitiesDB.NextRecord | lib/cities-db.cc:42-50 | if a line remains, it returns true with that line's tokens and advances one line; at the end it returns false and leaves the tokens unchanged |
| CitiesDb.CitiesDB.GetField | lib/cities-db.cc:52-73 | the result and final cursor are those of the search from the first data line, independent of the prior cursor; after a fault the cursor is just past the faulty line |
| MapPlot.ColumnsAgree | map.cc:36-37 | the hard-coded column indexes 9 and 8 are the LNG and LAT columns of the database |
| MapPlot.SubstringAtIndex | map.cc:16-22 | the loop returns the field the extractor is defined to give, and that field never contains the delimiter |
| MapPlot.FieldAtPositions | map.cc:16-22 | the field count is the delimiter count plus one, an index below it gives that field, a larger index gives the last field, and a negative index gives `""` |
| MapPlot.Substr | map.cc:62-63 | `substr` throws exactly when the start is past the end, and otherwise gives the prefix of the suffix from the start of length `min(count, size − pos)` |
| MapPlot.TrimQuotes | map.cc:62-63 | the trim throws exactly on an empty field, and otherwise keeps a prefix of the field without its first character |
| MapPlot.TrimQuotesCases | map.cc:62-63 | a field of length n ≥ 2 loses its first and last character (length n − 2), one character leaves `""` by `size_t` wrap-around, and an empty field throws |
| MapPlot.SizeSub | map.cc:62-63 | defines `size() - 2` on `size_t`, wrapping modulo 2^64; TrimQuotesCases states the wrapped cases |
| MapPlot.PlotOf | map.cc:58-63 | a data line yields its pixel exactly when its columns 9 and 8 are both non-empty, so that neither trim throws |
| MapPlot.DataLines | map.cc:53 | defines the data lines: all but the first, which is consumed as the header; an empty file has none |
| MapPlot.PlotCities | map.cc:50-77 | every data line is plotted once, in file order, from its columns 9 and 8 trimmed; the loop stops only when a trim throws, at exactly that line |
| MapViewer.Assign | map-viewer.cc:47-49 | assignment `j` sets field `j % 4` (city, state, x, y) of reference `j / 4` to its text or value, and leaves every other field of the three references unchanged |
| MapViewer.ParseFrom | map-viewer.cc:45-52 | the chain keeps three references unless a token index runs past the end |
| MapViewer.StopAt | map-viewer.cc:47-52 | the chain stops at the first assignment whose token is missing or whose `stoi` throws, and every assignment before it is made |
| MapViewer.AssignStep | map-viewer.cc:47-49 | assignment `j` stores `stoi` of token `j` for an x or y, and token `j` itself for a city or state |
| MapViewer.ParseFromOutcome | map-viewer.cc:45-52 | running the chain from any point gives the references assigned up to where it stops, with the rest at their defaults |
| MapViewer.ParseOutcome | map-viewer.cc:40-52 | from the declared defaults (empty names, targets 0) the parse keeps the assignments made before the first failure |
| MapViewer.ParseReferences | map-viewer.cc:40-52 | defines the parse as the assignment chain from the declared defaults; ParseOutcome, ParseWellFormed and ParseIgnoresExtraTokens state its outcome |
| MapViewer.ParseWellFormed | map-viewer.cc:47-49 | with twelve tokens whose numeric ones convert, reference k is (tokens[4k], tokens[4k+1], stoi tokens[4k+2], stoi tokens[4k+3]) |
| MapViewer.ParseIgnoresExtraTokens | map-viewer.cc:46-49 | tokens beyond the twelfth do not affect the parse |
| MapViewer.MatVec | map-viewer.cc:79 | defines a matrix–vector product: one entry per row |
| MapViewer.SystemMatrix | map-viewer.cc:69-76 | defines the system: row `[lng, lat, 1, 0, 0, 0]` and row `[0, 0, 0, lng, lat, 1]` for each reference, in order |
| MapViewer.SystemTarget | map-viewer.cc:77-78 | defines the right-hand side x1, y1, x2, y2, x3, y3 |
| MapViewer.Apply | map-viewer.cc:94-102 | defines `B·trans` for the planar point, which is the longitude and latitude themselves; ApplyAffine gives its closed form |
| MapViewer.ApplyAffine | map-viewer.cc:94-102 | the planar step is the identity, and `B·trans` is `(t0·lng + t1·lat + t2, t3·lng + t4·lat + t5)` |
| MapViewer.FitReproducesReferences | map-viewer.cc:69-102 | any solution of the system maps each reference city's (lng, lat) exactly to its target (x, y) |
| MapViewer.Fit | map-viewer.cc:61-79 | defines `trans` as the solver's answer for the system built from the six looked-up points and the targets; FitReproducesReferences states what any exact answer does |
| MapViewer.Trunc | map-viewer.cc:103-104 | `int()` truncates toward zero: the result lies between 0 and the value, less than one away |
| MapViewer.TruncIsNotFloorOrRound | map-viewer.cc:103-104 | truncation differs from floor on negative values and from rounding |
| MapViewer.TruncIntegral | map-viewer.cc:103-104 | integral values are kept |
| MapViewer.CityPixel | map-viewer.cc:85-104 | defines the pixel of one record: its LNG and LAT through `atof` and `trans`, truncated, in the background colour, or none when the record has no LNG column; CityPixelAt and DrawnPixels state its properties |
| MapViewer.Drawing | map-viewer.cc:83-108 | defines the drawing loop over the data records; DrawingPixels states what it writes |
| MapViewer.Drawn | map-viewer.cc:82-113 | defines the drawing stage: the loop's pixels then the three markers, or the stop at the first short record; DrawnPixels states what it writes |
| MapViewer.Located | map-viewer.cc:54-113 | defines a run from the lookups on: the first malformed lookup stops it, otherwise the fit and the drawing follow; LocateAndDraw is proved equal to it |
| MapViewer.DrawingPixels | map-viewer.cc:83-108 | one background pixel per record, in order, each the truncated image of its (lng, lat), stopping exactly at the first record without an LNG column |
| MapViewer.DrawingStops | map-viewer.cc:85-86 | a record without an LNG column ends the drawing there |
| MapViewer.DrawingGoesOn | map-viewer.cc:83-107 | a record with its columns adds its pixel and the loop goes on with the next record |
| MapViewer.DrawCities | map-viewer.cc:82-108 | after `reset`, the loop writes exactly the drawing of the data records in file order; the cursor ends at the end of the file, or just past the record that stopped the loop |
| MapViewer.Lookups | map-viewer.cc:54-59 | defines the six lookups: the LNG then LAT field of each reference, each searched from the first data line |
| MapViewer.FirstMalformed | map-viewer.cc:54-59 | the run faults exactly when some lookup reads out of range, and then at the first such lookup |
| MapViewer.Points | map-viewer.cc:61-66 | defines each reference's point as `atof` of its looked-up LNG and LAT texts, `""` when not found |
| MapViewer.Markers | map-viewer.cc:111-113 | defines the three markers: the reference targets in the foreground colour, in order |
| MapViewer.LookUpReference | map-viewer.cc:54-55 | the LNG and LAT lookups of one reference are the searches for its city and state, and the cursor is where the last search made left it |
| MapViewer.LookUpReferences | map-viewer.cc:54-59 | the six calls give the lookups of the three references, or report the first out-of-range one with the cursor just past it; otherwise the cursor is where the sixth search left it |
| MapViewer.ViewMap | map-viewer.cc:45-113 | the whole run writes exactly what the viewer is defined to write for the database, reference string and conversions; the cursor ends at the end of the file, just past the faulty line, or where it was when the reference string is short |
| MapViewer.LocateAndDraw | map-viewer.cc:54-113 | from the lookups on, the run writes what the located references define; the cursor ends at the end of the file or just past the faulty line |
| MapViewer.FitAndDraw | map-viewer.cc:61-113 | with well-formed lookups, the run draws with the solver's solution of the references' system; the cursor ends at the end of the file or just past the short record |
| MapViewer.DrawAndMark | map-viewer.cc:82-113 | the drawing stage writes exactly what is defined for the data records and the markers; the cursor ends at the end of the file or just past the short record |
| MapViewer.DrawnPixels | map-viewer.cc:82-113 | a run that does not fault writes one background pixel per data record, then exactly the three markers; a faulting run stops at the first short record |
| MapViewer.ViewingDraws | map-viewer.cc:45-113 | when the tokens and lookups are well formed, the viewer draws with the fitted solution |
| MapViewer.ReferencePoint | map-viewer.cc:54-66 | a found reference's point comes from the first data line matching its city and state |
| MapViewer.CityPixelAt | map-viewer.cc:85-107 | a record whose (lng, lat) maps onto integers is drawn exactly at that pixel |
| MapViewer.ReferenceLandsOnTarget | map-viewer.cc:69-107 | the background pixel drawn for a reference city's own record is exactly at that reference's target |
| MapViewer.Viewing | map-viewer.cc:45-113 | defines a whole run: a parse that runs out of tokens faults, and otherwise the lookups, fit and drawing follow; ViewingDraws and DrawnPixels state what it writes |
| PanelTest.Canvas.constructor | panel-test.cc:75 | a new canvas has written nothing |
| PanelTest.Canvas.SetPixel | panel-test.cc:55 | a pixel write is appended to the log |
| PanelTest.Canvas.Clear | panel-test.cc:59 | a clear is appended to the log |
| PanelTest.Canvas.DrawText | panel-test.cc:64 | a text draw is appended to the log |
| PanelTest.FindFrom | panel-test.cc:35 | `find` returns the first occurrence at or after its start, or none |
| PanelTest.Find | panel-test.cc:35 | defines `find` from position 0; FindAtStart states when `!find` holds |
| PanelTest.Mapping | panel-test.cc:34 | defines the mapping string as the pixel-mapper config, or `""` when it is null; RotationRule states the null case never swaps |
| PanelTest.RotationRule | panel-test.cc:30-36 | the grid is swapped if and only if the mapper string begins with `Rotate:90` or `Rotate:270`; a null config never swaps |
| PanelTest.FindAtStart | panel-test.cc:35 | `!find(p)` holds exactly when the string begins with `p` |
| PanelTest.Rotated | panel-test.cc:34-35 | defines the swap test: `find` returns position 0 for `Rotate:90` or `Rotate:270` in the mapper string, `""` when there is none; RotationRule states what it means |
| PanelTest.PanelGrid | panel-test.cc:30-36 | defines the panel counts: chain length by parallel, swapped when Rotated; RotationRule and PanelCounts state it |
| PanelTest.ColumnCellsAt | panel-test.cc:40 | the inner loop visits rows 0..n−1 of its column in order |
| PanelTest.CellsLength | panel-test.cc:39-40 | the nested loops visit w·h panels |
| PanelTest.CellsOrder | panel-test.cc:39-40 | the k-th panel visited is (k / h, k % h): column outer, row inner |
| PanelTest.CellAt | panel-test.cc:39-40 | the k-th panel visited is (k / h, k % h) |
| PanelTest.CellInGrid | panel-test.cc:39-40 | every visited panel lies in the grid |
| PanelTest.CellIndex | panel-test.cc:39-40 | every panel of the grid is visited |
| PanelTest.CellsContain | panel-test.cc:39-40 | a panel is visited if and only if it lies in the grid |
| PanelTest.CellsDistinct | panel-test.cc:39-40 | no panel is visited twice |
| PanelTest.PaintAt | panel-test.cc:53-55 | painting writes one pixel per cell, each at its offset, in order |
| PanelTest.PaintSnoc | panel-test.cc:53-55 | one more cell adds one more pixel write at the end |
| PanelTest.PaintAppend | panel-test.cc:53-55 | painting consecutive cell lists concatenates their writes |
| PanelTest.StripPaint | panel-test.cc:54-55 | the inner `y` loop paints the column's cells |
| PanelTest.Strip | panel-test.cc:54-55 | defines the inner `y` loop's writes: (x, y0) … (x, y0 + n − 1) in one colour; StripPaint states them as the column's cells |
| PanelTest.Block | panel-test.cc:53-55 | defines the `x`/`y` loops' writes as the strips of x0 … x0 + w − 1 in turn; BlockPaint, BlockContains and BlockArea state what it writes |
| PanelTest.BlockPaint | panel-test.cc:53-55 | the `x`/`y` loops paint the grid's cells, column outer |
| PanelTest.BlockAt | panel-test.cc:53-55 | the k-th write of a block is at the k-th cell's offset |
| PanelTest.BlockContains | panel-test.cc:53-55 | a block writes a pixel if and only if it is inside the rectangle, in the block's colour |
| PanelTest.BlockInside | panel-test.cc:53-55 | nothing outside the rectangle is written |
| PanelTest.BlockCovers | panel-test.cc:53-55 | every pixel of the rectangle is written |
| PanelTest.BlockArea | panel-test.cc:53-55 | a block is w·h distinct pixel writes, all in its colour |
| PanelTest.PanelRectangle | panel-test.cc:42-55 | panel (col,row) writes exactly x ∈ [cols·col, cols·col+cols−1] and y ∈ [rows·row, rows·row+rows−1] |
| PanelTest.PanelArea | panel-test.cc:42-55 | a panel's fill is exactly cols × rows distinct pixel writes in one colour |
| PanelTest.Owner | panel-test.cc:43-48 | a coordinate lies in span k if and only if k is its quotient by the span size |
| PanelTest.PanelOwner | panel-test.cc:42-48 | each pixel lies in exactly one panel's rectangle, so rectangles of distinct panels are disjoint |
| PanelTest.PanelsTile | panel-test.cc:39-48 | the rectangles together tile [0, cols·panel_cols) × [0, rows·panel_rows) |
| PanelTest.Bounded | panel-test.cc:39-48 | a coordinate lies in the first `count` spans if and only if its quotient is below `count` |
| PanelTest.Rect | panel-test.cc:42-55 | defines one panel's fill in one colour: the block at (cols·col, rows·row) of cols × rows pixels; PanelRectangle and PanelArea state what it writes |
| PanelTest.Digit | panel-test.cc:63 | a decimal digit is a character `0`..`9` |
| PanelTest.NaturalDigits | panel-test.cc:63 | `%d` of a natural is all digits |
| PanelTest.LabelFits | panel-test.cc:62-63 | `snprintf` into 24 bytes keeps a prefix of at most 23 characters, and the whole text exactly when it fits |
| PanelTest.Natural | panel-test.cc:63 | defines the `%d` digits of a natural number without leading zeros; NaturalDigits, NaturalLength and NaturalRoundTrip state its properties |
| PanelTest.Decimal | panel-test.cc:63 | defines `%d` of an integer: a minus sign before the digits of a negative one; LabelRoundTrip reads it back |
| PanelTest.Format | panel-test.cc:63 | defines the untruncated `"(%d,%d)"` text; LabelUntruncated and LabelRoundTrip state its length and read-back |
| PanelTest.NaturalRoundTrip | panel-test.cc:63 | reading back the decimal text of a natural gives the natural |
| PanelTest.NaturalLength | panel-test.cc:62-63 | a natural below 10^k has at most k digits |
| PanelTest.LabelUntruncated | panel-test.cc:62-63 | for non-negative 32-bit col and row the label is `"(col,row)"`, not truncated |
| PanelTest.LabelRoundTrip | panel-test.cc:63 | the label of non-negative col and row reads back as (col, row) |
| PanelTest.ParsePair | panel-test.cc:63 | a bracketed pair of digit strings reads back as the two numbers |
| PanelTest.Bracketed | panel-test.cc:63 | the text between the brackets of `(…)` is the inner text |
| PanelTest.PairSplit | panel-test.cc:63 | two digit strings joined by `,` split back into the two |
| PanelTest.Label | panel-test.cc:62-63 | defines the `snprintf` result: the `"(%d,%d)"` text cut to 23 characters; LabelFits, LabelUntruncated and LabelRoundTrip state its properties |
| PanelTest.PanelOps | panel-test.cc:50-67 | defines what one panel does: the three fills, a clear, the label at (x0, y1), a clear; PanelSequence states the order |
| PanelTest.Fill | panel-test.cc:51-57 | defines the colour loop's writes: the panel's rectangle in each of the first n colours in turn; FillColors appends exactly it |
| PanelTest.PanelColumn | panel-test.cc:40-68 | defines the inner `row` loop: the panels of one column in row order; ColumnPanels and ShowColumn state it |
| PanelTest.Grid | panel-test.cc:39-69 | defines the outer `col` loop: the columns in order, each with its rows; GridPanels and CycleOrder state the visiting order |
| PanelTest.PanelSequence | panel-test.cc:51-67 | a panel writes its rectangle red, then green, then blue, clears, draws its label at (x0, y1) in white on black, and clears |
| PanelTest.PanelsSnoc | panel-test.cc:39-40 | one more panel visited appends that panel's operations |
| PanelTest.PanelsAppend | panel-test.cc:39-40 | visiting consecutive panel lists concatenates their operations |
| PanelTest.ColumnPanels | panel-test.cc:40-68 | the inner loop runs the panels of its column in row order |
| PanelTest.GridPanels | panel-test.cc:39-69 | the nested loops run the panels in the visiting order |
| PanelTest.PanelsSplit | panel-test.cc:39-69 | the operations of panel k sit between those of the panels before and after it |
| PanelTest.CycleOrder | panel-test.cc:39-69 | the k-th panel of the cycle is (k / panel_rows, k % panel_rows), preceded and followed by the panels visited before and after it |
| PanelTest.Cycle | panel-test.cc:30-69 | defines one run of the cycle: the panels of the grid, col outer and row inner; CycleOrder and GridPanels state the order |
| PanelTest.FillPanel | panel-test.cc:53-55 | the `x`/`y` loops append exactly the block of the rectangle [x0, x1] × [y0, y1] |
| PanelTest.ShowPanel | panel-test.cc:42-67 | one panel appends exactly its fill, clear, label and clear |
| PanelTest.PanelOpsAfter | panel-test.cc:51-67 | the three fills followed by the label operations are the panel's operations |
| PanelTest.FillColors | panel-test.cc:51-57 | the colour loop appends the rectangle in each colour in turn |
| PanelTest.ShowLabel | panel-test.cc:59-67 | clear, the `"(col,row)"` label at (x0, y1), clear |
| PanelTest.PanelCounts | panel-test.cc:30-36 | the panel counts are chain length by parallel, swapped by the rotation rule |
| PanelTest.ShowColumn | panel-test.cc:40-68 | the inner loop appends the panels of its column |
| PanelTest.CyclePanels | panel-test.cc:27-70 | the whole cycle appends exactly every panel's operations in col-outer, row-inner order |

## Left out

- Opening the CSV file and the `throw 0` or exit when it is missing (lib/cities-db.cc:10-17, map.cc:32-48). The file is given as its sequence of lines.
- CitiesDb.CitiesDB.Reset: models `reset` as always rewinding. With a real `std::ifstream`, a `get_field` that ran off the end leaves the fail bit set, so a later `seekg(0)` does nothing. The model does not capture that stream state. In the real program this means that after a `get_field` that finds nothing, every later `get_field` returns `""` and the viewer's drawing loop reads no record and draws no background pixel; ViewMap and DrawnPixels instead describe a run that rewinds and draws every record.
- Floating point. `float` arithmetic is modelled as exact `real` arithmetic. Eigen's `A.inverse()` is replaced by a `solve` parameter, with no singularity check, and the results are about any solution of the system.
- `atof` and `stoi` are parameters. `stoi` is partial, and its failure is a caught exception.
- MapViewer.Trunc: models `int()` of a float exactly and does not model the undefined behaviour of a value outside the 32-bit range.
- The map plotter's range scaling, vertical flip, `MIN_LNG`/`MAX_LNG`/`MIN_LAT`/`MAX_LAT` constants and float-to-int `SetPixel` (map.cc:39-44, 68-76) are left out. From each line, the model keeps the trimmed longitude and latitude texts, and the pixel computed from them is not modelled.
- MapPlot.PlotCities: an empty field's `substr` throwing `std::out_of_range` is modelled as ending the run, which is what the uncaught exception does; program termination itself is not modelled.
- Unchecked `operator[]` reads past the end of a token vector (lib/cities-db.cc:63, 66; map-viewer.cc:47-49, 85-86) are undefined behaviour. They are modelled as explicit faults that stop the run, not as whatever the program would do.
- 32-bit `int` overflow in `cols * col` and in the parsed targets is not modelled; integers are unbounded.
- PanelTest.LabelUntruncated: the `"(col,row)"` text is proved only for non-negative col and row below 2^31, which are the values the loops produce.
- Sleeping and pausing, font loading and glyph rendering, the SIGINT handler and the repeat loop (panel-test.cc:20-25, 79-91), `CreateMatrixFromFlags`, `getopt` and `print_usage` are left out. `SetPixel`, `Clear` and `DrawText` are entries in an operation log.
- The final `Clear` of the matrix (map-viewer.cc:119, map.cc:79) and the console messages are not part of the pixel logs.
- include/graphics.h's drawing and font functions have no bodies in the source and are not part of this model beyond the `Color` value and its palette constants.
