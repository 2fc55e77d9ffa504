/**
 * The plain map program: it reads the cities file line by line, skips the
 * header, takes the longitude and latitude columns of each line with
 * `substringAtIndex`, strips one character from each end of both, and plots
 * one pixel per line. The numeric conversion and the scaling onto the
 * display are not part of this model; each plotted pixel is recorded by the
 * two coordinate texts it is computed from.
 */
module MapPlot {
  import opened Wrappers
  import opened Delimited
  import CitiesDb

  /** The column positions the program hard-codes. */
  const LngColIndex: int := 9
  const LatColIndex: int := 8

  /** They are the LNG and LAT positions of the database's column enumeration. */
  lemma ColumnsAgree()
    ensures LngColIndex == CitiesDb.Column(CitiesDb.Lng) as int
    ensures LatColIndex == CitiesDb.Column(CitiesDb.Lat) as int
  {
  }

  /**
   * The field `substringAtIndex` yields, stated on the full split of the
   * line: field `index` when there is one, the last field when `index` runs
   * past the end, and "" for a negative index.
   */
  function FieldAt(line: string, index: int, d: char): string
  {
    var fields := Split(line, d);
    if index < 0 then "" else if index < |fields| then fields[index] else fields[|fields| - 1]
  }

  /**
   * `substringAtIndex`: read pieces from a string stream over the line
   * while the stream is good and no more than `index + 1` have been read,
   * and return the last piece read.
   */
  method SubstringAtIndex(line: string, index: int, delimiter: char) returns (substring: string)
    ensures substring == FieldAt(line, index, delimiter)
    ensures delimiter !in substring
  {
    substring := "";
    var st := Open(line);
    var i := 0;
    ghost var fields := Split(line, delimiter);
    assert line[0..] == line;
    while st.Good() && i <= index
      invariant st.text == line && st.pos <= |line|
      invariant 0 <= i <= |fields|
      invariant if index >= 0 then i <= index + 1 else i == 0
      invariant st.Good() ==> i < |fields| && fields[i..] == Remaining(st, delimiter)
      invariant !st.Good() ==> i == |fields|
      invariant i == 0 ==> substring == ""
      invariant i > 0 ==> substring == fields[i - 1]
      decreases |fields| - i
    {
      GetLineRemaining(st, delimiter, substring);
      var r := GetLine(st, delimiter, substring);
      assert fields[i..] == [r.1] + Remaining(r.0, delimiter);
      assert fields[i] == r.1 && fields[i + 1..] == Remaining(r.0, delimiter) by {
        assert fields[i + 1..] == fields[i..][1..];
      }
      st, substring := r.0, r.1;
      i := i + 1;
    }
    SplitPiecesFree(line, delimiter);
    if i > 0 {
      assert delimiter !in fields[i - 1];
    }
    if index >= 0 && i <= index {
      assert i == |fields|;
    }
  }

  /**
   * The fields are the delimiter count plus one pieces of the line, empty
   * ones included; an index past them gives the last, a negative one "".
   */
  lemma FieldAtPositions(line: string, index: int, d: char)
    ensures |Split(line, d)| == multiset(line)[d] + 1
    ensures 0 <= index <= multiset(line)[d] ==> FieldAt(line, index, d) == Split(line, d)[index]
    ensures index > multiset(line)[d] ==> FieldAt(line, index, d) == Split(line, d)[multiset(line)[d]]
    ensures index < 0 ==> FieldAt(line, index, d) == ""
  {
    SplitCount(line, d);
  }

  /** The largest value of `size_t` plus one: unsigned arithmetic wraps modulo this. */
  const SizeModulus: nat := 0x1_0000_0000_0000_0000

  /** `a - b` on `size_t`. */
  function SizeSub(a: nat, b: nat): nat
  {
    (a - b) % SizeModulus
  }

  /**
   * `s.substr(pos, count)`: the characters from `pos`, at most `count` of
   * them; a start past the end throws `std::out_of_range` (None).
   */
  function Substr(s: string, pos: nat, count: nat): (r: Option<string>)
    ensures r.None? <==> pos > |s|
    ensures r.Some? ==> r.value <= s[pos..] && (|r.value| == count || r.value == s[pos..])
    ensures r.Some? ==> |r.value| == if count < |s| - pos then count else |s| - pos
  {
    if pos > |s| then None
    else if count < |s| - pos then Some(s[pos..pos + count])
    else Some(s[pos..])
  }

  /** The quote trim: `s.substr(1, s.size() - 2)`. */
  function TrimQuotes(s: string): (r: Option<string>)
    ensures r.None? <==> s == []
    ensures r.Some? ==> r.value <= s[1..]
  {
    Substr(s, 1, SizeSub(|s|, 2))
  }

  /**
   * The trim drops the first and the last character of a string of two or
   * more; the size wraps around for a single character, which leaves "",
   * and an empty string throws.
   */
  lemma TrimQuotesCases(s: string)
    requires |s| < SizeModulus
    ensures |s| >= 2 ==> TrimQuotes(s) == Some(s[1..|s| - 1]) && |s[1..|s| - 1]| == |s| - 2
    ensures |s| == 1 ==> TrimQuotes(s) == Some("")
    ensures |s| == 0 ==> TrimQuotes(s) == None
  {
    if |s| >= 2 {
      assert SizeSub(|s|, 2) == |s| - 2;
    } else if |s| == 1 {
      assert SizeSub(1, 2) == SizeModulus - 1;
      assert s[1..] == "";
    }
  }

  /** One plotted pixel: the longitude and latitude texts it is computed from. */
  datatype Plot = Plot(lngText: string, latText: string)

  /** The pixel a data line gives, or None when a trim throws. */
  function PlotOf(line: string): (r: Option<Plot>)
    ensures r.Some? <==> FieldAt(line, LngColIndex, ',') != [] && FieldAt(line, LatColIndex, ',') != []
  {
    var lng := TrimQuotes(FieldAt(line, LngColIndex, ','));
    var lat := TrimQuotes(FieldAt(line, LatColIndex, ','));
    if lng.None? || lat.None? then None else Some(Plot(lng.value, lat.value))
  }

  /** The lines after the header; nothing for an empty file. */
  function DataLines(lines: seq<string>): (data: seq<string>)
    ensures |lines| > 0 ==> data == lines[1..]
    ensures |lines| == 0 ==> data == []
  {
    if |lines| == 0 then [] else lines[1..]
  }

  /**
   * `main`'s read loop: the header is consumed and never plotted, and every
   * later line is plotted once, in file order, until a trim throws, which
   * ends the program.
   */
  method PlotCities(lines: seq<string>) returns (plots: seq<Plot>, aborted: bool)
    ensures |plots| <= |DataLines(lines)|
    ensures forall i :: 0 <= i < |plots| ==> PlotOf(DataLines(lines)[i]) == Some(plots[i])
    ensures !aborted <==> forall i :: 0 <= i < |DataLines(lines)| ==> PlotOf(DataLines(lines)[i]).Some?
    ensures !aborted ==> |plots| == |DataLines(lines)|
    ensures aborted ==> |plots| < |DataLines(lines)| && PlotOf(DataLines(lines)[|plots|]).None?
  {
    ghost var data := DataLines(lines);
    plots, aborted := [], false;
    var pos := 0;
    // Skip the header line.
    if pos < |lines| {
      pos := pos + 1;
    }
    while pos < |lines|
      invariant (|lines| == 0 && pos == 0) || (1 <= pos <= |lines|)
      invariant |plots| == pos - (if |lines| == 0 then 0 else 1)
      invariant forall i :: 0 <= i < |plots| ==> PlotOf(data[i]) == Some(plots[i])
    {
      var rowLine := lines[pos];
      pos := pos + 1;
      var lngStr := SubstringAtIndex(rowLine, LngColIndex, ',');
      var latStr := SubstringAtIndex(rowLine, LatColIndex, ',');
      assert rowLine == data[|plots|];
      var lng := TrimQuotes(lngStr);
      if lng.None? {
        aborted := true;
        return;
      }
      var lat := TrimQuotes(latStr);
      if lat.None? {
        aborted := true;
        return;
      }
      plots := plots + [Plot(lng.value, lat.value)];
    }
  }
}
