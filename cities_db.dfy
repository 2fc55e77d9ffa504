/**
 * The cities database: a CSV file read line by line through one stream.
 * The first line names the columns; every later line is one city. The store
 * tokenizes a line at every comma and deletes every double quote, rewinds to
 * the first data line, hands out one record at a time, and looks a field up
 * by exact (city, state) key.
 *
 * The file is the sequence of lines that successive `getline` calls yield;
 * the stream's read position is the index of the next line.
 */
module CitiesDb {
  import opened Wrappers
  import opened Delimited
  import opened Sequences

  /** The number of columns the enumeration names. */
  const ColumnCount: nat := 19

  /**
   * A column of the database. The enumeration is a C++ unscoped enum, so
   * each name is an integer constant, numbered from 0 in file order.
   */
  newtype Index = n: int | 0 <= n < ColumnCount

  const City: Index := 0
  const CityAscii: Index := 1
  const StateId: Index := 2
  const StateName: Index := 3
  const CountyFips: Index := 4
  const CountyName: Index := 5
  const CountyFipsAll: Index := 6
  const CountyNameAll: Index := 7
  const Lat: Index := 8
  const Lng: Index := 9
  const Population: Index := 10
  const Density: Index := 11
  const Source: Index := 12
  const Military: Index := 13
  const Incorporated: Index := 14
  const Timezone: Index := 15
  const Ranking: Index := 16
  const Zips: Index := 17
  const Id: Index := 18

  /** The names in declaration order. */
  const Columns: seq<Index> := [
    City, CityAscii, StateId, StateName, CountyFips, CountyName,
    CountyFipsAll, CountyNameAll, Lat, Lng, Population, Density,
    Source, Military, Incorporated, Timezone, Ranking, Zips, Id]

  /** The 0-based column position an index stands for. */
  function Column(i: Index): (n: nat)
    ensures n < ColumnCount
  {
    i as nat
  }

  /**
   * The names number the columns 0..18 consecutively, without gaps or
   * repeats, ending at ID; the key columns are 0 and 2 and the coordinates
   * 8 (latitude) and 9 (longitude).
   */
  lemma ColumnsConsecutive()
    ensures |Columns| == ColumnCount
    ensures forall k :: 0 <= k < |Columns| ==> Column(Columns[k]) == k
    ensures Column(City) == 0 && Column(StateId) == 2
    ensures Column(Lat) == 8 && Column(Lng) == 9
    ensures Columns[ColumnCount - 1] == Id
  {
  }

  /**
   * The tokens of a CSV line: the pieces a getline loop reads with delimiter
   * ',', each with every '"' deleted. There is no quoting: a quoted comma
   * splits too.
   */
  function Tokenize(line: string): seq<string>
  {
    RemoveEach(Fields(line, ','), '"')
  }

  /** No token contains a comma or a double quote, wherever they stood in the line. */
  lemma TokensFree(line: string)
    ensures forall i :: 0 <= i < |Tokenize(line)| ==> '"' !in Tokenize(line)[i] && ',' !in Tokenize(line)[i]
  {
    FieldsPiecesFree(line, ',');
  }

  /**
   * `tokenize_csv_line`: read pieces from a string stream over the line
   * until getline fails, delete the quotes of each, and collect them.
   */
  method TokenizeCsvLine(line: string) returns (tokens: seq<string>)
    ensures tokens == Tokenize(line)
  {
    tokens := [];
    var st := Open(line);
    var token := "";
    assert line[0..] == line;
    GetLineAhead(st, ',', token);
    var r := GetLine(st, ',', token);
    st, token := r.0, r.1;
    while !st.fail
      invariant st.text == line && st.pos <= |line|
      invariant Tokenize(line) == tokens + if st.fail then [] else RemoveEach([token] + Ahead(st, ','), '"')
      decreases |line| - st.pos, (if st.eof then 0 else 1) + (if st.fail then 0 else 1)
    {
      TokenStep(line, tokens, st, token);
      tokens := tokens + [Remove(token, '"')];
      r := GetLine(st, ',', token);
      st, token := r.0, r.1;
    }
  }

  /** One turn of the tokenizer loop keeps the tokens read plus the tokens ahead equal to Tokenize. */
  lemma TokenStep(line: string, tokens: seq<string>, st: Stream, token: string)
    requires st.pos <= |st.text| && !st.fail
    requires Tokenize(line) == tokens + RemoveEach([token] + Ahead(st, ','), '"')
    ensures var r := GetLine(st, ',', token);
      Tokenize(line) == tokens + [Remove(token, '"')] + if r.0.fail then [] else RemoveEach([r.1] + Ahead(r.0, ','), '"')
  {
    var r := GetLine(st, ',', token);
    var rest := if r.0.fail then [] else RemoveEach([r.1] + Ahead(r.0, ','), '"');
    RemoveEachAppend([token], Ahead(st, ','), '"');
    assert RemoveEach([token], '"') == [Remove(token, '"')];
    if st.Good() {
      GetLineAhead(st, ',', token);
    }
    assert RemoveEach(Ahead(st, ','), '"') == rest;
    Associative(tokens, [Remove(token, '"')], rest);
  }

  /** Joining the tokens of an unterminated line gives the line without its quotes. */
  lemma TokenizeJoin(line: string)
    requires line != [] && line[|line| - 1] != ','
    ensures Join(Tokenize(line), ',') == Remove(line, '"')
  {
    FieldsOfUnterminated(line, ',');
    RemoveJoin(Split(line, ','), ',', '"');
    JoinSplit(line, ',');
  }

  /**
   * A trailing comma adds no final empty token: the tokens are the full
   * split of the line without it. Empty tokens between commas are kept.
   */
  lemma TokenizeTerminated(line: string)
    ensures Tokenize(line + [',']) == RemoveEach(Split(line, ','), '"')
    ensures |Tokenize(line + [','])| == multiset(line)[','] + 1
  {
    FieldsOfTerminated(line, ',');
    SplitCount(line, ',');
  }

  /** An empty line has no tokens at all. */
  lemma TokenizeEmpty()
    ensures Tokenize("") == []
  {
  }

  /**
   * The key test `tokens[CITY] != city || tokens[STATE_ID] != state` can be
   * evaluated without reading past the end of the record: the CITY column
   * exists, and the STATE_ID column exists too unless the city already
   * differs, which short-circuits the second read.
   */
  predicate Comparable(tokens: seq<string>, city: string)
  {
    |tokens| > Column(City) && (tokens[Column(City)] != city || |tokens| > Column(StateId))
  }

  /** The record's CITY and STATE_ID columns equal the key, case included. */
  predicate Matches(tokens: seq<string>, city: string, state: string)
  {
    |tokens| > Column(StateId) && tokens[Column(City)] == city && tokens[Column(StateId)] == state
  }

  /**
   * What a lookup finds: the field of the first matching record, no match
   * at all, or a line too short for the columns it must read (the line's
   * index in the file).
   */
  datatype Lookup = Found(value: string) | NotFound | Malformed(line: nat)

  /** The tokens of every line of a file, in file order. */
  function Records(lines: seq<string>): (records: seq<seq<string>>)
    ensures |records| == |lines|
    ensures forall j :: 0 <= j < |lines| ==> records[j] == Tokenize(lines[j])
  {
    seq(|lines|, j requires 0 <= j < |lines| => Tokenize(lines[j]))
  }

  /**
   * The lookup scan over the records from index `from`: its outcome and the
   * cursor it leaves, just past the last line it read.
   */
  function Search(records: seq<seq<string>>, from: nat, city: string, state: string, field: Index): (r: (Lookup, nat))
    requires from <= |records|
    ensures from <= r.1 <= |records|
    decreases |records| - from
  {
    if from == |records| then (NotFound, from)
    else
      match Verdict(records[from], from, city, state, field)
      case None => Search(records, from + 1, city, state, field)
      case Some(l) => (l, from + 1)
  }

  /**
   * What the scan makes of the record on line `line`: None to go on to the
   * next line, or the outcome it stops with.
   */
  function Verdict(tokens: seq<string>, line: nat, city: string, state: string, field: Index): (v: Option<Lookup>)
    ensures v.None? <==> Comparable(tokens, city) && !Matches(tokens, city, state)
    ensures v.Some? && v.value.Malformed? ==> v.value.line == line
  {
    if |tokens| <= Column(City) then Some(Malformed(line))
    else if tokens[Column(City)] != city then None
    else if |tokens| <= Column(StateId) then Some(Malformed(line))
    else if tokens[Column(StateId)] != state then None
    else if |tokens| <= Column(field) then Some(Malformed(line))
    else Some(Found(tokens[Column(field)]))
  }

  /**
   * A record that can be compared with the key but does not match it is
   * skipped, whatever its length.
   */
  lemma SearchSkips(records: seq<seq<string>>, from: nat, city: string, state: string, field: Index)
    requires from < |records| && Comparable(records[from], city) && !Matches(records[from], city, state)
    ensures Search(records, from, city, state, field) == Search(records, from + 1, city, state, field)
  {
  }

  /**
   * A one-token line whose city differs is passed over, not a fault: the
   * STATE_ID column is never read there.
   */
  lemma SearchPastShortRecord()
    ensures Search([["Foo"], ["Seattle", "Seattle", "WA"]], 0, "Seattle", "WA", StateId) == (Found("WA"), 2)
  {
    assert Comparable(["Foo"], "Seattle");
  }

  /** The records from `from` to `to` can all be compared with the key and none matches. */
  ghost predicate NoMatchBetween(records: seq<seq<string>>, from: nat, to: nat, city: string, state: string)
    requires from <= to <= |records|
  {
    forall j :: from <= j < to ==> Comparable(records[j], city) && !Matches(records[j], city, state)
  }

  /**
   * A found value is the requested field of the first matching record, and
   * the cursor stops just past that record.
   */
  lemma {:induction false} SearchFound(records: seq<seq<string>>, from: nat, city: string, state: string, field: Index)
    requires from <= |records|
    ensures var r := Search(records, from, city, state, field);
      r.0.Found? ==>
        && from < r.1
        && Matches(records[r.1 - 1], city, state)
        && Column(field) < |records[r.1 - 1]|
        && r.0.value == records[r.1 - 1][Column(field)]
        && NoMatchBetween(records, from, r.1 - 1, city, state)
    decreases |records| - from
  {
    if from < |records| {
      SearchFound(records, from + 1, city, state, field);
    }
  }

  /** Conversely, the first matching record, if it has the column, is what is found. */
  lemma {:induction false} SearchFirstMatch(records: seq<seq<string>>, from: nat, m: nat, city: string, state: string, field: Index)
    requires from <= m < |records|
    requires NoMatchBetween(records, from, m, city, state)
    requires Matches(records[m], city, state)
    requires Column(field) < |records[m]|
    ensures Search(records, from, city, state, field) == (Found(records[m][Column(field)]), m + 1)
    decreases m - from
  {
    if from < m {
      SearchFirstMatch(records, from + 1, m, city, state, field);
    }
  }

  /**
   * Nothing is found exactly when no record matches and every record can be
   * compared with the key; the cursor is then at the end.
   */
  lemma {:induction false} SearchNotFound(records: seq<seq<string>>, from: nat, city: string, state: string, field: Index)
    requires from <= |records|
    ensures var r := Search(records, from, city, state, field);
      (r.0 == NotFound <==> NoMatchBetween(records, from, |records|, city, state))
      && (r.0 == NotFound ==> r.1 == |records|)
    decreases |records| - from
  {
    if from < |records| {
      SearchNotFound(records, from + 1, city, state, field);
    }
  }

  /**
   * A malformed record is the first one the scan could not read safely: an
   * empty record, a record with the key's city but no STATE_ID column, or
   * the match too short for the field.
   */
  lemma {:induction false} SearchMalformed(records: seq<seq<string>>, from: nat, city: string, state: string, field: Index)
    requires from <= |records|
    ensures var r := Search(records, from, city, state, field);
      r.0.Malformed? ==>
        && from <= r.0.line < |records|
        && r.1 == r.0.line + 1
        && NoMatchBetween(records, from, r.0.line, city, state)
        && (!Comparable(records[r.0.line], city) || (Matches(records[r.0.line], city, state) && |records[r.0.line]| <= Column(field)))
    decreases |records| - from
  {
    if from < |records| {
      SearchMalformed(records, from + 1, city, state, field);
    }
  }

  /** The first line holding data, after the header; 0 for an empty file. */
  function DataStart(lines: seq<string>): (start: nat)
    ensures start <= |lines|
    ensures start == 0 <==> lines == []
    ensures lines != [] ==> start == 1
  {
    if |lines| == 0 then 0 else 1
  }

  /** The value a caller sees: the field, or "" when nothing matched. */
  function FieldText(r: Lookup): (text: string)
    requires !r.Malformed?
    ensures r.NotFound? ==> text == ""
    ensures r.Found? ==> text == r.value
  {
    if r.Found? then r.value else ""
  }

  /**
   * The body of `get_field`'s loop for one record: the `||` of the key test
   * reads STATE_ID only when CITY matches, and a match returns its `field`
   * column. None means `continue`.
   */
  method CheckRecord(tokens: seq<string>, line: nat, city: string, state: string, field: Index) returns (verdict: Option<Lookup>)
    ensures verdict == Verdict(tokens, line, city, state, field)
  {
    if |tokens| <= Column(City) {
      return Some(Malformed(line));
    }
    if tokens[Column(City)] != city {
      return None;
    }
    if |tokens| <= Column(StateId) {
      return Some(Malformed(line));
    }
    if tokens[Column(StateId)] != state {
      return None;
    }
    if |tokens| <= Column(field) {
      return Some(Malformed(line));
    }
    return Some(Found(tokens[Column(field)]));
  }

  /** The database object: the file's lines and the one stream position over them. */
  class CitiesDB {
    const lines: seq<string>
    var pos: nat

    ghost predicate Valid()
      reads this
    {
      pos <= |lines|
    }

    /** Opening the file places the stream at its first line, the header. */
    constructor (lines: seq<string>)
      ensures Valid() && this.lines == lines && pos == 0
    {
      this.lines := lines;
      pos := 0;
    }

    /** `getline` on the file stream: the next line, if there is one. */
    method ReadLine() returns (ok: bool, line: string)
      requires Valid()
      modifies this
      ensures Valid()
      ensures ok <==> old(pos) < |lines|
      ensures ok ==> line == lines[old(pos)] && pos == old(pos) + 1
      ensures !ok ==> pos == old(pos)
    {
      if pos < |lines| {
        ok, line := true, lines[pos];
        pos := pos + 1;
      } else {
        ok, line := false, "";
      }
    }

    /** `reset`: rewind and consume the header line. */
    method Reset()
      requires Valid()
      modifies this
      ensures Valid() && pos == DataStart(lines)
    {
      pos := 0;
      var _, _ := ReadLine();
    }

    /**
     * `next_record`: the tokens of the next line and one line on, or false
     * with the caller's tokens left as they were.
     */
    method NextRecord(prior: seq<string>) returns (ok: bool, tokens: seq<string>)
      requires Valid()
      modifies this
      ensures Valid()
      ensures ok <==> old(pos) < |lines|
      ensures ok ==> tokens == Tokenize(lines[old(pos)]) && pos == old(pos) + 1
      ensures !ok ==> tokens == prior && pos == old(pos)
    {
      var line;
      ok, line := ReadLine();
      if ok {
        tokens := TokenizeCsvLine(line);
      } else {
        tokens := prior;
      }
    }

    /**
     * `get_field`: rewind, then scan for the first line whose CITY and
     * STATE_ID equal the key and return its `field` column. The result and
     * the cursor depend only on the file and the arguments, never on where
     * the cursor was before.
     */
    method GetField(city: string, state: string, field: Index) returns (r: Lookup)
      requires Valid()
      modifies this
      ensures Valid()
      ensures (r, pos) == Search(Records(lines), DataStart(lines), city, state, field)
      ensures r.Malformed? ==> pos == r.line + 1
    {
      Reset();
      ghost var records := Records(lines);
      ghost var goal := Search(records, pos, city, state, field);
      var ok, line := ReadLine();
      while ok
        invariant Valid()
        invariant ok ==> 1 <= pos && line == lines[pos - 1] && Search(records, pos - 1, city, state, field) == goal
        invariant !ok ==> pos == |lines| && Search(records, pos, city, state, field) == goal
        decreases |lines| - pos, ok
      {
        var tokens := TokenizeCsvLine(line);
        var verdict := CheckRecord(tokens, pos - 1, city, state, field);
        if verdict.Some? {
          return verdict.value;
        }
        ok, line := ReadLine();
      }
      return NotFound;
    }
  }
}
