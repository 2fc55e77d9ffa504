/**
 * Delimited text as the C++ standard library reads it: a string stream with
 * its eof and fail flags, `std::getline` with a delimiter, and `std::remove`
 * followed by `erase`. Beside them, the reference definitions used to state
 * what the programs compute: the full split of a string at every delimiter,
 * its inverse `Join`, and the split that a `while (getline(...))` loop sees.
 */
module Delimited {

  /** Index of the first `d` in `s`, or `|s|` when `s` has none. */
  function IndexOf(s: string, d: char): (k: nat)
    ensures k <= |s|
    ensures k < |s| ==> s[k] == d
    ensures forall i :: 0 <= i < k ==> s[i] != d
  {
    if s == [] then 0 else if s[0] == d then 0 else 1 + IndexOf(s[1..], d)
  }

  /** The three facts of IndexOf's contract pin its value down. */
  lemma IndexOfUnique(s: string, d: char, k: nat)
    requires k <= |s|
    requires k < |s| ==> s[k] == d
    requires forall i :: 0 <= i < k ==> s[i] != d
    ensures IndexOf(s, d) == k
  {
  }

  /**
   * The pieces of `s` between delimiters, empty pieces included: always one
   * more piece than `s` has delimiters.
   */
  function Split(s: string, d: char): (r: seq<string>)
    ensures |r| >= 1
    decreases |s|
  {
    var k := IndexOf(s, d);
    if k == |s| then [s] else [s[..k]] + Split(s[k + 1..], d)
  }

  /** The pieces joined back together with one `d` between neighbours. */
  function Join(parts: seq<string>, d: char): string
  {
    if |parts| == 0 then ""
    else if |parts| == 1 then parts[0]
    else parts[0] + [d] + Join(parts[1..], d)
  }

  /** No piece of a split contains the delimiter. */
  lemma {:induction false} SplitPiecesFree(s: string, d: char)
    ensures forall i :: 0 <= i < |Split(s, d)| ==> d !in Split(s, d)[i]
    decreases |s|
  {
    var k := IndexOf(s, d);
    if k < |s| {
      SplitPiecesFree(s[k + 1..], d);
      assert d !in s[..k];
    }
  }

  /** There is one piece more than there are delimiters. */
  lemma {:induction false} SplitCount(s: string, d: char)
    ensures |Split(s, d)| == multiset(s)[d] + 1
    decreases |s|
  {
    var k := IndexOf(s, d);
    if k == |s| {
      assert d !in s;
    } else {
      assert s == s[..k] + [d] + s[k + 1..];
      assert d !in s[..k];
      SplitCount(s[k + 1..], d);
    }
  }

  /** Joining the pieces gives back the string: Split loses nothing. */
  lemma {:induction false} JoinSplit(s: string, d: char)
    ensures Join(Split(s, d), d) == s
    decreases |s|
  {
    var k := IndexOf(s, d);
    if k < |s| {
      var parts, tail := Split(s, d), Split(s[k + 1..], d);
      assert parts == [s[..k]] + tail;
      assert parts[0] == s[..k] && parts[1..] == tail;
      assert Join(parts, d) == s[..k] + [d] + Join(tail, d);
      JoinSplit(s[k + 1..], d);
      assert s == s[..k] + [d] + s[k + 1..];
    }
  }

  /** Splitting a join of delimiter-free pieces gives back the pieces. */
  lemma {:induction false} SplitJoin(parts: seq<string>, d: char)
    requires |parts| >= 1
    requires forall i :: 0 <= i < |parts| ==> d !in parts[i]
    ensures Split(Join(parts, d), d) == parts
    decreases |parts|
  {
    if |parts| > 1 {
      var s := Join(parts, d);
      assert s == parts[0] + [d] + Join(parts[1..], d);
      IndexOfUnique(s, d, |parts[0]|);
      assert s[..|parts[0]|] == parts[0];
      assert s[|parts[0]| + 1..] == Join(parts[1..], d);
      SplitJoin(parts[1..], d);
    } else {
      IndexOfUnique(parts[0], d, |parts[0]|);
    }
  }

  /**
   * The pieces a `while (getline(stream, piece, d))` loop reads from `s`:
   * nothing from an empty string, and no final empty piece after a trailing
   * delimiter, because a read that reaches the end without extracting a
   * character fails.
   */
  function Fields(s: string, d: char): seq<string>
    decreases |s|
  {
    if s == [] then []
    else
      var k := IndexOf(s, d);
      [s[..k]] + (if k == |s| then [] else Fields(s[k + 1..], d))
  }

  /** No piece a getline loop reads contains the delimiter. */
  lemma {:induction false} FieldsPiecesFree(s: string, d: char)
    ensures forall i :: 0 <= i < |Fields(s, d)| ==> d !in Fields(s, d)[i]
    decreases |s|
  {
    if s != [] {
      var k := IndexOf(s, d);
      assert d !in s[..k];
      if k < |s| {
        FieldsPiecesFree(s[k + 1..], d);
      }
    }
  }

  /** Fields agrees with Split on a nonempty string without a trailing delimiter. */
  lemma {:induction false} FieldsOfUnterminated(s: string, d: char)
    requires s != [] && s[|s| - 1] != d
    ensures Fields(s, d) == Split(s, d)
    decreases |s|
  {
    var k := IndexOf(s, d);
    assert s[0..] == s;
    if k == |s| {
      FieldsWithoutDelimiter(s, 0, d);
      assert s[..k] == s;
    } else {
      FieldsAfterDelimiter(s, 0, k, d);
      var rest := s[k + 1..];
      assert |rest| > 0 && rest[|rest| - 1] == s[|s| - 1];
      FieldsOfUnterminated(rest, d);
    }
  }

  /** A trailing delimiter yields no final empty piece. */
  lemma {:induction false} FieldsOfTerminated(s: string, d: char)
    ensures Fields(s + [d], d) == Split(s, d)
    decreases |s|
  {
    var t := s + [d];
    var k := IndexOf(s, d);
    if k == |s| {
      IndexOfUnique(t, d, |s|);
      assert t[..|s|] == s;
      assert t[|s| + 1..] == [];
    } else {
      IndexOfUnique(t, d, k);
      assert t[..k] == s[..k];
      assert t[k + 1..] == s[k + 1..] + [d];
      FieldsOfTerminated(s[k + 1..], d);
    }
  }

  /** `s` with every `c` deleted: what `s.erase(std::remove(..., c), s.end())` leaves. */
  function Remove(s: string, c: char): (r: string)
    ensures forall x :: x in r <==> x in s && x != c
  {
    if s == [] then []
    else
      assert s == [s[0]] + s[1..];
      (if s[0] == c then [] else [s[0]]) + Remove(s[1..], c)
  }

  /** Remove deletes `c` and keeps every other character in its order. */
  lemma {:induction false} RemoveAppend(a: string, b: string, c: char)
    ensures Remove(a + b, c) == Remove(a, c) + Remove(b, c)
    decreases |a|
  {
    if a != [] {
      assert (a + b)[1..] == a[1..] + b;
      RemoveAppend(a[1..], b, c);
    } else {
      assert a + b == b;
    }
  }

  /** Removing `c` from each piece and joining is removing `c` from the join. */
  lemma {:induction false} RemoveJoin(parts: seq<string>, d: char, c: char)
    requires d != c
    ensures Join(RemoveEach(parts, c), d) == Remove(Join(parts, d), c)
    decreases |parts|
  {
    if |parts| > 1 {
      var q := RemoveEach(parts, c);
      assert q[1..] == RemoveEach(parts[1..], c);
      RemoveJoin(parts[1..], d, c);
      RemoveAppend(parts[0] + [d], Join(parts[1..], d), c);
      RemoveAppend(parts[0], [d], c);
      assert Remove([d], c) == [d] by {
        assert [d][1..] == [];
      }
    }
  }

  /** Each piece with every `c` deleted. */
  function RemoveEach(parts: seq<string>, c: char): seq<string>
  {
    seq(|parts|, i requires 0 <= i < |parts| => Remove(parts[i], c))
  }

  lemma RemoveEachAppend(a: seq<string>, b: seq<string>, c: char)
    ensures RemoveEach(a + b, c) == RemoveEach(a, c) + RemoveEach(b, c)
  {
  }

  /**
   * An in-memory `std::stringstream` opened for reading: the text, the read
   * position and the eof and fail flags.
   */
  datatype Stream = Stream(text: string, pos: nat, eof: bool, fail: bool)
  {
    predicate Good() { !eof && !fail }
  }

  /** A freshly constructed stream over `text`. */
  function Open(text: string): Stream
  {
    Stream(text, 0, false, false)
  }

  /**
   * `std::getline(st, str, d)`: returns the new stream and the new value of
   * `str`. On a stream that is not good nothing is read and only the fail
   * flag is added. Otherwise `str` is cleared and filled up to the next `d`,
   * which is consumed and not stored; reaching the end sets eof, and reaching
   * it without extracting anything also sets fail.
   */
  function GetLine(st: Stream, d: char, str: string): (r: (Stream, string))
    requires st.pos <= |st.text|
    ensures r.0.text == st.text && st.pos <= r.0.pos <= |r.0.text|
    ensures r.0.fail <==> st.fail || !st.Good() || st.pos == |st.text|
    ensures st.Good() && !r.0.fail ==> r.0.pos > st.pos
    ensures st.eof ==> r.0.eof
    ensures d !in r.1 || r.1 == str
  {
    if !st.Good() then (st.(fail := true), str)
    else if st.pos == |st.text| then (st.(eof := true, fail := true), "")
    else
      var j := st.pos + IndexOf(st.text[st.pos..], d);
      if j < |st.text| then (st.(pos := j + 1), st.text[st.pos..j])
      else (st.(pos := j, eof := true), st.text[st.pos..])
  }

  /** The pieces a getline loop still reads from `st`: nothing once it is not good. */
  function Ahead(st: Stream, d: char): seq<string>
    requires st.pos <= |st.text|
  {
    if st.Good() then Fields(st.text[st.pos..], d) else []
  }

  /** One successful getline takes the first of the pieces ahead. */
  lemma GetLineAhead(st: Stream, d: char, str: string)
    requires st.pos <= |st.text| && st.Good()
    ensures var r := GetLine(st, d, str);
      Ahead(st, d) == if r.0.fail then [] else [r.1] + Ahead(r.0, d)
  {
    if st.pos == |st.text| {
      assert st.text[st.pos..] == [];
    } else {
      var j := st.pos + IndexOf(st.text[st.pos..], d);
      if j < |st.text| {
        GetLineToDelimiter(st, d, str, j);
        AheadToDelimiter(st, d, j);
      } else {
        GetLineToEnd(st, d, str);
      }
    }
  }

  /** A getline that stops at a delimiter takes one piece and leaves the rest ahead. */
  lemma GetLineToDelimiter(st: Stream, d: char, str: string, j: nat)
    requires st.pos < |st.text| && st.Good()
    requires j == st.pos + IndexOf(st.text[st.pos..], d) < |st.text|
    ensures GetLine(st, d, str) == (st.(pos := j + 1), st.text[st.pos..j])
  {
  }

  /** The pieces ahead of a delimiter-ended piece are that piece and those after the delimiter. */
  lemma AheadToDelimiter(st: Stream, d: char, j: nat)
    requires st.pos < |st.text| && st.Good()
    requires j == st.pos + IndexOf(st.text[st.pos..], d) < |st.text|
    ensures Ahead(st, d) == [st.text[st.pos..j]] + Ahead(st.(pos := j + 1), d)
  {
    var next := st.(pos := j + 1);
    assert next.Good();
    FieldsAfterDelimiter(st.text, st.pos, j, d);
    assert Ahead(next, d) == Fields(st.text[j + 1..], d);
  }

  /** A getline that runs to the end takes the last piece and sets eof. */
  lemma GetLineToEnd(st: Stream, d: char, str: string)
    requires st.pos < |st.text| && st.Good()
    requires IndexOf(st.text[st.pos..], d) == |st.text| - st.pos
    ensures GetLine(st, d, str) == (st.(pos := |st.text|, eof := true), st.text[st.pos..])
    ensures Ahead(st, d) == [st.text[st.pos..]]
  {
    FieldsWithoutDelimiter(st.text, st.pos, d);
  }

  /** A piece that ends at a delimiter is followed by the pieces after it. */
  lemma FieldsAfterDelimiter(text: string, p: nat, j: nat, d: char)
    requires p <= j < |text| && j == p + IndexOf(text[p..], d)
    ensures Fields(text[p..], d) == [text[p..j]] + Fields(text[j + 1..], d)
  {
    var rest := text[p..];
    var k := j - p;
    calc {
      Fields(rest, d);
      [rest[..k]] + Fields(rest[k + 1..], d);
      { assert rest[..k] == text[p..j]; assert rest[k + 1..] == text[j + 1..]; }
      [text[p..j]] + Fields(text[j + 1..], d);
    }
  }

  /** A piece that runs to the end is the last one. */
  lemma FieldsWithoutDelimiter(text: string, p: nat, d: char)
    requires p < |text| && IndexOf(text[p..], d) == |text| - p
    ensures Fields(text[p..], d) == [text[p..]]
  {
    var rest := text[p..];
    assert rest[..|rest|] == rest;
  }

  /** The pieces of the full split that `st` has not yet read, while it is good. */
  function Remaining(st: Stream, d: char): seq<string>
    requires st.pos <= |st.text|
  {
    if st.Good() then Split(st.text[st.pos..], d) else []
  }

  /**
   * One getline on a good stream yields the next piece of the full split,
   * the empty last piece after a trailing delimiter included.
   */
  lemma GetLineRemaining(st: Stream, d: char, str: string)
    requires st.pos <= |st.text| && st.Good()
    ensures var r := GetLine(st, d, str);
      Remaining(st, d) == [r.1] + Remaining(r.0, d)
  {
    if st.pos == |st.text| {
      assert st.text[st.pos..] == [];
    } else {
      var j := st.pos + IndexOf(st.text[st.pos..], d);
      if j < |st.text| {
        GetLineToDelimiter(st, d, str, j);
        RemainingToDelimiter(st, d, j);
      } else {
        GetLineToEnd(st, d, str);
        SplitWithoutDelimiter(st.text, st.pos, d);
      }
    }
  }

  /** The rest of the split after a delimiter-ended piece is that piece and the split after the delimiter. */
  lemma RemainingToDelimiter(st: Stream, d: char, j: nat)
    requires st.pos < |st.text| && st.Good()
    requires j == st.pos + IndexOf(st.text[st.pos..], d) < |st.text|
    ensures Remaining(st, d) == [st.text[st.pos..j]] + Remaining(st.(pos := j + 1), d)
  {
    var next := st.(pos := j + 1);
    assert next.Good();
    SplitAfterDelimiter(st.text, st.pos, j, d);
    assert Remaining(next, d) == Split(st.text[j + 1..], d);
  }

  /** The split of a suffix whose first piece ends at a delimiter. */
  lemma SplitAfterDelimiter(text: string, p: nat, j: nat, d: char)
    requires p <= j < |text| && j == p + IndexOf(text[p..], d)
    ensures Split(text[p..], d) == [text[p..j]] + Split(text[j + 1..], d)
  {
    var rest := text[p..];
    var k := j - p;
    calc {
      Split(rest, d);
      [rest[..k]] + Split(rest[k + 1..], d);
      { assert rest[..k] == text[p..j]; assert rest[k + 1..] == text[j + 1..]; }
      [text[p..j]] + Split(text[j + 1..], d);
    }
  }

  /** The split of a suffix without a delimiter is that suffix alone. */
  lemma SplitWithoutDelimiter(text: string, p: nat, d: char)
    requires p < |text| && IndexOf(text[p..], d) == |text| - p
    ensures Split(text[p..], d) == [text[p..]]
  {
  }
}
