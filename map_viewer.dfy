/**
 * The map viewer: it parses a reference string naming three cities and
 * their matrix pixels, looks up each city's longitude and latitude in the
 * cities database, fits the affine map that takes those coordinates to
 * those pixels, and then draws every city of the database through it,
 * followed by the three reference pixels. Arithmetic is exact over `real`;
 * the conversions `stoi` and `atof` and the solver of the linear system are
 * parameters.
 */
module MapViewer {
  import opened Wrappers
  import opened Graphics
  import opened CitiesDb

  /** One reference correspondence: a city, its state and its matrix pixel. */
  datatype Reference = Reference(city: string, state: string, x: int, y: int)

  /** The values before parsing: empty names and targets 0. */
  const Unset: Reference := Reference("", "", 0, 0)

  /**
   * The outcome of the assignment chain over the reference tokens: all
   * twelve assignments done; a `stoi` that threw at assignment `at`, caught,
   * with the earlier assignments kept; or a token index `at` past the end
   * of the tokens, which the source reads unchecked.
   */
  datatype Parse = Parsed(refs: seq<Reference>) | Abandoned(refs: seq<Reference>, at: nat) | OutOfRange(at: nat)

  /** Assignments 2, 3, 6, 7, 10 and 11 convert their token with `stoi`. */
  predicate Numeric(j: nat)
  {
    j % 4 >= 2
  }

  /** Assignment `j` sets field `j % 4` (city, state, x, y) of reference `j / 4`. */
  function Assign(refs: seq<Reference>, j: nat, text: string, value: int): (r: seq<Reference>)
    requires |refs| == 3 && j < 12
    ensures |r| == 3
    ensures forall k :: 0 <= k < 3 && k != j / 4 ==> r[k] == refs[k]
    ensures r[j / 4].city == (if j % 4 == 0 then text else refs[j / 4].city)
    ensures r[j / 4].state == (if j % 4 == 1 then text else refs[j / 4].state)
    ensures r[j / 4].x == (if j % 4 == 2 then value else refs[j / 4].x)
    ensures r[j / 4].y == (if j % 4 == 3 then value else refs[j / 4].y)
  {
    var k := j / 4;
    var ref := refs[k];
    refs[k := if j % 4 == 0 then ref.(city := text)
              else if j % 4 == 1 then ref.(state := text)
              else if j % 4 == 2 then ref.(x := value)
              else ref.(y := value)]
  }

  /** The chain from assignment `j` on. */
  function ParseFrom(t: seq<string>, stoi: string -> Option<int>, j: nat, refs: seq<Reference>): (p: Parse)
    requires |refs| == 3 && j <= 12
    ensures !p.OutOfRange? ==> |p.refs| == 3
    decreases 12 - j
  {
    if j == 12 then Parsed(refs)
    else if j >= |t| then OutOfRange(j)
    else if Numeric(j) then
      match stoi(t[j])
      case None => Abandoned(refs, j)
      case Some(v) => ParseFrom(t, stoi, j + 1, Assign(refs, j, "", v))
    else ParseFrom(t, stoi, j + 1, Assign(refs, j, t[j], 0))
  }

  /** The whole chain, from the declared values. */
  function ParseReferences(t: seq<string>, stoi: string -> Option<int>): Parse
  {
    ParseFrom(t, stoi, 0, [Unset, Unset, Unset])
  }

  /** Assignment `j` can be made: its token exists and, if numeric, converts. */
  predicate Proceeds(t: seq<string>, stoi: string -> Option<int>, j: nat)
  {
    j < |t| && (Numeric(j) ==> stoi(t[j]).Some?)
  }

  /**
   * Reference definition of where the chain stops, from assignment `j` on:
   * the first assignment whose token is missing or whose conversion fails,
   * or 12 when there is none.
   */
  function StopAt(t: seq<string>, stoi: string -> Option<int>, j: nat): (n: nat)
    requires j <= 12
    ensures j <= n <= 12
    ensures forall i :: j <= i < n ==> Proceeds(t, stoi, i)
    ensures n < 12 ==> !Proceeds(t, stoi, n)
    decreases 12 - j
  {
    if j == 12 then 12
    else if !Proceeds(t, stoi, j) then j
    else StopAt(t, stoi, j + 1)
  }

  /** Token `j` once the first `n` assignments are done, "" before. */
  function TextAfter(t: seq<string>, n: nat, j: nat): string
  {
    if j < n && j < |t| then t[j] else ""
  }

  /** Token `j` converted once the first `n` assignments are done, 0 before. */
  function NumberAfter(t: seq<string>, stoi: string -> Option<int>, n: nat, j: nat): int
  {
    if j < n && j < |t| && stoi(t[j]).Some? then stoi(t[j]).value else 0
  }

  /** Reference `k` once the first `n` assignments are done. */
  function ReferenceAfter(t: seq<string>, stoi: string -> Option<int>, n: nat, k: nat): Reference
  {
    Reference(TextAfter(t, n, 4 * k), TextAfter(t, n, 4 * k + 1),
              NumberAfter(t, stoi, n, 4 * k + 2), NumberAfter(t, stoi, n, 4 * k + 3))
  }

  /** The three references once the first `n` assignments are done. */
  function AssignedBy(t: seq<string>, stoi: string -> Option<int>, n: nat): seq<Reference>
  {
    [ReferenceAfter(t, stoi, n, 0), ReferenceAfter(t, stoi, n, 1), ReferenceAfter(t, stoi, n, 2)]
  }

  /** The outcome of a chain that stops at `n`. */
  function StoppedAt(t: seq<string>, stoi: string -> Option<int>, n: nat): Parse
  {
    if n >= 12 then Parsed(AssignedBy(t, stoi, 12))
    else if n >= |t| then OutOfRange(n)
    else Abandoned(AssignedBy(t, stoi, n), n)
  }

  /** One assignment that goes through moves the closed form on by one. */
  lemma AssignStep(t: seq<string>, stoi: string -> Option<int>, j: nat)
    requires j < 12 && Proceeds(t, stoi, j)
    ensures Numeric(j) ==> Assign(AssignedBy(t, stoi, j), j, "", stoi(t[j]).value) == AssignedBy(t, stoi, j + 1)
    ensures !Numeric(j) ==> Assign(AssignedBy(t, stoi, j), j, t[j], 0) == AssignedBy(t, stoi, j + 1)
  {
    var k, f := j / 4, j % 4;
    assert j == 4 * k + f && 0 <= k < 3;
    forall q | 0 <= q < 3 && q != k
      ensures ReferenceAfter(t, stoi, j, q) == ReferenceAfter(t, stoi, j + 1, q)
    {
    }
  }

  /** The chain from `j`, started from the closed form at `j`, ends as the closed form says. */
  lemma {:induction false} ParseFromOutcome(t: seq<string>, stoi: string -> Option<int>, j: nat)
    requires j <= 12
    ensures ParseFrom(t, stoi, j, AssignedBy(t, stoi, j)) == StoppedAt(t, stoi, StopAt(t, stoi, j))
    decreases 12 - j
  {
    if j < 12 && Proceeds(t, stoi, j) {
      AssignStep(t, stoi, j);
      ParseFromOutcome(t, stoi, j + 1);
    }
  }

  /**
   * The chain's outcome: reference k takes token 4k as its city, 4k+1 as
   * its state and the conversions of 4k+2 and 4k+3 as its pixel, up to the
   * first assignment that cannot be made; every later field keeps its
   * declared value.
   */
  lemma ParseOutcome(t: seq<string>, stoi: string -> Option<int>)
    ensures ParseReferences(t, stoi) == StoppedAt(t, stoi, StopAt(t, stoi, 0))
  {
    assert AssignedBy(t, stoi, 0) == [Unset, Unset, Unset];
    ParseFromOutcome(t, stoi, 0);
  }

  /** Twelve tokens whose numbers all convert give the three references outright. */
  lemma ParseWellFormed(t: seq<string>, stoi: string -> Option<int>)
    requires |t| >= 12
    requires stoi(t[2]).Some? && stoi(t[3]).Some? && stoi(t[6]).Some?
    requires stoi(t[7]).Some? && stoi(t[10]).Some? && stoi(t[11]).Some?
    ensures ParseReferences(t, stoi) == Parsed([
      Reference(t[0], t[1], stoi(t[2]).value, stoi(t[3]).value),
      Reference(t[4], t[5], stoi(t[6]).value, stoi(t[7]).value),
      Reference(t[8], t[9], stoi(t[10]).value, stoi(t[11]).value)])
  {
    ParseOutcome(t, stoi);
    assert StopAt(t, stoi, 0) == 12;
  }

  /** Tokens after the twelfth are never read. */
  lemma {:induction false} ParseIgnoresExtraTokens(t: seq<string>, stoi: string -> Option<int>, j: nat, refs: seq<Reference>)
    requires |t| >= 12 && |refs| == 3 && j <= 12
    ensures ParseFrom(t, stoi, j, refs) == ParseFrom(t[..12], stoi, j, refs)
    decreases 12 - j
  {
    if j < 12 {
      assert t[..12][j] == t[j];
      if Numeric(j) {
        if stoi(t[j]).Some? {
          ParseIgnoresExtraTokens(t, stoi, j + 1, Assign(refs, j, "", stoi(t[j]).value));
        }
      } else {
        ParseIgnoresExtraTokens(t, stoi, j + 1, Assign(refs, j, t[j], 0));
      }
    }
  }

  /** A longitude and latitude pair. */
  datatype Point = Point(lng: real, lat: real)

  /** A column of six: the unknowns of the system and their solution. */
  type Vector6 = v: seq<real> | |v| == 6 witness [0.0, 0.0, 0.0, 0.0, 0.0, 0.0]

  function Dot(a: Vector6, b: Vector6): real
  {
    a[0] * b[0] + a[1] * b[1] + a[2] * b[2] + a[3] * b[3] + a[4] * b[4] + a[5] * b[5]
  }

  /** A matrix with six columns times a column of six. */
  function MatVec(m: seq<Vector6>, v: Vector6): (r: seq<real>)
    ensures |r| == |m|
  {
    seq(|m|, i requires 0 <= i < |m| => Dot(m[i], v))
  }

  /** The row of a point whose dot product with the solution is its matrix x. */
  function XRow(p: Point): Vector6
  {
    [p.lng, p.lat, 1.0, 0.0, 0.0, 0.0]
  }

  /** The row of a point whose dot product with the solution is its matrix y. */
  function YRow(p: Point): Vector6
  {
    [0.0, 0.0, 0.0, p.lng, p.lat, 1.0]
  }

  /** The 6x6 matrix A, two rows per reference point. */
  function SystemMatrix(pts: seq<Point>): (a: seq<Vector6>)
    requires |pts| == 3
    ensures |a| == 6
    ensures forall k :: 0 <= k < 3 ==> a[2 * k] == XRow(pts[k]) && a[2 * k + 1] == YRow(pts[k])
  {
    [XRow(pts[0]), YRow(pts[0]), XRow(pts[1]), YRow(pts[1]), XRow(pts[2]), YRow(pts[2])]
  }

  /** The right-hand side A_prime, the reference pixels in the same order. */
  function SystemTarget(refs: seq<Reference>): (b: seq<real>)
    requires |refs| == 3
    ensures |b| == 6
    ensures forall k :: 0 <= k < 3 ==> b[2 * k] == refs[k].x as real && b[2 * k + 1] == refs[k].y as real
  {
    [refs[0].x as real, refs[0].y as real, refs[1].x as real, refs[1].y as real,
     refs[2].x as real, refs[2].y as real]
  }

  /**
   * The plate carrée projection: the planar coordinates are the longitude
   * and the latitude themselves. Then B * trans with the 2x6 matrix B of
   * the planar point.
   */
  function Apply(trans: Vector6, p: Point): (real, real)
  {
    var planar := p;
    var b := MatVec([XRow(planar), YRow(planar)], trans);
    (b[0], b[1])
  }

  /** Applying the solution is the affine map it encodes. */
  lemma ApplyAffine(trans: Vector6, p: Point)
    ensures Apply(trans, p) == (trans[0] * p.lng + trans[1] * p.lat + trans[2],
                                trans[3] * p.lng + trans[4] * p.lat + trans[5])
  {
    var x, y := XRow(p), YRow(p);
    var b := MatVec([x, y], trans);
    assert x[0] == p.lng && x[1] == p.lat && x[2] == 1.0 && x[3] == x[4] == x[5] == 0.0;
    assert y[3] == p.lng && y[4] == p.lat && y[5] == 1.0 && y[0] == y[1] == y[2] == 0.0;
    assert b[0] == Dot(x, trans) == p.lng * trans[0] + p.lat * trans[1] + trans[2];
    assert b[1] == Dot(y, trans) == p.lng * trans[3] + p.lat * trans[4] + trans[5];
  }

  /**
   * Exactly: any solution of the system maps each reference point back to
   * its reference pixel.
   */
  lemma FitReproducesReferences(pts: seq<Point>, refs: seq<Reference>, trans: Vector6, k: nat)
    requires |pts| == 3 && |refs| == 3 && k < 3
    requires MatVec(SystemMatrix(pts), trans) == SystemTarget(refs)
    ensures Apply(trans, pts[k]) == (refs[k].x as real, refs[k].y as real)
  {
    var a, b := SystemMatrix(pts), SystemTarget(refs);
    assert MatVec(a, trans)[2 * k] == Dot(XRow(pts[k]), trans) == b[2 * k];
    assert MatVec(a, trans)[2 * k + 1] == Dot(YRow(pts[k]), trans) == b[2 * k + 1];
  }

  /** `int(f)`: the conversion to an integer discards the fraction, toward zero. */
  function Trunc(r: real): (n: int)
    ensures 0.0 <= r ==> 0 <= n && n as real <= r < n as real + 1.0
    ensures r < 0.0 ==> n <= 0 && n as real - 1.0 < r <= n as real
  {
    if r >= 0.0 then r.Floor else -((-r).Floor)
  }

  /** Truncation differs from the floor below zero and from rounding above it. */
  lemma TruncIsNotFloorOrRound()
    ensures Trunc(-0.5) == 0 && (-0.5).Floor == -1
    ensures Trunc(-2.5) == -2 && (-2.5).Floor == -3
    ensures Trunc(0.75) == 0
  {
    assert Trunc(-0.5) == 0;
    assert Trunc(-2.5) == -2;
  }

  /** An integral value is its own truncation. */
  lemma TruncIntegral(n: int)
    ensures Trunc(n as real) == n
  {
  }

  /** All cities are drawn in the background colour, COLOR_BLUE. */
  const BgColor: Color := MaterialBlue

  /** The reference cities are drawn in the foreground colour, COLOR_RED. */
  const FgColor: Color := MaterialRed

  /**
   * The pixel one record gives: its LNG and LAT columns through `atof` and
   * the affine map, truncated; None when the record has no LNG column, which
   * the source reads unchecked.
   */
  function CityPixel(tokens: seq<string>, trans: Vector6, atof: string -> real): Option<Pixel>
  {
    if |tokens| <= Column(Lng) then None
    else
      var p := Point(atof(tokens[Column(Lng)]), atof(tokens[Column(Lat)]));
      var (x, y) := Apply(trans, p);
      Some(Pixel(Trunc(x), Trunc(y), BgColor))
  }

  /** `f` moved `n` records on. */
  function Later(f: Option<nat>, n: nat): Option<nat>
  {
    if f.Some? then Some(f.value + n) else None
  }

  /**
   * The drawing loop over the data records: the pixels written, and the
   * offset of the record without an LNG column that stops it, if any.
   */
  function Drawing(records: seq<seq<string>>, trans: Vector6, atof: string -> real): (seq<Pixel>, Option<nat>)
    decreases |records|
  {
    if records == [] then ([], None)
    else
      match CityPixel(records[0], trans, atof)
      case None => ([], Some(0))
      case Some(p) =>
        var rest := Drawing(records[1..], trans, atof);
        ([p] + rest.0, Later(rest.1, 1))
  }

  /**
   * One background pixel per record, in file order, each computed from its
   * own record; the loop stops only at a record without an LNG column.
   */
  lemma {:induction false} DrawingPixels(records: seq<seq<string>>, trans: Vector6, atof: string -> real)
    ensures var (pixels, short) := Drawing(records, trans, atof);
      && |pixels| <= |records|
      && (forall i :: 0 <= i < |pixels| ==> CityPixel(records[i], trans, atof) == Some(pixels[i]))
      && (forall i :: 0 <= i < |pixels| ==> pixels[i].color == BgColor)
      && (short.None? <==> |pixels| == |records|)
      && (short.Some? ==> short.value == |pixels| && CityPixel(records[|pixels|], trans, atof).None?)
    decreases |records|
  {
    if records != [] && CityPixel(records[0], trans, atof).Some? {
      DrawingPixels(records[1..], trans, atof);
    }
  }

  /** Drawing after some pixels are already written. */
  function Continue(pixels: seq<Pixel>, rest: (seq<Pixel>, Option<nat>)): (seq<Pixel>, Option<nat>)
  {
    (pixels + rest.0, Later(rest.1, |pixels|))
  }

  /** A record without an LNG column stops the drawing loop there. */
  lemma DrawingStops(records: seq<seq<string>>, i: nat, trans: Vector6, atof: string -> real, pixels: seq<Pixel>)
    requires i < |records| && CityPixel(records[i], trans, atof).None?
    ensures Continue(pixels, Drawing(records[i..], trans, atof)) == (pixels, Some(|pixels|))
  {
    assert records[i..][0] == records[i];
    assert pixels + [] == pixels;
  }

  /** A record with an LNG column adds its pixel and the loop goes on. */
  lemma DrawingGoesOn(records: seq<seq<string>>, i: nat, trans: Vector6, atof: string -> real, pixels: seq<Pixel>, p: Pixel)
    requires i < |records| && CityPixel(records[i], trans, atof) == Some(p)
    ensures Continue(pixels, Drawing(records[i..], trans, atof)) == Continue(pixels + [p], Drawing(records[i + 1..], trans, atof))
  {
    var rest := records[i..];
    assert rest[0] == records[i] && rest[1..] == records[i + 1..];
    var later := Drawing(records[i + 1..], trans, atof);
    assert (pixels + [p]) + later.0 == pixels + ([p] + later.0);
  }

  /**
   * `reset`, then one pixel per record that `next_record` yields; a record
   * without an LNG column stops the loop, with its offset among the data
   * records.
   */
  method DrawCities(db: CitiesDB, trans: Vector6, atof: string -> real) returns (pixels: seq<Pixel>, short: Option<nat>)
    requires db.Valid()
    modifies db
    ensures db.Valid()
    ensures (pixels, short) == Drawing(Records(db.lines)[DataStart(db.lines)..], trans, atof)
    ensures short.None? ==> db.pos == |db.lines|
    ensures short.Some? ==> db.pos == DataStart(db.lines) + short.value + 1
  {
    db.Reset();
    ghost var records := Records(db.lines);
    ghost var start := db.pos;
    ghost var goal := Drawing(records[start..], trans, atof);
    ghost var k := start;
    pixels, short := [], None;
    assert [] + goal.0 == goal.0;
    var ok, tokens := db.NextRecord([]);
    while ok
      invariant db.Valid() && k == start + |pixels| && k <= |records|
      invariant ok ==> db.pos == k + 1 && tokens == records[k]
      invariant !ok ==> db.pos == k == |records|
      invariant short.None?
      invariant goal == Continue(pixels, Drawing(records[k..], trans, atof))
      decreases |db.lines| - db.pos, ok
    {
      if |tokens| <= Column(Lng) {
        DrawingStops(records, k, trans, atof, pixels);
        short := Some(|pixels|);
        return;
      }
      var lng := atof(tokens[Column(Lng)]);
      var lat := atof(tokens[Column(Lat)]);
      var b := Apply(trans, Point(lng, lat));
      var pixel := Pixel(Trunc(b.0), Trunc(b.1), BgColor);
      assert CityPixel(records[k], trans, atof) == Some(pixel);
      DrawingGoesOn(records, k, trans, atof, pixels, pixel);
      pixels, k := pixels + [pixel], k + 1;
      ok, tokens := db.NextRecord(tokens);
    }
    assert records[k..] == [];
    assert pixels + [] == pixels;
  }

  /** The six lookups `main` makes, in its order: LNG then LAT of each reference. */
  function Lookups(records: seq<seq<string>>, start: nat, refs: seq<Reference>): (ls: seq<Lookup>)
    requires |refs| == 3 && start <= |records|
    ensures |ls| == 6
    ensures forall k :: 0 <= k < 3 ==>
      && ls[2 * k] == Search(records, start, refs[k].city, refs[k].state, Lng).0
      && ls[2 * k + 1] == Search(records, start, refs[k].city, refs[k].state, Lat).0
  {
    [Search(records, start, refs[0].city, refs[0].state, Lng).0,
     Search(records, start, refs[0].city, refs[0].state, Lat).0,
     Search(records, start, refs[1].city, refs[1].state, Lng).0,
     Search(records, start, refs[1].city, refs[1].state, Lat).0,
     Search(records, start, refs[2].city, refs[2].state, Lng).0,
     Search(records, start, refs[2].city, refs[2].state, Lat).0]
  }

  /** The line of the first malformed lookup of the six, if any. */
  function FirstMalformed(ls: seq<Lookup>): (l: Option<nat>)
    requires |ls| == 6
    ensures l.None? <==> forall i :: 0 <= i < 6 ==> !ls[i].Malformed?
    ensures l.Some? ==> exists i :: 0 <= i < 6 && ls[i] == Malformed(l.value) && forall h :: 0 <= h < i ==> !ls[h].Malformed?
  {
    if ls[0].Malformed? then Some(ls[0].line)
    else if ls[1].Malformed? then Some(ls[1].line)
    else if ls[2].Malformed? then Some(ls[2].line)
    else if ls[3].Malformed? then Some(ls[3].line)
    else if ls[4].Malformed? then Some(ls[4].line)
    else if ls[5].Malformed? then Some(ls[5].line)
    else None
  }

  /** The reference points: `atof` of each lookup's text, "" when the city is missing. */
  function Points(ls: seq<Lookup>, atof: string -> real): (pts: seq<Point>)
    requires |ls| == 6 && forall i :: 0 <= i < 6 ==> !ls[i].Malformed?
    ensures |pts| == 3
    ensures forall k :: 0 <= k < 3 ==> pts[k] == Point(atof(FieldText(ls[2 * k])), atof(FieldText(ls[2 * k + 1])))
  {
    [Point(atof(FieldText(ls[0])), atof(FieldText(ls[1]))),
     Point(atof(FieldText(ls[2])), atof(FieldText(ls[3]))),
     Point(atof(FieldText(ls[4])), atof(FieldText(ls[5])))]
  }

  /** The three reference pixels, in the foreground colour. */
  function Markers(refs: seq<Reference>): (ps: seq<Pixel>)
    requires |refs| == 3
    ensures |ps| == 3
    ensures forall k :: 0 <= k < 3 ==> ps[k] == Pixel(refs[k].x, refs[k].y, FgColor)
  {
    [Pixel(refs[0].x, refs[0].y, FgColor), Pixel(refs[1].x, refs[1].y, FgColor), Pixel(refs[2].x, refs[2].y, FgColor)]
  }

  /**
   * Why a run stops early: a reference token missing, a lookup reading past
   * the end of a line, or a data record without an LNG column.
   */
  datatype Fault = TokenMissing(index: nat) | FieldMissing(line: nat) | RecordTooShort(line: nat)

  /** The pixels a run writes, in order, and the fault that stopped it, if any. */
  datatype Run = Run(pixels: seq<Pixel>, fault: Option<Fault>)

  /** The solution the solver returns for the system of the references. */
  function Fit(refs: seq<Reference>, ls: seq<Lookup>, atof: string -> real, solve: (seq<Vector6>, seq<real>) -> Vector6): Vector6
    requires |refs| == 3 && |ls| == 6 && forall i :: 0 <= i < 6 ==> !ls[i].Malformed?
  {
    solve(SystemMatrix(Points(ls, atof)), SystemTarget(refs))
  }

  /**
   * What the drawing stage writes over the records from `start` (the data
   * records) with the fitted solution `trans`.
   */
  function Drawn(records: seq<seq<string>>, start: nat, refs: seq<Reference>, trans: Vector6, atof: string -> real): Run
    requires start <= |records| && |refs| == 3
  {
    var drawn := Drawing(records[start..], trans, atof);
    if drawn.1.Some? then Run(drawn.0, Some(RecordTooShort(start + drawn.1.value)))
    else Run(drawn.0 + Markers(refs), None)
  }

  /** What a run writes from the lookups on: it stops at a malformed lookup. */
  function Located(records: seq<seq<string>>, start: nat, refs: seq<Reference>, atof: string -> real,
                   solve: (seq<Vector6>, seq<real>) -> Vector6): Run
    requires start <= |records| && |refs| == 3
  {
    var ls := Lookups(records, start, refs);
    match FirstMalformed(ls)
    case Some(l) => Run([], Some(FieldMissing(l)))
    case None => Drawn(records, start, refs, Fit(refs, ls, atof, solve), atof)
  }

  /**
   * What a run of the viewer writes over a file whose records are
   * `records` and whose data records start at `start`.
   */
  function Viewing(records: seq<seq<string>>, start: nat, refString: string, stoi: string -> Option<int>,
                   atof: string -> real, solve: (seq<Vector6>, seq<real>) -> Vector6): Run
    requires start <= |records|
  {
    var parse := ParseReferences(Tokenize(refString), stoi);
    if parse.OutOfRange? then Run([], Some(TokenMissing(parse.at)))
    else Located(records, start, parse.refs, atof, solve)
  }

  /**
   * The LNG and the LAT lookup of one reference; after a malformed LNG
   * lookup the LAT one is not made, and `lat` repeats the fault.
   */
  method LookUpReference(db: CitiesDB, ref: Reference) returns (lng: Lookup, lat: Lookup)
    requires db.Valid()
    modifies db
    ensures db.Valid()
    ensures lng == Search(Records(db.lines), DataStart(db.lines), ref.city, ref.state, Lng).0
    ensures !lng.Malformed? ==> lat == Search(Records(db.lines), DataStart(db.lines), ref.city, ref.state, Lat).0
    ensures lng.Malformed? ==> lat == lng
    ensures lat.Malformed? ==> db.pos == lat.line + 1
    ensures !lat.Malformed? ==> db.pos == Search(Records(db.lines), DataStart(db.lines), ref.city, ref.state, Lat).1
  {
    lng := db.GetField(ref.city, ref.state, Lng);
    if lng.Malformed? {
      return lng, lng;
    }
    lat := db.GetField(ref.city, ref.state, Lat);
  }

  /**
   * The six `get_field` calls of `main`, in its order; a malformed lookup
   * stops them, and its line is returned.
   */
  method LookUpReferences(db: CitiesDB, refs: seq<Reference>) returns (ls: seq<Lookup>, fault: Option<nat>)
    requires db.Valid() && |refs| == 3
    modifies db
    ensures db.Valid()
    ensures fault == FirstMalformed(Lookups(Records(db.lines), DataStart(db.lines), refs))
    ensures fault.None? ==> ls == Lookups(Records(db.lines), DataStart(db.lines), refs)
    ensures fault.Some? ==> db.pos == fault.value + 1
    ensures fault.None? ==> db.pos == Search(Records(db.lines), DataStart(db.lines), refs[2].city, refs[2].state, Lat).1
  {
    ghost var all := Lookups(Records(db.lines), DataStart(db.lines), refs);
    ls := [];
    var lng1, lat1 := LookUpReference(db, refs[0]);
    if lng1.Malformed? || lat1.Malformed? {
      return ls, Some(lat1.line);
    }
    var lng2, lat2 := LookUpReference(db, refs[1]);
    if lng2.Malformed? || lat2.Malformed? {
      return ls, Some(lat2.line);
    }
    var lng3, lat3 := LookUpReference(db, refs[2]);
    if lng3.Malformed? || lat3.Malformed? {
      return ls, Some(lat3.line);
    }
    ls := [lng1, lat1, lng2, lat2, lng3, lat3];
    fault := None;
  }

  /** `main` after the matrix is created and the options are read. */
  method ViewMap(db: CitiesDB, refString: string, stoi: string -> Option<int>, atof: string -> real,
                 solve: (seq<Vector6>, seq<real>) -> Vector6) returns (run: Run)
    requires db.Valid()
    modifies db
    ensures db.Valid()
    ensures run == Viewing(Records(db.lines), DataStart(db.lines), refString, stoi, atof, solve)
    ensures run.fault.None? ==> db.pos == |db.lines|
    ensures run.fault.Some? && !run.fault.value.TokenMissing? ==> db.pos == run.fault.value.line + 1
    ensures run.fault.Some? && run.fault.value.TokenMissing? ==> db.pos == old(db.pos)
  {
    var refTokens := TokenizeCsvLine(refString);
    var parse := ParseReferences(refTokens, stoi);
    if parse.OutOfRange? {
      return Run([], Some(TokenMissing(parse.at)));
    }
    run := LocateAndDraw(db, parse.refs, atof, solve);
  }

  /** The six lookups, then the fit and the drawing; a malformed lookup ends the run. */
  method LocateAndDraw(db: CitiesDB, refs: seq<Reference>, atof: string -> real,
                       solve: (seq<Vector6>, seq<real>) -> Vector6) returns (run: Run)
    requires db.Valid() && |refs| == 3
    modifies db
    ensures db.Valid()
    ensures run == Located(Records(db.lines), DataStart(db.lines), refs, atof, solve)
    ensures run.fault.None? ==> db.pos == |db.lines|
    ensures run.fault.Some? ==> !run.fault.value.TokenMissing? && db.pos == run.fault.value.line + 1
  {
    var ls, fault := LookUpReferences(db, refs);
    if fault.Some? {
      return Run([], Some(FieldMissing(fault.value)));
    }
    run := FitAndDraw(db, refs, ls, atof, solve);
  }

  /** The affine fit through the three reference points, then the city pixels and the markers. */
  method FitAndDraw(db: CitiesDB, refs: seq<Reference>, ls: seq<Lookup>, atof: string -> real,
                    solve: (seq<Vector6>, seq<real>) -> Vector6) returns (run: Run)
    requires db.Valid() && |refs| == 3 && |ls| == 6
    requires FirstMalformed(ls).None?
    modifies db
    ensures db.Valid()
    ensures run == Drawn(Records(db.lines), DataStart(db.lines), refs, Fit(refs, ls, atof, solve), atof)
    ensures run.fault.None? ==> db.pos == |db.lines|
    ensures run.fault.Some? ==> run.fault.value.RecordTooShort? && db.pos == run.fault.value.line + 1
  {
    var lng1, lat1 := atof(FieldText(ls[0])), atof(FieldText(ls[1]));
    var lng2, lat2 := atof(FieldText(ls[2])), atof(FieldText(ls[3]));
    var lng3, lat3 := atof(FieldText(ls[4])), atof(FieldText(ls[5]));
    var points := [Point(lng1, lat1), Point(lng2, lat2), Point(lng3, lat3)];
    var trans := solve(SystemMatrix(points), SystemTarget(refs));
    assert trans == Fit(refs, ls, atof, solve);
    run := DrawAndMark(db, refs, trans, atof);
  }

  /** The city pixels through `trans`, then the three markers; a short record ends the run. */
  method DrawAndMark(db: CitiesDB, refs: seq<Reference>, trans: Vector6, atof: string -> real) returns (run: Run)
    requires db.Valid() && |refs| == 3
    modifies db
    ensures db.Valid()
    ensures run == Drawn(Records(db.lines), DataStart(db.lines), refs, trans, atof)
    ensures run.fault.None? ==> db.pos == |db.lines|
    ensures run.fault.Some? ==> run.fault.value.RecordTooShort? && db.pos == run.fault.value.line + 1
  {
    var pixels, short := DrawCities(db, trans, atof);
    ghost var start := DataStart(db.lines);
    assert Drawn(Records(db.lines), start, refs, trans, atof)
        == if short.Some? then Run(pixels, Some(RecordTooShort(start + short.value)))
           else Run(pixels + Markers(refs), None);
    if short.Some? {
      return Run(pixels, Some(RecordTooShort(DataStart(db.lines) + short.value)));
    }
    run := Run(pixels + Markers(refs), None);
  }

  /**
   * The drawing stage writes one background pixel per data record, in file
   * order, each computed from its own record, and then the three reference
   * pixels in the foreground colour; it stops early only at a data record
   * without an LNG column.
   */
  lemma DrawnPixels(records: seq<seq<string>>, start: nat, refs: seq<Reference>, trans: Vector6, atof: string -> real)
    requires start <= |records| && |refs| == 3
    ensures var run := Drawn(records, start, refs, trans, atof);
      var data := records[start..];
      && (run.fault.None? <==> forall i :: 0 <= i < |data| ==> CityPixel(data[i], trans, atof).Some?)
      && (run.fault.None? ==> |run.pixels| == |data| + 3 && run.pixels[|data|..] == Markers(refs))
      && (run.fault.Some? ==>
            && |run.pixels| < |data|
            && run.fault == Some(RecordTooShort(start + |run.pixels|))
            && CityPixel(data[|run.pixels|], trans, atof).None?)
      && (forall i :: 0 <= i < |run.pixels| && i < |data| ==>
            && run.pixels[i].color == BgColor
            && CityPixel(data[i], trans, atof) == Some(run.pixels[i]))
  {
    var data := records[start..];
    DrawingPixels(data, trans, atof);
    var drawn := Drawing(data, trans, atof);
    if drawn.1.None? {
      var pixels := drawn.0 + Markers(refs);
      assert pixels[|data|..] == Markers(refs);
      assert forall i :: 0 <= i < |data| ==> pixels[i] == drawn.0[i];
    }
  }

  /** Past the parse and the lookups, a run is its drawing stage with the fitted solution. */
  lemma ViewingDraws(records: seq<seq<string>>, start: nat, refString: string, stoi: string -> Option<int>,
                     atof: string -> real, solve: (seq<Vector6>, seq<real>) -> Vector6, refs: seq<Reference>)
    requires start <= |records|
    requires !ParseReferences(Tokenize(refString), stoi).OutOfRange?
    requires refs == ParseReferences(Tokenize(refString), stoi).refs
    requires FirstMalformed(Lookups(records, start, refs)).None?
    ensures Viewing(records, start, refString, stoi, atof, solve)
         == Drawn(records, start, refs, Fit(refs, Lookups(records, start, refs), atof, solve), atof)
  {
  }

  /**
   * A reference city that is found has its point taken from the first
   * record that matches it, which has both coordinate columns.
   */
  lemma ReferencePoint(records: seq<seq<string>>, start: nat, refs: seq<Reference>, atof: string -> real, k: nat)
    requires start <= |records| && |refs| == 3 && k < 3
    requires FirstMalformed(Lookups(records, start, refs)).None?
    requires Lookups(records, start, refs)[2 * k].Found?
    ensures var m := Search(records, start, refs[k].city, refs[k].state, Lng).1 - 1;
      && start <= m < |records|
      && Matches(records[m], refs[k].city, refs[k].state)
      && NoMatchBetween(records, start, m, refs[k].city, refs[k].state)
      && Column(Lng) < |records[m]|
      && Points(Lookups(records, start, refs), atof)[k] == Point(atof(records[m][Column(Lng)]), atof(records[m][Column(Lat)]))
  {
    var city, state := refs[k].city, refs[k].state;
    SearchFound(records, start, city, state, Lng);
    var m := Search(records, start, city, state, Lng).1 - 1;
    SearchFirstMatch(records, start, m, city, state, Lat);
  }

  /** A record whose point the solution maps to an integral pixel is drawn at that pixel. */
  lemma CityPixelAt(tokens: seq<string>, trans: Vector6, atof: string -> real, x: int, y: int)
    requires Column(Lng) < |tokens|
    requires Apply(trans, Point(atof(tokens[Column(Lng)]), atof(tokens[Column(Lat)]))) == (x as real, y as real)
    ensures CityPixel(tokens, trans, atof) == Some(Pixel(x, y, BgColor))
  {
    TruncIntegral(x);
    TruncIntegral(y);
  }

  /**
   * With a solution of the system, the record each reference city was
   * found in is drawn exactly at that reference's pixel: the fit
   * reproduces the three references.
   */
  lemma ReferenceLandsOnTarget(records: seq<seq<string>>, start: nat, refs: seq<Reference>, atof: string -> real,
                               trans: Vector6, k: nat)
    requires start <= |records| && |refs| == 3 && k < 3
    requires FirstMalformed(Lookups(records, start, refs)).None?
    requires MatVec(SystemMatrix(Points(Lookups(records, start, refs), atof)), trans) == SystemTarget(refs)
    requires Drawn(records, start, refs, trans, atof).fault.None?
    requires Lookups(records, start, refs)[2 * k].Found?
    ensures var m := Search(records, start, refs[k].city, refs[k].state, Lng).1 - 1;
      var pixels := Drawn(records, start, refs, trans, atof).pixels;
      && start <= m < |records|
      && Matches(records[m], refs[k].city, refs[k].state)
      && m - start < |pixels|
      && pixels[m - start] == Pixel(refs[k].x, refs[k].y, BgColor)
  {
    var pts := Points(Lookups(records, start, refs), atof);
    ReferencePoint(records, start, refs, atof, k);
    var m := Search(records, start, refs[k].city, refs[k].state, Lng).1 - 1;
    FitReproducesReferences(pts, refs, trans, k);
    CityPixelAt(records[m], trans, atof, refs[k].x, refs[k].y);
    assert records[start..][m - start] == records[m];
    DrawnPixels(records, start, refs, trans, atof);
  }
}
