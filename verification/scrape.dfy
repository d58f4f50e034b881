/** The legacy scraper: walks the year-indexed competition listing from a starting year up to
    the current year, writes one results file per competition, and keeps a resumption cursor
    (last year, last competition id) that it rewrites after every unit of work.

    The remote API is a value (`Api`), the files the scraper writes and the requests it issues
    are logs that only grow, and the current year is a parameter. */
module Scrape {
  import opened Wrappers
  import opened Text

  const MIN_YEAR := 2014

  datatype ScrapeType = Incremental | Single | Full

  /** The resumption cursor: the last year fully processed and the last competition written. */
  datatype Cursor = Cursor(year: int, wetId: int)

  const DEFAULT_CURSOR := Cursor(0, 0)

  /** A JSON value that the row builder passes to `str()`. */
  datatype Scalar = SStr(s: string) | SInt(i: int) | SNull

  /** Python's `str()` of such a value: a string is itself, an integer prints in decimal. */
  function Show(v: Scalar): string {
    match v
    case SStr(s) => s
    case SInt(i) => IntToString(i)
    case SNull => "None"
  }

  /** An integer shown reads back as itself. */
  lemma ShowIntRoundTrip(i: int)
    ensures ParseInt(Show(SInt(i))) == Some(i)
  {
    IntToStringRoundTrip(i);
  }

  datatype Athlete = Athlete(rank: Scalar, lastname: Scalar, firstname: Scalar, birthyear: Scalar, nation: Scalar)

  datatype Category = Category(name: Scalar, grpId: Scalar, rkey: Scalar, results: seq<Athlete>)

  /** A competition-detail response with status 200. `date` is the printed form of the parsed
      date, or None when the date does not parse. */
  datatype Competition = Competition(name: Scalar, date: Option<string>, categories: seq<Category>)

  /** One entry of a year's competition listing. */
  datatype Listing = Listing(wetId: int, hostNation: Option<Scalar>)

  /** The remote API: the years whose listing request succeeds, and the competitions whose detail
      request answers 200. Any other year or competition fails. */
  datatype Api = Api(years: map<int, seq<Listing>>, comps: map<int, Competition>)

  /** A normalised results row: one stripped string per column, in `ROW_KEYS` order. */
  type Row = seq<string>

  datatype Write = ResultsFile(name: string, rows: seq<Row>) | CursorFile(cursor: Cursor)

  datatype Request = YearIndex(year: int) | CompDetail(compId: int)

  datatype ScrapeError =
    | YearIndexFailed(year: int)   // raise_for_status on the year listing
    | BadDate(compId: int)         // the date parser raised
    | NoResults(compId: int)       // IndexError on results[0]
    | MissingCompId                // SINGLE mode without an id

  datatype Outcome = Done | Failed(error: ScrapeError)

  /** Everything a run can change: the cursor, the files written, the requests issued. */
  datatype State = State(cursor: Cursor, writes: seq<Write>, requests: seq<Request>)

  datatype Progress = Progress(outcome: Outcome, state: State)

  // ---------------------------------------------------------------- rows

  const ROW_KEYS: seq<string> := ["comp_id", "comp_name", "location", "date", "cat", "cat_id",
                                  "cat_key", "rank", "lastname", "firstname", "birthyear", "nationality"]

  /** What every row of one competition shares. */
  datatype CompContext = CompContext(compId: int, name: Scalar, date: string, host: Option<Scalar>)

  /** `str(v).strip()`. */
  function Cell(v: Scalar): (r: string)
    ensures IsStripped(r)
  {
    Strip(Show(v))
  }

  /** The row dictionary before normalisation, as its values in `ROW_KEYS` order; the
      location falls back to "UNKNOWN". */
  function RawValues(ctx: CompContext, c: Category, a: Athlete): (vs: seq<Scalar>)
    ensures |vs| == |ROW_KEYS|
  {
    [SInt(ctx.compId), ctx.name, ctx.host.GetOr(SStr("UNKNOWN")), SStr(ctx.date), c.name, c.grpId, c.rkey,
     a.rank, a.lastname, a.firstname, a.birthyear, a.nation]
  }

  /** `{k: str(v).strip() for k, v in result.items()}`, value by value. */
  function Normalise(vs: seq<Scalar>): (r: seq<string>)
    ensures |r| == |vs|
  {
    if vs == [] then [] else Normalise(vs[..|vs| - 1]) + [Cell(vs[|vs| - 1])]
  }

  lemma {:induction false} NormaliseAt(vs: seq<Scalar>, i: nat)
    requires i < |vs|
    ensures Normalise(vs)[i] == Cell(vs[i])
  {
    if i < |vs| - 1 {
      NormaliseAt(vs[..|vs| - 1], i);
    }
  }

  /** One athlete's row. */
  function MakeRow(ctx: CompContext, c: Category, a: Athlete): (row: Row)
    ensures |row| == |ROW_KEYS|
  {
    Normalise(RawValues(ctx, c, a))
  }

  /** Every value written is stripped of surrounding whitespace. */
  lemma MakeRowStripped(ctx: CompContext, c: Category, a: Athlete)
    ensures forall i :: 0 <= i < |ROW_KEYS| ==> IsStripped(MakeRow(ctx, c, a)[i])
  {
    forall i | 0 <= i < |ROW_KEYS|
      ensures IsStripped(MakeRow(ctx, c, a)[i])
    {
      NormaliseAt(RawValues(ctx, c, a), i);
    }
  }

  /** The competition id is printed in decimal. */
  lemma MakeRowId(ctx: CompContext, c: Category, a: Athlete)
    ensures MakeRow(ctx, c, a)[0] == IntToString(ctx.compId)
  {
    NormaliseAt(RawValues(ctx, c, a), 0);
    StripStripped(IntToString(ctx.compId));
  }

  /** Each value of a row is the matching raw value printed by `str()` and stripped. */
  lemma MakeRowAt(ctx: CompContext, c: Category, a: Athlete, i: nat)
    requires i < |ROW_KEYS|
    ensures MakeRow(ctx, c, a)[i] == Cell(RawValues(ctx, c, a)[i])
  {
    NormaliseAt(RawValues(ctx, c, a), i);
  }

  lemma UnknownIsNormal()
    ensures Cell(SStr("UNKNOWN")) == "UNKNOWN"
  {
    assert IsStripped("UNKNOWN");
    StripStripped("UNKNOWN");
  }

  /** The location is the host nation from the listing, normalised, or "UNKNOWN" when the
      listing gives none. */
  lemma MakeRowLocation(ctx: CompContext, c: Category, a: Athlete)
    ensures MakeRow(ctx, c, a)[2] == if ctx.host.None? then "UNKNOWN" else Cell(ctx.host.value)
  {
    MakeRowAt(ctx, c, a, 2);
    if ctx.host.None? {
      assert RawValues(ctx, c, a)[2] == SStr("UNKNOWN");
      UnknownIsNormal();
    } else {
      assert RawValues(ctx, c, a)[2] == ctx.host.value;
    }
  }

  /** The rows of one category, one per result, in result order. */
  function CategoryRows(ctx: CompContext, c: Category): (rows: seq<Row>)
    ensures |rows| == |c.results|
    ensures forall i :: 0 <= i < |rows| ==> rows[i] == MakeRow(ctx, c, c.results[i])
  {
    seq(|c.results|, i requires 0 <= i < |c.results| => MakeRow(ctx, c, c.results[i]))
  }

  /** The rows of a competition: category by category, each category's results in order. */
  function CompRows(ctx: CompContext, cats: seq<Category>): seq<Row> {
    if cats == [] then [] else CategoryRows(ctx, cats[0]) + CompRows(ctx, cats[1..])
  }

  function ResultCount(cats: seq<Category>): nat {
    if cats == [] then 0 else |cats[0].results| + ResultCount(cats[1..])
  }

  lemma {:induction false} CompRowsAppend(ctx: CompContext, a: seq<Category>, b: seq<Category>)
    ensures CompRows(ctx, a + b) == CompRows(ctx, a) + CompRows(ctx, b)
    ensures ResultCount(a + b) == ResultCount(a) + ResultCount(b)
  {
    if a == [] {
      assert a + b == b;
    } else {
      assert (a + b)[1..] == a[1..] + b;
      CompRowsAppend(ctx, a[1..], b);
    }
  }

  /** Category-then-result order: there is one row per result, and the row of result `ri` of
      category `ci` comes after all rows of the earlier categories. */
  lemma {:induction false} CompRowsOrder(ctx: CompContext, cats: seq<Category>, ci: nat, ri: nat)
    requires ci < |cats| && ri < |cats[ci].results|
    ensures |CompRows(ctx, cats)| == ResultCount(cats)
    ensures ResultCount(cats[..ci]) + ri < ResultCount(cats)
    ensures CompRows(ctx, cats)[ResultCount(cats[..ci]) + ri] == MakeRow(ctx, cats[ci], cats[ci].results[ri])
  {
    var pre, x, post := cats[..ci], cats[ci], cats[ci + 1..];
    var rest := [x] + post;
    assert cats == pre + rest;
    assert rest[0] == x && rest[1..] == post;
    CompRowsAppend(ctx, pre, rest);
    LengthIsCount(ctx, pre);
    LengthIsCount(ctx, cats);
    assert CompRows(ctx, rest) == CategoryRows(ctx, x) + CompRows(ctx, post);
    assert ResultCount(rest) == |x.results| + ResultCount(post);
  }

  lemma {:induction false} LengthIsCount(ctx: CompContext, cats: seq<Category>)
    ensures |CompRows(ctx, cats)| == ResultCount(cats)
  {
    if cats != [] {
      LengthIsCount(ctx, cats[1..]);
    }
  }

  /** `'{}_{}.csv'.format(comp_date, comp_id)`. */
  function CompFileName(date: string, compId: int): string {
    date + "_" + IntToString(compId) + ".csv"
  }

  /** A results file name is the date and `_`, then the competition id, which reads back as
      itself, then the `.csv` extension. */
  lemma CompFileNameParts(date: string, compId: int)
    ensures var r := CompFileName(date, compId);
      && |r| > |date| + 5 && r[..|date| + 1] == date + "_" && r[|r| - 4..] == ".csv"
      && ParseInt(r[|date| + 1..|r| - 4]) == Some(compId)
  {
    var r := CompFileName(date, compId);
    IntToStringRoundTrip(compId);
    assert r[|date| + 1..|r| - 4] == IntToString(compId);
  }

  // ---------------------------------------------------------------- the run, as functions

  /** `_get_one_result(comp_id, meta)`: request the competition; on anything but 200 leave the
      cursor and the files alone; otherwise write its rows and move the cursor's `wet_id` to it. */
  function GetOne(api: Api, compId: int, host: Option<Scalar>, s: State): (p: Progress)
    ensures p.state.requests == s.requests + [CompDetail(compId)]
    ensures p.state.cursor == if p.outcome.Done? && compId in api.comps then s.cursor.(wetId := compId) else s.cursor
    ensures compId !in api.comps ==> p == Progress(Done, s.(requests := s.requests + [CompDetail(compId)]))
    ensures p.outcome.Done? && compId in api.comps ==>
      |p.state.writes| == |s.writes| + 2 && p.state.writes[..|s.writes|] == s.writes
      && p.state.writes[|s.writes| + 1] == CursorFile(p.state.cursor)
      && p.state.writes[|s.writes|].ResultsFile? && p.state.writes[|s.writes|].rows != []
    ensures p.outcome.Failed? ==> p.outcome.error in {BadDate(compId), NoResults(compId)}
  {
    var s1 := s.(requests := s.requests + [CompDetail(compId)]);
    if compId !in api.comps then Progress(Done, s1)
    else
      var comp := api.comps[compId];
      if comp.date.None? then Progress(Failed(BadDate(compId)), s1)
      else
        var rows := CompRows(CompContext(compId, comp.name, comp.date.value, host), comp.categories);
        var file := CompFileName(comp.date.value, compId);
        if rows == [] then
          // the file is opened (and so created, empty) before results[0] raises
          Progress(Failed(NoResults(compId)), s1.(writes := s.writes + [ResultsFile(file, [])]))
        else
          var c := s.cursor.(wetId := compId);
          Progress(Done, State(c, s.writes + [ResultsFile(file, rows), CursorFile(c)], s1.requests))
  }

  /** What one competition leaves on disk: nothing when its date is unreadable; an empty
      `<date>_<id>.csv` and a `NoResults` failure exactly when it has no results at all;
      otherwise that file holding its rows, followed by the cursor file. */
  lemma GetOneFiles(api: Api, compId: int, host: Option<Scalar>, s: State)
    requires compId in api.comps
    ensures var p := GetOne(api, compId, host, s);
      var comp := api.comps[compId];
      && (comp.date.None? ==> p.outcome == Failed(BadDate(compId)) && p.state.writes == s.writes)
      && (comp.date.Some? && ResultCount(comp.categories) == 0 ==>
            && p.outcome == Failed(NoResults(compId))
            && p.state.writes == s.writes + [ResultsFile(CompFileName(comp.date.value, compId), [])])
      && (comp.date.Some? && ResultCount(comp.categories) > 0 ==>
            && p.outcome == Done
            && p.state.writes == s.writes + [ResultsFile(CompFileName(comp.date.value, compId),
                                                         CompRows(CompContext(compId, comp.name, comp.date.value, host), comp.categories)),
                                             CursorFile(p.state.cursor)])
  {
    var comp := api.comps[compId];
    if comp.date.Some? {
      LengthIsCount(CompContext(compId, comp.name, comp.date.value, host), comp.categories);
    }
  }

  /** The inner loop of `_dump_results_from`: every listed competition in order, until one raises. */
  function Comps(api: Api, listings: seq<Listing>, s: State): (p: Progress)
    decreases |listings|
  {
    if listings == [] then Progress(Done, s)
    else
      var p := GetOne(api, listings[0].wetId, listings[0].hostNation, s);
      if p.outcome.Failed? then p else Comps(api, listings[1..], p.state)
  }

  /** `_dump_results_from(year)`: each year from `year` to `today` in turn; after a year's
      competitions the cursor's `year` becomes that year and is written. */
  function Years(api: Api, year: int, today: int, s: State): (p: Progress)
    decreases today - year
  {
    if year > today then Progress(Done, s)
    else
      var s1 := s.(requests := s.requests + [YearIndex(year)]);
      if year !in api.years then Progress(Failed(YearIndexFailed(year)), s1)
      else
        var p := Comps(api, api.years[year], s1);
        if p.outcome.Failed? then p
        else
          var c := p.state.cursor.(year := year);
          Years(api, year + 1, today, State(c, p.state.writes + [CursorFile(c)], p.state.requests))
  }

  /** Incremental mode's first year: `max(cursor.year, MIN_YEAR)`. */
  function StartYear(c: Cursor): (y: int)
    ensures y >= MIN_YEAR && y >= c.year
    ensures y == c.year || y == MIN_YEAR
  {
    if c.year > MIN_YEAR then c.year else MIN_YEAR
  }

  /** `Scraper.scrape(s_type, comp_id)`. */
  function ScrapeSpec(mode: ScrapeType, compId: Option<int>, api: Api, today: int, s: State): Progress {
    match mode
    case Incremental => Years(api, StartYear(s.cursor), today, s)
    case Full => Years(api, MIN_YEAR, today, s)
    case Single => if compId.None? then Progress(Failed(MissingCompId), s) else GetOne(api, compId.value, None, s)
  }

  // ---------------------------------------------------------------- properties of a run

  /** The years of the year-listing requests, in the order they were issued. */
  function YearsRequested(reqs: seq<Request>): seq<int> {
    if reqs == [] then []
    else
      var r := reqs[|reqs| - 1];
      YearsRequested(reqs[..|reqs| - 1]) + if r.YearIndex? then [r.year] else []
  }

  lemma {:induction false} YearsRequestedAppend(a: seq<Request>, b: seq<Request>)
    ensures YearsRequested(a + b) == YearsRequested(a) + YearsRequested(b)
    decreases |b|
  {
    if b == [] {
      assert a + b == a;
    } else {
      assert (a + b)[..|a + b| - 1] == a + b[..|b| - 1];
      YearsRequestedAppend(a, b[..|b| - 1]);
    }
  }

  /** The years `from`, `from + 1`, ..., `to`. */
  function YearRange(from: int, to: int): seq<int>
    decreases to - from
  {
    if from > to then [] else [from] + YearRange(from + 1, to)
  }

  /** The id of the last competition in `listings` whose detail request answers 200, or `w`
      when there is none. */
  function LastWritten(api: Api, listings: seq<Listing>, w: int): int {
    if listings == [] then w
    else
      var l := listings[|listings| - 1];
      if l.wetId in api.comps then l.wetId else LastWritten(api, listings[..|listings| - 1], w)
  }

  lemma {:induction false} LastWrittenAppend(api: Api, a: seq<Listing>, b: seq<Listing>, w: int)
    ensures LastWritten(api, a + b, w) == LastWritten(api, b, LastWritten(api, a, w))
    decreases |b|
  {
    if b == [] {
      assert a + b == a;
    } else {
      assert (a + b)[..|a + b| - 1] == a + b[..|b| - 1];
      LastWrittenAppend(api, a, b[..|b| - 1], w);
    }
  }

  /** The listings of the years `year` to `today` that answer, in year order. */
  function ListedFrom(api: Api, year: int, today: int): seq<Listing>
    decreases today - year
  {
    if year > today then [] else (if year in api.years then api.years[year] else []) + ListedFrom(api, year + 1, today)
  }

  /** The detail requests for `listings`, one per competition, in listing order. */
  function Details(listings: seq<Listing>): (r: seq<Request>)
    ensures |r| == |listings|
  {
    if listings == [] then [] else [CompDetail(listings[0].wetId)] + Details(listings[1..])
  }

  lemma {:induction false} DetailsAppend(a: seq<Listing>, b: seq<Listing>)
    ensures Details(a + b) == Details(a) + Details(b)
    decreases |a|
  {
    if a == [] {
      assert a + b == b;
    } else {
      assert (a + b)[1..] == a[1..] + b;
      DetailsAppend(a[1..], b);
    }
  }

  /** The requests a run from `year` to `today` issues when every request it depends on
      answers: each year's listing followed by the detail requests of that year's competitions.
      A year whose listing fails ends the plan. */
  function PlannedRequests(api: Api, year: int, today: int): seq<Request>
    decreases today - year
  {
    if year > today then []
    else if year !in api.years then [YearIndex(year)]
    else [YearIndex(year)] + Details(api.years[year]) + PlannedRequests(api, year + 1, today)
  }

  /** Processing a year's competitions issues one detail request per listed competition and no
      listing request, leaves the cursor's year alone, and fails only on a bad date or an empty
      result set. */
  lemma {:induction false} CompsRequests(api: Api, listings: seq<Listing>, s: State)
    ensures var p := Comps(api, listings, s);
      && |s.requests| <= |p.state.requests| && p.state.requests[..|s.requests|] == s.requests
      && YearsRequested(p.state.requests) == YearsRequested(s.requests)
      && p.state.cursor.year == s.cursor.year
      && (p.outcome.Failed? ==> p.outcome.error.BadDate? || p.outcome.error.NoResults?)
      && (p.outcome.Done? ==> forall l :: l in listings ==> CompDetail(l.wetId) in p.state.requests[|s.requests|..])
    decreases |listings|
  {
    if listings != [] {
      var q := GetOne(api, listings[0].wetId, listings[0].hostNation, s);
      YearsRequestedAppend(s.requests, [CompDetail(listings[0].wetId)]);
      assert YearsRequested([CompDetail(listings[0].wetId)]) == [];
      if q.outcome.Done? {
        CompsRequests(api, listings[1..], q.state);
        var p := Comps(api, listings[1..], q.state);
        assert p.state.requests[..|q.state.requests|] == q.state.requests;
        assert p.state.requests[..|s.requests|] == q.state.requests[..|s.requests|];
        assert CompDetail(listings[0].wetId) == q.state.requests[|s.requests|] == p.state.requests[|s.requests|];
        if p.outcome.Done? {
          forall l | l in listings
            ensures CompDetail(l.wetId) in p.state.requests[|s.requests|..]
          {
            if l == listings[0] {
              assert p.state.requests[|s.requests|..][0] == CompDetail(l.wetId);
            } else {
              assert l in listings[1..];
              var i :| 0 <= i < |p.state.requests| - |q.state.requests|
                && p.state.requests[|q.state.requests|..][i] == CompDetail(l.wetId);
              assert p.state.requests[|s.requests|..][i + 1] == CompDetail(l.wetId);
            }
          }
        }
      }
    }
  }

  /** After a year's competitions, the cursor's `wet_id` is the id of the last competition that
      was written. */
  lemma {:induction false} CompsCursor(api: Api, listings: seq<Listing>, s: State)
    ensures var p := Comps(api, listings, s);
      p.outcome.Done? ==> p.state.cursor.wetId == LastWritten(api, listings, s.cursor.wetId)
    decreases |listings|
  {
    if listings != [] {
      var q := GetOne(api, listings[0].wetId, listings[0].hostNation, s);
      if q.outcome.Done? {
        CompsCursor(api, listings[1..], q.state);
        assert listings == [listings[0]] + listings[1..];
        LastWrittenAppend(api, [listings[0]], listings[1..], s.cursor.wetId);
        assert [listings[0]][..0] == [];
      }
    }
  }

  /** When a year's competitions stop at the `n`-th one (the `n`-th detail request), the error
      names that competition and the cursor's `wet_id` is the id of the last competition written
      before it. */
  lemma {:induction false} CompsCursorOnFailure(api: Api, listings: seq<Listing>, s: State)
    ensures var p := Comps(api, listings, s);
      var n := |p.state.requests| - |s.requests|;
      p.outcome.Failed? ==>
        && 0 < n <= |listings|
        && (p.outcome.error.BadDate? || p.outcome.error.NoResults?)
        && p.outcome.error.compId == listings[n - 1].wetId
        && p.state.cursor.wetId == LastWritten(api, listings[..n - 1], s.cursor.wetId)
    decreases |listings|
  {
    if listings != [] {
      var l := listings[0];
      var q := GetOne(api, l.wetId, l.hostNation, s);
      if q.outcome.Failed? {
        assert Comps(api, listings, s) == q;
        assert listings[..0] == [];
      } else {
        var p := Comps(api, listings[1..], q.state);
        assert Comps(api, listings, s) == p;
        if p.outcome.Failed? {
          CompsCursorOnFailure(api, listings[1..], q.state);
          var m := |p.state.requests| - |q.state.requests|;
          assert |q.state.requests| == |s.requests| + 1;
          assert listings[m] == listings[1..][m - 1];
          CursorAfterFirst(api, listings, m, s.cursor.wetId);
          assert [l][..0] == [];
        }
      }
    }
  }

  lemma CursorAfterFirst(api: Api, listings: seq<Listing>, m: nat, w: int)
    requires 0 < m <= |listings|
    ensures LastWritten(api, listings[..m], w)
         == LastWritten(api, listings[1..][..m - 1], LastWritten(api, [listings[0]], w))
  {
    assert listings[..m] == [listings[0]] + listings[1..][..m - 1];
    LastWrittenAppend(api, [listings[0]], listings[1..][..m - 1], w);
  }

  /** A competition that raises: it answers, and its date is unreadable or it has no results. */
  predicate CompFails(api: Api, l: Listing) {
    l.wetId in api.comps && (api.comps[l.wetId].date.None? || ResultCount(api.comps[l.wetId].categories) == 0)
  }

  /** A year that stops a run: its listing fails, or it lists a competition that raises. */
  predicate YearFails(api: Api, y: int) {
    y !in api.years || exists l :: l in api.years[y] && CompFails(api, l)
  }

  /** A year's competitions fail exactly when one of them raises. */
  lemma {:induction false} CompsFailure(api: Api, listings: seq<Listing>, s: State)
    ensures Comps(api, listings, s).outcome.Failed? <==> exists l :: l in listings && CompFails(api, l)
    decreases |listings|
  {
    if listings != [] {
      var l := listings[0];
      var q := GetOne(api, l.wetId, l.hostNation, s);
      if l.wetId in api.comps {
        GetOneFiles(api, l.wetId, l.hostNation, s);
      }
      assert q.outcome.Failed? <==> CompFails(api, l);
      CompsFailure(api, listings[1..], q.state);
      assert forall x :: x in listings <==> x == l || x in listings[1..];
    }
  }

  /** A run fails exactly when some year from `year` to `today` stops it. */
  lemma {:induction false} YearsFailWhen(api: Api, year: int, today: int, s: State)
    ensures Years(api, year, today, s).outcome.Failed? <==> exists k :: year <= k <= today && YearFails(api, k)
    decreases today - year
  {
    if year <= today {
      var s1 := s.(requests := s.requests + [YearIndex(year)]);
      if year !in api.years {
        assert YearFails(api, year);
      } else {
        var q := Comps(api, api.years[year], s1);
        CompsFailure(api, api.years[year], s1);
        if q.outcome.Failed? {
          assert YearFails(api, year);
        } else {
          var c := q.state.cursor.(year := year);
          var s2 := State(c, q.state.writes + [CursorFile(c)], q.state.requests);
          YearsFailWhen(api, year + 1, today, s2);
          assert !YearFails(api, year);
        }
      }
    }
  }

  /** A failed run stops at the first year `k` that stops it, and leaves the cursor's year at
      the last year it finished, `k - 1`, or where it was when it finished none. */
  lemma {:induction false} YearsFailureCursor(api: Api, year: int, today: int, s: State)
    ensures var p := Years(api, year, today, s);
      p.outcome.Failed? ==>
        exists k :: && year <= k <= today && YearFails(api, k)
                    && (forall j :: year <= j < k ==> !YearFails(api, j))
                    && p.state.cursor.year == if k == year then s.cursor.year else k - 1
    decreases today - year
  {
    if year <= today {
      var s1 := s.(requests := s.requests + [YearIndex(year)]);
      if year !in api.years {
        assert YearFails(api, year);
        assert Years(api, year, today, s).state.cursor.year == s.cursor.year;
      } else {
        var q := Comps(api, api.years[year], s1);
        CompsFailure(api, api.years[year], s1);
        CompsRequests(api, api.years[year], s1);
        if q.outcome.Failed? {
          assert YearFails(api, year);
          assert Years(api, year, today, s) == q;
        } else {
          assert !YearFails(api, year);
          var c := q.state.cursor.(year := year);
          var s2 := State(c, q.state.writes + [CursorFile(c)], q.state.requests);
          YearsFailureCursor(api, year + 1, today, s2);
          var p := Years(api, year + 1, today, s2);
          assert Years(api, year, today, s) == p;
          if p.outcome.Failed? {
            var k :| && year + 1 <= k <= today && YearFails(api, k)
                     && (forall j :: year + 1 <= j < k ==> !YearFails(api, j))
                     && p.state.cursor.year == if k == year + 1 then s2.cursor.year else k - 1;
            assert p.state.cursor.year == k - 1;
          }
        }
      }
    }
  }

  lemma {:induction false} YearsRequests(api: Api, year: int, today: int, s: State)
    ensures var p := Years(api, year, today, s);
      p.outcome.Done? ==>
        && YearsRequested(p.state.requests) == YearsRequested(s.requests) + YearRange(year, today)
        && forall k :: year <= k <= today ==> k in api.years
    decreases today - year
  {
    if year <= today && year in api.years {
      var s1 := s.(requests := s.requests + [YearIndex(year)]);
      YearsRequestedAppend(s.requests, [YearIndex(year)]);
      assert YearsRequested([YearIndex(year)]) == [year];
      assert YearRange(year, today) == [year] + YearRange(year + 1, today);
      var q := Comps(api, api.years[year], s1);
      CompsRequests(api, api.years[year], s1);
      if q.outcome.Done? {
        var c := q.state.cursor.(year := year);
        YearsRequests(api, year + 1, today, State(c, q.state.writes + [CursorFile(c)], q.state.requests));
      }
    }
  }

  /** A run that fails on a year listing stops at the first year, from `year` on, whose listing
      fails. */
  lemma {:induction false} YearsStopAtMissingYear(api: Api, year: int, today: int, s: State)
    ensures var p := Years(api, year, today, s);
      p.outcome.Failed? && p.outcome.error.YearIndexFailed? ==>
        var k := p.outcome.error.year;
        && year <= k <= today && k !in api.years
        && forall j :: year <= j < k ==> j in api.years
    decreases today - year
  {
    if year <= today && year in api.years {
      var s1 := s.(requests := s.requests + [YearIndex(year)]);
      var q := Comps(api, api.years[year], s1);
      CompsRequests(api, api.years[year], s1);
      if q.outcome.Done? {
        var c := q.state.cursor.(year := year);
        var s2 := State(c, q.state.writes + [CursorFile(c)], q.state.requests);
        YearsStopAtMissingYear(api, year + 1, today, s2);
        assert Years(api, year, today, s) == Years(api, year + 1, today, s2);
      }
    }
  }

  /** Up to that failure, the listing requests went to the years from `year` to the failing
      one, in ascending order. */
  lemma {:induction false} YearsRequestedBeforeFailure(api: Api, year: int, today: int, s: State)
    ensures var p := Years(api, year, today, s);
      p.outcome.Failed? && p.outcome.error.YearIndexFailed? ==>
        YearsRequested(p.state.requests) == YearsRequested(s.requests) + YearRange(year, p.outcome.error.year)
    decreases today - year
  {
    if year <= today {
      var s1 := s.(requests := s.requests + [YearIndex(year)]);
      YearsRequestedAppend(s.requests, [YearIndex(year)]);
      assert YearsRequested([YearIndex(year)]) == [year];
      assert YearsRequested(s1.requests) == YearsRequested(s.requests) + [year];
      if year !in api.years {
        assert YearRange(year, year) == [year] + YearRange(year + 1, year);
      } else {
        var q := Comps(api, api.years[year], s1);
        CompsRequests(api, api.years[year], s1);
        if q.outcome.Done? {
          var c := q.state.cursor.(year := year);
          var s2 := State(c, q.state.writes + [CursorFile(c)], q.state.requests);
          assert YearsRequested(s2.requests) == YearsRequested(s.requests) + [year];
          YearsRequestedBeforeFailure(api, year + 1, today, s2);
          YearsStopAtMissingYear(api, year + 1, today, s2);
          YearsRangeStep(api, year, today, s, s2);
        }
      }
    }
  }

  lemma YearsRangeStep(api: Api, year: int, today: int, s: State, s2: State)
    requires year <= today && year in api.years
    requires var q := Comps(api, api.years[year], s.(requests := s.requests + [YearIndex(year)]));
      q.outcome.Done? && s2 == State(q.state.cursor.(year := year), q.state.writes + [CursorFile(q.state.cursor.(year := year))], q.state.requests)
    requires YearsRequested(s2.requests) == YearsRequested(s.requests) + [year]
    requires var p := Years(api, year + 1, today, s2);
      p.outcome.Failed? && p.outcome.error.YearIndexFailed? ==>
        && year + 1 <= p.outcome.error.year
        && YearsRequested(p.state.requests) == YearsRequested(s2.requests) + YearRange(year + 1, p.outcome.error.year)
    ensures var p := Years(api, year, today, s);
      p.outcome.Failed? && p.outcome.error.YearIndexFailed? ==>
        YearsRequested(p.state.requests) == YearsRequested(s.requests) + YearRange(year, p.outcome.error.year)
  {
    var p := Years(api, year + 1, today, s2);
    assert Years(api, year, today, s) == p;
    if p.outcome.Failed? && p.outcome.error.YearIndexFailed? {
      var k := p.outcome.error.year;
      assert YearRange(year, k) == [year] + YearRange(year + 1, k);
    }
  }

  /** A completed run leaves the cursor at the last year (when there was one to process) and at
      the last competition written, and ends by writing that cursor. */
  lemma {:induction false} YearsCursor(api: Api, year: int, today: int, s: State)
    ensures var p := Years(api, year, today, s);
      && (p.outcome.Done? ==> p.state.cursor.year == if year <= today then today else s.cursor.year)
      && (p.outcome.Done? ==> p.state.cursor.wetId == LastWritten(api, ListedFrom(api, year, today), s.cursor.wetId))
      && (p.outcome.Done? && year <= today ==>
            p.state.writes != [] && p.state.writes[|p.state.writes| - 1] == CursorFile(p.state.cursor))
    decreases today - year
  {
    if year <= today {
      var s1 := s.(requests := s.requests + [YearIndex(year)]);
      if year in api.years {
        var q := Comps(api, api.years[year], s1);
        CompsRequests(api, api.years[year], s1);
        CompsCursor(api, api.years[year], s1);
        if q.outcome.Done? {
          var c := q.state.cursor.(year := year);
          var s2 := State(c, q.state.writes + [CursorFile(c)], q.state.requests);
          assert Years(api, year, today, s) == Years(api, year + 1, today, s2);
          YearsCursor(api, year + 1, today, s2);
          assert ListedFrom(api, year, today) == api.years[year] + ListedFrom(api, year + 1, today);
          LastWrittenAppend(api, api.years[year], ListedFrom(api, year + 1, today), s.cursor.wetId);
        }
      }
    }
  }

  /** Incremental mode does not skip competitions it has already written: a completed run
      requests every competition listed in every year it visits. */
  lemma {:induction false} YearsRequestEveryListing(api: Api, year: int, today: int, s: State)
    ensures var p := Years(api, year, today, s);
      && |s.requests| <= |p.state.requests|
      && (p.outcome.Done? ==> forall l :: l in ListedFrom(api, year, today) ==> CompDetail(l.wetId) in p.state.requests[|s.requests|..])
    decreases today - year
  {
    YearsRequestsGrow(api, year, today, s);
    if year <= today {
      var s1 := s.(requests := s.requests + [YearIndex(year)]);
      if year in api.years {
        var q := Comps(api, api.years[year], s1);
        CompsRequests(api, api.years[year], s1);
        if q.outcome.Done? {
          var c := q.state.cursor.(year := year);
          var s2 := State(c, q.state.writes + [CursorFile(c)], q.state.requests);
          YearsRequestEveryListing(api, year + 1, today, s2);
          YearsRequestsGrow(api, year + 1, today, s2);
          var p := Years(api, year + 1, today, s2);
          if p.outcome.Done? {
            forall l | l in ListedFrom(api, year, today)
              ensures CompDetail(l.wetId) in p.state.requests[|s.requests|..]
            {
              var k := |q.state.requests| - |s.requests|;
              if l in api.years[year] {
                var i :| 0 <= i < |q.state.requests| - |s1.requests|
                  && q.state.requests[|s1.requests|..][i] == CompDetail(l.wetId);
                assert p.state.requests[|s.requests|..][i + 1] == CompDetail(l.wetId);
              } else {
                var i :| 0 <= i < |p.state.requests| - |q.state.requests|
                  && p.state.requests[|q.state.requests|..][i] == CompDetail(l.wetId);
                assert p.state.requests[|s.requests|..][k + i] == CompDetail(l.wetId);
              }
            }
          }
        }
      }
    }
  }

  /** The detail requests go out in listing order, one per competition, and stop right after
      the first competition that fails; a run that completes issues all of them. */
  lemma {:induction false} CompsRequestsInOrder(api: Api, listings: seq<Listing>, s: State)
    ensures var p := Comps(api, listings, s);
      && |s.requests| <= |p.state.requests| <= |s.requests| + |listings|
      && p.state.requests == s.requests + Details(listings[..|p.state.requests| - |s.requests|])
      && (p.outcome.Done? ==> p.state.requests == s.requests + Details(listings))
    decreases |listings|
  {
    if listings == [] {
      assert listings[..0] == [];
    } else {
      var q := GetOne(api, listings[0].wetId, listings[0].hostNation, s);
      if q.outcome.Failed? {
        assert Details(listings[..1]) == [CompDetail(listings[0].wetId)];
      } else {
        CompsRequestsInOrder(api, listings[1..], q.state);
        var p := Comps(api, listings[1..], q.state);
        var n := |p.state.requests| - |q.state.requests|;
        assert listings[..n + 1][1..] == listings[1..][..n];
        assert p.state.requests == s.requests + Details(listings[..n + 1]);
        if p.outcome.Done? {
          assert listings[..n + 1] == listings;
        }
      }
    }
  }

  lemma PrefixOfLonger<T>(a: seq<T>, b: seq<T>, c: seq<T>, d: seq<T>)
    ensures a + b <= a + (b + c) + d
  {
    assert (a + (b + c) + d)[..|a + b|] == a + b;
  }

  /** A run issues a prefix of its planned requests, and all of them when it completes. */
  lemma {:induction false} YearsRequestsPlanned(api: Api, year: int, today: int, s: State)
    ensures var p := Years(api, year, today, s);
      && p.state.requests <= s.requests + PlannedRequests(api, year, today)
      && (p.outcome.Done? ==> p.state.requests == s.requests + PlannedRequests(api, year, today))
    decreases today - year
  {
    if year <= today {
      var s1 := s.(requests := s.requests + [YearIndex(year)]);
      if year !in api.years {
        assert s1.requests == s.requests + PlannedRequests(api, year, today);
      } else {
        var listings := api.years[year];
        var rest := PlannedRequests(api, year + 1, today);
        var q := Comps(api, listings, s1);
        CompsRequestsInOrder(api, listings, s1);
        assert s.requests + PlannedRequests(api, year, today) == s1.requests + Details(listings) + rest;
        if q.outcome.Failed? {
          var n := |q.state.requests| - |s1.requests|;
          assert listings == listings[..n] + listings[n..];
          DetailsAppend(listings[..n], listings[n..]);
          PrefixOfLonger(s1.requests, Details(listings[..n]), Details(listings[n..]), rest);
        } else {
          var c := q.state.cursor.(year := year);
          var s2 := State(c, q.state.writes + [CursorFile(c)], q.state.requests);
          YearsRequestsPlanned(api, year + 1, today, s2);
          assert s2.requests + rest == s1.requests + Details(listings) + rest;
        }
      }
    }
  }

  /** A run only appends to the request log. */
  lemma {:induction false} YearsRequestsGrow(api: Api, year: int, today: int, s: State)
    ensures var p := Years(api, year, today, s);
      |s.requests| <= |p.state.requests| && p.state.requests[..|s.requests|] == s.requests
    decreases today - year
  {
    if year <= today {
      var s1 := s.(requests := s.requests + [YearIndex(year)]);
      if year in api.years {
        var q := Comps(api, api.years[year], s1);
        CompsRequests(api, api.years[year], s1);
        if q.outcome.Done? {
          var c := q.state.cursor.(year := year);
          var s2 := State(c, q.state.writes + [CursorFile(c)], q.state.requests);
          YearsRequestsGrow(api, year + 1, today, s2);
          var p := Years(api, year + 1, today, s2);
          assert p.state.requests[..|s.requests|] == q.state.requests[..|s.requests|];
        }
      }
    }
  }

  /** The requests and the outcome of a run do not depend on the cursor or on the files already
      written, only on the requests already issued; so a full run does the same whatever cursor
      is stored. */
  lemma {:induction false} CompsIgnoresCursor(api: Api, listings: seq<Listing>, s: State, t: State)
    requires s.requests == t.requests
    ensures Comps(api, listings, s).outcome == Comps(api, listings, t).outcome
    ensures Comps(api, listings, s).state.requests == Comps(api, listings, t).state.requests
    decreases |listings|
  {
    if listings != [] {
      var p := GetOne(api, listings[0].wetId, listings[0].hostNation, s);
      var q := GetOne(api, listings[0].wetId, listings[0].hostNation, t);
      assert p.outcome == q.outcome;
      CompsIgnoresCursor(api, listings[1..], p.state, q.state);
    }
  }

  lemma {:induction false} YearsIgnoresCursor(api: Api, year: int, today: int, s: State, t: State)
    requires s.requests == t.requests
    ensures Years(api, year, today, s).outcome == Years(api, year, today, t).outcome
    ensures Years(api, year, today, s).state.requests == Years(api, year, today, t).state.requests
    decreases today - year
  {
    if year <= today && year in api.years {
      var s1 := s.(requests := s.requests + [YearIndex(year)]);
      var t1 := t.(requests := t.requests + [YearIndex(year)]);
      CompsIgnoresCursor(api, api.years[year], s1, t1);
      var p := Comps(api, api.years[year], s1);
      var q := Comps(api, api.years[year], t1);
      if p.outcome.Done? {
        var c := p.state.cursor.(year := year);
        var d := q.state.cursor.(year := year);
        YearsIgnoresCursor(api, year + 1, today,
          State(c, p.state.writes + [CursorFile(c)], p.state.requests),
          State(d, q.state.writes + [CursorFile(d)], q.state.requests));
      }
    }
  }

  /** Full mode starts from the minimum year whatever cursor is stored. */
  lemma FullIgnoresCursor(api: Api, today: int, s: State, c: Cursor)
    ensures ScrapeSpec(Full, None, api, today, s).outcome == ScrapeSpec(Full, None, api, today, s.(cursor := c)).outcome
    ensures ScrapeSpec(Full, None, api, today, s).state.requests == ScrapeSpec(Full, None, api, today, s.(cursor := c)).state.requests
  {
    YearsIgnoresCursor(api, MIN_YEAR, today, s, s.(cursor := c));
  }

  /** After a completed incremental run, the next incremental run starts at the last year
      processed (re-scanning it) rather than after it. */
  lemma IncrementalResumesAtLastYear(api: Api, today: int, s: State)
    ensures var p := ScrapeSpec(Incremental, None, api, today, s);
      p.outcome.Done? ==>
        StartYear(p.state.cursor) == if StartYear(s.cursor) <= today then today else StartYear(s.cursor)
  {
    YearsCursor(api, StartYear(s.cursor), today, s);
  }

  /** Single mode without an id fails before any request or write. */
  lemma SingleNeedsId(api: Api, today: int, s: State)
    ensures ScrapeSpec(Single, None, api, today, s) == Progress(Failed(MissingCompId), s)
  {
  }

  /** The inner loop of `_get_one_result`: appends one category's rows, result by result. */
  method AppendCategoryRows(ctx: CompContext, c: Category, acc: seq<Row>) returns (results: seq<Row>)
    ensures results == acc + CategoryRows(ctx, c)
  {
    ghost var all := CategoryRows(ctx, c);
    results := acc;
    var ri := 0;
    while ri < |c.results|
      invariant 0 <= ri <= |c.results|
      invariant results == acc + all[..ri]
    {
      var row := MakeRow(ctx, c, c.results[ri]);
      assert all[ri] == row;
      assert all[..ri + 1] == all[..ri] + [row];
      assert results + [row] == acc + (all[..ri] + [row]);
      results := results + [row];
      ri := ri + 1;
    }
    assert all[..ri] == all;
  }

  /** The outer loop of `_get_one_result`: the rows of every category in turn. */
  method CollectRows(ctx: CompContext, cats: seq<Category>) returns (results: seq<Row>)
    ensures results == CompRows(ctx, cats)
  {
    results := [];
    var ci := 0;
    while ci < |cats|
      invariant 0 <= ci <= |cats|
      invariant results == CompRows(ctx, cats[..ci])
    {
      results := AppendCategoryRows(ctx, cats[ci], results);
      assert cats[..ci + 1] == cats[..ci] + [cats[ci]];
      CompRowsAppend(ctx, cats[..ci], [cats[ci]]);
      assert CompRows(ctx, [cats[ci]]) == CategoryRows(ctx, cats[ci]) + CompRows(ctx, []);
      ci := ci + 1;
    }
    assert cats[..ci] == cats;
  }

  // ---------------------------------------------------------------- the scraper object

  /** The scraper: its cursor, and the logs of the files it has written and the requests it has
      issued. Each method is proved to do what the function of the same stage describes. */
  class Scraper {
    const dataDir: string
    var cursor: Cursor
    var writes: seq<Write>
    var requests: seq<Request>

    function Snapshot(): State
      reads this
    {
      State(cursor, writes, requests)
    }

    constructor (dataDir: string)
      ensures this.dataDir == dataDir
      ensures Snapshot() == State(DEFAULT_CURSOR, [], [])
    {
      this.dataDir := dataDir;
      cursor := DEFAULT_CURSOR;
      writes := [];
      requests := [];
    }

    /** `setup`: take the cursor from the first row of the cursor file, if there is one;
        `ok` is false when that row does not parse. */
    method Setup(stored: Option<(string, string)>) returns (ok: bool)
      modifies this
      ensures ok <==> LoadCursor(stored).Some?
      ensures Snapshot() == if ok then old(Snapshot()).(cursor := LoadCursor(stored).value) else old(Snapshot())
    {
      var loaded := LoadCursor(stored);
      ok := loaded.Some?;
      if ok {
        cursor := loaded.value;
      }
    }

    /** `write_cursor`: the cursor file now holds the current cursor. */
    method WriteCursor()
      modifies this
      ensures Snapshot() == old(Snapshot()).(writes := old(writes) + [CursorFile(cursor)])
    {
      writes := writes + [CursorFile(cursor)];
    }

    /** `_get_one_result`: builds the rows category by category, result by result. */
    method GetOneResult(compId: int, host: Option<Scalar>, api: Api) returns (outcome: Outcome)
      modifies this
      ensures Progress(outcome, Snapshot()) == GetOne(api, compId, host, old(Snapshot()))
    {
      requests := requests + [CompDetail(compId)];
      if compId !in api.comps {
        return Done;
      }
      var comp := api.comps[compId];
      if comp.date.None? {
        return Failed(BadDate(compId));
      }
      var ctx := CompContext(compId, comp.name, comp.date.value, host);
      var results := CollectRows(ctx, comp.categories);
      var file := CompFileName(comp.date.value, compId);
      if results == [] {
        writes := writes + [ResultsFile(file, [])];
        return Failed(NoResults(compId));
      }
      writes := writes + [ResultsFile(file, results)];
      cursor := cursor.(wetId := compId);
      WriteCursor();
      outcome := Done;
    }

    /** `_dump_results_from`: the year loop with the competition loop inside it. The id the
        source passes in is not used by the source either. */
    method DumpResultsFrom(year: int, compId: int, api: Api, today: int) returns (outcome: Outcome)
      modifies this
      ensures Progress(outcome, Snapshot()) == Years(api, year, today, old(Snapshot()))
    {
      var i := year;
      while i <= today
        invariant Years(api, i, today, Snapshot()) == Years(api, year, today, old(Snapshot()))
        decreases today - i
      {
        ghost var start := Snapshot();
        requests := requests + [YearIndex(i)];
        if i !in api.years {
          return Failed(YearIndexFailed(i));
        }
        var listings := api.years[i];
        ghost var s1 := Snapshot();
        var j := 0;
        while j < |listings|
          invariant 0 <= j <= |listings|
          invariant Comps(api, listings[j..], Snapshot()) == Comps(api, listings, s1)
        {
          var o := GetOneResult(listings[j].wetId, listings[j].hostNation, api);
          if o.Failed? {
            return o;
          }
          j := j + 1;
        }
        cursor := cursor.(year := i);
        WriteCursor();
        i := i + 1;
      }
      outcome := Done;
    }

    /** `_dump_incremental_results`: from the cursor's year, but not before the minimum year. */
    method DumpIncrementalResults(api: Api, today: int) returns (outcome: Outcome)
      modifies this
      ensures Progress(outcome, Snapshot()) == Years(api, StartYear(old(cursor)), today, old(Snapshot()))
    {
      outcome := DumpResultsFrom(StartYear(cursor), cursor.wetId, api, today);
    }

    /** `_dump_all_results`: from the minimum year. */
    method DumpAllResults(api: Api, today: int) returns (outcome: Outcome)
      modifies this
      ensures Progress(outcome, Snapshot()) == Years(api, MIN_YEAR, today, old(Snapshot()))
    {
      outcome := DumpResultsFrom(MIN_YEAR, 0, api, today);
    }

    /** `scrape(s_type, comp_id)`; a single competition is scraped without listing metadata. */
    method Scrape(mode: ScrapeType, compId: Option<int>, api: Api, today: int) returns (outcome: Outcome)
      modifies this
      ensures Progress(outcome, Snapshot()) == ScrapeSpec(mode, compId, api, today, old(Snapshot()))
    {
      match mode
      case Incremental =>
        outcome := DumpIncrementalResults(api, today);
      case Full =>
        outcome := DumpAllResults(api, today);
      case Single =>
        if compId.None? {
          return Failed(MissingCompId);
        }
        outcome := GetOneResult(compId.value, None, api);
    }
  }

  // ---------------------------------------------------------------- the cursor file

  /** The row `write_cursor` writes: the two fields printed in decimal. */
  function CursorLine(c: Cursor): (string, string) {
    (IntToString(c.year), IntToString(c.wetId))
  }

  /** Reading the cursor file back with both fields converted by `int()`: no row (a missing or
      empty file) keeps the default cursor, a row that does not parse is the `ValueError`. */
  function LoadCursor(stored: Option<(string, string)>): Option<Cursor> {
    match stored
    case None => Some(DEFAULT_CURSOR)
    case Some((y, w)) =>
      var year := ParseInt(y);
      var wetId := ParseInt(w);
      if year.Some? && wetId.Some? then Some(Cursor(year.value, wetId.value)) else None
  }

  /** Whatever `write_cursor` stores is read back unchanged. */
  lemma LoadCursorRoundTrip(c: Cursor)
    ensures LoadCursor(Some(CursorLine(c))) == Some(c)
  {
    IntToStringRoundTrip(c.year);
    IntToStringRoundTrip(c.wetId);
  }

  /** A Python value as the source holds it: the default cursor has integers, a cursor read
      from the file has the strings `csv.DictReader` produced. */
  datatype PyValue = PyInt(i: int) | PyStr(s: string)

  /** The cursor year as `setup` leaves it: the integer 0 without a stored row, otherwise the
      row's string. */
  function LoadedYearAsWritten(stored: Option<(string, string)>): PyValue {
    match stored
    case None => PyInt(0)
    case Some((y, _)) => PyStr(y)
  }

  /** `max(cursor['year'], MIN_YEAR)` in Python 3: ordering a string against an integer raises
      TypeError (None). */
  function MaxWithMinYearAsWritten(v: PyValue): (r: Option<int>)
    ensures r.Some? <==> v.PyInt?
    ensures r.Some? ==> r.value == StartYear(Cursor(v.i, 0))
  {
    match v
    case PyInt(i) => Some(if i > MIN_YEAR then i else MIN_YEAR)
    case PyStr(_) => None
  }

  /** As written, incremental mode fails as soon as a cursor has been stored: every cursor that
      `write_cursor` produces makes the next incremental run raise before its first request. */
  lemma StoredCursorBreaksIncremental(c: Cursor)
    ensures MaxWithMinYearAsWritten(LoadedYearAsWritten(Some(CursorLine(c)))) == None
    ensures MaxWithMinYearAsWritten(LoadedYearAsWritten(None)) == Some(MIN_YEAR)
  {
  }
}
