/** The results extractor: walks the results API from its index through seasons, events,
    discipline categories and rounds, and writes one JSON file per selected round result, with
    a metadata record attached and a composite file name.

    Every response the walk would fetch is carried inside the structure that links to it (a
    season reference holds the season document, an event reference the event document, a round
    the result document), so the walk is over plain values. */
module Extract {
  import opened Wrappers
  import opened Lists
  import opened Text
  import opened Dicts
  import opened JsonValues

  const DEFAULT_MIN_YEAR := 2012
  const DISCIPLINES: seq<string> := ["lead", "speed", "boulder", "combined", "boulder&lead"]
  const DEFAULT_DISCIPLINE := "lead"
  const LEAGUE := "World Cups and World Championships"
  const ROUNDS: seq<string> := ["semi-final", "final"]

  /** A round of a discipline category, with the result document its `result_url` serves. */
  datatype CategoryRound = CategoryRound(name: string, status: string, resultUrl: string, result: Dict<Json>)

  /** A discipline category of an event (`dcat`). */
  datatype Dcat = Dcat(disciplineKind: string, categoryName: string, rounds: seq<CategoryRound>)

  datatype EventDoc = EventDoc(location: string, dcats: seq<Dcat>)

  /** An event as a season lists it: its league season, its disciplines' kinds, its document. */
  datatype EventRef = EventRef(leagueSeasonId: int, kinds: seq<string>, url: string, doc: EventDoc)

  datatype League = League(name: string, url: string)

  datatype SeasonDoc = SeasonDoc(name: string, leagues: seq<League>, events: seq<EventRef>)

  /** A season as the index lists it: its name, its url, and the document at that url. */
  datatype SeasonRef = SeasonRef(name: string, url: string, doc: SeasonDoc)

  datatype Index = Index(seasons: seq<SeasonRef>)

  /** The metadata `__extract_event` passes on for each selected round. */
  datatype Metadata = Metadata(season: string, loc: string, discipline: string, category: string)

  /** One file written: where it came from, where it goes, and what it holds. */
  datatype Written = Written(url: string, dir: string, filename: string, document: Dict<Json>,
                             metadata: Metadata, round: string)

  datatype ExtractError =
    | BadSeasonName(name: string)   // int(season['name']) raised
    | NoLeague                      // no league with the World Cup name: [...][0] raised
    | BadLeagueUrl(url: string)     // int() of the url's last segment raised
    | MissingRound(url: string)     // result_json['round'] raised
    | RoundNotString(url: string)   // .lower() on a round that is not a string

  /** The outcome of a walk: the files written so far, and the error that stopped it, if any. */
  datatype Run = Run(written: seq<Written>, error: Option<ExtractError>)

  datatype Config = Config(disciplines: seq<string>, outdir: string, startYear: int)

  // ---------------------------------------------------------------- selections

  /** A season is kept when its name is a year no earlier than the start year. */
  predicate KeepSeason(s: SeasonRef, startYear: int) {
    ParseInt(s.name).Some? && ParseInt(s.name).value >= startYear
  }

  /** The seasons whose year is at least the start year, in index order. */
  function KeptSeasons(seasons: seq<SeasonRef>, startYear: int): (r: seq<SeasonRef>)
    ensures forall s :: s in r <==> s in seasons && KeepSeason(s, startYear)
  {
    Filter(seasons, (s: SeasonRef) => KeepSeason(s, startYear))
  }

  /** The seasons kept, in index order; any season name that is not an integer is the
      `ValueError` that stops the run before the first season is fetched. */
  function SelectSeasons(seasons: seq<SeasonRef>, startYear: int): (r: Result<seq<SeasonRef>, ExtractError>)
    ensures r.Success? <==> forall i :: 0 <= i < |seasons| ==> ParseInt(seasons[i].name).Some?
    ensures r.Success? ==> r.value == KeptSeasons(seasons, startYear)
    ensures r.Failure? ==> exists i :: 0 <= i < |seasons| && r.error == BadSeasonName(seasons[i].name)
  {
    if seasons == [] then Success([])
    else
      var year := ParseInt(seasons[0].name);
      if year.None? then Failure(BadSeasonName(seasons[0].name))
      else
        var rest := SelectSeasons(seasons[1..], startYear);
        if rest.Failure? then
          var i :| 0 <= i < |seasons| - 1 && rest.error == BadSeasonName(seasons[1..][i].name);
          assert seasons[i + 1] == seasons[1..][i];
          Failure(rest.error)
        else
          assert forall i :: 0 < i < |seasons| ==> seasons[i] == seasons[1..][i - 1];
          Success((if year.value >= startYear then [seasons[0]] else []) + rest.value)
  }

  /** The leagues named like the World Cup league, in season order. */
  function WorldCupLeagues(leagues: seq<League>): (r: seq<League>)
    ensures forall l :: l in r <==> l in leagues && l.name == LEAGUE
  {
    Filter(leagues, (l: League) => l.name == LEAGUE)
  }

  /** `int(url.split('/')[-1])`. */
  function LeagueIdOfUrl(url: string): (r: Result<int, ExtractError>)
    ensures r.Success? <==> ParseInt(LastSegment(url)).Some?
    ensures r.Failure? ==> r.error == BadLeagueUrl(url)
  {
    var id := ParseInt(LastSegment(url));
    if id.None? then Failure(BadLeagueUrl(url)) else Success(id.value)
  }

  /** The league season id of the World Cup league: the integer in the last `/`-segment of the
      url of the first league with that name. It fails with `NoLeague` exactly when no league
      has that name; otherwise the outcome is that of reading a World Cup league's url, which
      fails with `BadLeagueUrl` when its last segment is not an integer. */
  function LeagueId(leagues: seq<League>): (r: Result<int, ExtractError>)
    ensures r == Failure(NoLeague) <==> forall l :: l in leagues ==> l.name != LEAGUE
    ensures r != Failure(NoLeague) ==>
      exists l :: l in leagues && l.name == LEAGUE && r == LeagueIdOfUrl(l.url)
  {
    var matching := WorldCupLeagues(leagues);
    if matching == [] then Failure(NoLeague)
    else
      assert matching[0] in matching;
      LeagueIdOfUrl(matching[0].url)
  }

  /** The league id comes from the first league with the World Cup name. */
  lemma LeagueIdFromFirstMatch(leagues: seq<League>, i: nat)
    requires i < |leagues| && leagues[i].name == LEAGUE
    requires forall j :: 0 <= j < i ==> leagues[j].name != LEAGUE
    ensures LeagueId(leagues) == LeagueIdOfUrl(leagues[i].url)
  {
    FilterHead(leagues, (l: League) => l.name == LEAGUE, i);
  }

  /** A league url ending in `/<digits>` names that league season. */
  lemma LeagueIdOfDigitUrl(prefix: string, digits: string)
    requires IsDigits(digits)
    ensures LeagueId([League(LEAGUE, prefix + "/" + digits)]) == Success(DigitsValue(digits) as int)
  {
    var url := prefix + "/" + digits;
    LastSegmentAfterSlash(prefix, digits);
    ParseIntOfDigits(digits);
    LeagueIdFromFirstMatch([League(LEAGUE, url)], 0);
  }

  lemma LastSegmentAfterSlash(prefix: string, tail: string)
    requires '/' !in tail
    ensures LastSegment(prefix + "/" + tail) == tail
    decreases |tail|
  {
    var s := prefix + "/" + tail;
    if tail != [] {
      assert s[..|s| - 1] == prefix + "/" + tail[..|tail| - 1];
      LastSegmentAfterSlash(prefix, tail[..|tail| - 1]);
    }
  }

  predicate Overlaps(kinds: seq<string>, disciplines: seq<string>) {
    exists k :: k in kinds && k in disciplines
  }

  /** The World Cup events of a season. */
  function WorldCupEvents(events: seq<EventRef>, leagueId: int): (r: seq<EventRef>)
    ensures forall e :: e in r <==> e in events && e.leagueSeasonId == leagueId
  {
    Filter(events, (e: EventRef) => e.leagueSeasonId == leagueId)
  }

  /** The World Cup events with at least one requested discipline, in season order. */
  function SelectEvents(events: seq<EventRef>, leagueId: int, disciplines: seq<string>): (r: seq<EventRef>)
    ensures forall e :: e in r <==> e in events && e.leagueSeasonId == leagueId && Overlaps(e.kinds, disciplines)
  {
    Filter(WorldCupEvents(events, leagueId), (e: EventRef) => Overlaps(e.kinds, disciplines))
  }

  /** A round is fetched when it is a semi-final or a final (in any letter case) and finished. */
  predicate WantedRound(r: CategoryRound) {
    Lower(r.name) in ROUNDS && r.status == "finished"
  }

  function SelectRounds(rounds: seq<CategoryRound>): (r: seq<CategoryRound>)
    ensures forall x :: x in r <==> x in rounds && WantedRound(x)
  {
    Filter(rounds, WantedRound)
  }

  /** Letter case of the round name does not matter, the status must be exactly "finished". */
  lemma WantedRoundExamples(url: string, doc: Dict<Json>)
    ensures WantedRound(CategoryRound("Final", "finished", url, doc))
    ensures WantedRound(CategoryRound("Semi-Final", "finished", url, doc))
    ensures !WantedRound(CategoryRound("Qualification", "finished", url, doc))
    ensures !WantedRound(CategoryRound("Final", "Finished", url, doc))
  {
    assert Lower("Final") == "final";
    assert Lower("Semi-Final") == "semi-final";
    assert Lower("Qualification")[0] == 'q';
  }

  // ---------------------------------------------------------------- one result

  /** `dict(metadata, round=round_name)`. */
  function MetadataJson(md: Metadata, round: string): (j: Json)
    ensures j.JObj? && Keys(j.fields) == ["season", "loc", "discipline", "category", "round"]
  {
    JObj([("season", JStr(md.season)), ("loc", JStr(md.loc)), ("discipline", JStr(md.discipline)),
          ("category", JStr(md.category)), ("round", JStr(round))])
  }

  /** `a + "_" + b`. */
  function Underscored(a: string, b: string): string {
    a + "_" + b
  }

  lemma UnderscoredInjective(a: string, x: string, b: string, y: string)
    requires '_' !in a && '_' !in b && Underscored(a, x) == Underscored(b, y)
    ensures a == b && x == y
  {
    SplitAtSeparator(a, x, b, y, '_');
  }

  /** `f"{season}_{loc}_{discipline}_{category}_{round}.json"`. */
  function Filename(md: Metadata, round: string): string {
    Underscored(md.season, Underscored(md.loc, Underscored(md.discipline, Underscored(md.category, round + ".json"))))
  }

  /** A result document whose "round" is a string. */
  predicate HasRound(doc: Dict<Json>) {
    Get(doc, "round").Some? && Get(doc, "round").value.JStr?
  }

  /** `__extract_result`: the result document with the metadata attached under "metadata", and
      its file name; a document without a string "round" stops the run. */
  function ResultOutput(cfg: Config, url: string, md: Metadata, doc: Dict<Json>): (r: Result<Written, ExtractError>)
    ensures r.Success? <==> HasRound(doc)
  {
    var round := Get(doc, "round");
    if round.None? then Failure(MissingRound(url))
    else if !round.value.JStr? then Failure(RoundNotString(url))
    else
      var name := Lower(round.value.s);
      Success(Written(url, cfg.outdir, Filename(md, name), Set(doc, "metadata", MetadataJson(md, name)), md, name))
  }

  /** The file written for a result goes to the output directory under the name built from
      the metadata and the lower-cased round; its document is the result document with
      "metadata" set to the metadata plus the round, and every other key unchanged. */
  lemma ResultDocument(cfg: Config, url: string, md: Metadata, doc: Dict<Json>, k: string)
    requires ResultOutput(cfg, url, md, doc).Success?
    ensures var w := ResultOutput(cfg, url, md, doc).value;
      && w.url == url && w.dir == cfg.outdir && w.metadata == md
      && w.round == Lower(Get(doc, "round").value.s)
      && w.filename == Filename(md, w.round)
      && Get(w.document, "metadata") == Some(MetadataJson(md, w.round))
      && (k != "metadata" ==> Get(w.document, k) == Get(doc, k))
      && w.round == Lower(w.round)
  {
    var w := ResultOutput(cfg, url, md, doc).value;
    SetGet(doc, "metadata", MetadataJson(md, w.round), "metadata");
    SetGet(doc, "metadata", MetadataJson(md, w.round), k);
    LowerIdempotent(Get(doc, "round").value.s);
  }

  /** With no underscore inside the fields, the file name determines every field. */
  lemma FilenameInjective(m1: Metadata, r1: string, m2: Metadata, r2: string)
    requires '_' !in m1.season && '_' !in m1.loc && '_' !in m1.discipline && '_' !in m1.category
    requires '_' !in m2.season && '_' !in m2.loc && '_' !in m2.discipline && '_' !in m2.category
    requires Filename(m1, r1) == Filename(m2, r2)
    ensures m1 == m2 && r1 == r2
  {
    var t1 := Underscored(m1.loc, Underscored(m1.discipline, Underscored(m1.category, r1 + ".json")));
    var t2 := Underscored(m2.loc, Underscored(m2.discipline, Underscored(m2.category, r2 + ".json")));
    UnderscoredInjective(m1.season, t1, m2.season, t2);
    var u1 := Underscored(m1.discipline, Underscored(m1.category, r1 + ".json"));
    var u2 := Underscored(m2.discipline, Underscored(m2.category, r2 + ".json"));
    UnderscoredInjective(m1.loc, u1, m2.loc, u2);
    UnderscoredInjective(m1.discipline, Underscored(m1.category, r1 + ".json"), m2.discipline, Underscored(m2.category, r2 + ".json"));
    UnderscoredInjective(m1.category, r1 + ".json", m2.category, r2 + ".json");
    assert r1 == (r1 + ".json")[..|r1|] && r2 == (r2 + ".json")[..|r2|];
  }

  /** An underscore inside a field lets two different results share a file name, so the later
      one overwrites the earlier. */
  lemma FilenameCollision()
    ensures Filename(Metadata("2023", "a_b", "lead", "men"), "final")
         == Filename(Metadata("2023_a", "b", "lead", "men"), "final")
  {
  }

  // ---------------------------------------------------------------- the walk, as functions

  /** One `__extract_result` outcome applied to the files written so far. */
  function Append(out: Result<Written, ExtractError>, written: seq<Written>): Run {
    match out
    case Failure(e) => Run(written, Some(e))
    case Success(w) => Run(written + [w], None)
  }

  /** Successive outcomes applied in order, up to and including the first failure. */
  function AppendAll(outs: seq<Result<Written, ExtractError>>, written: seq<Written>): Run
    decreases |outs|
  {
    if outs == [] then Run(written, None)
    else
      var run := Append(outs[0], written);
      if run.error.Some? then run else AppendAll(outs[1..], run.written)
  }

  /** The outcome of each round's result document, in round order. */
  function RoundOutputs(cfg: Config, rounds: seq<CategoryRound>, md: Metadata): seq<Result<Written, ExtractError>> {
    seq(|rounds|, i requires 0 <= i < |rounds| => ResultOutput(cfg, rounds[i].resultUrl, md, rounds[i].result))
  }

  /** The selected rounds of one category, in order, until one fails. */
  function RoundsRun(cfg: Config, rounds: seq<CategoryRound>, md: Metadata, written: seq<Written>): Run {
    AppendAll(RoundOutputs(cfg, rounds, md), written)
  }

  /** The metadata of a category's rounds: the category name is lower-cased. */
  function DcatMetadata(season: string, event: EventDoc, d: Dcat): Metadata {
    Metadata(season, event.location, d.disciplineKind, Lower(d.categoryName))
  }

  /** `__extract_event`'s loop: categories of unrequested disciplines are skipped. */
  function DcatsRun(cfg: Config, season: string, event: EventDoc, dcats: seq<Dcat>, written: seq<Written>): Run
    decreases |dcats|
  {
    if dcats == [] then Run(written, None)
    else
      var d := dcats[0];
      if d.disciplineKind !in cfg.disciplines then DcatsRun(cfg, season, event, dcats[1..], written)
      else
        var run := RoundsRun(cfg, SelectRounds(d.rounds), DcatMetadata(season, event, d), written);
        if run.error.Some? then run else DcatsRun(cfg, season, event, dcats[1..], run.written)
  }

  /** `__extract_season`'s loop over the selected events. */
  function EventsRun(cfg: Config, season: string, events: seq<EventRef>, written: seq<Written>): Run
    decreases |events|
  {
    if events == [] then Run(written, None)
    else
      var run := DcatsRun(cfg, season, events[0].doc, events[0].doc.dcats, written);
      if run.error.Some? then run else EventsRun(cfg, season, events[1..], run.written)
  }

  /** `__extract_season`. */
  function SeasonRun(cfg: Config, season: SeasonDoc, written: seq<Written>): Run {
    match LeagueId(season.leagues)
    case Failure(e) => Run(written, Some(e))
    case Success(id) => EventsRun(cfg, season.name, SelectEvents(season.events, id, cfg.disciplines), written)
  }

  /** `extract`'s loop over the selected seasons. */
  function SeasonsRun(cfg: Config, seasons: seq<SeasonRef>, written: seq<Written>): Run
    decreases |seasons|
  {
    if seasons == [] then Run(written, None)
    else
      var run := SeasonRun(cfg, seasons[0].doc, written);
      if run.error.Some? then run else SeasonsRun(cfg, seasons[1..], run.written)
  }

  /** `extract`. */
  function ExtractRun(cfg: Config, index: Index, written: seq<Written>): Run {
    match SelectSeasons(index.seasons, cfg.startYear)
    case Failure(e) => Run(written, Some(e))
    case Success(seasons) => SeasonsRun(cfg, seasons, written)
  }

  // ---------------------------------------------------------------- what a walk writes

  /** A file as `__extract_result` writes it: into the output directory, for a requested
      discipline, under the name built from its metadata and lower-cased round, holding that
      metadata under "metadata". */
  predicate WellFormed(cfg: Config, w: Written) {
    && w.dir == cfg.outdir
    && w.metadata.discipline in cfg.disciplines
    && w.round == Lower(w.round)
    && w.filename == Filename(w.metadata, w.round)
    && Get(w.document, "metadata") == Some(MetadataJson(w.metadata, w.round))
  }

  /** The log only grows, and whatever is appended is well formed. */
  predicate Grows(cfg: Config, before: seq<Written>, after: seq<Written>) {
    before <= after && forall i :: |before| <= i < |after| ==> WellFormed(cfg, after[i])
  }

  /** A file written for a round the category selects, with the category's metadata. */
  predicate FromDcat(cfg: Config, season: string, event: EventDoc, d: Dcat, w: Written) {
    && d.disciplineKind in cfg.disciplines
    && w.metadata == DcatMetadata(season, event, d)
    && exists r :: r in SelectRounds(d.rounds) && r.resultUrl == w.url
  }

  /** A file written for a category of one of `events`. */
  predicate FromEvents(cfg: Config, season: string, events: seq<EventRef>, w: Written) {
    exists e, d :: e in events && d in e.doc.dcats && FromDcat(cfg, season, e.doc, d, w)
  }

  /** A file written for a World Cup event of the season with a requested discipline. */
  predicate FromSeason(cfg: Config, season: SeasonDoc, w: Written) {
    && LeagueId(season.leagues).Success?
    && FromEvents(cfg, season.name, SelectEvents(season.events, LeagueId(season.leagues).value, cfg.disciplines), w)
  }

  lemma GrowsTransitive(cfg: Config, a: seq<Written>, b: seq<Written>, c: seq<Written>)
    requires Grows(cfg, a, b) && Grows(cfg, b, c)
    ensures Grows(cfg, a, c)
  {
    forall i | |a| <= i < |c|
      ensures WellFormed(cfg, c[i])
    {
      if i < |b| {
        assert c[i] == b[i];
      }
    }
  }

  /** Outcomes are applied in order: every outcome before the first failure appends its file,
      the first failure stops the walk with its error, and nothing else is written. */
  lemma {:induction false} AppendAllWrites(outs: seq<Result<Written, ExtractError>>, written: seq<Written>)
    ensures var run := AppendAll(outs, written);
      && written <= run.written
      && |run.written| <= |written| + |outs|
      && (forall i :: |written| <= i < |run.written| ==> outs[i - |written|] == Success(run.written[i]))
      && (run.error.None? ==> |run.written| == |written| + |outs|)
      && (run.error.Some? ==>
            |run.written| < |written| + |outs| && outs[|run.written| - |written|] == Failure(run.error.value))
    decreases |outs|
  {
    if outs != [] {
      var step := Append(outs[0], written);
      if step.error.None? {
        var next := step.written;
        AppendAllWrites(outs[1..], next);
        var run := AppendAll(outs[1..], next);
        forall i | |written| <= i < |run.written|
          ensures outs[i - |written|] == Success(run.written[i])
        {
          if i == |written| {
            assert run.written[i] == next[i];
          } else {
            assert outs[1..][i - |next|] == outs[i - |written|];
          }
        }
        if run.error.Some? {
          assert outs[1..][|run.written| - |next|] == outs[|run.written| - |written|];
        }
      }
    }
  }

  /** The rounds of a category each write one well-formed file with the category's metadata. */
  lemma RoundsRunGrows(cfg: Config, rounds: seq<CategoryRound>, md: Metadata, written: seq<Written>)
    requires md.discipline in cfg.disciplines
    ensures var run := RoundsRun(cfg, rounds, md, written);
      && Grows(cfg, written, run.written)
      && forall i :: |written| <= i < |run.written| ==> run.written[i].metadata == md
  {
    var outs := RoundOutputs(cfg, rounds, md);
    var run := RoundsRun(cfg, rounds, md, written);
    AppendAllWrites(outs, written);
    forall i | |written| <= i < |run.written|
      ensures WellFormed(cfg, run.written[i]) && run.written[i].metadata == md
    {
      var k := i - |written|;
      assert outs[k] == ResultOutput(cfg, rounds[k].resultUrl, md, rounds[k].result) == Success(run.written[i]);
      ResultDocument(cfg, rounds[k].resultUrl, md, rounds[k].result, "metadata");
    }
  }

  /** A walk over the rounds writes at most one file per round, and one per round when no
      result document stops it. */
  lemma RoundsRunCount(cfg: Config, rounds: seq<CategoryRound>, md: Metadata, written: seq<Written>)
    ensures var run := RoundsRun(cfg, rounds, md, written);
      && written <= run.written
      && |run.written| <= |written| + |rounds|
      && (run.error.None? ==> |run.written| == |written| + |rounds|)
  {
    AppendAllWrites(RoundOutputs(cfg, rounds, md), written);
  }

  /** The files of a category are written in the order of its rounds. */
  lemma RoundsRunUrls(cfg: Config, rounds: seq<CategoryRound>, md: Metadata, written: seq<Written>)
    ensures var run := RoundsRun(cfg, rounds, md, written);
      && |written| <= |run.written| <= |written| + |rounds|
      && forall k :: 0 <= k < |run.written| - |written| ==> run.written[|written| + k].url == rounds[k].resultUrl
  {
    var outs := RoundOutputs(cfg, rounds, md);
    var run := RoundsRun(cfg, rounds, md, written);
    AppendAllWrites(outs, written);
    forall k | 0 <= k < |run.written| - |written|
      ensures run.written[|written| + k].url == rounds[k].resultUrl
    {
      assert outs[k] == ResultOutput(cfg, rounds[k].resultUrl, md, rounds[k].result) == Success(run.written[|written| + k]);
    }
  }

  /** A walk over the rounds stops at the first result document without a string round, and
      only there. */
  lemma RoundsRunStops(cfg: Config, rounds: seq<CategoryRound>, md: Metadata, written: seq<Written>)
    ensures var run := RoundsRun(cfg, rounds, md, written);
      && |written| <= |run.written| <= |written| + |rounds|
      && (run.error.Some? ==>
            |run.written| < |written| + |rounds| && !HasRound(rounds[|run.written| - |written|].result))
      && (forall k :: 0 <= k < |run.written| - |written| ==> HasRound(rounds[k].result))
  {
    var outs := RoundOutputs(cfg, rounds, md);
    var run := RoundsRun(cfg, rounds, md, written);
    AppendAllWrites(outs, written);
    forall k | 0 <= k < |run.written| - |written|
      ensures HasRound(rounds[k].result)
    {
      assert outs[k] == ResultOutput(cfg, rounds[k].resultUrl, md, rounds[k].result) == Success(run.written[|written| + k]);
    }
    if run.error.Some? {
      var k := |run.written| - |written|;
      assert outs[k] == ResultOutput(cfg, rounds[k].resultUrl, md, rounds[k].result);
    }
  }

  /** The files of one requested category come from its selected rounds, with its metadata. */
  lemma DcatWrites(cfg: Config, season: string, event: EventDoc, d: Dcat, written: seq<Written>)
    requires d.disciplineKind in cfg.disciplines
    ensures var run := RoundsRun(cfg, SelectRounds(d.rounds), DcatMetadata(season, event, d), written);
      && Grows(cfg, written, run.written)
      && forall i :: |written| <= i < |run.written| ==> FromDcat(cfg, season, event, d, run.written[i])
  {
    var md := DcatMetadata(season, event, d);
    var rounds := SelectRounds(d.rounds);
    var run := RoundsRun(cfg, rounds, md, written);
    RoundsRunGrows(cfg, rounds, md, written);
    RoundsRunUrls(cfg, rounds, md, written);
    forall i | |written| <= i < |run.written|
      ensures FromDcat(cfg, season, event, d, run.written[i])
    {
      assert run.written[|written| + (i - |written|)].url == rounds[i - |written|].resultUrl;
      assert rounds[i - |written|] in rounds;
    }
  }

  /** Every file of an event comes from a selected round of a category of a requested
      discipline, with that category's metadata; unrequested categories write nothing. */
  lemma {:induction false} DcatsRunWrites(cfg: Config, season: string, event: EventDoc, dcats: seq<Dcat>, written: seq<Written>)
    ensures var run := DcatsRun(cfg, season, event, dcats, written);
      && Grows(cfg, written, run.written)
      && forall i :: |written| <= i < |run.written| ==>
           exists d :: d in dcats && FromDcat(cfg, season, event, d, run.written[i])
    decreases |dcats|
  {
    if dcats != [] {
      var d := dcats[0];
      var tail := dcats[1..];
      assert forall x :: x in tail ==> x in dcats;
      if d.disciplineKind !in cfg.disciplines {
        DcatsRunWrites(cfg, season, event, tail, written);
      } else {
        var step := RoundsRun(cfg, SelectRounds(d.rounds), DcatMetadata(season, event, d), written);
        DcatWrites(cfg, season, event, d, written);
        assert d in dcats;
        if step.error.None? {
          var run := DcatsRun(cfg, season, event, tail, step.written);
          DcatsRunWrites(cfg, season, event, tail, step.written);
          GrowsTransitive(cfg, written, step.written, run.written);
          forall i | |written| <= i < |run.written|
            ensures exists x :: x in dcats && FromDcat(cfg, season, event, x, run.written[i])
          {
            if i < |step.written| {
              assert run.written[i] == step.written[i];
            }
          }
        }
      }
    }
  }

  /** Every file of a season's walk comes from a category of one of the events walked. */
  lemma {:induction false} EventsRunWrites(cfg: Config, season: string, events: seq<EventRef>, written: seq<Written>)
    ensures var run := EventsRun(cfg, season, events, written);
      && Grows(cfg, written, run.written)
      && forall i :: |written| <= i < |run.written| ==> FromEvents(cfg, season, events, run.written[i])
    decreases |events|
  {
    if events != [] {
      var e := events[0];
      var step := DcatsRun(cfg, season, e.doc, e.doc.dcats, written);
      DcatsRunWrites(cfg, season, e.doc, e.doc.dcats, written);
      assert e in events;
      if step.error.None? {
        var tail := events[1..];
        var run := EventsRun(cfg, season, tail, step.written);
        EventsRunWrites(cfg, season, tail, step.written);
        GrowsTransitive(cfg, written, step.written, run.written);
        forall i | |written| <= i < |run.written|
          ensures FromEvents(cfg, season, events, run.written[i])
        {
          if i < |step.written| {
            assert run.written[i] == step.written[i];
          } else {
            var e', d :| e' in tail && d in e'.doc.dcats && FromDcat(cfg, season, e'.doc, d, run.written[i]);
            assert e' in events;
          }
        }
      }
    }
  }

  /** Every file of a season comes from a category of one of its selected events. */
  lemma SeasonRunWrites(cfg: Config, season: SeasonDoc, written: seq<Written>)
    ensures var run := SeasonRun(cfg, season, written);
      && Grows(cfg, written, run.written)
      && forall i :: |written| <= i < |run.written| ==> FromSeason(cfg, season, run.written[i])
  {
    var id := LeagueId(season.leagues);
    if id.Success? {
      EventsRunWrites(cfg, season.name, SelectEvents(season.events, id.value, cfg.disciplines), written);
    }
  }

  /** Every file of a walk comes from one of the seasons walked. */
  lemma {:induction false} SeasonsRunWrites(cfg: Config, seasons: seq<SeasonRef>, written: seq<Written>)
    ensures var run := SeasonsRun(cfg, seasons, written);
      && Grows(cfg, written, run.written)
      && forall i :: |written| <= i < |run.written| ==>
           exists s :: s in seasons && FromSeason(cfg, s.doc, run.written[i])
    decreases |seasons|
  {
    if seasons != [] {
      var step := SeasonRun(cfg, seasons[0].doc, written);
      SeasonRunWrites(cfg, seasons[0].doc, written);
      assert seasons[0] in seasons;
      if step.error.None? {
        var tail := seasons[1..];
        var run := SeasonsRun(cfg, tail, step.written);
        SeasonsRunWrites(cfg, tail, step.written);
        GrowsTransitive(cfg, written, step.written, run.written);
        forall i | |written| <= i < |run.written|
          ensures exists s :: s in seasons && FromSeason(cfg, s.doc, run.written[i])
        {
          if i < |step.written| {
            assert run.written[i] == step.written[i];
          } else {
            var s :| s in tail && FromSeason(cfg, s.doc, run.written[i]);
            assert s in seasons;
          }
        }
      }
    }
  }

  /** `extract` appends well-formed files only, each for a round of a selected category of a
      selected event of a season whose year is at least the start year. */
  lemma ExtractRunWrites(cfg: Config, index: Index, written: seq<Written>)
    ensures var run := ExtractRun(cfg, index, written);
      && Grows(cfg, written, run.written)
      && forall i :: |written| <= i < |run.written| ==>
           exists s :: s in index.seasons && KeepSeason(s, cfg.startYear) && FromSeason(cfg, s.doc, run.written[i])
  {
    var selected := SelectSeasons(index.seasons, cfg.startYear);
    if selected.Success? {
      var run := SeasonsRun(cfg, selected.value, written);
      SeasonsRunWrites(cfg, selected.value, written);
      forall i | |written| <= i < |run.written|
        ensures exists s :: s in index.seasons && KeepSeason(s, cfg.startYear) && FromSeason(cfg, s.doc, run.written[i])
      {
        var s :| s in selected.value && FromSeason(cfg, s.doc, run.written[i]);
        assert s in index.seasons && KeepSeason(s, cfg.startYear);
      }
    }
  }

  // ---------------------------------------------------------------- what a walk is meant to write

  /** What identifies a file: the round result it copies, the metadata it carries, and its
      round name; with the output directory these fix where it goes and what it is called. */
  datatype Target = Target(url: string, metadata: Metadata, round: string)

  function TargetOf(w: Written): Target {
    Target(w.url, w.metadata, w.round)
  }

  function Targets(ws: seq<Written>): seq<Target> {
    seq(|ws|, i requires 0 <= i < |ws| => TargetOf(ws[i]))
  }

  /** The round name a result document gives its file, lower-cased. */
  function RoundName(doc: Dict<Json>): string {
    if HasRound(doc) then Lower(Get(doc, "round").value.s) else ""
  }

  /** One file per round, in round order. */
  function RoundsPlan(md: Metadata, rounds: seq<CategoryRound>): seq<Target> {
    seq(|rounds|, i requires 0 <= i < |rounds| => Target(rounds[i].resultUrl, md, RoundName(rounds[i].result)))
  }

  /** The selected rounds of every category of a requested discipline, category by category. */
  function DcatsPlan(cfg: Config, season: string, event: EventDoc, dcats: seq<Dcat>): seq<Target>
    decreases |dcats|
  {
    if dcats == [] then []
    else
      var d := dcats[0];
      (if d.disciplineKind in cfg.disciplines then RoundsPlan(DcatMetadata(season, event, d), SelectRounds(d.rounds)) else [])
      + DcatsPlan(cfg, season, event, dcats[1..])
  }

  /** The files of every event, event by event. */
  function EventsPlan(cfg: Config, season: string, events: seq<EventRef>): seq<Target>
    decreases |events|
  {
    if events == [] then [] else DcatsPlan(cfg, season, events[0].doc, events[0].doc.dcats) + EventsPlan(cfg, season, events[1..])
  }

  /** The files of the selected events of a season; none without a World Cup league id. */
  function SeasonPlan(cfg: Config, season: SeasonDoc): seq<Target> {
    match LeagueId(season.leagues)
    case Failure(_) => []
    case Success(id) => EventsPlan(cfg, season.name, SelectEvents(season.events, id, cfg.disciplines))
  }

  function SeasonsPlan(cfg: Config, seasons: seq<SeasonRef>): seq<Target>
    decreases |seasons|
  {
    if seasons == [] then [] else SeasonPlan(cfg, seasons[0].doc) + SeasonsPlan(cfg, seasons[1..])
  }

  /** Every file `extract` sets out to write, in the order it writes them. */
  function ExtractPlan(cfg: Config, index: Index): seq<Target> {
    match SelectSeasons(index.seasons, cfg.startYear)
    case Failure(_) => []
    case Success(seasons) => SeasonsPlan(cfg, seasons)
  }

  /** A walk from `before` keeps what was written, writes the files of a prefix of `plan` in
      plan order, and writes all of them unless an error stops it. */
  predicate Follows(before: seq<Written>, run: Run, plan: seq<Target>) {
    && before <= run.written
    && Targets(run.written[|before|..]) <= plan
    && (run.error.None? ==> Targets(run.written[|before|..]) == plan)
  }

  lemma TargetsConcat(a: seq<Written>, b: seq<Written>)
    ensures Targets(a + b) == Targets(a) + Targets(b)
  {
    assert forall i :: 0 <= i < |a + b| ==> Targets(a + b)[i] == (Targets(a) + Targets(b))[i];
  }

  /** A completed step followed by a further walk follows the two plans one after the other. */
  lemma FollowsChain(w0: seq<Written>, step: Run, run: Run, p1: seq<Target>, p2: seq<Target>)
    requires Follows(w0, step, p1) && step.error.None? && Follows(step.written, run, p2)
    ensures Follows(w0, run, p1 + p2)
  {
    assert run.written[|w0|..] == step.written[|w0|..] + run.written[|step.written|..];
    TargetsConcat(step.written[|w0|..], run.written[|step.written|..]);
    var t2 := Targets(run.written[|step.written|..]);
    assert (p1 + p2)[..|p1 + t2|] == p1 + t2;
  }

  /** A step that stops the walk follows any longer plan too. */
  lemma FollowsStop(w0: seq<Written>, run: Run, p1: seq<Target>, p2: seq<Target>)
    requires Follows(w0, run, p1) && run.error.Some?
    ensures Follows(w0, run, p1 + p2)
  {
    var t := Targets(run.written[|w0|..]);
    assert (p1 + p2)[..|t|] == p1[..|t|];
  }

  /** The rounds of a category are written in round order, one file each, until a result
      document without a string round stops the walk. */
  lemma RoundsRunFollows(cfg: Config, rounds: seq<CategoryRound>, md: Metadata, written: seq<Written>)
    ensures Follows(written, RoundsRun(cfg, rounds, md, written), RoundsPlan(md, rounds))
  {
    var outs := RoundOutputs(cfg, rounds, md);
    var run := RoundsRun(cfg, rounds, md, written);
    AppendAllWrites(outs, written);
    var n := |run.written| - |written|;
    var added := run.written[|written|..];
    forall k | 0 <= k < n
      ensures Targets(added)[k] == RoundsPlan(md, rounds)[k]
    {
      assert outs[k] == ResultOutput(cfg, rounds[k].resultUrl, md, rounds[k].result) == Success(run.written[|written| + k]);
      ResultDocument(cfg, rounds[k].resultUrl, md, rounds[k].result, "metadata");
    }
    assert Targets(added) == RoundsPlan(md, rounds)[..n];
  }

  lemma {:induction false} DcatsRunFollows(cfg: Config, season: string, event: EventDoc, dcats: seq<Dcat>, written: seq<Written>)
    ensures Follows(written, DcatsRun(cfg, season, event, dcats, written), DcatsPlan(cfg, season, event, dcats))
    decreases |dcats|
  {
    if dcats == [] {
      assert written[|written|..] == [];
    } else {
      var d := dcats[0];
      var rest := DcatsPlan(cfg, season, event, dcats[1..]);
      if d.disciplineKind !in cfg.disciplines {
        DcatsRunFollows(cfg, season, event, dcats[1..], written);
        assert DcatsPlan(cfg, season, event, dcats) == [] + rest;
      } else {
        var md := DcatMetadata(season, event, d);
        var step := RoundsRun(cfg, SelectRounds(d.rounds), md, written);
        RoundsRunFollows(cfg, SelectRounds(d.rounds), md, written);
        if step.error.None? {
          DcatsRunFollows(cfg, season, event, dcats[1..], step.written);
          FollowsChain(written, step, DcatsRun(cfg, season, event, dcats[1..], step.written), RoundsPlan(md, SelectRounds(d.rounds)), rest);
        } else {
          FollowsStop(written, step, RoundsPlan(md, SelectRounds(d.rounds)), rest);
        }
      }
    }
  }

  lemma {:induction false} EventsRunFollows(cfg: Config, season: string, events: seq<EventRef>, written: seq<Written>)
    ensures Follows(written, EventsRun(cfg, season, events, written), EventsPlan(cfg, season, events))
    decreases |events|
  {
    if events == [] {
      assert written[|written|..] == [];
    } else {
      var e := events[0].doc;
      var step := DcatsRun(cfg, season, e, e.dcats, written);
      DcatsRunFollows(cfg, season, e, e.dcats, written);
      var rest := EventsPlan(cfg, season, events[1..]);
      if step.error.None? {
        EventsRunFollows(cfg, season, events[1..], step.written);
        FollowsChain(written, step, EventsRun(cfg, season, events[1..], step.written), DcatsPlan(cfg, season, e, e.dcats), rest);
      } else {
        FollowsStop(written, step, DcatsPlan(cfg, season, e, e.dcats), rest);
      }
    }
  }

  lemma SeasonRunFollows(cfg: Config, season: SeasonDoc, written: seq<Written>)
    ensures Follows(written, SeasonRun(cfg, season, written), SeasonPlan(cfg, season))
  {
    match LeagueId(season.leagues)
    case Failure(_) =>
      assert written[|written|..] == [];
    case Success(id) =>
      EventsRunFollows(cfg, season.name, SelectEvents(season.events, id, cfg.disciplines), written);
  }

  lemma {:induction false} SeasonsRunFollows(cfg: Config, seasons: seq<SeasonRef>, written: seq<Written>)
    ensures Follows(written, SeasonsRun(cfg, seasons, written), SeasonsPlan(cfg, seasons))
    decreases |seasons|
  {
    if seasons == [] {
      assert written[|written|..] == [];
    } else {
      var step := SeasonRun(cfg, seasons[0].doc, written);
      SeasonRunFollows(cfg, seasons[0].doc, written);
      var rest := SeasonsPlan(cfg, seasons[1..]);
      if step.error.None? {
        SeasonsRunFollows(cfg, seasons[1..], step.written);
        FollowsChain(written, step, SeasonsRun(cfg, seasons[1..], step.written), SeasonPlan(cfg, seasons[0].doc), rest);
      } else {
        FollowsStop(written, step, SeasonPlan(cfg, seasons[0].doc), rest);
      }
    }
  }

  /** `extract` writes the files of a prefix of its plan, in plan order, and every planned
      file when no error stops it: no selected round is skipped, none is written twice, and
      the order is season, event, category, round. */
  lemma ExtractRunFollows(cfg: Config, index: Index, written: seq<Written>)
    ensures Follows(written, ExtractRun(cfg, index, written), ExtractPlan(cfg, index))
  {
    match SelectSeasons(index.seasons, cfg.startYear)
    case Failure(_) =>
      assert written[|written|..] == [];
    case Success(seasons) =>
      SeasonsRunFollows(cfg, seasons, written);
  }

  /** A season name that is not an integer stops `extract` before anything is written. */
  lemma ExtractRunBadSeason(cfg: Config, index: Index, written: seq<Written>, i: nat)
    requires i < |index.seasons| && ParseInt(index.seasons[i].name).None?
    ensures ExtractRun(cfg, index, written).written == written
    ensures ExtractRun(cfg, index, written).error.Some?
  {
  }

  // ---------------------------------------------------------------- main

  /** `-d` given any number of times lists the disciplines; without it only lead is extracted. */
  function SelectedDisciplines(given: Option<seq<string>>): (r: seq<string>)
    requires given.Some? ==> forall d :: d in given.value ==> d in DISCIPLINES
    ensures forall d :: d in r ==> d in DISCIPLINES
    ensures given.None? ==> r == [DEFAULT_DISCIPLINE]
  {
    if given.None? then [DEFAULT_DISCIPLINE] else given.value
  }

  /** Without `-d`, every file written is a lead result. */
  lemma DefaultExtractsLead(outdir: string, startYear: int, index: Index)
    ensures var cfg := Config(SelectedDisciplines(None), outdir, startYear);
      forall w :: w in ExtractRun(cfg, index, []).written ==> w.metadata.discipline == "lead"
  {
    var cfg := Config(SelectedDisciplines(None), outdir, startYear);
    ExtractRunWrites(cfg, index, []);
  }

  /** `-y` defaults to 2012. */
  function SelectedStartYear(given: Option<int>): int {
    if given.None? then DEFAULT_MIN_YEAR else given.value
  }

  /** Without `-y`, every file written comes from a season whose year is 2012 or later. */
  lemma DefaultStartsAt2012(disciplines: seq<string>, outdir: string, index: Index)
    ensures var cfg := Config(disciplines, outdir, SelectedStartYear(None));
      forall w :: w in ExtractRun(cfg, index, []).written ==>
        exists s :: s in index.seasons && ParseInt(s.name).Some? && ParseInt(s.name).value >= 2012
                    && FromSeason(cfg, s.doc, w)
  {
    var cfg := Config(disciplines, outdir, SelectedStartYear(None));
    var run := ExtractRun(cfg, index, []);
    ExtractRunWrites(cfg, index, []);
    forall w | w in run.written
      ensures exists s :: s in index.seasons && ParseInt(s.name).Some? && ParseInt(s.name).value >= 2012
                          && FromSeason(cfg, s.doc, w)
    {
      var i :| 0 <= i < |run.written| && run.written[i] == w;
      var s :| s in index.seasons && KeepSeason(s, cfg.startYear) && FromSeason(cfg, s.doc, run.written[i]);
    }
  }

  // ---------------------------------------------------------------- the extractor

  /** `Extractor`: the options it was built with, and the files it has written. */
  class Extractor {
    const disciplines: seq<string>
    const outdir: string
    const startYear: int
    var written: seq<Written>

    function Cfg(): Config {
      Config(disciplines, outdir, startYear)
    }

    constructor(disciplines: seq<string>, outdir: string, startYear: int)
      ensures Cfg() == Config(disciplines, outdir, startYear) && written == []
    {
      this.disciplines := disciplines;
      this.outdir := outdir;
      this.startYear := startYear;
      written := [];
    }

    /** `extract`, on the index document. */
    method Extract(index: Index) returns (err: Option<ExtractError>)
      modifies this
      ensures Run(written, err) == ExtractRun(Cfg(), index, old(written))
    {
      var selected := SelectSeasons(index.seasons, startYear);
      if selected.Failure? {
        return Some(selected.error);
      }
      var seasons := selected.value;
      err := None;
      var i := 0;
      while i < |seasons|
        invariant 0 <= i <= |seasons| && err == None
        invariant SeasonsRun(Cfg(), seasons[i..], written) == SeasonsRun(Cfg(), seasons, old(written))
      {
        assert seasons[i..][1..] == seasons[i + 1..];
        err := ExtractSeason(seasons[i].doc);
        if err.Some? {
          return;
        }
        i := i + 1;
      }
    }

    /** `__extract_season`, on the season document. */
    method ExtractSeason(season: SeasonDoc) returns (err: Option<ExtractError>)
      modifies this
      ensures Run(written, err) == SeasonRun(Cfg(), season, old(written))
    {
      var id := LeagueId(season.leagues);
      if id.Failure? {
        return Some(id.error);
      }
      err := ExtractEvents(season.name, SelectEvents(season.events, id.value, disciplines));
    }

    /** The loop of `__extract_season` over the selected events. */
    method ExtractEvents(seasonName: string, events: seq<EventRef>) returns (err: Option<ExtractError>)
      modifies this
      ensures Run(written, err) == EventsRun(Cfg(), seasonName, events, old(written))
    {
      err := None;
      var i := 0;
      while i < |events|
        invariant 0 <= i <= |events| && err == None
        invariant EventsRun(Cfg(), seasonName, events[i..], written) == EventsRun(Cfg(), seasonName, events, old(written))
      {
        assert events[i..][1..] == events[i + 1..];
        err := ExtractEvent(seasonName, events[i].doc);
        if err.Some? {
          return;
        }
        i := i + 1;
      }
    }

    /** `__extract_event`, on the event document. */
    method ExtractEvent(seasonName: string, event: EventDoc) returns (err: Option<ExtractError>)
      modifies this
      ensures Run(written, err) == DcatsRun(Cfg(), seasonName, event, event.dcats, old(written))
    {
      var dcats := event.dcats;
      err := None;
      var i := 0;
      while i < |dcats|
        invariant 0 <= i <= |dcats| && err == None
        invariant DcatsRun(Cfg(), seasonName, event, dcats[i..], written) == DcatsRun(Cfg(), seasonName, event, dcats, old(written))
      {
        assert dcats[i..][1..] == dcats[i + 1..];
        var d := dcats[i];
        if d.disciplineKind in disciplines {
          var md := DcatMetadata(seasonName, event, d);
          var rounds := SelectRounds(d.rounds);
          ghost var start := written;
          ghost var outs := RoundOutputs(Cfg(), rounds, md);
          var j := 0;
          while j < |rounds|
            invariant 0 <= j <= |rounds| && err == None
            invariant AppendAll(outs[j..], written) == AppendAll(outs, start)
          {
            assert outs[j..][1..] == outs[j + 1..];
            err := ExtractResult(rounds[j].resultUrl, rounds[j].result, md);
            if err.Some? {
              return;
            }
            j := j + 1;
          }
          assert outs[j..] == [];
        }
        i := i + 1;
      }
    }

    /** `__extract_result`, on the result document. */
    method ExtractResult(url: string, doc: Dict<Json>, md: Metadata) returns (err: Option<ExtractError>)
      modifies this
      ensures Run(written, err) == Append(ResultOutput(Cfg(), url, md, doc), old(written))
    {
      var round := Get(doc, "round");
      if round.None? {
        return Some(MissingRound(url));
      }
      if !round.value.JStr? {
        return Some(RoundNotString(url));
      }
      var roundName := Lower(round.value.s);
      var document := Set(doc, "metadata", MetadataJson(md, roundName));
      written := written + [Written(url, outdir, Filename(md, roundName), document, md, roundName)];
      err := None;
    }
  }
}
