/** The JSON-to-CSV transform: each extracted result document becomes one CSV file with a row
    per ranking entry, the document's event name and metadata broadcast onto every row. */
module JsonToCsv {
  import opened Wrappers
  import opened Lists
  import opened Text
  import opened Dicts
  import opened JsonValues

  /** The exceptions `transform_file` can raise on a decoded document. */
  datatype TransformError =
    | NotAnObject                  // the document is not a JSON object
    | MissingKey(key: string)      // KeyError on "event", "metadata" or "ranking"
    | NotAMapping                  // `**` applied to a metadata value that is not an object
    | BadRanking                   // "ranking" is not a list of objects
    | MissingScore(entry: nat)     // KeyError on "score"
    | ScoreNotString(entry: nat)   // `.strip()` on a score that is not a string
    | EmptyRanking                 // IndexError on `rankings[0]`
    | ExtraField(entry: nat)       // DictWriter's ValueError for a key outside the header

  /** One CSV cell: a value, or the writer's default empty field for a missing key. */
  datatype Cell = Value(v: Json) | Blank

  datatype CsvFile = CsvFile(dir: string, name: string, header: seq<string>, rows: seq<seq<Cell>>)

  /** What one call leaves behind: the file it created (if it got that far) and the error it raised. */
  datatype FileOutcome = FileOutcome(file: Option<CsvFile>, error: Option<TransformError>)

  /** What a run over a directory leaves behind: the files created, in order, and the error that
      stopped it. */
  datatype DirOutcome = DirOutcome(files: seq<CsvFile>, error: Option<TransformError>)

  const FLAG_URL := "flag_url"
  const SCORE := "score"
  const FULLNAME := "fullname"

  // ---------------------------------------------------------------- the common columns

  /** `{'fullname': doc['event'], **doc['metadata']}`. */
  function CommonCols(doc: Dict<Json>): (r: Result<Dict<Json>, TransformError>)
    ensures r.Success? <==> "event" in Keys(doc) && Get(doc, "metadata").Some? && Get(doc, "metadata").value.JObj?
    ensures r.Success? ==> forall k :: k in Keys(r.value) <==> k == FULLNAME || k in Keys(Get(doc, "metadata").value.fields)
  {
    match Get(doc, "event")
    case None => Failure(MissingKey("event"))
    case Some(event) =>
      var metadata: Option<Json> := Get(doc, "metadata");
      match metadata
      case None => Failure(MissingKey("metadata"))
      case Some(JObj(m)) => Success(Merge([(FULLNAME, event)], m))
      case Some(_) => Failure(NotAMapping)
  }

  /** The metadata wins over `fullname`; every metadata key keeps its value. */
  lemma CommonColsValues(event: Json, m: Dict<Json>, k: string)
    requires UniqueKeys(m)
    ensures Get(Merge([(FULLNAME, event)], m), k)
         == if k in Keys(m) then Get(m, k) else if k == FULLNAME then Some(event) else None
  {
    MergeGet([(FULLNAME, event)], m, k);
  }

  // ---------------------------------------------------------------- the ranking rows

  /** Values that iterate nothing: an empty object or an empty string. */
  predicate IteratesNothing(j: Json) {
    j == JObj([]) || j == JStr("")
  }

  /** The objects `for d in doc['ranking']` visits: a list's items, each of which must be an
      object (`d.items()`); an empty object or string visits none; anything else raises. */
  function Entries(ranking: Option<Json>): (r: Result<seq<Dict<Json>>, TransformError>)
    ensures r.Success? <==>
      && ranking.Some?
      && (|| IteratesNothing(ranking.value)
          || (ranking.value.JArr? && forall i :: 0 <= i < |ranking.value.items| ==> ranking.value.items[i].JObj?))
    ensures r.Failure? ==> r.error == if ranking.None? then MissingKey("ranking") else BadRanking
    ensures r.Success? && IteratesNothing(ranking.value) ==> r.value == []
    ensures r.Success? && ranking.value.JArr? ==> |r.value| == |ranking.value.items|
    ensures r.Success? && ranking.value.JArr? ==> forall i :: 0 <= i < |r.value| ==> ranking.value.items[i] == JObj(r.value[i])
  {
    match ranking
    case None => Failure(MissingKey("ranking"))
    case Some(JArr(items)) =>
      if forall i :: 0 <= i < |items| ==> items[i].JObj? then
        Success(seq(|items|, i requires 0 <= i < |items| => items[i].fields))
      else Failure(BadRanking)
    case Some(v) => if IteratesNothing(v) then Success([]) else Failure(BadRanking)
  }

  /** `[{k: v for k, v in d.items() if k != 'flag_url'} for d in rankings]`. */
  function DropFlags(entries: seq<Dict<Json>>): (r: seq<Dict<Json>>)
    ensures |r| == |entries|
    ensures forall i :: 0 <= i < |r| ==> FLAG_URL !in Keys(r[i])
  {
    seq(|entries|, i requires 0 <= i < |entries| => Remove(entries[i], FLAG_URL))
  }

  /** `{**common, **rank, 'score': rank['score'].strip()}` for the entry at position `index`. */
  function RowOf(common: Dict<Json>, rank: Dict<Json>, index: nat): (r: Result<Dict<Json>, TransformError>)
    ensures r.Success? <==> HasScore(rank)
  {
    var score: Option<Json> := Get(rank, SCORE);
    match score
    case None => Failure(MissingScore(index))
    case Some(JStr(s)) => Success(Set(Merge(common, rank), SCORE, JStr(Strip(s))))
    case Some(_) => Failure(ScoreNotString(index))
  }

  /** An entry whose `score` is present and a string, so that `.strip()` applies. */
  predicate HasScore(rank: Dict<Json>) {
    Get(rank, SCORE).Some? && Get(rank, SCORE).value.JStr?
  }

  /** The score `" 90.0 "` is written as `"90.0"`. */
  lemma StripPaddedScore()
    ensures Strip(" 90.0 ") == "90.0"
  {
    var s := " 90.0 ";
    assert SkipSpace(s, 0) == 1 by {
      assert IsSpace(s[0]) && !IsSpace(s[1]);
    }
    assert SkipSpaceBack(s, 1, 6) == 5 by {
      assert IsSpace(s[5]) && !IsSpace(s[4]);
    }
  }

  /** Row values: the trimmed score first, then the entry's own fields, then the common columns. */
  lemma RowValues(common: Dict<Json>, rank: Dict<Json>, index: nat, k: string)
    requires UniqueKeys(rank)
    requires RowOf(common, rank, index).Success?
    ensures Get(RowOf(common, rank, index).value, k)
         == if k == SCORE then Some(JStr(Strip(Get(rank, SCORE).value.s)))
            else if k in Keys(rank) then Get(rank, k)
            else Get(common, k)
  {
    var s := Get(rank, SCORE).value.s;
    SetGet(Merge(common, rank), SCORE, JStr(Strip(s)), k);
    MergeGet(common, rank, k);
  }

  /** A row's keys are those of the common columns and of its entry, the score among them. */
  lemma RowKeys(common: Dict<Json>, rank: Dict<Json>, index: nat)
    requires RowOf(common, rank, index).Success?
    ensures var row := RowOf(common, rank, index).value;
      forall k :: k in Keys(row) <==> k in Keys(common) || k in Keys(rank)
  {
  }

  /** A ranking entry's `flag_url` never reaches its row: the row carries that key exactly when the
      common columns do. */
  lemma FlagUrlDropped(common: Dict<Json>, raw: Dict<Json>, index: nat)
    requires RowOf(common, Remove(raw, FLAG_URL), index).Success?
    ensures FLAG_URL in Keys(RowOf(common, Remove(raw, FLAG_URL), index).value) <==> FLAG_URL in Keys(common)
  {
    var rank := Remove(raw, FLAG_URL);
    assert FLAG_URL !in Keys(rank);
    RowKeys(common, rank, index);
  }

  /** Like every Python dictionary, the common columns never repeat a key. */
  lemma CommonColsUnique(doc: Dict<Json>)
    requires CommonCols(doc).Success?
    ensures UniqueKeys(CommonCols(doc).value)
  {
    var m := Get(doc, "metadata").value.fields;
    MergeUnique([(FULLNAME, Get(doc, "event").value)], m);
  }

  /** Nor does a row, so the header taken from the first row names each column once. */
  lemma RowUnique(common: Dict<Json>, rank: Dict<Json>, index: nat)
    requires UniqueKeys(common)
    requires RowOf(common, rank, index).Success?
    ensures UniqueKeys(RowOf(common, rank, index).value)
  {
    var m := Merge(common, rank);
    var v := JStr(Strip(Get(rank, SCORE).value.s));
    assert RowOf(common, rank, index).value == Set(m, SCORE, v);
    MergeUnique(common, rank);
    SetUnique(m, SCORE, v);
  }

  /** The rows for `entries`, the first of them at position `from`; the first entry that fails
      decides the error. */
  function Rows(common: Dict<Json>, entries: seq<Dict<Json>>, from: nat): (r: Result<seq<Dict<Json>>, TransformError>)
    ensures r.Success? ==> |r.value| == |entries|
    ensures r.Success? ==> forall i :: 0 <= i < |entries| ==>
      RowOf(common, entries[i], from + i).Success? && r.value[i] == RowOf(common, entries[i], from + i).value
    decreases |entries|
  {
    if entries == [] then Success([])
    else
      var first := RowOf(common, entries[0], from);
      if first.Failure? then Failure(first.error)
      else
        var rest := Rows(common, entries[1..], from + 1);
        if rest.Failure? then rest
        else
          assert forall i :: 1 <= i < |entries| ==> entries[i] == entries[1..][i - 1];
          Success([first.value] + rest.value)
  }

  /** The rows are built exactly when every entry has a string score. */
  lemma {:induction false} RowsSucceed(common: Dict<Json>, entries: seq<Dict<Json>>, from: nat)
    ensures Rows(common, entries, from).Success? <==> forall i :: 0 <= i < |entries| ==> HasScore(entries[i])
    decreases |entries|
  {
    if entries != [] {
      if !HasScore(entries[0]) {
        assert Rows(common, entries, from).Failure?;
      } else {
        RowsSucceed(common, entries[1..], from + 1);
        assert forall i :: 1 <= i < |entries| ==> entries[i] == entries[1..][i - 1];
        if Rows(common, entries[1..], from + 1).Failure? {
          var i :| 0 <= i < |entries| - 1 && !HasScore(entries[1..][i]);
          assert !HasScore(entries[i + 1]);
        }
      }
    }
  }

  // ---------------------------------------------------------------- writing

  /** The cells `DictWriter` writes for one row: the row's value under each header key, or the
      empty default when the row lacks that key. */
  function CsvLine(header: seq<string>, row: Dict<Json>): (line: seq<Cell>)
    ensures |line| == |header|
    ensures forall j :: 0 <= j < |header| ==> (line[j].Blank? <==> header[j] !in Keys(row))
    ensures forall j :: 0 <= j < |header| && header[j] in Keys(row) ==> line[j] == Value(Get(row, header[j]).value)
  {
    seq(|header|, j requires 0 <= j < |header| =>
      match Get(row, header[j])
      case Some(v) => Value(v)
      case None => Blank)
  }

  /** Does `DictWriter` (with `extrasaction='raise'`) accept the row? */
  predicate Fits(header: seq<string>, row: Dict<Json>) {
    forall k :: k in Keys(row) ==> k in header
  }

  /** `writer.writerows(rows)`: rows are written one at a time until the first that does not fit,
      which raises; the rows before it are already in the file. */
  function WriteRows(header: seq<string>, rows: seq<Dict<Json>>, from: nat): (r: (seq<seq<Cell>>, Option<TransformError>))
    ensures |r.0| <= |rows|
    ensures forall i :: 0 <= i < |r.0| ==> Fits(header, rows[i]) && r.0[i] == CsvLine(header, rows[i])
    ensures r.1.None? <==> |r.0| == |rows|
    ensures r.1.Some? ==> !Fits(header, rows[|r.0|]) && r.1 == Some(ExtraField(from + |r.0|))
    decreases |rows|
  {
    if rows == [] then ([], None)
    else if !Fits(header, rows[0]) then ([], Some(ExtraField(from)))
    else
      var rest := WriteRows(header, rows[1..], from + 1);
      ([CsvLine(header, rows[0])] + rest.0, rest.1)
  }

  // ---------------------------------------------------------------- the output name

  /** `PurePath(name).suffix`: from the last dot on, unless that dot leads or ends the name. */
  function Suffix(name: string): (r: string)
    ensures r == [] || (r[0] == '.' && '.' !in r[1..] && 0 < |name| - |r| && |r| > 1)
    ensures r == name[|name| - |r|..]
  {
    var i := RFind(name, '.');
    if 0 < i < |name| - 1 then name[i..] else ""
  }

  /** `PurePath(name).stem`: the name without its suffix. */
  function Stem(name: string): (r: string)
    ensures r + Suffix(name) == name
  {
    var i := RFind(name, '.');
    if 0 < i < |name| - 1 then name[..i] else name
  }

  /** `PurePath(name).with_suffix(suffix)` for a non-empty name. */
  function WithSuffix(name: string, suffix: string): (r: string)
    requires name != ""
    ensures r == Stem(name) + suffix
  {
    var oldSuffix := Suffix(name);
    if oldSuffix == "" then name + suffix else name[..|name| - |oldSuffix|] + suffix
  }

  /** The name of the CSV file written for the input file `name`:
      `Path(outdir).joinpath(Path(name).stem).with_suffix('.csv')`. */
  function OutName(name: string): (r: string)
    requires name != ""
    ensures EndsWith(r, ".csv")
  {
    var stem := Stem(name);
    assert stem != "" by {
      var i := RFind(name, '.');
      assert 0 < i < |name| - 1 ==> |stem| == i;
    }
    WithSuffix(stem, ".csv")
  }

  /** The usual case: `base.json` becomes `base.csv` when `base` has no dot. */
  lemma OutNameOfPlainBase(base: string)
    requires base != "" && '.' !in base
    ensures OutName(base + ".json") == base + ".csv"
  {
    var name := base + ".json";
    RFindAt(name, |base|);
    assert Stem(name) == name[..|base|] == base;
    assert RFind(base, '.') == -1;
  }

  lemma RFindAt(s: string, k: nat)
    requires k < |s| && s[k] == '.' && forall j :: k < j < |s| ==> s[j] != '.'
    ensures RFind(s, '.') == k
  {
  }

  /** A dot inside the stem is taken for a second suffix: `a.b.json` becomes `a.csv`, so two
      inputs that differ only after that dot are written to the same file. */
  lemma OutNameDropsDottedTail(a: string, b: string)
    requires a != "" && b != "" && '.' !in b
    ensures OutName(a + "." + b + ".json") == a + ".csv"
  {
    var stem := a + "." + b;
    StemOfDotted(a, b);
    StemOfJson(stem);
  }

  lemma StemOfJson(stem: string)
    requires stem != ""
    ensures Stem(stem + ".json") == stem
  {
    var s := stem + ".json";
    forall j | |stem| < j < |s|
      ensures s[j] != '.'
    {
      assert s[j] == ".json"[j - |stem|];
    }
    StemAtLastDot(s, |stem|);
    assert s[..|stem|] == stem;
  }

  lemma StemOfDotted(a: string, b: string)
    requires a != "" && b != "" && '.' !in b
    ensures Stem(a + "." + b) == a
  {
    var s := a + "." + b;
    forall j | |a| < j < |s|
      ensures s[j] != '.'
    {
      assert s[j] == b[j - |a| - 1];
    }
    StemAtLastDot(s, |a|);
    assert s[..|a|] == a;
  }

  lemma StemAtLastDot(s: string, k: nat)
    requires 0 < k < |s| - 1 && s[k] == '.' && forall j :: k < j < |s| ==> s[j] != '.'
    ensures Stem(s) == s[..k]
  {
    RFindAt(s, k);
  }

  // ---------------------------------------------------------------- one file, one directory

  /** The reshaped rows of a decoded document: one per ranking entry, in order, each the entry
      without `flag_url`, merged over the common columns, with its score trimmed. */
  function Reshape(doc: Json): (r: Result<seq<Dict<Json>>, TransformError>)
    ensures r.Success? ==> doc.JObj? && CommonCols(doc.fields).Success? && Entries(Get(doc.fields, "ranking")).Success?
    ensures r.Success? ==>
      var entries := Entries(Get(doc.fields, "ranking")).value;
      && |r.value| == |entries|
      && forall i :: 0 <= i < |r.value| ==>
           && RowOf(CommonCols(doc.fields).value, Remove(entries[i], FLAG_URL), i).Success?
           && r.value[i] == RowOf(CommonCols(doc.fields).value, Remove(entries[i], FLAG_URL), i).value
  {
    if !doc.JObj? then Failure(NotAnObject)
    else
      var common := CommonCols(doc.fields);
      if common.Failure? then Failure(common.error)
      else
        var entries := Entries(Get(doc.fields, "ranking"));
        if entries.Failure? then Failure(entries.error)
        else
          var dropped := DropFlags(entries.value);
          assert forall i :: 0 <= i < |dropped| ==> dropped[i] == Remove(entries.value[i], FLAG_URL);
          Rows(common.value, dropped, 0)
  }

  /** Reshaping succeeds exactly when the document is an object with an event and an object of
      metadata, its ranking can be iterated as objects, and every entry has a string score. */
  lemma ReshapeSucceeds(doc: Json)
    ensures Reshape(doc).Success? <==>
      && doc.JObj? && CommonCols(doc.fields).Success?
      && Entries(Get(doc.fields, "ranking")).Success?
      && forall i :: 0 <= i < |Entries(Get(doc.fields, "ranking")).value| ==>
           HasScore(Entries(Get(doc.fields, "ranking")).value[i])
  {
    if doc.JObj? && CommonCols(doc.fields).Success? && Entries(Get(doc.fields, "ranking")).Success? {
      var entries := Entries(Get(doc.fields, "ranking")).value;
      var dropped := DropFlags(entries);
      forall i | 0 <= i < |entries|
        ensures HasScore(dropped[i]) <==> HasScore(entries[i])
      {
        RemoveGet(entries[i], FLAG_URL, SCORE);
      }
      RowsSucceed(CommonCols(doc.fields).value, dropped, 0);
    }
  }

  /** `transform_file(name, outdir)` on the decoded content `doc` of the file `name`: nothing is
      created when reshaping raises or the ranking is empty; otherwise the file holds the header
      and the rows written before any error. */
  function TransformFile(name: string, doc: Json, outdir: string): (r: FileOutcome)
    requires name != ""
    ensures r.file.Some? <==> Reshape(doc).Success? && Reshape(doc).value != []
    ensures r.file.Some? ==> r.file.value.dir == outdir && r.file.value.name == OutName(name)
    ensures r.error.None? <==>
      && Reshape(doc).Success? && Reshape(doc).value != []
      && forall i :: 0 <= i < |Reshape(doc).value| ==> Fits(Keys(Reshape(doc).value[0]), Reshape(doc).value[i])
    ensures Reshape(doc).Failure? ==> r.error == Some(Reshape(doc).error)
    ensures Reshape(doc) == Success([]) ==> r.error == Some(EmptyRanking)
  {
    var rows := Reshape(doc);
    if rows.Failure? then FileOutcome(None, Some(rows.error))
    else if rows.value == [] then FileOutcome(None, Some(EmptyRanking))
    else
      var header := Keys(rows.value[0]);
      var written := WriteRows(header, rows.value, 0);
      FileOutcome(Some(CsvFile(outdir, OutName(name), header, written.0)), written.1)
  }

  /** A successful call writes one line per ranking entry, in order, under a header that is the
      key list of the first row; each line holds that entry's row, `flag_url` gone. */
  lemma TransformFileSuccess(name: string, doc: Json, outdir: string)
    requires name != ""
    requires TransformFile(name, doc, outdir).error.None?
    ensures Reshape(doc).Success? && Reshape(doc).value != []
    ensures var rows := Reshape(doc).value;
      var file := TransformFile(name, doc, outdir).file.value;
      && file.header == Keys(rows[0])
      && |file.rows| == |rows|
      && forall i :: 0 <= i < |rows| ==> Fits(file.header, rows[i]) && file.rows[i] == CsvLine(file.header, rows[i])
  {
  }

  /** An empty ranking is an error, and no file is created: an empty list, and equally an empty
      object or string, which iterate nothing. */
  lemma EmptyRankingFails(name: string, fields: Dict<Json>, outdir: string)
    requires name != "" && CommonCols(fields).Success?
    requires Get(fields, "ranking") == Some(JArr([])) || Get(fields, "ranking") == Some(JObj([]))
      || Get(fields, "ranking") == Some(JStr(""))
    ensures TransformFile(name, JObj(fields), outdir) == FileOutcome(None, Some(EmptyRanking))
  {
  }

  /** `Path(datadir).glob('*.json')`: the entries whose names end in `.json`, in listing order. */
  predicate IsJsonEntry(entry: (string, Json)) {
    EndsWith(entry.0, ".json")
  }

  /** `transform(datadir, outdir)` over a directory listing of (name, decoded content) pairs:
      every `*.json` entry in turn, stopping at the first one that raises. */
  function TransformDir(entries: seq<(string, Json)>, outdir: string): (r: DirOutcome)
  {
    var selected := Filter(entries, IsJsonEntry);
    assert forall i :: 0 <= i < |selected| ==> IsJsonEntry(selected[i]);
    UntilError(seq(|selected|, i requires 0 <= i < |selected| => TransformFile(selected[i].0, selected[i].1, outdir)))
  }

  /** The files of successive calls, up to and including the first call that raised. */
  function UntilError(calls: seq<FileOutcome>): (r: DirOutcome)
    requires forall i :: 0 <= i < |calls| ==> calls[i].error.None? ==> calls[i].file.Some?
    ensures |r.files| <= |calls|
    ensures r.error.None? <==> forall i :: 0 <= i < |calls| ==> calls[i].error.None?
    ensures r.error.None? ==> |r.files| == |calls|
    ensures forall i :: 0 <= i < |r.files| ==> calls[i].file == Some(r.files[i])
  {
    if calls == [] then DirOutcome([], None)
    else if calls[0].error.Some? then
      DirOutcome(if calls[0].file.Some? then [calls[0].file.value] else [], calls[0].error)
    else
      var rest := UntilError(calls[1..]);
      var files := [calls[0].file.value] + rest.files;
      assert forall i :: 1 <= i < |files| ==> files[i] == rest.files[i - 1] && calls[i] == calls[1..][i - 1];
      DirOutcome(files, rest.error)
  }

  /** Only `*.json` entries are read, and a run that raises nothing writes exactly one CSV per
      such entry, named after it, in listing order. */
  lemma TransformDirOutputs(entries: seq<(string, Json)>, outdir: string)
    ensures var r := TransformDir(entries, outdir);
      var selected := Filter(entries, IsJsonEntry);
      && (r.error.None? ==> |r.files| == |selected|)
      && forall i :: 0 <= i < |r.files| ==> EndsWith(selected[i].0, ".json") && r.files[i].name == OutName(selected[i].0)
  {
    var selected := Filter(entries, IsJsonEntry);
    assert forall i :: 0 <= i < |selected| ==> IsJsonEntry(selected[i]);
  }
}
