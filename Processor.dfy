/**
 * The result envelope of `services/processor.py`: `process_file` for one
 * benchmark file and `process_files` for a batch whose frames are joined
 * and processed once. A file is given by its text, the document `json`
 * decodes it to, and the table the generic parser's `pandas` readers make
 * of it; reading the file from disk is not modelled.
 */
module Processor {
  import opened Wrappers
  import opened Text
  import opened Json
  import opened Benchmark
  import opened BaseParser
  import opened Outcome
  import Registry
  import CapFrameParser
  import AfterburnerParser
  import Pipeline

  /**
   * One uploaded file: its text, `json.loads` of it (`None` when that
   * raises), and the rows `pd.read_csv`/`pd.read_json` read from it (empty
   * when all three readers raise, as the generic parser then returns an
   * empty frame).
   */
  datatype FileInput = FileInput(content: string, decoded: Option<Json>, table: seq<Record>)

  /** The exception that ends a call, as `str(e)` would name it. */
  datatype Error =
    | UnknownParser(name: string)                  // get_parser's ValueError
    | CapFrameFailed(reason: CapFrameParser.ParseError)
    | AfterburnerFailed                            // the AttributeError every bad Afterburner block raises
    | NoData                                       // "no data could be extracted from the file"
    | NoFiles                                      // "no data could be extracted from the files"

  /** The dictionary both methods return. */
  datatype Envelope =
    | Success(parserType: string, stats: Stats, rawCount: nat, processedCount: nat, xlsxName: string, csvName: string)
    | Failure(error: Error, parserType: string)

  /** The parser type used for a file: the one given, or the detected one when none is (`not parser_type`). */
  function TypeOf(file: FileInput, parserType: string): (name: string)
    ensures parserType != "" ==> name == parserType
    ensures parserType == "" ==> name == Registry.Detect(file.content, file.decoded).Name()
  {
    if parserType == "" then Registry.Detect(file.content, file.decoded).Name() else parserType
  }

  /** `parser.parse_file(path)` for the registered parser `tag`. */
  function Parse(tag: Registry.Tag, file: FileInput, env: Env): Result<seq<Record>, Error> {
    match tag
    case CapFrame =>
      (match CapFrameParser.Decode(file.decoded, env)
       case Ok(rows) => Ok(rows)
       case Err(e) => Err(CapFrameFailed(e)))
    case MsiAfterburner =>
      (match AfterburnerParser.Decode(ReadLines(file.content), env)
       case Some(rows) => Ok(rows)
       case None => Err(AfterburnerFailed))
    case Custom => Ok(file.table)
  }

  /** `get_parser(name).parse_file(path)`: the unknown name fails before anything is read. */
  function Load(name: string, file: FileInput, env: Env): (r: Result<seq<Record>, Error>)
    ensures Registry.GetParser(name).None? ==> r == Err(UnknownParser(name))
    ensures Registry.GetParser(name).Some? ==> r == Parse(Registry.GetParser(name).value, file, env)
  {
    match Registry.GetParser(name)
    case None => Err(UnknownParser(name))
    case Some(tag) => Parse(tag, file, env)
  }

  /** The sizes and statistics `process_data` gives. */
  datatype Report = Report(rawCount: nat, processedCount: nat, stats: Stats)

  /**
   * `parser.process_data(df)` for the registered parser `tag`: the shared
   * pipeline for CapFrame and Afterburner, the pass-through of the generic
   * parser otherwise.
   */
  function Run(tag: Registry.Tag, rows: seq<Record>): (rep: Report)
    ensures rep.rawCount == |rows|
    ensures rep.processedCount <= rep.rawCount
    ensures tag.Custom? ==> rep.processedCount == |rows|
    ensures rep.stats.NoStats? ==> tag.MsiAfterburner? || rows == []
    ensures rows == [] ==> rep.processedCount == 0 && rep.stats.NoStats?
  {
    match tag
    case CapFrame =>
      var p := Pipeline.Process(Pipeline.CapFrameVariant, rows);
      Report(|p.raw|, |p.view|, p.stats)
    case MsiAfterburner =>
      var p := Pipeline.Process(Pipeline.MsiVariant, rows);
      Report(|p.raw|, |p.view|, p.stats)
    case Custom =>
      Report(|rows|, |rows|, if rows == [] then NoStats else CustomStats(|rows|))
  }

  /** `f"benchmark_{name}_results.xlsx"` and `.csv`. */
  function XlsxName(name: string): string {
    "benchmark_" + name + "_results.xlsx"
  }

  function CsvName(name: string): string {
    "benchmark_" + name + "_results.csv"
  }

  /** `process_file(path, parser_type)`. */
  function ProcessFile(file: FileInput, parserType: string, env: Env): (r: Envelope)
    ensures r.parserType == TypeOf(file, parserType)
    ensures Registry.GetParser(r.parserType).None? ==> r == Failure(UnknownParser(r.parserType), r.parserType)
    ensures r.Success? ==> r.rawCount > 0 && r.processedCount <= r.rawCount
    ensures r.Success? ==> r.xlsxName == XlsxName(r.parserType) && r.csvName == CsvName(r.parserType)
  {
    var name := TypeOf(file, parserType);
    match Load(name, file, env)
    case Err(e) => Failure(e, name)
    case Ok(rows) =>
      if rows == [] then Failure(NoData, name)
      else
        var rep := Run(Registry.GetParser(name).value, rows);
        Success(name, rep.stats, rep.rawCount, rep.processedCount, XlsxName(name), CsvName(name))
  }

  /** A file that parses to no rows is a failure, whatever parser read it. */
  lemma EmptyParseFails(file: FileInput, parserType: string, env: Env)
    requires Load(TypeOf(file, parserType), file, env) == Ok([])
    ensures ProcessFile(file, parserType, env) == Failure(NoData, TypeOf(file, parserType))
  {
  }

  /** A file succeeds exactly when its parser is registered and reads at least one row; the counts are those of `process_data`. */
  lemma ProcessFileSuccessIff(file: FileInput, parserType: string, env: Env)
    ensures var name := TypeOf(file, parserType);
      ProcessFile(file, parserType, env).Success? <==>
        Registry.GetParser(name).Some? && Load(name, file, env).Ok? && Load(name, file, env).value != []
    ensures var name := TypeOf(file, parserType); var r := ProcessFile(file, parserType, env);
      r.Success? ==>
        var rep := Run(Registry.GetParser(name).value, Load(name, file, env).value);
        r.rawCount == rep.rawCount && r.processedCount == rep.processedCount && r.stats == rep.stats
  {
  }

  /** What the batch loop has gathered: the parser of every file so far and their rows, joined in order. */
  datatype Loaded = Loaded(tags: seq<Registry.Tag>, rows: seq<Record>)

  /** The `parser_types` list: the type of every file, given or detected, in input order. */
  function Names(files: seq<FileInput>, parserType: string): (names: seq<string>)
    ensures |names| == |files|
    ensures forall i :: 0 <= i < |files| ==> names[i] == TypeOf(files[i], parserType)
  {
    Map((f: FileInput) => TypeOf(f, parserType), files)
  }

  /** What `get_parser(name).parse_file(path)` gives for each file, whose types are `names`. */
  function Loads(files: seq<FileInput>, names: seq<string>, env: Env): (res: seq<Result<seq<Record>, Error>>)
    requires |names| == |files|
    ensures |res| == |files|
    ensures forall i :: 0 <= i < |files| ==> res[i] == Load(names[i], files[i], env)
    ensures forall i :: 0 <= i < |files| && res[i].Ok? ==> Registry.GetParser(names[i]).Some?
  {
    seq(|files|, i requires 0 <= i < |files| => Load(names[i], files[i], env))
  }

  /**
   * The loop of `process_files` over files whose types are `names` and
   * whose parses are `results`: the first failing file ends it.
   */
  function Accumulate(names: seq<string>, results: seq<Result<seq<Record>, Error>>): (r: Result<Loaded, Error>)
    requires |names| == |results|
    requires forall i :: 0 <= i < |results| && results[i].Ok? ==> Registry.GetParser(names[i]).Some?
    ensures r.Ok? ==> |r.value.tags| == |results|
    ensures r.Ok? ==> forall i :: 0 <= i < |results| ==> r.value.tags[i].Name() == names[i]
  {
    if results == [] then Ok(Loaded([], []))
    else
      var n := |results| - 1;
      assert forall i :: 0 <= i < n ==> results[..n][i] == results[i] && names[..n][i] == names[i];
      match Accumulate(names[..n], results[..n])
      case Err(e) => Err(e)
      case Ok(acc) =>
        match results[n]
        case Err(e) => Err(e)
        case Ok(rows) =>
          var t := Registry.GetParser(names[n]).value;
          var tags := acc.tags + [t];
          assert t.Name() == names[n];
          Ok(Loaded(tags, acc.rows + rows))
  }

  /** `parser_type or "unknown"`: the name a batch failure reports. */
  function FailureName(parserType: string): (name: string)
    ensures name != ""
    ensures parserType != "" ==> name == parserType
  {
    if parserType == "" then "unknown" else parserType
  }

  const CombinedXlsx: string := "benchmark_combined_results.xlsx"
  const CombinedCsv: string := "benchmark_combined_results.csv"

  /** `process_files(paths, parser_type)`, as one expression. */
  function Batch(files: seq<FileInput>, parserType: string, env: Env): (r: Envelope)
    ensures r.Failure? ==> r.parserType == FailureName(parserType)
    ensures r.Success? ==> files != [] && r.parserType == TypeOf(files[0], parserType)
    ensures r.Success? ==> r.xlsxName == CombinedXlsx && r.csvName == CombinedCsv
    ensures r.Success? ==> r.processedCount <= r.rawCount
  {
    var names := Names(files, parserType);
    match Accumulate(names, Loads(files, names, env))
    case Err(e) => Failure(e, FailureName(parserType))
    case Ok(loaded) =>
      if files == [] then Failure(NoFiles, FailureName(parserType))
      else
        var first := loaded.tags[0];
        var rep := Run(first, loaded.rows);
        Success(first.Name(), rep.stats, rep.rawCount, rep.processedCount, CombinedXlsx, CombinedCsv)
  }

  lemma AccumulatePrefix(names: seq<string>, results: seq<Result<seq<Record>, Error>>, k: nat)
    requires |names| == |results| && k < |results|
    requires forall i :: 0 <= i < |results| && results[i].Ok? ==> Registry.GetParser(names[i]).Some?
    ensures Accumulate(names[..k + 1], results[..k + 1]) ==
      match Accumulate(names[..k], results[..k])
      case Err(e) => Err(e)
      case Ok(acc) =>
        match results[k]
        case Err(e) => Err(e)
        case Ok(rows) => Ok(Loaded(acc.tags + [Registry.GetParser(names[k]).value], acc.rows + rows))
  {
    assert results[..k + 1][..k] == results[..k];
    assert names[..k + 1][..k] == names[..k];
  }

  /** A failing parse anywhere fails the whole loop. */
  lemma {:induction false} AccumulateFails(names: seq<string>, results: seq<Result<seq<Record>, Error>>, k: nat)
    requires |names| == |results| && k < |results| && results[k].Err?
    requires forall i :: 0 <= i < |results| && results[i].Ok? ==> Registry.GetParser(names[i]).Some?
    ensures Accumulate(names, results).Err?
  {
    var n := |results| - 1;
    if k < n {
      assert forall i :: 0 <= i < n ==> results[..n][i] == results[i] && names[..n][i] == names[i];
      AccumulateFails(names[..n], results[..n], k);
    }
  }

  /** A failure of the first `k` files is the failure of the whole loop. */
  lemma {:induction false} AccumulateFailSticks(names: seq<string>, results: seq<Result<seq<Record>, Error>>, k: nat)
    requires |names| == |results| && k <= |results|
    requires forall i :: 0 <= i < |results| && results[i].Ok? ==> Registry.GetParser(names[i]).Some?
    requires Accumulate(names[..k], results[..k]).Err?
    ensures Accumulate(names, results) == Accumulate(names[..k], results[..k])
    decreases |results| - k
  {
    if k < |results| {
      AccumulatePrefix(names, results, k);
      AccumulateFailSticks(names, results, k + 1);
    } else {
      assert names[..k] == names && results[..k] == results;
    }
  }

  /** One iteration of the loop of `process_files`, for the `k`-th file: its type, its parser, and what that parser reads. */
  method LoadOne(files: seq<FileInput>, parserType: string, env: Env, k: nat) returns (parser: Registry.Tag, parsed: Result<seq<Record>, Error>)
    requires k < |files|
    ensures var names := Names(files, parserType); parsed == Loads(files, names, env)[k]
    ensures parsed.Ok? ==> Registry.GetParser(Names(files, parserType)[k]) == Some(parser)
  {
    var file := files[k];
    var name := if parserType == "" then Registry.Detect(file.content, file.decoded).Name() else parserType;
    var found := Registry.GetParser(name);
    if found.None? {
      return Registry.Custom, Err(UnknownParser(name));
    }
    parser := found.value;
    parsed := Parse(parser, file, env);
  }

  /** The loop of `process_files`: each file's parser and frame appended in turn, until one fails. */
  method LoadFiles(files: seq<FileInput>, parserType: string, env: Env) returns (loaded: Result<Loaded, Error>)
    ensures var names := Names(files, parserType); loaded == Accumulate(names, Loads(files, names, env))
  {
    ghost var names := Names(files, parserType);
    ghost var results := Loads(files, names, env);
    var frames: seq<Record> := [];
    var types: seq<Registry.Tag> := [];
    for k := 0 to |files|
      invariant Accumulate(names[..k], results[..k]) == Ok(Loaded(types, frames))
    {
      AccumulatePrefix(names, results, k);
      var parser, parsed := LoadOne(files, parserType, env, k);
      if parsed.Err? {
        AccumulateFailSticks(names, results, k + 1);
        return Err(parsed.error);
      }
      types := types + [parser];
      frames := frames + parsed.value;
    }
    assert names[..|files|] == names && results[..|files|] == results;
    loaded := Ok(Loaded(types, frames));
  }

  /** `BenchmarkProcessor.process_files`, as written: the loop, then the first file's parser over the joined frames. */
  method ProcessFiles(files: seq<FileInput>, parserType: string, env: Env) returns (r: Envelope)
    ensures r == Batch(files, parserType, env)
  {
    var loaded := LoadFiles(files, parserType, env);
    if loaded.Err? {
      return Failure(loaded.error, FailureName(parserType));
    }
    var types := loaded.value.tags;
    if types == [] {
      return Failure(NoFiles, FailureName(parserType));
    }
    var rep := Run(types[0], loaded.value.rows);
    r := Success(types[0].Name(), rep.stats, rep.rawCount, rep.processedCount, CombinedXlsx, CombinedCsv);
  }

  /** An empty list of files fails with the argument type, or "unknown". */
  lemma EmptyBatchFails(parserType: string, env: Env)
    ensures Batch([], parserType, env) == Failure(NoFiles, FailureName(parserType))
  {
  }

  /** One failing file fails the batch, whatever the other files hold. */
  lemma FailingFileFailsBatch(files: seq<FileInput>, parserType: string, env: Env, k: nat)
    requires k < |files| && Load(TypeOf(files[k], parserType), files[k], env).Err?
    ensures Batch(files, parserType, env).Failure?
    ensures Batch(files, parserType, env).parserType == FailureName(parserType)
  {
    var names := Names(files, parserType);
    AccumulateFails(names, Loads(files, names, env), k);
  }

  /** The rows of every parse, in input order (defined when each parse succeeds). */
  function Joined(results: seq<Result<seq<Record>, Error>>): seq<Record>
    requires forall i :: 0 <= i < |results| ==> results[i].Ok?
  {
    if results == [] then []
    else
      var n := |results| - 1;
      Joined(results[..n]) + results[n].value
  }

  /** When every file loads, the loop joins their rows in input order. */
  lemma {:induction false} AccumulateJoins(names: seq<string>, results: seq<Result<seq<Record>, Error>>)
    requires |names| == |results|
    requires forall i :: 0 <= i < |results| ==> results[i].Ok? && Registry.GetParser(names[i]).Some?
    ensures Accumulate(names, results).Ok?
    ensures Accumulate(names, results).value.rows == Joined(results)
  {
    if results != [] {
      var n := |results| - 1;
      assert forall i :: 0 <= i < n ==> results[..n][i] == results[i] && names[..n][i] == names[i];
      AccumulateJoins(names[..n], results[..n]);
    }
  }

  /**
   * A batch whose files all load succeeds, processed once by the first
   * file's parser over the joined rows; unlike `process_file`, the joined
   * rows may be empty.
   */
  lemma BatchSuccess(files: seq<FileInput>, parserType: string, env: Env)
    requires files != []
    requires forall i :: 0 <= i < |files| ==> Load(TypeOf(files[i], parserType), files[i], env).Ok?
    ensures var r := Batch(files, parserType, env);
      var rows := Joined(Loads(files, Names(files, parserType), env));
      && r.Success?
      && Registry.GetParser(r.parserType).Some?
      && r.rawCount == |rows|
      && var rep := Run(Registry.GetParser(r.parserType).value, rows);
         r.processedCount == rep.processedCount && r.stats == rep.stats
  {
    var names := Names(files, parserType);
    var results := Loads(files, names, env);
    AccumulateJoins(names, results);
    Registry.GetParserName(Accumulate(names, results).value.tags[0]);
  }

  /** The loop over a single file that loads is that file's rows. */
  lemma AccumulateSingle(name: string, rows: seq<Record>)
    requires Registry.GetParser(name).Some?
    ensures Accumulate([name], [Ok(rows)]) == Ok(Loaded([Registry.GetParser(name).value], rows))
  {
    var results: seq<Result<seq<Record>, Error>> := [Ok(rows)];
    AccumulatePrefix([name], results, 0);
    assert [name][..1] == [name] && results[..1] == results;
    assert [name][..0] == [] && results[..0] == [];
    var t := Registry.GetParser(name).value;
    assert Accumulate([name][..1], results[..1]) == Ok(Loaded([] + [t], [] + rows));
    assert [] + [t] == [t] && [] + rows == rows;
  }

  /** For one file that reads some rows, the batch reports what `process_file` reports, under the combined file names. */
  lemma SingleFileBatch(file: FileInput, parserType: string, env: Env)
    requires ProcessFile(file, parserType, env).Success?
    ensures var one := ProcessFile(file, parserType, env); var all := Batch([file], parserType, env);
      && all.Success? && all.parserType == one.parserType && all.stats == one.stats
      && all.rawCount == one.rawCount && all.processedCount == one.processedCount
  {
    var name := TypeOf(file, parserType);
    assert Names([file], parserType) == [name];
    var rows := Load(name, file, env).value;
    assert Loads([file], [name], env) == [Ok(rows)];
    AccumulateSingle(name, rows);
  }
}
