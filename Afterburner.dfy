/**
 * The MSI Afterburner reader of `parsers/msi_afterburner_parser.py`: the
 * lines of a benchmark log, taken six at a time. The first line of a block
 * carries the date, the time, the application and the frame count; the
 * next five carry the average, minimum, maximum, 1% low and 0.1% low rates.
 *
 * Every exception raised inside a block escapes `parse_file`: the tuple of
 * its first `except` clause names `datetime.Error`, which the `datetime`
 * class does not have, so evaluating it raises AttributeError in place of
 * the original error. `None` below stands for that escape.
 */
module AfterburnerParser {
  import opened Wrappers
  import opened Text
  import opened Benchmark
  import opened Outcome
  import Registry
  import Json

  function SupportedFormats(): seq<string> {
    [".txt", ".benchmark"]
  }

  /** The application loop of lines 37-45: the first token naming an `.exe`, or any later non-blank token. */
  function AppName(toks: seq<string>, j: nat): string
    decreases |toks| - j
  {
    if j >= |toks| then "Unknown"
    else if Qualifies(toks[j], j) then AppOf(toks[j])
    else AppName(toks, j + 1)
  }

  /** A token qualifies as the application at index `j`: it names an `.exe`, or it is a non-blank token after the time. */
  predicate Qualifies(part: string, j: nat) {
    part != [] && (Contains(part, ".exe") || (j > 1 && !IsBlank(part)))
  }

  /** The application a qualifying token names: `.exe` removed when present, then stripped. */
  function AppOf(part: string): string {
    if Contains(part, ".exe") then Strip(RemoveAll(part, ".exe")) else Strip(part)
  }

  /** With no qualifying token from index `j` on, the application is "Unknown". */
  lemma {:induction false} AppNameUnknown(toks: seq<string>, j: nat)
    requires forall m :: j <= m < |toks| ==> !Qualifies(toks[m], m)
    ensures AppName(toks, j) == "Unknown"
    decreases |toks| - j
  {
    if j < |toks| {
      AppNameUnknown(toks, j + 1);
    }
  }

  /**
   * The application comes from the first qualifying token: the date (index 0)
   * and time (index 1) tokens only when they name an `.exe`, any non-blank
   * token from index 2 on; `.exe` is removed when present, then it is stripped.
   */
  lemma AppNameFirst(toks: seq<string>, j: nat, k: nat)
    requires j <= k < |toks| && Qualifies(toks[k], k)
    requires forall m :: j <= m < k ==> !Qualifies(toks[m], m)
    ensures AppName(toks, j) == AppOf(toks[k])
  {
    AppNameSkips(toks, j, k);
  }

  /** Tokens that do not qualify are passed over: the search from `j` gives what the search from `k` gives. */
  lemma {:induction false} AppNameSkips(toks: seq<string>, j: nat, k: nat)
    requires j <= k <= |toks|
    requires forall m :: j <= m < k ==> !Qualifies(toks[m], m)
    ensures AppName(toks, j) == AppName(toks, k)
    decreases k - j
  {
    if j < k {
      AppNameStep(toks, j);
      AppNameSkips(toks, j + 1, k);
    }
  }

  /** One token that does not qualify is passed over. */
  lemma AppNameStep(toks: seq<string>, j: nat)
    requires j < |toks| && !Qualifies(toks[j], j)
    ensures AppName(toks, j) == AppName(toks, j + 1)
  {
  }

  /** The first index at or after `j` whose token contains "completed,". */
  function CompletedIndex(toks: seq<string>, j: nat): (k: Option<nat>)
    ensures k.Some? ==> j <= k.value < |toks| && Contains(toks[k.value], "completed,")
    ensures k.Some? ==> forall m :: j <= m < k.value ==> !Contains(toks[m], "completed,")
    ensures k.None? ==> forall m :: j <= m < |toks| ==> !Contains(toks[m], "completed,")
    decreases |toks| - j
  {
    if j >= |toks| then None
    else if Contains(toks[j], "completed,") then Some(j)
    else CompletedIndex(toks, j + 1)
  }

  /** `float(line.split(":")[1].strip().replace("FPS", ""))`, decimal commas read as points when `comma`. */
  function RateOf(line: string, comma: bool, env: Env): Option<real> {
    var parts := Split(line, ':');
    if |parts| < 2 then None
    else
      var v := RemoveAll(Strip(parts[1]), "FPS");
      env.toFloat(if comma then ReplaceChar(v, ',', '.') else v)
  }

  /** `strptime` of the first token with its commas and NUL characters removed, stripped (lines 30-33). */
  function HeaderDate(toks: seq<string>, env: Env): Option<Date>
    requires toks != []
  {
    env.toDate(Strip(RemoveChar(RemoveChar(toks[0], ','), '\U{0}')))
  }

  /** The seven conversions of lines 60-84 all succeed for the block at `data[i]` whose "completed," token is `toks[k]`. */
  predicate Converts(data: seq<string>, i: nat, toks: seq<string>, k: nat, env: Env)
    requires i + 5 < |data| && k + 5 < |toks|
  {
    && env.toInt(toks[k + 1]).Some? && env.toFloat(toks[k + 5]).Some?
    && RateOf(data[i + 1], false, env).Some? && RateOf(data[i + 2], true, env).Some?
    && RateOf(data[i + 3], true, env).Some? && RateOf(data[i + 4], false, env).Some?
    && RateOf(data[i + 5], false, env).Some?
  }

  /** The body of the `try` for the block starting at `data[i]` (lines 29-100). */
  function ParseBlock(data: seq<string>, i: nat, env: Env): Outcome<Record>
    requires i + 5 < |data|
  {
    var toks := Split(data[i], ' ');
    match HeaderDate(toks, env)
    case None => Fail
    case Some(date) =>
      if |toks| < 2 then Fail
      else
        match CompletedIndex(toks, 0)
        case None => Skip
        case Some(k) =>
          if k + 5 >= |toks| then Skip
          else BlockRecord(data, i, date, toks, k, env)
  }

  /** The conversions and the row of lines 60-100, for a block whose "completed," token is `toks[k]`. */
  function BlockRecord(data: seq<string>, i: nat, date: Date, toks: seq<string>, k: nat, env: Env): Outcome<Record>
    requires i + 5 < |data| && 2 <= |toks| && k + 5 < |toks|
  {
    var frames := env.toInt(toks[k + 1]);
    var taken := env.toFloat(toks[k + 5]);
    var avg := RateOf(data[i + 1], false, env);
    var lo := RateOf(data[i + 2], true, env);
    var hi := RateOf(data[i + 3], true, env);
    var l1 := RateOf(data[i + 4], false, env);
    var l01 := RateOf(data[i + 5], false, env);
    if frames.None? || taken.None? || avg.None? || lo.None? || hi.None? || l1.None? || l01.None? then Fail
    else Row(Record(date, toks[1], AppName(toks, 0), frames.value, taken.value,
                    avg.value, lo.value, hi.value, l1.value, l01.value))
  }

  /** The block starting at line `i`: its `try` body when six lines remain, else the `continue` of lines 25-26. */
  function BlockAt(data: seq<string>, i: nat, env: Env): Outcome<Record> {
    if i + 5 < |data| then ParseBlock(data, i, env) else Skip
  }

  /** How many times `range(0, n, 6)` runs. */
  function Blocks(n: nat): (b: nat)
    ensures n <= 6 * b < n + 6
  {
    (n + 5) / 6
  }

  /** The outcome of every block of the file, in order. */
  function Outcomes(data: seq<string>, env: Env): (outs: seq<Outcome<Record>>)
    ensures |outs| == Blocks(|data|)
  {
    seq(Blocks(|data|), b requires 0 <= b => BlockAt(data, 6 * b, env))
  }

  /** `parse_file` on the lines `readlines()` returns. */
  function Decode(data: seq<string>, env: Env): Option<seq<Record>> {
    Collect(Outcomes(data, env))
  }

  /** `MSIAfterburnerParser.parse_file`, as written: a loop over block starts. */
  method ParseFile(data: seq<string>, env: Env) returns (r: Option<seq<Record>>)
    ensures r == Decode(data, env)
  {
    ghost var outs := Outcomes(data, env);
    var rows: seq<Record> := [];
    var i := 0;
    ghost var b := 0;
    while i < |data|
      invariant i == 6 * b && b <= |outs|
      invariant Collect(outs[..b]) == Some(rows)
      decreases |data| - i
    {
      CollectPrefix(outs, b);
      var outcome := BlockAt(data, i, env);
      assert outcome == outs[b];
      match outcome {
        case Fail =>
          CollectFailIff(outs);
          return None;
        case Skip =>
        case Row(row) => rows := rows + [row];
      }
      i, b := i + 6, b + 1;
    }
    assert outs[..b] == outs;
    r := Some(rows);
  }

  /** The outcome of block `b` is the block starting at line 6b. */
  lemma OutcomeAt(data: seq<string>, env: Env, b: nat)
    requires 6 * b + 5 < |data|
    ensures b < |Outcomes(data, env)| && Outcomes(data, env)[b] == ParseBlock(data, 6 * b, env)
  {
  }

  /** A block that raises makes the whole file fail, whatever the other blocks hold. */
  lemma FailAnywhere(data: seq<string>, b: nat, env: Env)
    requires 6 * b + 5 < |data| && ParseBlock(data, 6 * b, env) == Fail
    ensures Decode(data, env).None?
  {
    var outs := Outcomes(data, env);
    OutcomeAt(data, env, b);
    CollectFailIff(outs);
  }

  /** Each complete block gives at most one row; an incomplete tail gives none. */
  lemma RowCount(data: seq<string>, env: Env)
    requires Decode(data, env).Some?
    ensures 6 * |Decode(data, env).value| <= |data|
  {
    var outs := Outcomes(data, env);
    var m := |data| / 6;
    assert m <= |outs|;
    CollectSkips(outs, m);
  }

  /** A block depends on its own six lines only. */
  lemma BlockLocal(data: seq<string>, tail: seq<string>, b: nat, env: Env)
    requires 6 * b + 5 < |data|
    ensures BlockAt(data + tail, 6 * b, env) == BlockAt(data, 6 * b, env)
  {
    assert forall k :: 0 <= k < |data| ==> (data + tail)[k] == data[k];
  }

  /** Fewer than six lines after the last complete block are ignored. */
  lemma TrailingLinesIgnored(data: seq<string>, tail: seq<string>, m: nat, env: Env)
    requires |data| == 6 * m && |tail| < 6
    ensures Decode(data + tail, env) == Decode(data, env)
  {
    var outs := Outcomes(data, env);
    var outs' := Outcomes(data + tail, env);
    forall b | 0 <= b < m
      ensures outs'[b] == outs[b]
    {
      BlockLocal(data, tail, b, env);
    }
    assert outs'[..m] == outs;
    CollectSkips(outs', m);
  }

  /** A block whose first line holds no "completed," token adds no row, once its date and time are read. */
  lemma MarkerlessBlockSkipped(data: seq<string>, i: nat, env: Env)
    requires i + 5 < |data|
    requires var toks := Split(data[i], ' ');
      && HeaderDate(toks, env).Some?
      && |toks| >= 2
      && forall m :: 0 <= m < |toks| ==> !Contains(toks[m], "completed,")
    ensures ParseBlock(data, i, env) == Skip
  {
  }

  /**
   * A block whose seven conversions succeed gives a row: Date as read,
   * Time as token 1, Application from `AppName`, Frames from token k + 1,
   * TimeTaken from token k + 5, the average, 1% low and 0.1% low rates from
   * lines i + 1, i + 4 and i + 5, and the minimum and maximum from lines
   * i + 2 and i + 3 with decimal commas read as points; a block with a
   * failing conversion fails.
   */
  lemma BlockRecordFields(data: seq<string>, i: nat, date: Date, toks: seq<string>, k: nat, env: Env)
    requires i + 5 < |data| && 2 <= |toks| && k + 5 < |toks|
    ensures BlockRecord(data, i, date, toks, k, env).Row? <==> Converts(data, i, toks, k, env)
    ensures BlockRecord(data, i, date, toks, k, env).Fail? <==> !Converts(data, i, toks, k, env)
    ensures Converts(data, i, toks, k, env) ==>
      BlockRecord(data, i, date, toks, k, env) == Row(Record(
        date, toks[1], AppName(toks, 0),
        env.toInt(toks[k + 1]).value, env.toFloat(toks[k + 5]).value,
        RateOf(data[i + 1], false, env).value, RateOf(data[i + 2], true, env).value,
        RateOf(data[i + 3], true, env).value, RateOf(data[i + 4], false, env).value,
        RateOf(data[i + 5], false, env).value))
  {
  }

  /**
   * A block whose date converts and whose first line has a time token and a
   * "completed," token at `k` with five tokens after it is read by
   * `BlockRecord`, with the converted date.
   */
  lemma BlockRow(data: seq<string>, i: nat, env: Env, k: nat)
    requires i + 5 < |data|
    requires var toks := Split(data[i], ' ');
      && HeaderDate(toks, env).Some? && |toks| >= 2
      && CompletedIndex(toks, 0) == Some(k) && k + 5 < |toks|
    ensures var toks := Split(data[i], ' ');
      ParseBlock(data, i, env) == BlockRecord(data, i, HeaderDate(toks, env).value, toks, k, env)
  {
  }

  /** With the date and time read, a "completed," token with fewer than five tokens after it skips the block. */
  lemma ShortHeaderSkipped(data: seq<string>, i: nat, env: Env)
    requires i + 5 < |data|
    requires var toks := Split(data[i], ' ');
      var k := CompletedIndex(toks, 0);
      HeaderDate(toks, env).Some? && |toks| >= 2 && k.Some? && k.value + 5 >= |toks|
    ensures ParseBlock(data, i, env) == Skip
  {
  }

  /** A date that does not convert, or a first line without a time token, fails the block. */
  lemma HeaderFails(data: seq<string>, i: nat, env: Env)
    requires i + 5 < |data|
    requires var toks := Split(data[i], ' ');
      HeaderDate(toks, env).None? || |toks| < 2
    ensures ParseBlock(data, i, env) == Fail
  {
  }

  /**
   * A block gives a row exactly when its date converts, its first line has
   * a time token and a "completed," token with five tokens after it, and
   * its seven conversions succeed.
   */
  lemma BlockRowIff(data: seq<string>, i: nat, env: Env)
    requires i + 5 < |data|
    ensures var toks := Split(data[i], ' ');
      var k := CompletedIndex(toks, 0);
      ParseBlock(data, i, env).Row? <==>
        && HeaderDate(toks, env).Some? && |toks| >= 2
        && k.Some? && k.value + 5 < |toks| && Converts(data, i, toks, k.value, env)
  {
    var toks := Split(data[i], ' ');
    if HeaderDate(toks, env).None? || |toks| < 2 {
      HeaderFails(data, i, env);
    } else if CompletedIndex(toks, 0).None? {
      MarkerlessBlockSkipped(data, i, env);
    } else {
      var k := CompletedIndex(toks, 0).value;
      if k + 5 >= |toks| {
        ShortHeaderSkipped(data, i, env);
      } else {
        BlockRow(data, i, env, k);
        BlockRecordFields(data, i, HeaderDate(toks, env).value, toks, k, env);
      }
    }
  }

  /** `can_parse`: some line, cut at `'\n'`, holds both "completed," and "frames". */
  predicate CanParse(content: string) {
    var lines := Split(content, '\n');
    exists i :: 0 <= i < |lines| && Contains(lines[i], "completed,") && Contains(lines[i], "frames")
  }

  /** Content the detector calls MSI Afterburner is accepted by `can_parse`; the converse fails without ".exe". */
  lemma DetectImpliesCanParse(content: string, decoded: Option<Json.Json>)
    requires Registry.Detect(content, decoded) == Registry.MsiAfterburner
    ensures CanParse(content)
  {
    var all := Split(content, '\n');
    var head := Registry.Head(content);
    var i :| 0 <= i < |head| && Registry.AfterburnerLine(head[i]);
    assert head[i] == all[i];
  }

  /** A marker line without ".exe" passes `can_parse`, yet the detector does not call it MSI Afterburner. */
  lemma CanParseWithoutDetect(line: string, decoded: Option<Json.Json>)
    requires '\n' !in line && !Registry.JsonProbe(line, decoded)
    requires Contains(line, "completed,") && Contains(line, "frames")
    requires !Contains(line, ".exe") && !Registry.CapFrameLine(line)
    ensures CanParse(line)
    ensures Registry.Detect(line, decoded) == Registry.Custom
  {
    SplitNoSeparator(line, '\n');
    assert Split(line, '\n')[0] == line;
    Registry.DetectSingleLine(line, decoded);
  }
}
