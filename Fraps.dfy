/**
 * The FRAPS reader of `parsers/fraps_parser.py`: one row per text line of
 * the form `<application> <fps> [<min> [<max>]] ...`. The parser is not in
 * the registry, so nothing else in the system calls it.
 */
module FrapsParser {
  import opened Wrappers
  import opened Text
  import opened Benchmark
  import opened Outcome

  function SupportedFormats(): seq<string> {
    [".csv", ".txt", ".fraps"]
  }

  /**
   * One FRAPS row. `moment` stands for the clock readings of lines 21-22:
   * its date is the Date column, but of the Time column, a full time of day,
   * it keeps only the hour.
   */
  datatype FrapsRow = FrapsRow(moment: Moment, app: string, fps: real, minFps: real, maxFps: real)

  /** The loop body of lines 16-28; `float()` raising is `Fail`, for nothing catches it. */
  function ParseLine(line: string, env: Env): (o: Outcome<FrapsRow>)
    ensures o.Row? ==> o.row.app != [] && forall j :: 0 <= j < |o.row.app| ==> !IsSpace(o.row.app[j])
  {
    if Strip(line) == [] || StartsWith(line, "#") then Skip
    else
      var parts := Words(line);
      if |parts| < 2 then Skip
      else
        var fps := env.toFloat(parts[1]);
        var lo := if |parts| > 2 then env.toFloat(parts[2]) else Some(0.0);
        var hi := if |parts| > 3 then env.toFloat(parts[3]) else Some(0.0);
        if fps.None? || lo.None? || hi.None? then Fail
        else Row(FrapsRow(env.now, parts[0], fps.value, lo.value, hi.value))
  }

  /** The outcome of every line, in file order. */
  function Outcomes(lines: seq<string>, env: Env): (outs: seq<Outcome<FrapsRow>>)
    ensures |outs| == |lines|
  {
    Map(line => ParseLine(line, env), lines)
  }

  /** Each line is read on its own. */
  lemma OutcomesAppend(a: seq<string>, b: seq<string>, env: Env)
    ensures Outcomes(a + b, env) == Outcomes(a, env) + Outcomes(b, env)
  {
    MapAppend(line => ParseLine(line, env), a, b);
  }

  /** `parse_file` on the lines `readlines()` returns. */
  function Decode(lines: seq<string>, env: Env): Option<seq<FrapsRow>> {
    Collect(Outcomes(lines, env))
  }

  /** The body of the loop of `parse_file` for one line. */
  method ReadLine(line: string, env: Env) returns (o: Outcome<FrapsRow>)
    ensures o == ParseLine(line, env)
  {
    o := Skip;
    if Strip(line) != [] && !StartsWith(line, "#") {
      var parts := Words(line);
      if |parts| >= 2 {
        var fps := env.toFloat(parts[1]);
        var lo := if |parts| > 2 then env.toFloat(parts[2]) else Some(0.0);
        var hi := if |parts| > 3 then env.toFloat(parts[3]) else Some(0.0);
        if fps.None? || lo.None? || hi.None? {
          o := Fail;
        } else {
          o := Row(FrapsRow(env.now, parts[0], fps.value, lo.value, hi.value));
        }
      }
    }
  }

  /** `FrapsParser.parse_file`, as written: a loop appending one row per accepted line. */
  method ParseFile(lines: seq<string>, env: Env) returns (r: Option<seq<FrapsRow>>)
    ensures r == Decode(lines, env)
  {
    ghost var outs := Outcomes(lines, env);
    var rows: seq<FrapsRow> := [];
    for k := 0 to |lines|
      invariant Collect(outs[..k]) == Some(rows)
    {
      CollectPrefix(outs, k);
      var o := ReadLine(lines[k], env);
      assert outs[k] == o;
      match o
      case Fail =>
        CollectFailIff(outs);
        return None;
      case Skip =>
      case Row(row) =>
        rows := rows + [row];
    }
    assert outs[..|lines|] == outs;
    r := Some(rows);
  }

  /** A line that cannot be read as numbers fails the whole file. */
  lemma FailAnywhere(lines: seq<string>, k: nat, env: Env)
    requires k < |lines| && ParseLine(lines[k], env).Fail?
    ensures Decode(lines, env).None?
  {
    CollectFailIff(Outcomes(lines, env));
  }

  /** Blank lines, comment lines and one-word lines may be added anywhere without changing the result. */
  lemma SkippedLineIgnored(a: seq<string>, line: string, b: seq<string>, env: Env)
    requires Strip(line) == [] || StartsWith(line, "#") || |Words(line)| < 2
    ensures Decode(a + [line] + b, env) == Decode(a + b, env)
  {
    assert ParseLine(line, env) == Skip;
    assert Outcomes([line], env) == [Skip];
    OutcomesAppend(a + [line], b, env);
    OutcomesAppend(a, [line], env);
    OutcomesAppend(a, b, env);
    SkipAnywhere(Outcomes(a, env), Outcomes(b, env));
  }

  /** When every line gives a row, there is exactly one row per line, in file order. */
  lemma OneRowPerLine(lines: seq<string>, env: Env)
    requires forall k :: 0 <= k < |lines| ==> ParseLine(lines[k], env).Row?
    ensures Decode(lines, env).Some? && |Decode(lines, env).value| == |lines|
    ensures forall k :: 0 <= k < |lines| ==> Decode(lines, env).value[k] == ParseLine(lines[k], env).row
  {
    CollectRows(Outcomes(lines, env));
  }

  /**
   * Application is the first word and FPS the second; MinFPS and MaxFPS are
   * the third and fourth when present and 0 otherwise; later words are ignored.
   */
  lemma LineFields(line: string, env: Env)
    requires ParseLine(line, env).Row?
    ensures var row := ParseLine(line, env).row; var ws := Words(line);
      && |ws| >= 2
      && row.app == ws[0]
      && Some(row.fps) == env.toFloat(ws[1])
      && (|ws| == 2 ==> row.minFps == 0.0 && row.maxFps == 0.0)
      && (|ws| == 3 ==> Some(row.minFps) == env.toFloat(ws[2]) && row.maxFps == 0.0)
      && (|ws| >= 4 ==> Some(row.minFps) == env.toFloat(ws[2]) && Some(row.maxFps) == env.toFloat(ws[3]))
  {
  }

  /** `can_parse`: "FRAPS" anywhere, or a line (cut at `'\n'`) starting with "#". */
  predicate CanParse(content: string) {
    var lines := Split(content, '\n');
    Contains(content, "FRAPS") || exists i :: 0 <= i < |lines| && StartsWith(lines[i], "#")
  }

  /** A comment line at the start of the text, or after any newline, makes `can_parse` accept. */
  lemma CommentLineAccepted(before: string, line: string)
    requires StartsWith(line, "#")
    ensures CanParse(line)
    ensures CanParse(before + "\n" + line)
  {
    var parts := Split(line, '\n');
    assert line[0] == '#';
    assert parts[0] == [line[0]] + Split(line[1..], '\n')[0];
    assert StartsWith(parts[0], "#");
    SplitAppend(before, line, '\n');
    var all := Split(before + "\n" + line, '\n');
    assert all[|Split(before, '\n')|] == parts[0];
  }
}
