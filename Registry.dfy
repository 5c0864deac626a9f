/**
 * The parser registry and the format detector of `parsers/__init__.py`:
 * a three-entry lookup by name, and a total classifier of file content.
 */
module Registry {
  import opened Wrappers
  import opened Text
  import opened Json

  /** The keys of the parser registry. */
  datatype Tag = CapFrame | MsiAfterburner | Custom {
    function Name(): string {
      match this
      case CapFrame => "capframe"
      case MsiAfterburner => "msi_afterburner"
      case Custom => "custom"
    }
  }

  /** `get_parser`: the parser registered under `name`; `None` is the ValueError for any other name. */
  function GetParser(name: string): (r: Option<Tag>)
    ensures r.Some? <==> name == "capframe" || name == "msi_afterburner" || name == "custom"
    ensures r.Some? ==> r.value.Name() == name
  {
    if name == "capframe" then Some(CapFrame)
    else if name == "msi_afterburner" then Some(MsiAfterburner)
    else if name == "custom" then Some(Custom)
    else None
  }

  /** Looking a tag up by its own name finds that tag. */
  lemma GetParserName(t: Tag)
    ensures GetParser(t.Name()) == Some(t)
  {
  }

  /** `file_content.split("\n")[:10]`. */
  function Head(content: string): (lines: seq<string>)
    ensures |lines| <= 10
  {
    var all := Split(content, '\n');
    if |all| <= 10 then all else all[..10]
  }

  /**
   * The whole-content JSON probe: after stripping, the text is wrapped in
   * braces and `json.loads` (`decoded`, `None` when it raised) gave an object
   * holding the keys Hash, Info and Runs, whatever their values.
   */
  predicate JsonProbe(content: string, decoded: Option<Json>) {
    var t := Strip(content);
    && StartsWith(t, "{") && EndsWith(t, "}")
    && decoded.Some? && decoded.value.JObj?
    && "Hash" in decoded.value.fields
    && "Info" in decoded.value.fields
    && "Runs" in decoded.value.fields
  }

  /** A line mentioning CapFrame in any letter case. */
  predicate CapFrameLine(line: string) {
    Contains(LowerAscii(line), "capframe")
  }

  /** A line holding all three Afterburner markers, matched case-sensitively. */
  predicate AfterburnerLine(line: string) {
    Contains(line, "completed,") && Contains(line, "frames") && Contains(line, ".exe")
  }

  predicate AnyCapFrameLine(lines: seq<string>) {
    exists i :: 0 <= i < |lines| && CapFrameLine(lines[i])
  }

  predicate AnyAfterburnerLine(lines: seq<string>) {
    exists i :: 0 <= i < |lines| && AfterburnerLine(lines[i])
  }

  /** `detect_parser_type`: total, with the JSON probe first, then the line rules on the first ten lines. */
  function Detect(content: string, decoded: Option<Json>): Tag {
    var lines := Head(content);
    if JsonProbe(content, decoded) then CapFrame
    else if AnyCapFrameLine(lines) then CapFrame
    else if AnyAfterburnerLine(lines) then MsiAfterburner
    else if exists i :: 0 <= i < |lines| && Contains(lines[i], "completed,") && Contains(lines[i], "frames") then Custom
    else Custom
  }

  /** The generic tag comes out exactly when none of the three CapFrame/Afterburner rules fires. */
  lemma DetectCustomIff(content: string, decoded: Option<Json>)
    ensures Detect(content, decoded) == Custom <==>
      !JsonProbe(content, decoded) && !AnyCapFrameLine(Head(content)) && !AnyAfterburnerLine(Head(content))
  {
  }

  /** The JSON probe wins over every line rule, and a CapFrame line wins over an Afterburner line. */
  lemma DetectPrecedence(content: string, decoded: Option<Json>)
    ensures JsonProbe(content, decoded) ==> Detect(content, decoded) == CapFrame
    ensures AnyCapFrameLine(Head(content)) ==> Detect(content, decoded) == CapFrame
    ensures Detect(content, decoded) == MsiAfterburner <==>
      !JsonProbe(content, decoded) && !AnyCapFrameLine(Head(content)) && AnyAfterburnerLine(Head(content))
  {
  }

  /** Text after the tenth line never changes what the line rules see. */
  lemma {:induction false} HeadIgnoresLaterLines(content: string, tail: string)
    requires |Split(content, '\n')| >= 10
    ensures Head(content + "\n" + tail) == Head(content)
  {
    SplitAppend(content, tail, '\n');
    var all := Split(content + "\n" + tail, '\n');
    assert all == Split(content, '\n') + Split(tail, '\n');
    assert all[..10] == Split(content, '\n')[..10];
  }

  /**
   * Markers on the eleventh line or later have no effect: once the JSON probe
   * fails, appending lines after the tenth leaves the tag unchanged.
   */
  lemma DetectIgnoresLaterLines(content: string, tail: string, decoded: Option<Json>, decoded': Option<Json>)
    requires |Split(content, '\n')| >= 10
    requires !JsonProbe(content, decoded) && !JsonProbe(content + "\n" + tail, decoded')
    ensures Detect(content + "\n" + tail, decoded') == Detect(content, decoded)
  {
    HeadIgnoresLaterLines(content, tail);
  }

  /** On a single line the tag is decided by the three marker rules alone. */
  lemma DetectSingleLine(line: string, decoded: Option<Json>)
    requires '\n' !in line
    requires !JsonProbe(line, decoded)
    ensures Detect(line, decoded) ==
      if CapFrameLine(line) then CapFrame
      else if AfterburnerLine(line) then MsiAfterburner
      else Custom
  {
    SplitNoSeparator(line, '\n');
    var lines := Head(line);
    assert lines == [line] && lines[0] == line;
    assert AnyCapFrameLine(lines) <==> CapFrameLine(line);
    assert AnyAfterburnerLine(lines) <==> AfterburnerLine(line);
  }
}
