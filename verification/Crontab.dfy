/** The crontab line editor: blocks of comments and job lines in a text. */
module Crontab {
  import opened Sequences
  import opened Text

  datatype CronJobRequest = CronJobRequest(schedule: string, command: string, comment: string)

  datatype CronError = NotFound | NotACronJob

  // ----- what a line is -----

  predicate IsNameStart(c: char) {
    'A' <= c <= 'Z' || 'a' <= c <= 'z' || c == '_'
  }

  predicate NameThenEquals(s: string) {
    s != [] && if s[0] == '=' then '\n' !in s else (IsNameStart(s[0]) || IsDigit(s[0])) && NameThenEquals(s[1..])
  }

  /** A name, an equals sign, and anything up to the end of the line. */
  predicate IsEnvLine(s: string) {
    s != [] && IsNameStart(s[0]) && NameThenEquals(s[1..])
  }

  predicate HasPrefix(s: string, c: char) {
    s != [] && s[0] == c
  }

  predicate IsCronLine(line: string) {
    line != "" &&
    var trimmed := TrimSpace(line);
    var body := if HasPrefix(trimmed, '#') then TrimSpace(trimmed[1..]) else trimmed;
    body != "" && !HasPrefix(body, '#') && (HasPrefix(body, '@') || |Fields(body)| >= 6)
  }

  predicate IsCronSyntaxLine(line: string, userCrontab: bool) {
    var trimmed := TrimSpace(line);
    trimmed != "" &&
    if HasPrefix(trimmed, '@') then |Fields(trimmed)| >= (if userCrontab then 2 else 3)
    else |Fields(trimmed)| >= (if userCrontab then 6 else 7)
  }

  /** The text of a comment that belongs to the job below it. */
  predicate IsPlainComment(text: string) {
    text != "" && !IsEnvLine(text) && !IsCronSyntaxLine(text, true)
  }

  /** A line that goes with the job line below it. */
  predicate IsAttached(line: string) {
    var prev := TrimSpace(line);
    HasPrefix(prev, '#') && IsPlainComment(TrimSpace(prev[1..]))
  }

  // ----- lines and text -----

  function NormalizeLines(content: string): seq<string> {
    if content == "" then []
    else
      var lines := Split(ReplaceAll(content, "\r\n", "\n"), '\n');
      if lines[|lines| - 1] == "" then lines[..|lines| - 1] else lines
  }

  /** How a list of lines is written back. */
  function TextOf(lines: seq<string>): string {
    if lines == [] then "" else Join(lines, "\n") + "\n"
  }

  function Part(piece: string): seq<string> {
    if TrimSpace(piece) == "" then [] else [TrimSpace(piece)]
  }

  /** The comment's lines that are not blank, trimmed. */
  function CommentParts(pieces: seq<string>): seq<string> {
    if pieces == [] then [] else CommentParts(pieces[..|pieces| - 1]) + Part(pieces[|pieces| - 1])
  }

  function PartsOf(comment: string): seq<string> {
    CommentParts(Split(TrimSpace(comment), '\n'))
  }

  function AsComments(parts: seq<string>): (lines: seq<string>)
    ensures |lines| == |parts|
  {
    if parts == [] then [] else AsComments(parts[..|parts| - 1]) + ["# " + parts[|parts| - 1]]
  }

  function JobLine(job: CronJobRequest): string {
    TrimSpace(job.schedule) + " " + TrimSpace(job.command)
  }

  function BlockOf(job: CronJobRequest): seq<string> {
    AsComments(PartsOf(job.comment)) + [JobLine(job)]
  }

  // ----- blocks -----

  /** Which of the lines go with the line below them. */
  function Attached(lines: seq<string>): (flags: seq<bool>)
    ensures |flags| == |lines|
  {
    if lines == [] then [] else Attached(lines[..|lines| - 1]) + [IsAttached(lines[|lines| - 1])]
  }

  lemma {:induction false} AttachedAt(lines: seq<string>, i: nat)
    requires i < |lines|
    ensures Attached(lines)[i] == IsAttached(lines[i])
  {
    if i < |lines| - 1 {
      AttachedAt(lines[..|lines| - 1], i);
    }
  }

  /** Where the block that ends at line `idx` starts: as far up as the lines go with it. */
  function BlockStart(attached: seq<bool>, idx: nat): (start: nat)
    requires idx < |attached|
    ensures start <= idx
    ensures forall k :: start <= k < idx ==> attached[k]
    ensures start > 0 ==> !attached[start - 1]
  {
    if idx > 0 && attached[idx - 1] then BlockStart(attached, idx - 1) else idx
  }

  function JobBlock(lines: seq<string>, lineNo: int): (r: Result<nat, CronError>)
    ensures r.Ok? ==> r.value < lineNo <= |lines|
  {
    if lineNo < 1 || lineNo > |lines| then Err(NotFound)
    else if !IsCronLine(TrimSpace(lines[lineNo - 1])) then Err(NotACronJob)
    else Ok(BlockStart(Attached(lines), lineNo - 1))
  }

  /** `lines` with the block that ends at line `lineNo` replaced by `block`. */
  function EditLines(lines: seq<string>, lineNo: int, block: seq<string>): Result<seq<string>, CronError> {
    match JobBlock(lines, lineNo)
    case Err(e) => Err(e)
    case Ok(start) => Ok(lines[..start] + block + lines[lineNo..])
  }

  function Edited(current: string, lineNo: int, block: seq<string>): Result<string, CronError> {
    match EditLines(NormalizeLines(current), lineNo, block)
    case Err(e) => Err(e)
    case Ok(lines) => Ok(TextOf(lines))
  }

  function Appended(current: string, job: CronJobRequest): string {
    TextOf(NormalizeLines(current) + BlockOf(job))
  }

  lemma CommentPartsExtend(pieces: seq<string>, i: nat)
    requires i < |pieces|
    ensures CommentParts(pieces[..i + 1]) == CommentParts(pieces[..i]) + Part(pieces[i])
  {
    assert pieces[..i + 1][..i] == pieces[..i];
  }

  lemma OneMoreComment(parts: seq<string>, part: string)
    ensures AsComments(parts + [part]) == AsComments(parts) + ["# " + part]
  {
    assert (parts + [part])[..|parts|] == parts;
  }

  lemma BlankComment()
    ensures CommentParts(Split("", '\n')) == []
  {
    assert Split("", '\n') == [""] && [""][..0] == [];
    assert Part("") == [];
  }

  method SplitCommentLines(comment: string) returns (lines: seq<string>)
    ensures lines == AsComments(PartsOf(comment))
  {
    var trimmed := TrimSpace(comment);
    if trimmed == "" {
      BlankComment();
      return [];
    }
    var pieces := Split(trimmed, '\n');
    lines := [];
    for i := 0 to |pieces|
      invariant lines == AsComments(CommentParts(pieces[..i]))
    {
      CommentPartsExtend(pieces, i);
      var part := TrimSpace(pieces[i]);
      if part == "" {
        assert CommentParts(pieces[..i + 1]) == CommentParts(pieces[..i]);
        continue;
      }
      OneMoreComment(CommentParts(pieces[..i]), part);
      lines := lines + ["# " + part];
    }
    assert pieces[..|pieces|] == pieces;
  }

  method FindJobBlock(lines: seq<string>, lineNo: int) returns (r: Result<(nat, nat), CronError>)
    ensures JobBlock(lines, lineNo).Err? ==> r == Err(JobBlock(lines, lineNo).error)
    ensures JobBlock(lines, lineNo).Ok? ==> r == Ok((JobBlock(lines, lineNo).value, lineNo))
    ensures r.Ok? ==> r.value.0 < r.value.1 == lineNo <= |lines|
  {
    var idx := lineNo - 1;
    if idx < 0 || idx >= |lines| {
      return Err(NotFound);
    }
    var line := TrimSpace(lines[idx]);
    if !IsCronLine(line) {
      return Err(NotACronJob);
    }
    var start := idx;
    while start > 0
      invariant 0 <= start <= idx && BlockStart(Attached(lines), idx) == BlockStart(Attached(lines), start)
    {
      AttachedAt(lines, start - 1);
      var prev := TrimSpace(lines[start - 1]);
      if prev == "" {
        break;
      }
      if prev[0] != '#' {
        break;
      }
      var candidate := TrimSpace(prev[1..]);
      if candidate == "" || IsEnvLine(candidate) || IsCronSyntaxLine(candidate, true) {
        break;
      }
      start := start - 1;
    }
    r := Ok((start, idx + 1));
  }

  method WriteLines(lines: seq<string>) returns (text: string)
    ensures text == TextOf(lines)
  {
    if |lines| == 0 {
      return "";
    }
    text := Join(lines, "\n") + "\n";
  }

  method BuildAppendedCrontab(current: string, job: CronJobRequest) returns (text: string)
    ensures text == Appended(current, job)
  {
    var lines := NormalizeLines(current);
    var comments := SplitCommentLines(job.comment);
    var block := comments + [JobLine(job)];
    lines := lines + block;
    text := WriteLines(lines);
  }

  method ReplaceCronLine(current: string, lineNo: int, job: CronJobRequest) returns (r: Result<string, CronError>)
    ensures r == Edited(current, lineNo, BlockOf(job))
  {
    var lines := NormalizeLines(current);
    if lineNo > |lines| {
      return Err(NotFound);
    }
    var block := FindJobBlock(lines, lineNo);
    if block.Err? {
      return Err(block.error);
    }
    var (start, end) := block.value;
    var comments := SplitCommentLines(job.comment);
    var replacement := comments + [JobLine(job)];
    var text := WriteLines(lines[..start] + replacement + lines[end..]);
    r := Ok(text);
  }

  method DeleteCronLine(current: string, lineNo: int) returns (r: Result<string, CronError>)
    ensures r == Edited(current, lineNo, [])
  {
    var lines := NormalizeLines(current);
    if lineNo > |lines| {
      return Err(NotFound);
    }
    var block := FindJobBlock(lines, lineNo);
    if block.Err? {
      return Err(block.error);
    }
    var (start, end) := block.value;
    var updated := lines[..start] + lines[end..];
    assert lines[..start] + [] + lines[end..] == updated;
    var text := WriteLines(updated);
    r := Ok(text);
  }
}
