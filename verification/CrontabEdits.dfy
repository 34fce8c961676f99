/** What editing a crontab keeps, and when one edit undoes another. */
module CrontabEdits {
  import opened Sequences
  import opened Text
  import opened Crontab

  predicate OneLine(s: string) {
    '\n' !in s
  }

  ghost predicate AllOneLine(lines: seq<string>) {
    forall i :: 0 <= i < |lines| ==> OneLine(lines[i])
  }

  function StripReturn(line: string): string {
    if line != [] && line[|line| - 1] == '\r' then line[..|line| - 1] else line
  }

  function Stripped(lines: seq<string>): (r: seq<string>)
    ensures |r| == |lines|
  {
    if lines == [] then [] else [StripReturn(lines[0])] + Stripped(lines[1..])
  }

  /** No line ends in a carriage return. */
  predicate NoReturns(lines: seq<string>) {
    Stripped(lines) == lines
  }

  /** Every line followed by a line feed. */
  function Flat(lines: seq<string>): string {
    if lines == [] then "" else lines[0] + ("\n" + Flat(lines[1..]))
  }

  // ----- writing and reading back -----

  lemma {:induction false} TextIsFlat(lines: seq<string>)
    ensures TextOf(lines) == Flat(lines)
    decreases |lines|
  {
    if |lines| == 1 {
      assert Flat(lines[1..]) == "" && "\n" + "" == "\n";
    } else if |lines| > 1 {
      TextIsFlat(lines[1..]);
      assert Join(lines, "\n") + "\n" == lines[0] + ("\n" + (Join(lines[1..], "\n") + "\n"));
    }
  }

  function Unreturned(s: string): string {
    ReplaceAll(s, "\r\n", "\n")
  }

  lemma UnreturnedOther(c: char, s: string)
    requires c != '\r' || s == [] || s[0] != '\n'
    ensures Unreturned([c] + s) == [c] + Unreturned(s)
  {
    assert ([c] + s)[1..] == s;
    assert s != [] ==> ([c] + s)[1] == s[0];
  }

  lemma UnreturnedPair(s: string)
    ensures Unreturned(['\r'] + (['\n'] + s)) == ['\n'] + Unreturned(s)
  {
    var t := ['\r'] + (['\n'] + s);
    assert "\r\n" <= t && t[2..] == s;
  }

  lemma {:induction false} ReplaceLine(line: string, rest: string)
    requires OneLine(line)
    ensures Unreturned(line + (['\n'] + rest)) == StripReturn(line) + (['\n'] + Unreturned(rest))
    decreases |line|
  {
    var tail := ['\n'] + Unreturned(rest);
    UnreturnedOther('\n', rest);
    if line == [] {
      assert line + (['\n'] + rest) == ['\n'] + rest && StripReturn(line) + tail == tail;
    } else if line == "\r" {
      UnreturnedPair(rest);
      assert line + (['\n'] + rest) == ['\r'] + (['\n'] + rest) && StripReturn(line) + tail == tail;
    } else {
      var more := line[1..] + (['\n'] + rest);
      assert line + (['\n'] + rest) == [line[0]] + more;
      assert |line| > 1 ==> more[0] == line[1] && line[1] in line;
      UnreturnedOther(line[0], more);
      ReplaceLine(line[1..], rest);
      StripTail(line);
      JoinCons(line[0], StripReturn(line[1..]), tail);
    }
  }

  lemma JoinCons(c: char, s: string, tail: string)
    ensures [c] + (s + tail) == ([c] + s) + tail
  {
  }

  lemma StripTail(line: string)
    requires line != [] && line != "\r"
    ensures StripReturn(line) == [line[0]] + StripReturn(line[1..])
  {
    if |line| == 1 {
      assert line == [line[0]] && line[1..] == [];
    }
  }

  lemma {:induction false} ReplaceFlat(lines: seq<string>)
    requires AllOneLine(lines)
    ensures Unreturned(Flat(lines)) == Flat(Stripped(lines))
    decreases |lines|
  {
    if lines == [] {
    } else {
      ReplaceLine(lines[0], Flat(lines[1..]));
      ReplaceFlat(lines[1..]);
    }
  }

  lemma {:induction false} SplitLine(line: string, rest: string, piece: string)
    requires OneLine(line)
    ensures SplitFrom(line + ("\n" + rest), '\n', piece) == [piece + line] + Split(rest, '\n')
    decreases |line|
  {
    var s := line + ("\n" + rest);
    if line == [] {
      assert s == "\n" + rest && s[1..] == rest && piece + line == piece;
    } else {
      assert s[1..] == line[1..] + ("\n" + rest) && s[0] == line[0] && line[0] in line;
      SplitLine(line[1..], rest, piece + [line[0]]);
      assert piece + [line[0]] + line[1..] == piece + line;
    }
  }

  lemma {:induction false} SplitFlat(lines: seq<string>)
    requires AllOneLine(lines)
    ensures Split(Flat(lines), '\n') == lines + [""]
    decreases |lines|
  {
    if lines == [] {
    } else {
      SplitLine(lines[0], Flat(lines[1..]), "");
      assert "" + lines[0] == lines[0];
      SplitFlat(lines[1..]);
      assert [lines[0]] + (lines[1..] + [""]) == lines + [""];
    }
  }

  lemma {:induction false} StrippedOneLine(lines: seq<string>)
    requires AllOneLine(lines)
    ensures AllOneLine(Stripped(lines))
    decreases |lines|
  {
    if lines == [] {
    } else {
      StrippedOneLine(lines[1..]);
      assert OneLine(lines[0]);
    }
  }

  lemma {:induction false} StrippedJoin(a: seq<string>, b: seq<string>)
    ensures Stripped(a + b) == Stripped(a) + Stripped(b)
    decreases |a|
  {
    if a == [] {
      assert a + b == b;
    } else {
      assert (a + b)[1..] == a[1..] + b;
      StrippedJoin(a[1..], b);
    }
  }

  /** Reading back what was written gives the lines, less one carriage return at the end of each. */
  lemma ReadBack(lines: seq<string>)
    requires AllOneLine(lines)
    ensures NormalizeLines(TextOf(lines)) == Stripped(lines)
  {
    TextIsFlat(lines);
    if lines != [] {
      ReplaceFlat(lines);
      StrippedOneLine(lines);
      SplitFlat(Stripped(lines));
      assert Flat(lines) != "";
      assert (Stripped(lines) + [""])[..|lines|] == Stripped(lines);
    }
  }

  lemma TextsDiffer(a: seq<string>, b: seq<string>)
    requires AllOneLine(a) && AllOneLine(b) && TextOf(a) == TextOf(b)
    ensures a == b
  {
    TextIsFlat(a);
    TextIsFlat(b);
    SplitFlat(a);
    SplitFlat(b);
    assert a == (a + [""])[..|a|] && b == (b + [""])[..|b|];
  }

  lemma {:induction false} PiecesOneLine(s: string, piece: string)
    requires OneLine(piece)
    ensures AllOneLine(SplitFrom(s, '\n', piece))
    decreases |s|
  {
    if s == [] {
    } else {
      PiecesOneLine(s[1..], if s[0] == '\n' then [] else piece + [s[0]]);
    }
  }

  lemma NormalizedOneLine(content: string)
    ensures AllOneLine(NormalizeLines(content))
  {
    PiecesOneLine(ReplaceAll(content, "\r\n", "\n"), "");
  }

  // ----- the added block -----

  lemma {:induction false} TrimmedPart(s: string, c: char)
    requires c in TrimSpace(s)
    ensures c in s
  {
    TrimRightPart(TrimLeft(s), c);
    TrimLeftPart(s, c);
  }

  lemma {:induction false} TrimRightPart(s: string, c: char)
    requires c in TrimRight(s)
    ensures c in s
    decreases |s|
  {
    if s != [] && IsSpace(s[|s| - 1]) {
      TrimRightPart(s[..|s| - 1], c);
    }
  }

  lemma {:induction false} TrimLeftPart(s: string, c: char)
    requires c in TrimLeft(s)
    ensures c in s
    decreases |s|
  {
    if s != [] && IsSpace(s[0]) {
      TrimLeftPart(s[1..], c);
    }
  }

  ghost predicate IsTrimmed(part: string) {
    part != "" && !IsSpace(part[0]) && !IsSpace(part[|part| - 1]) && OneLine(part)
  }

  lemma {:induction false} PartsTrimmed(pieces: seq<string>)
    requires AllOneLine(pieces)
    ensures forall i :: 0 <= i < |CommentParts(pieces)| ==> IsTrimmed(CommentParts(pieces)[i])
    decreases |pieces|
  {
    if pieces == [] {
    } else {
      PartsTrimmed(pieces[..|pieces| - 1]);
      var last := pieces[|pieces| - 1];
      assert OneLine(last);
      TrimSpaceEnds(last);
      if '\n' in TrimSpace(last) {
        TrimmedPart(last, '\n');
      }
    }
  }

  lemma CommentLine(part: string)
    requires IsTrimmed(part)
    ensures IsAttached("# " + part) <==> IsPlainComment(part)
    ensures OneLine("# " + part) && StripReturn("# " + part) == "# " + part
  {
    var line := "# " + part;
    assert line[|line| - 1] == part[|part| - 1];
    TrimmedStays(line);
    TrimmedStays(part);
    assert line[1..] == " " + part && (" " + part)[1..] == part;
    assert TrimSpace(line[1..]) == part;
  }

  lemma PartsAreTrimmed(job: CronJobRequest)
    ensures forall i :: 0 <= i < |PartsOf(job.comment)| ==> IsTrimmed(PartsOf(job.comment)[i])
  {
    PiecesOneLine(TrimSpace(job.comment), "");
    PartsTrimmed(Split(TrimSpace(job.comment), '\n'));
  }

  lemma JobLineEnd(job: CronJobRequest)
    ensures StripReturn(JobLine(job)) == JobLine(job)
  {
    var line, command := JobLine(job), TrimSpace(job.command);
    TrimSpaceEnds(job.command);
    assert line[|line| - 1] == if command == "" then ' ' else command[|command| - 1];
  }

  lemma LastAttached(lines: seq<string>)
    requires lines != []
    ensures Attached(lines)[|lines| - 1] == IsAttached(lines[|lines| - 1])
  {
  }

  ghost predicate CommentsWritten(parts: seq<string>) {
    var lines := AsComments(parts);
    && AllOneLine(lines) && NoReturns(lines)
    && forall i :: 0 <= i < |parts| ==> Attached(lines)[i] == IsPlainComment(parts[i])
  }

  lemma OneMoreWritten(parts: seq<string>, part: string)
    requires CommentsWritten(parts) && IsTrimmed(part)
    ensures CommentsWritten(parts + [part])
  {
    hide IsAttached, IsPlainComment, IsTrimmed;
    var line := "# " + part;
    CommentLine(part);
    OneMoreComment(parts, part);
    StrippedJoin(AsComments(parts), [line]);
    AttachedJoin(AsComments(parts), [line]);
    LastAttached([line]);
  }

  lemma {:induction false} CommentLines(parts: seq<string>)
    requires forall i :: 0 <= i < |parts| ==> IsTrimmed(parts[i])
    ensures CommentsWritten(parts)
    decreases |parts|
  {
    hide IsPlainComment, IsTrimmed;
    if parts == [] {
    } else {
      CommentLines(parts[..|parts| - 1]);
      assert parts == parts[..|parts| - 1] + [parts[|parts| - 1]];
      OneMoreWritten(parts[..|parts| - 1], parts[|parts| - 1]);
    }
  }

  /** The lines that the job's line becomes when the text is read back: one, unless it holds line feeds. */
  function ReadJobLine(job: CronJobRequest): (lines: seq<string>)
    ensures lines != []
  {
    Stripped(Split(JobLine(job), '\n'))
  }

  /** The block as it is read back. */
  function ReadBlock(job: CronJobRequest): (lines: seq<string>)
    ensures lines != []
  {
    AsComments(PartsOf(job.comment)) + ReadJobLine(job)
  }

  /** The block as it is written, cut at its line feeds. */
  function WrittenBlock(job: CronJobRequest): seq<string> {
    AsComments(PartsOf(job.comment)) + Split(JobLine(job), '\n')
  }

  lemma {:induction false} FlatSplit(s: string, piece: string)
    ensures Flat(SplitFrom(s, '\n', piece)) == piece + s + "\n"
    decreases |s|
  {
    if s == [] {
      assert Flat([piece]) == piece + ("\n" + "");
    } else if s[0] == '\n' {
      FlatSplit(s[1..], []);
      var rest := SplitFrom(s[1..], '\n', []);
      assert ([piece] + rest)[1..] == rest;
      assert piece + ("\n" + ([] + s[1..] + "\n")) == piece + s + "\n";
    } else {
      FlatSplit(s[1..], piece + [s[0]]);
      assert piece + [s[0]] + s[1..] == piece + s;
    }
  }

  lemma {:induction false} FlatJoin(a: seq<string>, b: seq<string>)
    ensures Flat(a + b) == Flat(a) + Flat(b)
    decreases |a|
  {
    if a == [] {
      assert a + b == b;
    } else {
      assert (a + b)[1..] == a[1..] + b;
      FlatJoin(a[1..], b);
    }
  }

  lemma SameText(before: seq<string>, job: CronJobRequest, after: seq<string>)
    ensures TextOf(before + BlockOf(job) + after) == TextOf(before + WrittenBlock(job) + after)
  {
    hide TextOf, PartsOf, AsComments, JobLine;
    var comments, line, pieces := AsComments(PartsOf(job.comment)), [JobLine(job)], Split(JobLine(job), '\n');
    TextIsFlat(before + BlockOf(job) + after);
    TextIsFlat(before + WrittenBlock(job) + after);
    FlatJoin(before + (comments + line), after);
    FlatJoin(before + (comments + pieces), after);
    FlatJoin(before, comments + line);
    FlatJoin(before, comments + pieces);
    FlatJoin(comments, line);
    FlatJoin(comments, pieces);
    FlatSplit(JobLine(job), "");
    assert Flat(line) == JobLine(job) + ("\n" + "");
    assert Flat(pieces) == Flat(line);
  }

  lemma BlockLines(job: CronJobRequest)
    ensures AllOneLine(WrittenBlock(job)) && AllOneLine(ReadBlock(job))
    ensures Stripped(WrittenBlock(job)) == ReadBlock(job)
  {
    hide IsTrimmed, PartsOf, IsPlainComment, JobLine;
    PartsAreTrimmed(job);
    CommentLines(PartsOf(job.comment));
    PiecesOneLine(JobLine(job), "");
    StrippedJoin(AsComments(PartsOf(job.comment)), Split(JobLine(job), '\n'));
    StrippedOneLine(WrittenBlock(job));
  }

  /** A job line without line feeds is read back as it is. */
  lemma OneLineBlock(job: CronJobRequest)
    requires OneLine(JobLine(job))
    ensures ReadBlock(job) == BlockOf(job)
  {
    hide JobLine, PartsOf, AsComments;
    var line := JobLine(job);
    JobLineEnd(job);
    OnePiece(line, "");
    assert "" + line == line && [line][1..] == [];
    assert Stripped([line]) == [StripReturn(line)] + Stripped([]);
  }

  lemma {:induction false} OnePiece(s: string, piece: string)
    requires OneLine(s)
    ensures SplitFrom(s, '\n', piece) == [piece + s]
    decreases |s|
  {
    if s == [] {
      assert piece + s == piece;
    } else {
      OnePiece(s[1..], piece + [s[0]]);
      assert piece + [s[0]] + s[1..] == piece + s;
    }
  }

  lemma {:induction false} AttachedJoin(a: seq<string>, b: seq<string>)
    ensures Attached(a + b) == Attached(a) + Attached(b)
    decreases |b|
  {
    if b == [] {
      assert a + b == a;
    } else {
      assert (a + b)[..|a + b| - 1] == a + b[..|b| - 1];
      AttachedJoin(a, b[..|b| - 1]);
    }
  }

  // ----- one edit undoes another -----

  /** The block found above a line is exactly the comments that were put there when they all go with the line and
      what comes before them does not. */
  lemma FoundBlock(before: seq<bool>, comments: seq<bool>, line: bool, after: seq<bool>)
    ensures BlockStart(before + (comments + [line]) + after, |before| + |comments|) == |before|
            <==> (forall i :: 0 <= i < |comments| ==> comments[i]) && (before == [] || !before[|before| - 1])
  {
    var all := before + (comments + [line]) + after;
    var start := BlockStart(all, |before| + |comments|);
    forall i | 0 <= i < |comments|
      ensures all[|before| + i] == comments[i]
    {
    }
    if start == |before| {
      forall i | 0 <= i < |comments|
        ensures comments[i]
      {
        assert all[|before| + i];
      }
      assert before != [] ==> !all[|before| - 1];
    } else if start < |before| {
      assert all[|before| - 1] && before[|before| - 1];
    } else {
      assert !all[start - 1] && all[|before| + (start - 1 - |before|)] == comments[start - 1 - |before|];
    }
  }

  /** When an added or replacing block is found again as a whole: its last line is a cron line, all the others go with
      it, and the line above does not. */
  ghost predicate IsFoundBelow(before: seq<string>, job: CronJobRequest) {
    var pieces := ReadJobLine(job);
    && IsCronLine(TrimSpace(pieces[|pieces| - 1]))
    && (forall k :: 0 <= k < |pieces| - 1 ==> IsAttached(pieces[k]))
    && (forall part :: part in PartsOf(job.comment) ==> IsPlainComment(part))
    && (before == [] || !IsAttached(before[|before| - 1]))
  }

  lemma CommentsAttached(job: CronJobRequest)
    ensures var parts := PartsOf(job.comment);
            (forall i :: 0 <= i < |parts| ==> Attached(AsComments(parts))[i]) <==>
              forall part :: part in parts ==> IsPlainComment(part)
  {
    hide IsPlainComment, IsAttached, Attached, AsComments, PartsOf, IsTrimmed;
    var parts := PartsOf(job.comment);
    PartsAreTrimmed(job);
    CommentLines(parts);
    forall i | 0 <= i < |parts|
      ensures Attached(AsComments(parts))[i] == IsPlainComment(parts[i])
    {
    }
    if forall i :: 0 <= i < |parts| ==> Attached(AsComments(parts))[i] {
      forall part | part in parts
        ensures IsPlainComment(part)
      {
        var i :| 0 <= i < |parts| && parts[i] == part;
        assert Attached(AsComments(parts))[i] == IsPlainComment(parts[i]);
      }
    }
  }

  /** The flags of all lines but the last of the block. */
  lemma FrontAttached(job: CronJobRequest)
    ensures var pieces, flags := ReadJobLine(job), Attached(ReadBlock(job));
            (forall i :: 0 <= i < |flags| - 1 ==> flags[i])
            <==> (forall k :: 0 <= k < |pieces| - 1 ==> IsAttached(pieces[k]))
                 && (forall part :: part in PartsOf(job.comment) ==> IsPlainComment(part))
  {
    hide IsAttached, IsPlainComment, PartsOf, ReadJobLine;
    var comments, pieces := AsComments(PartsOf(job.comment)), ReadJobLine(job);
    var flags := Attached(ReadBlock(job));
    AttachedJoin(comments, pieces);
    CommentsAttached(job);
    forall k | 0 <= k < |pieces|
      ensures flags[|comments| + k] == IsAttached(pieces[k])
    {
      AttachedAt(pieces, k);
    }
    assert forall i :: 0 <= i < |comments| ==> flags[i] == Attached(comments)[i];
    if forall i :: 0 <= i < |flags| - 1 ==> flags[i] {
      forall k | 0 <= k < |pieces| - 1
        ensures IsAttached(pieces[k])
      {
        assert flags[|comments| + k];
      }
      forall i | 0 <= i < |comments|
        ensures Attached(comments)[i]
      {
        assert flags[i];
      }
    } else {
      var i :| 0 <= i < |flags| - 1 && !flags[i];
      if i < |comments| {
        assert !Attached(comments)[i];
      } else {
        var k := i - |comments|;
        assert flags[|comments| + k] == IsAttached(pieces[k]);
      }
    }
  }

  /** Where the block starts is decided by the flags of the lines above it and of all its lines but the last. */
  lemma BlockStartsThere(before: seq<string>, job: CronJobRequest, after: seq<string>)
    ensures var block := ReadBlock(job);
            BlockStart(Attached(before + block + after), |before| + |block| - 1) == |before|
            <==> (forall i :: 0 <= i < |block| - 1 ==> Attached(block)[i])
                 && (before == [] || !IsAttached(before[|before| - 1]))
  {
    hide IsAttached, ReadBlock;
    var block := ReadBlock(job);
    var front, last := block[..|block| - 1], block[|block| - 1];
    assert block == front + [last];
    AttachedJoin(before + block, after);
    AttachedJoin(before, block);
    AttachedJoin(front, [last]);
    assert [Attached([last])[0]] == Attached([last]);
    assert forall i :: 0 <= i < |front| ==> Attached(front)[i] == Attached(block)[i];
    if before != [] {
      LastAttached(before);
    }
    hide Attached;
    assert Attached(before + block + after)
           == Attached(before) + (Attached(front) + [Attached([last])[0]]) + Attached(after);
    FoundBlock(Attached(before), Attached(front), Attached([last])[0], Attached(after));
  }

  /** The block that was put there is found as a whole, or not, or its last line is no job. */
  lemma BlockAt(before: seq<string>, job: CronJobRequest, after: seq<string>)
    ensures JobBlock(before + ReadBlock(job) + after, |before| + |ReadBlock(job)|) == Ok(|before|) <==>
            IsFoundBelow(before, job)
  {
    hide IsCronLine, IsAttached, IsPlainComment, AsComments, PartsOf, ReadJobLine, Attached, BlockStart;
    var block, pieces := ReadBlock(job), ReadJobLine(job);
    assert (before + block + after)[|before| + |block| - 1] == pieces[|pieces| - 1];
    BlockStartsThere(before, job, after);
    FrontAttached(job);
  }

  lemma StrippedAround(before: seq<string>, block: seq<string>, after: seq<string>)
    ensures Stripped(before + block + after) == Stripped(before) + Stripped(block) + Stripped(after)
  {
    StrippedJoin(before + block, after);
    StrippedJoin(before, block);
  }

  lemma SplitEqual(a: seq<string>, b: seq<string>, c: seq<string>, d: seq<string>)
    requires a + b == c + d && |a| == |c|
    ensures a == c && b == d
  {
    assert a == (a + b)[..|a|] && c == (c + d)[..|c|] && b == (a + b)[|a|..] && d == (c + d)[|c|..];
  }

  lemma CutLines(before: seq<string>, block: seq<string>, after: seq<string>, start: nat)
    requires AllOneLine(before) && AllOneLine(block) && AllOneLine(after) && start <= |before| + |block|
    ensures var all, n := before + block + after, |before| + |block|;
            var rest := all[..start] + [] + all[n..];
            && AllOneLine(rest) && |rest| == start + |after|
            && (start == |before| ==> rest == before + after)
  {
    var all, n := before + block + after, |before| + |block|;
    var rest := all[..start] + [] + all[n..];
    assert all[n..] == after;
    assert AllOneLine(all);
    if start == |before| {
      assert rest == before + after;
    }
  }

  /** Cutting a stretch that ends with the block out of the text as it is read back leaves the text without the
      block exactly when the stretch is the block and no return was lost in the reading. */
  lemma CutWritten(before: seq<string>, block: seq<string>, after: seq<string>, start: nat)
    requires AllOneLine(before) && AllOneLine(block) && AllOneLine(after) && start <= |before| + |block|
    ensures var all, n := Stripped(before) + block + Stripped(after), |before| + |block|;
            TextOf(all[..start] + [] + all[n..]) == TextOf(before + after)
            <==> start == |before| && NoReturns(before) && NoReturns(after)
  {
    hide TextOf;
    var all, n := Stripped(before) + block + Stripped(after), |before| + |block|;
    var rest := all[..start] + [] + all[n..];
    StrippedOneLine(before);
    StrippedOneLine(after);
    CutLines(Stripped(before), block, Stripped(after), start);
    if TextOf(rest) == TextOf(before + after) {
      TextsDiffer(rest, before + after);
      SplitEqual(Stripped(before), Stripped(after), before, after);
    }
  }

  lemma EditedAt(current: string, lines: seq<string>, lineNo: int, block: seq<string>)
    requires NormalizeLines(current) == lines
    ensures Edited(current, lineNo, block) == match JobBlock(lines, lineNo)
                                              case Err(e) => Err(e)
                                              case Ok(start) => Ok(TextOf(lines[..start] + block + lines[lineNo..]))
  {
    hide NormalizeLines, TextOf, JobBlock;
  }

  /** How a written text is read, and what deleting a line from it then gives. */
  lemma DeletedFromWritten(before: seq<string>, block: seq<string>, after: seq<string>, lineNo: int, all: seq<string>)
    requires AllOneLine(before + block + after)
    requires all == Stripped(before) + Stripped(block) + Stripped(after)
    ensures Edited(TextOf(before + block + after), lineNo, []) == match JobBlock(all, lineNo)
                                                                  case Err(e) => Err(e)
                                                                  case Ok(start) => Ok(TextOf(all[..start] + []
                                                                    + all[lineNo..]))
  {
    hide NormalizeLines, TextOf, JobBlock;
    ReadBack(before + block + after);
    StrippedAround(before, block, after);
    EditedAt(TextOf(before + block + after), all, lineNo, []);
  }

  lemma CutFound(before: seq<string>, block: seq<string>, after: seq<string>, found: Result<nat, CronError>,
                 all: seq<string>)
    requires AllOneLine(before) && AllOneLine(block) && AllOneLine(after)
    requires all == Stripped(before) + block + Stripped(after) && (found.Ok? ==> found.value <= |before| + |block|)
    ensures var result: Result<string, CronError> := match found
                                                     case Err(e) => Err(e)
                                                     case Ok(start) => Ok(TextOf(all[..start] + []
                                                       + all[|before| + |block|..]));
            result == Ok(TextOf(before + after)) <==> found == Ok(|before|) && NoReturns(before) && NoReturns(after)
  {
    if found.Ok? {
      CutWritten(before, block, after, found.value);
    }
  }

  ghost predicate Deletes(text: string, lineNo: int, rest: seq<string>) {
    Edited(text, lineNo, []) == Ok(TextOf(rest))
  }

  /** When deleting the block brings back the text from before it was put there. */
  ghost predicate IsUndone(before: seq<string>, job: CronJobRequest, after: seq<string>) {
    IsFoundBelow(before, job) && NoReturns(before) && NoReturns(after)
  }

  /** Deleting, from the text that was written with it, a block at a given place. */
  lemma DeleteWritten(before: seq<string>, job: CronJobRequest, after: seq<string>)
    requires AllOneLine(before) && AllOneLine(after)
    ensures Deletes(TextOf(before + BlockOf(job) + after), |before| + |ReadBlock(job)|, before + after) <==>
            IsUndone(before, job, after)
  {
    hide Edited, IsFoundBelow, JobBlock, BlockOf, ReadBlock, WrittenBlock, TextOf;
    var block := ReadBlock(job);
    var all, n := Stripped(before) + block + Stripped(after), |before| + |block|;
    BlockLines(job);
    SameText(before, job, after);
    DeletedFromWritten(before, WrittenBlock(job), after, n, all);
    CutFound(before, block, after, JobBlock(all, n), all);
    if NoReturns(before) {
      BlockAt(before, job, Stripped(after));
    }
  }

  lemma AppendNothing(lines: seq<string>)
    ensures lines + [] == lines
  {
  }

  /** Adding a job and deleting the last line of what was added restores the text, as it is normally written, exactly
      when that line is a cron line, no comment line looks like an entry of its own, the old text does not end in a
      comment that would go with the new job, and no old line ends in a carriage return. A schedule or command with line
      feeds makes further lines, which have to be comments that go with the job. */
  lemma AddThenDelete(current: string, job: CronJobRequest)
    ensures var lines := NormalizeLines(current);
            Deletes(Appended(current, job), |lines| + |ReadBlock(job)|, lines) <==> IsUndone(lines, job, [])
  {
    hide Edited, NormalizeLines, IsUndone, Deletes, TextOf, BlockOf, ReadBlock;
    var lines := NormalizeLines(current);
    NormalizedOneLine(current);
    AppendNothing(lines + BlockOf(job));
    AppendNothing(lines);
    DeleteWritten(lines, job, []);
  }

  lemma EditedTexts(current: string, lines: seq<string>, lineNo: int, start: nat, block: seq<string>)
    requires NormalizeLines(current) == lines && JobBlock(lines, lineNo) == Ok(start)
    ensures Edited(current, lineNo, block) == Ok(TextOf(lines[..start] + block + lines[lineNo..]))
    ensures Edited(current, lineNo, []) == Ok(TextOf(lines[..start] + lines[lineNo..]))
  {
    hide NormalizeLines, TextOf, JobBlock, Edited;
    EditedAt(current, lines, lineNo, []);
    EditedAt(current, lines, lineNo, block);
    AppendNothing(lines[..start]);
  }

  /** Replacing a job and deleting the replacement comes to deleting the job, exactly when the new block is found
      again as a whole and no line that stays ends in a carriage return. */
  lemma ReplaceThenDelete(current: string, lineNo: int, job: CronJobRequest)
      returns (before: seq<string>, after: seq<string>)
    requires Edited(current, lineNo, BlockOf(job)).Ok?
    ensures Edited(current, lineNo, BlockOf(job)) == Ok(TextOf(before + BlockOf(job) + after))
    ensures Edited(current, lineNo, []) == Ok(TextOf(before + after))
    ensures Deletes(TextOf(before + BlockOf(job) + after), |before| + |ReadBlock(job)|, before + after) <==>
            IsUndone(before, job, after)
  {
    hide Edited, BlockOf, ReadBlock, TextOf, IsUndone, Deletes;
    before, after := TextAround(current, lineNo, BlockOf(job));
    DeleteWritten(before, job, after);
  }

  /** What an edit keeps above and below the block. */
  lemma TextAround(current: string, lineNo: int, block: seq<string>) returns (before: seq<string>, after: seq<string>)
    requires Edited(current, lineNo, block).Ok?
    ensures AllOneLine(before) && AllOneLine(after)
    ensures Edited(current, lineNo, block) == Ok(TextOf(before + block + after))
    ensures Edited(current, lineNo, []) == Ok(TextOf(before + after))
  {
    hide NormalizeLines, BlockOf, TextOf, JobBlock;
    var lines := NormalizeLines(current);
    var start := JobBlock(lines, lineNo).value;
    NormalizedOneLine(current);
    EditedTexts(current, lines, lineNo, start, block);
    before, after := lines[..start], lines[lineNo..];
  }

  /** A delete takes out one block that ends at the line, all of it comments that go with the job, as many as there
      are, and leaves every other line in its place. */
  lemma DeleteTakesOneBlock(current: string, lineNo: int)
    requires Edited(current, lineNo, []).Ok?
    ensures var lines := NormalizeLines(current);
            exists start: nat :: start < lineNo <= |lines|
              && Edited(current, lineNo, []) == Ok(TextOf(lines[..start] + lines[lineNo..]))
              && IsCronLine(TrimSpace(lines[lineNo - 1]))
              && (forall k :: start <= k < lineNo - 1 ==> IsAttached(lines[k]))
              && (start > 0 ==> !IsAttached(lines[start - 1]))
  {
    hide NormalizeLines, IsAttached, TextOf, IsCronLine;
    var lines := NormalizeLines(current);
    var start := JobBlock(lines, lineNo).value;
    EditedTexts(current, lines, lineNo, start, []);
    forall k | 0 <= k < |lines|
      ensures Attached(lines)[k] == IsAttached(lines[k])
    {
      AttachedAt(lines, k);
    }
  }

  /** A schedule of five fields that does not start with a number sign, and any command, make a cron line. */
  lemma PlainJobIsCronLine(job: CronJobRequest)
    requires |Fields(TrimSpace(job.schedule))| >= 5 && !HasPrefix(TrimSpace(job.schedule), '#')
    requires TrimSpace(job.command) != ""
    ensures IsCronLine(TrimSpace(JobLine(job)))
  {
    var schedule, command := TrimSpace(job.schedule), TrimSpace(job.command);
    var line := schedule + " " + command;
    TrimSpaceEnds(job.schedule);
    TrimSpaceEnds(job.command);
    assert schedule != "";
    assert line[0] == schedule[0] && line[|line| - 1] == command[|command| - 1];
    TrimmedStays(line);
    FieldsJoin(schedule, command, "");
    FieldsPresent(command, "");
  }
}
