/** The crontab editor said of characters: which lines are which, and the text that an added job becomes. */
module CrontabMeaning {
  import opened Sequences
  import opened Text
  import opened TextFacts
  import opened Crontab
  import opened CrontabEdits

  // ----- which lines are which -----

  predicate IsWordStart(c: char) {
    'A' <= c <= 'Z' || 'a' <= c <= 'z' || c == '_'
  }

  /** A name of letters, digits and underscores that does not start with a digit stands before the equals sign at
      `k`, and the line does not end behind it. */
  ghost predicate NamedUpTo(s: string, k: int) {
    && 0 < k < |s| && s[k] == '=' && IsWordStart(s[0])
    && (forall i :: 0 < i < k ==> IsWordStart(s[i]) || '0' <= s[i] <= '9')
    && (forall i :: k < i < |s| ==> s[i] != '\n')
  }

  lemma {:induction false} NameMeans(s: string)
    ensures NameThenEquals(s) <==> exists k :: NameEndsAt(s, k)
  {
    if s == [] {
    } else if s[0] == '=' {
      if '\n' !in s {
        assert NameEndsAt(s, 0);
      }
    } else {
      NameMeans(s[1..]);
      if k :| NameEndsAt(s[1..], k) {
        if IsNameStart(s[0]) || IsDigit(s[0]) {
          NameExtends(s, k);
        }
      }
      if k :| NameEndsAt(s, k) {
        NameShortens(s, k);
      }
    }
  }

  ghost predicate NameEndsAt(s: string, k: int) {
    && 0 <= k < |s| && s[k] == '='
    && (forall i :: 0 <= i < k ==> IsWordStart(s[i]) || '0' <= s[i] <= '9')
    && (forall i :: k < i < |s| ==> s[i] != '\n')
  }

  lemma NameExtends(s: string, k: int)
    requires s != [] && (IsWordStart(s[0]) || '0' <= s[0] <= '9') && NameEndsAt(s[1..], k)
    ensures NameEndsAt(s, k + 1)
  {
    assert forall i :: 0 < i < |s| ==> s[i] == s[1..][i - 1];
  }

  lemma NameShortens(s: string, k: int)
    requires s != [] && s[0] != '=' && NameEndsAt(s, k)
    ensures k > 0 && NameEndsAt(s[1..], k - 1) && (IsWordStart(s[0]) || '0' <= s[0] <= '9')
  {
    assert forall i :: 0 <= i < |s| - 1 ==> s[1..][i] == s[i + 1];
  }

  lemma EnvLineMeans(s: string)
    ensures IsEnvLine(s) <==> exists k :: NamedUpTo(s, k)
  {
    if s != [] {
      NameMeans(s[1..]);
      if k :| IsNameStart(s[0]) && NameEndsAt(s[1..], k) {
        NameExtends(s, k);
        assert NamedUpTo(s, k + 1);
      }
      if k :| NamedUpTo(s, k) {
        assert forall i :: 0 <= i < |s| - 1 ==> s[1..][i] == s[i + 1];
        assert NameEndsAt(s[1..], k - 1);
      }
    }
  }

  /** The text, trimmed, could be an entry of a user's crontab: six fields, or two when it starts with an at sign. */
  ghost predicate LooksLikeEntry(text: string) {
    text != "" && |Fields(text)| >= if text[0] == '@' then 2 else 6
  }

  lemma TrimTwice(s: string)
    ensures TrimSpace(TrimSpace(s)) == TrimSpace(s)
  {
    TrimSpaceEnds(s);
    if TrimSpace(s) != "" {
      TrimmedStays(TrimSpace(s));
    }
  }

  /** A comment goes with the line below it when its text is neither blank nor an assignment nor an entry. */
  lemma AttachedMeans(line: string)
    ensures IsAttached(line) <==>
            exists rest :: TrimSpace(line) == "#" + rest && TrimSpace(rest) != ""
              && !LooksLikeEntry(TrimSpace(rest)) && forall k :: !NamedUpTo(TrimSpace(rest), k)
  {
    hide TrimSpace, Fields, NamedUpTo, IsEnvLine;
    var prev := TrimSpace(line);
    if HasPrefix(prev, '#') {
      assert prev == "#" + prev[1..];
      TrimTwice(prev[1..]);
      EnvLineMeans(TrimSpace(prev[1..]));
    }
    forall rest | prev == "#" + rest
      ensures rest == prev[1..] && HasPrefix(prev, '#')
    {
    }
  }

  /** The line is an entry, or one behind a single number sign. */
  lemma CronLineMeans(line: string)
    ensures IsCronLine(line) <==>
            exists body :: (TrimSpace(line) == body || exists rest :: TrimSpace(line) == "#" + rest
                                                                     && TrimSpace(rest) == body)
              && body != "" && body[0] != '#' && (body[0] == '@' || |Fields(body)| >= 6)
  {
    hide TrimSpace, Fields;
    var trimmed := TrimSpace(line);
    if line == "" {
      assert trimmed == "" by {
        BlankIsBlank();
      }
    }
    if HasPrefix(trimmed, '#') {
      assert trimmed == "#" + trimmed[1..];
    }
    forall rest | trimmed == "#" + rest
      ensures rest == trimmed[1..] && HasPrefix(trimmed, '#')
    {
    }
  }

  lemma BlankIsBlank()
    ensures TrimSpace("") == ""
  {
  }

  // ----- the text of an added job -----

  /** Each part on a line of its own behind a number sign. */
  ghost function Commented(parts: seq<string>): string {
    if parts == [] then "" else "# " + parts[0] + "\n" + Commented(parts[1..])
  }

  lemma {:induction false} CommentsFlat(parts: seq<string>)
    ensures Flat(AsComments(parts)) == Commented(parts)
    decreases |parts|
  {
    if parts == [] {
    } else {
      CommentsCons(parts);
      CommentsFlat(parts[1..]);
    }
  }

  lemma {:induction false} CommentsCons(parts: seq<string>)
    requires parts != []
    ensures AsComments(parts) == ["# " + parts[0]] + AsComments(parts[1..])
    decreases |parts|
  {
    var n := |parts| - 1;
    if n == 0 {
      assert parts[..0] == [] && parts[1..] == [];
    } else {
      CommentsCons(parts[..n]);
      assert parts[..n][1..] == parts[1..][..n - 1] && parts[1..][n - 1] == parts[n];
    }
  }

  lemma {:induction false} TrimmedParts(parts: seq<string>)
    requires forall i :: 0 <= i < |parts| ==> IsTrimmed(parts[i])
    ensures CommentParts(parts) == parts
    decreases |parts|
  {
    hide TrimSpace, IsSpace;
    if parts == [] {
    } else {
      var n := |parts| - 1;
      TrimmedParts(parts[..n]);
      TrimmedStays(parts[n]);
      assert parts == parts[..n] + [parts[n]];
    }
  }

  lemma {:induction false} JoinedEnds(parts: seq<string>)
    requires parts != [] && forall i :: 0 <= i < |parts| ==> IsTrimmed(parts[i])
    ensures var s := Join(parts, "\n"); s != "" && !IsSpace(s[0]) && !IsSpace(s[|s| - 1])
    decreases |parts|
  {
    if |parts| > 1 {
      var rest := Join(parts[1..], "\n");
      JoinedEnds(parts[1..]);
      var s := Join(parts, "\n");
      assert s == parts[0] + "\n" + rest && s[0] == parts[0][0] && s[|s| - 1] == rest[|rest| - 1];
    }
  }

  /** A comment of several lines is taken apart into them. */
  lemma PartsOfComment(parts: seq<string>)
    requires forall i :: 0 <= i < |parts| ==> IsTrimmed(parts[i])
    ensures PartsOf(Join(parts, "\n")) == parts
  {
    hide *;
    if parts == [] {
      NoComment();
    } else {
      PiecesOfComment(parts);
      PartsOfTrimmed(Join(parts, "\n"));
    }
  }

  lemma PartsOfTrimmed(s: string)
    requires TrimSpace(s) == s
    ensures PartsOf(s) == CommentParts(Split(s, '\n'))
  {
  }

  lemma NoComment()
    ensures PartsOf(Join([], "\n")) == []
  {
    hide Split, CommentParts, IsSpace;
    BlankComment();
  }

  lemma PiecesOfComment(parts: seq<string>)
    requires parts != [] && forall i :: 0 <= i < |parts| ==> IsTrimmed(parts[i])
    ensures var s := Join(parts, "\n"); TrimSpace(s) == s && CommentParts(Split(s, '\n')) == parts
  {
    hide Join, Split, CommentParts, IsSpace, TrimSpace;
    JoinedEnds(parts);
    TrimmedStays(Join(parts, "\n"));
    SplitJoin(parts, '\n');
    TrimmedParts(parts);
  }

  /** The old text, the comment's lines behind number signs, and the schedule and command on one line. */
  lemma AppendedText(lines: seq<string>, schedule: string, command: string, parts: seq<string>)
    requires AllOneLine(lines) && NoReturns(lines) && forall i :: 0 <= i < |parts| ==> IsTrimmed(parts[i])
    ensures Appended(TextOf(lines), CronJobRequest(schedule, command, Join(parts, "\n")))
            == TextOf(lines) + Commented(parts) + TrimSpace(schedule) + " " + TrimSpace(command) + "\n"
  {
    hide TextOf, NormalizeLines, PartsOf, TrimSpace, Join, AsComments, Commented, NoReturns, IsTrimmed;
    var job := CronJobRequest(schedule, command, Join(parts, "\n"));
    PartsOfComment(parts);
    AppendedFlat(lines, job);
    CommentsFlat(parts);
  }

  lemma AppendedFlat(lines: seq<string>, job: CronJobRequest)
    requires AllOneLine(lines) && NoReturns(lines)
    ensures Appended(TextOf(lines), job)
            == TextOf(lines) + Flat(AsComments(PartsOf(job.comment))) + TrimSpace(job.schedule) + " "
               + TrimSpace(job.command) + "\n"
  {
    hide TextOf, NormalizeLines, PartsOf, TrimSpace, AsComments, AllOneLine;
    var comments, line := AsComments(PartsOf(job.comment)), JobLine(job);
    ReadBack(lines);
    TextIsFlat(lines);
    TextIsFlat(lines + BlockOf(job));
    FlatJoin(lines, comments + [line]);
    FlatJoin(comments, [line]);
    OneFlat(line);
    hide Flat;
    Regroup(TextOf(lines), Flat(comments), TrimSpace(job.schedule), TrimSpace(job.command));
  }

  lemma OneFlat(line: string)
    ensures Flat([line]) == line + "\n"
  {
    assert [line][1..] == [];
  }

  lemma Regroup(text: string, comments: string, schedule: string, command: string)
    ensures text + (comments + (schedule + " " + command + "\n"))
            == text + comments + schedule + " " + command + "\n"
  {
  }

  /** A last line without a line feed counts as a line, and keeps a carriage return at its end. */
  lemma ReadUnfinished(lines: seq<string>, last: string)
    requires AllOneLine(lines) && OneLine(last) && last != ""
    ensures NormalizeLines(TextOf(lines) + last) == Stripped(lines) + [last]
  {
    TextIsFlat(lines);
    ReplaceUnfinished(lines, last);
    StrippedOneLine(lines);
    SplitUnfinished(Stripped(lines), last);
  }

  lemma {:induction false} OneLineStays(s: string)
    requires OneLine(s)
    ensures Unreturned(s) == s
    decreases |s|
  {
    if s != [] {
      assert s == [s[0]] + s[1..];
      assert |s| > 1 ==> s[1..][0] == s[1] && s[1] in s;
      UnreturnedOther(s[0], s[1..]);
      OneLineStays(s[1..]);
    }
  }

  lemma {:induction false} ReplaceUnfinished(lines: seq<string>, last: string)
    requires AllOneLine(lines) && OneLine(last)
    ensures Unreturned(Flat(lines) + last) == Flat(Stripped(lines)) + last
    decreases |lines|
  {
    if lines == [] {
      OneLineStays(last);
      assert "" + last == last;
    } else {
      var rest := Flat(lines[1..]) + last;
      assert Flat(lines) + last == lines[0] + (['\n'] + rest);
      ReplaceLine(lines[0], rest);
      ReplaceUnfinished(lines[1..], last);
      var stripped := Stripped(lines);
      assert stripped[1..] == Stripped(lines[1..]);
      assert Flat(stripped) + last == stripped[0] + (['\n'] + (Flat(stripped[1..]) + last));
    }
  }

  lemma {:induction false} SplitUnfinished(lines: seq<string>, last: string)
    requires AllOneLine(lines) && OneLine(last)
    ensures Split(Flat(lines) + last, '\n') == lines + [last]
    decreases |lines|
  {
    if lines == [] {
      SplitAtSeparator(last, "", '\n');
      assert "" + last == last;
    } else {
      var rest := Flat(lines[1..]) + last;
      assert Flat(lines) + last == lines[0] + (['\n'] + rest);
      SplitAtSeparator(lines[0], rest, '\n');
      SplitUnfinished(lines[1..], last);
      assert [lines[0]] + (lines[1..] + [last]) == lines + [last];
    }
  }

  // ----- refused edits -----

  /** A line number that the text does not have is not found; a line that is no cron line is no cron job; every other
      edit goes through. */
  lemma EditRefused(lines: seq<string>, lineNo: int, block: seq<string>)
    requires AllOneLine(lines) && NoReturns(lines)
    ensures var r := Edited(TextOf(lines), lineNo, block);
            && (r == Err(NotFound) <==> !(1 <= lineNo <= |lines|))
            && (r == Err(NotACronJob) <==> 1 <= lineNo <= |lines| && !IsCronLine(TrimSpace(lines[lineNo - 1])))
  {
    hide TextOf, NormalizeLines, IsCronLine, TrimSpace;
    ReadBack(lines);
  }
}
