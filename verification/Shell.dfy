/** Shell quoting, against the token rules of the Shell Command Language (IEEE Std 1003.1-2017). */
module Shell {
  import opened Sequences
  import opened Text

  function ShellQuote(s: string): string {
    "'" + ReplaceAll(s, "'", "'\\''") + "'"
  }

  function ShellQuoted(args: seq<string>): (quoted: seq<string>)
    ensures |quoted| == |args|
  {
    seq(|args|, i requires 0 <= i < |args| => ShellQuote(args[i]))
  }

  // ----- word splitting -----

  /** How the shell reads the next character. */
  datatype Lexer = Between | InWord(word: string) | InQuotes(word: string) | Escaped(word: string, started: bool)

  /** The complete words so far, and the one being read. */
  datatype Reading = Reading(words: seq<string>, lexer: Lexer)

  /** Unquoted, these end the command, start a comment or another kind of quote, or are expanded
      (sections 2.2, 2.3 and 2.6): no plain word contains them. */
  predicate IsSpecial(c: char) {
    c in "|&;<>()$`\"\n*?[#~=%"
  }

  predicate IsBlank(c: char) {
    c == ' ' || c == '\t'
  }

  function WordOf(lexer: Lexer): string {
    if lexer.Between? then "" else lexer.word
  }

  /** Sections 2.2.1 (backslash), 2.2.2 (single quotes) and 2.3 (tokens). */
  function ReadChar(r: Reading, c: char): Option<Reading> {
    match r.lexer
    case InQuotes(word) => Some(r.(lexer := if c == '\'' then InWord(word) else InQuotes(word + [c])))
    case Escaped(word, started) =>
      if c != '\n' then Some(r.(lexer := InWord(word + [c])))
      else Some(r.(lexer := if started then InWord(word) else Between))
    case _ =>
      if IsBlank(c) then Some(Reading(if r.lexer.InWord? then r.words + [r.lexer.word] else r.words, Between))
      else if c == '\'' then Some(r.(lexer := InQuotes(WordOf(r.lexer))))
      else if c == '\\' then Some(r.(lexer := Escaped(WordOf(r.lexer), r.lexer.InWord?)))
      else if IsSpecial(c) then None
      else Some(r.(lexer := InWord(WordOf(r.lexer) + [c])))
  }

  function Read(r: Reading, s: string): Option<Reading>
    decreases |s|
  {
    if s == [] then Some(r)
    else
      match ReadChar(r, s[0])
      case None => None
      case Some(next) => Read(next, s[1..])
  }

  /** The words of a command line; None for an unfinished quote, or for more than a list of words. */
  function Words(line: string): Option<seq<string>> {
    match Read(Reading([], Between), line)
    case Some(Reading(words, Between)) => Some(words)
    case Some(Reading(words, InWord(word))) => Some(words + [word])
    case _ => None
  }

  lemma {:induction false} ReadJoin(r: Reading, a: string, b: string)
    ensures Read(r, a + b) == match Read(r, a) case None => None case Some(next) => Read(next, b)
    decreases |a|
  {
    if a == [] {
      assert a + b == b;
    } else {
      assert (a + b)[1..] == a[1..] + b;
      match ReadChar(r, a[0])
      case None =>
      case Some(next) => ReadJoin(next, a[1..], b);
    }
  }

  // ----- quoted arguments are words -----

  lemma ReadCons(r: Reading, c: char, s: string)
    ensures Read(r, [c] + s) == match ReadChar(r, c) case None => None case Some(next) => Read(next, s)
  {
    assert ([c] + s)[1..] == s;
  }

  /** Inside single quotes, the escape for an apostrophe adds one and comes back inside quotes. */
  lemma ReadApostrophe(words: seq<string>, word: string)
    ensures Read(Reading(words, InQuotes(word)), "'\\''") == Some(Reading(words, InQuotes(word + "'")))
  {
    assert "'\\''" == ['\''] + (['\\'] + (['\''] + (['\''] + [])));
    ReadCons(Reading(words, InQuotes(word)), '\'', ['\\'] + (['\''] + (['\''] + [])));
    ReadCons(Reading(words, InWord(word)), '\\', ['\''] + (['\''] + []));
    ReadCons(Reading(words, Escaped(word, true)), '\'', ['\''] + []);
    ReadCons(Reading(words, InWord(word + "'")), '\'', []);
  }

  lemma {:induction false} ReadReplaced(words: seq<string>, word: string, s: string)
    ensures Read(Reading(words, InQuotes(word)), ReplaceAll(s, "'", "'\\''"))
            == Some(Reading(words, InQuotes(word + s)))
    decreases |s|
  {
    if s == [] {
      assert word + s == word;
    } else {
      var rest := ReplaceAll(s[1..], "'", "'\\''");
      assert word + [s[0]] + s[1..] == word + s;
      if s[0] == '\'' {
        ReadApostrophe(words, word);
        ReadJoin(Reading(words, InQuotes(word)), "'\\''", rest);
      } else {
        assert ([s[0]] + rest)[1..] == rest;
      }
      ReadReplaced(words, word + [s[0]], s[1..]);
    }
  }

  lemma ReadQuoted(words: seq<string>, arg: string)
    ensures Read(Reading(words, Between), ShellQuote(arg)) == Some(Reading(words, InWord(arg)))
  {
    var inside := ReplaceAll(arg, "'", "'\\''");
    assert ShellQuote(arg) == "'" + (inside + "'");
    ReadCons(Reading(words, Between), '\'', inside + "'");
    ReadCons(Reading(words, InQuotes(arg)), '\'', []);
    assert ['\''] + [] == "'";
    ReadJoin(Reading(words, InQuotes("")), inside, "'");
    ReadReplaced(words, "", arg);
    assert "" + arg == arg;
  }

  lemma {:induction false} ReadQuotedArgs(words: seq<string>, args: seq<string>)
    requires args != []
    ensures var n := |args| - 1;
            Read(Reading(words, Between), Join(ShellQuoted(args), " "))
              == Some(Reading(words + args[..n], InWord(args[n])))
    decreases |args|
  {
    hide Read, ShellQuote;
    var quoted := ShellQuoted(args);
    ReadQuoted(words, args[0]);
    if |args| == 1 {
      assert words + args[..0] == words;
    } else {
      var rest := Join(quoted[1..], " ");
      assert Join(quoted, " ") == ShellQuote(args[0]) + (" " + rest);
      ReadJoin(Reading(words, Between), ShellQuote(args[0]), " " + rest);
      ReadCons(Reading(words, InWord(args[0])), ' ', rest);
      assert quoted[1..] == ShellQuoted(args[1..]);
      ReadQuotedArgs(words + [args[0]], args[1..]);
      assert words + [args[0]] + args[1..][..|args| - 2] == words + args[..|args| - 1];
    }
  }

  /** Behind any command line that is complete up to a blank, quoted arguments add exactly themselves. */
  lemma QuotedArgsAreWords(prefix: string, args: seq<string>)
    requires Read(Reading([], Between), prefix).Some? && Read(Reading([], Between), prefix).value.lexer.Between?
    ensures Words(prefix).Some?
    ensures Words(prefix + Join(ShellQuoted(args), " ")) == Some(Words(prefix).value + args)
  {
    var words := Words(prefix).value;
    if args == [] {
      assert prefix + "" == prefix && words + args == words;
    } else {
      ReadJoin(Reading([], Between), prefix, Join(ShellQuoted(args), " "));
      ReadQuotedArgs(words, args);
      assert words + args[..|args| - 1] + [args[|args| - 1]] == words + args;
    }
  }

  /** One quoted string is one word, whatever it contains, so no two strings are quoted alike. */
  lemma QuotedIsOneWord(s: string)
    ensures Words(ShellQuote(s)) == Some([s])
  {
    ReadQuoted([], s);
    assert [] + [s] == [s];
  }

  method ShellQuoteArgs(args: seq<string>) returns (line: string)
    ensures line == Join(ShellQuoted(args), " ")
    ensures Words(line) == Some(args)
  {
    var quoted := new string[|args|];
    for i := 0 to |args|
      invariant forall k :: 0 <= k < i ==> quoted[k] == ShellQuote(args[k])
    {
      quoted[i] := ShellQuote(args[i]);
    }
    line := Join(quoted[..], " ");
    assert quoted[..] == ShellQuoted(args);
    QuotedArgsAreWords("", args);
    assert "" + line == line && [] + args == args;
  }
}
