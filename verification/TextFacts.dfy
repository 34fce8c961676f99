/** What the string functions mean: each is fixed by facts about characters and positions. */
module TextFacts {
  import opened Sequences
  import opened Text

  // ----- spaces and letters -----

  lemma SpacesAre(c: char)
    ensures IsSpace(c) <==>
            c in "\t\n\U{000B}\U{000C}\r \U{0085}\U{00A0}\U{1680}\U{2000}\U{2001}\U{2002}\U{2003}\U{2004}\U{2005}"
                                 + "\U{2006}\U{2007}\U{2008}\U{2009}\U{200A}\U{2028}\U{2029}\U{202F}\U{205F}\U{3000}"
  {
  }

  ghost predicate AllSpaces(s: string) {
    forall i :: 0 <= i < |s| ==> IsSpace(s[i])
  }

  ghost predicate NoSpaces(s: string) {
    forall i :: 0 <= i < |s| ==> !IsSpace(s[i])
  }

  lemma {:induction false} TrimLeftCuts(s: string) returns (left: string)
    ensures s == left + TrimLeft(s) && AllSpaces(left)
  {
    if s != [] && IsSpace(s[0]) {
      var rest := TrimLeftCuts(s[1..]);
      left := [s[0]] + rest;
    } else {
      left := [];
    }
  }

  lemma {:induction false} TrimRightCuts(s: string) returns (right: string)
    ensures s == TrimRight(s) + right && AllSpaces(right)
  {
    if s != [] && IsSpace(s[|s| - 1]) {
      var rest := TrimRightCuts(s[..|s| - 1]);
      right := rest + [s[|s| - 1]];
    } else {
      right := [];
    }
  }

  /** Trimming takes spaces away at both ends, and as many as there are. */
  lemma TrimSpaceCuts(s: string) returns (left: string, right: string)
    ensures s == left + TrimSpace(s) + right && AllSpaces(left) && AllSpaces(right)
    ensures TrimSpace(s) != "" ==> !IsSpace(TrimSpace(s)[0]) && !IsSpace(TrimSpace(s)[|TrimSpace(s)| - 1])
  {
    left := TrimLeftCuts(s);
    right := TrimRightCuts(TrimLeft(s));
    TrimSpaceEnds(s);
  }

  /** The codes of the small letters are 32 above those of the capitals; other characters stay. */
  lemma CaseAt(s: string, i: nat)
    requires i < |s|
    ensures ToLower(s)[i] as int == s[i] as int + if 65 <= s[i] as int <= 90 then 32 else 0
    ensures ToUpper(s)[i] as int == s[i] as int - if 97 <= s[i] as int <= 122 then 32 else 0
  {
  }

  // ----- searching -----

  /** `sub` stands in `s` at position `k`. */
  ghost predicate StandsAt(s: string, sub: string, k: int) {
    0 <= k <= |s| - |sub| && s[k..k + |sub|] == sub
  }

  lemma StandsFirst(s: string, sub: string)
    ensures StandsAt(s, sub, 0) <==> sub <= s
    ensures s == [] ==> forall k :: StandsAt(s, sub, k) ==> k == 0
    ensures forall k :: StandsAt(s, sub, k) ==> k >= 0
  {
  }

  lemma StandsLater(s: string, sub: string, k: int)
    requires s != [] && k > 0
    ensures StandsAt(s, sub, k) <==> StandsAt(s[1..], sub, k - 1)
  {
    if 0 < k <= |s| - |sub| {
      assert s[1..][k - 1..k - 1 + |sub|] == s[k..k + |sub|];
    }
  }

  lemma {:induction false} ContainsMeans(s: string, sub: string)
    ensures Contains(s, sub) <==> exists k :: StandsAt(s, sub, k)
    decreases |s|
  {
    hide StandsAt;
    StandsFirst(s, sub);
    if s != [] {
      ContainsMeans(s[1..], sub);
      StandsFirst(s[1..], sub);
      if k :| StandsAt(s[1..], sub, k) {
        StandsLater(s, sub, k + 1);
      }
      if k :| k > 0 && StandsAt(s, sub, k) {
        StandsLater(s, sub, k);
      }
    }
  }

  // ----- cutting -----

  lemma {:induction false} SplitFromAt(a: string, b: string, sep: char, piece: string)
    ensures SplitFrom(a + ([sep] + b), sep, piece) == SplitFrom(a, sep, piece) + Split(b, sep)
    decreases |a|
  {
    var s := a + ([sep] + b);
    if a == [] {
      assert s == [sep] + b && s[1..] == b;
    } else {
      assert s[1..] == a[1..] + ([sep] + b);
      SplitFromAt(a[1..], b, sep, if a[0] == sep then [] else piece + [a[0]]);
    }
  }

  lemma {:induction false} SplitFromWhole(s: string, sep: char, piece: string)
    requires sep !in s
    ensures SplitFrom(s, sep, piece) == [piece + s]
    decreases |s|
  {
    if s == [] {
      assert piece + s == piece;
    } else {
      SplitFromWhole(s[1..], sep, piece + [s[0]]);
      assert piece + [s[0]] + s[1..] == piece + s;
    }
  }

  /** Splitting cuts at every separator and nowhere else. */
  lemma SplitAtSeparator(a: string, b: string, sep: char)
    ensures Split(a + ([sep] + b), sep) == Split(a, sep) + Split(b, sep)
    ensures sep !in a ==> Split(a, sep) == [a]
  {
    SplitFromAt(a, b, sep, []);
    if sep !in a {
      SplitFromWhole(a, sep, []);
      assert [] + a == a;
    }
  }

  /** One piece more than there are separators. */
  lemma {:induction false} SplitCounts(s: string, sep: char, piece: string)
    ensures |SplitFrom(s, sep, piece)| == multiset(s)[sep] + 1
    decreases |s|
  {
    if s == [] {
    } else {
      assert s == [s[0]] + s[1..];
      SplitCounts(s[1..], sep, if s[0] == sep then [] else piece + [s[0]]);
    }
  }

  /** Pieces without the separator are what a split of the joined text gives. */
  lemma {:induction false} SplitJoin(pieces: seq<string>, sep: char)
    requires pieces != [] && forall i :: 0 <= i < |pieces| ==> sep !in pieces[i]
    ensures Split(Join(pieces, [sep]), sep) == pieces
    decreases |pieces|
  {
    if |pieces| == 1 {
      SplitAtSeparator(pieces[0], "", sep);
    } else {
      SplitJoin(pieces[1..], sep);
      assert Join(pieces, [sep]) == pieces[0] + ([sep] + Join(pieces[1..], [sep]));
      SplitAtSeparator(pieces[0], Join(pieces[1..], [sep]), sep);
    }
  }

  lemma {:induction false} FieldsFromAt(a: string, space: char, b: string, word: string)
    requires IsSpace(space)
    ensures FieldsFrom(a + ([space] + b), word) == FieldsFrom(a, word) + Fields(b)
    decreases |a|
  {
    var s := a + ([space] + b);
    if a == [] {
      assert s == [space] + b && s[1..] == b;
    } else {
      assert s[1..] == a[1..] + ([space] + b);
      FieldsFromAt(a[1..], space, b, if IsSpace(a[0]) then [] else word + [a[0]]);
    }
  }

  lemma {:induction false} FieldsFromWhole(s: string, word: string)
    requires NoSpaces(s) && word + s != []
    ensures FieldsFrom(s, word) == [word + s]
    decreases |s|
  {
    if s == [] {
      assert word + s == word;
    } else {
      FieldsFromWhole(s[1..], word + [s[0]]);
      assert word + [s[0]] + s[1..] == word + s;
    }
  }

  /** Fields are cut at every space; what has none is one field, and nothing is none. */
  lemma FieldsAtSpace(a: string, space: char, b: string)
    requires IsSpace(space)
    ensures Fields(a + ([space] + b)) == Fields(a) + Fields(b)
    ensures NoSpaces(a) ==> Fields(a) == if a == "" then [] else [a]
  {
    FieldsFromAt(a, space, b, []);
    if NoSpaces(a) && a != "" {
      FieldsFromWhole(a, []);
      assert [] + a == a;
    }
  }

  // ----- numbers -----

  ghost predicate AllDigits(s: string) {
    forall i :: 0 <= i < |s| ==> '0' <= s[i] <= '9'
  }

  ghost function Pow10(n: nat): nat {
    if n == 0 then 1 else 10 * Pow10(n - 1)
  }

  /** Each digit counts ten times what the next one counts. */
  ghost function Weighted(s: string): nat
    requires AllDigits(s)
  {
    if s == [] then 0 else (s[0] - '0') as nat * Pow10(|s| - 1) + Weighted(s[1..])
  }

  lemma TenTimes(d: nat, n: nat)
    requires n > 0
    ensures d * Pow10(n) == 10 * (d * Pow10(n - 1))
  {
  }

  lemma {:induction false} WeightedLast(s: string, c: char)
    requires AllDigits(s)
    requires '0' <= c <= '9'
    ensures Weighted(s + [c]) == 10 * Weighted(s) + (c - '0') as nat
    decreases |s|
  {
    var all := s + [c];
    if s == [] {
      assert all == [c] && all[1..] == [];
    } else {
      assert all[1..] == s[1..] + [c] && all[0] == s[0] && |all| - 1 == |s|;
      WeightedLast(s[1..], c);
      TenTimes((s[0] - '0') as nat, |s|);
    }
  }

  /** A text of digits has its decimal value, any other text has none. */
  lemma {:induction false} DigitsAreWeighted(s: string)
    ensures Digits(s).Some? <==> AllDigits(s)
    ensures Digits(s).Some? ==> Digits(s).value == Weighted(s)
  {
    if s == [] {
    } else {
      var front, c := s[..|s| - 1], s[|s| - 1];
      assert s == front + [c];
      DigitsAreWeighted(front);
      if Digits(s).Some? {
        WeightedLast(front, c);
      } else if IsDigit(c) {
        var i :| 0 <= i < |front| && !('0' <= front[i] <= '9');
        assert s[i] == front[i];
      }
    }
  }

  lemma DigitValue(n: nat)
    requires n < 10
    ensures Digit(n) == '0' + n as char
  {
  }

  /** A number written in decimal is read back; no leading zero is written. */
  lemma {:induction false} DecimalDigits(n: nat)
    ensures Digits(Decimal(n)) == Some(n) && Decimal(n) != ""
    ensures AllDigits(Decimal(n))
    ensures Decimal(n)[0] == '0' ==> n == 0
  {
    hide Digit;
    var s := Decimal(n);
    if n < 10 {
      DigitValue(n);
      assert s[..0] == [] && s == [Digit(n)];
    } else {
      DecimalDigits(n / 10);
      DigitValue(n % 10);
      assert s[..|s| - 1] == Decimal(n / 10) && s[|s| - 1] == Digit(n % 10);
    }
  }

  lemma DecimalOfNegative(n: int)
    requires n < 0
    ensures Decimal(n) == "-" + Decimal(-n)
  {
  }

  lemma AtoiUnsigned(s: string, n: nat)
    requires s != "" && '0' <= s[0] <= '9' && Digits(s) == Some(n)
    ensures Atoi(s) == if n <= 9223372036854775807 then Some(n) else None
  {
    hide Digits;
  }

  lemma AtoiNegative(s: string, n: nat)
    requires s != "" && Digits(s) == Some(n)
    ensures Atoi("-" + s) == if n <= 9223372036854775808 then Some(0 - n) else None
  {
    hide Digits;
    assert ("-" + s)[1..] == s;
  }

  /** Reading an integer: what fits 64 bits comes back, what does not fit is refused. */
  lemma AtoiDecimal(n: int)
    ensures Atoi(Decimal(n))
            == if -9223372036854775808 <= n <= 9223372036854775807 then Some(n) else None
  {
    hide Decimal, Digits, Atoi;
    if n >= 0 {
      DecimalDigits(n);
      AtoiUnsigned(Decimal(n), n);
    } else {
      DecimalDigits(-n);
      DecimalOfNegative(n);
      AtoiNegative(Decimal(-n), -n);
    }
  }

  /** Only an optional sign and at least one digit make an integer. */
  lemma AtoiRefuses(s: string)
    requires Atoi(s).Some?
    ensures exists body :: body != "" && (s == body || s == "-" + body || s == "+" + body)
              && AllDigits(body)
  {
    var signed := s[0] == '-' || s[0] == '+';
    var body := if signed then s[1..] else s;
    DigitsAreWeighted(body);
    assert signed ==> s == [s[0]] + body;
  }
}
