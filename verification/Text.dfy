/** The string functions of the Go library that the modelled code calls. */
module Text {
  import opened Sequences

  /** The White_Space characters of Unicode, which TrimSpace and Fields cut at. */
  predicate IsSpace(c: char) {
    || '\U{0009}' <= c <= '\U{000D}' || c == ' ' || c == '\U{0085}' || c == '\U{00A0}' || c == '\U{1680}'
    || '\U{2000}' <= c <= '\U{200A}' || c == '\U{2028}' || c == '\U{2029}' || c == '\U{202F}' || c == '\U{205F}'
       || c == '\U{3000}'
  }

  function TrimLeft(s: string): string {
    if s != [] && IsSpace(s[0]) then TrimLeft(s[1..]) else s
  }

  function TrimRight(s: string): string {
    if s != [] && IsSpace(s[|s| - 1]) then TrimRight(s[..|s| - 1]) else s
  }

  function TrimSpace(s: string): string {
    TrimRight(TrimLeft(s))
  }

  lemma {:induction false} TrimLeftEnd(s: string)
    ensures TrimLeft(s) != [] ==> !IsSpace(TrimLeft(s)[0])
  {
    if s != [] && IsSpace(s[0]) {
      TrimLeftEnd(s[1..]);
    }
  }

  lemma {:induction false} TrimRightEnd(s: string)
    ensures var r := TrimRight(s); r != [] ==> !IsSpace(r[|r| - 1]) && s != [] && r[0] == s[0]
  {
    if s != [] && IsSpace(s[|s| - 1]) {
      TrimRightEnd(s[..|s| - 1]);
    }
  }

  /** Trimmed text starts and ends with something. */
  lemma TrimSpaceEnds(s: string)
    ensures var r := TrimSpace(s); r != [] ==> !IsSpace(r[0]) && !IsSpace(r[|r| - 1])
  {
    TrimLeftEnd(s);
    TrimRightEnd(TrimLeft(s));
  }

  /** The pieces between the separators, with `piece` in front of the first; empty pieces are kept. */
  function SplitFrom(s: string, sep: char, piece: string): (parts: seq<string>)
    ensures parts != []
    decreases |s|
  {
    if s == [] then [piece]
    else if s[0] == sep then [piece] + SplitFrom(s[1..], sep, [])
    else SplitFrom(s[1..], sep, piece + [s[0]])
  }

  function Split(s: string, sep: char): (parts: seq<string>)
    ensures parts != []
  {
    SplitFrom(s, sep, [])
  }

  function Join(parts: seq<string>, sep: string): string {
    if parts == [] then []
    else if |parts| == 1 then parts[0]
    else parts[0] + sep + Join(parts[1..], sep)
  }

  /** Every occurrence of `sub`, from the left and without overlaps, becomes `with`. */
  function ReplaceAll(s: string, sub: string, with: string): string
    requires sub != []
  {
    if s == [] then []
    else if sub <= s then with + ReplaceAll(s[|sub|..], sub, with)
    else [s[0]] + ReplaceAll(s[1..], sub, with)
  }

  predicate Contains(s: string, sub: string) {
    sub <= s || (s != [] && Contains(s[1..], sub))
  }

  /** The maximal runs of characters that are not spaces, with `word` in front of the first. */
  function FieldsFrom(s: string, word: string): seq<string>
    decreases |s|
  {
    if s == [] then if word == [] then [] else [word]
    else if IsSpace(s[0]) then (if word == [] then [] else [word]) + FieldsFrom(s[1..], [])
    else FieldsFrom(s[1..], word + [s[0]])
  }

  function Fields(s: string): seq<string> {
    FieldsFrom(s, [])
  }

  lemma {:induction false} FieldsJoin(a: string, b: string, word: string)
    ensures FieldsFrom(a + " " + b, word) == FieldsFrom(a, word) + Fields(b)
    decreases |a|
  {
    if a == [] {
      assert a + " " + b == " " + b && (" " + b)[1..] == b;
    } else {
      assert (a + " " + b)[1..] == a[1..] + " " + b;
      FieldsJoin(a[1..], b, if IsSpace(a[0]) then [] else word + [a[0]]);
    }
  }

  lemma {:induction false} FieldsPresent(s: string, word: string)
    requires word != [] || (s != [] && !IsSpace(s[0]))
    ensures FieldsFrom(s, word) != []
    decreases |s|
  {
    if s != [] && !IsSpace(s[0]) {
      FieldsPresent(s[1..], word + [s[0]]);
    }
  }

  lemma TrimmedStays(s: string)
    requires s != [] && !IsSpace(s[0]) && !IsSpace(s[|s| - 1])
    ensures TrimSpace(s) == s
  {
  }

  function LowerChar(c: char): char {
    if 'A' <= c <= 'Z' then c - 'A' + 'a' else c
  }

  function UpperChar(c: char): char {
    if 'a' <= c <= 'z' then c - 'a' + 'A' else c
  }

  function ToLower(s: string): (r: string)
    ensures |r| == |s|
  {
    seq(|s|, i requires 0 <= i < |s| => LowerChar(s[i]))
  }

  function ToUpper(s: string): (r: string)
    ensures |r| == |s|
  {
    seq(|s|, i requires 0 <= i < |s| => UpperChar(s[i]))
  }

  function Digit(n: nat): char
    requires n < 10
  {
    "0123456789"[n]
  }

  function Decimal(n: int): string
    decreases if n < 0 then 1 else 0, n
  {
    if n < 0 then "-" + Decimal(-n)
    else if n < 10 then [Digit(n)]
    else Decimal(n / 10) + [Digit(n % 10)]
  }

  predicate IsDigit(c: char) {
    '0' <= c <= '9'
  }

  function Digits(s: string): Option<nat> {
    if s == [] then Some(0)
    else if !IsDigit(s[|s| - 1]) then None
    else
      match Digits(s[..|s| - 1])
      case None => None
      case Some(n) => Some(10 * n + (s[|s| - 1] - '0') as nat)
  }

  /** A decimal number with an optional sign that fits a signed 64-bit integer. */
  function Atoi(s: string): Option<int> {
    var signed := s != [] && (s[0] == '-' || s[0] == '+');
    var body := if signed then s[1..] else s;
    if body == [] then None
    else
      match Digits(body)
      case None => None
      case Some(n) =>
        var magnitude: int := n;
        var value := if signed && s[0] == '-' then -magnitude else magnitude;
        if -0x8000_0000_0000_0000 <= value < 0x8000_0000_0000_0000 then Some(value) else None
  }
}
