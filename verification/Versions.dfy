/** Comparing version strings part by part. */
module Versions {
  import opened Sequences
  import opened Text
  import opened TextFacts

  const MAX_INT := 0x7FFF_FFFF_FFFF_FFFF

  function FromDigit(s: string): string {
    if s == [] || IsDigit(s[0]) then s else FromDigit(s[1..])
  }

  /** The text without what stands before its first digit; text without a digit stays. */
  function WithoutPrefix(s: string): string {
    if FromDigit(s) == "" then s else FromDigit(s)
  }

  function LeadingDigits(s: string): (digits: string)
    ensures Digits(digits).Some?
  {
    if s == [] || !IsDigit(s[0]) then ""
    else
      DigitsCons(s[0], LeadingDigits(s[1..]));
      [s[0]] + LeadingDigits(s[1..])
  }

  lemma {:induction false} DigitsCons(c: char, digits: string)
    requires IsDigit(c) && Digits(digits).Some?
    ensures Digits([c] + digits).Some?
    decreases |digits|
  {
    var s := [c] + digits;
    if digits == "" {
      assert s[..|s| - 1] == "";
    } else {
      assert s[..|s| - 1] == [c] + digits[..|digits| - 1];
      DigitsCons(c, digits[..|digits| - 1]);
    }
  }

  /** A number that does not fit is read as the largest one. */
  function PartValue(digits: string): nat
    requires Digits(digits).Some?
  {
    if Digits(digits).value <= MAX_INT then Digits(digits).value else MAX_INT
  }

  /** The numbers up to the first piece that does not start with a digit. */
  function LeadingParts(pieces: seq<string>): seq<nat> {
    if pieces == [] || LeadingDigits(TrimSpace(pieces[0])) == "" then []
    else [PartValue(LeadingDigits(TrimSpace(pieces[0])))] + LeadingParts(pieces[1..])
  }

  function VersionParts(version: string): seq<nat> {
    LeadingParts(Split(WithoutPrefix(TrimSpace(version)), '.'))
  }

  /** A missing part counts as zero. */
  function PartAt(parts: seq<nat>, i: nat): nat {
    if i < |parts| then parts[i] else 0
  }

  /** The first place where the parts differ decides. */
  ghost predicate Below(a: seq<nat>, b: seq<nat>) {
    exists k: nat :: FirstDifference(a, b, k) && PartAt(a, k) < PartAt(b, k)
  }

  ghost predicate FirstDifference(a: seq<nat>, b: seq<nat>, k: nat) {
    PartAt(a, k) != PartAt(b, k) && forall i: nat :: i < k ==> PartAt(a, i) == PartAt(b, i)
  }

  ghost predicate Same(a: seq<nat>, b: seq<nat>) {
    forall i: nat :: PartAt(a, i) == PartAt(b, i)
  }

  method ParseVersionParts(version: string) returns (parts: seq<nat>)
    ensures parts == VersionParts(version)
  {
    hide WithoutPrefix, LeadingDigits, PartValue, TrimSpace, Split;
    var pieces := Split(WithoutPrefix(TrimSpace(version)), '.');
    parts := [];
    for i := 0 to |pieces|
      invariant parts + LeadingParts(pieces[i..]) == LeadingParts(pieces)
    {
      var digits := LeadingDigits(TrimSpace(pieces[i]));
      assert pieces[i..][0] == pieces[i] && pieces[i..][1..] == pieces[i + 1..];
      if digits == "" {
        return;
      }
      assert parts + [PartValue(digits)] + LeadingParts(pieces[i + 1..]) == parts + LeadingParts(pieces[i..]);
      parts := parts + [PartValue(digits)];
    }
  }

  method CompareVersions(a: string, b: string) returns (r: int)
    ensures r == -1 || r == 0 || r == 1
    ensures r == -1 <==> Below(VersionParts(a), VersionParts(b))
    ensures r == 1 <==> Below(VersionParts(b), VersionParts(a))
    ensures r == 0 <==> Same(VersionParts(a), VersionParts(b))
  {
    hide VersionParts;
    var aParts := ParseVersionParts(a);
    var bParts := ParseVersionParts(b);
    OneOrder(aParts, bParts);
    var maxLen := |aParts|;
    if |bParts| > maxLen {
      maxLen := |bParts|;
    }
    for i := 0 to maxLen
      invariant forall k: nat :: k < i ==> PartAt(aParts, k) == PartAt(bParts, k)
    {
      var av, bv := 0, 0;
      if i < |aParts| {
        av := aParts[i];
      }
      if i < |bParts| {
        bv := bParts[i];
      }
      if av < bv {
        assert FirstDifference(aParts, bParts, i);
        return -1;
      }
      if av > bv {
        assert FirstDifference(bParts, aParts, i);
        return 1;
      }
    }
    r := 0;
  }

  // ----- a total preorder -----

  /** At most one of below, above and same holds: the first place where two versions differ is one place. */
  lemma OneOrder(a: seq<nat>, b: seq<nat>)
    ensures !(Below(a, b) && Below(b, a)) && !(Below(a, b) && Same(a, b)) && !(Below(b, a) && Same(a, b))
  {
  }

  /** And at least one. */
  lemma {:induction false} SomeOrder(a: seq<nat>, b: seq<nat>)
    ensures Below(a, b) || Below(b, a) || Same(a, b)
  {
    var n := |a| + |b|;
    if k: nat :| k < n && PartAt(a, k) != PartAt(b, k) {
      var first := FirstPlace(a, b, k);
      assert FirstDifference(a, b, first) && FirstDifference(b, a, first);
    }
  }

  lemma {:induction false} FirstPlace(a: seq<nat>, b: seq<nat>, k: nat) returns (first: nat)
    requires PartAt(a, k) != PartAt(b, k)
    ensures FirstDifference(a, b, first)
    decreases k
  {
    if j: nat :| j < k && PartAt(a, j) != PartAt(b, j) {
      first := FirstPlace(a, b, j);
    } else {
      first := k;
    }
  }

  lemma BelowIsTransitive(a: seq<nat>, b: seq<nat>, c: seq<nat>)
    requires Below(a, b) && Below(b, c)
    ensures Below(a, c)
  {
    var k: nat :| FirstDifference(a, b, k) && PartAt(a, k) < PartAt(b, k);
    var j: nat :| FirstDifference(b, c, j) && PartAt(b, j) < PartAt(c, j);
    assert FirstDifference(a, c, if k < j then k else j);
  }

  /** Versions that compare as the same are interchangeable: "24" and "24.0.0". */
  lemma SameIsCongruent(a: seq<nat>, b: seq<nat>, c: seq<nat>)
    requires Same(a, b)
    ensures Below(a, c) ==> Below(b, c)
    ensures Below(c, a) ==> Below(c, b)
  {
    if Below(a, c) {
      var k: nat :| FirstDifference(a, c, k) && PartAt(a, k) < PartAt(c, k);
      assert FirstDifference(b, c, k);
    }
    if Below(c, a) {
      var k: nat :| FirstDifference(c, a, k) && PartAt(c, k) < PartAt(a, k);
      assert FirstDifference(c, b, k);
    }
  }

  // ----- text without a number -----

  predicate NoDigit(s: string) {
    forall i :: 0 <= i < |s| ==> !IsDigit(s[i])
  }

  lemma {:induction false} FromDigitNone(s: string)
    requires NoDigit(s)
    ensures FromDigit(s) == ""
  {
    if s == [] {
    } else {
      FromDigitNone(s[1..]);
    }
  }

  lemma {:induction false} SplitNoDigit(s: string, sep: char, piece: string)
    requires NoDigit(s) && NoDigit(piece)
    ensures NoDigit(SplitFrom(s, sep, piece)[0])
    decreases |s|
  {
    if s == [] {
    } else if s[0] != sep {
      SplitNoDigit(s[1..], sep, piece + [s[0]]);
    }
  }

  lemma {:induction false} TrimLeftNoDigit(s: string)
    requires NoDigit(s)
    ensures NoDigit(TrimLeft(s))
  {
    if s != [] && IsSpace(s[0]) {
      TrimLeftNoDigit(s[1..]);
    }
  }

  lemma {:induction false} TrimRightNoDigit(s: string)
    requires NoDigit(s)
    ensures NoDigit(TrimRight(s))
  {
    if s != [] && IsSpace(s[|s| - 1]) {
      TrimRightNoDigit(s[..|s| - 1]);
    }
  }

  lemma TrimNoDigit(s: string)
    requires NoDigit(s)
    ensures NoDigit(TrimSpace(s))
  {
    TrimLeftNoDigit(s);
    TrimRightNoDigit(TrimLeft(s));
  }

  lemma NoNumberNoParts(version: string)
    requires NoDigit(version)
    ensures VersionParts(version) == []
  {
    var trimmed := TrimSpace(version);
    TrimNoDigit(version);
    FromDigitNone(trimmed);
    SplitNoDigit(trimmed, '.', "");
    TrimNoDigit(Split(trimmed, '.')[0]);
  }

  /** Texts without a number compare as the same, and as the same as zero, whatever they say. */
  lemma NoNumberComparesSame(a: string, b: string)
    requires NoDigit(a)
    ensures NoDigit(b) ==> Same(VersionParts(a), VersionParts(b))
    ensures Same(VersionParts(a), VersionParts(b)) <==>
            forall i :: 0 <= i < |VersionParts(b)| ==> VersionParts(b)[i] == 0
  {
    hide VersionParts;
    NoNumberNoParts(a);
    if NoDigit(b) {
      NoNumberNoParts(b);
    }
    var parts := VersionParts(b);
    if Same([], parts) {
      forall i | 0 <= i < |parts|
        ensures parts[i] == 0
      {
        assert PartAt([], i) == PartAt(parts, i);
      }
    }
  }

  // ----- what the parts are -----

  /** The text is cut in front of its first digit. */
  lemma {:induction false} PrefixIsCut(prefix: string, rest: string)
    requires NoDigit(prefix) && rest != "" && '0' <= rest[0] <= '9'
    ensures WithoutPrefix(prefix + rest) == rest
  {
    if prefix == "" {
      assert prefix + rest == rest;
    } else {
      assert (prefix + rest)[1..] == prefix[1..] + rest;
      PrefixIsCut(prefix[1..], rest);
    }
  }

  /** As many digits as the text starts with. */
  lemma {:induction false} LeadingDigitsMean(digits: string, rest: string)
    requires AllDigits(digits) && (rest == "" || !('0' <= rest[0] <= '9'))
    ensures LeadingDigits(digits + rest) == digits
  {
    if digits == "" {
      assert digits + rest == rest;
    } else {
      assert (digits + rest)[1..] == digits[1..] + rest;
      LeadingDigitsMean(digits[1..], rest);
    }
  }

  function Decimals(parts: seq<nat>): (texts: seq<string>)
    ensures |texts| == |parts|
  {
    seq(|parts|, i requires 0 <= i < |parts| => Decimal(parts[i]))
  }

  /** What does not fit a signed 64-bit integer is read as the largest one. */
  function Capped(parts: seq<nat>): (capped: seq<nat>)
    ensures |capped| == |parts|
  {
    seq(|parts|, i requires 0 <= i < |parts| => if parts[i] > 9223372036854775807 then 9223372036854775807
      else parts[i])
  }

  lemma DecimalPart(n: nat)
    ensures TrimSpace(Decimal(n)) == Decimal(n) && LeadingDigits(Decimal(n)) == Decimal(n) && Decimal(n) != ""
    ensures PartValue(Decimal(n)) == if n > 9223372036854775807 then 9223372036854775807 else n
    ensures '.' !in Decimal(n)
  {
    hide Decimal, TrimSpace, LeadingDigits;
    var s := Decimal(n);
    DecimalDigits(n);
    LeadingDigitsMean(s, "");
    assert s + "" == s;
    TrimmedStays(s);
  }

  lemma {:induction false} DecimalsAreParts(parts: seq<nat>, more: seq<string>)
    requires more == [] || LeadingDigits(TrimSpace(more[0])) == ""
    ensures LeadingParts(Decimals(parts) + more) == Capped(parts)
  {
    hide Decimal, TrimSpace, LeadingDigits, PartValue;
    var pieces := Decimals(parts) + more;
    if parts == [] {
      assert pieces == more;
    } else {
      DecimalPart(parts[0]);
      assert pieces[0] == Decimal(parts[0]) && pieces[1..] == Decimals(parts[1..]) + more;
      DecimalsAreParts(parts[1..], more);
      assert Capped(parts) == [PartValue(Decimal(parts[0]))] + Capped(parts[1..]);
    }
  }

  lemma JoinEnds(texts: seq<string>)
    requires texts != [] && forall i :: 0 <= i < |texts| ==> texts[i] != "" && AllDigits(texts[i])
    ensures var s := Join(texts, "."); s != "" && '0' <= s[0] <= '9' && '0' <= s[|s| - 1] <= '9'
    decreases |texts|
  {
    if |texts| > 1 {
      var rest := Join(texts[1..], ".");
      JoinEnds(texts[1..]);
      var s := Join(texts, ".");
      assert s == texts[0] + "." + rest && s[0] == texts[0][0] && s[|s| - 1] == rest[|rest| - 1];
    }
  }

  lemma {:induction false} PrefixTrims(prefix: string, body: string)
    requires NoDigit(prefix) && body != "" && !IsSpace(body[0]) && !IsSpace(body[|body| - 1])
    ensures exists left :: NoDigit(left) && TrimSpace(prefix + body) == left + body
  {
    if prefix != "" && IsSpace(prefix[0]) {
      assert (prefix + body)[1..] == prefix[1..] + body;
      PrefixTrims(prefix[1..], body);
    } else {
      var s := prefix + body;
      assert s[0] == (if prefix == "" then body[0] else prefix[0]) && s[|s| - 1] == body[|body| - 1];
      TrimmedStays(s);
    }
  }

  /** Numbers written with dots between them are the parts of the version, behind any text without a digit. */
  lemma DottedParts(prefix: string, parts: seq<nat>)
    requires NoDigit(prefix) && parts != []
    ensures VersionParts(prefix + Join(Decimals(parts), ".")) == Capped(parts)
  {
    hide Decimal, TrimSpace, LeadingParts, Join, Split, WithoutPrefix;
    var body := Join(Decimals(parts), ".");
    forall i | 0 <= i < |parts|
      ensures AllDigits(Decimals(parts)[i]) && Decimals(parts)[i] != "" && '.' !in Decimals(parts)[i]
    {
      DecimalDigits(parts[i]);
    }
    JoinEnds(Decimals(parts));
    PrefixTrims(prefix, body);
    var left :| NoDigit(left) && TrimSpace(prefix + body) == left + body;
    PrefixIsCut(left, body);
    SplitJoin(Decimals(parts), '.');
    DecimalsAreParts(parts, []);
    assert Decimals(parts) + [] == Decimals(parts);
  }
}
