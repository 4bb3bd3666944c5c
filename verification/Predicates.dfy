/**
 Printing the traffic segment of a stack as a routing predicate and reading it
 back (pkg/core/traffic.go, pkg/core/stack_resources.go).
 */
module Predicates {
  import opened Options
  import opened Stacks

  const OPENING := "TrafficSegment("
  const COMMA := ", "

  // ----- numbers -----

  predicate IsDigit(c: char) {
    '0' <= c <= '9'
  }

  function Digit(d: nat): (c: char)
    requires d < 10
    ensures IsDigit(c) && DigitValue(c) == d
  {
    '0' + d as char
  }

  function DigitValue(c: char): nat
    requires IsDigit(c)
  {
    (c - '0') as nat
  }

  predicate AllDigits(s: string) {
    forall i :: 0 <= i < |s| ==> IsDigit(s[i])
  }

  function Decimal(n: nat): (s: string)
    ensures AllDigits(s) && |s| > 0
  {
    if n < 10 then [Digit(n)] else Decimal(n / 10) + [Digit(n % 10)]
  }

  function Value(s: string): nat
    requires AllDigits(s)
  {
    if s == "" then 0 else Value(s[..|s| - 1]) * 10 + DigitValue(s[|s| - 1])
  }

  function Pow10(n: nat): (p: nat)
    ensures p >= 1
  {
    if n == 0 then 1 else 10 * Pow10(n - 1)
  }

  lemma {:induction false} ValueOfDecimal(n: nat)
    ensures Value(Decimal(n)) == n
  {
    if n < 10 {
      assert Decimal(n)[..0] == "";
    } else {
      ValueOfDecimal(n / 10);
      assert Decimal(n)[..|Decimal(n)| - 1] == Decimal(n / 10);
    }
  }

  /** The number of hundredths nearest to x. */
  function Hundredths(x: real): nat
    requires x >= 0.0
  {
    (x * 100.0 + 0.5).Floor
  }

  /** The `%.2f` verb. */
  function PrintFixed(x: real): string
    requires x >= 0.0
  {
    var h := Hundredths(x);
    Decimal(h / 100) + "." + [Digit(h / 10 % 10), Digit(h % 10)]
  }

  function IndexOf(s: string, c: char): (i: nat)
    ensures i <= |s| && c !in s[..i] && (i < |s| ==> s[i] == c)
  {
    if s == "" || s[0] == c then 0
    else
      assert s[..1 + IndexOf(s[1..], c)] == [s[0]] + s[1..][..IndexOf(s[1..], c)];
      1 + IndexOf(s[1..], c)
  }

  lemma {:induction false} IndexOfFirst(a: string, c: char, b: string)
    requires c !in a
    ensures IndexOf(a + [c] + b, c) == |a|
  {
    if a != "" {
      IndexOfFirst(a[1..], c, b);
      assert (a + [c] + b)[1..] == a[1..] + [c] + b;
    }
  }

  function Unsigned(s: string): string {
    if s != "" && (s[0] == '-' || s[0] == '+') then s[1..] else s
  }

  /** `strconv.ParseFloat` on decimal notation: sign, digits, point, digits. */
  function ParseFloat(s: string): Option<real> {
    var u := Unsigned(s);
    var point := IndexOf(u, '.');
    var whole, fraction := u[..point], if point < |u| then u[point + 1..] else "";
    if !AllDigits(whole) || !AllDigits(fraction) || whole + fraction == "" then None
    else
      Some(if s[0] == '-' then -Magnitude(whole, fraction) else Magnitude(whole, fraction))
  }

  function Magnitude(whole: string, fraction: string): real
    requires AllDigits(whole) && AllDigits(fraction)
  {
    Value(whole) as real + Value(fraction) as real / Pow10(|fraction|) as real
  }

  lemma {:induction false} ParseParts(whole: string, fraction: string)
    requires AllDigits(whole) && AllDigits(fraction) && whole != ""
    ensures ParseFloat(whole + "." + fraction) == Some(Magnitude(whole, fraction))
  {
    var s := whole + "." + fraction;
    assert s == whole + ['.'] + fraction;
    assert s[0] == whole[0] && IsDigit(s[0]) && Unsigned(s) == s;
    IndexOfFirst(whole, '.', fraction);
    assert s[..|whole|] == whole && s[|whole| + 1..] == fraction;
  }

  lemma {:induction false} TwoDigits(a: nat, b: nat)
    requires a < 10 && b < 10
    ensures Value([Digit(a), Digit(b)]) == 10 * a + b && Pow10(2) == 100
  {
    var s := [Digit(a), Digit(b)];
    assert [Digit(a)][..0] == "";
    assert Value([Digit(a)]) == a;
    assert s[..1] == [Digit(a)];
    assert Pow10(1) == 10 && Pow10(0) == 1;
  }

  lemma {:induction false} WholeAndHundredths(whole: nat, tens: nat, ones: nat)
    ensures whole as real + (10 * tens + ones) as real / 100.0 == (100 * whole + 10 * tens + ones) as real / 100.0
  {
  }

  lemma {:induction false} SplitHundredths(h: nat)
    ensures h == 100 * (h / 100) + 10 * (h / 10 % 10) + h % 10
  {
  }

  lemma {:induction false} ParseDigits(whole: nat, tens: nat, ones: nat)
    requires tens < 10 && ones < 10
    ensures ParseFloat(Decimal(whole) + "." + [Digit(tens), Digit(ones)]) ==
            Some((100 * whole + 10 * tens + ones) as real / 100.0)
  {
    ParseParts(Decimal(whole), [Digit(tens), Digit(ones)]);
    MagnitudeOfPrinted(whole, tens, ones);
  }

  /** Reading a printed number gives back the hundredths that were printed. */
  lemma {:induction false} ParsePrinted(x: real)
    requires x >= 0.0
    ensures ParseFloat(PrintFixed(x)) == Some(Hundredths(x) as real / 100.0)
  {
    var h := Hundredths(x);
    SplitHundredths(h);
    ParseDigits(h / 100, h / 10 % 10, h % 10);
  }

  lemma {:induction false} MagnitudeOfPrinted(whole: nat, tens: nat, ones: nat)
    requires tens < 10 && ones < 10
    ensures Magnitude(Decimal(whole), [Digit(tens), Digit(ones)]) == (100 * whole + 10 * tens + ones) as real / 100.0
  {
    TwoDigits(tens, ones);
    ValueOfDecimal(whole);
    WholeAndHundredths(whole, tens, ones);
  }

  // ----- the pattern TrafficSegment\((.*?), (.*?)\) -----

  predicate StartsAt(s: string, i: nat, part: string) {
    i + |part| <= |s| && s[i..i + |part|] == part
  }

  /** A match: opening at i, `, ` at p, closing parenthesis at q, and no line break in between. */
  predicate IsMatch(s: string, i: nat, p: nat, q: nat) {
    && StartsAt(s, i, OPENING)
    && i + |OPENING| <= p && StartsAt(s, p, COMMA)
    && p + |COMMA| <= q < |s| && s[q] == ')'
    && '\n' !in s[i + |OPENING|..q]
  }

  /** First position from i on where `part` starts. */
  function Search(s: string, i: nat, part: string): (r: Option<nat>)
    requires i <= |s| && part != ""
    ensures r.Some? ==> i <= r.value && StartsAt(s, r.value, part) && forall k :: i <= k < r.value ==>
            !StartsAt(s, k, part)
    ensures r.None? ==> forall k :: i <= k ==> !StartsAt(s, k, part)
    decreases |s| - i
  {
    if StartsAt(s, i, part) then Some(i)
    else if i == |s| then None
    else Search(s, i + 1, part)
  }

  datatype Submatch = NoMatch | Submatch(start: nat, comma: nat, close: nat)

  function MatchAt(s: string, i: nat): (m: Submatch)
    requires StartsAt(s, i, OPENING)
    ensures m.Submatch? ==> m.start == i && IsMatch(s, i, m.comma, m.close)
  {
    var p := Search(s, i + |OPENING|, COMMA);
    if p.None? then NoMatch
    else
      var q := Search(s, p.value + |COMMA|, ")");
      if q.None? then NoMatch
      else
        assert s[q.value..q.value + 1][0] == s[q.value];
        if '\n' in s[i + |OPENING|..q.value] then NoMatch else Submatch(i, p.value, q.value)
  }

  /** `FindStringSubmatch`: leftmost match from i on, with shortest groups. */
  function FindFrom(s: string, i: nat): (m: Submatch)
    requires i <= |s|
    ensures m.Submatch? ==> i <= m.start && IsMatch(s, m.start, m.comma, m.close)
    decreases |s| - i
  {
    var start := Search(s, i, OPENING);
    if start.None? then NoMatch
    else
      var m := MatchAt(s, start.value);
      if m != NoMatch then m else FindFrom(s, start.value + 1)
  }

  lemma {:induction false} MatchAtIsLazy(s: string, i: nat, p: nat, q: nat)
    requires IsMatch(s, i, p, q)
    ensures var m := MatchAt(s, i);
            m.Submatch? && (m.comma < p || (m.comma == p && m.close <= q))
  {
    var first := Search(s, i + |OPENING|, COMMA);
    assert s[q..q + 1] == ")";
    assert StartsAt(s, q, ")");
    var close := Search(s, first.value + |COMMA|, ")");
    assert close.Some? && close.value <= q;
    assert s[close.value..close.value + 1][0] == s[close.value];
    var open := i + |OPENING|;
    assert forall k :: 0 <= k < close.value - open ==> s[open..close.value][k] == s[open..q][k];
  }

  /**
   The search finds the match a leftmost, lazy search must find: any other match starts later,
   or has its comma later, or its closing parenthesis.
   */
  lemma {:induction false} FindsLeftmostLazy(s: string, i: nat, j: nat, p: nat, q: nat)
    requires i <= j && IsMatch(s, j, p, q)
    ensures i <= |s|
    ensures var m := FindFrom(s, i);
            && m.Submatch?
            && (m.start < j || (m.start == j && (m.comma < p || (m.comma == p && m.close <= q))))
    decreases |s| - i
  {
    var start := Search(s, i, OPENING);
    assert start.Some? && start.value <= j;
    if MatchAt(s, start.value).Submatch? {
      if start.value == j { MatchAtIsLazy(s, j, p, q); }
    } else {
      if start.value == j {
        MatchAtIsLazy(s, j, p, q);
        assert false;
      }
      FindsLeftmostLazy(s, start.value + 1, j, p, q);
    }
  }

  // ----- segment limits -----

  datatype Parsed = Limits(lower: real, upper: real) | NotFound | Malformed

  function LimitsOf(lower: Option<real>, upper: Option<real>): Parsed {
    if lower.None? || lower.value < 0.0 then Malformed
    else if upper.None? || upper.value < lower.value then Malformed
    else Limits(lower.value, upper.value)
  }

  /** The two groups of the first match. */
  function Groups(text: string): Option<(string, string)> {
    var m := FindFrom(text, 0);
    if m.NoMatch? then None
    else Some((text[m.start + |OPENING|..m.comma], text[m.comma + |COMMA|..m.close]))
  }

  function LimitsIn(predicateText: string): Parsed {
    var groups := Groups(predicateText);
    if groups.None? then NotFound else LimitsOf(ParseFloat(groups.value.0), ParseFloat(groups.value.1))
  }

  /** `GetSegmentLimits`: the first predicate that mentions a traffic segment decides. */
  function GetSegmentLimits(predicates: seq<string>): (r: Parsed)
    ensures r.Limits? ==> 0.0 <= r.lower <= r.upper
  {
    if predicates == [] then NotFound
    else
      var first := LimitsIn(predicates[0]);
      if first.NotFound? then GetSegmentLimits(predicates[1..]) else first
  }

  /** The predicate of a segment, as printed into the segment's resource. */
  function TrafficSegment(lower: real, upper: real): string
    requires lower >= 0.0 && upper >= 0.0
  {
    OPENING + PrintFixed(lower) + COMMA + PrintFixed(upper) + ")"
  }

  // ----- round trip -----

  /** x is a whole number of hundredths. */
  predicate IsHundredth(x: real) {
    x >= 0.0 && x * 100.0 == (x * 100.0).Floor as real
  }

  lemma {:induction false} HundredthsExact(x: real)
    requires IsHundredth(x)
    ensures Hundredths(x) as real / 100.0 == x
  {
    var h := (x * 100.0).Floor;
    FloorOfHalf(h);
  }

  lemma {:induction false} FloorOfHalf(h: int)
    ensures (h as real + 0.5).Floor == h
  {
  }

  lemma {:induction false} PrintedCharacters(x: real)
    requires x >= 0.0
    ensures forall k :: 0 <= k < |PrintFixed(x)| ==> IsDigit(PrintFixed(x)[k]) || PrintFixed(x)[k] == '.'
  {
  }

  /** s starts with the opening, l, the comma, u and the closing parenthesis. */
  ghost predicate Laid(s: string, l: string, u: string) {
    var p := |OPENING| + |l|;
    var q := p + |COMMA| + |u|;
    && q < |s| && s[q] == ')'
    && StartsAt(s, 0, OPENING) && StartsAt(s, |OPENING|, l) && StartsAt(s, p, COMMA) && StartsAt(s, p + |COMMA|, u)
  }

  lemma {:induction false} MiddleAt(a: string, b: string, c: string)
    ensures StartsAt(a + b + c, |a|, b)
  {
    assert (a + b + c)[|a|..|a| + |b|] == b;
  }

  lemma {:induction false} Concatenated(opening: string, l: string, comma: string, u: string, rest: string)
    ensures var s := opening + l + comma + u + ")" + rest;
            && StartsAt(s, 0, opening) && StartsAt(s, |opening|, l) && StartsAt(s, |opening| + |l|, comma)
            && StartsAt(s, |opening| + |l| + |comma|, u)
            && |opening| + |l| + |comma| + |u| < |s| && s[|opening| + |l| + |comma| + |u|] == ')'
  {
    var s := opening + l + comma + u + ")" + rest;
    var tail := ")" + rest;
    assert s == opening + l + comma + u + tail;
    MiddleAt("", opening, l + comma + u + tail);
    assert s == "" + opening + (l + comma + u + tail);
    MiddleAt(opening, l, comma + u + tail);
    assert s == opening + l + (comma + u + tail);
    MiddleAt(opening + l, comma, u + tail);
    assert s == opening + l + comma + (u + tail);
    MiddleAt(opening + l + comma, u, tail);
  }

  lemma {:induction false} PartAt(s: string, i: nat, part: string)
    requires StartsAt(s, i, part)
    ensures forall k :: i <= k < i + |part| ==> s[k] == part[k - i]
  {
    forall k | i <= k < i + |part|
      ensures s[k] == part[k - i]
    {
      assert s[i..i + |part|][k - i] == s[k];
    }
  }

  /** The groups of the match are the two texts between the fixed parts. */
  lemma {:induction false} FindsGroups(s: string, l: string, u: string)
    requires Laid(s, l, u)
    requires ',' !in l && ')' !in u && '\n' !in l && '\n' !in u
    ensures FindFrom(s, 0) == Submatch(0, |OPENING| + |l|, |OPENING| + |l| + |COMMA| + |u|)
  {
    var o, p := |OPENING|, |OPENING| + |l|;
    var q := p + |COMMA| + |u|;
    PartAt(s, o, l);
    PartAt(s, p, COMMA);
    PartAt(s, p + |COMMA|, u);
    assert forall k :: o <= k < q ==> s[k] != '\n';
    assert IsMatch(s, 0, p, q);
    FindsLeftmostLazy(s, 0, 0, p, q);
    var m := FindFrom(s, 0);
    PartAt(s, m.comma, COMMA);
    assert s[m.comma] == ',';
    assert m.comma == p && m.close == q;
  }

  lemma {:induction false} PrintedGroups(lower: real, upper: real, rest: string)
    requires lower >= 0.0 && upper >= 0.0
    ensures Groups(TrafficSegment(lower, upper) + rest) == Some((PrintFixed(lower), PrintFixed(upper)))
  {
    var l, u := PrintFixed(lower), PrintFixed(upper);
    PrintedCharacters(lower);
    PrintedCharacters(upper);
    Concatenated(OPENING, l, COMMA, u, rest);
    assert TrafficSegment(lower, upper) + rest == OPENING + l + COMMA + u + ")" + rest;
    GroupsAreRead(TrafficSegment(lower, upper) + rest, l, u);
  }

  lemma {:induction false} PrintedNumberIsRead(x: real)
    requires IsHundredth(x)
    ensures ParseFloat(PrintFixed(x)) == Some(x)
  {
    ParsePrinted(x);
    HundredthsExact(x);
  }

  /** A printed segment, with any predicates after it, reads back as exactly its limits. */
  lemma {:induction false} PrintedSegmentIsRead(lower: real, upper: real, rest: string)
    requires IsHundredth(lower) && IsHundredth(upper) && lower <= upper
    ensures LimitsIn(TrafficSegment(lower, upper) + rest) == Limits(lower, upper)
  {
    PrintedGroups(lower, upper, rest);
    PrintedNumberIsRead(lower);
    PrintedNumberIsRead(upper);
  }

  lemma {:induction false} GroupsAreRead(s: string, l: string, u: string)
    requires Laid(s, l, u)
    requires ',' !in l && ')' !in u && '\n' !in l && '\n' !in u
    ensures Groups(s) == Some((l, u))
  {
    FindsGroups(s, l, u);
  }

  ghost predicate MentionsSegment(text: string) {
    exists i: nat, p: nat, q: nat :: IsMatch(text, i, p, q)
  }

  lemma {:induction false} NotFoundIff(text: string)
    ensures LimitsIn(text).NotFound? <==> !MentionsSegment(text)
  {
    var m := FindFrom(text, 0);
    if m.Submatch? {
      assert IsMatch(text, m.start, m.comma, m.close);
    }
    if i: nat, p: nat, q: nat :| IsMatch(text, i, p, q) {
      FindsLeftmostLazy(text, 0, i, p, q);
    }
  }

  lemma {:induction false} SkipsNotFound(predicates: seq<string>, k: nat)
    requires k < |predicates| && !LimitsIn(predicates[k]).NotFound?
    requires forall j :: 0 <= j < k ==> LimitsIn(predicates[j]).NotFound?
    ensures GetSegmentLimits(predicates) == LimitsIn(predicates[k])
  {
    if k > 0 {
      assert LimitsIn(predicates[0]).NotFound?;
      SkipsNotFound(predicates[1..], k - 1);
    }
  }

  /** The first predicate that mentions a traffic segment decides, be it readable or not. */
  lemma {:induction false} FirstMentionDecides(predicates: seq<string>, k: nat)
    requires k < |predicates| && MentionsSegment(predicates[k])
    requires forall j :: 0 <= j < k ==> !MentionsSegment(predicates[j])
    ensures GetSegmentLimits(predicates) == LimitsIn(predicates[k]) != NotFound
  {
    forall j | 0 <= j <= k
      ensures LimitsIn(predicates[j]).NotFound? <==> j < k
    {
      NotFoundIff(predicates[j]);
    }
    SkipsNotFound(predicates, k);
  }

  /** The text of a limit between 0 and 1. */
  lemma {:induction false} PrintedLimit(tens: nat, ones: nat)
    requires tens < 10 && ones < 10
    ensures PrintFixed((10 * tens + ones) as real / 100.0) == "0." + ['0' + tens as char] + ['0' + ones as char]
    ensures PrintFixed(1.0) == "1.00"
  {
    var h := 10 * tens + ones;
    FloorOfHalf(h);
    assert h as real / 100.0 * 100.0 == h as real;
    assert Hundredths(h as real / 100.0) == h;
    assert h / 100 == 0 && h / 10 % 10 == tens && h % 10 == ones;
    assert Decimal(0) == "0" && Decimal(1) == "1";
    assert Hundredths(1.0) == 100;
  }

  lemma {:induction false} PrintedSegmentText()
    ensures TrafficSegment(0.0, 0.25) == "TrafficSegment(0.00, 0.25)"
    ensures TrafficSegment(0.25, 1.0) == "TrafficSegment(0.25, 1.00)"
  {
    PrintedLimit(0, 0);
    PrintedLimit(2, 5);
  }

  lemma {:induction false} OnlyPredicate(text: string)
    ensures GetSegmentLimits([text]) == LimitsIn(text)
  {
    assert GetSegmentLimits([text][1..]) == NotFound;
  }

  /** A number is read with its sign, and other text is refused. */
  lemma {:induction false} ParsedSigned()
    ensures ParseFloat("-1") == Some(-1.0) && ParseFloat("a") == None
  {
    assert "-1"[1..] == "1" && "1"[..0] == "";
    assert Unsigned("-1") == "1" && IndexOf("1", '.') == 1;
    assert "1"[..1] == "1" && Value("1") == 1;
    assert IndexOf("a", '.') == 1 && "a"[..1] == "a" && !IsDigit("a"[0]);
  }

  /** In a list of predicates the entries before the segment that mention none are skipped. */
  lemma {:induction false} PrintedSegmentIsFound(before: seq<string>, lower: real, upper: real, rest: string,
                                        after: seq<string>)
    requires IsHundredth(lower) && IsHundredth(upper) && lower <= upper
    requires forall k :: 0 <= k < |before| ==> LimitsIn(before[k]).NotFound?
    ensures GetSegmentLimits(before + [TrafficSegment(lower, upper) + rest] + after) == Limits(lower, upper)
  {
    var all := before + [TrafficSegment(lower, upper) + rest] + after;
    PrintedSegmentIsRead(lower, upper, rest);
    assert all[|before|] == TrafficSegment(lower, upper) + rest;
    assert forall k :: 0 <= k < |before| ==> all[k] == before[k];
    SkipsNotFound(all, |before|);
  }
}
