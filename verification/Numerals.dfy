/**
 Reading amounts with thousands and decimal separators. Callers pass what their patterns matched:
 digits, commas and points. Numbers are exact.
 */
module Numerals {
  import opened Common

  const COMMA := ','
  const POINT := '.'

  predicate IsDigit(c: char) {
    '0' <= c <= '9'
  }

  predicate AllDigits(s: string) {
    forall i :: 0 <= i < |s| ==> IsDigit(s[i])
  }

  predicate IsSeparator(c: char) {
    c == COMMA || c == POINT
  }

  /** The text is made of digits and separators. */
  predicate Numeric(s: string) {
    forall i :: 0 <= i < |s| ==> IsDigit(s[i]) || IsSeparator(s[i])
  }

  function Value(s: string): nat
    requires AllDigits(s)
  {
    if s == "" then 0 else 10 * Value(s[..|s| - 1]) + (s[|s| - 1] as int - '0' as int)
  }

  function Pow10(n: nat): (p: nat)
    ensures p > 0
  {
    if n == 0 then 1 else 10 * Pow10(n - 1)
  }

  function Count(s: string, c: char): nat {
    if s == "" then 0 else Count(s[..|s| - 1], c) + if s[|s| - 1] == c then 1 else 0
  }

  /** `str.rfind`: the last position of a character, or -1. */
  function RFind(s: string, c: char): (i: int)
    ensures -1 <= i < |s| && (i >= 0 ==> s[i] == c) && (i < 0 <==> c !in s)
  {
    if s == "" then -1 else if s[|s| - 1] == c then |s| - 1 else RFind(s[..|s| - 1], c)
  }

  /** `str.replace(c, "")`. */
  function Remove(s: string, c: char): (r: string)
    ensures c !in r && (forall x :: x in r ==> x in s)
  {
    if s == "" then "" else Remove(s[..|s| - 1], c) + if s[|s| - 1] == c then "" else [s[|s| - 1]]
  }

  /** `str.replace(c, d)`. */
  function Replace(s: string, c: char, d: char): (r: string)
    ensures |r| == |s| && forall i :: 0 <= i < |s| ==> r[i] == if s[i] == c then d else s[i]
  {
    if s == "" then "" else Replace(s[..|s| - 1], c, d) + [if s[|s| - 1] == c then d else s[|s| - 1]]
  }

  /** `str.split(sep)`: the parts between separators. */
  function Parts(s: string, sep: char): (ps: seq<string>)
    ensures |ps| > 0
    decreases |s|
  {
    var i := RFind(s, sep);
    if i < 0 then [s] else Parts(s[..i], sep) + [s[i + 1..]]
  }

  function JoinParts(ps: seq<string>): string {
    if ps == [] then "" else JoinParts(ps[..|ps| - 1]) + ps[|ps| - 1]
  }

  /** The value of digits after a point. */
  function FractionValue(fraction: string): real
    requires AllDigits(fraction)
  {
    Value(fraction) as real / Pow10(|fraction|) as real
  }

  function Decimal(whole: string, fraction: string): real
    requires AllDigits(whole) && AllDigits(fraction)
  {
    Value(whole) as real + FractionValue(fraction)
  }

  /** `float()` on digits and separators: digits with at most one point, and at least one digit. */
  function ToFloat(s: string): Option<real> {
    var i := RFind(s, POINT);
    if i < 0 then (if s != "" && AllDigits(s) then Some(Value(s) as real) else None)
    else if |s| > 1 && AllDigits(s[..i]) && AllDigits(s[i + 1..]) then Some(Decimal(s[..i], s[i + 1..]))
    else None
  }

  /** All parts after the first are groups of three digits. */
  predicate Grouped(ps: seq<string>) {
    |ps| > 1 && forall k :: 1 <= k < |ps| ==> |ps[k]| == 3 && AllDigits(ps[k])
  }

  /** `_parse_number`. */
  function ParseNumber(value: string): Option<real>
    requires Numeric(value)
  {
    if value == "" then None
    else if COMMA in value && POINT in value then
      if RFind(value, POINT) > RFind(value, COMMA) then ToFloat(Remove(value, COMMA))
      else ToFloat(Replace(Remove(value, POINT), COMMA, POINT))
    else if COMMA in value then
      var ps := Parts(value, COMMA);
      if Grouped(ps) then ToFloat(JoinParts(ps)) else ToFloat(Replace(value, COMMA, POINT))
    else if POINT in value then
      var ps := Parts(value, POINT);
      if Grouped(ps) then ToFloat(JoinParts(ps)) else ToFloat(value)
    else ToFloat(value)
  }

  // ----- written numbers

  function Other(sep: char): char {
    if sep == COMMA then POINT else COMMA
  }

  function DigitChar(d: nat): char
    requires d < 10
  {
    ('0' as int + d) as char
  }

  function Show(n: nat): (s: string)
    requires n < 1000
    ensures 1 <= |s| <= 3 && AllDigits(s) && Value(s) == n
  {
    var a, b, c := DigitChar(n / 100), DigitChar(n / 10 % 10), DigitChar(n % 10);
    DigitsOf(n);
    if n < 10 then [c] else if n < 100 then [b, c] else [a, b, c]
  }

  function Show3(n: nat): (s: string)
    requires n < 1000
    ensures |s| == 3 && AllDigits(s) && Value(s) == n
  {
    var a, b, c := DigitChar(n / 100), DigitChar(n / 10 % 10), DigitChar(n % 10);
    DigitsOf(n);
    [a, b, c]
  }

  lemma DigitsOf(n: nat)
    requires n < 1000
    ensures var a, b, c := DigitChar(n / 100), DigitChar(n / 10 % 10), DigitChar(n % 10);
            AllDigits([a, b, c]) && Value([c]) == n % 10 && Value([b, c]) == n % 100 && Value([a, b, c]) == n
  {
    ThreeDigits(DigitChar(n / 100), DigitChar(n / 10 % 10), DigitChar(n % 10));
    Decompose(n);
    DigitCharIs(n / 100);
    DigitCharIs(n / 10 % 10);
    DigitCharIs(n % 10);
  }

  lemma Decompose(n: nat)
    requires n < 1000
    ensures n == 100 * (n / 100) + 10 * (n / 10 % 10) + n % 10 && n % 100 == 10 * (n / 10 % 10) + n % 10
  {
    var q, r := n / 100, n % 100;
    var t, u := r / 10, r % 10;
    assert n == 10 * (10 * q + t) + u;
    assert n / 10 == 10 * q + t && n % 10 == u;
    assert (10 * q + t) % 10 == t;
  }

  lemma DigitCharIs(d: nat)
    requires d < 10
    ensures IsDigit(DigitChar(d)) && DigitChar(d) as int - '0' as int == d
  {
  }

  lemma ThreeDigits(a: char, b: char, c: char)
    requires IsDigit(a) && IsDigit(b) && IsDigit(c)
    ensures Value([c]) == c as int - '0' as int
    ensures Value([b, c]) == 10 * (b as int - '0' as int) + (c as int - '0' as int)
    ensures Value([a, b, c]) == 100 * (a as int - '0' as int) + 10 * (b as int - '0' as int) + (c as int - '0' as int)
  {
    ValueConcat([a], [b]);
    ValueConcat([b], [c]);
    ValueConcat([a, b], [c]);
    assert [a] + [b] == [a, b] && [b] + [c] == [b, c] && [a, b] + [c] == [a, b, c];
    assert Pow10(1) == 10 && [a][..0] == "" && [b][..0] == "" && [c][..0] == "";
  }

  lemma {:induction false} ValueConcat(a: string, b: string)
    requires AllDigits(a) && AllDigits(b)
    ensures AllDigits(a + b) && Value(a + b) == Value(a) * Pow10(|b|) + Value(b)
  {
    if b == "" {
      assert a + b == a;
    } else {
      assert (a + b)[..|a + b| - 1] == a + b[..|b| - 1];
      ValueConcat(a, b[..|b| - 1]);
      assert Value(a + b) == 10 * Value(a + b[..|b| - 1]) + Value([b[|b| - 1]])
             && Value(b) == 10 * Value(b[..|b| - 1]) + Value([b[|b| - 1]]);
      TenTimes(Value(a), Pow10(|b| - 1), Value(b[..|b| - 1]));
    }
  }

  lemma TenTimes(v: nat, p: nat, r: nat)
    ensures 10 * (v * p + r) == v * (10 * p) + 10 * r
  {
  }

  /** A separator and the three digits after it. */
  datatype Group = Group(sep: char, digits: string)

  ghost predicate WellFormed(head: string, groups: seq<Group>) {
    && head != "" && AllDigits(head)
    && forall k :: 0 <= k < |groups| ==>
         IsSeparator(groups[k].sep) && |groups[k].digits| == 3 && AllDigits(groups[k].digits)
  }

  ghost function Text(head: string, groups: seq<Group>): string {
    if groups == [] then head
    else
      var g := groups[|groups| - 1];
      Text(head, groups[..|groups| - 1]) + [g.sep] + g.digits
  }

  ghost function Digits(head: string, groups: seq<Group>): string {
    if groups == [] then head else Digits(head, groups[..|groups| - 1]) + groups[|groups| - 1].digits
  }

  ghost function Occurrences(groups: seq<Group>, sep: char): nat {
    if groups == [] then 0
    else Occurrences(groups[..|groups| - 1], sep) + if groups[|groups| - 1].sep == sep then 1 else 0
  }

  ghost predicate Uniform(groups: seq<Group>, sep: char) {
    forall k :: 0 <= k < |groups| ==> groups[k].sep == sep
  }

  /** The thousands grouping of a number. */
  ghost function GroupsOf(n: nat, sep: char): seq<Group> {
    if n < 1000 then [] else GroupsOf(n / 1000, sep) + [Group(sep, Show3(n % 1000))]
  }

  ghost function HeadOf(n: nat): string {
    if n < 1000 then Show(n) else HeadOf(n / 1000)
  }

  ghost function Thousands(n: nat, sep: char): string {
    Text(HeadOf(n), GroupsOf(n, sep))
  }

  // ----- string facts

  lemma {:induction false} RFindAt(a: string, c: char, b: string)
    requires c !in b
    ensures RFind(a + [c] + b, c) == |a| && RFind(a + b, c) == RFind(a, c)
  {
    if b == "" {
      assert a + [c] + b == a + [c] && a + b == a && (a + [c])[..|a|] == a;
    } else {
      var b' := b[..|b| - 1];
      assert b[|b| - 1] in b && (a + [c] + b)[..|a| + |b|] == a + [c] + b' && (a + b)[..|a| + |b'|] == a + b';
      RFindAt(a, c, b');
    }
  }

  lemma {:induction false} RFindIsLast(s: string, c: char)
    ensures forall j :: RFind(s, c) < j < |s| ==> s[j] != c
  {
    if s != "" && s[|s| - 1] != c {
      RFindIsLast(s[..|s| - 1], c);
    }
  }

  lemma AbsentEverywhere(s: string, c: char)
    requires c !in s
    ensures forall j :: 0 <= j < |s| ==> s[j] != c
  {
  }

  lemma DigitsOnly(s: string)
    requires Numeric(s) && COMMA !in s && POINT !in s
    ensures AllDigits(s)
  {
    AbsentEverywhere(s, COMMA);
    AbsentEverywhere(s, POINT);
  }

  lemma DigitsAfter(s: string, i: int)
    requires Numeric(s) && -1 <= i < |s| && forall j :: i < j < |s| ==> !IsSeparator(s[j])
    ensures AllDigits(s[i + 1..])
  {
    var b := s[i + 1..];
    assert forall k :: 0 <= k < |b| ==> b[k] == s[i + 1 + k];
  }

  lemma {:induction false} RemoveConcat(a: string, b: string, c: char)
    ensures Remove(a + b, c) == Remove(a, c) + Remove(b, c)
  {
    if b == "" {
      assert a + b == a;
    } else {
      assert (a + b)[..|a + b| - 1] == a + b[..|b| - 1];
      RemoveConcat(a, b[..|b| - 1], c);
    }
  }

  lemma {:induction false} RemoveAbsent(s: string, c: char)
    requires c !in s
    ensures Remove(s, c) == s
  {
    if s != "" {
      assert s[|s| - 1] in s;
      RemoveAbsent(s[..|s| - 1], c);
    }
  }

  lemma NoSeparatorInDigits(s: string, c: char)
    requires AllDigits(s) && IsSeparator(c)
    ensures c !in s
  {
  }

  lemma PartsAt(a: string, sep: char, b: string)
    requires sep !in b
    ensures Parts(a + [sep] + b, sep) == Parts(a, sep) + [b]
  {
    RFindAt(a, sep, b);
    assert (a + [sep] + b)[..|a|] == a && (a + [sep] + b)[|a| + 1..] == b;
  }

  lemma PartsOne(s: string, sep: char)
    requires sep !in s
    ensures Parts(s, sep) == [s]
  {
  }

  lemma FloatOfDigits(s: string)
    requires AllDigits(s) && s != ""
    ensures ToFloat(s) == Some(Value(s) as real)
  {
    NoSeparatorInDigits(s, POINT);
  }

  lemma FloatAt(a: string, b: string)
    requires AllDigits(b)
    ensures ToFloat(a + [POINT] + b) == if a + b != "" && AllDigits(a) then Some(Decimal(a, b)) else None
  {
    NoSeparatorInDigits(b, POINT);
    RFindAt(a, POINT, b);
    assert (a + [POINT] + b)[..|a|] == a && (a + [POINT] + b)[|a| + 1..] == b;
  }

  // ----- grouped texts

  lemma {:induction false} TextShape(head: string, groups: seq<Group>)
    requires WellFormed(head, groups)
    ensures Numeric(Text(head, groups)) && Text(head, groups) != ""
    ensures AllDigits(Digits(head, groups)) && Digits(head, groups) != ""
    ensures forall sep :: IsSeparator(sep) ==> (sep in Text(head, groups) <==> Occurrences(groups, sep) > 0)
  {
    if groups != [] {
      TextShape(head, groups[..|groups| - 1]);
    }
  }

  ghost function DigitGroups(groups: seq<Group>): seq<string> {
    seq(|groups|, k requires 0 <= k < |groups| => groups[k].digits)
  }

  lemma {:induction false} UniformParts(head: string, groups: seq<Group>, sep: char)
    requires WellFormed(head, groups) && Uniform(groups, sep) && IsSeparator(sep)
    ensures Parts(Text(head, groups), sep) == [head] + DigitGroups(groups)
  {
    if groups == [] {
      NoSeparatorInDigits(head, sep);
      PartsOne(head, sep);
    } else {
      var init, g := groups[..|groups| - 1], groups[|groups| - 1];
      UniformParts(head, init, sep);
      NoSeparatorInDigits(g.digits, sep);
      PartsAt(Text(head, init), sep, g.digits);
      DigitGroupsSnoc(groups);
      assert [head] + (DigitGroups(init) + [g.digits]) == ([head] + DigitGroups(init)) + [g.digits];
    }
  }

  lemma DigitGroupsSnoc(groups: seq<Group>)
    requires groups != []
    ensures DigitGroups(groups) == DigitGroups(groups[..|groups| - 1]) + [groups[|groups| - 1].digits]
  {
  }

  lemma {:induction false} JoinDigitGroups(head: string, groups: seq<Group>)
    ensures JoinParts([head] + DigitGroups(groups)) == Digits(head, groups)
  {
    var ps := [head] + DigitGroups(groups);
    if groups == [] {
      assert ps == [head] && [head][..0] == [];
    } else {
      var init := groups[..|groups| - 1];
      JoinDigitGroups(head, init);
      assert ps[..|ps| - 1] == [head] + DigitGroups(init);
    }
  }

  lemma {:induction false} UniformOccurrences(groups: seq<Group>, sep: char, c: char)
    requires Uniform(groups, sep)
    ensures Occurrences(groups, c) == if c == sep then |groups| else 0
  {
    if groups != [] {
      UniformOccurrences(groups[..|groups| - 1], sep, c);
    }
  }

  /** A text with one kind of separator. */
  lemma OneKindOfSeparator(value: string, sep: char)
    requires Numeric(value) && IsSeparator(sep) && sep in value && Other(sep) !in value
    ensures ParseNumber(value) == if Grouped(Parts(value, sep)) then ToFloat(JoinParts(Parts(value, sep)))
                                  else ToFloat(Replace(value, sep, POINT))
  {
    assert Replace(value, POINT, POINT) == value;
  }

  lemma GroupsAreGrouped(head: string, groups: seq<Group>)
    requires WellFormed(head, groups) && groups != []
    ensures Grouped([head] + DigitGroups(groups))
  {
  }

  /** A uniformly grouped text reads as its digits: it never comes back empty-handed. */
  lemma UniformParses(head: string, groups: seq<Group>, sep: char)
    requires WellFormed(head, groups) && Uniform(groups, sep) && IsSeparator(sep)
    ensures Numeric(Text(head, groups)) && AllDigits(Digits(head, groups))
    ensures ParseNumber(Text(head, groups)) == Some(Value(Digits(head, groups)) as real)
  {
    TextShape(head, groups);
    UniformParts(head, groups, sep);
    JoinDigitGroups(head, groups);
    UniformOccurrences(groups, sep, sep);
    UniformOccurrences(groups, sep, Other(sep));
    FloatOfDigits(Digits(head, groups));
    if groups != [] {
      GroupsAreGrouped(head, groups);
      OneKindOfSeparator(Text(head, groups), sep);
    }
  }

  lemma {:induction false} ThousandsShape(n: nat, sep: char)
    requires IsSeparator(sep)
    ensures WellFormed(HeadOf(n), GroupsOf(n, sep)) && Uniform(GroupsOf(n, sep), sep)
    ensures GroupsOf(n, sep) == [] <==> n < 1000
  {
    if n >= 1000 {
      ThousandsShape(n / 1000, sep);
    }
  }

  lemma {:induction false} ThousandsValue(n: nat, sep: char)
    requires IsSeparator(sep)
    ensures AllDigits(Digits(HeadOf(n), GroupsOf(n, sep))) && Value(Digits(HeadOf(n), GroupsOf(n, sep))) == n
  {
    if n >= 1000 {
      ThousandsValue(n / 1000, sep);
      var init, g := GroupsOf(n / 1000, sep), Group(sep, Show3(n % 1000));
      DigitsSnoc(HeadOf(n / 1000), init, g);
      ThreeMore(Digits(HeadOf(n / 1000), init), n / 1000, n % 1000);
    }
  }

  lemma DigitsSnoc(head: string, groups: seq<Group>, g: Group)
    ensures Digits(head, groups + [g]) == Digits(head, groups) + g.digits
  {
    assert (groups + [g])[..|groups|] == groups;
  }

  lemma ThreeMore(digits: string, thousands: nat, rest: nat)
    requires AllDigits(digits) && Value(digits) == thousands && rest < 1000
    ensures AllDigits(digits + Show3(rest)) && Value(digits + Show3(rest)) == 1000 * thousands + rest
  {
    ValueConcat(digits, Show3(rest));
    Thousand();
  }

  lemma Thousand()
    ensures Pow10(3) == 1000
  {
    assert Pow10(1) == 10 && Pow10(2) == 100;
  }

  /** Reading undoes thousands grouping with either separator, for every number. */
  lemma ThousandsRoundTrip(n: nat, sep: char)
    requires IsSeparator(sep)
    ensures Numeric(Thousands(n, sep)) && ParseNumber(Thousands(n, sep)) == Some(n as real)
  {
    ThousandsShape(n, sep);
    ThousandsValue(n, sep);
    UniformParses(HeadOf(n), GroupsOf(n, sep), sep);
  }

  // ----- mixed separators

  /** What the two mixed branches hand to `float()`: the separator that comes last becomes the point. */
  ghost function Candidate(s: string, last: char): string {
    Replace(Remove(s, Other(last)), last, POINT)
  }

  lemma CandidateIsWhatIsRead(s: string)
    requires Numeric(s) && COMMA in s && POINT in s
    ensures ParseNumber(s) == ToFloat(Candidate(s, if RFind(s, POINT) > RFind(s, COMMA) then POINT else COMMA))
  {
    assert Replace(Remove(s, COMMA), POINT, POINT) == Remove(s, COMMA);
  }

  lemma {:induction false} ReplaceConcat(a: string, b: string, c: char, d: char)
    ensures Replace(a + b, c, d) == Replace(a, c, d) + Replace(b, c, d)
  {
  }

  lemma CandidateConcat(a: string, b: string, last: char)
    ensures Candidate(a + b, last) == Candidate(a, last) + Candidate(b, last)
  {
    RemoveConcat(a, b, Other(last));
    ReplaceConcat(Remove(a, Other(last)), Remove(b, Other(last)), last, POINT);
  }

  lemma CandidateOfDigits(d: string, last: char)
    requires AllDigits(d) && IsSeparator(last)
    ensures Candidate(d, last) == d
  {
    NoSeparatorInDigits(d, Other(last));
    RemoveAbsent(d, Other(last));
    assert Replace(d, last, POINT) == d;
  }

  lemma CandidateOfSeparator(sep: char, last: char)
    requires IsSeparator(sep) && IsSeparator(last)
    ensures Candidate([sep], last) == if sep == last then [POINT] else ""
  {
    assert [sep][..0] == "" && Remove("", Other(last)) == "";
  }

  lemma CandidateAt(a: string, sep: char, b: string, last: char)
    requires IsSeparator(sep) && IsSeparator(last) && AllDigits(b)
    ensures Candidate(a + [sep] + b, last) == Candidate(a, last) + (if sep == last then [POINT] else "") + b
  {
    CandidateConcat(a + [sep], b, last);
    CandidateConcat(a, [sep], last);
    CandidateOfDigits(b, last);
    CandidateOfSeparator(sep, last);
  }

  /** The separators of the other kind vanish; those of the last kind stay as points. */
  lemma {:induction false} CandidateOfGroups(head: string, groups: seq<Group>, last: char)
    requires WellFormed(head, groups) && IsSeparator(last)
    ensures Occurrences(groups, last) == 0 ==> Candidate(Text(head, groups), last) == Digits(head, groups)
    ensures Occurrences(groups, last) > 0 ==> POINT in Candidate(Text(head, groups), last)
    ensures Candidate(Text(head, groups), last) != ""
  {
    if groups == [] {
      CandidateOfDigits(head, last);
    } else {
      var init, g := groups[..|groups| - 1], groups[|groups| - 1];
      CandidateOfGroups(head, init, last);
      CandidateAt(Text(head, init), g.sep, g.digits, last);
      assert Candidate(Text(head, init), last) + "" == Candidate(Text(head, init), last);
    }
  }

  lemma LastSeparator(a: string, last: char, b: string)
    requires IsSeparator(last) && AllDigits(b)
    ensures RFind(a + [last] + b, Other(last)) < RFind(a + [last] + b, last) == |a|
  {
    var o := Other(last);
    NoSeparatorInDigits(b, last);
    NoSeparatorInDigits(b, o);
    RFindAt(a, last, b);
    RFindAt(a + [last], o, b);
    assert (a + [last])[..|a|] == a;
  }

  /** A grouped text that mixes the separators is read exactly when the kind that comes last comes
      once; it is then the decimal separator of the last group. */
  lemma MixedParsesIff(head: string, groups: seq<Group>)
    requires WellFormed(head, groups) && Occurrences(groups, COMMA) > 0 && Occurrences(groups, POINT) > 0
    ensures Numeric(Text(head, groups))
    ensures var init, g := groups[..|groups| - 1], groups[|groups| - 1];
            && (ParseNumber(Text(head, groups)).Some? <==> Occurrences(groups, g.sep) == 1)
            && (Occurrences(groups, g.sep) == 1 ==>
                  AllDigits(Digits(head, init))
                      && ParseNumber(Text(head, groups)) == Some(Decimal(Digits(head, init), g.digits)))
  {
    var init, g := groups[..|groups| - 1], groups[|groups| - 1];
    TextShape(head, groups);
    TextShape(head, init);
    var text := Text(head, groups);
    LastSeparator(Text(head, init), g.sep, g.digits);
    CandidateIsWhatIsRead(text);
    CandidateAt(Text(head, init), g.sep, g.digits, g.sep);
    CandidateOfGroups(head, init, g.sep);
    FloatAt(Candidate(Text(head, init), g.sep), g.digits);
  }

  // ----- thousands grouping and a decimal part

  ghost function WithFraction(n: nat, sep: char, fraction: string): string {
    Thousands(n, sep) + [Other(sep)] + fraction
  }

  ghost function Meant(n: nat, fraction: string): real
    requires AllDigits(fraction)
  {
    n as real + FractionValue(fraction)
  }

  lemma DecimalIsMeant(whole: string, n: nat, fraction: string)
    requires AllDigits(whole) && AllDigits(fraction) && Value(whole) == n && whole != ""
    ensures ToFloat(whole + [POINT] + fraction) == Some(Meant(n, fraction))
  {
    FloatAt(whole, fraction);
    assert Decimal(whole, fraction) == Meant(n, fraction);
  }

  lemma FractionCandidate(n: nat, sep: char, fraction: string)
    requires IsSeparator(sep) && AllDigits(fraction)
    ensures ToFloat(Candidate(WithFraction(n, sep, fraction), Other(sep))) == Some(Meant(n, fraction))
  {
    var o := Other(sep);
    ThousandsShape(n, sep);
    ThousandsValue(n, sep);
    UniformOccurrences(GroupsOf(n, sep), sep, o);
    TextShape(HeadOf(n), GroupsOf(n, sep));
    var digits := Digits(HeadOf(n), GroupsOf(n, sep));
    DecimalIsMeant(digits, n, fraction);
    assert Candidate(WithFraction(n, sep, fraction), o) == digits + [POINT] + fraction by {
      CandidateAt(Thousands(n, sep), o, fraction, o);
      CandidateOfGroups(HeadOf(n), GroupsOf(n, sep), o);
    }
  }

  lemma FractionAfterGroups(n: nat, sep: char, fraction: string)
    requires IsSeparator(sep) && AllDigits(fraction) && n >= 1000
    ensures Numeric(WithFraction(n, sep, fraction))
    ensures ParseNumber(WithFraction(n, sep, fraction)) == Some(Meant(n, fraction))
  {
    ThousandsShape(n, sep);
    TextShape(HeadOf(n), GroupsOf(n, sep));
    UniformOccurrences(GroupsOf(n, sep), sep, sep);
    var text := WithFraction(n, sep, fraction);
    assert sep in Thousands(n, sep) && Other(sep) in text && sep in text;
    LastSeparator(Thousands(n, sep), Other(sep), fraction);
    CandidateIsWhatIsRead(text);
    FractionCandidate(n, sep, fraction);
  }

  /** One separator only: three digits after it make it a thousands separator, else it is the point. */
  lemma OneSeparator(whole: string, o: char, fraction: string)
    requires IsSeparator(o) && AllDigits(whole) && whole != "" && AllDigits(fraction)
    ensures Numeric(whole + [o] + fraction)
    ensures ParseNumber(whole + [o] + fraction) ==
            if |fraction| == 3 then ToFloat(whole + fraction) else ToFloat(whole + [POINT] + fraction)
  {
    var text := whole + [o] + fraction;
    NoSeparatorInDigits(whole, o);
    NoSeparatorInDigits(fraction, o);
    assert text[|whole|] == o && Other(o) !in text;
    OneKindOfSeparator(text, o);
    PartsAt(whole, o, fraction);
    PartsOne(whole, o);
    PairIsGrouped(whole, fraction);
    ReplaceOne(whole, o, fraction);
  }

  lemma PairIsGrouped(a: string, b: string)
    requires AllDigits(b)
    ensures [a] + [b] == [a, b] && JoinParts([a, b]) == a + b && (Grouped([a, b]) <==> |b| == 3)
  {
    assert [a, b][..1] == [a] && [a][..0] == [];
    assert JoinParts([a]) == JoinParts([]) + a == a;
    assert [a, b][1] == b;
  }

  lemma ReplaceOne(a: string, c: char, b: string)
    requires c !in a && c !in b
    ensures Replace(a + [c] + b, c, POINT) == a + [POINT] + b
  {
    assert forall i :: 0 <= i < |a| ==> a[i] in a;
    assert forall i :: 0 <= i < |b| ==> b[i] in b;
  }

  /** Without a thousands group the only separator is taken for a thousands one when three digits follow. */
  lemma FractionWithoutGroups(n: nat, sep: char, fraction: string)
    requires IsSeparator(sep) && AllDigits(fraction) && n < 1000
    ensures Numeric(WithFraction(n, sep, fraction))
    ensures ParseNumber(WithFraction(n, sep, fraction)) ==
            if |fraction| == 3 then Some((1000 * n + Value(fraction)) as real) else Some(Meant(n, fraction))
  {
    OneSeparator(Show(n), Other(sep), fraction);
    if |fraction| == 3 {
      ReadTogether(Show(n), n, fraction);
    } else {
      DecimalIsMeant(Show(n), n, fraction);
    }
  }

  lemma ReadTogether(whole: string, n: nat, fraction: string)
    requires AllDigits(whole) && AllDigits(fraction) && Value(whole) == n && whole != "" && |fraction| == 3
    ensures ToFloat(whole + fraction) == Some((1000 * n + Value(fraction)) as real)
  {
    ValueConcat(whole, fraction);
    Thousand();
    FloatOfDigits(whole + fraction);
  }

  lemma ThousandfoldIsSame(n: nat, v: nat)
    ensures n as real + v as real / 1000.0 == (1000 * n + v) as real <==> n == 0 && v == 0
  {
    var q := v as real / 1000.0;
    assert q * 1000.0 == v as real;
    assert (1000 * n + v) as real == 1000.0 * (n as real + q);
  }

  /** Grouping with one separator plus a decimal part after the other reads back exactly when there is a
      thousands group, or the decimal part does not have three digits, or everything is zero. */
  lemma FractionRoundTripIff(n: nat, sep: char, fraction: string)
    requires IsSeparator(sep) && AllDigits(fraction)
    ensures Numeric(WithFraction(n, sep, fraction))
    ensures ParseNumber(WithFraction(n, sep, fraction)) == Some(Meant(n, fraction))
            <==> n >= 1000 || |fraction| != 3 || (n == 0 && Value(fraction) == 0)
  {
    if n >= 1000 {
      FractionAfterGroups(n, sep, fraction);
    } else {
      FractionWithoutGroups(n, sep, fraction);
      if |fraction| == 3 {
        Thousand();
        ThousandfoldIsSame(n, Value(fraction));
      }
    }
  }

  // ----- any match

  /** The digits of a text, without its separators. */
  ghost function Bare(s: string): (d: string)
    ensures AllDigits(d)
  {
    if s == "" then "" else Bare(s[..|s| - 1]) + if IsDigit(s[|s| - 1]) then [s[|s| - 1]] else ""
  }

  /** The kind of the last separator, if there is one. */
  ghost function LastKind(s: string): char {
    if RFind(s, POINT) > RFind(s, COMMA) then POINT else COMMA
  }

  /** How many characters follow the last separator of a kind. */
  ghost function After(s: string, sep: char): nat {
    if sep in s then |s| - 1 - RFind(s, sep) else 0
  }

  /** Digits with at most one point, `decimals` of them behind it. */
  ghost function Reading(digits: string, points: nat, decimals: nat): Option<real>
    requires AllDigits(digits)
  {
    if digits == "" || points > 1 then None
    else if points == 0 then Some(Value(digits) as real)
    else Some(Value(digits) as real / Pow10(decimals) as real)
  }

  ghost predicate ThreeDigitsAt(s: string, i: int, sep: char) {
    && 0 <= i && i + 3 < |s| && IsDigit(s[i + 1]) && IsDigit(s[i + 2]) && IsDigit(s[i + 3])
    && (i + 4 < |s| ==> s[i + 4] == sep)
  }

  /** Exactly three digits follow every separator. */
  ghost predicate InThrees(s: string, sep: char) {
    forall i :: 0 <= i < |s| && s[i] == sep ==> ThreeDigitsAt(s, i, sep)
  }

  lemma {:induction false} BareConcat(a: string, b: string)
    ensures Bare(a + b) == Bare(a) + Bare(b)
  {
    if b == "" {
      assert a + b == a;
    } else {
      assert (a + b)[..|a + b| - 1] == a + b[..|b| - 1];
      BareConcat(a, b[..|b| - 1]);
    }
  }

  lemma {:induction false} BareDigits(s: string)
    requires AllDigits(s)
    ensures Bare(s) == s
  {
    if s != "" {
      var init, x := s[..|s| - 1], s[|s| - 1];
      BareDigits(init);
      assert s == init + [x];
    }
  }

  lemma {:induction false} CountConcat(a: string, b: string, c: char)
    ensures Count(a + b, c) == Count(a, c) + Count(b, c)
  {
    if b == "" {
      assert a + b == a;
    } else {
      assert (a + b)[..|a + b| - 1] == a + b[..|b| - 1];
      CountConcat(a, b[..|b| - 1], c);
    }
  }

  lemma {:induction false} CountAbsent(s: string, c: char)
    ensures Count(s, c) == 0 <==> c !in s
  {
    if s != "" {
      CountAbsent(s[..|s| - 1], c);
      assert s == s[..|s| - 1] + [s[|s| - 1]];
    }
  }

  lemma CutAtLast(s: string, c: char)
    requires c in s
    ensures var i := RFind(s, c); s == s[..i] + [c] + s[i + 1..] && c !in s[i + 1..]
    ensures Count(s, c) == Count(s[..RFind(s, c)], c) + 1
  {
    var i := RFind(s, c);
    var a, b := s[..i], s[i + 1..];
    assert s == a + [c] + b;
    RFindIsLast(s, c);
    CountConcat(a + [c], b, c);
    CountConcat(a, [c], c);
    CountAbsent(b, c);
    assert [c][..0] == "";
  }

  lemma BareAt(a: string, sep: char, b: string)
    requires IsSeparator(sep) && AllDigits(b)
    ensures Bare(a + [sep] + b) == Bare(a) + b
  {
    BareConcat(a + [sep], b);
    BareConcat(a, [sep]);
    BareDigits(b);
    assert Bare([sep]) == "" && Bare(a) + "" == Bare(a);
  }

  lemma DecimalIsScaled(a: string, b: string)
    requires AllDigits(a) && AllDigits(b)
    ensures AllDigits(a + b) && Decimal(a, b) == Value(a + b) as real / Pow10(|b|) as real
  {
    ValueConcat(a, b);
    OneFraction(Value(a), Value(b), Pow10(|b|));
  }

  lemma FloatAroundPoint(a: string, b: string)
    requires Numeric(a) && COMMA !in a && AllDigits(b)
    ensures AllDigits(Bare(a) + b)
    ensures ToFloat(a + [POINT] + b) == Reading(Bare(a) + b, 1 + Count(a, POINT), |b|)
  {
    FloatAt(a, b);
    CountAbsent(a, POINT);
    if POINT in a {
      assert !AllDigits(a);
    } else {
      DigitsOnly(a);
      BareDigits(a);
      DecimalIsScaled(a, b);
    }
  }

  /** A text of digits and points: at most one point, and at least one digit. */
  lemma FloatOfPoints(c: string)
    requires Numeric(c) && COMMA !in c
    ensures ToFloat(c) == Reading(Bare(c), Count(c, POINT), After(c, POINT))
  {
    if POINT in c {
      var i := RFind(c, POINT);
      CutAtLast(c, POINT);
      assert AllDigits(c[i + 1..]);
      FloatAroundPoint(c[..i], c[i + 1..]);
      BareAt(c[..i], POINT, c[i + 1..]);
    } else {
      CountAbsent(c, POINT);
      DigitsOnly(c);
      BareDigits(c);
    }
  }

  lemma OneFraction(v: nat, w: nat, p: nat)
    requires p > 0
    ensures (v * p + w) as real / p as real == v as real + w as real / p as real
  {
    var q := w as real / p as real;
    assert (v * p) as real == v as real * p as real;
    assert q * p as real == w as real;
    assert (v as real + q) * p as real == (v * p + w) as real;
  }

  /** The candidate keeps the digits and the number of last separators. */
  lemma {:induction false} CandidateKeeps(s: string, last: char)
    requires Numeric(s) && IsSeparator(last)
    ensures Bare(Candidate(s, last)) == Bare(s) && Count(Candidate(s, last), POINT) == Count(s, last)
  {
    if s != "" {
      var init, x := s[..|s| - 1], s[|s| - 1];
      assert s == init + [x] && x in s;
      CandidateKeeps(init, last);
      CandidateConcat(init, [x], last);
      CandidateOfOne(x, last);
      OneCharacter(last, x, Candidate([x], last));
      OneMoreCharacter(init, Candidate(init, last), last, x, Candidate([x], last));
    } else {
      CandidateOfDigits(s, last);
    }
  }

  lemma CandidateOfOne(x: char, last: char)
    requires (IsDigit(x) || IsSeparator(x)) && IsSeparator(last)
    ensures Candidate([x], last) == if IsDigit(x) then [x] else if x == last then [POINT] else ""
  {
    if IsSeparator(x) {
      CandidateOfSeparator(x, last);
    } else {
      CandidateOfDigits([x], last);
    }
  }

  lemma OneCharacter(last: char, x: char, y: string)
    requires IsSeparator(last) && (IsDigit(x) || IsSeparator(x))
    requires y == if IsDigit(x) then [x] else if x == last then [POINT] else ""
    ensures Bare(y) == Bare([x]) && Count(y, POINT) == Count([x], last)
  {
    assert [x][..0] == "" && [POINT][..0] == "";
  }

  lemma OneMoreCharacter(s: string, c: string, last: char, x: char, y: string)
    requires Bare(y) == Bare([x]) && Count(y, POINT) == Count([x], last)
    requires Bare(c) == Bare(s) && Count(c, POINT) == Count(s, last)
    ensures Bare(c + y) == Bare(s + [x]) && Count(c + y, POINT) == Count(s + [x], last)
  {
    BareConcat(c, y);
    BareConcat(s, [x]);
    CountConcat(c, y, POINT);
    CountConcat(s, [x], last);
  }

  lemma CandidateIsNumeric(s: string, last: char)
    requires Numeric(s) && IsSeparator(last)
    ensures Numeric(Candidate(s, last)) && COMMA !in Candidate(s, last)
  {
    var kept := Remove(s, Other(last));
    assert forall i :: 0 <= i < |kept| ==> kept[i] in kept && kept[i] in s;
  }

  lemma OnlyDigitsFollow(s: string)
    requires Numeric(s)
    ensures AllDigits(s[RFind(s, LastKind(s)) + 1..])
  {
    RFindIsLast(s, COMMA);
    RFindIsLast(s, POINT);
    DigitsAfter(s, RFind(s, LastKind(s)));
  }

  /** What follows the last separator is the decimal part of the candidate. */
  lemma CandidateCut(s: string)
    requires Numeric(s) && LastKind(s) in s
    ensures After(Candidate(s, LastKind(s)), POINT) == After(s, LastKind(s))
  {
    var last := LastKind(s);
    var i := RFind(s, last);
    var a, b := s[..i], s[i + 1..];
    CutAtLast(s, last);
    OnlyDigitsFollow(s);
    CandidateAt(a, last, b, last);
    NoSeparatorInDigits(b, POINT);
    RFindAt(Candidate(a, last), POINT, b);
    assert (Candidate(a, last) + [POINT] + b)[|Candidate(a, last)|] == POINT;
  }

  lemma ReadAsCandidate(s: string)
    requires Numeric(s)
    ensures ToFloat(Candidate(s, LastKind(s))) == Reading(Bare(s), Count(s, LastKind(s)), After(s, LastKind(s)))
  {
    var last := LastKind(s);
    CandidateKeeps(s, last);
    CandidateIsNumeric(s, last);
    FloatOfPoints(Candidate(s, last));
    if last in s {
      CandidateCut(s);
    } else {
      CountAbsent(s, last);
    }
  }

  lemma PartsOfLast(s: string, sep: char)
    requires sep in s
    ensures var i := RFind(s, sep);
            Parts(s, sep) == Parts(s[..i], sep) + [s[i + 1..]]
            && JoinParts(Parts(s, sep)) == JoinParts(Parts(s[..i], sep)) + s[i + 1..]
  {
  }

  lemma {:induction false} JoinedPartsAreBare(s: string, sep: char)
    requires Numeric(s) && IsSeparator(sep) && Other(sep) !in s
    ensures JoinParts(Parts(s, sep)) == Bare(s)
    decreases |s|
  {
    if sep !in s {
      BareDigits(s);
      assert [s][..0] == [] && JoinParts([s]) == "" + s;
    } else {
      var i := RFind(s, sep);
      CutAtLast(s, sep);
      PartsOfLast(s, sep);
      JoinedPartsAreBare(s[..i], sep);
      BareAt(s[..i], sep, s[i + 1..]);
    }
  }

  lemma ThreesAt(a: string, sep: char, b: string)
    requires IsSeparator(sep) && AllDigits(b)
    ensures InThrees(a + [sep] + b, sep) <==> InThrees(a, sep) && |b| == 3
  {
    var s := a + [sep] + b;
    assert forall k :: 0 <= k < |b| ==> s[|a| + 1 + k] == b[k];
    assert s[|a|] == sep;
    assert ThreeDigitsAt(s, |a|, sep) <==> |b| == 3;
    forall i | 0 <= i < |a|
      ensures s[i] == a[i] && (ThreeDigitsAt(s, i, sep) <==> ThreeDigitsAt(a, i, sep))
    {
    }
  }

  lemma {:induction false} GroupedIff(s: string, sep: char)
    requires Numeric(s) && IsSeparator(sep) && Other(sep) !in s && sep in s
    ensures Grouped(Parts(s, sep)) <==> InThrees(s, sep)
    decreases |s|
  {
    var i := RFind(s, sep);
    var a, b := s[..i], s[i + 1..];
    CutAtLast(s, sep);
    PartsOfLast(s, sep);
    RFindIsLast(s, sep);
    AbsentEverywhere(s, Other(sep));
    DigitsAfter(s, i);
    ThreesAt(a, sep, b);
    GroupedSnoc(Parts(a, sep), b);
    if sep in a {
      GroupedIff(a, sep);
      PartsOfLast(a, sep);
    } else {
      PartsOne(a, sep);
      assert InThrees(a, sep);
    }
  }

  lemma GroupedSnoc(ps: seq<string>, b: string)
    requires |ps| > 0 && AllDigits(b)
    ensures Grouped(ps + [b]) <==> |b| == 3 && (|ps| > 1 ==> Grouped(ps))
  {
    var more := ps + [b];
    assert more[|ps|] == b && forall k :: 1 <= k < |ps| ==> more[k] == ps[k];
  }

  lemma GroupedIsBare(s: string, sep: char)
    requires Numeric(s) && IsSeparator(sep) && Other(sep) !in s && sep in s && InThrees(s, sep)
    ensures ParseNumber(s) == Reading(Bare(s), 0, 0) && Bare(s) != ""
  {
    OneKindOfSeparator(s, sep);
    GroupedIff(s, sep);
    JoinedPartsAreBare(s, sep);
    CutAtLast(s, sep);
    var i := RFind(s, sep);
    assert ThreeDigitsAt(s, i, sep);
    BareAt(s[..i], sep, s[i + 1..]);
    FloatOfDigits(Bare(s));
  }

  lemma UngroupedIsCandidate(s: string, sep: char)
    requires Numeric(s) && IsSeparator(sep) && Other(sep) !in s && sep in s && !InThrees(s, sep)
    ensures ParseNumber(s) == ToFloat(Candidate(s, sep))
  {
    OneKindOfSeparator(s, sep);
    GroupedIff(s, sep);
    RemoveAbsent(s, Other(sep));
  }

  /** Every match, exactly. Without a digit there is no number. A match without separators, or with one kind of
      separator and three digits after each, is the number of its digits. Otherwise the last separator must be
      the only one of its kind, and it is the decimal point; the other kind is ignored. */
  lemma ParsedExactly(s: string)
    requires Numeric(s)
    ensures var last, digits := LastKind(s), Bare(s);
            ParseNumber(s) ==
            if digits == "" then None
            else if last !in s || (Other(last) !in s && InThrees(s, last)) then Some(Value(digits) as real)
            else if Count(s, last) == 1 then Some(Value(digits) as real / Pow10(After(s, last)) as real)
            else None
  {
    var last := LastKind(s);
    CountAbsent(s, last);
    if last !in s {
      assert AllDigits(s);
      BareDigits(s);
    } else if Other(last) in s {
      ReadAsCandidate(s);
      CandidateIsWhatIsRead(s);
    } else if InThrees(s, last) {
      GroupedIsBare(s, last);
    } else {
      ReadAsCandidate(s);
      UngroupedIsCandidate(s, last);
    }
  }
}
