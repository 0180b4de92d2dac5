/** The repetition guard: Jaccard similarity of token sets, with exact fractions. */
module RepetitionGuard {

  type Tokens = set<string>

  /** Shared tokens over all tokens; nothing is similar to an empty text. */
  function Similarity(a: Tokens, b: Tokens): real {
    if a == {} || b == {} then 0.0
    else
      assert |a + b| > 0 by { assert a <= a + b; UnionAtLeast(a, b); }
      |a * b| as real / |a + b| as real
  }

  function Distance(a: Tokens, b: Tokens): real {
    1.0 - Similarity(a, b)
  }

  ghost function Differ(a: Tokens, b: Tokens): nat {
    |a - b| + |b - a|
  }

  lemma UnionAtLeast(a: Tokens, b: Tokens)
    ensures |a + b| == |a| + |b - a| && |a + b| == |a * b| + Differ(a, b)
    ensures |a| == |a * b| + |a - b| && |b| == |a * b| + |b - a|
    ensures 2 * |a + b| == |a| + |b| + Differ(a, b)
  {
    assert a + b == a + (b - a) && a !! (b - a);
    assert a == (a * b) + (a - b) && (a * b) !! (a - b);
    assert b == (a * b) + (b - a) && (a * b) !! (b - a);
  }

  lemma SubsetSize(a: Tokens, b: Tokens)
    requires a <= b
    ensures |a| <= |b|
  {
    assert b == a + (b - a) && a !! (b - a);
  }

  /** The number of tokens two sets differ in is a metric. */
  lemma DifferTriangle(a: Tokens, b: Tokens, c: Tokens)
    ensures Differ(a, c) <= Differ(a, b) + Differ(b, c)
    ensures |b| <= |a| + Differ(a, b) && |b| <= |c| + Differ(b, c)
  {
    OneSided(a, b, c);
    OneSided(c, b, a);
    UnionAtLeast(a, b);
    UnionAtLeast(b, c);
  }

  lemma OneSided(a: Tokens, b: Tokens, c: Tokens)
    ensures |a - c| <= |a - b| + |b - c|
  {
    SubsetSize(a - c, (a - b) + (b - c));
    UnionAtLeast(a - b, b - c);
    SubsetSize((b - c) - (a - b), b - c);
  }

  /** x / u grows when both the numerator and, by half as much, the denominator grow. */
  lemma GrowBoth(x: real, u: real, e: real)
    requires 0.0 <= x <= u && u > 0.0 && e >= 0.0
    ensures x / u <= (x + e) / (u + e / 2.0)
  {
    var v := u + e / 2.0;
    assert x * v <= (x + e) * u by {
      assert (x + e) * u - x * v == e * (u - x / 2.0);
    }
    CrossMultiply(x, u, x + e, v);
  }

  lemma CrossMultiply(a: real, b: real, c: real, d: real)
    requires b > 0.0 && d > 0.0 && a * d <= c * b
    ensures a / b <= c / d
  {
    var p, q := a / b, c / d;
    assert p * b == a && q * d == c;
    assert (q - p) * (b * d) == c * b - a * d;
    if p > q {
      NegativeProduct(q - p, b * d);
    }
  }

  lemma NegativeProduct(x: real, y: real)
    requires x < 0.0 && y > 0.0
    ensures x * y < 0.0
  {
  }

  lemma QuotientIs(x: real, u: real, q: real)
    requires u > 0.0 && q * u == x
    ensures x / u == q
  {
    var d := x / u;
    assert (d - q) * u == 0.0;
  }

  lemma SumOfQuotients(p: real, q: real, w: real)
    requires w > 0.0
    ensures (p + q) / w == p / w + q / w
  {
    assert (p / w + q / w) * w == p / w * w + q / w * w;
    QuotientIs(p + q, w, p / w + q / w);
  }

  lemma LargerDenominator(x: real, u: real, v: real)
    requires x >= 0.0 && 0.0 < u <= v
    ensures x / v <= x / u
  {
    assert x * u <= x * v;
    CrossMultiply(x, v, x, u);
  }

  lemma DistanceIsRatio(a: Tokens, b: Tokens)
    requires a != {} && b != {}
    ensures |a + b| > 0 && Distance(a, b) == Differ(a, b) as real / |a + b| as real
  {
    UnionAtLeast(a, b);
    SubsetSize(a, a + b);
    var d, u := Differ(a, b) as real, |a + b| as real;
    SumOfQuotients(|a * b| as real, d, u);
    QuotientIs(u, u, 1.0);
  }

  /** The similarity is the shared part of all tokens, and nothing when there are none. */
  lemma SimilarityIsShare(a: Tokens, b: Tokens)
    ensures Similarity(a, b) * |a + b| as real == |a * b| as real
    ensures a == {} && b == {} ==> Similarity(a, b) == 0.0
  {
    if a != {} && b != {} {
      UnionAtLeast(a, b);
    } else {
      assert a * b == {};
    }
  }

  lemma SimilarityIsSymmetric(a: Tokens, b: Tokens)
    ensures Similarity(a, b) == Similarity(b, a)
  {
    assert a * b == b * a && a + b == b + a;
  }

  lemma QuotientRange(d: nat, u: nat)
    requires d <= u && u > 0
    ensures 0.0 <= d as real / u as real <= 1.0
    ensures d as real / u as real == 0.0 <==> d == 0
  {
    var x, y := d as real, u as real;
    CrossMultiply(x, y, y, y);
    QuotientIs(y, y, 1.0);
    CrossMultiply(0.0, y, x, y);
    assert x / y * y == x;
  }

  lemma SimilarityRange(a: Tokens, b: Tokens)
    ensures 0.0 <= Similarity(a, b) <= 1.0
    ensures Similarity(a, b) == 1.0 <==> a == b && a != {}
  {
    if a != {} && b != {} {
      DistanceIsRatio(a, b);
      UnionAtLeast(a, b);
      QuotientRange(Differ(a, b), |a + b|);
      if Differ(a, b) == 0 {
        assert a - b == {} && b - a == {};
      }
    }
  }

  /** The Steinhaus transform: if x <= p + q, and neither v nor w exceeds u by more than half of the slack
      p + q - x, then the quotients obey the triangle inequality. */
  lemma QuotientTriangle(x: real, u: real, p: real, v: real, q: real, w: real)
    requires 0.0 <= x <= u && 0.0 <= p && 0.0 <= q && u > 0.0 && v > 0.0 && w > 0.0 && x <= p + q
    requires v <= u + (p + q - x) / 2.0 && w <= u + (p + q - x) / 2.0
    ensures x / u <= p / v + q / w
  {
    var e := p + q - x;
    var z := u + e / 2.0;
    GrowBoth(x, u, e);
    SumOfQuotients(p, q, z);
    LargerDenominator(p, v, z);
    LargerDenominator(q, w, z);
  }

  /** The triangle inequality of the Jaccard distance, over all token sets, the empty ones included. */
  lemma TriangleInequality(a: Tokens, b: Tokens, c: Tokens)
    ensures Distance(a, c) <= Distance(a, b) + Distance(b, c)
  {
    if a == {} || b == {} || c == {} {
      SimilarityRange(a, b);
      SimilarityRange(b, c);
      SimilarityRange(a, c);
    } else {
      DistanceIsRatio(a, b);
      DistanceIsRatio(b, c);
      DistanceIsRatio(a, c);
      UnionAtLeast(a, b);
      UnionAtLeast(b, c);
      UnionAtLeast(a, c);
      DifferTriangle(a, b, c);
      QuotientTriangle(Differ(a, c) as real, |a + c| as real,
                       Differ(a, b) as real, |a + b| as real,
                       Differ(b, c) as real, |b + c| as real);
    }
  }

  const JACCARD_THRESHOLD: real := 0.75
  const LOOKBACK: int := 3

  /** Two texts that each repeat a third one are at least half alike. */
  lemma RepetitionsOfOneText(a: Tokens, b: Tokens, c: Tokens)
    requires Similarity(a, b) >= JACCARD_THRESHOLD && Similarity(b, c) >= JACCARD_THRESHOLD
    ensures Similarity(a, c) >= 0.5
  {
    TriangleInequality(a, b, c);
  }

  /** Python's `items[-k:]`: the last k items, everything for k == 0, and for a negative k everything
      but the first -k. */
  function LastItems<T>(items: seq<T>, k: int): (r: seq<T>)
    ensures k > 0 ==> |r| == (if k <= |items| then k else |items|)
    ensures k == 0 ==> r == items
    ensures k < 0 ==> |r| == (if -k <= |items| then |items| + k else 0)
    ensures |r| <= |items| && r == items[|items| - |r|..]
  {
    if k > 0 then (if k <= |items| then items[|items| - k..] else items)
    else if -k <= |items| then items[-k..] else []
  }

  /** Whether the candidate is too close to one of the recent messages. `tokens` is the tokenizer. */
  function IsRepetition(tokens: string -> Tokens, candidate: string, previous: seq<string>, threshold: real,
                        lookback: int): (r: bool)
    ensures r <==> candidate != "" && exists m :: m in LastItems(previous, lookback)
                                        && Similarity(tokens(candidate), tokens(m)) >= threshold
  {
    candidate != "" && previous != [] && AnyClose(tokens, candidate, LastItems(previous, lookback), threshold)
  }

  function AnyClose(tokens: string -> Tokens, candidate: string, recent: seq<string>, threshold: real): (r: bool)
    ensures r <==> exists m :: m in recent && Similarity(tokens(candidate), tokens(m)) >= threshold
  {
    if recent == [] then false
    else
      assert recent == [recent[0]] + recent[1..];
      Similarity(tokens(candidate), tokens(recent[0])) >= threshold
          || AnyClose(tokens, candidate, recent[1..], threshold)
  }

  /** When the guard flags two candidates against the same single message, each is at least half like the other. */
  lemma FlaggedCandidatesAreAlike(tokens: string -> Tokens, x: string, y: string, said: string)
    requires IsRepetition(tokens, x, [said], JACCARD_THRESHOLD, LOOKBACK)
             && IsRepetition(tokens, y, [said], JACCARD_THRESHOLD, LOOKBACK)
    ensures Similarity(tokens(x), tokens(y)) >= 0.5
  {
    SimilarityIsSymmetric(tokens(y), tokens(said));
    RepetitionsOfOneText(tokens(x), tokens(said), tokens(y));
  }
}
