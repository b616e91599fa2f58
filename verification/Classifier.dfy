/**
 The animation classifier (animationquality/model.go and predict.go), over the reals. `sqrt` and `exp` stand for the
 library functions, of which only the stated laws are used.
 */
module Classifier {
  import opened Common
  import opened WhiteSpace
  import opened Reals

  /** What Decode reads: the contract fields are summed up in `contract`. */
  datatype Model = Model(
    contract: bool, ngramMin: int, ngramMax: int, vocabulary: map<string, int>, idf: seq<real>, weights: seq<real>,
    intercept: real, threshold: real, margin: real)

  predicate Bounded(v: real) {
    -1000000.0 <= v <= 1000000.0
  }

  ghost predicate Used(vocabulary: map<string, int>, i: int) {
    exists t :: t in vocabulary && vocabulary[t] == i
  }

  /** Terms of three to five characters, each with its own index, and the indices fill 0..n-1. */
  ghost predicate Numbered(vocabulary: map<string, int>) {
    && (forall t | t in vocabulary :: 0 <= vocabulary[t] < |vocabulary| && 3 <= |t| <= 5)
    && (forall t, u | t in vocabulary && u in vocabulary && t != u :: vocabulary[t] != vocabulary[u])
    && (forall i | 0 <= i < |vocabulary| :: Used(vocabulary, i))
  }

  ghost predicate Accepted(m: Model) {
    && m.contract && m.ngramMin == 3 && m.ngramMax == 5
    && 0 < |m.vocabulary| <= 500000 && |m.idf| == |m.weights| == |m.vocabulary| && Numbered(m.vocabulary)
    && (forall i | 0 <= i < |m.idf| :: 0.0 < m.idf[i] && Bounded(m.idf[i]) && Bounded(m.weights[i]))
    && Bounded(m.intercept) && 0.0 < m.threshold < 1.0 && 0.0 <= m.margin
    && 0.0 <= m.threshold - m.margin && m.threshold + m.margin <= 1.0
  }

  /** The entries of a vocabulary read so far are in range, of the right length, and use different indices. */
  ghost predicate ReadWell(vocabulary: map<string, int>, terms: set<string>) {
    && (forall t | t in terms :: t in vocabulary && 0 <= vocabulary[t] < |vocabulary| && 3 <= |t| <= 5)
    && (forall t, u | t in terms && u in terms && t != u :: vocabulary[t] != vocabulary[u])
  }

  /** The loop over the vocabulary: no index may be out of range or used before. */
  method CheckVocabulary(vocabulary: map<string, int>) returns (ok: bool)
    ensures ok <==> Numbered(vocabulary)
  {
    var n := |vocabulary|;
    var seen := new bool[n](i => false);
    var left := vocabulary.Keys;
    while left != {}
      invariant left <= vocabulary.Keys && ReadWell(vocabulary, vocabulary.Keys - left) && seen.Length == n
      invariant forall i | 0 <= i < n :: seen[i] <==> exists t :: t in vocabulary.Keys - left && vocabulary[t] == i
      decreases left
    {
      var term :| term in left;
      var index := vocabulary[term];
      if index < 0 || index >= n || seen[index] || |term| < 3 || |term| > 5 { return false; }
      ghost var before := vocabulary.Keys - left;
      seen[index] := true;
      left := left - {term};
      assert vocabulary.Keys - left == before + {term};
    }
    assert vocabulary.Keys - left == vocabulary.Keys;
    EveryIndexUsed(vocabulary);
    ok := true;
  }

  /** n different indices below n are all of them. */
  lemma EveryIndexUsed(vocabulary: map<string, int>)
    requires ReadWell(vocabulary, vocabulary.Keys)
    ensures Numbered(vocabulary)
  {
    var n := |vocabulary|;
    var terms := Listed(vocabulary.Keys);
    var indices := seq(n, k requires 0 <= k < n => vocabulary[terms[k]]);
    var all := seq(n, k => k);
    forall k | 0 <= k < n ensures indices[k] in all { assert all[indices[k]] == indices[k]; }
    DistinctMembersFit(indices, all);
    forall i | 0 <= i < n ensures Used(vocabulary, i) {
      assert all[i] == i && i in all;
      var k :| 0 <= k < n && indices[k] == i;
      assert terms[k] in vocabulary;
    }
  }

  /** The members of a set in some order. */
  lemma Listed(terms: set<string>) returns (list: seq<string>)
    ensures |list| == |terms| && AllDistinct(list) && forall k | 0 <= k < |list| :: list[k] in terms
  {
    list := [];
    var left := terms;
    while left != {}
      invariant left <= terms && |list| + |left| == |terms| && AllDistinct(list)
      invariant forall k | 0 <= k < |list| :: list[k] in terms && list[k] !in left
    {
      var t :| t in left;
      list, left := list + [t], left - {t};
    }
  }

  /** Decode, for a model that has been parsed. */
  method Decode(m: Model) returns (ok: bool)
    ensures ok <==> Accepted(m)
  {
    if !m.contract || m.ngramMin != 3 || m.ngramMax != 5 { return false; }
    var n := |m.vocabulary|;
    if n == 0 || n > 500000 || |m.idf| != n || |m.weights| != n { return false; }
    ok := CheckVocabulary(m.vocabulary);
    if !ok { return; }
    for i := 0 to n
      invariant forall k | 0 <= k < i :: 0.0 < m.idf[k] && Bounded(m.idf[k]) && Bounded(m.weights[k])
    {
      if !Bounded(m.idf[i]) || m.idf[i] <= 0.0 || !Bounded(m.weights[i]) { return false; }
    }
    ok := Bounded(m.intercept) && Bounded(m.threshold) && Bounded(m.margin) && 0.0 < m.threshold < 1.0 && 0.0 <= m.margin
      && 0.0 <= m.threshold - m.margin && m.threshold + m.margin <= 1.0;
  }

  // ---- Counting features ----

  /** How often a term occurs in the text, at places before `upto`. */
  function Occurrences(text: string, term: string, upto: nat): nat {
    if upto == 0 then 0
    else
      Occurrences(text, term, upto - 1)
      + if upto - 1 + |term| <= |text| && text[upto - 1..upto - 1 + |term|] == term then 1 else 0
  }

  function CountAt(counts: map<int, real>, i: int): real {
    if i in counts then counts[i] else 0.0
  }

  /** Every feature is counted as often as its term occurs; `done` tells how far terms of a length were read. */
  ghost predicate Counted(m: Model, text: string, counts: map<int, real>, done: nat -> nat) {
    && (forall i | i in counts :: 0 <= i < |m.vocabulary| && counts[i] >= 1.0)
    && forall t | t in m.vocabulary ::
      CountAt(counts, m.vocabulary[t]) == Occurrences(text, t, done(|t|)) as real
  }

  /** The places of n-grams: all of them for the lengths read, none yet for longer ones. */
  function Places(text: string, n: nat, i: nat): nat -> nat {
    (length: nat) => if length < n then |text| else if length == n then i else 0
  }

  method CountFeatures(m: Model, text: string) returns (counts: map<int, real>)
    requires Accepted(m)
    ensures Counted(m, text, counts, Places(text, 6, 0))
  {
    counts := map[];
    for n := 3 to 6
      invariant Counted(m, text, counts, Places(text, n, 0))
    {
      counts := CountLength(m, text, n, counts);
    }
  }

  method CountLength(m: Model, text: string, n: nat, earlier: map<int, real>) returns (counts: map<int, real>)
    requires 0 < n && Accepted(m) && Counted(m, text, earlier, Places(text, n, 0))
    ensures Counted(m, text, counts, Places(text, n + 1, 0))
  {
    counts := earlier;
    var i := 0;
    while i + n <= |text|
      invariant i <= |text| && Counted(m, text, counts, Places(text, n, i))
    {
      counts := CountPlace(m, text, n, i, counts);
      i := i + 1;
    }
    forall t | t in m.vocabulary
      ensures CountAt(counts, m.vocabulary[t]) == Occurrences(text, t, Places(text, n + 1, 0)(|t|)) as real
    {
      if |t| == n { NoneBeyond(text, t, i, |text|); }
    }
  }

  method CountPlace(m: Model, text: string, n: nat, i: nat, earlier: map<int, real>) returns (counts: map<int, real>)
    requires Accepted(m) && i + n <= |text| && Counted(m, text, earlier, Places(text, n, i))
    ensures Counted(m, text, counts, Places(text, n, i + 1))
  {
    counts := earlier;
    var gram := text[i..i + n];
    if gram in m.vocabulary {
      var index := m.vocabulary[gram];
      counts := counts[index := CountAt(counts, index) + 1.0];
    }
    hide Occurrences, Accepted, Places, CountAt;
    forall t | t in m.vocabulary
      ensures CountAt(counts, m.vocabulary[t]) == Occurrences(text, t, Places(text, n, i + 1)(|t|)) as real
    {
      CountedOnce(m, earlier, gram, t);
      OneMoreGram(text, n, i, t);
    }
  }

  /** Counting a gram leaves the counts of all other terms alone. */
  lemma CountedOnce(m: Model, earlier: map<int, real>, gram: string, t: string)
    requires Accepted(m) && t in m.vocabulary
    ensures
      var counts :=
        if gram in m.vocabulary then earlier[m.vocabulary[gram] := CountAt(earlier, m.vocabulary[gram]) + 1.0] else earlier;
      CountAt(counts, m.vocabulary[t]) == CountAt(earlier, m.vocabulary[t]) + if t == gram then 1.0 else 0.0
  {
    assert Numbered(m.vocabulary);
  }

  lemma OneMoreGram(text: string, n: nat, i: nat, t: string)
    requires i + n <= |text|
    ensures Occurrences(text, t, Places(text, n, i + 1)(|t|)) ==
      Occurrences(text, t, Places(text, n, i)(|t|)) + if t == text[i..i + n] then 1 else 0
  {
    hide Occurrences;
    OneMorePlace(text, t, i);
  }

  lemma OneMorePlace(text: string, term: string, i: nat)
    requires i <= |text|
    ensures Occurrences(text, term, i + 1) ==
      Occurrences(text, term, i) + if i + |term| <= |text| && text[i..i + |term|] == term then 1 else 0
  {
  }

  lemma {:induction false} NoneBeyond(text: string, term: string, i: nat, upto: nat)
    requires i <= upto <= |text| && i + |term| > |text|
    ensures Occurrences(text, term, upto) == Occurrences(text, term, i)
  {
    if i < upto { NoneBeyond(text, term, i, upto - 1); }
  }

  // ---- The score ----

  ghost predicate IsExponential(exp: real -> real) {
    forall x :: exp(x) > 0.0 && exp(x) * exp(-x) == 1.0
  }

  function Squared(x: real): (y: real)
    ensures y >= 0.0 && (x != 0.0 ==> y > 0.0)
  {
    if x > 0.0 then SignOf(x, x); x * x
    else if x < 0.0 then SignOf(-x, -x); x * x
    else 0.0
  }

  /** The squared length of the weighted feature vector, over the first k indices. */
  function LengthSquared(idf: seq<real>, counts: map<int, real>, k: nat): (sum: real)
    requires k <= |idf|
    ensures sum >= 0.0
  {
    if k == 0 then 0.0 else LengthSquared(idf, counts, k - 1) + Squared(CountAt(counts, k - 1) * idf[k - 1])
  }

  /** The weighted sum of the features, scaled to length one, over the first k indices. */
  function Activation(m: Model, counts: map<int, real>, norm: real, k: nat): real
    requires k <= |m.idf| == |m.weights| && norm != 0.0
  {
    if k == 0 then m.intercept
    else
      var rest := Activation(m, counts, norm, k - 1);
      if k - 1 in counts then rest + m.weights[k - 1] * Feature(m, counts, norm, k - 1) else rest
  }

  /** A counted feature, scaled. */
  function Feature(m: Model, counts: map<int, real>, norm: real, i: nat): real
    requires i < |m.idf| && norm != 0.0
  {
    CountAt(counts, i) * m.idf[i] / norm
  }

  method Hypot(a: real, b: real, sqrt: real -> real) returns (c: real)
    requires IsRoot(sqrt)
    ensures c >= 0.0 && Squared(c) == Squared(a) + Squared(b)
  {
    c := sqrt(Squared(a) + Squared(b));
  }

  method Norm(idf: seq<real>, counts: map<int, real>, sqrt: real -> real) returns (norm: real)
    requires IsRoot(sqrt)
    ensures norm >= 0.0 && Squared(norm) == LengthSquared(idf, counts, |idf|)
  {
    hide IsRoot;
    norm := 0.0;
    for i := 0 to |idf|
      invariant norm >= 0.0 && Squared(norm) == LengthSquared(idf, counts, i)
    {
      if i in counts { norm := Hypot(norm, counts[i] * idf[i], sqrt); }
    }
  }

  /** One counted feature with a positive weight makes the length positive. */
  lemma {:induction false} LengthPositive(idf: seq<real>, counts: map<int, real>, i: nat, k: nat)
    requires i < k <= |idf| && CountAt(counts, i) >= 1.0 && idf[i] > 0.0
    ensures LengthSquared(idf, counts, k) > 0.0
  {
    if i < k - 1 { LengthPositive(idf, counts, i, k - 1); }
  }

  /** The logistic function, computed from a positive exponent only where it cannot overflow. */
  method Logistic(z: real, exp: real -> real) returns (p: real)
    requires IsExponential(exp)
    ensures 0.0 < p < 1.0 && p * (1.0 + exp(z)) == exp(z)
  {
    var e, inverse := exp(z), exp(-z);
    assert e > 0.0 && inverse > 0.0 && e * inverse == 1.0;
    if z >= 0.0 {
      p := 1.0 / (1.0 + inverse);
      Fraction(1.0, 1.0 + inverse, p);
      assert e * (p * (1.0 + inverse)) == p * (e + 1.0);
    } else {
      p := e / (1.0 + e);
      Fraction(e, 1.0 + e, p);
    }
  }

  lemma Fraction(a: real, b: real, p: real)
    requires 0.0 < a < b && p == a / b
    ensures 0.0 < p < 1.0 && p * b == a
  {
    Divided(a, b, p);
    SignOf(b, p);
    SignOf(b, 1.0 - p);
  }

  method Activate(m: Model, counts: map<int, real>, norm: real) returns (z: real)
    requires |m.idf| == |m.weights| && norm > 0.0
    ensures z == Activation(m, counts, norm, |m.idf|)
  {
    z := m.intercept;
    for i := 0 to |m.idf|
      invariant z == Activation(m, counts, norm, i)
    {
      if i in counts { z := z + m.weights[i] * (counts[i] * m.idf[i] / norm); }
    }
  }

  datatype Status = Normal | Suspicious | Undecided

  /** Why there is no verdict. */
  datatype Reason = SourceUnavailable | PromptUnavailable | UnsupportedBenchmark | UnsupportedFormat | ModelUnavailable
    | NoKnownFeatures | AmbiguousScore

  datatype Prediction = Prediction(status: Status, reason: Option<Reason>, score: Option<real>)

  lemma SomeKey<K, V>(counts: map<K, V>) returns (i: K)
    requires counts != map[]
    ensures i in counts
  {
    i :| i in counts;
  }

  /** No term of the vocabulary occurs in the text. */
  ghost predicate NothingKnown(m: Model, text: string) {
    forall t | t in m.vocabulary :: Occurrences(text, t, |text|) == 0
  }

  lemma FeaturesFound(m: Model, text: string, counts: map<int, real>)
    requires Accepted(m) && Counted(m, text, counts, Places(text, 6, 0))
    ensures counts == map[] <==> NothingKnown(m, text)
  {
    if counts != map[] {
      var i := SomeKey(counts);
      assert Used(m.vocabulary, i);
      var t :| t in m.vocabulary && m.vocabulary[t] == i;
      assert CountAt(counts, m.vocabulary[t]) == Occurrences(text, t, |text|) as real;
    } else {
      forall t | t in m.vocabulary ensures Occurrences(text, t, |text|) == 0 {
        assert CountAt(counts, m.vocabulary[t]) == Occurrences(text, t, |text|) as real;
      }
    }
  }

  /** p is the logistic value of the features scaled to length one. */
  ghost predicate IsScore(m: Model, counts: map<int, real>, norm: real, exp: real -> real, p: real)
    requires |m.idf| == |m.weights|
  {
    && norm > 0.0 && Squared(norm) == LengthSquared(m.idf, counts, |m.idf|)
    && p * (1.0 + exp(Activation(m, counts, norm, |m.idf|))) == exp(Activation(m, counts, norm, |m.idf|))
  }

  method Score(m: Model, counts: map<int, real>, sqrt: real -> real, exp: real -> real) returns (p: real)
    requires Accepted(m) && counts != map[] && IsRoot(sqrt) && IsExponential(exp)
    requires forall i | i in counts :: 0 <= i < |m.vocabulary| && counts[i] >= 1.0
    ensures 0.0 < p < 1.0
    ensures exists norm :: IsScore(m, counts, norm, exp, p)
  {
    hide IsRoot, IsExponential, Numbered, Activation;
    ghost var i := SomeKey(counts);
    LengthPositive(m.idf, counts, i, |m.idf|);
    var norm := Norm(m.idf, counts, sqrt);
    assert Squared(norm) > 0.0;
    var z := Activate(m, counts, norm);
    p := Logistic(z, exp);
    assert IsScore(m, counts, norm, exp, p);
  }

  /** p is the score of a text: the features are counted in it, and scaled by the length of their vector. */
  ghost predicate IsScoreOf(m: Model, text: string, exp: real -> real, p: real)
    requires |m.idf| == |m.weights|
  {
    exists counts, norm :: Counted(m, text, counts, Places(text, 6, 0)) && IsScore(m, counts, norm, exp, p)
  }

  // ---- What the score depends on ----

  /** The text determines the counts. */
  lemma CountsAgree(m: Model, text: string, a: map<int, real>, b: map<int, real>)
    requires Accepted(m) && Counted(m, text, a, Places(text, 6, 0)) && Counted(m, text, b, Places(text, 6, 0))
    ensures a == b
  {
    hide Occurrences;
    forall i | 0 <= i < |m.vocabulary| ensures CountAt(a, i) == CountAt(b, i) {
      assert Used(m.vocabulary, i);
      var t :| t in m.vocabulary && m.vocabulary[t] == i;
    }
    forall i ensures i in a <==> i in b {
      if i in a { assert CountAt(a, i) == CountAt(b, i); }
      if i in b { assert CountAt(a, i) == CountAt(b, i); }
    }
    forall i | i in a ensures a[i] == b[i] {
      assert CountAt(a, i) == CountAt(b, i);
    }
  }

  lemma SameSquare(a: real, b: real)
    requires a > 0.0 && b > 0.0 && Squared(a) == Squared(b)
    ensures a == b
  {
    assert a * a - b * b == (a + b) * (a - b);
    SignOf(a + b, a - b);
    SignOf(a + b, b - a);
  }

  /** The activation with one weight changed: only a counted feature matters, in proportion to its scaled value. */
  lemma {:induction false} OneWeight(m: Model, counts: map<int, real>, norm: real, i: nat, w: real, k: nat)
    requires k <= |m.idf| == |m.weights| && norm != 0.0 && i < |m.weights|
    ensures Activation(m.(weights := m.weights[i := w]), counts, norm, k) == Activation(m, counts, norm, k) +
      if i < k && i in counts then (w - m.weights[i]) * Feature(m, counts, norm, i) else 0.0
  {
    hide Feature;
    if k > 0 {
      OneWeight(m, counts, norm, i, w, k - 1);
      SameFeature(m, m.(weights := m.weights[i := w]), counts, norm, k - 1);
      Difference(w, m.weights[i], Feature(m, counts, norm, i));
    }
  }

  lemma SameFeature(m: Model, m': Model, counts: map<int, real>, norm: real, i: nat)
    requires m.idf == m'.idf && i < |m.idf| && norm != 0.0
    ensures Feature(m', counts, norm, i) == Feature(m, counts, norm, i)
  {
  }

  lemma Difference(a: real, b: real, f: real)
    ensures (a - b) * f == a * f - b * f
  {
  }

  lemma {:induction false} NoWeights(m: Model, counts: map<int, real>, norm: real, k: nat)
    requires k <= |m.idf| == |m.weights| && norm != 0.0 && forall i | 0 <= i < |m.weights| :: m.weights[i] == 0.0
    ensures Activation(m, counts, norm, k) == m.intercept
  {
    if k > 0 { NoWeights(m, counts, norm, k - 1); }
  }

  ghost predicate Increasing(exp: real -> real) {
    forall x, y | x < y :: exp(x) < exp(y)
  }

  /** The logistic value grows with what it is taken of. */
  lemma LogisticGrows(e: real, f: real, p: real, q: real)
    requires 0.0 < e && 0.0 < f && p * (1.0 + e) == e && q * (1.0 + f) == f
    ensures e < f ==> p < q
    ensures e == f ==> p == q
  {
    assert (q - p) * ((1.0 + e) * (1.0 + f)) == q * (1.0 + f) * (1.0 + e) - p * (1.0 + e) * (1.0 + f);
    assert (q - p) * ((1.0 + e) * (1.0 + f)) == f - e;
    SignOf(1.0 + e, 1.0 + f);
    SignOf((1.0 + e) * (1.0 + f), q - p);
    SignOf((1.0 + e) * (1.0 + f), p - q);
  }

  /** A text leaves no choice of counts and norm. */
  lemma ScoreAt(
      m: Model, text: string, exp: real -> real, p: real, counts: map<int, real>, norm: real)
    requires Accepted(m) && IsScoreOf(m, text, exp, p) && Counted(m, text, counts, Places(text, 6, 0))
    requires norm > 0.0 && Squared(norm) == LengthSquared(m.idf, counts, |m.idf|)
    ensures IsScore(m, counts, norm, exp, p)
  {
    hide Activation, LengthSquared, Numbered, Squared, Occurrences;
    var b, v :| Counted(m, text, b, Places(text, 6, 0)) && IsScore(m, b, v, exp, p);
    CountsAgree(m, text, counts, b);
    SameSquare(norm, v);
  }

  /** A text has one score. */
  lemma ScoreIsDetermined(m: Model, text: string, exp: real -> real, p: real, q: real)
    requires Accepted(m) && IsExponential(exp) && IsScoreOf(m, text, exp, p) && IsScoreOf(m, text, exp, q)
    ensures p == q
  {
    hide Activation, LengthSquared, Numbered, Squared, Counted;
    var a, u :| Counted(m, text, a, Places(text, 6, 0)) && IsScore(m, a, u, exp, p);
    ScoreAt(m, text, exp, q, a, u);
    var e := exp(Activation(m, a, u, |m.idf|));
    LogisticGrows(e, e, p, q);
  }

  /** A higher weight raises the score of exactly the texts in which its term occurs, and leaves all others alone. */
  lemma WeightMovesScore(m: Model, t: string, w: real, text: string, exp: real -> real, p: real, q: real)
    requires Accepted(m) && IsExponential(exp) && Increasing(exp) && t in m.vocabulary
    requires 0 <= m.vocabulary[t] < |m.weights| && m.weights[m.vocabulary[t]] < w && Bounded(w)
    requires IsScoreOf(m, text, exp, p) && IsScoreOf(m.(weights := m.weights[m.vocabulary[t] := w]), text, exp, q)
    ensures p < q <==> Occurrences(text, t, |text|) > 0
    ensures Occurrences(text, t, |text|) == 0 ==> p == q
  {
    hide *;
    var i, m' := m.vocabulary[t], m.(weights := m.weights[m.vocabulary[t] := w]);
    StillAccepted(m, i, w);
    var a, u := SomeScore(m, text, exp, p);
    SameCounts(m', m, text, a);
    ScoreAt(m', text, exp, q, a, u);
    CountedMeansOccurs(m, t, text, a);
    MovesAt(m, i, w, a, u, exp, p, q);
  }

  lemma StillAccepted(m: Model, i: nat, w: real)
    requires Accepted(m) && i < |m.weights| && Bounded(w)
    ensures Accepted(m.(weights := m.weights[i := w])) && |m.idf| == |m.weights|
  {
    hide Numbered;
  }

  lemma SomeScore(m: Model, text: string, exp: real -> real, p: real) returns (counts: map<int, real>, norm: real)
    requires |m.idf| == |m.weights| && IsScoreOf(m, text, exp, p)
    ensures Counted(m, text, counts, Places(text, 6, 0)) && IsScore(m, counts, norm, exp, p)
    ensures norm > 0.0 && Squared(norm) == LengthSquared(m.idf, counts, |m.idf|)
  {
    hide Activation, LengthSquared, Squared, Counted;
    counts, norm :| Counted(m, text, counts, Places(text, 6, 0)) && IsScore(m, counts, norm, exp, p);
  }

  lemma MovesAt(
      m: Model, i: nat, w: real, counts: map<int, real>, norm: real, exp: real -> real, p: real, q: real)
    requires |m.idf| == |m.weights| && i < |m.weights| && m.weights[i] < w
    requires forall i | i in counts :: 0 <= i < |m.idf| && counts[i] >= 1.0 && m.idf[i] > 0.0
    requires IsExponential(exp) && Increasing(exp)
    requires IsScore(m, counts, norm, exp, p) && IsScore(m.(weights := m.weights[i := w]), counts, norm, exp, q)
    ensures if i in counts then p < q else p == q
  {
    hide Activation, LengthSquared, Squared, IsExponential, Increasing;
    WeightMovesActivation(m, i, w, counts, norm);
    Grows(exp, Activation(m, counts, norm, |m.idf|),
          Activation(m.(weights := m.weights[i := w]), counts, norm, |m.idf|), p, q);
  }

  lemma SameCounts(m: Model, m': Model, text: string, counts: map<int, real>)
    requires m.vocabulary == m'.vocabulary && Counted(m', text, counts, Places(text, 6, 0))
    ensures Counted(m, text, counts, Places(text, 6, 0))
  {
  }

  lemma CountedMeansOccurs(m: Model, t: string, text: string, counts: map<int, real>)
    requires Accepted(m) && t in m.vocabulary && Counted(m, text, counts, Places(text, 6, 0))
    ensures m.vocabulary[t] in counts <==> Occurrences(text, t, |text|) > 0
    ensures forall i | i in counts :: 0 <= i < |m.idf| && counts[i] >= 1.0 && m.idf[i] > 0.0
    ensures |m.idf| == |m.weights|
  {
    hide Occurrences;
    assert CountAt(counts, m.vocabulary[t]) == Occurrences(text, t, |text|) as real;
  }

  lemma WeightMovesActivation(m: Model, i: nat, w: real, counts: map<int, real>, norm: real)
    requires |m.idf| == |m.weights| && i < |m.weights| && w > m.weights[i] && norm > 0.0
    requires forall i | i in counts :: 0 <= i < |m.idf| && counts[i] >= 1.0 && m.idf[i] > 0.0
    ensures
      var x := Activation(m, counts, norm, |m.idf|);
      var y := Activation(m.(weights := m.weights[i := w]), counts, norm, |m.idf|);
      if i in counts then x < y else x == y
  {
    hide Activation;
    OneWeight(m, counts, norm, i, w, |m.idf|);
    if i in counts { FeatureCounts(counts[i], m.idf[i], norm, w - m.weights[i]); }
  }

  lemma Grows(exp: real -> real, x: real, y: real, p: real, q: real)
    requires IsExponential(exp) && Increasing(exp) && x <= y
    requires p * (1.0 + exp(x)) == exp(x) && q * (1.0 + exp(y)) == exp(y)
    ensures (x < y ==> p < q) && (x == y ==> p == q)
  {
    LogisticGrows(exp(x), exp(y), p, q);
  }

  lemma FeatureCounts(count: real, idf: real, norm: real, rise: real)
    requires count >= 1.0 && idf > 0.0 && norm > 0.0 && rise > 0.0
    ensures rise * (count * idf / norm) > 0.0
  {
    SignOf(count, idf);
    var share := count * idf / norm;
    Divided(count * idf, norm, share);
    SignOf(norm, share);
    SignOf(rise, share);
  }

  /** With no weights at all the score is the logistic value of the intercept. */
  lemma NoWeightsScore(m: Model, text: string, exp: real -> real, p: real)
    requires |m.idf| == |m.weights| && (forall i | 0 <= i < |m.weights| :: m.weights[i] == 0.0)
    requires IsScoreOf(m, text, exp, p)
    ensures p * (1.0 + exp(m.intercept)) == exp(m.intercept)
  {
    hide Activation, LengthSquared, Squared;
    var counts, norm :| Counted(m, text, counts, Places(text, 6, 0)) && IsScore(m, counts, norm, exp, p);
    NoWeights(m, counts, norm, |m.idf|);
  }

  /** Predict; the four booleans are what the checks of the source, the prompt and its format come to. */
  method Predict(
      detector: Option<Model>, source: string, readable: bool, prompted: bool, benchmark: bool, html: bool,
      sqrt: real -> real, exp: real -> real) returns (prediction: Prediction)
    requires detector.Some? ==> Accepted(detector.value)
    requires IsRoot(sqrt) && IsExponential(exp)
    ensures prediction.score.Some? <==>
      && readable && Trim(source) != "" && prompted && benchmark && html
      && detector.Some? && !NothingKnown(detector.value, Folded(source))
    ensures prediction.score.Some? ==> 0.0 < prediction.score.value < 1.0
    ensures prediction.score.Some? ==> IsScoreOf(detector.value, Folded(source), exp, prediction.score.value)
    ensures prediction.status == Normal <==>
      prediction.score.Some? && prediction.score.value < detector.value.threshold - detector.value.margin
    ensures prediction.status == Suspicious <==>
      prediction.score.Some? && prediction.score.value > detector.value.threshold + detector.value.margin
    ensures prediction.reason.Some? <==> prediction.status == Undecided
  {
    hide IsRoot, IsExponential, Trim;
    if !readable || Trim(source) == "" { return Prediction(Undecided, Some(SourceUnavailable), None); }
    if !prompted { return Prediction(Undecided, Some(PromptUnavailable), None); }
    if !benchmark { return Prediction(Undecided, Some(UnsupportedBenchmark), None); }
    if !html { return Prediction(Undecided, Some(UnsupportedFormat), None); }
    if detector.None? { return Prediction(Undecided, Some(ModelUnavailable), None); }
    var m := detector.value;
    var text := Preprocess(source);
    var counts := CountFeatures(m, text);
    FeaturesFound(m, text, counts);
    if counts == map[] { return Prediction(Undecided, Some(NoKnownFeatures), None); }
    var p := Score(m, counts, sqrt, exp);
    assert IsScoreOf(m, text, exp, p);
    if p < m.threshold - m.margin {
      prediction := Prediction(Normal, None, Some(p));
    } else if p > m.threshold + m.margin {
      prediction := Prediction(Suspicious, None, Some(p));
    } else {
      prediction := Prediction(Undecided, Some(AmbiguousScore), Some(p));
    }
  }
}
