/** `company_merge_similarity_sweep.py`: scoring labelled pairs through a cache, tallying them at a
    threshold and judging a review floor. Scores are reals; the embedding model and the cosine are
    parameters. */
module SimilaritySweep {
  import opened Optional

  type Vector = seq<real>

  datatype Pair = Pair(textA: string, textB: string, isMatch: bool, cached: Option<Vector>)

  datatype Scored = Scored(pair: Pair, score: real)

  /** The transport of `route_embedding`: deterministic, `None` for an `LlmProviderError`. */
  type Model = string -> Option<Vector>

  /** `None` for vectors that have no cosine. */
  type Cosine = (Vector, Vector) -> Option<real>

  // ----- the plain form -----

  /** The texts that scoring a pair has to embed. */
  function Texts(pair: Pair): set<string> {
    if pair.cached.Some? then {pair.textA} else {pair.textA, pair.textB}
  }

  /** `score_pair`. */
  function ScorePair(pair: Pair, model: Model, cosine: Cosine): Option<real> {
    match model(pair.textA)
    case None => None
    case Some(a) =>
      match if pair.cached.Some? then pair.cached else model(pair.textB)
      case None => None
      case Some(b) => cosine(a, b)
  }

  function ScoreAll(pairs: seq<Pair>, model: Model, cosine: Cosine): Option<seq<Scored>> {
    if pairs == [] then Some([])
    else
      match ScoreAll(pairs[..|pairs| - 1], model, cosine)
      case None => None
      case Some(front) =>
        match ScorePair(pairs[|pairs| - 1], model, cosine)
        case None => None
        case Some(score) => Some(front + [Scored(pairs[|pairs| - 1], score)])
  }

  /** What the score of a pair is: the cosine of the model's vector of its first text and of the vector
      its second side brings, or else the model's. */
  ghost predicate HasScore(pair: Pair, model: Model, cosine: Cosine, score: real) {
    exists a, b ::
      && model(pair.textA) == Some(a)
      && Some(b) == (if pair.cached.Some? then pair.cached else model(pair.textB))
      && cosine(a, b) == Some(score)
  }

  ghost predicate Scorable(pair: Pair, model: Model, cosine: Cosine) {
    exists score :: HasScore(pair, model, cosine, score)
  }

  lemma ScoreIsCosine(pair: Pair, model: Model, cosine: Cosine)
    ensures ScorePair(pair, model, cosine).Some? <==> Scorable(pair, model, cosine)
    ensures forall score :: HasScore(pair, model, cosine, score) <==> ScorePair(pair, model, cosine) == Some(score)
  {
    var r := ScorePair(pair, model, cosine);
    if r.Some? {
      var a, b := model(pair.textA).value, if pair.cached.Some? then pair.cached.value else model(pair.textB).value;
      assert cosine(a, b) == r;
      assert HasScore(pair, model, cosine, r.value);
    }
  }

  /** The plain form succeeds exactly when every pair has a score, and then holds each in order. */
  lemma {:induction false} ScoreAllMaps(pairs: seq<Pair>, model: Model, cosine: Cosine)
    ensures ScoreAll(pairs, model, cosine).Some? <==>
      forall i :: 0 <= i < |pairs| ==> Scorable(pairs[i], model, cosine)
    ensures ScoreAll(pairs, model, cosine).Some? ==>
      var scored := ScoreAll(pairs, model, cosine).value;
      && |scored| == |pairs|
      && forall i :: 0 <= i < |pairs| ==>
           scored[i].pair == pairs[i] && HasScore(pairs[i], model, cosine, scored[i].score)
  {
    if pairs != [] {
      var front, last := pairs[..|pairs| - 1], pairs[|pairs| - 1];
      ScoreAllMaps(front, model, cosine);
      assert forall i :: 0 <= i < |front| ==> front[i] == pairs[i];
      ScoreIsCosine(last, model, cosine);
    }
  }

  lemma {:induction false} PrefixFails(pairs: seq<Pair>, n: nat, model: Model, cosine: Cosine)
    requires n <= |pairs| && ScoreAll(pairs[..n], model, cosine) == None
    ensures ScoreAll(pairs, model, cosine) == None
    decreases |pairs|
  {
    if n == |pairs| {
      assert pairs[..n] == pairs;
    } else {
      assert pairs[..|pairs| - 1][..n] == pairs[..n];
      PrefixFails(pairs[..|pairs| - 1], n, model, cosine);
    }
  }

  // ----- the cached form -----

  class Embedder {
    const model: Model
    var calls: seq<string>

    constructor (model: Model)
      ensures this.model == model && calls == []
    {
      this.model := model;
      calls := [];
    }

    /** `route_embedding`, with a record of the calls that reach the provider. */
    method Route(text: string) returns (r: Option<Vector>)
      modifies this
      ensures r == model(text) && calls == old(calls) + [text]
    {
      calls := calls + [text];
      r := model(text);
    }
  }

  predicate Distinct(texts: seq<string>) {
    forall i, j :: 0 <= i < j < |texts| ==> texts[i] != texts[j]
  }

  /** No text has been asked for twice since `before`. */
  ghost predicate AskedOnce(embedder: Embedder, before: seq<string>)
    reads embedder
  {
    before <= embedder.calls && Distinct(embedder.calls[|before|..])
  }

  class Cache {
    var vectors: map<string, Vector>

    constructor ()
      ensures vectors == map[]
    {
      vectors := map[];
    }

    /** The cache holds the model's vectors of exactly the texts that were asked for, each once. */
    ghost predicate Holds(embedder: Embedder, before: seq<string>)
      reads this, embedder
    {
      && AskedOnce(embedder, before)
      && (forall t :: t in vectors <==> t in embedder.calls[|before|..])
      && (forall t :: t in vectors ==> embedder.model(t) == Some(vectors[t]))
    }

    /** `_embed`. */
    method Embed(text: string, embedder: Embedder, ghost before: seq<string>) returns (r: Option<Vector>)
      requires Holds(embedder, before)
      modifies this, embedder
      ensures r == embedder.model(text)
      ensures r.Some? ==> Holds(embedder, before) && vectors.Keys == old(vectors.Keys) + {text}
      ensures AskedOnce(embedder, before)
    {
      if text in vectors {
        return Some(vectors[text]);
      }
      ghost var asked := embedder.calls[|before|..];
      r := embedder.Route(text);
      assert embedder.calls[|before|..] == asked + [text];
      if r.Some? {
        vectors := vectors[text := r.value];
      }
    }
  }

  function TextsOf(pairs: seq<Pair>): set<string> {
    set i, t | 0 <= i < |pairs| && t in Texts(pairs[i]) :: t
  }

  lemma TextsOfNext(pairs: seq<Pair>, n: nat)
    requires n < |pairs|
    ensures TextsOf(pairs[..n + 1]) == TextsOf(pairs[..n]) + Texts(pairs[n])
  {
    var front, more := pairs[..n], pairs[..n + 1];
    forall t
      ensures t in TextsOf(more) <==> t in TextsOf(front) || t in Texts(pairs[n])
    {
      if t in TextsOf(more) {
        var i :| 0 <= i < |more| && t in Texts(more[i]);
        assert i < n ==> front[i] == more[i];
      }
      if t in TextsOf(front) {
        var i :| 0 <= i < |front| && t in Texts(front[i]);
        assert more[i] == front[i];
      }
      assert more[n] == pairs[n];
    }
  }

  /** The vector of a pair's existing side: the one it brings, else through the cache. */
  method ExistingVector(pair: Pair, cache: Cache, embedder: Embedder, ghost before: seq<string>) returns (r: Option<Vector>)
    requires cache.Holds(embedder, before)
    modifies cache, embedder
    ensures r == if pair.cached.Some? then pair.cached else embedder.model(pair.textB)
    ensures r.Some? ==> cache.Holds(embedder, before)
    ensures r.Some? ==>
      cache.vectors.Keys == old(cache.vectors.Keys) + if pair.cached.Some? then {} else {pair.textB}
    ensures AskedOnce(embedder, before)
  {
    if pair.cached.Some? {
      r := pair.cached;
    } else {
      r := cache.Embed(pair.textB, embedder, before);
    }
  }

  /** The body of the loop of `_score_dataset`: a pair costs calls only for texts not seen before. */
  method ScoreThroughCache(pair: Pair, cache: Cache, embedder: Embedder, cosine: Cosine, ghost before: seq<string>)
      returns (r: Option<real>)
    requires cache.Holds(embedder, before)
    modifies cache, embedder
    ensures r == ScorePair(pair, embedder.model, cosine)
    ensures r.Some? ==> cache.Holds(embedder, before) && cache.vectors.Keys == old(cache.vectors.Keys) + Texts(pair)
    ensures AskedOnce(embedder, before)
  {
    var a := cache.Embed(pair.textA, embedder, before);
    if a == None { return None; }
    var b := ExistingVector(pair, cache, embedder, before);
    if b == None { return None; }
    r := cosine(a.value, b.value);
  }

  /** The loop of `_score_dataset`, against the plain form. */
  method ScoreInOrder(pairs: seq<Pair>, embedder: Embedder, cosine: Cosine) returns (r: Option<seq<Scored>>)
    modifies embedder
    ensures r == ScoreAll(pairs, embedder.model, cosine)
    ensures old(embedder.calls) <= embedder.calls && Distinct(embedder.calls[|old(embedder.calls)|..])
    ensures r.Some? ==> forall t :: t in embedder.calls[|old(embedder.calls)|..] <==> t in TextsOf(pairs)
  {
    ghost var before := embedder.calls;
    var cache := new Cache();
    var scored: seq<Scored> := [];
    assert embedder.calls[|before|..] == [];
    for i := 0 to |pairs|
      invariant cache.Holds(embedder, before)
      invariant ScoreAll(pairs[..i], embedder.model, cosine) == Some(scored)
      invariant cache.vectors.Keys == TextsOf(pairs[..i])
    {
      assert pairs[..i + 1][..i] == pairs[..i];
      TextsOfNext(pairs, i);
      var score := ScoreThroughCache(pairs[i], cache, embedder, cosine, before);
      if score == None {
        PrefixFails(pairs, i + 1, embedder.model, cosine);
        return None;
      }
      scored := scored + [Scored(pairs[i], score.value)];
    }
    assert pairs[..|pairs|] == pairs;
    r := Some(scored);
  }

  /** `_score_dataset`: every pair with its score, in order, or nothing exactly when some pair has none;
      each distinct text is embedded at most once, and on success exactly those that some pair needs. */
  method ScoreDataset(pairs: seq<Pair>, embedder: Embedder, cosine: Cosine) returns (r: Option<seq<Scored>>)
    modifies embedder
    ensures r == ScoreAll(pairs, embedder.model, cosine)
    ensures r.Some? <==> forall i :: 0 <= i < |pairs| ==> Scorable(pairs[i], embedder.model, cosine)
    ensures r.Some? ==> |r.value| == |pairs| && forall i :: 0 <= i < |pairs| ==>
      r.value[i].pair == pairs[i] && HasScore(pairs[i], embedder.model, cosine, r.value[i].score)
    ensures old(embedder.calls) <= embedder.calls && Distinct(embedder.calls[|old(embedder.calls)|..])
    ensures r.Some? ==> forall t :: t in embedder.calls[|old(embedder.calls)|..] <==> t in TextsOf(pairs)
  {
    ScoreAllMaps(pairs, embedder.model, cosine);
    r := ScoreInOrder(pairs, embedder, cosine);
  }

  // ----- tallies -----

  /** Scores from `low` (inclusive) up to `high` (exclusive). */
  datatype Band = Band(low: Option<real>, high: Option<real>)

  predicate InBand(score: real, band: Band) {
    (band.low.Some? ==> band.low.value <= score) && (band.high.Some? ==> score < band.high.value)
  }

  /** How many pairs with this label score inside the band. */
  function Count(scored: seq<Scored>, isMatch: bool, band: Band): nat {
    if scored == [] then 0
    else
      var last := scored[|scored| - 1];
      Count(scored[..|scored| - 1], isMatch, band) + if last.pair.isMatch == isMatch && InBand(last.score, band) then 1 else 0
  }

  const ALL := Band(None, None)
  function From(low: real): Band { Band(Some(low), None) }
  function Under(high: real): Band { Band(None, Some(high)) }
  function Between(low: real, high: real): Band { Band(Some(low), Some(high)) }

  lemma {:induction false} CountsAddUp(scored: seq<Scored>, isMatch: bool, a: Band, b: Band, whole: Band)
    requires forall s :: InBand(s, whole) <==> InBand(s, a) || InBand(s, b)
    requires forall s :: !(InBand(s, a) && InBand(s, b))
    ensures Count(scored, isMatch, a) + Count(scored, isMatch, b) == Count(scored, isMatch, whole)
  {
    if scored != [] {
      CountsAddUp(scored[..|scored| - 1], isMatch, a, b, whole);
      var s := scored[|scored| - 1].score;
      assert InBand(s, whole) <==> InBand(s, a) || InBand(s, b);
      assert !(InBand(s, a) && InBand(s, b));
    }
  }

  lemma {:induction false} EveryPairCounts(scored: seq<Scored>)
    ensures Count(scored, true, ALL) + Count(scored, false, ALL) == |scored|
  {
    if scored != [] { EveryPairCounts(scored[..|scored| - 1]); }
  }

  lemma {:induction false} CountGrows(scored: seq<Scored>, isMatch: bool, narrow: Band, wide: Band)
    requires forall s :: InBand(s, narrow) ==> InBand(s, wide)
    ensures Count(scored, isMatch, narrow) <= Count(scored, isMatch, wide)
  {
    if scored != [] {
      CountGrows(scored[..|scored| - 1], isMatch, narrow, wide);
      var s := scored[|scored| - 1].score;
      assert InBand(s, narrow) ==> InBand(s, wide);
    }
  }

  lemma {:induction false} CountsNone(scored: seq<Scored>, isMatch: bool, band: Band)
    ensures Count(scored, isMatch, band) == 0 <==>
      forall i :: 0 <= i < |scored| && scored[i].pair.isMatch == isMatch ==> !InBand(scored[i].score, band)
  {
    if scored != [] {
      var front := scored[..|scored| - 1];
      CountsNone(front, isMatch, band);
      assert forall i :: 0 <= i < |front| ==> front[i] == scored[i];
    }
  }

  datatype ThresholdResult = ThresholdResult(
    threshold: real, precision: real, recall: real, f1: real,
    truePositive: nat, falsePositive: nat, trueNegative: nat, falseNegative: nat)

  function Ratio(part: nat, whole: nat): real {
    if whole > 0 then part as real / whole as real else 0.0
  }

  /** What a threshold's result is to say: the counts, and F1 in its closed form. */
  predicate Tallies(scored: seq<Scored>, r: ThresholdResult) {
    && r.truePositive == Count(scored, true, From(r.threshold))
    && r.falsePositive == Count(scored, false, From(r.threshold))
    && r.falseNegative == Count(scored, true, Under(r.threshold))
    && r.trueNegative == Count(scored, false, Under(r.threshold))
    && r.precision == Ratio(r.truePositive, r.truePositive + r.falsePositive)
    && r.recall == Ratio(r.truePositive, r.truePositive + r.falseNegative)
    && r.f1 == Ratio(2 * r.truePositive, 2 * r.truePositive + r.falsePositive + r.falseNegative)
  }

  lemma Cancels(x: real, y: real, z: real)
    requires z > 0.0 && x * z == y * z
    ensures x == y
  {
    assert (x - y) * z == 0.0;
  }

  function Harmonic(p: real, r: real): real {
    if p + r > 0.0 then 2.0 * p * r / (p + r) else 0.0
  }

  /** With a true positive, both ratios have their denominators, and F1 reduces. */
  lemma HarmonicMean(t: real, p: real, r: real)
    requires t > 0.0 && p > 0.0 && r > 0.0
    ensures Harmonic(t / p, t / r) == 2.0 * t / (p + r)
  {
    var a, b := t / p, t / r;
    assert a * p == t && b * r == t;
    Positive(t, p);
    Positive(t, r);
    Reduced(a, b, p, r, t);
  }

  lemma Positive(t: real, p: real)
    requires t > 0.0 && p > 0.0
    ensures t / p > 0.0
  {
    assert (t / p) * p == t;
  }

  lemma Reduced(a: real, b: real, p: real, r: real, t: real)
    requires a > 0.0 && b > 0.0 && p > 0.0 && r > 0.0 && a * p == t && b * r == t
    ensures 2.0 * a * b / (a + b) == 2.0 * t / (p + r)
  {
    CrossMultiplied(a, b, p, r, t);
    Quotients(2.0 * a * b, a + b, 2.0 * t, p + r);
  }

  lemma CrossMultiplied(a: real, b: real, p: real, r: real, t: real)
    requires a * p == t && b * r == t
    ensures (2.0 * a * b) * (p + r) == (2.0 * t) * (a + b)
  {
    calc {
      (2.0 * a * b) * (p + r);
      2.0 * (b * (a * p)) + 2.0 * (a * (b * r));
      2.0 * (b * t) + 2.0 * (a * t);
      (2.0 * t) * (a + b);
    }
  }

  lemma Quotients(n: real, d: real, m: real, e: real)
    requires d > 0.0 && e > 0.0 && n * e == m * d
    ensures n / d == m / e
  {
    var x, y := n / d, m / e;
    assert x * d == n && y * e == m;
    assert x * (d * e) == n * e && y * (d * e) == m * d;
    assert d * e > 0.0;
    Cancels(x, y, d * e);
  }

  lemma ClosedForms(tp: nat, fp: nat, fn: nat, t: real, p: real, r: real)
    requires tp > 0 && t == tp as real && p == (tp + fp) as real && r == (tp + fn) as real
    ensures Ratio(2 * tp, 2 * tp + fp + fn) == 2.0 * t / (p + r)
    ensures Ratio(tp, tp + fp) == t / p && Ratio(tp, tp + fn) == t / r
  {
    assert (2 * tp) as real == 2.0 * t && (2 * tp + fp + fn) as real == p + r;
  }

  /** The two-step F1 of the code is the closed form, zero conventions included. */
  lemma F1Closed(tp: nat, fp: nat, fn: nat)
    ensures Harmonic(Ratio(tp, tp + fp), Ratio(tp, tp + fn)) == Ratio(2 * tp, 2 * tp + fp + fn)
  {
    if tp > 0 {
      var t, p, r := tp as real, (tp + fp) as real, (tp + fn) as real;
      HarmonicMean(t, p, r);
      ClosedForms(tp, fp, fn, t, p, r);
    } else {
      NothingFound(tp + fp);
      NothingFound(tp + fn);
      NothingFound(fp + fn);
    }
  }

  lemma NothingFound(n: nat)
    ensures Ratio(0, n) == 0.0
  {
  }

  /** `_threshold_result`. */
  method ThresholdResultAt(scored: seq<Scored>, threshold: real) returns (r: ThresholdResult)
    ensures r.threshold == threshold && Tallies(scored, r)
  {
    var tp, fp, tn, fn := 0, 0, 0, 0;
    for i := 0 to |scored|
      invariant tp == Count(scored[..i], true, From(threshold))
      invariant fp == Count(scored[..i], false, From(threshold))
      invariant fn == Count(scored[..i], true, Under(threshold))
      invariant tn == Count(scored[..i], false, Under(threshold))
    {
      assert scored[..i + 1][..i] == scored[..i];
      var predicted := scored[i].score >= threshold;
      if scored[i].pair.isMatch && predicted {
        tp := tp + 1;
      } else if !scored[i].pair.isMatch && predicted {
        fp := fp + 1;
      } else if scored[i].pair.isMatch && !predicted {
        fn := fn + 1;
      } else {
        tn := tn + 1;
      }
    }
    assert scored[..|scored|] == scored;
    var precision := if tp + fp > 0 then tp as real / (tp + fp) as real else 0.0;
    var recall := if tp + fn > 0 then tp as real / (tp + fn) as real else 0.0;
    var f1 := if precision + recall > 0.0 then 2.0 * precision * recall / (precision + recall) else 0.0;
    F1Closed(tp, fp, fn);
    assert precision == Ratio(tp, tp + fp) && recall == Ratio(tp, tp + fn);
    assert f1 == Harmonic(precision, recall);
    r := ThresholdResult(threshold, precision, recall, f1, tp, fp, tn, fn);
  }

  /** The four counts share out the dataset, the labels' counts do not depend on the threshold, and a
      higher threshold predicts no match that a lower one does not. */
  lemma TalliesShareOutTheDataset(scored: seq<Scored>, a: ThresholdResult, b: ThresholdResult)
    requires Tallies(scored, a) && Tallies(scored, b) && a.threshold <= b.threshold
    ensures a.truePositive + a.falsePositive + a.trueNegative + a.falseNegative == |scored|
    ensures a.truePositive + a.falseNegative == b.truePositive + b.falseNegative
    ensures b.truePositive <= a.truePositive && b.falsePositive <= a.falsePositive
    ensures a.recall >= b.recall
  {
    EveryPairCounts(scored);
    CountsAddUp(scored, true, From(a.threshold), Under(a.threshold), ALL);
    CountsAddUp(scored, false, From(a.threshold), Under(a.threshold), ALL);
    CountsAddUp(scored, true, From(b.threshold), Under(b.threshold), ALL);
    CountGrows(scored, true, From(b.threshold), From(a.threshold));
    CountGrows(scored, false, From(b.threshold), From(a.threshold));
    RatioGrows(b.truePositive, a.truePositive, a.truePositive + a.falseNegative);
  }

  lemma RatioGrows(m: nat, n: nat, whole: nat)
    requires m <= n
    ensures Ratio(m, whole) <= Ratio(n, whole)
  {
    if whole > 0 { DividedGrows(m as real, n as real, whole as real); }
  }

  lemma DividedGrows(x: real, y: real, d: real)
    requires x <= y && d > 0.0
    ensures x / d <= y / d
  {
    assert (x / d) * d == x && (y / d) * d == y;
  }

  /** `sweep_dataset`: one scoring, then one tally for each threshold. */
  method SweepDataset(pairs: seq<Pair>, thresholds: seq<real>, embedder: Embedder, cosine: Cosine)
      returns (r: Option<seq<ThresholdResult>>)
    modifies embedder
    ensures r.Some? <==> ScoreAll(pairs, embedder.model, cosine).Some?
    ensures r.Some? ==> |r.value| == |thresholds| && forall i :: 0 <= i < |thresholds| ==>
      r.value[i].threshold == thresholds[i] && Tallies(ScoreAll(pairs, embedder.model, cosine).value, r.value[i])
    ensures old(embedder.calls) <= embedder.calls && Distinct(embedder.calls[|old(embedder.calls)|..])
  {
    var scored := ScoreDataset(pairs, embedder, cosine);
    if scored == None { return None; }
    ghost var called := embedder.calls;
    var results: seq<ThresholdResult> := [];
    for i := 0 to |thresholds|
      invariant |results| == i && embedder.calls == called
      invariant forall k :: 0 <= k < i ==> results[k].threshold == thresholds[k] && Tallies(scored.value, results[k])
    {
      var result := ThresholdResultAt(scored.value, thresholds[i]);
      results := results + [result];
    }
    r := Some(results);
  }

  // ----- the review floor -----

  datatype FloorResult = FloorResult(
    floor: real, mergeThreshold: real,
    surfacedTrueMatches: nat, surfacedDistinctPairs: nat, hiddenTrueMatches: nat, matchesMissedByMerge: nat)

  predicate Reports(scored: seq<Scored>, r: FloorResult) {
    && r.surfacedTrueMatches == Count(scored, true, Between(r.floor, r.mergeThreshold))
    && r.surfacedDistinctPairs == Count(scored, false, Between(r.floor, r.mergeThreshold))
    && r.hiddenTrueMatches == Count(scored, true, Under(r.floor))
    && r.matchesMissedByMerge == Count(scored, true, Under(r.mergeThreshold))
  }

  /** `review_band_report`, for one floor; the inner `elif` makes no difference to a score in the band. */
  method FloorReport(scored: seq<Scored>, floor: real, mergeThreshold: real, missed: nat) returns (r: FloorResult)
    requires missed == Count(scored, true, Under(mergeThreshold))
    ensures r.floor == floor && r.mergeThreshold == mergeThreshold && Reports(scored, r)
  {
    var surfaced, distinct, hidden := 0, 0, 0;
    for i := 0 to |scored|
      invariant surfaced == Count(scored[..i], true, Between(floor, mergeThreshold))
      invariant distinct == Count(scored[..i], false, Between(floor, mergeThreshold))
      invariant hidden == Count(scored[..i], true, Under(floor))
    {
      assert scored[..i + 1][..i] == scored[..i];
      var inBand := floor <= scored[i].score < mergeThreshold;
      if scored[i].pair.isMatch {
        if inBand {
          surfaced := surfaced + 1;
        } else if scored[i].score < floor {
          hidden := hidden + 1;
        }
      } else if inBand {
        distinct := distinct + 1;
      }
    }
    assert scored[..|scored|] == scored;
    r := FloorResult(floor, mergeThreshold, surfaced, distinct, hidden, missed);
  }

  /** `review_band_report`. */
  method ReviewBandReport(scored: seq<Scored>, floors: seq<real>, mergeThreshold: real) returns (r: seq<FloorResult>)
    ensures |r| == |floors|
    ensures forall i :: 0 <= i < |r| ==>
      r[i].floor == floors[i] && r[i].mergeThreshold == mergeThreshold && Reports(scored, r[i])
  {
    var missed := 0;
    for i := 0 to |scored|
      invariant missed == Count(scored[..i], true, Under(mergeThreshold))
    {
      assert scored[..i + 1][..i] == scored[..i];
      if scored[i].pair.isMatch && scored[i].score < mergeThreshold { missed := missed + 1; }
    }
    assert scored[..|scored|] == scored;
    r := [];
    for i := 0 to |floors|
      invariant |r| == i
      invariant forall k :: 0 <= k < i ==>
        r[k].floor == floors[k] && r[k].mergeThreshold == mergeThreshold && Reports(scored, r[k])
    {
      var row := FloorReport(scored, floors[i], mergeThreshold, missed);
      r := r + [row];
    }
  }

  /** The lowest score of a match, as it is handed to `floor_passes`. */
  function LowestMatch(scored: seq<Scored>): (r: Option<real>)
    ensures forall i :: 0 <= i < |scored| && scored[i].pair.isMatch ==> r.Some? && r.value <= scored[i].score
    ensures r.Some? ==> exists i :: 0 <= i < |scored| && scored[i].pair.isMatch && scored[i].score == r.value
  {
    if scored == [] then None
    else
      var front, last := LowestMatch(scored[..|scored| - 1]), scored[|scored| - 1];
      if !last.pair.isMatch then front
      else if front.Some? && front.value <= last.score then front
      else Some(last.score)
  }

  function FloorPasses(floor: real, lowestTrueMatch: Option<real>, mergeThreshold: real): bool {
    if floor > mergeThreshold then false
    else lowestTrueMatch == None || floor <= lowestTrueMatch.value
  }

  /** A floor passes exactly when it is no higher than the merge threshold and its report hides no match. */
  lemma FloorPassesExactly(scored: seq<Scored>, r: FloorResult)
    requires Reports(scored, r)
    ensures FloorPasses(r.floor, LowestMatch(scored), r.mergeThreshold) <==>
      r.floor <= r.mergeThreshold && r.hiddenTrueMatches == 0
  {
    CountsNone(scored, true, Under(r.floor));
    if LowestMatch(scored).Some? {
      var i :| 0 <= i < |scored| && scored[i].pair.isMatch && scored[i].score == LowestMatch(scored).value;
      assert !InBand(scored[i].score, Under(r.floor)) <==> r.floor <= LowestMatch(scored).value;
    }
  }

  /** Surfaced and hidden matches make up the missed ones exactly when no match scores between the merge
      threshold and a floor above it; in particular whenever the floor is not above. */
  lemma MissedIsSurfacedPlusHidden(scored: seq<Scored>, r: FloorResult)
    requires Reports(scored, r)
    ensures r.surfacedTrueMatches + r.hiddenTrueMatches == r.matchesMissedByMerge <==>
      Count(scored, true, Between(r.mergeThreshold, r.floor)) == 0
    ensures r.floor <= r.mergeThreshold ==> r.surfacedTrueMatches + r.hiddenTrueMatches == r.matchesMissedByMerge
  {
    var low, high := r.floor, r.mergeThreshold;
    if low <= high {
      CountsAddUp(scored, true, Between(low, high), Under(low), Under(high));
      CountsNone(scored, true, Between(high, low));
    } else {
      CountsAddUp(scored, true, Between(high, low), Under(high), Under(low));
      CountsNone(scored, true, Between(low, high));
    }
  }

  lemma CountOfOne(x: Scored, isMatch: bool, band: Band)
    ensures Count([x], isMatch, band) == if x.pair.isMatch == isMatch && InBand(x.score, band) then 1 else 0
  {
    assert [x][..0] == [];
    assert Count([x][..0], isMatch, band) == 0;
  }

  /** A match that scores the merge threshold itself, under a floor above it, is hidden and not missed. */
  lemma HiddenButNotMissed(pair: Pair, floor: real, mergeThreshold: real, r: FloorResult)
    requires pair.isMatch && mergeThreshold < floor && r.floor == floor && r.mergeThreshold == mergeThreshold
    requires Reports([Scored(pair, mergeThreshold)], r)
    ensures r.surfacedTrueMatches == 0 && r.hiddenTrueMatches == 1 && r.matchesMissedByMerge == 0
  {
    var x := Scored(pair, mergeThreshold);
    CountOfOne(x, true, Between(floor, mergeThreshold));
    CountOfOne(x, true, Under(floor));
    CountOfOne(x, true, Under(mergeThreshold));
  }

  // ----- the recommendation -----

  predicate Better(a: ThresholdResult, b: ThresholdResult) {
    a.f1 > b.f1 || (a.f1 == b.f1 && a.threshold > b.threshold)
  }

  /** `select_recommendation`; `None` is its refusal of an empty list. Python's `max` keeps the first. */
  function SelectRecommendation(results: seq<ThresholdResult>): (r: Option<ThresholdResult>)
    ensures r == None <==> results == []
    ensures r.Some? ==> r.value in results && forall x :: x in results ==>
      x.f1 < r.value.f1 || (x.f1 == r.value.f1 && x.threshold <= r.value.threshold)
  {
    if results == [] then None
    else
      var front, last := SelectRecommendation(results[..|results| - 1]), results[|results| - 1];
      assert results == results[..|results| - 1] + [last];
      if front == None || Better(last, front.value) then Some(last) else front
  }

  /** The recommended F1 and threshold do not depend on the order of the sweep, nor on repeats. */
  lemma OrderDoesNotMatter(a: seq<ThresholdResult>, b: seq<ThresholdResult>)
    requires forall x :: x in a <==> x in b
    ensures SelectRecommendation(a).Some? <==> SelectRecommendation(b).Some?
    ensures SelectRecommendation(a).Some? ==>
      && SelectRecommendation(a).value.f1 == SelectRecommendation(b).value.f1
      && SelectRecommendation(a).value.threshold == SelectRecommendation(b).value.threshold
  {
    if a != [] {
      assert a[0] in b;
    }
    if b != [] {
      assert b[0] in a;
    }
  }
}
