/** User.predict_rating: a similarity-weighted average of the scores other users gave a movie. */
module Prediction {
  import opened Ratings
  import opened Similarity

  /** The list `similarities` before it is sorted: each rating of the movie paired with
      the similarity between this user and the rating's author. */
  function Similarities(pearson: Pearson, mine: seq<Rating>, movieRatings: seq<Rating>,
                        ratingsOf: int -> seq<Rating>): seq<(real, Rating)>
  {
    seq(|movieRatings|, i requires 0 <= i < |movieRatings| =>
      (SimilarityOf(pearson, mine, ratingsOf(movieRatings[i].userId)), movieRatings[i]))
  }

  /** The comprehension that keeps only the pairs whose similarity is greater than 0. */
  function Positive(pairs: seq<(real, Rating)>): (kept: seq<(real, Rating)>)
    ensures |kept| <= |pairs|
    ensures forall k :: 0 <= k < |kept| ==> kept[k].0 > 0.0
    ensures forall k :: 0 <= k < |kept| ==> kept[k] in pairs
  {
    if pairs == [] then []
    else (if pairs[0].0 > 0.0 then [pairs[0]] else []) + Positive(pairs[1..])
  }

  /** Python's sum over the terms of a list of pairs. */
  function Total(pairs: seq<(real, Rating)>, term: ((real, Rating)) -> real): real
  {
    if pairs == [] then 0.0 else term(pairs[0]) + Total(pairs[1..], term)
  }

  /** The numerator's term `r.score * sim`. */
  function Weighted(pair: (real, Rating)): real
  {
    pair.1.score as real * pair.0
  }

  /** The denominator's term `sim`. */
  function Weight(pair: (real, Rating)): real
  {
    pair.0
  }

  /** A sum of strictly positive similarities over a non-empty list is strictly positive. */
  lemma {:induction false} WeightPositive(pairs: seq<(real, Rating)>)
    requires forall k :: 0 <= k < |pairs| ==> pairs[k].0 > 0.0
    ensures Total(pairs, Weight) >= 0.0
    ensures pairs != [] ==> Total(pairs, Weight) > 0.0
  {
    if pairs != [] {
      WeightPositive(pairs[1..]);
    }
  }

  /** The filter, the None case and the weighted average, applied to a list of
      (similarity, rating) pairs in whatever order it has. */
  function Aggregate(pairs: seq<(real, Rating)>): Option<real>
  {
    var kept := Positive(pairs);
    if kept == [] then None
    else
      WeightPositive(kept);
      Some(Total(kept, Weighted) / Total(kept, Weight))
  }

  /** predict_rating for this user (`mine`) and a movie whose ratings are `movieRatings`;
      `ratingsOf` gives the ratings of the user with a given id. */
  function PredictRating(pearson: Pearson, mine: seq<Rating>, movieRatings: seq<Rating>,
                         ratingsOf: int -> seq<Rating>): Option<real>
  {
    Aggregate(Similarities(pearson, mine, movieRatings, ratingsOf))
  }

  // Facts about the filter

  lemma {:induction false} PositiveConcat(a: seq<(real, Rating)>, b: seq<(real, Rating)>)
    ensures Positive(a + b) == Positive(a) + Positive(b)
  {
    if a != [] {
      assert (a + b)[0] == a[0];
      assert (a + b)[1..] == a[1..] + b;
      PositiveConcat(a[1..], b);
    } else {
      assert a + b == b;
    }
  }

  /** The filter leaves nothing exactly when no similarity is positive. */
  lemma {:induction false} PositiveEmptyIff(pairs: seq<(real, Rating)>)
    ensures Positive(pairs) == [] <==> forall k :: 0 <= k < |pairs| ==> pairs[k].0 <= 0.0
  {
    if pairs != [] {
      PositiveEmptyIff(pairs[1..]);
      assert forall k :: 1 <= k < |pairs| ==> pairs[k] == pairs[1..][k - 1];
    }
  }

  /** The filter keeps each pair with positive similarity as often as it occurs, and
      drops every other pair. */
  lemma {:induction false} PositiveMultiset(pairs: seq<(real, Rating)>)
    ensures forall x :: multiset(Positive(pairs))[x] == if x.0 > 0.0 then multiset(pairs)[x] else 0
  {
    if pairs != [] {
      PositiveMultiset(pairs[1..]);
      assert pairs == [pairs[0]] + pairs[1..];
    }
  }

  // Facts about the sums

  lemma {:induction false} TotalConcat(a: seq<(real, Rating)>, b: seq<(real, Rating)>,
                                       term: ((real, Rating)) -> real)
    ensures Total(a + b, term) == Total(a, term) + Total(b, term)
  {
    if a != [] {
      assert (a + b)[0] == a[0];
      assert (a + b)[1..] == a[1..] + b;
      TotalConcat(a[1..], b, term);
    } else {
      assert a + b == b;
    }
  }

  /** Taking one term out of a sum. */
  lemma TotalRemove(pairs: seq<(real, Rating)>, i: int, term: ((real, Rating)) -> real)
    requires 0 <= i < |pairs|
    ensures Total(pairs, term) == term(pairs[i]) + Total(pairs[..i] + pairs[i + 1..], term)
  {
    assert pairs == pairs[..i] + [pairs[i]] + pairs[i + 1..];
    TotalConcat(pairs[..i] + [pairs[i]], pairs[i + 1..], term);
    TotalConcat(pairs[..i], [pairs[i]], term);
    TotalConcat(pairs[..i], pairs[i + 1..], term);
  }

  /** Taking one occurrence out of a sequence takes it out of its multiset. */
  lemma MultisetRemove(pairs: seq<(real, Rating)>, i: int)
    requires 0 <= i < |pairs|
    ensures multiset(pairs[..i] + pairs[i + 1..]) == multiset(pairs) - multiset{pairs[i]}
  {
    assert pairs == pairs[..i] + [pairs[i]] + pairs[i + 1..];
  }

  /** A sum does not depend on the order of its terms. */
  lemma {:induction false} TotalPermutation(a: seq<(real, Rating)>, b: seq<(real, Rating)>,
                                            term: ((real, Rating)) -> real)
    requires multiset(a) == multiset(b)
    ensures Total(a, term) == Total(b, term)
    decreases |a|
  {
    if a == [] {
      assert |b| == |multiset(b)| == 0;
    } else {
      var x := a[0];
      assert x in multiset(b);
      var i :| 0 <= i < |b| && b[i] == x;
      MultisetRemove(b, i);
      MultisetRemove(a, 0);
      assert a[..0] + a[1..] == a[1..];
      TotalPermutation(a[1..], b[..i] + b[i + 1..], term);
      TotalRemove(b, i, term);
    }
  }

  // The properties of predict_rating

  /** The result is defined by the positive-similarity pairs alone: inserting a pair
      whose similarity is zero or negative anywhere changes nothing. */
  lemma NonPositiveIgnored(pairs: seq<(real, Rating)>, i: int, x: (real, Rating))
    requires 0 <= i <= |pairs|
    requires x.0 <= 0.0
    ensures Aggregate(pairs[..i] + [x] + pairs[i..]) == Aggregate(pairs)
  {
    var before, after := pairs[..i], pairs[i..];
    PositiveConcat(before + [x], after);
    PositiveConcat(before, [x]);
    PositiveConcat(before, after);
    assert Positive([x]) == [] by {
      assert [x][1..] == [];
    }
    assert before + after == pairs;
    assert Positive(before + [x]) == Positive(before);
    assert Positive(before + [x] + after) == Positive(pairs);
  }

  /** When a prediction is returned the denominator, the sum of the kept similarities,
      is strictly positive, so the division is defined. */
  lemma DenominatorPositive(pairs: seq<(real, Rating)>)
    ensures Aggregate(pairs).Some? ==> Total(Positive(pairs), Weight) > 0.0
  {
    WeightPositive(Positive(pairs));
  }

  /** The sort at the head of predict_rating has no numeric effect: any reordering of
      the pairs gives the same result. */
  lemma AggregatePermutation(a: seq<(real, Rating)>, b: seq<(real, Rating)>)
    requires multiset(a) == multiset(b)
    ensures Aggregate(a) == Aggregate(b)
  {
    PositiveMultiset(a);
    PositiveMultiset(b);
    var ka, kb := Positive(a), Positive(b);
    assert multiset(ka) == multiset(kb);
    assert |ka| == |multiset(ka)| == |multiset(kb)| == |kb|;
    TotalPermutation(ka, kb, Weighted);
    TotalPermutation(ka, kb, Weight);
  }

  /** With exactly one positive-similarity pair the prediction is that rating's score. */
  lemma SinglePositive(pairs: seq<(real, Rating)>, k: int)
    requires 0 <= k < |pairs|
    requires pairs[k].0 > 0.0
    requires forall i :: 0 <= i < |pairs| && i != k ==> pairs[i].0 <= 0.0
    ensures Aggregate(pairs) == Some(pairs[k].1.score as real)
  {
    var x := pairs[k];
    var before, after := pairs[..k], pairs[k + 1..];
    assert pairs == before + [x] + after;
    PositiveConcat(before + [x], after);
    PositiveConcat(before, [x]);
    assert Positive([x]) == [x] by {
      assert [x][1..] == [];
    }
    PositiveEmptyIff(before);
    PositiveEmptyIff(after);
    assert Positive(before) == [] by {
      forall i | 0 <= i < |before| ensures before[i].0 <= 0.0 {
        assert before[i] == pairs[i];
      }
    }
    assert Positive(after) == [] by {
      forall i | 0 <= i < |after| ensures after[i].0 <= 0.0 {
        assert after[i] == pairs[k + 1 + i];
      }
    }
    assert Positive(pairs) == [x];
    SingleAverage(x);
  }

  lemma SingleAverage(x: (real, Rating))
    requires x.0 > 0.0
    ensures Total([x], Weight) == x.0
    ensures Total([x], Weighted) / Total([x], Weight) == x.1.score as real
  {
    assert [x][1..] == [];
    var w, s := x.0, x.1.score as real;
    assert Total([x], Weighted) == s * w;
    assert Total([x], Weight) == w;
    assert (s * w) / w == s;
  }

  /** The kept sums lie between the lowest and highest score times the sum of weights. */
  lemma WeightedLowerBound(pairs: seq<(real, Rating)>, lo: real)
    requires forall k :: 0 <= k < |pairs| ==> pairs[k].0 > 0.0
    requires forall k :: 0 <= k < |pairs| ==> lo <= pairs[k].1.score as real
    ensures lo * Total(pairs, Weight) <= Total(pairs, Weighted)
  {
    var low := (p: (real, Rating)) => lo * p.0;
    forall k | 0 <= k < |pairs| ensures low(pairs[k]) <= Weighted(pairs[k]) {
      ScaleBounds(pairs[k].1.score as real, pairs[k].0, lo, pairs[k].1.score as real);
    }
    TotalMonotone(pairs, low, Weighted);
    TotalScaled(pairs, lo, low);
  }

  lemma WeightedUpperBound(pairs: seq<(real, Rating)>, hi: real)
    requires forall k :: 0 <= k < |pairs| ==> pairs[k].0 > 0.0
    requires forall k :: 0 <= k < |pairs| ==> pairs[k].1.score as real <= hi
    ensures Total(pairs, Weighted) <= hi * Total(pairs, Weight)
  {
    var high := (p: (real, Rating)) => hi * p.0;
    forall k | 0 <= k < |pairs| ensures Weighted(pairs[k]) <= high(pairs[k]) {
      ScaleBounds(pairs[k].1.score as real, pairs[k].0, pairs[k].1.score as real, hi);
    }
    TotalMonotone(pairs, Weighted, high);
    TotalScaled(pairs, hi, high);
  }

  /** The weighted average of pairs with positive similarities and scores in [lo, hi]
      lies in [lo, hi]. */
  lemma AverageBounds(pairs: seq<(real, Rating)>, lo: real, hi: real)
    requires pairs != []
    requires forall k :: 0 <= k < |pairs| ==> pairs[k].0 > 0.0
    requires forall k :: 0 <= k < |pairs| ==> lo <= pairs[k].1.score as real <= hi
    ensures Total(pairs, Weight) > 0.0
    ensures lo <= Total(pairs, Weighted) / Total(pairs, Weight) <= hi
  {
    WeightPositive(pairs);
    WeightedLowerBound(pairs, lo);
    WeightedUpperBound(pairs, hi);
    DivideBounds(Total(pairs, Weighted), Total(pairs, Weight), lo, hi);
  }

  /** A sum of pointwise smaller terms is smaller. */
  lemma {:induction false} TotalMonotone(pairs: seq<(real, Rating)>, f: ((real, Rating)) -> real,
                                         g: ((real, Rating)) -> real)
    requires forall k :: 0 <= k < |pairs| ==> f(pairs[k]) <= g(pairs[k])
    ensures Total(pairs, f) <= Total(pairs, g)
  {
    if pairs != [] {
      TotalMonotone(pairs[1..], f, g);
    }
  }

  /** Summing c times each similarity gives c times the sum of the similarities. */
  lemma {:induction false} TotalScaled(pairs: seq<(real, Rating)>, c: real, scaled: ((real, Rating)) -> real)
    requires forall p :: scaled(p) == c * p.0
    ensures Total(pairs, scaled) == c * Total(pairs, Weight)
  {
    if pairs != [] {
      TotalScaled(pairs[1..], c, scaled);
      assert c * (pairs[0].0 + Total(pairs[1..], Weight)) == c * pairs[0].0 + c * Total(pairs[1..], Weight);
    }
  }

  lemma ScaleBounds(s: real, w: real, lo: real, hi: real)
    requires w > 0.0 && lo <= s <= hi
    ensures lo * w <= s * w <= hi * w
  {
    assert (s - lo) * w >= 0.0;
    assert (hi - s) * w >= 0.0;
  }

  /** The prediction is a weighted average: it lies within the range of the scores. */
  lemma AggregateWithinRange(pairs: seq<(real, Rating)>, lo: int, hi: int)
    requires forall k :: 0 <= k < |pairs| ==> lo <= pairs[k].1.score <= hi
    ensures Aggregate(pairs).Some? ==> lo as real <= Aggregate(pairs).value <= hi as real
  {
    var kept := Positive(pairs);
    if kept != [] {
      forall k | 0 <= k < |kept| ensures lo as real <= kept[k].1.score as real <= hi as real {
        assert kept[k] in pairs;
      }
      AverageBounds(kept, lo as real, hi as real);
    }
  }

  lemma DivideBounds(n: real, d: real, lo: real, hi: real)
    requires d > 0.0
    requires lo * d <= n <= hi * d
    ensures lo <= n / d <= hi
  {
  }

  // The same properties, stated for predict_rating on a movie's ratings

  /** No prediction exactly when no author of a rating of the movie has positive
      similarity with this user; in particular for a movie nobody has rated. */
  lemma PredictNoneIff(pearson: Pearson, mine: seq<Rating>, movieRatings: seq<Rating>,
                       ratingsOf: int -> seq<Rating>)
    ensures PredictRating(pearson, mine, movieRatings, ratingsOf) == None <==>
              forall i :: 0 <= i < |movieRatings| ==>
                SimilarityOf(pearson, mine, ratingsOf(movieRatings[i].userId)) <= 0.0
    ensures movieRatings == [] ==> PredictRating(pearson, mine, movieRatings, ratingsOf) == None
  {
    var pairs := Similarities(pearson, mine, movieRatings, ratingsOf);
    PositiveEmptyIff(pairs);
    assert forall i :: 0 <= i < |movieRatings| ==>
      pairs[i].0 == SimilarityOf(pearson, mine, ratingsOf(movieRatings[i].userId));
  }

  /** With exactly one rating whose author has positive similarity, the prediction is
      that rating's score. */
  lemma PredictSingleNeighbour(pearson: Pearson, mine: seq<Rating>, movieRatings: seq<Rating>,
                               ratingsOf: int -> seq<Rating>, k: int)
    requires 0 <= k < |movieRatings|
    requires SimilarityOf(pearson, mine, ratingsOf(movieRatings[k].userId)) > 0.0
    requires forall i :: 0 <= i < |movieRatings| && i != k ==>
               SimilarityOf(pearson, mine, ratingsOf(movieRatings[i].userId)) <= 0.0
    ensures PredictRating(pearson, mine, movieRatings, ratingsOf) == Some(movieRatings[k].score as real)
  {
    SinglePositive(Similarities(pearson, mine, movieRatings, ratingsOf), k);
  }

  /** Sorting the similarity list, in any order at all and with any tie-break, leaves
      the prediction unchanged. */
  lemma PredictIgnoresOrder(pearson: Pearson, mine: seq<Rating>, movieRatings: seq<Rating>,
                            ratingsOf: int -> seq<Rating>, sorted: seq<(real, Rating)>)
    requires multiset(sorted) == multiset(Similarities(pearson, mine, movieRatings, ratingsOf))
    ensures Aggregate(sorted) == PredictRating(pearson, mine, movieRatings, ratingsOf)
  {
    AggregatePermutation(sorted, Similarities(pearson, mine, movieRatings, ratingsOf));
  }

  /** A rating whose author has zero or negative similarity with this user contributes
      to neither sum: adding it to the movie's ratings changes nothing. */
  lemma PredictIgnoresNonPositive(pearson: Pearson, mine: seq<Rating>, movieRatings: seq<Rating>,
                                  ratingsOf: int -> seq<Rating>, i: int, r: Rating)
    requires 0 <= i <= |movieRatings|
    requires SimilarityOf(pearson, mine, ratingsOf(r.userId)) <= 0.0
    ensures PredictRating(pearson, mine, movieRatings[..i] + [r] + movieRatings[i..], ratingsOf) ==
            PredictRating(pearson, mine, movieRatings, ratingsOf)
  {
    var pairs := Similarities(pearson, mine, movieRatings, ratingsOf);
    var x := (SimilarityOf(pearson, mine, ratingsOf(r.userId)), r);
    assert Similarities(pearson, mine, movieRatings[..i] + [r] + movieRatings[i..], ratingsOf) ==
           pairs[..i] + [x] + pairs[i..];
    NonPositiveIgnored(pairs, i, x);
  }

  /** When every score of the movie lies in [lo, hi], so does the prediction. */
  lemma PredictWithinRange(pearson: Pearson, mine: seq<Rating>, movieRatings: seq<Rating>,
                           ratingsOf: int -> seq<Rating>, lo: int, hi: int)
    requires forall i :: 0 <= i < |movieRatings| ==> lo <= movieRatings[i].score <= hi
    ensures PredictRating(pearson, mine, movieRatings, ratingsOf).Some? ==>
              lo as real <= PredictRating(pearson, mine, movieRatings, ratingsOf).value <= hi as real
  {
    AggregateWithinRange(Similarities(pearson, mine, movieRatings, ratingsOf), lo, hi);
  }
}
