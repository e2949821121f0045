/** User.similarity: the shared-rating sample of two users and their correlation. */
module Similarity {
  import opened Ratings

  /** The movie ids of `ratings` that appear there for the last time at index `i`. */
  predicate LastFor(ratings: seq<Rating>, i: int)
    requires 0 <= i < |ratings|
  {
    forall k :: i < k < |ratings| ==> ratings[k].movieId != ratings[i].movieId
  }

  /** Some rating in `ratings` is for movie `movieId`. */
  predicate Rated(ratings: seq<Rating>, movieId: int)
  {
    exists i :: 0 <= i < |ratings| && ratings[i].movieId == movieId
  }

  /** `pair` is this user's score from their last rating of the movie of `other`,
      together with the score of `other`. */
  predicate PairedWith(mine: seq<Rating>, other: Rating, pair: (int, int))
  {
    exists i :: 0 <= i < |mine| && LastFor(mine, i) && mine[i].movieId == other.movieId &&
                pair == (mine[i].score, other.score)
  }

  /** The dictionary of this user's ratings after the first loop: each rating in
      list order stores its score under its movie id. */
  function ScoreMap(ratings: seq<Rating>): map<int, int>
  {
    if ratings == [] then map[]
    else
      var last := ratings[|ratings| - 1];
      ScoreMap(ratings[..|ratings| - 1])[last.movieId := last.score]
  }

  /** The shared-rating list after the second loop has scanned `other` in order. */
  function SharedSample(scores: map<int, int>, other: seq<Rating>): seq<(int, int)>
  {
    if other == [] then []
    else
      var last := other[|other| - 1];
      SharedSample(scores, other[..|other| - 1]) +
        (if last.movieId in scores then [(scores[last.movieId], last.score)] else [])
  }

  /** The indices of the ratings in `other` whose movie has a score in `scores`, in order. */
  function MatchedIndices(scores: map<int, int>, other: seq<Rating>): seq<int>
  {
    if other == [] then []
    else
      var n := |other| - 1;
      MatchedIndices(scores, other[..n]) + (if other[n].movieId in scores then [n] else [])
  }

  /** The sample similarity(self, other_user) builds from the two rating lists. */
  function Sample(mine: seq<Rating>, theirs: seq<Rating>): seq<(int, int)>
  {
    SharedSample(ScoreMap(mine), theirs)
  }

  /** The value of similarity: the 0.0 sentinel for an empty sample, else pearson of it. */
  function SimilarityOf(pearson: Pearson, mine: seq<Rating>, theirs: seq<Rating>): real
  {
    var sample := Sample(mine, theirs);
    if sample != [] then pearson(sample) else 0.0
  }

  /** User.similarity as the source runs it: a dictionary filled by one loop and a list
      appended to by a second. */
  method Similarity(pearson: Pearson, mine: seq<Rating>, theirs: seq<Rating>) returns (sim: real)
    ensures sim == SimilarityOf(pearson, mine, theirs)
  {
    var scores: map<int, int> := map[];
    for i := 0 to |mine|
      invariant scores == ScoreMap(mine[..i])
    {
      assert mine[..i + 1][..i] == mine[..i];
      scores := scores[mine[i].movieId := mine[i].score];
    }
    assert mine[..|mine|] == mine;
    var shared: seq<(int, int)> := [];
    for j := 0 to |theirs|
      invariant shared == SharedSample(scores, theirs[..j])
    {
      assert theirs[..j + 1][..j] == theirs[..j];
      if theirs[j].movieId in scores {
        shared := shared + [(scores[theirs[j].movieId], theirs[j].score)];
      }
    }
    assert theirs[..|theirs|] == theirs;
    if shared != [] {
      sim := pearson(shared);
    } else {
      sim := 0.0;
    }
  }

  /** The dictionary holds exactly the movies this user has rated. */
  lemma {:induction false} ScoreMapKeys(ratings: seq<Rating>)
    ensures forall m :: m in ScoreMap(ratings) <==> Rated(ratings, m)
  {
    if ratings != [] {
      var n := |ratings| - 1;
      var init := ratings[..n];
      ScoreMapKeys(init);
      forall m ensures m in ScoreMap(ratings) <==> Rated(ratings, m) {
        if m in ScoreMap(init) {
          var i :| 0 <= i < |init| && init[i].movieId == m;
          assert ratings[i].movieId == m;
        }
        if Rated(ratings, m) && m != ratings[n].movieId {
          var i :| 0 <= i < |ratings| && ratings[i].movieId == m;
          assert i < n && init[i].movieId == m;
        }
      }
    }
  }

  /** A later rating of a movie overwrites an earlier one: the dictionary holds, for
      each movie, the score of its last rating in list order. */
  lemma {:induction false} ScoreMapLastWins(ratings: seq<Rating>)
    ensures forall i :: 0 <= i < |ratings| && LastFor(ratings, i) ==>
              ratings[i].movieId in ScoreMap(ratings) &&
              ScoreMap(ratings)[ratings[i].movieId] == ratings[i].score
  {
    if ratings != [] {
      var n := |ratings| - 1;
      var init := ratings[..n];
      ScoreMapLastWins(init);
      forall i | 0 <= i < |ratings| && LastFor(ratings, i)
        ensures ratings[i].movieId in ScoreMap(ratings)
        ensures ScoreMap(ratings)[ratings[i].movieId] == ratings[i].score
      {
        if i < n {
          assert ratings[i].movieId != ratings[n].movieId;
          assert init[i] == ratings[i];
          assert LastFor(init, i);
        }
      }
    }
  }

  /** Every movie in the dictionary has a last rating in the list, whose score it holds. */
  lemma {:induction false} ScoreMapLastRating(ratings: seq<Rating>)
    ensures forall m :: m in ScoreMap(ratings) ==>
              exists i :: 0 <= i < |ratings| && ratings[i].movieId == m && LastFor(ratings, i) &&
                          ScoreMap(ratings)[m] == ratings[i].score
  {
    if ratings != [] {
      var n := |ratings| - 1;
      var init := ratings[..n];
      ScoreMapLastRating(init);
      forall m | m in ScoreMap(ratings)
        ensures exists i :: 0 <= i < |ratings| && ratings[i].movieId == m && LastFor(ratings, i) &&
                            ScoreMap(ratings)[m] == ratings[i].score
      {
        if m == ratings[n].movieId {
          assert LastFor(ratings, n);
        } else {
          assert m in ScoreMap(init);
          var i :| 0 <= i < |init| && init[i].movieId == m && LastFor(init, i) &&
                   ScoreMap(init)[m] == init[i].score;
          assert ratings[i] == init[i];
          assert LastFor(ratings, i);
        }
      }
    }
  }

  /** The shared sample is the in-order image of exactly those ratings of `other` whose
      movie has a score in `scores`: each pair is (that score, the other rating's score). */
  lemma {:induction false} SharedSampleMatches(scores: map<int, int>, other: seq<Rating>)
    ensures var s, idx := SharedSample(scores, other), MatchedIndices(scores, other);
      && |idx| == |s|
      && (forall p :: 0 <= p < |idx| ==> 0 <= idx[p] < |other|)
      && (forall p, q :: 0 <= p < q < |idx| ==> idx[p] < idx[q])
      && (forall j :: 0 <= j < |other| ==> (j in idx <==> other[j].movieId in scores))
      && (forall p :: 0 <= p < |s| ==>
            other[idx[p]].movieId in scores &&
            s[p] == (scores[other[idx[p]].movieId], other[idx[p]].score))
  {
    if other != [] {
      var n := |other| - 1;
      var init := other[..n];
      SharedSampleMatches(scores, init);
      var s0, idx0 := SharedSample(scores, init), MatchedIndices(scores, init);
      var s, idx := SharedSample(scores, other), MatchedIndices(scores, other);
      assert forall p :: 0 <= p < |idx0| ==> idx[p] == idx0[p] && s[p] == s0[p] && other[idx0[p]] == init[idx0[p]];
      forall j | 0 <= j < |other| ensures j in idx <==> other[j].movieId in scores {
        if j < n {
          assert other[j] == init[j];
          assert j in idx <==> j in idx0;
        } else {
          assert n !in idx0;
        }
      }
    }
  }

  /** The sample has at most one pair per rating of the other user. */
  lemma {:induction false} SampleLengthBound(scores: map<int, int>, other: seq<Rating>)
    ensures |SharedSample(scores, other)| <= |other|
  {
    if other != [] {
      SampleLengthBound(scores, other[..|other| - 1]);
    }
  }

  /** The sample has one pair per rating of the other user for a movie this user rated,
      in the other user's order; the pair for rating `theirs[j]` is this user's last score
      for that movie together with the score of `theirs[j]`. */
  lemma SampleFromSameMovie(mine: seq<Rating>, theirs: seq<Rating>)
    ensures |Sample(mine, theirs)| <= |theirs|
    ensures var idx := MatchedIndices(ScoreMap(mine), theirs);
            |idx| == |Sample(mine, theirs)| &&
            (forall p, q :: 0 <= p < q < |idx| ==> idx[p] < idx[q]) &&
            (forall j :: 0 <= j < |theirs| ==> (j in idx <==> Rated(mine, theirs[j].movieId))) &&
            (forall p :: 0 <= p < |idx| ==>
               0 <= idx[p] < |theirs| && PairedWith(mine, theirs[idx[p]], Sample(mine, theirs)[p]))
  {
    var scores := ScoreMap(mine);
    ScoreMapKeys(mine);
    ScoreMapLastRating(mine);
    SharedSampleMatches(scores, theirs);
    SampleLengthBound(scores, theirs);
    var s, idx := Sample(mine, theirs), MatchedIndices(scores, theirs);
    forall p | 0 <= p < |idx|
      ensures PairedWith(mine, theirs[idx[p]], Sample(mine, theirs)[p])
    {
      var m := theirs[idx[p]].movieId;
      var i :| 0 <= i < |mine| && mine[i].movieId == m && LastFor(mine, i) && scores[m] == mine[i].score;
      assert 0 <= i < |mine| && LastFor(mine, i) && mine[i].movieId == m &&
             s[p] == (mine[i].score, theirs[idx[p]].score);
    }
  }

  /** The sample is empty exactly when the two users share no movie; then similarity
      is the 0.0 sentinel, otherwise it is pearson of the sample. */
  lemma SimilarityCases(pearson: Pearson, mine: seq<Rating>, theirs: seq<Rating>)
    ensures Sample(mine, theirs) == [] <==>
              forall j :: 0 <= j < |theirs| ==> !Rated(mine, theirs[j].movieId)
    ensures (forall j :: 0 <= j < |theirs| ==> !Rated(mine, theirs[j].movieId)) ==>
              SimilarityOf(pearson, mine, theirs) == 0.0
    ensures (exists j :: 0 <= j < |theirs| && Rated(mine, theirs[j].movieId)) ==>
              SimilarityOf(pearson, mine, theirs) == pearson(Sample(mine, theirs))
  {
    SampleFromSameMovie(mine, theirs);
    var idx := MatchedIndices(ScoreMap(mine), theirs);
    if Sample(mine, theirs) != [] {
      assert Rated(mine, theirs[idx[0]].movieId);
    }
    if exists j :: 0 <= j < |theirs| && Rated(mine, theirs[j].movieId) {
      var j :| 0 <= j < |theirs| && Rated(mine, theirs[j].movieId);
      assert j in idx;
    }
  }

  // Symmetry of the sample

  /** No movie is rated twice in `ratings`. */
  predicate DistinctMovies(ratings: seq<Rating>)
  {
    forall i, j :: 0 <= i < j < |ratings| ==> ratings[i].movieId != ratings[j].movieId
  }

  /** The sample with the two components of every pair exchanged. */
  function Swapped(sample: seq<(int, int)>): seq<(int, int)>
  {
    seq(|sample|, p requires 0 <= p < |sample| => (sample[p].1, sample[p].0))
  }

  lemma DistinctPrefix(ratings: seq<Rating>)
    requires ratings != [] && DistinctMovies(ratings)
    ensures DistinctMovies(ratings[..|ratings| - 1])
  {
    var init := ratings[..|ratings| - 1];
    forall i, j | 0 <= i < j < |init| ensures init[i].movieId != init[j].movieId {
      assert init[i] == ratings[i] && init[j] == ratings[j];
    }
  }

  /** In a list that rates each movie once, the last movie is not among the earlier ones. */
  lemma LastMovieNew(ratings: seq<Rating>)
    requires ratings != [] && DistinctMovies(ratings)
    ensures ratings[|ratings| - 1].movieId !in ScoreMap(ratings[..|ratings| - 1])
  {
    var n := |ratings| - 1;
    var init := ratings[..n];
    ScoreMapKeys(init);
    forall i | 0 <= i < |init| ensures init[i].movieId != ratings[n].movieId {
      assert init[i] == ratings[i];
    }
  }

  /** The pair the movie `m` scored `v` contributes to the sample of `other`, if any. */
  function PairFor(m: int, v: int, other: seq<Rating>): multiset<(int, int)>
  {
    if m in ScoreMap(other) then multiset{(v, ScoreMap(other)[m])} else multiset{}
  }

  /** Adding a new movie to the dictionary adds at most one pair to the sample of a list
      that rates each movie once: the one for that movie. */
  lemma {:induction false} SampleOfExtendedScores(scores: map<int, int>, m: int, v: int, other: seq<Rating>)
    requires m !in scores
    requires DistinctMovies(other)
    ensures multiset(SharedSample(scores[m := v], other)) ==
            multiset(SharedSample(scores, other)) + PairFor(m, v, other)
  {
    if other != [] {
      DistinctPrefix(other);
      SampleOfExtendedScores(scores, m, v, other[..|other| - 1]);
      if other[|other| - 1].movieId == m {
        LastMovieNew(other);
        ExtendedScoresSameMovie(scores, m, v, other);
      } else {
        ExtendedScoresOtherMovie(scores, m, v, other);
      }
    }
  }

  /** The step of SampleOfExtendedScores when the last rating is for the new movie. */
  lemma ExtendedScoresSameMovie(scores: map<int, int>, m: int, v: int, other: seq<Rating>)
    requires m !in scores
    requires other != [] && other[|other| - 1].movieId == m
    requires m !in ScoreMap(other[..|other| - 1])
    requires multiset(SharedSample(scores[m := v], other[..|other| - 1])) ==
             multiset(SharedSample(scores, other[..|other| - 1])) + PairFor(m, v, other[..|other| - 1])
    ensures multiset(SharedSample(scores[m := v], other)) ==
            multiset(SharedSample(scores, other)) + PairFor(m, v, other)
  {
    var init, last := other[..|other| - 1], other[|other| - 1];
    assert SharedSample(scores, other) == SharedSample(scores, init);
    assert SharedSample(scores[m := v], other) == SharedSample(scores[m := v], init) + [(v, last.score)];
    assert PairFor(m, v, init) == multiset{};
    assert PairFor(m, v, other) == multiset{(v, last.score)};
  }

  /** The step of SampleOfExtendedScores when the last rating is for another movie. */
  lemma ExtendedScoresOtherMovie(scores: map<int, int>, m: int, v: int, other: seq<Rating>)
    requires m !in scores
    requires other != [] && other[|other| - 1].movieId != m
    requires multiset(SharedSample(scores[m := v], other[..|other| - 1])) ==
             multiset(SharedSample(scores, other[..|other| - 1])) + PairFor(m, v, other[..|other| - 1])
    ensures multiset(SharedSample(scores[m := v], other)) ==
            multiset(SharedSample(scores, other)) + PairFor(m, v, other)
  {
    var init, last := other[..|other| - 1], other[|other| - 1];
    var ext := if last.movieId in scores then [(scores[last.movieId], last.score)] else [];
    assert SharedSample(scores, other) == SharedSample(scores, init) + ext;
    assert SharedSample(scores[m := v], other) == SharedSample(scores[m := v], init) + ext;
    assert ScoreMap(other) == ScoreMap(init)[last.movieId := last.score];
    assert PairFor(m, v, other) == PairFor(m, v, init);
  }

  /** When neither user rates a movie twice, the two samples hold the same pairs, each
      exchanged, though in the order of different lists. */
  lemma {:induction false} SampleSwapSymmetric(mine: seq<Rating>, theirs: seq<Rating>)
    requires DistinctMovies(mine) && DistinctMovies(theirs)
    ensures multiset(Swapped(Sample(mine, theirs))) == multiset(Sample(theirs, mine))
  {
    if theirs != [] {
      var n := |theirs| - 1;
      var init, last := theirs[..n], theirs[n];
      DistinctPrefix(theirs);
      SampleSwapSymmetric(mine, init);
      LastMovieNew(theirs);
      SampleOfExtendedScores(ScoreMap(init), last.movieId, last.score, mine);
      SampleSwapStep(mine, theirs);
    } else {
      assert Sample(theirs, mine) == [] by {
        EmptyScoresSample(mine);
      }
    }
  }

  /** The step of SampleSwapSymmetric: the other user's last rating adds the same pair,
      exchanged, to both samples. */
  lemma SampleSwapStep(mine: seq<Rating>, theirs: seq<Rating>)
    requires theirs != []
    requires var init, last := theirs[..|theirs| - 1], theirs[|theirs| - 1];
      && multiset(Swapped(Sample(mine, init))) == multiset(Sample(init, mine))
      && multiset(SharedSample(ScoreMap(init)[last.movieId := last.score], mine)) ==
         multiset(SharedSample(ScoreMap(init), mine)) + PairFor(last.movieId, last.score, mine)
    ensures multiset(Swapped(Sample(mine, theirs))) == multiset(Sample(theirs, mine))
  {
    var init, last := theirs[..|theirs| - 1], theirs[|theirs| - 1];
    var s0 := Sample(mine, init);
    var ext := if last.movieId in ScoreMap(mine) then [(ScoreMap(mine)[last.movieId], last.score)] else [];
    assert Sample(mine, theirs) == s0 + ext;
    SwappedConcat(s0, ext);
    assert multiset(Swapped(ext)) == PairFor(last.movieId, last.score, mine);
    assert ScoreMap(theirs) == ScoreMap(init)[last.movieId := last.score];
    calc {
      multiset(Swapped(Sample(mine, theirs)));
      multiset(Swapped(s0)) + multiset(Swapped(ext));
      multiset(SharedSample(ScoreMap(init), mine)) + PairFor(last.movieId, last.score, mine);
      multiset(Sample(theirs, mine));
    }
  }

  lemma SwappedConcat(a: seq<(int, int)>, b: seq<(int, int)>)
    ensures Swapped(a + b) == Swapped(a) + Swapped(b)
  {
  }

  lemma {:induction false} EmptyScoresSample(other: seq<Rating>)
    ensures SharedSample(map[], other) == []
  {
    if other != [] {
      EmptyScoresSample(other[..|other| - 1]);
    }
  }

  /** pearson gives the same value on a sample and on any reordering of its exchanged
      pairs, as the correlation formula does on exact numbers. */
  ghost predicate PearsonSymmetric(pearson: Pearson)
  {
    forall s, t :: multiset(Swapped(s)) == multiset(t) ==> pearson(s) == pearson(t)
  }

  /** similarity(a, b) == similarity(b, a) when neither user rates a movie twice and
      pearson is symmetric and order-independent. */
  lemma SimilaritySymmetric(pearson: Pearson, mine: seq<Rating>, theirs: seq<Rating>)
    requires DistinctMovies(mine) && DistinctMovies(theirs)
    requires PearsonSymmetric(pearson)
    ensures SimilarityOf(pearson, mine, theirs) == SimilarityOf(pearson, theirs, mine)
  {
    SampleSwapSymmetric(mine, theirs);
    var s, t := Sample(mine, theirs), Sample(theirs, mine);
    assert |s| == |Swapped(s)| == |multiset(Swapped(s))| == |multiset(t)| == |t|;
  }

  /** When one user rates a movie twice the sample is not symmetric: this user's later
      score overwrites the earlier one, while the other user's scan sees both ratings. */
  lemma SampleAsymmetricWithRepeats()
    ensures var mine := [Rating(1, 1, 1), Rating(1, 1, 5), Rating(2, 1, 3)];
            var theirs := [Rating(1, 2, 2), Rating(2, 2, 4)];
            Sample(mine, theirs) == [(5, 2), (3, 4)] && Sample(theirs, mine) == [(2, 1), (2, 5), (4, 3)]
  {
    var mine := [Rating(1, 1, 1), Rating(1, 1, 5), Rating(2, 1, 3)];
    var theirs := [Rating(1, 2, 2), Rating(2, 2, 4)];
    assert mine[..2] == [Rating(1, 1, 1), Rating(1, 1, 5)];
    assert mine[..2][..1] == mine[..1] == [Rating(1, 1, 1)] && mine[..1][..0] == [];
    assert theirs[..1] == [Rating(1, 2, 2)] && theirs[..1][..0] == [];
    assert ScoreMap(mine[..1]) == map[1 := 1];
    assert ScoreMap(mine[..2]) == map[1 := 5];
    assert ScoreMap(mine) == map[1 := 5][2 := 3] == map[1 := 5, 2 := 3];
    assert ScoreMap(theirs[..1]) == map[1 := 2];
    assert ScoreMap(theirs) == map[1 := 2][2 := 4] == map[1 := 2, 2 := 4];
    assert SharedSample(map[1 := 5, 2 := 3], theirs[..1]) == [(5, 2)];
    assert SharedSample(map[1 := 2, 2 := 4], mine[..1]) == [(2, 1)];
    assert SharedSample(map[1 := 2, 2 := 4], mine[..2]) == [(2, 1), (2, 5)];
  }
}
