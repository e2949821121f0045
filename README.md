# Collaborative filtering of the ratings app, in Dafny

The ratings app is a movie-ratings website. Its one piece of real logic is two methods on `User` in `model.py`:

- `similarity(other_user)` puts this user's ratings in a dictionary keyed by movie id. A later rating of the same movie overwrites an earlier one. It then scans the other user's ratings in order and keeps a pair `(this user's score, other user's score)` for every movie this user has rated. An empty sample gives the sentinel `0.0`; otherwise the result is `pearson` of the sample.
- `predict_rating(movie)` pairs each rating of the movie with the similarity between this user and the rating's author. It sorts the pairs and keeps those with similarity strictly greater than 0. It returns `None` if none are left, and otherwise `Σ score·sim / Σ sim`.

The model has three modules:

- `Ratings` (`ratings.dfy`) holds the rating record `Rating(movieId, userId, score)`, an `Option` for the `None` result, and the type `Pearson` of the correlation function.
- `Similarity` (`similarity.dfy`) holds `User.similarity`. The method `Similarity` keeps the source's two loops: a `map` filled by the first loop and a `seq` appended to by the second. It is proved equal to the function `SimilarityOf`, which is built from `ScoreMap` (the dictionary) and `SharedSample` (the list). The lemmas state what the dictionary and the sample contain.
- `Prediction` (`prediction.dfy`) holds `User.predict_rating`. It is pure functions: `Similarities` (the comprehension), `Positive` (the filter), `Total` (Python's `sum`), `Aggregate` (the `None` case and the division) and `PredictRating`.

Where the Python reaches outside this code, the model takes a parameter instead:
- `correlation.pearson`: a parameter `pearson: seq<(int, int)> -> real`. Sample pairs are integer pairs because scores are integer columns.
- `r.user.ratings` (the ORM relationship): a parameter `ratingsOf: int -> seq<Rating>` from user id to that user's ratings.
- A user's or movie's `ratings` list: a `seq<Rating>` in the relationship's order (by rating id).

Scores are integers (`Rating.score: int`), and so are the sample pairs. Similarities, the two sums and the quotient are Dafny `real`, which is exact rational arithmetic; a score enters the numerator as `score as real`.

Three facts about the program that the model brings out:
- Similarity is not symmetric in general. When neither user has rated a movie twice, the two samples hold the same pairs, swapped, up to order (`SampleSwapSymmetric`). `SimilaritySymmetric` adds the hypothesis that `pearson` ignores swapping and reordering, and concludes similarity(a, b) == similarity(b, a). With a repeated rating the samples can differ: in `SampleAsymmetricWithRepeats` one user rates movie 1 twice (1, then 5) and movie 2 once (3), the other rates movie 1 with 2 and movie 2 with 4. The samples are [(5, 2), (3, 4)] and [(2, 1), (2, 5), (4, 3)]; an exact Pearson coefficient of these is -1 and 0 respectively (worked by hand; the model does not define Pearson).
- `predict_rating` does not exclude the user's own rating of the movie (model.py:63-70), and neither does the model.
- The sort's order among tied similarities is unspecified (model.py:73): it compares tuples holding ORM objects. The model treats the sort as an arbitrary permutation and proves it cannot change the result (`PredictIgnoresOrder`).

## Model

| member | source | states |
|---|---|---|
| Similarity.Similarity | model.py:28-56 | the dictionary loop and the pair-collecting loop compute exactly `SimilarityOf`: the 0.0 sentinel for an empty shared sample, else pearson of the sample |
| Similarity.ScoreMapKeys | model.py:37-39 | the dictionary's keys are exactly the movies this user has rated |
| Similarity.ScoreMapLastWins | model.py:38-39 | for every movie, the dictionary holds the score of the last rating of that movie in list order |
| Similarity.ScoreMapLastRating | model.py:38-39 | every dictionary entry is some movie's last rating in the list, with that rating's score |
| Similarity.SharedSampleMatches | model.py:43-49 | the sample is the in-order image of exactly the other user's ratings whose movie is in the dictionary; each pair is (dictionary score, other score) for one movie id |
| Similarity.SampleLengthBound | model.py:43-49 | the sample has at most as many pairs as the other user has ratings |
| Similarity.SampleFromSameMovie | model.py:38-49 | one pair per rating of the other user whose movie this user rated, in the other user's order (so no more pairs than the other user's ratings); the pair for that rating is this user's last score for its movie and the rating's own score |
| Similarity.SimilarityCases | model.py:52-56 | the sample is empty iff the users share no movie; then similarity is exactly 0.0, otherwise it is pearson of the sample |
| Similarity.SampleOfExtendedScores | model.py:38-49 | adding a new movie to the dictionary adds only that movie's pair to the sample of a user who rates each movie once |
| Similarity.SampleSwapSymmetric | model.py:38-49 | when neither user rates a movie twice, the two samples hold the same pairs, swapped, as multisets |
| Similarity.SimilaritySymmetric | model.py:28-56 | when neither user rates a movie twice and pearson ignores swapping and order, similarity(a, b) == similarity(b, a) |
| Similarity.SampleAsymmetricWithRepeats | model.py:38-49 | with one user rating a movie twice, the two samples are [(5, 2), (3, 4)] and [(2, 1), (2, 5), (4, 3)]: the samples differ, not merely in order |
| Prediction.Positive | model.py:77-78 | the filter keeps only pairs with similarity > 0, each one taken from the input list |
| Prediction.PositiveEmptyIff | model.py:77-82 | nothing is kept iff no similarity is positive |
| Prediction.PositiveMultiset | model.py:77-78 | each pair with positive similarity is kept as often as it occurs; every other pair is dropped |
| Prediction.WeightPositive | model.py:89 | a sum of positive similarities over a non-empty list is strictly positive |
| Prediction.TotalPermutation | model.py:86-89 | each sum is the same for any reordering of its list |
| Prediction.DenominatorPositive | model.py:77-92 | when a prediction is returned, the denominator Σ sim is strictly positive, so the division is defined |
| Prediction.NonPositiveIgnored | model.py:77-92 | inserting a pair with zero or negative similarity anywhere leaves the result unchanged |
| Prediction.AggregatePermutation | model.py:73-92 | the sort has no numeric effect: any permutation of the pairs gives the same result |
| Prediction.SinglePositive | model.py:77-92 | with exactly one positive-similarity pair, the result is that rating's score |
| Prediction.AggregateWithinRange | model.py:86-92 | the weighted average lies between the lowest and highest score |
| Prediction.PredictNoneIff | model.py:59-82 | predict_rating returns None iff no author of a rating of the movie has similarity > 0 with this user, including when the movie has no ratings |
| Prediction.PredictSingleNeighbour | model.py:59-92 | with exactly one qualifying rating, the prediction equals that rating's score |
| Prediction.PredictIgnoresOrder | model.py:67-92 | aggregating any reordering of the similarity list, including the source's sort with any tie-break, gives predict_rating's result |
| Prediction.PredictIgnoresNonPositive | model.py:67-89 | a rating whose author has similarity <= 0 contributes to neither sum: adding it to the movie's ratings changes nothing |
| Prediction.PredictWithinRange | model.py:59-92 | if all the movie's scores lie in [lo, hi], so does any prediction |

## Left out

- `correlation.pearson` is not part of this model. It is a function parameter with no properties. Only `SimilaritySymmetric` assumes one: invariance under swapping and reordering. Its zero-variance handling, clamping and bounds are not modelled.
- Floating point: similarities, sums and the quotient are exact reals, so rounding, NaN and infinities are not modelled.
- The in-place `similarities.sort(reverse=True)` is not performed. The order it produces is unspecified when similarities tie. Instead, `PredictIgnoresOrder` proves that every ordering gives the same prediction.
- The ORM and database code is not modelled, because it is storage plumbing. That includes the SQLAlchemy columns and relationships, the three `__repr__` methods and `connect_to_db`. Rating lists and the user lookup are parameters.
- `server.py` and `seed.py` are not modelled. They are web routing, sessions, templates and file import. Neither calls `similarity` or `predict_rating`.
