/** The records the collaborative-filtering code of model.py works on. */
module Ratings {

  /** One row of the ratings table: a user's integer score for a movie. */
  datatype Rating = Rating(movieId: int, userId: int, score: int)

  /** The result of predict_rating: a predicted score, or None when there is none. */
  datatype Option<T> = None | Some(value: T)

  /** correlation.pearson is not part of this model: it stands for any function
      from a sample of (this user's score, other user's score) pairs to a real. */
  type Pearson = seq<(int, int)> -> real
}
