# Movie recommendation engine — a Dafny model

This project models the core of a small C++ movie-recommendation system. The
core is two classes.

`RecommendationSystem` owns the catalog. The catalog is an ordered map from
movie handles (`sp_movie`) to feature vectors, ordered by `movie_comparator`.
On top of it sit these routines:

- `add_movie` and `get_movie`;
- a cosine `similarity`;
- `avg` and `get_preferences`, which build a user's preference vector;
- `find_best_fit` and `recommend_by_content`, for content-based
  recommendation;
- `order_by_similarity`, `predict_movie_score` and `recommend_by_cf`, for
  item-based collaborative filtering.

`User` holds a name, the user's rating map (`rank_map`) and a handle to the
engine. Its methods delegate to the engine.

Files, one module each:

- `movie.dfy` (`Movies`): the movie value `(name, year)` and a strict total
  order on it. That order stands in for the movie type's own `operator<`.
- `comparator.dfy` (`Comparator`): the nullable handle `MoviePtr` and
  `movie_comparator`. It also holds the sorted key sequence that the ordered
  map iterates in, and insertion into that sequence.
- `similarity.dfy` (`Similarity`): the three sums of the similarity loop, and
  the cosine characterised without a square root.
- `selection.dfy` (`Selection`):
  - sorting by decreasing similarity, then truncating to the top k;
  - the argmax scan with a strict `>`, shared by `find_best_fit` and
    `recommend_by_cf`.
- `engine.dfy` (`Engine`):
  - the specification functions of every routine and the lemmas about them;
  - the class `RecommendationSystem`. Its fields are `keys` (the map's keys
    in iteration order) and `db` (the map itself). Its methods are proved
    against those functions.
- `user.dfy` (`Users`): the class `User`.
- `options.dfy` (`Options`): the `Option` type. `None` stands for a division
  that has no real value.

The catalog is the one piece of mutable state. These calls change it:

- `add_movie` and `User::add_movie_to_rs` add or overwrite an entry.
- `order_by_similarity`, and every routine that calls it, may add an entry.
  It reads the target through `_data_base[movie]`. When the target is absent,
  that subscript inserts it with an empty feature vector. The insertion
  happens at the first rated key of the scan. Because `std::map` iteration
  sees keys inserted ahead of it, the scan may then meet the target itself.
  The model follows this step by step (`Engine.Gathered`, `Engine.OrderScan`).

The engine routines take the user's rating map and the similarity function as
parameters. The code reads the rating map through `user.get_ranks()` and
calls the file-level `similarity` for the similarity.

In these places the model follows the code's behaviour:

- `find_best_fit` starts from the first catalog entry even when the user has
  rated it. That entry is returned when no unrated movie is strictly more
  similar.
- `recommend_by_cf` starts from a null handle and the score 0. A null key
  can enter the catalog only through the subscript in `order_by_similarity`,
  and then always with the empty vector. It is unrated and takes part in the
  scan, but its prediction has no value, so it never wins.
- `similarity` divides by the product of the two norms without a guard. A
  first vector of zero norm makes the quotient 0/0. Such a vector is the
  empty vector of an absent target or a null key, or preferences that are
  all zero. `Similarity.Similar` has no value then. `predict_movie_score` on
  such a target has no value, and `find_best_fit` with such preferences
  keeps the first catalog entry, since a comparison with NaN is false.
- `std::sort` is not stable. The contracts promise only what a sort
  guarantees: sorted, a permutation, and kept pairs at least as similar as
  dropped ones.
- `avg` and `predict_movie_score` divide without a guard. The model returns
  `None` where the divisor is zero (see "Left out").

## Model

| member | source | states |
|---|---|---|
| Movies.MovieLessIsStrictTotalOrder | RecommendationSystem.h:19-21 | the order used on non-null movies is irreflexive, transitive and total on (name, year) values |
| Comparator.ComparatorIsStrictTotalOrder | RecommendationSystem.h:15-24 | null precedes every movie; nothing precedes null (null vs null is false); the comparator is irreflexive, asymmetric, transitive and total on handles |
| Comparator.EquivalentKeysAreEqual | RecommendationSystem.h:19-21 | two handles are equivalent map keys (neither precedes the other) exactly when they point to equal (name, year) values or are both null |
| Comparator.SortedKeys | RecommendationSystem.h:27-28 | the map's iteration order holds each key once; its first entry is the least key, and a null key comes first |
| Comparator.LowerBoundSpec | RecommendationSystem.h:27-28 | the insertion position of a key: every key before it precedes the new key, the key at it does not |
| Comparator.InsertSpec | RecommendationSystem.h:27-28 | inserting into the ordered map keeps the keys sorted, adds exactly the new key, keeps an equivalent key already present, and grows the map by one otherwise |
| Similarity.SimilarityTerms | RecommendationSystem.cpp:27-35 | the loop over the first vector's indices yields the dot product and the two squared norms, reading the second vector only at those indices |
| Similarity.DotSymmetric | RecommendationSystem.cpp:30-35 | for equal lengths the numerator does not depend on the order of the two vectors |
| Similarity.DotPrefix | RecommendationSystem.cpp:30-32 | the loop reads the second vector only at indices of the first |
| Similarity.NormNonNegative | RecommendationSystem.cpp:33-34 | each squared norm is at least 0 |
| Similarity.CosineUnique | RecommendationSystem.cpp:36 | the value numerator / (sqrt(norm1) * sqrt(norm2)) is determined by the two vectors when both norms are non-zero |
| Similarity.CosineSymmetric | RecommendationSystem.cpp:23-37 | similarity(a, b) == similarity(b, a) for non-zero vectors of equal length |
| Similarity.CosineSelf | RecommendationSystem.cpp:23-37 | a non-zero vector has similarity 1 with itself |
| Selection.InsertBySimilaritySorted | RecommendationSystem.cpp:16-21 | inserting a pair into a list sorted by decreasing similarity keeps it sorted |
| Selection.InsertBySimilarityPermutes | RecommendationSystem.cpp:57-58 | that insertion adds exactly the one pair |
| Selection.SortBySimilaritySpec | RecommendationSystem.cpp:57-58 | the sort under compute_by_similarity yields a permutation of its input in non-increasing similarity |
| Selection.TopKSpec | RecommendationSystem.cpp:57-65 | the returned list has min(k, n) pairs, is in non-increasing similarity, is drawn from the gathered pairs, and every kept pair is at least as similar as every sorted pair erased from position k on |
| Selection.SortedPrefix | RecommendationSystem.cpp:63-64 | erasing from position k on leaves a sorted list drawn from the original, at least as similar as what was erased |
| Selection.TopKMembers | RecommendationSystem.cpp:57-65 | every returned pair was gathered |
| Selection.TopKDropped | RecommendationSystem.cpp:57-65 | no gathered pair left out is more similar than any pair returned |
| Selection.TopKDistinct | RecommendationSystem.cpp:57-65 | sorting and erasing never makes a movie appear twice |
| Selection.SortDistinct | RecommendationSystem.cpp:57-58 | sorting keeps the movies distinct |
| Selection.InsertDistinct | RecommendationSystem.cpp:57-58 | inserting a new movie into a list of distinct movies keeps them distinct |
| Selection.TopKSaturates | RecommendationSystem.cpp:59-62 | when fewer than k pairs were gathered, all of them are returned (as a permutation) |
| Selection.ScanStep | RecommendationSystem.cpp:113-126 | one step of the argmax scan: an unrated key replaces the current choice only on a strictly greater score |
| Selection.ScanSpec | RecommendationSystem.cpp:144-157 | the final score is at least the initial one, and when equal the initial choice is kept; no participating score exceeds the final one; a greater final score belongs to a participating key, and every participating key before it scores strictly less (the earliest wins on ties) |
| Engine.CandidatesMembers | RecommendationSystem.cpp:46-55 | the scan collects a pair for a key exactly when the user rated it, paired with its similarity to the target |
| Engine.CandidatesDistinct | RecommendationSystem.cpp:46-55 | over distinct keys the collected movies are distinct |
| Engine.CandidatesKeys | RecommendationSystem.cpp:46-55 | the collected movies are exactly the rated keys scanned |
| Engine.FirstSeenSpec | RecommendationSystem.cpp:46-50 | no key before the first rated key is rated |
| Engine.FirstSeenAt | RecommendationSystem.cpp:46-50 | a rated key with no rated key before it is the first rated key |
| Engine.InsertAtFirstSeen | RecommendationSystem.cpp:49-52 | the subscript on an absent target, at the first rated key, inserts it at its ordered position; the scan then stands one further on when the target lands before that key |
| Engine.OrderScanDone | RecommendationSystem.cpp:46-55 | the scan loop ends with the grown catalog and exactly the gathered pairs |
| Engine.PairKeysCount | RecommendationSystem.cpp:53 | a list of distinct movies has as many pairs as movies |
| Engine.GatheredSpec | RecommendationSystem.cpp:43-55 | the gathered movies are distinct, rated keys of the grown catalog, each with its similarity to the target's vector (empty when inserted); they are every rated catalog key, plus the target exactly when it joins the scan; their number is that of those movies |
| Engine.RanksSpec | RecommendationSystem.cpp:43-66 | order_by_similarity returns distinct rated movies of the grown catalog, min(k, number of such movies) of them, in non-increasing similarity, none left out more similar than one kept |
| Engine.SumOfPermutation | RecommendationSystem.cpp:169-173 | the sums over the ranked list do not depend on its order |
| Engine.WeightedAveragePermutation | RecommendationSystem.cpp:167-174 | the predicted score does not depend on the order of the ranked list, so not on how std::sort orders ties among the kept pairs |
| Engine.WeightedAverageOf | RecommendationSystem.cpp:167-174 | the accumulation loop computes Σ sim·rating / Σ sim over the list, or None when Σ sim is 0 |
| Engine.UndefinedTarget | RecommendationSystem.cpp:161-175 | an absent target, a target with the empty vector, and any target of zero norm have no predicted score, since every similarity to them is 0/0 |
| Engine.PredictSaturates | RecommendationSystem.cpp:161-175 | with k at least the number of gathered movies, the prediction of a target of non-zero norm is the weighted average over all of them; a zero-norm target has none |
| Engine.TopOne | RecommendationSystem.cpp:57-65 | with k = 1 the one kept pair is gathered and most similar, and the average over it is its rating when its similarity is non-zero |
| Engine.AverageOfOne | RecommendationSystem.cpp:169-174 | the weighted average over one pair of non-zero similarity is that movie's rating |
| Engine.NearestNeighbour | RecommendationSystem.cpp:161-175 | with k = 1, a non-zero top similarity and a target of non-zero norm, the prediction is the rating of the most similar rated movie |
| Engine.SumValuesRemove | RecommendationSystem.cpp:71-74 | the sum of the ratings does not depend on the unordered map's iteration order |
| Engine.NoSeenGivesZero | RecommendationSystem.cpp:85-99 | with no rated catalog key the preference vector is all zeros |
| Engine.RatingMovesPreference | RecommendationSystem.cpp:91-97 | accumulating one more rated catalog key strictly raises the preference at each index where the movie's feature is positive when its rating is above the mean, and strictly lowers it when the rating is below the mean |
| Engine.PreferencesExample | RecommendationSystem.cpp:78-101 | catalog A [1,0], B [0,1], C [1,1] with ratings A=5, B=1: mean 3 and preferences [2, -2] |
| Engine.AddContribution | RecommendationSystem.cpp:91-97 | the inner loop adds f[i] * (rating - avg) at each index i of the movie's features and leaves later indices alone |
| Engine.BestFitSpec | RecommendationSystem.cpp:103-128 | the best fit is a catalog key; it is the first entry (even when rated) unless an unrated key is strictly more similar; with preferences of zero norm it is the first entry; otherwise no unrated key is more similar than it; every unrated key before it is strictly less similar |
| Engine.CfChoiceSpec | RecommendationSystem.cpp:137-159 | the result is null exactly when no unrated key has a positive prediction; a non-null result is an unrated key with a positive prediction, at least every other defined unrated prediction, and strictly above every unrated key before it |
| Engine.RecommendationSystem.constructor | RecommendationSystem.h:71 | the engine starts with an empty catalog |
| Engine.RecommendationSystem.AddMovie | RecommendationSystem.cpp:7-14 | the catalog maps (name, year) to exactly the given features, overwriting a duplicate key; other entries are unchanged; the key order stays sorted; get_movie then finds the key |
| Engine.RecommendationSystem.GetMovie | RecommendationSystem.cpp:177-187 | reads only; null exactly when no catalog key equals (name, year), otherwise the catalog's key |
| Engine.RecommendationSystem.Avg | RecommendationSystem.cpp:68-76 | the sum of the ratings divided by their number; None exactly for an empty map |
| Engine.RecommendationSystem.GetPreferences | RecommendationSystem.cpp:78-101 | a vector as long as the first entry's features whose index j is Σ over rated catalog keys of f[j] * (rating - mean); unrated keys add nothing |
| Engine.RecommendationSystem.FindBestFit | RecommendationSystem.cpp:103-128 | the argmax scan from the first entry; the result is that entry or an unrated key strictly more similar; with zero-norm preferences it is that entry, otherwise no unrated key is more similar |
| Engine.RecommendationSystem.RecommendByContent | RecommendationSystem.cpp:130-135 | the best fit to the preference vector built from the user's ratings |
| Engine.RecommendationSystem.OrderBySimilarity | RecommendationSystem.cpp:39-66 | the catalog gains the target with an empty vector exactly when it was absent and some key is rated, and is otherwise unchanged; the result is the top k of the gathered pairs |
| Engine.RecommendationSystem.PredictMovieScore | RecommendationSystem.cpp:161-175 | the weighted average over order_by_similarity's list, with the same effect on the catalog; a catalog key leaves the catalog unchanged; an absent target or the null key has no prediction |
| Engine.RecommendationSystem.PredictCatalogMovie | RecommendationSystem.cpp:150 | predicting a catalog key leaves the catalog unchanged |
| Engine.RecommendationSystem.RecommendByCf | RecommendationSystem.cpp:137-159 | the argmax scan over unrated keys from null and 0, with a strict >; the catalog is left unchanged; null exactly when no unrated key has a positive prediction, otherwise the earliest unrated key with the greatest one |
| Users.User.constructor | User.h:29-31 | stores the name, rating map and engine handle as given |
| Users.User.GetName | User.h:37-40 | returns the stored name and reads nothing else |
| Users.User.GetRanks | User.h:57-60 | returns a value equal to the rating map; a value copy, so later changes to it cannot reach the user |
| Users.User.AddMovieToRs | User.cpp:10-16 | the catalog entry for (name, year) gets the features and the user's rating for it becomes `rate`, both overwriting; other ratings and entries are unchanged |
| Users.User.GetRecommendationByContent | User.cpp:18-21 | the engine's content-based recommendation for the user's own ratings |
| Users.User.GetRecommendationByCf | User.cpp:23-26 | the engine's CF recommendation for the user's ratings and k, null exactly when no unrated movie has a positive prediction; catalog and ratings unchanged |
| Users.User.GetPredictionScoreForMovie | User.cpp:28-35 | looks the movie up and predicts it, passing null when absent; the catalog may then gain a null key with an empty vector, and there is no prediction; the ratings are unchanged |

## Left out

- `operator<<` for the engine and for `User`: stream output only.
- Floating point. Doubles are `real`. `similarity` is an abstract parameter
  `sim` of type `Sim`:
  - the square root in its last step is characterised by `IsCosine` rather
    than computed;
  - NaN is modelled only where a zero-norm first vector makes the similarity
    0/0 (`Similarity.Similar`, `Engine.Predict`) and where a division by zero
    gives `None`; other infinities and NaNs are not modelled;
  - a second vector of zero norm (a movie whose features are all zero) also
    makes the code's similarity NaN; the model takes the value of `sim`
    there;
  - a zero or empty vector has no cosine, and `IsCosine` does not hold for it.
- `Engine.RecommendationSystem.Avg`: for an empty map the code divides 0 by 0.
  The model returns `None` instead of NaN. `get_preferences` never uses that
  value, because then no key is rated.
- `Engine.WeightedAverage`: a zero denominator gives `None`. The code gives NaN
  or an infinity. `recommend_by_cf` never picks `None`. The code would pick
  a `+inf` score (a positive numerator over a zero sum of similarities);
  the model does not.
- `Engine.RecommendationSystem.OrderBySimilarity`: when the target has zero
  norm, the code's similarities are all NaN, so `compute_by_similarity` holds
  for no pair and which pairs `std::sort` leaves in front is unspecified. The
  model pairs each movie with the value of `sim` and sorts by it. In that
  case only the collected movies, the length of the list and the missing
  prediction are faithful.
- `std::sort` is not stable. It is modelled by a fixed insertion sort. When
  pairs of equal similarity straddle position k, the code may keep a
  different one of them than `Selection.TopK` does. The contracts rely only
  on sortedness and permutation, and `Engine.WeightedAveragePermutation`
  shows that the order of the kept pairs does not matter. The choice among
  ties at the cut-off is still fixed by the model.
- `shared_ptr` identity: `add_movie` returns a fresh pointer that may differ
  from the stored key. Handles are modelled as values (`MoviePtr`).
- `Movie.h` (the movie's `operator<`, `hash_func`, `equal_func`, printing) is
  not part of this model:
  - the order is a stand-in (year, then title). The proofs use only that it
    is a strict total order, except `Engine.PreferencesExample`: its catalog
    order A, B, C is the order of the stand-in;
  - a null handle is never treated as a rated movie.
- Sharing of one engine between several users. Each `User` holds a reference
  to one `RecommendationSystem` object. Nothing is proved about the engine
  states that other users see.
- Undefined behaviour becomes preconditions:
  - `k` is a `nat`, since a negative `k` passed to `erase` is undefined;
  - `get_preferences`, `find_best_fit` and `recommend_by_content` require a
    non-empty catalog (`begin()`);
  - `get_preferences` requires that no rated key has more features than the
    first entry, since the write would go past the end of the vector;
  - `SimilarityTerms` requires the second vector to be at least as long as
    the first.
- The engine routines take the rating map rather than a `User`. That map is
  all of the `User` they read.
- `Engine.RecommendationSystem.GetPreferences`: the result is stated in terms
  of the mean of the ratings (`Engine.Mean`), a ghost function that sums the
  map in an unspecified order.
