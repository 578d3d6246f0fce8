/**
 * A user: a name, the user's own rating map and a handle to the shared
 * recommendation engine. Adding a movie goes through the engine and then
 * records the rating; the recommendation and prediction getters delegate to
 * the engine with the user's ratings and never change them.
 */
module Users {
  import opened Options
  import opened Movies
  import opened Comparator
  import opened Similarity
  import opened Engine

  class User {
    const name: string
    var ranks: RankMap
    const rsm: RecommendationSystem

    /** The constructor stores the name, the rating map and the engine handle
        as given. */
    constructor (name: string, ranks: RankMap, rsm: RecommendationSystem)
      ensures this.name == name && this.ranks == ranks && this.rsm == rsm
    {
      this.name := name;
      this.ranks := ranks;
      this.rsm := rsm;
    }

    /** get_name: the stored name. */
    function GetName(): (r: string)
      ensures r == name
    {
      name
    }

    /** get_ranks: a copy of the rating map. A map is a value, so what the
        engine does with the copy cannot reach the user's own map. */
    function GetRanks(): (r: RankMap)
      reads this
      ensures r == ranks
    {
      ranks
    }

    /** add_movie_to_rs: add, or overwrite, the catalog entry for (name, year)
        and then set the user's rating of that movie to `rate`, replacing any
        earlier rating; the other ratings and catalog entries stay as they
        were. */
    method AddMovieToRs(movieName: string, year: int, features: Features, rate: real)
      requires rsm.Valid()
      modifies this, rsm
      ensures rsm.Valid()
      ensures ranks == old(ranks)[Movie(movieName, year) := rate]
      ensures rsm.db == old(rsm.db)[Ptr(Movie(movieName, year)) := features]
      ensures rsm.keys == Insert(old(rsm.keys), Ptr(Movie(movieName, year)))
      ensures rsm.GetMovie(movieName, year) == Ptr(Movie(movieName, year))
    {
      var m := rsm.AddMovie(movieName, year, features);
      ranks := ranks[m.movie := rate];
    }

    /** get_recommendation_by_content: the engine's content-based choice for
        this user's ratings. */
    method GetRecommendationByContent(sim: Sim) returns (best: MoviePtr)
      requires rsm.Valid() && |rsm.keys| > 0
      requires forall i :: 0 <= i < |rsm.keys| && Seen(rsm.keys[i], ranks) ==>
        |rsm.db[rsm.keys[i]]| <= |rsm.db[rsm.keys[0]]|
      ensures best == BestFit(rsm.keys, rsm.db, ranks, Preferences(rsm.keys, rsm.db, ranks), sim)
    {
      best := rsm.RecommendByContent(ranks, sim);
    }

    /** get_recommendation_by_cf: the engine's collaborative-filtering choice
        for this user's ratings and `k`; the catalog and the ratings stay as
        they were. */
    method GetRecommendationByCf(k: nat, sim: Sim) returns (best: MoviePtr)
      requires rsm.Valid()
      modifies rsm
      ensures rsm.Valid() && rsm.keys == old(rsm.keys) && rsm.db == old(rsm.db)
      ensures best == CfChoice(rsm.keys, rsm.db, ranks, k, sim)
      ensures best == Null <==> NoPositive(rsm.keys, rsm.db, ranks, k, sim)
    {
      best := rsm.RecommendByCf(ranks, k, sim);
    }

    /** get_prediction_score_for_movie: look (name, year) up, then predict its
        score; an absent movie is passed on as null, so the catalog may gain a
        null key with an empty feature vector, and it has no prediction. The
        ratings stay as they were. */
    method GetPredictionScoreForMovie(movieName: string, year: int, k: nat, sim: Sim) returns (score: Option<real>)
      requires rsm.Valid()
      modifies rsm
      ensures rsm.Valid()
      ensures var key := old(rsm.GetMovie(movieName, year));
        && (key == Ptr(Movie(movieName, year)) || key == Null)
        && rsm.keys == GrownKeys(old(rsm.keys), old(rsm.db), ranks, key)
        && rsm.db == GrownDb(old(rsm.keys), old(rsm.db), ranks, key)
        && score == Predict(old(rsm.keys), old(rsm.db), ranks, key, k, sim)
      ensures old(rsm.GetMovie(movieName, year)) == Null && old(Null !in rsm.db) && HasSeen(old(rsm.keys), ranks) ==>
        rsm.db == old(rsm.db)[Null := []] && Null in rsm.keys
      ensures old(rsm.GetMovie(movieName, year)) == Null ==> score == None
    {
      var key := rsm.GetMovie(movieName, year);
      score := rsm.PredictMovieScore(ranks, key, k, sim);
    }
  }
}
