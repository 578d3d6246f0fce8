/**
 * The recommendation engine: a catalog from movie handles to feature vectors,
 * kept as an ordered map (its key sequence in comparator order plus the
 * map itself), and the content-based and collaborative-filtering routines that
 * read it. Every routine receives the user's rating map (a copy) and the
 * similarity function; none of them changes the rating map.
 */
module Engine {
  import opened Options
  import opened Movies
  import opened Comparator
  import opened Similarity
  import opened Selection

  type Features = seq<real>

  /** A user's ratings: at most one rating per movie. */
  type RankMap = map<Movie, real>

  /** A catalog key the user has rated. A null key is never rated. */
  predicate Seen(key: MoviePtr, ratings: RankMap)
  {
    key.Ptr? && key.movie in ratings
  }

  /** The rating read through the rating map's subscript operator, which yields
      0 for a movie without a rating. */
  function RatingOf(ratings: RankMap, m: Movie): real
  {
    if m in ratings then ratings[m] else 0.0
  }

  // ---------------------------------------------------------------------------
  // Specification of order_by_similarity
  // ---------------------------------------------------------------------------

  /** The (seen movie, similarity to `target`) pairs the scan over `ks` collects,
      in the order of `ks`. */
  function Candidates(ks: seq<MoviePtr>, target: Features, db: map<MoviePtr, Features>,
                      ratings: RankMap, sim: Sim): (c: seq<(Movie, real)>)
    requires forall key :: key in ks ==> key in db
  {
    if ks == [] then []
    else
      var n := |ks| - 1;
      assert forall key :: key in ks[..n] ==> key in ks;
      var rest := Candidates(ks[..n], target, db, ratings, sim);
      if Seen(ks[n], ratings) then rest + [(ks[n].movie, sim(target, db[ks[n]]))] else rest
  }

  /** The scan collects exactly the rated keys, each with its similarity to
      the target. */
  lemma {:induction false} CandidatesMembers(ks: seq<MoviePtr>, target: Features, db: map<MoviePtr, Features>,
                                               ratings: RankMap, sim: Sim)
    requires forall key :: key in ks ==> key in db
    ensures var c := Candidates(ks, target, db, ratings, sim);
      && (forall e :: e in c ==> Ptr(e.0) in ks && e.0 in ratings && e.1 == sim(target, db[Ptr(e.0)]))
      && (forall key :: key in ks && Seen(key, ratings) ==> (key.movie, sim(target, db[key])) in c)
  {
    if ks != [] {
      var n := |ks| - 1;
      assert forall key :: key in ks[..n] ==> key in ks;
      CandidatesMembers(ks[..n], target, db, ratings, sim);
      assert forall key :: key in ks ==> key in ks[..n] || key == ks[n];
    }
  }

  lemma {:induction false} CandidatesDistinct(ks: seq<MoviePtr>, target: Features,
                                                db: map<MoviePtr, Features>, ratings: RankMap, sim: Sim)
    requires forall key :: key in ks ==> key in db
    requires forall i, j :: 0 <= i < j < |ks| ==> ks[i] != ks[j]
    ensures KeysDistinct(Candidates(ks, target, db, ratings, sim))
  {
    if ks != [] {
      var n := |ks| - 1;
      assert forall key :: key in ks[..n] ==> key in ks;
      CandidatesDistinct(ks[..n], target, db, ratings, sim);
      CandidatesMembers(ks[..n], target, db, ratings, sim);
      var rest := Candidates(ks[..n], target, db, ratings, sim);
      forall e | e in rest ensures Ptr(e.0) != ks[n] {
        assert Ptr(e.0) in ks[..n];
      }
    }
  }

  /** One more key at the end of the scanned slice adds its pair when rated. */
  lemma CandidatesStep(ks: seq<MoviePtr>, a: nat, i: nat, target: Features,
                       db: map<MoviePtr, Features>, ratings: RankMap, sim: Sim)
    requires a <= i < |ks|
    requires forall key :: key in ks ==> key in db
    ensures forall key :: key in ks[a..i] ==> key in db
    ensures forall key :: key in ks[a..i + 1] ==> key in db
    ensures Candidates(ks[a..i + 1], target, db, ratings, sim) ==
      Candidates(ks[a..i], target, db, ratings, sim) +
      (if Seen(ks[i], ratings) then [(ks[i].movie, sim(target, db[ks[i]]))] else [])
  {
    assert forall key :: key in ks[a..i] ==> key in ks;
    assert forall key :: key in ks[a..i + 1] ==> key in ks;
    assert ks[a..i + 1][..i - a] == ks[a..i];
  }

  /** Inserting the absent target at the first rated key: how the key sequence
      grows and where the scan then stands. */
  lemma InsertAtFirstSeen(ks: seq<MoviePtr>, db: map<MoviePtr, Features>, ratings: RankMap, movie: MoviePtr, i: nat)
    requires StrictlySorted(ks) && (forall key :: key in db <==> key in ks)
    requires movie !in db
    requires i < |ks| && Seen(ks[i], ratings)
    requires forall j :: 0 <= j < i ==> !Seen(ks[j], ratings)
    ensures HasSeen(ks, ratings) && FirstSeen(ks, ratings) == i
    ensures var p := LowerBound(ks, movie);
      && Insert(ks, movie) == ks[..p] + [movie] + ks[p..]
      && VisitStart(ks, ratings, movie) == (if p <= i then i + 1 else i)
      && Insert(ks, movie)[VisitStart(ks, ratings, movie)] == ks[i]
  {
    FirstSeenAt(ks, ratings, i);
    assert movie !in ks;
    InsertAbsent(ks, movie);
    var p := LowerBound(ks, movie);
    var grown := ks[..p] + [movie] + ks[p..];
    if p <= i {
      assert grown[i + 1] == ks[i];
    } else {
      assert grown[i] == ks[i];
    }
  }

  /** A rated key with no rated key before it is the first rated key. */
  lemma FirstSeenAt(ks: seq<MoviePtr>, ratings: RankMap, i: nat)
    requires i < |ks| && Seen(ks[i], ratings)
    requires forall j :: 0 <= j < i ==> !Seen(ks[j], ratings)
    ensures HasSeen(ks, ratings) && FirstSeen(ks, ratings) == i
  {
    assert HasSeen(ks, ratings);
    FirstSeenSpec(ks, ratings);
    var q := FirstSeen(ks, ratings);
    assert !(q < i) && !(i < q);
  }

  /** An absent key is inserted at its lower bound. */
  lemma InsertAbsent(ks: seq<MoviePtr>, movie: MoviePtr)
    requires movie !in ks
    ensures var p := LowerBound(ks, movie); Insert(ks, movie) == ks[..p] + [movie] + ks[p..]
  {
    var p := LowerBound(ks, movie);
    assert p < |ks| ==> ks[p] != movie;
  }

  /** Whether some catalog key is rated. */
  predicate HasSeen(ks: seq<MoviePtr>, ratings: RankMap)
  {
    exists i :: 0 <= i < |ks| && Seen(ks[i], ratings)
  }

  /** The position of the first rated key. */
  function FirstSeen(ks: seq<MoviePtr>, ratings: RankMap): (q: nat)
    requires HasSeen(ks, ratings)
    ensures q < |ks| && Seen(ks[q], ratings)
  {
    if Seen(ks[0], ratings) then 0
    else
      assert HasSeen(ks[1..], ratings) by {
        var i :| 0 <= i < |ks| && Seen(ks[i], ratings);
        assert ks[1..][i - 1] == ks[i];
      }
      1 + FirstSeen(ks[1..], ratings)
  }

  /** No key before the first rated one is rated. */
  lemma {:induction false} FirstSeenSpec(ks: seq<MoviePtr>, ratings: RankMap)
    requires HasSeen(ks, ratings)
    ensures forall j :: 0 <= j < FirstSeen(ks, ratings) ==> !Seen(ks[j], ratings)
  {
    if !Seen(ks[0], ratings) {
      assert HasSeen(ks[1..], ratings) by {
        var i :| 0 <= i < |ks| && Seen(ks[i], ratings);
        assert ks[1..][i - 1] == ks[i];
      }
      FirstSeenSpec(ks[1..], ratings);
      forall j | 0 < j < FirstSeen(ks, ratings) ensures !Seen(ks[j], ratings) {
        assert ks[j] == ks[1..][j - 1];
      }
    }
  }

  /** The catalog keys after order_by_similarity: the subscript on the target
      inserts it, with an empty feature vector, when it is absent; that
      subscript is evaluated only once a rated key has been reached. */
  function GrownKeys(ks: seq<MoviePtr>, db: map<MoviePtr, Features>, ratings: RankMap, movie: MoviePtr): seq<MoviePtr>
  {
    if movie !in db && HasSeen(ks, ratings) then Insert(ks, movie) else ks
  }

  function GrownDb(ks: seq<MoviePtr>, db: map<MoviePtr, Features>, ratings: RankMap, movie: MoviePtr): map<MoviePtr, Features>
  {
    if movie !in db && HasSeen(ks, ratings) then db[movie := []] else db
  }

  /** Where the scan stands, in the grown key sequence, when it reaches the
      first rated key: one further on when the target was inserted before it. */
  function VisitStart(ks: seq<MoviePtr>, ratings: RankMap, movie: MoviePtr): nat
    requires HasSeen(ks, ratings)
  {
    var q := FirstSeen(ks, ratings);
    if LowerBound(ks, movie) <= q then q + 1 else q
  }

  /** The pairs order_by_similarity collects before sorting. With the target
      in the catalog: every rated key with its similarity to the target. With
      the target absent: nothing when no key is rated; otherwise the scan goes
      on from the first rated key through the grown catalog, comparing against
      the target's new empty vector, and so also meets the target itself when it
      was inserted after that key. */
  function Gathered(ks: seq<MoviePtr>, db: map<MoviePtr, Features>, ratings: RankMap,
                    movie: MoviePtr, sim: Sim): seq<(Movie, real)>
    requires forall key :: key in ks ==> key in db
  {
    if movie in db then Candidates(ks, db[movie], db, ratings, sim)
    else if !HasSeen(ks, ratings) then []
    else
      var p := LowerBound(ks, movie);
      var grown := ks[..p] + [movie] + ks[p..];
      var start := VisitStart(ks, ratings, movie);
      assert forall key :: key in grown ==> key in ks || key == movie;
      assert start <= |grown|;
      assert forall key :: key in grown[start..] ==> key in grown;
      Candidates(grown[start..], [], db[movie := []], ratings, sim)
  }

  /** The state of order_by_similarity's scan after `i` steps, over the
      catalog (ks, db) that was (K0, D0) when the scan began: with the target
      present nothing changes and the pairs of the first `i` keys are
      collected; with the target absent and not yet inserted no rated key has
      been met; once it is inserted the pairs collected are those of the keys
      from `start`, the first rated key, up to `i`. */
  ghost predicate OrderScan(K0: seq<MoviePtr>, D0: map<MoviePtr, Features>, ratings: RankMap, movie: MoviePtr, sim: Sim,
                            ks: seq<MoviePtr>, db: map<MoviePtr, Features>, i: nat, start: nat,
                            gathered: seq<(Movie, real)>)
  {
    && StrictlySorted(ks) && (forall key :: key in db <==> key in ks) && i <= |ks|
    && StrictlySorted(K0) && (forall key :: key in D0 <==> key in K0)
    && (movie in D0 ==>
          ks == K0 && db == D0 && gathered == Candidates(K0[..i], D0[movie], D0, ratings, sim))
    && (movie !in D0 && movie !in db ==>
          ks == K0 && db == D0 && gathered == [] && forall j :: 0 <= j < i ==> !Seen(K0[j], ratings))
    && (movie !in D0 && movie in db ==>
          && HasSeen(K0, ratings)
          && ks == Insert(K0, movie) && db == D0[movie := []]
          && start == VisitStart(K0, ratings, movie) && start <= i
          && gathered == Candidates(ks[start..i], [], db, ratings, sim))
  }

  lemma OrderScanInit(K0: seq<MoviePtr>, D0: map<MoviePtr, Features>, ratings: RankMap, movie: MoviePtr, sim: Sim)
    requires StrictlySorted(K0) && (forall key :: key in D0 <==> key in K0)
    ensures OrderScan(K0, D0, ratings, movie, sim, K0, D0, 0, 0, [])
  {
    assert K0[..0] == [];
  }

  /** A key the user has not rated adds nothing. */
  lemma OrderScanUnseen(K0: seq<MoviePtr>, D0: map<MoviePtr, Features>, ratings: RankMap, movie: MoviePtr, sim: Sim,
                        ks: seq<MoviePtr>, db: map<MoviePtr, Features>, i: nat, start: nat,
                        gathered: seq<(Movie, real)>, i': nat)
    requires OrderScan(K0, D0, ratings, movie, sim, ks, db, i, start, gathered)
    requires i < |ks| && !Seen(ks[i], ratings) && i' == i + 1
    ensures OrderScan(K0, D0, ratings, movie, sim, ks, db, i', start, gathered)
  {
    if movie in D0 {
      CandidatesStep(K0, 0, i, D0[movie], D0, ratings, sim);
      assert K0[0..i] == K0[..i] && K0[0..i + 1] == K0[..i + 1];
    } else if movie in db {
      CandidatesStep(ks, start, i, [], db, ratings, sim);
    }
  }

  /** A rated key, with the target already in the catalog, adds its pair. */
  lemma OrderScanSeen(K0: seq<MoviePtr>, D0: map<MoviePtr, Features>, ratings: RankMap, movie: MoviePtr, sim: Sim,
                      ks: seq<MoviePtr>, db: map<MoviePtr, Features>, i: nat, start: nat,
                      gathered: seq<(Movie, real)>, i': nat, gathered': seq<(Movie, real)>)
    requires OrderScan(K0, D0, ratings, movie, sim, ks, db, i, start, gathered)
    requires i < |ks| && Seen(ks[i], ratings) && movie in db
    requires i' == i + 1 && gathered' == gathered + [(ks[i].movie, sim(db[movie], db[ks[i]]))]
    ensures OrderScan(K0, D0, ratings, movie, sim, ks, db, i', start, gathered')
  {
    if movie in D0 {
      CandidatesStep(K0, 0, i, D0[movie], D0, ratings, sim);
      assert K0[0..i] == K0[..i] && K0[0..i + 1] == K0[..i + 1];
    } else {
      CandidatesStep(ks, start, i, [], db, ratings, sim);
    }
  }

  /** The first rated key with the target absent: the target is inserted, the
      scan position moves past it when it lands before the current key, and the
      current key's pair is collected against the new empty vector. */
  lemma OrderScanInsert(K0: seq<MoviePtr>, D0: map<MoviePtr, Features>, ratings: RankMap, movie: MoviePtr, sim: Sim,
                        ks: seq<MoviePtr>, db: map<MoviePtr, Features>, i: nat, start: nat,
                        gathered: seq<(Movie, real)>,
                        p: nat, i': nat, ks': seq<MoviePtr>, db': map<MoviePtr, Features>,
                        next: nat, gathered': seq<(Movie, real)>)
    requires OrderScan(K0, D0, ratings, movie, sim, ks, db, i, start, gathered)
    requires i < |ks| && Seen(ks[i], ratings) && movie !in db
    requires p == LowerBound(ks, movie) && i' == (if p <= i then i + 1 else i)
    requires ks' == Insert(ks, movie) && db' == db[movie := []]
    requires next == i' + 1 && gathered' == gathered + [(ks[i].movie, sim(db'[movie], db'[ks[i]]))]
    ensures |ks'| == |ks| + 1
    ensures OrderScan(K0, D0, ratings, movie, sim, ks', db', next, i', gathered')
  {
    InsertAtFirstSeen(ks, db, ratings, movie, i);
    InsertSpec(ks, movie);
    assert ks'[i'..i'] == [];
    CandidatesStep(ks', i', i', [], db', ratings, sim);
  }

  /** One step of the scan, from the state before it to the state after it. */
  lemma OrderScanStep(K0: seq<MoviePtr>, D0: map<MoviePtr, Features>, ratings: RankMap, movie: MoviePtr, sim: Sim,
                      ks: seq<MoviePtr>, db: map<MoviePtr, Features>, i: nat, start: nat,
                      gathered: seq<(Movie, real)>,
                      ks': seq<MoviePtr>, db': map<MoviePtr, Features>, i': nat, start': nat,
                      gathered': seq<(Movie, real)>)
    requires OrderScan(K0, D0, ratings, movie, sim, ks, db, i, start, gathered)
    requires i < |ks|
    requires if !Seen(ks[i], ratings) then
        ks' == ks && db' == db && i' == i + 1 && start' == start && gathered' == gathered
      else if movie in db then
        && ks' == ks && db' == db && i' == i + 1 && start' == start
        && gathered' == gathered + [(ks[i].movie, sim(db[movie], db[ks[i]]))]
      else
        && ks' == Insert(ks, movie) && db' == db[movie := []]
        && start' == (if LowerBound(ks, movie) <= i then i + 1 else i) && i' == start' + 1
        && gathered' == gathered + [(ks[i].movie, sim(db'[movie], db'[ks[i]]))]
    ensures OrderScan(K0, D0, ratings, movie, sim, ks', db', i', start', gathered')
  {
    if !Seen(ks[i], ratings) {
      OrderScanUnseen(K0, D0, ratings, movie, sim, ks', db', i, start', gathered', i');
    } else if movie in db {
      OrderScanSeen(K0, D0, ratings, movie, sim, ks', db', i, start', gathered, i', gathered');
    } else {
      OrderScanInsert(K0, D0, ratings, movie, sim, ks, db, i, start, gathered,
                      LowerBound(ks, movie), start', ks', db', i', gathered');
    }
  }

  /** At the end of the scan: the grown catalog and the gathered pairs. */
  lemma OrderScanDone(K0: seq<MoviePtr>, D0: map<MoviePtr, Features>, ratings: RankMap, movie: MoviePtr, sim: Sim,
                      ks: seq<MoviePtr>, db: map<MoviePtr, Features>, i: nat, start: nat,
                      gathered: seq<(Movie, real)>)
    requires OrderScan(K0, D0, ratings, movie, sim, ks, db, i, start, gathered)
    requires i == |ks|
    ensures ks == GrownKeys(K0, D0, ratings, movie) && db == GrownDb(K0, D0, ratings, movie)
    ensures gathered == Gathered(K0, D0, ratings, movie, sim)
  {
    if movie in D0 {
      assert K0[..i] == K0;
    } else if movie !in db {
      assert !HasSeen(K0, ratings);
    } else {
      OrderScanDoneInserted(K0, D0, ratings, movie, sim, ks, db, i, start, gathered);
    }
  }

  /** The end of the scan when the target was inserted. */
  lemma OrderScanDoneInserted(K0: seq<MoviePtr>, D0: map<MoviePtr, Features>, ratings: RankMap, movie: MoviePtr, sim: Sim,
                              ks: seq<MoviePtr>, db: map<MoviePtr, Features>, i: nat, start: nat,
                              gathered: seq<(Movie, real)>)
    requires OrderScan(K0, D0, ratings, movie, sim, ks, db, i, start, gathered)
    requires i == |ks| && movie !in D0 && movie in db
    ensures ks == GrownKeys(K0, D0, ratings, movie) && db == GrownDb(K0, D0, ratings, movie)
    ensures gathered == Gathered(K0, D0, ratings, movie, sim)
  {
    assert movie !in K0;
    InsertAbsent(K0, movie);
    assert ks[start..i] == ks[start..];
  }

  /** The rated keys of a key sequence. */
  ghost function RatedKeys(ks: seq<MoviePtr>, ratings: RankMap): set<MoviePtr>
  {
    set key | key in ks && Seen(key, ratings)
  }

  /** The movies of a list of pairs, as catalog handles. */
  ghost function PairKeys(s: seq<(Movie, real)>): set<MoviePtr>
  {
    set e | e in s :: Ptr(e.0)
  }

  /** The vector order_by_similarity compares against: the target's features,
      or the empty vector the subscript inserts for an absent target. */
  function TargetFeatures(db: map<MoviePtr, Features>, movie: MoviePtr): Features
  {
    if movie in db then db[movie] else []
  }

  /** Whether the scan meets the target itself: it was absent, got inserted,
      is rated, and landed after the first rated key. */
  predicate TargetJoins(ks: seq<MoviePtr>, db: map<MoviePtr, Features>, ratings: RankMap, movie: MoviePtr)
  {
    movie !in db && HasSeen(ks, ratings) && Seen(movie, ratings) && LowerBound(ks, movie) > FirstSeen(ks, ratings)
  }

  /** A list whose movies are distinct has one handle per pair. */
  lemma {:induction false} PairKeysCount(s: seq<(Movie, real)>)
    requires KeysDistinct(s)
    ensures |PairKeys(s)| == |s|
  {
    if s != [] {
      var n := |s| - 1;
      assert KeysDistinct(s[..n]);
      PairKeysCount(s[..n]);
      assert PairKeys(s) == PairKeys(s[..n]) + {Ptr(s[n].0)} by {
        assert s == s[..n] + [s[n]];
      }
      forall e | e in s[..n] ensures e.0 != s[n].0 {
        var j :| 0 <= j < n && s[..n][j] == e;
        assert s[j] == e;
      }
    }
  }

  /** The scan over a slice collects exactly its rated keys. */
  lemma CandidatesKeys(ks: seq<MoviePtr>, target: Features, db: map<MoviePtr, Features>, ratings: RankMap, sim: Sim)
    requires forall key :: key in ks ==> key in db
    ensures PairKeys(Candidates(ks, target, db, ratings, sim)) == RatedKeys(ks, ratings)
  {
    CandidatesMembers(ks, target, db, ratings, sim);
    var c := Candidates(ks, target, db, ratings, sim);
    forall key | key in RatedKeys(ks, ratings) ensures key in PairKeys(c) {
      assert (key.movie, sim(target, db[key])) in c;
    }
  }

  /** order_by_similarity collects distinct movies, each a rated key of the
      grown catalog paired with its similarity to the target's vector; these
      are the rated keys of the catalog, and additionally the target itself
      exactly when it joins the scan. There are as many pairs as such
      movies. */
  lemma GatheredSpec(ks: seq<MoviePtr>, db: map<MoviePtr, Features>, ratings: RankMap, movie: MoviePtr, sim: Sim)
    requires StrictlySorted(ks) && (forall key :: key in db <==> key in ks)
    ensures var g := Gathered(ks, db, ratings, movie, sim);
      var gd := GrownDb(ks, db, ratings, movie);
      && KeysDistinct(g)
      && (forall e :: e in g ==>
            (Ptr(e.0) in GrownKeys(ks, db, ratings, movie) && Ptr(e.0) in gd &&
             e.0 in ratings && e.1 == sim(TargetFeatures(db, movie), gd[Ptr(e.0)])))
      && PairKeys(g) == RatedKeys(ks, ratings) + (if TargetJoins(ks, db, ratings, movie) then {movie} else {})
      && |g| == |PairKeys(g)|
  {
    var g := Gathered(ks, db, ratings, movie, sim);
    SortedKeys(ks);
    if movie in db {
      CandidatesMembers(ks, db[movie], db, ratings, sim);
      CandidatesDistinct(ks, db[movie], db, ratings, sim);
      CandidatesKeys(ks, db[movie], db, ratings, sim);
    } else if !HasSeen(ks, ratings) {
      assert RatedKeys(ks, ratings) == {};
    } else {
      GatheredInserted(ks, db, ratings, movie, sim);
    }
    PairKeysCount(g);
  }

  /** The list order_by_similarity returns: distinct rated movies of the
      grown catalog, as many as the gathered movies up to k, in non-increasing
      similarity, and no gathered pair left out more similar than one kept. */
  lemma RanksSpec(ks: seq<MoviePtr>, db: map<MoviePtr, Features>, ratings: RankMap, movie: MoviePtr, k: nat, sim: Sim)
    requires StrictlySorted(ks) && (forall key :: key in db <==> key in ks)
    ensures var g := Gathered(ks, db, ratings, movie, sim);
      var r := TopK(g, k);
      var n := |RatedKeys(ks, ratings) + (if TargetJoins(ks, db, ratings, movie) then {movie} else {})|;
      && KeysDistinct(r)
      && (forall e :: e in r ==> Ptr(e.0) in GrownKeys(ks, db, ratings, movie) && e.0 in ratings)
      && |r| == (if n < k then n else k)
      && SortedBySimilarity(r)
      && (forall e, i :: e in g && e !in r && 0 <= i < |r| ==> e.1 <= r[i].1)
  {
    var g := Gathered(ks, db, ratings, movie, sim);
    GatheredSpec(ks, db, ratings, movie, sim);
    TopKSpec(g, k);
    TopKMembers(g, k);
    TopKDistinct(g, k);
    TopKDropped(g, k);
  }

  /** GatheredSpec when the target is inserted: the scanned slice of the grown
      catalog holds every rated key of the catalog, and the target when it
      lies after the first rated key. */
  lemma GatheredInserted(ks: seq<MoviePtr>, db: map<MoviePtr, Features>, ratings: RankMap, movie: MoviePtr, sim: Sim)
    requires StrictlySorted(ks) && (forall key :: key in db <==> key in ks)
    requires movie !in db && HasSeen(ks, ratings)
    ensures var g := Gathered(ks, db, ratings, movie, sim);
      var gd := db[movie := []];
      && KeysDistinct(g)
      && (forall e :: e in g ==>
            (Ptr(e.0) in Insert(ks, movie) && Ptr(e.0) in gd && e.0 in ratings && e.1 == sim([], gd[Ptr(e.0)])))
      && PairKeys(g) == RatedKeys(ks, ratings) + (if TargetJoins(ks, db, ratings, movie) then {movie} else {})
  {
    assert movie !in ks;
    InsertAbsent(ks, movie);
    InsertSpec(ks, movie);
    var p := LowerBound(ks, movie);
    var grown := ks[..p] + [movie] + ks[p..];
    var start := VisitStart(ks, ratings, movie);
    var slice := grown[start..];
    var gd := db[movie := []];
    assert forall key :: key in slice ==> key in grown;
    CandidatesMembers(slice, [], gd, ratings, sim);
    CandidatesKeys(slice, [], gd, ratings, sim);
    SortedKeys(grown);
    SliceDistinct(grown, start);
    CandidatesDistinct(slice, [], gd, ratings, sim);
    ScannedSlice(ks, ratings, movie);
  }

  /** A slice of a sequence without repetitions has none. */
  lemma SliceDistinct(s: seq<MoviePtr>, start: nat)
    requires start <= |s|
    requires forall i, j :: 0 <= i < j < |s| ==> s[i] != s[j]
    ensures forall i, j :: 0 <= i < j < |s[start..]| ==> s[start..][i] != s[start..][j]
  {
    forall i, j | 0 <= i < j < |s[start..]| ensures s[start..][i] != s[start..][j] {
      assert s[start..][i] == s[start + i] && s[start..][j] == s[start + j];
    }
  }

  /** The rated keys of the slice the scan visits after inserting the target:
      those of the catalog, and the target when it joins. */
  lemma ScannedSlice(ks: seq<MoviePtr>, ratings: RankMap, movie: MoviePtr)
    requires movie !in ks && HasSeen(ks, ratings)
    ensures var p := LowerBound(ks, movie);
      var slice := (ks[..p] + [movie] + ks[p..])[VisitStart(ks, ratings, movie)..];
      RatedKeys(slice, ratings) ==
        RatedKeys(ks, ratings) + (if Seen(movie, ratings) && p > FirstSeen(ks, ratings) then {movie} else {})
  {
    FirstSeenSpec(ks, ratings);
    var p := LowerBound(ks, movie);
    var q := FirstSeen(ks, ratings);
    var start := VisitStart(ks, ratings, movie);
    InsertedSlice(ks, movie, p, start);
    var slice := (ks[..p] + [movie] + ks[p..])[start..];
    forall key | key in RatedKeys(ks, ratings) ensures key in slice {
      var j :| 0 <= j < |ks| && ks[j] == key;
      assert q <= j;
    }
  }

  /** Where the keys of a sequence with one key inserted at `p` fall in a
      slice of it from `start`. */
  lemma InsertedSlice(ks: seq<MoviePtr>, movie: MoviePtr, p: nat, start: nat)
    requires movie !in ks && p <= |ks| && start <= |ks| + 1
    ensures var slice := (ks[..p] + [movie] + ks[p..])[start..];
      && (forall j :: 0 <= j < |ks| && (if j < p then j else j + 1) >= start ==> ks[j] in slice)
      && (movie in slice <==> p >= start)
      && (forall key :: key in slice ==> key in ks || key == movie)
  {
    var grown := ks[..p] + [movie] + ks[p..];
    var slice := grown[start..];
    assert forall i :: 0 <= i < |slice| ==> slice[i] == grown[start + i];
    assert forall i :: 0 <= i < |grown| ==> grown[i] == if i < p then ks[i] else if i == p then movie else ks[i - 1];
    forall j | 0 <= j < |ks| && (if j < p then j else j + 1) >= start ensures ks[j] in slice {
      var g := if j < p then j else j + 1;
      assert slice[g - start] == ks[j];
    }
    if p >= start {
      assert slice[p - start] == movie;
    }
  }

  // ---------------------------------------------------------------------------
  // Specification of predict_movie_score
  // ---------------------------------------------------------------------------

  /** The sum of w over a ranked list. */
  function SumOf(s: seq<(Movie, real)>, w: ((Movie, real)) -> real): real
  {
    if s == [] then 0.0 else SumOf(s[..|s| - 1], w) + w(s[|s| - 1])
  }

  /** Removing any one element takes exactly its term out of the sum. */
  lemma {:induction false} SumOfRemove(s: seq<(Movie, real)>, i: nat, w: ((Movie, real)) -> real)
    requires i < |s|
    ensures SumOf(s, w) == SumOf(s[..i] + s[i + 1..], w) + w(s[i])
  {
    var n := |s| - 1;
    if i < n {
      SumOfRemove(s[..n], i, w);
      assert s[..n][..i] + s[..n][i + 1..] == (s[..i] + s[i + 1..])[..n - 1];
      assert (s[..i] + s[i + 1..])[n - 1] == s[n];
    } else {
      assert s[..i] + s[i + 1..] == s[..n];
    }
  }

  /** The sum does not depend on the order of the list. */
  lemma {:induction false} SumOfPermutation(a: seq<(Movie, real)>, b: seq<(Movie, real)>, w: ((Movie, real)) -> real)
    requires multiset(a) == multiset(b)
    ensures SumOf(a, w) == SumOf(b, w)
    decreases |a|
  {
    if a != [] {
      var n := |a| - 1;
      var i := MatchLast(a, b);
      SumOfPermutation(a[..n], b[..i] + b[i + 1..], w);
      SumOfRemove(b, i, w);
    } else {
      assert |b| == |multiset(b)| == 0;
    }
  }

  /** The last element of `a` sits somewhere in a permutation `b` of it, and
      what remains of the two are permutations of each other. */
  lemma MatchLast(a: seq<(Movie, real)>, b: seq<(Movie, real)>) returns (i: nat)
    requires a != [] && multiset(a) == multiset(b)
    ensures i < |b| && b[i] == a[|a| - 1]
    ensures multiset(a[..|a| - 1]) == multiset(b[..i] + b[i + 1..])
  {
    var n := |a| - 1;
    assert a == a[..n] + [a[n]];
    assert a[n] in multiset(b);
    i :| 0 <= i < |b| && b[i] == a[n];
    assert b == b[..i] + [b[i]] + b[i + 1..];
    assert multiset(a) == multiset(a[..n]) + multiset{a[n]};
    assert multiset(b) == multiset(b[..i]) + multiset{b[i]} + multiset(b[i + 1..]);
    assert multiset(b[..i] + b[i + 1..]) == multiset(b[..i]) + multiset(b[i + 1..]);
    assert multiset(a[..n]) == multiset(a) - multiset{a[n]};
    assert multiset(b[..i] + b[i + 1..]) == multiset(b) - multiset{a[n]};
  }

  /** Σ similarity * rating and Σ similarity over a ranked list; a movie
      without a rating counts with rating 0, as the rating map's subscript
      operator yields. */
  function WeightedSum(ranks: seq<(Movie, real)>, ratings: RankMap): real
  {
    SumOf(ranks, WeightedRating(ratings))
  }

  function SimSum(ranks: seq<(Movie, real)>): real
  {
    SumOf(ranks, Weight)
  }

  /** The terms of the two sums. */
  function WeightedRating(ratings: RankMap): ((Movie, real)) -> real
  {
    (e: (Movie, real)) => e.1 * RatingOf(ratings, e.0)
  }

  function Weight(e: (Movie, real)): real
  {
    e.1
  }

  lemma SumOfStep(s: seq<(Movie, real)>, i: nat, w: ((Movie, real)) -> real)
    requires i < |s|
    ensures SumOf(s[..i + 1], w) == SumOf(s[..i], w) + w(s[i])
  {
    assert s[..i + 1][..i] == s[..i];
  }

  lemma SumOfSingleton(x: (Movie, real), w: ((Movie, real)) -> real)
    ensures SumOf([x], w) == w(x)
  {
    assert [x][..0] == [];
  }

  /** The weighted average; None when the weights sum to zero (the division
      then has no real value). */
  function WeightedAverage(ranks: seq<(Movie, real)>, ratings: RankMap): Option<real>
  {
    if SimSum(ranks) == 0.0 then None else Some(WeightedSum(ranks, ratings) / SimSum(ranks))
  }

  /** The squared norm of the vector order_by_similarity compares against. */
  function TargetNorm(db: map<MoviePtr, Features>, movie: MoviePtr): real
  {
    var t := TargetFeatures(db, movie);
    Dot(t, t)
  }

  /** The predicted score of `movie`. A target of zero norm (an absent target
      or the null key, which get the empty vector, in particular) makes every
      similarity 0/0 (see Similar), and with them both sums: then there is no
      prediction. */
  function Predict(ks: seq<MoviePtr>, db: map<MoviePtr, Features>, ratings: RankMap,
                   movie: MoviePtr, k: nat, sim: Sim): Option<real>
    requires forall key :: key in ks ==> key in db
  {
    if TargetNorm(db, movie) == 0.0 then None
    else WeightedAverage(TopK(Gathered(ks, db, ratings, movie, sim), k), ratings)
  }

  /** A target with an empty or zero vector, an absent target among them, has
      no prediction. */
  lemma UndefinedTarget(ks: seq<MoviePtr>, db: map<MoviePtr, Features>, ratings: RankMap,
                        movie: MoviePtr, k: nat, sim: Sim)
    requires forall key :: key in ks ==> key in db
    ensures movie !in db ==> Predict(ks, db, ratings, movie, k, sim) == None
    ensures movie in db && db[movie] == [] ==> Predict(ks, db, ratings, movie, k, sim) == None
    ensures TargetNorm(db, movie) == 0.0 ==> Predict(ks, db, ratings, movie, k, sim) == None
  {
    assert Dot([], []) == 0.0;
  }

  // ---------------------------------------------------------------------------
  // Specification of avg and get_preferences
  // ---------------------------------------------------------------------------

  /** The sum of the ratings in a rating map, taken in an arbitrary order. */
  ghost function SumValues(m: RankMap): real
    decreases |m|
  {
    if m == map[] then 0.0
    else
      var key :| key in m;
      m[key] + SumValues(m - {key})
  }

  /** The sum does not depend on the order: any entry can be taken first. */
  lemma {:induction false} SumValuesRemove(m: RankMap, key: Movie)
    requires key in m
    ensures SumValues(m) == m[key] + SumValues(m - {key})
    decreases |m|
  {
    var k0 :| k0 in m && SumValues(m) == m[k0] + SumValues(m - {k0});
    if k0 != key {
      assert |m - {k0}| == |m| - 1 && |m - {key}| == |m| - 1;
      SumValuesRemove(m - {k0}, key);
      SumValuesRemove(m - {key}, k0);
      assert m - {k0} - {key} == m - {key} - {k0};
    }
  }

  /** The mean rating; 0 stands for the undefined mean of an empty map, which
      is never used because such a user has rated nothing. */
  ghost function Mean(m: RankMap): real
  {
    if |m| == 0 then 0.0 else SumValues(m) / |m| as real
  }

  /** What one rated movie with features `f` and rating `r` adds at feature
      index `j`: f[j] * (r - avg) where it has that feature, nothing beyond its
      last feature. */
  function Contribution(f: Features, r: real, avg: real, j: nat): real
  {
    if j < |f| then f[j] * (r - avg) else 0.0
  }

  /** The preference at feature index `j`: the contributions of the rated
      keys of `ks`; keys the user has not rated add nothing. */
  function PrefAt(ks: seq<MoviePtr>, db: map<MoviePtr, Features>, ratings: RankMap, avg: real, j: nat): real
    requires forall key :: key in ks ==> key in db
  {
    if ks == [] then 0.0
    else
      var n := |ks| - 1;
      assert forall key :: key in ks[..n] ==> key in ks;
      PrefAt(ks[..n], db, ratings, avg, j) +
      (if Seen(ks[n], ratings) then Contribution(db[ks[n]], ratings[ks[n].movie], avg, j) else 0.0)
  }

  /** The preference vector of get_preferences: as long as the first catalog
      entry's features, each index accumulated against the mean rating. */
  ghost function Preferences(ks: seq<MoviePtr>, db: map<MoviePtr, Features>, ratings: RankMap): (p: seq<real>)
    requires |ks| > 0 && forall key :: key in ks ==> key in db
  {
    seq(|db[ks[0]]|, j requires 0 <= j => PrefAt(ks, db, ratings, Mean(ratings), j))
  }

  /** One more catalog key adds its contribution when it is rated. */
  lemma PrefAtStep(ks: seq<MoviePtr>, n: nat, db: map<MoviePtr, Features>, ratings: RankMap, avg: real, j: nat)
    requires n < |ks| && forall key :: key in ks ==> key in db
    ensures forall key :: key in ks[..n] ==> key in db
    ensures forall key :: key in ks[..n + 1] ==> key in db
    ensures PrefAt(ks[..n + 1], db, ratings, avg, j) == PrefAt(ks[..n], db, ratings, avg, j) +
      (if Seen(ks[n], ratings) then Contribution(db[ks[n]], ratings[ks[n].movie], avg, j) else 0.0)
  {
    assert forall key :: key in ks[..n] ==> key in ks;
    assert forall key :: key in ks[..n + 1] ==> key in ks;
    assert ks[..n + 1][..n] == ks[..n];
  }

  /** Without any rated catalog key the preference vector is all zeros. */
  lemma {:induction false} NoSeenGivesZero(ks: seq<MoviePtr>, db: map<MoviePtr, Features>, ratings: RankMap,
                                           avg: real, j: nat)
    requires forall key :: key in ks ==> key in db
    requires forall i :: 0 <= i < |ks| ==> !Seen(ks[i], ratings)
    ensures PrefAt(ks, db, ratings, avg, j) == 0.0
  {
    if ks != [] {
      var n := |ks| - 1;
      assert forall key :: key in ks[..n] ==> key in ks;
      NoSeenGivesZero(ks[..n], db, ratings, avg, j);
    }
  }

  /** The worked example: catalog A (2000, [1, 0]), B (2001, [0, 1]),
      C (2002, [1, 1]); ratings A = 5 and B = 1. The mean is 3, A adds
      [2, 0], B adds [0, -2], C is unrated: the preferences are [2, -2]. */
  lemma PreferencesExample(a: MoviePtr, b: MoviePtr, c: MoviePtr, db: map<MoviePtr, Features>, ratings: RankMap)
    requires a == Ptr(Movie("A", 2000)) && b == Ptr(Movie("B", 2001)) && c == Ptr(Movie("C", 2002))
    requires db == map[a := [1.0, 0.0], b := [0.0, 1.0], c := [1.0, 1.0]]
    requires ratings == map[a.movie := 5.0, b.movie := 1.0]
    ensures StrictlySorted([a, b, c])
    ensures Mean(ratings) == 3.0
    ensures Preferences([a, b, c], db, ratings) == [2.0, -2.0]
  {
    ExampleMean(a.movie, b.movie, ratings);
    var ks := [a, b, c];
    assert ks[..2] == [a, b] && ks[..2][..1] == [a] && ks[..2][..1][..0] == [];
    var p := Preferences(ks, db, ratings);
    assert PrefAt([a], db, ratings, 3.0, 0) == 2.0;
    assert PrefAt([a], db, ratings, 3.0, 1) == 0.0;
    assert PrefAt([a, b], db, ratings, 3.0, 0) == 2.0;
    assert PrefAt([a, b], db, ratings, 3.0, 1) == -2.0;
    assert p[0] == PrefAt(ks, db, ratings, 3.0, 0);
    assert p[1] == PrefAt(ks, db, ratings, 3.0, 1);
  }

  lemma ExampleMean(a: Movie, b: Movie, ratings: RankMap)
    requires a != b && ratings == map[a := 5.0, b := 1.0]
    ensures Mean(ratings) == 3.0
  {
    SumValuesRemove(ratings, a);
    assert ratings - {a} == map[b := 1.0];
    SumValuesRemove(map[b := 1.0], b);
    assert map[b := 1.0] - {b} == map[];
    assert ratings.Keys == {a, b};
    assert |ratings| == 2;
  }

  /** Adding a rated catalog key to the accumulation raises the preference at
      each index where the movie has a positive feature when its rating is
      above the mean, and lowers it when the rating is below the mean. */
  lemma RatingMovesPreference(ks: seq<MoviePtr>, n: nat, db: map<MoviePtr, Features>, ratings: RankMap, j: nat)
    requires n < |ks| && forall key :: key in ks ==> key in db
    requires Seen(ks[n], ratings) && j < |db[ks[n]]| && db[ks[n]][j] > 0.0
    ensures forall key :: key in ks[..n] ==> key in db
    ensures forall key :: key in ks[..n + 1] ==> key in db
    ensures ratings[ks[n].movie] > Mean(ratings) ==>
      PrefAt(ks[..n + 1], db, ratings, Mean(ratings), j) > PrefAt(ks[..n], db, ratings, Mean(ratings), j)
    ensures ratings[ks[n].movie] < Mean(ratings) ==>
      PrefAt(ks[..n + 1], db, ratings, Mean(ratings), j) < PrefAt(ks[..n], db, ratings, Mean(ratings), j)
  {
    var avg := Mean(ratings);
    PrefAtStep(ks, n, db, ratings, avg, j);
    var f, r := db[ks[n]], ratings[ks[n].movie];
    if r > avg {
      assert f[j] * (r - avg) > 0.0 * (r - avg);
    } else if r < avg {
      assert f[j] * (avg - r) > 0.0 * (avg - r);
    }
  }

  // ---------------------------------------------------------------------------
  // Specification of find_best_fit and recommend_by_content
  // ---------------------------------------------------------------------------

  /** The scores the content scan considers: the similarity of the preferences
      to each unrated key; rated keys do not take part, and neither does any
      key when the preferences have zero norm (see Similar). */
  function ContentScores(ks: seq<MoviePtr>, db: map<MoviePtr, Features>, ratings: RankMap,
                         prefs: Features, sim: Sim): seq<Option<real>>
    requires forall key :: key in ks ==> key in db
  {
    seq(|ks|, i requires 0 <= i < |ks| => if Seen(ks[i], ratings) then None else Similar(sim, prefs, db[ks[i]]))
  }

  /** The movie find_best_fit returns: the scan starts from the first catalog
      entry and its similarity and moves to an unrated key only on a strictly
      greater similarity. */
  function BestFit(ks: seq<MoviePtr>, db: map<MoviePtr, Features>, ratings: RankMap,
                   prefs: Features, sim: Sim): MoviePtr
    requires |ks| > 0 && forall key :: key in ks ==> key in db
  {
    Scan(ks, ContentScores(ks, db, ratings, prefs, sim), ks[0], sim(prefs, db[ks[0]])).0
  }

  /** The best fit is a catalog key; it is the first entry (rated or not)
      unless an unrated key is strictly more similar; with preferences of
      zero norm it is the first entry; otherwise no unrated key is more
      similar than it; and every unrated key before it is strictly less
      similar, so among equally similar keys the earliest wins. */
  lemma BestFitSpec(ks: seq<MoviePtr>, db: map<MoviePtr, Features>, ratings: RankMap, prefs: Features, sim: Sim)
    requires |ks| > 0 && forall key :: key in ks ==> key in db
    requires forall i, j :: 0 <= i < j < |ks| ==> ks[i] != ks[j]
    ensures var best := BestFit(ks, db, ratings, prefs, sim);
      && best in ks
      && (best == ks[0] ||
          (!Seen(best, ratings) && Dot(prefs, prefs) != 0.0 && sim(prefs, db[best]) > sim(prefs, db[ks[0]])))
      && (Dot(prefs, prefs) == 0.0 ==> best == ks[0])
      && (Dot(prefs, prefs) != 0.0 ==>
            forall i :: 0 <= i < |ks| && !Seen(ks[i], ratings) ==> sim(prefs, db[ks[i]]) <= sim(prefs, db[best]))
      && (forall i, j :: 0 <= i < j < |ks| && ks[j] == best && !Seen(ks[i], ratings) ==>
            sim(prefs, db[ks[i]]) < sim(prefs, db[best]))
  {
    var cand := ContentScores(ks, db, ratings, prefs, sim);
    var init := sim(prefs, db[ks[0]]);
    ScanSpec(ks, cand, ks[0], init);
    var (r, rs) := Scan(ks, cand, ks[0], init);
    forall i | 0 <= i < |ks| && !Seen(ks[i], ratings) && Dot(prefs, prefs) != 0.0
      ensures sim(prefs, db[ks[i]]) <= rs
    {
      assert cand[i].Some?;
    }
    if rs > init {
      var w :| 0 <= w < |ks| && ks[w] == r && cand[w] == Some(rs) &&
        forall j :: 0 <= j < w && cand[j].Some? ==> cand[j].value < rs;
      forall i, j | 0 <= i < j < |ks| && ks[j] == r && !Seen(ks[i], ratings)
        ensures sim(prefs, db[ks[i]]) < rs
      {
        assert j == w;
        assert cand[i].Some?;
      }
    }
  }

  /** The accumulation loop of predict_movie_score: numerator and
      denominator summed over the ranked list, then divided. */
  method WeightedAverageOf(ranks: seq<(Movie, real)>, ratings: RankMap) returns (score: Option<real>)
    ensures score == WeightedAverage(ranks, ratings)
  {
    var numerator, denominator := 0.0, 0.0;
    var i := 0;
    while i < |ranks|
      invariant 0 <= i <= |ranks|
      invariant numerator == WeightedSum(ranks[..i], ratings)
      invariant denominator == SimSum(ranks[..i])
    {
      SumOfStep(ranks, i, WeightedRating(ratings));
      SumOfStep(ranks, i, Weight);
      numerator := numerator + ranks[i].1 * RatingOf(ratings, ranks[i].0);
      denominator := denominator + ranks[i].1;
      i := i + 1;
    }
    assert ranks[..i] == ranks;
    if denominator == 0.0 {
      score := None;
    } else {
      score := Some(numerator / denominator);
    }
  }

  /** The weighted average does not depend on the order of the list. */
  lemma WeightedAveragePermutation(a: seq<(Movie, real)>, b: seq<(Movie, real)>, ratings: RankMap)
    requires multiset(a) == multiset(b)
    ensures WeightedAverage(a, ratings) == WeightedAverage(b, ratings)
  {
    SumOfPermutation(a, b, WeightedRating(ratings));
    SumOfPermutation(a, b, Weight);
  }

  /** With k at least the number of gathered movies, the prediction of a
      target of non-zero norm is the weighted average over all of them. */
  lemma PredictSaturates(ks: seq<MoviePtr>, db: map<MoviePtr, Features>, ratings: RankMap,
                         movie: MoviePtr, k: nat, sim: Sim)
    requires forall key :: key in ks ==> key in db
    requires k >= |Gathered(ks, db, ratings, movie, sim)|
    ensures Predict(ks, db, ratings, movie, k, sim) ==
      if TargetNorm(db, movie) == 0.0 then None else WeightedAverage(Gathered(ks, db, ratings, movie, sim), ratings)
  {
    var g := Gathered(ks, db, ratings, movie, sim);
    TopKSaturates(g, k);
    SortBySimilaritySpec(g);
    WeightedAveragePermutation(TopK(g, k), g, ratings);
  }

  /** The nearest neighbour: the single pair TopK keeps for k = 1 is one of
      greatest similarity, and the weighted average over it is its rating
      when its similarity is not zero. */
  lemma TopOne(g: seq<(Movie, real)>, ratings: RankMap)
    requires g != []
    ensures var top := TopK(g, 1);
      && |top| == 1 && top[0] in g
      && (forall e :: e in g ==> e.1 <= top[0].1)
      && (top[0].1 != 0.0 ==> WeightedAverage(top, ratings) == Some(RatingOf(ratings, top[0].0)))
  {
    SortBySimilaritySpec(g);
    TopKSpec(g, 1);
    TopKMembers(g, 1);
    var sorted := SortBySimilarity(g);
    var top := TopK(g, 1);
    forall e | e in g ensures e.1 <= top[0].1 {
      assert e in multiset(sorted);
      var j :| 0 <= j < |sorted| && sorted[j] == e;
      if j > 0 {
        assert sorted[j].1 <= top[0].1;
      }
    }
    if top[0].1 != 0.0 {
      assert top == [top[0]];
      AverageOfOne(top[0], ratings);
    }
  }

  /** The weighted average over a single pair of non-zero similarity is its
      rating. */
  lemma AverageOfOne(x: (Movie, real), ratings: RankMap)
    requires x.1 != 0.0
    ensures WeightedAverage([x], ratings) == Some(RatingOf(ratings, x.0))
  {
    SumOfSingleton(x, Weight);
    SumOfSingleton(x, WeightedRating(ratings));
    var r := RatingOf(ratings, x.0);
    assert SimSum([x]) == x.1;
    assert WeightedSum([x], ratings) == x.1 * r;
    assert x.1 * r / x.1 == r;
  }

  /** With k = 1 the prediction copies the rating of the most similar gathered
      movie, provided its similarity and the target's norm are not zero. */
  lemma NearestNeighbour(ks: seq<MoviePtr>, db: map<MoviePtr, Features>, ratings: RankMap,
                         movie: MoviePtr, sim: Sim)
    requires forall key :: key in ks ==> key in db
    requires Gathered(ks, db, ratings, movie, sim) != []
    ensures var g := Gathered(ks, db, ratings, movie, sim);
      var top := TopK(g, 1);
      && |top| == 1 && top[0] in g
      && (forall e :: e in g ==> e.1 <= top[0].1)
      && (top[0].1 != 0.0 && TargetNorm(db, movie) != 0.0 ==>
            Predict(ks, db, ratings, movie, 1, sim) == Some(RatingOf(ratings, top[0].0)))
  {
    TopOne(Gathered(ks, db, ratings, movie, sim), ratings);
  }

  // ---------------------------------------------------------------------------
  // Specification of recommend_by_cf
  // ---------------------------------------------------------------------------

  /** The scores the collaborative scan considers: the predicted score of each
      unrated key; rated keys do not take part. */
  function CfScores(ks: seq<MoviePtr>, db: map<MoviePtr, Features>, ratings: RankMap, k: nat, sim: Sim): seq<Option<real>>
    requires forall key :: key in ks ==> key in db
  {
    seq(|ks|, i requires 0 <= i < |ks| => if Seen(ks[i], ratings) then None else Predict(ks, db, ratings, ks[i], k, sim))
  }

  /** The score of one catalog position. */
  lemma CfScoresAt(ks: seq<MoviePtr>, db: map<MoviePtr, Features>, ratings: RankMap, k: nat, sim: Sim, i: nat)
    requires forall key :: key in ks ==> key in db
    requires i < |ks|
    ensures |CfScores(ks, db, ratings, k, sim)| == |ks|
    ensures CfScores(ks, db, ratings, k, sim)[i] ==
      if Seen(ks[i], ratings) then None else Predict(ks, db, ratings, ks[i], k, sim)
  {
  }

  /** The movie recommend_by_cf returns: the scan starts from null and the
      score 0 and moves to an unrated key only on a strictly greater
      predicted score. */
  function CfChoice(ks: seq<MoviePtr>, db: map<MoviePtr, Features>, ratings: RankMap, k: nat, sim: Sim): MoviePtr
    requires forall key :: key in ks ==> key in db
  {
    Scan(ks, CfScores(ks, db, ratings, k, sim), Null, 0.0).0
  }

  /** `x` is an unrated catalog key with a positive defined prediction, no
      unrated key has a greater one, and every unrated key before `x` has a
      smaller one. */
  ghost predicate CfBest(ks: seq<MoviePtr>, db: map<MoviePtr, Features>, ratings: RankMap, k: nat, sim: Sim, x: MoviePtr)
    requires forall key :: key in ks ==> key in db
  {
    && x in ks && !Seen(x, ratings)
    && Predict(ks, db, ratings, x, k, sim).Some? && Predict(ks, db, ratings, x, k, sim).value > 0.0
    && (forall i :: 0 <= i < |ks| && !Seen(ks[i], ratings) && Predict(ks, db, ratings, ks[i], k, sim).Some? ==>
          Predict(ks, db, ratings, ks[i], k, sim).value <= Predict(ks, db, ratings, x, k, sim).value)
    && (forall i, j ::
          0 <= i < j < |ks| && ks[j] == x && !Seen(ks[i], ratings) && Predict(ks, db, ratings, ks[i], k, sim).Some?
          ==> Predict(ks, db, ratings, ks[i], k, sim).value < Predict(ks, db, ratings, x, k, sim).value)
  }

  /** No unrated catalog key has a positive defined prediction. */
  ghost predicate NoPositive(ks: seq<MoviePtr>, db: map<MoviePtr, Features>, ratings: RankMap, k: nat, sim: Sim)
    requires forall key :: key in ks ==> key in db
  {
    forall i :: 0 <= i < |ks| && !Seen(ks[i], ratings) && Predict(ks, db, ratings, ks[i], k, sim).Some? ==>
      Predict(ks, db, ratings, ks[i], k, sim).value <= 0.0
  }

  /** recommend_by_cf returns null exactly when no unrated movie has a
      positive prediction; any non-null result is the earliest unrated movie
      with the greatest positive prediction. A null key in the catalog only
      ever holds the empty vector, so it has no prediction and never wins. */
  lemma CfChoiceSpec(ks: seq<MoviePtr>, db: map<MoviePtr, Features>, ratings: RankMap, k: nat, sim: Sim)
    requires forall key :: key in ks ==> key in db
    requires forall i, j :: 0 <= i < j < |ks| ==> ks[i] != ks[j]
    requires Null in db ==> db[Null] == []
    ensures var r := CfChoice(ks, db, ratings, k, sim);
      && (r != Null ==> CfBest(ks, db, ratings, k, sim, r))
      && (r == Null <==> NoPositive(ks, db, ratings, k, sim))
  {
    UndefinedTarget(ks, db, ratings, Null, k, sim);
    var cand := CfScores(ks, db, ratings, k, sim);
    ScanSpec(ks, cand, Null, 0.0);
    var (r, rs) := Scan(ks, cand, Null, 0.0);
    assert forall i :: 0 <= i < |ks| ==> cand[i] == if Seen(ks[i], ratings) then None else Predict(ks, db, ratings, ks[i], k, sim);
    if rs > 0.0 {
      var w :| 0 <= w < |ks| && ks[w] == r && cand[w] == Some(rs) &&
        forall j :: 0 <= j < w && cand[j].Some? ==> cand[j].value < rs;
      forall i, j | 0 <= i < j < |ks| && ks[j] == r && !Seen(ks[i], ratings) &&
          Predict(ks, db, ratings, ks[i], k, sim).Some?
        ensures Predict(ks, db, ratings, ks[i], k, sim).value < rs
      {
        assert j == w;
      }
      assert r != Null;
      assert CfBest(ks, db, ratings, k, sim, r);
      assert !NoPositive(ks, db, ratings, k, sim);
    } else {
      assert NoPositive(ks, db, ratings, k, sim);
    }
  }

  /** The inner loop of get_preferences: each feature f[i] of one rated movie
      adds f[i] * (r - avg) at index i of the accumulator. */
  method AddContribution(accumulator: array<real>, f: Features, r: real, avg: real)
    requires |f| <= accumulator.Length
    modifies accumulator
    ensures forall j :: 0 <= j < accumulator.Length ==>
      accumulator[j] == old(accumulator[j]) + Contribution(f, r, avg, j)
  {
    var i := 0;
    while i < |f|
      invariant 0 <= i <= |f|
      invariant forall j :: 0 <= j < accumulator.Length ==>
        accumulator[j] == old(accumulator[j]) + (if j < i then Contribution(f, r, avg, j) else 0.0)
    {
      accumulator[i] := accumulator[i] + f[i] * (r - avg);
      i := i + 1;
    }
  }

  class RecommendationSystem {
    /** The catalog keys in iteration (comparator) order. */
    var keys: seq<MoviePtr>
    /** The feature vector of each catalog key. */
    var db: map<MoviePtr, Features>

    /** The ordered map: sorted keys, exactly the keys of the map; a null key
        only ever enters through the subscript in order_by_similarity, with
        the empty vector. */
    ghost predicate Valid()
      reads this
    {
      StrictlySorted(keys) && (forall key :: key in db <==> key in keys) && (Null in db ==> db[Null] == [])
    }

    constructor ()
      ensures Valid() && keys == [] && db == map[]
    {
      keys := [];
      db := map[];
    }

    /** add_movie: insert, or overwrite the features of, the entry for
        (name, year), and return a handle to it. */
    method AddMovie(name: string, year: int, features: Features) returns (m: MoviePtr)
      requires Valid()
      modifies this
      ensures Valid()
      ensures m == Ptr(Movie(name, year))
      ensures db == old(db)[m := features]
      ensures keys == Insert(old(keys), m)
      ensures GetMovie(name, year) == m
    {
      m := Ptr(Movie(name, year));
      InsertSpec(keys, m);
      keys := Insert(keys, m);
      db := db[m := features];
    }

    /** get_movie: the handle of the entry for (name, year), or null when no
        catalog key equals it. */
    function GetMovie(name: string, year: int): (r: MoviePtr)
      reads this
      requires Valid()
      ensures r.Null? <==> forall i :: 0 <= i < |keys| ==> keys[i] != Ptr(Movie(name, year))
      ensures r.Ptr? ==> r == Ptr(Movie(name, year)) && r in db
    {
      var p := Ptr(Movie(name, year));
      if p in db then p else Null
    }

    /** avg: the sum of the ratings divided by their number; None for an empty
        map, where the division has no real value. */
    method Avg(ratings: RankMap) returns (a: Option<real>)
      ensures a.None? <==> |ratings| == 0
      ensures a.Some? ==> a.value == Mean(ratings)
    {
      var sum := 0.0;
      var rest := ratings;
      while rest != map[]
        invariant sum + SumValues(rest) == SumValues(ratings)
        decreases |rest|
      {
        var key :| key in rest;
        SumValuesRemove(rest, key);
        sum := sum + rest[key];
        rest := rest - {key};
      }
      if |ratings| == 0 {
        a := None;
      } else {
        a := Some(sum / |ratings| as real);
      }
    }

    /** get_preferences: a vector as long as the first catalog entry's
        features; for each rated catalog key in catalog order, each of its
        features f[i] adds f[i] * (rating - mean rating) at index i. A rated
        key with more features than the first entry would write past the end
        of the vector, so callers must not pass one. */
    method GetPreferences(ratings: RankMap) returns (prefs: seq<real>)
      requires Valid() && |keys| > 0
      requires forall i :: 0 <= i < |keys| && Seen(keys[i], ratings) ==> |db[keys[i]]| <= |db[keys[0]]|
      ensures |prefs| == |db[keys[0]]|
      ensures forall j :: 0 <= j < |prefs| ==> prefs[j] == PrefAt(keys, db, ratings, Mean(ratings), j)
      ensures prefs == Preferences(keys, db, ratings)
    {
      var a := Avg(ratings);
      // an empty rating map has no mean, and then no key is rated
      var avgRank := if a.Some? then a.value else 0.0;
      assert avgRank == Mean(ratings);
      var ks, d := keys, db;
      var accumulator := new real[|d[ks[0]]|](_ => 0.0);
      var n := 0;
      while n < |ks|
        invariant 0 <= n <= |ks|
        invariant forall j :: 0 <= j < accumulator.Length ==>
          accumulator[j] == PrefAt(ks[..n], d, ratings, avgRank, j)
      {
        var key := ks[n];
        if Seen(key, ratings) {
          AddContribution(accumulator, d[key], ratings[key.movie], avgRank);
        }
        forall j | 0 <= j < accumulator.Length
          ensures accumulator[j] == PrefAt(ks[..n + 1], d, ratings, avgRank, j)
        {
          PrefAtStep(ks, n, d, ratings, avgRank, j);
        }
        n := n + 1;
      }
      assert ks[..n] == ks;
      prefs := accumulator[..];
    }

    /** find_best_fit: scan the catalog in order, starting from the first
        entry and its similarity; an unrated key replaces the current choice
        only when strictly more similar to the preferences, which a
        similarity without a real value never is. */
    method FindBestFit(prefs: Features, ratings: RankMap, sim: Sim) returns (best: MoviePtr)
      requires Valid() && |keys| > 0
      ensures best == BestFit(keys, db, ratings, prefs, sim)
      ensures best in db
      ensures best == keys[0] ||
        (!Seen(best, ratings) && Dot(prefs, prefs) != 0.0 && sim(prefs, db[best]) > sim(prefs, db[keys[0]]))
      ensures Dot(prefs, prefs) == 0.0 ==> best == keys[0]
      ensures Dot(prefs, prefs) != 0.0 ==>
        forall i :: 0 <= i < |keys| && !Seen(keys[i], ratings) ==> sim(prefs, db[keys[i]]) <= sim(prefs, db[best])
    {
      ghost var cand := ContentScores(keys, db, ratings, prefs, sim);
      var bestScore := sim(prefs, db[keys[0]]);
      best := keys[0];
      var i := 0;
      while i < |keys|
        invariant 0 <= i <= |keys|
        invariant Scan(keys[i..], cand[i..], best, bestScore) == Scan(keys, cand, keys[0], sim(prefs, db[keys[0]]))
      {
        ghost var best0, bestScore0 := best, bestScore;
        var key := keys[i];
        if !Seen(key, ratings) {
          var c := Similar(sim, prefs, db[key]);
          if c.Some? && c.value > bestScore {
            bestScore := c.value;
            best := key;
          }
        }
        ScanStep(keys, cand, i, best0, bestScore0, best, bestScore);
        i := i + 1;
      }
      SortedKeys(keys);
      BestFitSpec(keys, db, ratings, prefs, sim);
    }

    /** recommend_by_content: the best fit to the user's preference vector. */
    method RecommendByContent(ratings: RankMap, sim: Sim) returns (best: MoviePtr)
      requires Valid() && |keys| > 0
      requires forall i :: 0 <= i < |keys| && Seen(keys[i], ratings) ==> |db[keys[i]]| <= |db[keys[0]]|
      ensures best == BestFit(keys, db, ratings, Preferences(keys, db, ratings), sim)
    {
      var prefs := GetPreferences(ratings);
      best := FindBestFit(prefs, ratings, sim);
    }

    /** order_by_similarity: collect each rated catalog movie with its
        similarity to `movie`, sort by decreasing similarity and keep the first
        `k`. The subscript on the target may insert it into the catalog. */
    method OrderBySimilarity(ratings: RankMap, movie: MoviePtr, k: nat, sim: Sim)
      returns (ranks: seq<(Movie, real)>)
      requires Valid()
      modifies this
      ensures Valid()
      ensures keys == GrownKeys(old(keys), old(db), ratings, movie)
      ensures db == GrownDb(old(keys), old(db), ratings, movie)
      ensures ranks == TopK(Gathered(old(keys), old(db), ratings, movie, sim), k)
    {
      ghost var K0, D0 := keys, db;
      // the catalog as the scan sees it; the subscript on the target may grow it
      var ks, d := keys, db;
      ghost var start := 0;
      var gathered: seq<(Movie, real)> := [];
      var i := 0;
      OrderScanInit(K0, D0, ratings, movie, sim);
      while i < |ks|
        invariant OrderScan(K0, D0, ratings, movie, sim, ks, d, i, start, gathered)
        decreases if movie in d then 0 else 1, |ks| - i
      {
        ghost var ks0, d0, i0, start0, gathered0 := ks, d, i, start, gathered;
        var key := ks[i];
        if Seen(key, ratings) {
          if movie !in d {
            // the first rated key with the target absent: the subscript on the
            // target inserts it with an empty feature vector
            var p := LowerBound(ks, movie);
            ks := Insert(ks, movie);
            d := d[movie := []];
            if p <= i {
              i := i + 1;
            }
            start := i;
          }
          gathered := gathered + [(key.movie, sim(d[movie], d[key]))];
        }
        i := i + 1;
        OrderScanStep(K0, D0, ratings, movie, sim, ks0, d0, i0, start0, gathered0, ks, d, i, start, gathered);
      }
      OrderScanDone(K0, D0, ratings, movie, sim, ks, d, i, start, gathered);
      keys, db := ks, d;
      // std::sort with the similarity comparator, then erase from position k on
      ranks := SortBySimilarity(gathered);
      if |ranks| >= k {
        ranks := ranks[..k];
      }
    }
    /** predict_movie_score: Σ similarity * rating / Σ similarity over the
        list order_by_similarity returns; None when the similarities sum to
        zero, and when the target's vector has zero norm (an absent target
        or the null key in particular), since every similarity is then 0/0. */
    method PredictMovieScore(ratings: RankMap, movie: MoviePtr, k: nat, sim: Sim) returns (score: Option<real>)
      requires Valid()
      modifies this
      ensures Valid()
      ensures keys == GrownKeys(old(keys), old(db), ratings, movie)
      ensures db == GrownDb(old(keys), old(db), ratings, movie)
      ensures score == Predict(old(keys), old(db), ratings, movie, k, sim)
      ensures old(movie in db) ==> keys == old(keys) && db == old(db)
      ensures old(movie !in db) || movie == Null ==> score == None
    {
      UndefinedTarget(keys, db, ratings, movie, k, sim);
      var target := if movie in db then db[movie] else [];
      var ranks := OrderBySimilarity(ratings, movie, k, sim);
      if Dot(target, target) == 0.0 {
        score := None;
      } else {
        score := WeightedAverageOf(ranks, ratings);
      }
    }

    /** predict_movie_score on a catalog key, which leaves the catalog as it
        is. */
    method PredictCatalogMovie(ratings: RankMap, movie: MoviePtr, k: nat, sim: Sim) returns (score: Option<real>)
      requires Valid() && movie in db
      modifies this
      ensures Valid() && keys == old(keys) && db == old(db)
      ensures score == Predict(keys, db, ratings, movie, k, sim)
    {
      score := PredictMovieScore(ratings, movie, k, sim);
    }

    /** recommend_by_cf: scan the catalog in order from null and the score 0;
        an unrated key replaces the current choice only when its predicted
        score is defined and strictly greater. Predicting a catalog key leaves
        the catalog as it is. */
    method RecommendByCf(ratings: RankMap, k: nat, sim: Sim) returns (best: MoviePtr)
      requires Valid()
      modifies this
      ensures Valid() && keys == old(keys) && db == old(db)
      ensures best == CfChoice(keys, db, ratings, k, sim)
      ensures best != Null ==> CfBest(keys, db, ratings, k, sim, best)
      ensures best == Null <==> NoPositive(keys, db, ratings, k, sim)
    {
      ghost var K0, D0 := keys, db;
      ghost var cand := CfScores(keys, db, ratings, k, sim);
      var bestScore := 0.0;
      best := Null;
      var i := 0;
      while i < |keys|
        invariant Valid() && keys == K0 && db == D0 && 0 <= i <= |keys|
        invariant Scan(K0[i..], cand[i..], best, bestScore) == Scan(K0, cand, Null, 0.0)
      {
        ghost var best0, bestScore0 := best, bestScore;
        var key := keys[i];
        CfScoresAt(K0, D0, ratings, k, sim, i);
        if !Seen(key, ratings) {
          var c := PredictCatalogMovie(ratings, key, k, sim);
          if c.Some? && c.value > bestScore {
            bestScore := c.value;
            best := key;
          }
        }
        ScanStep(K0, cand, i, best0, bestScore0, best, bestScore);
        i := i + 1;
      }
      SortedKeys(keys);
      CfChoiceSpec(keys, db, ratings, k, sim);
    }
  }
}
