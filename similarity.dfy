/**
 * The cosine similarity of two feature vectors. The loop that accumulates its
 * three sums (the dot product and the two squared norms) is modelled exactly;
 * the final value numerator / (sqrt(norm1) * sqrt(norm2)) needs a square root,
 * so it is characterised by IsCosine instead of being computed. The engine
 * takes the similarity as a parameter of type Sim.
 */
module Similarity {
  import opened Options

  /** The similarity the engine uses: any real-valued function of two vectors. */
  type Sim = (seq<real>, seq<real>) -> real

  /** The sum of a[i] * b[i] over the indices of `a`. */
  function Dot(a: seq<real>, b: seq<real>): real
    requires |a| <= |b|
  {
    if a == [] then 0.0 else Dot(a[..|a| - 1], b) + a[|a| - 1] * b[|a| - 1]
  }

  /** The three sums of the similarity loop, which runs over the indices of the
      first vector and reads the second at the same indices. */
  method SimilarityTerms(preferences: seq<real>, movie: seq<real>)
    returns (numerator: real, norm1: real, norm2: real)
    requires |preferences| <= |movie|
    ensures numerator == Dot(preferences, movie)
    ensures norm1 == Dot(preferences, preferences)
    ensures norm2 == Dot(movie[..|preferences|], movie)
  {
    numerator, norm1, norm2 := 0.0, 0.0, 0.0;
    var i := 0;
    while i < |preferences|
      invariant 0 <= i <= |preferences|
      invariant numerator == Dot(preferences[..i], movie)
      invariant norm1 == Dot(preferences[..i], preferences)
      invariant norm2 == Dot(movie[..i], movie)
    {
      assert preferences[..i + 1][..i] == preferences[..i];
      assert movie[..i + 1][..i] == movie[..i];
      numerator := numerator + preferences[i] * movie[i];
      norm1 := norm1 + preferences[i] * preferences[i];
      norm2 := norm2 + movie[i] * movie[i];
      i := i + 1;
    }
    assert preferences[..i] == preferences;
  }

  lemma {:induction false} DotSymmetric(a: seq<real>, b: seq<real>)
    requires |a| == |b|
    ensures Dot(a, b) == Dot(b, a)
  {
    if a != [] {
      var n := |a| - 1;
      DotPrefix(a[..n], b, b[..n]);
      DotPrefix(b[..n], a, a[..n]);
      DotSymmetric(a[..n], b[..n]);
    }
  }

  /** Dot reads the second vector only at the indices of the first. */
  lemma {:induction false} DotPrefix(a: seq<real>, b: seq<real>, c: seq<real>)
    requires |a| <= |b| && |a| <= |c|
    requires b[..|a|] == c[..|a|]
    ensures Dot(a, b) == Dot(a, c)
  {
    if a != [] {
      var n := |a| - 1;
      assert b[..n] == c[..n] by { assert b[..n] == b[..|a|][..n]; assert c[..n] == c[..|a|][..n]; }
      assert b[n] == b[..|a|][n];
      assert c[n] == c[..|a|][n];
      DotPrefix(a[..n], b, c);
    }
  }

  /** A squared norm is never negative. */
  lemma {:induction false} NormNonNegative(a: seq<real>)
    ensures Dot(a, a) >= 0.0
  {
    if a != [] {
      var n := |a| - 1;
      DotPrefix(a[..n], a, a[..n]);
      NormNonNegative(a[..n]);
      assert a[n] * a[n] >= 0.0;
    }
  }

  /** The similarity as the code's division yields it. When the first vector
      has zero squared norm (an empty vector in particular), norm1 is zero
      and so is every term of the numerator, so numerator / (sqrt(norm1) * sqrt(norm2)) is 0/0:
      it has no real value, and no comparison selects it. Otherwise it is
      the value of `sim`. */
  function Similar(sim: Sim, a: seq<real>, b: seq<real>): Option<real>
  {
    if Dot(a, a) == 0.0 then None else Some(sim(a, b))
  }

  /** `s` is the cosine of the angle between `a` and `b`: equal lengths, non-zero
      norms, s * sqrt(norm1 * norm2) == numerator, written without a root:
      s squared times both norms is the numerator squared, and s has the
      numerator's sign. */
  ghost predicate IsCosine(s: real, a: seq<real>, b: seq<real>)
  {
    |a| == |b| && Dot(a, a) > 0.0 && Dot(b, b) > 0.0 &&
    s * s * (Dot(a, a) * Dot(b, b)) == Dot(a, b) * Dot(a, b) &&
    (s >= 0.0 <==> Dot(a, b) >= 0.0)
  }

  /** The cosine is determined by the two vectors. */
  lemma CosineUnique(s: real, t: real, a: seq<real>, b: seq<real>)
    requires IsCosine(s, a, b) && IsCosine(t, a, b)
    ensures s == t
  {
    var n := Dot(a, a) * Dot(b, b);
    assert n > 0.0;
    assert s * s * n == t * t * n;
    assert s * s == t * t by {
      assert (s * s - t * t) * n == 0.0;
    }
    assert (s - t) * (s + t) == 0.0;
    assert s == t || s == -t;
    assert (s >= 0.0) == (t >= 0.0);
  }

  /** The cosine is symmetric: similarity(a, b) == similarity(b, a). */
  lemma CosineSymmetric(s: real, t: real, a: seq<real>, b: seq<real>)
    requires IsCosine(s, a, b) && IsCosine(t, b, a)
    ensures s == t
  {
    DotSymmetric(a, b);
    assert Dot(b, b) * Dot(a, a) == Dot(a, a) * Dot(b, b);
    assert IsCosine(t, a, b);
    CosineUnique(s, t, a, b);
  }

  /** A non-zero vector has similarity 1 with itself. */
  lemma CosineSelf(s: real, a: seq<real>)
    requires IsCosine(s, a, a)
    ensures s == 1.0
  {
    var n := Dot(a, a);
    assert n * n > 0.0;
    assert IsCosine(1.0, a, a);
    CosineUnique(s, 1.0, a, a);
  }
}
