/**
 * The two selection steps the engine is built from: sorting (similarity,
 * value) pairs by decreasing similarity and keeping the first k, and the
 * "best so far" scan that replaces its current choice only on a strictly
 * greater score.
 */
module Selection {
  import opened Options

  /** The sort comparator: the pair with the strictly greater similarity goes first. */
  predicate BySimilarity<K>(a: (K, real), b: (K, real))
  {
    a.1 > b.1
  }

  /** Non-increasing in similarity. */
  ghost predicate SortedBySimilarity<K>(s: seq<(K, real)>)
  {
    forall i, j :: 0 <= i < j < |s| ==> s[i].1 >= s[j].1
  }

  /** No two pairs name the same key. */
  ghost predicate KeysDistinct<K>(s: seq<(K, real)>)
  {
    forall i, j :: 0 <= i < j < |s| ==> s[i].0 != s[j].0
  }

  /** Puts `x` before the first pair that does not have a strictly greater
      similarity. */
  function InsertBySimilarity<K>(x: (K, real), s: seq<(K, real)>): seq<(K, real)>
  {
    if s == [] || !BySimilarity(s[0], x) then [x] + s
    else [s[0]] + InsertBySimilarity(x, s[1..])
  }

  /** Insertion into a sorted list keeps it sorted; the new head is `x` or
      the old head. */
  lemma {:induction false} InsertBySimilaritySorted<K>(x: (K, real), s: seq<(K, real)>)
    requires SortedBySimilarity(s)
    ensures var r := InsertBySimilarity(x, s);
      && SortedBySimilarity(r)
      && r[0] == if s == [] || !BySimilarity(s[0], x) then x else s[0]
  {
    var r := InsertBySimilarity(x, s);
    if s == [] || !BySimilarity(s[0], x) {
      assert r == [x] + s;
      forall i, j | 0 <= i < j < |r| ensures r[i].1 >= r[j].1 {
        assert r[j] == s[j - 1];
        if i > 0 {
          assert r[i] == s[i - 1];
        }
      }
    } else {
      InsertBySimilaritySorted(x, s[1..]);
      var t := InsertBySimilarity(x, s[1..]);
      assert r == [s[0]] + t;
      assert s[0].1 >= t[0].1 by {
        if t[0] != x {
          assert t[0] == s[1];
        }
      }
      forall i, j | 0 <= i < j < |r| ensures r[i].1 >= r[j].1 {
        assert r[j] == t[j - 1];
        if i > 0 {
          assert r[i] == t[i - 1];
        } else {
          assert t[0].1 >= t[j - 1].1;
        }
      }
    }
  }

  /** Insertion adds exactly `x`. */
  lemma {:induction false} InsertBySimilarityPermutes<K>(x: (K, real), s: seq<(K, real)>)
    ensures multiset(InsertBySimilarity(x, s)) == multiset(s) + multiset{x}
    ensures |InsertBySimilarity(x, s)| == |s| + 1
  {
    if s != [] && BySimilarity(s[0], x) {
      assert s == [s[0]] + s[1..];
      InsertBySimilarityPermutes(x, s[1..]);
    }
  }

  /** The comparison sort. The model sorts by repeated insertion, which keeps
      equal similarities in their input order. */
  function SortBySimilarity<K>(s: seq<(K, real)>): seq<(K, real)>
  {
    if s == [] then []
    else InsertBySimilarity(s[0], SortBySimilarity(s[1..]))
  }

  /** The sort returns a sorted permutation of its input. */
  lemma {:induction false} SortBySimilaritySpec<K>(s: seq<(K, real)>)
    ensures var r := SortBySimilarity(s);
      && SortedBySimilarity(r)
      && multiset(r) == multiset(s)
      && |r| == |s|
  {
    if s != [] {
      assert s == [s[0]] + s[1..];
      SortBySimilaritySpec(s[1..]);
      InsertBySimilaritySorted(s[0], SortBySimilarity(s[1..]));
      InsertBySimilarityPermutes(s[0], SortBySimilarity(s[1..]));
    }
  }

  /** Sort, then keep the first `k` pairs (all of them when there are fewer). */
  function TopK<K>(s: seq<(K, real)>, k: nat): seq<(K, real)>
  {
    var sorted := SortBySimilarity(s);
    if |sorted| < k then sorted else sorted[..k]
  }

  /** The top-k list has min(k, |s|) pairs, is sorted, is drawn from the input,
      and no pair left out has a greater similarity than a pair kept. */
  lemma TopKSpec<K>(s: seq<(K, real)>, k: nat)
    ensures var r := TopK(s, k);
      && |r| == (if |s| < k then |s| else k)
      && SortedBySimilarity(r)
      && multiset(r) <= multiset(s)
      && forall i, j :: 0 <= i < |r| <= j < |SortBySimilarity(s)| ==> r[i].1 >= SortBySimilarity(s)[j].1
  {
    SortBySimilaritySpec(s);
    var sorted := SortBySimilarity(s);
    if |sorted| >= k {
      SortedPrefix(sorted, k);
    }
  }

  /** A prefix of a sorted list is sorted, is drawn from it, and is at least
      as similar as the rest of the list. */
  lemma SortedPrefix<K>(t: seq<(K, real)>, k: nat)
    requires SortedBySimilarity(t) && k <= |t|
    ensures SortedBySimilarity(t[..k])
    ensures multiset(t[..k]) <= multiset(t)
    ensures forall i, j :: 0 <= i < k <= j < |t| ==> t[..k][i].1 >= t[j].1
  {
    var r := t[..k];
    assert t == r + t[k..];
    assert multiset(t) == multiset(r) + multiset(t[k..]);
    forall i, j | 0 <= i < j < |r| ensures r[i].1 >= r[j].1 {
      assert r[i] == t[i] && r[j] == t[j];
    }
    forall i, j | 0 <= i < k <= j < |t| ensures r[i].1 >= t[j].1 {
      assert r[i] == t[i];
    }
  }


  /** A pair is kept only if it was there: the kept keys are input keys. */
  lemma TopKMembers<K>(s: seq<(K, real)>, k: nat)
    ensures forall e :: e in TopK(s, k) ==> e in s
  {
    TopKSpec(s, k);
    var r := TopK(s, k);
    forall e | e in r ensures e in s {
      assert e in multiset(r);
    }
  }

  /** No pair left out of the top-k list is more similar than a pair kept. */
  lemma TopKDropped<K>(s: seq<(K, real)>, k: nat)
    ensures var r := TopK(s, k);
      forall e, i :: e in s && e !in r && 0 <= i < |r| ==> e.1 <= r[i].1
  {
    TopKSpec(s, k);
    SortBySimilaritySpec(s);
    var sorted := SortBySimilarity(s);
    var r := TopK(s, k);
    assert forall j :: 0 <= j < |r| ==> r[j] == sorted[j];
    forall e, i | e in s && e !in r && 0 <= i < |r| ensures e.1 <= r[i].1 {
      assert e in multiset(sorted);
      var j :| 0 <= j < |sorted| && sorted[j] == e;
    }
  }

  /** Sorting and truncating never duplicates a key. */
  lemma {:induction false} TopKDistinct<K>(s: seq<(K, real)>, k: nat)
    requires KeysDistinct(s)
    ensures KeysDistinct(TopK(s, k))
  {
    SortDistinct(s);
    SortBySimilaritySpec(s);
  }

  lemma {:induction false} SortDistinct<K>(s: seq<(K, real)>)
    requires KeysDistinct(s)
    ensures KeysDistinct(SortBySimilarity(s))
  {
    if s != [] {
      assert s == [s[0]] + s[1..];
      SortDistinct(s[1..]);
      SortBySimilaritySpec(s[1..]);
      var t := SortBySimilarity(s[1..]);
      forall e | e in t ensures e.0 != s[0].0 {
        assert e in multiset(t);
        assert e in s[1..];
      }
      InsertDistinct(s[0], t);
    }
  }

  lemma {:induction false} InsertDistinct<K>(x: (K, real), s: seq<(K, real)>)
    requires SortedBySimilarity(s) && KeysDistinct(s)
    requires forall e :: e in s ==> e.0 != x.0
    ensures KeysDistinct(InsertBySimilarity(x, s))
  {
    if s != [] && BySimilarity(s[0], x) {
      InsertDistinct(x, s[1..]);
      InsertBySimilarityPermutes(x, s[1..]);
      var t := InsertBySimilarity(x, s[1..]);
      forall e | e in t ensures e.0 != s[0].0 {
        assert e in multiset(t);
        assert e in multiset(s[1..]) || e == x;
      }
    }
  }

  /** k at least the number of pairs keeps them all: the top-k list is the
      whole sorted list. */
  lemma TopKSaturates<K>(s: seq<(K, real)>, k: nat)
    requires k >= |s|
    ensures TopK(s, k) == SortBySimilarity(s)
  {
    SortBySimilaritySpec(s);
  }

  /** The "best so far" scan: `cand[i]` is the score of `ks[i]`, or None when
      `ks[i]` does not take part; the current choice is replaced only by a
      score strictly greater than the current best score. */
  function Scan<K>(ks: seq<K>, cand: seq<Option<real>>, best: K, bestScore: real): (K, real)
    requires |ks| == |cand|
  {
    if ks == [] then (best, bestScore)
    else if cand[0].Some? && cand[0].value > bestScore then
      Scan(ks[1..], cand[1..], ks[0], cand[0].value)
    else
      Scan(ks[1..], cand[1..], best, bestScore)
  }

  /** One step of the scan: the state after position i, (b', s'), is the
      state before it, (b, s), replaced by (ks[i], score) exactly when the
      participating score at i is strictly greater. */
  lemma ScanStep<K>(ks: seq<K>, cand: seq<Option<real>>, i: nat, b: K, s: real, b': K, s': real)
    requires |ks| == |cand| && i < |ks|
    requires (b', s') == if cand[i].Some? && cand[i].value > s then (ks[i], cand[i].value) else (b, s)
    ensures Scan(ks[i + 1..], cand[i + 1..], b', s') == Scan(ks[i..], cand[i..], b, s)
  {
    assert ks[i..][1..] == ks[i + 1..] && cand[i..][1..] == cand[i + 1..];
  }

  /** What the scan returns: the initial choice when nothing beats the initial
      score; otherwise a participating key with the greatest score, the
      earliest one among equal greatest scores. */
  lemma {:induction false} ScanSpec<K>(ks: seq<K>, cand: seq<Option<real>>, best: K, bestScore: real)
    requires |ks| == |cand|
    ensures var (r, rs) := Scan(ks, cand, best, bestScore);
      && rs >= bestScore
      && (rs == bestScore ==> r == best)
      && (forall j :: 0 <= j < |ks| && cand[j].Some? ==> cand[j].value <= rs)
      && (rs > bestScore ==>
            exists i :: 0 <= i < |ks| && ks[i] == r && cand[i] == Some(rs) &&
              forall j :: 0 <= j < i && cand[j].Some? ==> cand[j].value < rs)
  {
    if ks != [] {
      var improves := cand[0].Some? && cand[0].value > bestScore;
      var (b, s) := if improves then (ks[0], cand[0].value) else (best, bestScore);
      ScanSpec(ks[1..], cand[1..], b, s);
      var (r, rs) := Scan(ks, cand, best, bestScore);
      assert (r, rs) == Scan(ks[1..], cand[1..], b, s);
      forall j | 0 <= j < |ks| && cand[j].Some? ensures cand[j].value <= rs {
        if j > 0 { assert cand[j] == cand[1..][j - 1]; }
      }
      if rs > s {
        var i :| 0 <= i < |ks| - 1 && ks[1..][i] == r && cand[1..][i] == Some(rs) &&
          forall j :: 0 <= j < i && cand[1..][j].Some? ==> cand[1..][j].value < rs;
        assert ks[i + 1] == r && cand[i + 1] == Some(rs);
        forall j | 0 <= j < i + 1 && cand[j].Some? ensures cand[j].value < rs {
          if j > 0 { assert cand[j] == cand[1..][j - 1]; }
        }
      } else if improves {
        assert ks[0] == r && cand[0] == Some(rs);
      }
    }
  }
}
