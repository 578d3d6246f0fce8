/**
 * The key type of the catalog and its ordering: a movie handle that may be
 * null, the comparator of the engine's ordered map (null first, movies by
 * value), and the sorted key sequence that ordered map iterates in.
 */
module Comparator {
  import opened Movies

  /** A shared pointer to a movie. Only the value pointed to matters. */
  datatype MoviePtr = Null | Ptr(movie: Movie)

  /** The comparator: true when `p` strictly precedes `q`. Non-null handles are
      compared by the movies they point to; null precedes every non-null
      handle and nothing precedes null. */
  predicate MovieComparator(p: MoviePtr, q: MoviePtr)
  {
    if p.Ptr? && q.Ptr? then MovieLess(p.movie, q.movie)
    else p.Null? && q.Ptr?
  }

  /** The comparator is a strict total order on handles; null is its least
      element and is not below itself. */
  lemma ComparatorIsStrictTotalOrder()
    ensures !MovieComparator(Null, Null)
    ensures forall m: Movie :: MovieComparator(Null, Ptr(m)) && !MovieComparator(Ptr(m), Null)
    ensures forall p: MoviePtr :: !MovieComparator(p, p)
    ensures forall p: MoviePtr, q: MoviePtr :: MovieComparator(p, q) ==> !MovieComparator(q, p)
    ensures forall p: MoviePtr, q: MoviePtr, r: MoviePtr ::
      MovieComparator(p, q) && MovieComparator(q, r) ==> MovieComparator(p, r)
    ensures forall p: MoviePtr, q: MoviePtr ::
      p != q ==> MovieComparator(p, q) || MovieComparator(q, p)
  {
    MovieLessIsStrictTotalOrder();
  }

  /** Two handles are equivalent keys of the ordered map exactly when they
      point to equal (name, year) values (or are both null): distinct pointers
      to equal movies name one and the same catalog entry. */
  lemma EquivalentKeysAreEqual(p: MoviePtr, q: MoviePtr)
    ensures (!MovieComparator(p, q) && !MovieComparator(q, p)) <==> p == q
  {
    ComparatorIsStrictTotalOrder();
  }

  /** The iteration order of the ordered map: ascending under the comparator. */
  ghost predicate StrictlySorted(ks: seq<MoviePtr>)
  {
    forall i, j :: 0 <= i < j < |ks| ==> MovieComparator(ks[i], ks[j])
  }

  /** A sorted key sequence holds each key once, and its first element is its
      least key (so a null key, when present, is the first entry). */
  lemma SortedKeys(ks: seq<MoviePtr>)
    requires StrictlySorted(ks)
    ensures forall i, j :: 0 <= i < j < |ks| ==> ks[i] != ks[j]
    ensures |ks| > 0 ==> forall p :: p in ks && p != ks[0] ==> MovieComparator(ks[0], p)
    ensures Null in ks ==> ks[0] == Null
  {
    ComparatorIsStrictTotalOrder();
  }

  /** The number of keys that precede `k`: the position where `k` belongs. */
  function LowerBound(ks: seq<MoviePtr>, k: MoviePtr): (p: nat)
    ensures p <= |ks|
  {
    if ks == [] || !MovieComparator(ks[0], k) then 0
    else 1 + LowerBound(ks[1..], k)
  }

  /** Every key before the position precedes `k`; the key at it does not. */
  lemma {:induction false} LowerBoundSpec(ks: seq<MoviePtr>, k: MoviePtr)
    ensures forall i :: 0 <= i < LowerBound(ks, k) ==> MovieComparator(ks[i], k)
    ensures LowerBound(ks, k) < |ks| ==> !MovieComparator(ks[LowerBound(ks, k)], k)
  {
    if ks != [] && MovieComparator(ks[0], k) {
      LowerBoundSpec(ks[1..], k);
      forall i | 0 < i < LowerBound(ks, k) ensures MovieComparator(ks[i], k) {
        assert ks[i] == ks[1..][i - 1];
      }
    }
  }

  /** Insertion of a key into the ordered map's key sequence; an equivalent
      key already present is kept. */
  function Insert(ks: seq<MoviePtr>, k: MoviePtr): seq<MoviePtr>
  {
    var p := LowerBound(ks, k);
    if p < |ks| && ks[p] == k then ks else ks[..p] + [k] + ks[p..]
  }

  /** Inserting keeps the keys sorted, adds `k`, loses nothing and adds nothing
      else; a key already present leaves the sequence as it was. */
  lemma InsertSpec(ks: seq<MoviePtr>, k: MoviePtr)
    requires StrictlySorted(ks)
    ensures StrictlySorted(Insert(ks, k))
    ensures forall x :: x in Insert(ks, k) <==> x in ks || x == k
    ensures k in ks ==> Insert(ks, k) == ks
    ensures k !in ks ==> |Insert(ks, k)| == |ks| + 1
  {
    ComparatorIsStrictTotalOrder();
    LowerBoundSpec(ks, k);
    var p := LowerBound(ks, k);
    // every key from position p on is not below k, hence at or above it
    assert forall j :: p <= j < |ks| ==> !MovieComparator(ks[j], k) by {
      forall j | p < j < |ks| ensures !MovieComparator(ks[j], k) {
        assert MovieComparator(ks[p], ks[j]);
      }
    }
    if k in ks {
      var j :| 0 <= j < |ks| && ks[j] == k;
      assert j == p;
    } else {
      var r := ks[..p] + [k] + ks[p..];
      assert forall j :: 0 <= j < |r| ==> r[j] == if j < p then ks[j] else if j == p then k else ks[j - 1];
      forall i, j | 0 <= i < j < |r| ensures MovieComparator(r[i], r[j]) {
        if j == p {
        } else if i == p {
          assert ks[j - 1] != k;
        }
      }
    }
  }
}
