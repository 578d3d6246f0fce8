/**
 * A movie identity: a title and a release year, with value equality and a
 * strict total order. The order the movie type itself provides is not part of
 * this model; MovieLess is a stand-in (year first, then the title compared
 * lexicographically) and everything built on it uses only the facts proved
 * below: it is irreflexive, transitive and total.
 */
module Movies {

  datatype Movie = Movie(name: string, year: int)

  /** Lexicographic order on titles; a proper prefix comes first. */
  predicate NameLess(s: string, t: string)
    decreases |s|
  {
    if s == [] then t != []
    else if t == [] then false
    else s[0] < t[0] || (s[0] == t[0] && NameLess(s[1..], t[1..]))
  }

  /** The strict order on movies. */
  predicate MovieLess(a: Movie, b: Movie)
  {
    a.year < b.year || (a.year == b.year && NameLess(a.name, b.name))
  }

  lemma {:induction false} NameLessIrreflexive(s: string)
    ensures !NameLess(s, s)
    decreases |s|
  {
    if s != [] {
      NameLessIrreflexive(s[1..]);
    }
  }

  lemma {:induction false} NameLessTransitive(s: string, t: string, u: string)
    requires NameLess(s, t) && NameLess(t, u)
    ensures NameLess(s, u)
    decreases |s|
  {
    if s != [] && t != [] && u != [] && s[0] == t[0] == u[0] {
      NameLessTransitive(s[1..], t[1..], u[1..]);
    }
  }

  lemma {:induction false} NameLessTotal(s: string, t: string)
    requires s != t
    ensures NameLess(s, t) || NameLess(t, s)
    decreases |s|
  {
    if s != [] && t != [] && s[0] == t[0] {
      assert s == [s[0]] + s[1..] && t == [t[0]] + t[1..];
      NameLessTotal(s[1..], t[1..]);
    }
  }

  /** MovieLess is a strict total order on the (name, year) values. */
  lemma MovieLessIsStrictTotalOrder()
    ensures forall a: Movie :: !MovieLess(a, a)
    ensures forall a: Movie, b: Movie, c: Movie ::
      MovieLess(a, b) && MovieLess(b, c) ==> MovieLess(a, c)
    ensures forall a: Movie, b: Movie :: a != b ==> MovieLess(a, b) || MovieLess(b, a)
  {
    forall a: Movie ensures !MovieLess(a, a) {
      NameLessIrreflexive(a.name);
    }
    forall a: Movie, b: Movie, c: Movie | MovieLess(a, b) && MovieLess(b, c)
      ensures MovieLess(a, c)
    {
      if a.year == b.year == c.year {
        NameLessTransitive(a.name, b.name, c.name);
      }
    }
    forall a: Movie, b: Movie | a != b ensures MovieLess(a, b) || MovieLess(b, a) {
      if a.year == b.year {
        NameLessTotal(a.name, b.name);
      }
    }
  }
}
