/** Shared vocabulary: optional values, and sums over finite maps. */
module Prelude {

  datatype Option<+T> = None | Some(value: T)

  /** The arguments of JavaScript's Math.max and Math.min, on integers. */
  function Max(x: int, y: int): int {
    if x > y then x else y
  }

  function Min(x: int, y: int): int {
    if x < y then x else y
  }

  /** Some element of a set, whichever comes first when it is traversed. */
  method Any<T(==)>(s: set<T>) returns (x: T)
    requires s != {}
    ensures x in s
  {
    x :| x in s;
  }
}

/** The sum of an integer-valued term over the entries of a finite map. */
module MapSums {

  ghost function Pick<K, V>(m: map<K, V>): (k: K)
    requires m.Keys != {}
    ensures k in m
  {
    var k :| k in m.Keys;
    k
  }

  ghost function Sum<V>(m: map<int, V>, term: (int, V) -> int): int {
    if m.Keys == {} then 0
    else
      var k := Pick(m);
      term(k, m[k]) + Sum(m - {k}, term)
  }

  /** Any entry can be taken out first. */
  lemma {:induction false} Pull<V>(m: map<int, V>, term: (int, V) -> int, k: int)
    requires k in m
    ensures Sum(m, term) == term(k, m[k]) + Sum(m - {k}, term)
    decreases |m|
  {
    var first := Pick(m);
    if first != k {
      Pull(m - {first}, term, k);
      Pull(m - {k}, term, first);
      assert m - {first} - {k} == m - {k} - {first};
    }
  }

  /** What writing one entry does to a sum. */
  lemma Put<V>(m: map<int, V>, term: (int, V) -> int, k: int, v: V)
    ensures Sum(m[k := v], term) == Sum(m, term) - (if k in m then term(k, m[k]) else 0) + term(k, v)
  {
    Pull(m[k := v], term, k);
    assert m[k := v] - {k} == m - {k};
    if k in m {
      Pull(m, term, k);
    } else {
      assert m - {k} == m;
    }
  }

  lemma {:induction false} NonNegative<V>(m: map<int, V>, term: (int, V) -> int)
    requires forall k :: k in m ==> term(k, m[k]) >= 0
    ensures Sum(m, term) >= 0
    decreases |m|
  {
    if m.Keys == {} {
    } else {
      NonNegative(m - {Pick(m)}, term);
    }
  }

  /** A sum of non-negative terms is at least any one of them. */
  lemma AtLeast<V>(m: map<int, V>, term: (int, V) -> int, k: int)
    requires k in m
    requires forall j :: j in m ==> term(j, m[j]) >= 0
    ensures Sum(m, term) >= term(k, m[k])
  {
    Pull(m, term, k);
    NonNegative(m - {k}, term);
  }

  /** A map never uses up all integers. */
  lemma {:induction false} FreshKey<V>(m: map<int, V>) returns (k: int)
    ensures forall j :: j in m ==> j < k
    decreases |m|
  {
    if m.Keys == {} {
      k := 0;
    } else {
      var first := Pick(m);
      k := FreshKey(m - {first});
      assert forall j :: j in m ==> j == first || j in m - {first};
      k := if first < k then k else first + 1;
    }
  }
}

/** Runs of a system: a state carried through a sequence of steps. */
module Runs {

  ghost predicate CarriesAt<S, T>(run: (S, seq<T>) -> S, next: (S, T) -> S, s: S, steps: seq<T>) {
    run(s, steps) == if steps == [] then s else run(next(s, steps[0]), steps[1..])
  }

  ghost predicate Carries<S(!new), T(!new)>(run: (S, seq<T>) -> S, next: (S, T) -> S) {
    forall s: S, steps: seq<T> :: CarriesAt(run, next, s, steps)
  }

  /** A run can be made in two parts. */
  lemma {:induction false} Split<S(!new), T(!new)>(run: (S, seq<T>) -> S, next: (S, T) -> S, s: S, first: seq<T>, rest: seq<T>)
    requires Carries(run, next)
    ensures run(s, first + rest) == run(run(s, first), rest)
    decreases |first|
  {
    assert CarriesAt(run, next, s, first) && CarriesAt(run, next, s, first + rest);
    if first == [] {
      assert first + rest == rest;
    } else {
      assert (first + rest)[0] == first[0] && (first + rest)[1..] == first[1..] + rest;
      Split(run, next, next(s, first[0]), first[1..], rest);
    }
  }
}
