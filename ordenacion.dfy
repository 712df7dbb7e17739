/** List.sort(comparator): the result is sorted by the comparator and holds
    the same elements. The library's algorithm is not the point; insertion
    sort (stable, like List.sort) stands in for it. */
module Ordenacion {
  import opened Comparadores

  /** No element is greater than a later one. */
  ghost predicate Ordenada<T>(s: seq<T>, cmp: (T, T) -> int) {
    forall i, j :: 0 <= i < j < |s| ==> cmp(s[i], s[j]) <= 0
  }

  /** Inserts x before the first element it is not greater than. */
  function Insertar<T>(x: T, s: seq<T>, cmp: (T, T) -> int): (r: seq<T>)
    ensures multiset(r) == multiset(s) + multiset{x}
    ensures |r| == |s| + 1
  {
    if s == [] then [x]
    else if cmp(x, s[0]) <= 0 then [x] + s
    else
      assert s == [s[0]] + s[1..];
      [s[0]] + Insertar(x, s[1..], cmp)
  }

  function OrdenarPor<T>(s: seq<T>, cmp: (T, T) -> int): (r: seq<T>)
    ensures multiset(r) == multiset(s)
    ensures |r| == |s|
  {
    if s == [] then []
    else
      assert s == [s[0]] + s[1..];
      Insertar(s[0], OrdenarPor(s[1..], cmp), cmp)
  }

  /** y is not greater than any element of s. */
  ghost predicate CotaInferior<T>(y: T, s: seq<T>, cmp: (T, T) -> int) {
    forall k :: 0 <= k < |s| ==> cmp(y, s[k]) <= 0
  }

  lemma ConsOrdenada<T>(y: T, s: seq<T>, cmp: (T, T) -> int)
    requires Ordenada(s, cmp) && CotaInferior(y, s, cmp)
    ensures Ordenada([y] + s, cmp)
  {
    var r := [y] + s;
    forall i, j | 0 <= i < j < |r| ensures cmp(r[i], r[j]) <= 0 {
      if i == 0 {
        assert r[j] == s[j - 1];
      } else {
        assert r[i] == s[i - 1] && r[j] == s[j - 1];
      }
    }
  }

  lemma {:induction false} InsertarConservaCota<T>(y: T, x: T, s: seq<T>, cmp: (T, T) -> int)
    requires CotaInferior(y, s, cmp) && cmp(y, x) <= 0
    ensures CotaInferior(y, Insertar(x, s, cmp), cmp)
  {
    if s != [] && cmp(x, s[0]) > 0 {
      InsertarConservaCota(y, x, s[1..], cmp);
      var r := Insertar(x, s, cmp);
      forall k | 0 <= k < |r| ensures cmp(y, r[k]) <= 0 {
        if k > 0 {
          assert r[k] == Insertar(x, s[1..], cmp)[k - 1];
        }
      }
    }
  }

  lemma {:induction false} InsertarOrdenada<T(!new)>(x: T, s: seq<T>, cmp: (T, T) -> int)
    requires EsComparador(cmp)
    requires Ordenada(s, cmp)
    ensures Ordenada(Insertar(x, s, cmp), cmp)
  {
    if s == [] {
    } else if cmp(x, s[0]) <= 0 {
      forall k | 0 <= k < |s| ensures cmp(x, s[k]) <= 0 {
        if k > 0 {
          assert cmp(s[0], s[k]) <= 0;
        }
      }
      ConsOrdenada(x, s, cmp);
    } else {
      InsertarOrdenada(x, s[1..], cmp);
      assert cmp(s[0], x) == -cmp(x, s[0]);
      forall k | 0 <= k < |s[1..]| ensures cmp(s[0], s[1..][k]) <= 0 {
        assert s[1..][k] == s[k + 1];
      }
      InsertarConservaCota(s[0], x, s[1..], cmp);
      ConsOrdenada(s[0], Insertar(x, s[1..], cmp), cmp);
    }
  }

  /** The sort is correct: its result is ordered by the comparator (and, by
      OrdenarPor's own contract, a permutation of its input). */
  lemma {:induction false} OrdenarPorOrdena<T(!new)>(s: seq<T>, cmp: (T, T) -> int)
    requires EsComparador(cmp)
    ensures Ordenada(OrdenarPor(s, cmp), cmp)
    ensures multiset(OrdenarPor(s, cmp)) == multiset(s)
  {
    if s != [] {
      OrdenarPorOrdena(s[1..], cmp);
      InsertarOrdenada(s[0], OrdenarPor(s[1..], cmp), cmp);
    }
  }
}
