/** The list operations of java.util.ArrayList the ledger uses (indexOf,
    contains, a filtering loop), stated over sequences, with the element's
    `equals` given as a key function: two elements are equal when their keys
    are. */
module Secuencias {

  /** List.indexOf: the first position whose element is equal to the key,
      or -1 when there is none. */
  function IndiceDe<T, K(==)>(clave: T -> K, s: seq<T>, k: K): (i: int)
    ensures -1 <= i < |s|
    ensures 0 <= i ==> clave(s[i]) == k && forall j :: 0 <= j < i ==> clave(s[j]) != k
    ensures i == -1 <==> forall j :: 0 <= j < |s| ==> clave(s[j]) != k
  {
    if s == [] then -1
    else if clave(s[0]) == k then 0
    else
      var i := IndiceDe(clave, s[1..], k);
      if i == -1 then -1 else i + 1
  }

  /** List.contains: some element of s is equal to the key. */
  predicate Contiene<T, K(==)>(clave: T -> K, s: seq<T>, k: K): (r: bool)
    ensures r <==> exists j :: 0 <= j < |s| && clave(s[j]) == k
  {
    IndiceDe(clave, s, k) != -1
  }

  /** No two elements of s are equal. */
  ghost predicate SinDuplicados<T, K>(clave: T -> K, s: seq<T>) {
    forall i, j :: 0 <= i < j < |s| ==> clave(s[i]) != clave(s[j])
  }

  /** Appending an element no stored one is equal to keeps s free of
      duplicates. */
  lemma AnadirConservaUnicidad<T, K>(clave: T -> K, s: seq<T>, x: T)
    requires SinDuplicados(clave, s) && !Contiene(clave, s, clave(x))
    ensures SinDuplicados(clave, s + [x])
    ensures IndiceDe(clave, s + [x], clave(x)) == |s|
  {
    var t := s + [x];
    forall i, j | 0 <= i < j < |t| ensures clave(t[i]) != clave(t[j]) {
      if j == |s| {
        assert t[i] == s[i];
      } else {
        assert t[i] == s[i] && t[j] == s[j];
      }
    }
    assert forall j :: 0 <= j < |s| ==> clave(s[j]) != clave(x);
    var k := IndiceDe(clave, t, clave(x));
    assert clave(t[|s|]) == clave(x);
  }

  /** Replacing an element by one with the same key keeps s free of
      duplicates. */
  lemma SustituirConservaUnicidad<T, K>(clave: T -> K, s: seq<T>, i: nat, x: T)
    requires SinDuplicados(clave, s) && i < |s| && clave(x) == clave(s[i])
    ensures SinDuplicados(clave, s[i := x])
  {
  }

  /** Removing the element at i keeps s free of duplicates, and no element
      equal to it is left. */
  lemma QuitarConservaUnicidad<T, K>(clave: T -> K, s: seq<T>, i: nat)
    requires SinDuplicados(clave, s) && i < |s|
    ensures SinDuplicados(clave, s[..i] + s[i + 1..])
    ensures !Contiene(clave, s[..i] + s[i + 1..], clave(s[i]))
  {
    var t := s[..i] + s[i + 1..];
    forall j | 0 <= j < |t| ensures clave(t[j]) != clave(s[i]) {
      if j < i { assert t[j] == s[j]; } else { assert t[j] == s[j + 1]; }
    }
    forall j, k | 0 <= j < k < |t| ensures clave(t[j]) != clave(t[k]) {
      var j' := if j < i then j else j + 1;
      var k' := if k < i then k else k + 1;
      assert t[j] == s[j'] && t[k] == s[k'];
    }
  }

  /** The elements of s that satisfy f, in the order of s: the result of the
      loops that copy the matching elements of a list into a new one. */
  function Filtrar<T(!new)>(s: seq<T>, f: T -> bool): (r: seq<T>)
    ensures |r| <= |s|
  {
    if s == [] then []
    else
      var u := s[|s| - 1];
      Filtrar(s[..|s| - 1], f) + (if f(u) then [u] else [])
  }

  /** Filtering keeps exactly the elements that satisfy f, each as many
      times as it occurs in s. */
  lemma {:induction false} FiltrarElementos<T(!new)>(s: seq<T>, f: T -> bool)
    ensures forall x :: multiset(Filtrar(s, f))[x] == if f(x) then multiset(s)[x] else 0
    ensures forall x :: x in Filtrar(s, f) <==> x in s && f(x)
  {
    if s != [] {
      var u := s[|s| - 1];
      assert s == s[..|s| - 1] + [u];
      FiltrarElementos(s[..|s| - 1], f);
    }
  }

  /** One more element: the loops' step. */
  lemma FiltrarAnadir<T(!new)>(s: seq<T>, x: T, f: T -> bool)
    ensures Filtrar(s + [x], f) == Filtrar(s, f) + (if f(x) then [x] else [])
  {
    assert (s + [x])[..|s + [x]| - 1] == s;
  }

  /** Filtering commutes with permutation. */
  lemma FiltrarPermutacion<T(!new)>(s: seq<T>, t: seq<T>, f: T -> bool)
    requires multiset(s) == multiset(t)
    ensures multiset(Filtrar(s, f)) == multiset(Filtrar(t, f))
  {
    FiltrarElementos(s, f);
    FiltrarElementos(t, f);
    assert forall x :: multiset(Filtrar(s, f))[x] == multiset(Filtrar(t, f))[x];
  }

  /** The sum of f over the elements of s. */
  function Suma<T>(s: seq<T>, f: T -> int): int {
    if s == [] then 0 else Suma(s[..|s| - 1], f) + f(s[|s| - 1])
  }

  lemma {:induction false} SumaConcatenada<T>(s: seq<T>, t: seq<T>, f: T -> int)
    ensures Suma(s + t, f) == Suma(s, f) + Suma(t, f)
    decreases |t|
  {
    if t == [] {
      assert s + t == s;
    } else {
      var t' := t[..|t| - 1];
      assert (s + t)[..|s + t| - 1] == s + t';
      SumaConcatenada(s, t', f);
    }
  }

  /** One more element: what the loops that accumulate a filtered sum add. */
  lemma SumaFiltrarAnadir<T(!new)>(s: seq<T>, x: T, f: T -> bool, g: T -> int)
    ensures Suma(Filtrar(s + [x], f), g) == Suma(Filtrar(s, f), g) + (if f(x) then g(x) else 0)
  {
    FiltrarAnadir(s, x, f);
    var t := Filtrar(s, f);
    if f(x) {
      assert (t + [x])[..|t + [x]| - 1] == t;
    } else {
      assert t + [] == t;
    }
  }

  /** The sum does not depend on the order of the elements. */
  lemma {:induction false} SumaPermutacion<T>(s: seq<T>, t: seq<T>, f: T -> int)
    requires multiset(s) == multiset(t)
    ensures Suma(s, f) == Suma(t, f)
    decreases |s|
  {
    if s == [] {
      assert |t| == |multiset(t)| == 0;
    } else {
      var x := s[|s| - 1];
      var s' := s[..|s| - 1];
      assert s == s' + [x];
      assert x in multiset(t);
      var k :| 0 <= k < |t| && t[k] == x;
      var t' := t[..k] + t[k + 1..];
      assert t == t[..k] + [x] + t[k + 1..];
      assert multiset(t') == multiset(t) - multiset{x};
      SumaPermutacion(s', t', f);
      SumaConcatenada(t[..k] + [x], t[k + 1..], f);
      SumaConcatenada(t[..k], t[k + 1..], f);
      assert (t[..k] + [x])[..k] == t[..k];
    }
  }
}
