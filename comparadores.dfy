/** Comparators in the manner of java.util.Comparator: a comparison returns a
    negative, zero or positive integer, and composite comparators are built with
    `Comparing` and `ThenComparing`. */
module Comparadores {

  /** The part of the Comparator contract the ledger relies on: the sign is
      antisymmetric and "not greater than" is transitive. */
  ghost predicate EsComparador<T(!new)>(cmp: (T, T) -> int) {
    && (forall a, b :: cmp(a, b) == -cmp(b, a))
    && (forall a, b, c :: cmp(a, b) <= 0 && cmp(b, c) <= 0 ==> cmp(a, c) <= 0)
  }

  /** Comparator.comparing(keyExtractor, keyComparator). */
  function Comparing<T(!new), U>(clave: T -> U, cmp: (U, U) -> int): (T, T) -> int {
    (a: T, b: T) => cmp(clave(a), clave(b))
  }

  /** primero.thenComparing(segundo): the second comparator decides only the
      pairs the first one finds equal. */
  function ThenComparing<T(!new)>(primero: (T, T) -> int, segundo: (T, T) -> int): (T, T) -> int {
    (a: T, b: T) => if primero(a, b) != 0 then primero(a, b) else segundo(a, b)
  }

  /** Two elements a comparator finds equal compare alike with every third. */
  lemma {:induction false} CeroEsCongruente<T(!new)>(cmp: (T, T) -> int, a: T, b: T, c: T)
    requires EsComparador(cmp)
    requires cmp(a, b) == 0
    ensures cmp(a, c) == cmp(b, c) || (cmp(a, c) < 0 && cmp(b, c) < 0) || (cmp(a, c) > 0 && cmp(b, c) > 0)
    ensures cmp(a, c) == 0 <==> cmp(b, c) == 0
    ensures cmp(a, c) < 0 <==> cmp(b, c) < 0
  {
    assert cmp(b, a) == 0;
    if cmp(a, c) <= 0 { assert cmp(b, c) <= 0; }
    if cmp(b, c) <= 0 { assert cmp(a, c) <= 0; }
    if cmp(c, a) <= 0 { assert cmp(c, b) <= 0; }
    if cmp(c, b) <= 0 { assert cmp(c, a) <= 0; }
  }

  lemma ComparingEsComparador<T(!new), U(!new)>(clave: T -> U, cmp: (U, U) -> int)
    requires EsComparador(cmp)
    ensures EsComparador(Comparing(clave, cmp))
  {
    var r := Comparing(clave, cmp);
    forall a, b, c | r(a, b) <= 0 && r(b, c) <= 0 ensures r(a, c) <= 0 {
      assert cmp(clave(a), clave(b)) <= 0 && cmp(clave(b), clave(c)) <= 0;
    }
  }

  lemma ThenComparingEsComparador<T(!new)>(primero: (T, T) -> int, segundo: (T, T) -> int)
    requires EsComparador(primero) && EsComparador(segundo)
    ensures EsComparador(ThenComparing(primero, segundo))
  {
    var r := ThenComparing(primero, segundo);
    forall a, b ensures r(a, b) == -r(b, a) {
      assert primero(a, b) == -primero(b, a);
      assert segundo(a, b) == -segundo(b, a);
    }
    forall a, b, c | r(a, b) <= 0 && r(b, c) <= 0 ensures r(a, c) <= 0 {
      if primero(a, b) == 0 {
        CeroEsCongruente(primero, a, b, c);
        if primero(b, c) == 0 {
          assert segundo(a, b) <= 0 && segundo(b, c) <= 0;
        }
      } else {
        assert primero(a, b) < 0;
        if primero(b, c) == 0 {
          CeroEsCongruente(primero, b, c, a);
          assert primero(a, c) == -primero(c, a);
        } else {
          assert primero(b, c) < 0;
          assert primero(a, c) <= 0;
          if primero(a, c) == 0 {
            CeroEsCongruente(primero, a, c, b);
          }
        }
      }
    }
  }

  /** String.compareTo: the difference of the first pair of differing
      characters, or else the difference of the lengths. */
  function CompararCadenas(a: string, b: string): int
    decreases |a|
  {
    if |a| == 0 || |b| == 0 then |a| - |b|
    else if a[0] != b[0] then a[0] as int - b[0] as int
    else CompararCadenas(a[1..], b[1..])
  }

  /** String.compareTo returns zero exactly on equal strings. */
  lemma {:induction false} CompararCadenasCero(a: string, b: string)
    ensures CompararCadenas(a, b) == 0 <==> a == b
    decreases |a|
  {
    if |a| == 0 || |b| == 0 {
    } else if a[0] != b[0] {
    } else {
      CompararCadenasCero(a[1..], b[1..]);
      if a[1..] == b[1..] {
        assert a == [a[0]] + a[1..] && b == [b[0]] + b[1..];
      }
    }
  }

  lemma {:induction false} CompararCadenasAntisimetrica(a: string, b: string)
    ensures CompararCadenas(a, b) == -CompararCadenas(b, a)
    decreases |a|
  {
    if |a| != 0 && |b| != 0 && a[0] == b[0] {
      CompararCadenasAntisimetrica(a[1..], b[1..]);
    }
  }

  lemma {:induction false} CompararCadenasTransitiva(a: string, b: string, c: string)
    requires CompararCadenas(a, b) <= 0 && CompararCadenas(b, c) <= 0
    ensures CompararCadenas(a, c) <= 0
    decreases |a|
  {
    if |a| == 0 || |b| == 0 || |c| == 0 {
    } else if a[0] == b[0] && b[0] == c[0] {
      CompararCadenasTransitiva(a[1..], b[1..], c[1..]);
    }
  }

  /** String.compareTo meets the Comparator contract and is zero exactly on
      equal strings. */
  lemma CadenasEsComparador()
    ensures EsComparador(CompararCadenas)
    ensures forall a, b :: CompararCadenas(a, b) == 0 <==> a == b
  {
    forall a, b ensures CompararCadenas(a, b) == 0 <==> a == b {
      CompararCadenasCero(a, b);
    }
    forall a, b ensures CompararCadenas(a, b) == -CompararCadenas(b, a) {
      CompararCadenasAntisimetrica(a, b);
    }
    forall a, b, c | CompararCadenas(a, b) <= 0 && CompararCadenas(b, c) <= 0
      ensures CompararCadenas(a, c) <= 0
    {
      CompararCadenasTransitiva(a, b, c);
    }
  }
}
