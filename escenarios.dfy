/** Client scenarios: what a caller of the ledger can conclude from the
    contracts alone, on concrete loans, with loans identified by student,
    book and loan date. */
module Escenarios {
  import opened Resultados
  import opened Comparadores
  import opened Ordenacion
  import opened Secuencias
  import opened Dominio
  import opened Negocio

  /** A loan identified by (student e-mail, book title, book author, loan date). */
  function ClaveTriple(p: Prestamo): (string, string, string, Fecha) {
    (p.alumno.correo, p.libro.titulo, p.libro.autor, p.fechaPrestamo)
  }

  const ANA := Alumno("Ana", "ana@iesalandalus.org", Primero)
  const LUIS := Alumno("Luis", "luis@iesalandalus.org", Segundo)
  const QUIJOTE := Libro("Don Quijote", "Cervantes", 1200)
  const LAZARILLO := Libro("Lazarillo", "Anonimo", 96)

  const A := Prestamo(ANA, QUIJOTE, Fecha(2024, 3, 5), None)
  const B := Prestamo(LUIS, LAZARILLO, Fecha(2024, 3, 20), None)
  const C := Prestamo(ANA, LAZARILLO, Fecha(2024, 4, 1), None)

  /** A sorted arrangement of two elements that the comparator tells apart is
      unique. */
  lemma {:induction false} OrdenadaDeDos<T(!new)>(r: seq<T>, x: T, y: T, cmp: (T, T) -> int)
    requires EsComparador(cmp) && cmp(x, y) < 0
    requires Ordenada(r, cmp) && multiset(r) == multiset([x, y])
    ensures r == [x, y]
  {
    assert |r| == |multiset(r)| == 2;
    assert cmp(y, x) > 0;
    assert r[0] in multiset(r) && r[1] in multiset(r);
    assert x != y by { assert cmp(x, x) == -cmp(x, x); }
  }

  const MARZO := Fecha(2024, 3, 15)

  lemma PrestamosDeMarzo()
    ensures Filtrar([A, B, C], DelMes(MARZO)) == [A, B]
    ensures Filtrar([A, B], DelCurso(Primero)) == [A]
    ensures Filtrar([A, B], DelCurso(Segundo)) == [B]
    ensures Filtrar([A, B], DelCurso(Tercero)) == []
    ensures Filtrar([A, B], DelCurso(Cuarto)) == []
  {
    assert [A, B, C] == [A, B] + [C] && [A, B] == [A] + [B] && [A] == [] + [A];
    FiltrarAnadir([], A, DelMes(MARZO));
    FiltrarAnadir([A], B, DelMes(MARZO));
    FiltrarAnadir([A, B], C, DelMes(MARZO));
    forall c ensures Filtrar([A, B], DelCurso(c)) == (if c == Primero then [A] else []) + (if c == Segundo then [B] else []) {
      FiltrarAnadir([], A, DelCurso(c));
      FiltrarAnadir([A], B, DelCurso(c));
    }
  }

  /** Of A, B and C, March holds A then B, in that order. */
  lemma ListadoDeMarzo(l: seq<Prestamo>)
    requires Ordenada(l, ComparadorGeneral())
    requires multiset(l) == multiset(Filtrar([A, B, C], DelMes(MARZO)))
    ensures l == [A, B]
  {
    PrestamosDeMarzo();
    assert CompararFechas(A.fechaPrestamo, B.fechaPrestamo) == -15;
    assert EsComparador(ComparadorGeneral()) by {
      ComparadoresValidos();
    }
    OrdenadaDeDos(l, A, B, ComparadorGeneral());
  }

  /** March's points by course: A's for the first course, B's for the
      second, none for the others. */
  lemma EstadisticaDeMarzo(puntos: Prestamo -> int)
    ensures PuntosMensuales([A, B, C], MARZO, Primero, puntos) == puntos(A)
    ensures PuntosMensuales([A, B, C], MARZO, Segundo, puntos) == puntos(B)
    ensures PuntosMensuales([A, B, C], MARZO, Tercero, puntos) == 0
    ensures PuntosMensuales([A, B, C], MARZO, Cuarto, puntos) == 0
  {
    PrestamosDeMarzo();
    assert [A][..0] == [] && [B][..0] == [];
    assert Suma([A], puntos) == puntos(A);
    assert Suma([B], puntos) == puntos(B);
  }

  /** A map that has every course as a key is the display of its four values. */
  lemma MapaDeCursos(m: map<Curso, int>)
    requires forall c :: c in m
    ensures m == map[Primero := m[Primero], Segundo := m[Segundo], Tercero := m[Tercero], Cuarto := m[Cuarto]]
  {
    var d := map[Primero := m[Primero], Segundo := m[Segundo], Tercero := m[Tercero], Cuarto := m[Cuarto]];
    forall c ensures c in d && d[c] == m[c] {
      match c
      case Primero =>
      case Segundo =>
      case Tercero =>
      case Cuarto =>
    }
    assert m.Keys == d.Keys;
  }

  /** Loans A and B of March and C of April: the March listing is [A, B],
      and the March statistic gives A's points to A's course, B's to B's, and
      0 to the other two. */
  method EscenarioMensual(puntos: Prestamo -> int)
    returns (listado: Result<seq<Prestamo>>, estadistica: Result<map<Curso, int>>)
    ensures listado == Ok([A, B])
    ensures estadistica == Ok(map[Primero := puntos(A), Segundo := puntos(B), Tercero := 0, Cuarto := 0])
  {
    var prestamos := new Prestamos(ClaveTriple);
    var r := prestamos.Prestar(Some(A));
    r := prestamos.Prestar(Some(B));
    r := prestamos.Prestar(Some(C));
    assert prestamos.coleccion == [A, B, C];
    listado := prestamos.GetPorFecha(Some(MARZO));
    ListadoDeMarzo(listado.value);
    estadistica := prestamos.GetEstadisticaMensualPorCurso(Some(MARZO), puntos);
    EstadisticaDeMarzo(puntos);
    MapaDeCursos(estadistica.value);
  }

  /** Insertion rejects a second equal loan but accepts the same student and
      book on another date; a loan never inserted is not found (no error);
      a deletion succeeds once and then fails with "not found". */
  method EscenarioAltasYBajas()
    returns (primera: Outcome, repetida: Outcome, otraFecha: Outcome,
             buscada: Result<Option<Prestamo>>, inexistente: Result<Option<Prestamo>>,
             borrada: Outcome, borradaOtraVez: Outcome, tamano: nat)
    ensures primera == Pass && repetida == Fail(OperationNotSupported) && otraFecha == Pass
    ensures buscada == Ok(Some(A)) && inexistente == Ok(None)
    ensures borrada == Pass && borradaOtraVez == Fail(OperationNotSupported)
    ensures tamano == 1
  {
    var prestamos := new Prestamos(ClaveTriple);
    var otroDia := A.(fechaPrestamo := Fecha(2024, 3, 6));
    primera := prestamos.Prestar(Some(A));
    repetida := prestamos.Prestar(Some(A));
    otraFecha := prestamos.Prestar(Some(otroDia));
    assert prestamos.coleccion == [A, otroDia];
    buscada := prestamos.Buscar(Some(A));
    assert buscada.value.value == A by {
      assert ClaveTriple(buscada.value.value) == ClaveTriple(A);
    }
    inexistente := prestamos.Buscar(Some(B));
    borrada := prestamos.Borrar(Some(A));
    borradaOtraVez := prestamos.Borrar(Some(A));
    tamano := prestamos.GetTamano();
  }
}
