/** The loan ledger: the class Prestamos of the business layer, which owns the
    list of loans, keeps it free of duplicates and answers sorted listings and
    a monthly statistic by course. */
module Negocio {
  import opened Resultados
  import opened Comparadores
  import opened Ordenacion
  import opened Secuencias
  import opened Dominio

  /** Students by name. */
  function ComparadorAlumno(): (Alumno, Alumno) -> int {
    Comparing((a: Alumno) => a.nombre, CompararCadenas)
  }

  /** Books by title, then author. */
  function ComparadorLibro(): (Libro, Libro) -> int {
    ThenComparing(Comparing((l: Libro) => l.titulo, CompararCadenas),
                  Comparing((l: Libro) => l.autor, CompararCadenas))
  }

  /** Loans by date. */
  function ComparadorFecha(): (Prestamo, Prestamo) -> int {
    Comparing((p: Prestamo) => p.fechaPrestamo, CompararFechas)
  }

  /** The order of get() and get(LocalDate): date, then student name, then
      book title, then book author. The date decides whenever the dates
      differ, and two loans tie exactly when all four keys are equal. */
  function ComparadorGeneral(): (r: (Prestamo, Prestamo) -> int)
    ensures forall a: Prestamo, b: Prestamo :: CompararFechas(a.fechaPrestamo, b.fechaPrestamo) != 0 ==>
      r(a, b) == CompararFechas(a.fechaPrestamo, b.fechaPrestamo)
    ensures forall a, b :: r(a, b) == 0 <==>
      (&& a.fechaPrestamo == b.fechaPrestamo && a.alumno.nombre == b.alumno.nombre
       && a.libro.titulo == b.libro.titulo && a.libro.autor == b.libro.autor)
  {
    CadenasEsComparador();
    FechasEsComparador();
    ThenComparing(ThenComparing(ComparadorFecha(),
                                Comparing((p: Prestamo) => p.alumno, ComparadorAlumno())),
                  Comparing((p: Prestamo) => p.libro, ComparadorLibro()))
  }

  /** The order of get(Alumno): date, then book title, then book author; two
      loans tie exactly when these three keys are equal. */
  function ComparadorPorAlumno(): (r: (Prestamo, Prestamo) -> int)
    ensures forall a: Prestamo, b: Prestamo :: CompararFechas(a.fechaPrestamo, b.fechaPrestamo) != 0 ==>
      r(a, b) == CompararFechas(a.fechaPrestamo, b.fechaPrestamo)
    ensures forall a, b :: r(a, b) == 0 <==>
      (&& a.fechaPrestamo == b.fechaPrestamo
       && a.libro.titulo == b.libro.titulo && a.libro.autor == b.libro.autor)
  {
    CadenasEsComparador();
    FechasEsComparador();
    ThenComparing(ComparadorFecha(), Comparing((p: Prestamo) => p.libro, ComparadorLibro()))
  }

  /** The order of get(Libro): date, then student name; two loans tie exactly
      when their dates and student names are equal. */
  function ComparadorPorLibro(): (r: (Prestamo, Prestamo) -> int)
    ensures forall a: Prestamo, b: Prestamo :: CompararFechas(a.fechaPrestamo, b.fechaPrestamo) != 0 ==>
      r(a, b) == CompararFechas(a.fechaPrestamo, b.fechaPrestamo)
    ensures forall a, b :: r(a, b) == 0 <==>
      (a.fechaPrestamo == b.fechaPrestamo && a.alumno.nombre == b.alumno.nombre)
  {
    CadenasEsComparador();
    FechasEsComparador();
    ThenComparing(ComparadorFecha(), Comparing((p: Prestamo) => p.alumno, ComparadorAlumno()))
  }

  /** The three orders meet the Comparator contract, so List.sort sorts by
      them. */
  lemma ComparadoresValidos()
    ensures EsComparador(ComparadorGeneral())
    ensures EsComparador(ComparadorPorAlumno())
    ensures EsComparador(ComparadorPorLibro())
  {
    CadenasEsComparador();
    FechasEsComparador();
    ComparingEsComparador((a: Alumno) => a.nombre, CompararCadenas);
    ComparingEsComparador((l: Libro) => l.titulo, CompararCadenas);
    ComparingEsComparador((l: Libro) => l.autor, CompararCadenas);
    ThenComparingEsComparador(Comparing((l: Libro) => l.titulo, CompararCadenas),
                              Comparing((l: Libro) => l.autor, CompararCadenas));
    ComparingEsComparador((p: Prestamo) => p.fechaPrestamo, CompararFechas);
    ComparingEsComparador((p: Prestamo) => p.alumno, ComparadorAlumno());
    ComparingEsComparador((p: Prestamo) => p.libro, ComparadorLibro());
    ThenComparingEsComparador(ComparadorFecha(),
                              Comparing((p: Prestamo) => p.alumno, ComparadorAlumno()));
    ThenComparingEsComparador(ThenComparing(ComparadorFecha(),
                                            Comparing((p: Prestamo) => p.alumno, ComparadorAlumno())),
                              Comparing((p: Prestamo) => p.libro, ComparadorLibro()));
    ThenComparingEsComparador(ComparadorFecha(), Comparing((p: Prestamo) => p.libro, ComparadorLibro()));
  }

  /** List.sort with each of the three orders sorts. */
  lemma OrdenarConComparadores(s: seq<Prestamo>)
    ensures Ordenada(OrdenarPor(s, ComparadorGeneral()), ComparadorGeneral())
    ensures Ordenada(OrdenarPor(s, ComparadorPorAlumno()), ComparadorPorAlumno())
    ensures Ordenada(OrdenarPor(s, ComparadorPorLibro()), ComparadorPorLibro())
  {
    ComparadoresValidos();
    OrdenarPorOrdena(s, ComparadorGeneral());
    OrdenarPorOrdena(s, ComparadorPorAlumno());
    OrdenarPorOrdena(s, ComparadorPorLibro());
  }

  /** In a listing sorted like get(), the loans of one month form a single
      block: a loan between two loans of the month is of the month. */
  lemma {:induction false} MesContiguo(s: seq<Prestamo>, f: Fecha, i: nat, j: nat, k: nat)
    requires Ordenada(s, ComparadorGeneral())
    requires i < j < k < |s|
    requires MismoMes(s[i].fechaPrestamo, f) && MismoMes(s[k].fechaPrestamo, f)
    ensures MismoMes(s[j].fechaPrestamo, f)
  {
    assert CompararFechas(s[i].fechaPrestamo, s[j].fechaPrestamo) <= 0;
    assert CompararFechas(s[j].fechaPrestamo, s[k].fechaPrestamo) <= 0;
    MismoMesEsIntervalo(s[i].fechaPrestamo, s[j].fechaPrestamo, s[k].fechaPrestamo);
  }

  /** The filters of the listings and of the statistic. */
  function DelAlumno(a: Alumno): Prestamo -> bool {
    (p: Prestamo) => MismoAlumno(p.alumno, a)
  }

  function DelLibro(l: Libro): Prestamo -> bool {
    (p: Prestamo) => MismoLibro(p.libro, l)
  }

  function DelMes(f: Fecha): Prestamo -> bool {
    (p: Prestamo) => MismoMes(p.fechaPrestamo, f)
  }

  function DelCurso(c: Curso): Prestamo -> bool {
    (p: Prestamo) => p.alumno.curso == c
  }

  /** What getEstadisticaMensualPorCurso promises for course c: the points of
      the loans of f's month whose student is in course c. */
  function PuntosMensuales(coleccion: seq<Prestamo>, f: Fecha, c: Curso, puntos: Prestamo -> int): int {
    Suma(Filtrar(Filtrar(coleccion, DelMes(f)), DelCurso(c)), puntos)
  }

  /** With no loan in the month, every course scores 0. */
  lemma {:induction false} MesSinPrestamos(coleccion: seq<Prestamo>, f: Fecha, puntos: Prestamo -> int)
    requires forall p :: p in coleccion ==> !MismoMes(p.fechaPrestamo, f)
    ensures forall c :: PuntosMensuales(coleccion, f, c, puntos) == 0
  {
    FiltrarElementos(coleccion, DelMes(f));
  }

  /** Each loan counts for exactly one course, so the four courses together
      score the points of all the loans. */
  lemma {:induction false} SumaPorCursos(s: seq<Prestamo>, puntos: Prestamo -> int)
    ensures Suma(Filtrar(s, DelCurso(Primero)), puntos) + Suma(Filtrar(s, DelCurso(Segundo)), puntos)
          + Suma(Filtrar(s, DelCurso(Tercero)), puntos) + Suma(Filtrar(s, DelCurso(Cuarto)), puntos)
         == Suma(s, puntos)
  {
    if s != [] {
      var s' := s[..|s| - 1];
      var u := s[|s| - 1];
      assert s == s' + [u];
      SumaPorCursos(s', puntos);
      SumaFiltrarAnadir(s', u, DelCurso(Primero), puntos);
      SumaFiltrarAnadir(s', u, DelCurso(Segundo), puntos);
      SumaFiltrarAnadir(s', u, DelCurso(Tercero), puntos);
      SumaFiltrarAnadir(s', u, DelCurso(Cuarto), puntos);
    }
  }

  /** The statistic of a month adds up to the points of the month's loans,
      the loans get(LocalDate) lists. */
  lemma EstadisticaSumaElMes(coleccion: seq<Prestamo>, f: Fecha, puntos: Prestamo -> int)
    ensures PuntosMensuales(coleccion, f, Primero, puntos) + PuntosMensuales(coleccion, f, Segundo, puntos)
          + PuntosMensuales(coleccion, f, Tercero, puntos) + PuntosMensuales(coleccion, f, Cuarto, puntos)
         == Suma(Filtrar(coleccion, DelMes(f)), puntos)
  {
    SumaPorCursos(Filtrar(coleccion, DelMes(f)), puntos);
  }

  /** The step of the statistic's loop: the loan at position i adds its
      points to its student's course and nothing to the others. */
  lemma SumaPorCursoAnadir(lista: seq<Prestamo>, i: nat, puntos: Prestamo -> int)
    requires i < |lista|
    ensures forall c :: (Suma(Filtrar(lista[..i + 1], DelCurso(c)), puntos)
      == Suma(Filtrar(lista[..i], DelCurso(c)), puntos) + (if c == lista[i].alumno.curso then puntos(lista[i]) else 0))
  {
    assert lista[..i + 1] == lista[..i] + [lista[i]];
    forall c ensures Suma(Filtrar(lista[..i + 1], DelCurso(c)), puntos)
      == Suma(Filtrar(lista[..i], DelCurso(c)), puntos) + (if c == lista[i].alumno.curso then puntos(lista[i]) else 0)
    {
      SumaFiltrarAnadir(lista[..i], lista[i], DelCurso(c), puntos);
    }
  }

  /** Summing the month's loans course by course gives the same result in any
      order, in particular in the order of the sorted listing. */
  lemma EstadisticaDeLaLista(lista: seq<Prestamo>, coleccion: seq<Prestamo>, f: Fecha, puntos: Prestamo -> int)
    requires multiset(lista) == multiset(Filtrar(coleccion, DelMes(f)))
    ensures forall c :: Suma(Filtrar(lista, DelCurso(c)), puntos) == PuntosMensuales(coleccion, f, c, puntos)
  {
    forall c ensures Suma(Filtrar(lista, DelCurso(c)), puntos) == PuntosMensuales(coleccion, f, c, puntos) {
      FiltrarPermutacion(lista, Filtrar(coleccion, DelMes(f)), DelCurso(c));
      SumaPermutacion(Filtrar(lista, DelCurso(c)), Filtrar(Filtrar(coleccion, DelMes(f)), DelCurso(c)), puntos);
    }
  }

  /** The ledger. Loan equality (Prestamo.equals) is given by `clave`: two
      loans are equal when their keys are. */
  class Prestamos<K(==)> {
    /** coleccionPrestamos, in insertion order. */
    var coleccion: seq<Prestamo>
    const clave: Prestamo -> K

    /** The ledger never holds two equal loans. */
    ghost predicate Valid()
      reads this
    {
      SinDuplicados(clave, coleccion)
    }

    constructor (clave: Prestamo -> K)
      ensures Valid()
      ensures this.clave == clave && coleccion == []
    {
      this.clave := clave;
      coleccion := [];
    }

    /** copiaProfundaPrestamos: loans are values, so a deep copy of the
        list is a list of the same loans in the same order. */
    method CopiaProfundaPrestamos() returns (copia: seq<Prestamo>)
      ensures copia == coleccion
    {
      copia := [];
      for i := 0 to |coleccion|
        invariant copia == coleccion[..i]
      {
        copia := copia + [coleccion[i]];
      }
    }

    /** get(): every stored loan, sorted by date, student name and book. */
    method Get() returns (r: seq<Prestamo>)
      ensures multiset(r) == multiset(coleccion) && |r| == |coleccion|
      ensures Ordenada(r, ComparadorGeneral())
    {
      var copia := CopiaProfundaPrestamos();
      OrdenarConComparadores(copia);
      r := OrdenarPor(copia, ComparadorGeneral());
    }

    method GetTamano() returns (n: nat)
      ensures n == |coleccion|
    {
      n := |coleccion|;
    }

    /** get(Alumno): the loans of one student, sorted by date and book. */
    method GetPorAlumno(alumno: Option<Alumno>) returns (r: Result<seq<Prestamo>>)
      ensures alumno.None? ==> r == Err(NullPointer)
      ensures alumno.Some? ==> (r.Ok?
        && multiset(r.value) == multiset(Filtrar(coleccion, DelAlumno(alumno.value)))
        && (forall p :: p in r.value <==> p in coleccion && MismoAlumno(p.alumno, alumno.value))
        && Ordenada(r.value, ComparadorPorAlumno()))
    {
      if alumno.None? {
        return Err(NullPointer);
      }
      var prestamosAlumno := [];
      for i := 0 to |coleccion|
        invariant prestamosAlumno == Filtrar(coleccion[..i], DelAlumno(alumno.value))
      {
        assert coleccion[..i + 1] == coleccion[..i] + [coleccion[i]];
        FiltrarAnadir(coleccion[..i], coleccion[i], DelAlumno(alumno.value));
        if MismoAlumno(coleccion[i].alumno, alumno.value) {
          prestamosAlumno := prestamosAlumno + [coleccion[i]];
        }
      }
      assert coleccion[..|coleccion|] == coleccion;
      var ordenados := OrdenarPor(prestamosAlumno, ComparadorPorAlumno());
      assert Ordenada(ordenados, ComparadorPorAlumno()) by {
        OrdenarConComparadores(prestamosAlumno);
      }
      assert forall p :: p in ordenados <==> p in coleccion && MismoAlumno(p.alumno, alumno.value) by {
        FiltrarElementos(coleccion, DelAlumno(alumno.value));
        assert multiset(ordenados) == multiset(prestamosAlumno);
      }
      r := Ok(ordenados);
    }

    /** get(Libro): the loans of one book, sorted by date and student name. */
    method GetPorLibro(libro: Option<Libro>) returns (r: Result<seq<Prestamo>>)
      ensures libro.None? ==> r == Err(NullPointer)
      ensures libro.Some? ==> (r.Ok?
        && multiset(r.value) == multiset(Filtrar(coleccion, DelLibro(libro.value)))
        && (forall p :: p in r.value <==> p in coleccion && MismoLibro(p.libro, libro.value))
        && Ordenada(r.value, ComparadorPorLibro()))
    {
      if libro.None? {
        return Err(NullPointer);
      }
      var prestamosLibro := [];
      for i := 0 to |coleccion|
        invariant prestamosLibro == Filtrar(coleccion[..i], DelLibro(libro.value))
      {
        assert coleccion[..i + 1] == coleccion[..i] + [coleccion[i]];
        FiltrarAnadir(coleccion[..i], coleccion[i], DelLibro(libro.value));
        if MismoLibro(coleccion[i].libro, libro.value) {
          prestamosLibro := prestamosLibro + [coleccion[i]];
        }
      }
      assert coleccion[..|coleccion|] == coleccion;
      var ordenados := OrdenarPor(prestamosLibro, ComparadorPorLibro());
      assert Ordenada(ordenados, ComparadorPorLibro()) by {
        OrdenarConComparadores(prestamosLibro);
      }
      assert forall p :: p in ordenados <==> p in coleccion && MismoLibro(p.libro, libro.value) by {
        FiltrarElementos(coleccion, DelLibro(libro.value));
        assert multiset(ordenados) == multiset(prestamosLibro);
      }
      r := Ok(ordenados);
    }

    /** get(LocalDate): the loans made in the month and year of a date,
        sorted like get(). */
    method GetPorFecha(fecha: Option<Fecha>) returns (r: Result<seq<Prestamo>>)
      ensures fecha.None? ==> r == Err(NullPointer)
      ensures fecha.Some? ==> (r.Ok?
        && multiset(r.value) == multiset(Filtrar(coleccion, DelMes(fecha.value)))
        && (forall p :: p in r.value <==> p in coleccion && MismoMes(p.fechaPrestamo, fecha.value))
        && Ordenada(r.value, ComparadorGeneral()))
    {
      if fecha.None? {
        return Err(NullPointer);
      }
      var prestamosMensuales := [];
      for i := 0 to |coleccion|
        invariant prestamosMensuales == Filtrar(coleccion[..i], DelMes(fecha.value))
      {
        assert coleccion[..i + 1] == coleccion[..i] + [coleccion[i]];
        FiltrarAnadir(coleccion[..i], coleccion[i], DelMes(fecha.value));
        if MismoMes(coleccion[i].fechaPrestamo, fecha.value) {
          prestamosMensuales := prestamosMensuales + [coleccion[i]];
        }
      }
      assert coleccion[..|coleccion|] == coleccion;
      var ordenados := OrdenarPor(prestamosMensuales, ComparadorGeneral());
      assert Ordenada(ordenados, ComparadorGeneral()) by {
        OrdenarConComparadores(prestamosMensuales);
      }
      assert forall p :: p in ordenados <==> p in coleccion && MismoMes(p.fechaPrestamo, fecha.value) by {
        FiltrarElementos(coleccion, DelMes(fecha.value));
        assert multiset(ordenados) == multiset(prestamosMensuales);
      }
      r := Ok(ordenados);
    }

    /** inicializarEstadisticas: every course, at 0. */
    static method InicializarEstadisticas() returns (m: map<Curso, int>)
      ensures forall c :: c in m && m[c] == 0
    {
      m := map[];
      for i := 0 to |CURSOS|
        invariant forall c :: c in m <==> c in CURSOS[..i]
        invariant forall c :: c in m ==> m[c] == 0
      {
        m := m[CURSOS[i] := 0];
      }
      CursosCompletos();
      assert CURSOS[..|CURSOS|] == CURSOS;
    }

    /** The loop of getEstadisticaMensualPorCurso: adds each loan's points to
        its student's course. */
    static method AcumularPuntos(m: map<Curso, int>, lista: seq<Prestamo>, puntos: Prestamo -> int)
      returns (estadisticas: map<Curso, int>)
      requires forall c :: c in m
      ensures forall c :: (c in estadisticas
        && estadisticas[c] == m[c] + Suma(Filtrar(lista, DelCurso(c)), puntos))
    {
      estadisticas := m;
      for i := 0 to |lista|
        invariant forall c :: (c in estadisticas
          && estadisticas[c] == m[c] + Suma(Filtrar(lista[..i], DelCurso(c)), puntos))
      {
        var curso := lista[i].alumno.curso;
        SumaPorCursoAnadir(lista, i, puntos);
        estadisticas := estadisticas[curso := estadisticas[curso] + puntos(lista[i])];
      }
      assert lista[..|lista|] == lista;
    }

    /** getEstadisticaMensualPorCurso: for every course, the points (given by
        Prestamo.getPuntos) of the loans of the date's month whose student is
        in that course. */
    method GetEstadisticaMensualPorCurso(fecha: Option<Fecha>, puntos: Prestamo -> int)
      returns (r: Result<map<Curso, int>>)
      ensures fecha.None? ==> r == Err(NullPointer)
      ensures fecha.Some? ==> (r.Ok?
        && forall c :: c in r.value && r.value[c] == PuntosMensuales(coleccion, fecha.value, c, puntos))
    {
      var estadisticas := InicializarEstadisticas();
      var mensuales := GetPorFecha(fecha);
      if mensuales.Err? {
        return Err(mensuales.error);
      }
      var lista := mensuales.value;
      estadisticas := AcumularPuntos(estadisticas, lista, puntos);
      assert forall c :: estadisticas[c] == PuntosMensuales(coleccion, fecha.value, c, puntos) by {
        EstadisticaDeLaLista(lista, coleccion, fecha.value, puntos);
      }
      r := Ok(estadisticas);
    }

    /** prestar: stores a copy of a loan that is not yet stored. */
    method Prestar(prestamo: Option<Prestamo>) returns (r: Outcome)
      requires Valid()
      modifies this
      ensures Valid()
      ensures prestamo.None? ==> r == Fail(NullPointer) && coleccion == old(coleccion)
      ensures prestamo.Some? && Contiene(clave, old(coleccion), clave(prestamo.value)) ==>
        r == Fail(OperationNotSupported) && coleccion == old(coleccion)
      ensures prestamo.Some? && !Contiene(clave, old(coleccion), clave(prestamo.value)) ==>
        r == Pass && coleccion == old(coleccion) + [prestamo.value]
    {
      if prestamo.None? {
        return Fail(NullPointer);
      }
      if !Contiene(clave, coleccion, clave(prestamo.value)) {
        AnadirConservaUnicidad(clave, coleccion, prestamo.value);
        coleccion := coleccion + [prestamo.value];
        r := Pass;
      } else {
        r := Fail(OperationNotSupported);
      }
    }

    /** devolver: hands the stored loan equal to the given one to
        Prestamo.devolver, which sets its return date or throws. */
    method Devolver(prestamo: Option<Prestamo>, fechaDevolucion: Option<Fecha>,
                    devolver: (Prestamo, Option<Fecha>) -> Result<Prestamo>)
      returns (r: Outcome)
      requires Valid()
      requires forall p, f :: devolver(p, f).Ok? ==> clave(devolver(p, f).value) == clave(p)
      modifies this
      ensures Valid()
      ensures prestamo.None? ==> r == Fail(NullPointer) && coleccion == old(coleccion)
      ensures prestamo.Some? && !Contiene(clave, old(coleccion), clave(prestamo.value)) ==>
        r == Fail(OperationNotSupported) && coleccion == old(coleccion)
      ensures prestamo.Some? && Contiene(clave, old(coleccion), clave(prestamo.value)) ==>
        var i := IndiceDe(clave, old(coleccion), clave(prestamo.value));
        match devolver(old(coleccion)[i], fechaDevolucion)
        case Ok(devuelto) => r == Pass && coleccion == old(coleccion)[i := devuelto]
        case Err(e) => r == Fail(e) && coleccion == old(coleccion)
    {
      if prestamo.None? {
        return Fail(NullPointer);
      }
      var indice := IndiceDe(clave, coleccion, clave(prestamo.value));
      if indice == -1 {
        r := Fail(OperationNotSupported);
      } else {
        match devolver(coleccion[indice], fechaDevolucion)
        case Ok(devuelto) =>
          SustituirConservaUnicidad(clave, coleccion, indice, devuelto);
          coleccion := coleccion[indice := devuelto];
          r := Pass;
        case Err(e) =>
          r := Fail(e);
      }
    }

    /** buscar: a copy of the stored loan equal to the given one, or null. */
    method Buscar(prestamo: Option<Prestamo>) returns (r: Result<Option<Prestamo>>)
      ensures prestamo.None? ==> r == Err(IllegalArgument)
      ensures prestamo.Some? ==> r.Ok?
      ensures prestamo.Some? && !Contiene(clave, coleccion, clave(prestamo.value)) ==> r == Ok(None)
      ensures prestamo.Some? && Contiene(clave, coleccion, clave(prestamo.value)) ==>
        r.Ok? && r.value.Some? && r.value.value in coleccion
        && clave(r.value.value) == clave(prestamo.value)
    {
      if prestamo.None? {
        return Err(IllegalArgument);
      }
      var indice := IndiceDe(clave, coleccion, clave(prestamo.value));
      if indice == -1 {
        r := Ok(None);
      } else {
        r := Ok(Some(coleccion[indice]));
      }
    }

    /** borrar: removes the stored loan equal to the given one. */
    method Borrar(prestamo: Option<Prestamo>) returns (r: Outcome)
      requires Valid()
      modifies this
      ensures Valid()
      ensures prestamo.None? ==> r == Fail(IllegalArgument) && coleccion == old(coleccion)
      ensures prestamo.Some? && !Contiene(clave, old(coleccion), clave(prestamo.value)) ==>
        r == Fail(OperationNotSupported) && coleccion == old(coleccion)
      ensures prestamo.Some? && Contiene(clave, old(coleccion), clave(prestamo.value)) ==>
        var i := IndiceDe(clave, old(coleccion), clave(prestamo.value));
        r == Pass && coleccion == old(coleccion)[..i] + old(coleccion)[i + 1..]
        && !Contiene(clave, coleccion, clave(prestamo.value))
    {
      if prestamo.None? {
        return Fail(IllegalArgument);
      }
      if !Contiene(clave, coleccion, clave(prestamo.value)) {
        r := Fail(OperationNotSupported);
      } else {
        var indice := IndiceDe(clave, coleccion, clave(prestamo.value));
        QuitarConservaUnicidad(clave, coleccion, indice);
        coleccion := coleccion[..indice] + coleccion[indice + 1..];
        r := Pass;
      }
    }
  }
}
