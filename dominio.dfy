/** The domain values the ledger stores and compares: courses, dates,
    students, books and loans. Their classes (Curso, Alumno, Libro, Prestamo)
    live outside the ledger; only what the ledger reads of them is modelled. */
module Dominio {
  import opened Resultados
  import opened Comparadores

  /** The course of a student, in declaration order. */
  datatype Curso = Primero | Segundo | Tercero | Cuarto

  /** Curso.values(). */
  const CURSOS: seq<Curso> := [Primero, Segundo, Tercero, Cuarto]

  lemma CursosCompletos()
    ensures forall c: Curso :: c in CURSOS
    ensures |CURSOS| == 4 && forall i, j :: 0 <= i < j < |CURSOS| ==> CURSOS[i] != CURSOS[j]
  {
    forall c: Curso ensures c in CURSOS {
      match c
      case Primero => assert CURSOS[0] == c;
      case Segundo => assert CURSOS[1] == c;
      case Tercero => assert CURSOS[2] == c;
      case Cuarto => assert CURSOS[3] == c;
    }
  }

  /** java.time.LocalDate, as its year, month and day. */
  datatype Fecha = Fecha(anio: int, mes: int, dia: int)

  /** LocalDate.compareTo: the difference of the years, else of the months,
      else of the days. */
  function CompararFechas(a: Fecha, b: Fecha): int {
    if a.anio != b.anio then a.anio - b.anio
    else if a.mes != b.mes then a.mes - b.mes
    else a.dia - b.dia
  }

  /** LocalDate.compareTo orders dates chronologically: it is negative exactly
      when the first date is lexicographically before the second, zero exactly
      on equal dates, and it meets the Comparator contract. */
  lemma FechasEsComparador()
    ensures EsComparador(CompararFechas)
    ensures forall a, b :: CompararFechas(a, b) == 0 <==> a == b
    ensures forall a, b :: CompararFechas(a, b) < 0 <==>
      a.anio < b.anio || (a.anio == b.anio && (a.mes < b.mes || (a.mes == b.mes && a.dia < b.dia)))
  {
  }

  /** Prestamos.mismoMes: the two dates fall in the same month of the same
      year, i.e. they have the same first day of the month; within a month,
      compareTo orders dates by their day. */
  predicate MismoMes(f1: Fecha, f2: Fecha): (r: bool)
    ensures r <==> Fecha(f1.anio, f1.mes, 1) == Fecha(f2.anio, f2.mes, 1)
    ensures r ==> CompararFechas(f1, f2) == f1.dia - f2.dia
  {
    f1.mes == f2.mes && f1.anio == f2.anio
  }

  /** The days of one month form an interval of the chronological order:
      a date between two dates of a month is in that month. */
  lemma {:induction false} MismoMesEsIntervalo(a: Fecha, b: Fecha, c: Fecha)
    requires MismoMes(a, c)
    requires CompararFechas(a, b) <= 0 && CompararFechas(b, c) <= 0
    ensures MismoMes(a, b) && MismoMes(b, c)
  {
  }

  /** A student: name, e-mail address and course. */
  datatype Alumno = Alumno(nombre: string, correo: string, curso: Curso)

  /** Alumno.equals: students are identified by their e-mail address (the
      console looks a student up by e-mail alone). */
  predicate MismoAlumno(a: Alumno, b: Alumno) {
    a.correo == b.correo
  }

  /** A book: title, author and number of pages. */
  datatype Libro = Libro(titulo: string, autor: string, numPaginas: int)

  /** Libro.equals: books are identified by title and author (the console
      looks a book up by these two alone). */
  predicate MismoLibro(a: Libro, b: Libro) {
    a.titulo == b.titulo && a.autor == b.autor
  }

  /** A loan: who borrowed what on which date, and the return date once the
      book is back (None while it is out). */
  datatype Prestamo = Prestamo(alumno: Alumno, libro: Libro, fechaPrestamo: Fecha,
                               fechaDevolucion: Option<Fecha>)
}
