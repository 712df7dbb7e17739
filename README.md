# Library loan ledger (Biblioteca, business layer)

This project models `Prestamos`, the loan ledger of a school library
application. The ledger owns the list of loans (`Prestamo`: a student, a
book, a loan date and an optional return date). It stores a loan only when no
equal loan is stored (`prestar`), records a return on the stored loan
(`devolver`), looks a loan up (`buscar`) and deletes it (`borrar`). It
lists all loans, or the loans of one student, of one book or of one calendar
month, each time as copies sorted by a multi-key comparator. It also computes,
for a month, the points of its loans per student course.

Layout, one module per file:

- `resultados.dfy` (`Resultados`): `Option` for nullable arguments (`None` is null), `Excepcion` for the exceptions thrown (`NullPointer`, `IllegalArgument`, `OperationNotSupported`), `Result` and `Outcome` for "returns or throws".
- `comparadores.dfy` (`Comparadores`): `java.util.Comparator` as integer-valued functions, with `Comparing` and `ThenComparing` as in the Java API. `EsComparador` is the sign contract (antisymmetric, transitive). `String.compareTo` is modelled with its exact result.
- `ordenacion.dfy` (`Ordenacion`): `List.sort` as a function whose result is sorted by the comparator and a permutation of its input.
- `secuencias.dfy` (`Secuencias`): `indexOf`, `contains`, the copy-if-matching loops (`Filtrar`), sums, and the no-duplicates invariant. Element equality is a key function: two elements are equal when their keys are.
- `dominio.dfy` (`Dominio`): the values the ledger reads: `Curso`, `Fecha` (`LocalDate`, with `compareTo` and `mismoMes`), `Alumno`, `Libro`, `Prestamo`.
- `negocio.dfy` (`Negocio`): the class `Prestamos<K>`. Its `coleccion: seq<Prestamo>` field is reassigned by the mutators. `Valid()` says no two stored loans are equal. There are the three comparators of the listings, and the specification of the monthly statistic with its lemmas.
- `escenarios.dfy` (`Escenarios`): client methods on concrete loans. They show what the contracts let a caller conclude, for example the March listing and statistic for three loans.

Loans are immutable values. So the deep copies the ledger makes on every read
and write (`new Prestamo(p)`) are the values themselves, and no caller can
reach the stored loans through a returned one.

## Model

| member | source | states |
|---|---|---|
| Negocio.Prestamos.constructor | src/main/java/org/iesalandalus/programacion/biblioteca/mvc/modelo/negocio/Prestamos.java:21-23 | a new ledger is empty and satisfies the no-duplicates invariant |
| Negocio.Prestamos.Prestar | src/main/java/org/iesalandalus/programacion/biblioteca/mvc/modelo/negocio/Prestamos.java:124-133 | null: NullPointerException, unchanged; an equal loan already stored: OperationNotSupportedException, unchanged; otherwise exactly that loan is appended and earlier loans stay as they were; the invariant is kept |
| Negocio.Prestamos.Devolver | src/main/java/org/iesalandalus/programacion/biblioteca/mvc/modelo/negocio/Prestamos.java:135-145 | null: NullPointerException; no equal stored loan: OperationNotSupportedException; otherwise only the first equal stored loan is replaced by what Prestamo.devolver returns, or the domain's exception is passed on with the list unchanged; size and all other loans are unchanged; the invariant is kept |
| Negocio.Prestamos.Buscar | src/main/java/org/iesalandalus/programacion/biblioteca/mvc/modelo/negocio/Prestamos.java:147-157 | null: IllegalArgumentException; no equal loan: null; otherwise a stored loan equal to the argument; the list is not changed |
| Negocio.Prestamos.Borrar | src/main/java/org/iesalandalus/programacion/biblioteca/mvc/modelo/negocio/Prestamos.java:159-168 | null: IllegalArgumentException; no equal loan: OperationNotSupportedException, unchanged; otherwise that one loan is removed, the others keep their order, and no equal loan is left (so a second borrar fails) |
| Negocio.Prestamos.CopiaProfundaPrestamos | src/main/java/org/iesalandalus/programacion/biblioteca/mvc/modelo/negocio/Prestamos.java:36-42 | the copy holds every stored loan, in stored order |
| Negocio.Prestamos.Get | src/main/java/org/iesalandalus/programacion/biblioteca/mvc/modelo/negocio/Prestamos.java:25-34 | a permutation of the whole list, of length getTamano, sorted by date, student name, book title, book author |
| Negocio.Prestamos.GetTamano | src/main/java/org/iesalandalus/programacion/biblioteca/mvc/modelo/negocio/Prestamos.java:44-46 | the number of stored loans |
| Negocio.Prestamos.GetPorAlumno | src/main/java/org/iesalandalus/programacion/biblioteca/mvc/modelo/negocio/Prestamos.java:48-63 | null: NullPointerException; otherwise exactly the stored loans of an equal student, each as often as stored, sorted by date, title, author |
| Negocio.Prestamos.GetPorLibro | src/main/java/org/iesalandalus/programacion/biblioteca/mvc/modelo/negocio/Prestamos.java:65-80 | null: NullPointerException; otherwise exactly the stored loans of an equal book, sorted by date, student name |
| Negocio.Prestamos.GetPorFecha | src/main/java/org/iesalandalus/programacion/biblioteca/mvc/modelo/negocio/Prestamos.java:82-99 | null: NullPointerException; otherwise exactly the stored loans of the date's month and year, sorted like get() |
| Negocio.Prestamos.InicializarEstadisticas | src/main/java/org/iesalandalus/programacion/biblioteca/mvc/modelo/negocio/Prestamos.java:112-118 | every course is a key, with value 0 |
| Negocio.Prestamos.AcumularPuntos | src/main/java/org/iesalandalus/programacion/biblioteca/mvc/modelo/negocio/Prestamos.java:104-108 | the loop over the listing adds to each course exactly the points of the listed loans whose student is in that course, and keeps every course a key |
| Negocio.Prestamos.GetEstadisticaMensualPorCurso | src/main/java/org/iesalandalus/programacion/biblioteca/mvc/modelo/negocio/Prestamos.java:101-110 | null: NullPointerException; otherwise every course is a key, and its value is the sum of getPuntos over the month's loans of students of that course, whatever the listing's order |
| Negocio.ComparadorGeneral | src/main/java/org/iesalandalus/programacion/biblioteca/mvc/modelo/negocio/Prestamos.java:26-30 | the order of get() and get(LocalDate): the loan date decides whenever the dates differ, and two loans tie exactly when date, student name, book title and book author are all equal |
| Negocio.ComparadorPorAlumno | src/main/java/org/iesalandalus/programacion/biblioteca/mvc/modelo/negocio/Prestamos.java:58-60 | the order of get(Alumno): the date decides whenever the dates differ, and two loans tie exactly when date, book title and book author are equal |
| Negocio.ComparadorPorLibro | src/main/java/org/iesalandalus/programacion/biblioteca/mvc/modelo/negocio/Prestamos.java:75-77 | the order of get(Libro): the date decides whenever the dates differ, and two loans tie exactly when date and student name are equal |
| Negocio.MesContiguo | src/main/java/org/iesalandalus/programacion/biblioteca/mvc/modelo/negocio/Prestamos.java:25-34 | in a listing sorted like get(), the loans of one month form one contiguous block |
| Negocio.ComparadoresValidos | src/main/java/org/iesalandalus/programacion/biblioteca/mvc/modelo/negocio/Prestamos.java:26-30 | the comparators built with comparing/thenComparing for the three listings meet the Comparator contract |
| Negocio.OrdenarConComparadores | src/main/java/org/iesalandalus/programacion/biblioteca/mvc/modelo/negocio/Prestamos.java:31-32 | sorting with each listing comparator gives a sorted list |
| Negocio.MesSinPrestamos | src/main/java/org/iesalandalus/programacion/biblioteca/mvc/modelo/negocio/Prestamos.java:112-118 | with no loan in the month, every course scores 0 |
| Negocio.SumaPorCursos | src/main/java/org/iesalandalus/programacion/biblioteca/mvc/modelo/negocio/Prestamos.java:104-108 | every loan is counted for exactly one course, so the four courses add up to the total points |
| Negocio.EstadisticaSumaElMes | src/main/java/org/iesalandalus/programacion/biblioteca/mvc/modelo/negocio/Prestamos.java:101-110 | the month's statistic adds up to the points of the loans get(LocalDate) lists |
| Negocio.EstadisticaDeLaLista | src/main/java/org/iesalandalus/programacion/biblioteca/mvc/modelo/negocio/Prestamos.java:103-108 | summing the sorted listing course by course gives the sum over the month's stored loans |
| Negocio.SumaPorCursoAnadir | src/main/java/org/iesalandalus/programacion/biblioteca/mvc/modelo/negocio/Prestamos.java:105-107 | one loop step adds the loan's points to its student's course and nothing to the others |
| Secuencias.IndiceDe | src/main/java/org/iesalandalus/programacion/biblioteca/mvc/modelo/negocio/Prestamos.java:139 | indexOf: -1 exactly when no element is equal; otherwise the first equal position |
| Secuencias.Contiene | src/main/java/org/iesalandalus/programacion/biblioteca/mvc/modelo/negocio/Prestamos.java:128 | contains: true exactly when some element is equal to the argument |
| Secuencias.AnadirConservaUnicidad | src/main/java/org/iesalandalus/programacion/biblioteca/mvc/modelo/negocio/Prestamos.java:128-129 | appending a loan with no stored equal keeps the list free of duplicates, and the new loan is found at the end |
| Secuencias.SustituirConservaUnicidad | src/main/java/org/iesalandalus/programacion/biblioteca/mvc/modelo/negocio/Prestamos.java:139-143 | replacing a loan by one equal to it keeps the list free of duplicates |
| Secuencias.QuitarConservaUnicidad | src/main/java/org/iesalandalus/programacion/biblioteca/mvc/modelo/negocio/Prestamos.java:163-166 | removing a loan from a list without duplicates leaves no equal loan and no duplicates |
| Secuencias.FiltrarElementos | src/main/java/org/iesalandalus/programacion/biblioteca/mvc/modelo/negocio/Prestamos.java:52-57 | the copy-if-matching loop keeps exactly the matching elements, each as often as in the list |
| Secuencias.FiltrarPermutacion | src/main/java/org/iesalandalus/programacion/biblioteca/mvc/modelo/negocio/Prestamos.java:103-105 | filtering a permutation gives a permutation of the filtered list |
| Secuencias.SumaPermutacion | src/main/java/org/iesalandalus/programacion/biblioteca/mvc/modelo/negocio/Prestamos.java:104-108 | a sum does not depend on the order of the summed elements |
| Ordenacion.OrdenarPor | src/main/java/org/iesalandalus/programacion/biblioteca/mvc/modelo/negocio/Prestamos.java:32 | List.sort: the result holds exactly the input's elements, each as often, so the length is kept (that it is sorted: Ordenacion.OrdenarPorOrdena) |
| Ordenacion.OrdenarPorOrdena | src/main/java/org/iesalandalus/programacion/biblioteca/mvc/modelo/negocio/Prestamos.java:32 | the sort's result is ordered by any comparator that meets the contract, and is a permutation of its input |
| Ordenacion.InsertarOrdenada | src/main/java/org/iesalandalus/programacion/biblioteca/mvc/modelo/negocio/Prestamos.java:32 | inserting into a sorted list keeps it sorted |
| Comparadores.ThenComparingEsComparador | src/main/java/org/iesalandalus/programacion/biblioteca/mvc/modelo/negocio/Prestamos.java:27-30 | thenComparing of two comparators is a comparator |
| Comparadores.ComparingEsComparador | src/main/java/org/iesalandalus/programacion/biblioteca/mvc/modelo/negocio/Prestamos.java:26 | comparing by a key with a comparator is a comparator |
| Comparadores.CadenasEsComparador | src/main/java/org/iesalandalus/programacion/biblioteca/mvc/modelo/negocio/Prestamos.java:26-27 | String.compareTo meets the Comparator contract and is zero exactly on equal strings |
| Comparadores.CompararCadenasCero | src/main/java/org/iesalandalus/programacion/biblioteca/mvc/modelo/negocio/Prestamos.java:26-27 | String.compareTo is zero exactly on equal strings |
| Dominio.FechasEsComparador | src/main/java/org/iesalandalus/programacion/biblioteca/mvc/modelo/negocio/Prestamos.java:28 | LocalDate.compareTo is a comparator, zero exactly on equal dates, negative exactly when the first date is earlier |
| Dominio.MismoMes | src/main/java/org/iesalandalus/programacion/biblioteca/mvc/modelo/negocio/Prestamos.java:120-122 | mismoMes: true exactly when the two dates have the same first day of the month (same month and year, any day); within a month, compareTo orders by day |
| Dominio.MismoMesEsIntervalo | src/main/java/org/iesalandalus/programacion/biblioteca/mvc/modelo/negocio/Prestamos.java:120-122 | a date between two dates of one month is in that month |
| Dominio.CursosCompletos | src/main/java/org/iesalandalus/programacion/biblioteca/mvc/modelo/negocio/Prestamos.java:114-116 | Curso.values() lists each of the four courses once |
| Escenarios.ListadoDeMarzo | src/main/java/org/iesalandalus/programacion/biblioteca/mvc/modelo/negocio/Prestamos.java:82-99 | with loans A (5 March), B (20 March) and C (1 April), a sorted listing of March's loans is [A, B] |
| Escenarios.EstadisticaDeMarzo | src/main/java/org/iesalandalus/programacion/biblioteca/mvc/modelo/negocio/Prestamos.java:101-118 | for those loans, March scores A's points in A's course, B's in B's, 0 in the other two |
| Escenarios.EscenarioMensual | src/main/java/org/iesalandalus/programacion/biblioteca/mvc/modelo/negocio/Prestamos.java:82-118 | inserting A, B, C, then get(March) returns [A, B] and the statistic is {Primero: A's points, Segundo: B's points, Tercero: 0, Cuarto: 0} |
| Escenarios.EscenarioAltasYBajas | src/main/java/org/iesalandalus/programacion/biblioteca/mvc/modelo/negocio/Prestamos.java:124-168 | a repeated insert fails, the same student and book on another date is accepted, buscar of a loan never inserted returns null, and a second borrar fails with OperationNotSupportedException |

## Left out

- Vista.java and Consola.java: the text menu, keyboard input, date parsing and printing are I/O and are not modelled.
- Prestamo.equals is not part of this model. Loan equality is the class parameter `clave`: two loans are equal when their keys are. Loans may be keyed by (student, book, loan date), which `Escenarios` uses. The console looks loans up with a dummy loan that carries only a student and a book (src/main/java/org/iesalandalus/programacion/biblioteca/mvc/vista/Consola.java:87-91), which fits a (student, book) key. Both are instances of `clave`.
- Alumno.equals and Libro.equals are not part of this model. They are modelled as "same e-mail" and "same title and author", the only fields the console's lookup students and books carry.
- Prestamo.getPuntos is not part of this model. The statistic takes it as a parameter `puntos`.
- Prestamo.devolver is not part of this model. `Devolver` takes it as a parameter that returns the updated loan or an exception. It must keep the loan's key, otherwise the no-duplicates invariant could break. Whether a second return overwrites the date is left to that parameter, and so is the rule that a return date is never cleared.
- Negocio.Prestamos.Devolver: a failing Prestamo.devolver is taken to leave the stored loan unchanged; a partial update before the exception is not modelled.
- Negocio.Prestamos.Get, GetPorAlumno, GetPorLibro, GetPorFecha: the contracts state sorted and permutation. They do not state that List.sort is stable, i.e. that loans tied on every key (two students with the same name, same date and book) keep their insertion order. The insertion sort that stands in for the library's TimSort is stable, but this is not proved.
- Java `int` overflow in the statistic's sums is not modelled; sums are mathematical integers.
- String.compareTo compares UTF-16 code units. The model compares Dafny characters (Unicode scalar values). The two orders differ only for characters outside the Basic Multilingual Plane.
- LocalDate's calendar rules (month 1 to 12, valid day) are not enforced on `Fecha`. Neither compareTo nor mismoMes depends on them.
- Exceptions are returned as `Result` and `Outcome` values, not thrown: prestar, devolver and the three filtered listings (and so the statistic) throw NullPointerException on null; buscar and borrar throw IllegalArgumentException. The listings use a stable sort, so loans tied on every key keep their insertion order; the contracts state the sort keys and which loans tie, not that order among ties.
