/**
 * The proleptic Gregorian calendar of `java.time.LocalDate`: civil dates,
 * their day numbers (days since 1970-01-01, `toEpochDay`), the ISO day of
 * the week (Monday 1 .. Sunday 7) and the length of a month.
 */
module Calendar {

  datatype Fecha = Fecha(anio: int, mes: int, dia: int)

  predicate EsBisiesto(anio: int) {
    anio % 4 == 0 && (anio % 100 != 0 || anio % 400 == 0)
  }

  /** `lengthOfMonth`. */
  function LargoDelMes(anio: int, mes: int): (n: int)
    requires 1 <= mes <= 12
    ensures 28 <= n <= 31
    ensures n == 29 <==> mes == 2 && EsBisiesto(anio)
  {
    if mes == 2 then (if EsBisiesto(anio) then 29 else 28)
    else if mes == 4 || mes == 6 || mes == 9 || mes == 11 then 30
    else 31
  }

  predicate FechaValida(f: Fecha) {
    1 <= f.mes <= 12 && 1 <= f.dia <= LargoDelMes(f.anio, f.mes)
  }

  /** Days before the first of month `mes` in a year that starts on March 1st. */
  function DiasAntesDelMes(mes: int): int
    requires 1 <= mes <= 12
  {
    (153 * (if mes > 2 then mes - 3 else mes + 9) + 2) / 5
  }

  /** `toEpochDay`: days since 1970-01-01 (the usual days-from-civil computation). */
  function DiaEpoca(f: Fecha): int
    requires 1 <= f.mes <= 12
  {
    var y := if f.mes <= 2 then f.anio - 1 else f.anio;
    InicioAnioMarzo(y) + DiasAntesDelMes(f.mes) + f.dia - 1
  }

  /** The day number of March 1st of year `y`: whole 400-year eras, then the years and leap days of the era. */
  function InicioAnioMarzo(y: int): int {
    var era := y / 400;
    var yoe := y - era * 400;
    era * 146097 + yoe * 365 + yoe / 4 - yoe / 100 - 719468
  }

  /** The days of a month are consecutive day numbers. */
  lemma DiasDelMesConsecutivos(anio: int, mes: int, dia: int)
    requires 1 <= mes <= 12
    ensures DiaEpoca(Fecha(anio, mes, dia)) == DiaEpoca(Fecha(anio, mes, 1)) + dia - 1
  {
  }

  /** The day after the last of a month is the first of the next month. */
  lemma FinDeMesSiguePrimero(anio: int, mes: int)
    requires 1 <= mes <= 12
    ensures var siguiente := if mes == 12 then Fecha(anio + 1, 1, 1) else Fecha(anio, mes + 1, 1);
      DiaEpoca(Fecha(anio, mes, LargoDelMes(anio, mes))) + 1 == DiaEpoca(siguiente)
  {
    if mes == 2 {
      FebreroAMarzo(anio);
    } else {
      MesesContiguos(anio, mes);
    }
  }

  /** Outside February, a month's length carries its offset to the next month's within the same March-based year. */
  lemma MesesContiguos(anio: int, mes: int)
    requires 1 <= mes <= 12 && mes != 2
    ensures DiasAntesDelMes(mes) + LargoDelMes(anio, mes) == DiasAntesDelMes(if mes == 12 then 1 else mes + 1)
  {
  }

  /** February ends where March begins: the only step that crosses a March-based year. */
  lemma FebreroAMarzo(anio: int)
    ensures DiaEpoca(Fecha(anio, 2, LargoDelMes(anio, 2))) + 1 == DiaEpoca(Fecha(anio, 3, 1))
  {
    var y := anio - 1;
    var era := y / 400;
    var yoe := y - era * 400;
    if yoe == 399 {
      AnioMarzoCambioDeEra(anio, era);
    } else {
      AnioMarzoMismaEra(anio, era, yoe);
    }
  }

  /** The March-based year `anio` starts a new 400-year era, and `anio` is then a leap year. */
  lemma AnioMarzoCambioDeEra(anio: int, era: int)
    requires anio == (era + 1) * 400
    ensures InicioAnioMarzo(anio) == InicioAnioMarzo(anio - 1) + (if EsBisiesto(anio) then 366 else 365)
  {
    assert (anio - 1) / 400 == era && anio / 400 == era + 1;
    assert EsBisiesto(anio);
  }

  /** Within one era, March 1st of `anio` is one year of days after that of `anio - 1`, plus the leap day. */
  lemma AnioMarzoMismaEra(anio: int, era: int, yoe: int)
    requires anio - 1 == era * 400 + yoe && 0 <= yoe < 399
    ensures InicioAnioMarzo(anio) == InicioAnioMarzo(anio - 1) + (if EsBisiesto(anio) then 366 else 365)
  {
    assert (anio - 1) / 400 == era && anio / 400 == era;
    Salto(yoe, 4);
    Salto(yoe, 100);
    MismoResto(anio, yoe + 1, era);
  }

  /** Going from `x` to `x + 1` adds one to `x / k` exactly when `x + 1` is a multiple of `k`. */
  lemma Salto(x: int, k: int)
    requires k == 4 || k == 100
    ensures (x + 1) / k == x / k + (if (x + 1) % k == 0 then 1 else 0)
  {
  }

  /** Adding whole eras keeps the remainders the leap-year rule looks at. */
  lemma MismoResto(anio: int, r: int, era: int)
    requires anio == era * 400 + r && 0 < r < 400
    ensures anio % 4 == r % 4 && anio % 100 == r % 100 && anio % 400 == r
  {
    RestoCuatro(anio, r, era);
    RestoCien(anio, r, era);
    RestoCuatrocientos(anio, r, era);
  }

  lemma RestoCuatrocientos(anio: int, r: int, era: int)
    requires anio == era * 400 + r && 0 < r < 400
    ensures anio % 400 == r
  {
  }

  lemma RestoCuatro(anio: int, r: int, era: int)
    requires anio == era * 400 + r && 0 < r < 400
    ensures anio % 4 == r % 4
  {
    assert anio == (era * 100 + r / 4) * 4 + r % 4;
  }

  lemma RestoCien(anio: int, r: int, era: int)
    requires anio == era * 400 + r && 0 < r < 400
    ensures anio % 100 == r % 100
  {
    assert anio == (era * 4 + r / 100) * 100 + r % 100;
  }

  /** `getDayOfWeek().getValue()`: 1 for Monday .. 7 for Sunday; 1970-01-01 was a Thursday. */
  function DiaDeLaSemana(n: int): (d: int)
    ensures 1 <= d <= 7
  {
    (n + 3) % 7 + 1
  }

  /** `hoy.minusDays(getDayOfWeek().getValue() - 1)`: the Monday of the week. */
  function InicioSemana(hoy: int): (lunes: int)
    ensures DiaDeLaSemana(lunes) == 1
    ensures lunes <= hoy < lunes + 7
  {
    hoy - (DiaDeLaSemana(hoy) - 1)
  }

  /** The next day has the next weekday, Sunday wrapping to Monday. */
  lemma DiaSiguiente(n: int)
    ensures DiaDeLaSemana(n + 1) == if DiaDeLaSemana(n) == 7 then 1 else DiaDeLaSemana(n) + 1
  {
  }

  /** `getMonth().toString()`. */
  function NombreMes(mes: int): string
    requires 1 <= mes <= 12
  {
    ["JANUARY", "FEBRUARY", "MARCH", "APRIL", "MAY", "JUNE", "JULY",
     "AUGUST", "SEPTEMBER", "OCTOBER", "NOVEMBER", "DECEMBER"][mes - 1]
  }

  lemma EpocaEsJueves()
    ensures DiaEpoca(Fecha(1970, 1, 1)) == 0
    ensures DiaDeLaSemana(0) == 4
  {
    assert 1969 / 400 == 4 && 369 / 4 == 92 && 369 / 100 == 3;
    assert InicioAnioMarzo(1969) == -306;
    assert DiasAntesDelMes(1) == 306;
  }
}
