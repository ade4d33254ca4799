/**
 * Times of day as java.time's `LocalTime`: a second of the day and a
 * nanosecond, so that equality is `LocalTime.equals` (hour, minute, second
 * and nanosecond all equal).  The parser is `LocalTime.parse`, that is the
 * ISO_LOCAL_TIME format: two-digit hour, ':', two-digit minute, then
 * optionally ':' and a two-digit second, then optionally '.' and up to nine
 * fraction digits, the whole text consumed, the fields in range.
 */
module LocalTime {
  import opened Common

  const SegundosPorDia: nat := 86400
  const NanosPorSegundo: nat := 1_000_000_000

  datatype Time = Time(segundoDelDia: nat, nano: nat)

  predicate Valida(t: Time) {
    t.segundoDelDia < SegundosPorDia && t.nano < NanosPorSegundo
  }

  /** `LocalTime.of(hora, minuto)`. */
  function Of(hora: nat, minuto: nat): (t: Time)
    requires hora < 24 && minuto < 60
    ensures Valida(t) && t.nano == 0
    ensures Hora(t) == hora && Minuto(t) == minuto && Segundo(t) == 0
  {
    Time(hora * 3600 + minuto * 60, 0)
  }

  function Hora(t: Time): nat { t.segundoDelDia / 3600 }
  function Minuto(t: Time): nat { (t.segundoDelDia / 60) % 60 }
  function Segundo(t: Time): nat { t.segundoDelDia % 60 }

  /** `withSecond(0).withNano(0)`: the start of the minute. */
  function Truncar(t: Time): (r: Time)
    requires Valida(t)
    ensures Valida(r) && r.nano == 0 && Segundo(r) == 0
    ensures Hora(r) == Hora(t) && Minuto(r) == Minuto(t)
    ensures r.segundoDelDia <= t.segundoDelDia < r.segundoDelDia + 60
  {
    Time(t.segundoDelDia - t.segundoDelDia % 60, 0)
  }

  // ---------------------------------------------------------------------------
  // Parsing

  predicate EsDigito(c: char) { '0' <= c <= '9' }

  function ValorDigito(c: char): (d: nat)
    requires EsDigito(c)
    ensures d < 10
  {
    c as int - '0' as int
  }

  /** The value of the two digits `s[i]`, `s[i+1]`. */
  function DosDigitos(s: string, i: nat): (n: nat)
    requires i + 1 < |s| && EsDigito(s[i]) && EsDigito(s[i + 1])
    ensures n < 100
  {
    ValorDigito(s[i]) * 10 + ValorDigito(s[i + 1])
  }

  predicate TodoDigitos(s: string) {
    forall k :: 0 <= k < |s| ==> EsDigito(s[k])
  }

  /** The decimal value of a digit string. */
  function ValorDecimal(s: string): (n: nat)
    requires TodoDigitos(s)
    ensures n < Potencia10(|s|)
  {
    if s == [] then 0 else ValorDecimal(s[..|s| - 1]) * 10 + ValorDigito(s[|s| - 1])
  }

  function Potencia10(k: nat): (p: nat)
    ensures p >= 1
  {
    if k == 0 then 1 else 10 * Potencia10(k - 1)
  }

  /** Fraction digits as nanoseconds: "5" is 500000000, "000000001" is 1. */
  function Nanos(digitos: string): (n: nat)
    requires TodoDigitos(digitos) && |digitos| <= 9
    ensures n < NanosPorSegundo
  {
    CotaNanos(ValorDecimal(digitos), |digitos|);
    ValorDecimal(digitos) * Potencia10(9 - |digitos|)
  }

  /** The hour-and-minute head `hh:mm` is present. */
  predicate Cabecera(s: string) {
    |s| >= 5 && EsDigito(s[0]) && EsDigito(s[1]) && s[2] == ':' && EsDigito(s[3]) && EsDigito(s[4])
  }

  /**
   * The optional tail after `hh:mm`: nothing, or ':' with two second digits,
   * then nothing or '.' with at most nine digits (a bare '.' reads as zero).
   */
  predicate ColaValida(resto: string) {
    resto == [] ||
    (|resto| >= 3 && resto[0] == ':' && EsDigito(resto[1]) && EsDigito(resto[2]) &&
     (|resto| == 3 || (resto[3] == '.' && |resto| <= 13 && TodoDigitos(resto[4..]))))
  }

  /** `LocalTime.parse(s)`: the time, or None where java.time throws. */
  function ParseIsoLocalTime(s: string): (r: Option<Time>)
    ensures r.Some? ==> Valida(r.value)
    ensures r.Some? ==> Cabecera(s) && ColaValida(s[5..])
  {
    if !Cabecera(s) || !ColaValida(s[5..]) then None
    else
      var h := DosDigitos(s, 0);
      var m := DosDigitos(s, 3);
      var sec := if |s| == 5 then 0 else DosDigitos(s, 6);
      var nano := if |s| <= 8 then 0 else Nanos(s[9..]);
      if h <= 23 && m <= 59 && sec <= 59 then Some(Time(h * 3600 + m * 60 + sec, nano)) else None
  }

  /** `hh:mm` with leading zeros, the shape `LocalTime.toString` gives a whole minute. */
  function FormatoHoraMinuto(hora: nat, minuto: nat): (s: string)
    requires hora < 24 && minuto < 60
    ensures |s| == 5 && s[2] == ':'
  {
    [DigitChar(hora / 10), DigitChar(hora % 10), ':', DigitChar(minuto / 10), DigitChar(minuto % 10)]
  }

  /** Round trip: the `hh:mm` text of a whole minute parses back to that minute. */
  lemma ParseFormatoHoraMinuto(hora: nat, minuto: nat)
    requires hora < 24 && minuto < 60
    ensures ParseIsoLocalTime(FormatoHoraMinuto(hora, minuto)) == Some(Of(hora, minuto))
  {
    var s := FormatoHoraMinuto(hora, minuto);
    DigitoDe(hora / 10);
    DigitoDe(hora % 10);
    DigitoDe(minuto / 10);
    DigitoDe(minuto % 10);
    assert DosDigitos(s, 0) == hora;
    assert DosDigitos(s, 3) == minuto;
  }

  /** A five-character text parses exactly when it is the `hh:mm` text of a time. */
  lemma ParseCincoCaracteres(s: string)
    requires |s| == 5
    ensures ParseIsoLocalTime(s).Some? <==>
      exists h: nat, m: nat :: h < 24 && m < 60 && s == FormatoHoraMinuto(h, m)
  {
    if ParseIsoLocalTime(s).Some? {
      ParseCincoEsFormato(s);
    } else {
      forall h: nat, m: nat | h < 24 && m < 60 ensures s != FormatoHoraMinuto(h, m) {
        ParseFormatoHoraMinuto(h, m);
      }
    }
  }

  /** A five-character text that parses is the `hh:mm` text of the hour and minute read from it. */
  lemma ParseCincoEsFormato(s: string)
    requires |s| == 5 && ParseIsoLocalTime(s).Some?
    ensures DosDigitos(s, 0) < 24 && DosDigitos(s, 3) < 60
    ensures s == FormatoHoraMinuto(DosDigitos(s, 0), DosDigitos(s, 3))
  {
    DosDigitosDeVuelta(s, 0);
    DosDigitosDeVuelta(s, 3);
  }

  /** `hh:mm:ss`, followed by `.` and the fraction digits when there are any. */
  function FormatoConSegundos(hora: nat, minuto: nat, segundo: nat, fraccion: string): (s: string)
    requires hora < 24 && minuto < 60 && segundo < 60
    requires TodoDigitos(fraccion) && |fraccion| <= 9
    ensures |s| == 8 || |s| == 9 + |fraccion|
  {
    FormatoHoraMinuto(hora, minuto) + [':', DigitChar(segundo / 10), DigitChar(segundo % 10)] +
    (if fraccion == [] then [] else ['.'] + fraccion)
  }

  /**
   * A text `hh:mm:ss`, or `hh:mm:ss.` followed by at most nine digits, with
   * the fields in range parses to that second of the day, the digits read as
   * nanoseconds.
   */
  lemma ParseConSegundos(s: string)
    requires Cabecera(s) && |s| >= 8 && s[5] == ':' && EsDigito(s[6]) && EsDigito(s[7])
    requires |s| == 8 || (s[8] == '.' && |s| <= 18 && TodoDigitos(s[9..]))
    requires DosDigitos(s, 0) < 24 && DosDigitos(s, 3) < 60 && DosDigitos(s, 6) < 60
    ensures ParseIsoLocalTime(s) ==
      Some(Time(DosDigitos(s, 0) * 3600 + DosDigitos(s, 3) * 60 + DosDigitos(s, 6), if |s| == 8 then 0 else Nanos(s[9..])))
  {
    if |s| > 8 {
      assert s[5..][4..] == s[9..];
    }
  }

  /**
   * Round trip with seconds and a fraction: the text parses to that hour,
   * minute and second, with the fraction read as nanoseconds.
   */
  lemma ParseFormatoConSegundos(hora: nat, minuto: nat, segundo: nat, fraccion: string)
    requires hora < 24 && minuto < 60 && segundo < 60
    requires TodoDigitos(fraccion) && |fraccion| <= 9
    ensures var t := ParseIsoLocalTime(FormatoConSegundos(hora, minuto, segundo, fraccion));
      t.Some? && Hora(t.value) == hora && Minuto(t.value) == minuto && Segundo(t.value) == segundo &&
      t.value.nano == Nanos(fraccion)
  {
    var s := FormatoConSegundos(hora, minuto, segundo, fraccion);
    DigitoDe(hora / 10);
    DigitoDe(hora % 10);
    DigitoDe(minuto / 10);
    DigitoDe(minuto % 10);
    DigitoDe(segundo / 10);
    DigitoDe(segundo % 10);
    assert DosDigitos(s, 0) == hora && DosDigitos(s, 3) == minuto && DosDigitos(s, 6) == segundo;
    if fraccion != [] {
      assert s[9..] == fraccion;
    }
    ParseConSegundos(s);
    SegundoDelDia(hora, minuto, segundo, ParseIsoLocalTime(s).value);
  }

  /** The hour, minute and second read back from a second of the day. */
  lemma SegundoDelDia(hora: nat, minuto: nat, segundo: nat, t: Time)
    requires hora < 24 && minuto < 60 && segundo < 60
    requires t.segundoDelDia == hora * 3600 + minuto * 60 + segundo
    ensures Hora(t) == hora && Minuto(t) == minuto && Segundo(t) == segundo
  {
    var n := t.segundoDelDia;
    assert n == (hora * 60 + minuto) * 60 + segundo;
    assert n / 60 == hora * 60 + minuto;
    assert n == hora * 3600 + (minuto * 60 + segundo);
  }

  // ---------------------------------------------------------------------------
  // The request validator's pattern for `hora`

  /** `^([01]?[0-9]|2[0-3]):[0-5][0-9]$`, matched against the whole text. */
  predicate CumplePatronHora(s: string) {
    var minutos := (t: string) => |t| == 3 && t[0] == ':' && '0' <= t[1] <= '5' && EsDigito(t[2]);
    (|s| == 4 && EsDigito(s[0]) && minutos(s[1..])) ||
    (|s| == 5 && (((s[0] == '0' || s[0] == '1') && EsDigito(s[1])) || (s[0] == '2' && '0' <= s[1] <= '3')) &&
     minutos(s[2..]))
  }

  /** A two-digit text the pattern accepts is one the parser accepts, and the other way round. */
  lemma PatronDosDigitosIgualParser(s: string)
    requires |s| == 5
    ensures CumplePatronHora(s) <==> ParseIsoLocalTime(s).Some?
  {
  }

  /** A one-digit hour passes the pattern but not the parser. */
  lemma PatronUnDigitoRechazado(s: string)
    requires |s| == 4
    ensures ParseIsoLocalTime(s) == None
  {
  }

  /** "8:00" passes the request validator, and the parser rejects it. */
  lemma OchoSinCero()
    ensures CumplePatronHora("8:00")
    ensures ParseIsoLocalTime("8:00") == None
  {
    PatronUnDigitoRechazado("8:00");
  }

  /** A parsed time off the minute boundary is never equal to a truncated clock reading. */
  lemma SegundosNuncaCoinciden(s: string, reloj: Time)
    requires Valida(reloj)
    requires ParseIsoLocalTime(s).Some?
    requires Segundo(ParseIsoLocalTime(s).value) != 0 || ParseIsoLocalTime(s).value.nano != 0
    ensures ParseIsoLocalTime(s) != Some(Truncar(reloj))
  {
  }

  // ---------------------------------------------------------------------------
  // Arithmetic helpers

  lemma DigitoDe(d: nat)
    requires d < 10
    ensures EsDigito(DigitChar(d)) && ValorDigito(DigitChar(d)) == d
  {
  }

  lemma {:induction false} PotenciaProducto(a: nat, b: nat)
    ensures Potencia10(a) * Potencia10(b) == Potencia10(a + b)
  {
    if a > 0 {
      PotenciaProducto(a - 1, b);
    }
  }

  /** A value of `k` digits scaled to nine digits stays below a second. */
  lemma CotaNanos(v: nat, k: nat)
    requires k <= 9 && v < Potencia10(k)
    ensures v * Potencia10(9 - k) < NanosPorSegundo
  {
    PotenciaProducto(k, 9 - k);
    MenorPorPotencia(v, Potencia10(k), Potencia10(9 - k));
    assert Potencia10(9) == NanosPorSegundo;
  }

  /** The two digits of a value below 100 are the characters it was read from. */
  lemma DosDigitosDeVuelta(s: string, i: nat)
    requires i + 1 < |s| && EsDigito(s[i]) && EsDigito(s[i + 1])
    ensures DigitChar(DosDigitos(s, i) / 10) == s[i] && DigitChar(DosDigitos(s, i) % 10) == s[i + 1]
  {
    var a := ValorDigito(s[i]);
    var b := ValorDigito(s[i + 1]);
    assert DosDigitos(s, i) / 10 == a && DosDigitos(s, i) % 10 == b;
  }

  lemma MenorPorPotencia(v: nat, p: nat, q: nat)
    requires v < p && q >= 1
    ensures v * q < p * q
  {
  }
}
