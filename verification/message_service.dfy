/**
 * The reminder scan (MessageService): for every habit, a chain of checks
 * (a habit with an owner and a non-blank `hora`, the owner's settings row,
 * at least one channel switched on, a `hora` that parses) and an exact
 * comparison of the parsed time with the reference time.  A failing habit
 * is counted as an error and the scan goes on with the next one.  The
 * console output is returned as the list of emitted messages.
 */
module MessageService {
  import opened Common
  import opened Model
  import opened LocalTime

  // ---------------------------------------------------------------------------
  // The per-habit decision

  /** `esHabitValidoParaNotificacion`: present, owned, and with a `hora` that is not blank after `trim()`. */
  predicate EsHabitValidoParaNotificacion(h: Option<Habit>) {
    h.Some? && h.value.usuario.Some? && h.value.hora.Some? && JavaTrim(h.value.hora.value) != []
  }

  predicate NotificacionesActivas(c: NotificationSettings) {
    c.emailEnabled || c.pushEnabled || c.smsEnabled
  }

  /**
   * `parseHora`: `LocalTime.parse`, and on failure the same parse again
   * followed by a truncation to the minute.  The second attempt fails
   * whenever the first did, so the result is the plain parse.
   */
  function ParseHora(hora: string): (r: Option<Time>)
    ensures r == ParseIsoLocalTime(hora)
  {
    match ParseIsoLocalTime(hora)
    case Some(t) => Some(t)
    case None => ReintentoHora(hora)
  }

  /** The fallback of `parseHora`: parse again, then drop seconds and nanoseconds. */
  function ReintentoHora(hora: string): (r: Option<Time>)
    ensures r.Some? ==> ParseIsoLocalTime(hora).Some?
  {
    match ParseIsoLocalTime(hora)
    case Some(t) => Some(Truncar(t))
    case None => None
  }

  /** `debeNotificar`: a channel is on and the parsed `hora` equals `ahora` exactly. */
  predicate DebeNotificar(h: Habit, c: NotificationSettings, ahora: Time) {
    if !NotificacionesActivas(c) then false
    else
      var horaHabit := if h.hora.Some? then ParseHora(h.hora.value) else None;
      if horaHabit.None? then false else horaHabit.value == ahora
  }

  /** `%s` of a possibly null string. */
  function TextoONull(s: Option<string>): string {
    if s.Some? then s.value else "null"
  }

  const EncabezadoMensaje := "\U{1F514} Recordatorio: ¡Hora de cumplir tu hábito '"

  const AntesDeLaHora := "'! ⏰ ("
  const AntesDeLaCategoria := ") - Categoría: "

  /** The category slot: the habit's category, or "Sin categoría" when it is null. */
  function CategoriaONada(h: Habit): string {
    if h.categoria.Some? then h.categoria.value else "Sin categoría"
  }

  /**
   * The text `enviarNotificacion` prints: the format's three `%s` slots hold
   * the name, the `hora` and the category, in that order, between the
   * template's fixed pieces.
   */
  function EnviarNotificacion(h: Habit): (m: string)
    ensures m == EncabezadoMensaje + TextoONull(h.nombre) + AntesDeLaHora + TextoONull(h.hora) + AntesDeLaCategoria + CategoriaONada(h)
  {
    var cabeza := EncabezadoMensaje + TextoONull(h.nombre) + AntesDeLaHora;
    cabeza + TextoONull(h.hora) + (AntesDeLaCategoria + CategoriaONada(h))
  }

  /** Each slot of the reminder sits at its offset: the head, then the `hora` text, then the category tail. */
  lemma SitiosDelMensaje(h: Habit)
    ensures var m := EnviarNotificacion(h);
      var i := |EncabezadoMensaje + TextoONull(h.nombre) + AntesDeLaHora|;
      var j := i + |TextoONull(h.hora)|;
      j <= |m| &&
      m[..i] == EncabezadoMensaje + TextoONull(h.nombre) + AntesDeLaHora &&
      m[i..j] == TextoONull(h.hora) &&
      m[j..] == AntesDeLaCategoria + CategoriaONada(h)
  {
    var cabeza := EncabezadoMensaje + TextoONull(h.nombre) + AntesDeLaHora;
    var cola := AntesDeLaCategoria + CategoriaONada(h);
    var m := EnviarNotificacion(h);
    assert m == cabeza + TextoONull(h.hora) + cola;
    assert m[..|cabeza|] == cabeza;
    assert m[|cabeza|..|cabeza| + |TextoONull(h.hora)|] == TextoONull(h.hora);
    assert m[|cabeza| + |TextoONull(h.hora)|..] == cola;
  }

  /**
   * Two habits with the same name and category get the same reminder exactly
   * when their `hora` texts are the same: the reminder carries the `hora`.
   */
  lemma MensajeDistingueHora(a: Habit, b: Habit)
    requires a.nombre == b.nombre && CategoriaONada(a) == CategoriaONada(b)
    ensures EnviarNotificacion(a) == EnviarNotificacion(b) <==> TextoONull(a.hora) == TextoONull(b.hora)
  {
    SitiosDelMensaje(a);
    SitiosDelMensaje(b);
    var ma, mb := EnviarNotificacion(a), EnviarNotificacion(b);
    var i := |EncabezadoMensaje + TextoONull(a.nombre) + AntesDeLaHora|;
    var cola := AntesDeLaCategoria + CategoriaONada(a);
    if ma == mb {
      assert |ma| == i + |TextoONull(a.hora)| + |cola|;
      assert |mb| == i + |TextoONull(b.hora)| + |cola|;
    } else {
      assert ma == ma[..i] + ma[i..|ma| - |cola|] + ma[|ma| - |cola|..];
      assert mb == mb[..i] + mb[i..|mb| - |cola|] + mb[|mb| - |cola|..];
    }
  }

  /** What happened to one habit in one scan. */
  datatype Desenlace =
    | Omitido                  // skipped before any settings lookup
    | SinConfiguracion         // the owner has no settings row
    | NoCoincide               // looked up, nothing to send
    | Enviado(mensaje: string) // the reminder was emitted
    | Fallido(error: Exception) // an exception reached the scan's catch

  /** One iteration of the scan's loop body. */
  function Procesar(h: Option<Habit>, settings: seq<NotificationSettings>, ahora: Time): Desenlace {
    if !EsHabitValidoParaNotificacion(h) then Omitido
    else
      match FindByUsuarioId(settings, h.value.usuario.value)
      case Err(e) => Fallido(e)
      case Ok(None) => SinConfiguracion
      case Ok(Some(config)) =>
        if DebeNotificar(h.value, config, ahora) then Enviado(EnviarNotificacion(h.value)) else NoCoincide
  }

  // ---------------------------------------------------------------------------
  // The scan

  /**
   * The outcomes of a scan over `hs`, in order.  Each habit's outcome is
   * that habit's own decision, whatever happened to the others.
   */
  function Desenlaces(hs: seq<Habit>, settings: seq<NotificationSettings>, ahora: Time): (ds: seq<Desenlace>)
    ensures |ds| == |hs|
    ensures forall i :: 0 <= i < |hs| ==> ds[i] == Procesar(Some(hs[i]), settings, ahora)
  {
    if hs == [] then [] else Desenlaces(hs[..|hs| - 1], settings, ahora) + [Procesar(Some(hs[|hs| - 1]), settings, ahora)]
  }

  /** The messages emitted, in order. */
  function Enviados(ds: seq<Desenlace>): (ms: seq<string>)
    ensures |ms| <= |ds|
    ensures forall m :: m in ms <==> Enviado(m) in ds
  {
    if ds == [] then []
    else
      var ultimo := ds[|ds| - 1];
      Enviados(ds[..|ds| - 1]) + (if ultimo.Enviado? then [ultimo.mensaje] else [])
  }

  function Errores(ds: seq<Desenlace>): nat {
    Count(ds, (d: Desenlace) => d.Fallido?)
  }

  /** The number of settings lookups: every habit that passed the validity check. */
  function Consultas(ds: seq<Desenlace>): nat {
    Count(ds, (d: Desenlace) => !d.Omitido?)
  }

  /** `getCurrentTime`: the clock reading truncated to the minute. */
  function GetCurrentTime(reloj: Time): (t: Time)
    requires Valida(reloj)
    ensures Valida(t) && Segundo(t) == 0 && t.nano == 0
    ensures Hora(t) == Hora(reloj) && Minuto(t) == Minuto(reloj)
  {
    Truncar(reloj)
  }

  /**
   * `revisarHabitosParaNotificar`: one pass over every habit with the
   * current minute.  Returns the printed messages and the two counters it logs.
   */
  method RevisarHabitosParaNotificar(habits: HabitStore, store: SettingsStore, reloj: Time)
    returns (mensajes: seq<string>, notificacionesEnviadas: nat, errores: nat)
    requires Valida(reloj)
    ensures mensajes == Enviados(Desenlaces(habits.habitos, store.settings, GetCurrentTime(reloj)))
    ensures notificacionesEnviadas == |mensajes|
    ensures errores == Errores(Desenlaces(habits.habitos, store.settings, GetCurrentTime(reloj)))
  {
    var habitos := habits.habitos;
    var ahora := GetCurrentTime(reloj);
    mensajes, notificacionesEnviadas, errores := [], 0, 0;
    for i := 0 to |habitos|
      invariant mensajes == Enviados(Desenlaces(habitos[..i], store.settings, ahora))
      invariant notificacionesEnviadas == |mensajes|
      invariant errores == Errores(Desenlaces(habitos[..i], store.settings, ahora))
    {
      PasoDelRecorrido(habitos, i, store.settings, ahora);
      var habit := Some(habitos[i]);
      if !EsHabitValidoParaNotificacion(habit) {
        continue;
      }
      var configOpt := FindByUsuarioId(store.settings, habit.value.usuario.value);
      if configOpt.Err? {
        errores := errores + 1;
        continue;
      }
      if configOpt.value.None? {
        continue;
      }
      var config := configOpt.value.value;
      if DebeNotificar(habit.value, config, ahora) {
        mensajes := mensajes + [EnviarNotificacion(habit.value)];
        notificacionesEnviadas := notificacionesEnviadas + 1;
      }
    }
    assert habitos[..|habitos|] == habitos;
  }

  /** `verificarNotificacionesManual`: exactly one scheduled scan. */
  method VerificarNotificacionesManual(habits: HabitStore, store: SettingsStore, reloj: Time)
    returns (mensajes: seq<string>, notificacionesEnviadas: nat, errores: nat)
    requires Valida(reloj)
    ensures mensajes == Enviados(Desenlaces(habits.habitos, store.settings, GetCurrentTime(reloj)))
    ensures notificacionesEnviadas == |mensajes|
    ensures errores == Errores(Desenlaces(habits.habitos, store.settings, GetCurrentTime(reloj)))
  {
    mensajes, notificacionesEnviadas, errores := RevisarHabitosParaNotificar(habits, store, reloj);
  }

  /**
   * `verificarNotificacionesEnTiempoEspecifico`: the same pass with the
   * caller's time, used as given (not truncated); errors are not counted.
   */
  method VerificarNotificacionesEnTiempoEspecifico(habits: HabitStore, store: SettingsStore, tiempoEspecifico: Time)
    returns (mensajes: seq<string>, notificacionesEnviadas: nat)
    ensures mensajes == Enviados(Desenlaces(habits.habitos, store.settings, tiempoEspecifico))
    ensures notificacionesEnviadas == |mensajes|
  {
    var habitos := habits.habitos;
    mensajes, notificacionesEnviadas := [], 0;
    for i := 0 to |habitos|
      invariant mensajes == Enviados(Desenlaces(habitos[..i], store.settings, tiempoEspecifico))
      invariant notificacionesEnviadas == |mensajes|
    {
      PasoDelRecorrido(habitos, i, store.settings, tiempoEspecifico);
      var habit := Some(habitos[i]);
      if !EsHabitValidoParaNotificacion(habit) {
        continue;
      }
      var configOpt := FindByUsuarioId(store.settings, habit.value.usuario.value);
      if configOpt.Err? || configOpt.value.None? {
        continue;
      }
      var config := configOpt.value.value;
      if DebeNotificar(habit.value, config, tiempoEspecifico) {
        mensajes := mensajes + [EnviarNotificacion(habit.value)];
        notificacionesEnviadas := notificacionesEnviadas + 1;
      }
    }
    assert habitos[..|habitos|] == habitos;
  }

  // ---------------------------------------------------------------------------
  // Properties

  /**
   * A habit emits exactly when it is owned, its `hora` is not blank, its
   * owner has exactly one settings row, that row has a channel on, and
   * `hora` parses to exactly `ahora`.
   */
  lemma EmiteSiYSoloSi(h: Habit, settings: seq<NotificationSettings>, ahora: Time)
    ensures Procesar(Some(h), settings, ahora).Enviado? <==>
      h.usuario.Some? && h.hora.Some? && JavaTrim(h.hora.value) != [] &&
      FilasDe(settings, h.usuario.value) == 1 &&
      (exists c :: c in settings && c.usuario == h.usuario.value && NotificacionesActivas(c)) &&
      ParseIsoLocalTime(h.hora.value) == Some(ahora)
  {
    if !EsHabitValidoParaNotificacion(Some(h)) {
      return;
    }
    var usuario := h.usuario.value;
    var r := FindByUsuarioId(settings, usuario);
    if r.Err? || r.value.None? {
      return;
    }
    var c := r.value.value;
    forall x | x in settings && x.usuario == usuario
      ensures x == c
    {
      FilaUnica(settings, usuario, x, c);
    }
    assert Procesar(Some(h), settings, ahora).Enviado? <==> DebeNotificar(h, c, ahora);
  }

  /** An owner without a settings row: nothing is emitted and nothing fails. */
  lemma SinConfiguracionNoEmite(h: Habit, settings: seq<NotificationSettings>, ahora: Time)
    requires h.usuario.Some? && FilasDe(settings, h.usuario.value) == 0
    ensures Procesar(Some(h), settings, ahora) in {Omitido, SinConfiguracion}
  {
  }

  /** A failure on a habit is the owner having two or more settings rows. */
  lemma FalloSiFilasDuplicadas(h: Habit, settings: seq<NotificationSettings>, ahora: Time)
    ensures Procesar(Some(h), settings, ahora).Fallido? <==>
      EsHabitValidoParaNotificacion(Some(h)) && FilasDe(settings, h.usuario.value) >= 2
  {
  }

  /** With every channel of every row of the owner off, nothing is emitted. */
  lemma SinCanalesNoEmite(h: Habit, settings: seq<NotificationSettings>, ahora: Time)
    requires forall c :: c in settings && h.usuario == Some(c.usuario) ==> !NotificacionesActivas(c)
    ensures !Procesar(Some(h), settings, ahora).Enviado?
  {
    EmiteSiYSoloSi(h, settings, ahora);
  }

  /** A missing or blank `hora`, or a missing owner: skipped before any lookup. */
  lemma SinHoraOSinUsuarioSeOmite(h: Habit, settings: seq<NotificationSettings>, ahora: Time)
    requires h.usuario.None? || h.hora.None? || forall k :: 0 <= k < |h.hora.value| ==> IsJavaTrimSpace(h.hora.value[k])
    ensures Procesar(Some(h), settings, ahora) == Omitido
  {
    if h.hora.Some? {
      TrimEmptyIffAllSpace(h.hora.value, IsJavaTrimSpace);
    }
  }

  /** A `hora` the parser rejects never emits, whatever the settings and the time. */
  lemma HoraInvalidaNoEmite(h: Habit, settings: seq<NotificationSettings>, ahora: Time)
    requires h.hora.Some? && ParseIsoLocalTime(h.hora.value).None?
    ensures !Procesar(Some(h), settings, ahora).Enviado?
  {
    EmiteSiYSoloSi(h, settings, ahora);
  }

  /**
   * On the scheduled path the reference time is a whole minute, so a `hora`
   * with seconds (such as "08:00:30") never emits there.
   */
  lemma ProgramadaSoloMinutosEnteros(h: Habit, settings: seq<NotificationSettings>, reloj: Time)
    requires Valida(reloj)
    requires h.hora.Some? && ParseIsoLocalTime(h.hora.value).Some?
    requires Segundo(ParseIsoLocalTime(h.hora.value).value) != 0
    ensures !Procesar(Some(h), settings, GetCurrentTime(reloj)).Enviado?
  {
    EmiteSiYSoloSi(h, settings, GetCurrentTime(reloj));
  }

  /**
   * A `hora` written with non-zero seconds, such as "08:00:30" or
   * "08:00:30.5", never emits: it parses to that second, and the clock is
   * compared at the start of its minute.
   */
  lemma HoraConSegundosNuncaEmite(h: Habit, settings: seq<NotificationSettings>, reloj: Time,
                                  hora: nat, minuto: nat, segundo: nat, fraccion: string)
    requires Valida(reloj)
    requires hora < 24 && minuto < 60 && 0 < segundo < 60 && TodoDigitos(fraccion) && |fraccion| <= 9
    requires h.hora == Some(FormatoConSegundos(hora, minuto, segundo, fraccion))
    ensures !Procesar(Some(h), settings, GetCurrentTime(reloj)).Enviado?
  {
    ParseFormatoConSegundos(hora, minuto, segundo, fraccion);
    ProgramadaSoloMinutosEnteros(h, settings, reloj);
  }

  /**
   * A one-digit hour such as "8:00" passes the request validator, yet the
   * habit never emits.
   */
  lemma HoraDeUnDigitoNuncaEmite(h: Habit, settings: seq<NotificationSettings>, ahora: Time)
    requires h.hora.Some? && |h.hora.value| == 4 && CumplePatronHora(h.hora.value)
    ensures !Procesar(Some(h), settings, ahora).Enviado?
  {
    PatronUnDigitoRechazado(h.hora.value);
    HoraInvalidaNoEmite(h, settings, ahora);
  }

  /** Each habit yields at most one message or one error. */
  lemma {:induction false} AcotadoPorHabitos(ds: seq<Desenlace>)
    ensures |Enviados(ds)| + Errores(ds) <= |ds|
  {
    if ds != [] {
      var init := ds[..|ds| - 1];
      AcotadoPorHabitos(init);
      assert ds == init + [ds[|ds| - 1]];
      CountAppend(init, [ds[|ds| - 1]], (d: Desenlace) => d.Fallido?);
    }
  }

  /** Scanning two lists one after the other emits what one scan over both emits. */
  lemma {:induction false} EnviadosConcatenados(a: seq<Desenlace>, b: seq<Desenlace>)
    ensures Enviados(a + b) == Enviados(a) + Enviados(b)
  {
    if b == [] {
      assert a + b == a;
    } else {
      var init := b[..|b| - 1];
      assert (a + b)[..|a + b| - 1] == a + init;
      EnviadosConcatenados(a, init);
    }
  }

  /**
   * The two entry points side by side: the manual scan at clock `reloj` and
   * the fixed-time scan given that clock truncated to the minute emit the
   * same messages and report the same count.  Only the manual scan counts
   * the habits that failed; the fixed-time one logs them and goes on.
   */
  method ManualComoTiempoEspecifico(habits: HabitStore, store: SettingsStore, reloj: Time)
    returns (manual: seq<string>, enviadosManual: nat, errores: nat, especifico: seq<string>, enviadosEspecifico: nat)
    requires Valida(reloj)
    ensures manual == especifico && enviadosManual == enviadosEspecifico == |manual|
    ensures errores == Errores(Desenlaces(habits.habitos, store.settings, Truncar(reloj)))
  {
    manual, enviadosManual, errores := VerificarNotificacionesManual(habits, store, reloj);
    especifico, enviadosEspecifico := VerificarNotificacionesEnTiempoEspecifico(habits, store, Truncar(reloj));
  }

  // The fixture of the service's tests: user 1 with one active settings row.
  const EjemploConfig := NotificationSettings(1, 1, None, true, false, true, None)
  const EjemploConHora := Habit(1, Some("Ejercicio"), Some("Salud"), None, Some("08:00"), None, None, Some(1))
  const EjemploSinHora := Habit(2, Some("Meditación"), None, None, None, None, None, Some(1))
  const EjemploSinUsuario := Habit(3, Some("Hábito sin usuario"), None, None, Some("09:00"), None, None, None)
  const EjemploLeer := Habit(5, Some("Leer"), None, None, Some("10:00"), None, None, Some(1))

  /** The reminder for "Ejercicio" at 08:00 in "Salud": each field in its slot of the template. */
  lemma EjemploMensaje()
    ensures EnviarNotificacion(EjemploConHora) ==
      EncabezadoMensaje + "Ejercicio" + "'! ⏰ (" + "08:00" + ") - Categoría: " + "Salud"
  {
  }

  lemma EjemploConHoraEmite()
    ensures Procesar(Some(EjemploConHora), [EjemploConfig], Of(8, 0)) == Enviado(EnviarNotificacion(EjemploConHora))
  {
    assert FilasDe([EjemploConfig], 1) == 1;
    assert !IsJavaTrimSpace('0');
    TrimEmptyIffAllSpace("08:00", IsJavaTrimSpace);
    ParseFormatoHoraMinuto(8, 0);
    assert FormatoHoraMinuto(8, 0) == "08:00";
  }

  lemma EjemploLeerNoCoincide()
    ensures Procesar(Some(EjemploLeer), [EjemploConfig], Of(8, 0)) == NoCoincide
  {
    assert FilasDe([EjemploConfig], 1) == 1;
    assert !IsJavaTrimSpace('1');
    TrimEmptyIffAllSpace("10:00", IsJavaTrimSpace);
    ParseFormatoHoraMinuto(10, 0);
    assert FormatoHoraMinuto(10, 0) == "10:00";
  }

  /**
   * Four habits (one at 08:00, one without `hora`, one without owner, one at
   * 10:00) and one active row, scanned at 08:00: two lookups and one reminder,
   * the one for the 08:00 habit (its text is `EjemploMensaje`'s).
   */
  lemma EscenarioCuatroHabitos()
    ensures var ds := Desenlaces([EjemploConHora, EjemploSinHora, EjemploSinUsuario, EjemploLeer], [EjemploConfig], Of(8, 0));
      Consultas(ds) == 2 && Errores(ds) == 0 && Enviados(ds) == [EnviarNotificacion(EjemploConHora)]
  {
    var m := EnviarNotificacion(EjemploConHora);
    SinHoraOSinUsuarioSeOmite(EjemploSinHora, [EjemploConfig], Of(8, 0));
    SinHoraOSinUsuarioSeOmite(EjemploSinUsuario, [EjemploConfig], Of(8, 0));
    EjemploConHoraEmite();
    EjemploLeerNoCoincide();
    var hs := [EjemploConHora, EjemploSinHora, EjemploSinUsuario, EjemploLeer];
    var ds := Desenlaces(hs, [EjemploConfig], Of(8, 0));
    assert ds[0] == Enviado(m) by { assert hs[0] == EjemploConHora; }
    assert ds[1] == Omitido by { assert hs[1] == EjemploSinHora; }
    assert ds[2] == Omitido by { assert hs[2] == EjemploSinUsuario; }
    assert ds[3] == NoCoincide by { assert hs[3] == EjemploLeer; }
    CuentaCuatro(ds, m);
  }

  lemma CuentaCuatro(ds: seq<Desenlace>, m: string)
    requires |ds| == 4 && ds[0] == Enviado(m) && ds[1] == Omitido && ds[2] == Omitido && ds[3] == NoCoincide
    ensures Consultas(ds) == 2 && Errores(ds) == 0 && Enviados(ds) == [m]
  {
    assert Enviados(ds[..1]) == [m] by { assert ds[..1][..0] == []; }
    assert Enviados(ds[..2]) == [m] by { assert ds[..2][..1] == ds[..1]; }
    assert Enviados(ds[..3]) == [m] by { assert ds[..3][..2] == ds[..2]; }
    assert Enviados(ds) == [m] by { assert ds[..3] == ds[..|ds| - 1]; }
    assert Consultas(ds[3..]) == 1;
    assert Consultas(ds[2..]) == 1 by { assert ds[2..][1..] == ds[3..]; }
    assert Consultas(ds[1..]) == 1 by { assert ds[1..][1..] == ds[2..]; }
  }

  // ---------------------------------------------------------------------------
  // Helpers

  /** The loop body's step: the outcomes of `hs[..i+1]` extend those of `hs[..i]` by habit `i`'s. */
  lemma PasoDelRecorrido(hs: seq<Habit>, i: nat, settings: seq<NotificationSettings>, ahora: Time)
    requires i < |hs|
    ensures Desenlaces(hs[..i + 1], settings, ahora) ==
            Desenlaces(hs[..i], settings, ahora) + [Procesar(Some(hs[i]), settings, ahora)]
    ensures Enviados(Desenlaces(hs[..i + 1], settings, ahora)) ==
            Enviados(Desenlaces(hs[..i], settings, ahora)) +
            (if Procesar(Some(hs[i]), settings, ahora).Enviado? then [Procesar(Some(hs[i]), settings, ahora).mensaje] else [])
    ensures Errores(Desenlaces(hs[..i + 1], settings, ahora)) ==
            Errores(Desenlaces(hs[..i], settings, ahora)) + (if Procesar(Some(hs[i]), settings, ahora).Fallido? then 1 else 0)
  {
    assert hs[..i + 1][..i] == hs[..i];
    var ds := Desenlaces(hs[..i], settings, ahora);
    var d := Procesar(Some(hs[i]), settings, ahora);
    assert (ds + [d])[..|ds|] == ds;
    CountAppend(ds, [d], (d: Desenlace) => d.Fallido?);
  }
}
