/**
 * Progress records: the upsert by (habit, date), listing and deletion, and
 * the four completion figures (today's summary, the detailed view of a day,
 * the Monday-to-Sunday week and the calendar month).  Percentages are exact
 * fractions; today's date is a parameter.
 */
module ProgressService {
  import opened Common
  import opened Model
  import opened Calendar

  // ---------------------------------------------------------------------------
  // Percentages

  /** The percentage `num / den` (the service computes it as a double). */
  datatype Porcentaje = Porcentaje(num: nat, den: nat)

  /** `total == 0 ? 0 : parte * 100.0 / total`. */
  function PorcentajeDe(parte: nat, total: nat): (r: Porcentaje)
    ensures r.den > 0
    ensures total == 0 ==> r.num == 0
    ensures total > 0 ==> r.num * total == 100 * parte * r.den
    ensures parte <= total ==> r.num <= 100 * r.den
    ensures 0 < parte == total ==> r.num == 100 * r.den
  {
    if total == 0 then Porcentaje(0, 1) else Porcentaje(100 * parte, total)
  }

  // ---------------------------------------------------------------------------
  // Marking progress: find the record of (habit, date) or create it

  predicate EsDe(p: Progress, habito: nat, fecha: Option<int>) {
    p.habito == habito && p.fecha == fecha
  }

  /**
   * The table after `marcarProgreso`: the record of (habit, date) gets the new
   * `cumplido`; without one, a record with the next id is appended.  A request
   * without a date is keyed by `None`, as the repository's derived query
   * compares a null date with `is null`.
   */
  function Marcado(ps: seq<Progress>, nuevoId: nat, habito: nat, fecha: Option<int>, cumplido: bool): (r: seq<Progress>)
    ensures |r| == |ps| <==> exists k :: 0 <= k < |ps| && EsDe(ps[k], habito, fecha)
    ensures |r| == |ps| || |r| == |ps| + 1
    ensures |r| == |ps| + 1 ==> r[|ps|] == Progress(nuevoId, habito, fecha, cumplido)
    ensures exists k :: 0 <= k < |r| && EsDe(r[k], habito, fecha) && r[k].cumplido == cumplido
    ensures forall k :: 0 <= k < |ps| ==> r[k].id == ps[k].id && r[k].habito == ps[k].habito && r[k].fecha == ps[k].fecha
    ensures forall k :: 0 <= k < |ps| && !EsDe(ps[k], habito, fecha) ==> r[k] == ps[k]
    ensures OnePerDay(ps) ==> OnePerDay(r)
    ensures OnePerDay(ps) ==> forall k :: 0 <= k < |r| && EsDe(r[k], habito, fecha) ==> r[k].cumplido == cumplido
  {
    match FirstIndex(ps, (p: Progress) => EsDe(p, habito, fecha))
    case Some(i) =>
      var r := ps[i := ps[i].(cumplido := cumplido)];
      assert EsDe(r[i], habito, fecha) && r[i].cumplido == cumplido;
      r
    case None =>
      var r := ps + [Progress(nuevoId, habito, fecha, cumplido)];
      assert EsDe(r[|ps|], habito, fecha);
      r
  }

  /** Marking the same (habit, date) with the same value again changes nothing. */
  lemma MarcadoIdempotente(ps: seq<Progress>, n: nat, m: nat, habito: nat, fecha: Option<int>, cumplido: bool)
    requires OnePerDay(ps)
    ensures Marcado(Marcado(ps, n, habito, fecha, cumplido), m, habito, fecha, cumplido) == Marcado(ps, n, habito, fecha, cumplido)
  {
    var r := Marcado(ps, n, habito, fecha, cumplido);
    var k :| 0 <= k < |r| && EsDe(r[k], habito, fecha) && r[k].cumplido == cumplido;
    assert OnePerDay(r);
    assert forall j :: 0 <= j < |r| && j != k ==> !EsDe(r[j], habito, fecha);
    var i := FirstIndex(r, (p: Progress) => EsDe(p, habito, fecha));
    assert i == Some(k);
    assert r[k := r[k].(cumplido := cumplido)] == r;
  }

  /** The record ids stay below the next id and distinct, so the store stays valid. */
  lemma MarcadoIds(ps: seq<Progress>, nextId: nat, habito: nat, fecha: Option<int>, cumplido: bool)
    requires forall i :: 0 <= i < |ps| ==> ps[i].id < nextId
    requires forall i, j :: 0 <= i < j < |ps| ==> ps[i].id != ps[j].id
    ensures var r := Marcado(ps, nextId, habito, fecha, cumplido);
      var siguiente := nextId + |r| - |ps|;
      (forall i :: 0 <= i < |r| ==> r[i].id < siguiente) &&
      (forall i, j :: 0 <= i < j < |r| ==> r[i].id != r[j].id)
  {
  }

  /**
   * `marcarProgreso`: an unknown habit raises not-found and leaves the table
   * as it was; otherwise the table becomes `Marcado` and the saved record is
   * the one of (habit, date), holding the requested value.
   */
  method MarcarProgreso(habits: HabitStore, store: ProgressStore, habitId: int, fecha: Option<int>, cumplido: bool)
    returns (r: Result<Progress>)
    requires store.Valid()
    modifies store
    ensures store.Valid()
    ensures habits.FindById(habitId).None? ==>
      r == Err(ResourceNotFound("Hábito no encontrado con id: " + IntToString(habitId))) &&
      store.progresos == old(store.progresos) && store.nextId == old(store.nextId)
    ensures habits.FindById(habitId).Some? ==>
      habitId >= 0 &&
      store.progresos == Marcado(old(store.progresos), old(store.nextId), habitId, fecha, cumplido) &&
      store.nextId == old(store.nextId) + |store.progresos| - |old(store.progresos)| &&
      r.Ok? && r.value in store.progresos && EsDe(r.value, habitId, fecha) && r.value.cumplido == cumplido
  {
    var habit := habits.FindById(habitId);
    if habit.None? {
      return Err(ResourceNotFound("Hábito no encontrado con id: " + IntToString(habitId)));
    }
    var habito := habit.value.id;
    MarcadoIds(store.progresos, store.nextId, habito, fecha, cumplido);
    var guardado: Progress;
    match FirstIndex(store.progresos, (p: Progress) => EsDe(p, habito, fecha)) {
      case Some(i) =>
        guardado := store.progresos[i].(cumplido := cumplido);
        store.progresos := store.progresos[i := guardado];
      case None =>
        guardado := Progress(store.nextId, habito, fecha, cumplido);
        store.progresos := store.progresos + [guardado];
        store.nextId := store.nextId + 1;
    }
    r := Ok(guardado);
  }

  // ---------------------------------------------------------------------------
  // Listing and deleting

  /** `obtenerProgresoPorHabito`: not-found for an unknown habit, else exactly its records. */
  function ObtenerProgresoPorHabito(habits: HabitStore, store: ProgressStore, habitId: int): (r: Result<seq<Progress>>)
    reads habits, store
    ensures r.Err? <==> habits.FindById(habitId).None?
    ensures r.Err? ==> r.error == ResourceNotFound("Hábito no encontrado con id: " + IntToString(habitId))
    ensures r.Ok? ==> forall p :: p in r.value <==> p in store.progresos && p.habito == habitId
  {
    match habits.FindById(habitId)
    case None => Err(ResourceNotFound("Hábito no encontrado con id: " + IntToString(habitId)))
    case Some(h) => Ok(Filter(store.progresos, (p: Progress) => p.habito == h.id))
  }

  /**
   * `eliminarProgreso`: an unknown id raises not-found and nothing changes;
   * otherwise exactly the record with that id is removed.
   */
  method EliminarProgreso(store: ProgressStore, id: int) returns (r: Result<Unit>)
    requires store.Valid()
    modifies store
    ensures store.Valid() && store.nextId == old(store.nextId)
    ensures (forall k :: 0 <= k < |old(store.progresos)| ==> old(store.progresos)[k].id != id) ==>
      r == Err(ResourceNotFound("Progreso no encontrado con id: " + IntToString(id))) &&
      store.progresos == old(store.progresos)
    ensures (exists k :: 0 <= k < |old(store.progresos)| && old(store.progresos)[k].id == id) ==>
      r == Ok(Unit) && |store.progresos| == |old(store.progresos)| - 1 &&
      forall p :: p in store.progresos <==> p in old(store.progresos) && p.id != id
  {
    var i := FirstIndex(store.progresos, (p: Progress) => p.id == id);
    if i.None? {
      return Err(ResourceNotFound("Progreso no encontrado con id: " + IntToString(id)));
    }
    var k := i.value;
    var ps := store.progresos;
    store.progresos := ps[..k] + ps[k + 1..];
    QuitarEnIndice(ps, k);
    r := Ok(Unit);
  }

  /** Removing the record at index `k` keeps the table's constraints and removes exactly its id. */
  lemma QuitarEnIndice(ps: seq<Progress>, k: nat)
    requires k < |ps|
    requires forall i, j :: 0 <= i < j < |ps| ==> ps[i].id != ps[j].id
    requires OnePerDay(ps)
    ensures var r := ps[..k] + ps[k + 1..];
      (forall p :: p in r <==> p in ps && p.id != ps[k].id) &&
      (forall i, j :: 0 <= i < j < |r| ==> r[i].id != r[j].id) &&
      OnePerDay(r)
  {
    var r := ps[..k] + ps[k + 1..];
    assert forall i :: 0 <= i < |r| ==> r[i] == ps[if i < k then i else i + 1];
    forall p | p in ps && p.id != ps[k].id ensures p in r {
      var j :| 0 <= j < |ps| && ps[j] == p;
      assert j != k;
      assert r[if j < k then j else j - 1] == p;
    }
  }

  // ---------------------------------------------------------------------------
  // Counting fulfilled records

  /**
   * A fulfilled record of one of the habits `ids`, dated from `desde` to
   * `hasta`; a record without a date is never in a window (SQL `between`).
   */
  predicate Cuenta(p: Progress, ids: set<nat>, desde: int, hasta: int) {
    p.habito in ids && p.fecha.Some? && desde <= p.fecha.value <= hasta && p.cumplido
  }

  /** How many records `Cuenta` (the filter-then-count of the aggregations). */
  function CumplidosEntre(ps: seq<Progress>, ids: set<nat>, desde: int, hasta: int): (n: nat)
    ensures n <= |ps|
    ensures n == 0 <==> forall k :: 0 <= k < |ps| ==> !Cuenta(ps[k], ids, desde, hasta)
  {
    if ps == [] then 0
    else (if Cuenta(ps[0], ids, desde, hasta) then 1 else 0) + CumplidosEntre(ps[1..], ids, desde, hasta)
  }

  /** The ids of a list of habits. */
  function IdsDe(hs: seq<Habit>): (r: set<nat>)
    ensures forall x :: x in r <==> exists k :: 0 <= k < |hs| && hs[k].id == x
  {
    if hs == [] then {} else {hs[0].id} + IdsDe(hs[1..])
  }

  /** Counting over disjoint sets of habits adds up. */
  lemma {:induction false} SepararHabitos(ps: seq<Progress>, a: set<nat>, b: set<nat>, desde: int, hasta: int)
    requires a !! b
    ensures CumplidosEntre(ps, a + b, desde, hasta) == CumplidosEntre(ps, a, desde, hasta) + CumplidosEntre(ps, b, desde, hasta)
  {
    if ps != [] {
      SepararHabitos(ps[1..], a, b, desde, hasta);
    }
  }

  /** Counting over a window is counting over all days but the last, plus the last. */
  lemma {:induction false} SepararUltimoDia(ps: seq<Progress>, ids: set<nat>, desde: int, hasta: int)
    requires desde <= hasta
    ensures CumplidosEntre(ps, ids, desde, hasta) ==
      CumplidosEntre(ps, ids, desde, hasta - 1) + CumplidosEntre(ps, ids, hasta, hasta)
  {
    if ps != [] {
      SepararUltimoDia(ps[1..], ids, desde, hasta);
    }
  }

  lemma OnePerDayCola(ps: seq<Progress>)
    requires ps != [] && OnePerDay(ps)
    ensures OnePerDay(ps[1..])
  {
    forall i, j | 0 <= i < j < |ps| - 1
      ensures !(ps[1..][i].habito == ps[1..][j].habito && ps[1..][i].fecha == ps[1..][j].fecha)
    {
      assert ps[1..][i] == ps[i + 1] && ps[1..][j] == ps[j + 1];
    }
  }

  /** Has a fulfilled record of the habit on that day. */
  predicate TieneCumplidoEn(ps: seq<Progress>, habito: nat, fecha: int) {
    exists p :: p in ps && p.habito == habito && p.fecha == Some(fecha) && p.cumplido
  }

  /** One record per (habit, date): a habit is fulfilled at most once a day. */
  lemma {:induction false} UnoPorDia(ps: seq<Progress>, habito: nat, fecha: int)
    requires OnePerDay(ps)
    ensures CumplidosEntre(ps, {habito}, fecha, fecha) <= 1
    ensures CumplidosEntre(ps, {habito}, fecha, fecha) == 1 <==> TieneCumplidoEn(ps, habito, fecha)
  {
    if ps != [] {
      OnePerDayCola(ps);
      UnoPorDia(ps[1..], habito, fecha);
      if EsDe(ps[0], habito, Some(fecha)) {
        forall k | 0 <= k < |ps[1..]| ensures !Cuenta(ps[1..][k], {habito}, fecha, fecha) {
          assert ps[1..][k] == ps[k + 1];
        }
      }
      assert ps == [ps[0]] + ps[1..];
      assert TieneCumplidoEn(ps, habito, fecha) <==>
        Cuenta(ps[0], {habito}, fecha, fecha) || TieneCumplidoEn(ps[1..], habito, fecha);
    }
  }

  /** An empty window counts nothing. */
  lemma VentanaVacia(ps: seq<Progress>, ids: set<nat>, desde: int, hasta: int)
    requires hasta < desde
    ensures CumplidosEntre(ps, ids, desde, hasta) == 0
  {
  }

  /** One habit is fulfilled at most once per day of the window. */
  lemma {:induction false} CotaDelHabito(ps: seq<Progress>, habito: nat, desde: int, hasta: int)
    requires OnePerDay(ps) && desde <= hasta + 1
    ensures CumplidosEntre(ps, {habito}, desde, hasta) <= hasta - desde + 1
    decreases hasta - desde + 1
  {
    if hasta < desde {
      VentanaVacia(ps, {habito}, desde, hasta);
    } else {
      SepararUltimoDia(ps, {habito}, desde, hasta);
      UnoPorDia(ps, habito, hasta);
      CotaDelHabito(ps, habito, desde, hasta - 1);
    }
  }

  /** The habits fulfil at most one record each per day of the window. */
  lemma {:induction false} CotaVentana(ps: seq<Progress>, hs: seq<Habit>, desde: int, hasta: int)
    requires OnePerDay(ps) && desde <= hasta + 1
    ensures CumplidosEntre(ps, IdsDe(hs), desde, hasta) <= |hs| * (hasta - desde + 1)
  {
    var dias := hasta - desde + 1;
    if hs == [] {
      assert CumplidosEntre(ps, IdsDe(hs), desde, hasta) == 0;
    } else {
      CotaVentana(ps, hs[1..], desde, hasta);
      MultiplicarSucesor(|hs[1..]|, dias);
      if hs[0].id in IdsDe(hs[1..]) {
        assert IdsDe(hs) == IdsDe(hs[1..]);
      } else {
        SepararHabitos(ps, {hs[0].id}, IdsDe(hs[1..]), desde, hasta);
        CotaDelHabito(ps, hs[0].id, desde, hasta);
      }
    }
  }

  lemma MultiplicarSucesor(n: nat, w: nat)
    ensures (n + 1) * w == w + n * w
  {
  }

  // ---------------------------------------------------------------------------
  // Today's summary

  datatype ProgresoDiario = ProgresoDiario(fecha: int, totalHabitos: nat, habitosCumplidos: nat, porcentaje: Porcentaje)

  /** Each habit's records fulfilled on `hoy`, summed habit by habit (the flatMap over the list). */
  function CumplidosPorHabito(hs: seq<Habit>, ps: seq<Progress>, hoy: int): nat {
    if hs == [] then 0 else CumplidosEntre(ps, {hs[0].id}, hoy, hoy) + CumplidosPorHabito(hs[1..], ps, hoy)
  }

  /** Under one record per (habit, date), no more habits are fulfilled than there are. */
  lemma {:induction false} CumplidosPorHabitoAcotado(hs: seq<Habit>, ps: seq<Progress>, hoy: int)
    ensures OnePerDay(ps) ==> CumplidosPorHabito(hs, ps, hoy) <= |hs|
  {
    if hs != [] && OnePerDay(ps) {
      UnoPorDia(ps, hs[0].id, hoy);
      CumplidosPorHabitoAcotado(hs[1..], ps, hoy);
    }
  }

  /** With distinct habit ids, summing habit by habit counts the day's fulfilled records of the list. */
  lemma {:induction false} PorHabitoEsDelConjunto(hs: seq<Habit>, ps: seq<Progress>, hoy: int)
    requires UniqueHabitIds(hs)
    ensures CumplidosPorHabito(hs, ps, hoy) == CumplidosEntre(ps, IdsDe(hs), hoy, hoy)
  {
    if hs == [] {
      assert CumplidosEntre(ps, IdsDe(hs), hoy, hoy) == 0;
    } else {
      assert UniqueHabitIds(hs[1..]) by {
        forall i, j | 0 <= i < j < |hs| - 1 ensures hs[1..][i].id != hs[1..][j].id {
          assert hs[1..][i] == hs[i + 1] && hs[1..][j] == hs[j + 1];
        }
      }
      forall k | 0 <= k < |hs[1..]| ensures hs[1..][k].id != hs[0].id {
        assert hs[1..][k] == hs[k + 1];
      }
      PorHabitoEsDelConjunto(hs[1..], ps, hoy);
      SepararHabitos(ps, {hs[0].id}, IdsDe(hs[1..]), hoy, hoy);
    }
  }

  const UsuarioNoEncontrado := "Usuario no encontrado"

  /** Some record of one of the habits `ids` has no date. */
  predicate HaySinFecha(ps: seq<Progress>, ids: set<nat>) {
    exists p :: p in ps && p.habito in ids && p.fecha.None?
  }

  /**
   * `obtenerProgresoDiario`: not-found for an unknown username; a null pointer
   * failure when a record of the user's habits has no date, since the filter
   * calls `equals` on every record's date; otherwise the user's habit count,
   * the day's fulfilled records of those habits and the percentage, at most
   * 100 while records are one per (habit, date).
   */
  function ObtenerProgresoDiario(users: UserStore, habits: HabitStore, progress: ProgressStore, username: string, hoy: int)
    : (r: Result<ProgresoDiario>)
    reads users, habits, progress
    ensures users.FindByUsername(username).None? ==> r == Err(ResourceNotFound(UsuarioNoEncontrado))
    ensures users.FindByUsername(username).Some? ==>
      var habitos := habits.FindByUsuario(users.FindByUsername(username).value.id);
      (r == Err(NullPointer) <==> HaySinFecha(progress.progresos, IdsDe(habitos))) &&
      (r.Err? ==> r == Err(NullPointer))
    ensures r.Ok? ==>
      var habitos := habits.FindByUsuario(users.FindByUsername(username).value.id);
      r.value.fecha == hoy && r.value.totalHabitos == |habitos| &&
      r.value.porcentaje == PorcentajeDe(r.value.habitosCumplidos, r.value.totalHabitos) &&
      (UniqueHabitIds(habitos) ==>
        r.value.habitosCumplidos == CumplidosEntre(progress.progresos, IdsDe(habitos), hoy, hoy))
    ensures r.Ok? && progress.Valid() ==> r.value.habitosCumplidos <= r.value.totalHabitos
  {
    match users.FindByUsername(username)
    case None => Err(ResourceNotFound(UsuarioNoEncontrado))
    case Some(u) =>
      var habitos := habits.FindByUsuario(u.id);
      if HaySinFecha(progress.progresos, IdsDe(habitos)) then Err(NullPointer) else
      var cumplidos := CumplidosPorHabito(habitos, progress.progresos, hoy);
      CumplidosPorHabitoAcotado(habitos, progress.progresos, hoy);
      if UniqueHabitIds(habitos) then
        PorHabitoEsDelConjunto(habitos, progress.progresos, hoy);
        Ok(ProgresoDiario(hoy, |habitos|, cumplidos, PorcentajeDe(cumplidos, |habitos|)))
      else
        Ok(ProgresoDiario(hoy, |habitos|, cumplidos, PorcentajeDe(cumplidos, |habitos|)))
  }

  // ---------------------------------------------------------------------------
  // The detailed view of a day

  datatype ProgresoDetallado = ProgresoDetallado(
    fecha: int,
    habitosCumplidos: seq<Option<string>>,
    habitosPendientes: seq<Option<string>>,
    porcentaje: Porcentaje)

  /** `findByHabitoInAndFecha`: the records of the habits `ids` dated `fecha`, in table order. */
  function RegistrosDelDia(ps: seq<Progress>, ids: set<nat>, fecha: int): (r: seq<Progress>)
    ensures |r| <= |ps|
    ensures forall p :: p in r <==> p in ps && p.habito in ids && p.fecha == Some(fecha)
  {
    if ps == [] then []
    else (if ps[0].habito in ids && ps[0].fecha == Some(fecha) then [ps[0]] else []) + RegistrosDelDia(ps[1..], ids, fecha)
  }

  /** `p.getHabito().getNombre()`: the name of the record's habit. */
  function NombreDe(hs: seq<Habit>, habito: nat): (r: Option<string>)
    ensures UniqueHabitIds(hs) ==> forall h :: h in hs && h.id == habito ==> r == h.nombre
  {
    match FindFirst(hs, (h: Habit) => h.id == habito)
    case None => None
    case Some(h) => h.nombre
  }

  /** The names of the fulfilled records, in record order. */
  function NombresCumplidos(registros: seq<Progress>, hs: seq<Habit>): (r: seq<Option<string>>)
    ensures |r| <= |registros|
    ensures forall x :: x in r ==> exists p :: p in registros && p.cumplido && NombreDe(hs, p.habito) == x
    ensures forall p :: p in registros && p.cumplido ==> NombreDe(hs, p.habito) in r
  {
    if registros == [] then []
    else
      (if registros[0].cumplido then [NombreDe(hs, registros[0].habito)] else []) +
      NombresCumplidos(registros[1..], hs)
  }

  predicate TieneCumplido(registros: seq<Progress>, h: Habit) {
    exists p :: p in registros && p.habito == h.id && p.cumplido
  }

  /** The names of the habits with no fulfilled record among `registros`, in habit order. */
  function Pendientes(hs: seq<Habit>, registros: seq<Progress>): (r: seq<Option<string>>)
    ensures |r| <= |hs|
    ensures forall x :: x in r ==> exists h :: h in hs && h.nombre == x && !TieneCumplido(registros, h)
    ensures forall h :: h in hs && !TieneCumplido(registros, h) ==> h.nombre in r
  {
    if hs == [] then []
    else (if TieneCumplido(registros, hs[0]) then [] else [hs[0].nombre]) + Pendientes(hs[1..], registros)
  }

  /** How many of the habits have a fulfilled record on the day. */
  function ConCumplidoEn(hs: seq<Habit>, ps: seq<Progress>, fecha: int): (n: nat)
    ensures n <= |hs|
  {
    if hs == [] then 0
    else (if TieneCumplidoEn(ps, hs[0].id, fecha) then 1 else 0) + ConCumplidoEn(hs[1..], ps, fecha)
  }

  /** There are as many fulfilled names as fulfilled records of the day. */
  lemma {:induction false} NombresCumplidosCuenta(ps: seq<Progress>, ids: set<nat>, fecha: int, hs: seq<Habit>)
    ensures |NombresCumplidos(RegistrosDelDia(ps, ids, fecha), hs)| == CumplidosEntre(ps, ids, fecha, fecha)
  {
    if ps != [] {
      NombresCumplidosCuenta(ps[1..], ids, fecha, hs);
      var resto := RegistrosDelDia(ps[1..], ids, fecha);
      if ps[0].habito in ids && ps[0].fecha == Some(fecha) {
        var rs := [ps[0]] + resto;
        assert RegistrosDelDia(ps, ids, fecha) == rs;
        assert rs[0] == ps[0] && rs[1..] == resto;
        assert |NombresCumplidos(rs, hs)| == (if ps[0].cumplido then 1 else 0) + |NombresCumplidos(resto, hs)|;
      } else {
        assert RegistrosDelDia(ps, ids, fecha) == resto;
      }
    }
  }

  /** Every habit of the list is either pending or has a fulfilled record of the day. */
  lemma {:induction false} PendientesCuenta(hs: seq<Habit>, ps: seq<Progress>, ids: set<nat>, fecha: int)
    requires forall h :: h in hs ==> h.id in ids
    ensures |Pendientes(hs, RegistrosDelDia(ps, ids, fecha))| + ConCumplidoEn(hs, ps, fecha) == |hs|
  {
    if hs != [] {
      var registros := RegistrosDelDia(ps, ids, fecha);
      assert TieneCumplido(registros, hs[0]) <==> TieneCumplidoEn(ps, hs[0].id, fecha) by {
        if TieneCumplidoEn(ps, hs[0].id, fecha) {
          var p :| p in ps && p.habito == hs[0].id && p.fecha == Some(fecha) && p.cumplido;
          assert p in registros;
        }
      }
      PendientesCuenta(hs[1..], ps, ids, fecha);
    }
  }

  /** Under the table's constraints, the day's fulfilled records are the habits fulfilled that day. */
  lemma {:induction false} CumplidosSonHabitosCumplidos(hs: seq<Habit>, ps: seq<Progress>, fecha: int)
    requires UniqueHabitIds(hs) && OnePerDay(ps)
    ensures CumplidosEntre(ps, IdsDe(hs), fecha, fecha) == ConCumplidoEn(hs, ps, fecha)
  {
    if hs == [] {
      assert CumplidosEntre(ps, IdsDe(hs), fecha, fecha) == 0;
    } else {
      PorHabitoEsDelConjunto(hs, ps, fecha);
      PorHabitoEsDelConjunto(hs[1..], ps, fecha);
      UnoPorDia(ps, hs[0].id, fecha);
      CumplidosSonHabitosCumplidos(hs[1..], ps, fecha);
    }
  }

  lemma CumplidosSonHabitosCumplidosSiValido(hs: seq<Habit>, ps: seq<Progress>, fecha: int)
    ensures UniqueHabitIds(hs) && OnePerDay(ps) ==>
      CumplidosEntre(ps, IdsDe(hs), fecha, fecha) == ConCumplidoEn(hs, ps, fecha)
  {
    if UniqueHabitIds(hs) && OnePerDay(ps) {
      CumplidosSonHabitosCumplidos(hs, ps, fecha);
    }
  }

  /**
   * `obtenerProgresoDiarioDetallado`: not-found for an unknown username;
   * otherwise the fulfilled names (those of the day's fulfilled records of
   * the user's habits), the pending names and the percentage.  Under
   * the table's constraints every habit lands in exactly one of the two lists.
   */
  function ObtenerProgresoDiarioDetallado(users: UserStore, habits: HabitStore, progress: ProgressStore, username: string, fecha: int)
    : (r: Result<ProgresoDetallado>)
    reads users, habits, progress
    ensures r.Err? <==> users.FindByUsername(username).None?
    ensures r.Err? ==> r.error == ResourceNotFound(UsuarioNoEncontrado)
    ensures r.Ok? ==>
      var habitos := habits.FindByUsuario(users.FindByUsername(username).value.id);
      r.value.fecha == fecha &&
      r.value.porcentaje == PorcentajeDe(|r.value.habitosCumplidos|, |habitos|) &&
      |r.value.habitosCumplidos| == CumplidosEntre(progress.progresos, IdsDe(habitos), fecha, fecha) &&
      (forall h :: h in habitos && !TieneCumplidoEn(progress.progresos, h.id, fecha) ==> h.nombre in r.value.habitosPendientes) &&
      (forall x :: x in r.value.habitosPendientes ==>
        exists h :: h in habitos && h.nombre == x && !TieneCumplidoEn(progress.progresos, h.id, fecha))
    ensures r.Ok? ==>
      var habitos := habits.FindByUsuario(users.FindByUsername(username).value.id);
      forall x :: x in r.value.habitosCumplidos <==>
        exists p :: p in progress.progresos && p.habito in IdsDe(habitos) && p.fecha == Some(fecha) && p.cumplido &&
          NombreDe(habitos, p.habito) == x
    ensures r.Ok? && habits.Valid() && progress.Valid() ==>
      var habitos := habits.FindByUsuario(users.FindByUsername(username).value.id);
      |r.value.habitosCumplidos| + |r.value.habitosPendientes| == |habitos|
  {
    match users.FindByUsername(username)
    case None => Err(ResourceNotFound(UsuarioNoEncontrado))
    case Some(u) =>
      var habitos := habits.FindByUsuario(u.id);
      var ids := IdsDe(habitos);
      var progresosHoy := RegistrosDelDia(progress.progresos, ids, fecha);
      var cumplidos := NombresCumplidos(progresosHoy, habitos);
      var pendientes := Pendientes(habitos, progresosHoy);
      NombresCumplidosCuenta(progress.progresos, ids, fecha, habitos);
      PendientesCuenta(habitos, progress.progresos, ids, fecha);
      DelDiaSiYSoloSi(habitos, progress.progresos, ids, fecha);
      CumplidosSonHabitosCumplidosSiValido(habitos, progress.progresos, fecha);
      Ok(ProgresoDetallado(fecha, cumplidos, pendientes, PorcentajeDe(|cumplidos|, |habitos|)))
  }

  /** For a habit of the list, a fulfilled record among the day's records is one in the table. */
  lemma DelDiaSiYSoloSi(hs: seq<Habit>, ps: seq<Progress>, ids: set<nat>, fecha: int)
    requires ids == IdsDe(hs)
    ensures forall h :: h in hs ==> (TieneCumplido(RegistrosDelDia(ps, ids, fecha), h) <==> TieneCumplidoEn(ps, h.id, fecha))
  {
    var registros := RegistrosDelDia(ps, ids, fecha);
    forall h | h in hs ensures TieneCumplido(registros, h) <==> TieneCumplidoEn(ps, h.id, fecha) {
      var k :| 0 <= k < |hs| && hs[k] == h;
      assert h.id in ids;
      if TieneCumplidoEn(ps, h.id, fecha) {
        var p :| p in ps && p.habito == h.id && p.fecha == Some(fecha) && p.cumplido;
        assert p in registros;
      }
    }
  }

  /**
   * The summary and the detailed view of the same day report the same number
   * of fulfilled habits.  Only the summary fails on a record without a date:
   * the detailed view selects the day's records in the query, which leaves
   * such records out.
   */
  lemma DiarioCoincideConDetallado(users: UserStore, habits: HabitStore, progress: ProgressStore, username: string, hoy: int)
    requires habits.Valid()
    ensures ObtenerProgresoDiario(users, habits, progress, username, hoy).Ok? <==>
      ObtenerProgresoDiarioDetallado(users, habits, progress, username, hoy).Ok? &&
      !HaySinFecha(progress.progresos, IdsDe(habits.FindByUsuario(users.FindByUsername(username).value.id)))
    ensures ObtenerProgresoDiario(users, habits, progress, username, hoy).Ok? ==>
      ObtenerProgresoDiario(users, habits, progress, username, hoy).value.habitosCumplidos ==
      |ObtenerProgresoDiarioDetallado(users, habits, progress, username, hoy).value.habitosCumplidos|
  {
  }

  // ---------------------------------------------------------------------------
  // Weekly and monthly statistics

  datatype EstadisticasSemanales = EstadisticasSemanales(
    semanaInicio: int,
    semanaFin: int,
    totalHabitos: nat,
    habitosCumplidos: nat,
    porcentajeCumplimiento: Porcentaje)

  /**
   * `obtenerEstadisticasSemanales`: the week runs from the Monday of `hoy` to
   * the Sunday after; the denominator is seven days per habit.
   */
  function ObtenerEstadisticasSemanales(habits: HabitStore, progress: ProgressStore, usuario: User, hoy: int)
    : (r: EstadisticasSemanales)
    reads habits, progress
    ensures DiaDeLaSemana(r.semanaInicio) == 1 && r.semanaFin == r.semanaInicio + 6
    ensures r.semanaInicio <= hoy <= r.semanaFin
    ensures var habitos := habits.FindByUsuario(usuario.id);
      r.totalHabitos == |habitos| &&
      r.habitosCumplidos == CumplidosEntre(progress.progresos, IdsDe(habitos), r.semanaInicio, r.semanaFin)
    ensures r.porcentajeCumplimiento == PorcentajeDe(r.habitosCumplidos, r.totalHabitos * 7)
    ensures progress.Valid() ==> r.habitosCumplidos <= r.totalHabitos * 7
  {
    var inicio := InicioSemana(hoy);
    var fin := inicio + 6;
    var habitos := habits.FindByUsuario(usuario.id);
    var cumplidos := CumplidosEntre(progress.progresos, IdsDe(habitos), inicio, fin);
    CotaVentanaSiValida(progress, habitos, inicio, fin, 7);
    EstadisticasSemanales(inicio, fin, |habitos|, cumplidos, PorcentajeDe(cumplidos, |habitos| * 7))
  }

  /** Under the store's invariant, a window of `dias` days holds at most `dias` fulfilled records per habit. */
  lemma CotaVentanaSiValida(progress: ProgressStore, hs: seq<Habit>, desde: int, hasta: int, dias: nat)
    requires hasta == desde + dias - 1
    ensures progress.Valid() ==> CumplidosEntre(progress.progresos, IdsDe(hs), desde, hasta) <= |hs| * dias
  {
    if progress.Valid() {
      CotaVentana(progress.progresos, hs, desde, hasta);
    }
  }

  /** A valid date lies within its month's window of day numbers. */
  lemma DiaEnSuMes(hoy: Fecha)
    requires FechaValida(hoy)
    ensures var inicio := DiaEpoca(Fecha(hoy.anio, hoy.mes, 1));
      inicio <= DiaEpoca(hoy) < inicio + LargoDelMes(hoy.anio, hoy.mes)
  {
    DiasDelMesConsecutivos(hoy.anio, hoy.mes, hoy.dia);
    assert hoy == Fecha(hoy.anio, hoy.mes, hoy.dia);
  }

  datatype EstadisticasMensuales = EstadisticasMensuales(
    mes: string,
    habitosCumplidos: nat,
    totalHabitos: nat,
    porcentajeCumplimiento: Porcentaje)

  /**
   * `obtenerEstadisticasMensuales`: the window runs from the first to the
   * last day of the month of `hoy`; the denominator is the month's length
   * per habit.
   */
  function ObtenerEstadisticasMensuales(habits: HabitStore, progress: ProgressStore, usuario: User, hoy: Fecha)
    : (r: EstadisticasMensuales)
    requires 1 <= hoy.mes <= 12
    reads habits, progress
    ensures r.mes == NombreMes(hoy.mes)
    ensures var habitos := habits.FindByUsuario(usuario.id);
      var largo := LargoDelMes(hoy.anio, hoy.mes);
      var inicio := DiaEpoca(Fecha(hoy.anio, hoy.mes, 1));
      r.totalHabitos == |habitos| * largo &&
      r.habitosCumplidos == CumplidosEntre(progress.progresos, IdsDe(habitos), inicio, inicio + largo - 1)
    ensures r.porcentajeCumplimiento == PorcentajeDe(r.habitosCumplidos, r.totalHabitos)
    ensures progress.Valid() ==> r.habitosCumplidos <= r.totalHabitos
  {
    EstadisticasDeVentana(NombreMes(hoy.mes), progress, habits.FindByUsuario(usuario.id),
                          DiaEpoca(Fecha(hoy.anio, hoy.mes, 1)), LargoDelMes(hoy.anio, hoy.mes))
  }

  /** The monthly figures over the `largo` days from `inicio`, kept apart from the calendar arithmetic. */
  function EstadisticasDeVentana(mes: string, progress: ProgressStore, habitos: seq<Habit>, inicio: int, largo: nat)
    : (r: EstadisticasMensuales)
    reads progress
    ensures r.mes == mes && r.totalHabitos == |habitos| * largo
    ensures r.habitosCumplidos == CumplidosEntre(progress.progresos, IdsDe(habitos), inicio, inicio + largo - 1)
    ensures r.porcentajeCumplimiento == PorcentajeDe(r.habitosCumplidos, r.totalHabitos)
    ensures progress.Valid() ==> r.habitosCumplidos <= r.totalHabitos
  {
    var fin := inicio + largo - 1;
    var cumplidos := CumplidosEntre(progress.progresos, IdsDe(habitos), inicio, fin);
    CotaVentanaSiValida(progress, habitos, inicio, fin, largo);
    EstadisticasMensuales(mes, cumplidos, |habitos| * largo, PorcentajeDe(cumplidos, |habitos| * largo))
  }
}
