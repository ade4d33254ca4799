/**
 * The achievement rule engine (AchievementService): counts the fulfilled
 * progress records, measures the current streak of fulfilled days ending
 * today (at most seven), and grants each of four fixed achievements whose
 * threshold is met and which the user does not hold yet.
 */
module AchievementService {
  import opened Common
  import opened Model

  // ---------------------------------------------------------------------------
  // Specification

  /** How many records are fulfilled (`filter(Progress::isCumplido).count()`). */
  function TotalCumplidos(ps: seq<Progress>): nat {
    Count(ps, (p: Progress) => p.cumplido)
  }

  /** Some record of day `fecha` is fulfilled (the stream's `anyMatch`). */
  predicate CumplidoEl(ps: seq<Progress>, fecha: int) {
    exists k :: 0 <= k < |ps| && ps[k].fecha == Some(fecha) && ps[k].cumplido
  }

  /** Some record of the day `k` days before `hoy` is fulfilled. */
  predicate CumplidoHace(ps: seq<Progress>, hoy: int, k: int) {
    CumplidoEl(ps, hoy - k)
  }

  /** The streak counted from day `hoy - i` backwards, stopping after day `hoy - 6`. */
  function RachaDesde(ps: seq<Progress>, hoy: int, i: nat): nat
    decreases 7 - i
  {
    if i >= 7 || !CumplidoHace(ps, hoy, i) then 0 else 1 + RachaDesde(ps, hoy, i + 1)
  }

  /** The current streak: consecutive fulfilled days ending `hoy`, capped at 7. */
  function Racha(ps: seq<Progress>, hoy: int): nat {
    RachaDesde(ps, hoy, 0)
  }

  /** What the source promises of a streak value `r`. */
  predicate EsRacha(ps: seq<Progress>, hoy: int, r: nat) {
    r <= 7 &&
    (forall k :: 0 <= k < r ==> CumplidoHace(ps, hoy, k)) &&
    (r < 7 ==> !CumplidoHace(ps, hoy, r))
  }

  lemma {:induction false} RachaDesdeCaracterizacion(ps: seq<Progress>, hoy: int, i: nat, r: nat)
    requires i <= 7
    ensures r == RachaDesde(ps, hoy, i) <==>
      (i + r <= 7 &&
       (forall k :: i <= k < i + r ==> CumplidoHace(ps, hoy, k)) &&
       (i + r < 7 ==> !CumplidoHace(ps, hoy, i + r)))
    decreases 7 - i
  {
    if i < 7 && CumplidoHace(ps, hoy, i) {
      if r == 0 {
        assert RachaDesde(ps, hoy, i) >= 1;
      } else {
        RachaDesdeCaracterizacion(ps, hoy, i + 1, r - 1);
      }
    }
  }

  /** `Racha` is the one value with the streak's defining property (both directions). */
  lemma RachaCaracterizacion(ps: seq<Progress>, hoy: int, r: nat)
    ensures r == Racha(ps, hoy) <==> EsRacha(ps, hoy, r)
  {
    RachaDesdeCaracterizacion(ps, hoy, 0, r);
  }
  /**
   * The streak compares dates with a null-safe `equals`: a record without a
   * date counts toward the fulfilled total but never toward the streak.
   */
  lemma RegistroSinFecha(ps: seq<Progress>, p: Progress, hoy: int)
    requires p.fecha.None?
    ensures Racha(ps + [p], hoy) == Racha(ps, hoy)
    ensures TotalCumplidos(ps + [p]) == TotalCumplidos(ps) + (if p.cumplido then 1 else 0)
  {
    var qs := ps + [p];
    forall k | 0 <= k < 7 ensures CumplidoHace(qs, hoy, k) <==> CumplidoHace(ps, hoy, k) {
      if CumplidoHace(ps, hoy, k) {
        var i :| 0 <= i < |ps| && ps[i].fecha == Some(hoy - k) && ps[i].cumplido;
        assert qs[i] == ps[i];
      }
      if CumplidoHace(qs, hoy, k) {
        var i :| 0 <= i < |qs| && qs[i].fecha == Some(hoy - k) && qs[i].cumplido;
        assert i < |ps| && ps[i] == qs[i];
      }
    }
    var r := Racha(ps, hoy);
    RachaCaracterizacion(ps, hoy, r);
    RachaCaracterizacion(qs, hoy, r);
    CountAppend(ps, [p], (x: Progress) => x.cumplido);
  }


  /** One achievement rule: a threshold on the fulfilled total or on the streak. */
  datatype Regla = Regla(nombre: string, descripcion: string, porRacha: bool, umbral: nat)

  const PrimerPaso := Regla("Primer paso", "Completaste tu primer hábito", false, 1)
  const RachaTres := Regla("Racha de 3 días", "Mantuviste una racha de 3 días consecutivos", true, 3)
  const ConstanciaSemanal := Regla("Constancia semanal", "Cumpliste hábitos al menos 5 días esta semana", false, 5)
  const MaestroDeHabitos := Regla("Maestro de hábitos", "Completaste 50 hábitos en total", false, 50)

  /** The rules in the order they are evaluated. */
  const Reglas: seq<Regla> := [PrimerPaso, RachaTres, ConstanciaSemanal, MaestroDeHabitos]

  predicate Alcanzada(regla: Regla, total: nat, racha: nat) {
    (if regla.porRacha then racha else total) >= regla.umbral
  }

  /** `existsByUsuarioAndNombre`. */
  predicate Existe(logros: seq<Achievement>, usuario: nat, nombre: string) {
    exists k :: 0 <= k < |logros| && logros[k].usuario == usuario && logros[k].nombre == nombre
  }

  /** The rows the rules in `reglas` add, in order, for a user holding `logros`. */
  function OtorgadosPor(reglas: seq<Regla>, logros: seq<Achievement>, usuario: nat, total: nat, racha: nat): seq<Achievement>
  {
    if reglas == [] then []
    else
      var r := reglas[0];
      (if Alcanzada(r, total, racha) && !Existe(logros, usuario, r.nombre)
       then [Achievement(r.nombre, r.descripcion, usuario)] else [])
      + OtorgadosPor(reglas[1..], logros, usuario, total, racha)
  }

  /** The rows one evaluation adds. */
  function Otorgados(logros: seq<Achievement>, usuario: nat, total: nat, racha: nat): seq<Achievement> {
    OtorgadosPor(Reglas, logros, usuario, total, racha)
  }

  // ---------------------------------------------------------------------------
  // Operations

  /** `calcularRachaActual`: the bounded loop with its early exit. */
  method CalcularRachaActual(ps: seq<Progress>, hoy: int) returns (racha: nat)
    ensures EsRacha(ps, hoy, racha)
    ensures racha == Racha(ps, hoy)
  {
    racha := 0;
    for i := 0 to 7
      invariant racha == i
      invariant forall k :: 0 <= k < i ==> CumplidoHace(ps, hoy, k)
    {
      var fecha := hoy - i;
      var cumplidoHoy := exists k :: 0 <= k < |ps| && ps[k].fecha == Some(fecha) && ps[k].cumplido;
      if cumplidoHoy {
        racha := racha + 1;
      } else {
        break;
      }
    }
    RachaCaracterizacion(ps, hoy, racha);
  }

  /** `asignarLogro`: saves one new row. */
  method AsignarLogro(store: AchievementStore, usuario: User, nombre: string, descripcion: string)
    modifies store
    ensures store.logros == old(store.logros) + [Achievement(nombre, descripcion, usuario.id)]
  {
    store.logros := store.logros + [Achievement(nombre, descripcion, usuario.id)];
  }

  /**
   * One of the guarded inserts of `verificarYAsignarLogros`, for rule `i`:
   * when its threshold is met and the user does not hold the achievement,
   * save it.  Given the rows the earlier rules added, the store afterwards
   * holds the rows of the rules up to and including `i`.
   */
  method OtorgarSiFalta(store: AchievementStore, u: User, i: nat, alcanzada: bool,
                        ghost inicial: seq<Achievement>, ghost total: nat, ghost racha: nat)
    requires i < |Reglas|
    requires alcanzada == Alcanzada(Reglas[i], total, racha)
    requires store.logros == inicial + OtorgadosPor(Reglas[..i], inicial, u.id, total, racha)
    modifies store
    ensures store.logros == inicial + OtorgadosPor(Reglas[..i + 1], inicial, u.id, total, racha)
  {
    var regla := Reglas[i];
    NombresDistintos();
    PrefixSnoc(Reglas, i);
    PasoRegla(inicial, Reglas[..i], regla, u.id, total, racha);
    if alcanzada && !Existe(store.logros, u.id, regla.nombre) {
      AsignarLogro(store, u, regla.nombre, regla.descripcion);
    }
  }

  /**
   * The four rules of `verificarYAsignarLogros` in order, over the given
   * progress records; the streak is computed after the first rule, as there.
   */
  method OtorgarReglas(store: AchievementStore, u: User, progresos: seq<Progress>, hoy: int)
    modifies store
    ensures store.logros == old(store.logros) + Otorgados(old(store.logros), u.id, TotalCumplidos(progresos), Racha(progresos, hoy))
  {
    ghost var inicial := store.logros;
    ghost var rachaActual := Racha(progresos, hoy);
    var totalCumplidos := TotalCumplidos(progresos);
    ReglasCompletas();
    OtorgarSiFalta(store, u, 0, totalCumplidos >= 1, inicial, totalCumplidos, rachaActual);
    var racha := CalcularRachaActual(progresos, hoy);
    OtorgarSiFalta(store, u, 1, racha >= 3, inicial, totalCumplidos, rachaActual);
    OtorgarSiFalta(store, u, 2, totalCumplidos >= 5, inicial, totalCumplidos, rachaActual);
    OtorgarSiFalta(store, u, 3, totalCumplidos >= 50, inicial, totalCumplidos, rachaActual);
  }

  /**
   * `verificarYAsignarLogros`.  The fulfilled total is taken over every record
   * in the progress store; the user's habits are loaded but do not take part.
   */
  method VerificarYAsignarLogros(store: AchievementStore, habits: HabitStore, progress: ProgressStore,
                                 usuario: Option<User>, hoy: int)
    returns (r: Result<Unit>)
    modifies store
    ensures usuario.None? ==>
      r == Err(ResourceNotFound("Usuario no encontrado para verificar logros")) &&
      store.logros == old(store.logros)
    ensures usuario.Some? ==>
      r == Ok(Unit) &&
      store.logros == old(store.logros) + Otorgados(old(store.logros), usuario.value.id,
                                                    TotalCumplidos(progress.progresos), Racha(progress.progresos, hoy))
  {
    if usuario.None? {
      return Err(ResourceNotFound("Usuario no encontrado para verificar logros"));
    }
    var u := usuario.value;
    var habitos := habits.FindByUsuario(u.id);
    OtorgarReglas(store, u, progress.progresos, hoy);
    r := Ok(Unit);
  }

  /** The achievements of one user, in store order. */
  function DelUsuario(logros: seq<Achievement>, usuario: nat): (r: seq<Achievement>)
    ensures forall a :: a in r <==> a in logros && a.usuario == usuario
  {
    Filter(logros, (a: Achievement) => a.usuario == usuario)
  }

  /** `obtenerLogrosPorUsuario`. */
  method ObtenerLogrosPorUsuario(store: AchievementStore, usuario: Option<User>) returns (r: Result<seq<Achievement>>)
    ensures usuario.None? ==> r == Err(ResourceNotFound("Usuario no encontrado"))
    ensures usuario.Some? ==> r.Ok? && forall a :: a in r.value <==> a in store.logros && a.usuario == usuario.value.id
    ensures usuario.Some? ==> |r.value| == Count(store.logros, (a: Achievement) => a.usuario == usuario.value.id)
  {
    if usuario.None? {
      return Err(ResourceNotFound("Usuario no encontrado"));
    }
    var mios := DelUsuario(store.logros, usuario.value.id);
    FilterLength(store.logros, (a: Achievement) => a.usuario == usuario.value.id);
    r := Ok(mios);
  }

  // ---------------------------------------------------------------------------
  // Helper lemmas for the imperative proof

  lemma {:induction false} OtorgadosPorAppend(a: seq<Regla>, b: seq<Regla>, logros: seq<Achievement>, usuario: nat, total: nat, racha: nat)
    ensures OtorgadosPor(a + b, logros, usuario, total, racha) ==
            OtorgadosPor(a, logros, usuario, total, racha) + OtorgadosPor(b, logros, usuario, total, racha)
  {
    if a == [] {
      assert a + b == b;
    } else {
      assert (a + b)[1..] == a[1..] + b;
      OtorgadosPorAppend(a[1..], b, logros, usuario, total, racha);
    }
  }

  /** The empty and the full prefix of the rule list. */
  lemma ReglasCompletas()
    ensures Reglas[..0] == [] && Reglas[..4] == Reglas
  {
  }

  lemma NombresDistintos()
    ensures forall i, j :: 0 <= i < j < |Reglas| ==> Reglas[i].nombre != Reglas[j].nombre
    ensures Reglas[..1] == [PrimerPaso] && Reglas[..2] == [PrimerPaso, RachaTres]
    ensures Reglas[..3] == [PrimerPaso, RachaTres, ConstanciaSemanal]
  {
    assert PrimerPaso.nombre[0] == 'P' && RachaTres.nombre[0] == 'R';
    assert ConstanciaSemanal.nombre[0] == 'C' && MaestroDeHabitos.nombre[0] == 'M';
  }

  /**
   * One guarded insert: with the rows of `prefijo` already added, rule `regla`
   * sees the same existence answer as on the initial rows, and the store then
   * holds the rows of `prefijo + [regla]`.
   */
  lemma PasoRegla(inicial: seq<Achievement>, prefijo: seq<Regla>, regla: Regla, usuario: nat, total: nat, racha: nat)
    requires forall k :: 0 <= k < |prefijo| ==> prefijo[k].nombre != regla.nombre
    ensures Existe(inicial + OtorgadosPor(prefijo, inicial, usuario, total, racha), usuario, regla.nombre)
            == Existe(inicial, usuario, regla.nombre)
    ensures OtorgadosPor(prefijo + [regla], inicial, usuario, total, racha) ==
            OtorgadosPor(prefijo, inicial, usuario, total, racha) +
            (if Alcanzada(regla, total, racha) && !Existe(inicial, usuario, regla.nombre)
             then [Achievement(regla.nombre, regla.descripcion, usuario)] else [])
  {
    ExisteTrasOtros(inicial, prefijo, usuario, total, racha, regla.nombre);
    OtorgadosPorAppend(prefijo, [regla], inicial, usuario, total, racha);
  }

  /** Rows added by rules other than `nombre` do not change whether `nombre` is held. */
  lemma {:induction false} ExisteTrasOtros(logros: seq<Achievement>, reglas: seq<Regla>, usuario: nat, total: nat, racha: nat, nombre: string)
    requires forall k :: 0 <= k < |reglas| ==> reglas[k].nombre != nombre
    ensures Existe(logros + OtorgadosPor(reglas, logros, usuario, total, racha), usuario, nombre) == Existe(logros, usuario, nombre)
  {
    var extra := OtorgadosPor(reglas, logros, usuario, total, racha);
    NombresOtorgados(reglas, logros, usuario, total, racha);
    var todo := logros + extra;
    if Existe(todo, usuario, nombre) {
      var k :| 0 <= k < |todo| && todo[k].usuario == usuario && todo[k].nombre == nombre;
      if k >= |logros| {
        assert false;
      }
      assert logros[k] == todo[k];
    }
    if Existe(logros, usuario, nombre) {
      var k :| 0 <= k < |logros| && logros[k].usuario == usuario && logros[k].nombre == nombre;
      assert todo[k] == logros[k];
    }
  }

  /** Every added row comes from one of the rules, for this user, and was not held before. */
  lemma {:induction false} NombresOtorgados(reglas: seq<Regla>, logros: seq<Achievement>, usuario: nat, total: nat, racha: nat)
    ensures forall a :: a in OtorgadosPor(reglas, logros, usuario, total, racha) ==>
      a.usuario == usuario && !Existe(logros, usuario, a.nombre) &&
      exists k :: 0 <= k < |reglas| && reglas[k].nombre == a.nombre && reglas[k].descripcion == a.descripcion &&
                  Alcanzada(reglas[k], total, racha)
    ensures |OtorgadosPor(reglas, logros, usuario, total, racha)| <= |reglas|
  {
    if reglas != [] {
      NombresOtorgados(reglas[1..], logros, usuario, total, racha);
      forall a | a in OtorgadosPor(reglas[1..], logros, usuario, total, racha)
        ensures exists k :: 0 <= k < |reglas| && reglas[k].nombre == a.nombre && reglas[k].descripcion == a.descripcion &&
                            Alcanzada(reglas[k], total, racha)
      {
        var k :| 0 <= k < |reglas[1..]| && reglas[1..][k].nombre == a.nombre && reglas[1..][k].descripcion == a.descripcion &&
                 Alcanzada(reglas[1..][k], total, racha);
        assert reglas[k + 1] == reglas[1..][k];
      }
    }
  }

  // ---------------------------------------------------------------------------
  // Properties of one evaluation

  /** Each rule's row is added exactly when its threshold holds and the user lacks that name. */
  lemma OtorgadoSiYSoloSi(logros: seq<Achievement>, usuario: nat, total: nat, racha: nat, i: nat)
    requires i < |Reglas|
    ensures Achievement(Reglas[i].nombre, Reglas[i].descripcion, usuario) in Otorgados(logros, usuario, total, racha)
            <==> Alcanzada(Reglas[i], total, racha) && !Existe(logros, usuario, Reglas[i].nombre)
  {
    NombresDistintos();
    MiembroOtorgadosPor(Reglas, logros, usuario, total, racha, i);
  }

  /** The thresholds spelled out: what one evaluation adds for a user holding none of the four. */
  lemma UmbralesDeLasReglas(logros: seq<Achievement>, usuario: nat, total: nat, racha: nat)
    requires forall k :: 0 <= k < |logros| ==> logros[k].usuario != usuario
    ensures Otorgados(logros, usuario, total, racha) ==
      (if total >= 1 then [Achievement("Primer paso", "Completaste tu primer hábito", usuario)] else []) +
      (if racha >= 3 then [Achievement("Racha de 3 días", "Mantuviste una racha de 3 días consecutivos", usuario)] else []) +
      (if total >= 5 then [Achievement("Constancia semanal", "Cumpliste hábitos al menos 5 días esta semana", usuario)] else []) +
      (if total >= 50 then [Achievement("Maestro de hábitos", "Completaste 50 hábitos en total", usuario)] else [])
  {
    SinLogros(logros, usuario);
    OtorgadosPorAppend([PrimerPaso], [RachaTres, ConstanciaSemanal, MaestroDeHabitos], logros, usuario, total, racha);
    OtorgadosPorAppend([RachaTres], [ConstanciaSemanal, MaestroDeHabitos], logros, usuario, total, racha);
    OtorgadosPorAppend([ConstanciaSemanal], [MaestroDeHabitos], logros, usuario, total, racha);
  }

  /** One evaluation adds at most four rows, all for this user and none already held. */
  lemma OtorgadosAcotados(logros: seq<Achievement>, usuario: nat, total: nat, racha: nat)
    ensures |Otorgados(logros, usuario, total, racha)| <= 4
    ensures forall a :: a in Otorgados(logros, usuario, total, racha) ==>
      a.usuario == usuario && !Existe(logros, usuario, a.nombre)
  {
    NombresOtorgados(Reglas, logros, usuario, total, racha);
  }

  /** Idempotence: evaluating again on the same progress adds nothing. */
  lemma Idempotencia(logros: seq<Achievement>, usuario: nat, total: nat, racha: nat)
    ensures Otorgados(logros + Otorgados(logros, usuario, total, racha), usuario, total, racha) == []
  {
    var extra := Otorgados(logros, usuario, total, racha);
    var despues := logros + extra;
    forall i | 0 <= i < |Reglas|
      ensures !Alcanzada(Reglas[i], total, racha) || Existe(despues, usuario, Reglas[i].nombre)
    {
      var a := Achievement(Reglas[i].nombre, Reglas[i].descripcion, usuario);
      if Alcanzada(Reglas[i], total, racha) {
        if Existe(logros, usuario, Reglas[i].nombre) {
          var k :| 0 <= k < |logros| && logros[k].usuario == usuario && logros[k].nombre == Reglas[i].nombre;
          assert despues[k] == logros[k];
        } else {
          OtorgadoSiYSoloSi(logros, usuario, total, racha, i);
          var j :| 0 <= j < |extra| && extra[j] == a;
          assert despues[|logros| + j] == a;
        }
      }
    }
    NadaQueOtorgar(Reglas, despues, usuario, total, racha);
  }

  /** The (user, name) pairs stay unique. */
  lemma UnicidadPreservada(logros: seq<Achievement>, usuario: nat, total: nat, racha: nat)
    requires UniqueAchievements(logros)
    ensures UniqueAchievements(logros + Otorgados(logros, usuario, total, racha))
  {
    var extra := Otorgados(logros, usuario, total, racha);
    var todo := logros + extra;
    NombresDistintos();
    NombresOtorgados(Reglas, logros, usuario, total, racha);
    OtorgadosUnicos(Reglas, logros, usuario, total, racha);
    forall i, j | 0 <= i < j < |todo|
      ensures !(todo[i].usuario == todo[j].usuario && todo[i].nombre == todo[j].nombre)
    {
      if j < |logros| {
        assert todo[i] == logros[i] && todo[j] == logros[j];
      } else if i < |logros| {
        assert todo[j] in extra;
        assert todo[i] == logros[i];
      } else {
        assert todo[i] == extra[i - |logros|] && todo[j] == extra[j - |logros|];
      }
    }
  }

  // ---------------------------------------------------------------------------
  // The scenarios of the service's tests

  /** `n` records fulfilled on the `n` days ending `hoy`, one per day. */
  function Consecutivos(hoy: int, n: nat): (ps: seq<Progress>)
    ensures |ps| == n
    ensures forall k :: 0 <= k < n ==> ps[k] == Progress(k, 0, Some(hoy - k), true)
  {
    if n == 0 then [] else Consecutivos(hoy, n - 1) + [Progress(n - 1, 0, Some(hoy - (n - 1)), true)]
  }

  lemma {:induction false} ConsecutivosTotal(hoy: int, n: nat)
    ensures TotalCumplidos(Consecutivos(hoy, n)) == n
  {
    if n > 0 {
      ConsecutivosTotal(hoy, n - 1);
      CountAppend(Consecutivos(hoy, n - 1), [Progress(n - 1, 0, Some(hoy - (n - 1)), true)], (p: Progress) => p.cumplido);
    }
  }

  /** With `n` consecutive fulfilled days the streak is `n`, capped at 7. */
  lemma ConsecutivosRacha(hoy: int, n: nat)
    ensures Racha(Consecutivos(hoy, n), hoy) == if n < 7 then n else 7
  {
    var ps := Consecutivos(hoy, n);
    var r := if n < 7 then n else 7;
    forall k | 0 <= k < r ensures CumplidoHace(ps, hoy, k) {
      assert ps[k].fecha == Some(hoy - k);
    }
    if r < 7 {
      assert !CumplidoHace(ps, hoy, r);
    }
    RachaCaracterizacion(ps, hoy, r);
  }

  /** No fulfilled record: nothing is granted. */
  lemma EscenarioSinProgresos(logros: seq<Achievement>, usuario: nat, hoy: int, ps: seq<Progress>)
    requires forall k :: 0 <= k < |ps| ==> !ps[k].cumplido
    ensures Otorgados(logros, usuario, TotalCumplidos(ps), Racha(ps, hoy)) == []
  {
    assert !CumplidoHace(ps, hoy, 0);
    RachaCaracterizacion(ps, hoy, 0);
    forall i | 0 <= i < |Reglas| ensures !Alcanzada(Reglas[i], TotalCumplidos(ps), Racha(ps, hoy)) || Existe(logros, usuario, Reglas[i].nombre) {
    }
    NadaQueOtorgar(Reglas, logros, usuario, TotalCumplidos(ps), Racha(ps, hoy));
  }

  /** Five fulfilled days ending today grant "Primer paso", "Racha de 3 días" and "Constancia semanal". */
  lemma EscenarioCincoDias(logros: seq<Achievement>, usuario: nat, hoy: int)
    requires forall k :: 0 <= k < |logros| ==> logros[k].usuario != usuario
    ensures var ps := Consecutivos(hoy, 5);
      Otorgados(logros, usuario, TotalCumplidos(ps), Racha(ps, hoy)) ==
        [Achievement(PrimerPaso.nombre, PrimerPaso.descripcion, usuario),
         Achievement(RachaTres.nombre, RachaTres.descripcion, usuario),
         Achievement(ConstanciaSemanal.nombre, ConstanciaSemanal.descripcion, usuario)]
  {
    ConsecutivosTotal(hoy, 5);
    ConsecutivosRacha(hoy, 5);
    UmbralesDeLasReglas(logros, usuario, 5, 5);
  }

  /** Fifty-five fulfilled days ending today grant all four achievements. */
  lemma EscenarioCincuentaYCincoDias(logros: seq<Achievement>, usuario: nat, hoy: int)
    requires forall k :: 0 <= k < |logros| ==> logros[k].usuario != usuario
    ensures var ps := Consecutivos(hoy, 55);
      Otorgados(logros, usuario, TotalCumplidos(ps), Racha(ps, hoy)) ==
        [Achievement(PrimerPaso.nombre, PrimerPaso.descripcion, usuario),
         Achievement(RachaTres.nombre, RachaTres.descripcion, usuario),
         Achievement(ConstanciaSemanal.nombre, ConstanciaSemanal.descripcion, usuario),
         Achievement(MaestroDeHabitos.nombre, MaestroDeHabitos.descripcion, usuario)]
  {
    ConsecutivosTotal(hoy, 55);
    ConsecutivosRacha(hoy, 55);
    UmbralesDeLasReglas(logros, usuario, 55, 7);
  }

  /**
   * Fulfilled today and yesterday, unfulfilled two days ago, fulfilled three
   * days ago: the streak is 2 and only "Primer paso" is granted.
   */
  lemma EscenarioRachaInterrumpida(logros: seq<Achievement>, usuario: nat, hoy: int)
    requires forall k :: 0 <= k < |logros| ==> logros[k].usuario != usuario
    ensures var ps := [Progress(0, 0, Some(hoy), true), Progress(1, 0, Some(hoy - 1), true),
                       Progress(2, 0, Some(hoy - 2), false), Progress(3, 0, Some(hoy - 3), true)];
      Racha(ps, hoy) == 2 &&
      Otorgados(logros, usuario, TotalCumplidos(ps), Racha(ps, hoy)) ==
        [Achievement(PrimerPaso.nombre, PrimerPaso.descripcion, usuario)]
  {
    var ps := [Progress(0, 0, Some(hoy), true), Progress(1, 0, Some(hoy - 1), true),
               Progress(2, 0, Some(hoy - 2), false), Progress(3, 0, Some(hoy - 3), true)];
    assert ps[0].fecha == Some(hoy - 0) && ps[0].cumplido;
    assert ps[1].fecha == Some(hoy - 1) && ps[1].cumplido;
    assert !CumplidoHace(ps, hoy, 2);
    RachaCaracterizacion(ps, hoy, 2);
    assert TotalCumplidos(ps[3..]) == 1;
    assert TotalCumplidos(ps[2..]) == 1 by { assert ps[2..][1..] == ps[3..]; }
    assert TotalCumplidos(ps[1..]) == 2 by { assert ps[1..][1..] == ps[2..]; }
    assert TotalCumplidos(ps) == 3;
    UmbralesDeLasReglas(logros, usuario, 3, 2);
  }

  // ---------------------------------------------------------------------------
  // Helper lemmas about OtorgadosPor

  lemma SinLogros(logros: seq<Achievement>, usuario: nat)
    requires forall k :: 0 <= k < |logros| ==> logros[k].usuario != usuario
    ensures forall nombre :: !Existe(logros, usuario, nombre)
  {
  }

  lemma {:induction false} NadaQueOtorgar(reglas: seq<Regla>, logros: seq<Achievement>, usuario: nat, total: nat, racha: nat)
    requires forall i :: 0 <= i < |reglas| ==> !Alcanzada(reglas[i], total, racha) || Existe(logros, usuario, reglas[i].nombre)
    ensures OtorgadosPor(reglas, logros, usuario, total, racha) == []
  {
    if reglas != [] {
      assert !Alcanzada(reglas[0], total, racha) || Existe(logros, usuario, reglas[0].nombre);
      NadaQueOtorgar(reglas[1..], logros, usuario, total, racha);
    }
  }

  lemma {:induction false} MiembroOtorgadosPor(reglas: seq<Regla>, logros: seq<Achievement>, usuario: nat, total: nat, racha: nat, i: nat)
    requires i < |reglas|
    requires forall a, b :: 0 <= a < b < |reglas| ==> reglas[a].nombre != reglas[b].nombre
    ensures Achievement(reglas[i].nombre, reglas[i].descripcion, usuario) in OtorgadosPor(reglas, logros, usuario, total, racha)
            <==> Alcanzada(reglas[i], total, racha) && !Existe(logros, usuario, reglas[i].nombre)
  {
    var fila := Achievement(reglas[i].nombre, reglas[i].descripcion, usuario);
    var resto := OtorgadosPor(reglas[1..], logros, usuario, total, racha);
    if i == 0 {
      NombresOtorgados(reglas[1..], logros, usuario, total, racha);
      if fila in resto {
        assert false;
      }
    } else {
      MiembroOtorgadosPor(reglas[1..], logros, usuario, total, racha, i - 1);
      assert reglas[1..][i - 1] == reglas[i];
      assert reglas[0].nombre != reglas[i].nombre;
    }
  }

  /** A head whose name no later achievement has keeps the list free of repeats. */
  lemma UnicosConCabeza(cabeza: Achievement, resto: seq<Achievement>)
    requires UniqueAchievements(resto)
    requires forall x :: x in resto ==> x.nombre != cabeza.nombre
    ensures UniqueAchievements([cabeza] + resto)
  {
    var todo := [cabeza] + resto;
    forall i, j | 0 <= i < j < |todo| ensures !(todo[i].usuario == todo[j].usuario && todo[i].nombre == todo[j].nombre) {
      assert todo[j] == resto[j - 1] && resto[j - 1] in resto;
      if i > 0 {
        assert todo[i] == resto[i - 1];
      }
    }
  }

  lemma {:induction false} OtorgadosUnicos(reglas: seq<Regla>, logros: seq<Achievement>, usuario: nat, total: nat, racha: nat)
    requires forall a, b :: 0 <= a < b < |reglas| ==> reglas[a].nombre != reglas[b].nombre
    ensures UniqueAchievements(OtorgadosPor(reglas, logros, usuario, total, racha))
  {
    if reglas != [] {
      var resto := OtorgadosPor(reglas[1..], logros, usuario, total, racha);
      OtorgadosUnicos(reglas[1..], logros, usuario, total, racha);
      NombresOtorgados(reglas[1..], logros, usuario, total, racha);
      var todo := OtorgadosPor(reglas, logros, usuario, total, racha);
      if Alcanzada(reglas[0], total, racha) && !Existe(logros, usuario, reglas[0].nombre) {
        var cabeza := Achievement(reglas[0].nombre, reglas[0].descripcion, usuario);
        assert todo == [cabeza] + resto;
        forall x | x in resto ensures x.nombre != cabeza.nombre {
          var k :| 0 <= k < |reglas[1..]| && reglas[1..][k].nombre == x.nombre && reglas[1..][k].descripcion == x.descripcion &&
                   Alcanzada(reglas[1..][k], total, racha);
          assert reglas[k + 1].nombre == x.nombre;
        }
        UnicosConCabeza(cabeza, resto);
      } else {
        assert todo == resto;
      }
    }
  }
}
