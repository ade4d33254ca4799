/**
 * The dashboard of the static client: the current user's habit list kept in
 * the browser (add, merge an update, remove, statistics), the completion
 * toggle, the planner's grouping by target date, the frequency labels and
 * the settings dialog's checks.  Storage, rendering, notifications shown on
 * the page and the clock that makes ids and creation dates are left to the
 * caller.
 */
module ClientDashboard {
  import opened Common
  import opened ClientAuth

  /**
   * A stored habit.  The form's fields are strings, empty when the field was
   * left blank; `fechaObjetivo` is the date input's "YYYY-MM-DD" text.
   */
  datatype HabitoCliente = HabitoCliente(
    id: int,
    usuarioId: string,
    nombre: string,
    categoria: string,
    frecuencia: string,
    hora: string,
    fechaObjetivo: string,
    descripcion: string,
    fechaCreacion: string,
    completado: bool)

  /** The habit form's fields. */
  datatype NuevoHabito = NuevoHabito(
    nombre: string, categoria: string, frecuencia: string, hora: string, fechaObjetivo: string, descripcion: string)

  /** An object spread over a habit: the keys it holds, each with its value. */
  datatype CambiosHabito = CambiosHabito(
    id: Option<int>,
    usuarioId: Option<string>,
    nombre: Option<string>,
    categoria: Option<string>,
    frecuencia: Option<string>,
    hora: Option<string>,
    fechaObjetivo: Option<string>,
    descripcion: Option<string>,
    fechaCreacion: Option<string>,
    completado: Option<bool>)

  /** The object the settings dialog spreads over the current user. */
  datatype DatosUsuario = DatosUsuario(username: string, avatar: Option<string>, configuracion: ConfiguracionCliente)

  datatype Estadisticas = Estadisticas(totalHabitos: nat, completados: nat, pendientes: int, porcentajeCompletado: nat)

  function SiHay<T>(nuevo: Option<T>, actual: T): (r: T)
    ensures nuevo.Some? ==> r == nuevo.value
    ensures nuevo.None? ==> r == actual
  {
    if nuevo.Some? then nuevo.value else actual
  }

  /** `{ ...h, ...c }`: every key present in `c` overrides, every other field stays. */
  function Mezclar(h: HabitoCliente, c: CambiosHabito): (r: HabitoCliente)
    ensures r.id == SiHay(c.id, h.id) && r.usuarioId == SiHay(c.usuarioId, h.usuarioId)
    ensures r.nombre == SiHay(c.nombre, h.nombre) && r.categoria == SiHay(c.categoria, h.categoria)
    ensures r.frecuencia == SiHay(c.frecuencia, h.frecuencia) && r.hora == SiHay(c.hora, h.hora)
    ensures r.fechaObjetivo == SiHay(c.fechaObjetivo, h.fechaObjetivo) && r.descripcion == SiHay(c.descripcion, h.descripcion)
    ensures r.fechaCreacion == SiHay(c.fechaCreacion, h.fechaCreacion) && r.completado == SiHay(c.completado, h.completado)
  {
    HabitoCliente(
      SiHay(c.id, h.id), SiHay(c.usuarioId, h.usuarioId), SiHay(c.nombre, h.nombre), SiHay(c.categoria, h.categoria),
      SiHay(c.frecuencia, h.frecuencia), SiHay(c.hora, h.hora), SiHay(c.fechaObjetivo, h.fechaObjetivo),
      SiHay(c.descripcion, h.descripcion), SiHay(c.fechaCreacion, h.fechaCreacion), SiHay(c.completado, h.completado))
  }

  /** Spreading the same object twice is spreading it once. */
  lemma MezclarIdempotente(h: HabitoCliente, c: CambiosHabito)
    ensures Mezclar(Mezclar(h, c), c) == Mezclar(h, c)
  {
  }

  /** Only `completado`, as the completion toggle spreads it. */
  function SoloCompletado(valor: bool): (c: CambiosHabito)
    ensures c.completado == Some(valor)
    ensures forall h :: Mezclar(h, c) == h.(completado := valor)
  {
    CambiosHabito(None, None, None, None, None, None, None, None, None, Some(valor))
  }

  /** The habit belongs to the user and has that id. */
  function EsPropio(id: int, usuarioId: string): HabitoCliente -> bool {
    (h: HabitoCliente) => h.id == id && h.usuarioId == usuarioId
  }

  function NoEsPropio(id: int, usuarioId: string): HabitoCliente -> bool {
    (h: HabitoCliente) => !(h.id == id && h.usuarioId == usuarioId)
  }

  function EsCompletado(h: HabitoCliente): bool {
    h.completado
  }

  /** `obtenerEstadisticas` on a list: the counts, and the percentage as `Math.round(completados / total * 100)`. */
  function EstadisticasDe(hs: seq<HabitoCliente>): (e: Estadisticas)
    ensures e.totalHabitos == |hs| && e.completados == Count(hs, EsCompletado)
    ensures e.completados + e.pendientes == e.totalHabitos && e.pendientes >= 0
    ensures e.porcentajeCompletado == Redondeado(e.completados, e.totalHabitos)
    ensures e.porcentajeCompletado <= 100
    ensures hs == [] ==> e.porcentajeCompletado == 0
    ensures hs != [] && e.pendientes == 0 ==> e.porcentajeCompletado == 100
  {
    var total := |hs|;
    var completados := Count(hs, EsCompletado);
    Estadisticas(total, completados, total - completados, Redondeado(completados, total))
  }

  /**
   * `Math.round(c / t * 100)` on exact numbers, 0 when `t` is 0: the
   * nearest whole percentage, halves rounded up.
   */
  function Redondeado(c: nat, t: nat): (p: nat)
    ensures t == 0 || c == 0 ==> p == 0
    ensures c <= t ==> p <= 100
    ensures 0 < t == c ==> p == 100
    ensures t > 0 ==> 2 * p * t <= 200 * c + t < 2 * p * t + 2 * t
  {
    if t == 0 then 0
    else
      CotasDelRedondeo(c, t);
      (200 * c + t) / (2 * t)
  }

  lemma CotasDelRedondeo(c: nat, t: nat)
    requires t > 0
    ensures var p := (200 * c + t) / (2 * t);
      2 * p * t <= 200 * c + t < 2 * p * t + 2 * t &&
      (c <= t ==> p <= 100) && (c == t ==> p == 100) && (c == 0 ==> p == 0)
  {
    var p := (200 * c + t) / (2 * t);
    CotasDelCociente(200 * c + t, 2 * t);
    if c <= t {
      assert p * (2 * t) < 101 * (2 * t);
      MenorPorFactor(p, 101, 2 * t);
    }
    if c == t {
      assert 99 * (2 * t) < p * (2 * t);
      MenorPorFactor(99, p, 2 * t);
    }
    if c == 0 {
      assert p * (2 * t) < 1 * (2 * t);
      MenorPorFactor(p, 1, 2 * t);
    }
  }

  lemma CotasDelCociente(a: nat, b: nat)
    requires b > 0
    ensures (a / b) * b <= a < (a / b) * b + b
  {
  }

  lemma MenorPorFactor(x: int, y: int, m: int)
    requires m > 0 && x * m < y * m
    ensures x < y
  {
    assert x * m - y * m == (x - y) * m;
  }

  /** Adding an unfinished habit adds one to the total and one to the pending, and none to the finished. */
  lemma {:induction false} EstadisticasTrasAgregar(hs: seq<HabitoCliente>, nuevo: HabitoCliente)
    requires !nuevo.completado
    ensures EstadisticasDe(hs + [nuevo]).totalHabitos == EstadisticasDe(hs).totalHabitos + 1
    ensures EstadisticasDe(hs + [nuevo]).completados == EstadisticasDe(hs).completados
    ensures EstadisticasDe(hs + [nuevo]).pendientes == EstadisticasDe(hs).pendientes + 1
  {
    CountAppend(hs, [nuevo], EsCompletado);
    assert Count([nuevo], EsCompletado) == 0 by {
      assert [nuevo][1..] == [];
    }
  }

  // ---------------------------------------------------------------------------
  // The user's habit list

  class GestorUsuario {
    var usuarioActual: UsuarioCliente
    var habitos: seq<HabitoCliente>

    /** A manager for the user found in storage, with no habits loaded yet. */
    constructor (usuario: UsuarioCliente)
      ensures usuarioActual == usuario && habitos == []
    {
      usuarioActual := usuario;
      habitos := [];
    }

    /** `cargarHabitos`: the list stored under the user's key, or an empty one when there is none. */
    method CargarHabitos(guardados: Option<seq<HabitoCliente>>) returns (r: seq<HabitoCliente>)
      modifies this
      ensures usuarioActual == old(usuarioActual)
      ensures habitos == r && r == (if guardados.Some? then guardados.value else [])
    {
      habitos := if guardados.Some? then guardados.value else [];
      r := habitos;
    }

    /**
     * `agregarHabito`: exactly one habit is appended, made of the form's
     * fields, the clock's id and date, the current user as owner and not
     * completed; the earlier habits stay, in order.
     */
    method AgregarHabito(habito: NuevoHabito, id: int, fechaCreacion: string) returns (nuevo: HabitoCliente)
      modifies this
      ensures usuarioActual == old(usuarioActual)
      ensures nuevo == HabitoCliente(id, usuarioActual.id, habito.nombre, habito.categoria, habito.frecuencia, habito.hora,
                                     habito.fechaObjetivo, habito.descripcion, fechaCreacion, false)
      ensures habitos == old(habitos) + [nuevo]
    {
      nuevo := HabitoCliente(id, usuarioActual.id, habito.nombre, habito.categoria, habito.frecuencia, habito.hora,
                             habito.fechaObjetivo, habito.descripcion, fechaCreacion, false);
      habitos := habitos + [nuevo];
    }

    /**
     * `actualizarHabito`: the changes are spread over the first habit with
     * that id owned by the current user, which is returned; without one, null
     * and no change.  The list never changes length.
     */
    method ActualizarHabito(id: int, cambios: CambiosHabito) returns (r: Option<HabitoCliente>)
      modifies this
      ensures usuarioActual == old(usuarioActual)
      ensures FirstIndex(old(habitos), EsPropio(id, usuarioActual.id)).None? ==> r.None? && habitos == old(habitos)
      ensures FirstIndex(old(habitos), EsPropio(id, usuarioActual.id)).Some? ==>
        var i := FirstIndex(old(habitos), EsPropio(id, usuarioActual.id)).value;
        habitos == old(habitos)[i := Mezclar(old(habitos)[i], cambios)] && r == Some(habitos[i])
    {
      var indice := FirstIndex(habitos, EsPropio(id, usuarioActual.id));
      if indice.None? {
        return None;
      }
      habitos := habitos[indice.value := Mezclar(habitos[indice.value], cambios)];
      r := Some(habitos[indice.value]);
    }

    /** `eliminarHabito`: every habit with that id owned by the current user goes; the rest stay, in order. */
    method EliminarHabito(id: int)
      modifies this
      ensures usuarioActual == old(usuarioActual)
      ensures habitos == Filter(old(habitos), NoEsPropio(id, usuarioActual.id))
    {
      habitos := Filter(habitos, NoEsPropio(id, usuarioActual.id));
    }

    /** `actualizarUsuario`: the settings dialog's object spread over the current user. */
    method ActualizarUsuario(datos: DatosUsuario)
      modifies this
      ensures habitos == old(habitos)
      ensures usuarioActual == ConDatos(old(usuarioActual), datos)
    {
      usuarioActual := ConDatos(usuarioActual, datos);
    }

    function ObtenerEstadisticas(): (e: Estadisticas)
      reads this
      ensures e == EstadisticasDe(habitos)
    {
      EstadisticasDe(habitos)
    }
  }

  /** Removing keeps exactly the habits that are not the user's with that id, and no others. */
  lemma EliminarQuitaLosPropios(hs: seq<HabitoCliente>, id: int, usuarioId: string)
    ensures forall h :: h in Filter(hs, NoEsPropio(id, usuarioId)) <==> h in hs && !(h.id == id && h.usuarioId == usuarioId)
    ensures |Filter(hs, NoEsPropio(id, usuarioId))| == |hs| - Count(hs, EsPropio(id, usuarioId))
    ensures (forall k :: 0 <= k < |hs| ==> !(hs[k].id == id && hs[k].usuarioId == usuarioId)) ==>
      Filter(hs, NoEsPropio(id, usuarioId)) == hs
  {
    FilterComplementa(hs, EsPropio(id, usuarioId), NoEsPropio(id, usuarioId));
    FilterLength(hs, EsPropio(id, usuarioId));
    if forall k :: 0 <= k < |hs| ==> !(hs[k].id == id && hs[k].usuarioId == usuarioId) {
      FilterTodos(hs, NoEsPropio(id, usuarioId));
    }
  }

  /** Removing twice is removing once. */
  lemma {:induction false} EliminarIdempotente(hs: seq<HabitoCliente>, id: int, usuarioId: string)
    ensures Filter(Filter(hs, NoEsPropio(id, usuarioId)), NoEsPropio(id, usuarioId)) == Filter(hs, NoEsPropio(id, usuarioId))
  {
    var r := Filter(hs, NoEsPropio(id, usuarioId));
    forall k | 0 <= k < |r| ensures !(r[k].id == id && r[k].usuarioId == usuarioId) {
      assert r[k] in r;
    }
    EliminarQuitaLosPropios(r, id, usuarioId);
  }

  // ---------------------------------------------------------------------------
  // Completion toggle

  /**
   * The list after `toggleCompletado`: the habit is looked up by id alone,
   * and the update writes the negation of its state into the first habit
   * with that id that the user owns.  Only that habit's `completado` can
   * change.
   */
  function Alternado(hs: seq<HabitoCliente>, id: int, usuarioId: string): (r: seq<HabitoCliente>)
    ensures |r| == |hs|
    ensures forall k :: 0 <= k < |r| ==> r[k] == hs[k].(completado := r[k].completado)
    ensures forall k :: 0 <= k < |r| && r[k] != hs[k] ==> FirstIndex(hs, EsPropio(id, usuarioId)) == Some(k)
  {
    match FindFirst(hs, (h: HabitoCliente) => h.id == id)
    case None => hs
    case Some(actual) =>
      match FirstIndex(hs, EsPropio(id, usuarioId))
      case None => hs
      case Some(i) => hs[i := hs[i].(completado := !actual.completado)]
  }

  /** `toggleCompletado` on the dashboard's manager. */
  method ToggleCompletado(g: GestorUsuario, habitoId: int)
    modifies g
    ensures g.usuarioActual == old(g.usuarioActual)
    ensures g.habitos == Alternado(old(g.habitos), habitoId, g.usuarioActual.id)
  {
    var actual := FindFirst(g.habitos, (h: HabitoCliente) => h.id == habitoId);
    if actual.None? {
      return;
    }
    var _ := g.ActualizarHabito(habitoId, SoloCompletado(!actual.value.completado));
  }

  predicate TodosDe(hs: seq<HabitoCliente>, usuarioId: string) {
    forall k :: 0 <= k < |hs| ==> hs[k].usuarioId == usuarioId
  }

  /**
   * In a list of the user's own habits, the toggle flips the first habit
   * with that id and leaves every other habit as it was.
   */
  lemma AlternarInvierte(hs: seq<HabitoCliente>, id: int, usuarioId: string)
    requires TodosDe(hs, usuarioId)
    ensures FirstIndex(hs, EsPropio(id, usuarioId)).None? ==> Alternado(hs, id, usuarioId) == hs
    ensures FirstIndex(hs, EsPropio(id, usuarioId)).Some? ==>
      var i := FirstIndex(hs, EsPropio(id, usuarioId)).value;
      Alternado(hs, id, usuarioId) == hs[i := hs[i].(completado := !hs[i].completado)]
  {
    var f := FindFirst(hs, (h: HabitoCliente) => h.id == id);
    var i := FirstIndex(hs, EsPropio(id, usuarioId));
    if i.Some? {
      assert f.Some?;
      var j :| 0 <= j < |hs| && hs[j] == f.value && forall m :: 0 <= m < j ==> hs[m].id != id;
      assert j == i.value by {
        assert EsPropio(id, usuarioId)(hs[j]);
      }
    }
  }

  /** In a list of the user's own habits, toggling twice restores the list. */
  lemma AlternarDosVeces(hs: seq<HabitoCliente>, id: int, usuarioId: string)
    requires TodosDe(hs, usuarioId)
    ensures Alternado(Alternado(hs, id, usuarioId), id, usuarioId) == hs
  {
    AlternarInvierte(hs, id, usuarioId);
    var i := FirstIndex(hs, EsPropio(id, usuarioId));
    if i.Some? {
      var r := hs[i.value := hs[i.value].(completado := !hs[i.value].completado)];
      MismoPrimeroTrasCambiar(hs, id, usuarioId, i.value);
      AlternarInvierte(r, id, usuarioId);
      CambiarDosVeces(hs, i.value);
    }
  }

  /** Flipping the same habit's `completado` twice gives back the list. */
  lemma CambiarDosVeces(hs: seq<HabitoCliente>, i: nat)
    requires i < |hs|
    ensures var r := hs[i := hs[i].(completado := !hs[i].completado)];
      r[i := r[i].(completado := !r[i].completado)] == hs
  {
    var r := hs[i := hs[i].(completado := !hs[i].completado)];
    assert r[i].(completado := !r[i].completado) == hs[i];
  }

  /** Flipping `completado` of the first own habit keeps it the first own habit, and keeps the list the user's. */
  lemma MismoPrimeroTrasCambiar(hs: seq<HabitoCliente>, id: int, usuarioId: string, i: nat)
    requires TodosDe(hs, usuarioId)
    requires FirstIndex(hs, EsPropio(id, usuarioId)) == Some(i)
    ensures var r := hs[i := hs[i].(completado := !hs[i].completado)];
      TodosDe(r, usuarioId) && FirstIndex(r, EsPropio(id, usuarioId)) == Some(i)
  {
    var r := hs[i := hs[i].(completado := !hs[i].completado)];
    assert EsPropio(id, usuarioId)(r[i]);
    forall m | 0 <= m < i ensures !EsPropio(id, usuarioId)(r[m]) {
      assert r[m] == hs[m];
    }
  }

  /**
   * The lookup by id alone and the update by id and owner can pick different
   * habits: when another user's habit with the same id comes first, the
   * user's habit takes the negation of that one's state, so a second toggle
   * does not undo the first.
   */
  lemma AlternarConAjenoDelante()
    ensures var ajeno := HabitoCliente(1, "user-1", "", "", "", "", "", "", "", false);
            var propio := HabitoCliente(1, "user-2", "", "", "", "", "", "", "", false);
            var una := Alternado([ajeno, propio], 1, "user-2");
            una == [ajeno, propio.(completado := true)] && Alternado(una, 1, "user-2") == una
  {
    var ajeno := HabitoCliente(1, "user-1", "", "", "", "", "", "", "", false);
    var propio := HabitoCliente(1, "user-2", "", "", "", "", "", "", "", false);
    assert !EsPropio(1, "user-2")(ajeno) && EsPropio(1, "user-2")(propio);
    assert FirstIndex([ajeno, propio], EsPropio(1, "user-2")) == Some(1);
    assert FindFirst([ajeno, propio], (h: HabitoCliente) => h.id == 1) == Some(ajeno);
    var una := [ajeno, propio.(completado := true)];
    assert FirstIndex(una, EsPropio(1, "user-2")) == Some(1);
    assert FindFirst(una, (h: HabitoCliente) => h.id == 1) == Some(ajeno);
  }

  // ---------------------------------------------------------------------------
  // Planner

  /** The order of `sort()` on strings: character by character, a prefix first. */
  predicate LexMenorIgual(a: string, b: string) {
    a == [] || (b != [] && (a[0] < b[0] || (a[0] == b[0] && LexMenorIgual(a[1..], b[1..]))))
  }

  predicate LexMenor(a: string, b: string) {
    LexMenorIgual(a, b) && a != b
  }

  lemma {:induction false} LexTotal(a: string, b: string)
    ensures LexMenorIgual(a, b) || LexMenorIgual(b, a)
  {
    if a != [] && b != [] && a[0] == b[0] {
      LexTotal(a[1..], b[1..]);
    }
  }

  lemma {:induction false} LexTransitiva(a: string, b: string, c: string)
    requires LexMenorIgual(a, b) && LexMenorIgual(b, c)
    ensures LexMenorIgual(a, c)
  {
    if a != [] && b != [] && c != [] && a[0] == b[0] && b[0] == c[0] {
      LexTransitiva(a[1..], b[1..], c[1..]);
    }
  }

  lemma {:induction false} LexAntisimetrica(a: string, b: string)
    requires LexMenorIgual(a, b) && LexMenorIgual(b, a)
    ensures a == b
  {
    if a != [] && b != [] {
      LexAntisimetrica(a[1..], b[1..]);
      assert a == [a[0]] + a[1..] && b == [b[0]] + b[1..];
    }
  }

  lemma LexMenorTransitiva(a: string, b: string, c: string)
    requires LexMenor(a, b) && LexMenor(b, c)
    ensures LexMenor(a, c)
  {
    LexTransitiva(a, b, c);
    if a == c {
      LexAntisimetrica(a, b);
    }
  }

  /** Strictly ascending, hence without repeats. */
  predicate Ascendente(s: seq<string>) {
    forall i, j :: 0 <= i < j < |s| ==> LexMenor(s[i], s[j])
  }

  predicate SinRepetir(s: seq<string>) {
    forall i, j :: 0 <= i < j < |s| ==> s[i] != s[j]
  }

  /** `x` put in its place in an ascending list that does not hold it. */
  function Insertar(x: string, s: seq<string>): (r: seq<string>)
    requires Ascendente(s) && x !in s
    ensures Ascendente(r)
    ensures forall y :: y in r <==> y == x || y in s
    ensures |r| == |s| + 1
  {
    if s == [] then [x]
    else if LexMenorIgual(x, s[0]) then
      assert forall j :: 0 <= j < |s| ==> LexMenor(x, s[j]) by {
        forall j | 0 <= j < |s| ensures LexMenor(x, s[j]) {
          if j > 0 {
            LexMenorTransitiva(x, s[0], s[j]);
          }
        }
      }
      [x] + s
    else
      LexTotal(x, s[0]);
      assert Ascendente(s[1..]) by {
        forall i, j | 0 <= i < j < |s[1..]| ensures LexMenor(s[1..][i], s[1..][j]) {
          assert s[1..][i] == s[i + 1] && s[1..][j] == s[j + 1];
        }
      }
      var resto := Insertar(x, s[1..]);
      assert forall y :: y in resto ==> LexMenor(s[0], y) by {
        forall y | y in resto ensures LexMenor(s[0], y) {
          if y != x {
            var j :| 0 <= j < |s[1..]| && s[1..][j] == y;
            assert s[j + 1] == y;
          }
        }
      }
      [s[0]] + resto
  }

  /** `sort()` of a list of distinct strings. */
  function Ordenar(s: seq<string>): (r: seq<string>)
    requires SinRepetir(s)
    ensures Ascendente(r)
    ensures forall y :: y in r <==> y in s
    ensures |r| == |s|
  {
    if s == [] then []
    else
      assert SinRepetir(s[1..]) by {
        forall i, j | 0 <= i < j < |s[1..]| ensures s[1..][i] != s[1..][j] {
          assert s[1..][i] == s[i + 1] && s[1..][j] == s[j + 1];
        }
      }
      var resto := Ordenar(s[1..]);
      assert s[0] !in s[1..] by {
        forall j | 0 <= j < |s[1..]| ensures s[1..][j] != s[0] {
          assert s[1..][j] == s[j + 1];
        }
      }
      Insertar(s[0], resto)
  }

  function ConFecha(h: HabitoCliente): bool {
    h.fechaObjetivo != []
  }

  function SinFecha(h: HabitoCliente): bool {
    h.fechaObjetivo == []
  }

  function DeFecha(fecha: string): HabitoCliente -> bool {
    (h: HabitoCliente) => h.fechaObjetivo == fecha
  }

  lemma {:induction false} FilterSnoc<T(!new)>(s: seq<T>, x: T, p: T -> bool)
    ensures Filter(s + [x], p) == Filter(s, p) + (if p(x) then [x] else [])
  {
    var cola := if p(x) then [x] else [];
    if s == [] {
      assert [x][1..] == [];
      assert Filter([x], p) == cola + Filter([], p);
    } else {
      var cabeza := if p(s[0]) then [s[0]] else [];
      assert (s + [x])[0] == s[0] && (s + [x])[1..] == s[1..] + [x];
      assert Filter(s + [x], p) == cabeza + Filter(s[1..] + [x], p);
      FilterSnoc(s[1..], x, p);
      assert Filter(s, p) == cabeza + Filter(s[1..], p);
      AppendAssoc(cabeza, Filter(s[1..], p), cola);
    }
  }

  lemma {:induction false} FilterComplementa<T(!new)>(s: seq<T>, p: T -> bool, q: T -> bool)
    requires forall x :: q(x) == !p(x)
    ensures |Filter(s, p)| + |Filter(s, q)| == |s|
  {
    if s != [] {
      FilterComplementa(s[1..], p, q);
    }
  }

  /** No habit of the list has that date, so its group would be empty. */
  lemma SinEsaFecha(s: seq<HabitoCliente>, fecha: string)
    requires forall j :: 0 <= j < |s| ==> s[j].fechaObjetivo != fecha
    ensures Filter(s, DeFecha(fecha)) == []
  {
  }

  /**
   * `grupos` holds, for each date of `s`, the habits of `s` with that date,
   * in order; `claves` lists those dates once each.
   */
  ghost predicate Agrupa(grupos: map<string, seq<HabitoCliente>>, claves: seq<string>, s: seq<HabitoCliente>) {
    (forall f :: f in grupos <==> exists j :: 0 <= j < |s| && s[j].fechaObjetivo == f) &&
    (forall f :: f in grupos ==> grupos[f] == Filter(s, DeFecha(f)) && grupos[f] != []) &&
    (forall f :: f in claves <==> f in grupos) &&
    SinRepetir(claves)
  }

  /** The dates of `s + [h]` are those of `s` and the date of `h`. */
  lemma FechasTrasAnadir(s: seq<HabitoCliente>, h: HabitoCliente, f: string)
    ensures (exists j :: 0 <= j < |s + [h]| && (s + [h])[j].fechaObjetivo == f) <==>
            (exists j :: 0 <= j < |s| && s[j].fechaObjetivo == f) || h.fechaObjetivo == f
  {
    if exists j :: 0 <= j < |s| && s[j].fechaObjetivo == f {
      var j :| 0 <= j < |s| && s[j].fechaObjetivo == f;
      assert (s + [h])[j] == s[j];
    }
    if h.fechaObjetivo == f {
      assert (s + [h])[|s|] == h;
    }
    if exists j :: 0 <= j < |s + [h]| && (s + [h])[j].fechaObjetivo == f {
      var j :| 0 <= j < |s + [h]| && (s + [h])[j].fechaObjetivo == f;
      if j < |s| {
        assert (s + [h])[j] == s[j];
      }
    }
  }

  /** One step of the `forEach`: open the habit's date if it is new, then append the habit to it. */
  function Paso(grupos: map<string, seq<HabitoCliente>>, claves: seq<string>, h: HabitoCliente)
    : (map<string, seq<HabitoCliente>>, seq<string>)
  {
    var fecha := h.fechaObjetivo;
    var abiertos := if fecha in grupos then grupos else grupos[fecha := []];
    (abiertos[fecha := abiertos[fecha] + [h]], if fecha in grupos then claves else claves + [fecha])
  }

  /** A step keeps the grouping exact for the list grown by that habit. */
  lemma AgrupaPaso(grupos: map<string, seq<HabitoCliente>>, claves: seq<string>, s: seq<HabitoCliente>, h: HabitoCliente)
    requires Agrupa(grupos, claves, s)
    ensures Agrupa(Paso(grupos, claves, h).0, Paso(grupos, claves, h).1, s + [h])
  {
    PasoClaves(grupos, claves, h);
    PasoGrupos(grupos, s, h);
    var nuevos := Paso(grupos, claves, h).0;
    forall f ensures f in nuevos <==> exists j :: 0 <= j < |s + [h]| && (s + [h])[j].fechaObjetivo == f {
      FechasTrasAnadir(s, h, f);
    }
  }

  /** The date list follows the map's keys, once each. */
  lemma PasoClaves(grupos: map<string, seq<HabitoCliente>>, claves: seq<string>, h: HabitoCliente)
    requires forall f :: f in claves <==> f in grupos
    requires SinRepetir(claves)
    ensures var p := Paso(grupos, claves, h);
      p.0.Keys == grupos.Keys + {h.fechaObjetivo} &&
      (forall f :: f in p.1 <==> f in p.0) && SinRepetir(p.1)
  {
  }

  /** Each group of the new map is the habits of `s + [h]` with its date, and none is empty. */
  lemma PasoGrupos(grupos: map<string, seq<HabitoCliente>>, s: seq<HabitoCliente>, h: HabitoCliente)
    requires forall f :: f in grupos <==> exists j :: 0 <= j < |s| && s[j].fechaObjetivo == f
    requires forall f :: f in grupos ==> grupos[f] == Filter(s, DeFecha(f)) && grupos[f] != []
    ensures var nuevos := Paso(grupos, [], h).0;
      forall f :: f in nuevos ==> nuevos[f] == Filter(s + [h], DeFecha(f)) && nuevos[f] != []
  {
    var nuevos := Paso(grupos, [], h).0;
    forall f | f in nuevos ensures nuevos[f] == Filter(s + [h], DeFecha(f)) && nuevos[f] != [] {
      GrupoTrasPaso(grupos, s, h, f);
    }
  }

  /** One date's group after a step. */
  lemma GrupoTrasPaso(grupos: map<string, seq<HabitoCliente>>, s: seq<HabitoCliente>, h: HabitoCliente, f: string)
    requires f in Paso(grupos, [], h).0
    requires f !in grupos ==> !exists j :: 0 <= j < |s| && s[j].fechaObjetivo == f
    requires f in grupos ==> grupos[f] == Filter(s, DeFecha(f)) && grupos[f] != []
    ensures Paso(grupos, [], h).0[f] == Filter(s + [h], DeFecha(f)) && Paso(grupos, [], h).0[f] != []
  {
    var nuevos := Paso(grupos, [], h).0;
    FilterSnoc(s, h, DeFecha(f));
    if f != h.fechaObjetivo {
      assert nuevos[f] == grupos[f];
    } else if f in grupos {
      assert nuevos[f] == grupos[f] + [h];
    } else {
      SinEsaFecha(s, f);
      assert nuevos[f] == [h];
    }
  }

  /**
   * The `forEach` that fills the planner's date map: one key per date, in
   * order of first appearance, each holding its habits in list order.
   */
  method AgruparPorFecha(xs: seq<HabitoCliente>)
    returns (grupos: map<string, seq<HabitoCliente>>, claves: seq<string>)
    ensures forall f :: f in grupos <==> exists j :: 0 <= j < |xs| && xs[j].fechaObjetivo == f
    ensures forall f :: f in grupos ==> grupos[f] == Filter(xs, DeFecha(f)) && grupos[f] != []
    ensures forall f :: f in claves <==> f in grupos
    ensures SinRepetir(claves)
  {
    grupos := map[];
    claves := [];
    var i := 0;
    while i < |xs|
      invariant 0 <= i <= |xs|
      invariant Agrupa(grupos, claves, xs[..i])
    {
      AgrupaPaso(grupos, claves, xs[..i], xs[i]);
      PrefixSnoc(xs, i);
      grupos, claves := Paso(grupos, claves, xs[i]).0, Paso(grupos, claves, xs[i]).1;
      i := i + 1;
    }
    assert xs[..|xs|] == xs;
  }

  /**
   * The planner's grouping: the dated and the undated habits, the dated ones
   * grouped by date in list order, and the dates in ascending order.  A
   * habit with an empty date counts as undated.
   */
  method AgruparPlanner(hs: seq<HabitoCliente>)
    returns (conFecha: seq<HabitoCliente>, sinFecha: seq<HabitoCliente>,
             grupos: map<string, seq<HabitoCliente>>, fechasOrdenadas: seq<string>)
    ensures forall h :: h in conFecha <==> h in hs && h.fechaObjetivo != []
    ensures forall h :: h in sinFecha <==> h in hs && h.fechaObjetivo == []
    ensures |conFecha| + |sinFecha| == |hs|
    ensures forall f :: f in grupos <==> exists h :: h in conFecha && h.fechaObjetivo == f
    ensures forall f :: f in grupos ==> grupos[f] == Filter(conFecha, DeFecha(f)) && grupos[f] != []
    ensures Ascendente(fechasOrdenadas)
    ensures forall f :: f in fechasOrdenadas <==> f in grupos
  {
    conFecha := Filter(hs, ConFecha);
    sinFecha := Filter(hs, SinFecha);
    FilterComplementa(hs, ConFecha, SinFecha);
    var claves;
    grupos, claves := AgruparPorFecha(conFecha);
    forall f ensures f in grupos <==> exists h :: h in conFecha && h.fechaObjetivo == f {
      if f !in grupos {
        forall h | h in conFecha ensures h.fechaObjetivo != f {
          var j :| 0 <= j < |conFecha| && conFecha[j] == h;
        }
      }
    }
    fechasOrdenadas := Ordenar(claves);
  }

  // ---------------------------------------------------------------------------
  // Frequency labels

  /** What a property lookup on a plain object literal yields. */
  datatype Valor = Cadena(s: string) | Heredado(propiedad: string)

  /** The properties every plain object inherits. */
  const HEREDADAS: set<string> := {
    "constructor", "hasOwnProperty", "isPrototypeOf", "propertyIsEnumerable", "toLocaleString", "toString",
    "valueOf", "__proto__", "__defineGetter__", "__defineSetter__", "__lookupGetter__", "__lookupSetter__"}

  /**
   * `obtenerTextoFrecuencia`: the three known frequencies get their labels;
   * a name the object inherits yields the inherited value, which is truthy;
   * every other text comes back unchanged.
   */
  function TextoFrecuencia(frecuencia: string): (r: Valor)
    ensures frecuencia == "diaria" ==> r == Cadena("Diario")
    ensures frecuencia == "semanal" ==> r == Cadena("Semanal")
    ensures frecuencia == "mensual" ==> r == Cadena("Mensual")
    ensures frecuencia in HEREDADAS ==> r == Heredado(frecuencia)
    ensures frecuencia !in {"diaria", "semanal", "mensual"} && frecuencia !in HEREDADAS ==> r == Cadena(frecuencia)
  {
    if frecuencia == "diaria" then Cadena("Diario")
    else if frecuencia == "semanal" then Cadena("Semanal")
    else if frecuencia == "mensual" then Cadena("Mensual")
    else if frecuencia in HEREDADAS then Heredado(frecuencia)
    else Cadena(frecuencia)
  }

  /** A label is shown as it is: labelling a text twice changes nothing more than labelling it once. */
  lemma TextoFrecuenciaEstable(frecuencia: string)
    requires frecuencia !in HEREDADAS
    ensures TextoFrecuencia(frecuencia).Cadena?
    ensures TextoFrecuencia(TextoFrecuencia(frecuencia).s) == TextoFrecuencia(frecuencia)
  {
  }

  // ---------------------------------------------------------------------------
  // Settings dialog

  const NoCoinciden := "Las contraseñas no coinciden"

  /** `{ ...usuario, ...datos }`: name, avatar and notification switches replaced, the rest kept. */
  function ConDatos(u: UsuarioCliente, datos: DatosUsuario): (r: UsuarioCliente)
    ensures r.id == u.id && r.email == u.email && r.password == u.password && r.fechaRegistro == u.fechaRegistro
    ensures r.username == datos.username && r.avatar == datos.avatar && r.configuracion == Some(datos.configuracion)
  {
    u.(username := datos.username, avatar := datos.avatar, configuracion := Some(datos.configuracion))
  }

  /**
   * `guardarConfiguracion`'s checks: a non-empty new password that differs
   * from its confirmation aborts; an empty name and an unselected avatar keep
   * the current ones.  The new password itself is not part of what is saved.
   */
  function DatosConfiguracion(
    actual: UsuarioCliente, nuevoNombre: string, avatarSeleccionado: Option<string>,
    nuevaPassword: string, confirmPassword: string, email: bool, push: bool, recordatorios: bool)
    : (r: Resultado<DatosUsuario>)
    ensures r.Fallo? <==> nuevaPassword != [] && nuevaPassword != confirmPassword
    ensures r.Fallo? ==> r.mensaje == NoCoinciden
    ensures r.Hecho? ==>
      r.valor.username == (if nuevoNombre == [] then actual.username else nuevoNombre) &&
      r.valor.avatar == (if avatarSeleccionado.None? then actual.avatar else avatarSeleccionado) &&
      r.valor.configuracion == ConfiguracionCliente(email, push, recordatorios)
  {
    if nuevaPassword != [] && nuevaPassword != confirmPassword then Fallo(NoCoinciden)
    else Hecho(DatosUsuario(
      if nuevoNombre != [] then nuevoNombre else actual.username,
      if avatarSeleccionado.Some? then avatarSeleccionado else actual.avatar,
      ConfiguracionCliente(email, push, recordatorios)))
  }

  /** Saving the dialog: nothing changes when the check fails; otherwise the user takes the dialog's data. */
  method GuardarConfiguracion(
    g: GestorUsuario, nuevoNombre: string, avatarSeleccionado: Option<string>,
    nuevaPassword: string, confirmPassword: string, email: bool, push: bool, recordatorios: bool)
    returns (r: Resultado<Unit>)
    modifies g
    ensures g.habitos == old(g.habitos)
    ensures nuevaPassword != [] && nuevaPassword != confirmPassword ==>
      r == Fallo(NoCoinciden) && g.usuarioActual == old(g.usuarioActual)
    ensures !(nuevaPassword != [] && nuevaPassword != confirmPassword) ==>
      r == Hecho(Unit) &&
      g.usuarioActual == ConDatos(old(g.usuarioActual),
        DatosConfiguracion(old(g.usuarioActual), nuevoNombre, avatarSeleccionado, nuevaPassword, confirmPassword, email, push, recordatorios).valor)
  {
    var datos := DatosConfiguracion(g.usuarioActual, nuevoNombre, avatarSeleccionado, nuevaPassword, confirmPassword, email, push, recordatorios);
    if datos.Fallo? {
      return Fallo(datos.mensaje);
    }
    g.ActualizarUsuario(datos.valor);
    r := Hecho(Unit);
  }

  /**
   * Saving the same dialog twice gives what saving it once gave, and the
   * stored password is the old one whatever new password was typed.
   */
  lemma GuardarDosVeces(
    u: UsuarioCliente, nuevoNombre: string, avatarSeleccionado: Option<string>,
    nuevaPassword: string, confirmPassword: string, email: bool, push: bool, recordatorios: bool)
    requires DatosConfiguracion(u, nuevoNombre, avatarSeleccionado, nuevaPassword, confirmPassword, email, push, recordatorios).Hecho?
    ensures var d := DatosConfiguracion(u, nuevoNombre, avatarSeleccionado, nuevaPassword, confirmPassword, email, push, recordatorios).valor;
            var una := ConDatos(u, d);
            DatosConfiguracion(una, nuevoNombre, avatarSeleccionado, nuevaPassword, confirmPassword, email, push, recordatorios) == Hecho(d) &&
            ConDatos(una, d) == una && una.password == u.password
  {
  }
}
