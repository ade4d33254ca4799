/**
 * Habits of a user: creation for the authenticated user, the field merge of
 * an update, deletion and the two lookups.
 */
module HabitService {
  import opened Common
  import opened Model

  /** What the security context holds as the authentication's principal. */
  datatype Principal =
    | Detalles(username: string)  // a UserDetails
    | Otro                        // any other principal object

  /** The fields of an update request; a JSON null is None. */
  datatype HabitRequest = HabitRequest(
    nombre: Option<string>,
    categoria: Option<string>,
    frecuencia: Option<string>,
    hora: Option<string>,
    descripcion: Option<string>,
    fechaObjetivo: Option<int>)

  const PrefijoCrear := "No se pudo crear el hábito: "

  function HabitoNoEncontrado(id: int): string {
    "Hábito no encontrado con id: " + IntToString(id)
  }

  // ---------------------------------------------------------------------------
  // Lookups

  /** `getHabitById`. */
  function GetHabitById(store: HabitStore, id: int): (r: Option<Habit>)
    reads store
    ensures r.Some? ==> r.value in store.habitos && r.value.id == id
    ensures r.None? <==> forall k :: 0 <= k < |store.habitos| ==> store.habitos[k].id != id
  {
    store.FindById(id)
  }

  /** `getHabitsByUser`: the user's habits in table order. */
  function GetHabitsByUser(store: HabitStore, user: User): (r: seq<Habit>)
    reads store
    ensures forall h :: h in r <==> h in store.habitos && h.usuario == Some(user.id)
  {
    store.FindByUsuario(user.id)
  }

  // ---------------------------------------------------------------------------
  // Creation

  /**
   * `createHabit`: the habit is stored with a new id and the authenticated
   * user as owner.  Every failure becomes a bad request whose message is the
   * prefix and the cause's message; `mensajeDeLibreria` is the message of the
   * JDK exception raised when there is no authentication or its principal is
   * not a UserDetails.
   */
  method CreateHabit(users: UserStore, store: HabitStore, habit: Habit, principal: Option<Principal>, mensajeDeLibreria: string)
    returns (r: Result<Habit>)
    requires store.Valid()
    modifies store
    ensures store.Valid()
    ensures r.Err? ==> r.error.BadRequest? && IsPrefix(PrefijoCrear, r.error.message)
    ensures r.Err? ==> store.habitos == old(store.habitos) && store.nextId == old(store.nextId)
    ensures (principal.None? || principal == Some(Otro)) ==> r == Err(BadRequest(PrefijoCrear + mensajeDeLibreria))
    ensures principal.Some? && principal.value.Detalles? ==>
      match users.FindByUsername(principal.value.username)
      case None => r == Err(BadRequest(PrefijoCrear + "Usuario no encontrado"))
      case Some(u) =>
        r == Ok(habit.(id := old(store.nextId), usuario := Some(u.id))) &&
        store.habitos == old(store.habitos) + [r.value] && store.nextId == old(store.nextId) + 1
  {
    if principal.None? || principal.value.Otro? {
      return Err(BadRequest(PrefijoCrear + mensajeDeLibreria));
    }
    var user := users.FindByUsername(principal.value.username);
    if user.None? {
      return Err(BadRequest(PrefijoCrear + Message(ResourceNotFound("Usuario no encontrado"))));
    }
    var nuevo := habit.(id := store.nextId, usuario := Some(user.value.id));
    store.habitos := store.habitos + [nuevo];
    store.nextId := store.nextId + 1;
    r := Ok(nuevo);
  }

  // ---------------------------------------------------------------------------
  // Update

  /** `nuevo != null ? nuevo : actual`. */
  function SiNoNulo(nuevo: Option<string>, actual: Option<string>): (r: Option<string>)
    ensures nuevo.Some? ==> r == nuevo
    ensures nuevo.None? ==> r == actual
  {
    if nuevo.Some? then nuevo else actual
  }

  /**
   * The habit after `updateHabit`'s setters: a present request field replaces
   * the old value (an empty text included), an absent one keeps it; the target
   * date is always taken from the request; id and owner stay.
   */
  function Fusionar(h: Habit, req: HabitRequest): (r: Habit)
    ensures r.id == h.id && r.usuario == h.usuario
    ensures r.nombre == SiNoNulo(req.nombre, h.nombre)
    ensures r.categoria == SiNoNulo(req.categoria, h.categoria)
    ensures r.frecuencia == SiNoNulo(req.frecuencia, h.frecuencia)
    ensures r.hora == SiNoNulo(req.hora, h.hora)
    ensures r.descripcion == SiNoNulo(req.descripcion, h.descripcion)
    ensures r.fechaObjetivo == req.fechaObjetivo
  {
    h.(nombre := SiNoNulo(req.nombre, h.nombre),
       categoria := SiNoNulo(req.categoria, h.categoria),
       frecuencia := SiNoNulo(req.frecuencia, h.frecuencia),
       hora := SiNoNulo(req.hora, h.hora),
       descripcion := SiNoNulo(req.descripcion, h.descripcion),
       fechaObjetivo := req.fechaObjetivo)
  }

  /** Applying the same update twice is applying it once. */
  lemma FusionarIdempotente(h: Habit, req: HabitRequest)
    ensures Fusionar(Fusionar(h, req), req) == Fusionar(h, req)
  {
  }

  /** A request of nulls keeps every field but clears the target date. */
  lemma FusionarVacio(h: Habit)
    ensures Fusionar(h, HabitRequest(None, None, None, None, None, None)) == h.(fechaObjetivo := None)
  {
  }

  /** A request with every field present fixes the result whatever the old values were. */
  lemma FusionarCompleto(h1: Habit, h2: Habit, req: HabitRequest)
    requires h1.id == h2.id && h1.usuario == h2.usuario
    requires req.nombre.Some? && req.categoria.Some? && req.frecuencia.Some? && req.hora.Some? && req.descripcion.Some?
    ensures Fusionar(h1, req) == Fusionar(h2, req)
  {
  }

  /** Two updates in a row amount to one update whose present fields win from the later request. */
  lemma FusionarDosVeces(h: Habit, a: HabitRequest, b: HabitRequest)
    ensures Fusionar(Fusionar(h, a), b) == Fusionar(h, HabitRequest(
      SiNoNulo(b.nombre, a.nombre), SiNoNulo(b.categoria, a.categoria), SiNoNulo(b.frecuencia, a.frecuencia),
      SiNoNulo(b.hora, a.hora), SiNoNulo(b.descripcion, a.descripcion), b.fechaObjetivo))
  {
  }

  /**
   * `updateHabit`: an unknown id raises not-found and nothing changes;
   * otherwise the habit with that id becomes `Fusionar` of it and the request,
   * and every other habit stays as it was.
   */
  method UpdateHabit(store: HabitStore, id: int, req: HabitRequest) returns (r: Result<Habit>)
    requires store.Valid()
    modifies store
    ensures store.Valid() && store.nextId == old(store.nextId)
    ensures old(store.FindById(id)).None? ==>
      r == Err(ResourceNotFound(HabitoNoEncontrado(id))) && store.habitos == old(store.habitos)
    ensures old(store.FindById(id)).Some? ==>
      r == Ok(Fusionar(old(store.FindById(id)).value, req)) &&
      |store.habitos| == |old(store.habitos)| &&
      forall k :: 0 <= k < |store.habitos| ==>
        store.habitos[k] == if old(store.habitos)[k].id == id then r.value else old(store.habitos)[k]
  {
    var i := FirstIndex(store.habitos, (h: Habit) => h.id == id);
    if i.None? {
      return Err(ResourceNotFound(HabitoNoEncontrado(id)));
    }
    var k := i.value;
    var actualizado := Fusionar(store.habitos[k], req);
    assert store.FindById(id) == Some(store.habitos[k]);
    store.habitos := store.habitos[k := actualizado];
    r := Ok(actualizado);
  }

  // ---------------------------------------------------------------------------
  // Deletion

  /** The table without the habits of that id, in order. */
  function SinHabito(hs: seq<Habit>, id: int): (r: seq<Habit>)
    ensures forall h :: h in r <==> h in hs && h.id != id
    ensures |r| <= |hs|
    ensures (forall k :: 0 <= k < |hs| ==> hs[k].id != id) ==> r == hs
    ensures UniqueHabitIds(hs) ==> UniqueHabitIds(r)
  {
    if hs == [] then []
    else
      var resto := SinHabito(hs[1..], id);
      UnicosSinCabeza(hs, resto);
      if hs[0].id == id then resto else [hs[0]] + resto
  }

  /** With distinct ids, removing a present id removes exactly one habit. */
  lemma {:induction false} SinHabitoQuitaUno(hs: seq<Habit>, id: int)
    requires UniqueHabitIds(hs)
    requires exists k :: 0 <= k < |hs| && hs[k].id == id
    ensures |SinHabito(hs, id)| == |hs| - 1
  {
    assert UniqueHabitIds(hs[1..]) by {
      forall i, j | 0 <= i < j < |hs| - 1 ensures hs[1..][i].id != hs[1..][j].id {
        assert hs[1..][i] == hs[i + 1] && hs[1..][j] == hs[j + 1];
      }
    }
    if hs[0].id == id {
      forall k | 0 <= k < |hs[1..]| ensures hs[1..][k].id != id {
        assert hs[1..][k] == hs[k + 1];
      }
    } else {
      var k :| 0 <= k < |hs| && hs[k].id == id;
      assert hs[1..][k - 1].id == id;
      SinHabitoQuitaUno(hs[1..], id);
    }
  }

  /**
   * `deleteHabit`: an unknown id raises not-found and nothing changes;
   * otherwise exactly the habit with that id is removed.
   */
  method DeleteHabit(store: HabitStore, id: int) returns (r: Result<Unit>)
    requires store.Valid()
    modifies store
    ensures store.Valid() && store.nextId == old(store.nextId)
    ensures old(store.FindById(id)).None? ==>
      r == Err(ResourceNotFound(HabitoNoEncontrado(id))) && store.habitos == old(store.habitos)
    ensures old(store.FindById(id)).Some? ==>
      r == Ok(Unit) && store.habitos == SinHabito(old(store.habitos), id) &&
      |store.habitos| == |old(store.habitos)| - 1
  {
    if store.FindById(id).None? {
      return Err(ResourceNotFound(HabitoNoEncontrado(id)));
    }
    SinHabitoQuitaUno(store.habitos, id);
    store.habitos := SinHabito(store.habitos, id);
    r := Ok(Unit);
  }
}
