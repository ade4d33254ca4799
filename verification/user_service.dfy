/**
 * The plain registration service: no trimming and no validation beyond a
 * null request; the password encoder is a parameter, and a null password
 * fails inside it.
 */
module UserService {
  import opened Common
  import opened Model

  /** The request body; a JSON null is None. */
  datatype UserRequest = UserRequest(
    username: Option<string>,
    password: Option<string>,
    nombre: Option<string>,
    email: Option<string>)

  const SolicitudNula := "La solicitud de registro no puede ser nula."
  const NombreExiste := "El nombre de usuario ya existe."
  /** What the BCrypt encoder raises for a null password. */
  const ContrasenaNula := "rawPassword cannot be null"

  /** `existsByUsername`: a null name matches no row, since the column is not nullable. */
  function ExisteNombre(store: UserStore, username: Option<string>): (b: bool)
    reads store
    ensures b <==> username.Some? && exists k :: 0 <= k < |store.usuarios| && store.usuarios[k].username == username.value
  {
    username.Some? && store.FindByUsername(username.value).Some?
  }

  /**
   * `register`: a null request is a bad request, a taken name a conflict;
   * then the encoder refuses a null password and the not-null column a
   * null name; otherwise exactly one user is added, with the request's
   * fields and the encoded password.
   */
  method Register(store: UserStore, req: Option<UserRequest>, encode: string -> string) returns (r: Result<User>)
    requires store.Valid()
    modifies store
    ensures store.Valid()
    ensures r.Err? ==> store.usuarios == old(store.usuarios) && store.nextId == old(store.nextId)
    ensures req.None? ==> r == Err(BadRequest(SolicitudNula))
    ensures req.Some? && old(ExisteNombre(store, req.value.username)) ==> r == Err(Conflict(NombreExiste))
    ensures req.Some? && !old(ExisteNombre(store, req.value.username)) && req.value.password.None? ==>
      r == Err(IllegalArgument(ContrasenaNula))
    ensures req.Some? && !old(ExisteNombre(store, req.value.username)) && req.value.password.Some? && req.value.username.None? ==>
      r == Err(DataIntegrityViolation)
    ensures r.Ok? ==>
      req.Some? && req.value.username == Some(r.value.username) && req.value.password.Some? &&
      r.value == User(old(store.nextId), req.value.username.value, encode(req.value.password.value), req.value.nombre, req.value.email) &&
      store.usuarios == old(store.usuarios) + [r.value] && store.nextId == old(store.nextId) + 1
    ensures req.Some? && req.value.username.Some? && req.value.password.Some? && !old(ExisteNombre(store, req.value.username)) ==>
      r.Ok?
  {
    if req.None? {
      return Err(BadRequest(SolicitudNula));
    }
    var q := req.value;
    if ExisteNombre(store, q.username) {
      return Err(Conflict(NombreExiste));
    }
    if q.password.None? {
      return Err(IllegalArgument(ContrasenaNula));
    }
    if q.username.None? {
      return Err(DataIntegrityViolation);
    }
    r := store.Insert(q.username.value, encode(q.password.value), q.nombre, q.email);
  }

  /** `findByUsername`. */
  function FindByUsername(store: UserStore, username: string): (r: Option<User>)
    reads store
    requires store.Valid()
    ensures r.Some? ==> r.value in store.usuarios && r.value.username == username
    ensures r.None? <==> forall k :: 0 <= k < |store.usuarios| ==> store.usuarios[k].username != username
    ensures forall k :: 0 <= k < |store.usuarios| && store.usuarios[k].username == username ==> r == Some(store.usuarios[k])
  {
    var f := store.FindByUsername(username);
    assert f.Some? ==> forall k :: 0 <= k < |store.usuarios| && store.usuarios[k].username == username ==> f.value == store.usuarios[k] by {
      if f.Some? {
        var i :| 0 <= i < |store.usuarios| && store.usuarios[i] == f.value;
        forall k | 0 <= k < |store.usuarios| && store.usuarios[k].username == username
          ensures f.value == store.usuarios[k]
        {
          assert i == k;
        }
      }
    }
    f
  }

  /**
   * The user a successful registration appended is the one found under its
   * name, and the name now exists, so the same request again is a conflict.
   */
  lemma RegistradoSeEncuentra(store: UserStore, antes: seq<User>, nuevo: User)
    requires store.Valid()
    requires store.usuarios == antes + [nuevo]
    ensures FindByUsername(store, nuevo.username) == Some(nuevo)
    ensures ExisteNombre(store, Some(nuevo.username))
  {
    assert store.usuarios[|antes|] == nuevo;
  }
}
