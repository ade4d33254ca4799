/**
 * A user's notification settings row: reading it, saving it (reuse the
 * user's row or create one), deleting it, switching every channel at once and
 * resetting to the defaults.  A null user id is None.
 */
module NotificationService {
  import opened Common
  import opened Model

  /** The request body of a save; a JSON null is None. */
  datatype SettingsRequest = SettingsRequest(
    emailEnabled: Option<bool>,
    pushEnabled: Option<bool>,
    smsEnabled: Option<bool>,
    notificationTime: Option<string>)

  const IdNulo := "El ID del usuario no puede ser nulo."
  const ConfiguracionNula := "La configuración de notificaciones no puede ser nula."
  const SinConfiguraciones := "No se encontraron configuraciones de notificación para este usuario."
  const NoExisteConfiguracion := "No existe configuración de notificaciones para este usuario."

  /** The defaults of `resetToDefault`: e-mail and push on, SMS off, at eight o'clock. */
  const HoraPorDefecto := "08:00"

  // ---------------------------------------------------------------------------
  // Reading

  /**
   * `getSettings`: bad request for a null id, user-not-found for an unknown
   * user, not-found when the user has no row, and the lookup's failure when
   * the user has several.
   */
  function GetSettings(users: UserStore, store: SettingsStore, userId: Option<int>): (r: Result<NotificationSettings>)
    reads users, store
    ensures userId.None? ==> r == Err(BadRequest(IdNulo))
    ensures userId.Some? && users.FindById(userId.value).None? ==> r == Err(UserNotFound(userId.value))
    ensures userId.Some? && users.FindById(userId.value).Some? ==>
      var u := users.FindById(userId.value).value.id;
      (FilasDe(store.settings, u) == 0 ==> r == Err(ResourceNotFound(SinConfiguraciones))) &&
      (FilasDe(store.settings, u) >= 2 ==> r == Err(NonUniqueResult)) &&
      (FilasDe(store.settings, u) == 1 ==> r.Ok? && r.value in store.settings && r.value.usuario == u)
  {
    if userId.None? then Err(BadRequest(IdNulo))
    else match users.FindById(userId.value)
      case None => Err(UserNotFound(userId.value))
      case Some(usuario) =>
        match FindByUsuarioId(store.settings, usuario.id)
        case Err(e) => Err(e)
        case Ok(None) => Err(ResourceNotFound(SinConfiguraciones))
        case Ok(Some(c)) => Ok(c)
  }

  // ---------------------------------------------------------------------------
  // The row-level updates

  /** The row with the three channel switches and the time set. */
  function ConCanales(c: NotificationSettings, email: bool, push: bool, sms: bool, hora: Option<string>): (r: NotificationSettings)
    ensures r.id == c.id && r.usuario == c.usuario && r.habit == c.habit
    ensures r.emailEnabled == email && r.pushEnabled == push && r.smsEnabled == sms && r.notificationTime == hora
  {
    c.(emailEnabled := email, pushEnabled := push, smsEnabled := sms, notificationTime := hora)
  }

  /** Every row of the user gets the switches and the time; the other rows stay. */
  function ActualizarDelUsuario(settings: seq<NotificationSettings>, usuario: nat, email: bool, push: bool, sms: bool, hora: Option<string>)
    : (r: seq<NotificationSettings>)
    ensures |r| == |settings|
    ensures forall k :: 0 <= k < |r| ==>
      r[k] == if settings[k].usuario == usuario then ConCanales(settings[k], email, push, sms, hora) else settings[k]
    ensures forall k :: 0 <= k < |r| ==> r[k].id == settings[k].id && r[k].usuario == settings[k].usuario
  {
    if settings == [] then []
    else
      var c := settings[0];
      [if c.usuario == usuario then ConCanales(c, email, push, sms, hora) else c] +
      ActualizarDelUsuario(settings[1..], usuario, email, push, sms, hora)
  }

  /** Rows keep their owners, so every user keeps the number of rows. */
  lemma {:induction false} ActualizarConservaFilas(settings: seq<NotificationSettings>, usuario: nat, email: bool, push: bool, sms: bool, hora: Option<string>, otro: nat)
    ensures FilasDe(ActualizarDelUsuario(settings, usuario, email, push, sms, hora), otro) == FilasDe(settings, otro)
  {
    if settings != [] {
      var r := ActualizarDelUsuario(settings, usuario, email, push, sms, hora);
      ActualizarConservaFilas(settings[1..], usuario, email, push, sms, hora, otro);
      assert r[1..] == ActualizarDelUsuario(settings[1..], usuario, email, push, sms, hora);
    }
  }

  /**
   * The table after `saveSettings` stores the switches: the user's row is
   * reused, or a row owned by the user is created with the next id.
   */
  function Guardar(settings: seq<NotificationSettings>, nextId: nat, usuario: nat, email: bool, push: bool, sms: bool, hora: Option<string>)
    : (r: seq<NotificationSettings>)
  {
    if FilasDe(settings, usuario) == 0 then settings + [NotificationSettings(nextId, usuario, None, email, push, sms, hora)]
    else ActualizarDelUsuario(settings, usuario, email, push, sms, hora)
  }

  /** The row `Guardar` stores for the user: the user's row updated, or a new one with the next id. */
  function FilaGuardada(settings: seq<NotificationSettings>, nextId: nat, usuario: nat, email: bool, push: bool, sms: bool, hora: Option<string>)
    : (c: NotificationSettings)
    ensures c.usuario == usuario
    ensures c.emailEnabled == email && c.pushEnabled == push && c.smsEnabled == sms && c.notificationTime == hora
  {
    match FindFirst(settings, (c: NotificationSettings) => c.usuario == usuario)
    case None => NotificationSettings(nextId, usuario, None, email, push, sms, hora)
    case Some(c) => ConCanales(c, email, push, sms, hora)
  }

  /**
   * Round trip: with at most one row for the user, after `Guardar` the
   * user's lookup finds exactly the saved row: the user's old row (same id)
   * with the new switches, or a new row with the next id.
   */
  lemma GuardarLuegoLeer(settings: seq<NotificationSettings>, nextId: nat, usuario: nat, email: bool, push: bool, sms: bool, hora: Option<string>)
    requires FilasDe(settings, usuario) <= 1
    ensures FindByUsuarioId(Guardar(settings, nextId, usuario, email, push, sms, hora), usuario) ==
      Ok(Some(FilaGuardada(settings, nextId, usuario, email, push, sms, hora)))
    ensures FilasDe(settings, usuario) == 0 ==> FilaGuardada(settings, nextId, usuario, email, push, sms, hora).id == nextId
    ensures FilasDe(settings, usuario) == 1 ==>
      FilaGuardada(settings, nextId, usuario, email, push, sms, hora) ==
      ConCanales(FindByUsuarioId(settings, usuario).value.value, email, push, sms, hora)
  {
    var r := Guardar(settings, nextId, usuario, email, push, sms, hora);
    var f := FilaGuardada(settings, nextId, usuario, email, push, sms, hora);
    if FilasDe(settings, usuario) == 0 {
      var nueva := NotificationSettings(nextId, usuario, None, email, push, sms, hora);
      CountAppend(settings, [nueva], (c: NotificationSettings) => c.usuario == usuario);
      assert FilasDe(r, usuario) == 1;
      var c := FindByUsuarioId(r, usuario).value.value;
      assert c in settings || c == nueva;
    } else {
      ActualizarConservaFilas(settings, usuario, email, push, sms, hora, usuario);
      var c := FindByUsuarioId(r, usuario).value.value;
      var k :| 0 <= k < |r| && r[k] == c;
      var v := FindFirst(settings, (x: NotificationSettings) => x.usuario == usuario).value;
      FilaUnica(settings, usuario, settings[k], v);
      FilaUnica(settings, usuario, FindByUsuarioId(settings, usuario).value.value, v);
    }
  }

  /** `saveSettings` keeps the generated ids distinct and below the next id. */
  lemma GuardarIds(settings: seq<NotificationSettings>, nextId: nat, usuario: nat, email: bool, push: bool, sms: bool, hora: Option<string>)
    requires TablaValida(settings, nextId)
    ensures TablaValida(Guardar(settings, nextId, usuario, email, push, sms, hora),
                        if FilasDe(settings, usuario) == 0 then nextId + 1 else nextId)
  {
  }

  // ---------------------------------------------------------------------------
  // Saving

  /**
   * `saveSettings`: the null checks, the user check and the lookup come
   * first; a null switch violates its non-null column and nothing is stored;
   * otherwise the table becomes `Guardar` and the saved row is returned.
   */
  method SaveSettings(users: UserStore, store: SettingsStore, userId: Option<int>, nuevo: Option<SettingsRequest>)
    returns (r: Result<NotificationSettings>)
    requires store.Valid()
    modifies store
    ensures store.Valid()
    ensures userId.None? ==> r == Err(BadRequest(IdNulo)) && unchanged(store)
    ensures userId.Some? && nuevo.None? ==> r == Err(BadRequest(ConfiguracionNula)) && unchanged(store)
    ensures userId.Some? && nuevo.Some? && users.FindById(userId.value).None? ==>
      r == Err(UserNotFound(userId.value)) && unchanged(store)
    ensures userId.Some? && nuevo.Some? && users.FindById(userId.value).Some? ==>
      var u := users.FindById(userId.value).value.id;
      var q := nuevo.value;
      (FilasDe(old(store.settings), u) >= 2 ==> r == Err(NonUniqueResult) && unchanged(store)) &&
      (FilasDe(old(store.settings), u) <= 1 && (q.emailEnabled.None? || q.pushEnabled.None? || q.smsEnabled.None?) ==>
        r == Err(DataIntegrityViolation) && unchanged(store)) &&
      (FilasDe(old(store.settings), u) <= 1 && q.emailEnabled.Some? && q.pushEnabled.Some? && q.smsEnabled.Some? ==>
        store.settings == Guardar(old(store.settings), old(store.nextId), u,
          q.emailEnabled.value, q.pushEnabled.value, q.smsEnabled.value, q.notificationTime) &&
        store.nextId == (if FilasDe(old(store.settings), u) == 0 then old(store.nextId) + 1 else old(store.nextId)) &&
        r == Ok(FilaGuardada(old(store.settings), old(store.nextId), u,
          q.emailEnabled.value, q.pushEnabled.value, q.smsEnabled.value, q.notificationTime)) &&
        FindByUsuarioId(store.settings, u) == Ok(Some(r.value)))
  {
    if userId.None? {
      return Err(BadRequest(IdNulo));
    }
    if nuevo.None? {
      return Err(BadRequest(ConfiguracionNula));
    }
    var usuario := users.FindById(userId.value);
    if usuario.None? {
      return Err(UserNotFound(userId.value));
    }
    var u := usuario.value.id;
    var existente := FindByUsuarioId(store.settings, u);
    if existente.Err? {
      return Err(existente.error);
    }
    var q := nuevo.value;
    if q.emailEnabled.None? || q.pushEnabled.None? || q.smsEnabled.None? {
      return Err(DataIntegrityViolation);
    }
    var fila := Almacenar(store, u, q.emailEnabled.value, q.pushEnabled.value, q.smsEnabled.value, q.notificationTime, existente.value);
    r := Ok(fila);
  }

  /**
   * The `save` that ends `saveSettings`: the user's row found by the lookup
   * (`existente`) is updated, or a new row takes the next id.
   */
  method Almacenar(store: SettingsStore, u: nat, email: bool, push: bool, sms: bool, hora: Option<string>,
                   existente: Option<NotificationSettings>)
    returns (fila: NotificationSettings)
    requires store.Valid()
    requires existente.None? <==> FilasDe(store.settings, u) == 0
    modifies store
    ensures store.Valid()
    ensures store.settings == Guardar(old(store.settings), old(store.nextId), u, email, push, sms, hora)
    ensures store.nextId == if FilasDe(old(store.settings), u) == 0 then old(store.nextId) + 1 else old(store.nextId)
    ensures fila == FilaGuardada(old(store.settings), old(store.nextId), u, email, push, sms, hora)
    ensures FilasDe(old(store.settings), u) <= 1 ==> FindByUsuarioId(store.settings, u) == Ok(Some(fila))
  {
    var antes, siguiente := store.settings, store.nextId;
    var nuevoId := if existente.None? then siguiente + 1 else siguiente;
    GuardarTabla(antes, siguiente, nuevoId, u, email, push, sms, hora);
    fila := FilaGuardada(antes, siguiente, u, email, push, sms, hora);
    store.settings := Guardar(antes, siguiente, u, email, push, sms, hora);
    store.nextId := nuevoId;
  }

  /** What `Almacenar` needs of the table it writes, stated on values. */
  lemma GuardarTabla(antes: seq<NotificationSettings>, siguiente: nat, nuevoId: nat,
                     u: nat, email: bool, push: bool, sms: bool, hora: Option<string>)
    requires TablaValida(antes, siguiente)
    requires nuevoId == if FilasDe(antes, u) == 0 then siguiente + 1 else siguiente
    ensures TablaValida(Guardar(antes, siguiente, u, email, push, sms, hora), nuevoId)
    ensures FilasDe(antes, u) <= 1 ==>
      FindByUsuarioId(Guardar(antes, siguiente, u, email, push, sms, hora), u) ==
      Ok(Some(FilaGuardada(antes, siguiente, u, email, push, sms, hora)))
  {
    GuardarIds(antes, siguiente, u, email, push, sms, hora);
    if FilasDe(antes, u) <= 1 {
      GuardarLuegoLeer(antes, siguiente, u, email, push, sms, hora);
    }
  }

  // ---------------------------------------------------------------------------
  // Deleting

  /** The table without the row of that id. */
  function SinFila(settings: seq<NotificationSettings>, id: nat): (r: seq<NotificationSettings>)
    ensures |r| <= |settings|
    ensures forall c :: c in r <==> c in settings && c.id != id
    ensures IdsDistintos(settings) ==> IdsDistintos(r)
  {
    if settings == [] then []
    else
      var resto := SinFila(settings[1..], id);
      DistintosSinCabeza(settings, resto);
      if settings[0].id == id then resto else [settings[0]] + resto
  }

  predicate IdsDistintos(settings: seq<NotificationSettings>) {
    forall i, j :: 0 <= i < j < |settings| ==> settings[i].id != settings[j].id
  }

  /**
   * With distinct ids, the tail keeps them distinct, and any choice `resto`
   * among the tail's rows keeps them distinct with the head put back in front.
   */
  lemma DistintosSinCabeza(settings: seq<NotificationSettings>, resto: seq<NotificationSettings>)
    requires settings != []
    requires IdsDistintos(settings[1..]) ==> IdsDistintos(resto)
    requires forall c :: c in resto ==> c in settings[1..]
    ensures IdsDistintos(settings) ==>
      IdsDistintos(settings[1..]) && IdsDistintos(resto) && IdsDistintos([settings[0]] + resto)
  {
    if IdsDistintos(settings) {
      assert IdsDistintos(settings[1..]) by {
        forall i, j | 0 <= i < j < |settings| - 1 ensures settings[1..][i].id != settings[1..][j].id {
          assert settings[1..][i] == settings[i + 1] && settings[1..][j] == settings[j + 1];
        }
      }
      forall i, j | 0 <= i < j < |resto| + 1 ensures ([settings[0]] + resto)[i].id != ([settings[0]] + resto)[j].id {
        if i == 0 {
          assert resto[j - 1] in resto;
          var k :| 0 <= k < |settings[1..]| && settings[1..][k] == resto[j - 1];
          assert settings[k + 1] == resto[j - 1];
        } else {
          assert ([settings[0]] + resto)[i] == resto[i - 1] && ([settings[0]] + resto)[j] == resto[j - 1];
        }
      }
    }
  }

  /** Removing the user's only row leaves the user without rows. */
  lemma {:induction false} SinFilaUnica(settings: seq<NotificationSettings>, usuario: nat, c: NotificationSettings)
    requires FilasDe(settings, usuario) == 1 && c in settings && c.usuario == usuario
    ensures FilasDe(SinFila(settings, c.id), usuario) == 0
  {
    var r := SinFila(settings, c.id);
    forall k | 0 <= k < |r| ensures r[k].usuario != usuario {
      if r[k].usuario == usuario {
        assert r[k] in settings;
        FilaUnica(settings, usuario, r[k], c);
      }
    }
  }

  /**
   * `deleteSettings`: the null and user checks, not-found without a row, the
   * lookup's failure with several; otherwise the user's row is removed.
   */
  method DeleteSettings(users: UserStore, store: SettingsStore, userId: Option<int>) returns (r: Result<Unit>)
    requires store.Valid()
    modifies store
    ensures store.Valid() && store.nextId == old(store.nextId)
    ensures userId.None? ==> r == Err(BadRequest(IdNulo)) && unchanged(store)
    ensures userId.Some? && users.FindById(userId.value).None? ==> r == Err(UserNotFound(userId.value)) && unchanged(store)
    ensures userId.Some? && users.FindById(userId.value).Some? ==>
      var u := users.FindById(userId.value).value.id;
      (FilasDe(old(store.settings), u) == 0 ==> r == Err(ResourceNotFound(NoExisteConfiguracion)) && unchanged(store)) &&
      (FilasDe(old(store.settings), u) >= 2 ==> r == Err(NonUniqueResult) && unchanged(store)) &&
      (FilasDe(old(store.settings), u) == 1 ==>
        r == Ok(Unit) && FilasDe(store.settings, u) == 0 &&
        store.settings == SinFila(old(store.settings), FindByUsuarioId(old(store.settings), u).value.value.id))
  {
    if userId.None? {
      return Err(BadRequest(IdNulo));
    }
    var usuario := users.FindById(userId.value);
    if usuario.None? {
      return Err(UserNotFound(userId.value));
    }
    var u := usuario.value.id;
    var fila := FindByUsuarioId(store.settings, u);
    if fila.Err? {
      return Err(fila.error);
    }
    if fila.value.None? {
      return Err(ResourceNotFound(NoExisteConfiguracion));
    }
    Quitar(store, u, fila.value.value);
    r := Ok(Unit);
  }

  /** The `delete` that ends `deleteSettings`: the user's only row `c` leaves the table. */
  method Quitar(store: SettingsStore, u: nat, c: NotificationSettings)
    requires store.Valid()
    requires FilasDe(store.settings, u) == 1 && c in store.settings && c.usuario == u
    modifies store
    ensures store.Valid() && store.nextId == old(store.nextId)
    ensures store.settings == SinFila(old(store.settings), c.id)
    ensures FilasDe(store.settings, u) == 0
  {
    SinFilaUnica(store.settings, u, c);
    ghost var antes := store.settings;
    store.settings := SinFila(store.settings, c.id);
    forall i | 0 <= i < |store.settings| ensures store.settings[i].id < store.nextId {
      assert store.settings[i] in antes;
    }
  }

  // ---------------------------------------------------------------------------
  // Switching all channels

  /**
   * `changeNotificationStatus`: `getSettings`' failures as they are;
   * otherwise the user's row gets all three channels set to `enabled` and
   * keeps its time, owner and id.
   */
  method ChangeNotificationStatus(users: UserStore, store: SettingsStore, userId: Option<int>, enabled: bool)
    returns (r: Result<NotificationSettings>)
    requires store.Valid()
    modifies store
    ensures store.Valid() && store.nextId == old(store.nextId)
    ensures old(GetSettings(users, store, userId)).Err? ==> r == old(GetSettings(users, store, userId)) && unchanged(store)
    ensures old(GetSettings(users, store, userId)).Ok? ==>
      var c := old(GetSettings(users, store, userId)).value;
      r == Ok(ConCanales(c, enabled, enabled, enabled, c.notificationTime)) &&
      store.settings == ActualizarDelUsuario(old(store.settings), c.usuario, enabled, enabled, enabled, c.notificationTime)
  {
    var actual := GetSettings(users, store, userId);
    if actual.Err? {
      return Err(actual.error);
    }
    var c := actual.value;
    store.settings := ActualizarDelUsuario(store.settings, c.usuario, enabled, enabled, enabled, c.notificationTime);
    r := Ok(ConCanales(c, enabled, enabled, enabled, c.notificationTime));
  }

  /**
   * After switching the channels, reading the settings gives the user's row
   * with every channel at `enabled` and its time, id and owner as before.
   */
  lemma EstadoLuegoLeer(settings: seq<NotificationSettings>, usuario: nat, enabled: bool)
    requires FilasDe(settings, usuario) == 1
    ensures var c := FindByUsuarioId(settings, usuario).value.value;
      FindByUsuarioId(ActualizarDelUsuario(settings, usuario, enabled, enabled, enabled, c.notificationTime), usuario) ==
      Ok(Some(ConCanales(c, enabled, enabled, enabled, c.notificationTime)))
  {
    var c := FindByUsuarioId(settings, usuario).value.value;
    GuardarLuegoLeer(settings, 0, usuario, enabled, enabled, enabled, c.notificationTime);
  }

  // ---------------------------------------------------------------------------
  // Resetting

  function Predeterminada(id: nat, usuario: nat): (c: NotificationSettings)
    ensures c.emailEnabled && c.pushEnabled && !c.smsEnabled && c.notificationTime == Some(HoraPorDefecto)
  {
    NotificationSettings(id, usuario, None, true, true, false, Some(HoraPorDefecto))
  }

  /**
   * `resetToDefault`: the null and user checks; then a new default row owned
   * by the user is saved, beside any row the user already has.
   */
  method ResetToDefault(users: UserStore, store: SettingsStore, userId: Option<int>) returns (r: Result<NotificationSettings>)
    requires store.Valid()
    modifies store
    ensures store.Valid()
    ensures userId.None? ==> r == Err(BadRequest(IdNulo)) && unchanged(store)
    ensures userId.Some? && users.FindById(userId.value).None? ==> r == Err(UserNotFound(userId.value)) && unchanged(store)
    ensures userId.Some? && users.FindById(userId.value).Some? ==>
      var u := users.FindById(userId.value).value.id;
      r == Ok(Predeterminada(old(store.nextId), u)) &&
      store.settings == old(store.settings) + [r.value] && store.nextId == old(store.nextId) + 1
  {
    if userId.None? {
      return Err(BadRequest(IdNulo));
    }
    var usuario := users.FindById(userId.value);
    if usuario.None? {
      return Err(UserNotFound(userId.value));
    }
    var fila := Predeterminada(store.nextId, usuario.value.id);
    store.settings := store.settings + [fila];
    store.nextId := store.nextId + 1;
    r := Ok(fila);
  }

  /** Appending a row adds one to its owner's row count. */
  lemma FilasTrasAnadir(settings: seq<NotificationSettings>, c: NotificationSettings)
    ensures FilasDe(settings + [c], c.usuario) == FilasDe(settings, c.usuario) + 1
  {
    CountAppend(settings, [c], (x: NotificationSettings) => x.usuario == c.usuario);
  }

  /**
   * As written, resetting a user who already has a row leaves two rows, and
   * from then on reading the settings fails.
   */
  lemma ResetDuplicaFila(settings: seq<NotificationSettings>, nextId: nat, usuario: nat)
    requires FilasDe(settings, usuario) >= 1
    ensures FilasDe(settings + [Predeterminada(nextId, usuario)], usuario) >= 2
    ensures FindByUsuarioId(settings + [Predeterminada(nextId, usuario)], usuario) == Err(NonUniqueResult)
  {
    FilasTrasAnadir(settings, Predeterminada(nextId, usuario));
  }

  /** Resetting a user without a row makes the defaults readable. */
  lemma ResetSinFilaLuegoLeer(settings: seq<NotificationSettings>, nextId: nat, usuario: nat)
    requires FilasDe(settings, usuario) == 0
    ensures FindByUsuarioId(settings + [Predeterminada(nextId, usuario)], usuario) == Ok(Some(Predeterminada(nextId, usuario)))
  {
    var nueva := Predeterminada(nextId, usuario);
    FilasTrasAnadir(settings, nueva);
    var c := FindByUsuarioId(settings + [nueva], usuario).value.value;
    assert c in settings || c == nueva;
  }

  /**
   * The reset as evidently intended: the defaults stored in the user's row,
   * reusing it when there is one, so that reading afterwards gives them.
   */
  method ResetToDefaultCorregido(users: UserStore, store: SettingsStore, userId: Option<int>) returns (r: Result<NotificationSettings>)
    requires store.Valid()
    modifies store
    ensures store.Valid()
    ensures userId.None? ==> r == Err(BadRequest(IdNulo)) && unchanged(store)
    ensures userId.Some? && users.FindById(userId.value).None? ==> r == Err(UserNotFound(userId.value)) && unchanged(store)
    ensures userId.Some? && users.FindById(userId.value).Some? ==>
      var u := users.FindById(userId.value).value.id;
      (FilasDe(old(store.settings), u) >= 2 ==> r == Err(NonUniqueResult) && unchanged(store)) &&
      (FilasDe(old(store.settings), u) <= 1 ==>
        store.settings == Guardar(old(store.settings), old(store.nextId), u, true, true, false, Some(HoraPorDefecto)) &&
        r == Ok(FilaGuardada(old(store.settings), old(store.nextId), u, true, true, false, Some(HoraPorDefecto))) &&
        FindByUsuarioId(store.settings, u) == Ok(Some(r.value)))
  {
    if userId.None? {
      return Err(BadRequest(IdNulo));
    }
    var usuario := users.FindById(userId.value);
    if usuario.None? {
      return Err(UserNotFound(userId.value));
    }
    var u := usuario.value.id;
    var existente := FindByUsuarioId(store.settings, u);
    if existente.Err? {
      return Err(existente.error);
    }
    var fila := Almacenar(store, u, true, true, false, Some(HoraPorDefecto), existente.value);
    r := Ok(fila);
  }
}
