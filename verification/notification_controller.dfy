/**
 * The HTTP answers of the notification endpoints: each handler turns the
 * service's result or exception into a status code and a body.  Every
 * exception the services raise is a RuntimeException; none of them is an
 * IllegalArgumentException.
 */
module NotificationController {
  import opened Common
  import opened Model
  import NotificationService

  datatype Cuerpo =
    | Configuracion(settings: NotificationSettings)
    | Texto(texto: string)

  datatype Respuesta = Respuesta(status: nat, cuerpo: Cuerpo)

  const Eliminada := "Configuración de notificaciones eliminada correctamente."

  /** GET: 400 for an illegal argument, 404 for an unknown user, 500 with a prefix otherwise. */
  function RespuestaGet(r: Result<NotificationSettings>): (a: Respuesta)
    ensures r.Ok? <==> a.status == 200
    ensures r.Ok? ==> a.cuerpo == Configuracion(r.value)
    ensures a.status == 404 <==> r.Err? && r.error.UserNotFound?
    ensures a.status == 400 <==> r.Err? && r.error.IllegalArgument?
    ensures r.Err? && !r.error.UserNotFound? && !r.error.IllegalArgument? ==>
      a == Respuesta(500, Texto("Error al obtener configuración: " + Message(r.error)))
  {
    match r
    case Ok(c) => Respuesta(200, Configuracion(c))
    case Err(IllegalArgument(m)) => Respuesta(400, Texto(m))
    case Err(UserNotFound(id)) => Respuesta(404, Texto(Message(UserNotFound(id))))
    case Err(e) => Respuesta(500, Texto("Error al obtener configuración: " + Message(e)))
  }

  /** POST: 400 for an illegal argument; every other failure, an unknown user included, is 500 with the bare message. */
  function RespuestaSave(r: Result<NotificationSettings>): (a: Respuesta)
    ensures r.Ok? <==> a.status == 200
    ensures r.Ok? ==> a.cuerpo == Configuracion(r.value)
    ensures a.status != 404
    ensures r.Err? ==> a.cuerpo == Texto(Message(r.error))
    ensures r.Err? ==> (a.status == 400 <==> r.error.IllegalArgument?)
  {
    match r
    case Ok(c) => Respuesta(200, Configuracion(c))
    case Err(IllegalArgument(m)) => Respuesta(400, Texto(m))
    case Err(e) => Respuesta(500, Texto(Message(e)))
  }

  /** DELETE: 200 with a fixed text, 404 for an unknown user, 500 with the bare message. */
  function RespuestaDelete(r: Result<Unit>): (a: Respuesta)
    ensures r.Ok? <==> a == Respuesta(200, Texto(Eliminada))
    ensures a.status == 404 <==> r.Err? && r.error.UserNotFound?
    ensures r.Err? ==> a.cuerpo == Texto(Message(r.error)) && a.status in {404, 500}
  {
    match r
    case Ok(_) => Respuesta(200, Texto(Eliminada))
    case Err(UserNotFound(id)) => Respuesta(404, Texto(Message(UserNotFound(id))))
    case Err(e) => Respuesta(500, Texto(Message(e)))
  }

  /** PUT status and PUT reset: 404 for an unknown user, 500 with the handler's prefix otherwise. */
  function RespuestaConPrefijo(r: Result<NotificationSettings>, prefijo: string): (a: Respuesta)
    ensures r.Ok? <==> a.status == 200
    ensures r.Ok? ==> a.cuerpo == Configuracion(r.value)
    ensures a.status == 404 <==> r.Err? && r.error.UserNotFound?
    ensures r.Err? && !r.error.UserNotFound? ==> a == Respuesta(500, Texto(prefijo + Message(r.error)))
  {
    match r
    case Ok(c) => Respuesta(200, Configuracion(c))
    case Err(UserNotFound(id)) => Respuesta(404, Texto(Message(UserNotFound(id))))
    case Err(e) => Respuesta(500, Texto(prefijo + Message(e)))
  }

  function RespuestaStatus(r: Result<NotificationSettings>): (a: Respuesta)
    ensures r.Err? && !r.error.UserNotFound? ==> a == Respuesta(500, Texto("Error al actualizar estado: " + Message(r.error)))
    ensures a.status == 404 <==> r.Err? && r.error.UserNotFound?
  {
    RespuestaConPrefijo(r, "Error al actualizar estado: ")
  }

  function RespuestaReset(r: Result<NotificationSettings>): (a: Respuesta)
    ensures r.Err? && !r.error.UserNotFound? ==> a == Respuesta(500, Texto("Error al restablecer: " + Message(r.error)))
    ensures a.status == 404 <==> r.Err? && r.error.UserNotFound?
  {
    RespuestaConPrefijo(r, "Error al restablecer: ")
  }

  /**
   * The 404 body names the user: "Usuario con ID <id> no encontrado."; the
   * save endpoint sends the same text with 500.
   */
  lemma CuerpoDel404(id: int)
    ensures RespuestaGet(Err(UserNotFound(id))).cuerpo == Texto("Usuario con ID " + IntToString(id) + " no encontrado.")
    ensures RespuestaSave(Err(UserNotFound(id))) == Respuesta(500, RespuestaGet(Err(UserNotFound(id))).cuerpo)
    ensures RespuestaDelete(Err(UserNotFound(id))).cuerpo == RespuestaGet(Err(UserNotFound(id))).cuerpo
    ensures RespuestaStatus(Err(UserNotFound(id))).cuerpo == RespuestaGet(Err(UserNotFound(id))).cuerpo
    ensures RespuestaReset(Err(UserNotFound(id))).cuerpo == RespuestaGet(Err(UserNotFound(id))).cuerpo
  {
  }

  /**
   * GET end to end: the service never raises an illegal argument, so the
   * endpoint never answers 400; a null id, whose bad request is no illegal
   * argument, becomes a 500 carrying the service's message.
   */
  lemma GetNuncaResponde400(users: UserStore, store: SettingsStore, userId: Option<int>)
    ensures RespuestaGet(NotificationService.GetSettings(users, store, userId)).status != 400
    ensures userId.None? ==>
      RespuestaGet(NotificationService.GetSettings(users, store, userId)) ==
        Respuesta(500, Texto("Error al obtener configuración: " + NotificationService.IdNulo))
  {
  }

  /** GET end to end: 404 exactly when the id is given and names no user. */
  lemma GetResponde404SiYSoloSi(users: UserStore, store: SettingsStore, userId: Option<int>)
    ensures RespuestaGet(NotificationService.GetSettings(users, store, userId)).status == 404 <==>
      userId.Some? && users.FindById(userId.value).None?
  {
  }
}
