/**
 * Registration and login behind the token endpoints.  The password encoder,
 * the authentication manager (which checks a username and password against
 * the user table) and the token generator are library code, passed in as
 * functions.
 */
module AuthService {
  import opened Common
  import opened Model

  datatype RegisterRequest = RegisterRequest(
    username: Option<string>,
    password: Option<string>,
    email: Option<string>,
    nombre: Option<string>)

  datatype LoginRequest = LoginRequest(username: Option<string>, password: Option<string>)

  datatype AuthResponse = AuthResponse(token: string)

  const DatosIncompletos := "Datos incompletos"
  const NombreEnUso := "El nombre de usuario ya está en uso"
  const CredencialesInvalidas := "Credenciales inválidas"

  /** The request is present and both username and password hold non-whitespace text. */
  predicate Completa(username: Option<string>, password: Option<string>) {
    HasText(username) && HasText(password)
  }

  /** The answer once the new user is authenticated: the token for the principal, or the failure unchanged. */
  function ConToken(autenticacion: Result<string>, generateToken: string -> string): (r: Result<AuthResponse>)
    ensures r.Ok? <==> autenticacion.Ok?
    ensures r.Ok? ==> r.value.token == generateToken(autenticacion.value)
    ensures r.Err? ==> r.error == autenticacion.error
  {
    match autenticacion
    case Ok(principal) => Ok(AuthResponse(generateToken(principal)))
    case Err(e) => Err(e)
  }

  /**
   * `register`: incomplete data, then a taken (untrimmed) name, then the
   * save of the trimmed name, which the unique column can refuse; only then
   * the new user is authenticated, against the table that now holds it, and
   * the token issued.  A failed authentication leaves the user saved.
   */
  method Register(
    store: UserStore,
    req: Option<RegisterRequest>,
    encode: string -> string,
    authenticate: (seq<User>, string, string) -> Result<string>,
    generateToken: string -> string)
    returns (r: Result<AuthResponse>)
    requires store.Valid()
    modifies store
    ensures store.Valid()
    ensures req.None? || !Completa(req.value.username, req.value.password) ==>
      r == Err(BadRequest(DatosIncompletos)) && store.usuarios == old(store.usuarios) && store.nextId == old(store.nextId)
    ensures (req.Some? && Completa(req.value.username, req.value.password) &&
             old(store.FindByUsername(req.value.username.value)).Some?) ==>
      r == Err(BadRequest(NombreEnUso)) && store.usuarios == old(store.usuarios) && store.nextId == old(store.nextId)
    ensures (req.Some? && Completa(req.value.username, req.value.password) &&
             old(store.FindByUsername(req.value.username.value)).None? &&
             old(store.FindByUsername(JavaTrim(req.value.username.value))).Some?) ==>
      r == Err(DataIntegrityViolation) && store.usuarios == old(store.usuarios) && store.nextId == old(store.nextId)
    ensures (req.Some? && Completa(req.value.username, req.value.password) &&
             old(store.FindByUsername(req.value.username.value)).None? &&
             old(store.FindByUsername(JavaTrim(req.value.username.value))).None?) ==>
      store.usuarios == old(store.usuarios) +
        [User(old(store.nextId), JavaTrim(req.value.username.value), encode(req.value.password.value), req.value.nombre, req.value.email)] &&
      store.nextId == old(store.nextId) + 1 &&
      r == ConToken(authenticate(store.usuarios, req.value.username.value, req.value.password.value), generateToken)
  {
    if req.None? || !Completa(req.value.username, req.value.password) {
      return Err(BadRequest(DatosIncompletos));
    }
    var q := req.value;
    var nombre := q.username.value;
    if store.FindByUsername(nombre).Some? {
      return Err(BadRequest(NombreEnUso));
    }
    var guardado := store.Insert(JavaTrim(nombre), encode(q.password.value), q.nombre, q.email);
    if guardado.Err? {
      return Err(guardado.error);
    }
    r := ConToken(authenticate(store.usuarios, nombre, q.password.value), generateToken);
  }

  /**
   * `login`: incomplete data, then an unknown user, both before any
   * authentication; every authentication failure becomes unauthorized.
   */
  function Login(
    store: UserStore,
    req: Option<LoginRequest>,
    authenticate: (seq<User>, string, string) -> Result<string>,
    generateToken: string -> string)
    : (r: Result<AuthResponse>)
    reads store
    ensures req.None? || !Completa(req.value.username, req.value.password) ==> r == Err(BadRequest(DatosIncompletos))
    ensures req.Some? && Completa(req.value.username, req.value.password) ==>
      var nombre := req.value.username.value;
      (store.FindByUsername(nombre).None? ==> r == Err(ResourceNotFound("Usuario no encontrado"))) &&
      (store.FindByUsername(nombre).Some? ==>
        (r.Err? <==> authenticate(store.usuarios, nombre, req.value.password.value).Err?) &&
        (r.Err? ==> r.error == Unauthorized(CredencialesInvalidas)) &&
        (r.Ok? ==> r.value.token == generateToken(authenticate(store.usuarios, nombre, req.value.password.value).value)))
    ensures r.Err? ==> r.error in {BadRequest(DatosIncompletos), ResourceNotFound("Usuario no encontrado"), Unauthorized(CredencialesInvalidas)}
  {
    if req.None? || !Completa(req.value.username, req.value.password) then Err(BadRequest(DatosIncompletos))
    else
      var nombre := req.value.username.value;
      if store.FindByUsername(nombre).None? then Err(ResourceNotFound("Usuario no encontrado"))
      else match authenticate(store.usuarios, nombre, req.value.password.value)
        case Err(_) => Err(Unauthorized(CredencialesInvalidas))
        case Ok(principal) => Ok(AuthResponse(generateToken(principal)))
  }

  /**
   * The authentication manager over the user table: the user is loaded by
   * the exact name given and the password must match its encoding; an
   * unknown name and a wrong password are both bad credentials.  The
   * principal's name is the stored username.
   */
  function AutenticarEnTabla(usuarios: seq<User>, username: string, password: string, matches: (string, string) -> bool)
    : (r: Result<string>)
    ensures r.Ok? ==> r.value == username
    ensures r.Err? ==> r.error == BadCredentials
    ensures (forall k :: 0 <= k < |usuarios| ==> usuarios[k].username != username) ==> r == Err(BadCredentials)
  {
    match FindFirst(usuarios, (u: User) => u.username == username)
    case None => Err(BadCredentials)
    case Some(u) => if matches(password, u.password) then Ok(u.username) else Err(BadCredentials)
  }

  /** A user appended under a name no other user has is the one the table-backed manager loads for that name. */
  lemma AutenticaAlNuevo(usuarios: seq<User>, nuevo: User, password: string, matches: (string, string) -> bool)
    requires forall k :: 0 <= k < |usuarios| ==> usuarios[k].username != nuevo.username
    requires matches(password, nuevo.password)
    ensures AutenticarEnTabla(usuarios + [nuevo], nuevo.username, password, matches) == Ok(nuevo.username)
  {
    var t := usuarios + [nuevo];
    var f := FindFirst(t, (u: User) => u.username == nuevo.username);
    assert t[|usuarios|].username == nuevo.username;
    assert f.Some?;
    var k :| 0 <= k < |t| && t[k] == f.value;
    if k < |usuarios| {
      assert t[k] == usuarios[k];
    }
    assert f.value == nuevo;
  }

  /**
   * The duplicate check looks up the name as sent, the save stores it
   * trimmed: a name with surrounding blanks is never the name stored.
   */
  lemma RellenoNoEsElNombreGuardado(s: string)
    requires |s| > 0 && (IsJavaTrimSpace(s[0]) || IsJavaTrimSpace(s[|s| - 1]))
    ensures JavaTrim(s) != s
  {
    var r := JavaTrim(s);
    assert r == [] || (!IsJavaTrimSpace(r[0]) && !IsJavaTrimSpace(r[|r| - 1]));
  }

  /** " ana" passes the duplicate check of a table holding "ana", and its save then clashes with that user. */
  lemma RellenoPasaElChequeo(store: UserStore)
    requires store.usuarios == [User(0, "ana", "x", None, None)]
    ensures store.FindByUsername(" ana").None?
    ensures store.FindByUsername(JavaTrim(" ana")).Some?
  {
    assert " ana"[1..] == "ana";
    assert DropLeading("ana", IsJavaTrimSpace) == "ana";
    assert DropLeading(" ana", IsJavaTrimSpace) == "ana";
    assert DropTrailing("ana", IsJavaTrimSpace) == "ana";
    assert store.usuarios[0].username == "ana" != " ana";
  }

  /**
   * As written, a padded name that is new even once trimmed gets saved
   * trimmed, and the authentication that follows, still under the padded
   * name, finds no such user: registration fails although the user stays.
   */
  lemma RegistroConRellenoNoAutentica(
    usuarios: seq<User>, nuevo: User, sinRecortar: string, password: string, matches: (string, string) -> bool)
    requires |sinRecortar| > 0 && (IsJavaTrimSpace(sinRecortar[0]) || IsJavaTrimSpace(sinRecortar[|sinRecortar| - 1]))
    requires forall k :: 0 <= k < |usuarios| ==> usuarios[k].username != sinRecortar
    requires nuevo.username == JavaTrim(sinRecortar)
    ensures AutenticarEnTabla(usuarios + [nuevo], sinRecortar, password, matches) == Err(BadCredentials)
  {
    RellenoNoEsElNombreGuardado(sinRecortar);
    var t := usuarios + [nuevo];
    forall k | 0 <= k < |t| ensures t[k].username != sinRecortar {
      if k < |usuarios| {
        assert t[k] == usuarios[k];
      }
    }
  }

  /** ... and logging in afterwards with the name as registered answers that the user does not exist. */
  lemma LoginConRellenoNoEncuentra(
    store: UserStore, usuarios: seq<User>, nuevo: User, sinRecortar: string, password: string,
    authenticate: (seq<User>, string, string) -> Result<string>, generateToken: string -> string)
    requires |sinRecortar| > 0 && (IsJavaTrimSpace(sinRecortar[0]) || IsJavaTrimSpace(sinRecortar[|sinRecortar| - 1]))
    requires forall k :: 0 <= k < |usuarios| ==> usuarios[k].username != sinRecortar
    requires nuevo.username == JavaTrim(sinRecortar)
    requires store.usuarios == usuarios + [nuevo]
    requires HasText(Some(sinRecortar)) && HasText(Some(password))
    ensures Login(store, Some(LoginRequest(Some(sinRecortar), Some(password))), authenticate, generateToken) ==
      Err(ResourceNotFound("Usuario no encontrado"))
  {
    RellenoNoEsElNombreGuardado(sinRecortar);
    var t := store.usuarios;
    forall k | 0 <= k < |t| ensures t[k].username != sinRecortar {
      if k < |usuarios| {
        assert t[k] == usuarios[k];
      }
    }
  }

  /**
   * `register` with the name trimmed once and that trimmed name used for
   * the duplicate check, the save and the authentication.
   */
  method RegisterCorregido(
    store: UserStore,
    req: Option<RegisterRequest>,
    encode: string -> string,
    authenticate: (seq<User>, string, string) -> Result<string>,
    generateToken: string -> string)
    returns (r: Result<AuthResponse>)
    requires store.Valid()
    modifies store
    ensures store.Valid()
    ensures req.None? || !Completa(req.value.username, req.value.password) ==>
      r == Err(BadRequest(DatosIncompletos)) && store.usuarios == old(store.usuarios) && store.nextId == old(store.nextId)
    ensures (req.Some? && Completa(req.value.username, req.value.password) &&
             old(store.FindByUsername(JavaTrim(req.value.username.value))).Some?) ==>
      r == Err(BadRequest(NombreEnUso)) && store.usuarios == old(store.usuarios) && store.nextId == old(store.nextId)
    ensures (req.Some? && Completa(req.value.username, req.value.password) &&
             old(store.FindByUsername(JavaTrim(req.value.username.value))).None?) ==>
      store.usuarios == old(store.usuarios) +
        [User(old(store.nextId), JavaTrim(req.value.username.value), encode(req.value.password.value), req.value.nombre, req.value.email)] &&
      store.nextId == old(store.nextId) + 1 &&
      r == ConToken(authenticate(store.usuarios, JavaTrim(req.value.username.value), req.value.password.value), generateToken)
  {
    if req.None? || !Completa(req.value.username, req.value.password) {
      return Err(BadRequest(DatosIncompletos));
    }
    var q := req.value;
    var nombre := JavaTrim(q.username.value);
    if store.FindByUsername(nombre).Some? {
      return Err(BadRequest(NombreEnUso));
    }
    var guardado := store.Insert(nombre, encode(q.password.value), q.nombre, q.email);
    r := ConToken(authenticate(store.usuarios, nombre, q.password.value), generateToken);
  }

  /**
   * Corrected, a registration that gets past the duplicate check always
   * authenticates the user it has just saved, whenever the encoder's
   * output matches its input.
   */
  lemma RegistroCorregidoAutentica(
    usuarios: seq<User>, nextId: nat, sinRecortar: string, password: string, nombre: Option<string>, email: Option<string>,
    encode: string -> string, matches: (string, string) -> bool, generateToken: string -> string)
    requires forall k :: 0 <= k < |usuarios| ==> usuarios[k].username != JavaTrim(sinRecortar)
    requires matches(password, encode(password))
    ensures ConToken(AutenticarEnTabla(usuarios + [User(nextId, JavaTrim(sinRecortar), encode(password), nombre, email)],
                                       JavaTrim(sinRecortar), password, matches), generateToken)
      == Ok(AuthResponse(generateToken(JavaTrim(sinRecortar))))
  {
    AutenticaAlNuevo(usuarios, User(nextId, JavaTrim(sinRecortar), encode(password), nombre, email), password, matches);
  }

  /**
   * `hasText` and `trim` disagree on what is blank: a lone NUL character
   * counts as text, yet trimming it leaves the empty name.
   */
  lemma NulEsTextoPeroSeRecorta()
    ensures HasText(Some(['\0']))
    ensures JavaTrim(['\0']) == []
  {
    assert !IsJavaWhitespace(['\0'][0]);
    TrimEmptyIffAllSpace(['\0'], IsJavaTrimSpace);
  }
}
