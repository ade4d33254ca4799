/**
 * The browser-side account list of the static client: registration with
 * unique usernames and emails, login by exact username and password, and
 * the checks the two forms make before calling them.  The list is what the
 * browser's local storage holds; reading and writing that storage, the
 * clock that makes ids and dates, and the page's DOM are left to the caller.
 */
module ClientAuth {
  import opened Common

  /** A thrown `Error` carries only its message. */
  datatype Resultado<+T> = Hecho(valor: T) | Fallo(mensaje: string)

  /** The notification switches the settings dialog stores on the user. */
  datatype ConfiguracionCliente = ConfiguracionCliente(notificacionesEmail: bool, notificacionesPush: bool, recordatorios: bool)

  /**
   * A stored account.  `avatar` is None when the settings dialog has copied
   * an undefined avatar over it; `configuracion` is None until that dialog
   * is first saved.
   */
  datatype UsuarioCliente = UsuarioCliente(
    id: string,
    username: string,
    email: string,
    password: string,
    avatar: Option<string>,
    fechaRegistro: string,
    configuracion: Option<ConfiguracionCliente>)

  const AvatarPorDefecto := "ardilla.png"
  const YaRegistrado := "El usuario o email ya está registrado"
  const Incorrectos := "Usuario o contraseña incorrectos"
  const CompletaCampos := "Por favor completa todos los campos"
  const UsuarioCorto := "El usuario debe tener al menos 3 caracteres"
  const ContrasenaCorta := "La contraseña debe tener al menos 6 caracteres"

  class AuthManager {
    var users: seq<UsuarioCliente>

    /** No two accounts share a username, and no two share an email. */
    ghost predicate Valid()
      reads this
    {
      forall i, j :: 0 <= i < j < |users| ==> users[i].username != users[j].username && users[i].email != users[j].email
    }

    /** The manager over the accounts found in storage. */
    constructor (guardados: seq<UsuarioCliente>)
      ensures users == guardados
    {
      users := guardados;
    }

    /**
     * `register`: an account with the same username or the same email
     * refuses it and nothing changes; otherwise exactly one account is
     * appended, with the given fields and the default avatar when none is
     * passed.  `id` and `fechaRegistro` are what the clock gives.
     */
    method Register(username: string, email: string, password: string, avatar: Option<string>, id: string, fechaRegistro: string)
      returns (r: Resultado<UsuarioCliente>)
      modifies this
      ensures old(Valid()) ==> Valid()
      ensures (exists k :: 0 <= k < |old(users)| && (old(users)[k].username == username || old(users)[k].email == email)) ==>
        r == Fallo(YaRegistrado) && users == old(users)
      ensures (forall k :: 0 <= k < |old(users)| ==> old(users)[k].username != username && old(users)[k].email != email) ==>
        r == Hecho(UsuarioCliente(id, username, email, password,
                                  Some(if avatar.Some? then avatar.value else AvatarPorDefecto), fechaRegistro, None)) &&
        users == old(users) + [r.valor]
    {
      var existente := FindFirst(users, (u: UsuarioCliente) => u.username == username || u.email == email);
      if existente.Some? {
        return Fallo(YaRegistrado);
      }
      var nuevo := UsuarioCliente(id, username, email, password,
                                  Some(if avatar.Some? then avatar.value else AvatarPorDefecto), fechaRegistro, None);
      users := users + [nuevo];
      r := Hecho(nuevo);
    }

    /** `login`: the first account whose username and password both match, or an error. */
    function Login(username: string, password: string): (r: Resultado<UsuarioCliente>)
      reads this
      ensures r.Hecho? ==> r.valor in users && r.valor.username == username && r.valor.password == password
      ensures r.Fallo? <==> forall k :: 0 <= k < |users| ==> !(users[k].username == username && users[k].password == password)
      ensures r.Fallo? ==> r.mensaje == Incorrectos
    {
      match FindFirst(users, (u: UsuarioCliente) => u.username == username && u.password == password)
      case None => Fallo(Incorrectos)
      case Some(u) => Hecho(u)
    }
  }

  /**
   * After a registration that appended `nuevo`, logging in with its username
   * and password returns that very account: no earlier account has its
   * username.
   */
  lemma RegistroLuegoLogin(m: AuthManager, antes: seq<UsuarioCliente>, nuevo: UsuarioCliente)
    requires m.users == antes + [nuevo]
    requires forall k :: 0 <= k < |antes| ==> antes[k].username != nuevo.username
    ensures m.Login(nuevo.username, nuevo.password) == Hecho(nuevo)
  {
    var r := m.Login(nuevo.username, nuevo.password);
    assert m.users[|antes|] == nuevo;
    assert r.Hecho?;
    var k :| 0 <= k < |m.users| && m.users[k] == r.valor;
    if k < |antes| {
      assert m.users[k] == antes[k];
    }
  }

  // ---------------------------------------------------------------------------
  // The two forms

  /** The registration form's fields once accepted. */
  datatype FormularioRegistro = FormularioRegistro(username: string, email: string, password: string, avatar: string)

  /**
   * The registration form's checks, in order: every field trimmed, none
   * empty; the username at least 3 UTF-16 units long; the password at least
   * 6.  An empty avatar choice becomes the default one.
   */
  function ValidarRegistro(usernameCampo: string, emailCampo: string, passwordCampo: string, avatarCampo: string)
    : (r: Resultado<FormularioRegistro>)
    ensures r.Fallo? && r.mensaje == CompletaCampos <==>
      JsTrim(usernameCampo) == [] || JsTrim(emailCampo) == [] || JsTrim(passwordCampo) == []
    ensures r.Hecho? <==>
      JsTrim(emailCampo) != [] && Utf16Length(JsTrim(usernameCampo)) >= 3 && Utf16Length(JsTrim(passwordCampo)) >= 6
    ensures r.Fallo? && r.mensaje == UsuarioCorto <==>
      JsTrim(emailCampo) != [] && JsTrim(passwordCampo) != [] && 0 < |JsTrim(usernameCampo)| && Utf16Length(JsTrim(usernameCampo)) < 3
    ensures r.Fallo? && r.mensaje == ContrasenaCorta <==>
      JsTrim(usernameCampo) != [] && JsTrim(emailCampo) != [] && Utf16Length(JsTrim(usernameCampo)) >= 3 &&
      0 < |JsTrim(passwordCampo)| && Utf16Length(JsTrim(passwordCampo)) < 6
    ensures r.Hecho? ==>
      r.valor.username == JsTrim(usernameCampo) && r.valor.email == JsTrim(emailCampo) &&
      r.valor.password == JsTrim(passwordCampo) && r.valor.avatar != [] &&
      (avatarCampo != [] ==> r.valor.avatar == avatarCampo)
  {
    var username := JsTrim(usernameCampo);
    var email := JsTrim(emailCampo);
    var password := JsTrim(passwordCampo);
    if username == [] || email == [] || password == [] then Fallo(CompletaCampos)
    else if Utf16Length(username) < 3 then Fallo(UsuarioCorto)
    else if Utf16Length(password) < 6 then Fallo(ContrasenaCorta)
    else Hecho(FormularioRegistro(username, email, password, if avatarCampo != [] then avatarCampo else AvatarPorDefecto))
  }

  /**
   * Submitting the registration form: a failed check shows its message and
   * touches nothing; otherwise `register` runs on the accepted fields and its
   * error, if any, is the message shown.  The account returned becomes the
   * current user.
   */
  method EnviarRegistro(
    m: AuthManager, usernameCampo: string, emailCampo: string, passwordCampo: string, avatarCampo: string,
    id: string, fechaRegistro: string)
    returns (r: Resultado<UsuarioCliente>)
    modifies m
    ensures old(m.Valid()) ==> m.Valid()
    ensures match ValidarRegistro(usernameCampo, emailCampo, passwordCampo, avatarCampo)
      case Fallo(mensaje) => r == Fallo(mensaje) && m.users == old(m.users)
      case Hecho(f) =>
        if exists k :: 0 <= k < |old(m.users)| && (old(m.users)[k].username == f.username || old(m.users)[k].email == f.email)
        then r == Fallo(YaRegistrado) && m.users == old(m.users)
        else (r == Hecho(UsuarioCliente(id, f.username, f.email, f.password, Some(f.avatar), fechaRegistro, None)) &&
              m.users == old(m.users) + [r.valor])
  {
    var f := ValidarRegistro(usernameCampo, emailCampo, passwordCampo, avatarCampo);
    if f.Fallo? {
      return Fallo(f.mensaje);
    }
    r := m.Register(f.valor.username, f.valor.email, f.valor.password, Some(f.valor.avatar), id, fechaRegistro);
  }

  /** Submitting the login form: both fields trimmed and non-empty, then `login`. */
  function EnviarLogin(m: AuthManager, usernameCampo: string, passwordCampo: string): (r: Resultado<UsuarioCliente>)
    reads m
    ensures JsTrim(usernameCampo) == [] || JsTrim(passwordCampo) == [] ==> r == Fallo(CompletaCampos)
    ensures r.Hecho? ==> r.valor in m.users && r.valor.username == JsTrim(usernameCampo) && r.valor.password == JsTrim(passwordCampo)
    ensures r.Hecho? <==>
      JsTrim(usernameCampo) != [] && JsTrim(passwordCampo) != [] &&
      exists k :: 0 <= k < |m.users| && m.users[k].username == JsTrim(usernameCampo) && m.users[k].password == JsTrim(passwordCampo)
    ensures JsTrim(usernameCampo) != [] && JsTrim(passwordCampo) != [] && r.Fallo? ==> r.mensaje == Incorrectos
  {
    var username := JsTrim(usernameCampo);
    var password := JsTrim(passwordCampo);
    if username == [] || password == [] then Fallo(CompletaCampos)
    else m.Login(username, password)
  }

  /**
   * Whatever the registration form accepted, typing the same username and
   * password into the login form afterwards logs into the account it created.
   */
  lemma FormularioRegistroLuegoLogin(
    m: AuthManager, antes: seq<UsuarioCliente>, nuevo: UsuarioCliente,
    usernameCampo: string, emailCampo: string, passwordCampo: string, avatarCampo: string)
    requires ValidarRegistro(usernameCampo, emailCampo, passwordCampo, avatarCampo).Hecho?
    requires nuevo.username == JsTrim(usernameCampo) && nuevo.password == JsTrim(passwordCampo)
    requires m.users == antes + [nuevo]
    requires forall k :: 0 <= k < |antes| ==> antes[k].username != nuevo.username
    ensures EnviarLogin(m, usernameCampo, passwordCampo) == Hecho(nuevo)
  {
    assert Utf16Length(nuevo.username) >= 3 && Utf16Length(nuevo.password) >= 6;
    RegistroLuegoLogin(m, antes, nuevo);
  }
}
