/**
 * The persistent entities of the habit tracker (users, habits, progress
 * records, achievements, notification settings) as plain values, and the
 * in-memory stores that stand for their relational tables.  A reference to
 * another entity is held as that entity's id; a nullable column that the code
 * can leave null is an Option (the achievement columns are nullable, but the
 * service always fills them).  Dates are day numbers (days since 1970-01-01,
 * as `LocalDate.toEpochDay`).
 */
module Model {
  import opened Common

  /** A registered account (table `usuarios`); `password` holds the encoded password. */
  datatype User = User(id: nat, username: string, password: string, nombre: Option<string>, email: Option<string>)

  /** A habit (table `habitos`); `usuario` is the owner's id, `hora` the time-of-day text. */
  datatype Habit = Habit(
    id: nat,
    nombre: Option<string>,
    categoria: Option<string>,
    frecuencia: Option<string>,
    hora: Option<string>,
    descripcion: Option<string>,
    fechaObjetivo: Option<int>,
    usuario: Option<nat>)

  /**
   * One day's record for one habit (table `progreso`).  The date column is
   * nullable and the request does not validate it, so a record can have no
   * date.
   */
  datatype Progress = Progress(id: nat, habito: nat, fecha: Option<int>, cumplido: bool)

  /** A granted achievement (table `logros`); the generated row id is not modelled. */
  datatype Achievement = Achievement(nombre: string, descripcion: string, usuario: nat)

  /** A user's notification switches (table `config_notificaciones`). */
  datatype NotificationSettings = NotificationSettings(
    id: nat,
    usuario: nat,
    habit: Option<nat>,
    emailEnabled: bool,
    pushEnabled: bool,
    smsEnabled: bool,
    notificationTime: Option<string>)

  /** No two progress records share a (habit, date) pair: the upsert's invariant. */
  predicate OnePerDay(ps: seq<Progress>) {
    forall i, j :: 0 <= i < j < |ps| ==> !(ps[i].habito == ps[j].habito && ps[i].fecha == ps[j].fecha)
  }

  /** No user holds two achievements of the same name. */
  predicate UniqueAchievements(ls: seq<Achievement>) {
    forall i, j :: 0 <= i < j < |ls| ==> !(ls[i].usuario == ls[j].usuario && ls[i].nombre == ls[j].nombre)
  }

  predicate UniqueHabitIds(hs: seq<Habit>) {
    forall i, j :: 0 <= i < j < |hs| ==> hs[i].id != hs[j].id
  }

  /** The habits of `hs` owned by the user, in order. */
  function HabitosDe(hs: seq<Habit>, userId: nat): (r: seq<Habit>)
    ensures |r| <= |hs|
    ensures forall h :: h in r <==> h in hs && h.usuario == Some(userId)
    ensures UniqueHabitIds(hs) ==> UniqueHabitIds(r)
  {
    if hs == [] then []
    else
      var resto := HabitosDe(hs[1..], userId);
      UnicosSinCabeza(hs, resto);
      if hs[0].usuario == Some(userId) then [hs[0]] + resto else resto
  }

  /**
   * With distinct ids, the tail keeps them distinct, and any choice `resto`
   * among the tail's habits keeps them distinct with the head put back in front.
   */
  lemma UnicosSinCabeza(hs: seq<Habit>, resto: seq<Habit>)
    requires hs != []
    requires UniqueHabitIds(hs[1..]) ==> UniqueHabitIds(resto)
    requires forall h :: h in resto ==> h in hs[1..]
    ensures UniqueHabitIds(hs) ==> UniqueHabitIds(hs[1..]) && UniqueHabitIds(resto) && UniqueHabitIds([hs[0]] + resto)
  {
    if UniqueHabitIds(hs) {
      assert UniqueHabitIds(hs[1..]) by {
        forall i, j | 0 <= i < j < |hs| - 1 ensures hs[1..][i].id != hs[1..][j].id {
          assert hs[1..][i] == hs[i + 1] && hs[1..][j] == hs[j + 1];
        }
      }
      forall i, j | 0 <= i < j < |resto| + 1 ensures ([hs[0]] + resto)[i].id != ([hs[0]] + resto)[j].id {
        if i == 0 {
          assert resto[j - 1] in resto;
          var k :| 0 <= k < |hs[1..]| && hs[1..][k] == resto[j - 1];
          assert hs[k + 1] == resto[j - 1];
        } else {
          assert ([hs[0]] + resto)[i] == resto[i - 1] && ([hs[0]] + resto)[j] == resto[j - 1];
        }
      }
    }
  }

  // ---------------------------------------------------------------------------
  // The stores.  Each holds its table as a sequence in insertion order and the
  // next generated id; Valid() states the table's constraints.

  class UserStore {
    var usuarios: seq<User>
    var nextId: nat

    /** Generated ids are below `nextId` and distinct; `username` is a unique column. */
    ghost predicate Valid()
      reads this
    {
      (forall i :: 0 <= i < |usuarios| ==> usuarios[i].id < nextId) &&
      (forall i, j :: 0 <= i < j < |usuarios| ==>
        usuarios[i].id != usuarios[j].id && usuarios[i].username != usuarios[j].username)
    }

    constructor ()
      ensures Valid() && usuarios == [] && nextId == 0
    {
      usuarios := [];
      nextId := 0;
    }

    /** `findByUsername`. */
    function FindByUsername(username: string): (r: Option<User>)
      reads this
      ensures r.Some? ==> r.value in usuarios && r.value.username == username
      ensures r.None? <==> forall k :: 0 <= k < |usuarios| ==> usuarios[k].username != username
    {
      FindFirst(usuarios, (u: User) => u.username == username)
    }

    /** `findById`. */
    function FindById(id: int): (r: Option<User>)
      reads this
      ensures r.Some? ==> r.value in usuarios && r.value.id == id
      ensures r.None? <==> forall k :: 0 <= k < |usuarios| ==> usuarios[k].id != id
    {
      FindFirst(usuarios, (u: User) => u.id == id)
    }

    /**
     * `save` of a new user: the database assigns the next id; a username that is
     * already taken violates the unique column and nothing is stored.
     */
    method Insert(username: string, password: string, nombre: Option<string>, email: Option<string>)
      returns (r: Result<User>)
      requires Valid()
      modifies this
      ensures Valid()
      ensures old(FindByUsername(username)).Some? ==>
        r == Err(DataIntegrityViolation) && usuarios == old(usuarios) && nextId == old(nextId)
      ensures old(FindByUsername(username)).None? ==>
        r == Ok(User(old(nextId), username, password, nombre, email)) &&
        usuarios == old(usuarios) + [r.value] && nextId == old(nextId) + 1
    {
      if FindByUsername(username).Some? {
        return Err(DataIntegrityViolation);
      }
      var u := User(nextId, username, password, nombre, email);
      usuarios := usuarios + [u];
      nextId := nextId + 1;
      r := Ok(u);
    }
  }

  class HabitStore {
    var habitos: seq<Habit>
    var nextId: nat

    ghost predicate Valid()
      reads this
    {
      (forall i :: 0 <= i < |habitos| ==> habitos[i].id < nextId) && UniqueHabitIds(habitos)
    }

    constructor ()
      ensures Valid() && habitos == [] && nextId == 0
    {
      habitos := [];
      nextId := 0;
    }

    /** `findById`. */
    function FindById(id: int): (r: Option<Habit>)
      reads this
      ensures r.Some? ==> r.value in habitos && r.value.id == id
      ensures r.None? <==> forall k :: 0 <= k < |habitos| ==> habitos[k].id != id
    {
      FindFirst(habitos, (h: Habit) => h.id == id)
    }

    /** `findByUsuario`: the habits the user owns, in table order. */
    function FindByUsuario(userId: nat): (r: seq<Habit>)
      reads this
      ensures forall h :: h in r <==> h in habitos && h.usuario == Some(userId)
      ensures UniqueHabitIds(habitos) ==> UniqueHabitIds(r)
    {
      HabitosDe(habitos, userId)
    }
  }

  class ProgressStore {
    var progresos: seq<Progress>
    var nextId: nat

    ghost predicate Valid()
      reads this
    {
      (forall i :: 0 <= i < |progresos| ==> progresos[i].id < nextId) &&
      (forall i, j :: 0 <= i < j < |progresos| ==> progresos[i].id != progresos[j].id) &&
      OnePerDay(progresos)
    }

    constructor ()
      ensures Valid() && progresos == [] && nextId == 0
    {
      progresos := [];
      nextId := 0;
    }
  }

  class AchievementStore {
    var logros: seq<Achievement>

    constructor ()
      ensures logros == []
    {
      logros := [];
    }
  }

  /** The settings table's ids are distinct and below the next id to generate. */
  ghost predicate TablaValida(settings: seq<NotificationSettings>, nextId: nat) {
    (forall i :: 0 <= i < |settings| ==> settings[i].id < nextId) &&
    (forall i, j :: 0 <= i < j < |settings| ==> settings[i].id != settings[j].id)
  }

  class SettingsStore {
    var settings: seq<NotificationSettings>
    var nextId: nat

    ghost predicate Valid()
      reads this
    {
      TablaValida(settings, nextId)
    }

    constructor ()
      ensures Valid() && settings == [] && nextId == 0
    {
      settings := [];
      nextId := 0;
    }
  }

  /**
   * `findByUsuario_Id` of the settings table, an Optional-returning finder:
   * no row gives empty, one row gives it, two or more make the query fail.
   */
  function FindByUsuarioId(settings: seq<NotificationSettings>, userId: nat): (r: Result<Option<NotificationSettings>>)
    ensures r == Ok(None) <==> FilasDe(settings, userId) == 0
    ensures r.Ok? && r.value.Some? <==> FilasDe(settings, userId) == 1
    ensures r.Ok? && r.value.Some? ==> r.value.value in settings && r.value.value.usuario == userId
    ensures r.Err? <==> FilasDe(settings, userId) >= 2
    ensures r.Err? ==> r.error == NonUniqueResult
  {
    var n := FilasDe(settings, userId);
    if n == 0 then Ok(None)
    else if n >= 2 then Err(NonUniqueResult)
    else
      var f := FindFirst(settings, (c: NotificationSettings) => c.usuario == userId);
      assert f.Some?;
      Ok(f)
  }

  /** How many settings rows belong to the user. */
  function FilasDe(settings: seq<NotificationSettings>, usuario: nat): nat {
    Count(settings, (c: NotificationSettings) => c.usuario == usuario)
  }

  /** With one row for the user, every row of the user is that row. */
  lemma {:induction false} FilaUnica(settings: seq<NotificationSettings>, usuario: nat, x: NotificationSettings, y: NotificationSettings)
    requires FilasDe(settings, usuario) == 1
    requires x in settings && x.usuario == usuario && y in settings && y.usuario == usuario
    ensures x == y
  {
    assert settings == [settings[0]] + settings[1..];
    if settings[0].usuario != usuario {
      FilaUnica(settings[1..], usuario, x, y);
    }
  }
}
