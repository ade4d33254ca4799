# Kaizen habit tracker — verified model of its business rules

Kaizen is a habit tracker. It has a Spring back end (users, habits, daily progress records, achievements, notification settings) and a vanilla-JavaScript front end that keeps its own copy of users and habits in the browser. This project models in Dafny the components that hold decisions:

- **the achievement rule engine**: fulfilled total, current streak capped at 7, four named achievements each guarded by an existence check;
- **the notification matcher**: a per-habit decision chain, the `java.time` ISO_LOCAL_TIME parser, an exact match against the clock truncated to the minute, and per-habit failure isolation;
- **the progress store and its aggregations**: upsert by (habit, date), delete by id, daily, detailed, weekly (Monday to Sunday) and monthly figures;
- **habit create/update/delete**: a null-coalescing merge, except `fechaObjetivo`, which is always overwritten;
- **notification settings and the HTTP answers of their controller**;
- **registration and login decision logic** in `AuthService` and `UserService`;
- **the browser-side stores**: `AuthManager` and its two forms in `auth.js`; `GestorUsuario`, toggling, statistics, the planner grouping, frequency text and the settings dialog in `dashboard.js`.

How the model is built:

- Each JPA repository is a class holding a `seq` of records plus the next identity value (`Model.UserStore`, `HabitStore`, `ProgressStore`, `AchievementStore`, `SettingsStore`).
- Services are methods that modify only the stores they write. Read-only operations are functions that `reads` the stores.
- Exceptions are the `Err` side of a `Result`.
- The clock, the password encoder, the authentication manager and the JWT generator are parameters.
- Dates are day numbers with a Gregorian calendar; a progress record's date is an `Option`, because the column is nullable and the request does not require it. Times of day are (second of day, nano).
- Percentages are exact fractions. JavaScript's `Math.round(c / t * 100)` is exact round-half-up.

Modules:

- `common.dfy` — Option/Result, the exception kinds and their messages, Java and JavaScript trimming, searches and filters over sequences.
- `model.dfy` — entities and the in-memory stores.
- `calendar.dfy`, `local_time.dfy` — the parts of `java.time` the services use.
- One file per core source file. `client_auth.dfy` and `client_dashboard.dfy` are the two browser scripts.

## Model

Each row names the member whose contract states the property.

| member | source | states |
|---|---|---|
| Common.JavaTrim | kaizen/src/main/java/com/habits/habittracker/service/AuthService.java:51-51 | `String.trim`: the result is empty or starts and ends with a character above U+0020, and is no longer than the input |
| Common.JsTrim | src/main/resources/static/js/auth.js:121-124 | `String.prototype.trim`: the result is empty or starts and ends with a non-whitespace character, and is no longer than the input |
| Common.TrimEmptyIffAllSpace | src/main/resources/static/js/auth.js:127-130 | a field trims to empty exactly when every character of it is whitespace |
| Common.Message | kaizen/src/main/java/com/habits/habittracker/exception/UserNotFoundException.java:4-5 | a user-not-found error reads "Usuario con ID <id> no encontrado." |
| Common.FindFirst | src/main/resources/static/js/auth.js:20-20 | `find`: None exactly when no element matches; otherwise the first matching element |
| Common.FirstIndex | src/main/resources/static/js/dashboard.js:83-83 | `findIndex`: None exactly when no element matches; otherwise the index of the first match |
| Common.Filter | src/main/resources/static/js/dashboard.js:93-93 | `filter`: an element is kept exactly when it satisfies the predicate, and the result is no longer than the input |
| Model.UserStore.Insert | kaizen/src/main/java/com/habits/habittracker/model/User.java:27-28 | the unique username column: a taken name is a data-integrity violation and nothing changes; otherwise one user with the next id is appended |
| Model.UserStore.FindByUsername | kaizen/src/main/java/com/habits/habittracker/service/UserService.java:42-44 | a found user is stored under that name; None exactly when no stored user has it |
| Model.HabitStore.FindById | kaizen/src/main/java/com/habits/habittracker/service/HabitService.java:39-41 | a found habit is stored with that id; None exactly when no stored habit has it |
| Model.HabitStore.FindByUsuario | kaizen/src/main/java/com/habits/habittracker/service/HabitService.java:35-37 | exactly the habits owned by the user; distinct ids stay distinct |
| Model.FindByUsuarioId | kaizen/src/main/java/com/habits/habittracker/repository/NotificationSettingsRepository.java:14-14 | the `Optional` lookup: empty with no row for the user, that row with one, a non-unique-result error with two or more |
| Model.FilaUnica | kaizen/src/main/java/com/habits/habittracker/repository/NotificationSettingsRepository.java:14-14 | with exactly one row for the user, any two rows of that user are the same row |
| Calendar.LargoDelMes | kaizen/src/main/java/com/habits/habittracker/service/ProgressService.java:135-136 | `lengthOfMonth`: between 28 and 31, and 29 exactly for February of a leap year |
| Calendar.DiasDelMesConsecutivos | kaizen/src/main/java/com/habits/habittracker/service/ProgressService.java:135-136 | the days of a month have consecutive day numbers from its first day |
| Calendar.FinDeMesSiguePrimero | kaizen/src/main/java/com/habits/habittracker/service/ProgressService.java:135-136 | the day after a month's last day is the first of the next month, across year ends and leap Februaries |
| Calendar.DiaDeLaSemana | kaizen/src/main/java/com/habits/habittracker/service/ProgressService.java:113-113 | the ISO weekday is between 1 (Monday) and 7 |
| Calendar.DiaSiguiente | kaizen/src/main/java/com/habits/habittracker/service/ProgressService.java:113-113 | the weekday advances by one each day and wraps from Sunday to Monday |
| Calendar.InicioSemana | kaizen/src/main/java/com/habits/habittracker/service/ProgressService.java:113-114 | the week start is a Monday, at most six days before today |
| Calendar.EpocaEsJueves | kaizen/src/main/java/com/habits/habittracker/service/ProgressService.java:113-113 | 1970-01-01 is day 0 and a Thursday, anchoring day numbers to the real calendar |
| LocalTime.Of | kaizen/src/main/java/com/habits/habittracker/service/MessageService.java:184-186 | `LocalTime.of(h, m)` is a valid time with that hour and minute and zero seconds |
| LocalTime.Truncar | kaizen/src/main/java/com/habits/habittracker/service/MessageService.java:184-186 | `withSecond(0).withNano(0)` keeps hour and minute, zeroes seconds and nanos, and lies in the same minute as the input |
| LocalTime.ParseIsoLocalTime | kaizen/src/main/java/com/habits/habittracker/service/MessageService.java:138-141 | `LocalTime.parse`: a result is a valid time, and the text starts with two-digit `hh:mm` followed by an optional `:ss` and an optional fraction of at most nine digits |
| LocalTime.ParseFormatoHoraMinuto | kaizen/src/main/java/com/habits/habittracker/service/MessageService.java:138-141 | every zero-padded `hh:mm` text parses to that hour and minute |
| LocalTime.ParseConSegundos | kaizen/src/main/java/com/habits/habittracker/service/MessageService.java:138-141 | a well-formed `hh:mm:ss` or `hh:mm:ss.` plus at most nine digits, fields in range, parses to that second of the day with the digits as nanoseconds |
| LocalTime.ParseFormatoConSegundos | kaizen/src/main/java/com/habits/habittracker/service/MessageService.java:138-141 | every zero-padded `hh:mm:ss` text, with or without a fraction, parses back to that hour, minute and second, the fraction read as nanoseconds |
| LocalTime.ParseCincoCaracteres | kaizen/src/main/java/com/habits/habittracker/service/MessageService.java:138-141 | a five-character text parses exactly when it is a zero-padded `hh:mm` with hour < 24 and minute < 60 |
| LocalTime.PatronDosDigitosIgualParser | kaizen/src/main/java/com/habits/habittracker/dto/request/HabitRequest.java:22-22 | on five-character texts, the request's `HH:mm` pattern and the parser accept exactly the same strings |
| LocalTime.PatronUnDigitoRechazado | kaizen/src/main/java/com/habits/habittracker/service/MessageService.java:138-151 | every four-character text, so every one-digit-hour time the pattern accepts, is rejected by the parser |
| LocalTime.OchoSinCero | kaizen/src/main/java/com/habits/habittracker/dto/request/HabitRequest.java:22-22 | "8:00" passes the request pattern but does not parse |
| LocalTime.SegundosNuncaCoinciden | kaizen/src/main/java/com/habits/habittracker/service/MessageService.java:121-121 | a time with non-zero seconds or nanos never equals a clock truncated to the minute |
| AchievementService.RachaDesdeCaracterizacion | kaizen/src/main/java/com/habits/habittracker/service/AchievementService.java:72-87 | counted from day `i`, the streak is the unique `r` with days `i..i+r-1` fulfilled, `i+r` ≤ 7, and, below the cap, day `i+r` not fulfilled |
| AchievementService.RachaCaracterizacion | kaizen/src/main/java/com/habits/habittracker/service/AchievementService.java:72-87 | the streak is exactly the number of consecutive days from today with a fulfilled record, stopping at the first day without one and capped at 7 |
| AchievementService.RegistroSinFecha | kaizen/src/main/java/com/habits/habittracker/service/AchievementService.java:37-80 | a record without a date adds to the fulfilled total when fulfilled but leaves the streak unchanged, since the date comparison is null-safe |
| AchievementService.CalcularRachaActual | kaizen/src/main/java/com/habits/habittracker/service/AchievementService.java:72-87 | the bounded loop with its `break` returns that streak |
| AchievementService.AsignarLogro | kaizen/src/main/java/com/habits/habittracker/service/AchievementService.java:64-70 | one row with the user, name and description is appended, and no existing row changes |
| AchievementService.OtorgarSiFalta | kaizen/src/main/java/com/habits/habittracker/service/AchievementService.java:43-61 | one guarded rule, the i-th: the rows appended so far grow from those the first i rules grant to those the first i+1 grant, so its row is added exactly when its threshold holds and the user does not hold the name |
| AchievementService.OtorgarReglas | kaizen/src/main/java/com/habits/habittracker/service/AchievementService.java:38-61 | the four rules in order, the streak computed after the first: the store gains exactly the rows the rule list grants for that total and that streak |
| AchievementService.VerificarYAsignarLogros | kaizen/src/main/java/com/habits/habittracker/service/AchievementService.java:30-62 | a null user is not-found and the store is untouched; otherwise exactly the granted rows are appended, computed from the total over every progress record and today's streak (the user's habit list plays no part) |
| AchievementService.DelUsuario | kaizen/src/main/java/com/habits/habittracker/service/AchievementService.java:89-94 | an achievement is in the result exactly when it is stored for that user |
| AchievementService.ObtenerLogrosPorUsuario | kaizen/src/main/java/com/habits/habittracker/service/AchievementService.java:89-94 | a null user is not-found; otherwise exactly the user's rows, as many as the store holds for the user |
| AchievementService.OtorgadosPorAppend | kaizen/src/main/java/com/habits/habittracker/service/AchievementService.java:43-61 | running a list of rules is running its first part, then the rest, each checked against the starting rows |
| AchievementService.NombresDistintos | kaizen/src/main/java/com/habits/habittracker/service/AchievementService.java:43-61 | the four achievement names are pairwise distinct, in the fixed rule order |
| AchievementService.NombresOtorgados | kaizen/src/main/java/com/habits/habittracker/service/AchievementService.java:43-70 | every granted row belongs to the user, was not held before, and carries the name and description of a rule whose threshold holds; at most one row per rule |
| AchievementService.OtorgadoSiYSoloSi | kaizen/src/main/java/com/habits/habittracker/service/AchievementService.java:43-61 | a rule's achievement is granted if and only if its threshold holds and the user does not already hold that name |
| AchievementService.UmbralesDeLasReglas | kaizen/src/main/java/com/habits/habittracker/service/AchievementService.java:43-61 | for a user with no achievements, the grants are: "Primer paso" iff total ≥ 1, "Racha de 3 días" iff streak ≥ 3, "Constancia semanal" iff total ≥ 5, "Maestro de hábitos" iff total ≥ 50, in that order |
| AchievementService.OtorgadosAcotados | kaizen/src/main/java/com/habits/habittracker/service/AchievementService.java:43-70 | one run adds at most four rows, each for the user and none already held |
| AchievementService.Idempotencia | kaizen/src/main/java/com/habits/habittracker/service/AchievementService.java:43-61 | a second run on unchanged progress grants nothing |
| AchievementService.UnicidadPreservada | kaizen/src/main/java/com/habits/habittracker/service/AchievementService.java:43-61 | a run preserves uniqueness of (user, achievement name) |
| AchievementService.OtorgadosUnicos | kaizen/src/main/java/com/habits/habittracker/service/AchievementService.java:43-61 | the rows granted by one run never repeat a (user, name) pair |
| AchievementService.NadaQueOtorgar | kaizen/src/main/java/com/habits/habittracker/service/AchievementService.java:43-61 | when every rule is below its threshold or already held, the run grants nothing |
| AchievementService.ConsecutivosRacha | kaizen/src/main/java/com/habits/habittracker/service/AchievementService.java:72-87 | `n` consecutive fulfilled days ending today give a streak of `min(n, 7)` |
| AchievementService.EscenarioSinProgresos | kaizen/src/test/java/com/habits/habittracker/service/AchievementServiceIntegrationTest.java:114-120 | with no fulfilled progress, nothing is granted |
| AchievementService.EscenarioCincoDias | kaizen/src/test/java/com/habits/habittracker/service/AchievementServiceIntegrationTest.java:57-81 | five consecutive fulfilled days grant "Primer paso", "Racha de 3 días" and "Constancia semanal" |
| AchievementService.EscenarioCincuentaYCincoDias | kaizen/src/test/java/com/habits/habittracker/service/AchievementServiceIntegrationTest.java:83-104 | fifty-five consecutive fulfilled days grant all four achievements |
| AchievementService.EscenarioRachaInterrumpida | kaizen/src/test/java/com/habits/habittracker/service/AchievementServiceIntegrationTest.java:142-160 | fulfilled today and yesterday, unfulfilled two days ago, fulfilled three days ago: streak 2, and only "Primer paso" is granted |
| MessageService.ParseHora | kaizen/src/main/java/com/habits/habittracker/service/MessageService.java:138-151 | the fallback branch never rescues a text the first parse rejected: the result is the plain ISO parse |
| MessageService.ReintentoHora | kaizen/src/main/java/com/habits/habittracker/service/MessageService.java:143-146 | the retry succeeds only when the first parse would have succeeded |
| MessageService.EnviarNotificacion | kaizen/src/main/java/com/habits/habittracker/service/MessageService.java:157-163 | the reminder is the format with its three `%s` filled, in order, by the habit's name (or "null"), its `hora` text (or "null") and its category (or "Sin categoría" when it is null) |
| MessageService.SitiosDelMensaje | kaizen/src/main/java/com/habits/habittracker/service/MessageService.java:157-163 | the `hora` text sits at its own offset, between the head that ends in " ⏰ (" and the tail that starts with ") - Categoría: " |
| MessageService.MensajeDistingueHora | kaizen/src/main/java/com/habits/habittracker/service/MessageService.java:157-163 | for the same name and category, two reminders are equal exactly when their `hora` texts are equal |
| MessageService.Desenlaces | kaizen/src/main/java/com/habits/habittracker/service/MessageService.java:46-72 | one outcome per habit, in order; each is that habit's own decision whatever happened to the others |
| MessageService.Enviados | kaizen/src/main/java/com/habits/habittracker/service/MessageService.java:46-72 | the emitted texts are exactly the messages of the sent outcomes, never more than the outcomes |
| MessageService.GetCurrentTime | kaizen/src/main/java/com/habits/habittracker/service/MessageService.java:184-186 | the clock reading with the same hour and minute and zero seconds and nanos |
| MessageService.RevisarHabitosParaNotificar | kaizen/src/main/java/com/habits/habittracker/service/MessageService.java:35-76 | the loop's emissions and its two counters are those of the per-habit decisions at the truncated clock |
| MessageService.VerificarNotificacionesManual | kaizen/src/main/java/com/habits/habittracker/service/MessageService.java:191-194 | the manual entry point is exactly one scheduled scan |
| MessageService.VerificarNotificacionesEnTiempoEspecifico | kaizen/src/main/java/com/habits/habittracker/service/MessageService.java:199-232 | the same per-habit decision at the caller's time, with the count of emissions |
| MessageService.EmiteSiYSoloSi | kaizen/src/main/java/com/habits/habittracker/service/MessageService.java:81-133 | a habit emits iff it has an owner and a non-blank time, its owner has exactly one settings row, that row has a channel on, and the time parses to exactly the reference time |
| MessageService.SinConfiguracionNoEmite | kaizen/src/main/java/com/habits/habittracker/service/MessageService.java:52-58 | a habit whose owner has no settings row is skipped without emission |
| MessageService.FalloSiFilasDuplicadas | kaizen/src/main/java/com/habits/habittracker/service/MessageService.java:52-72 | the lookup fails, and the habit counts as an error, iff the habit is valid and its owner has two or more settings rows |
| MessageService.SinCanalesNoEmite | kaizen/src/main/java/com/habits/habittracker/service/MessageService.java:106-113 | no emission when email, push and sms are all off |
| MessageService.SinHoraOSinUsuarioSeOmite | kaizen/src/main/java/com/habits/habittracker/service/MessageService.java:81-98 | a habit without owner, without time or with a blank time is skipped with no settings lookup |
| MessageService.HoraInvalidaNoEmite | kaizen/src/main/java/com/habits/habittracker/service/MessageService.java:138-151 | an unparseable time never emits |
| MessageService.ProgramadaSoloMinutosEnteros | kaizen/src/main/java/com/habits/habittracker/service/MessageService.java:121-121 | on the scheduled path, a time with non-zero seconds never emits |
| MessageService.HoraConSegundosNuncaEmite | kaizen/src/main/java/com/habits/habittracker/service/MessageService.java:121-121 | a `hora` written as `hh:mm:ss` or `hh:mm:ss.f…` with non-zero seconds never emits on the scheduled path |
| MessageService.HoraDeUnDigitoNuncaEmite | kaizen/src/main/java/com/habits/habittracker/dto/request/HabitRequest.java:22-22 | a one-digit-hour time that passes the request pattern never emits |
| MessageService.AcotadoPorHabitos | kaizen/src/main/java/com/habits/habittracker/service/MessageService.java:46-72 | emissions plus errors never exceed the number of habits |
| MessageService.EnviadosConcatenados | kaizen/src/main/java/com/habits/habittracker/service/MessageService.java:46-72 | the emissions of two runs of habits are those of the first followed by those of the second |
| MessageService.ManualComoTiempoEspecifico | kaizen/src/main/java/com/habits/habittracker/service/MessageService.java:191-232 | the manual entry point at a clock and the fixed-time entry point given that clock truncated to the minute emit the same messages with the same count; only the manual one counts the failed habits |
| MessageService.EjemploMensaje | kaizen/src/test/java/com/habits/habittracker/service/MessageServiceTest.java:97-114 | the reminder for "Ejercicio" at 08:00 in "Salud" puts the name, the time and the category each in its slot of the template |
| MessageService.EjemploConHoraEmite | kaizen/src/test/java/com/habits/habittracker/service/MessageServiceTest.java:97-114 | a habit at 08:00 with active settings emits at 08:00 |
| MessageService.EjemploLeerNoCoincide | kaizen/src/test/java/com/habits/habittracker/service/MessageServiceTest.java:116-133 | a habit at another time does not emit at 08:00 |
| MessageService.EscenarioCuatroHabitos | kaizen/src/test/java/com/habits/habittracker/service/MessageServiceTest.java:227-250 | of four habits, one without time and one without owner, exactly two are looked up, none fails, and one emits |
| ProgressService.PorcentajeDe | kaizen/src/main/java/com/habits/habittracker/service/ProgressService.java:76-76 | the exact percentage: 0 with a zero total, `100·parte/total` otherwise, at most 100 when `parte ≤ total`, exactly 100 when equal |
| ProgressService.Marcado | kaizen/src/main/java/com/habits/habittracker/service/ProgressService.java:38-45 | upsert, where a missing date is a key like any other (the derived query's `is null`): the (habit, date) record gets the new `cumplido`, a new record is appended only when none existed, other records are unchanged, and one record per (habit, date) is preserved |
| ProgressService.MarcadoIdempotente | kaizen/src/main/java/com/habits/habittracker/service/ProgressService.java:38-45 | marking the same (habit, date, value) again changes nothing and adds no record |
| ProgressService.MarcadoIds | kaizen/src/main/java/com/habits/habittracker/service/ProgressService.java:38-45 | record ids stay distinct and below the next id |
| ProgressService.MarcarProgreso | kaizen/src/main/java/com/habits/habittracker/service/ProgressService.java:34-46 | an unknown habit is not-found and the store is unchanged; otherwise the store is the upsert and the returned record is the (habit, date) record with the requested value; a request without a date is accepted and keyed by the missing date |
| ProgressService.ObtenerProgresoPorHabito | kaizen/src/main/java/com/habits/habittracker/service/ProgressService.java:49-53 | an unknown habit is not-found; otherwise exactly that habit's records |
| ProgressService.EliminarProgreso | kaizen/src/main/java/com/habits/habittracker/service/ProgressService.java:56-61 | an unknown id is not-found and nothing changes; otherwise exactly that record is removed |
| ProgressService.CumplidosEntre | kaizen/src/main/java/com/habits/habittracker/service/ProgressService.java:116-119 | the count of fulfilled records of the habits within the window; zero exactly when none qualifies |
| ProgressService.IdsDe | kaizen/src/main/java/com/habits/habittracker/service/ProgressService.java:116-117 | the set of ids of the given habits |
| ProgressService.UnoPorDia | kaizen/src/main/java/com/habits/habittracker/service/ProgressService.java:38-45 | under one record per (habit, date), a habit counts at most once a day, and once exactly when it has a fulfilled record that day |
| ProgressService.CotaVentana | kaizen/src/main/java/com/habits/habittracker/service/ProgressService.java:116-121 | under the upsert invariant, fulfilled records in a window are at most habits × days |
| ProgressService.ObtenerProgresoDiario | kaizen/src/main/java/com/habits/habittracker/service/ProgressService.java:64-85 | an unknown user is not-found; for a known user the result is a null-pointer failure exactly when some record of the user's habits has no date, and that is its only failure; otherwise total is the user's habit count, fulfilled counts today's fulfilled records of those habits, the percentage is 0 with no habits, and under the invariant fulfilled ≤ total |
| ProgressService.RegistrosDelDia | kaizen/src/main/java/com/habits/habittracker/service/ProgressService.java:93-93 | exactly the records of those habits on that date |
| ProgressService.NombresCumplidos | kaizen/src/main/java/com/habits/habittracker/service/ProgressService.java:95-98 | the names are exactly those of the fulfilled records, both directions, and there are no more names than records |
| ProgressService.Pendientes | kaizen/src/main/java/com/habits/habittracker/service/ProgressService.java:100-103 | a habit's name is listed exactly when the habit has no fulfilled record among the day's records |
| ProgressService.NombresCumplidosCuenta | kaizen/src/main/java/com/habits/habittracker/service/ProgressService.java:95-98 | as many fulfilled names as fulfilled records of those habits on that date |
| ProgressService.PendientesCuenta | kaizen/src/main/java/com/habits/habittracker/service/ProgressService.java:100-103 | pending names plus habits with a fulfilled record make up all the habits |
| ProgressService.CumplidosSonHabitosCumplidos | kaizen/src/main/java/com/habits/habittracker/service/ProgressService.java:93-103 | under distinct habit ids and one record per (habit, date), the fulfilled records of the day are the habits fulfilled that day |
| ProgressService.ObtenerProgresoDiarioDetallado | kaizen/src/main/java/com/habits/habittracker/service/ProgressService.java:88-108 | an unknown user is not-found; pending lists exactly the habits with no fulfilled record on the date, a name is among the fulfilled ones exactly when some fulfilled record of the user's habits on that date belongs to a habit with that name, their number is the count of such records, and under the invariants fulfilled + pending = habits |
| ProgressService.DelDiaSiYSoloSi | kaizen/src/main/java/com/habits/habittracker/service/ProgressService.java:93-103 | a habit has a fulfilled record among the day's records iff it has one on that date in the store |
| ProgressService.DiarioCoincideConDetallado | kaizen/src/main/java/com/habits/habittracker/service/ProgressService.java:64-108 | the summary succeeds exactly when the detailed view does and no record of the user's habits lacks a date; then both report the same fulfilled count |
| ProgressService.ObtenerEstadisticasSemanales | kaizen/src/main/java/com/habits/habittracker/service/ProgressService.java:111-130 | the window runs from Monday to the following Sunday and holds today; the denominator is habits × 7; the percentage is 0 when it is 0; fulfilled ≤ denominator under the invariant |
| ProgressService.ObtenerEstadisticasMensuales | kaizen/src/main/java/com/habits/habittracker/service/ProgressService.java:133-152 | the window runs from day 1 to the month's last day; total is habits × month length; the percentage is 0 when that is 0; fulfilled ≤ total under the invariant |
| ProgressService.DiaEnSuMes | kaizen/src/main/java/com/habits/habittracker/service/ProgressService.java:135-136 | every valid date lies inside its month's window |
| HabitService.GetHabitById | kaizen/src/main/java/com/habits/habittracker/service/HabitService.java:39-41 | a found habit has that id; None exactly when no habit has it |
| HabitService.GetHabitsByUser | kaizen/src/main/java/com/habits/habittracker/service/HabitService.java:35-37 | exactly the habits owned by the user |
| HabitService.CreateHabit | kaizen/src/main/java/com/habits/habittracker/service/HabitService.java:43-56 | every failure (no authentication, another principal type, unknown user) is a bad request prefixed "No se pudo crear el hábito: " with nothing saved; otherwise the habit is saved with the next id and the authenticated user as owner |
| HabitService.SiNoNulo | kaizen/src/main/java/com/habits/habittracker/service/HabitService.java:66-70 | a non-null request value, the empty string included, replaces the old one; null keeps it |
| HabitService.Fusionar | kaizen/src/main/java/com/habits/habittracker/service/HabitService.java:58-79 | id and owner never change; five fields are null-coalesced; `fechaObjetivo` is always taken from the request |
| HabitService.FusionarIdempotente | kaizen/src/main/java/com/habits/habittracker/service/HabitService.java:66-73 | applying the same update twice equals applying it once |
| HabitService.FusionarVacio | kaizen/src/main/java/com/habits/habittracker/service/HabitService.java:66-73 | an all-null request only clears `fechaObjetivo` |
| HabitService.FusionarCompleto | kaizen/src/main/java/com/habits/habittracker/service/HabitService.java:66-73 | a request with every coalesced field set yields the same habit whatever the old field values were |
| HabitService.FusionarDosVeces | kaizen/src/main/java/com/habits/habittracker/service/HabitService.java:66-73 | two successive updates equal one update whose fields prefer the second request |
| HabitService.UpdateHabit | kaizen/src/main/java/com/habits/habittracker/service/HabitService.java:58-81 | an unknown id is not-found and nothing changes; otherwise exactly the habit with that id is replaced by the merge, and the list length is kept |
| HabitService.SinHabito | kaizen/src/main/java/com/habits/habittracker/service/HabitService.java:83-88 | removal keeps exactly the habits with another id; with no such id the list is unchanged |
| HabitService.SinHabitoQuitaUno | kaizen/src/main/java/com/habits/habittracker/service/HabitService.java:83-88 | with distinct ids, removing an existing id removes exactly one habit |
| HabitService.DeleteHabit | kaizen/src/main/java/com/habits/habittracker/service/HabitService.java:83-88 | an unknown id is not-found and nothing changes; otherwise only that habit is removed |
| NotificationService.GetSettings | kaizen/src/main/java/com/habits/habittracker/service/NotificationService.java:24-36 | null id is a bad request, an unknown user is user-not-found, no row is resource-not-found, two rows are a non-unique error, one row is returned |
| NotificationService.ConCanales | kaizen/src/main/java/com/habits/habittracker/service/NotificationService.java:53-56 | the three toggles and the time are set; id, owner and habit are kept |
| NotificationService.ActualizarDelUsuario | kaizen/src/main/java/com/habits/habittracker/service/NotificationService.java:53-58 | only the user's rows change, and only in toggles and time |
| NotificationService.ActualizarConservaFilas | kaizen/src/main/java/com/habits/habittracker/service/NotificationService.java:53-58 | every user's row count is preserved |
| NotificationService.FilaGuardada | kaizen/src/main/java/com/habits/habittracker/service/NotificationService.java:50-58 | the saved row belongs to the user and carries exactly the three requested toggles and time |
| NotificationService.GuardarLuegoLeer | kaizen/src/main/java/com/habits/habittracker/service/NotificationService.java:50-58 | after a save, reading the user's settings returns the saved row: a new row with the next id when none existed, else the existing row updated |
| NotificationService.GuardarIds | kaizen/src/main/java/com/habits/habittracker/service/NotificationService.java:50-58 | row ids stay distinct and below the next id |
| NotificationService.SaveSettings | kaizen/src/main/java/com/habits/habittracker/service/NotificationService.java:38-59 | null id or null settings are bad requests, an unknown user is user-not-found, two rows are non-unique, a null toggle violates the column; otherwise the user's row is reused or created; every failure leaves the store unchanged; after a save, reading the user's row returns the saved row |
| NotificationService.SinFila | kaizen/src/main/java/com/habits/habittracker/service/NotificationService.java:75-75 | deletion keeps exactly the rows with another id |
| NotificationService.SinFilaUnica | kaizen/src/main/java/com/habits/habittracker/service/NotificationService.java:70-75 | deleting a user's only row leaves the user with none |
| NotificationService.DeleteSettings | kaizen/src/main/java/com/habits/habittracker/service/NotificationService.java:61-76 | null id, unknown user, missing row and duplicate rows fail with the store unchanged; otherwise exactly the user's row is removed |
| NotificationService.ChangeNotificationStatus | kaizen/src/main/java/com/habits/habittracker/service/NotificationService.java:78-84 | fails exactly as `getSettings` does; otherwise all three channels become `enabled`, and time, id and owner are kept |
| NotificationService.EstadoLuegoLeer | kaizen/src/main/java/com/habits/habittracker/service/NotificationService.java:78-84 | after a status change, reading the settings returns the updated row |
| NotificationService.Predeterminada | kaizen/src/main/java/com/habits/habittracker/service/NotificationService.java:95-101 | the default row: email on, push on, sms off, time "08:00" |
| NotificationService.ResetToDefault | kaizen/src/main/java/com/habits/habittracker/service/NotificationService.java:86-104 | null id is a bad request, an unknown user is user-not-found; otherwise a new default row is always appended, even when the user already has one |
| NotificationService.ResetDuplicaFila | kaizen/src/main/java/com/habits/habittracker/service/NotificationService.java:95-103 | resetting a user who already has a row leaves two rows, after which the lookup fails as non-unique |
| NotificationService.ResetSinFilaLuegoLeer | kaizen/src/main/java/com/habits/habittracker/service/NotificationService.java:95-103 | resetting a user without a row makes the default row the one read back |
| NotificationService.ResetToDefaultCorregido | kaizen/src/main/java/com/habits/habittracker/service/NotificationService.java:86-104 | the corrected reset upserts the defaults, and reading back returns the row it returned |
| NotificationController.RespuestaGet | kaizen/src/main/java/com/habits/habittracker/controller/NotificationController.java:28-38 | 200 with the settings, 400 exactly for an illegal argument, 404 exactly for user-not-found, else 500 with "Error al obtener configuración: " + message |
| NotificationController.RespuestaSave | kaizen/src/main/java/com/habits/habittracker/controller/NotificationController.java:41-49 | 400 exactly for an illegal argument, never 404, every other failure 500 with the bare message |
| NotificationController.RespuestaDelete | kaizen/src/main/java/com/habits/habittracker/controller/NotificationController.java:52-61 | 200 with the fixed confirmation text exactly on success, 404 exactly for user-not-found, else 500, body the bare message |
| NotificationController.RespuestaConPrefijo | kaizen/src/main/java/com/habits/habittracker/controller/NotificationController.java:64-83 | 200 with the settings, 404 exactly for user-not-found, else 500 with the handler's prefix |
| NotificationController.RespuestaStatus | kaizen/src/main/java/com/habits/habittracker/controller/NotificationController.java:64-72 | 404 exactly for user-not-found; other failures 500 prefixed "Error al actualizar estado: " |
| NotificationController.RespuestaReset | kaizen/src/main/java/com/habits/habittracker/controller/NotificationController.java:75-83 | 404 exactly for user-not-found; other failures 500 prefixed "Error al restablecer: " |
| NotificationController.CuerpoDel404 | kaizen/src/main/java/com/habits/habittracker/exception/UserNotFoundException.java:4-5 | the 404 body is "Usuario con ID <id> no encontrado." in every handler; save sends that text with 500 |
| NotificationController.GetNuncaResponde400 | kaizen/src/main/java/com/habits/habittracker/controller/NotificationController.java:28-38 | composed with the service, GET never answers 400; a null id becomes 500 with the service's message |
| NotificationController.GetResponde404SiYSoloSi | kaizen/src/main/java/com/habits/habittracker/controller/NotificationController.java:28-38 | composed with the service, GET answers 404 exactly when the id names no user |
| AuthService.ConToken | kaizen/src/main/java/com/habits/habittracker/service/AuthService.java:60-65 | a token exists exactly when authentication succeeds, and is generated from its principal; a failure passes through |
| AuthService.Register | kaizen/src/main/java/com/habits/habittracker/service/AuthService.java:37-66 | incomplete data is a bad request before any lookup; an exact existing name is "El nombre de usuario ya está en uso"; a raw name that is new but whose trimmed form exists fails at the save; otherwise the trimmed user with the encoded password is appended and the raw name is authenticated; only success changes the store before authentication |
| AuthService.Login | kaizen/src/main/java/com/habits/habittracker/service/AuthService.java:68-92 | checks in order: incomplete data is a bad request, an unknown user not-found before any authentication, any authentication failure unauthorized "Credenciales inválidas"; no other error |
| AuthService.AutenticarEnTabla | kaizen/src/main/java/com/habits/habittracker/service/CustomUserDetailsService.java:25-40 | authentication by exact stored name: a success names the requested user; with no such user it is bad credentials |
| AuthService.AutenticaAlNuevo | kaizen/src/main/java/com/habits/habittracker/service/CustomUserDetailsService.java:25-40 | a freshly appended user with a matching password authenticates under its own name |
| AuthService.RellenoNoEsElNombreGuardado | kaizen/src/main/java/com/habits/habittracker/service/AuthService.java:46-51 | a name with leading or trailing space is not the name stored for it |
| AuthService.RellenoPasaElChequeo | kaizen/src/main/java/com/habits/habittracker/service/AuthService.java:46-51 | with "ana" stored, " ana" passes the duplicate check although its trimmed form exists |
| AuthService.RegistroConRellenoNoAutentica | kaizen/src/main/java/com/habits/habittracker/service/AuthService.java:50-62 | a padded new name is stored trimmed, then authentication under the padded name fails with bad credentials |
| AuthService.LoginConRellenoNoEncuentra | kaizen/src/main/java/com/habits/habittracker/service/AuthService.java:68-79 | logging in later with the padded name is not-found |
| AuthService.RegisterCorregido | kaizen/src/main/java/com/habits/habittracker/service/AuthService.java:37-66 | the corrected register checks, stores and authenticates the same trimmed name |
| AuthService.RegistroCorregidoAutentica | kaizen/src/main/java/com/habits/habittracker/service/AuthService.java:60-65 | after the corrected register, authentication of the new user succeeds and yields its token |
| AuthService.NulEsTextoPeroSeRecorta | kaizen/src/main/java/com/habits/habittracker/service/AuthService.java:39-51 | a name of one U+0000 has text for the completeness check yet trims to the empty name |
| UserService.ExisteNombre | kaizen/src/main/java/com/habits/habittracker/service/UserService.java:29-29 | true exactly when a name is given and some stored user has it |
| UserService.Register | kaizen/src/main/java/com/habits/habittracker/service/UserService.java:24-40 | a null request is a bad request, an existing name a conflict, a null password an illegal argument, a null name a column violation, each with nothing saved; otherwise exactly one user with the request's fields and the encoded password |
| UserService.FindByUsername | kaizen/src/main/java/com/habits/habittracker/service/UserService.java:42-44 | the user stored under that name; None exactly when there is none |
| UserService.RegistradoSeEncuentra | kaizen/src/test/java/com/habits/habittracker/service/UserServiceIntegrationTest.java:55-65 | a registered user is found under its name, and the name then exists, so the same request again is a conflict |
| ClientAuth.AuthManager.constructor | src/main/resources/static/js/auth.js:5-12 | the manager starts with the accounts found in storage |
| ClientAuth.AuthManager.Register | src/main/resources/static/js/auth.js:18-39 | a username or email already present throws and leaves the list; otherwise one account with the given fields and the default avatar "ardilla.png" is appended; no two accounts share a username or an email |
| ClientAuth.AuthManager.Login | src/main/resources/static/js/auth.js:41-47 | returns a stored account whose username and password both match, and throws exactly when none does |
| ClientAuth.RegistroLuegoLogin | src/main/resources/static/js/auth.js:20-47 | after a registration, logging in with its username and password returns the new account |
| ClientAuth.ValidarRegistro | src/main/resources/static/js/auth.js:121-140 | the form accepts exactly trimmed non-empty fields with a username of at least 3 and a password of at least 6 UTF-16 units; each of the three messages (fill in all fields, username too short, password too short) is shown exactly when its check is the first to fail |
| ClientAuth.EnviarRegistro | src/main/resources/static/js/auth.js:117-161 | by cases on the form's validation: a rejected form shows its message and changes nothing; an accepted form whose trimmed username or email is taken fails with "already registered"; one with both fresh succeeds and appends exactly the new account |
| ClientAuth.EnviarLogin | src/main/resources/static/js/auth.js:167-185 | empty trimmed fields are rejected; otherwise it succeeds exactly when a stored account has the trimmed username and password, returning such an account, and fails with "incorrect" otherwise |
| ClientAuth.FormularioRegistroLuegoLogin | src/main/resources/static/js/auth.js:117-180 | what the registration form accepted, typed again into the login form, logs into the created account |
| ClientDashboard.SiHay | src/main/resources/static/js/dashboard.js:84-84 | a property present in the changes wins; an absent one keeps the old value |
| ClientDashboard.Mezclar | src/main/resources/static/js/dashboard.js:84-84 | object spread: each field comes from the changes when present, else from the habit |
| ClientDashboard.MezclarIdempotente | src/main/resources/static/js/dashboard.js:84-84 | merging the same changes twice equals merging once |
| ClientDashboard.SoloCompletado | src/main/resources/static/js/dashboard.js:503-505 | the toggle's changes alter only `completado` |
| ClientDashboard.EstadisticasDe | src/main/resources/static/js/dashboard.js:102-114 | completados + pendientes = total; the percentage is the rounded share, within 0..100, 0 for an empty list and 100 when all are completed |
| ClientDashboard.Redondeado | src/main/resources/static/js/dashboard.js:105-105 | `Math.round(c / t * 100)` is the nearest integer to `100c/t`, halves up; 0 with no habits |
| ClientDashboard.EstadisticasTrasAgregar | src/main/resources/static/js/dashboard.js:68-80 | adding a new uncompleted habit raises total and pending by one and keeps completed |
| ClientDashboard.GestorUsuario.constructor | src/main/resources/static/js/dashboard.js:3-6 | a manager for the user with no habits loaded |
| ClientDashboard.GestorUsuario.CargarHabitos | src/main/resources/static/js/dashboard.js:41-61 | the stored list, or an empty one when none is stored |
| ClientDashboard.GestorUsuario.AgregarHabito | src/main/resources/static/js/dashboard.js:68-80 | exactly one habit is appended, uncompleted and owned by the current user; earlier habits are kept in order |
| ClientDashboard.GestorUsuario.ActualizarHabito | src/main/resources/static/js/dashboard.js:82-90 | the first habit matching id and owner is merged and returned; with no match the list is unchanged and null is returned; the length never changes |
| ClientDashboard.GestorUsuario.EliminarHabito | src/main/resources/static/js/dashboard.js:92-95 | every habit with that id owned by the current user is removed; the others stay in order |
| ClientDashboard.GestorUsuario.ActualizarUsuario | src/main/resources/static/js/dashboard.js:97-100 | the current user takes the new data and keeps the rest; habits are untouched |
| ClientDashboard.GestorUsuario.ObtenerEstadisticas | src/main/resources/static/js/dashboard.js:102-114 | the statistics of the current list |
| ClientDashboard.EliminarQuitaLosPropios | src/main/resources/static/js/dashboard.js:92-95 | exactly the user's habits with that id go, as many as there were; with none the list is the same |
| ClientDashboard.EliminarIdempotente | src/main/resources/static/js/dashboard.js:92-95 | deleting twice equals deleting once |
| ClientDashboard.Alternado | src/main/resources/static/js/dashboard.js:498-505 | the toggle only ever changes `completado`, and only of the first habit matching id and owner |
| ClientDashboard.ToggleCompletado | src/main/resources/static/js/dashboard.js:498-518 | the list after a toggle is the toggled list |
| ClientDashboard.AlternarInvierte | src/main/resources/static/js/dashboard.js:498-505 | on the user's own habits, the toggle flips `completado` of the first habit with that id and leaves the rest |
| ClientDashboard.AlternarDosVeces | src/main/resources/static/js/dashboard.js:498-505 | on the user's own habits, toggling twice restores the list |
| ClientDashboard.AlternarConAjenoDelante | src/main/resources/static/js/dashboard.js:500-505 | when another user's habit with the same id comes first, the lookup finds that one, so a second toggle repeats the first instead of undoing it |
| ClientDashboard.LexTotal | src/main/resources/static/js/dashboard.js:201-201 | the string order of `sort()` is total |
| ClientDashboard.LexTransitiva | src/main/resources/static/js/dashboard.js:201-201 | the string order is transitive |
| ClientDashboard.LexAntisimetrica | src/main/resources/static/js/dashboard.js:201-201 | the string order is antisymmetric |
| ClientDashboard.Insertar | src/main/resources/static/js/dashboard.js:201-201 | inserting a new key into an ascending list keeps it ascending and holds the old keys plus the new one |
| ClientDashboard.Ordenar | src/main/resources/static/js/dashboard.js:201-201 | sorting distinct keys gives an ascending list of the same keys |
| ClientDashboard.FilterComplementa | src/main/resources/static/js/dashboard.js:188-189 | the dated and undated filters together have as many habits as the list |
| ClientDashboard.AgrupaPaso | src/main/resources/static/js/dashboard.js:193-198 | one `forEach` step keeps the grouping invariant: keys are the dates seen, each group holds exactly the habits of its date, in order |
| ClientDashboard.AgruparPorFecha | src/main/resources/static/js/dashboard.js:192-198 | the keys are exactly the dates present, each group is exactly the habits of its date in list order and non-empty, and no key repeats |
| ClientDashboard.AgruparPlanner | src/main/resources/static/js/dashboard.js:188-201 | every habit is in exactly one of the dated and undated lists; dated habits are grouped by date; the date keys are sorted ascending |
| ClientDashboard.TextoFrecuencia | src/main/resources/static/js/dashboard.js:635-642 | diaria, semanal and mensual map to Diario, Semanal and Mensual; an inherited property name yields the inherited value; anything else is returned unchanged |
| ClientDashboard.TextoFrecuenciaEstable | src/main/resources/static/js/dashboard.js:635-642 | applying the mapping to its own text result changes nothing |
| ClientDashboard.ConDatos | src/main/resources/static/js/dashboard.js:97-100 | the new data replaces username, avatar and settings; id, email, password and registration date are kept |
| ClientDashboard.DatosConfiguracion | src/main/resources/static/js/dashboard.js:604-618 | fails exactly when a non-empty new password differs from its confirmation; an empty username or a missing avatar keeps the current value |
| ClientDashboard.GuardarConfiguracion | src/main/resources/static/js/dashboard.js:594-630 | a mismatched password aborts with no change; otherwise the current user takes the new data, and habits are untouched |
| ClientDashboard.GuardarDosVeces | src/main/resources/static/js/dashboard.js:594-630 | saving the same dialog twice equals saving once, and the stored password never changes |

## Left out

- Spring wiring, JPA, transactions and ORM cascades are replaced by in-memory stores. So are the thin HTTP controllers other than the notification controller, security configuration, and the JWT and BCrypt libraries; the latter are parameters.
- `BadRequestException`, `ResourceNotFoundException` and `UnauthorizedException` are not part of this model. They are modelled as runtime exceptions that are not `IllegalArgumentException`, which is why the notification controller answers 500 for a null id.
- The `@Scheduled` cadence and concurrency, including the check-then-act races in the achievement existence check and the progress find-or-create. The model is sequential.
- Clock reads (`LocalDate.now`, `LocalTime.now`, `Date.now` ids, `new Date().toISOString()`), logging and `System.out`. Times and ids are parameters, and the reminders are returned as a list of texts.
- Floating point: the Java percentages are exact fractions. `Math.round` is exact round-half-up, so a binary rounding error at a tie is not captured.
- The bean validation on `Habit`, `NotificationSettings` and requests, apart from the `hora` pattern compared with the parser.
- HabitService.CreateHabit: the message of a library exception (no authentication, another principal type) is a parameter. Constraint failures of the save itself are not modelled.
- Common.Message: the texts of `NonUniqueResult` and `DataIntegrityViolation` are stand-ins. The real messages come from Hibernate and the database driver, which are not part of this model; they add the row count, the SQL error and the constraint detail.
- Common.Message: the text of `NullPointer` is "null", what `getMessage` returns without the JVM's helpful null-pointer messages; with them enabled (the default on newer JVMs) the text names the failed call instead, and the JVM version is not part of this model.
- NotificationController.RespuestaGet: for a non-unique settings lookup the 500 body is the prefix followed by the stand-in text of `Common.Message`, so it is exact only up to the library's message.
- NotificationController.RespuestaSave: the same holds for the non-unique and the column-violation failures, whose 500 bodies carry the stand-in texts.
- NotificationController.RespuestaDelete: a non-unique lookup gives a 500 whose body is the stand-in text.
- NotificationController.RespuestaConPrefijo: a non-unique lookup gives a 500 whose body is the handler's prefix plus the stand-in text. The same applies to `RespuestaStatus` and `RespuestaReset`, which are built on it.
- NotificationService.SaveSettings: a null toggle is modelled as the not-null column refusing the save.
- Browser storage (`localStorage`), the DOM, HTML rendering, `setTimeout`, redirects, `cerrarSesion`, `setCurrentUser`, the other scripts, and the always-true checkbox expression in the settings dialog.
- ClientDashboard.GuardarConfiguracion: the dialog validates the new password but never stores it; the model states this rather than treating it as a defect.
- ClientDashboard.AgruparPorFecha: a date text equal to an `Object.prototype` property name (such as "constructor") makes the source's plain-object grouping push onto an inherited value; the model treats every date as an own key.
- ClientDashboard.Ordenar: JavaScript's `sort()` compares UTF-16 code units; the model compares characters, which differs only for characters beyond the Basic Multilingual Plane.
- An absent `fechaObjetivo` and an empty one are both the empty string (both falsy in the planner filter).

## Findings

| source | as written | input that shows it | evidently intended | confidence | as-written member | corrected member |
|---|---|---|---|---|---|---|
| kaizen/src/main/java/com/habits/habittracker/service/NotificationService.java:86-104 | `resetToDefault` always saves a new row, even when the user already has settings | a user with one settings row calls reset: two rows, and every later lookup of that user's settings (get, save, delete, status, the notification scan) fails as non-unique | reset the user's existing row to the defaults, or create it when there is none | medium, not executed | NotificationService.ResetToDefault, NotificationService.ResetDuplicaFila | NotificationService.ResetToDefaultCorregido |
| kaizen/src/main/java/com/habits/habittracker/service/AuthService.java:46-62 | the duplicate check and the authentication use the raw username; the saved username is trimmed | with "ana" stored, register " ana": the check passes and the save then violates the unique column. With a new padded name " bob", "bob" is saved, authentication of " bob" fails with bad credentials, and the user stays saved with no token; later logins as " bob" are not-found | trim once and use the trimmed name for the check, the save and the authentication | medium, not executed | AuthService.Register, AuthService.RegistroConRellenoNoAutentica | AuthService.RegisterCorregido, AuthService.RegistroCorregidoAutentica |
