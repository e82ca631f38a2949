# Clinic booking: a Dafny model

This project models the core of a small dental-clinic booking application.
Patients ask for an appointment slot through a public form. Staff then
authorize, mark attended, cancel or delete those bookings, or add
pre-authorized bookings themselves. The model covers three parts of the
application:

- **The `reservas` table** (models/reservas.py). A row is the datatype
  `Reservas.Reserva`, with a nullable `telefono` and `mensaje`, a four-valued
  `Estado`, the column widths and the `pendiente` default. The table
  (`Reservas.Tabla`) maps `bigserial` ids to rows and records the next value
  of the id sequence. That record is what lets the model state that ids are
  never reassigned.
- **The booking rules** (app.py):
  - the slot-overlap query `hay_solapamiento`, and the loop that scans for its
    first match;
  - the effect of each handler that changes the table, as a pure function
    from a table to the table afterwards plus an outcome. The handlers are
    `reservar`, `autorizar`, `atender`, `cancelar`, `eliminar` and
    `admin_agregar`;
  - the table invariant "at most one `autorizada` row per (date, time)",
    proved for every handler and for any sequence of requests;
  - the WhatsApp number rewrite in `enviar_whatsapp_notificacion`.
- **Peruvian phone normalisation** (utils/phones.py). The model gives an exact
  specification of `normalizar_telefono_peru`, its five documented examples,
  its idempotence, and how it relates to the WhatsApp rewrite. Note that
  app.py itself never calls the normaliser.

Modules:

| module | file | models |
|---|---|---|
| `Opcion` | opcion.dfy | `Option`, for the nullable columns and for missing form fields |
| `Texto` | texto.dfy | ASCII character classes, `re.sub(r'\D', '', s)` and `replace` chains as filtering, and `str.strip` |
| `Telefonos` | telefonos.dfy | utils/phones.py |
| `Reservas` | reservas.dfy | models/reservas.py |
| `Agenda` | agenda.dfy | `hay_solapamiento` and the six route handlers of app.py |
| `Invariante` | invariante.dfy | the table invariant and what holds over any sequence of requests |
| `Notificacion` | notificacion.dfy | the phone rewrite of `enviar_whatsapp_notificacion` |

### Behaviour of the code worth knowing

- **`cancelar` has no guard.** It sets `cancelada` on any existing row,
  whatever its status, so an `atendida` or `cancelada` row can be cancelled
  again (`Agenda.Cancelar`).
- **Public bookings are not checked for overlap.** `reservar` inserts
  without calling `hay_solapamiento`, so two `pendiente` rows can share a
  slot (`Invariante.ReservasSinControlDeHorario`). The invariant the handlers
  keep is therefore about authorized rows only: at most one `autorizada` row
  per slot (`Invariante.AutorizadaUnica`).
- **Two active rows in one slot block each other.** `autorizar` refuses a
  row when any other `pendiente` or `autorizada` row shares its slot. Two
  `pendiente` rows in one slot therefore cannot be authorized until one of
  them is cancelled, attended or deleted (`Invariante.PendientesSeBloquean`).
- **An id of 0 excludes nothing.** `hay_solapamiento` applies `exclude_id`
  only when it is truthy. The id sequence starts at 1, so this never matters
  for a stored row (`Agenda.ExcluirPropioId`).
- **The WhatsApp rewrite and the normaliser differ.** They agree on a bare
  nine-digit mobile written with digits, spaces and hyphens only
  (`Notificacion.WhatsAppCoincideConNormalizado`); the link keeps any other
  punctuation, such as dots, which the normaliser drops. On a
  mobile written behind the trunk `0`, the link keeps the `0` and gets no
  country code (`Notificacion.WhatsAppConCeroDifiere`).

## Model

| member | source | states |
|---|---|---|
| Texto.Filtrar | utils/phones.py:20-21 | the kept characters all belong to the class and are no more than the input's |
| Texto.Digitos | utils/phones.py:21 | `re.sub(r'\D', '', s)` yields only decimal digits |
| Texto.FiltrarConcat | utils/phones.py:21 | filtering distributes over concatenation, so the digits keep their order |
| Texto.FiltrarTodos | utils/phones.py:21 | a string made only of kept characters passes through unchanged |
| Texto.FiltrarVacio | utils/phones.py:35-36 | the digit string is empty exactly when the input has no digit |
| Texto.FiltrarIdempotente | utils/phones.py:21 | removing non-digits twice is removing them once |
| Texto.FiltrarCoincide | app.py:106 | two character classes that agree on every character of a string keep the same characters |
| Texto.SaltarInicio | utils/phones.py:36 | the first non-whitespace position, with only whitespace before it |
| Texto.SaltarFin | utils/phones.py:36 | the end of a slice once trailing whitespace is dropped, with only whitespace after it |
| Texto.Recortar | utils/phones.py:36 | `strip()` returns a contiguous slice of the input that neither starts nor ends with whitespace, and everything cut off is whitespace |
| Texto.RecortarIdempotente | utils/phones.py:36 | stripping a stripped string changes nothing |
| Texto.RecortarSinDigitos | utils/phones.py:36 | stripping adds no digit to a digit-free string |
| Telefonos.Formatear | utils/phones.py:33 | `+51 ddd ddd ddd` is 15 characters: the prefix, then the three groups of the nine digits, separated by spaces |
| Telefonos.Reducir | utils/phones.py:23-29 | a 10-digit string starting with `0` loses it, an 11-digit string starting with `51` loses that, and any other string is unchanged |
| Telefonos.NormalizarTelefonoPeru | utils/phones.py:17-36 | empty input gives empty output; a recognised mobile (bare, behind `0`, or behind `51`) gives the formatted last nine digits; other non-empty digit strings give the reduced digits; a digit-free input gives the stripped input |
| Telefonos.ReducirIdempotente | utils/phones.py:23-29 | a reduced digit string is never reduced again |
| Telefonos.DigitosFormateados | utils/phones.py:33 | the digits of a formatted number are `51` followed by the nine digits it was formatted from |
| Telefonos.DigitosConEspacio | utils/phones.py:33 | a separating space contributes no digits |
| Telefonos.DigitosPrefijo | utils/phones.py:33 | the digits of the `+51 ` prefix are `51` |
| Telefonos.FormateadoEstable | utils/phones.py:28-33 | a formatted mobile number normalises to itself |
| Telefonos.DigitosEstables | utils/phones.py:35-36 | a reduced non-mobile digit string normalises to itself |
| Telefonos.RecorteEstable | utils/phones.py:36 | a stripped digit-free input normalises to itself |
| Telefonos.NormalizarIdempotente | utils/phones.py:13 | normalising a normalised number returns it unchanged, for every input |
| Telefonos.MovilReconocido | utils/phones.py:23-33 | any input whose digits are a mobile number, bare or behind `0` or `51`, normalises to that number's format, whatever the punctuation |
| Telefonos.EjemploNueveNormaliza | utils/phones.py:9 | `"947236123"` normalises to `"+51 947 236 123"` |
| Telefonos.EjemploEspaciosNormaliza | utils/phones.py:10 | `"947 236 123"` normalises to `"+51 947 236 123"` |
| Telefonos.EjemploMasNormaliza | utils/phones.py:11 | `"+51947236123"` normalises to `"+51 947 236 123"` |
| Telefonos.EjemploCeroNormaliza | utils/phones.py:12 | `"0947236123"` normalises to `"+51 947 236 123"` |
| Telefonos.EjemploCodigoNormaliza | utils/phones.py:13 | `"51947236123"` normalises to `"+51 947 236 123"` |
| Telefonos.DigitosAgrupados | utils/phones.py:10 | nine digits in three space-separated groups have those nine digits as their digit string |
| Telefonos.SoloDigitos | utils/phones.py:21 | removing non-digits from a digit string changes nothing |
| Reservas.TextoEstado | models/reservas.py:23 | every status text the application writes is non-empty, fits the 20-character `estado` column and holds no NUL |
| Reservas.LeerEstado | models/reservas.py:23 | reading a stored status text gives back the status written as it, and recognises every one of the four |
| Reservas.TextoEstadoInyectivo | models/reservas.py:23 | distinct statuses are stored as distinct texts |
| Reservas.NuevaReserva | models/reservas.py:22-30 | a new row takes the given fields, `pendiente` when no status is given, and the current instant as `creado_en` |
| Reservas.Insertar | models/reservas.py:10-23 | an insert commits exactly when every text fits its column and holds no NUL and the sequence has an unused id left; then it adds one row under the next id, changes no other row and advances the sequence |
| Agenda.PrimeraCoincidencia | app.py:85-95 | the scan returns a row that occupies the slot (same date and time, active status, not excluded), or nothing exactly when no row does |
| Agenda.ExcluirPropioId | app.py:91-92 | excluding a non-zero id checks exactly the other rows; excluding 0 excludes nothing |
| Agenda.InactivoLiberaHorario | app.py:93-95 | an `atendida` or `cancelada` row blocks no slot: making a row inactive removes exactly it from every slot's occupants |
| Agenda.ConEstado | app.py:248-249 | setting the status of one row changes that field of that row and nothing else |
| Agenda.Autorizar | app.py:237-249 | a missing id is not found; a non-`pendiente` row is refused; a `pendiente` row whose slot another active row occupies is refused; otherwise only that row becomes `autorizada`; every refusal leaves the table unchanged |
| Agenda.Atender | app.py:263-275 | succeeds exactly for an existing `pendiente` or `autorizada` row, and then changes only that row's status, to `atendida`; otherwise the table is unchanged |
| Agenda.Cancelar | app.py:282-285 | succeeds for every existing row, whatever its status, and changes only that row's status, to `cancelada` |
| Agenda.Eliminar | app.py:292-296 | removes exactly the given id, keeps every other row as it was, and does not rewind the sequence |
| Agenda.ReservaDe | app.py:151-169 | the new row holds the stripped form texts, the parsed date and time, and an empty message when none was sent; it can be stored exactly when the stripped texts fit their columns and hold no NUL |
| Agenda.Reservar | app.py:148-179 | a complete form whose stripped texts fit their columns and hold no NUL adds one `pendiente` row under the next id, without any overlap check; any failure is rolled back and leaves the table unchanged |
| Agenda.AdminAgregar | app.py:311-348 | a complete form for an occupied slot is refused with the table unchanged; otherwise it behaves like a public booking, with `autorizada` in place of `pendiente` |
| Invariante.TablaVaciaValida | models/reservas.py:10 | the empty table satisfies the invariant |
| Invariante.AutorizarPreserva | app.py:244-249 | authorizing never puts two `autorizada` rows in one slot |
| Invariante.AtenderPreserva | app.py:266-275 | marking attended keeps the invariant |
| Invariante.CancelarPreserva | app.py:283-285 | cancelling keeps the invariant |
| Invariante.EliminarPreserva | app.py:293-296 | deleting keeps the invariant |
| Invariante.ReservarPreserva | app.py:159-172 | a public booking keeps the invariant |
| Invariante.AdminAgregarPreserva | app.py:323-341 | a staff addition never puts a second `autorizada` row in a slot |
| Invariante.Despachar | app.py:148-348 | whatever the request, the sequence never moves back, new ids are fresh, and surviving rows change at most in status |
| Invariante.DespacharPreserva | app.py:148-348 | every request keeps the invariant |
| Invariante.ServirPreserva | app.py:148-348 | any sequence of requests keeps the invariant |
| Invariante.SecuenciaCreciente | models/reservas.py:10 | over any sequence of requests the id sequence never moves back |
| Invariante.IdNoReasignado | models/reservas.py:10 | a deleted id never reappears, whatever requests follow |
| Invariante.DatosPermanentes | models/reservas.py:10 | as long as an id exists it names the same appointment, with only its status changed |
| Invariante.ReservasSinControlDeHorario | app.py:159-172 | two public bookings for the same slot both succeed and leave two `pendiente` rows in it |
| Invariante.ReservaAceptada | app.py:159-172 | a complete, fitting booking succeeds, adds a `pendiente` row for its slot under the next id and keeps every earlier row |
| Invariante.PendientesSeBloquean | app.py:240-246 | a `pendiente` row sharing its slot with another active row cannot be authorized, and the table stays unchanged |
| Invariante.CancelarLiberaHorario | app.py:282-285 | cancelling a slot's only active row frees it, so staff can then add an `autorizada` row there |
| Invariante.CancelarIdempotente | app.py:282-285 | cancelling twice has the same result and outcome as cancelling once |
| Notificacion.SinSeparadores | app.py:106 | the phone keeps no space or hyphen |
| Notificacion.NumeroWhatsApp | app.py:103-109 | no number for a missing or empty phone; otherwise a number with no separator that ends with the phone's non-separator characters `s`, and is `51` followed by `s` exactly when `s` is nine characters starting with `9`, else `s` itself |
| Notificacion.NumeroWhatsAppIdempotente | app.py:106-109 | rewriting a non-empty link number again changes nothing (a phone of separators only gives an empty number, which rewrites to no number) |
| Notificacion.SoloSeparadores | app.py:103-106 | any non-empty phone made only of spaces and hyphens passes the emptiness check and gives an empty link number |
| Notificacion.WhatsAppCoincideConNormalizado | app.py:106-109 | for a bare nine-digit mobile written with digits, spaces and hyphens, the link number is the digit string of the normalised number |
| Notificacion.WhatsAppConCeroDifiere | app.py:106-109 | on a mobile written behind the trunk `0` the link number keeps the `0` and has no `51`, while the normalised number's digits are `51` and the mobile |

## Left out

- HTTP and Flask plumbing are left out: routes, templates, redirects, flash
  messages, the login decorator, the session and the PIN. `get_or_404` is
  modelled only as the outcome `NoEncontrada`.
- Configuration, the database URL rewrite, `db.create_all`, the health check
  and logging are outside the booking rules.
- SQLAlchemy sessions are reduced to one rule: a committed handler changes
  the table, and a failed one (an exception followed by a rollback) leaves it
  unchanged.
- Reservas.Insertar: a failed insert leaves the sequence where it was. In
  PostgreSQL a failed insert can still consume a sequence value. The model
  therefore hands out ids densely, while the real table may skip some; no
  property here depends on density. The width rule is exact only for texts that do
  not end in a space: PostgreSQL silently truncates a `varchar(n)` value whose
  excess characters are all spaces. The handlers store only stripped texts,
  which never end in whitespace.
- Two requests running at the same time are not modelled: the gap between a
  check and its commit in `autorizar` and `admin_agregar` is a concurrency
  matter. Requests are served one at a time.
- `datetime.strptime` is not modelled: a date or time that fails to parse is
  represented as a missing form field, and parsed values are opaque
  comparable values.
- `datetime.utcnow` is not modelled: the current instant is a parameter,
  `ahora`.
- The WhatsApp message text, `strftime`, `urllib.parse.quote` and the link
  itself are formatting, and the link is only logged.
- The listing order of the admin pages is query ordering and is not modelled.
- Texto.Digitos: only ASCII digits are recognised, whereas Python's `\D`
  also treats other Unicode decimal digits as digits.
- Texto.Recortar: only the ASCII whitespace that `str.strip` removes is
  recognised, not the other Unicode whitespace.
- `__repr__` of the model class is debugging output and is not modelled.
