/**
 The `reservas` table (models/reservas.py): one appointment record per row,
 keyed by a `bigserial` primary key. A row is a `Reserva` value; the table is
 a finite map from id to row together with the next value of the id sequence.
 Dates, times and timestamps are opaque comparable values: their parsing and
 the wall clock are outside the model.
 */
module Reservas {
  import opened Opcion

  // Column widths: String(120), String(30), String(100), String(20).
  const AnchoNombre: nat := 120
  const AnchoTelefono: nat := 30
  const AnchoServicio: nat := 100
  const AnchoEstado: nat := 20

  /** The largest value of a `bigserial` id: a signed 64-bit integer. */
  const MaxId: nat := 0x7FFF_FFFF_FFFF_FFFF

  /** The four values the application writes into `estado`. */
  datatype Estado = Pendiente | Autorizada | Atendida | Cancelada

  /** The text stored in the `estado` column for each status. */
  function TextoEstado(e: Estado): (s: string)
    ensures 0 < |s| && Almacenable(s, AnchoEstado)
  {
    match e
    case Pendiente => "pendiente"
    case Autorizada => "autorizada"
    case Atendida => "atendida"
    case Cancelada => "cancelada"
  }

  /** Reads a stored `estado` back: the status whose text it is, if any. */
  function LeerEstado(s: string): (e: Option<Estado>)
    ensures e.Some? ==> TextoEstado(e.value) == s
    ensures forall x: Estado :: TextoEstado(x) == s ==> e == Some(x)
  {
    if s == "pendiente" then Some(Pendiente)
    else if s == "autorizada" then Some(Autorizada)
    else if s == "atendida" then Some(Atendida)
    else if s == "cancelada" then Some(Cancelada)
    else None
  }

  /** Distinct statuses are stored as distinct texts, so the column
      determines the status. */
  lemma TextoEstadoInyectivo(a: Estado, b: Estado)
    ensures TextoEstado(a) == TextoEstado(b) <==> a == b
  {
  }

  /** A calendar date (`db.Date`). */
  datatype Fecha = Fecha(anio: int, mes: int, dia: int)

  /** A time of day (`db.Time`). */
  datatype Hora = Hora(horas: int, minutos: int)

  /** A creation timestamp (`timestamptz`), as an opaque instant. */
  type Instante = int

  /** One row of `reservas`, without its id (the id is the row's key in
      `Tabla`). `telefono` and `mensaje` are nullable columns; the others are
      NOT NULL, which requires presence but not non-emptiness. */
  datatype Reserva = Reserva(
    nombre: string,
    telefono: Option<string>,
    servicio: string,
    fecha: Fecha,
    hora: Hora,
    mensaje: Option<string>,
    estado: Estado,
    creadoEn: Instante)

  /** A text PostgreSQL accepts in a column of width `ancho`: at most `ancho`
      characters, none of them NUL (no character type can store NUL). */
  predicate Almacenable(s: string, ancho: nat) {
    |s| <= ancho && '\0' !in s
  }

  /** The row can be stored: the bounded texts are within their widths and
      no text holds a NUL. `mensaje` is unbounded `Text`. */
  predicate ReservaValida(r: Reserva) {
    && Almacenable(r.nombre, AnchoNombre)
    && (r.telefono.Some? ==> Almacenable(r.telefono.value, AnchoTelefono))
    && Almacenable(r.servicio, AnchoServicio)
    && (r.mensaje.Some? ==> '\0' !in r.mensaje.value)
    && Almacenable(TextoEstado(r.estado), AnchoEstado)
  }

  /** `Reserva(...)` as the application constructs it: `estado` may be left
      out, and then takes the column default `pendiente`; `creado_en` takes the
      current instant `ahora`. */
  function NuevaReserva(
    nombre: string, telefono: Option<string>, servicio: string,
    fecha: Fecha, hora: Hora, mensaje: Option<string>,
    estado: Option<Estado>, ahora: Instante): (r: Reserva)
    ensures estado.None? ==> r.estado == Pendiente
    ensures estado.Some? ==> r.estado == estado.value
    ensures r.nombre == nombre && r.telefono == telefono && r.servicio == servicio
    ensures r.fecha == fecha && r.hora == hora && r.mensaje == mensaje
    ensures r.creadoEn == ahora
  {
    Reserva(nombre, telefono, servicio, fecha, hora, mensaje, estado.GetOr(Pendiente), ahora)
  }

  /** The table: rows by id, and `siguienteId`, the next value the id
      sequence hands out. */
  datatype Tabla = Tabla(filas: map<nat, Reserva>, siguienteId: nat)

  /** The empty table with a fresh sequence, which starts at 1. */
  const TablaVacia: Tabla := Tabla(map[], 1)

  /** Every id in use was handed out by the sequence: ids start at 1 and lie
      below the next value. */
  predicate IdsAsignados(t: Tabla) {
    && 1 <= t.siguienteId
    && forall k :: k in t.filas ==> 1 <= k < t.siguienteId
  }

  /** Every row fits its columns. */
  predicate FilasValidas(t: Tabla) {
    forall k :: k in t.filas ==> ReservaValida(t.filas[k])
  }

  /** `t2` is `t` with one more row, `r`, under id `id`; every other row is
      unchanged. */
  predicate AgregaFila(t: Tabla, t2: Tabla, id: nat, r: Reserva) {
    && id !in t.filas
    && t2.filas.Keys == t.filas.Keys + {id}
    && id in t2.filas && t2.filas[id] == r
    && (forall k :: k in t.filas ==> t2.filas[k] == t.filas[k])
  }

  /** `INSERT` followed by `COMMIT`. The sequence hands out `siguienteId`;
      the insert fails, leaving the table as it was, when a text exceeds its
      column width or holds a NUL, when the sequence is exhausted, or when
      the id is already taken (a primary-key violation). The width rule is
      stated for texts that do not end in spaces, which PostgreSQL would
      truncate instead; the handlers only store stripped texts. */
  function Insertar(t: Tabla, r: Reserva): (res: Option<Tabla>)
    ensures res.Some? <==>
      ReservaValida(r) && t.siguienteId <= MaxId && t.siguienteId !in t.filas
    ensures res.Some? ==> AgregaFila(t, res.value, t.siguienteId, r)
    ensures res.Some? ==> res.value.siguienteId == t.siguienteId + 1
    ensures res.Some? && IdsAsignados(t) ==> IdsAsignados(res.value)
  {
    if ReservaValida(r) && t.siguienteId <= MaxId && t.siguienteId !in t.filas then
      Some(Tabla(t.filas[t.siguienteId := r], t.siguienteId + 1))
    else
      None
  }
}
