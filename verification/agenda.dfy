/**
 The booking rules of the clinic application (app.py): the slot-overlap query
 `hay_solapamiento` and the effect on the `reservas` table of the six route
 handlers that change it. Stripped of HTTP, each handler is a function from a
 table to a `Respuesta`: the table afterwards and how the handler ended.
 */
module Agenda {
  import opened Opcion
  import opened Texto
  import opened Reservas

  /** How a handler ends. */
  datatype Desenlace =
    | Hecho              // the change was committed
    | NoEncontrada       // `get_or_404` found no row with that id
    | EstadoNoPermitido  // the status guard refused the action
    | HorarioOcupado     // `hay_solapamiento` found the slot taken
    | ErrorInterno       // an exception: the request was rolled back

  /** The table after a handler, and how the handler ended. */
  datatype Respuesta = Respuesta(tabla: Tabla, desenlace: Desenlace)

  // ---------------------------------------------------------------------
  // The overlap query
  // ---------------------------------------------------------------------

  /** The statuses that take up a slot: `pendiente` and `autorizada`. */
  predicate Activo(e: Estado) {
    e == Pendiente || e == Autorizada
  }

  /** The row `k` is left out of the query. The filter is applied only when
      `exclude_id` is truthy, so an id of 0 excludes nothing. */
  predicate Excluida(k: nat, ex: Option<nat>) {
    ex.Some? && ex.value != 0 && k == ex.value
  }

  /** The row `k` exists, is booked for date `f` at time `h`, is not excluded,
      and has an active status. */
  predicate Ocupa(t: Tabla, k: nat, f: Fecha, h: Hora, ex: Option<nat>) {
    && k in t.filas
    && t.filas[k].fecha == f
    && t.filas[k].hora == h
    && !Excluida(k, ex)
    && Activo(t.filas[k].estado)
  }

  /** `hay_solapamiento(fecha, hora, exclude_id)`: some row occupies the slot. */
  predicate HaySolapamiento(t: Tabla, f: Fecha, h: Hora, ex: Option<nat>) {
    exists k :: k in t.filas && Ocupa(t, k, f, h, ex)
  }

  /** The query behind `hay_solapamiento`: scan the rows and return the first
      that occupies the slot, or nothing. The result is present exactly when
      the slot is occupied, and then it names an occupant. */
  method PrimeraCoincidencia(t: Tabla, f: Fecha, h: Hora, ex: Option<nat>)
    returns (r: Option<nat>)
    ensures r.Some? ==> Ocupa(t, r.value, f, h, ex)
    ensures r.None? ==> !HaySolapamiento(t, f, h, ex)
  {
    var porVer := t.filas.Keys;
    while porVer != {}
      invariant porVer <= t.filas.Keys
      invariant forall k :: k in t.filas && k !in porVer ==> !Ocupa(t, k, f, h, ex)
      decreases porVer
    {
      var k :| k in porVer;
      if Ocupa(t, k, f, h, ex) {
        return Some(k);
      }
      porVer := porVer - {k};
    }
    return None;
  }

  /** Excluding a row by its own id leaves exactly the other rows, for every
      id the sequence can hand out (ids start at 1). For id 0 the exclusion is
      skipped, and the row counts as occupying its own slot. */
  lemma ExcluirPropioId(t: Tabla, id: nat, f: Fecha, h: Hora)
    ensures id != 0 ==>
      (HaySolapamiento(t, f, h, Some(id)) <==> exists k :: k != id && Ocupa(t, k, f, h, None))
    ensures id == 0 ==>
      (HaySolapamiento(t, f, h, Some(id)) <==> HaySolapamiento(t, f, h, None))
  {
    if id != 0 {
      if HaySolapamiento(t, f, h, Some(id)) {
        var k :| k in t.filas && Ocupa(t, k, f, h, Some(id));
        assert k != id && Ocupa(t, k, f, h, None);
      }
      if exists k :: k != id && Ocupa(t, k, f, h, None) {
        var k :| k != id && Ocupa(t, k, f, h, None);
        assert k in t.filas && Ocupa(t, k, f, h, Some(id));
      }
    }
  }

  /** Rows that are `atendida` or `cancelada` never block a slot: giving a row
      an inactive status removes exactly that row from the occupants of every
      slot. */
  lemma InactivoLiberaHorario(t: Tabla, id: nat, e: Estado, f: Fecha, h: Hora, ex: Option<nat>)
    requires id in t.filas && !Activo(e)
    ensures forall k :: Ocupa(ConEstado(t, id, e), k, f, h, ex) <==> k != id && Ocupa(t, k, f, h, ex)
  {
  }

  // ---------------------------------------------------------------------
  // Status changes
  // ---------------------------------------------------------------------

  /** `t2` is `t` with only the status of row `id` changed, to `e`: same ids,
      same sequence, every other row and every other field unchanged. */
  predicate SoloCambiaEstado(t: Tabla, t2: Tabla, id: nat, e: Estado) {
    && id in t.filas
    && t2.filas.Keys == t.filas.Keys
    && t2.siguienteId == t.siguienteId
    && t2.filas[id] == t.filas[id].(estado := e)
    && forall k :: k in t.filas && k != id ==> t2.filas[k] == t.filas[k]
  }

  /** `r.estado = e; db.session.commit()` on the row `id`. */
  function ConEstado(t: Tabla, id: nat, e: Estado): (t2: Tabla)
    requires id in t.filas
    ensures SoloCambiaEstado(t, t2, id, e)
  {
    t.(filas := t.filas[id := t.filas[id].(estado := e)])
  }

  /** `autorizar(id)`: a `pendiente` row whose slot no other active row
      occupies becomes `autorizada`; otherwise nothing changes. */
  function Autorizar(t: Tabla, id: nat): (r: Respuesta)
    ensures r.desenlace in {Hecho, NoEncontrada, EstadoNoPermitido, HorarioOcupado}
    ensures r.desenlace != Hecho ==> r.tabla == t
    ensures r.desenlace == NoEncontrada <==> id !in t.filas
    ensures r.desenlace == EstadoNoPermitido <==>
      id in t.filas && t.filas[id].estado != Pendiente
    ensures r.desenlace == HorarioOcupado <==>
      && id in t.filas && t.filas[id].estado == Pendiente
      && HaySolapamiento(t, t.filas[id].fecha, t.filas[id].hora, Some(id))
    ensures r.desenlace == Hecho ==> SoloCambiaEstado(t, r.tabla, id, Autorizada)
  {
    if id !in t.filas then Respuesta(t, NoEncontrada)
    else
      var fila := t.filas[id];
      if fila.estado != Pendiente then Respuesta(t, EstadoNoPermitido)
      else if HaySolapamiento(t, fila.fecha, fila.hora, Some(id)) then Respuesta(t, HorarioOcupado)
      else Respuesta(ConEstado(t, id, Autorizada), Hecho)
  }

  /** `atender(id)`: a `pendiente` or `autorizada` row becomes `atendida`;
      otherwise nothing changes. */
  function Atender(t: Tabla, id: nat): (r: Respuesta)
    ensures r.desenlace in {Hecho, NoEncontrada, EstadoNoPermitido}
    ensures r.desenlace != Hecho ==> r.tabla == t
    ensures r.desenlace == NoEncontrada <==> id !in t.filas
    ensures r.desenlace == Hecho <==> id in t.filas && Activo(t.filas[id].estado)
    ensures r.desenlace == Hecho ==> SoloCambiaEstado(t, r.tabla, id, Atendida)
  {
    if id !in t.filas then Respuesta(t, NoEncontrada)
    else if !Activo(t.filas[id].estado) then Respuesta(t, EstadoNoPermitido)
    else Respuesta(ConEstado(t, id, Atendida), Hecho)
  }

  /** `cancelar(id)`: any existing row becomes `cancelada`, whatever its
      status, including `atendida` and `cancelada`. */
  function Cancelar(t: Tabla, id: nat): (r: Respuesta)
    ensures r.desenlace in {Hecho, NoEncontrada}
    ensures r.desenlace == Hecho <==> id in t.filas
    ensures r.desenlace != Hecho ==> r.tabla == t
    ensures r.desenlace == Hecho ==> SoloCambiaEstado(t, r.tabla, id, Cancelada)
  {
    if id !in t.filas then Respuesta(t, NoEncontrada)
    else Respuesta(ConEstado(t, id, Cancelada), Hecho)
  }

  /** `eliminar(id)`: the row `id` is deleted; every other row stays as it
      was, and the sequence is not rewound. */
  function Eliminar(t: Tabla, id: nat): (r: Respuesta)
    ensures r.desenlace in {Hecho, NoEncontrada}
    ensures r.desenlace == Hecho <==> id in t.filas
    ensures r.desenlace != Hecho ==> r.tabla == t
    ensures r.tabla.filas.Keys == t.filas.Keys - {id}
    ensures forall k :: k in r.tabla.filas ==> r.tabla.filas[k] == t.filas[k]
    ensures r.tabla.siguienteId == t.siguienteId
  {
    if id !in t.filas then Respuesta(t, NoEncontrada)
    else Respuesta(t.(filas := t.filas - {id}), Hecho)
  }

  // ---------------------------------------------------------------------
  // Creating rows
  // ---------------------------------------------------------------------

  /** A submitted booking form. A field is `None` when the form lacks it;
      `fecha` and `hora` hold the result of parsing the submitted text and are
      also `None` when that text does not parse. */
  datatype Formulario = Formulario(
    nombre: Option<string>,
    telefono: Option<string>,
    servicio: Option<string>,
    fecha: Option<Fecha>,
    hora: Option<Hora>,
    mensaje: Option<string>)

  /** The form has every field read with `request.form[...]` and both the date
      and the time parse; only `mensaje` may be missing. */
  predicate Completo(f: Formulario) {
    f.nombre.Some? && f.telefono.Some? && f.servicio.Some? && f.fecha.Some? && f.hora.Some?
  }

  /** The trimmed texts of a complete form can be stored: each fits its
      column, and none, the message included, holds a NUL. */
  predicate CabeEnColumnas(f: Formulario)
    requires Completo(f)
  {
    && Almacenable(Recortar(f.nombre.value), AnchoNombre)
    && Almacenable(Recortar(f.telefono.value), AnchoTelefono)
    && Almacenable(Recortar(f.servicio.value), AnchoServicio)
    && '\0' !in Recortar(f.mensaje.GetOr(""))
  }

  /** The row both creation handlers build from a complete form: trimmed
      texts, a missing `mensaje` read as empty, the given status (the column
      default when `None`) and the current instant. */
  function ReservaDe(f: Formulario, estado: Option<Estado>, ahora: Instante): (r: Reserva)
    requires Completo(f)
    ensures r.nombre == Recortar(f.nombre.value)
    ensures r.telefono == Some(Recortar(f.telefono.value))
    ensures r.servicio == Recortar(f.servicio.value)
    ensures r.fecha == f.fecha.value && r.hora == f.hora.value
    ensures r.mensaje == Some(Recortar(f.mensaje.GetOr("")))
    ensures r.estado == estado.GetOr(Pendiente)
    ensures r.creadoEn == ahora
    ensures ReservaValida(r) <==> CabeEnColumnas(f)
  {
    NuevaReserva(
      Recortar(f.nombre.value), Some(Recortar(f.telefono.value)), Recortar(f.servicio.value),
      f.fecha.value, f.hora.value, Some(Recortar(f.mensaje.GetOr(""))), estado, ahora)
  }

  /** `reservar` (POST): the public booking form adds one `pendiente` row. No
      overlap check is made. A missing or unparsable field, a text too long
      for its column or holding a NUL, or an exhausted sequence ends in a
      rolled-back error. */
  function Reservar(t: Tabla, f: Formulario, ahora: Instante): (r: Respuesta)
    ensures r.desenlace in {Hecho, ErrorInterno}
    ensures r.desenlace != Hecho ==> r.tabla == t
    ensures r.desenlace == Hecho <==>
      && Completo(f) && CabeEnColumnas(f)
      && t.siguienteId <= MaxId && t.siguienteId !in t.filas
    ensures r.desenlace == Hecho ==>
      && AgregaFila(t, r.tabla, t.siguienteId, ReservaDe(f, None, ahora))
      && r.tabla.filas[t.siguienteId].estado == Pendiente
      && r.tabla.siguienteId == t.siguienteId + 1
  {
    if !Completo(f) then Respuesta(t, ErrorInterno)
    else
      match Insertar(t, ReservaDe(f, None, ahora))
      case None => Respuesta(t, ErrorInterno)
      case Some(t2) => Respuesta(t2, Hecho)
  }

  /** `admin_agregar` (POST): staff add one `autorizada` row, provided no
      active row occupies its slot. */
  function AdminAgregar(t: Tabla, f: Formulario, ahora: Instante): (r: Respuesta)
    ensures r.desenlace in {Hecho, HorarioOcupado, ErrorInterno}
    ensures r.desenlace != Hecho ==> r.tabla == t
    ensures r.desenlace == HorarioOcupado <==>
      Completo(f) && HaySolapamiento(t, f.fecha.value, f.hora.value, None)
    ensures r.desenlace == Hecho <==>
      && Completo(f) && !HaySolapamiento(t, f.fecha.value, f.hora.value, None)
      && CabeEnColumnas(f) && t.siguienteId <= MaxId && t.siguienteId !in t.filas
    ensures r.desenlace == Hecho ==>
      && AgregaFila(t, r.tabla, t.siguienteId, ReservaDe(f, Some(Autorizada), ahora))
      && r.tabla.filas[t.siguienteId].estado == Autorizada
      && r.tabla.siguienteId == t.siguienteId + 1
  {
    if !Completo(f) then Respuesta(t, ErrorInterno)
    else if HaySolapamiento(t, f.fecha.value, f.hora.value, None) then Respuesta(t, HorarioOcupado)
    else
      match Insertar(t, ReservaDe(f, Some(Autorizada), ahora))
      case None => Respuesta(t, ErrorInterno)
      case Some(t2) => Respuesta(t2, Hecho)
  }
}
