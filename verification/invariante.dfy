/**
 What the route handlers of app.py keep true of the `reservas` table, and
 what they do over any sequence of requests: at most one `autorizada` row per
 slot, ids handed out once and never reassigned, and the consequences of the
 status rules for who may occupy a slot.
 */
module Invariante {
  import opened Opcion
  import opened Reservas
  import opened Agenda

  /** At most one `autorizada` row per (date, time) slot. */
  predicate AutorizadaUnica(t: Tabla) {
    forall a, b ::
      && a in t.filas && b in t.filas
      && t.filas[a].estado == Autorizada && t.filas[b].estado == Autorizada
      && t.filas[a].fecha == t.filas[b].fecha && t.filas[a].hora == t.filas[b].hora
      ==> a == b
  }

  /** A table the application can reach: ids from the sequence, rows that fit
      their columns, and no slot authorized twice. */
  predicate TablaValida(t: Tabla) {
    IdsAsignados(t) && FilasValidas(t) && AutorizadaUnica(t)
  }

  /** The freshly created table is valid. */
  lemma TablaVaciaValida()
    ensures TablaValida(TablaVacia)
  {
  }

  /** Authorizing keeps every slot with at most one `autorizada` row: the
      overlap check, excluding the row itself, has already ruled out any
      other active row in the slot. */
  lemma AutorizarPreserva(t: Tabla, id: nat)
    requires TablaValida(t)
    ensures TablaValida(Autorizar(t, id).tabla)
  {
  }

  /** Marking attended keeps the invariant: it only removes `autorizada`. */
  lemma AtenderPreserva(t: Tabla, id: nat)
    requires TablaValida(t)
    ensures TablaValida(Atender(t, id).tabla)
  {
  }

  /** Cancelling keeps the invariant: it only removes `autorizada`. */
  lemma CancelarPreserva(t: Tabla, id: nat)
    requires TablaValida(t)
    ensures TablaValida(Cancelar(t, id).tabla)
  {
  }

  /** Deleting keeps the invariant: it only removes rows. */
  lemma EliminarPreserva(t: Tabla, id: nat)
    requires TablaValida(t)
    ensures TablaValida(Eliminar(t, id).tabla)
  {
  }

  /** A public booking keeps the invariant: the new row is `pendiente`. */
  lemma ReservarPreserva(t: Tabla, f: Formulario, ahora: Instante)
    requires TablaValida(t)
    ensures TablaValida(Reservar(t, f, ahora).tabla)
  {
  }

  /** A staff addition keeps the invariant: the new `autorizada` row is only
      inserted into a slot that no active row occupies. */
  lemma AdminAgregarPreserva(t: Tabla, f: Formulario, ahora: Instante)
    requires TablaValida(t)
    ensures TablaValida(AdminAgregar(t, f, ahora).tabla)
  {
    var r := AdminAgregar(t, f, ahora);
    if r.desenlace == Hecho {
      var t2 := r.tabla;
      var n := t.siguienteId;
      var fe, h := f.fecha.value, f.hora.value;
      assert !HaySolapamiento(t, fe, h, None);
      forall a, b |
        && a in t2.filas && b in t2.filas
        && t2.filas[a].estado == Autorizada && t2.filas[b].estado == Autorizada
        && t2.filas[a].fecha == t2.filas[b].fecha && t2.filas[a].hora == t2.filas[b].hora
        ensures a == b
      {
        if a != b && a == n {
          assert Ocupa(t, b, fe, h, None);
        } else if a != b && b == n {
          assert Ocupa(t, a, fe, h, None);
        }
      }
    }
  }

  /** A request to one of the handlers that change the table. */
  datatype Peticion =
    | PideCita(formulario: Formulario, ahora: Instante)
    | Autoriza(id: nat)
    | Atiende(id: nat)
    | Cancela(id: nat)
    | Elimina(id: nat)
    | AgregaPersonal(formulario: Formulario, ahora: Instante)

  /** A row `b` that differs from `a` at most in its status. */
  predicate MismosDatos(a: Reserva, b: Reserva) {
    b == a.(estado := b.estado)
  }

  /** The handler a request is routed to. Whatever it is, the sequence never
      moves back, a new id is one the sequence had not yet handed out, and a
      row that stays keeps its data apart from its status. */
  function Despachar(t: Tabla, p: Peticion): (r: Respuesta)
    ensures r.tabla.siguienteId >= t.siguienteId
    ensures forall k :: k in r.tabla.filas && k !in t.filas ==> k >= t.siguienteId
    ensures forall k :: k in r.tabla.filas && k in t.filas ==> MismosDatos(t.filas[k], r.tabla.filas[k])
    ensures IdsAsignados(t) ==> IdsAsignados(r.tabla)
  {
    match p
    case PideCita(f, ahora) => Reservar(t, f, ahora)
    case Autoriza(id) => Autorizar(t, id)
    case Atiende(id) => Atender(t, id)
    case Cancela(id) => Cancelar(t, id)
    case Elimina(id) => Eliminar(t, id)
    case AgregaPersonal(f, ahora) => AdminAgregar(t, f, ahora)
  }

  /** The table after serving the requests `ps` one after another. */
  function Servir(t: Tabla, ps: seq<Peticion>): Tabla
    decreases |ps|
  {
    if ps == [] then t else Servir(Despachar(t, ps[0]).tabla, ps[1..])
  }

  /** Every single request keeps the table valid. */
  lemma DespacharPreserva(t: Tabla, p: Peticion)
    requires TablaValida(t)
    ensures TablaValida(Despachar(t, p).tabla)
  {
    match p
    case PideCita(f, ahora) => ReservarPreserva(t, f, ahora);
    case Autoriza(id) => AutorizarPreserva(t, id);
    case Atiende(id) => AtenderPreserva(t, id);
    case Cancela(id) => CancelarPreserva(t, id);
    case Elimina(id) => EliminarPreserva(t, id);
    case AgregaPersonal(f, ahora) => AdminAgregarPreserva(t, f, ahora);
  }

  /** Any sequence of requests keeps the table valid; in particular no slot
      ever holds two `autorizada` rows. */
  lemma {:induction false} ServirPreserva(t: Tabla, ps: seq<Peticion>)
    requires TablaValida(t)
    ensures TablaValida(Servir(t, ps))
    decreases |ps|
  {
    if ps != [] {
      DespacharPreserva(t, ps[0]);
      ServirPreserva(Despachar(t, ps[0]).tabla, ps[1..]);
    }
  }

  /** The id sequence never moves back. */
  lemma {:induction false} SecuenciaCreciente(t: Tabla, ps: seq<Peticion>)
    ensures Servir(t, ps).siguienteId >= t.siguienteId
    decreases |ps|
  {
    if ps != [] {
      SecuenciaCreciente(Despachar(t, ps[0]).tabla, ps[1..]);
    }
  }

  /** An id that was handed out and is no longer in use (its row was deleted)
      never comes back, whatever requests follow. */
  lemma {:induction false} IdNoReasignado(t: Tabla, ps: seq<Peticion>, k: nat)
    requires k < t.siguienteId && k !in t.filas
    ensures k !in Servir(t, ps).filas
    decreases |ps|
  {
    if ps != [] {
      IdNoReasignado(Despachar(t, ps[0]).tabla, ps[1..], k);
    }
  }

  /** The row under an id keeps its data, apart from its status, for as long
      as the id exists: an id always names the same appointment. */
  lemma {:induction false} DatosPermanentes(t: Tabla, ps: seq<Peticion>, k: nat)
    requires IdsAsignados(t)
    requires k in t.filas && k in Servir(t, ps).filas
    ensures MismosDatos(t.filas[k], Servir(t, ps).filas[k])
    decreases |ps|
  {
    if ps != [] {
      var t1 := Despachar(t, ps[0]).tabla;
      if k in t1.filas {
        DatosPermanentes(t1, ps[1..], k);
      } else {
        IdNoReasignado(t1, ps[1..], k);
      }
    }
  }

  /** Rows `a` and `b` are two distinct `pendiente` rows in the same slot. */
  predicate PendientesMismoHorario(t: Tabla, a: nat, b: nat) {
    && a != b && a in t.filas && b in t.filas
    && t.filas[a].estado == Pendiente && t.filas[b].estado == Pendiente
    && t.filas[a].fecha == t.filas[b].fecha && t.filas[a].hora == t.filas[b].hora
  }

  /** Public bookings are not checked for overlap: two complete, fitting
      forms for the same slot both succeed and leave two `pendiente` rows in
      that slot. */
  lemma ReservasSinControlDeHorario(t: Tabla, f: Formulario, g: Formulario, a1: Instante, a2: Instante)
    requires IdsAsignados(t) && t.siguienteId + 1 <= MaxId
    requires Completo(f) && CabeEnColumnas(f) && Completo(g) && CabeEnColumnas(g)
    requires f.fecha == g.fecha && f.hora == g.hora
    ensures Reservar(t, f, a1).desenlace == Hecho
    ensures Reservar(Reservar(t, f, a1).tabla, g, a2).desenlace == Hecho
    ensures PendientesMismoHorario(
      Reservar(Reservar(t, f, a1).tabla, g, a2).tabla, t.siguienteId, t.siguienteId + 1)
  {
    var n := t.siguienteId;
    ReservaAceptada(t, f, a1);
    var t1 := Reservar(t, f, a1).tabla;
    ReservaAceptada(t1, g, a2);
  }

  /** A booking from a complete, fitting form into a table with ids to spare
      succeeds and adds a `pendiente` row for the form's slot under the next
      id, keeping every earlier row. */
  lemma ReservaAceptada(t: Tabla, f: Formulario, ahora: Instante)
    requires IdsAsignados(t) && t.siguienteId <= MaxId
    requires Completo(f) && CabeEnColumnas(f)
    ensures var r := Reservar(t, f, ahora); var n := t.siguienteId;
      && r.desenlace == Hecho
      && IdsAsignados(r.tabla) && r.tabla.siguienteId == n + 1
      && n in r.tabla.filas && r.tabla.filas[n].estado == Pendiente
      && r.tabla.filas[n].fecha == f.fecha.value && r.tabla.filas[n].hora == f.hora.value
      && forall k :: k in t.filas ==> k in r.tabla.filas && r.tabla.filas[k] == t.filas[k]
  {
  }

  /** Two active rows in one slot block each other's authorization: neither
      of two `pendiente` rows sharing a slot can be authorized until the
      other leaves it. */
  lemma PendientesSeBloquean(t: Tabla, a: nat, b: nat)
    requires a != b && a in t.filas && b in t.filas
    requires t.filas[a].estado == Pendiente && Activo(t.filas[b].estado)
    requires t.filas[a].fecha == t.filas[b].fecha && t.filas[a].hora == t.filas[b].hora
    ensures Autorizar(t, a).desenlace == HorarioOcupado
    ensures Autorizar(t, a).tabla == t
  {
  }

  /** Cancelling the only active row of a slot frees it: staff can then add
      an `autorizada` row there. */
  lemma CancelarLiberaHorario(t: Tabla, id: nat, f: Formulario, ahora: Instante)
    requires id in t.filas
    requires Completo(f) && CabeEnColumnas(f)
    requires f.fecha.value == t.filas[id].fecha && f.hora.value == t.filas[id].hora
    requires forall k :: k in t.filas && Ocupa(t, k, f.fecha.value, f.hora.value, None) ==> k == id
    requires t.siguienteId <= MaxId && t.siguienteId !in t.filas
    ensures HaySolapamiento(t, f.fecha.value, f.hora.value, None) <==> Activo(t.filas[id].estado)
    ensures AdminAgregar(Cancelar(t, id).tabla, f, ahora).desenlace == Hecho
  {
  }

  /** Cancelling twice is cancelling once. */
  lemma CancelarIdempotente(t: Tabla, id: nat)
    ensures Cancelar(Cancelar(t, id).tabla, id) ==
      Respuesta(Cancelar(t, id).tabla, Cancelar(t, id).desenlace)
  {
  }
}
