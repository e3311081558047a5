/** `ReservaInventario`: a hold of stock for an open sale. It has four states
    and an expiry instant; "now" is an explicit parameter. */
module Reservas {
  import opened Outcomes
  import opened Text

  datatype EstadoReserva = Activa | Confirmada | Cancelada | Expirada

  datatype Reserva = Reserva(
    productoId: Guid,
    ventaId: Guid,
    cantidad: int,
    fechaExpiracion: Instant,
    estado: EstadoReserva,
    fechaConfirmacion: Option<Instant>,
    fechaCancelacion: Option<Instant>,
    motivoCancelacion: Option<string>)

  datatype ReservaError =
    | ProductoRequerido
    | VentaRequerida
    | CantidadNoPositiva
    | MinutosFueraDeRango
    | EstadoNoActivo(estado: EstadoReserva)
    | ReservaExpirada
    | MotivoRequerido
    | AunNoExpira

  const MotivoExpiracion: string := "Reserva expirada automáticamente por timeout"

  /** Minutes accepted for an expiry window or an extension. */
  predicate MinutosValidos(minutos: int) {
    1 <= minutos <= 60
  }

  /** `ReservaInventario.Crear` (the default window of 15 minutes is the
      caller's business). */
  function Crear(productoId: Guid, ventaId: Guid, cantidad: int, minutosExpiracion: int, now: Instant)
    : (r: Result<Reserva, ReservaError>)
    ensures r.Success? <==>
      productoId != EmptyGuid && ventaId != EmptyGuid && cantidad > 0 && MinutosValidos(minutosExpiracion)
    ensures productoId == EmptyGuid ==> r == Failure(ProductoRequerido)
    ensures productoId != EmptyGuid && ventaId == EmptyGuid ==> r == Failure(VentaRequerida)
    ensures r.Success? ==> r.value.estado == Activa && r.value.cantidad == cantidad
    ensures r.Success? ==> r.value.fechaExpiracion == now + minutosExpiracion * TicksPerMinute
    ensures r.Success? ==> r.value.fechaExpiracion > now
    ensures r.Success? ==> r.value.productoId == productoId && r.value.ventaId == ventaId
    ensures r.Success? ==> r.value.fechaConfirmacion.None? && r.value.fechaCancelacion.None?
  {
    if productoId == EmptyGuid then Failure(ProductoRequerido)
    else if ventaId == EmptyGuid then Failure(VentaRequerida)
    else if cantidad <= 0 then Failure(CantidadNoPositiva)
    else if !MinutosValidos(minutosExpiracion) then Failure(MinutosFueraDeRango)
    else Success(Reserva(productoId, ventaId, cantidad, AddMinutes(now, minutosExpiracion),
                         Activa, None, None, None))
  }

  /** `EstaExpirada`: an active hold whose expiry lies strictly in the past. */
  predicate EstaExpirada(res: Reserva, now: Instant) {
    now > res.fechaExpiracion && res.estado == Activa
  }

  /** `Confirmar`: the sale finished in time. */
  function Confirmar(res: Reserva, now: Instant): (r: Outcome<Reserva, ReservaError>)
    ensures r.Ok? <==> res.estado == Activa && now <= res.fechaExpiracion
    ensures res.estado != Activa ==> r == Fail(EstadoNoActivo(res.estado))
    ensures res.estado == Activa && now > res.fechaExpiracion ==> r == Fail(ReservaExpirada)
    ensures r.Ok? ==> r.value == res.(estado := Confirmada, fechaConfirmacion := Some(now))
    ensures !r.InvariantViolated?
  {
    if res.estado != Activa then Fail(EstadoNoActivo(res.estado))
    else if EstaExpirada(res, now) then Fail(ReservaExpirada)
    else Ok(res.(estado := Confirmada, fechaConfirmacion := Some(now)))
  }

  /** `Cancelar`: manual cancellation with a reason, stored trimmed. */
  function Cancelar(res: Reserva, motivo: Option<string>, now: Instant): (r: Outcome<Reserva, ReservaError>)
    ensures r.Ok? <==> res.estado == Activa && !IsNullOrWhiteSpace(motivo)
    ensures res.estado != Activa ==> r == Fail(EstadoNoActivo(res.estado))
    ensures r.Ok? ==> r.value == res.(estado := Cancelada, fechaCancelacion := Some(now),
                                      motivoCancelacion := Some(Trim(motivo.value)))
    ensures r.Ok? ==> r.value.motivoCancelacion.value != []
    ensures !r.InvariantViolated?
  {
    if res.estado != Activa then Fail(EstadoNoActivo(res.estado))
    else if IsNullOrWhiteSpace(motivo) then Fail(MotivoRequerido)
    else Ok(res.(estado := Cancelada, fechaCancelacion := Some(now),
                 motivoCancelacion := Some(Trim(motivo.value))))
  }

  /** `Expirar`: the background sweep retires an expired hold. */
  function Expirar(res: Reserva, now: Instant): (r: Outcome<Reserva, ReservaError>)
    ensures r.Ok? <==> res.estado == Activa && now > res.fechaExpiracion
    ensures res.estado != Activa ==> r == Fail(EstadoNoActivo(res.estado))
    ensures res.estado == Activa && now <= res.fechaExpiracion ==> r == Fail(AunNoExpira)
    ensures r.Ok? ==> r.value == res.(estado := Expirada, fechaCancelacion := Some(now),
                                      motivoCancelacion := Some(MotivoExpiracion))
    ensures !r.InvariantViolated?
  {
    if res.estado != Activa then Fail(EstadoNoActivo(res.estado))
    else if !EstaExpirada(res, now) then Fail(AunNoExpira)
    else Ok(res.(estado := Expirada, fechaCancelacion := Some(now),
                 motivoCancelacion := Some(MotivoExpiracion)))
  }

  /** `ExtenderExpiracion`: pushes the expiry back by 1 to 60 minutes. */
  function ExtenderExpiracion(res: Reserva, minutosAdicionales: int): (r: Outcome<Reserva, ReservaError>)
    ensures r.Ok? <==> res.estado == Activa && MinutosValidos(minutosAdicionales)
    ensures res.estado != Activa ==> r == Fail(EstadoNoActivo(res.estado))
    ensures r.Ok? ==> r.value == res.(fechaExpiracion :=
                                        res.fechaExpiracion + minutosAdicionales * TicksPerMinute)
    ensures r.Ok? ==> r.value.fechaExpiracion > res.fechaExpiracion
    ensures !r.InvariantViolated?
  {
    if res.estado != Activa then Fail(EstadoNoActivo(res.estado))
    else if !MinutosValidos(minutosAdicionales) then Fail(MinutosFueraDeRango)
    else Ok(res.(fechaExpiracion := AddMinutes(res.fechaExpiracion, minutosAdicionales)))
  }

  datatype Operacion =
    | OpConfirmar(now: Instant)
    | OpCancelar(motivo: Option<string>, now: Instant)
    | OpExpirar(now: Instant)
    | OpExtender(minutos: int)

  function Aplicar(res: Reserva, op: Operacion): Outcome<Reserva, ReservaError> {
    match op
    case OpConfirmar(now) => Confirmar(res, now)
    case OpCancelar(m, now) => Cancelar(res, m, now)
    case OpExpirar(now) => Expirar(res, now)
    case OpExtender(k) => ExtenderExpiracion(res, k)
  }

  /** Confirmada, Cancelada and Expirada are terminal: every operation
      fails on them. Only an active hold can change, and an extension keeps
      it active. */
  lemma EstadosTerminales(res: Reserva, op: Operacion)
    ensures res.estado != Activa ==> Aplicar(res, op) == Fail(EstadoNoActivo(res.estado))
    ensures Aplicar(res, op).Ok? ==> res.estado == Activa
    ensures op.OpExtender? && Aplicar(res, op).Ok? ==> Aplicar(res, op).value.estado == Activa
  {
  }

  /** Confirm and expire partition the states of an active hold in time: at
      any instant exactly one of them is possible. */
  lemma ConfirmarOExpirar(res: Reserva, now: Instant)
    requires res.estado == Activa
    ensures Confirmar(res, now).Ok? != Expirar(res, now).Ok?
    ensures Expirar(res, now).Ok? <==> EstaExpirada(res, now)
  {
  }

  /** A hold created now with a window of `m` minutes can be confirmed up to
      and including its expiry, and expired from the next tick on. */
  lemma EscenarioExpiracion(productoId: Guid, ventaId: Guid, cantidad: int, m: int, now: Instant)
    requires productoId != EmptyGuid && ventaId != EmptyGuid && cantidad > 0 && MinutosValidos(m)
    ensures var res := Crear(productoId, ventaId, cantidad, m, now).value;
      && Confirmar(res, now + m * TicksPerMinute).Ok?
      && Expirar(res, now + m * TicksPerMinute) == Fail(AunNoExpira)
      && Confirmar(res, now + m * TicksPerMinute + 1) == Fail(ReservaExpirada)
      && Expirar(res, now + m * TicksPerMinute + 1).Ok?
  {
  }
}
