/** `Pago`: one payment of a sale. Cash may overpay and gives change; every
    other method must pay the exact amount, and electronic methods need a
    reference. */
module Pagos {
  import opened Outcomes
  import opened Text

  datatype TipoPago = Efectivo | TarjetaDebito | TarjetaCredito | Transferencia | Mixto

  datatype Pago = Pago(
    ventaId: Guid,
    monto: real,
    tipoPago: TipoPago,
    fechaPago: Instant,
    referencia: string,
    cambio: real)

  datatype PagoError =
    | VentaRequerida
    | MontoNoPositivo
    | TotalNoPositivo
    | PagoInsuficiente
    | MontoNoExacto
    | ReferenciaRequerida

  /** The methods that need an authorisation reference. */
  predicate EsElectronico(t: TipoPago) {
    t == TarjetaDebito || t == TarjetaCredito || t == Transferencia
  }

  /** `Pago.Crear`, paid at instant `now`. */
  function Crear(ventaId: Guid, monto: real, tipoPago: TipoPago, totalVenta: real,
                 referencia: Option<string>, now: Instant): (r: Result<Pago, PagoError>)
    ensures r.Success? <==>
      && ventaId != EmptyGuid && monto > 0.0 && totalVenta > 0.0 && monto >= totalVenta
      && (tipoPago != Efectivo ==> monto == totalVenta)
      && (EsElectronico(tipoPago) ==> !IsNullOrWhiteSpace(referencia))
    ensures ventaId == EmptyGuid ==> r == Failure(VentaRequerida)
    ensures ventaId != EmptyGuid && monto > 0.0 && totalVenta > 0.0 && monto < totalVenta
            ==> r == Failure(PagoInsuficiente)
    ensures r.Success? ==> r.value.cambio >= 0.0 && r.value.monto == totalVenta + r.value.cambio
    ensures r.Success? && tipoPago != Efectivo ==> r.value.cambio == 0.0
    ensures r.Success? ==> r.value.referencia == (if referencia.None? then "" else referencia.value)
    ensures r.Success? ==> (r.value.ventaId == ventaId && r.value.monto == monto && r.value.tipoPago == tipoPago
                            && r.value.fechaPago == now)
  {
    if ventaId == EmptyGuid then Failure(VentaRequerida)
    else if monto <= 0.0 then Failure(MontoNoPositivo)
    else if totalVenta <= 0.0 then Failure(TotalNoPositivo)
    else if monto < totalVenta then Failure(PagoInsuficiente)
    else if tipoPago != Efectivo && monto != totalVenta then Failure(MontoNoExacto)
    else if EsElectronico(tipoPago) && IsNullOrWhiteSpace(referencia) then Failure(ReferenciaRequerida)
    else
      var cambio := if tipoPago == Efectivo then monto - totalVenta else 0.0;
      Success(Pago(ventaId, monto, tipoPago, now, if referencia.None? then "" else referencia.value, cambio))
  }

  /** Mixto is not electronic: it pays the exact amount and needs no
      reference, unlike a card payment of the same amount. */
  lemma MixtoSinReferencia(ventaId: Guid, total: real, now: Instant)
    requires ventaId != EmptyGuid && total > 0.0
    ensures Crear(ventaId, total, Mixto, total, None, now).Success?
    ensures Crear(ventaId, total, TarjetaCredito, total, None, now) == Failure(ReferenciaRequerida)
    ensures Crear(ventaId, total + 1.0, TarjetaCredito, total, Some("A1"), now) == Failure(MontoNoExacto)
    ensures Crear(ventaId, total + 1.0, Efectivo, total, None, now).value.cambio == 1.0
  {
  }
}
