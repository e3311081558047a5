/** `MovimientoCaja`: one immutable entry of a cash drawer's ledger. Its
    factory normalises the sign of the amount by kind: outflows are stored
    negative, inflows must not be negative. */
module MovimientosCaja {
  import opened Outcomes
  import opened Text

  datatype TipoMovimientoCaja = Apertura | Venta | CancelacionVenta | Retiro | Deposito | Cierre | Ajuste

  datatype MovimientoCaja = MovimientoCaja(
    cajaId: Guid,
    tipo: TipoMovimientoCaja,
    monto: real,
    concepto: string,
    referencia: string,
    usuarioId: Guid,
    fecha: Instant)

  datatype MovimientoCajaError =
    | CajaRequerida
    | ConceptoRequerido
    | ConceptoMuyLargo
    | UsuarioRequerido
    | MontoDebeSerPositivo(tipo: TipoMovimientoCaja)

  const LongitudMaximaConcepto: int := 500

  /** Kinds whose amount leaves the drawer. */
  predicate EsSalida(t: TipoMovimientoCaja) {
    t == CancelacionVenta || t == Retiro
  }

  /** Kinds whose amount enters the drawer. */
  predicate EsEntrada(t: TipoMovimientoCaja) {
    t == Venta || t == Deposito || t == Apertura
  }

  function Abs(x: real): real {
    if x < 0.0 then -x else x
  }

  /** `MovimientoCaja.Crear`, dated `now`. */
  function Crear(cajaId: Guid, tipo: TipoMovimientoCaja, monto: real, concepto: Option<string>,
                 usuarioId: Guid, referencia: Option<string>, now: Instant)
    : (r: Result<MovimientoCaja, MovimientoCajaError>)
    ensures r.Success? <==>
      && cajaId != EmptyGuid && !IsNullOrWhiteSpace(concepto)
      && Utf16Length(concepto.value) <= LongitudMaximaConcepto && usuarioId != EmptyGuid
      && !(EsEntrada(tipo) && monto < 0.0)
    ensures cajaId == EmptyGuid ==> r == Failure(CajaRequerida)
    ensures cajaId != EmptyGuid && IsNullOrWhiteSpace(concepto) ==> r == Failure(ConceptoRequerido)
    ensures r.Failure? && r.error.MontoDebeSerPositivo? ==> EsEntrada(tipo) && monto < 0.0
    ensures r.Success? && EsSalida(tipo) ==> r.value.monto == -Abs(monto) && r.value.monto <= 0.0
    ensures r.Success? && EsEntrada(tipo) ==> r.value.monto == monto && r.value.monto >= 0.0
    ensures r.Success? && (tipo == Ajuste || tipo == Cierre) ==> r.value.monto == monto
    ensures r.Success? ==> Abs(r.value.monto) == Abs(monto)
    ensures r.Success? ==> (r.value.concepto == Trim(concepto.value) && r.value.referencia == TrimOrEmpty(referencia)
                            && r.value.cajaId == cajaId && r.value.tipo == tipo
                            && r.value.usuarioId == usuarioId && r.value.fecha == now)
  {
    if cajaId == EmptyGuid then Failure(CajaRequerida)
    else if IsNullOrWhiteSpace(concepto) then Failure(ConceptoRequerido)
    else if Utf16Length(concepto.value) > LongitudMaximaConcepto then Failure(ConceptoMuyLargo)
    else if usuarioId == EmptyGuid then Failure(UsuarioRequerido)
    else
      var m := if EsSalida(tipo) && monto > 0.0 then -Abs(monto) else monto;
      if EsEntrada(tipo) && m < 0.0 then Failure(MontoDebeSerPositivo(tipo))
      else Success(MovimientoCaja(cajaId, tipo, m, Trim(concepto.value), TrimOrEmpty(referencia), usuarioId, now))
  }

  /** Outflows are stored non-positive and inflows non-negative. */
  predicate SignoSegunTipo(m: MovimientoCaja) {
    && (EsSalida(m.tipo) ==> m.monto <= 0.0)
    && (EsEntrada(m.tipo) ==> m.monto >= 0.0)
  }

  /** What every movement the factory builds satisfies. */
  predicate Normalizado(m: MovimientoCaja) {
    && m.cajaId != EmptyGuid && m.usuarioId != EmptyGuid
    && !IsBlank(m.concepto) && Utf16Length(m.concepto) <= LongitudMaximaConcepto
    && m.concepto == Trim(m.concepto) && m.referencia == Trim(m.referencia)
    && SignoSegunTipo(m)
  }

  /** The factory produces normalised movements, and a normalised movement
      is a fixed point: building it again from its own fields gives it back. */
  lemma CrearNormaliza(cajaId: Guid, tipo: TipoMovimientoCaja, monto: real, concepto: Option<string>,
                       usuarioId: Guid, referencia: Option<string>, now: Instant)
    ensures var r := Crear(cajaId, tipo, monto, concepto, usuarioId, referencia, now);
      r.Success? ==> Normalizado(r.value)
  {
    var r := Crear(cajaId, tipo, monto, concepto, usuarioId, referencia, now);
    if r.Success? {
      TrimIdempotent(concepto.value);
      TrimUtf16Length(concepto.value);
      if referencia.Some? {
        TrimIdempotent(referencia.value);
      }
      assert !IsBlank(r.value.concepto);
    }
  }

  lemma CrearDesdeNormalizado(m: MovimientoCaja)
    requires Normalizado(m)
    ensures Crear(m.cajaId, m.tipo, m.monto, Some(m.concepto), m.usuarioId, Some(m.referencia), m.fecha) == Success(m)
  {
  }
}
