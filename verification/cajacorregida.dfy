/** `Caja` with its balance rule corrected: the computed balance is the sum
    of the ledger alone (the opening entry already holds the float), and a
    movement moves the running balance by the amount actually stored. With
    these two changes the ledger check can never fail. Creation, opening,
    the closing entries and the wrappers' arguments are those of `Cajas`. */
module CajasCorregidas {
  import opened Outcomes
  import opened Sumas
  import Text
  import opened MovimientosCaja
  import Cajas

  type Caja = Cajas.Caja
  type CajaError = Cajas.CajaError

  /** The balance the ledger accounts for. */
  function SaldoCalculado(c: Caja): real {
    Suma(c.movimientos, Cajas.Monto)
  }

  /** The three checks of `ValidarInvariantes` over the corrected balance. */
  predicate Consistente(c: Caja) {
    && !(Abs(c.saldoActual - SaldoCalculado(c)) > Cajas.Tolerancia)
    && !(c.saldoActual < 0.0)
    && !(!c.estaAbierta && c.fechaCierre.None?)
  }

  function Verificado(c: Caja): (r: Outcome<Caja, CajaError>)
    ensures r.Ok? <==> Consistente(c)
    ensures r.Ok? ==> r.value == c
    ensures !r.Fail?
  {
    if Consistente(c) then Ok(c) else InvariantViolated
  }

  /** What every reachable drawer satisfies: the balance is never negative
      and, while the drawer is open, it equals what the ledger adds up to. */
  predicate Cuadrada(c: Caja) {
    c.saldoActual >= 0.0 && (c.estaAbierta ==> c.saldoActual == SaldoCalculado(c))
  }

  /** A freshly created drawer is balanced. */
  lemma CrearCuadra(id: EntityId, numeroCaja: int, nombre: Option<string>)
    ensures var n := Cajas.Crear(id, numeroCaja, nombre); n.Success? ==> Cuadrada(n.value)
  {
  }

  /** Opening balances any drawer: the ledger restarts with the float. */
  lemma AbrirCuadra(c: Caja, fondoInicial: real, usuarioId: Guid, now: Instant)
    ensures var a := Cajas.Abrir(c, fondoInicial, usuarioId, now); a.Ok? ==> Cuadrada(a.value)
  {
  }

  /** `Cerrar` with the corrected balance: the difference is the count
      against the ledger's sum, and after the closing entries the ledger
      adds up to exactly the count. */
  function Cerrar(c: Caja, saldoDeclarado: real, usuarioId: Guid, observaciones: Option<string>, now: Instant)
    : (r: Outcome<Caja, CajaError>)
    ensures r.Ok? <==> c.estaAbierta && saldoDeclarado >= 0.0 && usuarioId != EmptyGuid
    ensures r.Ok? ==> r.value.diferencia == Some(saldoDeclarado - SaldoCalculado(c))
    ensures r.Ok? ==> SaldoCalculado(r.value) == saldoDeclarado
    ensures r.Ok? ==> !r.value.estaAbierta && r.value.saldoActual == c.saldoActual
    ensures !r.InvariantViolated?
  {
    Cajas.CerrarCon(c, saldoDeclarado, usuarioId, observaciones, now, SaldoCalculado(c))
  }

  /** A drawer balanced at the close records no difference exactly when the
      count equals the running balance. */
  lemma CierreSinDiferencia(c: Caja, saldoDeclarado: real, usuarioId: Guid, observaciones: Option<string>,
                            now: Instant)
    requires Cuadrada(c)
    ensures var r := Cerrar(c, saldoDeclarado, usuarioId, observaciones, now);
      r.Ok? ==> (r.value.diferencia == Some(0.0) <==> saldoDeclarado == c.saldoActual)
  {
  }

  /** `RegistrarMovimiento` with the balance moved by the stored amount. */
  function RegistrarMovimiento(c: Caja, tipo: TipoMovimientoCaja, monto: real, concepto: Option<string>,
                               usuarioId: Guid, referencia: Option<string>, now: Instant)
    : (r: Outcome<Caja, CajaError>)
    ensures !c.estaAbierta ==> r == Fail(Cajas.NoAbierta)
    ensures c.estaAbierta && (tipo == Apertura || tipo == Cierre) ==> r == Fail(Cajas.UsarAbrirOCerrar)
    ensures var m := MovimientosCaja.Crear(c.id, tipo, monto, concepto, usuarioId, referencia, now);
      && (c.estaAbierta && tipo != Apertura && tipo != Cierre && m.Failure?
          ==> r == Fail(Cajas.MovimientoRechazado(m.error)))
      && (c.estaAbierta && tipo != Apertura && tipo != Cierre && m.Success? && c.saldoActual + m.value.monto < 0.0
          ==> r == Fail(Cajas.DejariaSaldoNegativo))
      && (r.Ok? ==> m.Success? && r.value.movimientos == c.movimientos + [m.value]
                    && r.value.saldoActual == c.saldoActual + m.value.monto)
    ensures r.Ok? ==> r.value.saldoActual >= 0.0 && r.value.estaAbierta && Consistente(r.value)
    ensures r.Ok? ==> r.value == c.(movimientos := r.value.movimientos, saldoActual := r.value.saldoActual)
    ensures Cuadrada(c) ==> !r.InvariantViolated? && (r.Ok? ==> Cuadrada(r.value))
  {
    if !c.estaAbierta then Fail(Cajas.NoAbierta)
    else if tipo == Apertura || tipo == Cierre then Fail(Cajas.UsarAbrirOCerrar)
    else
      match MovimientosCaja.Crear(c.id, tipo, monto, concepto, usuarioId, referencia, now)
      case Failure(e) => Fail(Cajas.MovimientoRechazado(e))
      case Success(m) =>
        var nuevoSaldo := c.saldoActual + m.monto;
        if nuevoSaldo < 0.0 then Fail(Cajas.DejariaSaldoNegativo)
        else
          SumaAgregar(c.movimientos, m, Cajas.Monto);
          Verificado(c.(movimientos := c.movimientos + [m], saldoActual := nuevoSaldo))
  }

  /** On a balanced drawer a movement is accepted exactly when the drawer is
      open, the kind is not an opening or closing, the factory accepts the
      entry and the stored amount keeps the balance non-negative. */
  lemma MovimientoAceptado(c: Caja, tipo: TipoMovimientoCaja, monto: real, concepto: Option<string>,
                           usuarioId: Guid, referencia: Option<string>, now: Instant)
    requires Cuadrada(c)
    ensures var m := MovimientosCaja.Crear(c.id, tipo, monto, concepto, usuarioId, referencia, now);
      RegistrarMovimiento(c, tipo, monto, concepto, usuarioId, referencia, now).Ok? <==>
        c.estaAbierta && tipo != Apertura && tipo != Cierre && m.Success? && c.saldoActual + m.value.monto >= 0.0
  {
  }

  function RegistrarVenta(c: Caja, monto: real, folioVenta: Option<string>, usuarioId: Guid, now: Instant)
    : (r: Outcome<Caja, CajaError>)
    ensures r.Ok? ==> monto >= 0.0 && r.value.saldoActual == c.saldoActual + monto
    ensures Cuadrada(c) ==> !r.InvariantViolated? && (r.Ok? ==> Cuadrada(r.value))
  {
    RegistrarMovimiento(c, Venta, monto, Some(Cajas.ConceptoConFolio(Cajas.PrefijoVenta, folioVenta)),
                        usuarioId, folioVenta, now)
  }

  /** A cancellation takes the sale's amount out of the drawer whatever
      sign it is passed with. */
  function RegistrarCancelacion(c: Caja, monto: real, folioVenta: Option<string>, usuarioId: Guid, now: Instant)
    : (r: Outcome<Caja, CajaError>)
    ensures r.Ok? ==> r.value.saldoActual == c.saldoActual - Abs(monto)
    ensures Cuadrada(c) ==> !r.InvariantViolated? && (r.Ok? ==> Cuadrada(r.value))
  {
    RegistrarMovimiento(c, CancelacionVenta, -monto, Some(Cajas.ConceptoConFolio(Cajas.PrefijoCancelacion, folioVenta)),
                        usuarioId, folioVenta, now)
  }

  function RegistrarRetiro(c: Caja, monto: real, motivo: Option<string>, usuarioId: Guid, now: Instant)
    : (r: Outcome<Caja, CajaError>)
    ensures monto <= 0.0 ==> r == Fail(Cajas.MontoNoPositivo)
    ensures r.Ok? ==> monto > 0.0 && r.value.saldoActual == c.saldoActual - monto
    ensures c.estaAbierta && monto > c.saldoActual ==> !r.Ok?
    ensures Cuadrada(c) ==> !r.InvariantViolated? && (r.Ok? ==> Cuadrada(r.value))
  {
    if monto <= 0.0 then Fail(Cajas.MontoNoPositivo)
    else RegistrarMovimiento(c, Retiro, -monto, motivo, usuarioId, None, now)
  }

  function RegistrarDeposito(c: Caja, monto: real, motivo: Option<string>, usuarioId: Guid, now: Instant)
    : (r: Outcome<Caja, CajaError>)
    ensures monto <= 0.0 ==> r == Fail(Cajas.MontoNoPositivo)
    ensures r.Ok? ==> monto > 0.0 && r.value.saldoActual == c.saldoActual + monto
    ensures Cuadrada(c) ==> !r.InvariantViolated? && (r.Ok? ==> Cuadrada(r.value))
  {
    if monto <= 0.0 then Fail(Cajas.MontoNoPositivo)
    else RegistrarMovimiento(c, Deposito, monto, motivo, usuarioId, None, now)
  }

  // ---------------------------------------------------------------------
  // Sequences of operations
  // ---------------------------------------------------------------------

  datatype Operacion =
    | OpAbrir(fondoInicial: real, usuarioId: Guid, now: Instant)
    | OpCerrar(saldoDeclarado: real, usuarioId: Guid, observaciones: Option<string>, now: Instant)
    | OpVenta(monto: real, folioVenta: Option<string>, usuarioId: Guid, now: Instant)
    | OpCancelacion(monto: real, folioVenta: Option<string>, usuarioId: Guid, now: Instant)
    | OpRetiro(monto: real, motivo: Option<string>, usuarioId: Guid, now: Instant)
    | OpDeposito(monto: real, motivo: Option<string>, usuarioId: Guid, now: Instant)

  function Aplicar(c: Caja, op: Operacion): Outcome<Caja, CajaError> {
    match op
    case OpAbrir(f, u, now) => Cajas.Abrir(c, f, u, now)
    case OpCerrar(d, u, obs, now) => Cerrar(c, d, u, obs, now)
    case OpVenta(m, folio, u, now) => RegistrarVenta(c, m, folio, u, now)
    case OpCancelacion(m, folio, u, now) => RegistrarCancelacion(c, m, folio, u, now)
    case OpRetiro(m, motivo, u, now) => RegistrarRetiro(c, m, motivo, u, now)
    case OpDeposito(m, motivo, u, now) => RegistrarDeposito(c, m, motivo, u, now)
  }

  /** Runs the operations in order; a refused one leaves the drawer as it was. */
  function Ejecutar(c: Caja, ops: seq<Operacion>): Outcome<Caja, CajaError>
    decreases |ops|
  {
    if |ops| == 0 then Ok(c)
    else
      match Aplicar(c, ops[0])
      case Ok(d) => Ejecutar(d, ops[1..])
      case Fail(_) => Ejecutar(c, ops[1..])
      case InvariantViolated => InvariantViolated
  }

  lemma AplicarCuadra(c: Caja, op: Operacion)
    requires Cuadrada(c)
    ensures !Aplicar(c, op).InvariantViolated?
    ensures Aplicar(c, op).Ok? ==> Cuadrada(Aplicar(c, op).value)
  {
    match op
    case OpAbrir(f, u, now) => AbrirCuadra(c, f, u, now);
    case _ =>
  }

  /** From a balanced drawer (every freshly created one is), no sequence of
      operations ever trips the ledger check, and the drawer stays balanced. */
  lemma {:induction false} EjecutarCuadra(c: Caja, ops: seq<Operacion>)
    requires Cuadrada(c)
    ensures Ejecutar(c, ops).Ok? && Cuadrada(Ejecutar(c, ops).value)
    decreases |ops|
  {
    if |ops| > 0 {
      AplicarCuadra(c, ops[0]);
      match Aplicar(c, ops[0])
      case Ok(d) => EjecutarCuadra(d, ops[1..]);
      case Fail(_) => EjecutarCuadra(c, ops[1..]);
    }
  }

  // ---------------------------------------------------------------------
  // Scenarios
  // ---------------------------------------------------------------------

  /** A sale of a non-negative amount on an open, balanced drawer is
      accepted whenever its folio fits the concept, and adds its amount. */
  lemma VentaAceptada(c: Caja, monto: real, folio: string, usuarioId: Guid, now: Instant)
    requires Cuadrada(c) && c.estaAbierta && usuarioId != EmptyGuid
    requires monto >= 0.0 && Text.Utf16Length(Cajas.ConceptoConFolio(Cajas.PrefijoVenta, Some(folio))) <= LongitudMaximaConcepto
    ensures var r := RegistrarVenta(c, monto, Some(folio), usuarioId, now);
      r.Ok? && r.value.estaAbierta && r.value.saldoActual == c.saldoActual + monto
  {
    var concepto := Cajas.ConceptoConFolio(Cajas.PrefijoVenta, Some(folio));
    assert !Text.IsWhiteSpace(concepto[0]);
    assert MovimientosCaja.Crear(c.id, Venta, monto, Some(concepto), usuarioId, Some(folio), now).Success?;
    MovimientoAceptado(c, Venta, monto, Some(concepto), usuarioId, Some(folio), now);
  }

  /** A withdrawal with a reason, of a positive amount no larger than the
      balance, is accepted on an open, balanced drawer and takes its amount
      out. */
  lemma RetiroAceptado(c: Caja, monto: real, motivo: string, usuarioId: Guid, now: Instant)
    requires Cuadrada(c) && c.estaAbierta && usuarioId != EmptyGuid
    requires 0.0 < monto <= c.saldoActual && !Text.IsBlank(motivo) && Text.Utf16Length(motivo) <= LongitudMaximaConcepto
    ensures var r := RegistrarRetiro(c, monto, Some(motivo), usuarioId, now);
      r.Ok? && r.value.estaAbierta && r.value.saldoActual == c.saldoActual - monto
  {
    assert MovimientosCaja.Crear(c.id, Retiro, -monto, Some(motivo), usuarioId, None, now).Success?;
    MovimientoAceptado(c, Retiro, -monto, Some(motivo), usuarioId, None, now);
  }

  /** The cash scenario: a float of 500.00, a sale of 23.20 and a withdrawal
      of 50.00 leave 473.20 in the drawer, and counting 473.20 at the close
      records no difference. */
  lemma EscenarioCaja(c: Caja, usuarioId: Guid, now: Instant, folio: string, motivo: string)
    requires !c.estaAbierta && usuarioId != EmptyGuid
    requires !Text.IsBlank(motivo) && Text.Utf16Length(motivo) <= LongitudMaximaConcepto && Text.Utf16Length(folio) <= 400
    ensures var a := Cajas.Abrir(c, 500.0, usuarioId, now);
      && a.Ok?
      && RegistrarVenta(a.value, 23.2, Some(folio), usuarioId, now).Ok?
      && var v := RegistrarVenta(a.value, 23.2, Some(folio), usuarioId, now).value;
      && v.saldoActual == 523.2
      && RegistrarRetiro(v, 50.0, Some(motivo), usuarioId, now).Ok?
      && var w := RegistrarRetiro(v, 50.0, Some(motivo), usuarioId, now).value;
      && w.saldoActual == 473.2
      && Cerrar(w, 473.2, usuarioId, None, now).Ok?
      && Cerrar(w, 473.2, usuarioId, None, now).value.diferencia == Some(0.0)
  {
    var a := Cajas.Abrir(c, 500.0, usuarioId, now).value;
    AbrirCuadra(c, 500.0, usuarioId, now);
    Text.Utf16Concat(Cajas.PrefijoVenta, folio);
    assert Cajas.ConceptoConFolio(Cajas.PrefijoVenta, Some(folio)) == Cajas.PrefijoVenta + folio;
    VentaAceptada(a, 23.2, folio, usuarioId, now);
    var v := RegistrarVenta(a, 23.2, Some(folio), usuarioId, now).value;
    RetiroAceptado(v, 50.0, motivo, usuarioId, now);
    var w := RegistrarRetiro(v, 50.0, Some(motivo), usuarioId, now).value;
    CierreSinDiferencia(w, 473.2, usuarioId, None, now);
  }

  /** The cancellation that unbalanced the drawer as written: passed a
      negative amount, it is now refused because the stored outflow would
      take the balance below zero. */
  lemma CancelacionNegativaRechazada(c: Caja, usuarioId: Guid, now: Instant)
    requires Cajas.Abrir(c, 0.0, usuarioId, now).Ok?
    ensures RegistrarCancelacion(Cajas.Abrir(c, 0.0, usuarioId, now).value, -5.0, Some(Cajas.FolioEjemplo),
                                 usuarioId, now) == Fail(Cajas.DejariaSaldoNegativo)
  {
    var concepto := Cajas.ConceptoConFolio(Cajas.PrefijoCancelacion, Some(Cajas.FolioEjemplo));
    assert !Text.IsWhiteSpace(concepto[0]);
  }
}
